# Verification of diskspd-for-linux

diskspd-for-linux is a disk load generator: a Job lays out its target files, starts worker threads that keep a
fixed number of asynchronous block reads and writes going, records what completes during the main duration, and
prints statistics. This project models its core in Dafny and proves what that core is for:

* **Asynchronous I/O managers.** Both implementations of enqueue / submit / wait keep one contract for each group:
  an operation is with the client, queued, or in flight, and never in two of these places; submit moves the whole
  queue; wait returns an operation of that group that was submitted, once. The kernel manager (`KernelAio`) is a
  class with its private in-flight map and its reference-counted arrays. The POSIX manager is a step machine
  (`PosixInterleaving`) in which every mutex section and every call into the operating system is one step, so that
  the shared in-flight map and id counter are exercised by all interleavings; `PosixAio` is the code over the shared
  fields, proved against those steps, and `PosixContract` proves that every interleaving refines the contract.
* **The worker loop.** `Worker` gives a thread's steps as functions of what it reads from outside (clock, flags,
  random engine, which operation completed), `ThreadFunc` is the loop as code, and `System` runs all threads with the
  offset they share. Queue depth, recording, the throttle and the latencies are proved over whole runs.
  `History` tells from a run alone what its results are: which passes are recorded, as reads or writes, and with what
  latency. `PosixDepth`
  and `KernelDepth` put the loop on the two managers, through the calls it makes (`WorkerCalls`), and `Throttle` takes what the throttle bound needs of the shared flag and the
  clock from the runs of the protocol.
* **Offsets and the checks that keep them safe.** `Target` has the generators, `Profile` the options and the
  per-target checks, `Job` the checks before a run and the distribution of targets over threads. Together they give
  containment of every block in its file from the command line on.
* **Statistics.** `Histogram` and `IoBucketizer` keep counts instead of samples. They are proved to say about the
  list of samples what they should: percentile, minimum, maximum, mean, variance and merge. `TargetResults` ties
  them to what the worker loop records.
* **The start, record and stop protocol** between the Job and its threads (`Protocol`), the **aligned buffers**
  (`TargetBuffer`, `Bits`), and the **CPU list parser** (`SysInfo`).

The operating system is a nondeterministic environment. It may complete any started operation at any moment, and
`aio_suspend` returns when one of the listed operations has completed (System Interfaces volume of IEEE Std
1003.1-2017, chapter 3). Clocks are assumed not to run backwards. `get_rand_offset(n)` is assumed to return a value
in [0, n). Numbers written as `double` in the source are exact reals here.

Where a claim is false of the code, there is a theorem that says exactly when the code meets it:

* the options text says that `-r` without a value aligns to the block size; the code keeps 64K
  (`Profile.RandomAlignmentDefault`);
* the Total column of the latency table counts earlier results again (`TargetResults.TotalColumn`);
* the number of valid buckets is computed from a 32-bit product (`IoBucketizer.ValidBucketsCover`);
* a CPU range that reaches over the largest `int` overflows its counter (`SysInfo.RoundTrip`);
* an operation can be recorded with a stamp older than the start time. From the moment at which the Job takes the
  start time, a thread can come to do so if and only if it has by then read the clock of an operation, earlier than
  that moment, and not yet the flag (`Protocol.EarlyExactly`, `Protocol.EarlyCause`); each thread does so at most once
  (`Protocol.AtMostOneEarly`). With -D the time since the start wraps around, the operation counts in no valid bucket,
  and the bucket vector has to grow beyond 9 * 10^15 / (bucket length in ms) entries (`TargetResults.EarlySample`): the
  source's resize would normally fail at that size;
* `run_job` can return true although a thread has failed (`Protocol.MissedError`). When it returns true, a thread has
  reported an error if and only if the report came after the Job's last check (`Protocol.ErrorMissedExactly`). The
  failure itself may have come before that check, even while results were recorded (`Protocol.UnreportedAtCheck`). At
  a check that passes, success without a missed error is still possible if and only if `run_threads` is still set
  (`Protocol.SuccessExactly`).

Run `dafny verify dfyconfig.toml` to check everything.

## Model

| member | source | states |
|---|---|---|
| AsyncIo.QueueOrder | src/async_io.h:99-107 | what is enqueued stands in the queue in that order, behind what was there before |
| AsyncIo.RunConserves | src/async_io.h:99-114 | over every legal run of a group, enqueues plus what the manager held at first equal returns plus what it holds at the end, for each operation, and no operation is ever in two places |
| FlightIds.Search | src/kernel_aio.cc:219-223 | the id search ends and gives the first id at or after the counter that is not in flight, wrapping around, whenever some id is free |
| FlightIds.NextWraps | src/kernel_aio.cc:226 | the counter goes on by one and wraps around |
| KernelAio.KernelGroup.Launch | src/kernel_aio.cc:218-229 | one queued operation gets the first free id from the counter, which then stands one past it, and its slot |
| KernelAio.Iop.SetType | src/kernel_aio.cc:68-73 | changing an operation's type changes opcode and buffer together |
| KernelAio.KernelGroup.Enqueue | src/kernel_aio.cc:188-201 | an operation the client holds goes to the end of the queue; all bookkeeping is kept |
| KernelAio.KernelGroup.Submit | src/kernel_aio.cc:203-256 | when io_submit takes everything the whole queue is in flight under fresh ids and one new array holds it in order; on any other answer the in-flight map and the arrays are as before and the queue is not cleared |
| KernelAio.KernelGroup.FillArray | src/kernel_aio.cc:216-230 | the loop gives each queued operation an id not in use, records it under that id, points it at the new array, and puts it in its slot |
| KernelAio.KernelGroup.Withdraw | src/kernel_aio.cc:237-245 | a failed submit erases exactly the ids found in the array and frees the array |
| KernelAio.KernelGroup.Wait | src/kernel_aio.cc:258-292 | the event's user data leads to the operation that was submitted under it; it leaves the in-flight map, gets the result, and every array's reference count stays exact |
| KernelAio.KernelGroup.Release | src/kernel_aio.cc:278-286 | a completion lowers the count of the operation's array only, and frees a non-empty array exactly when its last operation completes |
| KernelAio.SubmitCounts | src/kernel_aio.cc:210-230 | a new array starts with a count equal to the operations that point at it, and the counts of the older arrays stay exact |
| KernelAio.SubmitIds | src/kernel_aio.cc:217-226 | after a submit every in-flight operation carries the id it is stored under |
| KernelAio.SlotIds | src/kernel_aio.cc:238-242 | the ids read back from the array's slots are exactly the ids the submit had added |
| KernelAio.RemoveValue | src/kernel_aio.cc:274-276 | because ids are unique, erasing one entry removes exactly one operation |
| PosixInterleaving.StepInv | src/posix_aio.cc:168-263 | every step of every thread and of the operating system keeps the invariant on queues, vectors, ids and the shared map |
| PosixInterleaving.ReachableInv | src/posix_aio.cc:168-263 | the invariant holds after every interleaving from a fresh manager |
| PosixInterleaving.UniqueIds | src/posix_aio.cc:212-219 | two operations that can still be looked up, of any two groups, never carry the same id |
| PosixInterleaving.StaleOp | src/posix_aio.cc:209-216 | while an operation stands in its vector with its old id, before its locked section, no entry of the map holds it |
| PosixInterleaving.NeverStuck | src/posix_aio.cc:214-258 | in every reachable state wait finds a non-null entry, it is the operation whose control block was erased, a scan never runs off its vector, and a free id exists |
| PosixInterleaving.CastRoundTrip | src/posix_aio.cc:216-249 | the casts from unsigned to int and back lose nothing |
| PosixInterleaving.InFlightBound | src/posix_aio.cc:214-217 | the shared map never holds more entries than there are operations |
| PosixInterleaving.IdsInTurn | src/posix_aio.cc:213-218 | as long as fewer than 2^32 have been handed out, over all groups, ids are 0, 1, 2 and so on |
| PosixInterleaving.BoundedOvertaking | src/posix_aio.cc:241-258 | a completed operation at index p of its vector is returned within p + 1 waits, whatever is submitted or completes meanwhile |
| PosixContract.ForeignStep | src/posix_aio.cc:182-263 | steps of other threads and of the operating system change nothing a group's client can see |
| PosixContract.OwnStep | src/posix_aio.cc:195-258 | a step of the group is invisible or is exactly one call of the contract, and what wait returns has completed |
| PosixContract.EveryRunRefines | src/posix_aio.cc:168-263 | every interleaving, seen from one group, is a legal run of the contract ending in the group's view of the final state |
| PosixContract.OpsConserved | src/posix_aio.cc:168-263 | over every interleaving each enqueue is answered by at most one return, and a missing one is an operation the manager still holds |
| PosixAio.OthersKeepSame | src/posix_aio.cc:187-193 | whatever other threads do, the queue, the vector and the ids of a group's own operations stay |
| PosixAio.PosixManager.RegisterOp | src/posix_aio.cc:213-219 | the locked section of submit is the step of the machine for the id the search finds |
| PosixAio.PosixManager.Submit | src/posix_aio.cc:182-223 | with other threads interleaved, a successful submit empties the queue and appends it in reverse order to the vector; it fails exactly when one of the operating system's answers is not 0, with the first such answer |
| PosixAio.PosixManager.LookUp | src/posix_aio.cc:253-258 | the locked section of wait returns the operation whose control block was erased, and it has completed |
| PosixAio.PosixManager.Wait | src/posix_aio.cc:225-263 | wait returns a completed operation of the vector and takes exactly that one out; the final exit is not reached |
| WorkerCalls.WorkerIsLegal | src/thread.cc:134-338 | a worker enqueues only what it holds and waits only for what is in flight, over every run |
| WorkerCalls.DepthAtHead | src/thread.cc:134-338 | a manager whose view of the group is the worker's holds, at each head of the loop, nothing queued and exactly overlap operations of each target in flight |
| WorkerCalls.NamedRun | src/async_io.h:99-114 | under any names a manager has for a worker's own operations, different for different ones, the worker's calls are a legal run from a fresh group and end in the worker's group |
| KernelDepth.MakeCalls | src/kernel_aio.cc:188-292 | any legal sequence of calls on a kernel group is a run of the contract and keeps the bookkeeping |
| KernelDepth.WorkOnKernel | src/kernel_aio.cc:188-292 | with the worker's calls made on a fresh kernel group, at each head of the loop the queue is empty and the in-flight map holds each operation once, exactly overlap of them for every target |
| KernelDepth.RunOnKernel | src/thread.cc:134-338 | the same for every run of a thread, from the construction of its operations on, whenever there are ids for all of them |
| PosixDepth.DepthOnPosix | src/posix_aio.cc:168-263 | when a group's calls in an interleaving are those of a worker run, then at each head of the loop the queue is empty and the suspend vector holds each operation once, exactly overlap of them for every target |
| Worker.ConstructKeepsDepth | src/thread.cc:167-189 | each operation of the initial batch is enqueued once, and the client holds it when it does so |
| Worker.PassKeepsDepth | src/thread.cc:216-338 | one pass of the loop leaves the group as it found it |
| Worker.QueueDepth | src/thread.cc:134-338 | at every head of the loop the queue is empty and exactly overlap operations of each target are in flight, through throttling and any order of completion |
| Worker.RunRecords | src/thread.cc:263-306 | in every reachable state bytes are block size times operations, totals are reads plus writes, each switched-on measurement has one sample per operation, and the thread's byte count is the sum over its targets |
| History.OpTold | src/thread.cc:254-321 | an operation carries the stamp of the last pass that handled it, recorded or not, and the kind last drawn for it |
| History.RoundsTold | src/thread.cc:309-337 | an operation is resubmitted once for every pass that handled it |
| History.ResultsTold | src/thread.cc:263-306 | the results of a target are exactly its recorded passes: each counts on the side of the kind last drawn, with its bytes, its time since the start and the time since its operation was last handled, in order |
| History.PureReadsAndWrites | src/thread.cc:279-321 | over every run -w0 counts no write and -w100 no read |
| History.FirstRecordOnce | src/thread.cc:260-309 | an operation is recorded at most once before a pass has handled it |
| History.NoGarbage | src/thread.cc:260-309 | after a warm-up in which every operation of a target completes once, no sample comes from an unset stamp |
| History.LittlesLawAfterWarmup | src/thread.cc:260-309 | then the recorded latencies add up to at most overlap times elapsed time |
| Worker.WriteShare | src/thread.cc:160-321 | exactly n of the hundred draws are writes under -w n, and a larger n takes none back |
| Worker.ThrottledExactly | src/thread.cc:222-233 | a pass is refused, and changes nothing, if and only if it has seen the recording on, the first target has a limit and the bytes are at least (limit + 1) times the milliseconds since the start, of which one has passed |
| Worker.ThrottleEnds | src/thread.cc:222-233 | with no bytes added, a pass is let through once more than bytes / (limit + 1) milliseconds have passed |
| Worker.TestedPassBound | src/thread.cc:222-235 | a pass that goes through the throttle test starts below (limit + 1) times the elapsed milliseconds |
| Worker.ThrottleBound | src/thread.cc:213-266 | over a run the bytes are the untested start-up bytes, or less than (limit + 1) times the elapsed time plus one block |
| Worker.FlagGivesStartUpFirst | src/thread.cc:222-263 | that untested passes come first follows from the flag rising once and time moving forward |
| Throttle.FlagAndClockHold | src/thread.cc:222-263 | passes that read what the protocol's thread has logged see the flag rise once and time move forward |
| Throttle.ClockAfterStart | src/thread.cc:222-224 | the clock the throttle test reads is never before the start time |
| Throttle.ThrottleHolds | src/thread.cc:213-266 | the throttle bound for a thread of any run of the protocol, with nothing assumed of the flag, the clock and the start time of the test but that they are the shared ones |
| Worker.LatencyTelescopes | src/thread.cc:260-309 | the recorded latencies of one operation add up to no more than the time to its last stamp, for any on/off pattern of recording |
| Worker.LatencyRecorded | src/thread.cc:268-306 | the latency samples of a target are the sum over its operations, plus the samples of operations never stamped before |
| Worker.LittlesLaw | src/thread.cc:260-309 | the latencies recorded for a target add up to at most overlap times elapsed time, apart from samples of never-stamped operations |
| Worker.WriteShareExtremes | src/thread.cc:315-321 | -w0 never writes and -w100 never reads |
| ThreadFunc.ThreadParams.InitialBatch | src/thread.cc:134-199 | the nested loops are a run of the thread's steps that ends with the batch submitted |
| ThreadFunc.ThreadParams.RecordOp | src/thread.cc:265-306 | the counters updated one by one are one recording step of the operation's target and of no other |
| ThreadFunc.ThreadParams.WorkPass | src/thread.cc:216-338 | one pass of the loop, with its early continue, is one step |
| ThreadFunc.ThreadParams.WorkLoop | src/thread.cc:216-338 | any number of passes and the end of the loop, at its head or after waiting, is a run, so what is proved over runs holds of the loop |
| Target.TargetState.GetStartOffset | src/target.h:246-256 | random before interlocked before the thread's base, which is base_offset plus its relative id times the thread stride |
| Target.TargetState.GetNextOffset | src/target.h:261-282 | the offset, and the new shared offset in interlocked mode only |
| Target.TargetState.RandomOffset | src/target.h:288-298 | every draw in range gives an aligned block inside the target |
| Target.RandomSlots | src/target.h:288-298 | the offsets random mode can give are all stride-aligned blocks that fit, and no others |
| Target.RandomDraws | src/target.h:288-298 | different draws give different offsets, and every aligned block that fits can be drawn, at the start and later |
| Target.SlotsExact | src/target.h:234-240 | the slots are exactly the strides at which a whole block fits |
| Target.SlotStep | src/target.h:234-240 | one stride from slot n is slot n + 1 and from the last slot it is the thread's base: the overflow test fires exactly at the end |
| Target.EverySlotOnce | src/target.h:261-282 | any K consecutive draws hit every one of the K slots exactly once |
| System.StepInv | src/target.h:227-298 | under every interleaving each operation keeps a legitimate offset and the shared offset is the slot of the last draw |
| System.Containment | src/target.h:227-298 | every offset any thread holds, in all three modes, lies with its block between base_offset and max_size |
| System.SectorAlignment | src/job.cc:79-83 | under O_DIRECT every offset is congruent to base_offset modulo the sector size |
| System.SequentialOffset | src/thread.cc:134-312 | in sequential mode operation i after c resubmissions is at slot i + c from its thread's base, whatever else happens |
| System.FirstLap | src/target.h:227-281 | until the end of the target that is base_offset plus relative id times thread stride plus (i + c) strides |
| System.ThreadsApart | src/target.h:227-281 | until then operations of two threads with the same number, resubmitted equally often, stand as many thread strides apart as the threads' relative ids |
| System.InterlockedDraws | src/target.h:268-277 | in interlocked mode draw number j over all threads is slot j + 1, whatever the schedule |
| System.InterlockedCoverage | src/target.h:234-278 | any K consecutive draws from an interlocked target, over all threads and under any schedule, give each of its K slots exactly once |
| System.ThreadOfRun | src/thread.cc:134-338 | what one thread does in a run of all threads is a run of that thread alone |
| System.ManagerCapacity | src/job.cc:221-289 | when all threads stand at the head of their loops, exactly the total overlap given to start is in flight |
| Profile.ReadCaching | src/profile.cc:173-192 | the letters of -S up to an h are accepted exactly when they are s or d, and give O_DIRECT and O_SYNC |
| Profile.ReadBuffers | src/profile.cc:260-281 | the letters of -Z are accepted exactly when they are s, z or r and not both z and r |
| Profile.ReadOptions | src/profile.cc:85-281 | the options are accepted exactly when they agree, the dummy target then holds what they mean, and a refusal names what is wrong |
| Profile.CachingLetters | src/profile.cc:176-190 | without an h every letter of -S counts by itself |
| Profile.CachingH | src/profile.cc:178-181 | the first h asks for both and ends the list |
| Profile.StrideTable | src/profile.cc:139-170 | what -r and -s make of each other, with the i of -s |
| Profile.RandomAlignmentDefault | src/profile.cc:140-146 | -r without a value aligns to the block size only when that is 64K |
| Profile.BlockFitsTest | src/profile.cc:373-374 | the comparison of signed with unsigned sizes and its signed guard together are the intended test |
| Profile.ApplyToTarget | src/profile.cc:284-380 | a target is accepted exactly when its file can be used and one block fits between base offset and maximum; a refusal names what is wrong |
| Profile.AcceptedExactly | src/profile.cc:112-379 | options and files are accepted exactly when there is no reason to refuse them |
| Profile.EngineAndBuffers | src/profile.cc:226-281 | what -x and -Z accept and ask for |
| Profile.AcceptedIfBlockFits | src/profile.cc:360-379 | a file is accepted if and only if it can be used and some block from the base offset on lies inside the usable part, no larger than the file |
| Profile.Sizes | src/profile.cc:337-365 | which of the file's size, -c and -f counts |
| Profile.ParseOptions | src/profile.cc:57-391 | a job is made exactly when there is a target and options and files are acceptable; its thread count is -F or the sum over targets |
| Profile.AcceptedIsPlaced | src/profile.cc:198-379 | an accepted target has a positive stride, a block inside max_size inside the file, and no thread offset if it is interlocked |
| Job.CheckTargets | src/job.cc:67-102 | the checks pass exactly when block size, stride and thread stride of O_DIRECT targets are multiples of 512 and every thread's first block fits |
| Job.CheckedExactly | src/job.cc:89-102 | checking the last thread's start is checking all of them, no more and no less; without threads room for 2^32 - 1 thread strides is asked for |
| Job.ViewsFollowOptions | src/job.cc:254-273 | every view a thread works with says what the options say |
| Job.SectorMask | src/job.cc:79-83 | masking with the sector size minus one is the remainder |
| Job.CheckedForEveryThread | src/job.cc:89-102 | the checks give every relative id below the thread count its place |
| Job.Assignment.AssignOne | src/job.cc:234-280 | a turn of the inner loop gives one thread one more view of the target with its relative id, and counts its overlap |
| Job.Assignment.AssignAll | src/job.cc:221-281 | the loops give every thread its shares, in order, and total_overlap is the sum over all threads |
| Job.SharesOfAll | src/job.cc:229-278 | with -F thread k works on every target as relative thread k |
| Job.SharesOfOne | src/job.cc:229-273 | with -t thread k works on exactly one target, as its number within that target's group of threads |
| Job.Prepare | src/job.cc:56-289 | from options and files to the state in which threads start, refusing exactly what the checks refuse |
| Job.StartStateOk | src/job.cc:192-281 | the state threads start from satisfies all that the offset proofs ask for |
| Job.WholeRunContainment | src/job.cc:56-337 | from the command line on, every block a thread reads or writes lies inside the usable part of its file, and a whole number of sectors from the base under O_DIRECT |
| Protocol.StepInv | src/job.cc:341-443 | every flag access of the Job and of any thread keeps the protocol's invariant |
| Protocol.RecordingMeansSubmitted | src/job.cc:345-413 | whenever results are recorded every thread has submitted its initial batch |
| Protocol.OneMoreRecord | src/thread.cc:263-266 | after record_results is cleared it stays cleared and each thread records at most one more operation |
| Protocol.SeenInOrder | src/thread.cc:216-263 | in every run what a thread reads of flag and clock is ordered, and a flag is seen on only after the start time |
| Protocol.EarlyExactly | src/job.cc:402-413 | from the moment the Job takes the start time, a thread can record an operation with an older stamp if and only if it then stands between reading that operation's clock and the flag, with the clock having moved since |
| Protocol.EarlyCause | src/thread.cc:260-276 | in every run a record with a stamp before the start goes back to such a thread |
| Protocol.EarlyStamp | src/thread.cc:260-276 | a concrete run in which one is recorded |
| Protocol.AtMostOneEarly | src/thread.cc:260-263 | at most one operation per thread is recorded with a stamp before the start time |
| Protocol.ReadingsAre | src/thread.cc:222-260 | the time of the throttle test and the stamp of an operation are the clock at the steps that read it |
| Protocol.ErrorEndsJob | src/job.cc:363-424 | an error reported at any time before the last check ends the job, and one reported before the main duration keeps it from ever recording |
| Protocol.WakeUpEndsJob | src/job.cc:375-424 | a wake-up during warm-up or main duration is taken for an error; without wake-up and error the Job goes on |
| Protocol.SuccessMeansEnded | src/job.cc:437-443 | when run_job returns true every thread has ended |
| Protocol.CheckedAtEnd | src/job.cc:415-424 | run_job gets past its last check only if no thread had reported an error by then and the wait was not interrupted |
| Protocol.ErrorMissedExactly | src/job.cc:421-443 | when run_job returns true, a thread has reported an error if and only if it did so after the last check |
| Protocol.SuccessExactly | src/job.cc:415-443 | at a check that passes, the Job can still succeed with no error reported if and only if run_threads is still set; otherwise every run from there that succeeds ends with an error it has missed |
| Protocol.UnreportedAtCheck | src/thread.cc:25-31 | the last check can pass with run_threads already cleared by a thread that fails |
| Protocol.MissedError | src/job.cc:421-443 | a concrete run that succeeds although a thread failed and reported it |
| Protocol.Drains | src/thread.cc:216-241 | once run_threads is false all threads together take a bounded number of steps |
| Protocol.NeverStuck | src/thread.cc:193-338 | a thread that has not ended can always take a step, so the joins return |
| Histogram.Histogram.Add | src/Histogram.h:50-54 | adds one sample to the samples the table stands for |
| Histogram.Histogram.Merge | src/Histogram.h:56-64 | adds the other's samples, in any order of walking its table, also when merging with itself |
| Histogram.SameTable | src/Histogram.h:50-64 | the table is determined by the samples: any order and any split with merges give the same table |
| Histogram.Histogram.GetMin | src/Histogram.h:66-79 | the least sample, or the type's maximum if there is none |
| Histogram.Histogram.GetMax | src/Histogram.h:81-94 | the greatest sample, or 0 if there is none |
| Histogram.Histogram.GetPercentile | src/Histogram.h:101-123 | refuses percentages out of range, is undefined only without samples, and otherwise is the sample at rank max(1, ceil(n p)) of the sorted list |
| Samples.RankExact | src/Histogram.h:110-120 | that rank is the least number from 1 on that reaches n p |
| Samples.FirstCountIsPercentile | src/Histogram.h:110-120 | the first value up to which n p samples are counted is the sample at that rank, for every sorted list of the samples |
| Samples.PercentileMonotone | src/Histogram.h:101-123 | the percentile does not fall as p grows |
| Samples.PercentileExtremes | src/Histogram.h:101-123 | it is the minimum at 0 and the maximum at 1 |
| Histogram.Histogram.GetMean | src/Histogram.h:138-157 | the mean of the samples, 0 without any; the overflow exit is never taken |
| Samples.MeanBetween | src/Histogram.h:138-157 | the mean lies between any bounds of the samples |
| Samples.MeanOfUnion | src/Histogram.h:56-157 | the mean after a merge is the weighted mean |
| Histogram.Histogram.GetVariance | src/Histogram.h:159-172 | the quantity under the root is the mean squared deviation from the mean |
| Samples.VarianceIdentity | src/Histogram.h:159-172 | that is the mean of the squares minus the squared mean |
| IoBucketizer.IoBucketizer.Add | src/IoBucketizer.cc:29-45 | the buckets stay one count per interval, as long as the latest time needs |
| IoBucketizer.IoBucketizer.Merge | src/IoBucketizer.cc:100-114 | the counts are added position by position whatever the durations, which for one duration counts the times of both; the larger number of valid buckets is kept |
| IoBucketizer.TableUnique | src/IoBucketizer.cc:29-114 | the buckets are determined by the times: order and split do not matter |
| IoBucketizer.IoBucketizer.ValidPart | src/IoBucketizer.cc:47-53 | the valid buckets are a prefix, of the expected number or of all |
| IoBucketizer.IoBucketizer.GetMean | src/IoBucketizer.cc:65-76 | the mean over the valid buckets |
| IoBucketizer.MeanIsRate | src/IoBucketizer.cc:65-76 | which is the number of operations completed before their end, per bucket |
| IoBucketizer.IoBucketizer.GetVariance | src/IoBucketizer.cc:78-98 | the mean squared deviation over the valid buckets, 0 if there is none |
| IoBucketizer.VarianceOfBuckets | src/IoBucketizer.cc:78-98 | that is the mean of the squares minus the squared mean |
| IoBucketizer.AllBucketsHold | src/IoBucketizer.cc:29-45 | the sum of all buckets is the number of operations added |
| IoBucketizer.ValidBucketsCover | src/thread.cc:54-57 | every operation completed before the end of the duration falls in a valid bucket, for every bucket length, exactly when the duration in milliseconds fits 32 bits |
| IoBucketizer.ValidBucketsLeast | src/thread.cc:54-57 | and no smaller number of buckets would do |
| Tally.SinceStartAdvances | src/thread.cc:275-277 | from the start on the time since the start advances one for one with the clock |
| Tally.RecordConserves | src/thread.cc:269-306 | recording one operation keeps bytes, totals and sample counts in agreement and changes one side only |
| TargetResults.TargetResults.RecordOp | src/thread.cc:269-306 | the histograms and bucketizers of a target stand for the plain lists the recording step appends to |
| TargetResults.SideAgrees | src/thread.cc:280-306 | sample size and sum of buckets are both the number of operations recorded |
| TargetResults.EarlySample | src/thread.cc:276-286 | a stamp before the start wraps around: the operation falls beyond all valid buckets, and the vector would have to hold more than 9 * 10^15 / (bucket length in ms) entries |
| TargetResults.Summarise | src/result_formatter.cc:146-158 | the three summary histograms as the loop builds them |
| TargetResults.TotalColumn | src/result_formatter.cc:150-158 | the total is made of all reads and writes exactly when no result but the last has samples |
| TargetBuffer.AlignIsLeast | src/target.h:191 | for a power of two the mask expression gives the least multiple at or above the raw address |
| TargetBuffer.Buffer.Calloc | src/target.h:149-192 | the assertion passes exactly for powers of two, and then the aligned bytes lie inside the allocation and are zero |
| TargetBuffer.Buffer.FillDefault | src/target.h:171-175 | ascending bytes in the aligned part and nothing else changed |
| TargetBuffer.BlocksApart | src/thread.cc:143-148 | the blocks of the operations lie in the buffer, do not meet, and are aligned when the block size is a multiple of the alignment |
| Bits.PowerOfTwoTest | src/target.h:186 | x & (x - 1) is zero exactly for powers of two |
| Bits.HighMask | src/target.h:191 | the complement of the low mask clears the remainder |
| SysInfo.InsertRange | src/sys_info.cc:84-87 | the loop over a signed counter adds exactly the range, or overflows exactly when the range contains the largest int |
| SysInfo.StrToCpuSet | src/sys_info.cc:28-97 | the pointer loop ends on every string and computes the parse |
| SysInfo.ParseShown | src/sys_info.cc:43-96 | every list of ids and ranges, of any size, is parsed to the end and to its meaning |
| SysInfo.Malformed | src/sys_info.cc:45-94 | what is read and what is left where the text goes wrong, before a field, behind a dash and behind an item |
| SysInfo.LargeId | src/sys_info.cc:49-55 | an id beyond 32 bits loses its upper bits |
| SysInfo.HugeId | src/sys_info.cc:49-55 | a number beyond 64 bits ends the program |
| SysInfo.RoundTrip | src/sys_info.cc:43-96 | for ids below the largest unsigned int the parse is the union of the ranges exactly when no range contains the largest int; reversed ranges are empty |

## Left out

- Calls into the operating system (open, stat, write, io_submit, aio_read, aio_suspend, clocks, pthreads, /sys and /proc) are parameters or steps of the environment.
- Creating the target files, CPU affinity, CPU usage figures and device and scheduler lookup are not modelled.
- Profile.ReadOptions: an empty value of -x, whose second character the source reads past the end of the string, is refused like any other unknown engine.
- Option tables and string validators are not modelled; `Profile.Parsed` states what they have already refused.
- Printing is not modelled, except for the summary histograms of the latency table.
- The Mersenne Twister is not modelled. Its distribution is over `int`, so a range above 2^31 is outside the assumption on `get_rand_offset`.
- Rounding of `double` and the square root: means are exact and the variance is stated instead of its root.
- Machine overflow of the counters, of byte totals, of the sum of -t over the targets and of `thread_offset * (no_threads - 1)`: integers are unbounded there, and the widths that matter are written out (ids, casts, the size comparison, the bucket count, the thread count, the CPU parser).
- KernelAio.KernelGroup.Submit: a submit that fails ends the group; nothing is promised about later calls, because the freed array is still pointed at by its operations and the queue is not cleared.
- PosixAio.PosixManager.Submit: a submit that fails ends the group, because the popped operation is lost.
- PosixInterleaving.NeverStuck: at most 2^32 operations exist in all, so that an id is always free.
- KernelAio.KernelGroup.Wait: an empty submit's array is never freed by the source, and nothing is ever inserted in its set `arrays`; the model keeps the set of submitted arrays to state the reference counts.
- Worker.LittlesLaw: the constructors leave the time stamp unset, so the sample of an operation's first completion is arbitrary; it is the separate term `Garbage`, which `History.NoGarbage` removes after a warm-up.
- Worker.ThrottleBound: a thread without targets has limit 0; the source reads the first target without looking.
- Histogram.Histogram.GetPercentile: the overload for whole percents and the median call it with p/100 and 0.5.
- Job.CheckTargets: the creation of a target's file between its checks, and a failure of it, are not modelled.
- Protocol.StepInv: the steps of a thread in the protocol are its accesses to the shared flags and the clock; they are not derived from the steps in `Worker`. `Throttle` relates the two through what each pass has read.
- A manager's groups are created before the run; creating one twice, which leaves a mutex locked in the kernel manager, is not modelled.
- KernelDepth.WorkOnKernel: every submit is one the kernel takes, as in the worker's runs.
