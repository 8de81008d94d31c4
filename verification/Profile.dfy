/** profile.cc: the options applied to all targets, with the checks that refuse a job. */
module Profile {
  import opened Target
  import opened Wrappers

  const TWO_32 := 0x1_0000_0000
  const TWO_64 := 0x1_0000_0000_0000_0000

  /** Options given on the command line without a value keep their default. */
  datatype Arg = Absent | Empty | Number(value: nat)

  /** The argument of -s, with its optional leading i. */
  datatype StrideArg =
    | NoStride
    | DefaultStride(interlocked: bool)
    | Stride(interlocked: bool, value: nat)
    | Malformed(interlocked: bool)

  datatype Settings = Settings(
    blockSize: nat,            // -b
    baseOffset: nat,           // -B
    createSize: Arg,           // -c
    maxSize: nat,              // -f, 0 if absent
    totalThreads: Arg,         // -F
    maxThroughput: nat,        // -g
    overlap: nat,              // -o
    random: Arg,               // -r
    sequential: StrideArg,     // -s
    caching: Option<string>,   // -S
    threadsPerTarget: Arg,     // -t
    threadStride: Arg,         // -T
    writePercentage: nat,      // -w
    engine: Option<string>,    // -x
    buffers: Option<string>)   // -Z

  datatype Engine = KernelEngine | PosixEngine

  datatype Buffers = Buffers(separate: bool, zero: bool, rand: bool)

  /** What stat says of a target's path. */
  datatype File =
    | StatFailed
    | Missing
    | Regular(size: nat)
    | Device(size: nat)

  datatype TargetFile = TargetFile(
    c: Config,
    size: int,
    createFile: bool,
    overlap: nat,
    direct: bool,
    sync: bool,
    buffers: Buffers,
    threadsPerTarget: nat,
    writePercentage: nat,
    maxThroughput: nat,
    interlockedOffset: int)

  datatype JobOptions =
    JobOptions(useTotalThreads: bool, totalThreads: nat, engine: Engine, targets: seq<TargetFile>)

  datatype Reason =
    | NoTargets
    | BothThreadOptions
    | BadStride
    | BadCaching
    | InterlockedThreadStride
    | BadWriteShare
    | BadEngine
    | BadBuffers
    | CannotStat
    | NoSuchTarget
    | TargetIsDevice
    | LargerThanFile
    | TooSmallForBlock

  /** Defaults of a fresh Target and JobOptions. */
  const DEFAULT_STRIDE: nat := 64 * 1024
  const DUMMY := TargetFile(Config(64 * 1024, 0, 0, 0, DEFAULT_STRIDE, false, false),
                            0, false, 2, false, false, Buffers(false, false, false), 1, 0, 0, 0)

  /** What the option parser has already refused: sizes of zero where they are not allowed,
      and values that do not fit off_t or unsigned int. */
  predicate Parsed(s: Settings) {
    && 0 < s.blockSize && s.baseOffset < TWO_64 / 2 && s.maxSize < TWO_64 / 2
    && (s.createSize.Number? ==> 0 < s.createSize.value < TWO_64 / 2)
    && (s.random.Number? ==> 0 < s.random.value)
    && (s.sequential.Stride? ==> 0 < s.sequential.value)
    && ValueOr(s.totalThreads, 0) < TWO_32 && ValueOr(s.threadsPerTarget, 0) < TWO_32
  }

  predicate FitsOffT(f: File) {
    f.Regular? || f.Device? ==> f.size < TWO_64 / 2
  }

  // ---- what the options mean -----------------------------------------------------------

  /** -r overrides -s, with its i as well. */
  predicate UsesInterlocked(s: Settings) {
    s.random.Absent? && !s.sequential.NoStride? && s.sequential.interlocked
  }

  /** -r without a value keeps the 64K a Target starts with; in every other case the default
      is the block size. */
  function StrideOf(s: Settings): nat {
    match s.random
    case Number(n) => n
    case Empty => DEFAULT_STRIDE
    case Absent => if s.sequential.Stride? then s.sequential.value else s.blockSize
  }

  predicate OptionsAgree(s: Settings) {
    && !(!s.totalThreads.Absent? && !s.threadsPerTarget.Absent?)
    && !(s.random.Absent? && s.sequential.Malformed?)
    && CachingOk(Text(s.caching))
    && !(!s.threadStride.Absent? && UsesInterlocked(s))
    && s.writePercentage <= 100
    && EngineOk(s.engine) && BuffersOk(Text(s.buffers))
  }

  /** What a refusal of the options means. */
  predicate OptionFault(s: Settings, e: Reason) {
    match e
    case BothThreadOptions => !s.totalThreads.Absent? && !s.threadsPerTarget.Absent?
    case BadStride => s.random.Absent? && s.sequential.Malformed?
    case BadCaching => !CachingOk(Text(s.caching))
    case InterlockedThreadStride => !s.threadStride.Absent? && UsesInterlocked(s)
    case BadWriteShare => s.writePercentage > 100
    case BadEngine => !EngineOk(s.engine)
    case BadBuffers => !BuffersOk(Text(s.buffers))
    case _ => false
  }

  /** The options text promises the block size as default alignment of -r. The code keeps
      that promise only for blocks of 64K. */
  lemma RandomAlignmentDefault(s: Settings)
    requires s.random.Empty?
    ensures StrideOf(s) == s.blockSize <==> s.blockSize == 64 * 1024
  {
  }

  /** What -r and -s make of each other: a number given to -r is the alignment, whatever -s says;
      without -r it is -s that counts, with its i, and without either the block size. */
  lemma StrideTable(s: Settings, n: nat, i: bool)
    ensures s.random == Number(n) ==> StrideOf(s) == n && !UsesInterlocked(s)
    ensures s.random == Absent && s.sequential == Stride(i, n) ==> StrideOf(s) == n && UsesInterlocked(s) == i
    ensures s.random == Absent && s.sequential == DefaultStride(i) ==>
              StrideOf(s) == s.blockSize && UsesInterlocked(s) == i
    ensures s.random == Absent && s.sequential == NoStride ==> StrideOf(s) == s.blockSize && !UsesInterlocked(s)
  {
  }

  function ValueOr(a: Arg, default: nat): nat {
    if a.Number? then a.value else default
  }

  // ---- reading the options ---------------------------------------------------------------

  /** Each letter of -S up to an h, which ends the list, is s or d. */
  predicate CachingOk(a: string) {
    a == "" || a[0] == 'h' || ((a[0] == 's' || a[0] == 'd') && CachingOk(a[1..]))
  }

  predicate AsksDirect(a: string) {
    a != "" && (a[0] == 'h' || a[0] == 'd' || (a[0] == 's' && AsksDirect(a[1..])))
  }

  predicate AsksSync(a: string) {
    a != "" && (a[0] == 'h' || a[0] == 's' || (a[0] == 'd' && AsksSync(a[1..])))
  }

  /** Without an h every letter counts by itself. */
  lemma {:induction false} CachingLetters(a: string)
    requires 'h' !in a
    ensures CachingOk(a) <==> forall i :: 0 <= i < |a| ==> a[i] == 's' || a[i] == 'd'
    ensures CachingOk(a) ==> (AsksDirect(a) <==> 'd' in a) && (AsksSync(a) <==> 's' in a)
    decreases |a|
  {
    if a == "" {
    } else {
      assert forall i :: 1 <= i < |a| ==> a[i] == a[1..][i - 1];
      assert forall c: char :: c in a <==> c == a[0] || c in a[1..];
      CachingLetters(a[1..]);
    }
  }

  /** The first h stands for both, and ends the list: what follows is not looked at. */
  lemma {:induction false} CachingH(a: string, rest: string)
    requires 'h' !in a
    ensures CachingOk(a + "h" + rest) <==> CachingOk(a)
    ensures CachingOk(a) ==> AsksDirect(a + "h" + rest) && AsksSync(a + "h" + rest)
    decreases |a|
  {
    var all := a + "h" + rest;
    if a == "" {
      assert all[0] == 'h';
    } else {
      assert all[0] == a[0] && all[1..] == a[1..] + "h" + rest;
      assert forall i :: 0 <= i < |a[1..]| ==> a[1..][i] == a[i + 1];
      CachingH(a[1..], rest);
    }
  }

  function Text(a: Option<string>): string {
    if a.Some? then a.value else ""
  }

  /** Every letter of -Z is s, z or r, and not both z and r. */
  predicate BuffersOk(a: string) {
    (forall i :: 0 <= i < |a| ==> a[i] == 's' || a[i] == 'z' || a[i] == 'r') && !('z' in a && 'r' in a)
  }

  function BuffersOf(a: string): Buffers {
    Buffers('s' in a, 'z' in a, 'r' in a)
  }

  predicate EngineOk(a: Option<string>) {
    a.None? || a.value == "k" || a.value == "p"
  }

  function EngineOf(a: Option<string>): Engine {
    if a == Some("p") then PosixEngine else KernelEngine
  }

  /** What -x and -Z accept and ask for, letter by letter. */
  lemma EngineAndBuffers(a: string)
    ensures EngineOk(None) && EngineOf(None) == KernelEngine
    ensures EngineOk(Some(a)) <==> a == "k" || a == "p"
    ensures EngineOk(Some(a)) ==> (EngineOf(Some(a)) == PosixEngine <==> a == "p")
    ensures BuffersOk(a) <==>
      (forall c :: c in a ==> c == 's' || c == 'z' || c == 'r') && ('z' !in a || 'r' !in a)
    ensures BuffersOf(a).separate == ('s' in a) && BuffersOf(a).zero == ('z' in a) && BuffersOf(a).rand == ('r' in a)
  {
    assert forall i :: 0 <= i < |a| ==> a[i] in a;
  }

  /** Lines 173-192. */
  method ReadCaching(a: string) returns (ok: bool, direct: bool, sync: bool)
    ensures ok <==> CachingOk(a)
    ensures ok ==> direct == AsksDirect(a) && sync == AsksSync(a)
  {
    direct, sync := false, false;
    var arg := a;
    while arg != ""
      invariant CachingOk(a) <==> CachingOk(arg)
      invariant AsksDirect(a) <==> direct || AsksDirect(arg)
      invariant AsksSync(a) <==> sync || AsksSync(arg)
      decreases |arg|
    {
      if arg[0] == 'h' {
        return true, true, true;
      } else if arg[0] == 's' {
        sync := true;
      } else if arg[0] == 'd' {
        direct := true;
      } else {
        return false, direct, sync;
      }
      arg := arg[1..];
    }
    return true, direct, sync;
  }

  /** Lines 259-281. */
  method ReadBuffers(a: string) returns (ok: bool, b: Buffers)
    ensures ok <==> BuffersOk(a)
    ensures ok ==> b == BuffersOf(a)
  {
    b := Buffers(false, false, false);
    var i := 0;
    while i < |a|
      invariant 0 <= i <= |a| && b == BuffersOf(a[..i])
      invariant forall k :: 0 <= k < i ==> a[k] == 's' || a[k] == 'z' || a[k] == 'r'
    {
      assert a[..i + 1] == a[..i] + [a[i]];
      if a[i] == 's' {
        b := b.(separate := true);
      } else if a[i] == 'z' {
        b := b.(zero := true);
      } else if a[i] == 'r' {
        b := b.(rand := true);
      } else {
        return false, b;
      }
      i := i + 1;
    }
    assert a[..i] == a;
    return !(b.rand && b.zero), b;
  }

  /** Lines 226-245. */
  method ReadEngine(a: Option<string>) returns (r: Result<Engine, Reason>)
    ensures r == if EngineOk(a) then Ok(EngineOf(a)) else Err(BadEngine)
  {
    if a.None? {
      return Ok(KernelEngine);
    }
    if |a.value| != 1 {
      return Err(BadEngine);
    }
    match a.value[0]
    case 'k' => return Ok(KernelEngine);
    case 'p' => return Ok(PosixEngine);
    case _ => return Err(BadEngine);
  }

  /** Lines 139-170. */
  method ReadStride(s: Settings, c0: Config) returns (r: Result<Config, Reason>)
    requires Parsed(s) && c0.blockSize == s.blockSize && c0.stride == DEFAULT_STRIDE
    requires !c0.useRandomAlignment && !c0.useInterlocked
    ensures r == if s.random.Absent? && s.sequential.Malformed? then Err(BadStride)
                 else Ok(c0.(stride := StrideOf(s), useRandomAlignment := !s.random.Absent?,
                             useInterlocked := UsesInterlocked(s)))
  {
    var c := c0;
    if !s.random.Absent? {
      c := c.(stride := ValueOr(s.random, c.stride));
      if c.stride == 0 {
        c := c.(stride := c.blockSize);
      }
      c := c.(useRandomAlignment := true);
    } else if !s.sequential.NoStride? {
      if s.sequential.interlocked {
        c := c.(useInterlocked := true);
      }
      if s.sequential.Malformed? {
        return Err(BadStride);
      }
      c := c.(stride := if s.sequential.Stride? then s.sequential.value else c.blockSize);
    } else {
      c := c.(stride := c.blockSize);
    }
    return Ok(c);
  }

  /** Lines 85-281: the options stored in the dummy target and the job. */
  method ReadOptions(s: Settings) returns (r: Result<(TargetFile, JobOptions), Reason>)
    requires Parsed(s)
    ensures r.Ok? <==> OptionsAgree(s)
    ensures r.Err? ==> OptionFault(s, r.error)
    ensures r.Ok? ==> DummyOk(s, r.value.0) && r.value.1.targets == []
    ensures r.Ok? ==>
              && r.value.1.useTotalThreads == !s.totalThreads.Absent?
              && r.value.1.totalThreads == ValueOr(s.totalThreads, 0)
              && r.value.1.engine == EngineOf(s.engine)
  {
    hide CachingOk, AsksDirect, AsksSync, BuffersOk, BuffersOf, EngineOk, EngineOf, UsesInterlocked, StrideOf;
    var c := DUMMY.c.(blockSize := s.blockSize, baseOffset := s.baseOffset, maxSize := s.maxSize);
    var dummy, options := DUMMY, JobOptions(false, 0, KernelEngine, []);
    if !s.createSize.Absent? {
      dummy := dummy.(createFile := true, size := ValueOr(s.createSize, 0));
    }
    if !s.totalThreads.Absent? {
      options := options.(totalThreads := ValueOr(s.totalThreads, 0));
      if !s.threadsPerTarget.Absent? {
        return Err(BothThreadOptions);
      }
      options := options.(useTotalThreads := true);
      dummy := dummy.(threadsPerTarget := 0);
    }
    dummy := dummy.(maxThroughput := s.maxThroughput, overlap := s.overlap);
    var stride := ReadStride(s, c);
    if stride.Err? {
      return Err(stride.error);
    }
    c := stride.value;
    var cachingOk, direct, sync := ReadCaching(Text(s.caching));
    if !cachingOk {
      return Err(BadCaching);
    }
    dummy := dummy.(direct := direct, sync := sync);
    dummy := dummy.(threadsPerTarget := ValueOr(s.threadsPerTarget, dummy.threadsPerTarget));
    if !s.threadStride.Absent? {
      c := c.(threadOffset := ValueOr(s.threadStride, c.threadOffset));
      if c.useInterlocked {
        return Err(InterlockedThreadStride);
      }
    }
    if s.writePercentage > 100 {
      return Err(BadWriteShare);
    }
    dummy := dummy.(writePercentage := s.writePercentage);
    var engine := ReadEngine(s.engine);
    if engine.Err? {
      return Err(engine.error);
    }
    var buffersOk, buffers := ReadBuffers(Text(s.buffers));
    if !buffersOk {
      return Err(BadBuffers);
    }
    return Ok((dummy.(c := c, buffers := buffers), options.(engine := engine.value)));
  }

  predicate DummyOk(s: Settings, d: TargetFile) {
    && d.c.blockSize == s.blockSize && d.c.baseOffset == s.baseOffset && d.c.maxSize == s.maxSize
    && d.c.stride == StrideOf(s) && d.c.useRandomAlignment == !s.random.Absent?
    && d.c.useInterlocked == UsesInterlocked(s)
    && d.c.threadOffset == ValueOr(s.threadStride, 0)
    && d.createFile == !s.createSize.Absent? && d.size == ValueOr(s.createSize, 0)
    && d.overlap == s.overlap && d.direct == AsksDirect(Text(s.caching)) && d.sync == AsksSync(Text(s.caching))
    && d.buffers == BuffersOf(Text(s.buffers))
    && d.threadsPerTarget == (if s.totalThreads.Absent? then ValueOr(s.threadsPerTarget, 1) else 0)
    && d.writePercentage == s.writePercentage && d.maxThroughput == s.maxThroughput
  }

  // ---- what is checked of each target --------------------------------------------------

  /** The size the target will have. */
  function FileSize(s: Settings, f: File): nat {
    if !s.createSize.Absent? then ValueOr(s.createSize, 0)
    else if f.Regular? || f.Device? then f.size else 0
  }

  function UsableSize(s: Settings, f: File): nat {
    if s.maxSize == 0 then FileSize(s, f) else s.maxSize
  }

  /** The file can be used: it exists or is to be created, -f does not exceed it, and at
      least one block fits between base offset and maximum. */
  predicate FileAccepted(s: Settings, f: File) {
    && FileFound(s, f)
    && s.baseOffset + s.blockSize <= UsableSize(s, f) <= FileSize(s, f)
  }

  /** What a refusal of a file means. */
  predicate FileFault(s: Settings, f: File, e: Reason) {
    match e
    case CannotStat => f.StatFailed?
    case NoSuchTarget => s.createSize.Absent? && f.Missing?
    case TargetIsDevice => !s.createSize.Absent? && f.Device?
    case LargerThanFile => UsableSize(s, f) > FileSize(s, f)
    case TooSmallForBlock => s.baseOffset + s.blockSize > UsableSize(s, f)
    case _ => false
  }

  /** What a target looks like after its checks. */
  predicate TargetOk(s: Settings, f: File, t: TargetFile) {
    && t.c == Config(s.blockSize, s.baseOffset, UsableSize(s, f), ValueOr(s.threadStride, 0), StrideOf(s),
                     !s.random.Absent?, UsesInterlocked(s))
    && t.size == FileSize(s, f)
    && t.createFile == (!s.createSize.Absent? && !(f.Regular? && f.size >= FileSize(s, f)))
    && t.overlap == s.overlap && t.direct == AsksDirect(Text(s.caching)) && t.sync == AsksSync(Text(s.caching))
    && t.buffers == BuffersOf(Text(s.buffers))
    && t.threadsPerTarget == (if s.totalThreads.Absent? then ValueOr(s.threadsPerTarget, 1) else 0)
    && t.writePercentage == s.writePercentage && t.maxThroughput == s.maxThroughput
    && (UsesInterlocked(s) ==> t.interlockedOffset == s.baseOffset)
  }

  /** Comparing an off_t with a size_t converts it. */
  function Unsigned(x: int): nat {
    x % TWO_64
  }

  /** The unsigned comparison, with the signed one that guards it, is the intended test. */
  lemma BlockFitsTest(max: int, base: int, block: nat)
    requires 0 <= max < TWO_64 / 2 && 0 <= base < TWO_64 / 2
    ensures Unsigned(max - base) < block || max <= base <==> max < base + block || max == base
  {
  }

  /** The copies of lines 286-311, before the file is looked at. */
  predicate Copied(s: Settings, t: TargetFile) {
    && t.c.blockSize == s.blockSize && t.c.baseOffset == s.baseOffset
    && t.c.stride == StrideOf(s) && t.c.useRandomAlignment == !s.random.Absent?
    && t.c.useInterlocked == UsesInterlocked(s)
    && t.c.threadOffset == ValueOr(s.threadStride, 0)
    && t.overlap == s.overlap && t.direct == AsksDirect(Text(s.caching)) && t.sync == AsksSync(Text(s.caching))
    && t.buffers == BuffersOf(Text(s.buffers))
    && t.threadsPerTarget == (if s.totalThreads.Absent? then ValueOr(s.threadsPerTarget, 1) else 0)
    && t.writePercentage == s.writePercentage && t.maxThroughput == s.maxThroughput
    && (UsesInterlocked(s) ==> t.interlockedOffset == s.baseOffset)
  }

  method CopyOptions(s: Settings, dummy: TargetFile) returns (t: TargetFile)
    requires DummyOk(s, dummy)
    ensures Copied(s, t) && t.createFile == dummy.createFile
  {
    t := TargetFile(dummy.c, 0, dummy.createFile, dummy.overlap, dummy.direct, dummy.sync, dummy.buffers,
                    dummy.threadsPerTarget,
                    dummy.writePercentage, dummy.maxThroughput, 0);
    if t.c.useInterlocked {
      t := t.(interlockedOffset := t.c.baseOffset);
    }
  }

  predicate FileFound(s: Settings, f: File) {
    !f.StatFailed? && if s.createSize.Absent? then f.Regular? || f.Device? else !f.Device?
  }

  /** Lines 318-358: the size of the target, and whether it has to be created. */
  method FindSize(s: Settings, dummySize: nat, f: File, t0: TargetFile) returns (r: Result<TargetFile, Reason>)
    requires Copied(s, t0) && t0.createFile == !s.createSize.Absent? && dummySize == ValueOr(s.createSize, 0)
    ensures r.Ok? <==> FileFound(s, f)
    ensures r.Err? ==> FileFault(s, f, r.error)
    ensures r.Ok? ==>
              && Copied(s, r.value) && r.value.size == FileSize(s, f)
              && r.value.createFile == (!s.createSize.Absent? && !(f.Regular? && f.size >= FileSize(s, f)))
  {
    var t := t0;
    if f.StatFailed? {
      return Err(CannotStat);
    }
    if !t.createFile {
      if f.Missing? {
        return Err(NoSuchTarget);
      }
      t := t.(size := f.size);
    } else {
      if f.Device? {
        return Err(TargetIsDevice);
      }
      if f.Regular? && f.size >= dummySize {
        t := t.(createFile := false);
      }
      t := t.(size := dummySize);
    }
    return Ok(t);
  }

  /** Lines 286-379 for one target. */
  method ApplyToTarget(s: Settings, dummy: TargetFile, f: File) returns (r: Result<TargetFile, Reason>)
    requires Parsed(s) && DummyOk(s, dummy) && FitsOffT(f)
    ensures r.Ok? <==> FileAccepted(s, f)
    ensures r.Err? ==> FileFault(s, f, r.error)
    ensures r.Ok? ==> TargetOk(s, f, r.value)
  {
    hide Unsigned;
    var t := CopyOptions(s, dummy);
    var found := FindSize(s, dummy.size, f, t);
    if found.Err? {
      return Err(found.error);
    }
    t := found.value;
    var max := if dummy.c.maxSize == 0 then t.size else dummy.c.maxSize;
    if max > t.size {
      return Err(LargerThanFile);
    }
    BlockFitsTest(max, t.c.baseOffset, t.c.blockSize);
    if Unsigned(max - t.c.baseOffset) < t.c.blockSize || max <= t.c.baseOffset {
      return Err(TooSmallForBlock);
    }
    return Ok(t.(c := t.c.(maxSize := max)));
  }

  /** Options and files are accepted if and only if there is nothing to refuse them for. */
  lemma AcceptedExactly(s: Settings, f: File)
    ensures OptionsAgree(s) <==> forall e :: !OptionFault(s, e)
    ensures FileAccepted(s, f) <==> forall e :: !FileFault(s, f, e)
  {
    hide CachingOk, BuffersOk, EngineOk, UsesInterlocked, UsableSize, FileSize;
    if !OptionsAgree(s) {
      assert exists e :: OptionFault(s, e) by {
        assert OptionFault(s, BothThreadOptions) || OptionFault(s, BadStride) || OptionFault(s, BadCaching)
            || OptionFault(s, InterlockedThreadStride) || OptionFault(s, BadWriteShare)
            || OptionFault(s, BadEngine) || OptionFault(s, BadBuffers);
      }
    }
    if !FileAccepted(s, f) {
      assert exists e :: FileFault(s, f, e) by {
        assert FileFault(s, f, CannotStat) || FileFault(s, f, NoSuchTarget) || FileFault(s, f, TargetIsDevice)
            || FileFault(s, f, LargerThanFile) || FileFault(s, f, TooSmallForBlock);
      }
    }
  }

  /** A file is accepted if and only if it can be used and some block at or after the base offset
      lies inside the usable part, which is no larger than the file. */
  lemma AcceptedIfBlockFits(s: Settings, f: File)
    requires Parsed(s)
    ensures FileAccepted(s, f) <==>
      && FileFound(s, f) && UsableSize(s, f) <= FileSize(s, f)
      && exists o: nat :: BlockLies(s, f, o)
  {
    if FileAccepted(s, f) {
      assert BlockLies(s, f, s.baseOffset);
    }
  }

  predicate BlockLies(s: Settings, f: File, o: nat) {
    s.baseOffset <= o && o + s.blockSize <= UsableSize(s, f)
  }

  /** The size is the one of -c if given, else the file's own; -f shortens it, and is ignored
      when absent. */
  lemma Sizes(s: Settings, n: nat)
    ensures s.createSize.Absent? ==> FileSize(s, Regular(n)) == n && FileSize(s, Device(n)) == n
    ensures s.createSize.Number? ==> FileSize(s, Regular(n)) == s.createSize.value == FileSize(s, Missing)
    ensures s.maxSize > 0 ==> UsableSize(s, Regular(n)) == s.maxSize
    ensures s.maxSize == 0 && s.createSize.Absent? ==> UsableSize(s, Regular(n)) == n
  {
  }

  predicate Accepts(s: Settings, files: seq<File>) {
    files != [] && OptionsAgree(s) && forall i :: 0 <= i < |files| ==> FileAccepted(s, files[i])
  }

  function ThreadsOf(targets: seq<TargetFile>): nat {
    if targets == [] then 0 else ThreadsOf(targets[..|targets| - 1]) + targets[|targets| - 1].threadsPerTarget
  }

  /** What an accepted job promises, whatever the options were. */
  predicate JobOk(s: Settings, files: seq<File>, j: JobOptions) {
    && |j.targets| == |files|
    && (forall i :: 0 <= i < |files| ==> TargetOk(s, files[i], j.targets[i]))
    && j.useTotalThreads == !s.totalThreads.Absent?
    && j.engine == EngineOf(s.engine)
    && j.totalThreads == if j.useTotalThreads then ValueOr(s.totalThreads, 0) else ThreadsOf(j.targets)
  }

  /** A job is made exactly when the options agree and every file can be used. */
  method ParseOptions(s: Settings, files: seq<File>) returns (r: Result<JobOptions, Reason>)
    requires Parsed(s) && forall i :: 0 <= i < |files| ==> FitsOffT(files[i])
    ensures r.Ok? <==> Accepts(s, files)
    ensures r.Err? ==>
              || (r.error == NoTargets && files == []) || OptionFault(s, r.error)
              || exists i :: 0 <= i < |files| && FileFault(s, files[i], r.error)
    ensures r.Ok? ==> JobOk(s, files, r.value)
  {
    if |files| == 0 {
      return Err(NoTargets);
    }
    var options := ReadOptions(s);
    if options.Err? {
      return Err(options.error);
    }
    var dummy, job := options.value.0, options.value.1;
    var i := 0;
    while i < |files|
      invariant 0 <= i <= |files| && |job.targets| == i
      invariant forall k :: 0 <= k < i ==> FileAccepted(s, files[k]) && TargetOk(s, files[k], job.targets[k])
      invariant job.useTotalThreads == !s.totalThreads.Absent? && job.engine == EngineOf(s.engine)
      invariant job.totalThreads == if job.useTotalThreads then ValueOr(s.totalThreads, 0) else ThreadsOf(job.targets)
    {
      var t := ApplyToTarget(s, dummy, files[i]);
      if t.Err? {
        return Err(t.error);
      }
      if !job.useTotalThreads {
        job := job.(totalThreads := job.totalThreads + t.value.threadsPerTarget);
      }
      assert (job.targets + [t.value])[..i] == job.targets;
      job := job.(targets := job.targets + [t.value]);
      i := i + 1;
    }
    return Ok(job);
  }

  /** The part of the offset proof that the options guarantee: one block fits, inside the
      file, threads of an interlocked target share one base, and the stride is positive. */
  predicate Placed(t: TargetFile) {
    && t.c.blockSize > 0 && t.c.baseOffset >= 0 && t.c.stride > 0 && t.c.threadOffset >= 0
    && t.c.baseOffset + t.c.blockSize <= t.c.maxSize <= t.size
    && (t.c.useInterlocked ==> t.c.threadOffset == 0 && t.interlockedOffset == t.c.baseOffset)
  }

  lemma AcceptedIsPlaced(s: Settings, f: File, t: TargetFile)
    requires Parsed(s) && OptionsAgree(s) && FileAccepted(s, f) && TargetOk(s, f, t)
    ensures Placed(t)
  {
  }
}
