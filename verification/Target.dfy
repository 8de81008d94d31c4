/** target.h: the offsets a thread uses on a target. */
module Target {
  import opened Arithmetic

  /** The fields of a Target that decide its offsets. */
  datatype Config = Config(
    blockSize: int,
    baseOffset: int,
    maxSize: int,
    threadOffset: int,
    stride: int,
    useRandomAlignment: bool,
    useInterlocked: bool)

  /** What the checks in Profile and Job establish for a thread with relative id `rel`. */
  ghost predicate Checked(c: Config, rel: nat) {
    && c.blockSize >= 0 && c.baseOffset >= 0 && c.stride > 0 && c.threadOffset >= 0
    && c.baseOffset + rel * c.threadOffset + c.blockSize <= c.maxSize
    && c.baseOffset + c.blockSize <= c.maxSize
    && (c.useInterlocked ==> c.threadOffset == 0)
  }

  /** An I/O of one block at `o` stays inside [baseOffset, maxSize). */
  predicate InBounds(c: Config, o: int) {
    c.baseOffset <= o && o + c.blockSize <= c.maxSize
  }

  function ThreadBaseOffset(c: Config, rel: nat): int {
    c.baseOffset + rel * c.threadOffset
  }

  function CorrectOverflow(c: Config, rel: nat, o: int): int {
    if o + c.blockSize > c.maxSize then ThreadBaseOffset(c, rel) else o
  }

  /** How many stride-aligned blocks fit from `start` on. */
  function Slots(c: Config, start: int): int
    requires c.stride > 0
  {
    (c.maxSize - start - c.blockSize) / c.stride + 1
  }

  /** Slot `n` from `start`, going round. */
  function Slot(c: Config, start: int, n: nat): int
    requires c.stride > 0 && start + c.blockSize <= c.maxSize
  {
    SlotsPositive(c, start);
    start + (n % Slots(c, start)) * c.stride
  }

  lemma SlotsPositive(c: Config, start: int)
    requires c.stride > 0 && start + c.blockSize <= c.maxSize
    ensures Slots(c, start) >= 1
  {
  }

  /** `range` of random_offset: the bound given to the random engine. The truncating
      subtraction of the remainder is written as in the source. */
  function RandomRange(c: Config): int
    requires c.stride > 0
  {
    var interval := c.maxSize - c.baseOffset - c.blockSize;
    (interval - interval % c.stride) / c.stride + 1
  }

  /** get_next_offset: the offset, and the new value of the shared interlocked offset.
      `draw` is what the random engine returns. */
  function Next(c: Config, rel: nat, curr: int, interlocked: int, draw: int): (int, int) {
    if c.useRandomAlignment then (c.baseOffset + draw * c.stride, interlocked)
    else if c.useInterlocked then
      var o := CorrectOverflow(c, rel, interlocked + c.stride);
      (o, o)
    else (CorrectOverflow(c, rel, curr + c.stride), interlocked)
  }

  /** get_start_offset. */
  function Start(c: Config, rel: nat, interlocked: int, draw: int): (int, int) {
    if c.useRandomAlignment || c.useInterlocked then Next(c, rel, 0, interlocked, draw)
    else (ThreadBaseOffset(c, rel), interlocked)
  }

  class TargetState {
    const c: Config
    var interlockedOffset: int

    constructor (c: Config)
      ensures this.c == c && interlockedOffset == (if c.useInterlocked then c.baseOffset else 0)
    {
      this.c := c;
      interlockedOffset := if c.useInterlocked then c.baseOffset else 0;
    }

    method GetStartOffset(rel: nat, draw: int) returns (o: int)
      requires Checked(c, rel) && 0 <= draw < RandomRange(c)
      modifies this`interlockedOffset
      ensures (o, interlockedOffset) == Start(c, rel, old(interlockedOffset), draw)
      ensures !c.useRandomAlignment && !c.useInterlocked ==> o == c.baseOffset + rel * c.threadOffset
    {
      if c.useRandomAlignment {
        o := RandomOffset(draw);
      } else if c.useInterlocked {
        o := GetNextOffset(rel, 0, draw);
      } else {
        o := ThreadBaseOffset(c, rel);
      }
    }

    method GetNextOffset(rel: nat, curr: int, draw: int) returns (o: int)
      requires Checked(c, rel) && 0 <= draw < RandomRange(c)
      modifies this`interlockedOffset
      ensures (o, interlockedOffset) == Next(c, rel, curr, old(interlockedOffset), draw)
      ensures !c.useRandomAlignment && !c.useInterlocked ==>
        o == (if curr + c.stride + c.blockSize <= c.maxSize then curr + c.stride
              else c.baseOffset + rel * c.threadOffset)
    {
      if c.useRandomAlignment {
        o := RandomOffset(draw);
      } else if c.useInterlocked {
        interlockedOffset := CorrectOverflow(c, rel, interlockedOffset + c.stride);
        o := interlockedOffset;
      } else {
        o := CorrectOverflow(c, rel, curr + c.stride);
      }
    }

    /** The draw, from the range asked for, always lands on an aligned block in bounds. */
    method RandomOffset(draw: int) returns (o: int)
      requires Checked(c, 0) && 0 <= draw < RandomRange(c)
      ensures o == c.baseOffset + draw * c.stride
      ensures InBounds(c, o) && (o - c.baseOffset) % c.stride == 0
    {
      var alignment := c.stride;
      var interval := c.maxSize - c.baseOffset - c.blockSize;
      interval := interval - interval % alignment;
      var range := interval / alignment + 1;
      RandomSlots(c, c.baseOffset + draw * alignment);
      MulDiv(draw, alignment);
      o := c.baseOffset + draw * alignment;
      RandomInBounds(c, draw);
    }
  }

  lemma RandomInBounds(c: Config, draw: int)
    requires Checked(c, 0) && 0 <= draw < RandomRange(c)
    ensures InBounds(c, c.baseOffset + draw * c.stride)
  {
    DropRemainder(c.maxSize - c.baseOffset - c.blockSize, c.stride);
    DivFits(draw, c.maxSize - c.baseOffset - c.blockSize, c.stride);
    MulMono(0, draw, c.stride);
  }

  /** The random range is exact: the offsets it can produce are all the stride-aligned
      blocks in bounds, and no others. */
  lemma RandomSlots(c: Config, o: int)
    requires Checked(c, 0)
    ensures (exists draw :: 0 <= draw < RandomRange(c) && o == c.baseOffset + draw * c.stride)
       <==> InBounds(c, o) && (o - c.baseOffset) % c.stride == 0
  {
    hide RandomRange;
    if draw :| 0 <= draw < RandomRange(c) && o == c.baseOffset + draw * c.stride {
      RandomInBounds(c, draw);
      MulDiv(draw, c.stride);
    }
    if InBounds(c, o) && (o - c.baseOffset) % c.stride == 0 {
      RandomReaches(c, o);
    }
  }

  lemma RandomReaches(c: Config, o: int)
    requires Checked(c, 0) && InBounds(c, o) && (o - c.baseOffset) % c.stride == 0
    ensures var draw := (o - c.baseOffset) / c.stride;
      0 <= draw < RandomRange(c) && o == c.baseOffset + draw * c.stride
  {
    var i := c.maxSize - c.baseOffset - c.blockSize;
    DropRemainder(i, c.stride);
    DivFits((o - c.baseOffset) / c.stride, i, c.stride);
    DivFits(0, o - c.baseOffset, c.stride);
  }

  /** Random mode uses its draw: different draws give different offsets, and every aligned block
      in bounds can be drawn, at the start and later. */
  lemma RandomDraws(c: Config, rel: nat, curr: int, interlocked: int, a: int, b: int, o: int)
    requires Checked(c, rel) && c.useRandomAlignment
    ensures Next(c, rel, curr, interlocked, a).0 == Next(c, rel, curr, interlocked, b).0 ==> a == b
    ensures Start(c, rel, interlocked, a) == Next(c, rel, curr, interlocked, a)
    ensures InBounds(c, o) && (o - c.baseOffset) % c.stride == 0 ==>
              var draw := (o - c.baseOffset) / c.stride;
              0 <= draw < RandomRange(c) && Next(c, rel, curr, interlocked, draw).0 == o
  {
    if a < b {
      MulMono(a + 1, b, c.stride);
    } else if b < a {
      MulMono(b + 1, a, c.stride);
    }
    if InBounds(c, o) && (o - c.baseOffset) % c.stride == 0 {
      RandomReaches(c, o);
    }
  }

  /** The slots from `start` are exactly the strides at which a whole block fits. */
  lemma SlotsExact(c: Config, start: int, n: nat)
    requires c.stride > 0 && start + c.blockSize <= c.maxSize
    ensures n < Slots(c, start) <==> start + n * c.stride + c.blockSize <= c.maxSize
    ensures n < Slots(c, start) ==> Slot(c, start, n) == start + n * c.stride
  {
    DivFits(n, c.maxSize - start - c.blockSize, c.stride);
    SlotsPositive(c, start);
  }

  /** One stride from slot `n` is slot `n + 1`: the overflow test fires exactly at the end. */
  lemma SlotStep(c: Config, rel: nat, n: nat)
    requires Checked(c, rel)
    ensures var start := ThreadBaseOffset(c, rel);
      CorrectOverflow(c, rel, Slot(c, start, n) + c.stride) == Slot(c, start, n + 1)
  {
    var start := ThreadBaseOffset(c, rel);
    var k := Slots(c, start);
    SlotsPositive(c, start);
    ModNext(n, k);
    DivFits(n % k + 1, c.maxSize - start - c.blockSize, c.stride);
    assert (n % k + 1) * c.stride == (n % k) * c.stride + c.stride;
  }

  lemma SlotInBounds(c: Config, start: int, n: nat)
    requires c.stride > 0 && start + c.blockSize <= c.maxSize
    ensures start <= Slot(c, start, n) && Slot(c, start, n) + c.blockSize <= c.maxSize
  {
    SlotsPositive(c, start);
    var k := n % Slots(c, start);
    DivFits(k, c.maxSize - start - c.blockSize, c.stride);
    MulMono(0, k, c.stride);
  }

  /** Draw `i` after draw `first` lands on slot `j`. */
  predicate Hits(c: Config, start: int, first: nat, i: nat, j: nat)
    requires c.stride > 0 && start + c.blockSize <= c.maxSize
  {
    i < Slots(c, start) && Slot(c, start, first + i) == start + j * c.stride
  }

  /** Any `Slots` consecutive draws hit every slot exactly once. */
  lemma EverySlotOnce(c: Config, start: int, first: nat, j: nat)
    requires c.stride > 0 && start + c.blockSize <= c.maxSize && j < Slots(c, start)
    ensures exists i: nat :: Hits(c, start, first, i, j)
    ensures forall a: nat, b: nat :: Hits(c, start, first, a, j) && Hits(c, start, first, b, j) ==> a == b
  {
    var k := Slots(c, start);
    var f := first % k;
    var i: nat := if f <= j then j - f else j - f + k;
    assert first == (first / k) * k + f;
    assert (first / k + 1) * k == (first / k) * k + k;
    ModUnique(first + i, k, first / k + (if f <= j then 0 else 1), j);
    assert Hits(c, start, first, i, j);
    forall a: nat | Hits(c, start, first, a, j) ensures a == i {
      HitAt(c, start, first, a, j);
    }
  }

  lemma HitAt(c: Config, start: int, first: nat, a: nat, j: nat)
    requires c.stride > 0 && start + c.blockSize <= c.maxSize && j < Slots(c, start)
    requires Hits(c, start, first, a, j)
    ensures var k, f := Slots(c, start), first % Slots(c, start);
      a == if f <= j then j - f else j - f + k
  {
    var k := Slots(c, start);
    MulDiv(j, c.stride);
    MulDiv((first + a) % k, c.stride);
    var p, q := first / k, (first + a) / k;
    assert (q - p) * k == q * k - p * k;
    SmallMultiple(q - p, k, first % k + a - j);
  }

  lemma SmallMultiple(m: int, k: int, x: int)
    requires k > 0 && x == m * k && -k < x < 2 * k
    ensures x == 0 || x == k
  {
    if m <= -1 {
      MulMono(m, -1, k);
    } else if m >= 2 {
      MulMono(2, m, k);
    }
  }

  /** The O_DIRECT check: the sector size divides block size, stride and thread offset. */
  predicate SectorAligned(c: Config, sector: int)
    requires sector > 0
  {
    c.blockSize % sector == 0 && c.stride % sector == 0 && c.threadOffset % sector == 0
  }
}
