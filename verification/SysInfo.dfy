/** sys_info.cc: the parser of CPU lists such as 0-7,9,12,32-36. */
module SysInfo {

  const UINT_MAX: nat := 0xFFFF_FFFF
  const INT_MAX: nat := 0x7FFF_FFFF
  const ULONG_MAX: nat := 0xFFFF_FFFF_FFFF_FFFF

  /** `Cpus` gives the set and what is left of the string; `Exit` is the program's exit on a
      strtoul error; `Overflow` is the loop counter, an int, running past its maximum. */
  datatype Outcome = Cpus(ids: set<nat>, rest: string) | Exit | Overflow

  /** The character at the pointer; NUL at the end. */
  function Head(t: string): char {
    if t == "" then '\0' else t[0]
  }

  predicate IsDigit(c: char) {
    '0' <= c <= '9'
  }

  function DigitCount(t: string): (n: nat)
    ensures n <= |t|
    ensures IsDigit(Head(t)) ==> n > 0
  {
    if t == "" || !IsDigit(t[0]) then 0 else 1 + DigitCount(t[1..])
  }

  function Number(d: string): nat {
    if d == "" then 0 else Number(d[..|d| - 1]) * 10 + DigitValue(d[|d| - 1])
  }

  function DigitValue(c: char): nat {
    if IsDigit(c) then c as nat - '0' as nat else 0
  }

  /** strtoul saturates; storing the result in an unsigned int truncates it. */
  function Stored(n: nat): nat {
    (if n > ULONG_MAX then ULONG_MAX else n) % 0x1_0000_0000
  }

  /** The number at the pointer, as stored, and the string after it. */
  function StrToUl(t: string): (nat, string)
    requires IsDigit(Head(t))
  {
    (Stored(Number(t[..DigitCount(t)])), t[DigitCount(t)..])
  }

  predicate InRange(x: nat, low: nat, end: nat) {
    low <= x < end
  }

  /** The ids from `low` on, below `end`. */
  function Between(low: nat, end: nat): (s: set<nat>)
    ensures forall x :: x in s <==> InRange(x, low, end)
  {
    set x: nat | x < end && InRange(x, low, end)
  }

  /** Adding a range, and what the int counter makes of it. */
  function AddRange(low: nat, high: nat, ids: set<nat>, rest: string): Outcome {
    if low <= INT_MAX <= high then Overflow else Cpus(ids + Between(low, high + 1), rest)
  }

  /** One field: an id or a range. `Stop` leaves the loop before anything is added. */
  datatype Field = Stop(rest: string) | Failed | Range(low: nat, high: nat, rest: string)

  function ReadField(t: string): (f: Field)
    ensures f.Range? ==> |f.rest| < |t|
  {
    if !IsDigit(Head(t)) then Stop(t)
    else
      var (curr, after) := StrToUl(t);
      if curr == UINT_MAX then Failed
      else if Head(after) != '-' then Range(curr, curr, after)
      else if !IsDigit(Head(after[1..])) then Stop(after[1..])
      else
        var (next, end) := StrToUl(after[1..]);
        if next == UINT_MAX then Failed else Range(curr, next, end)
  }

  /** What the whole loop makes of the string from the pointer on. */
  function Parse(t: string, ids: set<nat>): Outcome
    decreases |t|
  {
    match ReadField(t)
    case Stop(rest) => Cpus(ids, rest)
    case Failed => Exit
    case Range(low, high, rest) =>
      var r := AddRange(low, high, ids, rest);
      if r.Cpus? && Head(rest) == ',' then Parse(rest[1..], r.ids) else r
  }

  /** Lines 84-87. The counter starts as the int with the bits of `low`, and is compared as
      unsigned. */
  method InsertRange(low: nat, high: nat, ids: set<nat>, rest: string) returns (r: Outcome)
    requires low < UINT_MAX && high < UINT_MAX
    ensures r == AddRange(low, high, ids, rest)
  {
    var ret := ids;
    var i: int := if low <= INT_MAX then low else low - 0x1_0000_0000;
    ghost var n := low;
    while i % 0x1_0000_0000 <= high
      invariant low <= n <= UINT_MAX && i == (if low <= INT_MAX then n else n - 0x1_0000_0000)
      invariant i <= INT_MAX && (n == low || n <= high + 1) && (low <= INT_MAX <= high ==> n <= INT_MAX)
      invariant ret == ids + Between(low, n)
      decreases UINT_MAX - n
    {
      assert i % 0x1_0000_0000 == n;
      assert Between(low, n) + {n} == Between(low, n + 1);
      ret := ret + {i % 0x1_0000_0000};
      if i == INT_MAX {
        return Overflow;
      }
      i := i + 1;
      n := n + 1;
    }
    assert i % 0x1_0000_0000 == n;
    assert Between(low, n) == Between(low, high + 1);
    return Cpus(ret, rest);
  }

  /** The parser, with a pointer into the string. It ends on every string: each field that
      is read leaves a shorter rest. */
  method StrToCpuSet(s: string) returns (r: Outcome)
    ensures r == Parse(s, {})
  {
    var ret: set<nat> := {};
    var ptr := s;
    while true
      invariant Parse(ptr, ret) == Parse(s, {})
      decreases |ptr|
    {
      if !IsDigit(Head(ptr)) {
        break;
      }
      var (curr, end) := StrToUl(ptr);
      if curr == UINT_MAX {
        return Exit;
      }
      assert ReadField(ptr).Stop? || ReadField(ptr).Failed? || ReadField(ptr).low == curr;
      ghost var field := ptr;
      ptr := end;
      var next := curr;
      if Head(ptr) == '-' {
        ptr := ptr[1..];
        if !IsDigit(Head(ptr)) {
          return Cpus(ret, ptr);
        }
        var (upTo, end2) := StrToUl(ptr);
        next := upTo;
        if next == UINT_MAX {
          return Exit;
        }
        ptr := end2;
      }
      assert ReadField(field) == Range(curr, next, ptr);
      var added := InsertRange(curr, next, ret, ptr);
      if added.Overflow? || Head(ptr) != ',' {
        return added;
      }
      ret := added.ids;
      ptr := ptr[1..];
    }
    return Cpus(ret, ptr);
  }

  // ---- round trip ------------------------------------------------------------------------

  function DigitChar(d: nat): (c: char)
    requires d < 10
    ensures IsDigit(c) && DigitValue(c) == d
  {
    ('0' as nat + d) as char
  }

  function Decimal(n: nat): (s: string)
    ensures s != "" && forall i :: 0 <= i < |s| ==> IsDigit(s[i])
  {
    if n < 10 then [DigitChar(n)] else Decimal(n / 10) + [DigitChar(n % 10)]
  }

  lemma {:induction false} DecimalNumber(n: nat)
    ensures Number(Decimal(n)) == n
    decreases n
  {
    if n < 10 {
      assert Number([]) == 0;
    } else {
      DecimalNumber(n / 10);
      var d := Decimal(n);
      assert d[..|d| - 1] == Decimal(n / 10);
    }
  }

  lemma {:induction false} DigitsBeforeRest(d: string, rest: string)
    requires (forall i :: 0 <= i < |d| ==> IsDigit(d[i])) && !IsDigit(Head(rest))
    ensures DigitCount(d + rest) == |d|
    decreases |d|
  {
    if d == "" {
      assert d + rest == rest;
    } else {
      assert (d + rest)[1..] == d[1..] + rest;
      DigitsBeforeRest(d[1..], rest);
    }
  }

  lemma ReadNumber(n: nat, rest: string)
    requires !IsDigit(Head(rest))
    ensures IsDigit(Head(Decimal(n) + rest)) && StrToUl(Decimal(n) + rest) == (Stored(n), rest)
  {
    DigitsBeforeRest(Decimal(n), rest);
    DecimalNumber(n);
    assert (Decimal(n) + rest)[..|Decimal(n)|] == Decimal(n);
    assert (Decimal(n) + rest)[|Decimal(n)|..] == rest;
  }

  datatype Item = Id(n: nat) | Ids(first: nat, last: nat)

  function Low(i: Item): nat {
    match i case Id(n) => n case Ids(first, _) => first
  }

  function High(i: Item): nat {
    match i case Id(n) => n case Ids(_, last) => last
  }

  function Show(i: Item): string {
    match i case Id(n) => Decimal(n) case Ids(first, last) => Decimal(first) + "-" + Decimal(last)
  }

  function ShowAll(items: seq<Item>): string {
    if items == [] then ""
    else if |items| == 1 then Show(items[0])
    else Show(items[0]) + "," + ShowAll(items[1..])
  }

  /** What a list of fields stands for, one after the other. */
  function Meaning(items: seq<Item>, ids: set<nat>): Outcome {
    if items == [] then Cpus(ids, "")
    else
      var low, high := Stored(Low(items[0])), Stored(High(items[0]));
      if low == UINT_MAX || high == UINT_MAX then Exit
      else
        var r := AddRange(low, high, ids, "");
        if r.Cpus? then Meaning(items[1..], r.ids) else r
  }

  lemma ReadItem(i: Item, rest: string)
    requires !IsDigit(Head(rest)) && Head(rest) != '-'
    ensures ReadField(Show(i) + rest) ==
      if Stored(Low(i)) == UINT_MAX || Stored(High(i)) == UINT_MAX then Failed
      else Range(Stored(Low(i)), Stored(High(i)), rest)
  {
    match i
    case Id(n) => ReadNumber(n, rest);
    case Ids(first, last) =>
      var tail := "-" + (Decimal(last) + rest);
      assert Show(i) + rest == Decimal(first) + tail;
      ReadNumber(first, tail);
      assert tail[1..] == Decimal(last) + rest;
      ReadNumber(last, rest);
  }

  /** Every list of fields, written as text, is parsed to the end and to its meaning: ids of
      any size, reversed ranges, repetitions. */
  lemma {:induction false} ParseShown(items: seq<Item>, ids: set<nat>)
    requires items != []
    ensures Parse(ShowAll(items), ids) == Meaning(items, ids)
    decreases |items|
  {
    var rest := if |items| == 1 then "" else "," + ShowAll(items[1..]);
    assert ShowAll(items) == Show(items[0]) + rest;
    ReadItem(items[0], rest);
    if |items| > 1 {
      assert rest[1..] == ShowAll(items[1..]);
      var r := AddRange(Stored(Low(items[0])), Stored(High(items[0])), ids, rest);
      if r.Cpus? {
        ParseShown(items[1..], r.ids);
      }
    } else {
      assert items[1..] == [];
    }
  }

  /** Where the text goes wrong: before a field nothing is added and nothing read; behind a
      complete item the item counts and the rest is left; an id with a dash and no number behind
      it is dropped. */
  lemma Malformed(t: string, n: nat, i: Item, rest: string, ids: set<nat>)
    requires n < UINT_MAX && Stored(Low(i)) < UINT_MAX && Stored(High(i)) < UINT_MAX
    requires !IsDigit(Head(t)) && !IsDigit(Head(rest)) && Head(rest) != '-' && Head(rest) != ','
    ensures Parse(t, ids) == Cpus(ids, t)
    ensures Parse(Decimal(n) + ("-" + t), ids) == Cpus(ids, t)
    ensures Parse(Show(i) + rest, ids) == AddRange(Stored(Low(i)), Stored(High(i)), ids, rest)
  {
    hide Decimal, Show, Stored, AddRange;
    assert ("-" + t)[1..] == t;
    assert Stored(n) == n by { StoredLowBits(n, n, 0); }
    ReadNumber(n, "-" + t);
    ReadItem(i, rest);
  }

  /** Ids beyond 32 bits lose their upper bits, and a number beyond 64 bits is an error. */
  lemma LargeId(k: nat, high: nat)
    requires k < UINT_MAX && k != INT_MAX && k + high * 0x1_0000_0000 <= ULONG_MAX
    ensures Parse(ShowAll([Id(k + high * 0x1_0000_0000)]), {}) == Cpus({k}, "")
  {
    hide Parse, ShowAll, Stored;
    var n := k + high * 0x1_0000_0000;
    ParseShown([Id(n)], {});
    StoredLowBits(n, k, high);
    OneId(n, k);
  }

  lemma StoredLowBits(n: nat, k: nat, high: nat)
    requires k <= UINT_MAX && n == k + high * 0x1_0000_0000 <= ULONG_MAX
    ensures Stored(n) == k
  {
  }

  lemma OneId(n: nat, k: nat)
    requires Stored(n) == k < UINT_MAX && k != INT_MAX
    ensures Meaning([Id(n)], {}) == Cpus({k}, "")
  {
    hide Stored;
    assert [Id(n)][1..] == [];
    assert {} + Between(k, k + 1) == {k};
  }

  lemma HugeId(n: nat)
    requires n > ULONG_MAX
    ensures Parse(ShowAll([Id(n)]), {}) == Exit
  {
    hide Parse, ShowAll, Stored;
    ParseShown([Id(n)], {});
    StoredSaturates(n);
  }

  lemma StoredSaturates(n: nat)
    requires n > ULONG_MAX
    ensures Stored(n) == UINT_MAX
  {
  }

  /** The union of the ranges; a reversed one is empty. */
  function Union(items: seq<Item>): set<nat> {
    if items == [] then {} else Between(Low(items[0]), High(items[0]) + 1) + Union(items[1..])
  }

  predicate Small(i: Item) {
    Low(i) < UINT_MAX && High(i) < UINT_MAX
  }

  predicate Straddles(i: Item) {
    Low(i) <= INT_MAX <= High(i)
  }

  predicate NoneStraddles(items: seq<Item>) {
    items == [] || (!Straddles(items[0]) && NoneStraddles(items[1..]))
  }

  lemma {:induction false} NoneStraddlesAll(items: seq<Item>)
    ensures NoneStraddles(items) <==> forall k :: 0 <= k < |items| ==> !Straddles(items[k])
    decreases |items|
  {
    if items == [] {
    } else {
      NoneStraddlesAll(items[1..]);
      assert forall k :: 1 <= k < |items| ==> items[k] == items[1..][k - 1];
    }
  }

  lemma {:induction false} MeaningIsUnion(items: seq<Item>, ids: set<nat>)
    requires forall k :: 0 <= k < |items| ==> Small(items[k])
    ensures Meaning(items, ids) == if NoneStraddles(items) then Cpus(ids + Union(items), "") else Overflow
    decreases |items|
  {
    if items == [] {
      assert ids + {} == ids;
    } else if !Straddles(items[0]) {
      assert Small(items[0]);
      var more := Between(Low(items[0]), High(items[0]) + 1);
      assert Union(items) == more + Union(items[1..]);
      MeaningIsUnion(items[1..], ids + more);
      assert ids + more + Union(items[1..]) == ids + Union(items);
      assert NoneStraddles(items) == NoneStraddles(items[1..]);
    } else {
      assert Small(items[0]);
    }
  }

  /** For ids that fit an unsigned int the text gives back exactly the union of its ranges if
      and only if no range reaches over the largest int. Ids below 2^31 - 1 always do. */
  lemma RoundTrip(items: seq<Item>)
    requires items != [] && forall k :: 0 <= k < |items| ==> Small(items[k])
    ensures Parse(ShowAll(items), {}) == Cpus(Union(items), "")
       <==> forall k :: 0 <= k < |items| ==> !Straddles(items[k])
  {
    ParseShown(items, {});
    MeaningIsUnion(items, {});
    NoneStraddlesAll(items);
    assert {} + Union(items) == Union(items);
  }
}
