/** target.h: TargetBuffer, and how a thread cuts its buffer into one block per op. */
module TargetBuffer {
  import opened Arithmetic
  import opened Bits

  datatype Allocation = Allocated | NoBuffer | AssertionFailed

  /** The aligned address the mask expression computes from the raw one. */
  function Align(raw: nat, align: nat): nat
    requires raw + align - 1 >= 0 && 1 <= align <= Pow2(WORD_BITS)
  {
    And(raw + align - 1, Not(align - 1, WORD_BITS))
  }

  /** For a power of two it is the least multiple of `align` at or above `raw`. */
  lemma AlignIsLeast(raw: nat, align: nat, k: nat)
    requires align == Pow2(k) && align <= Pow2(WORD_BITS) && raw + align - 1 < Pow2(WORD_BITS)
    ensures raw <= Align(raw, align) <= raw + align - 1
    ensures Align(raw, align) % align == 0
    ensures forall m: nat :: m % align == 0 && m >= raw ==> Align(raw, align) <= m
  {
    hide Pow2, And, Not;
    if k > WORD_BITS {
      Pow2Strict(WORD_BITS, k);
    }
    HighMask(raw + align - 1, k, WORD_BITS);
    RoundedUp(raw, align);
  }

  lemma RoundedUp(raw: nat, align: nat)
    requires align > 0
    ensures var x := raw + align - 1; var r := x - x % align;
      && raw <= r <= x && r % align == 0
      && (forall m: nat :: m % align == 0 && m >= raw ==> r <= m)
  {
    var x := raw + align - 1;
    MulDiv(x / align, align);
    assert x - x % align == (x / align) * align;
    forall m: nat | m % align == 0 && m >= raw ensures x - x % align <= m {
      NotBetween(x, m, align);
    }
  }

  lemma {:induction false} Pow2Strict(a: nat, b: nat)
    requires a < b
    ensures Pow2(a) < Pow2(b)
    decreases b
  {
    if a == b - 1 {
    } else {
      Pow2Strict(a, b - 1);
    }
  }

  lemma NotBetween(x: nat, m: nat, a: nat)
    requires a > 0 && m % a == 0 && m + a - 1 >= x
    ensures x - x % a <= m
  {
    var p, q := x / a, m / a;
    assert m == q * a && (q + 1) * a == q * a + a;
    if q < p {
      MulMono(q + 1, p, a);
    } else {
      MulMono(p, q, a);
    }
  }

  class Buffer {
    var size: nat
    var align: nat
    /** The raw and the aligned address, and the memory of the raw allocation. */
    var unaligned: nat
    var ptr: nat
    var memory: array<nat>

    /** The `size` bytes from the aligned address lie inside the allocation. */
    ghost predicate Valid()
      reads this
    {
      size > 0 ==>
        && align > 0 && ptr % align == 0
        && unaligned <= ptr && ptr + size <= unaligned + memory.Length
    }

    constructor ()
      ensures Valid() && size == 0
    {
      size, align, unaligned, ptr := 0, 0, 0, 0;
      memory := new nat[0];
    }

    /** `raw` is the address the C library's calloc gives for the block. */
    method Calloc(newSize: nat, newAlign: nat, raw: nat) returns (r: Allocation)
      requires newAlign <= Pow2(WORD_BITS)
      requires raw + newSize + newAlign <= Pow2(WORD_BITS)
      modifies this
      ensures r == (if newSize == 0 then NoBuffer
                    else if IsPowerOfTwo(newAlign) then Allocated else AssertionFailed)
      ensures r == Allocated ==>
        && Valid() && size == newSize && align == newAlign && unaligned == raw && fresh(memory)
        && ptr == Align(raw, newAlign)
        && (forall i :: 0 <= i < memory.Length ==> memory[i] == 0)
      ensures r == NoBuffer ==> Valid() && size == 0
    {
      hide Pow2, And, Align;
      size, align := newSize, newAlign;
      unaligned, ptr := 0, 0;
      if size == 0 {
        return NoBuffer;
      }
      if align > 0 {
        PowerOfTwoTest(align);
      }
      if !(align != 0 && (align == 1 || And(align, align - 1) == 0)) {
        return AssertionFailed;
      }
      ghost var k: nat :| align == Pow2(k);
      memory := new nat[size + align - 1](_ => 0);
      unaligned := raw;
      AlignIsLeast(raw, align, k);
      ptr := Align(unaligned, align);
      return Allocated;
    }

    /** Ascending bytes, every write inside the allocation. */
    method FillDefault()
      requires Valid() && size > 0
      modifies memory
      ensures forall i :: 0 <= i < size ==> memory[ptr - unaligned + i] == i % 256
      ensures forall j :: 0 <= j < memory.Length && !(ptr - unaligned <= j < ptr - unaligned + size) ==>
                memory[j] == old(memory[j])
    {
      var i := 0;
      while i < size
        invariant 0 <= i <= size
        invariant forall m :: 0 <= m < i ==> memory[ptr - unaligned + m] == m % 256
        invariant forall j :: 0 <= j < memory.Length && !(ptr - unaligned <= j < ptr - unaligned + i) ==>
                    memory[j] == old(memory[j])
      {
        memory[ptr - unaligned + i] := i % 256;
        i := i + 1;
      }
    }
  }

  /** The address of op `i`'s block in a buffer that starts at `ptr`. */
  function BlockAt(ptr: nat, i: nat, block: nat): nat {
    ptr + i * block
  }

  /** The blocks of a buffer of `overlap` blocks lie in it, do not meet, and are aligned when
      the block size is a multiple of the alignment. */
  lemma BlocksApart(ptr: nat, overlap: nat, block: nat, align: nat, i: nat, j: nat)
    requires i < j < overlap && align > 0 && ptr % align == 0
    ensures ptr <= BlockAt(ptr, i, block)
    ensures BlockAt(ptr, i, block) + block <= BlockAt(ptr, j, block)
    ensures BlockAt(ptr, j, block) + block <= ptr + overlap * block
    ensures block % align == 0 ==> BlockAt(ptr, i, block) % align == 0 && BlockAt(ptr, j, block) % align == 0
  {
    MulMono(i + 1, j, block);
    MulMono(j + 1, overlap, block);
    assert (i + 1) * block == i * block + block && (j + 1) * block == j * block + block;
    if block % align == 0 {
      MulOfMultiple(i, block, align);
      MulOfMultiple(j, block, align);
      SumOfMultiples(ptr, i * block, align);
      SumOfMultiples(ptr, j * block, align);
    }
  }
}
