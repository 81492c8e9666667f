/** Bit operations on one line of the frame bitmap of kernel/memory_manager.hpp:
    a line is an `unsigned long` of 64 bits, one per frame. */
module MapLine {

  /** A bit position 0..63 of a line, as the 6-bit shift amount it is used as.
      Counting up in bv6 keeps integer and bit-vector reasoning apart;
      BitIndexValue shows the result is k itself. */
  function BitIndex(k: nat): bv6
    requires k < 64
  {
    if k == 0 then 0 else BitIndex(k - 1) + 1
  }

  lemma {:induction false} BitIndexValue(k: nat)
    requires k < 64
    ensures BitIndex(k) as int == k
  {
    if k > 0 {
      BitIndexValue(k - 1);
    }
  }

  /** Different positions are different shift amounts. */
  lemma BitIndexInjective(a: nat, b: nat)
    requires a < 64 && b < 64 && a != b
    ensures BitIndex(a) != BitIndex(b)
  {
    BitIndexValue(a);
    BitIndexValue(b);
  }

  /** `static_cast<MapLineType>(1) << bit_index`. */
  function LineMask(bit: bv6): bv64
  {
    1 << bit
  }

  lemma MaskNonZero(i: bv6)
    ensures LineMask(i) != 0
  {
  }

  lemma MaskDisjoint(i: bv6, j: bv6)
    requires i != j
    ensures LineMask(i) & LineMask(j) == 0
  {
  }

  /** Whether a line has a bit of mask `m` set. */
  predicate Test(x: bv64, m: bv64)
  {
    x & m != 0
  }

  /** A line with the bits of `m` set (`|=`) or cleared (`&= ~`). */
  function Update(x: bv64, m: bv64, used: bool): bv64
  {
    if used then x | m else x & !m
  }

  lemma UpdateSame(x: bv64, m: bv64, used: bool)
    requires m != 0
    ensures Test(Update(x, m, used), m) == used
  {
  }

  lemma SetOther(x: bv64, m: bv64, n: bv64)
    requires m & n == 0
    ensures Test(Update(x, m, true), n) == Test(x, n)
  {
  }

  lemma ClearOther(x: bv64, m: bv64, n: bv64)
    requires m & n == 0
    ensures Test(Update(x, m, false), n) == Test(x, n)
  {
  }

  lemma UpdateLineSameBit(x: bv64, b: bv6, used: bool)
    ensures Test(Update(x, LineMask(b), used), LineMask(b)) == used
  {
    MaskNonZero(b);
    UpdateSame(x, LineMask(b), used);
  }

  lemma SetLineOtherBit(x: bv64, b: bv6, c: bv6)
    requires b != c
    ensures Test(Update(x, LineMask(b), true), LineMask(c)) == Test(x, LineMask(c))
  {
    MaskDisjoint(b, c);
    SetOther(x, LineMask(b), LineMask(c));
  }

  lemma ClearLineOtherBit(x: bv64, b: bv6, c: bv6)
    requires b != c
    ensures Test(Update(x, LineMask(b), false), LineMask(c)) == Test(x, LineMask(c))
  {
    MaskDisjoint(b, c);
    ClearOther(x, LineMask(b), LineMask(c));
  }
}
