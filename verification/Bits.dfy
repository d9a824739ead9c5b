/** Single bits of bitmap bytes. */
module Bits {
  /** 1 << k in a uint8_t: it is 0 once the bit has fallen off. */
  function Mask(k: nat): bv8
  {
    if k == 0 then 1 else Mask(k - 1) << 1
  }

  predicate BitOf(p: bv8, k: nat)
    requires k < 8
  {
    p & Mask(k) != 0
  }

  /** Bit i of a bitmap block. */
  predicate Bit(bytes: seq<bv8>, i: nat)
    requires i < 8 * |bytes|
  {
    BitOf(bytes[i / 8], i % 8)
  }

  lemma MaskValues()
    ensures Mask(0) == 0x01 && Mask(1) == 0x02 && Mask(2) == 0x04 && Mask(3) == 0x08
    ensures Mask(4) == 0x10 && Mask(5) == 0x20 && Mask(6) == 0x40 && Mask(7) == 0x80
    ensures Mask(8) == 0
  {
    assert Mask(2) == 0x04;
    assert Mask(4) == 0x10;
    assert Mask(6) == 0x40;
  }

  lemma MaskNonZero(k: nat)
    requires k <= 8
    ensures Mask(k) != 0 <==> k < 8
  {
    MaskValues();
  }

  lemma SetBit(p: bv8, k: nat, j: nat)
    requires k < 8 && j < 8
    ensures BitOf(p | Mask(k), j) <==> j == k || BitOf(p, j)
  {
    MaskValues();
  }

  lemma ClearBit(p: bv8, k: nat, j: nat)
    requires k < 8 && j < 8
    ensures BitOf(p & !Mask(k), j) <==> j != k && BitOf(p, j)
  {
    MaskValues();
  }

  lemma ShiftOne(k: nat)
    requires k < 8
    ensures (1 as bv8) << k == Mask(k)
  {
    MaskValues();
  }

  lemma AllOnes(k: nat)
    requires k < 8
    ensures BitOf(0xff, k) && !BitOf(0, k)
  {
    MaskValues();
  }

  lemma HighMask(m: nat, j: nat)
    requires m < 8 && j < 8
    ensures BitOf((0xff as bv8) << m, j) <==> m <= j
  {
    MaskValues();
  }

  lemma OrBits(p: bv8, q: bv8, j: nat)
    requires j < 8
    ensures BitOf(p | q, j) <==> BitOf(p, j) || BitOf(q, j)
  {
    MaskValues();
  }

  lemma FullByte(p: bv8)
    requires forall j :: 0 <= j < 8 ==> BitOf(p, j)
    ensures p == 0xff
  {
    MaskValues();
    assert BitOf(p, 0) && BitOf(p, 1) && BitOf(p, 2) && BitOf(p, 3);
    assert BitOf(p, 4) && BitOf(p, 5) && BitOf(p, 6) && BitOf(p, 7);
  }

  lemma BitAt(bytes: seq<bv8>, i: nat, j: nat)
    requires i < |bytes| && j < 8
    ensures Bit(bytes, 8 * i + j) <==> BitOf(bytes[i], j)
  {
    assert (8 * i + j) / 8 == i && (8 * i + j) % 8 == j;
  }
}
