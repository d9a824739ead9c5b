/** Runs of marks as numbers: the bytes of the bitmap, read as binary digits. */
module Marks {
  import opened Bits
  import opened Layout
  import opened Volume
  import opened Allocator
  /** 2 to the power of k. */
  function Pow2(k: nat): (r: nat)
    ensures r > 0
  {
    if k == 0 then 1 else 2 * Pow2(k - 1)
  }

  /** The laws that make these the powers of two. */
  lemma PowSum(a: nat, b: nat)
    ensures Pow2(0) == 1 && Pow2(1) == 2
    ensures Pow2(a + b) == Pow2(a) * Pow2(b)
  {
    if b > 0 {
      PowSum(a, b - 1);
      assert Pow2(a + b) == 2 * Pow2(a + (b - 1));
    }
  }

  lemma WordValues()
    ensures Pow2(8) == 0x100 && Pow2(16) == 0x1_0000 && Pow2(24) == 0x100_0000 && Pow2(32) == LIMIT
  {
    PowSum(8, 8);
    PowSum(8, 16);
    PowSum(16, 16);
  }

  /** The sum of 2^k over those k below n for which block base + k is in use. */
  ghost function SumOfMarks(marked: set<nat>, base: nat, n: nat): (r: nat)
    ensures r < Pow2(n)
  {
    if n == 0 then 0
    else SumOfMarks(marked, base, n - 1) + if base + (n - 1) in marked then Pow2(n - 1) else 0
  }

  lemma TwoMore(s: nat, p: nat, q: nat)
    requires p > 0
    ensures (s + p * (2 * q)) / p % 2 == s / p % 2
  {
    assert (s + p * (2 * q)) / p == s / p + 2 * q by {
      var d, r := s / p, s % p;
      assert s + p * (2 * q) == p * (d + 2 * q) + r;
      DivUnique(s + p * (2 * q), p, d + 2 * q, r);
    }
  }

  lemma DivUnique(x: nat, p: nat, d: nat, r: nat)
    requires p > 0 && x == p * d + r && r < p
    ensures x / p == d
  {
    var q := x / p;
    assert p * (d - q) == x % p - r;
    if d > q { AtLeast(p, d - q); }
    if q > d { AtLeast(p, q - d); }
  }

  lemma AtLeast(p: nat, e: nat)
    requires e > 0
    ensures p * e >= p
  {
  }

  /** The binary digits of such a sum are the marks. */
  lemma {:induction false} SumBit(marked: set<nat>, base: nat, n: nat, k: nat)
    requires k < n
    ensures SumOfMarks(marked, base, n) / Pow2(k) % 2 == if base + k in marked then 1 else 0
  {
    var s, top := SumOfMarks(marked, base, n - 1), if base + (n - 1) in marked then 1 else 0;
    if k == n - 1 {
      DivUnique(s + Pow2(k) * top, Pow2(k), top, s);
    } else {
      SumBit(marked, base, n - 1, k);
      PowSum(k, n - 1 - k);
      var q := Pow2(n - 2 - k);
      assert Pow2(n - 1) == Pow2(k) * (2 * q);
      TwoMore(s, Pow2(k), if top == 1 then q else 0);
    }
  }

  /** A byte is the sum of its bits. */
  lemma ByteBits(p: bv8)
    ensures p as nat ==
      (if BitOf(p, 0) then 1 else 0) + (if BitOf(p, 1) then 2 else 0) + (if BitOf(p, 2) then 4 else 0)
      + (if BitOf(p, 3) then 8 else 0) + (if BitOf(p, 4) then 16 else 0) + (if BitOf(p, 5) then 32 else 0)
      + (if BitOf(p, 6) then 64 else 0) + (if BitOf(p, 7) then 128 else 0)
  {
    MaskValues();
  }

  /** Byte i of the bitmap block h is the sum of the marks of its eight blocks. */
  lemma ByteOfMarks(disk: seq<Block>, marked: set<nat>, h: nat, i: nat)
    requires BitmapsOn(disk, marked) && h < |disk| && h % BITMAP_COUNT == 0 && i < BLOCK_SIZE
    ensures IsBitmap(disk[h]) && disk[h].bytes[i] as nat == SumOfMarks(marked, h + 8 * i, 8)
  {
    hide BitmapsOn, BitOf, SumOfMarks;
    assert IsBitmap(disk[h]) by { HomeIsBitmap(disk, marked, h); }
    var p := disk[h].bytes[i];
    forall j | 0 <= j < 8 ensures h + 8 * i + j in marked <==> BitOf(p, j) {
      MarkedByte(disk, marked, h, i, j);
    }
    ByteBits(p);
    EightMarks(marked, h + 8 * i);
  }

  lemma HomeIsBitmap(disk: seq<Block>, marked: set<nat>, h: nat)
    requires BitmapsOn(disk, marked) && h < |disk| && h % BITMAP_COUNT == 0
    ensures IsBitmap(disk[h])
  {
  }

  lemma EightMarks(marked: set<nat>, b: nat)
    ensures SumOfMarks(marked, b, 8) ==
      (if b in marked then 1 else 0) + (if b + 1 in marked then 2 else 0) + (if b + 2 in marked then 4 else 0)
      + (if b + 3 in marked then 8 else 0) + (if b + 4 in marked then 16 else 0) + (if b + 5 in marked then 32 else 0)
      + (if b + 6 in marked then 64 else 0) + (if b + 7 in marked then 128 else 0)
  {
    var s := seq(9, i requires i >= 0 => SumOfMarks(marked, b, i));
    assert s[1] == s[0] + if b in marked then 1 else 0;
    assert s[2] == s[1] + if b + 1 in marked then 2 else 0;
    assert s[3] == s[2] + if b + 2 in marked then 4 else 0;
    assert s[4] == s[3] + if b + 3 in marked then 8 else 0;
    assert s[5] == s[4] + if b + 4 in marked then 16 else 0;
    assert s[6] == s[5] + if b + 5 in marked then 32 else 0;
    assert s[7] == s[6] + if b + 6 in marked then 64 else 0;
    assert s[8] == s[7] + if b + 7 in marked then 128 else 0;
  }

  /** Two runs of marks side by side. */
  lemma {:induction false} SumSplit(marked: set<nat>, base: nat, m: nat, n: nat)
    ensures SumOfMarks(marked, base, m + n) == SumOfMarks(marked, base, m) + Pow2(m) * SumOfMarks(marked, base + m, n)
  {
    if n > 0 {
      SumSplit(marked, base, m, n - 1);
      PowSum(m, n - 1);
      var s := SumOfMarks(marked, base + m, n - 1);
      assert m + n - 1 == m + (n - 1) && base + m + (n - 1) == base + (m + n - 1);
      if base + m + (n - 1) in marked {
        assert Pow2(m) * (s + Pow2(n - 1)) == Pow2(m) * s + Pow2(m) * Pow2(n - 1);
      }
    }
  }

  lemma FourBytes(marked: set<nat>, b: nat)
    ensures SumOfMarks(marked, b, 32) == SumOfMarks(marked, b, 8) + 0x100 * SumOfMarks(marked, b + 8, 8)
      + 0x1_0000 * SumOfMarks(marked, b + 16, 8) + 0x100_0000 * SumOfMarks(marked, b + 24, 8)
  {
    hide SumOfMarks;
    SumSplit(marked, b, 8, 24);
    SumSplit(marked, b + 8, 8, 16);
    SumSplit(marked, b + 16, 8, 8);
    assert Pow2(8) == 0x100;
  }

  /** Block b is in use if and only if bit b % 8 of its byte is set. */
  lemma MarkBit(disk: seq<Block>, marked: set<nat>, b: nat)
    requires BitmapsOn(disk, marked) && b < |disk|
    ensures var home, r := b - b % 4096, b % 4096;
      && disk[home].Raw? && |disk[home].bytes| == 512
      && (b in marked <==> (disk[home].bytes[r / 8] as nat) / Pow2(r % 8) % 2 == 1)
  {
    hide BitmapsOn, SumOfMarks;
    var home, r := b - b % 4096, b % 4096;
    ByteOfMarks(disk, marked, home, r / 8);
    SumBit(marked, home + 8 * (r / 8), 8, r % 8);
  }

  /** One mark alone. */
  lemma {:induction false} LoneMark(marked: set<nat>, base: nat, n: nat, k: nat)
    requires k < n && forall b :: base <= b < base + n ==> (b in marked <==> b == base + k)
    ensures SumOfMarks(marked, base, n) == Pow2(k)
  {
    if k < n - 1 {
      LoneMark(marked, base, n - 1, k);
    } else {
      NoMarks(marked, base, n - 1);
    }
  }

  lemma {:induction false} NoMarks(marked: set<nat>, base: nat, n: nat)
    ensures SumOfMarks(marked, base, n) == 0 <==> forall b :: base <= b < base + n ==> b !in marked
  {
    if n > 0 {
      NoMarks(marked, base, n - 1);
    }
  }

  lemma {:induction false} AllMarks(marked: set<nat>, base: nat, n: nat)
    ensures SumOfMarks(marked, base, n) == Pow2(n) - 1 <==> forall b :: base <= b < base + n ==> b in marked
  {
    if n > 0 {
      AllMarks(marked, base, n - 1);
    }
  }
}
