/** Which tree bin a chunk size belongs to, and the key that steers the walk inside the bin.
    Unsigned 32-bit words are natural numbers below 2^32; shifts are written as products and
    quotients, and wrap-around is written out. */
module TreeIndex {
  import opened Trie

  const W32 := 0x1_0000_0000
  const TOPBIT := 0x8000_0000

  /** The unsigned 32-bit difference. */
  function Sub32(a: int, b: int): int {
    (a - b) % W32
  }

  /** x masked with the single bit of value `bit`. */
  function Mask(x: int, bit: int): int
    requires bit > 0
  {
    x / bit % 2 * bit
  }

  /** a shifted left by k places, without wrap-around. */
  function Shl(a: int, k: nat): int {
    if k == 0 then a else 2 * Shl(a, k - 1)
  }

  /** The position of the highest set bit, found by three comparisons by subtraction that narrow it down. */
  function HighBitOf(x: int): (k: int)
    requires 0 < x <= 0xFFFF
    ensures k >= 0
  {
    var n0 := Mask(Sub32(x, 0x100) / 0x1_0000, 8);
    var y0 := Shl(x, n0) % W32;
    var k1 := Mask(Sub32(y0, 0x1000) / 0x1_0000, 4);
    var y1 := Shl(y0, k1) % W32;
    var k2 := Mask(Sub32(y1, 0x4000) / 0x1_0000, 2);
    var y2 := Shl(y1, k2) % W32;
    14 - (n0 + k1 + k2) + y2 / 0x8000
  }

  /** The bin index, computed the way the portable macro does, from the highest set bit of size / 256 and the
      bit of the size below it. */
  function TreeIndexOf(size: nat): int {
    var x := size / 256;
    if x == 0 then 0
    else if x > 0xFFFF then 31
    else
      var k := HighBitOf(x);
      2 * k + size / Pow2(k + 7) % 2
  }

  /** The least size kept in bin i. */
  function MinSize(i: nat): int {
    Pow2(i / 2 + 8) + i % 2 * Pow2(i / 2 + 7)
  }

  /** The interval the trie of bin i divides.  The last bin holds everything from its least size on
      and divides the whole 32-bit range. */
  function BinLo(i: nat): int {
    if i == 31 then 0 else MinSize(i)
  }

  function BinBits(i: nat): nat {
    if i == 31 then 32 else i / 2 + 7
  }

  /** How far the size is shifted so that the bit inspected first becomes the top bit. */
  function LeftShift(i: nat): int {
    if i == 31 then 0 else 31 - (i / 2 + 6)
  }

  lemma Pow2Table()
    ensures Pow2(0) == 1 && Pow2(1) == 2 && Pow2(2) == 4 && Pow2(3) == 8 && Pow2(4) == 16 && Pow2(5) == 32
      && Pow2(6) == 64
    ensures Pow2(7) == 0x80 && Pow2(8) == 0x100 && Pow2(9) == 0x200 && Pow2(10) == 0x400 && Pow2(11) == 0x800
    ensures Pow2(12) == 0x1000 && Pow2(13) == 0x2000 && Pow2(14) == 0x4000 && Pow2(15) == 0x8000 && Pow2(16) == 0x1_0000
    ensures Pow2(17) == 0x2_0000 && Pow2(18) == 0x4_0000 && Pow2(19) == 0x8_0000 && Pow2(20) == 0x10_0000
    ensures Pow2(21) == 0x20_0000 && Pow2(22) == 0x40_0000 && Pow2(23) == 0x80_0000 && Pow2(24) == 0x100_0000
  {
  }

  /** Every power of two in the range of the table splits at its bottom two bits. */
  lemma Narrow(x: int)
    requires 0 < x <= 0xFFFF
    ensures var n0 := Mask(Sub32(x, 0x100) / 0x1_0000, 8);
      n0 == if x < 0x100 then 8 else 0
    ensures Mask(Sub32(x, 0x1000) / 0x1_0000, 4) == if x < 0x1000 then 4 else 0
    ensures Mask(Sub32(x, 0x4000) / 0x1_0000, 2) == if x < 0x4000 then 2 else 0
  {
    Wrapped(x, 0x100);
    Wrapped(x, 0x1000);
    Wrapped(x, 0x4000);
  }

  lemma Wrapped(x: int, c: int)
    requires 0 < x <= 0xFFFF && 0 < c <= 0xFFFF
    ensures Sub32(x, c) / 0x1_0000 == if x < c then 0xFFFF else 0
  {
    if x < c {
      assert (x - c) % W32 == x - c + W32;
    } else {
      assert (x - c) % W32 == x - c;
    }
  }

  lemma ShlTwice(x: int, k: nat)
    ensures Shl(x, k + 2) == 4 * Shl(x, k)
  {
    assert Shl(x, k + 2) == 2 * Shl(x, k + 1);
  }

  lemma ShlTable(x: int)
    ensures Shl(x, 0) == x && Shl(x, 2) == 4 * x && Shl(x, 4) == 16 * x && Shl(x, 8) == 256 * x
  {
    ShlTwice(x, 0);
    ShlTwice(x, 2);
    ShlTwice(x, 4);
    ShlTwice(x, 6);
  }

  /** The highest set bit of x, as the narrowing finds it. */
  lemma HighBit(x: int) returns (k: int)
    requires 0 < x <= 0xFFFF
    ensures k == HighBitOf(x)
    ensures 0 <= k <= 15 && Pow2(k) <= x < Pow2(k + 1)
  {
    Pow2Table();
    hide Mask, Sub32, Shl, Pow2;
    var n0 := if x < 0x100 then 8 else 0;
    Narrow(x);
    ShlTable(x);
    var y0 := if x < 0x100 then 256 * x else x;
    assert y0 % W32 == y0;
    var k1 := if y0 < 0x1000 then 4 else 0;
    Narrow(y0);
    ShlTable(y0);
    var y1 := if y0 < 0x1000 then 16 * y0 else y0;
    assert y1 % W32 == y1;
    var k2 := if y1 < 0x4000 then 2 else 0;
    Narrow(y1);
    ShlTable(y1);
    var y2 := if y1 < 0x4000 then 4 * y1 else y1;
    assert y2 % W32 == y2;
    k := 14 - (n0 + k1 + k2) + y2 / 0x8000;
  }

  lemma Pow2Double(j: nat)
    ensures Pow2(j + 1) == 2 * Pow2(j)
  {
  }

  lemma Pow2Add(j: nat, k: nat)
    ensures Pow2(j + k) == Shl(Pow2(j), k)
  {
    if k > 0 { Pow2Add(j, k - 1); }
  }

  lemma IndexLast(size: nat)
    requires size / 256 > 0xFFFF && size < W32
    ensures TreeIndexOf(size) == 31 && MinSize(31) <= size
  {
    Pow2Table();
  }

  lemma IndexBelow(size: nat)
    requires 256 <= size && size / 256 <= 0xFFFF
    ensures 0 <= TreeIndexOf(size) < 32
    ensures MinSize(TreeIndexOf(size)) <= size < MinSize(TreeIndexOf(size) + 1)
  {
    hide HighBitOf, Pow2, MinSize;
    var k := HighBit(size / 256);
    SecondBit(size, k);
  }

  /** The macro puts every large 32-bit size into the bin whose range contains it. */
  lemma TreeIndexCorrect(size: nat)
    requires 256 <= size < W32
    ensures 0 <= TreeIndexOf(size) < 32
    ensures MinSize(TreeIndexOf(size)) <= size
    ensures TreeIndexOf(size) < 31 ==> size < MinSize(TreeIndexOf(size) + 1)
  {
    hide Pow2, MinSize, Mask, Sub32, Shl;
    if size / 256 <= 0xFFFF {
      IndexBelow(size);
    } else {
      IndexLast(size);
    }
  }

  lemma ScaleBy256(k: nat)
    ensures Pow2(k + 8) == 256 * Pow2(k) && Pow2(k + 7) == 128 * Pow2(k)
  {
    assert Pow2(k + 2) == 4 * Pow2(k);
    assert Pow2(k + 4) == 4 * Pow2(k + 2);
    assert Pow2(k + 6) == 4 * Pow2(k + 4);
  }

  lemma SecondBit(size: nat, k: nat)
    requires Pow2(k) <= size / 256 < Pow2(k + 1) && k <= 15
    ensures var i := 2 * k + size / Pow2(k + 7) % 2;
      0 <= i < 32 && MinSize(i) <= size < MinSize(i + 1)
  {
    var p := Pow2(k + 7);
    ScaleBy256(k);
    Pow2Double(k + 8);
    Pow2Double(k + 7);
    MinSizes(k);
    hide Pow2, MinSize;
    BitBelow(size, p);
  }

  lemma BitBelow(size: nat, p: nat)
    requires 2 * p <= size < 4 * p
    ensures size / p % 2 == if size < 3 * p then 0 else 1
  {
    QuotientIs(size, p, if size < 3 * p then 2 else 3);
  }

  lemma MinSizes(k: nat)
    ensures MinSize(2 * k) == Pow2(k + 8) && MinSize(2 * k + 1) == Pow2(k + 8) + Pow2(k + 7)
      && MinSize(2 * k + 2) == Pow2(k + 9)
  {
    assert (2 * k) / 2 == k && (2 * k + 1) / 2 == k && (2 * k + 2) / 2 == k + 1;
    assert (2 * k) % 2 == 0 && (2 * k + 1) % 2 == 1 && (2 * k + 2) % 2 == 0;
  }

  lemma QuotientIs(a: int, p: int, q: int)
    requires p > 0 && q * p <= a < q * p + p
    ensures a / p == q
  {
    var d := a / p - q;
    assert p * d == a - q * p - a % p;
    assert -p < p * d < p;
  }

  /** The bins' ranges follow one another, each as wide as the interval its trie divides. */
  lemma BinsAdjoin(i: nat)
    requires i < 31
    ensures MinSize(i) + Pow2(BinBits(i)) == MinSize(i + 1)
  {
    if i % 2 == 0 {
      assert (i + 1) / 2 == i / 2;
    } else {
      assert (i + 1) / 2 == i / 2 + 1;
      Pow2Double(i / 2 + 8);
      Pow2Double(i / 2 + 7);
    }
  }

  lemma {:induction false} MinSizeMonotone(i: nat, j: nat)
    requires i <= j <= 31
    ensures MinSize(i) <= MinSize(j)
    decreases j - i
  {
    if i < j {
      BinsAdjoin(i);
      MinSizeMonotone(i + 1, j);
    }
  }

  /** Whatever belongs in bin i lies in the interval bin i's trie divides. */
  lemma InBin(size: nat, i: nat)
    requires 256 <= size < W32 && i == TreeIndexOf(size)
    ensures i < 32 && BinLo(i) <= size < BinLo(i) + Pow2(BinBits(i))
  {
    TreeIndexCorrect(size);
    if i < 31 { BinsAdjoin(i); } else { Pow2Table(); Pow2Add(16, 16); ShlTop(); }
  }

  lemma ShlTop()
    ensures Shl(0x1_0000, 16) == W32 && Pow2(32) == W32 && Pow2(31) == TOPBIT
  {
    assert Shl(0x1_0000, 8) == 0x100_0000;
    assert Shl(0x1_0000, 12) == 0x1000_0000;
    Pow2Table();
    assert Pow2(28) == 0x1000_0000;
  }

  /** A size below a bin's range, or above it, is in a lower, or higher, bin. */
  lemma IndexMonotone(s: nat, t: nat)
    requires 256 <= s <= t < W32
    ensures TreeIndexOf(s) <= TreeIndexOf(t)
  {
    TreeIndexCorrect(s);
    TreeIndexCorrect(t);
    var i, j := TreeIndexOf(s), TreeIndexOf(t);
    if j < i {
      MinSizeMonotone(j + 1, i);
    }
  }

  // ----- the walking key -----

  lemma {:induction false} ShlAdd(a: int, c: int, k: nat)
    ensures Shl(a + c, k) == Shl(a, k) + Shl(c, k)
  {
    if k > 0 { ShlAdd(a, c, k - 1); }
  }

  lemma {:induction false} ShlMonotone(a: int, c: int, k: nat)
    requires a < c
    ensures Shl(a, k) < Shl(c, k)
  {
    if k > 0 { ShlMonotone(a, c, k - 1); }
  }

  /** The key of an offset within an interval of 2^b sizes: the offset's bits moved to the top. */
  function Key(offset: int, b: nat): int
    requires b <= 32
  {
    Shl(offset, 32 - b)
  }

  /** The key's top bit says which half the offset is in, and shifting the key left gives
      the key of the offset within that half. */
  lemma KeyStep(d: int, b: nat)
    requires 1 <= b <= 32 && 0 <= d < Pow2(b)
    ensures 0 <= Key(d, b) < W32
    ensures Key(d, b) / TOPBIT % 2 == if d < Pow2(b - 1) then 0 else 1
    ensures 2 * Key(d, b) % W32 == Key(if d < Pow2(b - 1) then d else d - Pow2(b - 1), b - 1)
  {
    var h := Pow2(b - 1);
    var k := Key(d, b);
    Pow2Add(b, 32 - b);
    Pow2Add(b - 1, 32 - b);
    ShlTop();
    if d > 0 { ShlMonotone(0, d, 32 - b); }
    ShlZero(32 - b);
    ShlMonotone(d, Pow2(b), 32 - b);
    assert Shl(h, 32 - b) == TOPBIT;
    if d < h {
      ShlMonotone(d, h, 32 - b);
    } else {
      if d > h { ShlMonotone(h, d, 32 - b); }
      ShlAdd(d - h, h, 32 - b);
      assert 2 * k == Shl(d - h, 33 - b) + W32;
    }
    HalfOf(k);
  }

  lemma {:induction false} ShlZero(k: nat)
    ensures Shl(0, k) == 0
  {
    if k > 0 { ShlZero(k - 1); }
  }

  lemma HalfOf(k: int)
    requires 0 <= k < W32
    ensures k / TOPBIT % 2 == if k < TOPBIT then 0 else 1
    ensures 2 * k % W32 == if k < TOPBIT then 2 * k else 2 * k - W32
  {
  }

  /** The bits above the interval of bin i fall off when a size of the bin is shifted. */
  lemma LoFallsOff(i: nat) returns (q: int)
    requires i < 31
    ensures LeftShift(i) == 32 - BinBits(i) >= 0 && Shl(BinLo(i), 32 - BinBits(i)) == q * W32
  {
    var b := BinBits(i);
    var p := Pow2(b);
    Pow2Add(b, 32 - b);
    ShlTop();
    Pow2Double(b);
    q := if i % 2 == 0 then 2 else 3;
    assert i % 2 == 0 || i % 2 == 1;
    assert BinLo(i) == q * p;
    hide Shl, Pow2, MinSize, BinLo;
    ShlAdd(p, p, 32 - b);
    ShlAdd(2 * p, p, 32 - b);
  }

  /** The key the walk starts with: the size shifted left, the bits above the bin's interval falling off. */
  lemma KeyStart(size: nat, i: nat)
    requires i < 32 && BinLo(i) <= size < BinLo(i) + Pow2(BinBits(i)) && size < W32
    ensures LeftShift(i) >= 0 && Shl(size, LeftShift(i)) % W32 == Key(size - BinLo(i), BinBits(i))
  {
    if i < 31 {
      var q := LoFallsOff(i);
      var d, b := size - BinLo(i), BinBits(i);
      ShlAdd(d, BinLo(i), 32 - b);
      KeyRange(d, b);
      hide Shl, Pow2, MinSize, BinLo;
      WholeTurns(Key(d, b), q);
    }
  }

  lemma WholeTurns(a: int, q: int)
    requires 0 <= a < W32
    ensures (a + q * W32) % W32 == a
  {
  }

  lemma KeyRange(d: int, b: nat)
    requires b <= 32 && 0 <= d < Pow2(b)
    ensures 0 <= Key(d, b) < W32
  {
    Pow2Add(b, 32 - b);
    ShlTop();
    if d > 0 { ShlMonotone(0, d, 32 - b); }
    ShlZero(32 - b);
    ShlMonotone(d, Pow2(b), 32 - b);
  }
}
