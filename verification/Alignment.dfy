/** Powers of two and multiples, as memalign uses them. */
module Alignment {
  import opened Bytes
  import opened Trie

  predicate PowerOfTwo(a: int)
    decreases a
  {
    a == 1 || (a > 1 && a % 2 == 0 && PowerOfTwo(a / 2))
  }

  lemma Sixteen(a: int)
    requires PowerOfTwo(a) && a >= 16
    ensures a % 16 == 0
  {
    var b := a / 2;
    assert PowerOfTwo(b) && b >= 8;
    var c := b / 2;
    assert PowerOfTwo(c) && c >= 4;
    var d := c / 2;
    assert PowerOfTwo(d) && d >= 2;
    assert a == 16 * (d / 2);
  }

  lemma EightIsPower()
    ensures PowerOfTwo(8)
  {
    assert PowerOfTwo(2) && PowerOfTwo(4);
  }

  lemma {:induction false} PowerGap(a: int, b: int)
    requires PowerOfTwo(a) && PowerOfTwo(b) && a < b
    ensures 2 * a <= b
    decreases a
  {
    if a > 1 { PowerGap(a / 2, b / 2); }
  }

  lemma {:induction false} Powers(n: nat)
    ensures PowerOfTwo(Pow2(n))
  {
    if n > 0 { Powers(n - 1); }
  }

  lemma Highest()
    ensures PowerOfTwo(0x8000_0000)
  {
    Powers(31);
    hide PowerOfTwo;
    assert Pow2(8) == 0x100;
    assert Pow2(16) == 0x1_0000;
    assert Pow2(24) == 0x100_0000;
    assert Pow2(31) == 0x8000_0000;
  }

  /** Below the highest power of two of a word, doubling stays in the word. */
  lemma BelowHighest(b: int)
    requires PowerOfTwo(b) && b < 0x8000_0000
    ensures 2 * b <= 0x8000_0000 && PowerOfTwo(2 * b)
  {
    Highest();
    PowerGap(b, 0x8000_0000);
  }

  /** 16 after n doublings in 32 bits. */
  function DoubledWord(n: nat): int {
    if n == 0 then 16 else 2 * DoubledWord(n - 1) % 0x1_0000_0000
  }

  /** No doubling goes beyond the highest power of two of a word. */
  lemma {:induction false} NeverReached(n: nat)
    ensures DoubledWord(n) == 0 || (PowerOfTwo(DoubledWord(n)) && 16 <= DoubledWord(n) <= 0x8000_0000)
  {
    if n == 0 {
      Powers(4);
      assert Pow2(4) == 16;
    } else {
      NeverReached(n - 1);
      var b := DoubledWord(n - 1);
      if 0 < b < 0x8000_0000 { BelowHighest(b); }
    }
  }

  /** The powers of two in a word. */
  lemma PowerInWord(a: int)
    requires PowerOfTwo(a) && a < 0x1_0000_0000
    ensures a <= 0x8000_0000
  {
    Highest();
    if a > 0x8000_0000 { PowerGap(0x8000_0000, a); }
  }

  // ----- the aligned spot inside a chunk -----

  /** The least multiple of al that is not below x. */
  function RoundUp(x: int, al: int): int
    requires al > 0
  {
    (x + al - 1) / al * al
  }

  lemma MultipleIs(q: int, al: int)
    requires al > 0
    ensures q * al % al == 0
  {
    DivRem(q * al, al, q, 0);
  }

  lemma RoundedUp(x: int, al: int)
    requires al > 0
    ensures x <= RoundUp(x, al) < x + al && RoundUp(x, al) % al == 0
  {
    var q := (x + al - 1) / al;
    Quotient(x + al - 1, al);
    MultipleIs(q, al);
  }

  lemma Quotient(n: int, p: int)
    requires p > 0
    ensures n / p * p <= n < n / p * p + p
  {
  }

  lemma MultipleOfEight(q: int, al: int)
    requires al % 16 == 0
    ensures q * al % 8 == 0
  {
    var k := 2 * (al / 16);
    assert al == k * 8;
    Associate(q, k, 8);
    MultipleIs(q * k, 8);
  }

  lemma Associate(a: int, b: int, c: int)
    ensures a * (b * c) == a * b * c
  {
  }

  /** Where the aligned chunk starts within the chunk at c: far enough in for a chunk in front of it. */
  function AlignedSpot(c: int, al: int): int
    requires al > 0
  {
    var br := RoundUp(c + 8, al) - 8;
    if br - c >= 16 then br else br + al
  }

  lemma AlignedSpotIs(c: int, al: int)
    requires al >= 16 && al % 16 == 0 && c % 8 == 0 && (c + 8) % al != 0
    ensures var pos := AlignedSpot(c, al); (pos + 8) % al == 0 && pos % 8 == 0 && 16 <= pos - c <= al + 8
  {
    var x := c + 8;
    var r := RoundUp(x, al);
    RoundedUp(x, al);
    MultipleOfEight((x + al - 1) / al, al);
    NextMultiple(r, al);
    hide RoundUp;
    assert r != x;
    NextEight(r, al, c);
  }

  lemma NextMultiple(r: int, al: int)
    requires al > 0 && r % al == 0
    ensures (r + al) % al == 0
  {
    DivRem(r + al, al, r / al + 1, 0);
  }

  lemma NextEight(r: int, al: int, c: int)
    requires r % 8 == 0 && al % 16 == 0 && c % 8 == 0
    ensures (r - 8) % 8 == 0 && (r + al - 8) % 8 == 0
    ensures r - 8 - c < 16 ==> r - 8 - c <= 8
    ensures r < c + 8 + al ==> r - 8 - c <= al - 8
  {
    var i, j, k := r / 8, 2 * (al / 16), c / 8;
    assert r == 8 * i && al == 8 * j && c == 8 * k;
  }

  lemma AlignedToEight(p: int, a: int)
    requires PowerOfTwo(a) && a >= 16 && p % a == 0
    ensures p % 8 == 0
  {
    Sixteen(a);
    MultipleOfEight(p / a, a);
  }
}
