/** Memory seen as bytes: words hold four bytes each, the low one first. */
module Bytes {
  import opened WordMemory

  function Weight(i: int): (r: int)
    ensures r > 0
  {
    if i == 1 then 0x100 else if i == 2 then 0x1_0000 else if i == 3 then 0x100_0000 else 1
  }

  function ByteOf(w: int, i: int): int {
    w / Weight(i) % 0x100
  }

  /** Byte i of what starts at the word address a. */
  function Byte(m: Mem, a: int, i: int): int {
    ByteOf(Rd(m, a + i / 4 * 4), i % 4)
  }

  /** The word d with its r low bytes replaced by those of s. */
  function Merge(d: int, s: int, r: int): int {
    d / Weight(r) * Weight(r) + s % Weight(r)
  }

  lemma Multiple(d: int, p: int)
    requires p > 0
    ensures d >= 1 ==> d * p >= p
    ensures d <= -1 ==> d * p <= -p
  {
  }

  lemma DivRem(n: int, p: int, k: int, x: int)
    requires p > 0 && 0 <= x < p && n == k * p + x
    ensures n / p == k && n % p == x
  {
    var j := n / p;
    assert n == j * p + n % p;
    assert (k - j) * p == n % p - x;
    Multiple(k - j, p);
  }

  /** Bytes of a number written in base 256. */
  lemma ByteIs(w: int, a: int, b: int, c: int, rest: int)
    requires 0 <= a < 0x100 && 0 <= b < 0x100 && 0 <= c < 0x100
    requires w == a + 0x100 * b + 0x1_0000 * c + 0x100_0000 * rest
    ensures ByteOf(w, 0) == a && ByteOf(w, 1) == b && ByteOf(w, 2) == c && ByteOf(w, 3) == rest % 0x100
  {
    DivRem(w, 0x100, b + 0x100 * c + 0x1_0000 * rest, a);
    DivRem(w, 0x1_0000, c + 0x100 * rest, a + 0x100 * b);
    DivRem(w, 0x100_0000, rest, a + 0x100 * b + 0x1_0000 * c);
    DivRem(b + 0x100 * c + 0x1_0000 * rest, 0x100, c + 0x100 * rest, b);
    DivRem(c + 0x100 * rest, 0x100, rest, c);
  }

  lemma Spelled(w: int)
    ensures w == ByteOf(w, 0) + 0x100 * ByteOf(w, 1) + 0x1_0000 * ByteOf(w, 2) + 0x100_0000 * (w / 0x100_0000)
    ensures forall i :: 0 <= i < 4 ==> 0 <= ByteOf(w, i) < 0x100
  {
    var q1 := w / 0x100;
    var q2 := q1 / 0x100;
    var q3 := q2 / 0x100;
    var a, b, c := w % 0x100, q1 % 0x100, q2 % 0x100;
    assert w == a + 0x100 * b + 0x1_0000 * c + 0x100_0000 * q3;
    ByteIs(w, a, b, c, q3);
    DivRem(w, 0x100_0000, q3, a + 0x100 * b + 0x1_0000 * c);
  }

  /** Merging takes exactly the low bytes. */
  lemma MergeBytes(d: int, s: int, r: int, i: int)
    requires 1 <= r <= 3 && 0 <= i < r
    ensures ByteOf(Merge(d, s, r), i) == ByteOf(s, i)
  {
    Spelled(s);
    var a, b, c, q := ByteOf(s, 0), ByteOf(s, 1), ByteOf(s, 2), s / 0x100_0000;
    var w := Merge(d, s, r);
    if r == 1 {
      DivRem(s, 0x100, b + 0x100 * c + 0x1_0000 * q, a);
      var k := d / 0x100;
      Spelled(k);
      ByteIs(w, a, ByteOf(k, 0), ByteOf(k, 1), ByteOf(k, 2) + 0x100 * (k / 0x100_0000));
    } else if r == 2 {
      DivRem(s, 0x1_0000, c + 0x100 * q, a + 0x100 * b);
      var k := d / 0x1_0000;
      Spelled(k);
      ByteIs(w, a, b, ByteOf(k, 0), ByteOf(k, 1) + 0x100 * ByteOf(k, 2) + 0x1_0000 * (k / 0x100_0000));
    } else {
      DivRem(s, 0x100_0000, q, a + 0x100 * b + 0x1_0000 * c);
      ByteIs(w, a, b, c, d / 0x100_0000);
    }
  }

  /** The word w with byte k replaced. */
  function SetByte(w: int, k: int, b: int): int {
    w + (b - ByteOf(w, k)) * Weight(k)
  }

  lemma SetByteIs(w: int, k: int, b: int, i: int)
    requires 0 <= k < 4 && 0 <= i < 4 && 0 <= b < 0x100
    ensures ByteOf(SetByte(w, k, b), i) == if i == k then b else ByteOf(w, i)
  {
    hide ByteOf;
    Spelled(w);
    var c0, c1, c2, q, v := ByteOf(w, 0), ByteOf(w, 1), ByteOf(w, 2), w / 0x100_0000, SetByte(w, k, b);
    ByteIs(w, c0, c1, c2, q);
    if k == 0 {
      ByteIs(v, b, c1, c2, q);
    } else if k == 1 {
      ByteIs(v, c0, b, c2, q);
    } else if k == 2 {
      ByteIs(v, c0, c1, b, q);
    } else {
      ByteIs(v, c0, c1, c2, q - q % 0x100 + b);
    }
  }
}
