/** The Adler-32 checksum of section 8.2 of RFC 1950, as the decompressor keeps it from call to call: the
    sums are reduced once per 5552 bytes only. */
module Adler {

  const BASE := 65521
  const BLOCK := 5552

  type Bytes = seq<nat>

  ghost predicate BytesOk(s: Bytes) {
    forall i :: 0 <= i < |s| ==> s[i] < 0x100
  }

  // ----- the definition -----

  function Mod(x: nat): (r: nat)
    ensures r < BASE
  {
    x % BASE
  }

  /** The two sums of the definition, both modulo 65521 at every byte. */
  function Sums(s: Bytes): (r: (nat, nat))
    ensures r.0 < BASE && r.1 < BASE
  {
    if s == [] then (1, 0)
    else
      var (a, b) := Sums(s[..|s| - 1]);
      var a' := Mod(a + s[|s| - 1]);
      (a', Mod(b + a'))
  }

  function Checksum(s: Bytes): nat {
    Sums(s).1 * 0x1_0000 + Sums(s).0
  }

  // ----- sums without reduction -----

  function Plain(a: nat, b: nat, s: Bytes): (nat, nat) {
    if s == [] then (a, b)
    else
      var (x, y) := Plain(a, b, s[..|s| - 1]);
      (x + s[|s| - 1], y + x + s[|s| - 1])
  }

  lemma {:induction false} PlainBound(a: nat, b: nat, s: Bytes)
    requires BytesOk(s) && a < BASE && b < BASE
    ensures Plain(a, b, s).0 <= a + 255 * |s|
    ensures Plain(a, b, s).1 <= b + |s| * a + 255 * (|s| * (|s| + 1) / 2)
  {
    if s != [] {
      var t := s[..|s| - 1];
      PlainBound(a, b, t);
      Triangle(|s|);
      var n := |s|;
      assert n * a == (n - 1) * a + a;
    }
  }

  lemma Triangle(n: nat)
    requires n >= 1
    ensures n * (n + 1) / 2 == (n - 1) * n / 2 + n
  {
    assert n * (n + 1) == (n - 1) * n + 2 * n;
  }

  /** Within a block the sums fit 32 bits. */
  lemma FitsWord(a: nat, b: nat, s: Bytes)
    requires BytesOk(s) && a < BASE && b < BASE && |s| <= BLOCK
    ensures Plain(a, b, s).0 < 0x1_0000_0000 && Plain(a, b, s).1 < 0x1_0000_0000
  {
    PlainBound(a, b, s);
    var n := |s|;
    Product(n, a, BLOCK, BASE - 1);
    Product(n, n + 1, BLOCK, BLOCK + 1);
  }

  lemma Product(a: nat, b: nat, x: nat, y: nat)
    requires a <= x && b <= y
    ensures a * b <= x * y
  {
    assert a * b <= a * y;
    assert a * y <= x * y;
  }

  lemma SumsSnoc(s: Bytes, c: nat)
    ensures Sums(s + [c]) == (Mod(Sums(s).0 + c), Mod(Sums(s).1 + Mod(Sums(s).0 + c)))
  {
    assert (s + [c])[..|s|] == s;
  }

  lemma PlainSnoc(a: nat, b: nat, s: Bytes, c: nat)
    ensures Plain(a, b, s + [c]) == (Plain(a, b, s).0 + c, Plain(a, b, s).1 + Plain(a, b, s).0 + c)
  {
    assert (s + [c])[..|s|] == s;
  }

  /** Reduced at the end or at every byte: the same. */
  lemma {:induction false} PlainIsSums(prefix: Bytes, s: Bytes)
    ensures var (a, b) := Sums(prefix); var (x, y) := Plain(a, b, s); Sums(prefix + s) == (Mod(x), Mod(y))
  {
    hide Sums, Plain, Mod;
    var (a, b) := Sums(prefix);
    if s == [] {
      assert prefix + s == prefix;
      PlainNil(a, b);
      Small(a);
      Small(b);
    } else {
      var t, c := s[..|s| - 1], s[|s| - 1];
      PlainIsSums(prefix, t);
      SumsSnoc(prefix + t, c);
      assert prefix + t + [c] == prefix + s;
      PlainSnoc(a, b, t, c);
      assert t + [c] == s;
      Reduced(Plain(a, b, t).0, Plain(a, b, t).1, c);
    }
  }

  lemma PlainNil(a: nat, b: nat)
    ensures Plain(a, b, []) == (a, b)
  {
  }

  lemma Small(x: nat)
    requires x < BASE
    ensures Mod(x) == x
  {
  }

  lemma Reduced(x: nat, y: nat, c: nat)
    ensures Mod(Mod(x) + c) == Mod(x + c) && Mod(Mod(y) + Mod(Mod(x) + c)) == Mod(y + x + c)
  {
    ModAdd(x, c);
    ModAdd(y, Mod(x + c));
    ModAdd(x + c, y);
  }

  lemma ModAdd(x: nat, c: nat)
    ensures Mod(Mod(x) + c) == Mod(x + c)
  {
    assert x == x / BASE * BASE + x % BASE;
  }

  lemma {:induction false} PlainSplit(a: nat, b: nat, s: Bytes, t: Bytes)
    ensures var (x, y) := Plain(a, b, s); Plain(a, b, s + t) == Plain(x, y, t)
  {
    if t == [] {
      assert s + t == s;
    } else {
      PlainSplit(a, b, s, t[..|t| - 1]);
      assert (s + t)[..|s + t| - 1] == s + t[..|t| - 1];
    }
  }

  lemma PlainOne(a: nat, b: nat, c: nat)
    ensures Plain(a, b, [c]) == (a + c, b + a + c)
  {
    assert [c][..0] == [];
  }

  /** The bytes added up, and each with its distance from the end as weight. */
  function Total(s: Bytes): nat {
    if s == [] then 0 else s[0] + Total(s[1..])
  }

  function Weighted(s: Bytes): nat {
    if s == [] then 0 else |s| * s[0] + Weighted(s[1..])
  }

  lemma {:induction false} PlainIs(a: nat, b: nat, s: Bytes)
    ensures Plain(a, b, s) == (a + Total(s), b + |s| * a + Weighted(s))
    decreases s
  {
    if s != [] {
      var c, t := s[0], s[1..];
      assert [c] + t == s;
      PlainSplit(a, b, [c], t);
      PlainOne(a, b, c);
      PlainIs(a + c, b + a + c, t);
      Weights(|t|, a, c);
    }
  }

  lemma Weights(n: nat, a: nat, c: nat)
    ensures (n + 1) * a == n * a + a && (n + 1) * c == n * c + c && n * (a + c) == n * a + n * c
  {
  }

  /** The checksum in closed form. */
  lemma ClosedForm(s: Bytes)
    ensures Checksum(s) == (|s| + Weighted(s)) % 65521 * 65536 + (1 + Total(s)) % 65521
  {
    PlainIs(1, 0, s);
    PlainIsSums([], s);
    assert [] + s == s;
  }

  // ----- the code -----

  /** One byte, in 32-bit arithmetic. */
  method Add(s1: nat, s2: nat, c: nat, ghost a: nat, ghost b: nat, ghost done: Bytes) returns (t1: nat, t2: nat)
    requires (s1, s2) == Plain(a, b, done) && BytesOk(done + [c]) && a < BASE && b < BASE && |done| < BLOCK
    ensures (t1, t2) == Plain(a, b, done + [c])
  {
    PlainSplit(a, b, done, [c]);
    PlainOne(s1, s2, c);
    FitsWord(a, b, done + [c]);
    t1 := (s1 + c) % 0x1_0000_0000;
    t2 := (s2 + t1) % 0x1_0000_0000;
  }

  /** One block: eight bytes at a time and then the rest. */
  method Block(s1: nat, s2: nat, buf: Bytes, from: nat, len: nat) returns (t1: nat, t2: nat)
    requires s1 < BASE && s2 < BASE && from + len <= |buf| && len <= BLOCK && BytesOk(buf)
    ensures (t1, t2) == Plain(s1, s2, buf[from..from + len])
  {
    hide Plain;
    PlainNil(s1, s2);
    t1, t2 := s1, s2;
    var i := 0;
    assert buf[from..from] == [];
    while i + 7 < len
      invariant 0 <= i <= len && (t1, t2) == Plain(s1, s2, buf[from..from + i])
      decreases len - i
    {
      var k := 0;
      while k < 8
        invariant 0 <= k <= 8 && i + 8 <= len && (t1, t2) == Plain(s1, s2, buf[from..from + i + k])
      {
        assert buf[from..from + i + k] + [buf[from + i + k]] == buf[from..from + i + k + 1];
        t1, t2 := Add(t1, t2, buf[from + i + k], s1, s2, buf[from..from + i + k]);
        k := k + 1;
      }
      i := i + 8;
    }
    while i < len
      invariant 0 <= i <= len && (t1, t2) == Plain(s1, s2, buf[from..from + i])
    {
      assert buf[from..from + i] + [buf[from + i]] == buf[from..from + i + 1];
      t1, t2 := Add(t1, t2, buf[from + i], s1, s2, buf[from..from + i]);
      i := i + 1;
    }
  }

  /** The checksum brought forward over one call's output: the first block takes what is over the whole
      blocks, and may be empty.  `before` is the output of the earlier calls. */
  method Update(check: nat, buf: Bytes, ghost before: Bytes) returns (r: nat)
    requires check == Checksum(before) && BytesOk(buf)
    ensures r == Checksum(before + buf)
  {
    Halves(before);
    hide Sums, Plain, Checksum, Mod;
    var s1, s2 := check % 0x1_0000, check / 0x1_0000;
    var bufLen := |buf|;
    var blockLen := bufLen % BLOCK;
    var at := 0;
    assert before + buf[..0] == before;
    SumsReduced(before);
    while bufLen > 0
      invariant at + bufLen == |buf| && bufLen >= 0 && blockLen <= BLOCK && (bufLen > 0 ==> blockLen <= bufLen)
      invariant bufLen == 0 || blockLen == bufLen % BLOCK || (blockLen == BLOCK && bufLen % BLOCK == 0)
      invariant s1 < BASE && s2 < BASE && (s1, s2) == Sums(before + buf[..at])
      decreases bufLen, if blockLen == 0 then 1 else 0
    {
      BlockIsSums(before, buf, at, blockLen);
      s1, s2 := Block(s1, s2, buf, at, blockLen);
      s1, s2 := Mod(s1), Mod(s2);
      at := at + blockLen;
      RestOfBlocks(bufLen, blockLen);
      bufLen := bufLen - blockLen;
      blockLen := BLOCK;
    }
    assert buf[..at] == buf;
    ChecksumIs(before + buf);
    r := s2 * 0x1_0000 + s1;
  }

  lemma ChecksumIs(s: Bytes)
    ensures Checksum(s) == Sums(s).1 * 0x1_0000 + Sums(s).0
  {
  }

  lemma SumsReduced(s: Bytes)
    ensures Sums(s).0 < BASE && Sums(s).1 < BASE
  {
  }

  /** A block of the buffer, reduced at its end, brings the sums of what came before forward. */
  lemma BlockIsSums(before: Bytes, buf: Bytes, at: nat, len: nat)
    requires at + len <= |buf|
    ensures var (a, b) := Sums(before + buf[..at]); var (x, y) := Plain(a, b, buf[at..at + len]);
      Sums(before + buf[..at + len]) == (Mod(x), Mod(y))
  {
    hide Sums, Plain, Mod;
    PlainIsSums(before + buf[..at], buf[at..at + len]);
    assert before + buf[..at] + buf[at..at + len] == before + buf[..at + len];
  }

  lemma RestOfBlocks(n: nat, b: nat)
    requires n > 0 && b <= n && (b == n % BLOCK || (b == BLOCK && n % BLOCK == 0))
    ensures (n - b) % BLOCK == 0 && (n - b > 0 ==> n - b >= BLOCK)
  {
  }

  lemma Halves(s: Bytes)
    ensures Checksum(s) % 0x1_0000 == Sums(s).0 && Checksum(s) / 0x1_0000 == Sums(s).1
  {
  }

  /** Checksumming piece by piece is checksumming the whole. */
  method UpdateAll(pieces: seq<Bytes>) returns (r: nat)
    requires forall k :: 0 <= k < |pieces| ==> BytesOk(pieces[k])
    ensures r == Checksum(Flatten(pieces))
  {
    r := 1;
    ghost var before: Bytes := [];
    for k := 0 to |pieces|
      invariant r == Checksum(before) && before == Flatten(pieces[..k])
    {
      r := Update(r, pieces[k], before);
      before := before + pieces[k];
      assert pieces[..k + 1][..k] == pieces[..k];
    }
    assert pieces[..|pieces|] == pieces;
  }

  function Flatten(pieces: seq<Bytes>): Bytes {
    if pieces == [] then [] else Flatten(pieces[..|pieces| - 1]) + pieces[|pieces| - 1]
  }
}
