/** Streams as lists of bits: numbers with their low bit first, codes with their high bit first, packed into bytes from
    the low bit on, as section 3.1.1 of RFC 1951 has it. */
module BitLists {
  import opened Canonical
  import opened BitStream

  type Digit = x: nat | x < 2
  type Digits = seq<Digit>

  /** The list as a number, the first bit lowest. */
  function Number(bs: Digits): nat {
    if bs == [] then 0 else bs[0] + 2 * Number(bs[1..])
  }

  /** The list as a number, the first bit highest. */
  function Reading(bs: Digits): nat {
    if bs == [] then 0 else 2 * Reading(bs[..|bs| - 1]) + bs[|bs| - 1]
  }

  /** n bits of x, the low one first. */
  function Low(x: nat, n: nat): (bs: Digits)
    ensures |bs| == n
  {
    if n == 0 then [] else [x % 2] + Low(x / 2, n - 1)
  }

  /** n bits of x, the high one first. */
  function High(x: nat, n: nat): (bs: Digits)
    ensures |bs| == n
  {
    if n == 0 then [] else High(x / 2, n - 1) + [x % 2]
  }

  /** Eight bits to the byte; the last byte is filled up with zeros. */
  function Pack(bs: Digits): (r: Bytes)
    ensures |r| == (|bs| + 7) / 8
  {
    if |bs| <= 8 then (if bs == [] then [] else [Number(bs)]) else [Number(bs[..8])] + Pack(bs[8..])
  }

  lemma {:induction false} NumberBound(bs: Digits)
    ensures Number(bs) < Pow(|bs|)
  {
    if bs != [] { NumberBound(bs[1..]); }
  }

  lemma {:induction false} NumberJoin(a: Digits, b: Digits)
    ensures Number(a + b) == Number(a) + Pow(|a|) * Number(b)
  {
    if a == [] {
      assert a + b == b;
    } else {
      assert (a + b)[1..] == a[1..] + b;
      NumberJoin(a[1..], b);
      Associate(2, Pow(|a| - 1), Number(b));
    }
  }

  lemma {:induction false} NumberLow(x: nat, n: nat)
    requires x < Pow(n)
    ensures Number(Low(x, n)) == x
  {
    if n > 0 { NumberLow(x / 2, n - 1); }
  }

  lemma {:induction false} ReadingHigh(x: nat, n: nat)
    requires x < Pow(n)
    ensures Reading(High(x, n)) == x
  {
    if n > 0 {
      ReadingHigh(x / 2, n - 1);
      assert High(x, n)[..n - 1] == High(x / 2, n - 1);
    }
  }

  lemma Sum(x: nat, y: nat, p: nat, n: nat)
    requires x < p && n == x + p * y
    ensures Quotient(n, p) == y && n % p == x
  {
    assert p * y == y * p;
    DivIs(n, p, y, x);
  }

  lemma FirstDigit(bs: Digits)
    requires bs != []
    ensures Number(bs) % 2 == bs[0]
  {
  }

  lemma BitIs(b: nat, k: nat)
    ensures Bit(b, k) == Quotient(b, Pow(k)) % 2
  {
  }

  /** The bits of the number are those of the list. */
  lemma BitOf(bs: Digits, k: nat)
    requires k < |bs|
    ensures Bit(Number(bs), k) == bs[k]
  {
    var a, b := bs[..k], bs[k..];
    assert bs == a + b && b[0] == bs[k];
    NumberJoin(a, b);
    NumberBound(a);
    FirstDigit(b);
    BitIs(Number(bs), k);
    hide Number, Pow, Bit, Quotient;
    Sum(Number(a), Number(b), Pow(k), Number(bs));
  }

  lemma {:induction false} PrefixReads(bs: Digits, l: nat)
    requires l <= |bs|
    ensures Prefix(Number(bs), l) == Reading(bs[..l])
  {
    if l > 0 {
      PrefixReads(bs, l - 1);
      BitOf(bs, l - 1);
      assert bs[..l][..l - 1] == bs[..l - 1];
    }
  }

  lemma {:induction false} PackBytes(bs: Digits)
    ensures forall i :: 0 <= i < |Pack(bs)| ==> Pack(bs)[i] < 0x100
    decreases |bs|
  {
    assert Pow(8) == 0x100;
    if |bs| > 8 {
      NumberBound(bs[..8]);
      PackBytes(bs[8..]);
    } else {
      NumberBound(bs);
      PowGrows(|bs|, 8);
    }
  }

  /** The stream goes on at pos with these bits, and is long enough for them. */
  ghost predicate Shows(all: Bytes, pos: nat, bs: Digits) {
    From(all, pos) == Number(bs) && pos + |bs| <= 8 * |all|
  }

  /** The next bits, as a number and as a code, and what follows them. */
  lemma Reads(all: Bytes, pos: nat, x: Digits, rest: Digits)
    requires Shows(all, pos, x + rest)
    ensures Shows(all, pos + |x|, rest)
    ensures From(all, pos) % Pow(|x|) == Number(x) && Prefix(From(all, pos), |x|) == Reading(x)
  {
    NumberJoin(x, rest);
    NumberBound(x);
    PrefixReads(x + rest, |x|);
    assert (x + rest)[..|x|] == x;
    FromNext(all, pos, |x|);
    ShiftIs(From(all, pos), |x|);
    hide Number, Pow, Quotient, From, Shift, Prefix;
    Sum(Number(x), Number(rest), Pow(|x|), From(all, pos));
  }

  lemma ShiftIs(b: nat, l: nat)
    ensures Shift(b, l) == Quotient(b, Pow(l))
  {
  }

  lemma NumberReads(all: Bytes, pos: nat, v: nat, n: nat, rest: Digits)
    requires Shows(all, pos, Low(v, n) + rest) && v < Pow(n)
    ensures Shows(all, pos + n, rest) && From(all, pos) % Pow(n) == v
  {
    hide Shows, From, Low;
    Reads(all, pos, Low(v, n), rest);
    NumberLow(v, n);
  }

  lemma CodeReads(all: Bytes, pos: nat, v: nat, n: nat, rest: Digits)
    requires Shows(all, pos, High(v, n) + rest) && v < Pow(n)
    ensures Shows(all, pos + n, rest) && Prefix(From(all, pos), n) == v
  {
    hide Shows, From, High, Prefix;
    Reads(all, pos, High(v, n), rest);
    ReadingHigh(v, n);
  }
}
