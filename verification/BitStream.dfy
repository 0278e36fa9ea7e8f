/** A byte stream as a number, low byte first, and a bit buffer in front of it.  Refilling the buffer does
    not change the number; consuming bits divides it. */
module BitStream {
  import opened Canonical

  type Bytes = seq<nat>

  function Value(bytes: Bytes): nat {
    if bytes == [] then 0 else bytes[0] + 0x100 * Value(bytes[1..])
  }

  /** What is still to come: n bits in the buffer b, and then the bytes. */
  function Ahead(b: nat, n: nat, bytes: Bytes): nat {
    b + Pow(n) * Value(bytes)
  }

  /** The stream from bit position pos on; beyond its end it is zero. */
  function From(all: Bytes, pos: nat): nat {
    Shift(Value(all), pos)
  }

  /** `b >> l`. */
  function Shift(b: nat, l: nat): nat {
    Quotient(b, Pow(l))
  }

  const WORD := 0x1_0000_0000

  /** `c << n` in a word: what does not fit is lost. */
  function Shl(c: nat, n: nat): nat {
    c * Pow(n) % WORD
  }

  /** A byte with eight bits of room loses nothing. */
  lemma ShlFits(c: nat, n: nat)
    requires c < 0x100 && n <= 24
    ensures Shl(c, n) == c * Pow(n)
  {
    hide Pow;
    ByteInto(0, n, c);
    PowGrows(n + 8, 32);
    Powers();
  }

  // ----- arithmetic -----

  lemma Distribute(p: nat, a: nat, b: nat)
    ensures p * (a + b) == p * a + p * b
  {
  }

  lemma Associate(p: nat, q: nat, a: nat)
    ensures p * (q * a) == p * q * a
  {
  }

  lemma ByteInto(b: nat, n: nat, c: nat)
    requires b < Pow(n) && c < 0x100
    ensures b + c * Pow(n) < Pow(n + 8)
  {
    PowAdd(8, n);
    assert Pow(8) == 0x100;
    Times(c + 1, 0x100, Pow(n));
    assert (c + 1) * Pow(n) == c * Pow(n) + Pow(n);
  }

  /** A byte taken into the buffer. */
  lemma Refill(b: nat, n: nat, bytes: Bytes)
    requires bytes != []
    ensures Ahead(b + bytes[0] * Pow(n), n + 8, bytes[1..]) == Ahead(b, n, bytes)
  {
    PowAdd(8, n);
    assert Pow(8) == 0x100;
    Refilled(b, Pow(n), bytes[0], Value(bytes[1..]));
  }

  lemma Refilled(b: nat, p: nat, c: nat, v: nat)
    ensures b + c * p + 0x100 * p * v == b + p * (c + 0x100 * v)
  {
    Distribute(p, c, 0x100 * v);
    Associate(p, 0x100, v);
  }

  /** A zero byte taken into the buffer when there is nothing more. */
  lemma RefillZero(b: nat, n: nat)
    ensures Ahead(b, n + 8, []) == Ahead(b, n, [])
  {
  }

  lemma DivSum(b: nat, p: nat, q: nat, v: nat)
    requires p >= 1
    ensures (b + p * q * v) / p == b / p + q * v && (b + p * q * v) % p == b % p
  {
    Euclid(b, p);
    Associate(p, q, v);
    var k := b / p + q * v;
    assert p * (q * v) == (q * v) * p;
    assert k * p == b / p * p + (q * v) * p by { Spread(b / p, q * v, p); }
    DivIs(b + p * q * v, p, k, b % p);
  }

  lemma Spread(a: nat, b: nat, p: nat)
    ensures (a + b) * p == a * p + b * p
  {
  }

  /** l bits consumed. */
  lemma Consume(b: nat, n: nat, bytes: Bytes, l: nat)
    requires l <= n
    ensures Shift(Ahead(b, n, bytes), l) == Ahead(Shift(b, l), n - l, bytes)
    ensures Ahead(b, n, bytes) % Pow(l) == b % Pow(l)
  {
    PowAdd(l, n - l);
    DivSum(b, Pow(l), Pow(n - l), Value(bytes));
  }

  lemma ConsumeRange(b: nat, n: nat, l: nat)
    requires l <= n && b < Pow(n)
    ensures Shift(b, l) < Pow(n - l)
  {
    PowAdd(l, n - l);
    QuotientRange(b, Pow(l), Pow(n - l));
  }

  lemma QuotientRange(b: nat, p: nat, q: nat)
    requires p >= 1 && b < p * q
    ensures b / p < q
  {
    Euclid(b, p);
    Multiple(b / p - q, p);
    assert (b / p - q) * p == b / p * p - p * q;
  }

  lemma DivDiv(a: nat, p: nat, q: nat)
    requires p >= 1 && q >= 1
    ensures p * q >= 1 && a / (p * q) == a / p / q
  {
    var x := a / p;
    var y := x / q;
    Euclid(a, p);
    Euclid(x, q);
    Larger(p, 0, q);
    var r := x % q * p + a % p;
    Times(x % q + 1, q, p);
    Spread(x % q, 1, p);
    assert x * p == (y * q + x % q) * p;
    Spread(y * q, x % q, p);
    assert y * q * p == y * (p * q);
    DivIs(a, p * q, y, r);
  }

  lemma FromNext(all: Bytes, pos: nat, l: nat)
    ensures From(all, pos + l) == Shift(From(all, pos), l)
  {
    PowAdd(pos, l);
    DivDiv(Value(all), Pow(pos), Pow(l));
  }

  /** The buffer shows the first n bits of what is to come. */
  lemma BufferShows(b: nat, n: nat, bytes: Bytes, l: nat)
    requires l <= n && b < Pow(n)
    ensures Prefix(b, l) == Prefix(Ahead(b, n, bytes), l)
  {
    Consume(b, n, bytes, n);
    DivIs(b, Pow(n), 0, b);
    PrefixMod(Ahead(b, n, bytes), l, n);
  }

  lemma BitShows(b: nat, n: nat, bytes: Bytes, k: nat)
    requires k < n && b < Pow(n)
    ensures Bit(b, k) == Bit(Ahead(b, n, bytes), k)
  {
    Consume(b, n, bytes, n);
    DivIs(b, Pow(n), 0, b);
    BitMod(Ahead(b, n, bytes), n, k);
  }
}
