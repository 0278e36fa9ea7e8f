/** Canonical prefix codes, as section 3.2.2 of RFC 1951 defines them from the code lengths: the codes of
    each length are consecutive numbers in the order of the symbols, and each length starts where the
    shorter codes have left room. */
module Canonical {

  type Lengths = seq<nat>

  ghost predicate Sizes(ls: Lengths) {
    forall s :: 0 <= s < |ls| ==> ls[s] <= 15
  }

  /** How many of the first n symbols have codes of length l. */
  function CountTo(ls: Lengths, n: nat, l: nat): (r: nat)
    requires n <= |ls|
    ensures r <= n
  {
    if n == 0 then 0 else CountTo(ls, n - 1, l) + (if ls[n - 1] == l then 1 else 0)
  }

  function Count(ls: Lengths, l: nat): nat {
    CountTo(ls, |ls|, l)
  }

  /** The first code of length l. */
  function First(ls: Lengths, l: nat): nat {
    if l <= 1 then 0 else 2 * (First(ls, l - 1) + Count(ls, l - 1))
  }

  /** The end of the codes of length l. */
  function End(ls: Lengths, l: nat): nat {
    First(ls, l) + if l == 0 then 0 else Count(ls, l)
  }

  function Code(ls: Lengths, s: nat): nat
    requires s < |ls|
  {
    First(ls, ls[s]) + CountTo(ls, s, ls[s])
  }

  function Pow(n: nat): (r: nat)
    ensures r >= 1
  {
    if n == 0 then 1 else 2 * Pow(n - 1)
  }

  /** The codes use up exactly all the room, or no more than all. */
  ghost predicate Complete(ls: Lengths) {
    Sizes(ls) && First(ls, 16) == 0x1_0000
  }

  ghost predicate Fits(ls: Lengths) {
    Sizes(ls) && First(ls, 16) <= 0x1_0000
  }

  // ----- room -----

  lemma EndIs(ls: Lengths, l: nat)
    ensures First(ls, l + 1) == 2 * End(ls, l)
  {
  }

  /** Room for the codes of each length. */
  lemma {:induction false} RoomFrom(ls: Lengths, l: nat, k: nat)
    requires l <= k
    ensures First(ls, k + 1) >= Pow(k - l) * (2 * End(ls, l))
  {
    EndIs(ls, k);
    if l < k {
      RoomFrom(ls, l, k - 1);
      Twice(Pow(k - 1 - l), 2 * End(ls, l));
    }
  }

  lemma Twice(p: nat, e: nat)
    ensures 2 * (p * e) == 2 * p * e
  {
  }

  lemma {:induction false} PowAdd(a: nat, b: nat)
    ensures Pow(a + b) == Pow(a) * Pow(b)
  {
    if a > 0 {
      PowAdd(a - 1, b);
      Twice(Pow(a - 1), Pow(b));
    }
  }

  lemma {:induction false} PowGrows(a: nat, b: nat)
    requires a <= b
    ensures Pow(a) <= Pow(b)
  {
    if a < b { PowGrows(a, b - 1); }
  }

  lemma Room(ls: Lengths, l: nat)
    requires Fits(ls) && l <= 15
    ensures End(ls, l) <= Pow(l)
  {
    RoomFrom(ls, l, 15);
    PowAdd(15 - l, l);
    Powers();
    if End(ls, l) > Pow(l) {
      Larger(Pow(15 - l), 2 * Pow(l), 2 * End(ls, l));
      Twice2(Pow(15 - l), Pow(l));
    }
  }

  lemma Larger(p: nat, a: nat, b: nat)
    requires p >= 1 && a < b
    ensures p * a < p * b
  {
  }

  lemma Twice2(p: nat, e: nat)
    ensures p * (2 * e) == 2 * (p * e)
  {
  }

  lemma Powers()
    ensures Pow(5) == 32 && Pow(9) == 512 && Pow(10) == 1024 && Pow(15) == 0x8000 && Pow(16) == 0x1_0000
    ensures Pow(32) == 0x1_0000_0000
  {
    assert Pow(5) == 32;
    assert Pow(10) == 1024;
    assert Pow(15) == 0x8000;
    PowAdd(16, 16);
  }

  // ----- counting -----

  lemma {:induction false} CountGrows(ls: Lengths, m: nat, n: nat, l: nat)
    requires m <= n <= |ls|
    ensures CountTo(ls, m, l) <= CountTo(ls, n, l)
    ensures m < n && ls[m] == l ==> CountTo(ls, m, l) < CountTo(ls, n, l)
    decreases n - m
  {
    if m < n { CountGrows(ls, m + 1, n, l); }
  }

  /** The codes of one length are where they should be. */
  lemma CodeRange(ls: Lengths, s: nat)
    requires s < |ls| && ls[s] > 0
    ensures First(ls, ls[s]) <= Code(ls, s) < End(ls, ls[s])
  {
    CountGrows(ls, s, |ls|, ls[s]);
  }

  /** Every number in the range is the code of a symbol. */
  lemma {:induction false} NthSymbol(ls: Lengths, n: nat, l: nat, k: nat) returns (s: nat)
    requires n <= |ls| && k < CountTo(ls, n, l)
    ensures s < n && ls[s] == l && CountTo(ls, s, l) == k
  {
    if ls[n - 1] == l && CountTo(ls, n - 1, l) == k {
      s := n - 1;
    } else {
      s := NthSymbol(ls, n - 1, l, k);
    }
  }

  lemma {:induction false} FirstBeyond(ls: Lengths, l: nat, m: nat)
    requires l < m
    ensures First(ls, m) >= Pow(m - l) * End(ls, l)
  {
    EndIs(ls, m - 1);
    if l + 1 < m {
      FirstBeyond(ls, l, m - 1);
      Twice(Pow(m - 1 - l), End(ls, l));
    } else {
      assert Pow(1) == 2;
    }
  }

  // ----- what a code matches -----

  function Quotient(a: nat, p: nat): nat
    requires p >= 1
  {
    a / p
  }

  function Bit(b: nat, k: nat): nat {
    b / Pow(k) % 2
  }

  /** The first l bits of b, lowest first, read as a number with its first bit highest: the order in which
      code bits are packed. */
  function Prefix(b: nat, l: nat): (r: nat)
    ensures r < Pow(l)
  {
    if l == 0 then 0 else 2 * Prefix(b, l - 1) + Bit(b, l - 1)
  }

  ghost predicate Matches(ls: Lengths, b: nat, s: nat) {
    s < |ls| && ls[s] > 0 && Prefix(b, ls[s]) == Code(ls, s)
  }

  lemma {:induction false} PrefixOfPrefix(b: nat, l: nat, m: nat)
    requires l <= m
    ensures Prefix(b, m) / Pow(m - l) == Prefix(b, l)
  {
    if l < m {
      PrefixOfPrefix(b, l, m - 1);
      var q, p := Prefix(b, m - 1), Pow(m - 1 - l);
      HalfFirst(q, Bit(b, m - 1), p);
    } else {
      assert Pow(0) == 1;
    }
  }

  lemma HalfFirst(q: nat, c: nat, p: nat)
    requires c < 2 && p >= 1
    ensures (2 * q + c) / (2 * p) == q / p
  {
    var k, r := q / p, q % p;
    assert q == k * p + r;
    assert 2 * q + c == k * (2 * p) + (2 * r + c);
    DivIs(2 * q + c, 2 * p, k, 2 * r + c);
  }

  lemma Multiple(d: int, p: int)
    requires p > 0
    ensures d >= 1 ==> d * p >= p
    ensures d <= -1 ==> d * p <= -p
  {
  }

  lemma DivIs(n: nat, p: nat, k: nat, r: nat)
    requires p > 0 && r < p && n == k * p + r
    ensures n / p == k && n % p == r
  {
    var j := n / p;
    assert n == j * p + n % p;
    assert (k - j) * p == n % p - r;
    Multiple(k - j, p);
  }

  /** No bit string starts with two codes. */
  lemma OneMatch(ls: Lengths, b: nat, s: nat, t: nat)
    requires Matches(ls, b, s) && Matches(ls, b, t)
    ensures s == t
  {
    if ls[s] == ls[t] {
      if s < t { CountGrows(ls, s, t, ls[s]); }
      if t < s { CountGrows(ls, t, s, ls[s]); }
    } else if ls[s] < ls[t] {
      Shorter(ls, b, s, t);
    } else {
      Shorter(ls, b, t, s);
    }
  }

  lemma Shorter(ls: Lengths, b: nat, s: nat, t: nat)
    requires Matches(ls, b, s) && t < |ls| && ls[s] < ls[t]
    ensures Prefix(b, ls[t]) < First(ls, ls[t])
    ensures Prefix(b, ls[t]) != Code(ls, t)
  {
    var l, m := ls[s], ls[t];
    BelowFirst(ls, b, l, m) by { CodeRange(ls, s); }
    CodeRange(ls, t);
  }

  /** Where the shorter codes end, the longer ones have not begun. */
  lemma BelowFirst(ls: Lengths, b: nat, l: nat, m: nat)
    requires l < m && Prefix(b, l) < End(ls, l)
    ensures Prefix(b, m) < First(ls, m)
  {
    PrefixOfPrefix(b, l, m);
    FirstBeyond(ls, l, m);
    var p, q, e := Pow(m - l), Prefix(b, m), End(ls, l);
    QuotientBelow(q, p, e);
  }

  lemma QuotientBelow(q: nat, p: nat, e: nat)
    requires p >= 1 && q / p < e
    ensures q < p * e
  {
    assert q == q / p * p + q % p;
    Times(q / p + 1, e, p);
    assert (q / p + 1) * p == q / p * p + p;
  }

  lemma Times(a: nat, b: nat, p: nat)
    requires a <= b
    ensures a * p <= b * p && b * p == p * b
  {
  }

  /** When the codes use up all the room, every bit string starts with one. */
  lemma SomeMatch(ls: Lengths, b: nat) returns (s: nat)
    requires Complete(ls)
    ensures Matches(ls, b, s)
  {
    EndIs(ls, 15);
    Powers();
    s := MatchUpTo(ls, b, 15);
  }

  lemma {:induction false} MatchUpTo(ls: Lengths, b: nat, l: nat) returns (s: nat)
    requires Prefix(b, l) < End(ls, l)
    ensures Matches(ls, b, s) && ls[s] <= l
  {
    if Prefix(b, l) >= First(ls, l) {
      s := NthSymbol(ls, |ls|, l, Prefix(b, l) - First(ls, l));
    } else {
      EndIs(ls, l - 1);
      s := MatchUpTo(ls, b, l - 1);
    }
  }

  // ----- the Kraft sum -----

  /** The sum of 2^(l - length) over the first n symbols with codes no longer than l. */
  function KraftTo(ls: Lengths, n: nat, l: nat): nat
    requires n <= |ls|
  {
    if n == 0 then 0 else KraftTo(ls, n - 1, l) + (if 0 < ls[n - 1] <= l then Pow(l - ls[n - 1]) else 0)
  }

  lemma {:induction false} KraftNext(ls: Lengths, n: nat, l: nat)
    requires n <= |ls|
    ensures KraftTo(ls, n, l + 1) == 2 * KraftTo(ls, n, l) + CountTo(ls, n, l + 1)
  {
    if n > 0 { KraftNext(ls, n - 1, l); }
  }

  lemma {:induction false} KraftNone(ls: Lengths, n: nat)
    requires n <= |ls|
    ensures KraftTo(ls, n, 0) == 0
  {
    if n > 0 { KraftNone(ls, n - 1); }
  }

  /** What the running total of the codes adds up to. */
  lemma {:induction false} KraftIs(ls: Lengths, l: nat)
    ensures First(ls, l + 1) == 2 * KraftTo(ls, |ls|, l)
  {
    if l == 0 {
      KraftNone(ls, |ls|);
    } else {
      KraftIs(ls, l - 1);
      KraftNext(ls, |ls|, l - 1);
    }
  }

  /** The total is 65536 exactly when the sum of 2^-length over all codes is 1. */
  lemma CompleteIsKraft(ls: Lengths)
    ensures First(ls, 16) == 0x1_0000 <==> KraftTo(ls, |ls|, 15) == Pow(15)
  {
    KraftIs(ls, 15);
    Powers();
  }

  /** How many strings as long as the code of symbol s start with the code of one of the first n symbols that comes
      before it: one with a shorter code, or with a code of this length and a smaller number. */
  function TakenBefore(ls: Lengths, s: nat, n: nat): nat
    requires s < |ls| && n <= |ls|
  {
    if n == 0 then 0
    else
      var t := n - 1;
      TakenBefore(ls, s, t) +
      if 0 < ls[t] < ls[s] then Pow(ls[s] - ls[t]) else if ls[t] == ls[s] && t < s then 1 else 0
  }

  lemma {:induction false} TakenIs(ls: Lengths, s: nat, n: nat)
    requires s < |ls| && n <= |ls| && ls[s] > 0
    ensures TakenBefore(ls, s, n) == 2 * KraftTo(ls, n, ls[s] - 1) + CountTo(ls, if n < s then n else s, ls[s])
  {
    if n > 0 { TakenIs(ls, s, n - 1); }
  }

  /** The codes follow one another without gaps, the shorter ones first and those of one length in the order of the
      symbols: each is the number of strings that are taken before it. */
  lemma CodeIsTaken(ls: Lengths, s: nat)
    requires s < |ls| && ls[s] > 0
    ensures Code(ls, s) == TakenBefore(ls, s, |ls|)
  {
    TakenIs(ls, s, |ls|);
    KraftIs(ls, ls[s] - 1);
  }

  // ----- reversed codes -----

  /** A bit put in front. */
  lemma {:induction false} PrefixShift(r: nat, x: nat, j: nat)
    requires x < 2
    ensures Prefix(2 * r + x, j + 1) == x * Pow(j) + Prefix(r, j)
  {
    if j == 0 {
      assert Prefix(2 * r + x, 1) == Bit(2 * r + x, 0);
    } else {
      PrefixShift(r, x, j - 1);
      BitShift(r, x, j - 1);
      Twice(x, Pow(j - 1));
      assert Prefix(2 * r + x, j + 1) == 2 * Prefix(2 * r + x, j) + Bit(2 * r + x, j);
      assert 2 * (x * Pow(j - 1)) == x * Pow(j) by { Twice2(x, Pow(j - 1)); }
    }
  }

  lemma BitShift(r: nat, x: nat, k: nat)
    requires x < 2
    ensures Bit(2 * r + x, k + 1) == Bit(r, k)
  {
    HalfFirst(r, x, Pow(k));
  }

  lemma {:induction false} BitMod(b: nat, l: nat, k: nat)
    requires k < l
    ensures Bit(b % Pow(l), k) == Bit(b, k)
  {
    var r, q := LowBits(b, l, k);
    hide Pow;
    BitOfSum(b, r, q, Pow(k));
  }

  lemma LowBits(b: nat, l: nat, k: nat) returns (r: nat, q: nat)
    requires k < l
    ensures r == b % Pow(l) && b == r + 2 * q * Pow(k)
  {
    PowAdd(l - 1 - k, k);
    hide Pow;
    q, r := Parts(b, Pow(l));
    q := Regroup(b, q, r, Pow(l), Pow(l - 1 - k), Pow(k));
  }

  lemma Parts(b: nat, n: nat) returns (q: nat, r: nat)
    requires n >= 1
    ensures r == b % n && b == q * n + r
  {
    Euclid(b, n);
    q, r := b / n, b % n;
  }

  lemma Euclid(b: nat, n: nat)
    requires n >= 1
    ensures b == b / n * n + b % n
  {
  }

  lemma BitOfSum(b: nat, r: nat, k: nat, p: nat)
    requires p >= 1 && b == r + 2 * k * p
    ensures b / p % 2 == r / p % 2
  {
    ShiftedQuotient(r, p, 2 * k);
    EvenPlus(k, r / p);
  }

  lemma Regroup(b: nat, q: nat, r: nat, n: nat, m: nat, p: nat) returns (k: nat)
    requires n == 2 * (m * p) && b == q * n + r
    ensures b == r + 2 * k * p
  {
    k := q * m;
  }

  lemma ShiftedQuotient(r: nat, p: nat, k: nat)
    requires p >= 1
    ensures (k * p + r) / p == k + r / p
  {
    assert k * p + r == (k + r / p) * p + r % p;
    DivIs(k * p + r, p, k + r / p, r % p);
  }

  lemma EvenPlus(k: nat, x: nat)
    ensures (2 * k + x) % 2 == x % 2
  {
  }

  /** Only the low l bits matter. */
  lemma {:induction false} PrefixMod(b: nat, l: nat, m: nat)
    requires l <= m
    ensures Prefix(b % Pow(m), l) == Prefix(b, l)
  {
    if l > 0 {
      PrefixMod(b, l - 1, m);
      BitMod(b, m, l - 1);
    }
  }

  /** The first l bits determine the low l bits. */
  lemma {:induction false} PrefixInjective(a: nat, b: nat, l: nat)
    requires Prefix(a, l) == Prefix(b, l)
    ensures a % Pow(l) == b % Pow(l)
  {
    if l > 0 {
      var x, y := Bit(a, l - 1), Bit(b, l - 1);
      assert x == y && Prefix(a, l - 1) == Prefix(b, l - 1);
      PrefixInjective(a, b, l - 1);
      ModNext(a, l - 1);
      ModNext(b, l - 1);
    }
  }

  lemma ModNext(a: nat, l: nat)
    ensures a % Pow(l + 1) == Bit(a, l) * Pow(l) + a % Pow(l)
  {
    ModStep(a, Pow(l));
  }

  lemma ModStep(a: nat, p: nat)
    requires p >= 1
    ensures a % (2 * p) == a / p % 2 * p + a % p
  {
    var q, r := a / p, a % p;
    var c := q % 2;
    Split(q, p);
    assert c * p == if c == 0 then 0 else p;
    DivIs(a, 2 * p, q / 2, c * p + r);
  }

  lemma Split(q: nat, p: nat)
    ensures q * p == q / 2 * (2 * p) + q % 2 * p
  {
    assert q == q / 2 * 2 + q % 2;
  }
}
