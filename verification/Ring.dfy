/** Circular doubly linked lists threaded through the `fd` and `bk` words of chunks.  The same
    shape serves a small bin (the header followed by its chunks) and the chain of equal-sized
    chunks hanging off a tree node. */
module Ring {
  import opened WordMemory
  import opened Seqs

  /** The link words of two different elements never coincide. */
  ghost predicate Spaced(s: seq<int>) {
    forall j, k :: 0 <= j < |s| && 0 <= k < |s| && j != k ==> s[j] + 8 <= s[k] || s[k] + 8 <= s[j]
  }

  function Succ(n: nat, k: nat): nat
    requires k < n
    ensures Succ(n, k) < n
  {
    if k + 1 == n then 0 else k + 1
  }

  function Pred(n: nat, k: nat): nat
    requires k < n
    ensures Pred(n, k) < n
  {
    if k == 0 then n - 1 else k - 1
  }

  ghost predicate LinkedAt(m: Mem, s: seq<int>, k: nat)
    requires k < |s|
  {
    Rd(m, s[k] + FD) == s[Succ(|s|, k)] && Rd(m, s[k] + BK) == s[Pred(|s|, k)]
  }

  ghost predicate IsRing(m: Mem, s: seq<int>) {
    && Spaced(s)
    && forall k :: 0 <= k < |s| ==> LinkedAt(m, s, k)
  }

  /** A ring whose `fd` and `bk` words are untouched is still a ring. */
  lemma Frame(m: Mem, m': Mem, s: seq<int>)
    requires IsRing(m, s)
    requires forall k :: 0 <= k < |s| ==> Rd(m', s[k] + FD) == Rd(m, s[k] + FD) && Rd(m', s[k] + BK) == Rd(m, s[k] + BK)
    ensures IsRing(m', s)
  {
    forall k | 0 <= k < |s| ensures LinkedAt(m', s, k) {
      assert LinkedAt(m, s, k);
    }
  }

  /** Linking x right behind the first element. */
  function Insert(m: Mem, b: int, x: int): Mem {
    var f := Rd(m, b + FD);
    Wr(Wr(Wr(Wr(m, b + FD, x), f + BK, x), x + FD, f), x + BK, b)
  }

  lemma InsertEffect(m: Mem, s: seq<int>, x: int, i: nat)
    requires IsRing(m, s) && s != [] && i < |s|
    requires forall k :: 0 <= k < |s| ==> s[k] + 8 <= x || x + 8 <= s[k]
    ensures var m', n := Insert(m, s[0], x), |s|;
      && Rd(m', x + FD) == s[Succ(n, 0)] && Rd(m', x + BK) == s[0]
      && Rd(m', s[i] + FD) == (if i == 0 then x else s[Succ(n, i)])
      && Rd(m', s[i] + BK) == (if i == Succ(n, 0) then x else s[Pred(n, i)])
  {
    assert LinkedAt(m, s, 0) && LinkedAt(m, s, i);
  }

  lemma InsertRing(m: Mem, s: seq<int>, x: int)
    requires IsRing(m, s) && s != []
    requires forall k :: 0 <= k < |s| ==> s[k] + 8 <= x || x + 8 <= s[k]
    ensures IsRing(Insert(m, s[0], x), Second(s, x))
  {
    var t := Second(s, x);
    SecondAt(s, x);
    hide Second;
    forall k | 0 <= k < |t| ensures LinkedAt(Insert(m, s[0], x), t, k) {
      hide Insert;
      InsertEffect(m, s, x, if k < 2 then 0 else k - 1);
    }
  }

  /** Taking x out by joining its two neighbours. */
  function Remove(m: Mem, x: int): Mem {
    var f, b := Rd(m, x + FD), Rd(m, x + BK);
    Wr(Wr(m, f + BK, b), b + FD, f)
  }

  lemma RemoveEffect(m: Mem, s: seq<int>, j: nat, i: nat)
    requires IsRing(m, s) && j < |s| && |s| >= 2 && i < |s| && i != j
    ensures Rd(Remove(m, s[j]), s[i] + FD) == if Succ(|s|, i) == j then s[Succ(|s|, j)] else s[Succ(|s|, i)]
    ensures Rd(Remove(m, s[j]), s[i] + BK) == if Pred(|s|, i) == j then s[Pred(|s|, j)] else s[Pred(|s|, i)]
  {
    var n := |s|;
    assert LinkedAt(m, s, j) && LinkedAt(m, s, i);
    var f, b := s[Succ(n, j)], s[Pred(n, j)];
    assert Succ(n, i) == j <==> i == Pred(n, j);
    assert Pred(n, i) == j <==> i == Succ(n, j);
  }

  lemma SpacedMap(s: seq<int>, t: seq<int>, f: nat -> nat)
    requires Spaced(s)
    requires forall i: nat :: i < |t| ==> f(i) < |s| && t[i] == s[f(i)]
    requires forall i: nat, k: nat :: i < |t| && k < |t| && i != k ==> f(i) != f(k)
    ensures Spaced(t)
  {
  }

  /** Neighbours once the j-th element is left out: k counts what is left, and Kept(k, j) is where it was. */
  function Kept(k: nat, j: nat): nat {
    if k < j then k else k + 1
  }

  lemma SkipNeighbours(n: nat, j: nat, k: nat)
    requires j < n && k < n - 1
    ensures Kept(k, j) < n && Kept(k, j) != j
    ensures var i, sk := Kept(k, j), Succ(n - 1, k); Kept(sk, j) == if Succ(n, i) == j then Succ(n, j) else Succ(n, i)
    ensures var i, pk := Kept(k, j), Pred(n - 1, k); Kept(pk, j) == if Pred(n, i) == j then Pred(n, j) else Pred(n, i)
  {
  }

  lemma RemoveLinked(m: Mem, s: seq<int>, j: nat, k: nat)
    requires IsRing(m, s) && j < |s| && k < |s| - 1
    ensures |Without(s, j)| == |s| - 1 && LinkedAt(Remove(m, s[j]), Without(s, j), k)
  {
    hide IsRing, Spaced, Remove, Without, Succ, Pred, Kept;
    var n, i := |s|, Kept(k, j);
    SkipNeighbours(n, j, k);
    RemoveEffect(m, s, j, i);
    WithoutPick(s, j, k);
    WithoutPick(s, j, Succ(n - 1, k));
    WithoutPick(s, j, Pred(n - 1, k));
  }

  lemma WithoutPick(s: seq<int>, j: nat, i: nat)
    requires j < |s| && i < |s| - 1
    ensures |Without(s, j)| == |s| - 1 && Kept(i, j) < |s| && Without(s, j)[i] == s[Kept(i, j)]
  {
  }

  lemma RemoveRing(m: Mem, s: seq<int>, j: nat)
    requires IsRing(m, s) && j < |s| && |s| >= 2
    ensures IsRing(Remove(m, s[j]), Without(s, j))
  {
    var t := Without(s, j);
    WithoutAt(s, j);
    SpacedMap(s, t, i => if i < j then i else i + 1);
    hide Spaced;
    hide Without;
    forall k | 0 <= k < |t| ensures LinkedAt(Remove(m, s[j]), t, k) {
      RemoveLinked(m, s, j, k);
    }
  }

  /** When the first element goes, the ring may be read starting from the last one. */
  lemma RemoveFirstRing(m: Mem, s: seq<int>)
    requires IsRing(m, s) && |s| >= 2
    ensures IsRing(Remove(m, s[0]), Rotated(s)) && Rd(m, s[0] + BK) == s[|s| - 1]
  {
    var t := Rotated(s);
    RotatedAt(s);
    hide Rotated;
    assert LinkedAt(m, s, 0);
    forall k | 0 <= k < |t| ensures LinkedAt(Remove(m, s[0]), t, k) {
      hide Remove;
      RemoveEffect(m, s, 0, if k == 0 then |s| - 1 else k);
    }
  }

  /** Where the links of the ends of a ring lead. */
  lemma Neighbours(m: Mem, s: seq<int>, j: nat)
    requires IsRing(m, s) && j < |s|
    ensures Rd(m, s[j] + FD) == s[Succ(|s|, j)] && Rd(m, s[j] + BK) == s[Pred(|s|, j)]
    ensures Rd(m, s[j] + BK) == s[j] <==> |s| == 1
    ensures Rd(m, s[j] + FD) == Rd(m, s[j] + BK) <==> |s| <= 2
  {
    assert LinkedAt(m, s, j);
  }
}
