/** Doubly linked lists that end in null: the free lists of the page allocator and the queues of the
    scheduler.  Records are numbered, and a list is the sequence of the numbers on it. */
module Chains {
  import opened Seqs

  const NONE := -1

  datatype Links = Links(next: seq<int>, prev: seq<int>)

  predicate Record(l: Links, x: int) {
    0 <= x < |l.next| && x < |l.prev|
  }

  function Head(s: seq<int>): int {
    if s == [] then NONE else s[0]
  }

  function Last(s: seq<int>): int {
    if s == [] then NONE else s[|s| - 1]
  }

  ghost predicate LinkedAt(l: Links, s: seq<int>, k: nat)
    requires k < |s|
  {
    && Record(l, s[k])
    && l.next[s[k]] == (if k + 1 < |s| then s[k + 1] else NONE)
    && l.prev[s[k]] == (if k > 0 then s[k - 1] else NONE)
  }

  ghost predicate Chain(l: Links, s: seq<int>) {
    && NoDup(s)
    && forall k: nat :: k < |s| ==> LinkedAt(l, s, k)
  }

  // ----- the steps of the code -----

  function SetNext(l: Links, x: int, y: int): Links {
    if 0 <= x < |l.next| then l.(next := l.next[x := y]) else l
  }

  function SetPrev(l: Links, x: int, y: int): Links {
    if 0 <= x < |l.prev| then l.(prev := l.prev[x := y]) else l
  }

  /** Linking x before the first element; null is no record, so the last store is the guarded one. */
  function PushFront(l: Links, head: int, x: int): Links {
    SetPrev(SetPrev(SetNext(l, x, head), x, NONE), head, x)
  }

  function PushBack(l: Links, last: int, x: int): Links {
    SetNext(SetPrev(SetNext(l, x, NONE), x, last), last, x)
  }

  /** Joining the neighbours of x. */
  function Unlink(l: Links, x: int): Links
    requires Record(l, x)
  {
    var p, n := l.prev[x], l.next[x];
    SetPrev(SetNext(l, p, n), n, p)
  }

  // ----- what they do -----

  ghost predicate Agree(l: Links, l': Links, s: seq<int>) {
    && |l'.next| == |l.next| && |l'.prev| == |l.prev|
    && forall k :: 0 <= k < |s| && Record(l, s[k]) ==> l'.next[s[k]] == l.next[s[k]] && l'.prev[s[k]] == l.prev[s[k]]
  }

  lemma Frame(l: Links, l': Links, s: seq<int>)
    requires Chain(l, s) && Agree(l, l', s)
    ensures Chain(l', s)
  {
    forall k: nat | k < |s| ensures LinkedAt(l', s, k) {
      assert LinkedAt(l, s, k);
    }
  }

  lemma PushFrontChain(l: Links, s: seq<int>, x: int)
    requires Chain(l, s) && Record(l, x) && x !in s
    ensures Chain(PushFront(l, Head(s), x), [x] + s)
  {
    var t, m := [x] + s, PushFront(l, Head(s), x);
    forall k: nat | k < |t| ensures LinkedAt(m, t, k) {
      if k > 0 { assert LinkedAt(l, s, k - 1); }
    }
  }

  lemma PushBackChain(l: Links, s: seq<int>, x: int)
    requires Chain(l, s) && Record(l, x) && x !in s
    ensures Chain(PushBack(l, Last(s), x), s + [x])
  {
    var t, m := s + [x], PushBack(l, Last(s), x);
    forall k: nat | k < |t| ensures LinkedAt(m, t, k) {
      if k < |s| { assert LinkedAt(l, s, k); }
    }
  }

  lemma UnlinkAt(l: Links, s: seq<int>, j: nat, i: nat)
    requires Chain(l, s) && j < |s| && i < |s| && i != j
    ensures Record(l, s[j]) && Record(l, s[i])
    ensures var m := Unlink(l, s[j]);
      && Record(m, s[i])
      && m.next[s[i]] == (if i + 1 == j then l.next[s[j]] else l.next[s[i]])
      && m.prev[s[i]] == (if i == j + 1 then l.prev[s[j]] else l.prev[s[i]])
  {
    assert LinkedAt(l, s, j) && LinkedAt(l, s, i);
    if j > 0 { assert LinkedAt(l, s, j - 1); }
    if j + 1 < |s| { assert LinkedAt(l, s, j + 1); }
  }

  lemma UnlinkChain(l: Links, s: seq<int>, j: nat)
    requires Chain(l, s) && j < |s|
    ensures Record(l, s[j]) && Chain(Unlink(l, s[j]), Without(s, j))
  {
    assert LinkedAt(l, s, j);
    WithoutSet(s, j);
    WithoutAt(s, j);
    var t, m := Without(s, j), Unlink(l, s[j]);
    hide Without;
    forall k: nat | k < |t| ensures LinkedAt(m, t, k) {
      hide Unlink;
      var i := if k < j then k else k + 1;
      UnlinkAt(l, s, j, i);
      assert LinkedAt(l, s, i);
    }
  }

  /** The steps write in the records of their own list and of x only. */
  lemma StepElsewhere(l: Links, x: int, y: int, t: seq<int>)
    requires x !in t && y !in t
    ensures Agree(l, PushFront(l, y, x), t) && Agree(l, PushBack(l, y, x), t)
  {
    Untouched(l, x, y, t);
    Untouched(l, x, NONE, t);
    Untouched(l, y, x, t);
  }

  lemma Untouched(l: Links, x: int, y: int, t: seq<int>)
    requires x !in t
    ensures Agree(l, SetNext(l, x, y), t) && Agree(l, SetPrev(l, x, y), t)
  {
    forall k | 0 <= k < |t| ensures t[k] != x {
      assert t[k] in t;
    }
  }

  lemma EndsElsewhere(l: Links, s: seq<int>, t: seq<int>)
    requires Chain(l, s) && Chain(l, t) && forall p :: p in s ==> p !in t
    ensures Head(s) !in t && Last(s) !in t
  {
    assert s != [] ==> s[0] in s && s[|s| - 1] in s;
    forall k: nat | k < |t| ensures t[k] != NONE {
      assert LinkedAt(l, t, k);
    }
  }

  lemma UnlinkElsewhere(l: Links, s: seq<int>, j: nat, t: seq<int>)
    requires Chain(l, s) && Chain(l, t) && j < |s| && forall p :: p in s ==> p !in t
    ensures Record(l, s[j]) && Agree(l, Unlink(l, s[j]), t)
  {
    assert LinkedAt(l, s, j);
    var p, n := l.prev[s[j]], l.next[s[j]];
    EndsElsewhere(l, s, t);
    assert p == NONE || p in s;
    assert n == NONE || n in s;
    assert p !in t && n !in t by { EndsElsewhere(l, [], t); }
    Untouched(l, p, n, t);
    Untouched(SetNext(l, p, n), n, p, t);
  }
}
