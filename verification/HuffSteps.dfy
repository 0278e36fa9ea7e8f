/** The two-level decoding tables of a prefix code: a table indexed by ten bits, whose entries are short
    codes or lead to pairs of cells of a second table, one bit per step. */
module HuffSteps {
  import opened Canonical

  const LOOKUP := 1024
  const TREE := 576

  /** The interior nodes that have been given a pair of cells, in the order of the pairs: depth and bits so far. */
  type Names = seq<(nat, nat)>

  /** How the tables refer to pair k. */
  function Ptr(k: nat): int {
    -1 - 2 * k
  }

  ghost predicate Interior(ls: Lengths, d: nat, v: nat) {
    10 <= d <= 14 && End(ls, d) <= v < Pow(d)
  }

  ghost predicate NamesOk(ls: Lengths, names: Names) {
    && (forall k :: 0 <= k < |names| ==> Interior(ls, names[k].0, names[k].1))
    && (forall j, k :: 0 <= j < k < |names| ==> names[j] != names[k])
    && (forall k :: 0 <= k < |names| && names[k].0 > 10 ==> (names[k].0 - 1, names[k].1 / 2) in names)
  }

  /** Symbol s, one of the first n, has the code v of d bits. */
  ghost predicate LeafAt(ls: Lengths, n: nat, s: nat, d: nat, v: nat) {
    s < n && s < |ls| && ls[s] == d && d > 0 && Code(ls, s) == v
  }

  ghost predicate Named(names: Names, d: nat, v: nat, c: int) {
    exists j :: 0 <= j < |names| && names[j] == (d, v) && c == Ptr(j)
  }

  /** A cell of the second table. */
  ghost predicate CellOk(ls: Lengths, n: nat, names: Names, d: nat, v: nat, c: int) {
    && (forall s: nat :: LeafAt(ls, n, s, d, v) ==> c == s)
    && (forall j :: 0 <= j < |names| && names[j] == (d, v) ==> c == Ptr(j))
    && (c > 0 ==> LeafAt(ls, n, c, d, v)) && (c < 0 ==> Named(names, d, v, c))
  }

  ghost predicate Short(ls: Lengths, n: nat, r: nat, s: nat) {
    s < n && s < |ls| && 0 < ls[s] <= 10 && Prefix(r, ls[s]) == Code(ls, s)
  }

  /** An entry of the first table. */
  ghost predicate EntryOk(ls: Lengths, n: nat, names: Names, r: nat, e: int) {
    && (forall s: nat :: Short(ls, n, r, s) ==> e == ls[s] * 512 + s)
    && (forall j :: 0 <= j < |names| && names[j] == (10, Prefix(r, 10)) ==> e == Ptr(j))
    && (e > 0 ==> exists s: nat :: Short(ls, n, r, s)) && (e < 0 ==> Named(names, 10, Prefix(r, 10), e))
  }

  /** The node at depth d on the way to the code of symbol s. */
  function Node(ls: Lengths, s: nat, d: nat): (nat, nat)
    requires s < |ls| && d <= ls[s]
  {
    (d, Quotient(Code(ls, s), Pow(ls[s] - d)))
  }

  /** The nodes on the way to the code of symbol s have cells. */
  ghost predicate PathOk(ls: Lengths, names: Names, s: nat)
    requires s < |ls|
  {
    forall d :: 10 <= d < ls[s] ==> Node(ls, s, d) in names
  }

  /** Both cells of pair k. */
  ghost predicate PairOk(ls: Lengths, n: nat, names: Names, tree: seq<int>, k: nat)
    requires k < |names| && 2 * |names| <= |tree|
  {
    && CellOk(ls, n, names, names[k].0 + 1, 2 * names[k].1, tree[2 * k])
    && CellOk(ls, n, names, names[k].0 + 1, 2 * names[k].1 + 1, tree[2 * k + 1])
  }

  /** The tables hold the codes of the first n symbols and nothing else. */
  ghost predicate Holds(ls: Lengths, n: nat, names: Names, look: seq<int>, tree: seq<int>) {
    && n <= |ls| <= 288 && Fits(ls) && |look| == LOOKUP && |tree| == TREE && 2 * |names| <= TREE
    && NamesOk(ls, names)
    && (forall r :: 0 <= r < LOOKUP ==> EntryOk(ls, n, names, r, look[r]))
    && (forall k :: 0 <= k < |names| ==> PairOk(ls, n, names, tree, k))
    && (forall i :: 2 * |names| <= i < TREE ==> tree[i] == 0)
    && (forall s: nat :: 0 <= s < n ==> PathOk(ls, names, s))
  }

  // ----- facts about codes -----

  lemma SameLeaf(ls: Lengths, s: nat, t: nat)
    requires s < |ls| && t < |ls| && ls[s] == ls[t] > 0 && Code(ls, s) == Code(ls, t)
    ensures s == t
  {
    if s < t { CountGrows(ls, s, t, ls[s]); }
    if t < s { CountGrows(ls, t, s, ls[s]); }
  }

  /** A code is not an interior node of its length, nor of a greater one. */
  lemma LeafNotInterior(ls: Lengths, s: nat)
    requires s < |ls| && ls[s] > 0
    ensures !Interior(ls, ls[s], Code(ls, s))
  {
    CodeRange(ls, s);
  }

  lemma ShortNotInterior(ls: Lengths, r: nat, s: nat, n: nat)
    requires Short(ls, n, r, s)
    ensures !Interior(ls, 10, Prefix(r, 10))
  {
    CodeRange(ls, s);
    if ls[s] < 10 { BelowFirst(ls, r, ls[s], 10); }
  }

  /** The nodes on the way to a code are interior. */
  lemma OnTheWay(ls: Lengths, s: nat, d: nat)
    requires Fits(ls) && s < |ls| && 10 <= d < ls[s]
    ensures Interior(ls, d, Code(ls, s) / Pow(ls[s] - d))
  {
    var l := ls[s];
    CodeRange(ls, s);
    Room(ls, l);
    FirstBeyond(ls, d, l);
    PowAdd(l - d, d);
    var p, c := Pow(l - d), Code(ls, s);
    QuotientRange(c, p, End(ls, d), Pow(d));
  }

  lemma QuotientRange(c: nat, p: nat, lo: nat, hi: nat)
    requires p >= 1 && p * lo <= c < p * hi
    ensures lo <= c / p < hi
  {
    var q := c / p;
    Euclid(c, p);
    Multiple(q - hi, p);
    Multiple(lo - q, p);
    assert (q - hi) * p == q * p - p * hi;
    assert (lo - q) * p == p * lo - q * p;
    Multiple(lo - q - 1, p);
    assert (lo - q - 1) * p == p * lo - q * p - p;
  }

  // ----- one symbol more -----

  lemma PairGrows(ls: Lengths, n: nat, names: Names, tree: seq<int>, k: nat)
    requires k < |names| && 2 * |names| <= |tree| && PairOk(ls, n, names, tree, k) && NamesOk(ls, names) && n < |ls|
      && ls[n] <= 10
    ensures PairOk(ls, n + 1, names, tree, k)
  {
    hide CellOk;
    var m := n + 1;
    TenDeep(ls, names, k);
    CellGrows(ls, n, m, names, names[k].0 + 1, 2 * names[k].1, tree[2 * k]);
    CellGrows(ls, n, m, names, names[k].0 + 1, 2 * names[k].1 + 1, tree[2 * k + 1]);
  }

  lemma TenDeep(ls: Lengths, names: Names, k: nat)
    requires NamesOk(ls, names) && k < |names|
    ensures 10 <= names[k].0 <= 14
  {
  }

  /** A symbol without a code. */
  lemma SkipSymbol(ls: Lengths, n: nat, names: Names, look: seq<int>, tree: seq<int>)
    requires Holds(ls, n, names, look, tree) && n < |ls| && ls[n] == 0
    ensures Holds(ls, n + 1, names, look, tree)
  {
    hide CellOk, EntryOk, NamesOk, PairOk, Prefix, Code;
    var m := n + 1;
    assert PathOk(ls, names, n);
    forall r | 0 <= r < LOOKUP ensures EntryOk(ls, m, names, r, look[r]) {
      EntryGrows(ls, n, m, names, r, look[r]);
    }
    forall k | 0 <= k < |names| ensures PairOk(ls, m, names, tree, k) {
      PairGrows(ls, n, names, tree, k);
    }
  }

  lemma EntryGrows(ls: Lengths, n: nat, m: nat, names: Names, r: nat, e: int)
    requires m == n + 1 && EntryOk(ls, n, names, r, e) && !Short(ls, m, r, n)
    ensures EntryOk(ls, m, names, r, e)
  {
    hide Prefix, Code, Named;
    assert forall s: nat :: Short(ls, m, r, s) <==> Short(ls, n, r, s);
  }

  lemma CellGrows(ls: Lengths, n: nat, m: nat, names: Names, d: nat, v: nat, c: int)
    requires m == n + 1 && CellOk(ls, n, names, d, v, c) && !LeafAt(ls, m, n, d, v)
    ensures CellOk(ls, m, names, d, v, c)
  {
    hide Code, Named;
    assert forall s: nat :: LeafAt(ls, m, s, d, v) <==> LeafAt(ls, n, s, d, v);
  }

  /** The entries of a short code. */
  lemma ShortEntry(ls: Lengths, n: nat, names: Names, r: nat, e: int)
    requires NamesOk(ls, names) && n < |ls| && Short(ls, n + 1, r, n) && EntryOk(ls, n, names, r, e)
    ensures EntryOk(ls, n + 1, names, r, ls[n] * 512 + n)
  {
    hide Named;
    var m := n + 1;
    ShortNotInterior(ls, r, n, m);
    forall s: nat | Short(ls, m, r, s) ensures s == n {
      assert Matches(ls, r, s) && Matches(ls, r, n);
      OneMatch(ls, r, s, n);
    }
  }

  lemma ShortSymbol(ls: Lengths, n: nat, names: Names, look: seq<int>, look': seq<int>, tree: seq<int>)
    requires Holds(ls, n, names, look, tree) && n < |ls| && 0 < ls[n] <= 10 && |look'| == LOOKUP
    requires forall r :: 0 <= r < LOOKUP ==> look'[r] == if Prefix(r, ls[n]) == Code(ls, n) then ls[n] * 512 + n
      else look[r]
    ensures Holds(ls, n + 1, names, look', tree)
  {
    hide CellOk, EntryOk, NamesOk, PairOk;
    var m := n + 1;
    assert PathOk(ls, names, n);
    forall r | 0 <= r < LOOKUP ensures EntryOk(ls, m, names, r, look'[r]) {
      assert EntryOk(ls, n, names, r, look[r]);
      if Prefix(r, ls[n]) == Code(ls, n) {
        ShortEntry(ls, n, names, r, look[r]);
      } else {
        EntryGrows(ls, n, m, names, r, look[r]);
      }
    }
    forall k | 0 <= k < |names| ensures PairOk(ls, m, names, tree, k) {
      PairGrows(ls, n, names, tree, k);
    }
  }

  // ----- a node more -----

  /** Nothing is below a node that has no cells yet. */
  lemma NothingBelow(ls: Lengths, n: nat, names: Names, e: nat, w: nat)
    requires NamesOk(ls, names) && n <= |ls| && (forall s: nat :: 0 <= s < n ==> PathOk(ls, names, s))
    requires e > 10 && (e - 1, w / 2) !in names
    ensures forall s: nat :: !LeafAt(ls, n, s, e, w)
    ensures forall j :: 0 <= j < |names| ==> names[j] != (e, w)
  {
    hide Code;
    forall s: nat ensures !LeafAt(ls, n, s, e, w) {
      if s < n { assert PathOk(ls, names, s); }
      LeafParent(ls, n, s, e, w);
    }
  }

  lemma LeafParent(ls: Lengths, n: nat, s: nat, e: nat, w: nat)
    requires e > 10
    ensures LeafAt(ls, n, s, e, w) ==> Node(ls, s, e - 1) == (e - 1, w / 2)
  {
    assert Pow(1) == 2;
  }

  lemma NamesMore(ls: Lengths, names: Names, d: nat, v: nat)
    requires NamesOk(ls, names) && Interior(ls, d, v) && (d, v) !in names && (d > 10 ==> (d - 1, v / 2) in names)
    ensures NamesOk(ls, names + [(d, v)])
  {
    hide Interior;
  }

  lemma CellNames(ls: Lengths, n: nat, names: Names, d: nat, v: nat, c: int, x: (nat, nat))
    requires CellOk(ls, n, names, d, v, c) && x != (d, v)
    ensures CellOk(ls, n, names + [x], d, v, c)
  {
    hide Code, LeafAt;
    var names' := names + [x];
    if c < 0 {
      var j :| 0 <= j < |names| && names[j] == (d, v) && c == Ptr(j);
      assert names'[j] == (d, v);
    }
  }

  lemma EntryNames(ls: Lengths, n: nat, names: Names, r: nat, e: int, x: (nat, nat))
    requires EntryOk(ls, n, names, r, e) && x != (10, Prefix(r, 10))
    ensures EntryOk(ls, n, names + [x], r, e)
  {
    hide Code, Short, Prefix;
    var names' := names + [x];
    if e < 0 {
      var j :| 0 <= j < |names| && names[j] == (10, Prefix(r, 10)) && e == Ptr(j);
      assert names'[j] == (10, Prefix(r, 10));
    }
  }

  lemma EmptyCell(ls: Lengths, n: nat, names: Names, d: nat, v: nat)
    requires forall s: nat :: !LeafAt(ls, n, s, d, v)
    requires forall j :: 0 <= j < |names| ==> names[j] != (d, v)
    ensures CellOk(ls, n, names, d, v, 0)
  {
  }

  lemma NewPtrCell(ls: Lengths, n: nat, names: Names, d: nat, v: nat)
    requires NamesOk(ls, names + [(d, v)]) && Interior(ls, d, v)
    ensures CellOk(ls, n, names + [(d, v)], d, v, Ptr(|names|))
  {
    var names' := names + [(d, v)];
    assert names'[|names|] == (d, v);
    forall s: nat | LeafAt(ls, n, s, d, v) ensures false {
      LeafNotInterior(ls, s);
    }
  }

  lemma PathMore(ls: Lengths, names: Names, x: (nat, nat), s: nat)
    requires s < |ls| && PathOk(ls, names, s)
    ensures PathOk(ls, names + [x], s)
  {
  }

  /** The cells of the new pair are empty and right. */
  lemma NewPair(ls: Lengths, n: nat, names: Names, d: nat, v: nat, bit: nat)
    requires NamesOk(ls, names) && n <= |ls| && (forall s: nat :: 0 <= s < n ==> PathOk(ls, names, s)) && bit < 2
    requires (d, v) !in names && d >= 10
    ensures CellOk(ls, n, names + [(d, v)], d + 1, 2 * v + bit, 0)
  {
    hide LeafAt, PathOk, NamesOk;
    NothingBelow(ls, n, names, d + 1, 2 * v + bit);
    EmptyCell(ls, n, names + [(d, v)], d + 1, 2 * v + bit);
  }

  lemma LowBits(r: nat, t: nat)
    requires r < LOOKUP && t < LOOKUP && Prefix(r, 10) == Prefix(t, 10)
    ensures r == t
  {
    hide Prefix, Pow;
    PrefixInjective(r, t, 10);
    Powers();
    Small(r, Pow(10));
    Small(t, Pow(10));
  }

  lemma Small(r: nat, p: nat)
    requires r < p
    ensures r % p == r
  {
  }

  /** A pair for a node of ten bits, which the first table refers to. */
  lemma AddRoot(ls: Lengths, n: nat, names: Names, look: seq<int>, tree: seq<int>, r: nat)
    requires Holds(ls, n, names, look, tree) && r < LOOKUP && look[r] == 0 && Interior(ls, 10, Prefix(r, 10))
      && 2 * |names| + 2 <= TREE
    ensures Holds(ls, n, names + [(10, Prefix(r, 10))], look[r := Ptr(|names|)], tree)
  {
    hide Prefix, Interior, NamesOk, LeafAt, Short, PathOk;
    var x: (nat, nat) := (10, Prefix(r, 10));
    var names', look' := names + [x], look[r := Ptr(|names|)];
    assert EntryOk(ls, n, names, r, 0);
    assert x !in names;
    NamesMore(ls, names, 10, x.1);
    forall t | 0 <= t < LOOKUP ensures EntryOk(ls, n, names', t, look'[t]) {
      assert EntryOk(ls, n, names, t, look[t]);
      if t == r {
        RootEntry(ls, n, names, r);
      } else {
        if Prefix(t, 10) == Prefix(r, 10) { LowBits(t, r); }
        EntryNames(ls, n, names, t, look[t], x);
      }
    }
    hide EntryOk;
    assert OnlyParent(names, x, -1) by { Deeper(ls, names, x); }
    NewCells(ls, n, names, x, tree, tree, -1);
    forall s: nat | 0 <= s < n ensures PathOk(ls, names', s) { PathMore(ls, names, x, s); }
  }

  lemma Deeper(ls: Lengths, names: Names, x: (nat, nat))
    requires NamesOk(ls, names) && x.0 == 10
    ensures OnlyParent(names, x, -1)
  {
    forall k | 0 <= k < |names| ensures ParentAt(names[k], x, -1, k) { TenDeep(ls, names, k); }
  }

  lemma ParentOf(ls: Lengths, names: Names, k: nat, bit: nat)
    requires NamesOk(ls, names) && k < |names| && bit < 2
    ensures OnlyParent(names, (names[k].0 + 1, 2 * names[k].1 + bit), 2 * k + bit)
  {
    forall j | 0 <= j < |names| ensures ParentAt(names[j], (names[k].0 + 1, 2 * names[k].1 + bit), 2 * k + bit, j) {
      if j != k { assert names[j] != names[k]; }
    }
  }

  lemma RootEntry(ls: Lengths, n: nat, names: Names, r: nat)
    requires Interior(ls, 10, Prefix(r, 10)) && NamesOk(ls, names + [(10, Prefix(r, 10))])
    ensures EntryOk(ls, n, names + [(10, Prefix(r, 10))], r, Ptr(|names|))
  {
    var names' := names + [(10, Prefix(r, 10))];
    assert names'[|names|] == (10, Prefix(r, 10));
    forall s: nat | Short(ls, n, r, s) ensures false {
      ShortNotInterior(ls, r, s, n);
    }
  }

  /** Pair k after a pair has been added for node x; `at` is the one cell that now refers to it, if any. */
  lemma OldPair(ls: Lengths, n: nat, names: Names, x: (nat, nat), tree: seq<int>, tree': seq<int>, at: int, k: nat)
    requires |tree| == |tree'| == TREE && 2 * |names| + 2 <= TREE && NamesOk(ls, names + [x]) && Interior(ls, x.0, x.1)
    requires k < |names| && PairOk(ls, n, names, tree, k)
    requires forall i :: 0 <= i < TREE && i != at ==> tree'[i] == tree[i]
    requires 0 <= at < TREE ==> tree'[at] == Ptr(|names|)
    requires 2 * k == at <==> (names[k].0 + 1, 2 * names[k].1) == x
    requires 2 * k + 1 == at <==> (names[k].0 + 1, 2 * names[k].1 + 1) == x
    ensures PairOk(ls, n, names + [x], tree', k)
  {
    hide CellOk, NamesOk;
    if 2 * k == at {
      NewPtrCell(ls, n, names, x.0, x.1);
    } else {
      CellNames(ls, n, names, names[k].0 + 1, 2 * names[k].1, tree[2 * k], x);
    }
    if 2 * k + 1 == at {
      NewPtrCell(ls, n, names, x.0, x.1);
    } else {
      CellNames(ls, n, names, names[k].0 + 1, 2 * names[k].1 + 1, tree[2 * k + 1], x);
    }
  }

  lemma LastPair(ls: Lengths, n: nat, names: Names, x: (nat, nat), tree: seq<int>)
    requires |tree| == TREE && 2 * |names| + 2 <= TREE && NamesOk(ls, names) && n <= |ls|
    requires (forall s: nat :: 0 <= s < n ==> PathOk(ls, names, s)) && x !in names && x.0 >= 10
    requires tree[2 * |names|] == 0 && tree[2 * |names| + 1] == 0
    ensures PairOk(ls, n, names + [x], tree, |names|)
  {
    hide CellOk, NamesOk, PathOk;
    NewPair(ls, n, names, x.0, x.1, 0);
    NewPair(ls, n, names, x.0, x.1, 1);
  }

  /** When a cell of pair k of names refers to x, which has no other parent. */
  ghost predicate OnlyParent(names: Names, x: (nat, nat), at: int) {
    forall k :: 0 <= k < |names| ==> ParentAt(names[k], x, at, k)
  }

  ghost predicate ParentAt(y: (nat, nat), x: (nat, nat), at: int, k: nat) {
    && (2 * k == at <==> (y.0 + 1, 2 * y.1) == x)
    && (2 * k + 1 == at <==> (y.0 + 1, 2 * y.1 + 1) == x)
  }

  lemma NewCells(ls: Lengths, n: nat, names: Names, x: (nat, nat), tree: seq<int>, tree': seq<int>, at: int)
    requires |tree| == |tree'| == TREE && 2 * |names| + 2 <= TREE && NamesOk(ls, names) && NamesOk(ls, names + [x])
      && n <= |ls|
    requires forall k :: 0 <= k < |names| ==> PairOk(ls, n, names, tree, k)
    requires forall i :: 2 * |names| <= i < TREE ==> tree[i] == 0
    requires forall s: nat :: 0 <= s < n ==> PathOk(ls, names, s)
    requires x !in names && Interior(ls, x.0, x.1) && OnlyParent(names, x, at)
    requires -1 <= at < 2 * |names|
      && (forall i :: 0 <= i < TREE && i != at ==> tree'[i] == tree[i]) && (at >= 0 ==> tree'[at] == Ptr(|names|))
    ensures forall k :: 0 <= k < |names + [x]| ==> PairOk(ls, n, names + [x], tree', k)
  {
    hide CellOk, NamesOk, PathOk, PairOk;
    var names' := names + [x];
    forall k | 0 <= k < |names'| ensures PairOk(ls, n, names', tree', k) {
      if k == |names| {
        LastPair(ls, n, names, x, tree');
      } else {
        assert ParentAt(names[k], x, at, k);
        OldPair(ls, n, names, x, tree, tree', at, k);
      }
    }
  }

  lemma NotNamed(ls: Lengths, n: nat, names: Names, d: nat, v: nat)
    requires CellOk(ls, n, names, d, v, 0)
    ensures (d, v) !in names
  {
  }

  /** A pair for a deeper node, which a cell of its parent refers to. */
  lemma AddNode(ls: Lengths, n: nat, names: Names, look: seq<int>, tree: seq<int>, k: nat, bit: nat)
    requires Holds(ls, n, names, look, tree) && k < |names| && bit < 2 && tree[2 * k + bit] == 0
      && 2 * |names| + 2 <= TREE
    requires Interior(ls, names[k].0 + 1, 2 * names[k].1 + bit)
    ensures Holds(ls, n, names + [(names[k].0 + 1, 2 * names[k].1 + bit)], look, tree[2 * k + bit := Ptr(|names|)])
  {
    hide Prefix, Interior, LeafAt, Short, PathOk, NamesOk;
    var x: (nat, nat) := (names[k].0 + 1, 2 * names[k].1 + bit);
    var names', tree' := names + [x], tree[2 * k + bit := Ptr(|names|)];
    assert PairOk(ls, n, names, tree, k);
    NotNamed(ls, n, names, x.0, x.1);
    assert (x.0 - 1, x.1 / 2) == names[k];
    TenDeep(ls, names, k);
    NamesMore(ls, names, x.0, x.1);
    ParentOf(ls, names, k, bit);
    forall t | 0 <= t < LOOKUP ensures EntryOk(ls, n, names', t, look[t]) {
      EntryNames(ls, n, names, t, look[t], x);
    }
    hide EntryOk, CellOk, PairOk;
    NewCells(ls, n, names, x, tree, tree', 2 * k + bit);
    forall s: nat | 0 <= s < n ensures PathOk(ls, names', s) { PathMore(ls, names, x, s); }
  }

  // ----- the leaf of a long code -----

  lemma LeafCell(ls: Lengths, n: nat, names: Names)
    requires NamesOk(ls, names) && n < |ls| && ls[n] > 0
    ensures CellOk(ls, n + 1, names, ls[n], Code(ls, n), n)
  {
    var m := n + 1;
    forall s: nat | LeafAt(ls, m, s, ls[n], Code(ls, n)) ensures s == n { SameLeaf(ls, s, n); }
    LeafNotInterior(ls, n);
  }

  lemma SetLeaf(ls: Lengths, n: nat, names: Names, look: seq<int>, tree: seq<int>, k: nat, bit: nat)
    requires Holds(ls, n, names, look, tree) && n < |ls| && ls[n] > 10 && PathOk(ls, names, n) && k < |names| && bit < 2
    requires names[k] == (ls[n] - 1, Code(ls, n) / 2) && bit == Code(ls, n) % 2
    ensures Holds(ls, n + 1, names, look, tree[2 * k + bit := n])
  {
    hide Prefix, Interior, PathOk, CellOk, EntryOk, Code, NamesOk;
    var m := n + 1;
    var tree' := tree[2 * k + bit := n];
    forall r | 0 <= r < LOOKUP ensures EntryOk(ls, m, names, r, look[r]) {
      EntryGrows(ls, n, m, names, r, look[r]);
    }
    ParentOf(ls, names, k, bit);
    LeafCell(ls, n, names);
    forall j | 0 <= j < |names| ensures PairOk(ls, m, names, tree', j) {
      assert PairOk(ls, n, names, tree, j);
      assert ParentAt(names[j], (ls[n], Code(ls, n)), 2 * k + bit, j);
      if 2 * j != 2 * k + bit { CellGrows(ls, n, m, names, names[j].0 + 1, 2 * names[j].1, tree[2 * j]); }
      if 2 * j + 1 != 2 * k + bit { CellGrows(ls, n, m, names, names[j].0 + 1, 2 * names[j].1 + 1, tree[2 * j + 1]); }
    }
  }

  // ----- decoding -----

  /** The walk through the second table from pointer p at depth d. */
  function Walk(tree: seq<int>, p: int, b: nat, d: nat): (int, nat)
    decreases 16 - d
  {
    if d > 15 || !(0 <= -p - 1 + Bit(b, d) < |tree|) then (-1, d)
    else
      var c := tree[-p - 1 + Bit(b, d)];
      if c >= 0 then (c, d + 1) else Walk(tree, c, b, d + 1)
  }

  /** Table decoding: the symbol and the length of its code. */
  function Lookup(look: seq<int>, tree: seq<int>, b: nat): (int, int)
    requires |look| == LOOKUP
  {
    var e := look[b % LOOKUP];
    if e >= 0 then (e % 512, e / 512) else Walk(tree, e, b, 10)
  }

  lemma PathIndex(names: Names, x: (nat, nat)) returns (k: nat)
    requires x in names
    ensures k < |names| && names[k] == x
  {
    k :| 0 <= k < |names| && names[k] == x;
  }

  /** The nodes on the way to a matching code are those the bits lead through. */
  lemma OnPath(ls: Lengths, names: Names, b: nat, s: nat, d: nat) returns (j: nat)
    requires Matches(ls, b, s) && PathOk(ls, names, s) && 10 <= d < ls[s]
    ensures j < |names| && names[j] == (d, Prefix(b, d))
  {
    hide Prefix, Code, Pow;
    PrefixOfPrefix(b, d, ls[s]);
    assert Node(ls, s, d) in names;
    j := PathIndex(names, (d, Prefix(b, d)));
  }

  lemma HoldsPath(ls: Lengths, n: nat, names: Names, look: seq<int>, tree: seq<int>, s: nat)
    requires Holds(ls, n, names, look, tree) && s < n
    ensures PathOk(ls, names, s)
  {
    hide PathOk, NamesOk, PairOk, EntryOk;
  }

  lemma HoldsPair(ls: Lengths, n: nat, names: Names, look: seq<int>, tree: seq<int>, k: nat, bit: nat)
    requires Holds(ls, n, names, look, tree) && k < |names| && bit < 2
    ensures 2 * k + bit < |tree| && CellOk(ls, n, names, names[k].0 + 1, 2 * names[k].1 + bit, tree[2 * k + bit])
  {
    hide PathOk, NamesOk, EntryOk, CellOk;
    assert PairOk(ls, n, names, tree, k);
  }

  lemma HoldsEntry(ls: Lengths, n: nat, names: Names, look: seq<int>, tree: seq<int>, r: nat)
    requires Holds(ls, n, names, look, tree) && r < LOOKUP
    ensures |look| == LOOKUP && EntryOk(ls, n, names, r, look[r])
  {
    hide PathOk, NamesOk, EntryOk, PairOk;
  }

  /** The cell that the next bit selects. */
  lemma ChildCell(ls: Lengths, names: Names, look: seq<int>, tree: seq<int>, b: nat, s: nat, d: nat, k: nat)
    returns (j: nat)
    requires Holds(ls, |ls|, names, look, tree) && Matches(ls, b, s) && 10 <= d < ls[s]
    requires k < |names| && names[k] == (d, Prefix(b, d))
    ensures 2 * k + Bit(b, d) < |tree|
    ensures var c := tree[2 * k + Bit(b, d)];
      if d + 1 == ls[s] then c == s else j < |names| && names[j] == (d + 1, Prefix(b, d + 1)) && c == Ptr(j)
  {
    assert Bit(b, d) < 2 && 2 * Prefix(b, d) + Bit(b, d) == Prefix(b, d + 1);
    hide Holds, Prefix, Code, Bit, Pow, Interior, PathOk, Named;
    HoldsPair(ls, |ls|, names, look, tree, k, Bit(b, d));
    j := 0;
    if d + 1 == ls[s] {
      assert LeafAt(ls, |ls|, s, d + 1, Prefix(b, d + 1));
    } else {
      HoldsPath(ls, |ls|, names, look, tree, s);
      j := OnPath(ls, names, b, s, d + 1);
    }
  }

  lemma {:induction false} WalkCorrect(ls: Lengths, names: Names, look: seq<int>, tree: seq<int>, b: nat, s: nat,
      d: nat, k: nat)
    requires Holds(ls, |ls|, names, look, tree) && Matches(ls, b, s) && s < |ls| && 10 <= d < ls[s] <= 15
    requires k < |names| && names[k] == (d, Prefix(b, d))
    ensures Walk(tree, Ptr(k), b, d) == (s, ls[s])
    decreases 16 - d
  {
    hide Holds, Matches, Prefix, Bit;
    var j := ChildCell(ls, names, look, tree, b, s, d, k);
    assert -Ptr(k) - 1 + Bit(b, d) == 2 * k + Bit(b, d);
    if d + 1 < ls[s] {
      WalkCorrect(ls, names, look, tree, b, s, d + 1, j);
    }
  }

  /** The tables decode every bit string to the symbol whose code it starts with, and to that code's length. */
  lemma LookupCorrect(ls: Lengths, names: Names, look: seq<int>, tree: seq<int>, b: nat, s: nat)
    requires Holds(ls, |ls|, names, look, tree) && Matches(ls, b, s)
    ensures |look| == LOOKUP && Lookup(look, tree, b) == (s, ls[s])
  {
    var r := b % LOOKUP;
    HoldsEntry(ls, |ls|, names, look, tree, r);
    HoldsSizes(ls, |ls|, names, look, tree, s);
    LowTen(b, ls[s]);
    hide Holds, Prefix, Code, Walk, PathOk, Named;
    if ls[s] <= 10 {
      assert Short(ls, |ls|, r, s);
      EntryParts(ls[s], s);
    } else {
      HoldsPath(ls, |ls|, names, look, tree, s);
      var k := OnPath(ls, names, b, s, 10);
      WalkCorrect(ls, names, look, tree, b, s, 10, k);
    }
  }

  lemma HoldsSizes(ls: Lengths, n: nat, names: Names, look: seq<int>, tree: seq<int>, s: nat)
    requires Holds(ls, n, names, look, tree) && s < |ls|
    ensures ls[s] <= 15 && s < 512
  {
    hide PathOk, NamesOk, EntryOk, PairOk, First;
  }

  lemma LowTen(b: nat, l: nat)
    ensures Prefix(b % LOOKUP, 10) == Prefix(b, 10)
    ensures l <= 10 ==> Prefix(b % LOOKUP, l) == Prefix(b, l)
  {
    hide Prefix, Pow;
    Powers();
    PrefixMod(b, 10, 10);
    if l <= 10 { PrefixMod(b, l, 10); }
  }

  lemma EntryParts(l: nat, s: nat)
    requires s < 512
    ensures (l * 512 + s) % 512 == s && (l * 512 + s) / 512 == l
  {
  }

  // ----- room in the second table -----

  /** The interior nodes of depth d. */
  function Inner(ls: Lengths, d: nat): int {
    Pow(d) - End(ls, d)
  }

  function Before(ls: Lengths, d: nat): int {
    if d <= 10 then 0 else Before(ls, d - 1) + Inner(ls, d - 1)
  }

  /** A number for every interior node. */
  function Rank(ls: Lengths, x: (nat, nat)): int {
    Before(ls, x.0) + x.1 - End(ls, x.0)
  }

  lemma InnerNext(ls: Lengths, d: nat)
    ensures Inner(ls, d + 1) == 2 * Inner(ls, d) - Count(ls, d + 1)
  {
    EndIs(ls, d);
  }

  lemma {:induction false} LongCounts(ls: Lengths, n: nat)
    requires n <= |ls|
    ensures CountTo(ls, n, 11) + CountTo(ls, n, 12) + CountTo(ls, n, 13) + CountTo(ls, n, 14) + CountTo(ls, n, 15) <= n
  {
    if n > 0 { LongCounts(ls, n - 1); }
  }

  /** A full binary tree has one interior node less than it has leaves. */
  lemma InnerTotal(ls: Lengths)
    requires Complete(ls)
    ensures Before(ls, 15) <= |ls| && (Before(ls, 15) == |ls| ==> |ls| == 0)
    ensures forall d :: 10 <= d <= 14 ==>
      Inner(ls, d) >= 0 && 0 <= Before(ls, d) <= Before(ls, d) + Inner(ls, d) <= Before(ls, 15)
  {
    hide Count, CountTo, First, End, Pow;
    Room(ls, 10); Room(ls, 11); Room(ls, 12); Room(ls, 13); Room(ls, 14);
    InnerNext(ls, 10); InnerNext(ls, 11); InnerNext(ls, 12); InnerNext(ls, 13); InnerNext(ls, 14);
    EndIs(ls, 15);
    Powers();
    assert Inner(ls, 15) == 0;
    LongSum(ls);
    assert Before(ls, 11) == Inner(ls, 10);
    assert Before(ls, 12) == Before(ls, 11) + Inner(ls, 11);
    assert Before(ls, 13) == Before(ls, 12) + Inner(ls, 12);
    assert Before(ls, 14) == Before(ls, 13) + Inner(ls, 13);
    assert Before(ls, 15) == Before(ls, 14) + Inner(ls, 14);
  }

  lemma LongSum(ls: Lengths)
    ensures Count(ls, 11) + Count(ls, 12) + Count(ls, 13) + Count(ls, 14) + Count(ls, 15) <= |ls|
  {
    LongCounts(ls, |ls|);
  }

  lemma RankRange(ls: Lengths, x: (nat, nat))
    requires Complete(ls) && Interior(ls, x.0, x.1)
    ensures Before(ls, x.0) <= Rank(ls, x) < Before(ls, x.0) + Inner(ls, x.0) && 0 <= Rank(ls, x) < Before(ls, 15)
  {
    hide Before, First, End, Count, Pow;
    InnerTotal(ls);
  }

  lemma {:induction false} BeforeGrows(ls: Lengths, d: nat, e: nat)
    requires Complete(ls) && 10 <= d < e <= 15
    ensures Before(ls, d) + Inner(ls, d) <= Before(ls, e)
  {
    if d + 1 < e {
      BeforeGrows(ls, d, e - 1);
      InnerTotal(ls);
    }
  }

  lemma RankDistinct(ls: Lengths, x: (nat, nat), y: (nat, nat))
    requires Complete(ls) && Interior(ls, x.0, x.1) && Interior(ls, y.0, y.1) && x != y
    ensures Rank(ls, x) != Rank(ls, y)
  {
    RankRange(ls, x);
    RankRange(ls, y);
    if x.0 < y.0 { BeforeGrows(ls, x.0, y.0); }
    if y.0 < x.0 { BeforeGrows(ls, y.0, x.0); }
  }

  lemma {:induction false} Pigeons(s: seq<int>, t: nat)
    requires forall i :: 0 <= i < |s| ==> 0 <= s[i] < t
    requires forall i, j :: 0 <= i < j < |s| ==> s[i] != s[j]
    ensures |s| <= t
    decreases t
  {
    assert |s| > 0 ==> 0 <= s[0] < t;
    if t == 0 {
    } else if (t - 1) in s {
      var i :| 0 <= i < |s| && s[i] == t - 1;
      var r := s[..i] + s[i + 1..];
      Pigeons(r, t - 1);
    } else {
      Pigeons(s, t - 1);
    }
  }

  /** For a complete code the second table never overflows: fewer pairs than symbols. */
  lemma RoomForNames(ls: Lengths, names: Names)
    requires Complete(ls) && NamesOk(ls, names) && names != []
    ensures |names| < |ls|
  {
    hide Interior, Rank, Before;
    var ranks := seq(|names|, i requires 0 <= i < |names| => Rank(ls, names[i]));
    forall i | 0 <= i < |names| ensures 0 <= ranks[i] < Before(ls, 15) { RankRange(ls, names[i]); }
    forall i, j | 0 <= i < j < |names| ensures ranks[i] != ranks[j] { RankDistinct(ls, names[i], names[j]); }
    assert 0 <= ranks[0] < Before(ls, 15);
    InnerTotal(ls);
    Pigeons(ranks, Before(ls, 15));
  }
}
