/** How a trie is laid out in memory: which words of its chunks hold which links, and what the word
    writes of chunk insertion and chunk unlinking do to it. */
module TrieLinks {
  import opened WordMemory
  import opened Trie
  import opened Seqs
  import Ring

  /** One node: the ring of its chain, the tree links in the head of the chain, and cleared tree links
      in the others. */
  ghost predicate NodeAt(m: Mem, chain: seq<int>, par: int, bin: int, l: int, r: int) {
    && chain != [] && Ring.IsRing(m, chain)
    && Rd(m, chain[0] + PARENT) == par && Rd(m, chain[0] + CHILD0) == l && Rd(m, chain[0] + CHILD1) == r
    && (forall k :: 0 <= k < |chain| ==> chain[k] > 0 && Rd(m, chain[k] + INDEX) == bin)
    && (forall k :: 1 <= k < |chain| ==> Cleared(m, chain[k]))
  }

  ghost predicate Cleared(m: Mem, p: int) {
    Rd(m, p + PARENT) == 0 && Rd(m, p + CHILD0) == 0 && Rd(m, p + CHILD1) == 0
  }

  ghost predicate Links(m: Mem, t: Tree, par: int, bin: int) {
    match t
    case Nil => true
    case Node(_, chain, l, r) =>
      NodeAt(m, chain, par, bin, Root(l), Root(r)) && Links(m, l, chain[0], bin) && Links(m, r, chain[0], bin)
  }

  /** The link fields of two different chunks never overlap. */
  ghost predicate Spread(ps: set<int>) {
    forall p, q :: p in ps && q in ps && p != q ==> p + 32 <= q || q + 32 <= p
  }

  /** a is a link word of one of the chunks. */
  ghost predicate LinkWord(a: int, ps: set<int>) {
    exists p :: p in ps && p + FD <= a < p + INDEX + 4
  }

  /** Only link words of `ps` and the word at `slot` differ. */
  ghost predicate OnlyLinks(m: Mem, m': Mem, ps: set<int>, slot: int) {
    forall a :: a != slot && !LinkWord(a, ps) ==> Rd(m', a) == Rd(m, a)
  }

  /** Only link words of `ps` differ. */
  ghost predicate Within(m: Mem, m': Mem, ps: set<int>) {
    forall a :: !LinkWord(a, ps) ==> Rd(m', a) == Rd(m, a)
  }

  lemma NodeFrame(m: Mem, m': Mem, chain: seq<int>, par: int, bin: int, l: int, r: int)
    requires NodeAt(m, chain, par, bin, l, r) && SameLinks(m, m', SetOf(chain))
    ensures NodeAt(m', chain, par, bin, l, r)
  {
    forall k | 0 <= k < |chain| ensures forall a :: chain[k] + FD <= a < chain[k] + 32 ==> Rd(m', a) == Rd(m, a) {
      assert chain[k] in SetOf(chain);
    }
    Ring.Frame(m, m', chain);
    forall k | 1 <= k < |chain| ensures Cleared(m', chain[k]) {
      assert Cleared(m, chain[k]);
    }
  }

  lemma {:induction false} LinksFrame(m: Mem, m': Mem, t: Tree, par: int, bin: int)
    requires Links(m, t, par, bin) && SameLinks(m, m', Ptrs(t))
    ensures Links(m', t, par, bin)
  {
    if t.Node? {
      NodeFrame(m, m', t.chain, par, bin, Root(t.left), Root(t.right));
      LinksFrame(m, m', t.left, t.chain[0], bin);
      LinksFrame(m, m', t.right, t.chain[0], bin);
    }
  }

  lemma RootOf(m: Mem, t: Tree, par: int, bin: int)
    requires Links(m, t, par, bin)
    ensures t.Node? ==> Root(t) > 0 && Root(t) in Ptrs(t) && Rd(m, Root(t) + PARENT) == par
    ensures t.Nil? <==> Root(t) == 0
  {
    if t.Node? {
      assert t.chain[0] in t.chain;
    }
  }

  // ----- the place where the walk to a size ends -----

  /** The address of the word that points to the subtree, and the node it belongs to. */
  function SlotOf(t: Tree, slot: int, lo: int, b: nat, s: int): int
    decreases t
  {
    if t.Nil? || t.size == s || b == 0 then slot
    else if s < Mid(lo, b) then SlotOf(t.left, Root(t) + CHILD0, lo, b - 1, s)
    else SlotOf(t.right, Root(t) + CHILD1, Mid(lo, b), b - 1, s)
  }

  function ParOf(t: Tree, par: int, lo: int, b: nat, s: int): int
    decreases t
  {
    if t.Nil? || t.size == s || b == 0 then par
    else if s < Mid(lo, b) then ParOf(t.left, Root(t), lo, b - 1, s)
    else ParOf(t.right, Root(t), Mid(lo, b), b - 1, s)
  }

  predicate Stops(t: Tree, b: nat, s: int) {
    t.Nil? || t.size == s || b == 0
  }

  lemma {:induction false} SlotPlace(m: Mem, t: Tree, par: int, slot: int, bin: int, lo: int, b: nat, s: int)
    requires Links(m, t, par, bin) && !Stops(t, b, s)
    ensures ParOf(t, par, lo, b, s) in Ptrs(t)
    ensures SlotOf(t, slot, lo, b, s) == ParOf(t, par, lo, b, s) + CHILD0
      || SlotOf(t, slot, lo, b, s) == ParOf(t, par, lo, b, s) + CHILD1
    decreases t
  {
    RootOf(m, t, par, bin);
    if s < Mid(lo, b) {
      if !Stops(t.left, b - 1, s) { SlotPlace(m, t.left, Root(t), Root(t) + CHILD0, bin, lo, b - 1, s); }
    } else {
      if !Stops(t.right, b - 1, s) { SlotPlace(m, t.right, Root(t), Root(t) + CHILD1, bin, Mid(lo, b), b - 1, s); }
    }
  }

  lemma {:induction false} SubLinks(m: Mem, t: Tree, par: int, slot: int, bin: int, lo: int, b: nat, s: int)
    requires Links(m, t, par, bin) && Rd(m, slot) == Root(t)
    ensures Links(m, Sub(t, lo, b, s), ParOf(t, par, lo, b, s), bin)
    ensures Rd(m, SlotOf(t, slot, lo, b, s)) == Root(Sub(t, lo, b, s))
    decreases t
  {
    if t.Nil? || t.size == s || b == 0 {
    } else if s < Mid(lo, b) {
      SubLinks(m, t.left, Root(t), Root(t) + CHILD0, bin, lo, b - 1, s);
    } else {
      SubLinks(m, t.right, Root(t), Root(t) + CHILD1, bin, Mid(lo, b), b - 1, s);
    }
  }

  /** The link words of `ps` are the same, apart from the word at e. */
  ghost predicate Untouched(m: Mem, m': Mem, ps: set<int>, e: int) {
    forall p, a :: p in ps && p + FD <= a < p + 32 && a != e ==> Rd(m', a) == Rd(m, a)
  }

  lemma UntouchedSubset(m: Mem, m': Mem, ps: set<int>, qs: set<int>, e: int)
    requires Untouched(m, m', ps, e) && qs <= ps
    ensures Untouched(m, m', qs, e)
  {
    forall p, a | p in qs && p + FD <= a < p + 32 && a != e ensures Rd(m', a) == Rd(m, a) {
      assert p in ps;
    }
  }

  /** When e belongs to another chunk, none of the link words of `qs` changed. */
  lemma UntouchedElsewhere(m: Mem, m': Mem, ps: set<int>, qs: set<int>, q: int, e: int)
    requires Untouched(m, m', ps, e) && qs <= ps && Spread(ps)
    requires q in ps && q !in qs && (e == q + CHILD0 || e == q + CHILD1)
    ensures SameLinks(m, m', qs)
  {
    forall p, a | p in qs && p + FD <= a < p + 32 ensures Rd(m', a) == Rd(m, a) {
      assert p in ps;
    }
  }

  /** A node with new child links. */
  lemma NodeNewChild(m: Mem, m': Mem, chain: seq<int>, par: int, bin: int, l: int, r: int, l': int, r': int, e: int)
    requires NodeAt(m, chain, par, bin, l, r) && Spread(SetOf(chain))
    requires Untouched(m, m', SetOf(chain), e)
    requires e == chain[0] + CHILD0 || e == chain[0] + CHILD1
    requires Rd(m', chain[0] + CHILD0) == l' && Rd(m', chain[0] + CHILD1) == r'
    ensures NodeAt(m', chain, par, bin, l', r')
  {
    assert chain[0] in SetOf(chain);
    forall k | 0 <= k < |chain|
      ensures forall a :: chain[k] + FD <= a < chain[k] + 32 && a != e ==> Rd(m', a) == Rd(m, a)
      ensures k > 0 ==> chain[k] + 32 <= chain[0] || chain[0] + 32 <= chain[k]
    {
      assert chain[k] in SetOf(chain);
    }
    Ring.Frame(m, m', chain);
    forall k | 0 <= k < |chain| ensures chain[k] > 0 && Rd(m', chain[k] + INDEX) == bin {
    }
    forall k | 1 <= k < |chain| ensures Cleared(m', chain[k]) {
      assert Cleared(m, chain[k]);
    }
  }

  lemma NodeStep(m: Mem, m': Mem, chain: seq<int>, par: int, bin: int, l: int, r: int, l': int, r': int,
      rest: set<int>, q: int, e: int)
    requires NodeAt(m, chain, par, bin, l, r) && Spread(rest) && SetOf(chain) <= rest
    requires Untouched(m, m', rest, e)
    requires q in rest && (e == q + CHILD0 || e == q + CHILD1) && (q == chain[0] || q !in chain)
    requires Rd(m', chain[0] + CHILD0) == l' && Rd(m', chain[0] + CHILD1) == r'
    ensures NodeAt(m', chain, par, bin, l', r')
  {
    if q == chain[0] {
      UntouchedSubset(m, m', rest, SetOf(chain), e);
      NodeNewChild(m, m', chain, par, bin, l, r, l', r', e);
    } else {
      UntouchedElsewhere(m, m', rest, SetOf(chain), q, e);
      assert chain[0] in SetOf(chain);
      NodeFrame(m, m', chain, par, bin, l, r);
    }
  }

  /** The node whose link is replaced is not part of what is replaced. */
  lemma {:induction false} QNotInSub(m: Mem, t: Tree, par: int, slot: int, bin: int, lo: int, b: nat, s: int)
    requires Links(m, t, par, bin) && !Stops(t, b, s) && Apart(t)
    ensures ParOf(t, par, lo, b, s) in Ptrs(t) - Ptrs(Sub(t, lo, b, s))
    decreases t
  {
    RootOf(m, t, par, bin);
    if s < Mid(lo, b) {
      SubInside(t.left, lo, b - 1, s);
      if !Stops(t.left, b - 1, s) { QNotInSub(m, t.left, Root(t), slot, bin, lo, b - 1, s); }
    } else {
      SubInside(t.right, Mid(lo, b), b - 1, s);
      if !Stops(t.right, b - 1, s) { QNotInSub(m, t.right, Root(t), slot, bin, Mid(lo, b), b - 1, s); }
    }
  }

  /** Where the replaced link lies, seen from a node above it. */
  lemma SlotStep(m: Mem, t: Tree, par: int, slot: int, bin: int, lo: int, b: nat, s: int)
    requires Links(m, t, par, bin) && Apart(t) && !Stops(t, b, s)
    ensures var e, q, rest := SlotOf(t, slot, lo, b, s), ParOf(t, par, lo, b, s), Ptrs(t) - Ptrs(Sub(t, lo, b, s));
      var c, o := if s < Mid(lo, b) then t.left else t.right, if s < Mid(lo, b) then t.right else t.left;
      && q in rest && (e == q + CHILD0 || e == q + CHILD1) && (q == t.chain[0] || q in Ptrs(c))
      && SetOf(t.chain) <= rest && t.chain[0] in rest && Ptrs(o) <= rest
      && Ptrs(Sub(t, lo, b, s)) <= Ptrs(c) <= Ptrs(t) && Ptrs(c) - Ptrs(Sub(t, lo, b, s)) <= rest
      && q !in Ptrs(o) && q in Ptrs(t) && t.chain[0] in Ptrs(t) && (q == t.chain[0] || q !in t.chain)
      && (!Stops(c, b - 1, s) ==> q in Ptrs(c) && t.chain[0] !in Ptrs(c))
  {
    RootOf(m, t, par, bin);
    QNotInSub(m, t, par, slot, bin, lo, b, s);
    SlotPlace(m, t, par, slot, bin, lo, b, s);
    if s < Mid(lo, b) {
      SubInside(t.left, lo, b - 1, s);
      if !Stops(t.left, b - 1, s) { SlotPlace(m, t.left, Root(t), Root(t) + CHILD0, bin, lo, b - 1, s); }
    } else {
      SubInside(t.right, Mid(lo, b), b - 1, s);
      if !Stops(t.right, b - 1, s) { SlotPlace(m, t.right, Root(t), Root(t) + CHILD1, bin, Mid(lo, b), b - 1, s); }
    }
  }

  /** Replacing the subtree in memory, everything outside it staying as it was. */
  lemma {:induction false} SubstLinks(m: Mem, m': Mem, t: Tree, par: int, slot: int, bin: int, lo: int, b: nat,
      s: int, u: Tree)
    requires Links(m, t, par, bin) && Rd(m, slot) == Root(t) && Apart(t) && Spread(Ptrs(t))
    requires Links(m', u, ParOf(t, par, lo, b, s), bin) && Rd(m', SlotOf(t, slot, lo, b, s)) == Root(u)
    requires Untouched(m, m', Ptrs(t) - Ptrs(Sub(t, lo, b, s)), SlotOf(t, slot, lo, b, s))
    requires Stops(t, b, s) || Rd(m', slot) == Rd(m, slot)
    ensures Links(m', Subst(t, lo, b, s, u), par, bin) && Rd(m', slot) == Root(Subst(t, lo, b, s, u))
    decreases t, 1
  {
    if !Stops(t, b, s) {
      if s < Mid(lo, b) {
        SubstLeft(m, m', t, par, slot, bin, lo, b, s, u);
      } else {
        SubstRight(m, m', t, par, slot, bin, lo, b, s, u);
      }
    }
  }

  lemma {:induction false} SubstLeft(m: Mem, m': Mem, t: Tree, par: int, slot: int, bin: int, lo: int, b: nat, s: int,
      u: Tree)
    requires Links(m, t, par, bin) && Rd(m, slot) == Root(t) && Apart(t) && Spread(Ptrs(t))
    requires Links(m', u, ParOf(t, par, lo, b, s), bin) && Rd(m', SlotOf(t, slot, lo, b, s)) == Root(u)
    requires Untouched(m, m', Ptrs(t) - Ptrs(Sub(t, lo, b, s)), SlotOf(t, slot, lo, b, s))
    requires !Stops(t, b, s) && s < Mid(lo, b)
    requires Stops(t, b, s) || Rd(m', slot) == Rd(m, slot)
    ensures Links(m', Subst(t, lo, b, s, u), par, bin) && Rd(m', slot) == Root(Subst(t, lo, b, s, u))
    decreases t, 0
  {
    var e, q, rest := SlotOf(t, slot, lo, b, s), ParOf(t, par, lo, b, s), Ptrs(t) - Ptrs(Sub(t, lo, b, s));
    SlotStep(m, t, par, slot, bin, lo, b, s);
    SpreadSubset(Ptrs(t), rest);
    SpreadSubset(Ptrs(t), Ptrs(t.left));
    assert Apart(t.left);
    hide NodeAt, Ring.IsRing, LinkWord, NoDup, SameLinks, Apart, Ptrs;
    UntouchedSubset(m, m', rest, Ptrs(t.left) - Ptrs(Sub(t.left, lo, b - 1, s)), e);
    assert Stops(t.left, b - 1, s) || Rd(m', Root(t) + CHILD0) == Rd(m, Root(t) + CHILD0);
    SubstLinks(m, m', t.left, Root(t), Root(t) + CHILD0, bin, lo, b - 1, s, u);
    UntouchedElsewhere(m, m', rest, Ptrs(t.right), q, e);
    LinksFrame(m, m', t.right, Root(t), bin);
    NodeStep(m, m', t.chain, par, bin, Root(t.left), Root(t.right), Root(Subst(t.left, lo, b - 1, s, u)),
      Root(t.right), rest, q, e);
  }

  lemma {:induction false} SubstRight(m: Mem, m': Mem, t: Tree, par: int, slot: int, bin: int, lo: int, b: nat,
      s: int, u: Tree)
    requires Links(m, t, par, bin) && Rd(m, slot) == Root(t) && Apart(t) && Spread(Ptrs(t))
    requires Links(m', u, ParOf(t, par, lo, b, s), bin) && Rd(m', SlotOf(t, slot, lo, b, s)) == Root(u)
    requires Untouched(m, m', Ptrs(t) - Ptrs(Sub(t, lo, b, s)), SlotOf(t, slot, lo, b, s))
    requires !Stops(t, b, s) && s >= Mid(lo, b)
    requires Stops(t, b, s) || Rd(m', slot) == Rd(m, slot)
    ensures Links(m', Subst(t, lo, b, s, u), par, bin) && Rd(m', slot) == Root(Subst(t, lo, b, s, u))
    decreases t, 0
  {
    var e, q, rest := SlotOf(t, slot, lo, b, s), ParOf(t, par, lo, b, s), Ptrs(t) - Ptrs(Sub(t, lo, b, s));
    SlotStep(m, t, par, slot, bin, lo, b, s);
    SpreadSubset(Ptrs(t), rest);
    SpreadSubset(Ptrs(t), Ptrs(t.right));
    assert Apart(t.right);
    hide NodeAt, Ring.IsRing, LinkWord, NoDup, SameLinks, Apart, Ptrs;
    UntouchedSubset(m, m', rest, Ptrs(t.right) - Ptrs(Sub(t.right, Mid(lo, b), b - 1, s)), e);
    assert Stops(t.right, b - 1, s) || Rd(m', Root(t) + CHILD1) == Rd(m, Root(t) + CHILD1);
    SubstLinks(m, m', t.right, Root(t), Root(t) + CHILD1, bin, Mid(lo, b), b - 1, s, u);
    UntouchedElsewhere(m, m', rest, Ptrs(t.left), q, e);
    LinksFrame(m, m', t.left, Root(t), bin);
    NodeStep(m, m', t.chain, par, bin, Root(t.left), Root(t.right), Root(t.left),
      Root(Subst(t.right, Mid(lo, b), b - 1, s, u)), rest, q, e);
  }

  // ----- insertion -----

  /** The stores made on x before the walk. */
  function Prepare(m: Mem, x: int, bin: int): Mem {
    Wr(Wr(Wr(m, x + INDEX, bin), x + CHILD0, 0), x + CHILD1, 0)
  }

  /** The stores made when the walk ends at an empty link. */
  function Hang(m: Mem, x: int, slot: int, par: int): Mem {
    Wr(Wr(Wr(Wr(m, slot, x), x + PARENT, par), x + FD, x), x + BK, x)
  }

  /** The stores made when the walk ends at a node of the same size. */
  function Chain(m: Mem, x: int, t: int): Mem {
    Wr(Ring.Insert(m, t, x), x + PARENT, 0)
  }

  ghost predicate Prepared(m: Mem, x: int, bin: int) {
    Rd(m, x + INDEX) == bin && Rd(m, x + CHILD0) == 0 && Rd(m, x + CHILD1) == 0
  }

  lemma HangLinks(m: Mem, x: int, slot: int, par: int, bin: int, s: int)
    requires Prepared(m, x, bin) && x > 0 && !(x + FD <= slot < x + 32)
    ensures Links(Hang(m, x, slot, par), Node(s, [x], Nil, Nil), par, bin)
    ensures Rd(Hang(m, x, slot, par), slot) == x
    ensures OnlyLinks(m, Hang(m, x, slot, par), {x}, slot)
  {
    var m' := Hang(m, x, slot, par);
    assert Ring.LinkedAt(m', [x], 0);
    forall a | a != slot && !LinkWord(a, {x}) ensures Rd(m', a) == Rd(m, a) {
      assert x in {x};
      assert !(x + FD <= a < x + 32);
    }
  }

  lemma ChainFrame(m: Mem, c: seq<int>, x: int)
    requires Ring.IsRing(m, c) && c != []
    ensures Within(m, Chain(m, x, c[0]), SetOf(c) + {x})
  {
    assert Ring.LinkedAt(m, c, 0);
    var f := Rd(m, c[0] + FD);
    var m' := Chain(m, x, c[0]);
    forall a | !LinkWord(a, SetOf(c) + {x}) ensures Rd(m', a) == Rd(m, a) {
      assert f in SetOf(c) + {x} && x in SetOf(c) + {x} && c[0] in SetOf(c) + {x};
      assert !(x + FD <= a < x + 32) && !(f + FD <= a < f + 32) && !(c[0] + FD <= a < c[0] + 32);
    }
  }

  lemma ChainNode(m: Mem, c: seq<int>, par: int, bin: int, l: int, r: int, x: int)
    requires NodeAt(m, c, par, bin, l, r) && Prepared(m, x, bin) && x !in c && x > 0
    requires Spread(SetOf(c) + {x})
    ensures NodeAt(Chain(m, x, c[0]), Second(c, x), par, bin, l, r)
  {
    forall k | 0 <= k < |c| ensures c[k] + 32 <= x
      || x + 32 <= c[k] { assert c[k] in SetOf(c) + {x} && x in SetOf(c) + {x}; }
    ChainRing(m, c, x);
    ChainNodeRest(m, c, par, bin, l, r, x);
  }

  lemma ChainRing(m: Mem, c: seq<int>, x: int)
    requires Ring.IsRing(m, c) && c != []
    requires forall k :: 0 <= k < |c| ==> c[k] + 32 <= x || x + 32 <= c[k]
    ensures Ring.IsRing(Chain(m, x, c[0]), Second(c, x))
  {
    SecondAt(c, x);
    Ring.InsertRing(m, c, x);
    var d := Second(c, x);
    hide Second;
    forall k | 0 <= k < |d| ensures d[k] == x || d[k] + 32 <= x || x + 32 <= d[k] { }
    hide Ring.IsRing;
    Ring.Frame(Ring.Insert(m, c[0], x), Chain(m, x, c[0]), d);
  }

  /** The chain's tree links and indices are out of reach of the ring stores. */
  lemma ChainKeeps(m: Mem, c: seq<int>, x: int, i: nat, a: int)
    requires Ring.IsRing(m, c) && i < |c| && x !in c && Spread(SetOf(c) + {x})
    requires c[i] + CHILD0 <= a < c[i] + 32
    ensures Rd(Chain(m, x, c[0]), a) == Rd(m, a)
  {
    var f := Rd(m, c[0] + FD);
    assert Ring.LinkedAt(m, c, 0);
    assert f in SetOf(c) + {x} && x in SetOf(c) + {x} && c[0] in SetOf(c) + {x} && c[i] in SetOf(c) + {x};
    hide Spread;
    assert c[i] == f || c[i] + 32 <= f || f + 32 <= c[i];
  }

  lemma ChainNodeRest(m: Mem, c: seq<int>, par: int, bin: int, l: int, r: int, x: int)
    requires NodeAt(m, c, par, bin, l, r) && Prepared(m, x, bin) && x !in c && x > 0
    requires forall k :: 0 <= k < |c| ==> c[k] + 32 <= x || x + 32 <= c[k]
    requires Spread(SetOf(c) + {x})
    ensures var m', d := Chain(m, x, c[0]), Second(c, x);
      && Rd(m', c[0] + PARENT) == par && Rd(m', c[0] + CHILD0) == l && Rd(m', c[0] + CHILD1) == r
      && d != [] && d[0] == c[0]
      && (forall k :: 0 <= k < |d| ==> d[k] > 0 && Rd(m', d[k] + INDEX) == bin)
      && (forall k :: 1 <= k < |d| ==> Cleared(m', d[k]))
  {
    var m', d := Chain(m, x, c[0]), Second(c, x);
    SecondAt(c, x);
    assert Ring.LinkedAt(m, c, 0);
    assert Prepared(m', x, bin) && Rd(m', x + PARENT) == 0;
    hide Second;
    hide Chain;
    hide Spread;
    hide Ring.IsRing;
    forall i, a | 0 <= i < |c| && c[i] + CHILD0 <= a < c[i] + 32 ensures Rd(m', a) == Rd(m, a) {
      ChainKeeps(m, c, x, i, a);
    }
    forall k | 1 <= k < |d| ensures d[k] > 0 && Rd(m', d[k] + INDEX) == bin && Cleared(m', d[k]) {
      if k > 1 { assert Cleared(m, c[k - 1]); }
    }
  }

  lemma WithinFrame(m: Mem, m': Mem, ps: set<int>, qs: set<int>, all: set<int>)
    requires Within(m, m', ps) && ps <= all && qs <= all && ps !! qs && Spread(all)
    ensures SameLinks(m, m', qs)
  {
    forall q, a | q in qs && q + FD <= a < q + 32 ensures Rd(m', a) == Rd(m, a) {
      forall p | p in ps ensures !(p + FD <= a < p + 32) {
        assert p in all && q in all && p != q;
      }
    }
  }

  lemma WithinWider(m: Mem, m': Mem, ps: set<int>, all: set<int>)
    requires Within(m, m', ps) && ps <= all
    ensures Within(m, m', all)
  {
    forall a | !LinkWord(a, all) ensures Rd(m', a) == Rd(m, a) {
      forall p | p in ps ensures !(p + FD <= a < p + 32) {
        assert p in all;
      }
    }
  }

  lemma ChainLinks(m: Mem, u: Tree, par: int, bin: int, x: int)
    requires u.Node? && Links(m, u, par, bin) && Prepared(m, x, bin) && x !in Ptrs(u) && x > 0
    requires Apart(u) && Spread(Ptrs(u) + {x})
    ensures Links(Chain(m, x, u.chain[0]), Grown(u, x, u.size), par, bin)
    ensures Within(m, Chain(m, x, u.chain[0]), Ptrs(u) + {x})
  {
    var m' := Chain(m, x, u.chain[0]);
    var all, ps := Ptrs(u) + {x}, SetOf(u.chain) + {x};
    SpreadSubset(all, ps);
    ChainNode(m, u.chain, par, bin, Root(u.left), Root(u.right), x);
    ChainFrame(m, u.chain, x);
    WithinFrame(m, m', ps, Ptrs(u.left), all);
    WithinFrame(m, m', ps, Ptrs(u.right), all);
    LinksFrame(m, m', u.left, u.chain[0], bin);
    LinksFrame(m, m', u.right, u.chain[0], bin);
    WithinWider(m, m', ps, all);
  }

  lemma SpreadSubset(all: set<int>, ps: set<int>)
    requires Spread(all) && ps <= all
    ensures Spread(ps)
  {
    forall p, q | p in ps && q in ps && p != q ensures p + 32 <= q || q + 32 <= p {
      assert p in all && q in all;
    }
  }

  /** A word of one chunk is not a link word of other chunks. */
  lemma SlotApart(all: set<int>, p: int, a: int, qs: set<int>)
    requires Spread(all) && p in all && qs <= all && p !in qs && p + FD <= a < p + 32
    ensures !LinkWord(a, qs)
  {
    forall q | q in qs ensures !(q + FD <= a < q + 32) {
      assert q in all;
    }
  }
}
