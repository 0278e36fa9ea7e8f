/** What unlinking a chunk does to a trie in memory: taking it out of its chain or taking the
    replacement leaf off its branch, and giving the replacement the place of the removed node. */
module TrieUnlink {
  import opened WordMemory
  import opened Trie
  import opened Seqs
  import opened TrieLinks
  import Ring

  // ----- taking the rightmost leaf off -----

  /** The address of the word that points to the leaf, and the node above the leaf. */
  function LeafSlot(t: Tree, slot: int): int
    requires t.Node?
  {
    if t.right.Node? then LeafSlot(t.right, Root(t) + CHILD1)
    else if t.left.Node? then LeafSlot(t.left, Root(t) + CHILD0)
    else slot
  }

  function LeafPar(t: Tree, par: int): int
    requires t.Node?
  {
    if t.right.Node? then LeafPar(t.right, Root(t))
    else if t.left.Node? then LeafPar(t.left, Root(t))
    else par
  }

  predicate IsLeaf(t: Tree) {
    t.Node? && t.left.Nil? && t.right.Nil?
  }

  lemma {:induction false} LeafPlace(m: Mem, t: Tree, par: int, slot: int, bin: int)
    requires t.Node? && Links(m, t, par, bin) && Apart(t)
    ensures IsLeaf(t) ==> LeafSlot(t, slot) == slot
    ensures !IsLeaf(t) ==> LeafPar(t, par) in Ptrs(t) - SetOf(Leaf(t).chain)
    ensures !IsLeaf(t) ==>
      LeafSlot(t, slot) == LeafPar(t, par) + CHILD0 || LeafSlot(t, slot) == LeafPar(t, par) + CHILD1
  {
    RootOf(m, t, par, bin);
    if t.right.Node? {
      LeafInside(t.right);
      LeafPlace(m, t.right, Root(t), Root(t) + CHILD1, bin);
    } else if t.left.Node? {
      LeafInside(t.left);
      LeafPlace(m, t.left, Root(t), Root(t) + CHILD0, bin);
    }
  }

  lemma {:induction false} LeafNode(m: Mem, t: Tree, par: int, slot: int, bin: int)
    requires t.Node? && Links(m, t, par, bin) && Rd(m, slot) == Root(t)
    ensures NodeAt(m, Leaf(t).chain, LeafPar(t, par), bin, 0, 0)
    ensures Rd(m, LeafSlot(t, slot)) == Leaf(t).chain[0]
  {
    if t.right.Node? {
      LeafNode(m, t.right, Root(t), Root(t) + CHILD1, bin);
    } else if t.left.Node? {
      LeafNode(m, t.left, Root(t), Root(t) + CHILD0, bin);
    }
  }

  lemma WriteUntouched(m: Mem, e: int, w: int, ps: set<int>)
    ensures Untouched(m, Wr(m, e, w), ps, e)
  {
  }

  /** Clearing the word that points to the leaf leaves the pruned trie. */
  lemma {:induction false} PruneLinks(m: Mem, t: Tree, par: int, slot: int, bin: int)
    requires t.Node? && Links(m, t, par, bin) && Rd(m, slot) == Root(t) && Apart(t) && Spread(Ptrs(t))
    requires !LinkWord(slot, Ptrs(t))
    ensures Links(Wr(m, LeafSlot(t, slot), 0), Pruned(t), par, bin)
    ensures Rd(Wr(m, LeafSlot(t, slot), 0), slot) == Root(Pruned(t))
    decreases t, 1
  {
    if !IsLeaf(t) {
      LeafPlace(m, t, par, slot, bin);
      LeafSlotNot(m, t, par, slot, bin);
      if t.right.Node? {
        PruneRight(m, t, par, slot, bin);
      } else {
        PruneLeft(m, t, par, slot, bin);
      }
    }
  }

  lemma LeafSlotNot(m: Mem, t: Tree, par: int, slot: int, bin: int)
    requires t.Node? && Links(m, t, par, bin) && Apart(t) && !IsLeaf(t) && !LinkWord(slot, Ptrs(t))
    ensures slot != LeafSlot(t, slot)
  {
    LeafPlace(m, t, par, slot, bin);
    var q := LeafPar(t, par);
    assert q in Ptrs(t);
    assert !(q + FD <= slot < q + 32);
  }

  lemma {:induction false} PruneRight(m: Mem, t: Tree, par: int, slot: int, bin: int)
    requires t.Node? && Links(m, t, par, bin) && Apart(t) && Spread(Ptrs(t)) && t.right.Node?
    ensures Links(Wr(m, LeafSlot(t, slot), 0), Pruned(t), par, bin)
    decreases t, 0
  {
    var e, q := LeafSlot(t, slot), LeafPar(t, par);
    var m' := Wr(m, e, 0);
    RootOf(m, t, par, bin);
    SlotApart(Ptrs(t), t.chain[0], t.chain[0] + CHILD1, Ptrs(t.right));
    PruneLinks(m, t.right, Root(t), Root(t) + CHILD1, bin);
    LeafPlace(m, t.right, Root(t), Root(t) + CHILD1, bin);
    LeafPlace(m, t, par, slot, bin);
    WriteUntouched(m, e, 0, Ptrs(t));
    assert q == t.chain[0] || q in Ptrs(t.right);
    UntouchedElsewhere(m, m', Ptrs(t), Ptrs(t.left), q, e);
    LinksFrame(m, m', t.left, Root(t), bin);
    NodeStep(m, m', t.chain, par, bin, Root(t.left), Root(t.right), Root(t.left), Root(Pruned(t.right)), Ptrs(t), q, e);
  }

  lemma {:induction false} PruneLeft(m: Mem, t: Tree, par: int, slot: int, bin: int)
    requires t.Node? && Links(m, t, par, bin) && Apart(t) && Spread(Ptrs(t)) && t.right.Nil? && t.left.Node?
    ensures Links(Wr(m, LeafSlot(t, slot), 0), Pruned(t), par, bin)
    decreases t, 0
  {
    var e, q := LeafSlot(t, slot), LeafPar(t, par);
    var m' := Wr(m, e, 0);
    RootOf(m, t, par, bin);
    SlotApart(Ptrs(t), t.chain[0], t.chain[0] + CHILD0, Ptrs(t.left));
    PruneLinks(m, t.left, Root(t), Root(t) + CHILD0, bin);
    LeafPlace(m, t.left, Root(t), Root(t) + CHILD0, bin);
    LeafPlace(m, t, par, slot, bin);
    WriteUntouched(m, e, 0, Ptrs(t));
    assert q == t.chain[0] || q in Ptrs(t.left);
    NodeStep(m, m', t.chain, par, bin, Root(t.left), 0, Root(Pruned(t.left)), 0, Ptrs(t), q, e);
  }

  // ----- giving the replacement the removed node's place -----

  /** The stores that hang the children of x below r, and r below xp. */
  function Adopt(m: Mem, x: int, r: int, xp: int): Mem {
    var m1 := Wr(m, r + PARENT, xp);
    var c0 := Rd(m1, x + CHILD0);
    var m2 := if c0 != 0 then Wr(Wr(m1, r + CHILD0, c0), c0 + PARENT, r) else m1;
    var c1 := Rd(m2, x + CHILD1);
    if c1 != 0 then Wr(Wr(m2, r + CHILD1, c1), c1 + PARENT, r) else m2
  }

  ghost predicate Far(p: int, q: int) {
    p + 32 <= q || q + 32 <= p
  }

  function AdoptWords(r: int, c0: int, c1: int): set<int> {
    {r + PARENT, r + CHILD0, r + CHILD1} + (if c0 != 0 then {c0 + PARENT} else {}) + (if c1 != 0 then {c1 + PARENT}
      else {})
  }

  lemma AdoptEffect(m: Mem, x: int, r: int, xp: int, c0: int, c1: int)
    requires Rd(m, x + CHILD0) == c0 && Rd(m, x + CHILD1) == c1 && Rd(m, r + CHILD0) == 0 && Rd(m, r + CHILD1) == 0
    requires Far(x, r) && (c0 != 0 ==> Far(c0, x) && Far(c0, r)) && (c1 != 0 ==> Far(c1, x) && Far(c1, r))
    requires c0 != 0 && c1 != 0 ==> Far(c0, c1)
    ensures var m' := Adopt(m, x, r, xp);
      && Rd(m', r + PARENT) == xp && Rd(m', r + CHILD0) == c0 && Rd(m', r + CHILD1) == c1
      && (c0 != 0 ==> Rd(m', c0 + PARENT) == r) && (c1 != 0 ==> Rd(m', c1 + PARENT) == r)
      && forall a :: a !in AdoptWords(r, c0, c1) ==> Rd(m', a) == Rd(m, a)
  {
  }

  /** A subtree whose root now names another parent. */
  lemma Reparent(m: Mem, m': Mem, t: Tree, par: int, par': int, bin: int)
    requires Links(m, t, par, bin) && Apart(t) && Spread(Ptrs(t))
    requires t.Node? ==> Rd(m', Root(t) + PARENT) == par' && Untouched(m, m', Ptrs(t), Root(t) + PARENT)
    ensures Links(m', t, par', bin)
  {
    if t.Node? {
      var c := t.chain;
      RootOf(m, t, par, bin);
      forall qs | qs <= Ptrs(t) && c[0] !in qs ensures SameLinks(m, m', qs) {
        forall p, a | p in qs && p + FD <= a < p + 32 ensures Rd(m', a) == Rd(m, a) {
          assert p in Ptrs(t) && c[0] in Ptrs(t);
        }
      }
      LinksFrame(m, m', t.left, c[0], bin);
      LinksFrame(m, m', t.right, c[0], bin);
      ReparentNode(m, m', c, par, par', bin, Root(t.left), Root(t.right), Ptrs(t));
    }
  }

  lemma ReparentNode(m: Mem, m': Mem, c: seq<int>, par: int, par': int, bin: int, l: int, r: int, all: set<int>)
    requires NodeAt(m, c, par, bin, l, r) && SetOf(c) <= all && Spread(all)
    requires Untouched(m, m', all, c[0] + PARENT) && Rd(m', c[0] + PARENT) == par'
    ensures NodeAt(m', c, par', bin, l, r)
  {
    assert c[0] in SetOf(c);
    forall k | 0 <= k < |c|
      ensures forall a :: c[k] + FD <= a < c[k] + 32 && a != c[0] + PARENT ==> Rd(m', a) == Rd(m, a)
      ensures k > 0 ==> Far(c[k], c[0])
    {
      assert c[k] in SetOf(c);
    }
    Ring.Frame(m, m', c);
    forall k | 1 <= k < |c| ensures Cleared(m', c[k]) {
      assert Cleared(m, c[k]);
    }
  }

  /** A chain without tree links: what a node's chain looks like before it is put in place. */
  ghost predicate Orphan(m: Mem, d: seq<int>, bin: int) {
    && d != [] && Ring.IsRing(m, d) && Rd(m, d[0] + CHILD0) == 0 && Rd(m, d[0] + CHILD1) == 0
    && (forall k :: 0 <= k < |d| ==> d[k] > 0 && Rd(m, d[k] + INDEX) == bin)
    && (forall k :: 1 <= k < |d| ==> Cleared(m, d[k]))
  }

  lemma OrphanNode(m: Mem, m': Mem, d: seq<int>, bin: int, par: int, l: int, r: int)
    requires Orphan(m, d, bin) && Spread(SetOf(d))
    requires Rd(m', d[0] + PARENT) == par && Rd(m', d[0] + CHILD0) == l && Rd(m', d[0] + CHILD1) == r
    requires forall p, a ::
      p in SetOf(d) && p + FD <= a < p + 32 && a != d[0] + PARENT && a != d[0] + CHILD0 && a != d[0] + CHILD1 ==>
        Rd(m', a) == Rd(m, a)
    ensures NodeAt(m', d, par, bin, l, r)
  {
    assert d[0] in SetOf(d);
    forall k | 0 <= k < |d|
      ensures forall a ::
        d[k] + FD <= a < d[k] + 32 && a != d[0] + PARENT && a != d[0] + CHILD0 && a != d[0] + CHILD1 ==>
          Rd(m', a) == Rd(m, a)
      ensures k > 0 ==> Far(d[k], d[0])
    {
      assert d[k] in SetOf(d);
    }
    Ring.Frame(m, m', d);
    forall k | 1 <= k < |d| ensures Cleared(m', d[k]) {
      assert Cleared(m, d[k]);
    }
  }

  /** The node x, its children in place, handed over to the chain d. */
  ghost predicate Handover(m: Mem, x: int, slot: int, bin: int, d: seq<int>, l: Tree, r: Tree) {
    && x > 0 && Orphan(m, d, bin)
    && Rd(m, x + CHILD0) == Root(l) && Rd(m, x + CHILD1) == Root(r)
    && Links(m, l, x, bin) && Links(m, r, x, bin) && Apart(l) && Apart(r)
    && x !in SetOf(d) && x !in Ptrs(l) && x !in Ptrs(r)
    && SetOf(d) !! Ptrs(l) && SetOf(d) !! Ptrs(r) && Ptrs(l) !! Ptrs(r)
    && Spread(Involved(x, d, l, r)) && !LinkWord(slot, Involved(x, d, l, r))
  }

  function Involved(x: int, d: seq<int>, l: Tree, r: Tree): set<int> {
    SetOf(d) + {x} + Ptrs(l) + Ptrs(r)
  }

  /** The chunks that take part lie apart from each other and from the slot. */
  lemma HandoverFar(m: Mem, x: int, slot: int, bin: int, d: seq<int>, l: Tree, r: Tree)
    requires Handover(m, x, slot, bin, d, l, r)
    ensures d != [] && Rd(m, d[0] + CHILD0) == 0 && Rd(m, d[0] + CHILD1) == 0
    ensures Far(x, d[0]) && (l.Node? <==> Root(l) != 0) && (r.Node? <==> Root(r) != 0)
    ensures l.Node? ==> Far(Root(l), x) && Far(Root(l), d[0])
    ensures r.Node? ==> Far(Root(r), x) && Far(Root(r), d[0])
    ensures l.Node? && r.Node? ==> Far(Root(l), Root(r))
    ensures d[0] in Involved(x, d, l, r) && x in Involved(x, d, l, r)
    ensures (l.Node? ==> Root(l) in Involved(x, d, l, r)) && (r.Node? ==> Root(r) in Involved(x, d, l, r))
  {
    RootOf(m, l, x, bin);
    RootOf(m, r, x, bin);
    assert d[0] in SetOf(d);
    hide Links, Ring.IsRing, NodeAt, Apart, NoDup, LinkWord;
    var all := Involved(x, d, l, r);
    assert d[0] in all && x in all;
    if l.Node? { assert Root(l) in all; }
    if r.Node? { assert Root(r) in all; }
  }

  lemma HandoverSlot(m: Mem, x: int, slot: int, bin: int, d: seq<int>, l: Tree, r: Tree)
    requires Handover(m, x, slot, bin, d, l, r)
    ensures !LinkWord(slot, Involved(x, d, l, r)) && Rd(m, x + CHILD0) == Root(l) && Rd(m, x + CHILD1) == Root(r)
  {
  }

  lemma SlotFar(slot: int, all: set<int>, p: int)
    requires !LinkWord(slot, all) && p in all
    ensures !(p + FD <= slot < p + 32)
  {
  }

  lemma HandoverStores(m: Mem, x: int, slot: int, xp: int, bin: int, d: seq<int>, l: Tree, r: Tree)
    requires Handover(m, x, slot, bin, d, l, r)
    ensures var m' := Adopt(Wr(m, slot, d[0]), x, d[0], xp);
      && Rd(m', d[0] + PARENT) == xp && Rd(m', d[0] + CHILD0) == Root(l) && Rd(m', d[0] + CHILD1) == Root(r)
      && (l.Node? ==> Rd(m', Root(l) + PARENT) == d[0]) && (r.Node? ==> Rd(m', Root(r) + PARENT) == d[0])
      && Rd(m', slot) == d[0]
      && (forall a :: a !in AdoptWords(d[0], Root(l), Root(r)) && a != slot ==> Rd(m', a) == Rd(m, a))
  {
    hide Handover, Involved, LinkWord, Adopt, Root;
    HandoverFar(m, x, slot, bin, d, l, r);
    HandoverSlot(m, x, slot, bin, d, l, r);
    var all, m1 := Involved(x, d, l, r), Wr(m, slot, d[0]);
    SlotFar(slot, all, x);
    SlotFar(slot, all, d[0]);
    if l.Node? { SlotFar(slot, all, Root(l)); }
    if r.Node? { SlotFar(slot, all, Root(r)); }
    ChildWordsKept(m, slot, d[0], x);
    ChildWordsKept(m, slot, d[0], d[0]);
    AdoptEffect(m1, x, d[0], xp, Root(l), Root(r));
  }

  lemma ChildWordsKept(m: Mem, slot: int, v: int, p: int)
    requires !(p + FD <= slot < p + 32)
    ensures Rd(Wr(m, slot, v), p + CHILD0) == Rd(m, p + CHILD0) && Rd(Wr(m, slot, v), p + CHILD1) == Rd(m, p + CHILD1)
  {
  }

  lemma HandoverFrame(m: Mem, m': Mem, x: int, slot: int, bin: int, d: seq<int>, l: Tree, r: Tree)
    requires Handover(m, x, slot, bin, d, l, r)
    requires forall a :: a !in AdoptWords(d[0], Root(l), Root(r)) && a != slot ==> Rd(m', a) == Rd(m, a)
    ensures OnlyLinks(m, m', Involved(x, d, l, r), slot)
  {
    HandoverFar(m, x, slot, bin, d, l, r);
    hide Handover, Involved;
    var all := Involved(x, d, l, r);
    forall a | a != slot && !LinkWord(a, all) ensures Rd(m', a) == Rd(m, a) {
      SlotFar(a, all, d[0]);
      if l.Node? { SlotFar(a, all, Root(l)); }
      if r.Node? { SlotFar(a, all, Root(r)); }
    }
  }

  /** A word of chunk p that no store of the hand-over reaches. */
  lemma HandoverKeeps(m: Mem, m': Mem, x: int, slot: int, bin: int, d: seq<int>, l: Tree, r: Tree, p: int, a: int)
    requires Handover(m, x, slot, bin, d, l, r)
    requires forall a :: a !in AdoptWords(d[0], Root(l), Root(r)) && a != slot ==> Rd(m', a) == Rd(m, a)
    requires p in Involved(x, d, l, r) && p + FD <= a < p + 32
    requires p == d[0] ==> a != p + CHILD0 && a != p + CHILD1 && a != p + PARENT
    requires (l.Node? && p == Root(l)) || (r.Node? && p == Root(r)) ==> a != p + PARENT
    ensures Rd(m', a) == Rd(m, a)
  {
    hide Handover, Involved, LinkWord, Root, Far, Rd;
    HandoverFar(m, x, slot, bin, d, l, r);
    HandoverApart(m, x, slot, bin, d, l, r);
    HandoverSlot(m, x, slot, bin, d, l, r);
    SlotFar(slot, Involved(x, d, l, r), p);
  }

  lemma HandoverApart(m: Mem, x: int, slot: int, bin: int, d: seq<int>, l: Tree, r: Tree)
    requires Handover(m, x, slot, bin, d, l, r)
    ensures Spread(Involved(x, d, l, r))
  {
  }

  lemma HandoverChild(m: Mem, m': Mem, x: int, slot: int, bin: int, d: seq<int>, l: Tree, r: Tree, t: Tree)
    requires Handover(m, x, slot, bin, d, l, r) && (t == l || t == r)
    requires forall a :: a !in AdoptWords(d[0], Root(l), Root(r)) && a != slot ==> Rd(m', a) == Rd(m, a)
    requires t.Node? ==> Rd(m', Root(t) + PARENT) == d[0]
    ensures Links(m', t, d[0], bin)
  {
    RootOf(m, l, x, bin);
    RootOf(m, r, x, bin);
    SpreadSubset(Involved(x, d, l, r), Ptrs(t));
    if t.Node? {
      assert d[0] in SetOf(d);
      forall p, a | p in Ptrs(t) && p + FD <= a < p + 32 && a != Root(t) + PARENT ensures Rd(m', a) == Rd(m, a) {
        HandoverKeeps(m, m', x, slot, bin, d, l, r, p, a);
      }
    }
    Reparent(m, m', t, x, d[0], bin);
  }

  lemma HandoverSelf(m: Mem, m': Mem, x: int, slot: int, xp: int, bin: int, d: seq<int>, l: Tree, r: Tree)
    requires Handover(m, x, slot, bin, d, l, r)
    requires forall a :: a !in AdoptWords(d[0], Root(l), Root(r)) && a != slot ==> Rd(m', a) == Rd(m, a)
    requires Rd(m', d[0] + PARENT) == xp && Rd(m', d[0] + CHILD0) == Root(l) && Rd(m', d[0] + CHILD1) == Root(r)
    ensures NodeAt(m', d, xp, bin, Root(l), Root(r))
  {
    RootOf(m, l, x, bin);
    RootOf(m, r, x, bin);
    SpreadSubset(Involved(x, d, l, r), SetOf(d));
    hide Links, Ring.IsRing, NodeAt, Apart, NoDup, Spread, LinkWord;
    forall p, a | p in SetOf(d) && p + FD <= a < p + 32 && a != d[0] + PARENT && a != d[0] + CHILD0
      && a != d[0] + CHILD1
      ensures Rd(m', a) == Rd(m, a)
    {
      HandoverKeeps(m, m', x, slot, bin, d, l, r, p, a);
    }
    OrphanNode(m, m', d, bin, xp, Root(l), Root(r));
  }

  /** The replacement ends up where the removed node was. */
  lemma AdoptLinks(m: Mem, x: int, slot: int, xp: int, bin: int, d: seq<int>, l: Tree, r: Tree, size: int)
    requires Handover(m, x, slot, bin, d, l, r)
    ensures var m' := Adopt(Wr(m, slot, d[0]), x, d[0], xp);
      Links(m', Node(size, d, l, r), xp, bin) && Rd(m', slot) == d[0] && OnlyLinks(m, m', Involved(x, d, l, r), slot)
  {
    var m' := Adopt(Wr(m, slot, d[0]), x, d[0], xp);
    HandoverStores(m, x, slot, xp, bin, d, l, r);
    HandoverFrame(m, m', x, slot, bin, d, l, r);
    HandoverChild(m, m', x, slot, bin, d, l, r, l);
    HandoverChild(m, m', x, slot, bin, d, l, r, r);
    HandoverSelf(m, m', x, slot, xp, bin, d, l, r);
  }

  // ----- unlinking as a whole -----

  /** All the stores of unlinking chunk x from node u, to which the word at `slot` points and whose
      parent link is xp. */
  function UnlinkStores(m: Mem, u: Tree, x: int, slot: int, xp: int): Mem
    requires u.Node? && x in u.chain
  {
    if |u.chain| >= 2 then
      var m1 := Ring.Remove(m, x);
      if x == u.chain[0] then Adopt(Wr(m1, slot, Rd(m, x + BK)), x, Rd(m, x + BK), xp) else m1
    else if u.right.Node? then
      var r := Root(Leaf(u.right));
      Adopt(Wr(Wr(m, LeafSlot(u.right, x + CHILD1), 0), slot, r), x, r, xp)
    else if u.left.Node? then
      var r := Root(Leaf(u.left));
      Adopt(Wr(Wr(m, LeafSlot(u.left, x + CHILD0), 0), slot, r), x, r, xp)
    else Wr(m, slot, 0)
  }

  ghost predicate Unlinkable(m: Mem, u: Tree, x: int, slot: int, xp: int, bin: int) {
    && u.Node? && x in u.chain && Links(m, u, xp, bin) && Apart(u) && Spread(Ptrs(u))
    && Rd(m, slot) == Root(u) && !LinkWord(slot, Ptrs(u))
  }

  ghost predicate Unlinked(m: Mem, m': Mem, u: Tree, x: int, slot: int, xp: int, bin: int)
    requires u.Node? && x in u.chain
  {
    && Links(m', Shrunk(u, x), xp, bin) && Rd(m', slot) == Root(Shrunk(u, x))
    && OnlyLinks(m, m', Ptrs(u), slot)
  }

  lemma RemoveFrame(m: Mem, c: seq<int>, x: int)
    requires Ring.IsRing(m, c) && x in c
    ensures Within(m, Ring.Remove(m, x), SetOf(c))
  {
    var k :| 0 <= k < |c| && c[k] == x;
    assert Ring.LinkedAt(m, c, k);
    var f, b := Rd(m, x + FD), Rd(m, x + BK);
    assert f in SetOf(c) && b in SetOf(c);
    forall a | !LinkWord(a, SetOf(c)) ensures Rd(Ring.Remove(m, x), a) == Rd(m, a) {
      assert !(f + FD <= a < f + 32) && !(b + FD <= a < b + 32);
    }
  }

  /** The tree links of the chain's members survive. */
  lemma RemoveKeeps(m: Mem, c: seq<int>, x: int, p: int, a: int)
    requires Ring.IsRing(m, c) && x in c && p in c && p + CHILD0 <= a < p + 32 && Spread(SetOf(c))
    ensures Rd(Ring.Remove(m, x), a) == Rd(m, a)
  {
    var k :| 0 <= k < |c| && c[k] == x;
    assert Ring.LinkedAt(m, c, k);
    var f, b := Rd(m, x + FD), Rd(m, x + BK);
    assert f in SetOf(c) && b in SetOf(c) && p in SetOf(c);
  }

  /** The subtrees of a node whose chain changed. */
  lemma ChildrenKept(m: Mem, m': Mem, u: Tree, par: int, bin: int)
    requires u.Node? && Links(m, u, par, bin) && Apart(u) && Spread(Ptrs(u)) && Within(m, m', SetOf(u.chain))
    ensures Links(m', u.left, u.chain[0], bin) && Links(m', u.right, u.chain[0], bin)
  {
    WithinFrame(m, m', SetOf(u.chain), Ptrs(u.left), Ptrs(u));
    WithinFrame(m, m', SetOf(u.chain), Ptrs(u.right), Ptrs(u));
    LinksFrame(m, m', u.left, u.chain[0], bin);
    LinksFrame(m, m', u.right, u.chain[0], bin);
  }

  /** The chain with its k-th element, not the first, taken out. */
  lemma ShortNode(m: Mem, c: seq<int>, par: int, bin: int, l: int, r: int, k: nat)
    requires NodeAt(m, c, par, bin, l, r) && 0 < k < |c| && Spread(SetOf(c))
    ensures NodeAt(Ring.Remove(m, c[k]), Without(c, k), par, bin, l, r)
    ensures Rd(m, c[k] + PARENT) == 0
  {
    var m', d := Ring.Remove(m, c[k]), Without(c, k);
    Ring.RemoveRing(m, c, k);
    WithoutAt(c, k);
    hide Without;
    assert Cleared(m, c[k]);
    forall i, a | 0 <= i < |c| && c[i] + CHILD0 <= a < c[i] + 32 ensures Rd(m', a) == Rd(m, a) {
      RemoveKeeps(m, c, c[k], c[i], a);
    }
    assert d[0] == c[0];
    forall i | 0 <= i < |d| ensures d[i] > 0 && Rd(m', d[i] + INDEX) == bin && (i > 0 ==> Cleared(m', d[i])) {
      var j := if i < k then i else i + 1;
      assert d[i] == c[j];
      if i > 0 { assert Cleared(m, c[j]); }
    }
  }

  /** A node whose chain changed, its subtrees being the same. */
  lemma NewChain(m: Mem, m': Mem, u: Tree, slot: int, xp: int, bin: int, d: seq<int>)
    requires u.Node? && Links(m, u, xp, bin) && Apart(u) && Spread(Ptrs(u)) && !LinkWord(slot, Ptrs(u))
    requires Within(m, m', SetOf(u.chain)) && NodeAt(m', d, xp, bin, Root(u.left), Root(u.right)) && d[0] == u.chain[0]
    ensures Links(m', u.(chain := d), xp, bin) && Rd(m', slot) == Rd(m, slot) && OnlyLinks(m, m', Ptrs(u), slot)
  {
    WithinWider(m, m', SetOf(u.chain), Ptrs(u));
    ChildrenKept(m, m', u, xp, bin);
  }

  /** A chunk that is not the head of its chain. */
  lemma UnlinkChained(m: Mem, u: Tree, x: int, slot: int, xp: int, bin: int)
    requires Unlinkable(m, u, x, slot, xp, bin) && x != u.chain[0]
    ensures Unlinked(m, Ring.Remove(m, x), u, x, slot, xp, bin)
    ensures Rd(m, x + PARENT) == 0
  {
    hide LinkWord;
    var k := IndexOf(u.chain, x);
    SpreadSubset(Ptrs(u), SetOf(u.chain));
    ShortNode(m, u.chain, xp, bin, Root(u.left), Root(u.right), k);
    RemoveFrame(m, u.chain, x);
    NewChain(m, Ring.Remove(m, x), u, slot, xp, bin, Without(u.chain, k));
  }

  lemma HeadOrphan(m: Mem, c: seq<int>, par: int, bin: int, l: int, r: int)
    requires NodeAt(m, c, par, bin, l, r) && |c| >= 2 && Spread(SetOf(c))
    ensures Orphan(Ring.Remove(m, c[0]), Rotated(c), bin)
    ensures Rd(Ring.Remove(m, c[0]), c[0] + CHILD0) == l && Rd(Ring.Remove(m, c[0]), c[0] + CHILD1) == r
  {
    var m', d := Ring.Remove(m, c[0]), Rotated(c);
    RotatedAt(c);
    hide Rotated;
    Ring.RemoveFirstRing(m, c);
    forall i, a | 0 <= i < |c| && c[i] + CHILD0 <= a < c[i] + 32 ensures Rd(m', a) == Rd(m, a) {
      RemoveKeeps(m, c, c[0], c[i], a);
    }
    forall i | 0 <= i < |d| ensures d[i] > 0 && Rd(m', d[i] + INDEX) == bin && Cleared(m', d[i]) {
      assert Cleared(m, c[if i == 0 then |c| - 1 else i]);
    }
  }

  lemma HeadParts(m: Mem, u: Tree, x: int, xp: int, bin: int)
    requires u.Node? && Links(m, u, xp, bin) && Apart(u) && Spread(Ptrs(u)) && x == u.chain[0] && |u.chain| >= 2
    ensures var m1 := Ring.Remove(m, x);
      && Orphan(m1, Rotated(u.chain), bin) && Rd(m1, x + CHILD0) == Root(u.left) && Rd(m1, x + CHILD1) == Root(u.right)
      && Links(m1, u.left, x, bin) && Links(m1, u.right, x, bin) && Within(m, m1, Ptrs(u))
  {
    hide LinkWord;
    hide Orphan;
    hide Rotated;
    SpreadSubset(Ptrs(u), SetOf(u.chain));
    HeadOrphan(m, u.chain, xp, bin, Root(u.left), Root(u.right));
    RemoveFrame(m, u.chain, x);
    WithinWider(m, Ring.Remove(m, x), SetOf(u.chain), Ptrs(u));
    ChildrenKept(m, Ring.Remove(m, x), u, xp, bin);
  }

  lemma SetParts(d: set<int>, c: set<int>, x: int, l: set<int>, r: set<int>)
    requires d == c - {x} && x in c && c !! l && c !! r && l !! r
    ensures x !in d && x !in l && x !in r && d !! l && d !! r && d + {x} + l + r == c + l + r
  {
  }

  lemma HeadSets(u: Tree)
    requires u.Node? && Apart(u) && |u.chain| >= 2
    ensures var d, x, l, r := SetOf(Rotated(u.chain)), u.chain[0], Ptrs(u.left), Ptrs(u.right);
      && x !in d && x !in l && x !in r && d !! l && d !! r && l !! r && d + {x} + l + r == Ptrs(u)
      && Apart(u.left) && Apart(u.right)
  {
    RotatedSet(u.chain);
    assert u.chain[0] in SetOf(u.chain);
    SetParts(SetOf(Rotated(u.chain)), SetOf(u.chain), u.chain[0], Ptrs(u.left), Ptrs(u.right));
  }

  /** The head of a chain of several: the last chunk of the chain takes over. */
  lemma HeadHandover(m: Mem, u: Tree, x: int, slot: int, xp: int, bin: int)
    requires Unlinkable(m, u, x, slot, xp, bin) && x == u.chain[0] && |u.chain| >= 2
    ensures Handover(Ring.Remove(m, x), x, slot, bin, Rotated(u.chain), u.left, u.right)
    ensures Involved(x, Rotated(u.chain), u.left, u.right) == Ptrs(u)
    ensures Within(m, Ring.Remove(m, x), Ptrs(u))
  {
    hide LinkWord, Orphan, Rotated, Within, Spread, NodeAt, NoDup, Ring.IsRing, Links;
    RootOf(m, u, xp, bin);
    HeadParts(m, u, x, xp, bin);
    HeadSets(u);
    hide Apart, Ptrs;
  }

  lemma UnlinkHead(m: Mem, u: Tree, x: int, slot: int, xp: int, bin: int)
    requires Unlinkable(m, u, x, slot, xp, bin) && x == u.chain[0] && |u.chain| >= 2
    ensures Unlinked(m, UnlinkStores(m, u, x, slot, xp), u, x, slot, xp, bin)
  {
    hide LinkWord;
    var d := Rotated(u.chain);
    var m1 := Ring.Remove(m, x);
    HeadHandover(m, u, x, slot, xp, bin);
    Ring.RemoveFirstRing(m, u.chain);
    AdoptLinks(m1, x, slot, xp, bin, d, u.left, u.right, u.size);
    WithinThen(m, m1, UnlinkStores(m, u, x, slot, xp), Ptrs(u), Ptrs(u), slot);
  }

  lemma WithinThen(m: Mem, m1: Mem, m2: Mem, ps: set<int>, all: set<int>, slot: int)
    requires Within(m, m1, ps) && ps <= all && OnlyLinks(m1, m2, all, slot)
    ensures OnlyLinks(m, m2, all, slot)
  {
    WithinWider(m, m1, ps, all);
  }

  /** A chunk alone in its chain, with a right subtree: the subtree's rightmost leaf takes over. */
  lemma UnlinkByRight(m: Mem, u: Tree, x: int, slot: int, xp: int, bin: int)
    requires Unlinkable(m, u, x, slot, xp, bin) && |u.chain| == 1 && u.right.Node?
    ensures Unlinked(m, UnlinkStores(m, u, x, slot, xp), u, x, slot, xp, bin)
  {
    hide LinkWord, Links, Spread, NodeAt, Within, Apart;
    var m1 := Wr(m, LeafSlot(u.right, x + CHILD1), 0);
    RightHandover(m, u, x, slot, xp, bin);
    AdoptLinks(m1, x, slot, xp, bin, Leaf(u.right).chain, u.left, Pruned(u.right), Leaf(u.right).size);
    WithinThen(m, m1, UnlinkStores(m, u, x, slot, xp), Ptrs(u), Ptrs(u), slot);
  }

  lemma RightParts(m: Mem, u: Tree, x: int, xp: int, bin: int)
    requires u.Node? && x in u.chain && Links(m, u, xp, bin) && Apart(u) && Spread(Ptrs(u)) && |u.chain| == 1
      && u.right.Node?
    ensures var m1 := Wr(m, LeafSlot(u.right, x + CHILD1), 0);
      && Orphan(m1, Leaf(u.right).chain, bin) && Rd(m1, x + CHILD1) == Root(Pruned(u.right))
        && Rd(m1, x + CHILD0) == Root(u.left)
      && Links(m1, Pruned(u.right), x, bin) && Links(m1, u.left, x, bin) && Within(m, m1, Ptrs(u))
  {
    assert x in SetOf(u.chain);
    SpreadSubset(Ptrs(u), Ptrs(u.right));
    SlotApart(Ptrs(u), x, x + CHILD1, Ptrs(u.right));
    hide LinkWord, Spread, Ring.IsRing;
    PruneLinks(m, u.right, x, x + CHILD1, bin);
    TakenLeaf(m, u.right, x, x + CHILD1, bin, Ptrs(u));
    TakenElsewhere(m, u.right, x, x + CHILD1, bin, u.left, x + CHILD0, Ptrs(u));
  }

  lemma RightApart(u: Tree, x: int)
    requires u.Node? && u.chain == [x] && Apart(u) && u.right.Node?
    ensures var d, l, r := Leaf(u.right).chain, u.left, Pruned(u.right);
      && Apart(l) && Apart(r) && x !in SetOf(d) && x !in Ptrs(l) && x !in Ptrs(r)
      && SetOf(d) !! Ptrs(l) && SetOf(d) !! Ptrs(r) && Ptrs(l) !! Ptrs(r)
      && Involved(x, d, l, r) == Ptrs(u)
  {
    PrunedPtrs(u.right);
    PrunedApart(u.right);
    LeafInside(u.right);
    assert x in SetOf(u.chain) && SetOf(u.chain) == {x};
  }

  lemma RightHandover(m: Mem, u: Tree, x: int, slot: int, xp: int, bin: int)
    requires Unlinkable(m, u, x, slot, xp, bin) && |u.chain| == 1 && u.right.Node?
    ensures Handover(Wr(m, LeafSlot(u.right, x + CHILD1), 0), x, slot, bin, Leaf(u.right).chain, u.left,
      Pruned(u.right))
    ensures Involved(x, Leaf(u.right).chain, u.left, Pruned(u.right)) == Ptrs(u)
    ensures Within(m, Wr(m, LeafSlot(u.right, x + CHILD1), 0), Ptrs(u))
  {
    RootOf(m, u, xp, bin);
    RightParts(m, u, x, xp, bin);
    assert u.chain == [x];
    RightApart(u, x);
    hide LinkWord, Orphan, Links, Within, Spread, NodeAt, NoDup, Ring.IsRing, Apart, Involved, Ptrs, Leaf, Pruned,
      LeafSlot, SetOf;
  }

  lemma UnlinkByLeft(m: Mem, u: Tree, x: int, slot: int, xp: int, bin: int)
    requires Unlinkable(m, u, x, slot, xp, bin) && |u.chain| == 1 && u.right.Nil? && u.left.Node?
    ensures Unlinked(m, UnlinkStores(m, u, x, slot, xp), u, x, slot, xp, bin)
  {
    hide LinkWord, Links, Spread, NodeAt, Within, Apart;
    var m1 := Wr(m, LeafSlot(u.left, x + CHILD0), 0);
    LeftHandover(m, u, x, slot, xp, bin);
    AdoptLinks(m1, x, slot, xp, bin, Leaf(u.left).chain, Pruned(u.left), u.right, Leaf(u.left).size);
    WithinThen(m, m1, UnlinkStores(m, u, x, slot, xp), Ptrs(u), Ptrs(u), slot);
  }

  lemma LeftParts(m: Mem, u: Tree, x: int, xp: int, bin: int)
    requires u.Node? && x in u.chain && Links(m, u, xp, bin) && Apart(u) && Spread(Ptrs(u)) && |u.chain| == 1
      && u.left.Node?
    ensures var m1 := Wr(m, LeafSlot(u.left, x + CHILD0), 0);
      && Orphan(m1, Leaf(u.left).chain, bin) && Rd(m1, x + CHILD0) == Root(Pruned(u.left))
        && Rd(m1, x + CHILD1) == Root(u.right)
      && Links(m1, Pruned(u.left), x, bin) && Links(m1, u.right, x, bin) && Within(m, m1, Ptrs(u))
  {
    assert x in SetOf(u.chain);
    SpreadSubset(Ptrs(u), Ptrs(u.left));
    SlotApart(Ptrs(u), x, x + CHILD0, Ptrs(u.left));
    hide LinkWord, Spread, Ring.IsRing;
    PruneLinks(m, u.left, x, x + CHILD0, bin);
    TakenLeaf(m, u.left, x, x + CHILD0, bin, Ptrs(u));
    TakenElsewhere(m, u.left, x, x + CHILD0, bin, u.right, x + CHILD1, Ptrs(u));
  }

  lemma LeftApart(u: Tree, x: int)
    requires u.Node? && u.chain == [x] && Apart(u) && u.left.Node?
    ensures var d, l, r := Leaf(u.left).chain, Pruned(u.left), u.right;
      && Apart(l) && Apart(r) && x !in SetOf(d) && x !in Ptrs(l) && x !in Ptrs(r)
      && SetOf(d) !! Ptrs(l) && SetOf(d) !! Ptrs(r) && Ptrs(l) !! Ptrs(r)
      && Involved(x, d, l, r) == Ptrs(u)
  {
    PrunedPtrs(u.left);
    PrunedApart(u.left);
    LeafInside(u.left);
    assert x in SetOf(u.chain) && SetOf(u.chain) == {x};
  }

  lemma LeftHandover(m: Mem, u: Tree, x: int, slot: int, xp: int, bin: int)
    requires Unlinkable(m, u, x, slot, xp, bin) && |u.chain| == 1 && u.right.Nil? && u.left.Node?
    ensures Handover(Wr(m, LeafSlot(u.left, x + CHILD0), 0), x, slot, bin, Leaf(u.left).chain, Pruned(u.left), u.right)
    ensures Involved(x, Leaf(u.left).chain, Pruned(u.left), u.right) == Ptrs(u)
    ensures Within(m, Wr(m, LeafSlot(u.left, x + CHILD0), 0), Ptrs(u))
  {
    RootOf(m, u, xp, bin);
    LeftParts(m, u, x, xp, bin);
    assert u.chain == [x];
    LeftApart(u, x);
    hide LinkWord, Orphan, Links, Within, Spread, NodeAt, NoDup, Ring.IsRing, Apart, Involved, Ptrs, Leaf, Pruned,
      LeafSlot, SetOf;
  }

  /** The leaf, once its link is cleared, is a chain without tree links. */
  lemma TakenLeaf(m: Mem, t: Tree, x: int, slot: int, bin: int, all: set<int>)
    requires t.Node? && Links(m, t, x, bin) && Rd(m, slot) == Root(t) && Apart(t) && Spread(all)
    requires Ptrs(t) <= all && x in all && x !in Ptrs(t) && (slot == x + CHILD0 || slot == x + CHILD1)
    ensures Orphan(Wr(m, LeafSlot(t, slot), 0), Leaf(t).chain, bin)
    ensures Within(m, Wr(m, LeafSlot(t, slot), 0), all)
  {
    var e, d := LeafSlot(t, slot), Leaf(t).chain;
    var q := if IsLeaf(t) then x else LeafPar(t, x);
    var m1 := Wr(m, e, 0);
    LeafPlace(m, t, x, slot, bin);
    LeafNode(m, t, x, slot, bin);
    LeafInside(t);
    WriteUntouched(m, e, 0, all);
    UntouchedElsewhere(m, m1, all, SetOf(d), q, e);
    NodeFrame(m, m1, d, LeafPar(t, x), bin, 0, 0);
    forall a | !LinkWord(a, all) ensures Rd(m1, a) == Rd(m, a) {
      assert !(q + FD <= a < q + 32);
    }
  }

  /** The other subtree, and the link to it, stay. */
  lemma TakenElsewhere(m: Mem, t: Tree, x: int, slot: int, bin: int, o: Tree, oslot: int, all: set<int>)
    requires t.Node? && Links(m, t, x, bin) && Apart(t) && Spread(all) && Links(m, o, x, bin)
    requires Ptrs(t) <= all && Ptrs(o) <= all && x in all && x !in Ptrs(t) && x !in Ptrs(o) && Ptrs(t) !! Ptrs(o)
    requires (slot == x + CHILD0 && oslot == x + CHILD1) || (slot == x + CHILD1 && oslot == x + CHILD0)
    ensures Links(Wr(m, LeafSlot(t, slot), 0), o, x, bin) && Rd(Wr(m, LeafSlot(t, slot), 0), oslot) == Rd(m, oslot)
  {
    var e := LeafSlot(t, slot);
    var q := if IsLeaf(t) then x else LeafPar(t, x);
    LeafPlace(m, t, x, slot, bin);
    WriteUntouched(m, e, 0, all);
    UntouchedElsewhere(m, Wr(m, e, 0), all, Ptrs(o), q, e);
    LinksFrame(m, Wr(m, e, 0), o, x, bin);
  }

  /** Unlinking x leaves the node `Shrunk` in its place and touches nothing outside. */
  lemma UnlinkCorrect(m: Mem, u: Tree, x: int, slot: int, xp: int, bin: int)
    requires Unlinkable(m, u, x, slot, xp, bin)
    ensures Unlinked(m, UnlinkStores(m, u, x, slot, xp), u, x, slot, xp, bin)
  {
    if |u.chain| >= 2 {
      if x == u.chain[0] {
        UnlinkHead(m, u, x, slot, xp, bin);
      } else {
        UnlinkChained(m, u, x, slot, xp, bin);
      }
    } else if u.right.Node? {
      UnlinkByRight(m, u, x, slot, xp, bin);
    } else if u.left.Node? {
      UnlinkByLeft(m, u, x, slot, xp, bin);
    }
  }
}
