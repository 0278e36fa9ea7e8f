/** What the unlink code reads on its way: facts about the removed chunk, its ring neighbours, its
    replacement and the word that points to it. */
module UnlinkSteps {
  import opened WordMemory
  import opened Seqs
  import opened Trie
  import opened TrieLinks
  import opened TrieUnlink
  import opened TrieStores
  import opened HeapBins
  import opened HeapSound
  import opened TreeIndex
  import Ring

  /** Taking x off its chain, or the replacement leaf off its branch. */
  function Detached(m: Mem, u: Tree, x: int): Mem
    requires u.Node?
  {
    if |u.chain| >= 2 then Ring.Remove(m, x)
    else if u.right.Node? then Wr(m, LeafSlot(u.right, x + CHILD1), 0)
    else if u.left.Node? then Wr(m, LeafSlot(u.left, x + CHILD0), 0)
    else m
  }

  /** The chunk that takes the place of x, or 0. */
  function Replacement(m: Mem, u: Tree, x: int): int
    requires u.Node?
  {
    if |u.chain| >= 2 then Rd(m, x + BK)
    else if u.right.Node? then Root(Leaf(u.right))
    else if u.left.Node? then Root(Leaf(u.left))
    else 0
  }

  /** Unlinking is detaching, and for the head of a chain putting the replacement in place. */
  lemma StoresSplit(m: Mem, u: Tree, x: int, slot: int, xp: int, bin: int)
    requires Unlinkable(m, u, x, slot, xp, bin)
    ensures var m1, r := Detached(m, u, x), Replacement(m, u, x);
      UnlinkStores(m, u, x, slot, xp) ==
        if x != u.chain[0] then m1 else if r != 0 then Adopt(Wr(m1, slot, r), x, r, xp) else Wr(m1, slot, 0)
    ensures Replacement(m, u, x) == 0 <==> |u.chain| == 1 && u.left.Nil? && u.right.Nil?
  {
    NodeReads(m, u, x, slot, xp, bin);
    hide Links, Spread, LinkWord, Trie.Apart, Adopt, NodeAt, Ring.Remove;
    if |u.chain| == 1 {
      assert x == u.chain[0];
      if u.right.Node? { LeafRoot(m, u.right, x, bin, x + CHILD1); }
      else if u.left.Node? { LeafRoot(m, u.left, x, bin, x + CHILD0); }
    }
  }

  lemma LeafRoot(m: Mem, t: Tree, par: int, bin: int, slot: int)
    requires t.Node? && Links(m, t, par, bin) && Rd(m, slot) == Root(t)
    ensures Root(Leaf(t)) > 0
  {
    LeafNode(m, t, par, slot, bin);
  }

  /** What the links of x show. */
  lemma NodeReads(m: Mem, u: Tree, x: int, slot: int, xp: int, bin: int)
    requires Unlinkable(m, u, x, slot, xp, bin)
    ensures x > 0 && Rd(m, x + INDEX) == bin
    ensures Rd(m, x + BK) == x <==> |u.chain| == 1
    ensures Rd(m, x + PARENT) == (if x == u.chain[0] then xp else 0)
    ensures x == u.chain[0] ==> Rd(m, x + CHILD0) == Root(u.left) && Rd(m, x + CHILD1) == Root(u.right)
    ensures x == u.chain[0] ==> Links(m, u.left, x, bin) && Links(m, u.right, x, bin)
    ensures |u.chain| >= 2 ==> Rd(m, x + FD) in u.chain && Rd(m, x + BK) in u.chain && Rd(m, x + BK) > 0
    ensures |u.chain| >= 2 ==> Rd(m, Rd(m, x + FD) + BK) == x && Rd(m, Rd(m, x + BK) + FD) == x
  {
    var c := u.chain;
    var k := IndexOf(c, x);
    Ring.Neighbours(m, c, k);
    assert Ring.LinkedAt(m, c, k);
    var sk, pk := Ring.Succ(|c|, k), Ring.Pred(|c|, k);
    assert Ring.LinkedAt(m, c, sk);
    assert Ring.LinkedAt(m, c, pk);
    if k > 0 { assert Cleared(m, c[k]); }
  }

  lemma SubtreeReads(m: Mem, t: Tree, par: int, bin: int)
    requires Links(m, t, par, bin)
    ensures t.Nil? <==> Root(t) == 0
    ensures t.Node? ==> t.chain != [] && Root(t) == t.chain[0] && Root(t) > 0
    ensures t.Node? ==> Rd(m, Root(t) + CHILD0) == Root(t.left) && Rd(m, Root(t) + CHILD1) == Root(t.right)
    ensures t.Node? ==> Links(m, t.left, Root(t), bin) && Links(m, t.right, Root(t), bin)
  {
    RootOf(m, t, par, bin);
  }

  /** Detaching touches only link words of the node's own chunks, and none of x's index, nor the words
      that lead to x. */
  lemma DetachedKeeps(m: Mem, u: Tree, x: int, slot: int, xp: int, bin: int)
    requires Unlinkable(m, u, x, slot, xp, bin) && x == u.chain[0]
    ensures Within(m, Detached(m, u, x), Ptrs(u))
    ensures Rd(Detached(m, u, x), x + INDEX) == bin
  {
    NodeReads(m, u, x, slot, xp, bin);
    if |u.chain| >= 2 {
      SpreadSubset(Ptrs(u), SetOf(u.chain));
      RemoveFrame(m, u.chain, x);
      WithinWider(m, Ring.Remove(m, x), SetOf(u.chain), Ptrs(u));
      RemoveKeeps(m, u.chain, x, x, x + INDEX);
    } else {
      hide Within, Spread, LinkWord, Links, Orphan, NodeAt;
      assert x in SetOf(u.chain);
      if u.right.Node? {
        DetachLeaf(m, u.right, x, x + CHILD1, bin, Ptrs(u));
      } else if u.left.Node? {
        DetachLeaf(m, u.left, x, x + CHILD0, bin, Ptrs(u));
      } else {
        SameWithin(m, Ptrs(u));
      }
    }
  }

  lemma SameWithin(m: Mem, ps: set<int>)
    ensures Within(m, m, ps)
  {
  }

  lemma DetachLeaf(m: Mem, t: Tree, x: int, slot: int, bin: int, all: set<int>)
    requires t.Node? && Links(m, t, x, bin) && Rd(m, slot) == Root(t) && Trie.Apart(t) && Spread(all)
    requires Ptrs(t) <= all && x in all && x !in Ptrs(t) && (slot == x + CHILD0 || slot == x + CHILD1)
    ensures Within(m, Wr(m, LeafSlot(t, slot), 0), all)
    ensures Rd(Wr(m, LeafSlot(t, slot), 0), x + INDEX) == Rd(m, x + INDEX)
  {
    TakenLeaf(m, t, x, slot, bin, all);
    LeafPlace(m, t, x, slot, bin);
    hide Links, Within, Trie.Apart, LinkWord, Orphan;
    if !IsLeaf(t) {
      var q := LeafPar(t, x);
      assert q in all && q != x;
    }
  }

  /** How the code tells the word that points to x: the bin's root pointer, or the parent's left or right link. */
  lemma WhichSlot(m: Mem, t: Tree, root: int, bin: int, lo: int, b: nat, x: int, s: int)
    requires Stored(m, t, root, bin, lo, b) && Member(t, lo, b, x, s)
    ensures var u, e, q := Sub(t, lo, b, s), SlotOf(t, root, lo, b, s), ParOf(t, root, lo, b, s);
      && Unlinkable(m, u, x, e, q, bin) && Ptrs(u) <= Ptrs(t) && q > 0
      && (x == u.chain[0] ==>
            (Rd(m, root) == x <==> Stops(t, b, s)) && (Stops(t, b, s) ==> e == root && q == root)
            && (!Stops(t, b, s) ==>
              q in Ptrs(t) && q !in Ptrs(u) && e == (if Rd(m, q + CHILD0) == x then q + CHILD0 else q + CHILD1)))
  {
    NodeOf(m, t, root, bin, lo, b, x, s);
    var u, e, q := Sub(t, lo, b, s), SlotOf(t, root, lo, b, s), ParOf(t, root, lo, b, s);
    SubRoot(m, t, root, bin, lo, b, s);
    if !Stops(t, b, s) {
      SlotSide(m, t, root, root, bin, lo, b, s);
      PtrPositive(m, t, root, bin, q);
    }
  }

  lemma {:induction false} PtrPositive(m: Mem, t: Tree, par: int, bin: int, q: int)
    requires Links(m, t, par, bin) && q in Ptrs(t)
    ensures q > 0
  {
    if q in t.chain {
      var k := IndexOf(t.chain, q);
    } else if q in Ptrs(t.left) {
      PtrPositive(m, t.left, t.chain[0], bin, q);
    } else {
      PtrPositive(m, t.right, t.chain[0], bin, q);
    }
  }

  lemma SubRoot(m: Mem, t: Tree, root: int, bin: int, lo: int, b: nat, s: int)
    requires Links(m, t, root, bin) && Rd(m, root) == Root(t) && Trie.Apart(t)
    ensures var u := Sub(t, lo, b, s);
      u.Node? && u.chain != [] ==> (Rd(m, root) == u.chain[0] <==> Stops(t, b, s))
  {
    RootOf(m, t, root, bin);
    var u := Sub(t, lo, b, s);
    if !Stops(t, b, s) && u.Node? && u.chain != [] {
      if s < Mid(lo, b) { SubInside(t.left, lo, b - 1, s); } else { SubInside(t.right, Mid(lo, b), b - 1, s); }
      assert u.chain[0] in SetOf(u.chain);
      assert t.chain[0] in SetOf(t.chain);
    }
  }

  /** The parent's left link leads to the subtree exactly when the walk went left there. */
  lemma {:induction false} SlotSide(m: Mem, t: Tree, par: int, slot: int, bin: int, lo: int, b: nat, s: int)
    requires Links(m, t, par, bin) && Rd(m, slot) == Root(t) && Trie.Apart(t) && !Stops(t, b, s)
      && Sub(t, lo, b, s).Node?
    ensures var u, e, q := Sub(t, lo, b, s), SlotOf(t, slot, lo, b, s), ParOf(t, par, lo, b, s);
      Rd(m, q + CHILD0) == Root(u) <==> e == q + CHILD0
    decreases t
  {
    RootOf(m, t, par, bin);
    RootOf(m, t.left, Root(t), bin);
    RootOf(m, t.right, Root(t), bin);
    if s < Mid(lo, b) {
      if !Stops(t.left, b - 1, s) { SlotSide(m, t.left, Root(t), Root(t) + CHILD0, bin, lo, b - 1, s); }
    } else {
      if !Stops(t.right, b - 1, s) { SlotSide(m, t.right, Root(t), Root(t) + CHILD1, bin, Mid(lo, b), b - 1, s); }
    }
  }

  // ----- the walk to the replacement leaf -----

  /** The walk has come to subtree t, to which the word at `rp` points. */
  ghost predicate LeafWalk(m: Mem, t: Tree, par: int, rp: int, bin: int, base: int, target: int, leaf: int) {
    && t.Node? && Links(m, t, par, bin) && LeafSlot(t, rp) == target && Root(Leaf(t)) == leaf
    && rp >= base && forall p :: p in Ptrs(t) ==> p >= base
  }

  lemma LeafStep(m: Mem, t: Tree, par: int, rp: int, bin: int, base: int, target: int, leaf: int)
    requires LeafWalk(m, t, par, rp, bin, base, target, leaf)
    ensures var r := Root(t);
      && r > 0 && Rd(m, r + CHILD0) == Root(t.left) && Rd(m, r + CHILD1) == Root(t.right)
      && (Root(t.left) == 0 <==> t.left.Nil?) && (Root(t.right) == 0 <==> t.right.Nil?)
      && (t.right.Node? ==> LeafWalk(m, t.right, r, r + CHILD1, bin, base, target, leaf))
      && (t.right.Nil? && t.left.Node? ==> LeafWalk(m, t.left, r, r + CHILD0, bin, base, target, leaf))
      && (t.right.Nil? && t.left.Nil? ==> rp == target && r == leaf)
    ensures rp >= base
  {
    SubtreeReads(m, t, par, bin);
    SubtreeReads(m, t.left, Root(t), bin);
    SubtreeReads(m, t.right, Root(t), bin);
    hide Links;
    assert t.chain[0] in SetOf(t.chain);
    assert Root(t) in Ptrs(t);
  }

  lemma LeafBegin(m: Mem, u: Tree, x: int, slot: int, xp: int, bin: int, base: int)
    requires Unlinkable(m, u, x, slot, xp, bin) && x == u.chain[0] && forall p :: p in Ptrs(u) ==> p >= base
    ensures Rd(m, x + CHILD0) == Root(u.left) && Rd(m, x + CHILD1) == Root(u.right)
    ensures Root(u.left) == 0 <==> u.left.Nil?
    ensures Root(u.right) == 0 <==> u.right.Nil?
    ensures u.right.Node? ==> LeafWalk(m, u.right, x, x + CHILD1, bin, base, LeafSlot(u.right, x + CHILD1),
      Root(Leaf(u.right)))
    ensures u.left.Node? ==> LeafWalk(m, u.left, x, x + CHILD0, bin, base, LeafSlot(u.left, x + CHILD0),
      Root(Leaf(u.left)))
  {
    NodeReads(m, u, x, slot, xp, bin);
    SubtreeReads(m, u.left, x, bin);
    SubtreeReads(m, u.right, x, bin);
    hide Links, Spread, LinkWord, Trie.Apart;
    assert x in SetOf(u.chain);
  }

  // ----- putting the replacement in place -----

  /** What `Adopt` reads and writes: chunks of the heap, apart from each other. */
  ghost predicate Adoptable(m: Mem, x: int, r: int, base: int) {
    var c0, c1 := Rd(m, x + CHILD0), Rd(m, x + CHILD1);
    Far(x, r) && r >= base && (c0 != 0 ==> c0 >= base && Far(c0, x)) && (c1 != 0 ==> c1 >= base)
  }

  lemma HandoverPlace(m: Mem, x: int, slot: int, bin: int, d: seq<int>, l: Tree, r: Tree, base: int)
    requires Handover(m, x, slot, bin, d, l, r) && forall p :: p in Involved(x, d, l, r) ==> p >= base
    ensures Adoptable(Wr(m, slot, d[0]), x, d[0], base)
  {
    var all := Involved(x, d, l, r);
    RootOf(m, l, x, bin);
    RootOf(m, r, x, bin);
    assert d[0] in SetOf(d);
    hide Links, Ring.IsRing, NodeAt, Trie.Apart, NoDup;
    assert d[0] in all && x in all;
    assert !(x + FD <= slot < x + 32);
    if l.Node? { assert Root(l) in all; }
    if r.Node? { assert Root(r) in all; }
  }

  lemma ReplacementPlace(m: Mem, u: Tree, x: int, slot: int, xp: int, bin: int, base: int)
    requires Unlinkable(m, u, x, slot, xp, bin) && x == u.chain[0] && forall p :: p in Ptrs(u) ==> p >= base
    requires Replacement(m, u, x) != 0
    ensures Adoptable(Wr(Detached(m, u, x), slot, Replacement(m, u, x)), x, Replacement(m, u, x), base)
  {
    NodeReads(m, u, x, slot, xp, bin);
    hide Links, Spread, LinkWord, Trie.Apart, Handover, Adoptable, Involved, NodeAt, Within, Ptrs, Unlinkable,
      Ring.Remove, Rotated;
    if |u.chain| >= 2 {
      HeadHandover(m, u, x, slot, xp, bin);
      RotatedFirst(m, u, x, slot, xp, bin);
      HandoverPlace(Detached(m, u, x), x, slot, bin, Rotated(u.chain), u.left, u.right, base);
    } else if u.right.Node? {
      RightHandover(m, u, x, slot, xp, bin);
      LeafChain(m, u.right, x, bin);
      HandoverPlace(Detached(m, u, x), x, slot, bin, Leaf(u.right).chain, u.left, Pruned(u.right), base);
    } else {
      LeftHandover(m, u, x, slot, xp, bin);
      LeafChain(m, u.left, x, bin);
      HandoverPlace(Detached(m, u, x), x, slot, bin, Leaf(u.left).chain, Pruned(u.left), u.right, base);
    }
  }

  lemma {:induction false} LeafChain(m: Mem, t: Tree, par: int, bin: int)
    requires t.Node? && Links(m, t, par, bin)
    ensures Leaf(t).chain != [] && Root(Leaf(t)) == Leaf(t).chain[0]
  {
    if t.right.Node? { LeafChain(m, t.right, t.chain[0], bin); }
    else if t.left.Node? { LeafChain(m, t.left, t.chain[0], bin); }
  }

  lemma RotatedFirst(m: Mem, u: Tree, x: int, slot: int, xp: int, bin: int)
    requires Unlinkable(m, u, x, slot, xp, bin) && x == u.chain[0] && |u.chain| >= 2
    ensures Rotated(u.chain) != [] && Rotated(u.chain)[0] == Rd(m, x + BK)
  {
    assert Ring.LinkedAt(m, u.chain, 0);
    RotatedAt(u.chain);
  }

  // ----- unlinking from a heap's tree bin -----

  /** The node of size s in tree bin i, the word that points to it and the node that word belongs to. */
  function NodeFor(h: View, i: nat, s: int): Tree
    requires i < |h.trees|
  {
    Sub(h.trees[i], BinLo(i), BinBits(i), s)
  }

  function SlotFor(h: View, i: nat, s: int): int
    requires i < |h.trees|
  {
    SlotOf(h.trees[i], TreeBin(i), BinLo(i), BinBits(i), s)
  }

  function ParFor(h: View, i: nat, s: int): int
    requires i < |h.trees|
  {
    ParOf(h.trees[i], TreeBin(i), BinLo(i), BinBits(i), s)
  }

  lemma DropNode(m: Mem, h: View, i: nat, x: int, s: int)
    requires Sound(m, h) && i < 32 && |h.trees| == 32 && Has(h.trees[i], x, s)
    ensures Unlinkable(m, NodeFor(h, i, s), x, SlotFor(h, i, s), ParFor(h, i, s), i)
    ensures forall p :: p in Ptrs(NodeFor(h, i, s)) ==> p >= h.base
    ensures ParFor(h, i, s) > 0 && TreeBin(i) < h.base && h.base <= x
  {
    hide Sound, Sub, SlotOf, ParOf, BinLo, BinBits, TreeIndexOf, Unlinkable, Spread, LinkWord, Has, Stored, OfTree;
    TreeMemberOf(m, h, i, x, s);
    TreeStored(m, h, i);
    WhichSlot(m, h.trees[i], TreeBin(i), i, BinLo(i), BinBits(i), x, s);
    SizeBound(m, h, x);
  }

  /** The stores of unlinking, for a chunk that is not the head of its chain. */
  lemma DropChained(m: Mem, h: View, i: nat, x: int, s: int)
    requires Sound(m, h) && i < 32 && |h.trees| == 32 && Has(h.trees[i], x, s)
    requires NodeFor(h, i, s).Node? && x in NodeFor(h, i, s).chain && NodeFor(h, i, s).chain[0] != x
    ensures Rd(m, x + PARENT) == 0
    ensures DropStores(m, h.trees[i], TreeBin(i), BinLo(i), BinBits(i), x, s) == Detached(m, NodeFor(h, i, s), x)
    ensures Delete(h.trees[i], BinLo(i), BinBits(i), x, s).Node?
  {
    hide Sound, SlotOf, ParOf, BinLo, BinBits, TreeIndexOf, Unlinkable, Has, Stored, Detached, Replacement;
    var u := NodeFor(h, i, s);
    DropNode(m, h, i, x, s);
    NodeReads(m, u, x, SlotFor(h, i, s), ParFor(h, i, s), i);
    StoresSplit(m, u, x, SlotFor(h, i, s), ParFor(h, i, s), i);
    DeleteNil(h.trees[i], BinLo(i), BinBits(i), x, s);
  }

  /** A trie becomes empty when its root goes and nothing replaces it. */
  lemma DeleteNil(t: Tree, lo: int, b: nat, x: int, s: int)
    requires Sub(t, lo, b, s).Node? && x in Sub(t, lo, b, s).chain
    ensures Delete(t, lo, b, x, s).Nil? <==> Stops(t, b, s) && Shrunk(Sub(t, lo, b, s), x).Nil?
  {
  }

  /** The stores of unlinking, for the head of a chain, and what they read on the way. */
  lemma DropHead(m: Mem, h: View, i: nat, x: int, s: int)
    requires Sound(m, h) && i < 32 && |h.trees| == 32 && Has(h.trees[i], x, s)
    requires NodeFor(h, i, s).Node? && x in NodeFor(h, i, s).chain && NodeFor(h, i, s).chain[0] == x
    ensures var u, e, q, root := NodeFor(h, i, s), SlotFor(h, i, s), ParFor(h, i, s), TreeBin(i);
      var m1, r := Detached(m, u, x), Replacement(m, u, x);
      && Rd(m, x + PARENT) == q && q != 0 && Rd(m1, x + INDEX) == i
      && Rd(Wr(m1, root, r), x + INDEX) == i
      && DropStores(m, h.trees[i], root, BinLo(i), BinBits(i), x, s)
        == (if r != 0 then Adopt(Wr(m1, e, r), x, r, q) else Wr(m1, e, 0))
      && (Delete(h.trees[i], BinLo(i), BinBits(i), x, s).Nil? <==> Rd(m1, root) == x && r == 0)
      && (Rd(m1, root) == x ==> e == root)
      && (Rd(m1, root) != x ==> q >= h.base && e == (if Rd(m1, q + CHILD0) == x then q + CHILD0 else q + CHILD1))
      && (r != 0 ==> Adoptable(Wr(m1, e, r), x, r, h.base))
  {
    hide Sound, SlotOf, ParOf, BinLo, BinBits, TreeIndexOf, Unlinkable, Has, Stored, Detached, Replacement, Adoptable,
      DropStores, UnlinkStores, Adopt, Within, Delete;
    var u, e, q, root := NodeFor(h, i, s), SlotFor(h, i, s), ParFor(h, i, s), TreeBin(i);
    DropNode(m, h, i, x, s);
    NodeReads(m, u, x, e, q, i);
    DetachedKeeps(m, u, x, e, q, i);
    DropSplit(m, h, i, x, s);
    DeleteNil(h.trees[i], BinLo(i), BinBits(i), x, s);
    DropSlot(m, h, i, x, s);
    ShrunkNil(m, u, x, e, q, i);
    if Replacement(m, u, x) != 0 { ReplacementPlace(m, u, x, e, q, i, h.base); }
  }

  lemma ShrunkNil(m: Mem, u: Tree, x: int, slot: int, xp: int, bin: int)
    requires Unlinkable(m, u, x, slot, xp, bin)
    ensures Shrunk(u, x).Nil? <==> Replacement(m, u, x) == 0
  {
    StoresSplit(m, u, x, slot, xp, bin);
    hide Replacement, Detached, Unlinkable;
  }

  lemma DropSplit(m: Mem, h: View, i: nat, x: int, s: int)
    requires Sound(m, h) && i < 32 && |h.trees| == 32 && Has(h.trees[i], x, s)
    requires NodeFor(h, i, s).Node? && x in NodeFor(h, i, s).chain && NodeFor(h, i, s).chain[0] == x
    ensures var u, e, q := NodeFor(h, i, s), SlotFor(h, i, s), ParFor(h, i, s);
      var m1, r := Detached(m, u, x), Replacement(m, u, x);
      DropStores(m, h.trees[i], TreeBin(i), BinLo(i), BinBits(i), x, s)
        == (if r != 0 then Adopt(Wr(m1, e, r), x, r, q) else Wr(m1, e, 0))
  {
    hide Sound, SlotOf, ParOf, BinLo, BinBits, TreeIndexOf, Unlinkable, Has, Stored, Detached, Replacement, Adopt,
      UnlinkStores;
    DropNode(m, h, i, x, s);
    StoresSplit(m, NodeFor(h, i, s), x, SlotFor(h, i, s), ParFor(h, i, s), i);
  }

  /** After detaching, the word that points to x can still be told. */
  lemma DropSlot(m: Mem, h: View, i: nat, x: int, s: int)
    requires Sound(m, h) && i < 32 && |h.trees| == 32 && Has(h.trees[i], x, s)
    requires NodeFor(h, i, s).Node? && x in NodeFor(h, i, s).chain && NodeFor(h, i, s).chain[0] == x
    ensures var u, e, q, root := NodeFor(h, i, s), SlotFor(h, i, s), ParFor(h, i, s), TreeBin(i);
      var m1 := Detached(m, u, x);
      && (Rd(m1, root) == x <==> Stops(h.trees[i], BinBits(i), s)) && (Rd(m1, root) == x ==> e == root)
      && (Rd(m1, root) != x ==> q >= h.base && e == (if Rd(m1, q + CHILD0) == x then q + CHILD0 else q + CHILD1))
  {
    hide Sound, Sub, SlotOf, ParOf, BinLo, BinBits, TreeIndexOf, Unlinkable, Spread, LinkWord, Has, Stored, OfTree,
      Stops, Detached, Within, Ptrs;
    var t, u, e, q, root := h.trees[i], NodeFor(h, i, s), SlotFor(h, i, s), ParFor(h, i, s), TreeBin(i);
    TreeMemberOf(m, h, i, x, s);
    TreeStored(m, h, i);
    WhichSlot(m, t, root, i, BinLo(i), BinBits(i), x, s);
    DetachedKeeps(m, u, x, e, q, i);
    StoredParts(m, t, root, i, BinLo(i), BinBits(i));
    WithinKeeps(m, Detached(m, u, x), Ptrs(t), Ptrs(u), root);
    if !Stops(t, BinBits(i), s) {
      SlotApart(Ptrs(t), q, q + CHILD0, Ptrs(u));
      WithinReads(m, Detached(m, u, x), Ptrs(u), q + CHILD0);
    }
  }

  lemma StoredParts(m: Mem, t: Tree, slot: int, bin: int, lo: int, b: nat)
    requires Stored(m, t, slot, bin, lo, b)
    ensures Spread(Ptrs(t)) && !LinkWord(slot, Ptrs(t))
  {
  }

  lemma WithinReads(m: Mem, m': Mem, ps: set<int>, a: int)
    requires Within(m, m', ps) && !LinkWord(a, ps)
    ensures Rd(m', a) == Rd(m, a)
  {
  }

  lemma WithinKeeps(m: Mem, m': Mem, all: set<int>, ps: set<int>, a: int)
    requires Within(m, m', ps) && ps <= all && !LinkWord(a, all)
    ensures Rd(m', a) == Rd(m, a)
  {
    forall p | p in ps ensures !(p + FD <= a < p + INDEX + 4) { assert p in all; }
    assert !LinkWord(a, ps);
  }
}
