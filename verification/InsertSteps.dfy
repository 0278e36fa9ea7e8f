/** The walk of chunk insertion through a trie in memory. */
module InsertSteps {
  import opened WordMemory
  import opened HeapLayout
  import opened HeapTags
  import opened HeapBins
  import opened HeapSound
  import opened Trie
  import opened TrieLinks
  import opened TrieStores
  import opened TreeIndex
  import opened BestFitWalk
  import BinMap
  import Ring

  /** The walk towards size s has come to subtree t, to which the word at `slot` of node `par` points. */
  ghost predicate InsWalk(m: Mem, h: View, i: nat, s: int, t: Tree, par: int, slot: int, lo: int, b: nat) {
    && i < 32 && |h.trees| == 32 && b <= 32
    && Links(m, t, par, i) && Rd(m, slot) == Root(t) && Sorted(t, lo, b) && lo <= s < lo + Pow2(b)
    && PartOf(t, h.trees[i])
    && Sub(h.trees[i], BinLo(i), BinBits(i), s) == Sub(t, lo, b, s)
    && SlotOf(h.trees[i], TreeBin(i), BinLo(i), BinBits(i), s) == SlotOf(t, slot, lo, b, s)
    && ParOf(h.trees[i], TreeBin(i), BinLo(i), BinBits(i), s) == ParOf(t, par, lo, b, s)
  }

  lemma InsStart(m: Mem, h: View, x: int)
    requires Sound(m, h) && x in h.loose && x in h.chunks && h.chunks[x].size >= LARGE
    ensures var s := h.chunks[x].size; var i := TreeIndexOf(s);
      && 0 <= i < 32 && |h.trees| == 32 && x > 0 && s < W32
      && InsWalk(Prepare(m, x, i), h, i, s, h.trees[i], TreeBin(i), TreeBin(i), BinLo(i), BinBits(i))
      && (BinMap.Marked(h.tmap, i) <==> h.trees[i].Node?)
      && BinLo(i) <= s < BinLo(i) + Pow2(BinBits(i))
  {
    hide Sound, Links, Sorted, BinLo, TreeIndexOf, Sub, SlotOf, ParOf, Spread, LinkWord, OfTree, Trie.Apart;
    var s := h.chunks[x].size;
    TreeLinkable(m, h, x);
    var i := TreeIndexOf(s);
    TreeStored(m, h, i);
    PrepareKeeps(m, h.trees[i], TreeBin(i), i, BinLo(i), BinBits(i), x, s);
  }

  /** Reading a node on the walk: the prepared chunk's words are not the node's. */
  lemma InsRead(m: Mem, h: View, i: nat, s: int, x: int, t: Tree, par: int, slot: int, lo: int, b: nat)
    requires Sound(m, h) && x in h.loose && x in h.chunks && h.chunks[x].size >= LARGE
    requires InsWalk(Prepare(m, x, i), h, i, s, t, par, slot, lo, b) && t.Node?
    ensures var m1, p := Prepare(m, x, i), Root(t);
      && p > 0 && h.base <= p && p != x && t.chain != [] && ChunkSize(m1, p) == t.size
      && Rd(m1, p + CHILD0) == Root(t.left) && Rd(m1, p + CHILD1) == Root(t.right)
      && (Root(t.left) == 0 <==> t.left.Nil?) && (Root(t.right) == 0 <==> t.right.Nil?)
      && Rd(m1, p + FD) >= h.base
  {
    hide Sound, Links, Sorted, Has, Sub, SlotOf, ParOf, PartOf, InsWalk, TreeIndexOf;
    var p := Root(t);
    InsBounds(Prepare(m, x, i), h, i, s, t, par, slot, lo, b);
    InsLinks(Prepare(m, x, i), t, par, i, lo, b);
    NodePart(t, h.trees[i]);
    TreeMemberOf(m, h, i, p, t.size);
    LooseIs(m, h, x);
    Parts(m, h);
    hide Tagged, Owned, SmallBins, TreeBins;
    TagsRead(m, h.base, h.top, h.chunks, h.topsize, p);
    SizeBound(m, h, p);
    HeadUntouched(m, h, i, x, p);
    ChainNext(Prepare(m, x, i), t, par, i);
    NodePartOf(t, h.trees[i], Rd(Prepare(m, x, i), p + FD));
    TreeMemberOf(m, h, i, Rd(Prepare(m, x, i), p + FD), t.size);
    SizeBound(m, h, Rd(Prepare(m, x, i), p + FD));
  }

  lemma ChainNext(m: Mem, t: Tree, par: int, i: int)
    requires t.Node? && Links(m, t, par, i)
    ensures t.chain != [] && Rd(m, t.chain[0] + FD) in t.chain
  {
    assert Ring.LinkedAt(m, t.chain, 0);
  }

  lemma NodePartOf(t: Tree, all: Tree, p: int)
    requires t.Node? && p in t.chain && PartOf(t, all)
    ensures Has(all, p, t.size)
  {
    assert Has(t, p, t.size);
  }

  lemma HeadUntouched(m: Mem, h: View, i: nat, x: int, p: int)
    requires Tiled(h.base, h.top, h.chunks) && x in h.chunks && p in h.chunks && p != x
    requires h.chunks[p].size >= LARGE && h.chunks[x].size >= LARGE
    ensures Rd(Prepare(m, x, i), p + HEAD) == Rd(m, p + HEAD)
  {
    hide Shape;
    ShapeOf(h.base, h.top, h.chunks, x);
  }

  lemma InsLinks(m: Mem, t: Tree, par: int, i: nat, lo: int, b: nat)
    requires t.Node? && Links(m, t, par, i) && Sorted(t, lo, b)
    ensures t.chain != [] && Root(t) == t.chain[0] && Root(t) > 0
    ensures Rd(m, Root(t) + CHILD0) == Root(t.left) && Rd(m, Root(t) + CHILD1) == Root(t.right)
    ensures Root(t.left) == 0 <==> t.left.Nil?
    ensures Root(t.right) == 0 <==> t.right.Nil?
  {
    RootOf(m, t, par, i);
    RootOf(m, t.left, t.chain[0], i);
    RootOf(m, t.right, t.chain[0], i);
  }

  /** The walk follows the size's next bit. */
  lemma InsStep(m: Mem, h: View, i: nat, s: int, t: Tree, par: int, slot: int, lo: int, b: nat)
    requires InsWalk(m, h, i, s, t, par, slot, lo, b) && t.Node? && t.size != s
    ensures b > 0
    ensures s < Mid(lo, b) ==> InsWalk(m, h, i, s, t.left, Root(t), Root(t) + CHILD0, lo, b - 1)
    ensures s >= Mid(lo, b) ==> InsWalk(m, h, i, s, t.right, Root(t), Root(t) + CHILD1, Mid(lo, b), b - 1)
  {
    hide Has, NodeAt, PartOf;
    assert b > 0;
    PartDown(t, h.trees[i]);
    InsLinks(m, t, par, i, lo, b);
  }

  lemma PartDown(t: Tree, all: Tree)
    requires t.Node? && PartOf(t, all)
    ensures PartOf(t.left, all) && PartOf(t.right, all)
  {
    forall p, s | Has(t.left, p, s) || Has(t.right, p, s) ensures Has(all, p, s) {
      assert Has(t, p, s);
    }
  }

  /** Where the walk stops is the end of the walk from the root. */
  lemma InsEnd(m: Mem, h: View, i: nat, s: int, t: Tree, par: int, slot: int, lo: int, b: nat)
    requires InsWalk(m, h, i, s, t, par, slot, lo, b) && (t.Nil? || t.size == s)
    ensures Sub(h.trees[i], BinLo(i), BinBits(i), s) == t
    ensures SlotOf(h.trees[i], TreeBin(i), BinLo(i), BinBits(i), s) == slot
    ensures ParOf(h.trees[i], TreeBin(i), BinLo(i), BinBits(i), s) == par
  {
  }

  lemma InsBounds(m: Mem, h: View, i: nat, s: int, t: Tree, par: int, slot: int, lo: int, b: nat)
    requires InsWalk(m, h, i, s, t, par, slot, lo, b)
    ensures i < 32 && |h.trees| == 32 && b <= 32 && lo <= s < lo + Pow2(b) && Rd(m, slot) == Root(t)
    ensures Links(m, t, par, i) && Sorted(t, lo, b) && PartOf(t, h.trees[i])
  {
    hide Links, Sorted, Sub, SlotOf, ParOf, PartOf;
  }
}
