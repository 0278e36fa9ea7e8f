/** The best-fit search over tries in memory: what the walk keeps true, branch by branch. */
module BestFitWalk {
  import opened WordMemory
  import opened Seqs
  import opened HeapLayout
  import opened HeapTags
  import opened HeapBins
  import opened HeapSound
  import opened Trie
  import opened TrieLinks
  import opened TrieStores
  import opened TreeIndex
  import opened BestFit
  import BinMap

  /** The best chunk so far is a chunk of its own bin. */
  ghost predicate Candidate(trees: Trees, nb: int, v: int, rsize: int) {
    && |trees| == 32
    && (v == 0 ==> rsize == W32 - nb)
    && (v != 0 ==> 0 <= rsize && LARGE <= rsize + nb < W32)
    && (v != 0 ==> 0 <= TreeIndexOf(rsize + nb) < 32 && Has(trees[TreeIndexOf(rsize + nb)], v, rsize + nb))
  }

  ghost predicate PartOf(t: Tree, all: Tree) {
    forall p, s :: Has(t, p, s) ==> Has(all, p, s)
  }

  /** A subtree of bin i's trie, in memory. */
  ghost predicate Branch(m: Mem, trees: Trees, i: nat, t: Tree, par: int, lo: int, b: nat)
    requires i < |trees|
  {
    Links(m, t, par, i) && Sorted(t, lo, b) && Trie.Apart(t) && PartOf(t, trees[i]) && b <= 32
  }

  lemma WholeBranch(m: Mem, h: View, i: nat)
    requires Sound(m, h) && i < 32
    ensures |h.trees| == 32 && Branch(m, h.trees, i, h.trees[i], TreeBin(i), BinLo(i), BinBits(i))
    ensures Rd(m, TreeBin(i)) == Root(h.trees[i])
  {
    hide Tiled, Tagged, Owned, SmallBins, TreeBins, LinkWord, Spread, BinLo, Links, Sorted, Trie.Apart, OfTree;
    TreeStored(m, h, i);
  }

  lemma BranchRoot(m: Mem, trees: Trees, i: nat, t: Tree, par: int, lo: int, b: nat)
    requires i < |trees| && Branch(m, trees, i, t, par, lo, b)
    ensures t.Nil? <==> Root(t) == 0
  {
    hide Sorted, Trie.Apart, PartOf;
    RootOf(m, t, par, i);
  }

  /** Reading a node: its size, its links, and its subtrees. */
  lemma NodeRead(m: Mem, h: View, i: nat, t: Tree, par: int, lo: int, b: nat)
    requires Sound(m, h) && i < 32 && |h.trees| == 32 && Branch(m, h.trees, i, t, par, lo, b) && t.Node?
    ensures var p := Root(t);
      && p > 0 && h.base <= p && ChunkSize(m, p) == t.size && LARGE <= t.size < W32 && TreeIndexOf(t.size) == i
        && Has(h.trees[i], p, t.size)
      && Rd(m, p + CHILD0) == Root(t.left) && Rd(m, p + CHILD1) == Root(t.right)
      && (Root(t.left) == 0 <==> t.left.Nil?) && (Root(t.right) == 0 <==> t.right.Nil?)
      && (t.left.Node? && t.right.Node? ==> Root(t.left) != Root(t.right))
  {
    NodeLinks(m, t, par, i, lo, b);
    NodePart(t, h.trees[i]);
    hide Tiled, Tagged, Owned, SmallBins, TreeBins, Links, Sorted, Trie.Apart, PartOf, Has, TreeIndexOf;
    var p := Root(t);
    TreeMemberOf(m, h, i, p, t.size);
    TagsRead(m, h.base, h.top, h.chunks, h.topsize, p);
    SizeBound(m, h, p);
  }

  lemma NodePart(t: Tree, all: Tree)
    requires t.Node? && t.chain != [] && PartOf(t, all)
    ensures Has(all, t.chain[0], t.size)
  {
    assert Has(t, t.chain[0], t.size);
  }

  lemma NodeLinks(m: Mem, t: Tree, par: int, i: nat, lo: int, b: nat)
    requires t.Node? && Links(m, t, par, i) && Sorted(t, lo, b) && Trie.Apart(t)
    ensures t.chain != [] && Root(t) == t.chain[0] && Root(t) > 0
    ensures Rd(m, Root(t) + CHILD0) == Root(t.left) && Rd(m, Root(t) + CHILD1) == Root(t.right)
    ensures Root(t.left) == 0 <==> t.left.Nil?
    ensures Root(t.right) == 0 <==> t.right.Nil?
    ensures t.left.Node? && t.right.Node? ==> Root(t.left) != Root(t.right)
  {
    RootOf(m, t, par, i);
    RootOf(m, t.left, t.chain[0], i);
    RootOf(m, t.right, t.chain[0], i);
  }

  lemma ChildBranch(m: Mem, trees: Trees, i: nat, t: Tree, par: int, lo: int, b: nat)
    requires i < |trees| && Branch(m, trees, i, t, par, lo, b) && t.Node? && b > 0
    ensures Branch(m, trees, i, t.left, Root(t), lo, b - 1) && Branch(m, trees, i, t.right, Root(t), Mid(lo, b), b - 1)
  {
    forall p, s | Has(t.left, p, s) || Has(t.right, p, s) ensures Has(trees[i], p, s) {
      assert Has(t, p, s);
    }
  }

  lemma NilBranch(m: Mem, trees: Trees, i: nat)
    requires i < |trees|
    ensures Branch(m, trees, i, Nil, 0, 0, 0)
  {
  }

  /** What one look at a node does to the best chunk so far. */
  lemma Look(trees: Trees, i: nat, nb: int, v: int, rsize: int, p: int, size: int, v': int, rsize': int)
    requires 0 < nb < W32 && Candidate(trees, nb, v, rsize) && i < 32 && p != 0
    requires LARGE <= size < W32 && TreeIndexOf(size) == i && Has(trees[i], p, size)
    requires var trem := (size - nb) % W32;
      if trem < rsize then v' == p && rsize' == trem else v' == v && rsize' == rsize
    ensures Candidate(trees, nb, v', rsize')
    ensures forall s :: Beats(v, rsize, nb, s) ==> Beats(v', rsize', nb, s)
    ensures size >= nb ==> Beats(v', rsize', nb, size)
    ensures rsize' == 0 ==> v' != 0
    ensures (size - nb) % W32 < rsize ==> rsize' + nb == size
    ensures size == nb ==> rsize' == 0
  {
    hide Has, TreeIndexOf;
    if size >= nb {
      assert (size - nb) % W32 == size - nb;
    } else {
      assert (size - nb) % W32 == size - nb + W32;
    }
  }

  // ----- the first loop -----

  ghost predicate Walk(m: Mem, trees: Trees, i: nat, nb: int, v: int, rsize: int,
                       t: Tree, par: int, lo: int, b: nat, rst: Tree, rpar: int, rlo: int, rb: nat) {
    && |trees| == 32 && i < 32
    && Branch(m, trees, i, t, par, lo, b) && lo <= nb < lo + Pow2(b)
    && Branch(m, trees, i, rst, rpar, rlo, rb)
    && Candidate(trees, nb, v, rsize)
    && Open(trees[i], nb, v, rsize, t, rst)
    && Above(rst, lo + Pow2(b)) && (rst.Node? ==> Least(rst) in Sizes(rst))
  }

  /** The walk goes to the half of the interval the request lies in. */
  lemma WalkDown(m: Mem, trees: Trees, i: nat, nb: int, v: int, rsize: int, v': int, rsize': int,
                 t: Tree, par: int, lo: int, b: nat, rst: Tree, rpar: int, rlo: int, rb: nat)
    requires Walk(m, trees, i, nb, v, rsize, t, par, lo, b, rst, rpar, rlo, rb) && t.Node? && rsize' != 0
    requires Candidate(trees, nb, v', rsize')
    requires forall s :: Beats(v, rsize, nb, s) ==> Beats(v', rsize', nb, s)
    requires t.size >= nb ==> Beats(v', rsize', nb, t.size)
    requires t.size == nb ==> rsize' == 0
    ensures b > 0
    ensures nb >= Mid(lo, b) ==> Walk(m, trees, i, nb, v', rsize', t.right, Root(t), Mid(lo, b), b - 1, rst, rpar,
      rlo, rb)
    ensures nb < Mid(lo, b) && t.right.Node? ==>
      Walk(m, trees, i, nb, v', rsize', t.left, Root(t), lo, b - 1, t.right, Root(t), Mid(lo, b), b - 1)
    ensures nb < Mid(lo, b) && t.right.Nil? ==>
      Walk(m, trees, i, nb, v', rsize', t.left, Root(t), lo, b - 1, rst, rpar, rlo, rb)
  {
    BitsLeft(m, trees, i, nb, t, par, lo, b);
    ChildBranch(m, trees, i, t, par, lo, b);
    OpenLook(trees[i], nb, v, rsize, t, rst, lo, b, v', rsize');
    assert Sorted(t, lo, b);
    hide Branch, Open, Candidate, Sorted, Has, Least;
    Pow2Double(b - 1);
    if nb >= Mid(lo, b) {
      OpenRight(trees[i], nb, v', rsize', t, rst, lo, b);
    } else {
      OpenLeft(trees[i], nb, v', rsize', t, rst, lo, b);
    }
  }

  lemma BitsLeft(m: Mem, trees: Trees, i: nat, nb: int, t: Tree, par: int, lo: int, b: nat)
    requires i < |trees| && Branch(m, trees, i, t, par, lo, b) && lo <= nb < lo + Pow2(b) && t.Node? && t.size != nb
    ensures b > 0
  {
  }

  // ----- after the first loop -----

  /** Over all bins: every fitting size is matched, or not below the least size of the subtree t. */
  ghost predicate OpenAll(trees: Trees, nb: int, v: int, rsize: int, t: Tree) {
    forall i, p, s :: 0 <= i < |trees| && Has(trees[i], p, s) && s >= nb ==>
      Beats(v, rsize, nb, s) || (t.Node? && Least(t) <= s)
  }

  /** What the second loop starts from and keeps. */
  ghost predicate Tail(m: Mem, trees: Trees, i: nat, nb: int, v: int, rsize: int, t: Tree, par: int, lo: int, b: nat) {
    && |trees| == 32 && i < 32
    && Branch(m, trees, i, t, par, lo, b)
    && Candidate(trees, nb, v, rsize)
    && OpenAll(trees, nb, v, rsize, t)
    && (rsize == 0 || forall s :: s in Sizes(t) ==> s >= nb)
  }

  lemma SoundSorts(m: Mem, h: View)
    requires Sound(m, h)
    ensures Sorts(h.trees)
  {
    hide Tiled, Tagged, SmallBins, TreeBins, Has, TreeIndexOf, NoDup;
    forall i, p, s | 0 <= i < 32 && Has(h.trees[i], p, s) ensures LARGE <= s < W32 && TreeIndexOf(s) == i {
      assert TreeMember(h.chunks, h.loose, i, p, s);
    }
  }

  lemma LeastHas(m: Mem, trees: Trees, i: nat, t: Tree, par: int, lo: int, b: nat)
    requires i < |trees| && Branch(m, trees, i, t, par, lo, b) && t.Node?
    ensures exists p :: Has(trees[i], p, Least(t))
  {
    hide Links, Trie.Apart;
    LeastCorrect(t, lo, b);
    var p := SizeHasPtr(t, lo, b, Least(t));
    assert Has(trees[i], p, Least(t));
  }

  /** Within the request's bin everything is matched or ahead: then so it is over all bins. */
  lemma ToTail(m: Mem, h: View, i: nat, nb: int, v: int, rsize: int, t: Tree, par: int, lo: int, b: nat)
    requires Sound(m, h) && |h.trees| == 32 && LARGE <= nb < W32 && i == TreeIndexOf(nb) && i < 32
    requires Branch(m, h.trees, i, t, par, lo, b) && Candidate(h.trees, nb, v, rsize)
    requires forall s :: s in Sizes(h.trees[i]) && s >= nb ==> Beats(v, rsize, nb, s) || (t.Node? && Least(t) <= s)
    requires rsize == 0 || forall s :: s in Sizes(t) ==> s >= nb
    requires v != 0 || t.Node?
    requires v != 0 ==> TreeIndexOf(rsize + nb) == i
    requires v == 0 ==> rsize != 0
    ensures Tail(m, h.trees, i, nb, v, rsize, t, par, lo, b)
  {
    hide Sound, Branch, TreeIndexOf, Least, Has;
    SoundSorts(m, h);
    var z := if v != 0 then rsize + nb else Least(t);
    if v == 0 { LeastHas(m, h.trees, i, t, par, lo, b); } else { assert Has(h.trees[i], v, z); }
    assert exists p :: Has(h.trees[i], p, z);
    forall k, p, s | 0 <= k < |h.trees| && Has(h.trees[k], p, s) && s >= nb
      ensures Beats(v, rsize, nb, s) || (t.Node? && Least(t) <= s)
    {
      if k == i {
        HasProjects(h.trees[i], p, s);
      } else {
        LaterBinsLarger(h.trees, nb, i, z, k, p, s);
      }
    }
    assert OpenAll(h.trees, nb, v, rsize, t);
    assert rsize == 0 || forall s :: s in Sizes(t) ==> s >= nb;
  }

  lemma LaterBinsLarger(trees: Trees, nb: nat, i: nat, z: int, k: nat, p: int, s: int)
    requires Sorts(trees) && LARGE <= nb < W32 && i == TreeIndexOf(nb) && i < 32 && (exists q :: Has(trees[i], q, z))
    requires k < 32 && k != i && Has(trees[k], p, s) && s >= nb
    ensures z <= s
  {
    hide Has, TreeIndexOf;
    if s < z {
      IndexMonotone(nb, s);
      IndexMonotone(s, z);
    }
  }

  /** One step of the second loop. */
  lemma TailStep(m: Mem, trees: Trees, i: nat, nb: int, v: int, rsize: int, v': int, rsize': int,
                 t: Tree, par: int, lo: int, b: nat)
    requires Tail(m, trees, i, nb, v, rsize, t, par, lo, b) && t.Node?
    requires Candidate(trees, nb, v', rsize')
    requires forall s :: Beats(v, rsize, nb, s) ==> Beats(v', rsize', nb, s)
    requires t.size >= nb ==> Beats(v', rsize', nb, t.size)
    requires rsize == 0 ==> rsize' == 0 && v' != 0
    ensures b > 0 && t.left.Node? ==> Tail(m, trees, i, nb, v', rsize', t.left, Root(t), lo, b - 1)
    ensures b > 0 && t.left.Nil? ==> Tail(m, trees, i, nb, v', rsize', t.right, Root(t), Mid(lo, b), b - 1)
    ensures b == 0 ==> t.left.Nil? && t.right.Nil? && Tail(m, trees, i, nb, v', rsize', Nil, 0, 0, 0)
  {
    if b > 0 { ChildBranch(m, trees, i, t, par, lo, b); }
    NilBranch(m, trees, i);
    assert Sorted(t, lo, b);
    var c := if t.left.Node? then t.left else t.right;
    assert Sizes(c) <= Sizes(t) && t.size in Sizes(t);
    hide Branch, Candidate, Has, Sorted;
    forall k, p, s | 0 <= k < |trees| && Has(trees[k], p, s) && s >= nb
      ensures Beats(v', rsize', nb, s) || (c.Node? && Least(c) <= s)
    {
      if !Beats(v', rsize', nb, s) {
        assert Least(t) <= s;
        if rsize != 0 { LeastStep(t, lo, b, nb, v', rsize', s); }
      }
    }
  }

  lemma WalkStart(m: Mem, h: View, i: nat, nb: int)
    requires Sound(m, h) && LARGE <= nb < W32 && i == TreeIndexOf(nb) && i < 32
    ensures |h.trees| == 32
    ensures Walk(m, h.trees, i, nb, 0, W32 - nb, h.trees[i], TreeBin(i), BinLo(i), BinBits(i), Nil, 0, 0, 0)
  {
    hide Sound, Branch, TreeIndexOf, BinLo, BinBits;
    WholeBranch(m, h, i);
    InBin(nb, i);
    NilBranch(m, h.trees, i);
  }

  /** An exact fit. */
  lemma WalkExact(m: Mem, h: View, i: nat, nb: int, v: int, t: Tree, par: int, lo: int, b: nat)
    requires Sound(m, h) && |h.trees| == 32 && LARGE <= nb < W32 && i == TreeIndexOf(nb) && i < 32
    requires Branch(m, h.trees, i, t, par, lo, b) && Candidate(h.trees, nb, v, 0) && v != 0
    ensures Tail(m, h.trees, i, nb, v, 0, t, par, lo, b)
  {
    hide Sound, Branch, TreeIndexOf, Has;
    ToTail(m, h, i, nb, v, 0, t, par, lo, b);
  }

  /** The walk has run off the trie: the remembered subtree is all that is left. */
  lemma WalkOff(m: Mem, h: View, i: nat, nb: int, v: int, rsize: int, par: int, lo: int, b: nat, rst: Tree, rpar: int,
      rlo: int, rb: nat)
    requires Sound(m, h) && LARGE <= nb < W32 && i == TreeIndexOf(nb) && i < 32 && |h.trees| == 32
    requires Walk(m, h.trees, i, nb, v, rsize, Nil, par, lo, b, rst, rpar, rlo, rb)
    requires v != 0 ==> TreeIndexOf(rsize + nb) == i
    ensures v != 0 || rst.Node? ==> Tail(m, h.trees, i, nb, v, rsize, rst, rpar, rlo, rb)
    ensures v == 0 && rst.Nil? ==> rsize == W32 - nb && forall s :: s in Sizes(h.trees[i]) ==> s < nb
  {
    hide Sound, Branch, TreeIndexOf, Has, Least;
    if v != 0 || rst.Node? {
      ToTail(m, h, i, nb, v, rsize, rst, rpar, rlo, rb);
    } else {
      forall s | s in Sizes(h.trees[i]) ensures s < nb {
        assert s >= nb ==> Beats(v, rsize, nb, s);
      }
    }
  }

  lemma WalkParts(m: Mem, trees: Trees, i: nat, nb: int, v: int, rsize: int, t: Tree, par: int, lo: int, b: nat,
      rst: Tree, rpar: int, rlo: int, rb: nat)
    requires Walk(m, trees, i, nb, v, rsize, t, par, lo, b, rst, rpar, rlo, rb)
    ensures |trees| == 32 && i < 32 && Branch(m, trees, i, t, par, lo, b) && lo <= nb < lo + Pow2(b) && b <= 32
    ensures Branch(m, trees, i, rst, rpar, rlo, rb) && Candidate(trees, nb, v, rsize)
  {
    hide Sorted, Links, Candidate, Open, Above, PartOf, Trie.Apart, Least;
  }

  // ----- the next bin -----

  lemma TreeMarks(m: Mem, h: View)
    requires Sound(m, h)
    ensures |h.trees| == 32 && forall j :: 0 <= j < 32 ==> (BinMap.Marked(h.tmap, j) <==> h.trees[j].Node?)
  {
    hide Tiled, Tagged, Owned, SmallBins, Links, Sorted, Trie.Apart, BinMap.Marked;
    forall j | 0 <= j < 32 ensures BinMap.Marked(h.tmap, j) <==> h.trees[j].Node? {
      assert TreeAt(m, h.tmap, h.trees, j);
    }
  }

  /** The map tricks find the next non-empty tree bin, or show that there is none. */
  lemma NextBin(m: Mem, h: View, idx: nat) returns (i: nat)
    requires Sound(m, h) && idx < 32
    ensures |h.trees| == 32
    ensures var left := BinMap.And(BinMap.LeftBits(BinMap.Bit(idx)), h.tmap);
      && (left != 0 ==> idx < i < 32 && BinMap.Bit2Idx(BinMap.LeastBit(left)) as int == i && h.trees[i].Node?)
      && (left != 0 ==> forall j :: idx < j < i ==> h.trees[j].Nil?)
      && (left == 0 ==> forall j :: idx < j < 32 ==> h.trees[j].Nil?)
  {
    hide Sound;
    hide BinMap.Marked, BinMap.And, BinMap.LeftBits, BinMap.Bit, BinMap.LeastBit, BinMap.Bit2Idx;
    TreeMarks(m, h);
    var left := BinMap.And(BinMap.LeftBits(BinMap.Bit(idx)), h.tmap);
    forall j: nat | j < 32 ensures BinMap.Marked(left, j) <==> idx < j && h.trees[j].Node? {
      BinMap.LeftBitsMeaning(h.tmap, idx, j);
    }
    if left != 0 {
      i := BinMap.LeastBitMeaning(left);
      assert BinMap.Marked(left, i);
    } else {
      i := 0;
      forall j: nat | idx < j < 32 ensures h.trees[j].Nil? {
        BinMap.ZeroMap(j);
      }
    }
  }

  /** The next bin's trie is where the search goes on when the request's own bin has nothing. */
  lemma NextBinTail(m: Mem, h: View, nb: int, i: nat)
    requires Sound(m, h) && LARGE <= nb < W32 && |h.trees| == 32 && 0 <= TreeIndexOf(nb) < i < 32 && h.trees[i].Node?
    requires forall j :: TreeIndexOf(nb) < j < i ==> h.trees[j].Nil?
    requires forall s :: s in Sizes(h.trees[TreeIndexOf(nb)]) ==> s < nb
    ensures Tail(m, h.trees, i, nb, 0, W32 - nb, h.trees[i], TreeBin(i), BinLo(i), BinBits(i))
  {
    var t, lo, b := h.trees[i], BinLo(i), BinBits(i);
    SoundSorts(m, h);
    WholeBranch(m, h, i);
    assert Sorted(t, lo, b);
    LeastCorrect(t, lo, b);
    hide Sound, Branch, TreeIndexOf, BinLo, BinBits, Least, Sizes, Sorted;
    var q := SizeHasPtr(t, lo, b, Least(t));
    hide Has;
    LaterBin(h.trees, nb, i, Least(t));
    LaterSizes(h.trees, nb, i, lo, b);
  }

  /** When the second loop has come to the end, v is the best fit of all. */
  lemma TailEnd(m: Mem, trees: Trees, i: nat, nb: int, v: int, rsize: int, par: int, lo: int, b: nat)
    requires Tail(m, trees, i, nb, v, rsize, Nil, par, lo, b)
    ensures Candidate(trees, nb, v, rsize)
    ensures v != 0 ==> NoBetter(trees, nb, rsize + nb)
    ensures v == 0 ==> NoFit(trees, nb)
  {
    hide Branch, Candidate, Has;
    forall k, p, s | 0 <= k < |trees| && Has(trees[k], p, s) && s >= nb ensures Beats(v, rsize, nb, s) {
    }
  }

  lemma TailParts(m: Mem, trees: Trees, i: nat, nb: int, v: int, rsize: int, t: Tree, par: int, lo: int, b: nat)
    requires Tail(m, trees, i, nb, v, rsize, t, par, lo, b)
    ensures |trees| == 32 && i < 32 && Branch(m, trees, i, t, par, lo, b) && Candidate(trees, nb, v, rsize)
    ensures rsize == 0 ==> v != 0 || nb == W32
    ensures t.Node? && rsize != 0 ==> t.size >= nb
  {
    hide Branch, Has;
    assert t.Node? ==> t.size in Sizes(t);
  }

  // ----- small requests: the least chunk of all -----

  /** The first tree bin that has chunks holds the least sizes. */
  lemma FirstBinTail(m: Mem, h: View, nb: int) returns (i: nat)
    requires Sound(m, h) && 0 < nb < LARGE && h.tmap != 0
    ensures |h.trees| == 32 && i < 32 && h.trees[i].Node? && BinMap.Bit2Idx(BinMap.LeastBit(h.tmap)) as int == i
    ensures Tail(m, h.trees, i, nb, 0, W32 - nb, h.trees[i], TreeBin(i), BinLo(i), BinBits(i))
  {
    hide Sound, Branch, TreeIndexOf, BinLo, BinBits, Least, Sizes, Sorted, BinMap.Marked, BinMap.LeastBit,
      BinMap.Bit2Idx, Links, Trie.Apart, PartOf;
    i := BinMap.LeastBitMeaning(h.tmap);
    TreeMarks(m, h);
    SoundSorts(m, h);
    WholeBranch(m, h, i);
    var t, lo, b := h.trees[i], BinLo(i), BinBits(i);
    BranchSorted(m, h.trees, i, t, TreeBin(i), lo, b);
    LeastCorrect(t, lo, b);
    var q := SizeHasPtr(t, lo, b, Least(t));
    hide Has;
    FirstLeast(h.trees, i, q, Least(t));
    FirstSizes(h.trees, i, lo, b);
  }

  lemma BranchSorted(m: Mem, trees: Trees, i: nat, t: Tree, par: int, lo: int, b: nat)
    requires i < |trees| && Branch(m, trees, i, t, par, lo, b)
    ensures Sorted(t, lo, b)
  {
  }

  lemma FirstLeast(trees: Trees, i: nat, q: int, z: int)
    requires Sorts(trees) && i < 32 && Has(trees[i], q, z)
    requires forall j :: 0 <= j < i ==> trees[j].Nil?
    requires forall s :: s in Sizes(trees[i]) ==> z <= s
    ensures forall k, p, s :: 0 <= k < 32 && Has(trees[k], p, s) ==> z <= s
  {
    forall k, p, s | 0 <= k < 32 && Has(trees[k], p, s) ensures z <= s {
      if k == i {
        HasProjects(trees[k], p, s);
      } else if s < z {
        IndexMonotone(s, z);
      }
    }
  }

  lemma FirstSizes(trees: Trees, i: nat, lo: int, b: nat)
    requires Sorts(trees) && i < 32 && Sorted(trees[i], lo, b)
    ensures forall s :: s in Sizes(trees[i]) ==> s >= LARGE
  {
    forall s | s in Sizes(trees[i]) ensures s >= LARGE {
      var p := SizeHasPtr(trees[i], lo, b, s);
    }
  }
}
