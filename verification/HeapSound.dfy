/** The heap invariant as one predicate, and one lemma for each kind of step that keeps it: linking and
    unlinking a chunk of a bin, turning a range of chunks into one chunk, splitting a chunk, and moving
    the boundary of the top chunk. */
module HeapSound {
  import opened WordMemory
  import opened Seqs
  import opened HeapLayout
  import opened HeapTags
  import opened HeapBins
  import opened Trie
  import opened TrieLinks
  import opened TrieUnlink
  import opened TrieStores
  import opened TreeIndex
  import BinMap
  import Ring

  /** What a heap holds.  `loose` are the free chunks that are in no bin: between calls at most the
      designated victim. */
  datatype View = View(base: int, top: int, topsize: int, chunks: Chunks, loose: set<int>,
                       small: Small, trees: Trees, smap: bv32, tmap: bv32)

  ghost predicate Bounds(h: View) {
    && STATE_END <= h.base && h.top + h.topsize < W32
    && h.topsize % 8 == 0 && h.topsize > 0
  }

  /** The invariant that the allocator's own debugging checks spell out. */
  ghost predicate Sound(m: Mem, h: View) {
    && Bounds(h)
    && Tiled(h.base, h.top, h.chunks)
    && Tagged(m, h.chunks, h.top, h.topsize)
    && Owned(h.chunks, h.loose, h.small, h.trees)
    && SmallBins(m, h.smap, h.small)
    && TreeBins(m, h.tmap, h.trees)
  }

  lemma SizeBound(m: Mem, h: View, p: int)
    requires Sound(m, h) && p in h.chunks
    ensures MIN_CHUNK <= h.chunks[p].size < W32 && h.chunks[p].size % 8 == 0 && h.base <= p < h.top
  {
    hide Tagged, Owned, SmallBins, TreeBins;
    ShapeOf(h.base, h.top, h.chunks, p);
  }

  // ----- small bins -----

  /** The header words of small bin i. */
  function SmallLo(i: nat): int { SmallBin(i) + FD }
  function SmallHi(i: nat): int { SmallBin(i) + BK + 4 }

  /** d are free chunks of small bin i's size. */
  ghost predicate OfSmall(cs: Chunks, d: set<int>, i: nat) {
    FreeChunks(cs, d) && forall p :: p in d ==> p in cs && cs[p].size == 8 * i
  }

  lemma SmallBeside(m: Mem, m': Mem, h: View, bits': bv32, i: nat, d: set<int>, j: nat)
    requires Sound(m, h) && i < 32 && OfSmall(h.chunks, d, i) && j < 32 && j != i
    requires BodyOnly(m, m', h.chunks, d, SmallLo(i), SmallHi(i))
    requires BinMap.Marked(bits', j) == BinMap.Marked(h.smap, j)
    ensures SmallAt(m', bits', h.small, j)
  {
    hide Shape, BodyOnly, BinMap.Marked, Tagged, TreeBins, Tiled;
    assert SmallAt(m, h.smap, h.small, j);
    forall p | p in h.small[j] ensures p !in d {
      SmallPtr(h.chunks, h.loose, h.small, h.trees, j, p);
    }
    hide Owned, FreeChunks, SmallAt;
    SmallUntouched(m, m', h.base, h.top, h.chunks, h.loose, h.small, h.trees, h.smap, bits', d, SmallLo(i),
      SmallHi(i), j);
  }

  lemma SmallBinsStep(m: Mem, m': Mem, h: View, bits': bv32, i: nat, s: seq<int>, d: set<int>)
    requires Sound(m, h) && i < 32 && OfSmall(h.chunks, d, i)
    requires BodyOnly(m, m', h.chunks, d, SmallLo(i), SmallHi(i))
    requires forall j :: 0 <= j < 32 && j != i ==> BinMap.Marked(bits', j) == BinMap.Marked(h.smap, j)
    requires SmallAt(m', bits', h.small[i := s], i)
    ensures SmallBins(m', bits', h.small[i := s])
  {
    var small' := h.small[i := s];
    assert |h.small| == 32;
    forall j | 0 <= j < 32 && j != i ensures SmallAt(m', bits', small', j) {
      hide Sound, BodyOnly, OfSmall;
      SmallBeside(m, m', h, bits', i, d, j);
    }
  }

  lemma TreeBeside(m: Mem, m': Mem, h: View, d: set<int>, i: nat, j: nat)
    requires Sound(m, h) && i < 32 && OfSmall(h.chunks, d, i) && j < 32
    requires BodyOnly(m, m', h.chunks, d, SmallLo(i), SmallHi(i))
    ensures TreeAt(m', h.tmap, h.trees, j)
  {
    hide Shape, BodyOnly, BinMap.Marked, Tagged, SmallBins, Tiled;
    assert TreeAt(m, h.tmap, h.trees, j);
    hide TreeAt;
    forall p | p in Ptrs(h.trees[j]) ensures p !in d {
      TreePtr(h.chunks, h.loose, h.small, h.trees, j, p);
    }
    hide Owned, FreeChunks;
    TreeUntouched(m, m', h.base, h.top, h.chunks, h.loose, h.small, h.trees, h.tmap, h.tmap, d, SmallLo(i),
      SmallHi(i), j);
  }

  /** What every operation on small bin i leaves alone. */
  lemma SmallRest(m: Mem, m': Mem, h: View, d: set<int>, i: nat)
    requires Sound(m, h) && i < 32 && OfSmall(h.chunks, d, i)
    requires BodyOnly(m, m', h.chunks, d, SmallLo(i), SmallHi(i))
    ensures Tagged(m', h.chunks, h.top, h.topsize) && TreeBins(m', h.tmap, h.trees) && Kept(m, m', h.chunks)
  {
    forall j | 0 <= j < 32 ensures TreeAt(m', h.tmap, h.trees, j) {
      hide Sound, BodyOnly, OfSmall;
      TreeBeside(m, m', h, d, i, j);
    }
    assert |h.trees| == 32;
    hide Tiled, Tagged, Owned, TreeBins, SmallBins, BodyOnly, FreeChunks;
    BodyTagged(m, m', h.base, h.top, h.topsize, h.chunks, d, SmallLo(i), SmallHi(i));
    BodyKept(m, m', h.base, h.top, h.chunks, d, SmallLo(i), SmallHi(i));
    assert TreeBins(m', h.tmap, h.trees) by { TreeBinsIntro(m', h.tmap, h.trees); }
  }

  lemma TreeBinsIntro(m: Mem, bits: bv32, trees: Trees)
    requires |trees| == 32 && forall j :: 0 <= j < 32 ==> TreeAt(m, bits, trees, j)
    ensures TreeBins(m, bits, trees)
  {
  }

  lemma SmallIs(m: Mem, h: View, i: nat)
    requires Sound(m, h) && i < 32
    ensures |h.small| == 32 && SmallAt(m, h.smap, h.small, i)
    ensures forall p :: p in h.small[i] ==>
      p in h.chunks && !h.chunks[p].inuse && h.chunks[p].size == 8 * i && h.chunks[p].size >= MIN_CHUNK && h.base <= p
        && p !in h.loose
    ensures NoDup(h.small[i])
  {
    hide Tagged, TreeBins;
    SmallFree(h.base, h.top, h.chunks, h.loose, h.small, h.trees, i);
    forall p | p in h.small[i] ensures p in h.chunks && h.chunks[p].size == 8 * i && p !in h.loose {
      SmallPtr(h.chunks, h.loose, h.small, h.trees, i, p);
    }
  }

  function AfterSmallLink(h: View, i: nat, x: int): View
    requires i < |h.small|
  {
    h.(loose := h.loose - {x}, small := h.small[i := [x] + h.small[i]], smap := BinMap.Mark(h.smap, i))
  }

  lemma LooseIs(m: Mem, h: View, x: int)
    requires Sound(m, h) && x in h.loose
    ensures x in h.chunks && !h.chunks[x].inuse && h.chunks[x].pinuse
    ensures MIN_CHUNK <= h.chunks[x].size < W32 && h.chunks[x].size % 8 == 0 && h.base <= x < h.top
  {
    assert x in h.chunks && !h.chunks[x].inuse;
    hide Tagged, Owned, SmallBins, TreeBins;
    ShapeOf(h.base, h.top, h.chunks, x);
  }

  /** A chunk keeps clear of the chunks of a bin it is not in. */
  lemma ClearOf(h: View, i: nat, x: int)
    requires Tiled(h.base, h.top, h.chunks) && x in h.chunks && i < |h.small|
    requires forall p :: p in h.small[i] ==> p in h.chunks && p != x
    ensures forall p :: p in h.small[i] ==> p + 8 <= x || x + 8 <= p
  {
    hide Shape;
    forall p | p in h.small[i] ensures p + 8 <= x || x + 8 <= p {
      ShapeOf(h.base, h.top, h.chunks, p);
      ShapeOf(h.base, h.top, h.chunks, x);
    }
  }

  lemma MarkAll(bits: bv32, i: nat)
    requires i < 32
    ensures forall j :: 0 <= j < 32 ==> (BinMap.Marked(BinMap.Mark(bits, i), j) <==> j == i || BinMap.Marked(bits, j))
    ensures forall j :: 0 <= j < 32 ==> (BinMap.Marked(BinMap.Clear(bits, i), j) <==> j != i && BinMap.Marked(bits, j))
  {
    hide BinMap.Marked, BinMap.Mark, BinMap.Clear;
    forall j | 0 <= j < 32
      ensures BinMap.Marked(BinMap.Mark(bits, i), j) <==> j == i || BinMap.Marked(bits, j)
      ensures BinMap.Marked(BinMap.Clear(bits, i), j) <==> j != i && BinMap.Marked(bits, j)
    {
      BinMap.MarkMeaning(bits, i, j);
    }
  }

  lemma Parts(m: Mem, h: View)
    requires Sound(m, h)
    ensures Tiled(h.base, h.top, h.chunks) && Tagged(m, h.chunks, h.top, h.topsize)
    ensures Owned(h.chunks, h.loose, h.small, h.trees) && SmallBins(m, h.smap, h.small) && TreeBins(m, h.tmap, h.trees)
    ensures |h.small| == 32 && |h.trees| == 32 && Bounds(h)
  {
    hide Tiled, Tagged, TreeBins;
  }

  /** Linking a loose chunk into its small bin keeps the heap sound and every live chunk's contents. */
  lemma SmallLinked(m: Mem, h: View, i: nat, x: int)
    requires Sound(m, h) && i < 32 && x in h.loose && h.chunks[x].size == 8 * i
    ensures |h.small| == 32
    ensures var m' := SmallLinkStores(m, SmallBin(i), x, BinMap.Marked(h.smap, i));
      Sound(m', AfterSmallLink(h, i, x)) && Kept(m, m', h.chunks)
  {
    hide *;
    Parts(m, h);
    LooseIs(m, h, x);
    var s := h.small[i];
    var m' := SmallLinkStores(m, SmallBin(i), x, s != []);
    SmallLinkBin(m, h, i, x);
    SmallLinkOwned(m, h, i, x);
    SmallRest(m, m', h, SetOf(s) + {x}, i);
    SmallBinsStep(m, m', h, BinMap.Mark(h.smap, i), i, [x] + s, SetOf(s) + {x});
    AfterLinkFields(h, i, x);
    Resound(m, m', h, AfterSmallLink(h, i, x));
  }

  lemma AfterLinkFields(h: View, i: nat, x: int)
    requires i < |h.small|
    ensures var h' := AfterSmallLink(h, i, x);
      && h'.base == h.base && h'.top == h.top && h'.topsize == h.topsize && h'.chunks == h.chunks
      && h'.loose == h.loose - {x} && h'.small == h.small[i := [x] + h.small[i]] && h'.trees == h.trees
      && h'.smap == BinMap.Mark(h.smap, i) && h'.tmap == h.tmap
  {
  }

  lemma SmallLinkOwned(m: Mem, h: View, i: nat, x: int)
    requires Sound(m, h) && i < 32 && |h.small| == 32 && x in h.loose && x in h.chunks && h.chunks[x].size == 8 * i
    ensures Owned(h.chunks, h.loose - {x}, h.small[i := [x] + h.small[i]], h.trees)
  {
    hide Tiled, Tagged, Owned, SmallBins, TreeBins;
    OwnedSmallLink(h.chunks, h.loose, h.small, h.trees, i, x);
  }

  /** What happens to the bin itself. */
  lemma SmallLinkBin(m: Mem, h: View, i: nat, x: int)
    requires Sound(m, h) && i < 32 && |h.small| == 32 && x in h.loose && x in h.chunks && h.chunks[x].size == 8 * i
    ensures var s := h.small[i]; var d := SetOf(s) + {x};
      var m', bits' := SmallLinkStores(m, SmallBin(i), x, s != []), BinMap.Mark(h.smap, i);
      && OfSmall(h.chunks, d, i) && BodyOnly(m, m', h.chunks, d, SmallLo(i), SmallHi(i))
      && SmallAt(m', bits', h.small[i := [x] + s], i)
      && (forall j :: 0 <= j < 32 && j != i ==> BinMap.Marked(bits', j) == BinMap.Marked(h.smap, j))
      && (BinMap.Marked(h.smap, i) <==> s != [])
  {
    hide Tiled, Tagged, Owned, SmallBins, TreeBins, Ring.IsRing, BodyOnly, SmallLinkStores, BinMap.Marked, BinMap.Mark;
    SmallIs(m, h, i);
    LooseIs(m, h, x);
    ClearOf(h, i, x);
    MarkAll(h.smap, i);
    SmallLinkFrame(m, h.chunks, h.small[i], SmallBin(i), x);
    FrontRing(m, SmallBin(i), h.small[i], x);
  }

  /** The parts put together. */
  lemma Resound(m: Mem, m': Mem, h: View, h': View)
    requires Sound(m, h) && h'.base == h.base && h'.top == h.top && h'.topsize == h.topsize && h'.chunks == h.chunks
    requires Tagged(m', h'.chunks, h'.top, h'.topsize) && Owned(h'.chunks, h'.loose, h'.small, h'.trees)
    requires SmallBins(m', h'.smap, h'.small) && TreeBins(m', h'.tmap, h'.trees)
    ensures Sound(m', h')
  {
    hide Tiled, Tagged, Owned, SmallBins, TreeBins;
  }

  function AfterSmallUnlink(h: View, i: nat, k: nat): View
    requires i < |h.small| && k < |h.small[i]|
  {
    h.(loose := h.loose + {h.small[i][k]}, small := h.small[i := Without(h.small[i], k)],
       smap := if |h.small[i]| == 1 then BinMap.Clear(h.smap, i) else h.smap)
  }

  /** Unlinking the k-th chunk of a small bin makes it loose; all else stays. */
  lemma SmallUnlinked(m: Mem, h: View, i: nat, k: nat)
    requires Sound(m, h) && i < 32 && |h.small| == 32 && k < |h.small[i]|
    ensures var x := h.small[i][k]; var m' := SmallUnlinkStores(m, x);
      && Sound(m', AfterSmallUnlink(h, i, k)) && Kept(m, m', h.chunks)
      && (Rd(m, x + FD) == Rd(m, x + BK) <==> |h.small[i]| == 1)
  {
    hide *;
    Parts(m, h);
    var s := h.small[i];
    var m' := SmallUnlinkStores(m, s[k]);
    var bits' := if |s| == 1 then BinMap.Clear(h.smap, i) else h.smap;
    SmallUnlinkBin(m, h, i, k);
    OwnedSmallUnlink(h.chunks, h.loose, h.small, h.trees, i, k);
    SmallRest(m, m', h, SetOf(s), i);
    SmallBinsStep(m, m', h, bits', i, Without(s, k), SetOf(s));
    AfterUnlinkFields(h, i, k);
    Resound(m, m', h, AfterSmallUnlink(h, i, k));
  }

  lemma AfterUnlinkFields(h: View, i: nat, k: nat)
    requires i < |h.small| && k < |h.small[i]|
    ensures var h' := AfterSmallUnlink(h, i, k);
      && h'.base == h.base && h'.top == h.top && h'.topsize == h.topsize && h'.chunks == h.chunks
      && h'.loose == h.loose + {h.small[i][k]} && h'.small == h.small[i := Without(h.small[i], k)]
        && h'.trees == h.trees
      && h'.smap == (if |h.small[i]| == 1 then BinMap.Clear(h.smap, i) else h.smap) && h'.tmap == h.tmap
  {
  }

  lemma SmallUnlinkBin(m: Mem, h: View, i: nat, k: nat)
    requires Sound(m, h) && i < 32 && |h.small| == 32 && k < |h.small[i]|
    ensures var s := h.small[i]; var x := s[k];
      var m', bits' := SmallUnlinkStores(m, x), if |s| == 1 then BinMap.Clear(h.smap, i) else h.smap;
      && OfSmall(h.chunks, SetOf(s), i) && BodyOnly(m, m', h.chunks, SetOf(s), SmallLo(i), SmallHi(i))
      && SmallAt(m', bits', h.small[i := Without(s, k)], i)
      && (forall j :: 0 <= j < 32 && j != i ==> BinMap.Marked(bits', j) == BinMap.Marked(h.smap, j))
      && (Rd(m, x + FD) == Rd(m, x + BK) <==> |s| == 1)
  {
    hide Tiled, Tagged, Owned, SmallBins, TreeBins, Ring.IsRing, BodyOnly, BinMap.Marked, BinMap.Clear;
    SmallIs(m, h, i);
    MarkAll(h.smap, i);
    WithoutAt(h.small[i], k);
    AloneInRing(m, SmallBin(i), h.small[i], k);
    SmallUnlinkFrame(m, h.chunks, h.small[i], SmallBin(i), k);
  }

  // ----- tree bins -----

  ghost predicate OfTree(cs: Chunks, d: set<int>, i: nat) {
    FreeChunks(cs, d) && forall p :: p in d ==> p in cs && LARGE <= cs[p].size < W32 && TreeIndexOf(cs[p].size) == i
  }

  function TreeHi(i: nat): int { TreeBin(i) + 4 }

  lemma OtherTree(m: Mem, m': Mem, h: View, bits': bv32, i: nat, d: set<int>, j: nat)
    requires Sound(m, h) && i < 32 && OfTree(h.chunks, d, i) && j < 32 && j != i
    requires BodyOnly(m, m', h.chunks, d, TreeBin(i), TreeHi(i))
    requires BinMap.Marked(bits', j) == BinMap.Marked(h.tmap, j)
    ensures TreeAt(m', bits', h.trees, j)
  {
    hide Shape, BodyOnly, BinMap.Marked, Tagged, SmallBins, Tiled, TreeIndexOf;
    assert TreeAt(m, h.tmap, h.trees, j);
    hide TreeAt;
    forall p | p in Ptrs(h.trees[j]) ensures p !in d {
      TreePtr(h.chunks, h.loose, h.small, h.trees, j, p);
    }
    hide Owned, FreeChunks;
    TreeUntouched(m, m', h.base, h.top, h.chunks, h.loose, h.small, h.trees, h.tmap, bits', d, TreeBin(i), TreeHi(i),
      j);
  }

  lemma SmallBesideTree(m: Mem, m': Mem, h: View, i: nat, d: set<int>, j: nat)
    requires Sound(m, h) && i < 32 && OfTree(h.chunks, d, i) && j < 32
    requires BodyOnly(m, m', h.chunks, d, TreeBin(i), TreeHi(i))
    ensures SmallAt(m', h.smap, h.small, j)
  {
    hide Shape, BodyOnly, BinMap.Marked, Tagged, TreeBins, Tiled, TreeIndexOf;
    assert SmallAt(m, h.smap, h.small, j);
    hide SmallAt;
    forall p | p in h.small[j] ensures p !in d {
      SmallPtr(h.chunks, h.loose, h.small, h.trees, j, p);
    }
    hide Owned, FreeChunks;
    SmallUntouched(m, m', h.base, h.top, h.chunks, h.loose, h.small, h.trees, h.smap, h.smap, d, TreeBin(i),
      TreeHi(i), j);
  }

  lemma SmallBinsIntro(m: Mem, bits: bv32, small: Small)
    requires |small| == 32 && forall j :: 0 <= j < 32 ==> SmallAt(m, bits, small, j)
    ensures SmallBins(m, bits, small)
  {
  }

  /** What every operation on tree bin i leaves alone. */
  lemma TreeRest(m: Mem, m': Mem, h: View, d: set<int>, i: nat)
    requires Sound(m, h) && i < 32 && OfTree(h.chunks, d, i)
    requires BodyOnly(m, m', h.chunks, d, TreeBin(i), TreeHi(i))
    ensures Tagged(m', h.chunks, h.top, h.topsize) && SmallBins(m', h.smap, h.small) && Kept(m, m', h.chunks)
  {
    hide Tiled, Tagged, Owned, TreeBins, SmallBins, BodyOnly, FreeChunks;
    Parts(m, h);
    forall j | 0 <= j < 32 ensures SmallAt(m', h.smap, h.small, j) {
      hide Sound, OfTree;
      SmallBesideTree(m, m', h, i, d, j);
    }
    BodyTagged(m, m', h.base, h.top, h.topsize, h.chunks, d, TreeBin(i), TreeHi(i));
    BodyKept(m, m', h.base, h.top, h.chunks, d, TreeBin(i), TreeHi(i));
    SmallBinsIntro(m', h.smap, h.small);
  }

  lemma TreeBinsStep(m: Mem, m': Mem, h: View, bits': bv32, i: nat, t: Tree, d: set<int>)
    requires Sound(m, h) && i < 32 && OfTree(h.chunks, d, i)
    requires BodyOnly(m, m', h.chunks, d, TreeBin(i), TreeHi(i))
    requires forall j :: 0 <= j < 32 && j != i ==> BinMap.Marked(bits', j) == BinMap.Marked(h.tmap, j)
    requires |h.trees| == 32 && TreeAt(m', bits', h.trees[i := t], i)
    ensures TreeBins(m', bits', h.trees[i := t])
  {
    var trees' := h.trees[i := t];
    forall j | 0 <= j < 32 && j != i ensures TreeAt(m', bits', trees', j) {
      hide Sound, BodyOnly, OfTree;
      OtherTree(m, m', h, bits', i, d, j);
    }
  }

  /** Facts about tree bin i. */
  lemma TreeIs(m: Mem, h: View, i: nat)
    requires Sound(m, h) && i < 32
    ensures |h.trees| == 32
    ensures var t := h.trees[i];
      && (BinMap.Marked(h.tmap, i) <==> t.Node?) && Rd(m, TreeBin(i)) == Root(t) && Links(m, t, TreeBin(i), i)
      && Sorted(t, BinLo(i), BinBits(i)) && Trie.Apart(t) && Spread(Ptrs(t)) && OfTree(h.chunks, Ptrs(t), i)
      && (forall p :: p in Ptrs(t) ==> p !in h.loose && h.base <= p)
  {
    hide Tagged, SmallBins, Links, Sorted, Trie.Apart, BinMap.Marked, Shape, TreeIndexOf;
    assert TreeAt(m, h.tmap, h.trees, i);
    TreeSpread(h.base, h.top, h.chunks, h.loose, h.small, h.trees, i);
    forall p | p in Ptrs(h.trees[i])
      ensures p in h.chunks && !h.chunks[p].inuse && LARGE <= h.chunks[p].size < W32
        && TreeIndexOf(h.chunks[p].size) == i && p !in h.loose && h.base <= p
    {
      TreePtr(h.chunks, h.loose, h.small, h.trees, i, p);
      BelowTop(h.base, h.top, h.chunks, p);
    }
  }

  /** Chunks of a large size are far from each other. */
  lemma FarFrom(h: View, d: set<int>, x: int)
    requires Tiled(h.base, h.top, h.chunks) && x in h.chunks && h.chunks[x].size >= LARGE && x !in d && Spread(d)
    requires forall p :: p in d ==> p in h.chunks && h.chunks[p].size >= LARGE
    ensures Spread(d + {x})
  {
    hide Shape;
    forall p, q | p in d + {x} && q in d + {x} && p != q ensures p + 32 <= q || q + 32 <= p {
      if p == x || q == x {
        assert p in h.chunks && q in h.chunks;
      }
    }
  }

  /** Link words lie in the bodies of large chunks. */
  lemma LinkWordsInBody(m: Mem, m': Mem, cs: Chunks, d: set<int>, slot: int)
    requires OnlyLinks(m, m', d, slot)
    requires forall p :: p in d ==> p in cs && cs[p].size >= LARGE
    ensures BodyOnly(m, m', cs, d, slot, slot + 4)
  {
    forall w | !(slot <= w < slot + 4) && !BodyWord(cs, d, w) ensures Rd(m', w) == Rd(m, w) {
      forall p | p in d ensures !(p + FD <= w < p + INDEX + 4) {
        if p + FD <= w < p + INDEX + 4 { InBody(cs, d, p, w); }
      }
    }
  }

  lemma TreeStored(m: Mem, h: View, i: nat)
    requires Sound(m, h) && i < 32
    ensures |h.trees| == 32
    ensures Stored(m, h.trees[i], TreeBin(i), i, BinLo(i), BinBits(i)) && OfTree(h.chunks, Ptrs(h.trees[i]), i)
    ensures BinMap.Marked(h.tmap, i) <==> h.trees[i].Node?
    ensures forall p :: p in Ptrs(h.trees[i]) ==> p !in h.loose && h.base <= p
    ensures TreeHi(i) <= h.base
  {
    hide Links, Sorted, Trie.Apart, Spread, BinMap.Marked, OfTree, Tiled, Tagged, Owned, SmallBins, TreeBins;
    TreeIs(m, h, i);
    assert !LinkWord(TreeBin(i), Ptrs(h.trees[i]));
  }

  lemma TreeLinkable(m: Mem, h: View, x: int)
    requires Sound(m, h) && x in h.loose && x in h.chunks && h.chunks[x].size >= LARGE
    ensures var s := h.chunks[x].size; var i := TreeIndexOf(s);
      && 0 <= i < 32 && |h.trees| == 32 && s < W32
      && Linkable(m, h.trees[i], TreeBin(i), i, BinLo(i), BinBits(i), x, s)
      && OfTree(h.chunks, Ptrs(h.trees[i]) + {x}, i)
  {
    hide Stored, TreeIndexOf, Tiled, Tagged, Owned, SmallBins, TreeBins, LinkWord, Spread, BinLo, BinBits;
    var s := h.chunks[x].size;
    LooseIs(m, h, x);
    TreeIndexCorrect(s);
    var i := TreeIndexOf(s);
    TreeStored(m, h, i);
    StoredSpread(m, h.trees[i], TreeBin(i), i, BinLo(i), BinBits(i));
    FarFrom(h, Ptrs(h.trees[i]), x);
    InBin(s, i);
    AboveSlot(TreeBin(i), Ptrs(h.trees[i]) + {x});
  }

  lemma StoredSpread(m: Mem, t: Tree, slot: int, bin: int, lo: int, b: nat)
    requires Stored(m, t, slot, bin, lo, b)
    ensures Spread(Ptrs(t))
  {
  }

  lemma AboveSlot(slot: int, d: set<int>)
    requires forall p :: p in d ==> slot < p
    ensures !LinkWord(slot, d)
  {
  }

  function AfterTreeLink(h: View, i: nat, x: int, s: int): View
    requires i < |h.trees|
  {
    h.(loose := h.loose - {x}, trees := h.trees[i := Insert(h.trees[i], BinLo(i), BinBits(i), x, s)],
       tmap := if BinMap.Marked(h.tmap, i) then h.tmap else BinMap.Mark(h.tmap, i))
  }

  lemma AfterTreeLinkFields(h: View, i: nat, x: int, s: int)
    requires i < |h.trees|
    ensures var h' := AfterTreeLink(h, i, x, s);
      && h'.base == h.base && h'.top == h.top && h'.topsize == h.topsize && h'.chunks == h.chunks
      && h'.loose == h.loose - {x} && h'.small == h.small
      && h'.trees == h.trees[i := Insert(h.trees[i], BinLo(i), BinBits(i), x, s)]
      && h'.smap == h.smap && h'.tmap == (if BinMap.Marked(h.tmap, i) then h.tmap else BinMap.Mark(h.tmap, i))
  {
  }

  /** The tree bin after linking. */
  lemma TreeLinkBin(m: Mem, h: View, x: int)
    requires Sound(m, h) && x in h.loose && x in h.chunks && h.chunks[x].size >= LARGE
    ensures h.chunks[x].size >= 0
    ensures var s := h.chunks[x].size; var i := TreeIndexOf(s);
      && 0 <= i < 32 && |h.trees| == 32 && s < W32
      && var t, bits' := h.trees[i], if BinMap.Marked(h.tmap, i) then h.tmap else BinMap.Mark(h.tmap, i);
      var m', t' := LinkStores(m, t, TreeBin(i), i, BinLo(i), BinBits(i), x, s), Insert(t, BinLo(i), BinBits(i), x, s);
      && OfTree(h.chunks, Ptrs(t) + {x}, i) && BodyOnly(m, m', h.chunks, Ptrs(t) + {x}, TreeBin(i), TreeHi(i))
      && TreeAt(m', bits', h.trees[i := t'], i)
      && (forall j :: 0 <= j < 32 && j != i ==> BinMap.Marked(bits', j) == BinMap.Marked(h.tmap, j))
      && (forall p, z :: Has(t', p, z) <==> Has(t, p, z) || (p == x && z == s))
  {
    hide TreeIndexOf, Tiled, Tagged, Owned, SmallBins, TreeBins, LinkWord, Spread, BinLo, BinBits, OfTree, Links,
      Sorted, BinMap.Marked, BinMap.Mark, LinkStores, Insert, Has, OnlyLinks, BodyOnly, Trie.Apart, Sound;
    var s := h.chunks[x].size;
    TreeLinkable(m, h, x);
    var i := TreeIndexOf(s);
    var t := h.trees[i];
    TreeStored(m, h, i);
    MarkAll(h.tmap, i);
    LinkCorrect(m, t, TreeBin(i), i, BinLo(i), BinBits(i), x, s);
    InsertCorrect(t, BinLo(i), BinBits(i), x, s);
    OfTreeLarge(h.chunks, Ptrs(t) + {x}, i);
    LinkWordsInBody(m, LinkStores(m, t, TreeBin(i), i, BinLo(i), BinBits(i), x, s), h.chunks, Ptrs(t) + {x},
      TreeBin(i));
    InsertNode(t, BinLo(i), BinBits(i), x, s);
  }

  lemma OfTreeLarge(cs: Chunks, d: set<int>, i: nat)
    requires OfTree(cs, d, i)
    ensures forall p :: p in d ==> p in cs && cs[p].size >= LARGE
  {
  }

  lemma InsertNode(t: Tree, lo: int, b: nat, x: int, s: int)
    ensures Insert(t, lo, b, x, s).Node?
  {
  }

  /** Linking a loose large chunk into its tree bin keeps the heap sound and every live chunk's contents. */
  lemma TreeLinked(m: Mem, h: View, x: int)
    requires Sound(m, h) && x in h.loose && x in h.chunks && h.chunks[x].size >= LARGE
    ensures var s := h.chunks[x].size; var i := TreeIndexOf(s);
      && 0 <= i < 32 && |h.trees| == 32
      && var m' := LinkStores(m, h.trees[i], TreeBin(i), i, BinLo(i), BinBits(i), x, s);
      Sound(m', AfterTreeLink(h, i, x, s)) && Kept(m, m', h.chunks)
  {
    hide *;
    Parts(m, h);
    TreeLinkBin(m, h, x);
    var s := h.chunks[x].size;
    var i := TreeIndexOf(s);
    var t := h.trees[i];
    var m' := LinkStores(m, t, TreeBin(i), i, BinLo(i), BinBits(i), x, s);
    var t' := Insert(t, BinLo(i), BinBits(i), x, s);
    var bits' := if BinMap.Marked(h.tmap, i) then h.tmap else BinMap.Mark(h.tmap, i);
    OwnedTreeLink(h.chunks, h.loose, h.small, h.trees, i, x, s, t');
    TreeRest(m, m', h, Ptrs(t) + {x}, i);
    TreeBinsStep(m, m', h, bits', i, t', Ptrs(t) + {x});
    AfterTreeLinkFields(h, i, x, s);
    Resound(m, m', h, AfterTreeLink(h, i, x, s));
  }

  function AfterTreeUnlink(h: View, i: nat, x: int, s: int): View
    requires i < |h.trees| && Sub(h.trees[i], BinLo(i), BinBits(i), s).Node?
      && x in Sub(h.trees[i], BinLo(i), BinBits(i), s).chain
  {
    var t' := Delete(h.trees[i], BinLo(i), BinBits(i), x, s);
    h.(loose := h.loose + {x}, trees := h.trees[i := t'], tmap := if t'.Nil? then BinMap.Clear(h.tmap, i) else h.tmap)
  }

  lemma AfterTreeUnlinkFields(h: View, i: nat, x: int, s: int)
    requires i < |h.trees| && Sub(h.trees[i], BinLo(i), BinBits(i), s).Node?
      && x in Sub(h.trees[i], BinLo(i), BinBits(i), s).chain
    ensures var h', t' := AfterTreeUnlink(h, i, x, s), Delete(h.trees[i], BinLo(i), BinBits(i), x, s);
      && h'.base == h.base && h'.top == h.top && h'.topsize == h.topsize && h'.chunks == h.chunks
      && h'.loose == h.loose + {x} && h'.small == h.small && h'.trees == h.trees[i := t']
      && h'.smap == h.smap && h'.tmap == (if t'.Nil? then BinMap.Clear(h.tmap, i) else h.tmap)
  {
  }

  /** A chunk of tree bin i, found by its size. */
  lemma TreeMemberOf(m: Mem, h: View, i: nat, x: int, s: int)
    requires Sound(m, h) && i < 32 && |h.trees| == 32 && Has(h.trees[i], x, s)
    ensures x in h.chunks && !h.chunks[x].inuse && x !in h.loose && h.chunks[x].size == s && LARGE <= s < W32
      && TreeIndexOf(s) == i
    ensures Member(h.trees[i], BinLo(i), BinBits(i), x, s)
  {
    hide Tiled, Tagged, SmallBins, TreeBins, Has, BinLo, BinBits, TreeIndexOf;
    assert TreeMember(h.chunks, h.loose, i, x, s);
    InBin(s, i);
  }

  lemma TreeUnlinkBin(m: Mem, h: View, i: nat, x: int, s: int)
    requires Sound(m, h) && i < 32 && |h.trees| == 32 && Has(h.trees[i], x, s)
    ensures var t, lo, b := h.trees[i], BinLo(i), BinBits(i);
      && Sub(t, lo, b, s).Node? && x in Sub(t, lo, b, s).chain
      && var m', t' := DropStores(m, t, TreeBin(i), lo, b, x, s), Delete(t, lo, b, x, s);
      var bits' := if t'.Nil? then BinMap.Clear(h.tmap, i) else h.tmap;
      && OfTree(h.chunks, Ptrs(t), i) && BodyOnly(m, m', h.chunks, Ptrs(t), TreeBin(i), TreeHi(i))
      && TreeAt(m', bits', h.trees[i := t'], i)
      && (forall j :: 0 <= j < 32 && j != i ==> BinMap.Marked(bits', j) == BinMap.Marked(h.tmap, j))
      && (forall p, z :: Has(t', p, z) <==> Has(t, p, z) && p != x)
  {
    hide TreeIndexOf, Tiled, Tagged, Owned, SmallBins, TreeBins, LinkWord, Spread, BinLo, BinBits, OfTree, Links,
      Sorted, BinMap.Marked, BinMap.Clear, DropStores, Delete, Has, OnlyLinks, BodyOnly, Trie.Apart, Sound, Sub;
    var t, lo, b := h.trees[i], BinLo(i), BinBits(i);
    TreeMemberOf(m, h, i, x, s);
    TreeStored(m, h, i);
    MarkAll(h.tmap, i);
    DropCorrect(m, t, TreeBin(i), i, lo, b, x, s);
    DeleteCorrect(t, lo, b, x, s);
    OfTreeLarge(h.chunks, Ptrs(t), i);
    LinkWordsInBody(m, DropStores(m, t, TreeBin(i), lo, b, x, s), h.chunks, Ptrs(t), TreeBin(i));
    HasNode(t, x, s);
  }

  lemma HasNode(t: Tree, x: int, s: int)
    requires Has(t, x, s)
    ensures t.Node?
  {
  }

  /** Unlinking a chunk of a tree bin makes it loose; all else stays. */
  lemma TreeUnlinked(m: Mem, h: View, i: nat, x: int, s: int)
    requires Sound(m, h) && i < 32 && |h.trees| == 32 && Has(h.trees[i], x, s)
    ensures var t, lo, b := h.trees[i], BinLo(i), BinBits(i);
      && Sub(t, lo, b, s).Node? && x in Sub(t, lo, b, s).chain
      && var m' := DropStores(m, t, TreeBin(i), lo, b, x, s);
      Sound(m', AfterTreeUnlink(h, i, x, s)) && Kept(m, m', h.chunks)
  {
    hide *;
    Parts(m, h);
    TreeUnlinkBin(m, h, i, x, s);
    var t, lo, b := h.trees[i], BinLo(i), BinBits(i);
    var m', t' := DropStores(m, t, TreeBin(i), lo, b, x, s), Delete(t, lo, b, x, s);
    var bits' := if t'.Nil? then BinMap.Clear(h.tmap, i) else h.tmap;
    OwnedTreeUnlink(h.chunks, h.loose, h.small, h.trees, i, x, s, t');
    TreeRest(m, m', h, Ptrs(t), i);
    TreeBinsStep(m, m', h, bits', i, t', Ptrs(t));
    AfterTreeUnlinkFields(h, i, x, s);
    Resound(m, m', h, AfterTreeUnlink(h, i, x, s));
  }

  // ----- tag operations -----

  function AfterCut(h: View, a: int, e: int, c: Chunk, loose': set<int>): View {
    h.(chunks := Cut(h.chunks, a, e, c), loose := loose')
  }

  /** The loose chunks after a range, whose free chunks were loose, has become one chunk. */
  ghost predicate LooseAfter(h: View, a: int, e: int, c: Chunk, loose': set<int>) {
    loose' == (set p | p in h.loose && !(a <= p < e)) + (if c.inuse then {} else {a})
  }

  lemma CutOwned(m: Mem, h: View, a: int, e: int, c: Chunk, loose': set<int>)
    requires Sound(m, h) && Range(h.top, h.chunks, a, e) && RangeLoose(h.chunks, h.loose, a, e)
      && LooseAfter(h, a, e, c, loose')
    ensures Owned(Cut(h.chunks, a, e, c), loose', h.small, h.trees)
  {
    hide Tiled, Tagged, SmallBins, TreeBins, Cut, Range;
    var r := Cut(h.chunks, a, e, c);
    assert forall p :: p in h.loose ==> p in h.chunks && !h.chunks[p].inuse;
    hide Owned;
    assert a in h.chunks && a < e by { RangeStart(h.top, h.chunks, a, e); }
    forall p | p in h.chunks && !h.chunks[p].inuse && p !in h.loose
      ensures p in r && !r[p].inuse && p !in loose' && r[p].size == h.chunks[p].size
    {
    }
    forall p | p in r && !r[p].inuse && p !in loose' ensures p in h.chunks && !h.chunks[p].inuse && p !in h.loose {
    }
    forall p | p in loose' ensures p in r && !r[p].inuse {
    }
    OwnedSame(h.chunks, r, h.loose, loose', h.small, h.trees);
  }

  lemma RangeStart(top: int, cs: Chunks, a: int, e: int)
    requires Range(top, cs, a, e)
    ensures a in cs && a < e && (e in cs || e == top)
  {
  }

  /** The stores of a tag operation that makes [a, e) the chunk c. */
  ghost predicate CutStores(m: Mem, m': Mem, h: View, a: int, e: int, c: Chunk) {
    && Outside(m, m', a, e) && Rd(m', a + HEAD) == HeadWord(c) && (!c.inuse ==> Rd(m', e) == c.size)
    && (e in h.chunks ==> Rd(m', e + HEAD) == HeadWord(h.chunks[e].(pinuse := c.inuse)))
    && (e == h.top ==> Rd(m', e + HEAD) == Rd(m, e + HEAD))
  }

  /** Turning a range into one chunk keeps the heap sound, and every live chunk outside the range intact. */
  lemma CutSound(m: Mem, m': Mem, h: View, a: int, e: int, c: Chunk, loose': set<int>)
    requires Sound(m, h) && Range(h.top, h.chunks, a, e) && RangeLoose(h.chunks, h.loose, a, e)
      && LooseAfter(h, a, e, c, loose')
    requires c.size == e - a && c.pinuse == h.chunks[a].pinuse
      && (!c.inuse ==> c.pinuse && e in h.chunks && h.chunks[e].inuse)
    requires CutStores(m, m', h, a, e, c)
    ensures Sound(m', AfterCut(h, a, e, c, loose'))
  {
    hide Tiled, Tagged, Owned, SmallBins, TreeBins, Cut, RangeLoose, Outside, LooseAfter, Shape, HeadWord;
    Parts(m, h);
    BelowTop(h.base, h.top, h.chunks, a);
    CutTiled(h.base, h.top, h.chunks, a, e, c);
    TaggedCut(m, m', h.base, h.top, h.topsize, h.chunks, a, e, c);
    CutOwned(m, h, a, e, c, loose');
    BinsOutside(m, m', h.base, h.top, h.chunks, h.loose, h.small, h.trees, h.smap, h.tmap, a, e);
  }

  lemma CutKept(m: Mem, m': Mem, h: View, a: int, e: int, c: Chunk, but: int)
    requires Sound(m, h) && Range(h.top, h.chunks, a, e) && CutStores(m, m', h, a, e, c)
    requires forall p :: p in h.chunks && a <= p < e && h.chunks[p].inuse ==> p == but
    ensures KeptBut(m, m', h.chunks, but)
  {
    hide Tiled, Tagged, Owned, SmallBins, TreeBins, Outside, HeadWord;
    KeptOutside(m, m', h.base, h.top, h.chunks, a, e, but);
  }

  function AfterSplit(h: View, p: int, n: int): View
    requires p in h.chunks
  {
    h.(chunks := Split(h.chunks, p, n))
  }

  ghost predicate SplitStores(m: Mem, m': Mem, h: View, p: int, n: int)
    requires p in h.chunks
  {
    && (forall w :: w != p + HEAD && w != p + n + HEAD ==> Rd(m', w) == Rd(m, w))
    && Rd(m', p + HEAD) == HeadWord(h.chunks[p].(size := n))
    && Rd(m', p + n + HEAD) == HeadWord(Chunk(h.chunks[p].size - n, true, true))
  }

  lemma SplitOwned(m: Mem, h: View, p: int, n: int)
    requires Sound(m, h) && p in h.chunks && h.chunks[p].inuse && p + n !in h.chunks
    ensures Owned(Split(h.chunks, p, n), h.loose, h.small, h.trees)
  {
    hide Tiled, Tagged, SmallBins, TreeBins;
    assert forall q :: q in h.loose ==> q in h.chunks && !h.chunks[q].inuse;
    hide Owned;
    OwnedSame(h.chunks, Split(h.chunks, p, n), h.loose, h.loose, h.small, h.trees);
  }

  /** Splitting a chunk in use keeps the heap sound. */
  lemma SplitSound(m: Mem, m': Mem, h: View, p: int, n: int)
    requires Sound(m, h) && p in h.chunks && h.chunks[p].inuse
    requires n % 8 == 0 && n >= MIN_CHUNK && h.chunks[p].size - n >= MIN_CHUNK
    requires SplitStores(m, m', h, p, n)
    ensures Sound(m', AfterSplit(h, p, n)) && KeptBut(m, m', h.chunks, p) && p + n !in h.chunks
    ensures forall w :: p + FD <= w < p + n + HEAD ==> Rd(m', w) == Rd(m, w)
  {
    hide Tiled, Tagged, Owned, SmallBins, TreeBins, Split, Shape, HeadWord;
    Parts(m, h);
    ShapeOf(h.base, h.top, h.chunks, p);
    var e := p + h.chunks[p].size;
    SplitTiled(h.base, h.top, h.chunks, p, n);
    TaggedSplit(m, m', h.base, h.top, h.topsize, h.chunks, p, n);
    SplitOwned(m, h, p, n);
    OnlyInside(h.base, h.top, h.chunks, p);
    BinsOutside(m, m', h.base, h.top, h.chunks, h.loose, h.small, h.trees, h.smap, h.tmap, p, e);
    KeptOutside(m, m', h.base, h.top, h.chunks, p, e, p);
  }

  /** A chunk's range holds only the chunk itself. */
  lemma OnlyInside(base: int, top: int, cs: Chunks, p: int)
    requires Tiled(base, top, cs) && p in cs
    ensures forall q :: q in cs && p <= q < p + cs[p].size ==> q == p
  {
    hide Shape;
  }

  // ----- the boundary of top -----

  function AfterDrop(h: View, a: int, size: int): View {
    h.(chunks := Below(h.chunks, a), loose := (set p | p in h.loose && p < a), top := a, topsize := size)
  }

  /** The chunks from a on, none of them in a bin, become part of top. */
  lemma DropSound(m: Mem, m': Mem, h: View, a: int, size: int)
    requires Sound(m, h) && a in h.chunks && h.chunks[a].pinuse && RangeLoose(h.chunks, h.loose, a, h.top)
    requires size == h.top + h.topsize - a
    requires m' == Wr(m, a + HEAD, size + 1)
    ensures Sound(m', AfterDrop(h, a, size))
  {
    hide Tiled, Tagged, Owned, SmallBins, TreeBins, Below, RangeLoose, Shape;
    Parts(m, h);
    ShapeOf(h.base, h.top, h.chunks, a);
    DropTiled(h.base, h.top, h.chunks, a);
    TaggedDrop(m, m', h.base, h.top, h.topsize, h.chunks, a, size);
    DropOwned(m, h, a, size);
    BinsOutside(m, m', h.base, h.top, h.chunks, h.loose, h.small, h.trees, h.smap, h.tmap, a, h.top);
    TopAligned(h.base, h.top, h.chunks);
  }

  lemma TopAligned(base: int, top: int, cs: Chunks)
    requires Tiled(base, top, cs)
    ensures top % 8 == 0
  {
  }

  lemma DropOwned(m: Mem, h: View, a: int, size: int)
    requires Sound(m, h) && a in h.chunks && RangeLoose(h.chunks, h.loose, a, h.top)
    ensures Owned(Below(h.chunks, a), AfterDrop(h, a, size).loose, h.small, h.trees)
  {
    hide Tagged, SmallBins, TreeBins, Below, Shape;
    assert forall p :: p in h.loose ==> p in h.chunks && !h.chunks[p].inuse;
    hide Owned;
    forall p | p in h.chunks && p !in h.loose && !h.chunks[p].inuse ensures p < a {
      BelowTop(h.base, h.top, h.chunks, p);
    }
    OwnedSame(h.chunks, Below(h.chunks, a), h.loose, AfterDrop(h, a, size).loose, h.small, h.trees);
  }

  lemma DropKept(m: Mem, m': Mem, h: View, a: int, but: int, w: int)
    requires Sound(m, h) && a in h.chunks && m' == Wr(m, a + HEAD, w)
    requires forall p :: p in h.chunks && a <= p && h.chunks[p].inuse ==> p == but
    ensures KeptBut(m, m', h.chunks, but)
  {
    hide Tiled, Tagged, Owned, SmallBins, TreeBins;
    BelowTop(h.base, h.top, h.chunks, a);
    KeptOutside(m, m', h.base, h.top, h.chunks, a, h.top, but);
  }

  function AfterGrow(h: View, n: int): View {
    h.(chunks := h.chunks[h.top := Chunk(n, true, true)], top := h.top + n, topsize := h.topsize - n)
  }

  /** A chunk in use is cut off the bottom of top. */
  lemma GrowSound(m: Mem, m': Mem, h: View, n: int)
    requires Sound(m, h) && n % 8 == 0 && MIN_CHUNK <= n < h.topsize
    requires m' == Wr(Wr(m, h.top + n + HEAD, h.topsize - n + 1), h.top + HEAD, n + 3)
    ensures Sound(m', AfterGrow(h, n)) && Kept(m, m', h.chunks) && h.top !in h.chunks
  {
    hide Tiled, Tagged, Owned, SmallBins, TreeBins, Shape;
    Parts(m, h);
    GrowTiled(h.base, h.top, h.chunks, n);
    TaggedGrow(m, m', h.base, h.top, h.topsize, h.chunks, n, h.topsize - n);
    GrowOwned(m, h, n);
    GrowOutside(m, m', h, n);
    forall p | p in h.chunks ensures p < h.top { BelowTop(h.base, h.top, h.chunks, p); }
    KeptOutside(m, m', h.base, h.top, h.chunks, h.top, h.top + n, h.top);
    KeptAll(m, m', h.chunks, h.top);
  }

  lemma GrowOutside(m: Mem, m': Mem, h: View, n: int)
    requires Sound(m, h) && n > 0
    requires m' == Wr(Wr(m, h.top + n + HEAD, h.topsize - n + 1), h.top + HEAD, n + 3)
    ensures SmallBins(m', h.smap, h.small) && TreeBins(m', h.tmap, h.trees)
  {
    hide Tagged, Owned, SmallBins, TreeBins, Shape;
    forall p | p in h.chunks ensures p < h.top { BelowTop(h.base, h.top, h.chunks, p); }
    BinsOutside(m, m', h.base, h.top, h.chunks, h.loose, h.small, h.trees, h.smap, h.tmap, h.top, h.top + n);
  }

  lemma KeptAll(m: Mem, m': Mem, cs: Chunks, but: int)
    requires KeptBut(m, m', cs, but) && but !in cs
    ensures Kept(m, m', cs)
  {
  }

  lemma GrowOwned(m: Mem, h: View, n: int)
    requires Sound(m, h) && h.top !in h.chunks
    ensures Owned(h.chunks[h.top := Chunk(n, true, true)], h.loose, h.small, h.trees)
  {
    hide Tiled, Tagged, SmallBins, TreeBins;
    assert forall q :: q in h.loose ==> q in h.chunks && !h.chunks[q].inuse;
    hide Owned;
    OwnedSame(h.chunks, h.chunks[h.top := Chunk(n, true, true)], h.loose, h.loose, h.small, h.trees);
  }
}
