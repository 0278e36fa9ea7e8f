/** The tag stores of allocation and release, each shown to keep the heap sound and to change the set
    of live chunks in exactly one way. */
module HeapSteps {
  import opened WordMemory
  import opened HeapLayout
  import opened HeapTags
  import opened HeapBins
  import opened HeapSound
  import opened Trie
  import opened TreeIndex
  import BinMap

  lemma PinuseWords(c: Chunk)
    requires c.size % 8 == 0
    ensures WithPinuse(HeadWord(c)) == HeadWord(c.(pinuse := true))
    ensures WithoutPinuse(HeadWord(c)) == HeadWord(c.(pinuse := false))
  {
    HeapTags.HeadParts(c.size, c.inuse, c.pinuse);
  }

  /** What surrounds a chunk. */
  lemma Around(m: Mem, h: View, p: int)
    requires Sound(m, h) && p in h.chunks
    ensures var c := h.chunks[p]; var e := p + c.size;
      && Rd(m, p + HEAD) == HeadWord(c) && c.size % 8 == 0 && c.size >= MIN_CHUNK
      && p % 8 == 0 && h.base <= p && e <= h.top
      && (e in h.chunks || e == h.top)
      && (e in h.chunks ==>
        Rd(m, e + HEAD) == HeadWord(h.chunks[e]) && h.chunks[e].pinuse == c.inuse && h.chunks[e].size % 8 == 0
          && e < h.top)
      && (!c.inuse ==> e in h.chunks && h.chunks[e].inuse && c.pinuse && Rd(m, e) == c.size)
  {
    hide Owned, SmallBins, TreeBins, Shape, HeadWord;
    ShapeOf(h.base, h.top, h.chunks, p);
    assert TagsAt(m, h.chunks, p);
    var e := p + h.chunks[p].size;
    if e in h.chunks {
      BelowTop(h.base, h.top, h.chunks, e);
      ShapeOf(h.base, h.top, h.chunks, e);
      assert TagsAt(m, h.chunks, e);
    }
  }

  // ----- a loose chunk taken whole -----

  function AfterUse(h: View, p: int): View
    requires p in h.chunks
  {
    AfterCut(h, p, p + h.chunks[p].size, Chunk(h.chunks[p].size, true, true), h.loose - {p})
  }

  lemma UseLive(m: Mem, h: View, p: int)
    requires Sound(m, h) && p in h.chunks && !h.chunks[p].inuse
    ensures Live(AfterUse(h, p).chunks) == Live(h.chunks)[p := h.chunks[p].size] && p !in Live(h.chunks)
  {
    hide Tagged, Owned, SmallBins, TreeBins, Shape, Cut;
    Parts(m, h);
    OnlyInside(h.base, h.top, h.chunks, p);
    BelowTop(h.base, h.top, h.chunks, p);
    ShapeOf(h.base, h.top, h.chunks, p);
    hide Sound, Tiled;
    LiveCut(h.chunks, p, p + h.chunks[p].size, Chunk(h.chunks[p].size, true, true));
  }

  /** When a range holds one chunk only, in use or becoming so. */
  lemma LiveCut(cs: Chunks, a: int, e: int, c: Chunk)
    requires a in cs && a < e && c.inuse
    requires forall q :: q in cs && a < q < e ==> !cs[q].inuse
    ensures Live(Cut(cs, a, e, c)) == Live(cs)[a := c.size]
  {
    hide Cut;
    var l, r := Live(Cut(cs, a, e, c)), Live(cs)[a := c.size];
    assert forall p :: p in l <==> p in r;
    assert forall p :: p in l ==> l[p] == r[p];
  }

  lemma UseSound(m: Mem, m': Mem, h: View, p: int)
    requires Sound(m, h) && p in h.loose && p in h.chunks
    requires m' == SetInuseAndPinuse(m, p, h.chunks[p].size)
    ensures Sound(m', AfterUse(h, p)) && Kept(m, m', h.chunks)
    ensures Live(AfterUse(h, p).chunks) == Live(h.chunks)[p := h.chunks[p].size] && p !in Live(h.chunks)
  {
    hide Sound, Tiled, Tagged, Cut, Live;
    LooseIs(m, h, p);
    var c, e := Chunk(h.chunks[p].size, true, true), p + h.chunks[p].size;
    Around(m, h, p);
    PinuseWords(h.chunks[e]);
    assert CutStores(m, m', h, p, e, c);
    Inside(m, h, p);
    LooseWithout(h, p, e, c);
    CutSound(m, m', h, p, e, c, h.loose - {p});
    CutKept(m, m', h, p, e, c, p);
    KeptFree(m, m', h.chunks, p);
    UseLive(m, h, p);
  }

  lemma Inside(m: Mem, h: View, p: int)
    requires Sound(m, h) && p in h.chunks
    ensures Range(h.top, h.chunks, p, p + h.chunks[p].size)
    ensures forall q :: q in h.chunks && p <= q < p + h.chunks[p].size ==> q == p
    ensures forall q :: q in h.loose ==> q in h.chunks && !h.chunks[q].inuse
  {
    hide Tagged, SmallBins, TreeBins, Shape;
    OnlyInside(h.base, h.top, h.chunks, p);
    ShapeOf(h.base, h.top, h.chunks, p);
  }

  lemma LooseWithout(h: View, p: int, e: int, c: Chunk)
    requires p in h.chunks && p < e && c.inuse && forall q :: q in h.chunks && p <= q < e ==> q == p
    requires forall q :: q in h.loose ==> q in h.chunks
    ensures LooseAfter(h, p, e, c, h.loose - {p})
    ensures p in h.loose ==> RangeLoose(h.chunks, h.loose, p, e)
  {
  }

  lemma KeptFree(m: Mem, m': Mem, cs: Chunks, p: int)
    requires KeptBut(m, m', cs, p) && p in cs && !cs[p].inuse
    ensures Kept(m, m', cs)
  {
  }

  /** The other loose chunks stay as they are. */
  lemma UseOthers(m: Mem, h: View, p: int)
    requires Sound(m, h) && p in h.loose && p in h.chunks
    ensures forall q :: q in h.loose && q != p ==> q in AfterUse(h, p).chunks && AfterUse(h, p).chunks[q] == h.chunks[q]
  {
    hide Sound, Cut;
    Inside(m, h, p);
    LooseIs(m, h, p);
    Around(m, h, p);
  }

  // ----- a loose chunk taken in part -----

  /** The chunk p is in use with its first n bytes; the rest is a loose chunk. */
  function AfterCarve(h: View, p: int, n: int): View
    requires p in h.chunks
  {
    var s := h.chunks[p].size;
    var h2 := AfterSplit(AfterUse(h, p), p, n);
    AfterCut(h2, p + n, p + s, Chunk(s - n, false, true), h.loose - {p} + {p + n})
  }

  ghost predicate CarveStores(m: Mem, m': Mem, p: int, n: int, s: int) {
    && Rd(m', p + HEAD) == n + 3 && Rd(m', p + n + HEAD) == s - n + 1 && Rd(m', p + s) == s - n
    && forall w :: w != p + HEAD && w != p + n + HEAD && w != p + s ==> Rd(m', w) == Rd(m, w)
  }

  /** A memory with the chunk p taken whole and then split in two. */
  function UsedAndSplit(m: Mem, p: int, n: int, s: int): Mem {
    Wr(Wr(SetInuseAndPinuse(m, p, s), p + HEAD, n + 3), p + n + HEAD, s - n + 3)
  }

  /** The chunks between the two halves of the step. */
  ghost predicate Between(m: Mem, h: View, p: int, n: int)
    requires p in h.chunks
  {
    var s := h.chunks[p].size;
    var e, r, cs1 := p + s, p + n, AfterUse(h, p).chunks;
    && r !in h.chunks && e in h.chunks && h.chunks[e].inuse && !h.chunks[e].pinuse && h.chunks[e].size % 8 == 0
    && Rd(m, e + HEAD) == HeadWord(h.chunks[e]) && Rd(m, p + HEAD) == HeadWord(h.chunks[p])
    && e != h.top && e != p && r != e && r != p
    && cs1 == h.chunks[p := Chunk(s, true, true)][e := h.chunks[e].(pinuse := true)]
  }

  lemma CarveMid(m: Mem, h: View, p: int, n: int)
    requires Sound(m, h) && p in h.loose && p in h.chunks
    requires n % 8 == 0 && n >= MIN_CHUNK && h.chunks[p].size - n >= MIN_CHUNK
    ensures Between(m, h, p, n)
  {
    hide Sound, Tiled, Tagged, Cut, HeadWord;
    Inside(m, h, p);
    Around(m, h, p);
    LooseIs(m, h, p);
    var s := h.chunks[p].size;
    var r := h.chunks[p := Chunk(s, true, true)][p + s := h.chunks[p + s].(pinuse := true)];
    var cs1 := AfterUse(h, p).chunks;
    assert forall q :: q in cs1 <==> q in r;
    assert forall q :: q in r ==> cs1[q] == r[q];
  }

  lemma CarveHalf(m: Mem, h: View, p: int, n: int)
    requires Sound(m, h) && p in h.loose && p in h.chunks
    requires n % 8 == 0 && n >= MIN_CHUNK && h.chunks[p].size - n >= MIN_CHUNK
    ensures var h1, m1 := AfterUse(h, p), UsedAndSplit(m, p, n, h.chunks[p].size);
      && Sound(m1, AfterSplit(h1, p, n)) && Kept(m, m1, h.chunks) && p + n !in h.chunks
      && Live(AfterUse(h, p).chunks) == Live(h.chunks)[p := h.chunks[p].size] && p !in Live(h.chunks)
      && p in h1.chunks && h1.chunks[p] == Chunk(h.chunks[p].size, true, true)
  {
    hide Sound, Tiled, Tagged, Cut, Live;
    var s := h.chunks[p].size;
    var m0, h1 := SetInuseAndPinuse(m, p, s), AfterUse(h, p);
    var m1 := UsedAndSplit(m, p, n, s);
    CarveMid(m, h, p, n);
    UseSound(m, m0, h, p);
    assert SplitStores(m0, m1, h1, p, n);
    SplitSound(m0, m1, h1, p, n);
    hide SetInuseAndPinuse, UsedAndSplit;
    LiveIn(h.chunks, p);
    KeptThrough(m, m0, m1, h.chunks, h1.chunks, p);
  }

  lemma LiveIn(cs: Chunks, p: int)
    ensures p in Live(cs) <==> p in cs && cs[p].inuse
  {
  }

  /** Contents of live chunks survive two steps when they survive each. */
  lemma KeptThrough(m: Mem, m1: Mem, m2: Mem, cs: Chunks, cs1: Chunks, but: int)
    requires Kept(m, m1, cs) && KeptBut(m1, m2, cs1, but) && but !in Live(cs)
    requires forall p :: p in Live(cs) ==> p in Live(cs1) && Live(cs1)[p] == Live(cs)[p]
    ensures Kept(m, m2, cs)
  {
    forall p, w | p in cs && cs[p].inuse && PayloadWord(cs, p, w) ensures Rd(m2, w) == Rd(m, w) {
      assert p in Live(cs);
      assert p in cs1 && cs1[p].inuse && PayloadWord(cs1, p, w);
    }
  }

  lemma CarveStep(m: Mem, m': Mem, h: View, h2: View, p: int, n: int, s: int)
    requires n % 8 == 0 && n >= MIN_CHUNK && s - n >= MIN_CHUNK && p + s in h.chunks && h.chunks[p + s].size % 8 == 0
    requires h.chunks[p + s].inuse && !h.chunks[p + s].pinuse && Rd(m, p + s + HEAD) == HeadWord(h.chunks[p + s])
    requires CarveStores(m, m', p, n, s)
    requires h2.chunks ==
      h.chunks[p := Chunk(n, true, true)][p + s := h.chunks[p + s].(pinuse := true)][p + n := Chunk(s - n, true, true)]
    requires h2.top != p + s
    ensures CutStores(UsedAndSplit(m, p, n, s), m', h2, p + n, p + s, Chunk(s - n, false, true))
  {
    var m1, r, e, c := UsedAndSplit(m, p, n, s), p + n, p + s, Chunk(s - n, false, true);
    PinuseWords(h.chunks[e]);
    HeadWordOf(h.chunks[e]);
    assert h2.chunks[e] == h.chunks[e].(pinuse := true);
    assert h2.chunks[e].(pinuse := false) == h.chunks[e];
  }

  lemma HeadWordOf(c: Chunk)
    requires c.inuse && !c.pinuse
    ensures HeadWord(c) == HeadWord(c.(pinuse := false))
  {
  }

  lemma CarveCut(m: Mem, m': Mem, h: View, p: int, n: int)
    requires p in h.chunks && Between(m, h, p, n)
    requires n % 8 == 0 && n >= MIN_CHUNK && h.chunks[p].size - n >= MIN_CHUNK
    requires CarveStores(m, m', p, n, h.chunks[p].size)
    ensures p in AfterUse(h, p).chunks
    ensures var s := h.chunks[p].size; var h2, c := AfterSplit(AfterUse(h, p), p, n), Chunk(s - n, false, true);
      && CutStores(UsedAndSplit(m, p, n, s), m', h2, p + n, p + s, c)
      && p + n in h2.chunks && h2.chunks[p + n] == Chunk(s - n, true, true) && p + s in h2.chunks
        && h2.chunks[p + s].inuse
  {
    hide CutStores, CarveStores, AfterUse;
    CarveChunks(m, h, p, n);
    CarveStep(m, m', h, AfterSplit(AfterUse(h, p), p, n), p, n, h.chunks[p].size);
  }

  lemma CarveSound(m: Mem, m': Mem, h: View, p: int, n: int)
    requires Sound(m, h) && p in h.loose && p in h.chunks
    requires n % 8 == 0 && n >= MIN_CHUNK && h.chunks[p].size - n >= MIN_CHUNK
    requires CarveStores(m, m', p, n, h.chunks[p].size)
    ensures Sound(m', AfterCarve(h, p, n)) && Kept(m, m', h.chunks)
  {
    hide *;
    var s := h.chunks[p].size;
    CarveHalf(m, h, p, n);
    var h2, m1 := AfterSplit(AfterUse(h, p), p, n), UsedAndSplit(m, p, n, s);
    var r, e, c := p + n, p + s, Chunk(s - n, false, true);
    CarveMid(m, h, p, n);
    CarveCut(m, m', h, p, n);
    CarveLoose(m, h, p, n);
    Inside(m1, h2, r);
    CutSound(m1, m', h2, r, e, c, h.loose - {p} + {r});
    CutKept(m1, m', h2, r, e, c, r);
    CarveLive(m, h, p, n);
    KeptThrough(m, m1, m', h.chunks, h2.chunks, r);
    AfterCarveIs(h, p, n);
  }

  lemma AfterCarveIs(h: View, p: int, n: int)
    requires p in h.chunks
    ensures AfterCarve(h, p, n) == AfterCut(AfterSplit(AfterUse(h, p), p, n), p + n, p + h.chunks[p].size,
      Chunk(h.chunks[p].size - n, false, true), h.loose - {p} + {p + n})
  {
  }

  ghost predicate Halved(h: View, h2: View, p: int, n: int)
    requires p in h.chunks
  {
    var s := h.chunks[p].size;
    var e := p + s;
    && h2.top == h.top && e in h.chunks && e != h.top
    && h2.chunks ==
      h.chunks[p := Chunk(n, true, true)][e := h.chunks[e].(pinuse := true)][p + n := Chunk(s - n, true, true)]
    && h2.chunks[p + n] == Chunk(s - n, true, true) && e in h2.chunks && h2.chunks[e].inuse
  }

  lemma CarveChunks(m: Mem, h: View, p: int, n: int)
    requires p in h.chunks && Between(m, h, p, n)
    ensures p in AfterUse(h, p).chunks && Halved(h, AfterSplit(AfterUse(h, p), p, n), p, n)
  {
    hide Cut, HeadWord;
  }

  lemma CarveLoose(m: Mem, h: View, p: int, n: int)
    requires Sound(m, h) && p in h.loose && p in h.chunks
    requires n % 8 == 0 && n >= MIN_CHUNK && h.chunks[p].size - n >= MIN_CHUNK
    ensures var s := h.chunks[p].size; var h2 := AfterSplit(AfterUse(h, p), p, n);
      && LooseAfter(h2, p + n, p + s, Chunk(s - n, false, true), h.loose - {p} + {p + n})
      && RangeLoose(h2.chunks, h2.loose, p + n, p + s)
      && h2.chunks.Keys == h.chunks.Keys + {p + n} && h2.top == h.top
      && (forall q :: q in h2.chunks && p + n <= q < p + s ==> q == p + n)
      && Range(h2.top, h2.chunks, p + n, p + s)
  {
    hide Sound, Tiled, Tagged, Owned, SmallBins, TreeBins;
    Inside(m, h, p);
    Around(m, h, p);
  }

  lemma CarveLive(m: Mem, h: View, p: int, n: int)
    requires Sound(m, h) && p in h.loose && p in h.chunks
    requires n % 8 == 0 && n >= MIN_CHUNK && h.chunks[p].size - n >= MIN_CHUNK
    ensures var r, h2 := p + n, AfterSplit(AfterUse(h, p), p, n);
      && r !in Live(h.chunks) && p !in Live(h.chunks)
      && (forall q :: q in Live(h.chunks) ==> q in Live(h2.chunks) && Live(h2.chunks)[q] == Live(h.chunks)[q])
  {
    hide Sound, Tiled, Tagged, Owned, SmallBins, TreeBins;
    Inside(m, h, p);
    Around(m, h, p);
  }

  /** After carving, p is live with n bytes, the rest is loose, and nothing else changed. */
  lemma CarveResult(m: Mem, h: View, p: int, n: int)
    requires Sound(m, h) && p in h.loose && p in h.chunks
    requires n % 8 == 0 && n >= MIN_CHUNK && h.chunks[p].size - n >= MIN_CHUNK
    ensures var h', r, s := AfterCarve(h, p, n), p + n, h.chunks[p].size;
      && Live(h'.chunks) == Live(h.chunks)[p := n] && p !in Live(h.chunks)
      && h'.loose == h.loose - {p} + {r} && r in h'.chunks && h'.chunks[r] == Chunk(s - n, false, true)
      && (forall q :: q in h.loose && q != p ==> q in h'.chunks && h'.chunks[q] == h.chunks[q])
  {
    hide Sound, Tiled, Tagged, Owned, SmallBins, TreeBins;
    Inside(m, h, p);
    Around(m, h, p);
    var h', r := AfterCarve(h, p, n), p + n;
    var l := Live(h.chunks)[p := n];
    assert r !in h.chunks;
    assert forall q :: q in Live(h'.chunks) <==> q in l;
    assert forall q :: q in l ==> Live(h'.chunks)[q] == l[q];
  }

  // ----- a live chunk released -----

  /** The free chunk in front of p, when p's mark says there is one. */
  lemma PrevChunk(m: Mem, h: View, p: int) returns (q: int)
    requires Sound(m, h) && p in h.chunks && !h.chunks[p].pinuse
    ensures q in h.chunks && q + h.chunks[q].size == p && !h.chunks[q].inuse && h.chunks[q].pinuse
    ensures q == p - Rd(m, p) && h.chunks[q].size == Rd(m, p)
  {
    hide Tagged, Owned, SmallBins, TreeBins, Shape;
    ShapeOf(h.base, h.top, h.chunks, p);
    BelowTop(h.base, h.top, h.chunks, p);
    q := Covered(h.base, h.top, h.chunks, p - 1, h.base);
    Aside(h.base, h.top, h.chunks, q, p);
    ShapeOf(h.base, h.top, h.chunks, q);
    hide Tiled;
    Around(m, h, q);
  }

  /** The chunk p0 and its free neighbours [a, e): what is released together. */
  ghost predicate Released(h: View, p0: int, a: int) {
    && p0 in h.chunks && h.chunks[p0].inuse
    && ((a == p0 && h.chunks[p0].pinuse) || (a in h.loose && a in h.chunks && a + h.chunks[a].size == p0))
  }

  function AfterFree(h: View, a: int, e: int): View {
    AfterCut(h, a, e, Chunk(e - a, false, true), (set p | p in h.loose && !(a <= p < e)) + {a})
  }

  /** Nothing but p0 and the given free chunks is in the range. */
  lemma RangeHolds(m: Mem, h: View, p0: int, a: int)
    requires Sound(m, h) && Released(h, p0, a)
    ensures var n := p0 + h.chunks[p0].size;
      && a in h.chunks && a <= p0 < n && a % 8 == 0 && h.base <= a && h.chunks[a].pinuse && n <= h.top && n % 8 == 0
      && (forall q :: q in h.chunks && a <= q < n ==> q == a || q == p0)
      && (forall q :: q in h.loose ==> q in h.chunks && !h.chunks[q].inuse)
  {
    hide Tagged, SmallBins, TreeBins, Shape;
    Inside(m, h, p0);
    Inside(m, h, a);
    ShapeOf(h.base, h.top, h.chunks, p0);
    ShapeOf(h.base, h.top, h.chunks, a);
  }

  lemma LiveRelease(cs: Chunks, p0: int, a: int, e: int, c: Chunk)
    requires p0 in cs && cs[p0].inuse && a in cs && a <= p0 < e && !c.inuse
    requires forall q :: q in cs && a <= q < e ==> q == p0 || !cs[q].inuse
    ensures Live(Cut(cs, a, e, c)) == Live(cs) - {p0}
  {
    hide Cut;
    var l, r := Live(Cut(cs, a, e, c)), Live(cs) - {p0};
    assert forall p :: p in l <==> p in r;
    assert forall p :: p in l ==> l[p] == r[p];
  }

  /** p0 released together with the free chunk in front of it, if any, its successor being in use. */
  lemma FreeSound(m: Mem, m': Mem, h: View, p0: int, a: int)
    requires Sound(m, h) && Released(h, p0, a) && p0 + h.chunks[p0].size in h.chunks
      && h.chunks[p0 + h.chunks[p0].size].inuse
    requires var e := p0 + h.chunks[p0].size; m' == SetFree(m, a, e - a, e)
    ensures var e := p0 + h.chunks[p0].size;
      && Sound(m', AfterFree(h, a, e)) && KeptBut(m, m', h.chunks, p0)
      && Live(AfterFree(h, a, e).chunks) == Live(h.chunks) - {p0}
  {
    hide Sound, Tiled, Tagged, Cut, Live;
    var e := p0 + h.chunks[p0].size;
    RangeHolds(m, h, p0, a);
    Around(m, h, p0);
    PinuseWords(h.chunks[e]);
    var c := Chunk(e - a, false, true);
    assert CutStores(m, m', h, a, e, c);
    assert RangeLoose(h.chunks, h.loose, a, e);
    CutSound(m, m', h, a, e, c, AfterFree(h, a, e).loose);
    CutKept(m, m', h, a, e, c, p0);
    LiveRelease(h.chunks, p0, a, e, c);
  }

  /** The same with the free chunk n behind it. */
  lemma MergeSound(m: Mem, m': Mem, h: View, p0: int, a: int, n: int)
    requires Sound(m, h) && Released(h, p0, a) && n == p0 + h.chunks[p0].size && n in h.loose && n in h.chunks
    requires var e := n + h.chunks[n].size; m' == SetSizeOfFree(m, a, e - a)
    ensures var e := n + h.chunks[n].size;
      && Sound(m', AfterFree(h, a, e)) && KeptBut(m, m', h.chunks, p0)
      && Live(AfterFree(h, a, e).chunks) == Live(h.chunks) - {p0}
  {
    hide Sound, Tiled, Tagged, Cut, Live;
    var e := n + h.chunks[n].size;
    RangeHolds(m, h, p0, a);
    Around(m, h, p0);
    Inside(m, h, n);
    Around(m, h, n);
    assert h.chunks[e].(pinuse := false) == h.chunks[e];
    var c := Chunk(e - a, false, true);
    assert CutStores(m, m', h, a, e, c);
    assert RangeLoose(h.chunks, h.loose, a, e);
    CutSound(m, m', h, a, e, c, AfterFree(h, a, e).loose);
    CutKept(m, m', h, a, e, c, p0);
    LiveRelease(h.chunks, p0, a, e, c);
  }

  /** What is loose afterwards: the released range, and the other loose chunks as they were. */
  lemma FreeLoose(m: Mem, h: View, p0: int, a: int)
    requires Sound(m, h) && Released(h, p0, a) && p0 + h.chunks[p0].size in h.chunks
      && h.chunks[p0 + h.chunks[p0].size].inuse
    ensures var e := p0 + h.chunks[p0].size; var h' := AfterFree(h, a, e);
      && h'.loose == h.loose + {a} && a in h'.chunks && h'.chunks[a] == Chunk(e - a, false, true)
      && (forall q :: q in h.loose && q != a ==> q in h.chunks && q in h'.chunks && h'.chunks[q] == h.chunks[q])
  {
    hide Sound, Cut, Live;
    RangeHolds(m, h, p0, a);
  }

  lemma MergeLoose(m: Mem, h: View, p0: int, a: int, n: int)
    requires Sound(m, h) && Released(h, p0, a) && n == p0 + h.chunks[p0].size && n in h.loose && n in h.chunks
    ensures var e := n + h.chunks[n].size; var h' := AfterFree(h, a, e);
      && h'.loose == h.loose - {n} + {a} && a in h'.chunks && h'.chunks[a] == Chunk(e - a, false, true)
      && (forall q :: q in h.loose && q != a && q != n ==>
        q in h.chunks && q in h'.chunks && h'.chunks[q] == h.chunks[q])
  {
    hide Sound, Cut, Live;
    RangeHolds(m, h, p0, a);
    Inside(m, h, n);
    Around(m, h, n);
  }

  lemma TopLoose(m: Mem, h: View, p0: int, a: int)
    requires Sound(m, h) && Released(h, p0, a) && p0 + h.chunks[p0].size == h.top
    ensures var h' := AfterDrop(h, a, h.top + h.topsize - a);
      && h'.loose == h.loose - {a}
      && (forall q :: q in h.loose && q != a ==> q in h.chunks && q in h'.chunks && h'.chunks[q] == h.chunks[q])
  {
    hide Sound, Below, Live;
    RangeHolds(m, h, p0, a);
    AllBelow(m, h);
  }

  /** The same with top behind it. */
  lemma TopMergeSound(m: Mem, m': Mem, h: View, p0: int, a: int)
    requires Sound(m, h) && Released(h, p0, a) && p0 + h.chunks[p0].size == h.top
    requires m' == Wr(m, a + HEAD, h.top + h.topsize - a + 1)
    ensures Sound(m', AfterDrop(h, a, h.top + h.topsize - a)) && KeptBut(m, m', h.chunks, p0)
    ensures Live(AfterDrop(h, a, h.top + h.topsize - a).chunks) == Live(h.chunks) - {p0}
  {
    hide Sound, Tiled, Tagged, Below, Live;
    RangeHolds(m, h, p0, a);
    AllBelow(m, h);
    assert RangeLoose(h.chunks, h.loose, a, h.top);
    DropSound(m, m', h, a, h.top + h.topsize - a);
    DropKept(m, m', h, a, p0, h.top + h.topsize - a + 1);
    LiveDrop(h.chunks, p0, a, h.top);
  }

  lemma AllBelow(m: Mem, h: View)
    requires Sound(m, h)
    ensures forall p :: p in h.chunks ==> h.base <= p < h.top
  {
    hide Tagged, Owned, SmallBins, TreeBins, Tiled;
    forall p | p in h.chunks ensures h.base <= p < h.top { BelowTop(h.base, h.top, h.chunks, p); }
  }

  lemma LiveDrop(cs: Chunks, p0: int, a: int, top: int)
    requires p0 in cs && cs[p0].inuse && a <= p0 < top
    requires forall q :: q in cs && a <= q < top ==> q == p0 || !cs[q].inuse
    requires forall q :: q in cs ==> q < top
    ensures Live(Below(cs, a)) == Live(cs) - {p0}
  {
    hide Below;
    var l, r := Live(Below(cs, a)), Live(cs) - {p0};
    assert forall p :: p in l <==> p in r;
    assert forall p :: p in l ==> l[p] == r[p];
  }

  // ----- results seen from outside -----

  /** Chunk p with s bytes became live; the other live chunks kept their place, size and contents. */
  ghost predicate Took(m: Mem, m': Mem, cs: Chunks, cs': Chunks, p: int, s: int) {
    Live(cs') == Live(cs)[p := s] && p !in Live(cs) && Kept(m, m', cs)
  }

  /** Nothing happened to the live chunks. */
  ghost predicate Same(m: Mem, m': Mem, cs: Chunks, cs': Chunks) {
    Live(cs') == Live(cs) && Kept(m, m', cs)
  }

  /** Chunk p is live no more; the other live chunks kept their place, size and contents. */
  ghost predicate Gave(m: Mem, m': Mem, cs: Chunks, cs': Chunks, p: int) {
    Live(cs') == Live(cs) - {p} && KeptBut(m, m', cs, p)
  }

  lemma SameIs(m: Mem, cs: Chunks)
    ensures Same(m, m, cs, cs)
  {
  }

  lemma LiveKept(m: Mem, m1: Mem, m2: Mem, cs: Chunks, cs1: Chunks)
    requires Kept(m, m1, cs) && Kept(m1, m2, cs1)
    requires forall p :: p in Live(cs) ==> p in Live(cs1) && Live(cs1)[p] == Live(cs)[p]
    ensures Kept(m, m2, cs)
  {
    forall p, w | p in cs && cs[p].inuse && PayloadWord(cs, p, w) ensures Rd(m2, w) == Rd(m, w) {
      assert p in Live(cs);
      assert p in cs1 && cs1[p].inuse && PayloadWord(cs1, p, w);
    }
  }

  lemma SameThenTook(m: Mem, m1: Mem, m2: Mem, cs: Chunks, cs1: Chunks, cs2: Chunks, p: int, s: int)
    requires Same(m, m1, cs, cs1) && Took(m1, m2, cs1, cs2, p, s)
    ensures Took(m, m2, cs, cs2, p, s)
  {
    hide Live, Kept;
    LiveKept(m, m1, m2, cs, cs1);
  }

  lemma TookThenSame(m: Mem, m1: Mem, m2: Mem, cs: Chunks, cs1: Chunks, cs2: Chunks, p: int, s: int)
    requires Took(m, m1, cs, cs1, p, s) && Same(m1, m2, cs1, cs2)
    ensures Took(m, m2, cs, cs2, p, s)
  {
    hide Live, Kept;
    LiveKept(m, m1, m2, cs, cs1);
  }

  lemma SameThenGave(m: Mem, m1: Mem, m2: Mem, cs: Chunks, cs1: Chunks, cs2: Chunks, p: int)
    requires Same(m, m1, cs, cs1) && Gave(m1, m2, cs1, cs2, p)
    ensures Gave(m, m2, cs, cs2, p)
  {
    forall q, w | q in cs && cs[q].inuse && q != p && PayloadWord(cs, q, w) ensures Rd(m2, w) == Rd(m, w) {
      assert q in Live(cs) && Live(cs1)[q] == Live(cs)[q];
      assert PayloadWord(cs1, q, w);
    }
  }

  lemma GaveThenSame(m: Mem, m1: Mem, m2: Mem, cs: Chunks, cs1: Chunks, cs2: Chunks, p: int)
    requires Gave(m, m1, cs, cs1, p) && Same(m1, m2, cs1, cs2)
    ensures Gave(m, m2, cs, cs2, p)
  {
    forall q, w | q in cs && cs[q].inuse && q != p && PayloadWord(cs, q, w) ensures Rd(m2, w) == Rd(m, w) {
      assert q in Live(cs) && q in Live(cs1) && Live(cs1)[q] == Live(cs)[q];
      assert PayloadWord(cs1, q, w);
    }
  }

  // ----- top -----

  /** A heap with nothing in it but top. */
  function Empty(base: int, topsize: int): View {
    View(base, base, topsize, map[], {}, seq(32, _ => []), seq(32, _ => Nil), 0, 0)
  }

  lemma EmptySound(m: Mem, base: int, topsize: int)
    requires STATE_END <= base && base % 8 == 0 && topsize > 0 && topsize % 8 == 0 && base + topsize < W32
    requires Rd(m, base + HEAD) == topsize + 1 && forall i :: 0 <= i < 32 ==> Rd(m, TreeBin(i)) == 0
    ensures Sound(m, Empty(base, topsize))
  {
    hide BinMap.Marked;
    var h := Empty(base, topsize);
    forall i | 0 <= i < 32 ensures SmallAt(m, 0, h.small, i) && TreeAt(m, 0, h.trees, i) {
      BinMap.ZeroMap(i);
    }
  }

  /** Top gets a new size: its head and the word behind it are written. */
  lemma TopResized(m: Mem, h: View, size: int)
    requires Sound(Wr(m, h.top + HEAD, h.topsize + 1), h) && size > 0 && size % 8 == 0 && h.top + size < W32
    ensures var m' := Wr(Wr(m, h.top + HEAD, size + 1), h.top + size + HEAD, 40);
      Sound(m', h.(topsize := size)) && Kept(m, m', h.chunks)
    ensures h.top % 8 == 0
  {
    hide Tiled, Tagged, Owned, SmallBins, TreeBins;
    var m0 := Wr(m, h.top + HEAD, h.topsize + 1);
    var m' := Wr(Wr(m, h.top + HEAD, size + 1), h.top + size + HEAD, 40);
    Parts(m0, h);
    AllBelow(m0, h);
    TopAligned(h.base, h.top, h.chunks);
    TaggedTop(m0, m', h.base, h.top, h.chunks, h.topsize, size);
    AboveBase(h.base, h.top, h.chunks);
    BinsOutside(m0, m', h.base, h.top, h.chunks, h.loose, h.small, h.trees, h.smap, h.tmap, h.top, h.top + size);
    KeptOutside(m, m', h.base, h.top, h.chunks, h.top, h.top + size, h.top);
    KeptAll(m, m', h.chunks, h.top);
  }

  lemma AboveBase(base: int, top: int, cs: Chunks)
    requires Tiled(base, top, cs)
    ensures base <= top
  {
  }

  lemma TaggedTop(m: Mem, m': Mem, base: int, top: int, cs: Chunks, topsize: int, size: int)
    requires Tiled(base, top, cs) && Tagged(m, cs, top, topsize)
    requires forall w :: w < top + HEAD ==> Rd(m', w) == Rd(m, w)
    requires Rd(m', top + HEAD) == size + 1
    ensures Tagged(m', cs, top, size)
  {
    hide Shape;
    forall p | p in cs ensures TagsAt(m', cs, p) {
      assert TagsAt(m, cs, p);
      ShapeOf(base, top, cs, p);
    }
  }
}
