/** The tag stores of resizing a chunk in place. */
module ResizeSteps {
  import opened WordMemory
  import opened HeapLayout
  import opened HeapTags
  import opened HeapBins
  import opened HeapSound
  import opened HeapSteps

  /** Chunk p has s bytes now and still holds what fits of its contents; nothing else changed. */
  ghost predicate Resized(m: Mem, m': Mem, cs: Chunks, cs': Chunks, p: int, s: int) {
    && p in Live(cs) && Live(cs') == Live(cs)[p := s] && KeptBut(m, m', cs, p)
    && forall w :: p + FD <= w < p + Live(cs)[p] + HEAD && w < p + s + HEAD ==> Rd(m', w) == Rd(m, w)
  }

  lemma WithPinuseOfIt(c: Chunk)
    requires c.size % 8 == 0
    ensures HeadWord(c) % 2 == (if c.pinuse then 1 else 0)
  {
    HeapTags.HeadParts(c.size, c.inuse, c.pinuse);
  }

  // ----- joining the free chunk behind -----

  function AfterJoin(h: View, p: int, e: int): View
    requires p in h.chunks
  {
    AfterCut(h, p, e, Chunk(e - p, true, h.chunks[p].pinuse), set q | q in h.loose && !(p <= q < e))
  }

  lemma JoinSound(m: Mem, m': Mem, h: View, p: int, n: int)
    requires Sound(m, h) && p in h.chunks && h.chunks[p].inuse && n == p + h.chunks[p].size && n in h.loose
      && n in h.chunks
    requires m' == SetInuse(m, p, h.chunks[p].size + h.chunks[n].size)
    ensures var e := n + h.chunks[n].size;
      && Sound(m', AfterJoin(h, p, e)) && Resized(m, m', h.chunks, AfterJoin(h, p, e).chunks, p, e - p)
      && p in AfterJoin(h, p, e).chunks && AfterJoin(h, p, e).chunks[p] == Chunk(e - p, true, h.chunks[p].pinuse)
      && AfterJoin(h, p, e).loose == h.loose - {n}
      && (forall q :: q in h.loose && q != n ==>
        q in h.chunks && q in AfterJoin(h, p, e).chunks && AfterJoin(h, p, e).chunks[q] == h.chunks[q])
  {
    hide Sound, Tiled, Tagged, Cut, Live;
    var e := n + h.chunks[n].size;
    Around(m, h, p);
    Inside(m, h, p);
    Inside(m, h, n);
    Around(m, h, n);
    PinuseWords(h.chunks[e]);
    WithPinuseOfIt(h.chunks[p]);
    var c := Chunk(e - p, true, h.chunks[p].pinuse);
    assert CutStores(m, m', h, p, e, c);
    assert RangeLoose(h.chunks, h.loose, p, e);
    CutSound(m, m', h, p, e, c, AfterJoin(h, p, e).loose);
    CutKept(m, m', h, p, e, c, p);
    LiveCut(h.chunks, p, e, c);
    LiveIn(h.chunks, p);
  }

  // ----- giving back the end -----

  lemma SplitLive(cs: Chunks, p: int, n: int)
    requires p in cs && cs[p].inuse && p + n !in cs && n != 0
    ensures Live(Split(cs, p, n)) == Live(cs)[p := n][p + n := cs[p].size - n]
  {
    var l, r := Live(Split(cs, p, n)), Live(cs)[p := n][p + n := cs[p].size - n];
    assert forall q :: q in l <==> q in r;
    assert forall q :: q in l ==> l[q] == r[q];
  }

  /** The two stores of `set_inuse` on the halves of a chunk in use. */
  function Halves(m: Mem, p: int, n: int, s: int): Mem {
    SetInuse(SetInuse(m, p, n), p + n, s - n)
  }

  lemma HalvesSound(m: Mem, h: View, p: int, n: int)
    requires Sound(m, h) && p in h.chunks && h.chunks[p].inuse
    requires n % 8 == 0 && n >= MIN_CHUNK && h.chunks[p].size - n >= MIN_CHUNK
    ensures var s := h.chunks[p].size; var m', cs' := Halves(m, p, n, s), Split(h.chunks, p, n);
      && Sound(m', AfterSplit(h, p, n)) && KeptBut(m, m', h.chunks, p) && p + n !in h.chunks
      && Live(cs') == Live(h.chunks)[p := n][p + n := s - n]
      && (forall w :: p + FD <= w < p + n + HEAD ==> Rd(m', w) == Rd(m, w))
      && (forall w :: w < p + HEAD ==> Rd(m', w) == Rd(m, w))
  {
    hide Sound, Tiled, Tagged, Live;
    var s := h.chunks[p].size;
    Around(m, h, p);
    WithPinuseOfIt(h.chunks[p]);
    EndMark(m, h, p);
    var m' := Halves(m, p, n, s);
    HalvesStores(m, h, p, n);
    SplitSound(m, m', h, p, n);
    SplitLive(h.chunks, p, n);
    assert AfterSplit(h, p, n).chunks == Split(h.chunks, p, n);
  }

  /** The word behind a chunk in use already carries its mark. */
  lemma EndMark(m: Mem, h: View, p: int)
    requires Sound(m, h) && p in h.chunks && h.chunks[p].inuse
    ensures Rd(m, p + h.chunks[p].size + HEAD) % 2 == 1
  {
    hide Sound;
    Around(m, h, p);
    var e := p + h.chunks[p].size;
    if e in h.chunks {
      WithPinuseOfIt(h.chunks[e]);
    } else {
      Parts(m, h);
      hide Tiled, Tagged, Owned, SmallBins, TreeBins;
      TopRead(m, h.chunks, h.top, h.topsize);
    }
  }

  lemma HalvesStores(m: Mem, h: View, p: int, n: int)
    requires p in h.chunks && h.chunks[p].inuse && Rd(m, p + HEAD) == HeadWord(h.chunks[p]) && h.chunks[p].size % 8 == 0
    requires n % 8 == 0 && n >= MIN_CHUNK && h.chunks[p].size - n >= MIN_CHUNK
    requires Rd(m, p + h.chunks[p].size + HEAD) % 2 == 1
    ensures SplitStores(m, Halves(m, p, n, h.chunks[p].size), h, p, n)
  {
    WithPinuseOfIt(h.chunks[p]);
    var m1 := SetInuse(m, p, n);
    var x := Rd(m, p + n + HEAD);
    assert WithPinuse(x) % 2 == 1 by { OddAfter(x); }
    assert Rd(m1, p + n + HEAD) == WithPinuse(x);
  }

  lemma OddAfter(x: int)
    ensures WithPinuse(x) % 2 == 1
  {
    assert WithPinuse(x) == 2 * (x / 2) + 1;
  }

  // ----- extending into top -----

  function AfterExtend(h: View, p: int, n: int): View
    requires p in h.chunks
  {
    h.(chunks := h.chunks[p := h.chunks[p].(size := n)], top := p + n, topsize := h.top + h.topsize - (p + n))
  }

  lemma ExtendTiled(base: int, top: int, cs: Chunks, p: int, n: int)
    requires Tiled(base, top, cs) && p in cs && p + cs[p].size == top && n > cs[p].size && n % 8 == 0
    ensures Tiled(base, p + n, cs[p := cs[p].(size := n)])
  {
    hide Shape;
    var cs' := cs[p := cs[p].(size := n)];
    ShapeOf(base, top, cs, p);
    forall q | q in cs' ensures Shape(base, p + n, cs', q) {
      ShapeOf(base, top, cs, q);
      ExtendShape(base, top, cs, p, n, q);
    }
    forall q, r | q in cs' && r in cs' && q < r ensures q + cs'[q].size <= r {
      Aside(base, top, cs, q, r);
      BelowTop(base, top, cs, r);
    }
  }

  lemma ExtendShape(base: int, top: int, cs: Chunks, p: int, n: int, q: int)
    requires Tiled(base, top, cs) && p in cs && p + cs[p].size == top && n > cs[p].size && n % 8 == 0 && q in cs
    ensures Shape(base, p + n, cs[p := cs[p].(size := n)], q)
  {
    hide Shape;
    ShapeOf(base, top, cs, q);
    ShapeOf(base, top, cs, p);
    var e := q + cs[q].size;
    if e in cs { BelowTop(base, top, cs, e); }
    if p + n in cs { BelowTop(base, top, cs, p + n); }
    if q < p { Aside(base, top, cs, q, p); }
    if p < q { Aside(base, top, cs, p, q); BelowTop(base, top, cs, q); }
    hide Tiled;
    ToShape(base, p + n, cs[p := cs[p].(size := n)], q);
  }

  lemma ExtendTagged(m: Mem, m': Mem, base: int, top: int, cs: Chunks, topsize: int, p: int, n: int, rest: int)
    requires Tiled(base, top, cs) && Tagged(m, cs, top, topsize) && p in cs && p + cs[p].size == top && cs[p].inuse
      && n > cs[p].size
    requires forall w :: w < p + n + HEAD && w != p + HEAD ==> Rd(m', w) == Rd(m, w)
    requires Rd(m', p + HEAD) == HeadWord(cs[p].(size := n)) && Rd(m', p + n + HEAD) == rest + 1
    ensures Tagged(m', cs[p := cs[p].(size := n)], p + n, rest)
  {
    hide Shape;
    var cs' := cs[p := cs[p].(size := n)];
    forall q | q in cs' ensures TagsAt(m', cs', q) {
      if q != p {
        assert TagsAt(m, cs, q);
        ShapeOf(base, top, cs, q);
      }
    }
  }

  lemma ExtendOwned(m: Mem, h: View, p: int, n: int)
    requires Sound(m, h) && p in h.chunks && h.chunks[p].inuse
    ensures Owned(h.chunks[p := h.chunks[p].(size := n)], h.loose, h.small, h.trees)
  {
    hide Tiled, Tagged, SmallBins, TreeBins;
    assert forall q :: q in h.loose ==> q in h.chunks && !h.chunks[q].inuse;
    hide Owned;
    OwnedSame(h.chunks, h.chunks[p := h.chunks[p].(size := n)], h.loose, h.loose, h.small, h.trees);
  }

  lemma ExtendSound(m: Mem, m': Mem, h: View, p: int, n: int)
    requires Sound(m, h) && p in h.chunks && h.chunks[p].inuse && p + h.chunks[p].size == h.top
    requires n % 8 == 0 && h.chunks[p].size < n < h.chunks[p].size + h.topsize
    requires m' == Wr(SetInuse(m, p, n), p + n + HEAD, h.top + h.topsize - (p + n) + 1)
    ensures Sound(m', AfterExtend(h, p, n)) && Resized(m, m', h.chunks, AfterExtend(h, p, n).chunks, p, n)
  {
    hide Sound, Tiled, Tagged, Owned, SmallBins, TreeBins, Shape;
    Parts(m, h);
    Around(m, h, p);
    Inside(m, h, p);
    AllBelow(m, h);
    TopAligned(h.base, h.top, h.chunks);
    WithPinuseOfIt(h.chunks[p]);
    ExtendTiled(h.base, h.top, h.chunks, p, n);
    ExtendTagged(m, m', h.base, h.top, h.chunks, h.topsize, p, n, h.top + h.topsize - (p + n));
    ExtendOwned(m, h, p, n);
    BinsOutside(m, m', h.base, h.top, h.chunks, h.loose, h.small, h.trees, h.smap, h.tmap, p, p + n);
    KeptOutside(m, m', h.base, h.top, h.chunks, p, p + n, p);
    ExtendLive(h.chunks, p, n);
    ToSound(m', AfterExtend(h, p, n));
  }

  lemma ExtendLive(cs: Chunks, p: int, n: int)
    requires p in cs && cs[p].inuse
    ensures Live(cs[p := cs[p].(size := n)]) == Live(cs)[p := n] && p in Live(cs)
  {
    var l, r := Live(cs[p := cs[p].(size := n)]), Live(cs)[p := n];
    assert forall q :: q in l <==> q in r;
    assert forall q :: q in l ==> l[q] == r[q];
  }

  lemma ToSound(m: Mem, h: View)
    requires Bounds(h) && Tiled(h.base, h.top, h.chunks) && Tagged(m, h.chunks, h.top, h.topsize)
    requires Owned(h.chunks, h.loose, h.small, h.trees) && SmallBins(m, h.smap, h.small) && TreeBins(m, h.tmap, h.trees)
    ensures Sound(m, h)
  {
  }

  // ----- compositions -----

  /** Splitting after joining writes the same words as splitting at once. */
  lemma JoinHalves(m: Mem, p: int, n: int, s: int)
    requires n >= MIN_CHUNK && s - n >= MIN_CHUNK && s % 8 == 0
    ensures Halves(SetInuse(m, p, s), p, n, s) == Halves(m, p, n, s)
  {
    var m1, m2 := Halves(SetInuse(m, p, s), p, n, s), Halves(m, p, n, s);
    var x := Rd(m, p + s + HEAD);
    var b := Rd(m, p + HEAD);
    OddAfter(x);
    assert WithPinuse(WithPinuse(x)) == WithPinuse(x);
    SetInuseBit(b, s);
  }

  lemma SetInuseBit(b: int, s: int)
    requires s % 8 == 0
    ensures (b % 2 + s + 2) % 2 == b % 2
  {
    HeapTags.Even(4 * (s / 8) + 1, b % 2);
  }

  /** What is left after the split-off end has been released. */
  lemma TrimmedResult(m0: Mem, m1: Mem, m2: Mem, cs: Chunks, cs1: Chunks, cs2: Chunks, p: int, n: int, s: int)
    requires p in cs && cs[p].inuse && cs[p].size == s && n < s && p + n !in cs && n != 0
    requires KeptBut(m0, m1, cs, p) && (forall w :: p + FD <= w < p + n + HEAD ==> Rd(m1, w) == Rd(m0, w))
    requires Live(cs1) == Live(cs)[p := n][p + n := s - n] && Gave(m1, m2, cs1, cs2, p + n)
    ensures Resized(m0, m2, cs, cs2, p, n)
  {
    LiveIn(cs, p + n);
    LiveIn(cs, p);
    var l := Live(cs1);
    assert Live(cs2) == Live(cs)[p := n] by {
      assert Live(cs)[p := n][p + n := s - n] - {p + n} == Live(cs)[p := n];
    }
    forall q, w | q in cs && cs[q].inuse && q != p && PayloadWord(cs, q, w) ensures Rd(m2, w) == Rd(m0, w) {
      assert q in Live(cs);
      assert q in cs1 && cs1[q].inuse && cs1[q].size == cs[q].size by { assert q in l && l[q] == cs[q].size; }
      assert PayloadWord(cs1, q, w);
    }
    forall w | p + FD <= w < p + s + HEAD && w < p + n + HEAD ensures Rd(m2, w) == Rd(m0, w) {
      assert p in cs1 && cs1[p].inuse && cs1[p].size == n by { assert p in l && l[p] == n; }
      assert PayloadWord(cs1, p, w);
    }
  }

  lemma ResizedTwice(m0: Mem, m1: Mem, m2: Mem, cs: Chunks, cs1: Chunks, cs2: Chunks, p: int, s: int, n: int)
    requires Resized(m0, m1, cs, cs1, p, s) && Resized(m1, m2, cs1, cs2, p, n) && Live(cs)[p] <= s
    ensures Resized(m0, m2, cs, cs2, p, n)
  {
    assert Live(cs)[p := s][p := n] == Live(cs)[p := n];
    forall q, w | q in cs && cs[q].inuse && q != p && PayloadWord(cs, q, w) ensures Rd(m2, w) == Rd(m0, w) {
      assert q in Live(cs) && Live(cs1)[q] == Live(cs)[q];
      assert PayloadWord(cs1, q, w);
    }
  }

  lemma SameThenResized(m0: Mem, m1: Mem, m2: Mem, cs: Chunks, cs2: Chunks, p: int, n: int)
    requires Kept(m0, m1, cs) && Resized(m1, m2, cs, cs2, p, n)
    ensures Resized(m0, m2, cs, cs2, p, n)
  {
    LiveIn(cs, p);
    forall q, w | q in cs && cs[q].inuse && q != p && PayloadWord(cs, q, w) ensures Rd(m2, w) == Rd(m0, w) {
    }
    forall w | p + FD <= w < p + Live(cs)[p] + HEAD && w < p + n + HEAD ensures Rd(m2, w) == Rd(m0, w) {
      assert PayloadWord(cs, p, w);
    }
  }
}
