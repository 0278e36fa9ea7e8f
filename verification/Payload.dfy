/** What the owner of a live chunk may do with it, and what moving contents from one chunk to another
    preserves. */
module Payload {
  import opened WordMemory
  import opened Bytes
  import opened HeapLayout
  import opened HeapTags
  import opened HeapBins
  import opened HeapSound
  import opened HeapSteps
  import opened ResizeSteps

  /** Only words of p's payload changed. */
  ghost predicate OwnWords(m: Mem, m': Mem, p: int, s: int) {
    forall w :: w < p + FD || p + s + HEAD <= w ==> Rd(m', w) == Rd(m, w)
  }

  lemma OwnTags(m: Mem, m': Mem, base: int, top: int, cs: Chunks, topsize: int, p: int)
    requires Tiled(base, top, cs) && Tagged(m, cs, top, topsize) && p in cs && cs[p].inuse
      && OwnWords(m, m', p, cs[p].size)
    ensures Tagged(m', cs, top, topsize)
  {
    hide Shape;
    ShapeOf(base, top, cs, p);
    forall q | q in cs ensures TagsAt(m', cs, q) {
      assert TagsAt(m, cs, q);
      ShapeOf(base, top, cs, q);
      if q < p { Aside(base, top, cs, q, p); }
      if p < q { Aside(base, top, cs, p, q); }
    }
  }

  /** Whatever the owner of a live chunk stores there, the heap stays sound, and all other live chunks
      keep their contents. */
  lemma OwnerMayWrite(m: Mem, m': Mem, h: View, p: int)
    requires Sound(m, h) && p in h.chunks && h.chunks[p].inuse && OwnWords(m, m', p, h.chunks[p].size)
    ensures Sound(m', h) && KeptBut(m, m', h.chunks, p)
  {
    hide Tiled, Tagged, Owned, SmallBins, TreeBins;
    Parts(m, h);
    var e := p + h.chunks[p].size;
    Inside(m, h, p);
    Around(m, h, p);
    OwnTags(m, m', h.base, h.top, h.chunks, h.topsize, p);
    BinsOutside(m, m', h.base, h.top, h.chunks, h.loose, h.small, h.trees, h.smap, h.tmap, p, e);
    KeptOutside(m, m', h.base, h.top, h.chunks, p, e, p);
  }

  /** The n bytes at a in one memory are those at b in the other. */
  ghost predicate Carried(m: Mem, m': Mem, a: int, b: int, n: int) {
    forall i :: 0 <= i < n ==> Byte(m', b, i) == Byte(m, a, i)
  }

  /** The allocation at p is replaced by one at q of s bytes (q may be p), which starts with the first n
      bytes of the old contents; nothing else changed. */
  ghost predicate Replaced(m: Mem, m': Mem, cs: Chunks, cs': Chunks, p: int, q: int, s: int, n: int) {
    && p in Live(cs) && q !in Live(cs) - {p} && Live(cs') == (Live(cs) - {p})[q := s]
    && KeptBut(m, m', cs, p) && Carried(m, m', p + FD, q + FD, n)
  }

  lemma SameBytes(m: Mem, m': Mem, a: int, e: int, i: int)
    requires 0 <= i < e - a
    requires forall w :: a <= w < e ==> Rd(m', w) == Rd(m, w)
    ensures Byte(m', a, i) == Byte(m, a, i)
  {
    hide ByteOf;
    Quarter(i);
  }

  lemma ResizedReplaced(m: Mem, m': Mem, cs: Chunks, cs': Chunks, p: int, s: int, n: int)
    requires Resized(m, m', cs, cs', p, s)
    requires n <= Live(cs)[p] - HEAD && n <= s - HEAD
    ensures Replaced(m, m', cs, cs', p, p, s, n)
  {
    var l := Live(cs);
    assert l[p := s] == (l - {p})[p := s];
    var e := p + (if l[p] < s then l[p] else s) + HEAD;
    hide Byte, Live, KeptBut;
    var a := p + FD;
    forall i | 0 <= i < n ensures Byte(m', a, i) == Byte(m, a, i) {
      SameBytes(m, m', a, e, i);
    }
  }

  /** Moving: a fresh chunk q, a copy into it, and the release of p. */
  lemma MovedReplaced(m: Mem, m1: Mem, m2: Mem, m3: Mem, cs: Chunks, cs1: Chunks, cs3: Chunks, p: int, q: int, s: int,
      n: int)
    requires p in cs && cs[p].inuse && n <= cs[p].size - HEAD && n <= s - HEAD
    requires Took(m, m1, cs, cs1, q, s) && KeptBut(m1, m2, cs1, q) && Carried(m1, m2, p + FD, q + FD, n)
    requires Gave(m2, m3, cs1, cs3, p)
    ensures Replaced(m, m3, cs, cs3, p, q, s, n)
  {
    hide Byte;
    var l := Live(cs);
    assert p in l && p != q && q in Live(cs1) && Live(cs1)[q] == s;
    assert l[q := s] - {p} == (l - {p})[q := s];
    forall r, w | r in cs && cs[r].inuse && r != p && PayloadWord(cs, r, w) ensures Rd(m3, w) == Rd(m, w) {
      assert r in l && r in Live(cs1) && Live(cs1)[r] == l[r] && r != q;
      assert PayloadWord(cs1, r, w);
    }
    forall w | p + FD <= w < p + cs[p].size + HEAD ensures Rd(m1, w) == Rd(m, w) {
      assert PayloadWord(cs, p, w);
    }
    forall w | q + FD <= w < q + s + HEAD ensures Rd(m3, w) == Rd(m2, w) {
      assert PayloadWord(cs1, q, w);
    }
    hide Took, Gave, KeptBut, Live, Kept;
    var a, b := p + FD, q + FD;
    forall i | 0 <= i < n ensures Byte(m3, b, i) == Byte(m, a, i) {
      SameBytes(m, m1, a, p + cs[p].size + HEAD, i);
      SameBytes(m2, m3, b, q + s + HEAD, i);
      assert Byte(m2, b, i) == Byte(m1, a, i);
    }
  }

  lemma Quarter(i: int)
    ensures i / 4 * 4 <= i < i / 4 * 4 + 4 && i % 4 == i - i / 4 * 4
  {
  }

  lemma CopyCarried(m: Mem, m': Mem, a: int, b: int, n: int)
    requires 0 <= n
    requires forall k :: 0 <= k < n / 4 ==> Rd(m', b + 4 * k) == Rd(m, a + 4 * k)
    requires n % 4 != 0 ==> Rd(m', b + n / 4 * 4) == Merge(Rd(m, b + n / 4 * 4), Rd(m, a + n / 4 * 4), n % 4)
    ensures Carried(m, m', a, b, n)
  {
    hide Merge, ByteOf;
    Quarter(n);
    forall i | 0 <= i < n ensures Byte(m', b, i) == Byte(m, a, i) {
      Quarter(i);
      if i / 4 < n / 4 {
        assert Rd(m', b + 4 * (i / 4)) == Rd(m, a + 4 * (i / 4));
      } else {
        MergeBytes(Rd(m, b + n / 4 * 4), Rd(m, a + n / 4 * 4), n % 4, i % 4);
      }
    }
  }

  /** The first n bytes at a are zero. */
  ghost predicate Zeroed(m: Mem, a: int, n: int) {
    forall i :: 0 <= i < n ==> Byte(m, a, i) == 0
  }

  lemma ClearZeroed(m: Mem, m': Mem, a: int, n: int)
    requires 0 <= n && forall k :: 0 <= k < n / 4 ==> Rd(m', a + 4 * k) == 0
    requires n % 4 != 0 ==> Rd(m', a + n / 4 * 4) == Merge(Rd(m, a + n / 4 * 4), 0, n % 4)
    ensures Zeroed(m', a, n)
  {
    hide Merge, Rd;
    Quarter(n);
    forall i | 0 <= i < n ensures Byte(m', a, i) == 0 {
      Quarter(i);
      if i / 4 < n / 4 {
        assert Rd(m', a + 4 * (i / 4)) == 0;
      } else {
        MergeBytes(Rd(m, a + n / 4 * 4), 0, n % 4, i % 4);
      }
    }
  }

  lemma TookThenOwn(m: Mem, m1: Mem, m2: Mem, cs: Chunks, cs1: Chunks, p: int, s: int)
    requires Took(m, m1, cs, cs1, p, s) && KeptBut(m1, m2, cs1, p)
    ensures Took(m, m2, cs, cs1, p, s)
  {
    hide Live, Kept, KeptBut;
    KeptThrough(m, m1, m2, cs, cs1, p);
  }

  // ----- an aligned part of a fresh chunk -----

  /** The stores that cut the front off a chunk, in the order of the source. */
  lemma LeadStores(m: Mem, p: int, n: int, s: int)
    requires n >= MIN_CHUNK && s - n >= MIN_CHUNK && s % 8 == 0 && n % 8 == 0
    ensures SetInuse(SetInuse(m, p + n, s - n), p, n) == Halves(m, p, n, s)
  {
    var a, b := SetInuse(SetInuse(m, p + n, s - n), p, n), Halves(m, p, n, s);
    var x := Rd(m, p + n + HEAD);
    OddAfter(x);
    SetInuseBit(x, s - n);
    assert a.Keys == b.Keys;
    assert a[p + n + HEAD] == s - n + 3 == b[p + n + HEAD];
    assert forall w :: w in a ==> a[w] == b[w];
  }

  /** A fresh chunk of which only the part from p + n on is kept. */
  lemma LedResult(m: Mem, m1: Mem, m2: Mem, m3: Mem, cs: Chunks, cs1: Chunks, cs2: Chunks, cs3: Chunks, p: int,
      n: int, s: int)
    requires Took(m, m1, cs, cs1, p, s) && KeptBut(m1, m2, cs1, p) && p + n !in cs1 && n > 0
    requires Live(cs2) == Live(cs1)[p := n][p + n := s - n] && Gave(m2, m3, cs2, cs3, p)
    ensures Took(m, m3, cs, cs3, p + n, s - n)
  {
    TookThenOwn(m, m1, m2, cs, cs1, p, s);
    var l := Live(cs);
    LiveIn(cs1, p + n);
    assert p + n !in l by { assert p + n in l ==> p + n in Live(cs1); }
    assert l[p := s][p := n][p + n := s - n] - {p} == l[p + n := s - n];
    forall q, w | q in cs && cs[q].inuse && PayloadWord(cs, q, w) ensures Rd(m3, w) == Rd(m, w) {
      assert q in l && q in Live(cs2) && Live(cs2)[q] == l[q] && q != p;
      assert PayloadWord(cs2, q, w);
    }
  }

  lemma TookTrimmed(m: Mem, m1: Mem, m2: Mem, cs: Chunks, cs1: Chunks, cs2: Chunks, p: int, s: int, n: int)
    requires Took(m, m1, cs, cs1, p, s) && Resized(m1, m2, cs1, cs2, p, n)
    ensures Took(m, m2, cs, cs2, p, n)
  {
    hide Kept, KeptBut;
    KeptThrough(m, m1, m2, cs, cs1, p);
    assert Live(cs)[p := s][p := n] == Live(cs)[p := n];
  }
}
