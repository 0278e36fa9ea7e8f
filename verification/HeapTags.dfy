/** The boundary tags: what the head and foot words of the chunks hold, and how the tag stores of the
    allocator change them.  A head word is the size plus 2 when the chunk is in use plus 1 when its
    predecessor is; sizes are multiples of 8, so the low bits are free for this. */
module HeapTags {
  import opened WordMemory
  import opened HeapLayout

  function HeadWord(c: Chunk): int {
    c.size + (if c.inuse then 2 else 0) + (if c.pinuse then 1 else 0)
  }

  // Reading tags.

  function ChunkSize(m: Mem, p: int): int {
    Rd(m, p + HEAD) - Rd(m, p + HEAD) % 8
  }

  predicate Cinuse(m: Mem, p: int) {
    Rd(m, p + HEAD) / 2 % 2 == 1
  }

  predicate Pinuse(m: Mem, p: int) {
    Rd(m, p + HEAD) % 2 == 1
  }

  // Writing tags.

  /** `head |= PINUSE_BIT` */
  function WithPinuse(w: int): int {
    w - w % 2 + 1
  }

  /** `head &= ~PINUSE_BIT` */
  function WithoutPinuse(w: int): int {
    w - w % 2
  }

  /** Mark a chunk of size s in use, its predecessor being in use, and tell its successor. */
  function SetInuseAndPinuse(m: Mem, p: int, s: int): Mem {
    var m1 := Wr(m, p + HEAD, s + 3);
    Wr(m1, p + s + HEAD, WithPinuse(Rd(m1, p + s + HEAD)))
  }

  /** The same, keeping the chunk's own mark for its predecessor. */
  function SetInuse(m: Mem, p: int, s: int): Mem {
    var m1 := Wr(m, p + HEAD, Rd(m, p + HEAD) % 2 + s + 2);
    Wr(m1, p + s + HEAD, WithPinuse(Rd(m1, p + s + HEAD)))
  }

  /** Head and foot of a free chunk whose predecessor is in use. */
  function SetSizeOfFree(m: Mem, p: int, s: int): Mem {
    Wr(Wr(m, p + HEAD, s + 1), p + s, s)
  }

  /** The same, telling the successor n that its predecessor is free. */
  function SetFree(m: Mem, p: int, s: int, n: int): Mem {
    SetSizeOfFree(Wr(m, n + HEAD, WithoutPinuse(Rd(m, n + HEAD))), p, s)
  }

  // ----- the invariant -----

  ghost predicate TagsAt(m: Mem, cs: Chunks, p: int)
    requires p in cs
  {
    Rd(m, p + HEAD) == HeadWord(cs[p]) && (!cs[p].inuse ==> Rd(m, p + cs[p].size) == cs[p].size)
  }

  ghost predicate Tagged(m: Mem, cs: Chunks, top: int, topsize: int) {
    && (forall p :: p in cs ==> TagsAt(m, cs, p))
    && Rd(m, top + HEAD) == topsize + 1
  }

  /** What the tag words of a chunk read as. */
  lemma TagsRead(m: Mem, base: int, top: int, cs: Chunks, topsize: int, p: int)
    requires Tiled(base, top, cs) && Tagged(m, cs, top, topsize) && p in cs
    ensures ChunkSize(m, p) == cs[p].size && (Cinuse(m, p) <==> cs[p].inuse) && (Pinuse(m, p) <==> cs[p].pinuse)
    ensures !cs[p].inuse ==> Rd(m, p + cs[p].size) == cs[p].size
  {
    hide Shape;
    ShapeOf(base, top, cs, p);
    hide Tiled;
    assert TagsAt(m, cs, p);
    hide Tagged;
    HeadParts(cs[p].size, cs[p].inuse, cs[p].pinuse);
  }

  lemma LowBits(k: int, r: int)
    requires 0 <= r < 4
    ensures (8 * k + r) % 8 == r && (8 * k + r) % 2 == r % 2 && (8 * k + r) / 2 == 4 * k + r / 2
  {
    assert 8 * k + r == 2 * (4 * k) + r;
    assert (8 * k + r) / 2 == 4 * k + r / 2;
  }

  lemma HeadParts(s: int, c: bool, p: bool)
    requires s % 8 == 0
    ensures var w := s + (if c then 2 else 0) + (if p then 1 else 0);
      w % 8 == w - s && (w / 2 % 2 == 1 <==> c) && (w % 2 == 1 <==> p)
  {
    var k := s / 8;
    LowBits(k, (if c then 2 else 0) + (if p then 1 else 0));
    Even(2 * k, if c then 1 else 0);
  }

  lemma Even(k: int, r: int)
    requires 0 <= r < 2
    ensures (2 * k + r) % 2 == r
  {
  }

  lemma TopRead(m: Mem, cs: Chunks, top: int, topsize: int)
    requires Tagged(m, cs, top, topsize) && topsize % 8 == 0
    ensures ChunkSize(m, top) == topsize && !Cinuse(m, top) && Pinuse(m, top)
  {
    HeadParts(topsize, false, true);
  }

  // ----- frames -----

  /** Nothing outside the words from a's head up to e's head changed. */
  ghost predicate Outside(m: Mem, m': Mem, a: int, e: int) {
    forall w :: w < a + HEAD || e + HEAD < w ==> Rd(m', w) == Rd(m, w)
  }

  lemma TagsOutside(m: Mem, m': Mem, base: int, top: int, cs: Chunks, cs': Chunks, a: int, e: int, p: int)
    requires Tiled(base, top, cs) && p in cs && p in cs' && cs'[p] == cs[p] && TagsAt(m, cs, p)
    requires Outside(m, m', a, e) && (p + cs[p].size <= a || p > e)
    ensures TagsAt(m', cs', p)
  {
    ShapeOf(base, top, cs, p);
    hide Tiled;
  }

  /** The tags after a range has become one chunk. */
  lemma TaggedCut(m: Mem, m': Mem, base: int, top: int, topsize: int, cs: Chunks, a: int, e: int, c: Chunk)
    requires Tiled(base, top, cs) && Tagged(m, cs, top, topsize) && Range(top, cs, a, e) && c.size == e - a
    requires Outside(m, m', a, e) && Rd(m', a + HEAD) == HeadWord(c) && (!c.inuse ==> Rd(m', e) == c.size)
    requires e in cs ==> Rd(m', e + HEAD) == HeadWord(cs[e].(pinuse := c.inuse))
    requires e == top ==> Rd(m', e + HEAD) == Rd(m, e + HEAD)
    ensures Tagged(m', Cut(cs, a, e, c), top, topsize)
  {
    hide Shape, Cut;
    var r := Cut(cs, a, e, c);
    forall p | p in r ensures TagsAt(m', r, p) {
      if p == a {
      } else if p == e {
        assert TagsAt(m, cs, e);
        ShapeOf(base, top, cs, e);
      } else {
        assert TagsAt(m, cs, p);
        if p < a { Aside(base, top, cs, p, a); }
        TagsOutside(m, m', base, top, cs, r, a, e, p);
      }
    }
    if a in cs { BelowTop(base, top, cs, a); }
    if e in cs { BelowTop(base, top, cs, e); }
  }

  /** The tags after an in-use chunk has been split. */
  lemma TaggedSplit(m: Mem, m': Mem, base: int, top: int, topsize: int, cs: Chunks, p: int, n: int)
    requires Tiled(base, top, cs) && Tagged(m, cs, top, topsize) && p in cs && cs[p].inuse
    requires n % 8 == 0 && n >= MIN_CHUNK && cs[p].size - n >= MIN_CHUNK
    requires forall w :: w != p + HEAD && w != p + n + HEAD ==> Rd(m', w) == Rd(m, w)
    requires Rd(m', p + HEAD) == HeadWord(cs[p].(size := n))
    requires Rd(m', p + n + HEAD) == HeadWord(Chunk(cs[p].size - n, true, true))
    ensures Tagged(m', Split(cs, p, n), top, topsize)
  {
    hide Shape;
    var r := Split(cs, p, n);
    ShapeOf(base, top, cs, p);
    forall q | q in r ensures TagsAt(m', r, q) {
      if q != p && q != p + n {
        assert TagsAt(m, cs, q);
        ShapeOf(base, top, cs, q);
        if q < p { Aside(base, top, cs, q, p); } else { Aside(base, top, cs, p, q); }
      }
    }
  }

  /** The tags after the chunks from a on have gone to top. */
  lemma TaggedDrop(m: Mem, m': Mem, base: int, top: int, topsize: int, cs: Chunks, a: int, size: int)
    requires Tiled(base, top, cs) && Tagged(m, cs, top, topsize) && a in cs
    requires forall w :: w < a + HEAD ==> Rd(m', w) == Rd(m, w)
    requires Rd(m', a + HEAD) == size + 1
    ensures Tagged(m', Below(cs, a), a, size)
  {
    hide Shape, Below;
    var r := Below(cs, a);
    forall p | p in r ensures TagsAt(m', r, p) {
      assert TagsAt(m, cs, p);
      ShapeOf(base, top, cs, p);
      Aside(base, top, cs, p, a);
    }
  }

  /** The tags after a chunk has been cut off the bottom of top. */
  lemma TaggedGrow(m: Mem, m': Mem, base: int, top: int, topsize: int, cs: Chunks, n: int, rest: int)
    requires Tiled(base, top, cs) && Tagged(m, cs, top, topsize) && n >= MIN_CHUNK
    requires forall w :: w < top + HEAD ==> Rd(m', w) == Rd(m, w)
    requires Rd(m', top + HEAD) == n + 3 && Rd(m', top + n + HEAD) == rest + 1
    ensures Tagged(m', cs[top := Chunk(n, true, true)], top + n, rest)
  {
    hide Shape;
    var r := cs[top := Chunk(n, true, true)];
    forall p | p in r ensures TagsAt(m', r, p) {
      if p in cs && p != top {
        assert TagsAt(m, cs, p);
        ShapeOf(base, top, cs, p);
      }
    }
  }

  // ----- payloads -----

  /** The words a live chunk's owner may use: everything from behind its head up to its successor's head. */
  ghost predicate PayloadWord(cs: Chunks, p: int, w: int)
    requires p in cs
  {
    p + FD <= w < p + cs[p].size + HEAD
  }

  /** Every live chunk keeps its contents. */
  ghost predicate Kept(m: Mem, m': Mem, cs: Chunks) {
    forall p, w :: p in cs && cs[p].inuse && PayloadWord(cs, p, w) ==> Rd(m', w) == Rd(m, w)
  }

  /** Every live chunk except one keeps its contents. */
  ghost predicate KeptBut(m: Mem, m': Mem, cs: Chunks, but: int) {
    forall p, w :: p in cs && cs[p].inuse && p != but && PayloadWord(cs, p, w) ==> Rd(m', w) == Rd(m, w)
  }

  /** Stores within a range reach no live chunk outside the range. */
  lemma KeptOutside(m: Mem, m': Mem, base: int, top: int, cs: Chunks, a: int, e: int, but: int)
    requires Tiled(base, top, cs) && (a in cs || a == top) && (e in cs || e >= top) && Outside(m, m', a, e)
    requires forall p :: p in cs && a <= p < e && cs[p].inuse ==> p == but
    ensures KeptBut(m, m', cs, but)
  {
    hide Shape;
    forall p, w | p in cs && cs[p].inuse && p != but && PayloadWord(cs, p, w) ensures Rd(m', w) == Rd(m, w) {
      BelowTop(base, top, cs, p);
      if p < a { Aside(base, top, cs, p, a); }
      assert p < a || p >= e;
    }
  }
}
