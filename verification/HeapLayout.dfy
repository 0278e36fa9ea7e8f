/** The arena as a sequence of adjacent chunks, kept as a map from chunk address to size and the
    in-use marks of the chunk and of its predecessor.  The top chunk is not in the map. */
module HeapLayout {

  const MIN_CHUNK := 16

  datatype Chunk = Chunk(size: int, inuse: bool, pinuse: bool)

  type Chunks = map<int, Chunk>

  /** One chunk and its right neighbour, as the allocator's own checks describe them. */
  ghost predicate Shape(base: int, top: int, cs: Chunks, p: int)
    requires p in cs
  {
    var c := cs[p];
    var n := p + c.size;
    && base <= p && p % 8 == 0 && c.size % 8 == 0 && c.size >= MIN_CHUNK && n <= top
    && (n in cs || n == top)
    && (n in cs ==> cs[n].pinuse == c.inuse)
    && (n == top ==> c.inuse)
    && (!c.inuse ==> c.pinuse)
    && (p == base ==> c.pinuse)
  }

  ghost predicate Disjoint(cs: Chunks) {
    forall p, q :: p in cs && q in cs && p < q ==> p + cs[p].size <= q
  }

  /** The chunks tile [base, top) exactly, every chunk's mark for its predecessor is right, no two free
      chunks are neighbours, and the chunk below top is in use. */
  ghost predicate Tiled(base: int, top: int, cs: Chunks) {
    && base % 8 == 0 && top % 8 == 0 && base <= top
    && (base in cs || base == top)
    && (forall p :: p in cs ==> Shape(base, top, cs, p))
    && Disjoint(cs)
  }

  /** Chunks at the ends of [a, e) with e the end of a chunk: nothing straddles the range. */
  ghost predicate Range(top: int, cs: Chunks, a: int, e: int) {
    a in cs && a < e && (e in cs || e == top)
  }

  /** The range [a, e) turned into the single chunk c. */
  function Cut(cs: Chunks, a: int, e: int, c: Chunk): (r: Chunks)
    ensures a in r && (a < e ==> r[a] == c)
    ensures forall p {:trigger p in r} :: p in r <==> p == a || (p in cs && !(a <= p < e))
    ensures forall p {:trigger r[p]} :: p in r && p != a && p != e ==> r[p] == cs[p]
    ensures e in r && a != e ==> r[e] == cs[e].(pinuse := c.inuse)
  {
    map p | p in cs.Keys + {a} && (p == a || !(a <= p < e)) ::
      if p == a then c else if p == e then cs[p].(pinuse := c.inuse) else cs[p]
  }

  /** The in-use chunk p split in two in-use chunks. */
  function Split(cs: Chunks, p: int, n: int): Chunks
    requires p in cs
  {
    cs[p := cs[p].(size := n)][p + n := Chunk(cs[p].size - n, true, true)]
  }

  /** What the tiling says about one chunk. */
  lemma ShapeOf(base: int, top: int, cs: Chunks, p: int)
    requires Tiled(base, top, cs) && p in cs
    ensures var n := p + cs[p].size;
      && base <= p && p % 8 == 0 && cs[p].size % 8 == 0 && cs[p].size >= MIN_CHUNK && n <= top
      && (n in cs || n == top)
      && (n in cs ==> cs[n].pinuse == cs[p].inuse)
      && (n == top ==> cs[p].inuse)
      && (!cs[p].inuse ==> cs[p].pinuse)
      && (p == base ==> cs[p].pinuse)
  {
    assert Shape(base, top, cs, p);
  }

  lemma ToShape(base: int, top: int, cs: Chunks, p: int)
    requires p in cs
    requires var n := p + cs[p].size;
      && base <= p && p % 8 == 0 && cs[p].size % 8 == 0 && cs[p].size >= MIN_CHUNK && n <= top
      && (n in cs || n == top)
      && (n in cs ==> cs[n].pinuse == cs[p].inuse)
      && (n == top ==> cs[p].inuse)
      && (!cs[p].inuse ==> cs[p].pinuse)
      && (p == base ==> cs[p].pinuse)
    ensures Shape(base, top, cs, p)
  {
  }

  /** Chunks lie wholly on one side of a chunk boundary. */
  lemma Aside(base: int, top: int, cs: Chunks, p: int, q: int)
    requires Tiled(base, top, cs) && p in cs && (q in cs || q == top) && p < q
    ensures p + cs[p].size <= q
  {
    ShapeOf(base, top, cs, p);
  }

  /** No chunk starts at or beyond top. */
  lemma BelowTop(base: int, top: int, cs: Chunks, p: int)
    requires Tiled(base, top, cs) && p in cs
    ensures base <= p < top
  {
    ShapeOf(base, top, cs, p);
  }

  lemma CutShape(base: int, top: int, cs: Chunks, a: int, e: int, c: Chunk, p: int)
    requires Tiled(base, top, cs) && Range(top, cs, a, e)
    requires c.size == e - a && c.pinuse == cs[a].pinuse && (!c.inuse ==> c.pinuse && e in cs && cs[e].inuse)
    requires c.size >= MIN_CHUNK
    requires p in Cut(cs, a, e, c)
    ensures Shape(base, top, Cut(cs, a, e, c), p)
  {
    var r := Cut(cs, a, e, c);
    hide Shape, Cut;
    ShapeOf(base, top, cs, a);
    if e in cs { ShapeOf(base, top, cs, e); }
    if p != a {
      ShapeOf(base, top, cs, p);
      if p < a { Aside(base, top, cs, p, a); }
    }
    hide Tiled;
    ToShape(base, top, r, p);
  }

  lemma CutDisjoint(base: int, top: int, cs: Chunks, a: int, e: int, c: Chunk)
    requires Tiled(base, top, cs) && Range(top, cs, a, e) && c.size == e - a
    ensures Disjoint(Cut(cs, a, e, c))
  {
    hide Shape, Cut;
    var r := Cut(cs, a, e, c);
    forall p, q | p in r && q in r && p < q ensures p + r[p].size <= q {
      if p != a && q != a {
        assert r[p].size == cs[p].size;
      } else if q == a {
        Aside(base, top, cs, p, a);
      }
    }
  }

  /** Merging a range into one chunk keeps the tiling. */
  lemma CutTiled(base: int, top: int, cs: Chunks, a: int, e: int, c: Chunk)
    requires Tiled(base, top, cs) && Range(top, cs, a, e)
    requires c.size == e - a && c.pinuse == cs[a].pinuse && (!c.inuse ==> c.pinuse && e in cs && cs[e].inuse)
    ensures Tiled(base, top, Cut(cs, a, e, c))
  {
    hide Shape, Cut;
    CutDisjoint(base, top, cs, a, e, c);
    Aside(base, top, cs, a, e);
    ShapeOf(base, top, cs, a);
    forall p | p in Cut(cs, a, e, c) ensures Shape(base, top, Cut(cs, a, e, c), p) {
      CutShape(base, top, cs, a, e, c, p);
    }
  }

  /** No chunk starts inside another. */
  lemma NothingInside(base: int, top: int, cs: Chunks, p: int, x: int)
    requires Tiled(base, top, cs) && p in cs && p < x < p + cs[p].size
    ensures x !in cs
  {
  }

  lemma SplitShape(base: int, top: int, cs: Chunks, p: int, n: int, q: int)
    requires Tiled(base, top, cs) && p in cs && cs[p].inuse
    requires n % 8 == 0 && n >= MIN_CHUNK && cs[p].size - n >= MIN_CHUNK
    requires q in Split(cs, p, n)
    ensures Shape(base, top, Split(cs, p, n), q)
  {
    hide Shape;
    var r := Split(cs, p, n);
    ShapeOf(base, top, cs, p);
    NothingInside(base, top, cs, p, p + n);
    if q in cs && q != p {
      ShapeOf(base, top, cs, q);
      if q < p { Aside(base, top, cs, q, p); }
    }
    hide Tiled;
    ToShape(base, top, r, q);
  }

  lemma SplitTiled(base: int, top: int, cs: Chunks, p: int, n: int)
    requires Tiled(base, top, cs) && p in cs && cs[p].inuse
    requires n % 8 == 0 && n >= MIN_CHUNK && cs[p].size - n >= MIN_CHUNK
    ensures Tiled(base, top, Split(cs, p, n))
    ensures p + n !in cs
  {
    hide Shape;
    var r := Split(cs, p, n);
    ShapeOf(base, top, cs, p);
    NothingInside(base, top, cs, p, p + n);
    forall q | q in r ensures Shape(base, top, r, q) {
      SplitShape(base, top, cs, p, n, q);
    }
    forall q, s | q in r && s in r && q < s ensures q + r[q].size <= s {
      if q == p + n && s != p { Aside(base, top, cs, p, s); }
      if s == p + n && q != p { Aside(base, top, cs, q, p); }
    }
  }

  /** The chunks below a. */
  function Below(cs: Chunks, a: int): (r: Chunks)
    ensures forall p {:trigger p in r} :: p in r <==> p in cs && p < a
    ensures forall p {:trigger r[p]} :: p in r ==> r[p] == cs[p]
  {
    map p | p in cs && p < a :: cs[p]
  }

  /** The chunks from a on given to top. */
  lemma DropTiled(base: int, top: int, cs: Chunks, a: int)
    requires Tiled(base, top, cs) && a in cs && cs[a].pinuse
    ensures Tiled(base, a, Below(cs, a))
  {
    hide Shape, Below;
    var r := Below(cs, a);
    ShapeOf(base, top, cs, a);
    forall p | p in r ensures Shape(base, a, r, p) {
      ShapeOf(base, top, cs, p);
      Aside(base, top, cs, p, a);
      DropShape(base, top, cs, a, p);
    }
    assert base in r || base == a by { if base != a { ShapeOf(base, top, cs, a); } }
  }

  lemma DropShape(base: int, top: int, cs: Chunks, a: int, p: int)
    requires Tiled(base, top, cs) && a in cs && cs[a].pinuse && p in cs && p < a
    ensures Shape(base, a, Below(cs, a), p)
  {
    hide Shape, Below;
    ShapeOf(base, top, cs, p);
    ShapeOf(base, top, cs, a);
    Aside(base, top, cs, p, a);
    hide Tiled;
    ToShape(base, a, Below(cs, a), p);
  }

  /** A chunk cut off the bottom of top. */
  lemma GrowTiled(base: int, top: int, cs: Chunks, n: int)
    requires Tiled(base, top, cs) && n % 8 == 0 && n >= MIN_CHUNK
    ensures Tiled(base, top + n, cs[top := Chunk(n, true, true)]) && top !in cs
  {
    hide Shape;
    var r := cs[top := Chunk(n, true, true)];
    assert top !in cs by { if top in cs { BelowTop(base, top, cs, top); } }
    forall p | p in r ensures Shape(base, top + n, r, p) {
      GrowShape(base, top, cs, n, p);
    }
    forall p, q | p in r && q in r && p < q ensures p + r[p].size <= q {
      if q in cs { BelowTop(base, top, cs, q); }
      if p in cs { Aside(base, top, cs, p, q); }
    }
  }

  lemma GrowShape(base: int, top: int, cs: Chunks, n: int, p: int)
    requires Tiled(base, top, cs) && n % 8 == 0 && n >= MIN_CHUNK && top !in cs
    requires p in cs || p == top
    ensures Shape(base, top + n, cs[top := Chunk(n, true, true)], p)
  {
    hide Shape;
    assert top + n !in cs by { if top + n in cs { BelowTop(base, top, cs, top + n); } }
    if p in cs { ShapeOf(base, top, cs, p); }
    hide Tiled;
    ToShape(base, top + n, cs[top := Chunk(n, true, true)], p);
  }

  /** Every address of the arena below top belongs to a chunk. */
  lemma {:induction false} Covered(base: int, top: int, cs: Chunks, x: int, q: int) returns (p: int)
    requires Tiled(base, top, cs) && q in cs && q <= x < top
    ensures p in cs && p <= x < p + cs[p].size
    decreases x - q
  {
    hide Shape;
    ShapeOf(base, top, cs, q);
    if x < q + cs[q].size {
      p := q;
    } else {
      p := Covered(base, top, cs, x, q + cs[q].size);
    }
  }

  /** The sizes of the chunks in use, or of the free ones, from p on. */
  function SizeOf(cs: Chunks, p: int, top: int, inuse: bool): int
    decreases top - p
  {
    if p < top && p in cs && cs[p].size > 0 then
      (if cs[p].inuse == inuse then cs[p].size else 0) + SizeOf(cs, p + cs[p].size, top, inuse)
    else 0
  }

  /** The chunks account for every byte between base and top. */
  lemma {:induction false} SizesTogether(base: int, top: int, cs: Chunks, p: int)
    requires Tiled(base, top, cs) && (p in cs || p == top)
    ensures SizeOf(cs, p, top, true) + SizeOf(cs, p, top, false) == top - p
    decreases top - p
  {
    hide Shape;
    if p == top {
      if p in cs { BelowTop(base, top, cs, p); }
    } else {
      ShapeOf(base, top, cs, p);
      SizesTogether(base, top, cs, p + cs[p].size);
    }
  }

  // ----- the abstract state: what is allocated -----

  /** The chunks in use, with their sizes. */
  function Live(cs: Chunks): (r: map<int, int>)
    ensures forall p {:trigger p in r} :: p in r <==> p in cs && cs[p].inuse
    ensures forall p {:trigger r[p]} :: p in r ==> r[p] == cs[p].size
  {
    map p | p in cs && cs[p].inuse :: cs[p].size
  }
}
