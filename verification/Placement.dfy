/** Which chunk a request takes, told from the chunks alone: no bins, maps or tries. */
module Placement {
  import opened WordMemory
  import opened HeapLayout
  import opened HeapTags
  import opened HeapBins
  import opened HeapSound
  import opened Trie
  import opened TreeIndex
  import opened BestFit

  /** The part of a chunk of size s that a request for nb bytes takes. */
  function Fit(s: int, nb: int): int {
    if s - nb < MIN_CHUNK then s else nb
  }

  /** Chunk q is free and not the designated victim dv. */
  predicate Binned(cs: Chunks, dv: int, q: int) {
    q in cs && !cs[q].inuse && q != dv
  }

  ghost predicate NoneFits(cs: Chunks, dv: int, nb: int) {
    forall q :: Binned(cs, dv, q) ==> cs[q].size < nb
  }

  /** The least of the chunks that fit. */
  ghost predicate LeastFit(cs: Chunks, dv: int, nb: int, p: int) {
    && Binned(cs, dv, p) && nb <= cs[p].size
    && forall q :: Binned(cs, dv, q) && nb <= cs[q].size ==> cs[p].size <= cs[q].size
  }

  predicate VictimFits(cs: Chunks, dv: int, nb: int) {
    dv in cs && nb <= cs[dv].size
  }

  /** A small chunk that fits with no more than eight bytes to spare. */
  predicate Snug(cs: Chunks, dv: int, nb: int, q: int) {
    Binned(cs, dv, q) && nb <= cs[q].size <= nb + 8 && cs[q].size < LARGE
  }

  /** Chunk p is the one that a request takes from the bins: the least that fits.  When the victim fits as well, a small
      request takes p only when it is snug, and a large one only when it is smaller than the victim. */
  ghost predicate FromBin(cs: Chunks, dv: int, nb: int, p: int) {
    && LeastFit(cs, dv, nb, p)
    && (VictimFits(cs, dv, nb) ==> if nb < LARGE then Snug(cs, dv, nb, p) else cs[p].size < cs[dv].size)
  }

  /** A request takes no chunk from the bins. */
  ghost predicate BinsPassed(cs: Chunks, dv: int, nb: int) {
    if VictimFits(cs, dv, nb) then
      forall q :: Binned(cs, dv, q) && nb <= cs[q].size ==>
        if nb < LARGE then !Snug(cs, dv, nb, q) else cs[dv].size <= cs[q].size
    else
      NoneFits(cs, dv, nb)
  }

  /** What a request for nb bytes gets: s bytes at p, from the bins, and otherwise from the victim when it fits, and
      otherwise from the lower end of top. */
  ghost predicate Placed(cs: Chunks, dv: int, top: int, nb: int, p: int, s: int) {
    || (FromBin(cs, dv, nb, p) && s == Fit(cs[p].size, nb))
    || (BinsPassed(cs, dv, nb) && VictimFits(cs, dv, nb) && p == dv && s == Fit(cs[dv].size, nb))
    || (BinsPassed(cs, dv, nb) && !VictimFits(cs, dv, nb) && p == top && s == nb)
  }

  /** No free chunk is large enough, and neither is top. */
  ghost predicate Exhausted(cs: Chunks, topsize: int, nb: int) {
    (forall q :: q in cs && !cs[q].inuse ==> cs[q].size < nb) && topsize <= nb
  }

  /** Chunk p can have nb bytes where it is: it has them, or it has them together with top, of which something must
      stay, or with the free chunk behind it. */
  predicate Grows(cs: Chunks, top: int, topsize: int, p: int, nb: int) {
    && p in cs
    && var n := p + cs[p].size;
    || cs[p].size >= nb
    || (n == top && cs[p].size + topsize > nb)
    || (n in cs && !cs[n].inuse && cs[p].size + cs[n].size >= nb)
  }

  /** The size it has then: the rest goes back when it makes a chunk. */
  function GrownTo(cs: Chunks, top: int, p: int, nb: int): int {
    if p !in cs then nb
    else
      var n := p + cs[p].size;
      if cs[p].size >= nb then Fit(cs[p].size, nb)
      else if n != top && n in cs then Fit(cs[p].size + cs[n].size, nb)
      else nb
  }

  /** Where the aligned part of a chunk at c starts: at c when it is aligned, and otherwise at the first aligned spot
      with room for a chunk in front of it. */
  predicate AlignedAt(c: int, d: int, al: int)
    requires al > 0
  {
    (d + 8) % al == 0 && if (c + 8) % al == 0 then d == c else MIN_CHUNK <= d - c < al + MIN_CHUNK
  }

  /** Chunk d is the aligned part of what a request for nb bytes gets. */
  ghost predicate AlignedPart(cs: Chunks, dv: int, top: int, nb: int, al: int, d: int)
    requires al > 0
  {
    exists c, s :: Placed(cs, dv, top, nb, c, s) && AlignedAt(c, d, al)
  }

  /** The victim after a chunk has been given up: grown when it was a neighbour, gone when that was into top. */
  predicate VictimGrown(dv: int, dvsize: int, p: int, s: int, intoTop: bool, dv': int, dvsize': int) {
    if dvsize == 0 || (dv + dvsize != p && p + s != dv) then dv' == dv && dvsize' == dvsize
    else if intoTop then dv' == dvsize' == 0
    else dvsize' >= dvsize + s && dv' <= p < dv' + dvsize' && dv' <= dv < dv' + dvsize'
  }

  /** The victim afterwards: what is left of it, what is left of a chunk that a small request was cut from, or the same
      as before. */
  ghost predicate VictimNext(cs: Chunks, dv: int, dvsize: int, nb: int, p: int, dv': int, dvsize': int) {
    if p in cs && (p == dv || nb < LARGE) && cs[p].size - nb >= MIN_CHUNK then
      dv' == p + nb && dvsize' == cs[p].size - nb
    else if p in cs && p == dv then
      dv' == 0 && dvsize' == 0
    else
      dv' == dv && dvsize' == dvsize
  }

  /** At most one of the three ways is open: a request that passes the bins finds nothing in them that it would take. */
  lemma OneWay(cs: Chunks, dv: int, nb: int, p: int)
    requires BinsPassed(cs, dv, nb)
    ensures !FromBin(cs, dv, nb, p)
  {
  }

  lemma PassedExhausted(cs: Chunks, dv: int, topsize: int, nb: int)
    requires BinsPassed(cs, dv, nb) && !VictimFits(cs, dv, nb) && topsize <= nb
    ensures Exhausted(cs, topsize, nb)
  {
    forall q | q in cs && !cs[q].inuse ensures cs[q].size < nb {
      assert q != dv ==> Binned(cs, dv, q);
    }
  }

  /** Top gives more than it has only when everything is exhausted. */
  lemma FromTop(cs: Chunks, dv: int, top: int, topsize: int, nb: int, s: int)
    requires Placed(cs, dv, top, nb, top, s) && top !in cs && topsize <= nb
    ensures Exhausted(cs, topsize, nb)
  {
    PassedExhausted(cs, dv, topsize, nb);
  }

  lemma FromBinIs(cs: Chunks, dv: int, nb: int, p: int)
    ensures FromBin(cs, dv, nb, p) ==> LeastFit(cs, dv, nb, p)
  {
  }

  lemma ExhaustedMore(cs: Chunks, topsize: int, nb: int, more: int)
    requires Exhausted(cs, topsize, nb) && nb <= more
    ensures Exhausted(cs, topsize, more)
  {
  }

  // ----- from the bins -----

  /** The chunks in no bin: the victim, if there is one. */
  ghost predicate OnlyVictim(h: View, dv: int) {
    forall x :: x in h.chunks ==> (x in h.loose <==> x == dv)
  }

  lemma BinOf(m: Mem, h: View, dv: int, q: int)
    requires Sound(m, h) && OnlyVictim(h, dv) && Binned(h.chunks, dv, q)
    ensures |h.small| == 32 && |h.trees| == 32 && h.chunks[q].size % 8 == 0 && h.chunks[q].size >= MIN_CHUNK
    ensures InItsBin(h.small, h.trees, q, h.chunks[q].size)
  {
    SizeBound(m, h, q);
    hide Tiled, Tagged, SmallBins, TreeBins, InItsBin;
  }

  lemma SmallPast(m: Mem, h: View, dv: int, lo: nat, hi: nat)
    requires Sound(m, h) && OnlyVictim(h, dv) && |h.small| == 32 && hi <= 32
    requires forall j :: lo <= j < hi ==> h.small[j] == []
    ensures forall q :: Binned(h.chunks, dv, q) ==> !(8 * lo <= h.chunks[q].size < 8 * hi)
  {
    hide Sound;
    forall q | Binned(h.chunks, dv, q) ensures !(8 * lo <= h.chunks[q].size < 8 * hi) {
      BinOf(m, h, dv, q);
    }
  }

  lemma TreePast(m: Mem, h: View, dv: int, nb: int)
    requires Sound(m, h) && OnlyVictim(h, dv) && NoFit(h.trees, nb)
    ensures forall q :: Binned(h.chunks, dv, q) && h.chunks[q].size >= LARGE ==> h.chunks[q].size < nb
  {
    hide Sound, Has, TreeIndexOf;
    forall q | Binned(h.chunks, dv, q) && h.chunks[q].size >= LARGE ensures h.chunks[q].size < nb {
      BinOf(m, h, dv, q);
    }
  }

  lemma TreeLeast(m: Mem, h: View, dv: int, nb: int, z: int)
    requires Sound(m, h) && OnlyVictim(h, dv) && NoBetter(h.trees, nb, z)
    ensures forall q :: Binned(h.chunks, dv, q) && h.chunks[q].size >= LARGE && h.chunks[q].size >= nb ==>
      z <= h.chunks[q].size
  {
    hide Sound, Has, TreeIndexOf;
    forall q | Binned(h.chunks, dv, q) && h.chunks[q].size >= LARGE && h.chunks[q].size >= nb
      ensures z <= h.chunks[q].size
    {
      BinOf(m, h, dv, q);
    }
  }

  /** A small bin that is the request's own or the next one. */
  lemma SnugTaken(m: Mem, h: View, dv: int, nb: int, i: nat, p: int)
    requires Sound(m, h) && OnlyVictim(h, dv) && |h.small| == 32 && 0 <= nb < LARGE && nb % 8 == 0 && i < 32
    requires nb / 8 <= i <= nb / 8 + 1 && (i > nb / 8 ==> h.small[nb / 8] == [])
    requires Binned(h.chunks, dv, p) && h.chunks[p].size == 8 * i
    ensures FromBin(h.chunks, dv, nb, p)
  {
    hide Sound;
    SmallPast(m, h, dv, nb / 8, i);
    assert Snug(h.chunks, dv, nb, p);
  }

  /** The next small bin that has a chunk. */
  lemma NextTaken(m: Mem, h: View, dv: int, nb: int, i: nat, p: int)
    requires Sound(m, h) && OnlyVictim(h, dv) && |h.small| == 32 && 0 <= nb < LARGE && nb % 8 == 0 && i < 32
    requires nb / 8 + 2 <= i && (forall j :: nb / 8 <= j < i ==> h.small[j] == []) && !VictimFits(h.chunks, dv, nb)
    requires Binned(h.chunks, dv, p) && h.chunks[p].size == 8 * i
    ensures FromBin(h.chunks, dv, nb, p)
  {
    hide Sound;
    SmallPast(m, h, dv, nb / 8, i);
  }

  /** A tree chunk, for a small request. */
  lemma TreeTaken(m: Mem, h: View, dv: int, nb: int, p: int)
    requires Sound(m, h) && OnlyVictim(h, dv) && |h.small| == 32 && 0 <= nb < LARGE && nb % 8 == 0
    requires (forall j :: nb / 8 <= j < 32 ==> h.small[j] == []) && !VictimFits(h.chunks, dv, nb)
    requires Binned(h.chunks, dv, p) && h.chunks[p].size >= LARGE && NoBetter(h.trees, nb, h.chunks[p].size)
    ensures FromBin(h.chunks, dv, nb, p)
  {
    hide Sound, Has;
    SmallPast(m, h, dv, nb / 8, 32);
    TreeLeast(m, h, dv, nb, h.chunks[p].size);
  }

  lemma SmallPassed(m: Mem, h: View, dv: int, nb: int)
    requires Sound(m, h) && OnlyVictim(h, dv) && |h.small| == 32 && 0 <= nb < LARGE && nb % 8 == 0
    requires forall j :: nb / 8 <= j <= nb / 8 + 1 && j < 32 ==> h.small[j] == []
    requires VictimFits(h.chunks, dv, nb) || (NoFit(h.trees, nb) && forall j :: nb / 8 <= j < 32 ==> h.small[j] == [])
    ensures BinsPassed(h.chunks, dv, nb)
  {
    hide Sound, Has;
    SmallPast(m, h, dv, nb / 8, if nb / 8 < 31 then nb / 8 + 2 else 32);
    forall q ensures !Snug(h.chunks, dv, nb, q) {
      if Snug(h.chunks, dv, nb, q) { BinOf(m, h, dv, q); }
    }
    if !VictimFits(h.chunks, dv, nb) {
      SmallPast(m, h, dv, nb / 8, 32);
      TreePast(m, h, dv, nb);
    }
  }

  lemma LargeTaken(m: Mem, h: View, dv: int, nb: int, p: int)
    requires Sound(m, h) && OnlyVictim(h, dv) && nb >= LARGE
    requires Binned(h.chunks, dv, p) && h.chunks[p].size >= nb && NoBetter(h.trees, nb, h.chunks[p].size)
    requires VictimFits(h.chunks, dv, nb) ==> h.chunks[p].size < h.chunks[dv].size
    ensures FromBin(h.chunks, dv, nb, p)
  {
    hide Sound, Has;
    TreeLeast(m, h, dv, nb, h.chunks[p].size);
  }

  lemma LargePassed(m: Mem, h: View, dv: int, nb: int)
    requires Sound(m, h) && OnlyVictim(h, dv) && nb >= LARGE
    requires NoFit(h.trees, nb) || (VictimFits(h.chunks, dv, nb) && NoBetter(h.trees, nb, h.chunks[dv].size))
    ensures BinsPassed(h.chunks, dv, nb)
  {
    hide Sound, Has;
    if NoFit(h.trees, nb) {
      TreePast(m, h, dv, nb);
    } else {
      TreeLeast(m, h, dv, nb, h.chunks[dv].size);
    }
  }
}
