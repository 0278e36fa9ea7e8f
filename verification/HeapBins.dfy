/** The bins: which free chunk is in which bin, how the bins are laid out in memory, and what the
    stores of the bin operations and of the tag operations do to them. */
module HeapBins {
  import opened WordMemory
  import opened Seqs
  import opened HeapLayout
  import opened HeapTags
  import opened Trie
  import opened TrieLinks
  import opened TrieUnlink
  import opened TreeIndex
  import BinMap
  import Ring

  // Where the bin headers are: static data below the arena.
  const STATE := 0xE000_0000
  const STATE_END := STATE + 432

  /** Small bin i, seen as a chunk whose `fd` and `bk` are the bin's two header words. */
  function SmallBin(i: nat): int {
    STATE + 40 + 8 * i
  }

  function TreeBin(i: nat): int {
    STATE + 304 + 4 * i
  }

  type Small = seq<seq<int>>
  type Trees = seq<Tree>

  const LARGE := 256

  // ----- who is in which bin -----

  ghost predicate SmallMember(cs: Chunks, loose: set<int>, i: nat, p: int) {
    p in cs && !cs[p].inuse && p !in loose && cs[p].size == 8 * i
  }

  ghost predicate TreeMember(cs: Chunks, loose: set<int>, i: nat, p: int, s: int) {
    p in cs && !cs[p].inuse && p !in loose && cs[p].size == s && LARGE <= s < W32 && TreeIndexOf(s) == i
  }

  ghost predicate InItsBin(small: Small, trees: Trees, p: int, s: int)
    requires |small| == 32 && |trees| == 32
  {
    if s < LARGE then s >= 0 && p in small[s / 8]
    else s < W32 && 0 <= TreeIndexOf(s) < 32 && Has(trees[TreeIndexOf(s)], p, s)
  }

  /** Every free chunk is in exactly the bin for its size, except the loose ones, which are in none. */
  ghost predicate Owned(cs: Chunks, loose: set<int>, small: Small, trees: Trees) {
    && |small| == 32 && |trees| == 32
    && (forall i, p :: 0 <= i < 32 && p in small[i] ==> SmallMember(cs, loose, i, p))
    && (forall i :: 0 <= i < 32 ==> NoDup(small[i]))
    && (forall i, p, s :: 0 <= i < 32 && Has(trees[i], p, s) ==> TreeMember(cs, loose, i, p, s))
    && (forall p :: p in cs && !cs[p].inuse && p !in loose ==> InItsBin(small, trees, p, cs[p].size))
    && (forall p :: p in loose ==> p in cs && !cs[p].inuse)
  }

  // ----- the bins in memory -----

  ghost predicate SmallAt(m: Mem, bits: bv32, small: Small, i: nat)
    requires i < |small|
  {
    && (BinMap.Marked(bits, i) <==> small[i] != [])
    && (small[i] != [] ==> Ring.IsRing(m, [SmallBin(i)] + small[i]))
  }

  ghost predicate TreeAt(m: Mem, bits: bv32, trees: Trees, i: nat)
    requires i < |trees|
  {
    && (BinMap.Marked(bits, i) <==> trees[i].Node?)
    && Rd(m, TreeBin(i)) == Root(trees[i])
    && Links(m, trees[i], TreeBin(i), i)
    && Sorted(trees[i], BinLo(i), BinBits(i)) && Trie.Apart(trees[i])
  }

  ghost predicate SmallBins(m: Mem, bits: bv32, small: Small) {
    |small| == 32 && forall i :: 0 <= i < 32 ==> SmallAt(m, bits, small, i)
  }

  ghost predicate TreeBins(m: Mem, bits: bv32, trees: Trees) {
    |trees| == 32 && forall i :: 0 <= i < 32 ==> TreeAt(m, bits, trees, i)
  }

  // ----- consequences -----

  lemma TreePtr(cs: Chunks, loose: set<int>, small: Small, trees: Trees, i: nat, p: int)
    requires Owned(cs, loose, small, trees) && i < 32 && p in Ptrs(trees[i])
    ensures p in cs && !cs[p].inuse && p !in loose && cs[p].size >= LARGE && TreeIndexOf(cs[p].size) == i
    ensures Has(trees[i], p, cs[p].size) && cs[p].size < W32
  {
    var s := PtrHasSize(trees[i], p);
    assert TreeMember(cs, loose, i, p, s);
  }

  lemma SmallPtr(cs: Chunks, loose: set<int>, small: Small, trees: Trees, i: nat, p: int)
    requires Owned(cs, loose, small, trees) && i < 32 && p in small[i]
    ensures p in cs && !cs[p].inuse && p !in loose && cs[p].size == 8 * i
  {
    assert SmallMember(cs, loose, i, p);
  }

  /** The nodes of one trie are chunks far apart. */
  lemma TreeSpread(base: int, top: int, cs: Chunks, loose: set<int>, small: Small, trees: Trees, i: nat)
    requires Tiled(base, top, cs) && Owned(cs, loose, small, trees) && i < 32
    ensures Spread(Ptrs(trees[i]))
  {
    assert |trees| == 32;
    hide Owned, Shape;
    forall p, q | p in Ptrs(trees[i]) && q in Ptrs(trees[i]) && p != q ensures p + 32 <= q || q + 32 <= p {
      TreePtr(cs, loose, small, trees, i, p);
      TreePtr(cs, loose, small, trees, i, q);
    }
  }

  // ----- the tag operations leave the bins alone -----

  /** Every free chunk in the range is loose. */
  ghost predicate RangeLoose(cs: Chunks, loose: set<int>, a: int, e: int) {
    forall p :: p in cs && a <= p < e && !cs[p].inuse ==> p in loose
  }

  lemma SmallOutside(m: Mem, m': Mem, base: int, top: int, cs: Chunks, loose: set<int>, small: Small, trees: Trees,
      bits: bv32, a: int, e: int, i: nat)
    requires Tiled(base, top, cs) && Owned(cs, loose, small, trees) && RangeLoose(cs, loose, a, e)
      && STATE_END <= base <= a
    requires (a in cs || a == top) && (e in cs || e >= top) && Outside(m, m', a, e) && i < 32
      && SmallAt(m, bits, small, i)
    ensures SmallAt(m', bits, small, i)
  {
    if small[i] != [] {
      var s := [SmallBin(i)] + small[i];
      hide Shape, Ring.IsRing;
      forall k | 0 <= k < |s| ensures Rd(m', s[k] + FD) == Rd(m, s[k] + FD) && Rd(m', s[k] + BK) == Rd(m, s[k] + BK) {
        if k > 0 {
          var p := s[k];
          assert p in small[i];
          SmallPtr(cs, loose, small, trees, i, p);
          hide Owned;
          ShapeOf(base, top, cs, p);
          if p < a { Aside(base, top, cs, p, a); }
        }
      }
      Ring.Frame(m, m', s);
    }
  }

  lemma TreeOutside(m: Mem, m': Mem, base: int, top: int, cs: Chunks, loose: set<int>, small: Small, trees: Trees,
      bits: bv32, a: int, e: int, i: nat)
    requires Tiled(base, top, cs) && Owned(cs, loose, small, trees) && RangeLoose(cs, loose, a, e)
      && STATE_END <= base <= a
    requires (a in cs || a == top) && (e in cs || e >= top) && Outside(m, m', a, e) && i < 32
      && TreeAt(m, bits, trees, i)
    ensures TreeAt(m', bits, trees, i)
  {
    assert |trees| == 32;
    hide Shape, Owned, Links, Sorted, Trie.Apart;
    forall p, w | p in Ptrs(trees[i]) && p + FD <= w < p + INDEX + 4 ensures Rd(m', w) == Rd(m, w) {
      TreePtr(cs, loose, small, trees, i, p);
      BelowTop(base, top, cs, p);
      if p < a { Aside(base, top, cs, p, a); }
    }
    LinksFrame(m, m', trees[i], TreeBin(i), i);
  }

  /** Tag stores inside a range whose free chunks are loose leave every bin as it was. */
  lemma BinsOutside(m: Mem, m': Mem, base: int, top: int, cs: Chunks, loose: set<int>, small: Small, trees: Trees,
      smap: bv32, tmap: bv32, a: int, e: int)
    requires Tiled(base, top, cs) && Owned(cs, loose, small, trees) && RangeLoose(cs, loose, a, e)
      && STATE_END <= base <= a
    requires (a in cs || a == top) && (e in cs || e >= top) && Outside(m, m', a, e)
    requires SmallBins(m, smap, small) && TreeBins(m, tmap, trees)
    ensures SmallBins(m', smap, small) && TreeBins(m', tmap, trees)
  {
    hide Shape, Owned, Tiled, SmallAt, TreeAt, RangeLoose, Outside;
    forall i | 0 <= i < 32 ensures SmallAt(m', smap, small, i) {
      SmallOutside(m, m', base, top, cs, loose, small, trees, smap, a, e, i);
    }
    forall i | 0 <= i < 32 ensures TreeAt(m', tmap, trees, i) {
      TreeOutside(m, m', base, top, cs, loose, small, trees, tmap, a, e, i);
    }
  }

  /** Ownership only looks at the binned chunks. */
  lemma OwnedSame(cs: Chunks, cs': Chunks, loose: set<int>, loose': set<int>, small: Small, trees: Trees)
    requires Owned(cs, loose, small, trees)
    requires forall p :: p in cs && !cs[p].inuse && p !in loose ==>
      p in cs' && !cs'[p].inuse && p !in loose' && cs'[p].size == cs[p].size
    requires forall p :: p in cs' && !cs'[p].inuse && p !in loose' ==> p in cs && !cs[p].inuse && p !in loose
    requires forall p :: p in loose' ==> p in cs' && !cs'[p].inuse
    ensures Owned(cs', loose', small, trees)
  {
    hide Has, NoDup, TreeIndexOf;
    forall i, p | 0 <= i < 32 && p in small[i] ensures SmallMember(cs', loose', i, p) {
      assert SmallMember(cs, loose, i, p);
    }
    forall i, p, s | 0 <= i < 32 && Has(trees[i], p, s) ensures TreeMember(cs', loose', i, p, s) {
      assert TreeMember(cs, loose, i, p, s);
    }
  }

  // ----- frames of the bin operations -----

  /** w lies in the body of one of the free chunks d. */
  ghost predicate BodyWord(cs: Chunks, d: set<int>, w: int) {
    exists p :: p in d && p in cs && p + FD <= w < p + cs[p].size
  }

  /** Only bodies of the chunks d and the header words [lo, hi) changed. */
  ghost predicate BodyOnly(m: Mem, m': Mem, cs: Chunks, d: set<int>, lo: int, hi: int) {
    forall w :: !(lo <= w < hi) && !BodyWord(cs, d, w) ==> Rd(m', w) == Rd(m, w)
  }

  ghost predicate FreeChunks(cs: Chunks, d: set<int>) {
    forall p :: p in d ==> p in cs && !cs[p].inuse
  }

  lemma BodyApart(base: int, top: int, cs: Chunks, d: set<int>, p: int, w: int)
    requires Tiled(base, top, cs) && FreeChunks(cs, d) && p in cs && p !in d && p <= w < p + cs[p].size + FD
    ensures !BodyWord(cs, d, w)
  {
    hide Shape;
    forall q | q in d && q in cs ensures !(q + FD <= w < q + cs[q].size) {
      if q < p { Aside(base, top, cs, q, p); } else { Aside(base, top, cs, p, q); }
    }
  }

  lemma HeadNotBody(base: int, top: int, cs: Chunks, d: set<int>, p: int, w: int)
    requires Tiled(base, top, cs) && FreeChunks(cs, d) && (p in cs || p == top) && p <= w < p + FD
    ensures !BodyWord(cs, d, w)
  {
    hide Shape;
    forall q | q in d && q in cs ensures !(q + FD <= w < q + cs[q].size) {
      if q < p { Aside(base, top, cs, q, p); }
    }
  }

  /** Bin operations keep all tags. */
  lemma BodyTagged(m: Mem, m': Mem, base: int, top: int, topsize: int, cs: Chunks, d: set<int>, lo: int, hi: int)
    requires Tiled(base, top, cs) && Tagged(m, cs, top, topsize) && FreeChunks(cs, d)
      && BodyOnly(m, m', cs, d, lo, hi) && hi <= base
    ensures Tagged(m', cs, top, topsize)
  {
    hide Shape, BodyWord, FreeChunks;
    forall p | p in cs ensures TagsAt(m', cs, p) {
      assert TagsAt(m, cs, p);
      ShapeOf(base, top, cs, p);
      HeadNotBody(base, top, cs, d, p, p + HEAD);
      HeadNotBody(base, top, cs, d, p + cs[p].size, p + cs[p].size);
    }
    HeadNotBody(base, top, cs, d, top, top + HEAD);
  }

  /** Bin operations touch no live chunk. */
  lemma BodyKept(m: Mem, m': Mem, base: int, top: int, cs: Chunks, d: set<int>, lo: int, hi: int)
    requires Tiled(base, top, cs) && FreeChunks(cs, d) && BodyOnly(m, m', cs, d, lo, hi) && hi <= base
    ensures Kept(m, m', cs)
  {
    hide Shape, BodyWord;
    forall p, w | p in cs && cs[p].inuse && PayloadWord(cs, p, w) ensures Rd(m', w) == Rd(m, w) {
      BelowTop(base, top, cs, p);
      BodyApart(base, top, cs, d, p, w);
    }
  }

  lemma InBody(cs: Chunks, d: set<int>, p: int, w: int)
    requires p in d && p in cs && p + FD <= w < p + cs[p].size
    ensures BodyWord(cs, d, w)
  {
  }

  /** A small bin none of whose chunks is touched. */
  lemma SmallUntouched(m: Mem, m': Mem, base: int, top: int, cs: Chunks, loose: set<int>, small: Small, trees: Trees,
      bits: bv32, bits': bv32, d: set<int>, lo: int, hi: int, i: nat)
    requires Tiled(base, top, cs) && Owned(cs, loose, small, trees) && FreeChunks(cs, d)
      && BodyOnly(m, m', cs, d, lo, hi)
    requires STATE_END <= base && STATE <= lo && hi <= STATE_END
    requires i < 32 && SmallAt(m, bits, small, i) && BinMap.Marked(bits', i) == BinMap.Marked(bits, i)
    requires hi <= SmallBin(i) + FD || SmallBin(i) + BK + 4 <= lo
    requires forall p :: p in small[i] ==> p !in d
    ensures SmallAt(m', bits', small, i)
  {
    hide Shape, BodyWord, BinMap.Marked, Ring.IsRing, NoDup;
    if small[i] != [] {
      var s := [SmallBin(i)] + small[i];
      forall k | 0 <= k < |s| ensures Rd(m', s[k] + FD) == Rd(m, s[k] + FD) && Rd(m', s[k] + BK) == Rd(m, s[k] + BK) {
        if k > 0 {
          var p := s[k];
          assert p in small[i];
          SmallPtr(cs, loose, small, trees, i, p);
          hide Owned;
          ShapeOf(base, top, cs, p);
          BodyApart(base, top, cs, d, p, p + FD);
          BodyApart(base, top, cs, d, p, p + BK);
        } else {
          StateNotBody(base, top, cs, d, SmallBin(i) + FD);
          StateNotBody(base, top, cs, d, SmallBin(i) + BK);
        }
      }
      Ring.Frame(m, m', s);
    }
  }

  lemma StateNotBody(base: int, top: int, cs: Chunks, d: set<int>, w: int)
    requires Tiled(base, top, cs) && w < base
    ensures !BodyWord(cs, d, w)
  {
    hide Shape;
    forall q | q in d && q in cs ensures !(q + FD <= w < q + cs[q].size) {
      BelowTop(base, top, cs, q);
    }
  }

  lemma TreeUntouched(m: Mem, m': Mem, base: int, top: int, cs: Chunks, loose: set<int>, small: Small, trees: Trees,
      bits: bv32, bits': bv32, d: set<int>, lo: int, hi: int, i: nat)
    requires Tiled(base, top, cs) && Owned(cs, loose, small, trees) && FreeChunks(cs, d)
      && BodyOnly(m, m', cs, d, lo, hi)
    requires STATE_END <= base && STATE <= lo && hi <= STATE_END
    requires i < 32 && TreeAt(m, bits, trees, i) && BinMap.Marked(bits', i) == BinMap.Marked(bits, i)
    requires hi <= TreeBin(i) || TreeBin(i) + 4 <= lo
    requires Ptrs(trees[i]) !! d
    ensures TreeAt(m', bits', trees, i)
  {
    assert |trees| == 32;
    hide Shape, BodyWord, BinMap.Marked, Owned, Links, Sorted, Trie.Apart, FreeChunks;
    forall p, w | p in Ptrs(trees[i]) && p + FD <= w < p + INDEX + 4 ensures Rd(m', w) == Rd(m, w) {
      TreePtr(cs, loose, small, trees, i, p);
      BelowTop(base, top, cs, p);
      BodyApart(base, top, cs, d, p, w);
    }
    LinksFrame(m, m', trees[i], TreeBin(i), i);
    StateNotBody(base, top, cs, d, TreeBin(i));
  }

  // ----- small bins: linking and unlinking -----

  /** Link x at the front of small bin b; `marked` says whether the bin has chunks. */
  function SmallLinkStores(m: Mem, b: int, x: int, marked: bool): Mem {
    var f := if marked then Rd(m, b + FD) else b;
    Wr(Wr(Wr(Wr(m, b + FD, x), f + BK, x), x + FD, f), x + BK, b)
  }

  lemma FrontRing(m: Mem, b: int, s: seq<int>, x: int)
    requires s != [] ==> Ring.IsRing(m, [b] + s)
    requires b + 8 <= x && forall p :: p in s ==> p + 8 <= x || x + 8 <= p
    ensures Ring.IsRing(SmallLinkStores(m, b, x, s != []), [b] + ([x] + s))
  {
    if s == [] {
      var t := [b] + ([x] + s);
      assert t == [b, x];
      var m' := SmallLinkStores(m, b, x, false);
      assert Ring.LinkedAt(m', t, 0) && Ring.LinkedAt(m', t, 1);
    } else {
      var r := [b] + s;
      assert Second(r, x) == [b] + ([x] + s);
      forall k | 0 <= k < |r| ensures r[k] + 8 <= x || x + 8 <= r[k] {
        if k > 0 { assert r[k] in s; }
      }
      Ring.InsertRing(m, r, x);
      assert SmallLinkStores(m, b, x, true) == Ring.Insert(m, b, x);
    }
  }

  lemma SmallFree(base: int, top: int, cs: Chunks, loose: set<int>, small: Small, trees: Trees, i: nat)
    requires Tiled(base, top, cs) && Owned(cs, loose, small, trees) && i < 32
    ensures forall p :: p in small[i] ==> p in cs && !cs[p].inuse && cs[p].size >= MIN_CHUNK && base <= p
  {
    hide Shape;
    forall p | p in small[i] ensures p in cs && !cs[p].inuse && cs[p].size >= MIN_CHUNK && base <= p {
      SmallPtr(cs, loose, small, trees, i, p);
      ShapeOf(base, top, cs, p);
    }
  }

  /** The chunks and header words that linking x into a small bin may touch. */
  lemma SmallLinkFrame(m: Mem, cs: Chunks, s: seq<int>, b: int, x: int)
    requires s != [] ==> Ring.IsRing(m, [b] + s)
    requires forall p :: p in s || p == x ==> p in cs && !cs[p].inuse && cs[p].size >= MIN_CHUNK
    ensures var d := SetOf(s) + {x};
      FreeChunks(cs, d) && BodyOnly(m, SmallLinkStores(m, b, x, s != []), cs, d, b + FD, b + BK + 4)
  {
    var d := SetOf(s) + {x};
    var f := if s != [] then Rd(m, b + FD) else b;
    if s != [] {
      FirstOf(m, b, s);
    }
    hide Ring.IsRing, BodyWord;
    assert f == b || f in d;
    var m' := SmallLinkStores(m, b, x, s != []);
    forall w | !(b + FD <= w < b + BK + 4) && !BodyWord(cs, d, w) ensures Rd(m', w) == Rd(m, w) {
      if w == x + FD || w == x + BK { InBody(cs, d, x, w); }
      if w == f + BK && f != b { InBody(cs, d, f, w); }
    }
  }

  lemma FirstOf(m: Mem, b: int, s: seq<int>)
    requires s != [] && Ring.IsRing(m, [b] + s)
    ensures Rd(m, b + FD) == s[0]
  {
    assert Ring.LinkedAt(m, [b] + s, 0);
  }

  /** Taking x out of small bin b: when it is the bin's only chunk just the map bit is cleared, and the
      header keeps pointing at x. */
  function SmallUnlinkStores(m: Mem, x: int): Mem {
    if Rd(m, x + FD) == Rd(m, x + BK) then m else Ring.Remove(m, x)
  }

  /** Whether x is alone in its bin shows in its links. */
  lemma AloneInRing(m: Mem, b: int, s: seq<int>, k: nat)
    requires Ring.IsRing(m, [b] + s) && k < |s|
    ensures Rd(m, s[k] + FD) == Rd(m, s[k] + BK) <==> |s| == 1
    ensures |s| > 1 ==> Ring.IsRing(Ring.Remove(m, s[k]), [b] + Without(s, k))
  {
    var r := [b] + s;
    assert r[k + 1] == s[k];
    Ring.Neighbours(m, r, k + 1);
    if |s| > 1 {
      Ring.RemoveRing(m, r, k + 1);
      assert Without(r, k + 1) == [b] + Without(s, k);
    }
  }

  lemma SmallNeighbours(m: Mem, b: int, s: seq<int>, k: nat)
    requires Ring.IsRing(m, [b] + s) && k < |s|
    ensures Rd(m, s[k] + FD) == b || Rd(m, s[k] + FD) in s
    ensures Rd(m, s[k] + BK) == b || Rd(m, s[k] + BK) in s
  {
    var r := [b] + s;
    assert r[k + 1] == s[k];
    assert Ring.LinkedAt(m, r, k + 1);
  }

  lemma SmallUnlinkFrame(m: Mem, cs: Chunks, s: seq<int>, b: int, k: nat)
    requires k < |s| && Ring.IsRing(m, [b] + s)
    requires forall p :: p in s ==> p in cs && !cs[p].inuse && cs[p].size >= MIN_CHUNK
    ensures FreeChunks(cs, SetOf(s))
    ensures BodyOnly(m, SmallUnlinkStores(m, s[k]), cs, SetOf(s), b + FD, b + BK + 4)
  {
    var d, x := SetOf(s), s[k];
    SmallNeighbours(m, b, s, k);
    var f, g := Rd(m, x + FD), Rd(m, x + BK);
    hide Ring.IsRing, BodyWord;
    assert f == b || f in d;
    assert g == b || g in d;
    forall w | !(b + FD <= w < b + BK + 4) && !BodyWord(cs, d, w) ensures Rd(SmallUnlinkStores(m, x), w) == Rd(m, w) {
      if w == f + BK && f != b { InBody(cs, d, f, w); }
      if w == g + FD && g != b { InBody(cs, d, g, w); }
    }
  }

  // ----- ownership after bin operations -----

  lemma OwnedSmallLink(cs: Chunks, loose: set<int>, small: Small, trees: Trees, i: nat, x: int)
    requires Owned(cs, loose, small, trees) && x in loose && cs[x].size == 8 * i && i < 32
    ensures Owned(cs, loose - {x}, small[i := [x] + small[i]], trees)
  {
    var small', loose' := small[i := [x] + small[i]], loose - {x};
    hide Has, TreeIndexOf;
    forall j, p | 0 <= j < 32 && p in small'[j] ensures SmallMember(cs, loose', j, p) {
      if j == i && p == x {
      } else {
        assert p in small[j];
        assert SmallMember(cs, loose, j, p);
      }
    }
    forall j, p, s | 0 <= j < 32 && Has(trees[j], p, s) ensures TreeMember(cs, loose', j, p, s) {
      assert TreeMember(cs, loose, j, p, s);
    }
    forall p | p in small[i] ensures p != x {
      assert SmallMember(cs, loose, i, p);
    }
    NoDupFront(x, small[i]);
    hide NoDup;
    forall p | p in cs && !cs[p].inuse && p !in loose' ensures InItsBin(small', trees, p, cs[p].size) {
      if p != x { assert InItsBin(small, trees, p, cs[p].size); }
    }
  }

  lemma OwnedSmallUnlink(cs: Chunks, loose: set<int>, small: Small, trees: Trees, i: nat, k: nat)
    requires Owned(cs, loose, small, trees) && i < 32 && k < |small[i]|
    ensures Owned(cs, loose + {small[i][k]}, small[i := Without(small[i], k)], trees)
  {
    var x := small[i][k];
    var small', loose' := small[i := Without(small[i], k)], loose + {x};
    WithoutSet(small[i], k);
    assert x in small[i];
    assert SmallMember(cs, loose, i, x);
    forall p ensures p in Without(small[i], k) <==> p in small[i] && p != x {
      assert p in SetOf(Without(small[i], k)) <==> p in SetOf(small[i]) && p != x;
    }
    hide Has, TreeIndexOf, Without, NoDup;
    forall j, p | 0 <= j < 32 && p in small'[j] ensures SmallMember(cs, loose', j, p) {
      assert p in small[j];
      assert SmallMember(cs, loose, j, p);
    }
    forall j, p, s | 0 <= j < 32 && Has(trees[j], p, s) ensures TreeMember(cs, loose', j, p, s) {
      assert TreeMember(cs, loose, j, p, s);
      assert cs[x].size < LARGE;
    }
    forall p | p in cs && !cs[p].inuse && p !in loose' ensures InItsBin(small', trees, p, cs[p].size) {
      assert InItsBin(small, trees, p, cs[p].size);
    }
  }

  lemma OwnedTreeLink(cs: Chunks, loose: set<int>, small: Small, trees: Trees, i: nat, x: int, s: int, t: Tree)
    requires Owned(cs, loose, small, trees) && x in loose && cs[x].size == s && LARGE <= s < W32
      && i == TreeIndexOf(s) && i < 32
    requires forall p, z :: Has(t, p, z) <==> Has(trees[i], p, z) || (p == x && z == s)
    ensures Owned(cs, loose - {x}, small, trees[i := t])
  {
    var trees', loose' := trees[i := t], loose - {x};
    hide Has, TreeIndexOf, NoDup;
    forall j, p | 0 <= j < 32 && p in small[j] ensures SmallMember(cs, loose', j, p) {
      assert SmallMember(cs, loose, j, p);
    }
    forall j, p, z | 0 <= j < 32 && Has(trees'[j], p, z) ensures TreeMember(cs, loose', j, p, z) {
      if Has(trees[j], p, z) { assert TreeMember(cs, loose, j, p, z); }
    }
    forall p | p in cs && !cs[p].inuse && p !in loose' ensures InItsBin(small, trees', p, cs[p].size) {
      if p != x { assert InItsBin(small, trees, p, cs[p].size); }
    }
  }

  lemma OwnedTreeUnlink(cs: Chunks, loose: set<int>, small: Small, trees: Trees, i: nat, x: int, s: int, t: Tree)
    requires Owned(cs, loose, small, trees) && i < 32 && Has(trees[i], x, s)
    requires forall p, z :: Has(t, p, z) <==> Has(trees[i], p, z) && p != x
    ensures Owned(cs, loose + {x}, small, trees[i := t])
  {
    var trees', loose' := trees[i := t], loose + {x};
    assert TreeMember(cs, loose, i, x, s);
    hide Has, TreeIndexOf, NoDup;
    forall j, p | 0 <= j < 32 && p in small[j] ensures SmallMember(cs, loose', j, p) {
      assert SmallMember(cs, loose, j, p);
    }
    forall j, p, z | 0 <= j < 32 && Has(trees'[j], p, z) ensures TreeMember(cs, loose', j, p, z) {
      assert Has(trees[j], p, z);
      assert TreeMember(cs, loose, j, p, z);
    }
    forall p | p in cs && !cs[p].inuse && p !in loose' ensures InItsBin(small, trees', p, cs[p].size) {
      assert InItsBin(small, trees, p, cs[p].size);
    }
  }
}
