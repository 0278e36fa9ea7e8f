/** Aligned blocks of 2^order pages, their twins and their parents, and tilings by such blocks. */
module Pages {

  const ORDERS := 9
  const TOP := 8

  function Pow(o: nat): (r: nat)
    ensures r >= 1
  {
    if o == 0 then 1 else 2 * Pow(o - 1)
  }

  /** `q >> o` */
  function At(q: nat, o: nat): nat {
    if o == 0 then q else At(q, o - 1) / 2
  }

  function Flip(i: nat): nat {
    if i % 2 == 0 then i + 1 else i - 1
  }

  /** `p ^ (1 << o)` */
  function FlipBit(p: nat, o: nat): nat {
    if o == 0 then Flip(p) else 2 * FlipBit(p / 2, o - 1) + p % 2
  }

  datatype Block = Block(order: nat, page: nat)

  predicate Aligned(b: Block) {
    b.page == At(b.page, b.order) * Pow(b.order)
  }

  predicate Covers(b: Block, q: nat) {
    At(q, b.order) == At(b.page, b.order)
  }

  function Twin(b: Block): Block {
    Block(b.order, FlipBit(b.page, b.order))
  }

  function Parent(b: Block): Block {
    Block(b.order + 1, if b.page < Twin(b).page then b.page else Twin(b).page)
  }

  // ----- shifting -----

  lemma Times(i: int, w: int)
    ensures (i + 1) * w == i * w + w && (i - 1) * w == i * w - w
  {
  }

  lemma Doubled(h: int, w: int)
    ensures h * (2 * w) == (2 * h) * w && h * (2 * w) == 2 * (h * w)
  {
  }

  lemma HalfRange(i: nat, h: nat, w: nat, q: nat)
    requires h == i / 2 && i * w <= q < (i + 1) * w
    ensures h * (2 * w) <= q < (h + 1) * (2 * w)
  {
    Doubled(h, w);
    Doubled(h + 1, w);
    Times(2 * h, w);
    Times(2 * h + 1, w);
    Times(i, w);
  }

  lemma {:induction false} AtRange(q: nat, o: nat)
    ensures At(q, o) * Pow(o) <= q < (At(q, o) + 1) * Pow(o)
  {
    if o > 0 {
      AtRange(q, o - 1);
      HalfRange(At(q, o - 1), At(q, o), Pow(o - 1), q);
    }
  }

  lemma SameQuotient(i: nat, j: nat, w: nat, q: nat)
    requires w >= 1 && i * w <= q < (i + 1) * w && j * w <= q < (j + 1) * w
    ensures i == j
  {
    Ordered(i + 1, j, w);
    Ordered(j + 1, i, w);
  }

  lemma Ordered(a: nat, b: nat, w: nat)
    ensures a <= b ==> a * w <= b * w
  {
  }

  /** The pages of an aligned block are the 2^order pages from its first one on. */
  lemma CoversRange(b: Block, q: nat)
    requires Aligned(b)
    ensures Covers(b, q) <==> b.page <= q < b.page + Pow(b.order)
  {
    var i, w := At(b.page, b.order), Pow(b.order);
    AtRange(q, b.order);
    hide At, Pow;
    Times(i, w);
    if i * w <= q < (i + 1) * w {
      SameQuotient(At(q, b.order), i, w, q);
    }
  }

  lemma AtMultiple(i: nat, o: nat)
    ensures At(i * Pow(o), o) == i
  {
    var w := Pow(o);
    AtRange(i * w, o);
    assert (i + 1) * w == i * w + w;
    SameQuotient(At(i * w, o), i, w, i * w);
  }

  lemma {:induction false} AtHalf(p: nat, o: nat)
    requires o > 0
    ensures At(p / 2, o - 1) == At(p, o)
  {
    if o > 1 {
      AtHalf(p, o - 1);
    }
  }

  lemma {:induction false} FlipBitIs(p: nat, o: nat)
    ensures FlipBit(p, o) == if At(p, o) % 2 == 0 then p + Pow(o) else p - Pow(o)
  {
    if o > 0 {
      FlipBitIs(p / 2, o - 1);
      AtHalf(p, o);
    }
  }

  /** `p ^ (1 << k)` turns bit k around, and no other. */
  lemma {:induction false} FlipBitAt(p: nat, k: nat, j: nat)
    ensures At(FlipBit(p, k), j) % 2 == if j == k then 1 - At(p, j) % 2 else At(p, j) % 2
  {
    var q := FlipBit(p, k);
    assert k > 0 ==> q / 2 == FlipBit(p / 2, k - 1) && q % 2 == p % 2;
    assert k == 0 ==> q / 2 == p / 2 && q % 2 == 1 - p % 2;
    hide FlipBit;
    if j > 0 {
      AtHalf(q, j);
      AtHalf(p, j);
      hide At;
      if k > 0 {
        FlipBitAt(p / 2, k - 1, j - 1);
      }
    }
  }

  /** Pages in one block are in one block of every higher order. */
  lemma {:induction false} SameAbove(p: nat, q: nat, o: nat, h: nat)
    requires At(p, o) == At(q, o) && o <= h
    ensures At(p, h) == At(q, h)
  {
    if o < h {
      SameAbove(p, q, o, h - 1);
    }
  }

  // ----- twins and parents -----

  lemma TwinIs(b: Block)
    requires Aligned(b)
    ensures var i, t := At(b.page, b.order), Twin(b);
      && Aligned(t) && At(t.page, b.order) == Flip(i) && Twin(t) == b && t != b
      && t.page == if i % 2 == 0 then b.page + Pow(b.order) else b.page - Pow(b.order)
  {
    var i, w := At(b.page, b.order), Pow(b.order);
    hide At, Pow, FlipBit;
    FlipBitIs(b.page, b.order);
    Times(i, w);
    AtMultiple(Flip(i), b.order);
    FlipBitIs(Twin(b).page, b.order);
  }

  lemma ParentIs(b: Block)
    requires Aligned(b)
    ensures Aligned(Parent(b)) && Parent(Twin(b)) == Parent(b)
    ensures At(Parent(b).page, b.order + 1) == At(b.page, b.order) / 2
  {
    TwinIs(b);
    var i, w := At(b.page, b.order), Pow(b.order);
    var m := i / 2 * (2 * w);
    assert Pow(b.order + 1) == 2 * w;
    AtMultiple(i / 2, b.order + 1);
    hide At, Pow, FlipBit;
    Times(i, w);
    Doubled(i / 2, w);
    assert Parent(b).page == m;
  }

  /** A block and its twin cover what their parent covers, and no page both. */
  lemma FamilyCovers(b: Block, q: nat)
    requires Aligned(b)
    ensures Covers(Parent(b), q) <==> Covers(b, q) || Covers(Twin(b), q)
    ensures !(Covers(b, q) && Covers(Twin(b), q))
  {
    TwinIs(b);
    ParentIs(b);
  }

  lemma CoversFirst(b: Block)
    ensures Covers(b, b.page)
  {
  }

  lemma FamilyOrders(b: Block)
    ensures Twin(b).order == b.order && Parent(b).order == b.order + 1
  {
  }

  function LeftHalf(b: Block): Block
    requires b.order > 0
  {
    Block(b.order - 1, b.page)
  }

  lemma LeftHalfIs(b: Block)
    requires Aligned(b) && b.order > 0
    ensures Aligned(LeftHalf(b)) && Parent(LeftHalf(b)) == b
    ensures Twin(LeftHalf(b)).page == b.page + Pow(b.order - 1)
  {
    var i, w := At(b.page, b.order), Pow(b.order - 1);
    assert i * (2 * w) == (2 * i) * w;
    AtMultiple(2 * i, b.order - 1);
    TwinIs(LeftHalf(b));
  }

  // ----- tilings -----

  predicate Managed(q: nat, lo: nat, hi: nat) {
    lo <= At(q, TOP) < hi
  }

  predicate Proper(b: Block, lo: nat, hi: nat) {
    b.order <= TOP && Aligned(b) && Managed(b.page, lo, hi)
  }

  lemma ProperAligned(b: Block, lo: nat, hi: nat)
    requires Proper(b, lo, hi)
    ensures Aligned(b)
  {
  }

  ghost predicate Covered(all: set<Block>, q: nat) {
    exists b :: b in all && Covers(b, q)
  }

  ghost predicate Apart(all: set<Block>) {
    forall b, c, q: nat :: b in all && c in all && Covers(b, q) && Covers(c, q) ==> b == c
  }

  /** Every managed page is in exactly one of the blocks. */
  ghost predicate Tiling(all: set<Block>, lo: nat, hi: nat) {
    && (forall b :: b in all ==> Proper(b, lo, hi))
    && (forall q: nat :: Managed(q, lo, hi) ==> Covered(all, q))
    && Apart(all)
  }

  function Joined(all: set<Block>, b: Block): set<Block> {
    all - {b, Twin(b)} + {Parent(b)}
  }

  function Halved(all: set<Block>, b: Block): set<Block>
    requires b.order > 0
  {
    all - {b} + {LeftHalf(b), Twin(LeftHalf(b))}
  }

  lemma ProperFamily(b: Block, lo: nat, hi: nat)
    requires Proper(b, lo, hi) && b.order < TOP
    ensures Proper(Twin(b), lo, hi) && Proper(Parent(b), lo, hi)
  {
    TwinIs(b);
    ParentIs(b);
    SameAbove(b.page, Parent(b).page, b.order + 1, TOP);
    SameAbove(Twin(b).page, Parent(b).page, b.order + 1, TOP);
  }

  lemma CoveredBy(all: set<Block>, b: Block, q: nat)
    requires b in all && Covers(b, q)
    ensures Covered(all, q)
  {
  }

  lemma JoinTiling(all: set<Block>, b: Block, lo: nat, hi: nat)
    requires Tiling(all, lo, hi) && b in all && Twin(b) in all && b.order < TOP
    ensures Tiling(Joined(all, b), lo, hi) && Parent(b) !in all
  {
    hide Covers, Twin, Parent, Aligned, Managed;
    var m, p, t := Joined(all, b), Parent(b), Twin(b);
    ProperFamily(b, lo, hi);
    forall q: nat ensures Covers(p, q) <==> Covers(b, q) || Covers(t, q) { FamilyCovers(b, q); }
    forall q: nat | Managed(q, lo, hi) ensures Covered(m, q) {
      assert Covered(all, q);
      var c :| c in all && Covers(c, q);
      CoveredBy(m, if c == b || c == t then p else c, q);
    }
    forall c, d, q: nat | c in m && d in m && Covers(c, q) && Covers(d, q) ensures c == d {
      if Covers(b, q) { } else if Covers(t, q) { } else { }
    }
    CoversFirst(b);
    FamilyOrders(b);
  }

  lemma HalveTiling(all: set<Block>, b: Block, lo: nat, hi: nat)
    requires Tiling(all, lo, hi) && b in all && b.order > 0
    ensures Tiling(Halved(all, b), lo, hi) && LeftHalf(b) !in all && Twin(LeftHalf(b)) !in all
  {
    hide Covers, Twin, Parent, Managed;
    var m, l := Halved(all, b), LeftHalf(b);
    var r := Twin(l);
    LeftHalfIs(b);
    assert Proper(l, lo, hi);
    ProperFamily(l, lo, hi);
    forall q: nat ensures (Covers(b, q) <==> Covers(l, q) || Covers(r, q)) && !(Covers(l, q) && Covers(r, q)) {
      FamilyCovers(l, q);
    }
    forall q: nat | Managed(q, lo, hi) ensures Covered(m, q) {
      assert Covered(all, q);
      var c :| c in all && Covers(c, q);
      CoveredBy(m, if c != b then c else if Covers(l, q) then l else r, q);
    }
    forall c, d, q: nat | c in m && d in m && Covers(c, q) && Covers(d, q) ensures c == d {
      if Covers(l, q) { } else if Covers(r, q) { } else { }
    }
    CoversFirst(l);
    CoversFirst(r);
    FamilyOrders(l);
  }

  // ----- what the free blocks tell of the free pages -----

  ghost predicate WhollyFree(free: set<Block>, b: Block) {
    forall q: nat :: Covers(b, q) ==> Covered(free, q)
  }

  /** No block below the top order is free together with its twin. */
  ghost predicate NoTwins(free: set<Block>) {
    forall b :: b in free && b.order < TOP ==> Twin(b) !in free
  }

  ghost predicate ProperSet(free: set<Block>, lo: nat, hi: nat) {
    (forall b :: b in free ==> Proper(b, lo, hi)) && Apart(free)
  }

  /** A wholly free aligned run lies inside a single free block. */
  lemma {:induction false} InOneBlock(free: set<Block>, b: Block, lo: nat, hi: nat) returns (c: Block)
    requires ProperSet(free, lo, hi) && NoTwins(free) && Aligned(b) && b.order <= TOP && WhollyFree(free, b)
    ensures c in free && c.order >= b.order && Covers(c, b.page)
    decreases b.order
  {
    assert Covers(b, b.page);
    if b.order == 0 {
      assert Covered(free, b.page);
      c :| c in free && Covers(c, b.page);
    } else {
      LeftHalfIs(b);
      var l := LeftHalf(b);
      var r := Twin(l);
      TwinIs(l);
      forall q: nat ensures Covers(l, q) || Covers(r, q) ==> Covers(b, q) { FamilyCovers(l, q); }
      c := InOneBlock(free, l, lo, hi);
      var d := InOneBlock(free, r, lo, hi);
      SameAbove(l.page, r.page, b.order, if d.order < b.order then b.order else d.order);
      if c.order < b.order { SameBlock(c, l); }
      if d.order < b.order { SameBlock(d, r); }
      assert c == l ==> d != r;
    }
  }

  lemma SameBlock(c: Block, b: Block)
    requires Aligned(c) && Aligned(b) && c.order == b.order && Covers(c, b.page)
    ensures c == b
  {
  }

  /** A block is free exactly when all its pages are and it cannot be part of a larger free run: the free
      blocks depend on the free pages alone. */
  lemma Canonical(free: set<Block>, b: Block, lo: nat, hi: nat)
    requires ProperSet(free, lo, hi) && NoTwins(free) && Aligned(b) && b.order <= TOP
    ensures b in free <==> WhollyFree(free, b) && (b.order == TOP || !WhollyFree(free, Parent(b)))
  {
    ParentIs(b);
    forall q: nat ensures Covers(b, q) ==> Covers(Parent(b), q) { FamilyCovers(b, q); }
    assert Covers(b, b.page);
    if b in free {
      forall q: nat | Covers(b, q) ensures Covered(free, q) { CoveredBy(free, b, q); }
      if b.order < TOP && WhollyFree(free, Parent(b)) {
        var c := InOneBlock(free, Parent(b), lo, hi);
        SameAbove(b.page, Parent(b).page, b.order + 1, c.order);
      }
    } else if WhollyFree(free, b) {
      var c := InOneBlock(free, b, lo, hi);
      if c.order == b.order {
        SameBlock(c, b);
      } else {
        forall q: nat | Covers(Parent(b), q) ensures Covered(free, q) {
          SameAbove(q, b.page, b.order + 1, c.order);
          CoveredBy(free, c, q);
        }
      }
    }
  }

  lemma SamePagesSameBlocks(free: set<Block>, free': set<Block>, lo: nat, hi: nat)
    requires ProperSet(free, lo, hi) && NoTwins(free) && ProperSet(free', lo, hi) && NoTwins(free')
    requires forall q: nat :: Covered(free, q) <==> Covered(free', q)
    ensures free == free'
  {
    hide Covered, Twin, Parent;
    forall b ensures b in free <==> b in free' {
      if b in free || b in free' {
        Canonical(free, b, lo, hi);
        Canonical(free', b, lo, hi);
        assert WhollyFree(free, b) <==> WhollyFree(free', b);
        assert WhollyFree(free, Parent(b)) <==> WhollyFree(free', Parent(b));
      }
    }
  }
}
