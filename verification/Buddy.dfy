/** The physical page allocator: nine orders of free blocks, a list for each, and a bit for every pair of
    twins. */
module Buddy {
  import opened Seqs
  import opened Chains
  import opened Pages
  import opened PairBits
  import opened FreeLists

  /** The lowest order from o on with a free block; 9 when there is none. */
  function Least(lists: Lists, o: nat): (m: nat)
    requires |lists| == ORDERS && o <= ORDERS
    ensures o <= m <= ORDERS && (m < ORDERS ==> lists[m] != [])
    ensures forall h :: o <= h < m ==> lists[h] == []
    decreases ORDERS - o
  {
    if o == ORDERS || lists[o] != [] then o else Least(lists, o + 1)
  }

  /** The lists once the first block p of order m is taken apart down to order o: its right halves are left. */
  function Carved(lists: Lists, o: nat, m: nat): (r: Lists)
    requires |lists| == ORDERS && o <= m < ORDERS && lists[m] != []
    ensures |r| == ORDERS
  {
    seq(ORDERS, h requires 0 <= h < ORDERS =>
      if h == m then Without(lists[m], 0) else if o <= h < m then [lists[m][0] + Pow(h)] else lists[h])
  }

  /** The same with the block of order o still listed. */
  function Refilled(lists: Lists, o: nat, m: nat): (r: Lists)
    requires |lists| == ORDERS && o <= m < ORDERS && lists[m] != []
    ensures |r| == ORDERS
  {
    if o == m then lists else Carved(lists, o, m)[o := [lists[m][0], lists[m][0] + Pow(o)]]
  }

  lemma RefilledDown(lists: Lists, o: nat, m: nat, r: int)
    requires |lists| == ORDERS && o < m < ORDERS && lists[m] != [] && lists[o] == []
    requires r == lists[m][0] + Pow(o)
    ensures var up := Refilled(lists, o + 1, m);
      up[o + 1] != [] && up[o + 1][0] == lists[m][0] && up[o] == []
      && Refilled(lists, o, m) == Drop(up, o + 1, 0)[o := [lists[m][0], r]]
  {
    hide Pow;
    var up := Refilled(lists, o + 1, m);
    assert Without([lists[m][0], lists[m][0] + Pow(o + 1)], 0) == [lists[m][0] + Pow(o + 1)];
    var a, b := Refilled(lists, o, m), Drop(up, o + 1, 0)[o := [lists[m][0], r]];
    forall h | 0 <= h < ORDERS ensures a[h] == b[h] {
    }
  }

  lemma RefilledHere(lists: Lists, o: nat)
    requires |lists| == ORDERS && o < ORDERS && lists[o] != []
    ensures Refilled(lists, o, o) == lists
  {
  }

  lemma CarvedIs(lists: Lists, o: nat, m: nat)
    requires |lists| == ORDERS && o <= m < ORDERS && lists[m] != []
    ensures Refilled(lists, o, m)[o] != [] && Refilled(lists, o, m)[o][0] == lists[m][0]
    ensures Carved(lists, o, m) == Drop(Refilled(lists, o, m), o, 0)
  {
    var a, b := Carved(lists, o, m), Drop(Refilled(lists, o, m), o, 0);
    assert Without([lists[m][0], lists[m][0] + Pow(o)], 0) == [lists[m][0] + Pow(o)];
    forall h | 0 <= h < ORDERS ensures a[h] == b[h] {
    }
  }

  ghost predicate Front(pool: Pool, p: int) {
    && Record(pool.links, p) && pool.links.prev[p] == NONE
    && (pool.links.next[p] == NONE || Record(pool.links, pool.links.next[p]))
  }

  lemma FrontOut(pool: Pool, b: Block)
    requires Front(pool, b.page) && b.order < |pool.first|
    ensures var n := pool.links.next[b.page];
      TakeOut(pool, b) == FreeLists.Pool(pool.links.(prev := if n == NONE then pool.links.prev
        else pool.links.prev[n := NONE]),
        pool.first[b.order := n], pool.bits)
  {
  }

  /** No twins are free but, at most, the first block of the list of order o and its twin. */
  ghost predicate OnlyFirst(lists: Lists, o: nat) {
    && o < |lists| && lists[o] != [] && lists[o][0] >= 0
    && NoTwins(FreeOf(lists) - {Block(o, lists[o][0])})
  }

  lemma OnlyFirstOut(lists: Lists, b: Block)
    requires OnlyFirst(lists, b.order) && lists[b.order][0] == b.page
    ensures NoTwins(FreeOf(lists) - {b})
  {
  }

  lemma OnlyFirstIn(lists: Lists, b: Block)
    requires b.order < |lists| && lists[b.order] != [] && lists[b.order][0] == b.page && NoTwins(FreeOf(lists) - {b})
    ensures OnlyFirst(lists, b.order)
  {
  }

  lemma FirstIs(pool: Pool, lists: Lists, o: nat)
    requires Linked(pool, lists) && o < ORDERS
    ensures pool.first[o] == NONE <==> lists[o] == []
    ensures lists[o] != [] ==> Front(pool, lists[o][0]) && pool.first[o] == lists[o][0]
  {
    if lists[o] != [] {
      assert LinkedAt(pool.links, lists[o], 0);
      if |lists[o]| > 1 { assert LinkedAt(pool.links, lists[o], 1); }
    }
  }

  lemma HalfRecords(pool: Pool, usable: nat, b: Block)
    requires |pool.links.next| == |pool.links.prev| == usable * 256 && b.order > 0
    requires b.page + Pow(b.order - 1) < usable * 256 && Twin(LeftHalf(b)).page == b.page + Pow(b.order - 1)
    ensures Record(pool.links, LeftHalf(b).page) && Record(pool.links, Twin(LeftHalf(b)).page)
    ensures LeftHalf(b).page != Twin(LeftHalf(b)).page
  {
  }

  lemma PutTwoIs(lists: Lists, l: Block, r: Block)
    requires l.order == r.order < |lists| && lists[l.order] == []
    ensures Put(Put(lists, r), l) == lists[l.order := [l.page, r.page]]
  {
    assert [l.page] + ([r.page] + []) == [l.page, r.page];
  }

  lemma PairIn(pool: Pool, l: Block, r: Block)
    requires Record(pool.links, l.page) && Record(pool.links, r.page) && l.page != r.page
    requires l.order == r.order < |pool.first| && pool.first[l.order] == NONE
    ensures PutIn(PutIn(pool, r), l) == FreeLists.Pool(
      Links(pool.links.next[l.page := r.page][r.page := NONE], pool.links.prev[l.page := NONE][r.page := l.page]),
      pool.first[l.order := l.page], pool.bits)
  {
  }

  lemma Parts(pool: Pool, lists: Lists, held: set<Block>, usable: nat, lo: nat)
    requires Consistent(pool, lists, held, usable, lo)
    ensures |pool.links.next| == usable * 256 && |pool.links.prev| == usable * 256
      && |pool.bits| == Offset(usable, ORDERS)
    ensures |pool.first| == ORDERS && |lists| == ORDERS && Linked(pool, lists)
  {
  }

  function WithHalves(pool: Pool, b: Block, right: nat): Pool
    requires b.order > 0 && b.order - 1 < |pool.first| && Record(pool.links, b.page) && Record(pool.links, right)
  {
    FreeLists.Pool(
      Links(pool.links.next[b.page := right][right := NONE], pool.links.prev[b.page := NONE][right := b.page]),
      pool.first[b.order - 1 := b.page], pool.bits)
  }

  lemma HalvesIn(pool: Pool, lists: Lists, held: set<Block>, usable: nat, lo: nat, b: Block)
    requires Consistent(pool, lists, held, usable, lo) && b in held && b.order > 0
    requires b.order - 1 < ORDERS && lists[b.order - 1] == []
    ensures b.page + Pow(b.order - 1) < usable * 256
    ensures var o, right := b.order - 1, b.page + Pow(b.order - 1);
      && b.page != right
      && FreeOf(lists[o := [b.page, right]]) == FreeOf(lists) + {LeftHalf(b), Twin(LeftHalf(b))}
      && Consistent(WithHalves(pool, b, right), lists[o := [b.page, right]], held - {b}, usable, lo)
  {
    hide Consistent, FlipBit, FreeOf, Linked, Offset, PageAllocator.Pool, Pow;
    var l, r := LeftHalf(b), Twin(LeftHalf(b));
    Parts(pool, lists, held, usable, lo);
    FirstIs(pool, lists, b.order - 1);
    HalvesStep(pool, lists, held, usable, lo, b);
    HalfRecords(pool, usable, b);
    PairIn(pool, l, r);
    PutTwoIs(lists, l, r);
  }

  /** What a listed record's links are. */
  lemma ListedLinks(pool: Pool, lists: Lists, o: nat, j: nat)
    requires Linked(pool, lists) && o < ORDERS && j < |lists[o]|
    ensures var l, x := pool.links, lists[o][j];
      && Record(l, x) && l.prev[x] != x && l.next[x] != x
      && (l.prev[x] == NONE || Record(l, l.prev[x])) && (l.next[x] == NONE || Record(l, l.next[x]))
  {
    var l, s := pool.links, lists[o];
    assert LinkedAt(l, s, j);
    if j > 0 { assert LinkedAt(l, s, j - 1); }
    if j + 1 < |s| { assert LinkedAt(l, s, j + 1); }
  }

  /** A block that is not free itself: its pair's bit, once toggled, tells whether its twin is not free either. */
  lemma BitTells(bits: seq<Byte>, usable: nat, free: set<Block>, b: Block)
    requires BitsRight(bits, usable, free) && b.order < TOP && Aligned(b) && b.page < usable * 256 && b !in free
    ensures PairBit(Toggled(bits, usable, b.order, b.page), usable, b.order, b.page) <==> Twin(b) !in free
  {
    ToggledBit(bits, usable, b.order, b.page, b.order, b.page);
    hide PairBit, Toggled, Twin;
  }

  lemma FreeSound(pool: Pool, lists: Lists, held: set<Block>, usable: nat, lo: nat)
    requires Consistent(pool, lists, held, usable, lo)
    ensures ProperSet(FreeOf(lists), lo, usable)
  {
    hide FreeOf, Linked, BitsRight, Proper, Covers;
    var all := FreeOf(lists) + held;
    assert Tiling(all, lo, usable);
    assert forall b :: b in FreeOf(lists) ==> b in all;
  }

  lemma ToggledStore(mem: seq<Byte>, usable: nat, o: nat, q: nat)
    requires o < ORDERS && |mem| == Offset(usable, ORDERS) && q < usable * 256
    ensures var k, j := ByteAt(usable, o, q), At(q, o + 1) % 8;
      && k < |mem| && Toggled(mem, usable, o, q) == mem[k := Turned(mem[k], j)]
      && PairBit(Toggled(mem, usable, o, q), usable, o, q) == IsSet(Turned(mem[k], j), j)
  {
    InBitmap(usable, o, q);
    hide At, FlipBit, Pow, Offset, Bytes;
  }

  /** An aligned run of 2^o managed pages is free throughout. */
  ghost predicate RunFree(free: set<Block>, o: nat, lo: nat, hi: nat) {
    exists b: Block :: Proper(b, lo, hi) && b.order == o && WhollyFree(free, b)
  }

  lemma {:induction false} AlignedBelow(p: nat, m: nat, o: nat)
    requires Aligned(Block(m, p)) && o <= m
    ensures Aligned(Block(o, p))
    decreases m
  {
    if o < m {
      LeftHalfIs(Block(m, p));
      AlignedBelow(p, m - 1, o);
    }
  }

  /** Some list from order o on has a block exactly when an aligned run of that size is free. */
  lemma NoneFits(lists: Lists, o: nat, lo: nat, hi: nat)
    requires |lists| == ORDERS && o < ORDERS && ProperSet(FreeOf(lists), lo, hi) && NoTwins(FreeOf(lists))
    requires forall h: nat :: h < ORDERS && lists[h] != [] ==> lists[h][0] >= 0
    ensures Least(lists, o) < ORDERS <==> RunFree(FreeOf(lists), o, lo, hi)
  {
    hide NoTwins, Apart, FreeOf, Proper, Aligned;
    var m := Least(lists, o);
    if m < ORDERS {
      var b := Block(m, lists[m][0]);
      FreeIs(lists, b);
      ListedRun(FreeOf(lists), b, o, lo, hi);
    }
    if RunFree(FreeOf(lists), o, lo, hi) {
      var b: Block :| Proper(b, lo, hi) && b.order == o && WhollyFree(FreeOf(lists), b);
      ProperAligned(b, lo, hi);
      var c := InOneBlock(FreeOf(lists), b, lo, hi);
      FreeIs(lists, c);
    }
  }

  lemma ListedRun(free: set<Block>, b: Block, o: nat, lo: nat, hi: nat)
    requires b in free && Proper(b, lo, hi) && o <= b.order
    ensures RunFree(free, o, lo, hi)
  {
    var run := Block(o, b.page);
    AlignedBelow(b.page, b.order, o);
    forall q: nat | Covers(run, q) ensures Covered(free, q) {
      SameAbove(q, b.page, o, b.order);
      CoveredBy(free, b, q);
    }
    assert Proper(run, lo, hi) && WhollyFree(free, run);
  }

  /** The block is the first one of the lowest order that fits, taken apart as far as needed, and its pages are
      the only ones that are no longer free. */
  ghost predicate Allocated(lists: Lists, held: set<Block>, lists': Lists, held': set<Block>, b: Block) {
    && |lists| == ORDERS && b.order < ORDERS
    && var m := Least(lists, b.order);
    && m < ORDERS && b.page == lists[m][0] && lists' == Carved(lists, b.order, m)
    && b !in held && held' == held + {b}
    && forall q: nat :: Covered(FreeOf(lists'), q) <==> Covered(FreeOf(lists), q) && !Covers(b, q)
  }

  ghost predicate Merged(lists: Lists, held: set<Block>, lists': Lists, held': set<Block>, b: Block, up: nat) {
    && b.order < |lists| && Twin(b).page in lists[b.order] && Parent(b) == Block(b.order + 1, up)
    && lists' == Drop(lists, b.order, IndexOf(lists[b.order], Twin(b).page))
    && b in held && Parent(b) !in held && held' == held - {b} + {Parent(b)}
  }

  /** The free pages are the managed ones that no held block has. */
  lemma FreePages(free: set<Block>, held: set<Block>, lo: nat, hi: nat, q: nat)
    requires Tiling(free + held, lo, hi) && free !! held
    ensures Covered(free, q) <==> Managed(q, lo, hi) && !Covered(held, q)
  {
    hide Covers, Aligned;
    var all := free + held;
    if Covered(free, q) {
      var b :| b in free && Covers(b, q);
      assert b in all;
      SameManaged(b, q, lo, hi);
      forall c | c in held ensures !Covers(c, q) { assert c in all; }
    } else if Managed(q, lo, hi) {
      assert Covered(all, q);
      var b :| b in all && Covers(b, q);
      assert b !in free by { if b in free { CoveredBy(free, b, q); } }
      CoveredBy(held, b, q);
    }
  }

  lemma SameManaged(b: Block, q: nat, lo: nat, hi: nat)
    requires Proper(b, lo, hi) && Covers(b, q)
    ensures Managed(q, lo, hi)
  {
    SameAbove(q, b.page, b.order, TOP);
  }

  lemma TookPages(pool: Pool, pool0: Pool, lists0: Lists, lists: Lists, held0: set<Block>, b: Block, usable: nat,
      lo: nat)
    requires Sound(pool0, lists0, held0, usable, lo) && Sound(pool, lists, held0 + {b}, usable, lo)
    ensures forall q: nat :: Covered(FreeOf(lists), q) <==> Covered(FreeOf(lists0), q) && !Covers(b, q)
  {
    hide Linked, BitsRight, FreeOf, Tiling, NoTwins, Covers;
    forall q: nat ensures Covered(FreeOf(lists), q) <==> Covered(FreeOf(lists0), q) && !Covers(b, q) {
      FreePages(FreeOf(lists0), held0, lo, usable, q);
      FreePages(FreeOf(lists), held0 + {b}, lo, usable, q);
      if Covers(b, q) {
        CoveredBy(held0 + {b}, b, q);
      } else {
        assert Covered(held0 + {b}, q) <==> Covered(held0, q);
      }
    }
  }

  lemma GavePages(pool: Pool, pool0: Pool, lists0: Lists, lists: Lists, held0: set<Block>, b: Block, usable: nat,
      lo: nat)
    requires Sound(pool0, lists0, held0, usable, lo) && b in held0 && Sound(pool, lists, held0 - {b}, usable, lo)
    ensures forall q: nat :: Covered(FreeOf(lists), q) <==> Covered(FreeOf(lists0), q) || Covers(b, q)
  {
    hide Linked, BitsRight, FreeOf, NoTwins, Covers, Aligned, Proper;
    var all := FreeOf(lists0) + held0;
    assert b in all && Proper(b, lo, usable);
    forall q: nat ensures Covered(FreeOf(lists), q) <==> Covered(FreeOf(lists0), q) || Covers(b, q) {
      FreePages(FreeOf(lists0), held0, lo, usable, q);
      FreePages(FreeOf(lists), held0 - {b}, lo, usable, q);
      if Covers(b, q) {
        SameManaged(b, q, lo, usable);
        forall c | c in held0 - {b} ensures !Covers(c, q) { assert c in all; }
      } else {
        assert Covered(held0 - {b}, q) <==> Covered(held0, q);
      }
    }
  }

  lemma HeldProper(pool: Pool, lists: Lists, held: set<Block>, usable: nat, lo: nat, b: Block)
    requires Consistent(pool, lists, held, usable, lo) && b in held
    ensures Proper(b, lo, usable) && b.order < ORDERS && b.page < usable * 256 && b !in FreeOf(lists)
  {
    hide Linked, BitsRight, FreeOf, Covers, Aligned;
    assert b in FreeOf(lists) + held;
    ProperPage(b, usable, lo);
  }

  /** The block being freed cannot merge: its list takes it. */
  lemma GiveReady(pool: Pool, lists: Lists, held: set<Block>, usable: nat, lo: nat, b: Block)
    requires Sound(pool, lists, held, usable, lo) && b in held && (b.order == TOP || Twin(b) !in FreeOf(lists))
    ensures b.order < ORDERS && b.page < usable * 256 && |pool.bits| == Offset(usable, ORDERS) && |pool.first| == ORDERS
    ensures pool.first[b.order] == NONE || 0 <= pool.first[b.order] < usable * 256
    ensures |lists| == ORDERS && Sound(PutIn(ToggleIn(pool, usable, b), b), Put(lists, b), held - {b}, usable, lo)
  {
    HeldProper(pool, lists, held, usable, lo, b);
    Parts(pool, lists, held, usable, lo);
    FreeSound(pool, lists, held, usable, lo);
    hide At, Consistent, FlipBit, FreeOf, Linked, NoTwins, Offset, PageAllocator.Pool, Pow, ProperSet, Toggled;
    HeadRange(pool, lists, b.order, usable);
    GiveStep(pool, lists, held, usable, lo, b);
    GiveTwins(FreeOf(lists), b, lo, usable);
  }

  lemma BitSays(pool: Pool, lists: Lists, held: set<Block>, usable: nat, lo: nat, b: Block)
    requires Consistent(pool, lists, held, usable, lo) && b in held
    ensures b.order < ORDERS && b.page < usable * 256 && |pool.bits| == Offset(usable, ORDERS)
    ensures b.order < TOP ==>
      (PairBit(Toggled(pool.bits, usable, b.order, b.page), usable, b.order, b.page) <==> Twin(b) !in FreeOf(lists))
  {
    HeldProper(pool, lists, held, usable, lo, b);
    hide Linked, FreeOf, Tiling, Twin, PairBit, Toggled;
    if b.order < TOP {
      BitTells(pool.bits, usable, FreeOf(lists), b);
    }
  }

  lemma HeadRange(pool: Pool, lists: Lists, o: nat, usable: nat)
    requires Linked(pool, lists) && o < ORDERS && |pool.links.next| == usable * 256
    ensures pool.first[o] == NONE || 0 <= pool.first[o] < usable * 256
  {
    FirstIs(pool, lists, o);
  }

  /** The block being freed has a free twin: the two become one. */
  lemma JoinReady(pool: Pool, lists: Lists, held: set<Block>, usable: nat, lo: nat, b: Block)
    requires Sound(pool, lists, held, usable, lo) && b in held && b.order < TOP && Twin(b) in FreeOf(lists)
    ensures b.page < usable * 256 && |pool.bits| == Offset(usable, ORDERS)
    ensures |lists| == ORDERS && Twin(b).page in lists[b.order] && Parent(b) !in held
    ensures var x, l := Twin(b).page, pool.links;
      && x < |l.next| && x < |l.prev| && l.prev[x] != x && l.next[x] != x
      && (l.prev[x] == NONE || 0 <= l.prev[x] < usable * 256) && (l.next[x] == NONE || 0 <= l.next[x] < usable * 256)
      && b.order < |pool.first|
      && Sound(TakeOut(ToggleIn(pool, usable, b), Twin(b)), Drop(lists, b.order, IndexOf(lists[b.order], x)),
        held - {b} + {Parent(b)}, usable, lo)
  {
    HeldProper(pool, lists, held, usable, lo, b);
    Parts(pool, lists, held, usable, lo);
    FreeSound(pool, lists, held, usable, lo);
    FreeIs(lists, Twin(b));
    hide At, Consistent, FlipBit, FreeOf, IndexOf, Linked, NoTwins, Offset, PageAllocator.Pool, Pow, ProperSet,
      TakeOut, Toggled;
    var x := Twin(b).page;
    assert Twin(b).order == b.order;
    var j := IndexOf(lists[b.order], x);
    ListedLinks(pool, lists, b.order, j);
    assert Record(pool.links, x) && (pool.links.prev[x] == NONE || Record(pool.links, pool.links.prev[x]))
      && (pool.links.next[x] == NONE || Record(pool.links, pool.links.next[x]));
    JoinStep(pool, lists, held, usable, lo, b, j);
    NoTwinsLess(FreeOf(lists), Twin(b));
    assert b in FreeOf(lists) + held && Twin(b) in FreeOf(lists) + held;
    ParentNew(pool, lists, held, usable, lo, b);
  }

  lemma NoTwinsLess(free: set<Block>, b: Block)
    requires NoTwins(free)
    ensures NoTwins(free - {b})
  {
    hide Twin;
  }

  lemma ParentNew(pool: Pool, lists: Lists, held: set<Block>, usable: nat, lo: nat, b: Block)
    requires Consistent(pool, lists, held, usable, lo) && b in held && b.order < TOP && Twin(b) in FreeOf(lists)
    ensures Parent(b) !in held
  {
    hide Linked, BitsRight, FreeOf, Tiling, Twin, Parent;
    JoinTiling(FreeOf(lists) + held, b, lo, usable);
  }

  /** The block an allocation takes was free throughout. */
  lemma AllocatedWasFree(lists: Lists, b: Block, lo: nat, hi: nat)
    requires |lists| == ORDERS && b.order < ORDERS && Least(lists, b.order) < ORDERS
    requires b.page == lists[Least(lists, b.order)][0] && ProperSet(FreeOf(lists), lo, hi)
    ensures WhollyFree(FreeOf(lists), b)
  {
    var m := Least(lists, b.order);
    var c := Block(m, b.page);
    FreeIs(lists, c);
    hide FreeOf, Apart, Aligned;
    forall q: nat | Covers(b, q) ensures Covered(FreeOf(lists), q) {
      SameAbove(q, b.page, b.order, m);
      CoveredBy(FreeOf(lists), c, q);
    }
  }

  // ----- the initial pool -----

  /** The first pages of megabytes lo to i. */
  function Starts(lo: nat, i: nat): seq<int> {
    if i <= lo then [] else Starts(lo, i - 1) + [(i - 1) * 256]
  }

  function Initial(lo: nat, i: nat): (r: Lists)
    ensures |r| == ORDERS
  {
    [[], [], [], [], [], [], [], [], Starts(lo, i)]
  }

  lemma {:induction false} StartsAt(lo: nat, i: nat)
    ensures |Starts(lo, i)| == if i <= lo then 0 else i - lo
    ensures forall k: nat :: k < |Starts(lo, i)| ==> Starts(lo, i)[k] == (lo + k) * 256
  {
    if i > lo {
      StartsAt(lo, i - 1);
    }
  }

  lemma InitialFree(lo: nat, i: nat, b: Block)
    ensures b in FreeOf(Initial(lo, i)) <==> b.order == TOP && Aligned(b) && Managed(b.page, lo, i)
  {
    FreeIs(Initial(lo, i), b);
    StartsAt(lo, i);
    Powers();
    var k := At(b.page, TOP);
    AtMultiple(k, TOP);
    if b.page in Starts(lo, i) {
      var j := IndexOf(Starts(lo, i), b.page);
      AtMultiple(lo + j, TOP);
    }
    if b.order == TOP && Aligned(b) && Managed(b.page, lo, i) {
      assert Starts(lo, i)[k - lo] == b.page;
    }
  }

  lemma InitialTiles(lo: nat, i: nat)
    ensures Tiling(FreeOf(Initial(lo, i)), lo, i) && NoTwins(FreeOf(Initial(lo, i)))
    ensures forall b :: b in FreeOf(Initial(lo, i)) ==> b.order == TOP
  {
    var free := FreeOf(Initial(lo, i));
    forall b ensures b in free <==> b.order == TOP && Aligned(b) && Managed(b.page, lo, i) { InitialFree(lo, i, b); }
    hide FreeOf, Initial, At, Pow;
    forall q: nat | Managed(q, lo, i) ensures Covered(free, q) {
      var b := Block(TOP, At(q, TOP) * Pow(TOP));
      AtMultiple(At(q, TOP), TOP);
      CoveredBy(free, b, q);
    }
  }

  lemma InitialSound(pool: Pool, lo: nat, usable: nat)
    requires |pool.links.next| == usable * 256 && |pool.links.prev| == usable * 256 && Linked(pool, Initial(lo, usable))
    requires |pool.bits| == Offset(usable, ORDERS) && forall k :: 0 <= k < |pool.bits| ==> pool.bits[k] == 0
    ensures Sound(pool, Initial(lo, usable), {}, usable, lo)
  {
    var free := FreeOf(Initial(lo, usable));
    InitialTiles(lo, usable);
    assert free + {} == free;
    hide FreeOf, Initial, Linked, Tiling, NoTwins;
    forall b: Block | b.order < TOP && Aligned(b) && b.page < usable * 256
      ensures !PairBit(pool.bits, usable, b.order, b.page)
    {
      InBitmap(usable, b.order, b.page);
      NoBits(At(b.page, b.order + 1) % 8);
    }
    assert forall b: Block :: Twin(b).order == b.order;
  }

  lemma {:induction false} NoBits(k: nat)
    ensures At(0, k) == 0
  {
    if k > 0 { NoBits(k - 1); }
  }

  lemma StartsLast(lo: nat, i: nat)
    requires lo <= i
    ensures Last(Starts(lo, i + 1)) == i * 256
  {
  }

  lemma InitialEnd(lo: nat, usable: nat, i: nat)
    requires i == usable || (i == lo && usable <= lo)
    ensures Initial(lo, usable) == Initial(lo, i)
  {
  }

  lemma NoStarts(pool: Pool, lo: nat)
    requires |pool.first| == ORDERS && forall o :: 0 <= o < ORDERS ==> pool.first[o] == NONE
    ensures Linked(pool, Initial(lo, lo))
  {
  }

  /** One more megabyte at the end of the list. */
  lemma TopLinked(pool: Pool, lo: nat, i: nat)
    requires Linked(pool, Initial(lo, i)) && lo <= i && Record(pool.links, i * 256) && pool.links.next[i * 256] == NONE
    ensures var x, t, l := i * 256, Last(Starts(lo, i)), pool.links;
      && (t == NONE || (Record(l, t) && t != x))
      && Linked(FreeLists.Pool(
        Links(if t == NONE then l.next else l.next[t := x], l.prev[x := t]),
        if t == NONE then pool.first[TOP := x] else pool.first, pool.bits), Initial(lo, i + 1))
  {
    var x, s, l := i * 256, Starts(lo, i), pool.links;
    StartsAt(lo, i);
    assert Chain(l, s) by { assert Initial(lo, i)[TOP] == s; }
    if s != [] { assert LinkedAt(l, s, |s| - 1); }
    PushBackChain(l, s, x);
    assert Starts(lo, i + 1) == s + [x];
    hide Starts, Chain;
    var l' := PushBack(l, Last(s), x);
    assert l.next[x := NONE] == l.next;
    assert Chain(l', []);
  }

  class PageAllocator {
    const usable: nat
    const lo: nat
    const offset: seq<nat>
    const next: array<int>
    const prev: array<int>
    const refCount: array<int>
    const flags: array<int>
    const first: array<int>
    const bitmap: array<Byte>
    ghost var lists: Lists
    ghost var held: set<Block>

    ghost function Pool(): Pool
      reads next, prev, first, bitmap
    {
      FreeLists.Pool(Links(next[..], prev[..]), first[..], bitmap[..])
    }

    ghost predicate Shape() {
      && next.Length == prev.Length == refCount.Length == flags.Length == usable * 256
      && first.Length == ORDERS && bitmap.Length == Offset(usable, ORDERS)
      && next != prev && next != refCount && next != flags && next != first
      && prev != refCount && prev != flags && prev != first
      && refCount != flags && refCount != first && flags != first
      && |offset| == ORDERS && forall o :: 0 <= o < ORDERS ==> offset[o] == Offset(usable, o)
    }

    /** Within a critical section. */
    ghost predicate Busy()
      reads this, next, prev, first, bitmap
    {
      Shape() && Consistent(Pool(), lists, held, usable, lo)
    }

    ghost predicate Valid()
      reads this, next, prev, first, bitmap
    {
      Shape() && Sound(Pool(), lists, held, usable, lo)
    }

    method ToggleBit(order: nat, page: nat) returns (set_: bool)
      requires Shape() && order < ORDERS && page < usable * 256
      modifies bitmap
      ensures bitmap[..] == Toggled(old(bitmap[..]), usable, order, page)
      ensures forall o: nat, q: nat :: o < ORDERS && q < usable * 256 ==> (PairBit(bitmap[..], usable, o, q) <==>
        (PairBit(old(bitmap[..]), usable, o, q) != (o == order && At(q, o + 1) == At(page, o + 1))))
      ensures set_ == PairBit(bitmap[..], usable, order, page)
    {
      ToggledStore(bitmap[..], usable, order, page);
      hide At, FlipBit, IsSet, Offset, PairBit, Toggled;
      var entb := At(page, order + 1);
      var k := offset[order] + entb / 8;
      ghost var was := bitmap[..];
      bitmap[k] := Turned(bitmap[k], entb % 8);
      assert bitmap[..] == was[k := Turned(was[k], entb % 8)];
      set_ := IsSet(bitmap[k], entb % 8);
      ToggledBits(was, usable, order, page);
    }

    /** The first block of a list, taken off it; from then on it is held. */
    method PopFirst(order: nat) returns (page: nat)
      requires Busy() && order < ORDERS && lists[order] != []
      modifies next, prev, first, bitmap, `lists, `held
      ensures Busy()
      ensures page == old(lists)[order][0] && Block(order, page) in FreeOf(old(lists))
      ensures Block(order, page) !in old(held)
      ensures lists == Drop(old(lists), order, 0) && held == old(held) + {Block(order, page)}
      ensures FreeOf(lists) == FreeOf(old(lists)) - {Block(order, page)}
    {
      LinkedNow();
      FirstIs(Pool(), lists, order);
      TakeStep(Pool(), lists, held, usable, lo, order);
      hide Consistent, Linked, Toggled, Drop, FreeOf, TakeOut, Chain, Offset;
      ghost var was := Pool();
      FrontOut(was, Block(order, lists[order][0]));
      page := first[order];
      first[order] := next[page];
      if next[page] != NONE {
        prev[next[page]] := NONE;
      }
      ghost var mid := Pool();
      ghost var n := was.links.next[page];
      assert next[..] == was.links.next && first[..] == was.first[order := n];
      assert prev[..] == if n == NONE then was.links.prev else was.links.prev[n := NONE];
      assert mid == TakeOut(was, Block(order, page));
      var _ := ToggleBit(order, page);
      assert Pool() == ToggleIn(mid, usable, Block(order, page));
      lists := Drop(lists, order, 0);
      held := held + {Block(order, page)};
    }

    method LinkPair(order: nat, high: nat, right: nat)
      requires Shape() && order < ORDERS && high != right && high < usable * 256 && right < usable * 256
      modifies next, prev, first
      ensures Pool() == WithHalves(old(Pool()), Block(order + 1, high), right)
    {
      hide Offset;
      ghost var was := Pool();
      first[order] := high;
      next[high] := right;
      prev[high] := NONE;
      next[right] := NONE;
      prev[right] := high;
      assert next[..] == was.links.next[high := right][right := NONE];
      assert prev[..] == was.links.prev[high := NONE][right := high];
      assert first[..] == was.first[order := high];
    }

    /** The two halves of a held block become the list of the order below it. */
    method Register(order: nat, high: nat)
      requires Busy() && order < TOP && lists[order] == [] && Block(order + 1, high) in held
      modifies next, prev, first, `lists, `held
      ensures Busy()
      ensures lists == old(lists)[order := [high, high + Pow(order)]] && held == old(held) - {Block(order + 1, high)}
      ensures FreeOf(lists) == FreeOf(old(lists)) + {LeftHalf(Block(order + 1, high)),
        Twin(LeftHalf(Block(order + 1, high)))}
    {
      hide Consistent, FlipBit, FreeOf, Linked, Offset, Pool, Pow, Shape, WithHalves;
      ghost var b, right := Block(order + 1, high), high + Pow(order);
      Parts(Pool(), lists, held, usable, lo);
      ghost var l: Lists := lists[order := [high, right]];
      HalvesIn(Pool(), lists, held, usable, lo, b);
      LinkPair(order, high, high + Pow(order));
      lists := l;
      held := held - {b};
    }

    /** Makes sure that the list of an order is not empty, cutting the first block of the next order in two where
        it is.  The bound on the order is looked at first. */
    method RefillOrder(order: nat) returns (ok: bool)
      requires Valid() && order <= ORDERS
      modifies next, prev, first, bitmap, `lists, `held
      ensures Busy() && held == old(held)
      ensures ok <==> Least(old(lists), order) < ORDERS
      ensures !ok ==> lists == old(lists) && Pool() == old(Pool())
      ensures ok ==>
        order < ORDERS && lists == Refilled(old(lists), order, Least(old(lists), order)) && OnlyFirst(lists, order)
      decreases ORDERS - order
    {
      hide Consistent, Linked, FreeOf, Twin, Refilled, Carved, NoTwins, OnlyFirst;
      if order == ORDERS {
        return false;
      }
      LinkedNow();
      FirstIs(Pool(), lists, order);
      ghost var m := Least(lists, order);
      if first[order] != NONE {
        RefilledHere(lists, order);
        SubTwins(lists, order);
        return true;
      }
      ok := RefillOrder(order + 1);
      if ok {
        ghost var up := lists;
        RefilledDown(old(lists), order, m, old(lists)[m][0] + Pow(order));
        FreeSound(Pool(), up, held, usable, lo);
        var high := PopFirst(order + 1);
        ghost var b := Block(order + 1, high);
        Register(order, high);
        OnlyFirstOut(up, b);
        SplitTwins(FreeOf(up), b, lo, usable);
        assert FreeOf(lists) == Halved(FreeOf(up), b);
        OnlyFirstIn(lists, LeftHalf(b));
      }
    }

    method TakeBlock(order: nat) returns (page: int)
      requires Valid() && order < ORDERS
      modifies next, prev, first, bitmap, `lists, `held
      ensures Valid()
      ensures page == NONE <==> !RunFree(FreeOf(old(lists)), order, lo, usable)
      ensures page == NONE ==> lists == old(lists) && held == old(held) && Pool() == old(Pool())
      ensures page != NONE ==> 0 <= page && Allocated(old(lists), old(held), lists, held, Block(order, page))
    {
      hide At, Carved, Consistent, Covered, FreeOf, Least, NoTwins, Pool, Pow, ProperSet, RunFree, Shape;
      ValidParts();
      ghost var m := Least(lists, order);
      NoneFits(lists, order, lo, usable);
      var ok := RefillOrder(order);
      if !ok {
        return NONE;
      }
      CarvedIs(old(lists), order, m);
      assert lists[order] != [];
      ghost var mid := lists;
      page := PopFirst(order);
      ghost var b := Block(order, page);
      assert NoTwins(FreeOf(lists));
      assert Sound(Pool(), lists, held, usable, lo);
      assert Allocated(old(lists), old(held), lists, held, b) by {
        TookPages(Pool(), old(Pool()), old(lists), lists, old(held), b, usable, lo);
      }
      assert Shape();
    }

    /** Takes a block out of the pool, or reports that there is none: exactly when no aligned run of that size is
        free throughout, and then nothing has changed. */
    method MemAllocPage(order: nat) returns (page: int)
      requires Valid() && order < ORDERS
      modifies next, prev, first, bitmap, refCount, flags, `lists, `held
      ensures Valid()
      ensures page == NONE <==> !RunFree(FreeOf(old(lists)), order, lo, usable)
      ensures page == NONE ==> lists == old(lists) && held == old(held) && Pool() == old(Pool())
      ensures page == NONE ==> refCount[..] == old(refCount[..]) && flags[..] == old(flags[..])
      ensures page != NONE ==> 0 <= page < usable * 256
      ensures page != NONE ==> Allocated(old(lists), old(held), lists, held, Block(order, page))
      ensures page != NONE ==> refCount[..] == old(refCount[..])[page := 1] && flags[..] == old(flags[..])[page := 0]
    {
      hide At, Carved, Consistent, Covered, FreeOf, Least, NoTwins, Offset, Pool, Pow, RunFree;
      page := TakeBlock(order);
      if page != NONE {
        assert Block(order, page) in held;
        HeldPage(Block(order, page));
        refCount[page] := 1;
        flags[page] := 0;
      }
    }

    /** A record put before the first one of its list. */
    method LinkFirst(order: nat, page: nat)
      requires Shape() && order < ORDERS && page < usable * 256
      requires first[order] == NONE || 0 <= first[order] < usable * 256
      modifies next, prev, first
      ensures Pool() == PutIn(old(Pool()), Block(order, page))
    {
      hide Offset;
      ghost var was := Pool();
      next[page] := first[order];
      prev[page] := NONE;
      if next[page] != NONE {
        prev[next[page]] := page;
      }
      first[order] := page;
      ghost var h := was.first[order];
      assert next[..] == was.links.next[page := h] && first[..] == was.first[order := page];
      assert prev[..] == if h == NONE then was.links.prev[page := NONE] else was.links.prev[page := NONE][h := page];
    }

    /** A record taken out of its list. */
    method UnlinkFrom(order: nat, page: nat)
      requires Shape() && order < ORDERS && page < usable * 256 && prev[page] != page && next[page] != page
      requires prev[page] == NONE || 0 <= prev[page] < usable * 256
      requires next[page] == NONE || 0 <= next[page] < usable * 256
      modifies next, prev, first
      ensures Pool() == TakeOut(old(Pool()), Block(order, page))
    {
      hide Offset;
      ghost var was := Pool();
      var p := prev[page];
      if p != NONE {
        next[p] := next[page];
      } else {
        first[order] := next[page];
      }
      if next[page] != NONE {
        prev[next[page]] := p;
      }
      ghost var n := was.links.next[page];
      assert next[..] == if p == NONE then was.links.next else was.links.next[p := n];
      assert prev[..] == if n == NONE then was.links.prev else was.links.prev[n := p];
      assert first[..] == if p == NONE then was.first[order := n] else was.first;
    }

    /** One critical section of a free: the block goes on its list, or, when its twin is free, the twin is taken
        off and the two go on as one block of the next order. */
    method FreeSection(page: nat, order: nat) returns (up: int)
      requires Valid() && Block(order, page) in held
      modifies next, prev, first, bitmap, `lists, `held
      ensures Valid() && order < ORDERS
      ensures up == NONE <==> order == TOP || Twin(Block(order, page)) !in FreeOf(old(lists))
      ensures up == NONE ==> lists == Put(old(lists), Block(order, page)) && held == old(held) - {Block(order, page)}
      ensures up != NONE ==> 0 <= up && Merged(old(lists), old(held), lists, held, Block(order, page), up)
    {
      hide At, Consistent, FlipBit, FreeOf, IndexOf, NoTwins, Offset, PairBit, Pow, ProperSet, TakeOut, Toggled;
      ghost var b, was := Block(order, page), Pool();
      HeldPage(b);
      ValidParts();
      var set_ := ToggleBit(order, page);
      assert Pool() == ToggleIn(was, usable, b);
      BitSays(was, lists, held, usable, lo, b);
      if set_ || order == ORDERS - 1 {
        GiveReady(was, lists, held, usable, lo, b);
        LinkFirst(order, page);
        lists := Put(lists, b);
        held := held - {b};
        return NONE;
      }
      var buddy := FlipBit(page, order);
      JoinReady(was, lists, held, usable, lo, b);
      assert Twin(b) == Block(order, buddy);
      UnlinkFrom(order, buddy);
      lists := Drop(lists, order, IndexOf(lists[order], buddy));
      held := held - {b} + {Parent(b)};
      up := if page < buddy then page else buddy;
      assert Merged(old(lists), old(held), lists, held, b, up);
    }

    /** Gives a block back: section after section, one order up each time, until a list takes it.  Run without
        other callers in between, exactly its pages become free. */
    method MemFreePage(page: nat, order: nat)
      requires Valid() && Block(order, page) in held
      modifies next, prev, first, bitmap, `lists, `held
      ensures Valid() && held == old(held) - {Block(order, page)}
      ensures forall q: nat :: Covered(FreeOf(lists), q) <==>
        Covered(FreeOf(old(lists)), q) || Covers(Block(order, page), q)
      decreases ORDERS - order
    {
      hide At, Consistent, Covered, FlipBit, FreeOf, IndexOf, NoTwins, Pool, Pow, Shape;
      ghost var b := Block(order, page);
      HeldPage(b);
      var up := FreeSection(page, order);
      if up != NONE {
        assert held == old(held) - {b} + {Block(order + 1, up)} && b in old(held) && Block(order + 1, up) !in old(held)
         ;
        MemFreePage(up, order + 1);
      }
      GavePages(Pool(), old(Pool()), old(lists), lists, old(held), b, usable, lo);
    }

    lemma HeldPage(b: Block)
      requires Valid() && b in held
      ensures Proper(b, lo, usable) && b.page < usable * 256 && b.order < ORDERS
    {
      HeldProper(Pool(), lists, held, usable, lo, b);
    }

    lemma ValidParts()
      requires Valid()
      ensures Busy() && NoTwins(FreeOf(lists)) && ProperSet(FreeOf(lists), lo, usable) && |lists| == ORDERS
      ensures forall h: nat :: h < ORDERS && lists[h] != [] ==> lists[h][0] >= 0
    {
      hide Linked, BitsRight, FreeOf;
      FreeSound(Pool(), lists, held, usable, lo);
      LinkedNow();
      forall h: nat | h < ORDERS && lists[h] != [] ensures lists[h][0] >= 0 {
        FirstIs(Pool(), lists, h);
      }
    }

    lemma SubTwins(lists: Lists, o: nat)
      requires NoTwins(FreeOf(lists)) && o < |lists| && lists[o] != [] && lists[o][0] >= 0
      ensures OnlyFirst(lists, o)
    {
    }

    lemma LinkedNow()
      requires Busy()
      ensures Linked(Pool(), lists)
    {
    }

    /** Where the bitmaps of the orders start, and how long they are together. */
    static method Layout(usable: nat) returns (offs: seq<nat>, pos: nat)
      ensures |offs| == ORDERS && forall o :: 0 <= o < ORDERS ==> offs[o] == Offset(usable, o)
      ensures pos == Offset(usable, ORDERS)
    {
      hide Pow;
      pos, offs := 0, [];
      var i := 0;
      while i < ORDERS
        invariant 0 <= i <= ORDERS && pos == Offset(usable, i) && |offs| == i
        invariant forall o :: 0 <= o < i ==> offs[o] == Offset(usable, o)
      {
        offs := offs + [pos];
        pos := pos + (usable * Pow(TOP - i) + 15) / 16;
        i := i + 1;
      }
    }

    /** The end of the lists' construction: the managed megabytes are the list of order 8. */
    constructor MemInit(usableMem: nat)
      ensures Valid() && usable == usableMem && held == {}
      ensures fresh(next) && fresh(prev) && fresh(refCount) && fresh(flags) && fresh(first) && fresh(bitmap)
      ensures lo == (4096 * usableMem + Offset(usableMem, ORDERS) + 0xFFFFF) / 0x10_0000
      ensures lists == Initial(lo, usable)
    {
      var offs, pos := Layout(usableMem);
      var start := (4096 * usableMem + pos + 0xFFFFF) / 0x10_0000;
      usable, lo, offset := usableMem, start, offs;
      next := new int[usableMem * 256](_ => NONE);
      prev := new int[usableMem * 256](_ => NONE);
      refCount := new int[usableMem * 256](_ => 0);
      flags := new int[usableMem * 256](_ => 0);
      first := new int[ORDERS](_ => NONE);
      bitmap := new Byte[pos];
      held := {};
      lists := Initial(start, usableMem);
      new;
      hide Linked, Sound, Starts, Initial, Offset;
      ClearBitmap();
      ListTop();
      InitialSound(Pool(), lo, usable);
    }

    method ClearBitmap()
      modifies bitmap
      ensures forall k :: 0 <= k < bitmap.Length ==> bitmap[k] == 0
    {
      var at := 0;
      while at != bitmap.Length
        invariant 0 <= at <= bitmap.Length && forall k :: 0 <= k < at ==> bitmap[k] == 0
        decreases bitmap.Length - at
      {
        bitmap[at] := 0;
        at := at + 1;
      }
    }

    /** Links the first pages of the megabytes from lo on; the records start zeroed, which ends the list. */
    method ListTop()
      requires next.Length == prev.Length == usable * 256 && first.Length == ORDERS
      requires next != prev && next != first && prev != first
      requires forall k :: 0 <= k < next.Length ==> next[k] == NONE
      requires forall o :: 0 <= o < ORDERS ==> first[o] == NONE
      modifies next, prev, first
      ensures Linked(Pool(), Initial(lo, usable))
    {
      hide Linked, Initial, Starts;
      StartsAt(lo, lo);
      NoStarts(Pool(), lo);
      var i, cur, p := lo, lo * 256, NONE;
      while i < usable
        invariant lo <= i && (i <= usable || i == lo) && p < cur == i * 256 && p == Last(Starts(lo, i))
        invariant forall k :: cur <= k < next.Length ==> next[k] == NONE
        invariant Linked(Pool(), Initial(lo, i))
      {
        TopLinked(Pool(), lo, i);
        ghost var was := Pool();
        if p == NONE {
          first[TOP] := cur;
        } else {
          next[p] := cur;
        }
        prev[cur] := p;
        assert next[..] == if p == NONE then was.links.next else was.links.next[p := cur];
        assert prev[..] == was.links.prev[cur := p];
        assert first[..] == if p == NONE then was.first[TOP := cur] else was.first;
        StartsLast(lo, i);
        p := cur;
        cur := cur + 256;
        assert Linked(Pool(), Initial(lo, i + 1));
        i := i + 1;
      }
      InitialEnd(lo, usable, i);
    }
  }
}
