/** The state of the page allocator as values: the intrusive free lists, their heads and the pair bits, what
    makes them consistent, and what each critical section does to them. */
module FreeLists {
  import opened Seqs
  import opened Chains
  import opened Pages
  import opened PairBits

  datatype Pool = Pool(links: Links, first: seq<int>, bits: seq<Byte>)

  type Lists = seq<seq<int>>

  ghost function FreeOf(lists: Lists): set<Block> {
    set o: nat, p: nat | o < |lists| && p in lists[o] :: Block(o, p)
  }

  lemma FreeIs(lists: Lists, b: Block)
    ensures b in FreeOf(lists) <==> b.order < |lists| && b.page in lists[b.order]
  {
    if b.order < |lists| && b.page in lists[b.order] {
      assert Block(b.order, b.page) in FreeOf(lists);
    }
  }

  ghost predicate NoneShared(s: seq<int>, t: seq<int>) {
    forall p :: p in s ==> p !in t
  }

  ghost predicate Linked(pool: Pool, lists: Lists) {
    && |pool.first| == ORDERS && |lists| == ORDERS
    && (forall o: nat :: o < ORDERS ==> Chain(pool.links, lists[o]) && pool.first[o] == Head(lists[o]))
    && (forall o: nat, h: nat :: o < h < ORDERS ==> NoneShared(lists[o], lists[h]) && NoneShared(lists[h], lists[o]))
  }

  /** Below the top order a pair's bit tells whether exactly one of the twins is free. */
  ghost predicate BitsRight(bits: seq<Byte>, usable: nat, free: set<Block>) {
    && |bits| == Offset(usable, ORDERS)
    && forall b: Block :: b.order < TOP && Aligned(b) && b.page < usable * 256 ==>
      PairBit(bits, usable, b.order, b.page) == ((b in free) != (Twin(b) in free))
  }

  /** What holds at every moment: blocks not on the lists are held, by a caller or by a thread that is
      freeing them. */
  ghost predicate Consistent(pool: Pool, lists: Lists, held: set<Block>, usable: nat, lo: nat) {
    && |pool.links.next| == usable * 256 && |pool.links.prev| == usable * 256
    && Linked(pool, lists)
    && Tiling(FreeOf(lists) + held, lo, usable) && FreeOf(lists) !! held
    && BitsRight(pool.bits, usable, FreeOf(lists))
  }

  /** What holds between critical sections. */
  ghost predicate Sound(pool: Pool, lists: Lists, held: set<Block>, usable: nat, lo: nat) {
    && Consistent(pool, lists, held, usable, lo)
    && NoTwins(FreeOf(lists))
  }

  // ----- lists -----

  function Put(lists: Lists, b: Block): Lists
    requires b.order < |lists|
  {
    lists[b.order := [b.page] + lists[b.order]]
  }

  function Drop(lists: Lists, o: nat, j: nat): Lists
    requires o < |lists| && j < |lists[o]|
  {
    lists[o := Without(lists[o], j)]
  }

  function PutIn(pool: Pool, b: Block): Pool
    requires b.order < |pool.first|
  {
    Pool(PushFront(pool.links, pool.first[b.order], b.page), pool.first[b.order := b.page], pool.bits)
  }

  function TakeOut(pool: Pool, b: Block): Pool
    requires b.order < |pool.first| && Record(pool.links, b.page)
  {
    var first := if pool.links.prev[b.page] == NONE then pool.first[b.order := pool.links.next[b.page]] else pool.first;
    Pool(Unlink(pool.links, b.page), first, pool.bits)
  }

  lemma TakenOut(pool: Pool, b: Block)
    requires b.order < |pool.first| && Record(pool.links, b.page)
    ensures var p := TakeOut(pool, b);
      && p.bits == pool.bits && |p.first| == |pool.first|
      && |p.links.next| == |pool.links.next| && |p.links.prev| == |pool.links.prev|
  {
  }

  lemma PutFree(lists: Lists, b: Block)
    requires b.order < |lists|
    ensures FreeOf(Put(lists, b)) == FreeOf(lists) + {b}
  {
    forall c ensures c in FreeOf(Put(lists, b)) <==> c in FreeOf(lists) + {b} {
      FreeIs(lists, c);
      FreeIs(Put(lists, b), c);
    }
  }

  lemma DropFree(lists: Lists, o: nat, j: nat)
    requires o < |lists| && j < |lists[o]| && NoDup(lists[o]) && lists[o][j] >= 0
    ensures FreeOf(Drop(lists, o, j)) == FreeOf(lists) - {Block(o, lists[o][j])}
  {
    WithoutSet(lists[o], j);
    hide Without;
    forall c ensures c in FreeOf(Drop(lists, o, j)) <==> c in FreeOf(lists) - {Block(o, lists[o][j])} {
      FreeIs(lists, c);
      FreeIs(Drop(lists, o, j), c);
      assert c.order == o ==> (c.page in Without(lists[o], j) <==> c.page in SetOf(Without(lists[o], j)));
    }
  }

  lemma LinkedPut(pool: Pool, lists: Lists, b: Block)
    requires Linked(pool, lists) && b.order < ORDERS && Record(pool.links, b.page)
    requires forall o: nat :: o < ORDERS ==> b.page !in lists[o]
    ensures Linked(PutIn(pool, b), Put(lists, b))
  {
    hide PushFront, Chain;
    var s, p, l := lists[b.order], PutIn(pool, b), pool.links;
    PushFrontChain(l, s, b.page);
    forall o: nat | o < ORDERS ensures Chain(p.links, Put(lists, b)[o]) {
      if o != b.order {
        EndsElsewhere(l, s, lists[o]);
        StepElsewhere(l, b.page, Head(s), lists[o]);
        Frame(l, p.links, lists[o]);
      }
    }
    forall o: nat, h: nat | o < h < ORDERS
      ensures NoneShared(Put(lists, b)[o], Put(lists, b)[h]) && NoneShared(Put(lists, b)[h], Put(lists, b)[o])
    {
      assert NoneShared(lists[o], lists[h]) && NoneShared(lists[h], lists[o]);
    }
  }

  lemma HeadDrop(l: Links, s: seq<int>, j: nat)
    requires Chain(l, s) && j < |s|
    ensures Record(l, s[j])
    ensures Head(Without(s, j)) == if l.prev[s[j]] == NONE then l.next[s[j]] else Head(s)
  {
    assert LinkedAt(l, s, j);
    assert j > 0 ==> LinkedAt(l, s, j - 1);
    WithoutAt(s, j);
  }

  lemma LinkedDrop(pool: Pool, lists: Lists, o: nat, j: nat)
    requires Linked(pool, lists) && o < ORDERS && j < |lists[o]|
    ensures Record(pool.links, lists[o][j]) && Linked(TakeOut(pool, Block(o, lists[o][j])), Drop(lists, o, j))
  {
    var s, l := lists[o], pool.links;
    HeadDrop(l, s, j);
    var p, t := TakeOut(pool, Block(o, s[j])), Drop(lists, o, j);
    assert NoDup(s);
    WithoutSet(s, j);
    UnlinkChain(l, s, j);
    hide Unlink, Chain, Without, Head, NoDup;
    assert forall x :: x in Without(s, j) ==> x in SetOf(Without(s, j));
    forall h: nat | h < ORDERS ensures Chain(p.links, t[h]) && p.first[h] == Head(t[h]) {
      if h != o {
        UnlinkElsewhere(l, s, j, lists[h]);
        Frame(l, p.links, lists[h]);
      }
    }
    forall g: nat, h: nat | g < h < ORDERS ensures NoneShared(t[g], t[h]) && NoneShared(t[h], t[g]) {
      assert NoneShared(lists[g], lists[h]) && NoneShared(lists[h], lists[g]);
    }
  }

  // ----- pair bits -----

  lemma SamePair(b: Block, c: Block)
    requires Aligned(b) && Aligned(c) && b.order == c.order
    ensures At(b.page, b.order + 1) == At(c.page, c.order + 1) <==> c == b || c == Twin(b)
    ensures c == Twin(b) <==> Twin(c) == b
  {
    TwinIs(b);
    TwinIs(c);
  }

  lemma BitsToggled(bits: seq<Byte>, usable: nat, free: set<Block>, free': set<Block>, b: Block)
    requires BitsRight(bits, usable, free) && b.order < ORDERS && Aligned(b) && b.page < usable * 256
    requires forall c :: c != b ==> (c in free <==> c in free')
    requires b in free <==> b !in free'
    ensures BitsRight(Toggled(bits, usable, b.order, b.page), usable, free')
  {
    hide Toggled, PairBit, Twin, At, Aligned;
    forall c: Block | c.order < TOP && Aligned(c) && c.page < usable * 256
      ensures PairBit(Toggled(bits, usable, b.order, b.page), usable, c.order, c.page)
        == ((c in free') != (Twin(c) in free'))
    {
      ToggledBit(bits, usable, b.order, b.page, c.order, c.page);
      FamilyOrders(c);
      if c.order == b.order {
        SamePair(b, c);
        TwinIs(b);
      }
    }
  }

  lemma BitsPair(bits: seq<Byte>, usable: nat, free: set<Block>, free': set<Block>, b: Block)
    requires BitsRight(bits, usable, free) && b.order < TOP && Aligned(b) && b.page < usable * 256
    requires b !in free && Twin(b) !in free && free' == free + {b, Twin(b)}
    ensures BitsRight(bits, usable, free')
  {
    hide Toggled, PairBit, Twin, At, Aligned;
    forall c: Block | c.order < TOP && Aligned(c) && c.page < usable * 256
      ensures PairBit(bits, usable, c.order, c.page) == ((c in free') != (Twin(c) in free'))
    {
      FamilyOrders(b);
      FamilyOrders(c);
      TwinIs(b);
      TwinIs(c);
      if c.order == b.order {
        SamePair(b, c);
      }
    }
  }

  // ----- critical sections -----

  function ToggleIn(pool: Pool, usable: nat, b: Block): Pool
    requires b.order < ORDERS && |pool.bits| == Offset(usable, ORDERS) && b.page < usable * 256
  {
    pool.(bits := Toggled(pool.bits, usable, b.order, b.page))
  }

  /** Pages of managed blocks are records. */
  lemma ProperPage(b: Block, usable: nat, lo: nat)
    requires Proper(b, lo, usable)
    ensures b.page < usable * 256
  {
    AtRange(b.page, TOP);
    Powers();
    Ordered(At(b.page, TOP) + 1, usable, 256);
  }

  lemma NotListed(lists: Lists, all: set<Block>, b: Block, o: nat)
    requires |lists| == ORDERS && FreeOf(lists) <= all && b in all && b !in FreeOf(lists) && Apart(all) && o < ORDERS
    ensures b.page !in lists[o]
  {
    if b.page in lists[o] {
      FreeIs(lists, Block(o, b.page));
      assert Covers(Block(o, b.page), b.page) && Covers(b, b.page);
    }
  }

  /** Taking the first free block of an order. */
  lemma TakeStep(pool: Pool, lists: Lists, held: set<Block>, usable: nat, lo: nat, o: nat)
    requires Consistent(pool, lists, held, usable, lo) && o < ORDERS && lists[o] != []
    ensures lists[o][0] >= 0
    ensures var b := Block(o, lists[o][0]);
      && b in FreeOf(lists) && Proper(b, lo, usable) && b.page < usable * 256
      && FreeOf(Drop(lists, o, 0)) == FreeOf(lists) - {b}
      && Consistent(ToggleIn(TakeOut(pool, b), usable, b), Drop(lists, o, 0), held + {b}, usable, lo)
  {
    assert LinkedAt(pool.links, lists[o], 0);
    var b := Block(o, lists[o][0]);
    FreeIs(lists, b);
    ProperPage(b, usable, lo);
    LinkedDrop(pool, lists, o, 0);
    DropFree(lists, o, 0);
    TakenOut(pool, b);
    hide FreeOf, Linked, Tiling, TakeOut, Drop, BitsRight;
    BitsToggled(pool.bits, usable, FreeOf(lists), FreeOf(lists) - {b}, b);
    assert FreeOf(lists) - {b} + (held + {b}) == FreeOf(lists) + held;
  }

  /** Putting a held block on its list. */
  lemma GiveStep(pool: Pool, lists: Lists, held: set<Block>, usable: nat, lo: nat, b: Block)
    requires Consistent(pool, lists, held, usable, lo) && b in held
    ensures b.order < ORDERS && b.page < usable * 256
    ensures FreeOf(Put(lists, b)) == FreeOf(lists) + {b}
    ensures Consistent(PutIn(ToggleIn(pool, usable, b), b), Put(lists, b), held - {b}, usable, lo)
  {
    assert Proper(b, lo, usable);
    ProperPage(b, usable, lo);
    forall o: nat | o < ORDERS ensures b.page !in lists[o] {
      NotListed(lists, FreeOf(lists) + held, b, o);
    }
    PutFree(lists, b);
    hide FreeOf, Tiling, BitsRight;
    BitsToggled(pool.bits, usable, FreeOf(lists), FreeOf(lists) + {b}, b);
    LinkedPut(ToggleIn(pool, usable, b), lists, b);
    assert FreeOf(lists) + {b} + (held - {b}) == FreeOf(lists) + held;
  }

  /** Taking the free twin of a held block off its list: the two become one held block. */
  lemma JoinStep(pool: Pool, lists: Lists, held: set<Block>, usable: nat, lo: nat, b: Block, j: nat)
    requires Consistent(pool, lists, held, usable, lo) && b in held && b.order < TOP
    requires j < |lists[b.order]| && lists[b.order][j] == Twin(b).page
    ensures b.page < usable * 256 && Record(pool.links, Twin(b).page)
    ensures FreeOf(Drop(lists, b.order, j)) == FreeOf(lists) - {Twin(b)}
    ensures Consistent(TakeOut(ToggleIn(pool, usable, b), Twin(b)), Drop(lists, b.order, j), held - {b} + {Parent(b)},
      usable, lo)
  {
    var t := Twin(b);
    assert Proper(b, lo, usable);
    ProperPage(b, usable, lo);
    FreeIs(lists, t);
    hide FreeOf, Linked, Tiling, TakeOut, Drop, BitsRight, Twin, Parent, Aligned, Proper, Covers, Toggled;
    LinkedToggle(pool, lists, usable, b);
    LinkedDrop(ToggleIn(pool, usable, b), lists, b.order, j);
    Listed(pool, lists, b.order, j);
    DropFree(lists, b.order, j);
    JoinTiling(FreeOf(lists) + held, b, lo, usable);
    ProperAligned(b, lo, usable);
    JoinedBits(pool.bits, usable, FreeOf(lists), b);
    FamilyOrders(b);
    assert Joined(FreeOf(lists) + held, b) == FreeOf(lists) - {t} + (held - {b} + {Parent(b)});
    TakenOut(ToggleIn(pool, usable, b), t);
  }

  lemma LinkedToggle(pool: Pool, lists: Lists, usable: nat, b: Block)
    requires Linked(pool, lists) && b.order < ORDERS && |pool.bits| == Offset(usable, ORDERS) && b.page < usable * 256
    ensures Linked(ToggleIn(pool, usable, b), lists)
  {
  }

  lemma Listed(pool: Pool, lists: Lists, o: nat, j: nat)
    requires Linked(pool, lists) && o < ORDERS && j < |lists[o]|
    ensures NoDup(lists[o]) && Record(pool.links, lists[o][j])
  {
    assert LinkedAt(pool.links, lists[o], j);
  }

  lemma JoinedBits(bits: seq<Byte>, usable: nat, free: set<Block>, b: Block)
    requires BitsRight(bits, usable, free) && b.order < TOP && Aligned(b) && b.page < usable * 256 && b !in free
    requires Twin(b) in free
    ensures BitsRight(Toggled(bits, usable, b.order, b.page), usable, free - {Twin(b)})
  {
    hide Toggled, PairBit, Twin, At, Aligned;
    var free' := free - {Twin(b)};
    forall c: Block | c.order < TOP && Aligned(c) && c.page < usable * 256
      ensures PairBit(Toggled(bits, usable, b.order, b.page), usable, c.order, c.page)
        == ((c in free') != (Twin(c) in free'))
    {
      ToggledBit(bits, usable, b.order, b.page, c.order, c.page);
      FamilyOrders(b);
      FamilyOrders(c);
      TwinIs(b);
      TwinIs(c);
      if c.order == b.order {
        SamePair(b, c);
      }
    }
  }

  /** Putting the two halves of a held block on the list of their order. */
  lemma HalvesStep(pool: Pool, lists: Lists, held: set<Block>, usable: nat, lo: nat, b: Block)
    requires Consistent(pool, lists, held, usable, lo) && b in held && b.order > 0
    ensures b.order < ORDERS && Twin(LeftHalf(b)).order == b.order - 1
      && Twin(LeftHalf(b)).page == b.page + Pow(b.order - 1)
    ensures b.page + Pow(b.order - 1) < usable * 256
    ensures var l, r := LeftHalf(b), Twin(LeftHalf(b));
      && FreeOf(Put(Put(lists, r), l)) == FreeOf(lists) + {l, r}
      && Consistent(PutIn(PutIn(pool, r), l), Put(Put(lists, r), l), held - {b}, usable, lo)
  {
    var l, r := LeftHalf(b), Twin(LeftHalf(b));
    var all := FreeOf(lists) + held;
    assert Proper(b, lo, usable);
    LeftHalfIs(b);
    ProperHalves(b, usable, lo);
    hide FreeOf, Linked, Tiling, BitsRight, Aligned, Proper, Covers, Twin, PutIn, Put;
    HalveTiling(all, b, lo, usable);
    HalvesUnlisted(lists, all, b, usable, lo);
    FamilyOrders(l);
    PutTwo(pool, lists, l, r);
    ProperAligned(l, lo, usable);
    BitsPair(pool.bits, usable, FreeOf(lists), FreeOf(lists) + {l, r}, l);
    assert Halved(all, b) == FreeOf(lists) + {l, r} + (held - {b});
  }

  lemma PutTwo(pool: Pool, lists: Lists, l: Block, r: Block)
    requires Linked(pool, lists) && l.order < ORDERS && r.order < ORDERS && l.page != r.page
    requires Record(pool.links, l.page) && Record(pool.links, r.page)
    requires forall h: nat :: h < ORDERS ==> l.page !in lists[h] && r.page !in lists[h]
    ensures FreeOf(Put(Put(lists, r), l)) == FreeOf(lists) + {l, r}
    ensures Linked(PutIn(PutIn(pool, r), l), Put(Put(lists, r), l))
    ensures var p := PutIn(PutIn(pool, r), l);
      && p.bits == pool.bits
      && |p.links.next| == |pool.links.next| && |p.links.prev| == |pool.links.prev|
  {
    PutFree(lists, r);
    PutFree(Put(lists, r), l);
    LinkedPut(pool, lists, r);
    hide FreeOf, Linked;
    assert forall h: nat :: h < ORDERS ==> l.page !in Put(lists, r)[h];
    LinkedPut(PutIn(pool, r), Put(lists, r), l);
    assert FreeOf(lists) + {r} + {l} == FreeOf(lists) + {l, r};
  }

  lemma ProperHalves(b: Block, usable: nat, lo: nat)
    requires Proper(b, lo, usable) && b.order > 0
    ensures var l, r := LeftHalf(b), Twin(LeftHalf(b));
      && Proper(l, lo, usable) && Proper(r, lo, usable) && l.page < usable * 256 && r.page < usable * 256
        && l.page != r.page
  {
    LeftHalfIs(b);
    ProperFamily(LeftHalf(b), lo, usable);
    ProperPage(LeftHalf(b), usable, lo);
    ProperPage(Twin(LeftHalf(b)), usable, lo);
  }

  lemma HalvesUnlisted(lists: Lists, all: set<Block>, b: Block, usable: nat, lo: nat)
    requires |lists| == ORDERS && FreeOf(lists) <= all && b in all && b !in FreeOf(lists) && Tiling(all, lo, usable)
    requires b.order > 0
    ensures forall h: nat :: h < ORDERS ==> LeftHalf(b).page !in lists[h] && Twin(LeftHalf(b)).page !in lists[h]
  {
    LeftHalfIs(b);
    forall h: nat, p: nat | h < ORDERS && (p == LeftHalf(b).page || p == Twin(LeftHalf(b)).page)
      ensures p !in lists[h]
    {
      FamilyCovers(LeftHalf(b), p);
      if p in lists[h] {
        FreeIs(lists, Block(h, p));
        assert Covers(Block(h, p), p) && Covers(b, p);
      }
    }
  }

  // ----- twins -----

  lemma SplitTwins(free: set<Block>, b: Block, lo: nat, hi: nat)
    requires NoTwins(free - {b}) && ProperSet(free, lo, hi) && b in free && b.order > 0
    ensures NoTwins(Halved(free, b) - {LeftHalf(b)})
  {
    var l := LeftHalf(b);
    LeftHalfIs(b);
    TwinIs(l);
    assert l !in free by {
      FamilyCovers(l, l.page);
      assert l in free ==> Covers(l, l.page) && Covers(b, l.page);
    }
    var m := Halved(free, b) - {l};
    forall c | c in m && c.order < TOP ensures Twin(c) !in m {
      TwinIs(c);
    }
  }

  lemma GiveTwins(free: set<Block>, b: Block, lo: nat, hi: nat)
    requires NoTwins(free) && ProperSet(free, lo, hi) && Proper(b, lo, hi) && (b.order == TOP || Twin(b) !in free)
    ensures NoTwins(free + {b})
  {
    TwinIs(b);
    forall c | c in free && c.order < TOP ensures Twin(c) !in free + {b} {
      TwinIs(c);
    }
  }
}
