/** Any number of threads on one pool: allocations and the critical sections of frees in any order. */
module BuddyRuns {
  import opened Seqs
  import opened Chains
  import opened Pages
  import opened FreeLists
  import opened Buddy

  /** A thread allocates, starts freeing a block it has, or gets through one critical section of a free. */
  datatype Act = Allocate(order: nat) | StartFree(b: Block) | Section(b: Block)

  /** Blocks with callers, and blocks on their way through a free. */
  datatype Blocks = Blocks(live: set<Block>, flight: set<Block>)

  ghost predicate Accounts(a: PageAllocator, w: Blocks)
    reads a, a.next, a.prev, a.first, a.bitmap
  {
    a.Valid() && a.held == w.live + w.flight && w.live !! w.flight
  }

  /** What a moment of a run is: the free blocks, those with callers, and those on their way. */
  datatype Moment = Moment(free: set<Block>, out: Blocks)

  ghost function Now(a: PageAllocator, w: Blocks): Moment
    reads a
  {
    Moment(FreeOf(a.lists), w)
  }

  /** The block has gone to a caller: it was wholly free, and exactly its pages no longer are. */
  ghost predicate Taken(m: Moment, b: Block, m': Moment) {
    && WhollyFree(m.free, b) && b !in m.out.live + m.out.flight && m'.out == m.out.(live := m.out.live + {b})
    && forall q: nat :: Covered(m'.free, q) <==> Covered(m.free, q) && !Covers(b, q)
  }

  /** What an act does, with the managed megabytes from lo to hi; nothing when it does not fit the moment. */
  ghost predicate Leads(m: Moment, act: Act, m': Moment, lo: nat, hi: nat) {
    match act
    case Allocate(order) =>
      if order < ORDERS && RunFree(m.free, order, lo, hi) then exists page: nat :: Taken(m, Block(order, page), m')
        else m' == m
    case StartFree(b) =>
      m' == if b in m.out.live then m.(out := Blocks(m.out.live - {b}, m.out.flight + {b})) else m
    case Section(b) =>
      m' == if b !in m.out.flight then m
        else if b.order < TOP && Twin(b) in m.free then
          Moment(m.free - {Twin(b)}, m.out.(flight := m.out.flight - {b} + {Parent(b)}))
        else
          Moment(m.free + {b}, m.out.(flight := m.out.flight - {b}))
  }

  method Allocating(a: PageAllocator, order: nat, w: Blocks) returns (w': Blocks)
    requires Accounts(a, w) && order < ORDERS
    modifies a.next, a.prev, a.first, a.bitmap, a.refCount, a.flags, a`lists, a`held
    ensures Accounts(a, w')
    ensures Leads(old(Now(a, w)), Allocate(order), Now(a, w'), a.lo, a.usable)
  {
    hide At, Carved, Consistent, Covered, FreeOf, Least, NoTwins, PageAllocator.Pool, PageAllocator.Shape, ProperSet,
      RunFree;
    ghost var was := a.lists;
    a.ValidParts();
    w' := w;
    var page := a.MemAllocPage(order);
    if page != NONE {
      ghost var b := Block(order, page);
      AllocatedWasFree(was, b, a.lo, a.usable);
      w' := w.(live := w.live + {Block(order, page)});
      assert b !in old(a.held) && a.held == old(a.held) + {b};
      assert Taken(old(Now(a, w)), b, Now(a, w'));
    }
  }

  /** One critical section: the block is done with, or goes on as its parent. */
  method Freeing(a: PageAllocator, b: Block, w: Blocks) returns (w': Blocks)
    requires Accounts(a, w) && b in w.flight
    modifies a.next, a.prev, a.first, a.bitmap, a`lists, a`held
    ensures Accounts(a, w')
    ensures Leads(old(Now(a, w)), Section(b), Now(a, w'), a.lo, a.usable)
  {
    hide FreeOf, Twin, Parent, Put, Drop, PageAllocator.Valid, Merged;
    ghost var was, held := a.lists, a.held;
    a.HeldPage(b);
    ListedOnce(a, b.order);
    var up := a.FreeSection(b.page, b.order);
    if up == NONE {
      w' := w.(flight := w.flight - {b});
      PutFree(was, b);
    } else {
      w' := w.(flight := w.flight - {b} + {Parent(b)});
      MergedIs(was, held, a.lists, a.held, b, up);
    }
  }

  lemma ListedOnce(a: PageAllocator, o: nat)
    requires a.Valid() && o < ORDERS
    ensures |a.lists| == ORDERS && NoDup(a.lists[o])
  {
    a.ValidParts();
    a.LinkedNow();
  }

  lemma MergedIs(lists: Lists, held: set<Block>, lists': Lists, held': set<Block>, b: Block, up: nat)
    requires Merged(lists, held, lists', held', b, up) && NoDup(lists[b.order])
    ensures Parent(b) !in held && held' == held - {b} + {Parent(b)}
    ensures FreeOf(lists') == FreeOf(lists) - {Twin(b)}
  {
    hide FreeOf, Drop;
    DropFree(lists, b.order, IndexOf(lists[b.order], Twin(b).page));
  }

  method Perform(a: PageAllocator, act: Act, w: Blocks) returns (w': Blocks)
    requires Accounts(a, w)
    modifies a.next, a.prev, a.first, a.bitmap, a.refCount, a.flags, a`lists, a`held
    ensures Accounts(a, w') && Leads(old(Now(a, w)), act, Now(a, w'), a.lo, a.usable)
  {
    hide Consistent, FlipBit, FreeOf, NoTwins, Parent, Twin, RunFree, Taken, PageAllocator.Pool, PageAllocator.Shape;
    w' := w;
    match act
    case Allocate(order) =>
      if order < ORDERS {
        w' := Allocating(a, order, w);
      }
    case StartFree(b) =>
      if b in w.live {
        w' := Blocks(w.live - {b}, w.flight + {b});
        assert w'.live + w'.flight == w.live + w.flight;
      }
    case Section(b) =>
      if b in w.flight {
        w' := Freeing(a, b, w);
      }
  }

  /** Every managed page is in exactly one block, free, with a caller or being freed; no twins are free together. */
  ghost predicate Partitioned(free: set<Block>, w: Blocks, lo: nat, hi: nat) {
    && Tiling(free + w.live + w.flight, lo, hi)
    && free !! w.live && free !! w.flight && w.live !! w.flight
    && NoTwins(free)
  }

  lemma AccountsPartition(a: PageAllocator, w: Blocks)
    requires Accounts(a, w)
    ensures Partitioned(FreeOf(a.lists), w, a.lo, a.usable)
  {
    hide FreeOf, Linked, BitsRight, Tiling, NoTwins;
    assert FreeOf(a.lists) + w.live + w.flight == FreeOf(a.lists) + a.held;
  }

  /** The pages of different blocks that are out do not overlap. */
  lemma OutApart(a: PageAllocator, w: Blocks, b: Block, c: Block)
    requires Accounts(a, w) && b in w.live + w.flight && c in w.live + w.flight && b != c
    ensures b.page + Pow(b.order) <= c.page || c.page + Pow(c.order) <= b.page
  {
    AccountsPartition(a, w);
    var all := FreeOf(a.lists) + w.live + w.flight;
    assert b in all && c in all;
    hide FreeOf, Covers, PageAllocator.Valid;
    CoversRange(b, b.page);
    CoversRange(c, b.page);
    CoversRange(b, c.page);
    CoversRange(c, c.page);
    PowPositive(b.order);
    PowPositive(c.order);
  }

  lemma PowPositive(o: nat)
    ensures Pow(o) >= 1
  {
  }

  /** With no block out, the pool is the initial one again. */
  lemma AllFree(free: set<Block>, lo: nat, hi: nat)
    requires Tiling(free, lo, hi) && NoTwins(free)
    ensures free == FreeOf(Initial(lo, hi))
  {
    var whole := FreeOf(Initial(lo, hi));
    InitialTiles(lo, hi);
    hide FreeOf, Initial, Covers;
    assert free + {} == free && whole + {} == whole;
    forall q: nat ensures Covered(free, q) <==> Covered(whole, q) {
      FreePages(free, {}, lo, hi, q);
      FreePages(whole, {}, lo, hi, q);
    }
    SamePagesSameBlocks(free, whole, lo, hi);
  }

  /** An allocation and, with no other caller in between, the free of what it gave leave the same free blocks. */
  method AllocateAndFree(a: PageAllocator, order: nat)
    requires a.Valid() && order < ORDERS
    modifies a.next, a.prev, a.first, a.bitmap, a.refCount, a.flags, a`lists, a`held
    ensures a.Valid() && a.held == old(a.held) && FreeOf(a.lists) == FreeOf(old(a.lists))
  {
    hide At, Carved, Consistent, Covered, FreeOf, Least, NoTwins, PageAllocator.Pool, PageAllocator.Shape, ProperSet,
      RunFree;
    ghost var was := a.lists;
    a.ValidParts();
    var page := a.MemAllocPage(order);
    if page != NONE {
      ghost var b := Block(order, page);
      assert b !in old(a.held) && a.held == old(a.held) + {b};
      assert forall q: nat :: Covered(FreeOf(a.lists), q) <==> Covered(FreeOf(was), q) && !Covers(b, q);
      assert forall q: nat :: Covers(b, q) ==> Covered(FreeOf(was), q) by {
        AllocatedWasFree(was, b, a.lo, a.usable);
      }
      a.MemFreePage(page, order);
      a.ValidParts();
      SamePagesSameBlocks(FreeOf(was), FreeOf(a.lists), a.lo, a.usable);
    }
  }

  /** The moments of a run: every act does what it does, and at every moment the managed pages are accounted for. */
  ghost predicate Trace(trace: seq<Moment>, script: seq<Act>, lo: nat, hi: nat) {
    && |trace| == |script| + 1
    && (forall k :: 0 <= k < |script| ==> Leads(trace[k], script[k], trace[k + 1], lo, hi))
    && forall k :: 0 <= k < |trace| ==> Partitioned(trace[k].free, trace[k].out, lo, hi)
  }

  /** At any moment of a run at which no block is out the free blocks are the initial ones. */
  lemma Quiescent(trace: seq<Moment>, script: seq<Act>, lo: nat, hi: nat, k: nat)
    requires Trace(trace, script, lo, hi) && k < |trace| && trace[k].out == Blocks({}, {})
    ensures trace[k].free == FreeOf(Initial(lo, hi))
  {
    hide FreeOf, Initial, Leads, NoTwins, Tiling;
    assert trace[k].free + {} + {} == trace[k].free;
    AllFree(trace[k].free, lo, hi);
  }

  /** Every interleaving, from the initial pool on. */
  method Interleave(usableMem: nat, script: seq<Act>) returns (a: PageAllocator, w: Blocks, ghost trace: seq<Moment>)
    ensures fresh(a) && a.usable == usableMem && Accounts(a, w)
    ensures Trace(trace, script, a.lo, usableMem)
    ensures trace[0] == Moment(FreeOf(Initial(a.lo, usableMem)), Blocks({}, {})) && trace[|script|] == Now(a, w)
  {
    hide Accounts, FreeOf, Initial, Leads, Partitioned, Trace;
    a := new PageAllocator.MemInit(usableMem);
    w := Blocks({}, {});
    trace := [Now(a, w)];
    Begun(a, w);
    AccountsPartition(a, w);
    NoActs(trace, script, a.lo, usableMem);
    for k := 0 to |script|
      invariant fresh(a) && fresh(a.next) && fresh(a.prev) && fresh(a.first) && fresh(a.bitmap)
      invariant fresh(a.refCount) && fresh(a.flags) && a.usable == usableMem
      invariant Accounts(a, w) && Trace(trace, script[..k], a.lo, usableMem) && |trace| == k + 1
        && trace[k] == Now(a, w)
      invariant trace[0] == Moment(FreeOf(Initial(a.lo, usableMem)), Blocks({}, {}))
    {
      w := Perform(a, script[k], w);
      AccountsPartition(a, w);
      OneMore(trace, script, k, a.lo, usableMem, Now(a, w));
      trace := trace + [Now(a, w)];
    }
    assert script[..|script|] == script;
  }

  lemma Begun(a: PageAllocator, w: Blocks)
    requires a.Valid() && a.held == {} && w == Blocks({}, {})
    ensures Accounts(a, w)
  {
    hide PageAllocator.Valid;
  }

  lemma NoActs(trace: seq<Moment>, script: seq<Act>, lo: nat, hi: nat)
    requires |trace| == 1 && Partitioned(trace[0].free, trace[0].out, lo, hi)
    ensures Trace(trace, script[..0], lo, hi)
  {
    hide Leads, Partitioned;
  }

  lemma OneMore(trace: seq<Moment>, script: seq<Act>, k: nat, lo: nat, hi: nat, m: Moment)
    requires k < |script| && Trace(trace, script[..k], lo, hi)
    requires Leads(trace[k], script[k], m, lo, hi) && Partitioned(m.free, m.out, lo, hi)
    ensures Trace(trace + [m], script[..k + 1], lo, hi)
  {
    hide Leads, Partitioned;
  }
}
