/** The memory source below the heap: one contiguous range that grows and shrinks at its end, backed by
    whole pages.  How many pages the page mapper can still supply is part of the state. */
module Ksbrk {

  const PAGE := 0x1000
  const FAILED := 0xFFFF_FFFF  // (void*)-1

  function ToPageCount(x: int): int {
    (x + 0xFFF) / PAGE
  }

  class Sbrk {
    const start: int
    var heapPtr: int
    var nextPage: int
    var heapSize: int
    var heapPages: int
    var freePages: int

    ghost predicate Valid()
      reads this
    {
      && 0 < start && start % PAGE == 0
      && heapPtr == start + heapSize && nextPage == start + PAGE * heapPages
      && 0 <= heapSize <= PAGE * heapPages && 0 <= freePages
      && start + PAGE * Pages() <= 0x1_0000_0000 - PAGE
    }

    /** Every page the heap has or can still get. */
    ghost function Pages(): int
      reads this
    {
      heapPages + freePages
    }

    constructor (start: int, pages: int)
      requires 0 < start && start % PAGE == 0 && 0 <= pages && start + PAGE * pages <= 0x1_0000_0000 - PAGE
      ensures Valid() && heapSize == 0 && this.start == start && Pages() == pages
    {
      this.start := start;
      heapPtr, nextPage, heapSize, heapPages, freePages := start, start, 0, 0, pages;
    }

    function RemainingHeap(): int
      reads this
    {
      heapPages * PAGE - heapSize
    }

    /** Map the page behind the range, if there is one left. */
    method MapPage() returns (page: int)
      requires Valid()
      modifies `nextPage, `heapPages, `freePages
      ensures Valid() && Pages() == old(Pages())
      ensures if old(freePages) == 0 then page == 0 && heapPages == old(heapPages)
        else page == old(nextPage) && heapPages == old(heapPages) + 1
    {
      if freePages == 0 {
        return 0;
      }
      freePages := freePages - 1;
      page := nextPage;
      nextPage := page + PAGE;
      heapPages := heapPages + 1;
    }

    /** Growing succeeds exactly when the pages suffice, shrinking exactly when there is that much; a failed
        call leaves the range as it was, though pages mapped on the way stay mapped.  After shrinking less
        than a page is unused. */
    method Move(delta: int) returns (ret: int)
      requires Valid() && -0x8000_0000 < delta < 0x8000_0000
      modifies this
      ensures Valid() && Pages() == old(Pages())
      ensures ret == if 0 <= old(heapSize) + delta <= PAGE * Pages() then old(heapPtr) else FAILED
      ensures heapSize == if 0 <= old(heapSize) + delta <= PAGE * Pages() then old(heapSize) + delta else old(heapSize)
      ensures delta == 0 ==> heapPages == old(heapPages)
      ensures delta < 0 && ret != FAILED ==> RemainingHeap() < PAGE
    {
      if delta == 0 {
        return heapPtr;
      }
      ret := heapPtr;
      if delta > 0 {
        var rh := RemainingHeap();
        if rh < delta {
          var reqPages := ToPageCount(delta - rh);
          for i := 0 to reqPages
            invariant Valid() && Pages() == old(Pages()) && heapSize == old(heapSize) && heapPages == old(heapPages) + i
          {
            var page := MapPage();
            if page == 0 {
              return FAILED;
            }
          }
        }
        heapPtr := heapPtr + delta;
        heapSize := heapSize + delta;
      } else {
        if -delta > heapSize {
          return FAILED;
        }
        heapPtr := heapPtr + delta;
        heapSize := heapSize + delta;
        var rh := RemainingHeap() / PAGE;
        for i := 0 to rh
          invariant Valid() && Pages() == old(Pages()) && heapSize == old(heapSize) + delta
            && RemainingHeap() / PAGE == rh - i
        {
          nextPage := nextPage - PAGE;
          heapPages := heapPages - 1;
          freePages := freePages + 1;
        }
      }
    }
  }
}
