/** Any run of requests against the heap.  The client's own record of what it has allocated and stored is
    at all times what the heap holds. */
module Client {
  import opened WordMemory
  import opened Alignment
  import opened Bytes
  import opened HeapLayout
  import opened HeapTags
  import opened HeapSteps
  import opened Payload
  import opened Malloc
  import opened Placement
  import opened Ksbrk

  datatype Request =
    | Allocate(bytes: int)
    | Clear(count: int, size: int)
    | Align(alignment: int, bytes: int)
    | Resize(p: int, bytes: int)
    | Release(p: int)
    | Store(p: int, i: int, b: int)

  /** The client's record: for each of its allocations the bytes it holds. */
  type Record = map<int, seq<int>>

  ghost predicate Entry(m: Mem, cs: Chunks, r: Record, p: int)
    requires p in r
  {
    && p != 0 && p % 8 == 0 && p - FD in Live(cs) && |r[p]| + HEAD <= Live(cs)[p - FD]
    && forall i :: 0 <= i < |r[p]| ==> Byte(m, p, i) == r[p][i]
  }

  /** Every allocation on record is live, aligned, large enough, and holds what the record says; and nothing
      else is live. */
  ghost predicate Agrees(m: Mem, cs: Chunks, r: Record) {
    && (forall p :: p in r ==> Entry(m, cs, r, p))
    && (forall c :: c in Live(cs) ==> c + FD in r)
  }

  function BytesAt(m: Mem, p: int, n: int): (s: seq<int>)
    requires n >= 0
    ensures |s| == n && forall i :: 0 <= i < n ==> s[i] == Byte(m, p, i)
  {
    seq(n, i requires 0 <= i < n => Byte(m, p, i))
  }

  lemma EntryKept(m: Mem, m': Mem, cs: Chunks, cs': Chunks, r: Record, r': Record, but: int, p: int)
    requires KeptBut(m, m', cs, but) && p in r && p in r' && r'[p] == r[p] && Entry(m, cs, r, p) && p - FD != but
    requires p - FD in Live(cs') && Live(cs')[p - FD] == Live(cs)[p - FD]
    ensures Entry(m', cs', r', p)
  {
    hide Byte;
    var c := p - FD;
    forall w | p <= w < c + Live(cs)[c] + HEAD ensures Rd(m', w) == Rd(m, w) {
      assert PayloadWord(cs, c, w);
    }
    forall i | 0 <= i < |r'[p]| ensures Byte(m', p, i) == r'[p][i] {
      SameBytes(m, m', p, c + Live(cs)[c] + HEAD, i);
    }
  }

  lemma AfterTook(m: Mem, m': Mem, cs: Chunks, cs': Chunks, r: Record, p: int, s: int, bytes: seq<int>)
    requires Agrees(m, cs, r) && Took(m, m', cs, cs', p - FD, s) && p != 0 && p % 8 == 0 && |bytes| + HEAD <= s
    requires forall i :: 0 <= i < |bytes| ==> Byte(m', p, i) == bytes[i]
    ensures p !in r && Agrees(m', cs', r[p := bytes])
  {
    hide Byte, Live;
    var r' := r[p := bytes];
    assert p in r ==> Entry(m, cs, r, p);
    forall q | q in r' ensures Entry(m', cs', r', q) {
      if q != p {
        assert Entry(m, cs, r, q);
        KeptToBut(m, m', cs, p - FD);
        EntryKept(m, m', cs, cs', r, r', p - FD, q);
      }
    }
  }

  lemma KeptToBut(m: Mem, m': Mem, cs: Chunks, but: int)
    requires Kept(m, m', cs)
    ensures KeptBut(m, m', cs, but)
  {
  }

  lemma AfterSame(m: Mem, m': Mem, cs: Chunks, cs': Chunks, r: Record)
    requires Agrees(m, cs, r) && Same(m, m', cs, cs')
    ensures Agrees(m', cs', r)
  {
    hide Byte, Live;
    forall q | q in r ensures Entry(m', cs', r, q) {
      assert Entry(m, cs, r, q);
      KeptToBut(m, m', cs, q);
      EntryKept(m, m', cs, cs', r, r, q, q);
    }
  }

  lemma AfterGave(m: Mem, m': Mem, cs: Chunks, cs': Chunks, r: Record, p: int)
    requires Agrees(m, cs, r) && Gave(m, m', cs, cs', p - FD)
    ensures Agrees(m', cs', r - {p})
  {
    hide Byte, Live;
    forall q | q in r - {p} ensures Entry(m', cs', r - {p}, q) {
      assert Entry(m, cs, r, q);
      EntryKept(m, m', cs, cs', r, r - {p}, p - FD, q);
    }
  }

  lemma AfterReplaced(m: Mem, m': Mem, cs: Chunks, cs': Chunks, r: Record, p: int, q: int, s: int, n: int,
      bytes: seq<int>)
    requires Agrees(m, cs, r) && p in r && Replaced(m, m', cs, cs', p - FD, q - FD, s, n) && q != 0 && q % 8 == 0
      && |bytes| + HEAD <= s
    requires forall i :: 0 <= i < |bytes| ==> Byte(m', q, i) == bytes[i]
    ensures Agrees(m', cs', (r - {p})[q := bytes])
    ensures q in r ==> q == p
    ensures forall i :: 0 <= i < |bytes| && i < n && i < |r[p]| ==> bytes[i] == r[p][i]
  {
    hide Byte, Live;
    var r' := (r - {p})[q := bytes];
    assert Entry(m, cs, r, p);
    assert q in r ==> Entry(m, cs, r, q);
    forall t | t in r' ensures Entry(m', cs', r', t) {
      if t != q {
        assert Entry(m, cs, r, t);
        EntryKept(m, m', cs, cs', r, r', p - FD, t);
      }
    }
  }

  lemma AfterStore(m: Mem, cs: Chunks, r: Record, p: int, i: int, b: int)
    requires Agrees(m, cs, r) && p in r && 0 <= i < |r[p]| && 0 <= b < 0x100
    requires KeptBut(m, WithByte(m, p, i, b), cs, p - FD)
    ensures Agrees(WithByte(m, p, i, b), cs, r[p := r[p][i := b]])
  {
    hide ByteOf, Live, SetByte;
    var m', r' := WithByte(m, p, i, b), r[p := r[p][i := b]];
    assert Entry(m, cs, r, p);
    forall k | 0 <= k < |r[p]| ensures Byte(m', p, k) == r'[p][k] {
      Quarter(k);
      Quarter(i);
      if k / 4 == i / 4 {
        SetByteIs(Rd(m, p + i / 4 * 4), i % 4, b, k % 4);
      } else {
        assert Rd(m', p + k / 4 * 4) == Rd(m, p + k / 4 * 4);
      }
    }
    forall q | q in r' ensures Entry(m', cs, r', q) {
      if q != p {
        assert Entry(m, cs, r, q);
        EntryKept(m, m', cs, cs, r, r', p - FD, q);
      }
    }
  }

  /** Byte i of what starts at the word address p is replaced. */
  function WithByte(m: Mem, p: int, i: int, b: int): Mem {
    Wr(m, p + i / 4 * 4, SetByte(Rd(m, p + i / 4 * 4), i % 4, b))
  }

  /** Requests a client may make: about what it owns. */
  predicate Allowed(r: Record, q: Request) {
    match q
    case Allocate(n) => 0 <= n < 0x1_0000_0000
    case Clear(n, s) => 0 <= n < 0x1_0000_0000 && 0 <= s < 0x1_0000_0000
    case Align(a, n) => 0 <= a <= 0x8000_0000 && 0 <= n < 0x1_0000_0000
    case Resize(p, n) => p in r && 0 <= n < 0x1_0000_0000
    case Release(p) => p in r
    case Store(p, i, b) => p in r && 0 <= i < |r[p]| && 0 <= b < 0x100
  }

  /** A moment of a run: the client's record, and the heap with its victim, its top and the size it has from the
      system. */
  datatype Moment = Moment(
    record: Record, mem: Mem, chunks: Chunks, dv: int, end: int, topsize: int, heapSize: int)

  ghost function Now(h: Heap, r: Record): Moment
    reads h, h.brk
  {
    Moment(r, h.mem, h.chunks, h.dv, h.End(), h.topsize, h.brk.heapSize)
  }

  /** A request for so many bytes, and a chunk of nb bytes for them, has failed: the record is as before, no free chunk
      and not top is large enough, and the bytes do not fit into the pages there are. */
  ghost predicate Failed(a: Moment, b: Moment, bytes: int, nb: int, pages: int) {
    && b.record == a.record && b.heapSize == a.heapSize
    && Exhausted(a.chunks, a.topsize, nb) && a.heapSize + bytes + MALLOC_SLACK > PAGE * pages
  }

  /** The chunk behind address p is the one that a request for nb bytes gets. */
  ghost predicate InPlace(a: Moment, b: Moment, nb: int, p: int) {
    p - FD in Live(b.chunks) && Placed(a.chunks, a.dv, a.end, nb, p - FD, Live(b.chunks)[p - FD])
  }

  /** The heap is not enlarged for a request that it can meet. */
  ghost predicate Spares(a: Moment, b: Moment, nb: int) {
    !Exhausted(a.chunks, a.topsize, nb) ==> b.heapSize <= a.heapSize
  }

  /** The chunk at c can have n bytes where it is. */
  predicate GrowsAt(a: Moment, c: int, n: int) {
    Grows(a.chunks, a.end, a.topsize, c, Heap.ChunkFor(n))
  }

  ghost predicate SameStart(s: seq<int>, t: seq<int>) {
    forall i :: 0 <= i < |s| && i < |t| ==> t[i] == s[i]
  }

  /** What a request does to the record, with so many pages for the heap: only the requested allocation changes, a new
      one is where none was, and resizing keeps what fits, and the place when the bytes can be had there. */
  ghost predicate Step(a: Moment, q: Request, b: Moment, pages: int) {
    var r, r' := a.record, b.record;
    match q
    case Allocate(n) =>
      && Spares(a, b, Heap.ChunkFor(n))
      && (Failed(a, b, n, Heap.ChunkFor(n), pages)
          || exists p, s :: p !in r && |s| == n && r' == r[p := s] && InPlace(a, b, Heap.ChunkFor(n), p))
    case Clear(n, size) =>
      && Spares(a, b, ClearChunk(n, size))
      && (Failed(a, b, n * size, ClearChunk(n, size), pages)
          || exists p, s :: p !in r && |s| == n * size && (forall i :: 0 <= i < |s| ==> s[i] == 0) && r' == r[p := s]
              && InPlace(a, b, ClearChunk(n, size), p))
    case Align(al, n) =>
      exists u :: PowerOfTwo(u) && al <= u && (u < 2 * al || u <= MIN_CHUNK)
        && Spares(a, b, n + u + 6 * MIN_CHUNK)
        && (Failed(a, b, n + u + 2 * MIN_CHUNK, n + u + 6 * MIN_CHUNK, pages)
            || exists p, s :: p % u == 0 && p !in r && |s| == n && r' == r[p := s])
    case Resize(p, n) =>
      && Spares(a, b, Heap.ChunkFor(n))
      && if p in r && n < MAX_REQUEST && (n <= |r[p]| || GrowsAt(a, p - FD, n)) then
           exists s :: |s| == n && r' == r[p := s] && SameStart(r[p], s)
         else
           Failed(a, b, n, Heap.ChunkFor(n), pages)
           || (p in r && exists t, s :: t !in r && |s| == n && r' == (r - {p})[t := s] && SameStart(r[p], s)
                                        && InPlace(a, b, Heap.ChunkFor(n), t))
    case Release(p) => r' == r - {p}
    case Store(p, i, v) => p in r && 0 <= i < |r[p]| && r' == r[p := r[p][i := v]]
  }

  function ClearChunk(n: int, size: int): int {
    Heap.ChunkFor(if n * size < 0x1_0000_0000 - 1 then n * size else 0x1_0000_0000 - 1)
  }

  method Perform(h: Heap, q: Request, r: Record) returns (r': Record)
    requires h.Valid() && Agrees(h.mem, h.chunks, r) && Allowed(r, q)
    modifies h, h.brk
    ensures h.Valid() && Agrees(h.mem, h.chunks, r') && h.brk.Pages() == old(h.brk.Pages())
    ensures Step(old(Now(h, r)), q, Now(h, r'), h.brk.Pages())
  {
    hide Agrees, Took, Same, Gave, Replaced, Zeroed, Byte, KeptBut, Entry, PowerOfTwo, SetByte, Sbrk.Pages, h.Valid,
      Placed, Exhausted, VictimNext, VictimGrown, Grows, GrownTo, Heap.ChunkFor;
    ghost var a := Now(h, r);
    match q
    case Allocate(n) =>
      var p, s := h.Malloc(n);
      AllocatedRecord(a.mem, h.mem, a.chunks, h.chunks, r, p, s, n);
      r' := if p == 0 then r else r[p := BytesAt(h.mem, p, n)];
    case Clear(n, size) =>
      var p, s := h.Calloc(n, size);
      NotNegative(n, size);
      ClearedRecord(a.mem, h.mem, a.chunks, h.chunks, r, p, s, n * size);
      r' := if p == 0 then r else r[p := BytesAt(h.mem, p, n * size)];
    case Align(al, n) =>
      r' := PerformAlign(h, al, n, r);
    case Resize(p, n) =>
      r' := PerformResize(h, p, n, r);
    case Release(p) =>
      Owns(a.mem, a.chunks, r, p);
      h.Free(p);
      AfterGave(a.mem, h.mem, a.chunks, h.chunks, r, p);
      r' := r - {p};
    case Store(p, i, b) =>
      Owns(a.mem, a.chunks, r, p);
      h.Store(p + i / 4 * 4, SetByte(Rd(h.mem, p + i / 4 * 4), i % 4, b), p - FD);
      AfterStore(a.mem, a.chunks, r, p, i, b);
      r' := r[p := r[p][i := b]];
  }

  method PerformResize(h: Heap, p: int, n: int, r: Record) returns (r': Record)
    requires h.Valid() && Agrees(h.mem, h.chunks, r) && Allowed(r, Resize(p, n))
    modifies h, h.brk
    ensures h.Valid() && Agrees(h.mem, h.chunks, r') && h.brk.Pages() == old(h.brk.Pages())
    ensures Step(old(Now(h, r)), Resize(p, n), Now(h, r'), h.brk.Pages())
  {
    hide Agrees, Replaced, Same, Took, Byte, Entry, Sbrk.Pages, h.Valid, Placed, Exhausted, Grows, GrownTo,
      Heap.ChunkFor,
      Live;
    ghost var a := Now(h, r);
    Owns(a.mem, a.chunks, r, p);
    h.LargeEnough(p - FD, |r[p]|);
    if n <= |r[p]| { h.LargeEnough(p - FD, n); }
    ghost var nb, c := Heap.ChunkFor(n), p - FD;
    forall s ensures !Placed(a.chunks, a.dv, a.end, nb, c, s) {
      if Placed(a.chunks, a.dv, a.end, nb, c, s) { h.PlacedFree(nb, c, s); }
    }
    var t, s := h.Realloc(p, n);
    ResizedRecord(a.mem, h.mem, a.chunks, h.chunks, r, p, t, s, n);
    r' := if t == 0 then r else (r - {p})[t := BytesAt(h.mem, t, n)];
  }

  method PerformAlign(h: Heap, al: int, n: int, r: Record) returns (r': Record)
    requires h.Valid() && Agrees(h.mem, h.chunks, r) && Allowed(r, Align(al, n))
    modifies h, h.brk
    ensures h.Valid() && Agrees(h.mem, h.chunks, r') && h.brk.Pages() == old(h.brk.Pages())
    ensures Step(old(Now(h, r)), Align(al, n), Now(h, r'), h.brk.Pages())
  {
    hide Agrees, Took, Same, Byte, Entry, PowerOfTwo, Sbrk.Pages, h.Valid;
    ghost var a := Now(h, r);
    var p, s, ends, u := h.Memalign(al, n);
    AllocatedRecord(a.mem, h.mem, a.chunks, h.chunks, r, p, s, n);
    r' := if p == 0 then r else r[p := BytesAt(h.mem, p, n)];
  }

  lemma NotNegative(a: int, b: int)
    requires 0 <= a && 0 <= b
    ensures 0 <= a * b
  {
  }

  lemma Owns(m: Mem, cs: Chunks, r: Record, p: int)
    requires Agrees(m, cs, r) && p in r
    ensures p != 0 && p - FD in Live(cs) && |r[p]| + HEAD <= Live(cs)[p - FD]
  {
    assert Entry(m, cs, r, p);
  }

  lemma AllocatedRecord(m: Mem, m': Mem, cs: Chunks, cs': Chunks, r: Record, p: int, s: int, n: int)
    requires Agrees(m, cs, r) && n >= 0
    requires if p == 0 then Same(m, m', cs, cs') else Took(m, m', cs, cs', p - FD, s) && p % 8 == 0 && n + HEAD <= s
    ensures Agrees(m', cs', if p == 0 then r else r[p := BytesAt(m', p, n)])
    ensures p != 0 ==> p !in r && p - FD in Live(cs') && Live(cs')[p - FD] == s
  {
    hide Agrees, Took, Same, Byte;
    if p == 0 {
      AfterSame(m, m', cs, cs', r);
    } else {
      AfterTook(m, m', cs, cs', r, p, s, BytesAt(m', p, n));
      TookLive(m, m', cs, cs', p - FD, s);
    }
  }

  lemma TookLive(m: Mem, m': Mem, cs: Chunks, cs': Chunks, p: int, s: int)
    requires Took(m, m', cs, cs', p, s)
    ensures p in Live(cs') && Live(cs')[p] == s
  {
  }

  lemma ReplacedLive(m: Mem, m': Mem, cs: Chunks, cs': Chunks, p: int, q: int, s: int, n: int)
    requires Replaced(m, m', cs, cs', p, q, s, n)
    ensures q in Live(cs') && Live(cs')[q] == s
  {
  }

  lemma ClearedRecord(m: Mem, m': Mem, cs: Chunks, cs': Chunks, r: Record, p: int, s: int, n: int)
    requires Agrees(m, cs, r) && n >= 0
    requires if p == 0 then Same(m, m', cs, cs')
      else Took(m, m', cs, cs', p - FD, s) && p % 8 == 0 && n + HEAD <= s && Zeroed(m', p, n)
    ensures Agrees(m', cs', if p == 0 then r else r[p := BytesAt(m', p, n)])
    ensures p != 0 ==> p !in r && p - FD in Live(cs') && Live(cs')[p - FD] == s
    ensures p != 0 ==> forall i :: 0 <= i < n ==> BytesAt(m', p, n)[i] == 0
  {
    hide Agrees, Took, Same, Byte;
    if p == 0 {
      AfterSame(m, m', cs, cs', r);
    } else {
      AfterTook(m, m', cs, cs', r, p, s, BytesAt(m', p, n));
      TookLive(m, m', cs, cs', p - FD, s);
    }
  }

  lemma ResizedRecord(m: Mem, m': Mem, cs: Chunks, cs': Chunks, r: Record, p: int, t: int, s: int, n: int)
    requires Agrees(m, cs, r) && n >= 0 && p in r && p - FD in Live(cs)
    requires if t == 0 then Same(m, m', cs, cs') else
      Replaced(m, m', cs, cs', p - FD, t - FD, s, Smaller(Live(cs)[p - FD] - HEAD, n)) && t % 8 == 0 && n + HEAD <= s
    ensures Agrees(m', cs', if t == 0 then r else (r - {p})[t := BytesAt(m', t, n)])
    ensures t != 0 ==> t - FD in Live(cs') && Live(cs')[t - FD] == s
    ensures t != 0 ==> (t in r ==> t == p) && forall i :: 0 <= i < n && i < |r[p]| ==> BytesAt(m', t, n)[i] == r[p][i]
  {
    hide Agrees, Replaced, Same, Byte, Live;
    if t == 0 {
      AfterSame(m, m', cs, cs', r);
    } else {
      Owns(m, cs, r, p);
      ReplacedLive(m, m', cs, cs', p - FD, t - FD, s, Smaller(Live(cs)[p - FD] - HEAD, n));
      AfterReplaced(m, m', cs, cs', r, p, t, s, Smaller(Live(cs)[p - FD] - HEAD, n), BytesAt(m', t, n));
    }
  }

  /** The moments of a run: at every one the heap holds what the record says, and every request does what it does; one
      about something the client does not own is not made. */
  ghost predicate Trace(trace: seq<Moment>, script: seq<Request>, pages: int) {
    && |trace| == |script| + 1
    && (forall k :: 0 <= k < |trace| ==> Agrees(trace[k].mem, trace[k].chunks, trace[k].record))
    && (forall k :: 0 <= k < |script| ==>
      if Allowed(trace[k].record, script[k]) then Step(trace[k], script[k], trace[k + 1], pages)
        else trace[k + 1] == trace[k])
  }

  lemma NoRequests(trace: seq<Moment>, script: seq<Request>, pages: int)
    requires |trace| == 1 && Agrees(trace[0].mem, trace[0].chunks, trace[0].record)
    ensures Trace(trace, script[..0], pages)
  {
    hide Agrees, Allowed, Step;
  }

  lemma OneMore(trace: seq<Moment>, script: seq<Request>, k: nat, pages: int, b: Moment)
    requires k < |script| && Trace(trace, script[..k], pages) && Agrees(b.mem, b.chunks, b.record)
    requires if Allowed(trace[k].record, script[k]) then Step(trace[k], script[k], b, pages) else b == trace[k]
    ensures Trace(trace + [b], script[..k + 1], pages)
  {
    hide Agrees, Allowed, Step;
  }

  /** Any run of requests, of any length, from an empty heap. */
  method Run(h: Heap, script: seq<Request>) returns (ghost trace: seq<Moment>, r: Record)
    requires h.Valid() && h.chunks == map[]
    modifies h, h.brk
    ensures h.Valid() && Trace(trace, script, h.brk.Pages()) && h.brk.Pages() == old(h.brk.Pages())
    ensures trace[0] == old(Now(h, map[])) && trace[|script|] == Now(h, r)
  {
    hide Agrees, Step, h.Valid, Allowed, Trace, Sbrk.Pages;
    Empty(h.mem, h.chunks);
    r := map[];
    trace := [Now(h, r)];
    NoRequests(trace, script, h.brk.Pages());
    for k := 0 to |script|
      invariant h.Valid() && Agrees(h.mem, h.chunks, r) && h.brk.Pages() == old(h.brk.Pages())
      invariant |trace| == k + 1 && trace[0] == old(Now(h, map[])) && trace[k] == Now(h, r)
      invariant Trace(trace, script[..k], h.brk.Pages())
    {
      if Allowed(r, script[k]) {
        r := Perform(h, script[k], r);
      }
      OneMore(trace, script, k, h.brk.Pages(), Now(h, r));
      trace := trace + [Now(h, r)];
    }
    assert script[..|script|] == script;
  }

  lemma Empty(m: Mem, cs: Chunks)
    requires cs == map[]
    ensures Agrees(m, cs, map[])
  {
  }
}
