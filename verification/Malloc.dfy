/** The allocator: the fields of its state record, with the arena and the bin headers in word memory,
    and its operations as methods that update them in place. */
module Malloc {
  import opened WordMemory
  import opened Seqs
  import opened HeapLayout
  import opened HeapTags
  import opened HeapBins
  import opened HeapSound
  import opened Trie
  import opened TrieLinks
  import opened TrieUnlink
  import opened TrieStores
  import opened TreeIndex
  import opened BestFit
  import opened BestFitWalk
  import opened Placement
  import opened UnlinkSteps
  import opened InsertSteps
  import opened HeapSteps
  import opened ResizeSteps
  import opened Bytes
  import opened Payload
  import opened Alignment
  import opened Ksbrk
  import BinMap
  import Ring

  class Heap {
    // The allocator's fields.
    var mem: Mem
    var smallmap: bv32
    var treemap: bv32
    var dv: int
    var dvsize: int
    var top: int
    var topsize: int
    var leastAddr: int
    var segBase: int
    var segSize: int
    var footprint: int
    var trimCheck: int
    var noncontiguous: bool
    const brk: Sbrk

    // What the memory holds.
    ghost var chunks: Chunks
    ghost var small: Small
    ghost var trees: Trees

    ghost function Now(loose: set<int>): View
      reads `leastAddr, `top, `topsize, `chunks, `small, `trees, `smallmap, `treemap
    {
      View(leastAddr, top, topsize, chunks, loose, small, trees, smallmap, treemap)
    }

    /** The heap invariant, with the given chunks in no bin. */
    ghost predicate Inv(loose: set<int>)
      reads `mem, `leastAddr, `top, `topsize, `chunks, `small, `trees, `smallmap, `treemap
    {
      Sound(mem, Now(loose))
    }

    // ----- best fit -----

    /** Walk down the trie of the request's own bin.  The result t is the subtree whose sizes have still
        to be compared with the best chunk v found so far, which is rsize bytes too large. */
    method SearchBin(nb: int, ghost loose: set<int>)
      returns (v: int, rsize: int, t: int, ghost tt: Tree, ghost par: int, ghost lo: int, ghost b: nat)
      requires Inv(loose) && LARGE <= nb < W32
      ensures 0 <= TreeIndexOf(nb) < 32 && |trees| == 32 && t == Root(tt)
      ensures v != 0 || t != 0 ==> Tail(mem, trees, TreeIndexOf(nb), nb, v, rsize, tt, par, lo, b)
      ensures v == 0 && t == 0 ==>
        rsize == W32 - nb && tt.Nil? && forall s :: s in Sizes(trees[TreeIndexOf(nb)]) ==> s < nb
    {
      ghost var h := Now(loose);
      hide Beats, BinBits, BinLo, Branch, CHILD0, CHILD1, Candidate, ChunkSize, Has, Key, Least, LeftShift, MinSize,
        Pow2, Rd, Shl, Sizes, Sound, Tail, TreeBin, TreeIndexOf, W32, Walk;
      TreeIndexCorrect(nb);
      var idx := TreeIndexOf(nb);
      v, rsize := 0, W32 - nb;
      InBin(nb, idx);
      WalkStart(mem, h, idx, nb);
      WholeBranch(mem, h, idx);
      tt, par, lo, b := trees[idx], TreeBin(idx), BinLo(idx), BinBits(idx);
      BranchRoot(mem, trees, idx, tt, par, lo, b);
      t := Rd(mem, TreeBin(idx));
      if t == 0 {
        WalkOff(mem, h, idx, nb, v, rsize, par, lo, b, Nil, 0, 0, 0);
        return;
      }
      WalkParts(mem, trees, idx, nb, v, rsize, tt, par, lo, b, Nil, 0, 0, 0);
      KeyStart(nb, idx);
      var sizebits := Shl(nb, LeftShift(idx)) % W32;
      var rst := 0;  // the deepest untaken right subtree
      ghost var rt: Tree, rpar: int, rlo: int, rb: nat := Nil, 0, 0, 0;
      while true
        invariant t == Root(tt) && tt.Node? && rst == Root(rt) && b <= 32
        invariant Walk(mem, trees, idx, nb, v, rsize, tt, par, lo, b, rt, rpar, rlo, rb)
        invariant sizebits == Key(nb - lo, b)
        invariant rsize != 0 && (v != 0 ==> 0 <= rsize + nb && TreeIndexOf(rsize + nb) == idx)
        decreases tt
      {
        WalkParts(mem, trees, idx, nb, v, rsize, tt, par, lo, b, rt, rpar, rlo, rb);
        NodeRead(mem, h, idx, tt, par, lo, b);
        ghost var v0, rsize0 := v, rsize;
        var trem := (ChunkSize(mem, t) - nb) % W32;
        if trem < rsize {
          v, rsize := t, trem;
        }
        Look(trees, idx, nb, v0, rsize0, t, tt.size, v, rsize);
        if rsize == 0 {
          WalkExact(mem, h, idx, nb, v, tt, par, lo, b);
          return;
        }
        WalkDown(mem, trees, idx, nb, v0, rsize0, v, rsize, tt, par, lo, b, rt, rpar, rlo, rb);
        KeyStep(nb - lo, b);
        var right := Rd(mem, t + CHILD1);
        t := Rd(mem, t + (if sizebits / TOPBIT % 2 == 1 then CHILD1 else CHILD0));
        if right != 0 && right != t {
          rst := right;
          rt, rpar, rlo, rb := tt.right, Root(tt), Mid(lo, b), b - 1;
        }
        if nb >= Mid(lo, b) {
          tt, par, lo, b := tt.right, Root(tt), Mid(lo, b), b - 1;
        } else {
          tt, par, b := tt.left, Root(tt), b - 1;
        }
        if t == 0 {
          WalkOff(mem, h, idx, nb, v, rsize, par, lo, b, rt, rpar, rlo, rb);
          WalkParts(mem, trees, idx, nb, v, rsize, tt, par, lo, b, rt, rpar, rlo, rb);
          BranchRoot(mem, trees, idx, rt, rpar, rlo, rb);
          t := rst;
          tt, par, lo, b := rt, rpar, rlo, rb;
          return;
        }
        sizebits := 2 * sizebits % W32;
      }
    }

    /** The second loop: from subtree t on, follow leftmost children and keep the best. */
    method SearchPath(nb: int, v0: int, rsize0: int, t0: int, ghost loose: set<int>, ghost i: nat, ghost t1: Tree,
        ghost par0: int, ghost lo0: int, ghost b0: nat)
      returns (v: int, rsize: int)
      requires Inv(loose) && 0 < nb < W32 && i < 32 && t0 == Root(t1)
      requires Tail(mem, trees, i, nb, v0, rsize0, t1, par0, lo0, b0)
      ensures |trees| == 32 && Candidate(trees, nb, v, rsize)
      ensures v != 0 ==> NoBetter(trees, nb, rsize + nb)
      ensures v == 0 ==> NoFit(trees, nb)
    {
      ghost var h := Now(loose);
      hide Sound, Tail, Branch, Candidate, Sizes, Least, TreeIndexOf, Has, NoFit, NoBetter;
      v, rsize := v0, rsize0;
      var t := t0;
      ghost var tt, par, lo, b := t1, par0, lo0, b0;
      TailParts(mem, trees, i, nb, v, rsize, tt, par, lo, b);
      BranchRoot(mem, trees, i, tt, par, lo, b);
      while t != 0
        invariant t == Root(tt) && (t == 0 <==> tt.Nil?)
        invariant Tail(mem, trees, i, nb, v, rsize, tt, par, lo, b)
        decreases tt
      {
        TailParts(mem, trees, i, nb, v, rsize, tt, par, lo, b);
        NodeRead(mem, h, i, tt, par, lo, b);
        ghost var v1, rsize1 := v, rsize;
        var trem := (ChunkSize(mem, t) - nb) % W32;
        if trem < rsize {
          rsize := trem;
          v := t;
        }
        Look(trees, i, nb, v1, rsize1, t, tt.size, v, rsize);
        TailStep(mem, trees, i, nb, v1, rsize1, v, rsize, tt, par, lo, b);
        t := if Rd(mem, t + CHILD0) != 0 then Rd(mem, t + CHILD0) else Rd(mem, t + CHILD1);
        if b == 0 {
          tt, par, lo, b := Nil, 0, 0, 0;
        } else if tt.left.Node? {
          tt, par, b := tt.left, Root(tt), b - 1;
        } else {
          tt, par, lo, b := tt.right, Root(tt), Mid(lo, b), b - 1;
        }
      }
      TailEnd(mem, trees, i, nb, v, rsize, par, lo, b);
    }

    /** The best-fitting chunk of all tree bins: the least size not below the request. */
    method FindBestFit(nb: int, ghost loose: set<int>) returns (v: int, rsize: int)
      requires Inv(loose) && LARGE <= nb < W32
      ensures |trees| == 32 && Candidate(trees, nb, v, rsize)
      ensures v != 0 ==> NoBetter(trees, nb, rsize + nb)
      ensures v == 0 ==> NoFit(trees, nb)
    {
      ghost var h := Now(loose);
      hide Sound, Tail, Sizes, TreeIndexOf, Has, NoFit, NoBetter, BinLo, BinBits;
      hide BinMap.Marked, BinMap.And, BinMap.LeftBits, BinMap.Bit, BinMap.LeastBit, BinMap.Bit2Idx;
      var idx := TreeIndexOf(nb);
      var t: int;
      ghost var tt: Tree, par: int, lo: int, b: nat;
      v, rsize, t, tt, par, lo, b := SearchBin(nb, loose);
      ghost var bin: nat := idx;
      if t == 0 && v == 0 {  // set t to the root of the next non-empty tree bin
        var leftbits := BinMap.And(BinMap.LeftBits(BinMap.Bit(idx)), treemap);
        ghost var i := NextBin(mem, h, idx);
        if leftbits != 0 {
          var k := BinMap.Bit2Idx(BinMap.LeastBit(leftbits)) as int;
          t := Rd(mem, TreeBin(k));
          WholeBranch(mem, h, i);
          NextBinTail(mem, h, nb, i);
          bin, tt, par, lo, b := i, trees[i], TreeBin(i), BinLo(i), BinBits(i);
        } else {
          SoundSorts(mem, h);
          NoBinLeft(trees, nb);
          return;
        }
      }
      v, rsize := SearchPath(nb, v, rsize, t, loose, bin, tt, par, lo, b);
    }

    // ----- bins: linking and unlinking -----

    /** Link a free chunk into a small bin. */
    method InsertSmallChunk(p: int, s: int, ghost loose: set<int>)
      requires Inv(loose) && p in loose && p in chunks && chunks[p].size == s < LARGE
      modifies `mem, `smallmap, `small
      ensures Inv(loose - {p}) && Kept(old(mem), mem, chunks)
    {
      hide Sound, Kept, BinMap.Marked, BinMap.Mark, SmallAt, NoDup;
      ghost var m0, h := mem, Now(loose);
      LooseIs(mem, h, p);
      SmallIs(mem, h, s / 8);
      var i: nat := s / 8;
      var b := SmallBin(i);
      var f := b;
      SmallLinked(mem, h, i, p);
      if !BinMap.Marked(smallmap, i) {
        smallmap := BinMap.Mark(smallmap, i);
      } else {
        FirstAddress(m0, h, i);
        if Rd(mem, b + FD) >= leastAddr {
          f := Rd(mem, b + FD);
        } else {
          assert false;  // corruption error
        }
        BinMap.MarkAgain(smallmap, i);
      }
      mem := Wr(mem, b + FD, p);
      mem := Wr(mem, f + BK, p);
      mem := Wr(mem, p + FD, f);
      mem := Wr(mem, p + BK, b);
      small := small[i := [p] + small[i]];
      assert Now(loose - {p}) == AfterSmallLink(h, i, p);
    }

    /** Unlink a chunk from its small bin. */
    method UnlinkSmallChunk(p: int, s: int, ghost loose: set<int>)
      requires Inv(loose) && p in chunks && !chunks[p].inuse && p !in loose && chunks[p].size == s < LARGE
      modifies `mem, `smallmap, `small
      ensures Inv(loose + {p}) && Kept(old(mem), mem, chunks)
    {
      hide Sound, Kept, BinMap.Clear;
      ghost var h := Now(loose);
      var f := Rd(mem, p + FD);
      var b := Rd(mem, p + BK);
      ghost var k := SmallPlace(mem, h, p);
      var i: nat := s / 8;
      SmallUnlinked(mem, h, i, k);
      SmallChecks(mem, h, i, k);
      if f == SmallBin(i) || (f >= leastAddr && Rd(mem, f + BK) == p) {
        if b == f {
          smallmap := BinMap.Clear(smallmap, i);
        } else if b == SmallBin(i) || (b >= leastAddr && Rd(mem, b + FD) == p) {
          mem := Wr(mem, f + BK, b);
          mem := Wr(mem, b + FD, f);
        } else {
          assert false;  // corruption error
        }
      } else {
        assert false;  // corruption error
      }
      small := small[i := Without(small[i], k)];
      assert Now(loose + {p}) == AfterSmallUnlink(h, i, k);
    }

    /** Unlink the first chunk of a small bin that has chunks. */
    method UnlinkFirstSmallChunk(i: nat, ghost loose: set<int>) returns (p: int)
      requires Inv(loose) && i < 32 && BinMap.Marked(smallmap, i)
      modifies `mem, `smallmap, `small
      ensures Inv(loose + {p}) && Kept(old(mem), mem, chunks)
      ensures p in chunks && !chunks[p].inuse && p !in loose && chunks[p].size == 8 * i
    {
      hide Sound, Kept, BinMap.Clear, BinMap.Marked, SmallAt, NoDup;
      ghost var m0, h := mem, Now(loose);
      var b := SmallBin(i);
      SmallIs(mem, h, i);
      FirstAddress(mem, h, i);
      p := Rd(mem, b + FD);
      var f := Rd(mem, p + FD);
      SmallUnlinked(mem, h, i, 0);
      SmallChecks(mem, h, i, 0);
      if b == f {
        smallmap := BinMap.Clear(smallmap, i);
      } else if f >= leastAddr && Rd(mem, f + BK) == p {
        mem := Wr(mem, f + BK, b);
        mem := Wr(mem, b + FD, f);
      } else {
        assert false;  // corruption error
      }
      small := small[i := Without(small[i], 0)];
      assert Now(loose + {p}) == AfterSmallUnlink(h, i, 0);
    }

    /** Link a free chunk into its tree bin: walk the trie by the bits of the size. */
    method InsertLargeChunk(x: int, s: int, ghost loose: set<int>)
      requires Inv(loose) && x in loose && x in chunks && chunks[x].size == s >= LARGE
      modifies `mem, `treemap, `trees
      ensures Inv(loose - {x}) && Kept(old(mem), mem, chunks)
    {
      hide BinBits, BinLo, BinMap.Mark, BinMap.Marked, Has, InsWalk, Insert, Kept, Links, ParOf, Shl, SlotOf, Sorted,
        Sound, Sub, TreeIndexOf;
      hide Ring.Insert, Prepare, Chain, Hang;
      ghost var m0, h := mem, Now(loose);
      InsStart(mem, h, x);
      LooseIs(mem, h, x);
      TreeLinked(mem, h, x);
      var i: nat := TreeIndexOf(s);
      ghost var all := trees[i];
      var root := TreeBin(i);
      mem := Prepare(mem, x, i);
      ghost var m1 := mem;
      if !BinMap.Marked(treemap, i) {
        treemap := BinMap.Mark(treemap, i);
        InsEnd(m1, h, i, s, all, root, root, BinLo(i), BinBits(i));
        mem := Hang(mem, x, root, root);
      } else {
        var t := Rd(mem, root);
        KeyStart(s, i);
        var k := Shl(s, LeftShift(i)) % W32;
        ghost var tt, par, slot, lo, b := all, root, root, BinLo(i), BinBits(i);
        InsBounds(m1, h, i, s, tt, par, slot, lo, b);
        while true
          invariant mem == m1 && trees == h.trees && treemap == h.tmap && t == Root(tt) && tt.Node? && b <= 32
          invariant InsWalk(m1, h, i, s, tt, par, slot, lo, b)
          invariant k == Key(s - lo, b)
          decreases tt
        {
          InsBounds(m1, h, i, s, tt, par, slot, lo, b);
          InsRead(m0, h, i, s, x, tt, par, slot, lo, b);
          if ChunkSize(mem, t) != s {
            InsStep(m1, h, i, s, tt, par, slot, lo, b);
            KeyStep(s - lo, b);
            var c := t + (if k / TOPBIT % 2 == 1 then CHILD1 else CHILD0);
            k := 2 * k % W32;
            par, slot := t, c;
            if s >= Mid(lo, b) {
              tt, lo, b := tt.right, Mid(lo, b), b - 1;
            } else {
              tt, b := tt.left, b - 1;
            }
            if Rd(mem, c) != 0 {
              t := Rd(mem, c);
            } else if c >= leastAddr {
              InsEnd(m1, h, i, s, tt, par, slot, lo, b);
              mem := Hang(mem, x, c, t);
              break;
            } else {
              assert false;  // corruption error
            }
          } else {
            InsEnd(m1, h, i, s, tt, par, slot, lo, b);
            if t >= leastAddr && Rd(mem, t + FD) >= leastAddr {
              mem := Chain(mem, x, t);
            } else {
              assert false;  // corruption error
            }
            break;
          }
        }
      }
      trees := trees[i := Insert(all, BinLo(i), BinBits(i), x, s)];
      assert Now(loose - {x}) == AfterTreeLink(h, i, x, s);
    }

    /** Take a chunk off its chain, or its replacement leaf off its branch. */
    method Detach(x: int, ghost u: Tree, ghost e: int, ghost q: int, ghost i: nat) returns (r: int)
      requires Unlinkable(mem, u, x, e, q, i) && x > 0 && forall p :: p in Ptrs(u) ==> p >= leastAddr
      modifies `mem
      ensures mem == Detached(old(mem), u, x) && r == Replacement(old(mem), u, x)
    {
      hide Unlinkable, LeafWalk, Ring.IsRing;
      NodeReads(mem, u, x, e, q, i);
      ChainOf(mem, u, x, e, q, i);
      ghost var m0 := mem;
      if Rd(mem, x + BK) != x {
        var f := Rd(mem, x + FD);
        r := Rd(mem, x + BK);
        ChainInside(u, f);
        if f >= leastAddr && Rd(mem, f + BK) == x && Rd(mem, r + FD) == x {
          mem := Wr(mem, f + BK, r);
          mem := Wr(mem, r + FD, f);
        } else {
          assert false;  // corruption error
        }
      } else {
        LeafBegin(m0, u, x, e, q, i, leastAddr);
        var rp := x + CHILD1;
        r := Rd(mem, rp);
        if r == 0 {
          rp := x + CHILD0;
          r := Rd(mem, rp);
        }
        if r != 0 {
          ghost var t, par := if u.right.Node? then u.right else u.left, x;
          ghost var target, leaf := LeafSlot(t, rp), Root(Leaf(t));
          while Rd(mem, r + CHILD1) != 0 || Rd(mem, r + CHILD0) != 0
            invariant mem == m0 && LeafWalk(m0, t, par, rp, i, leastAddr, target, leaf) && r == Root(t)
            decreases t
          {
            LeafStep(m0, t, par, rp, i, leastAddr, target, leaf);
            ghost var up := r;
            rp := if Rd(mem, r + CHILD1) != 0 then r + CHILD1 else r + CHILD0;
            r := Rd(mem, rp);
            t, par := if t.right.Node? then t.right else t.left, up;
          }
          LeafStep(m0, t, par, rp, i, leastAddr, target, leaf);
          if rp >= leastAddr {
            mem := Wr(mem, rp, 0);
          } else {
            assert false;  // corruption error
          }
        }
      }
    }

    /** Give the replacement r the parent and the children of x. */
    method PutInPlace(x: int, r: int, xp: int)
      requires r != 0 && Adoptable(mem, x, r, leastAddr)
      modifies `mem
      ensures mem == Adopt(old(mem), x, r, xp)
    {
      if r >= leastAddr {
        mem := Wr(mem, r + PARENT, xp);
        var c0 := Rd(mem, x + CHILD0);
        if c0 != 0 {
          if c0 >= leastAddr {
            mem := Wr(mem, r + CHILD0, c0);
            mem := Wr(mem, c0 + PARENT, r);
          } else {
            assert false;  // corruption error
          }
        }
        var c1 := Rd(mem, x + CHILD1);
        if c1 != 0 {
          if c1 >= leastAddr {
            mem := Wr(mem, r + CHILD1, c1);
            mem := Wr(mem, c1 + PARENT, r);
          } else {
            assert false;  // corruption error
          }
        }
      } else {
        assert false;  // corruption error
      }
    }

    /** Unlink a chunk from its tree bin: off its chain if it is not alone there; otherwise the rightmost
        leaf below it takes its place. */
    method UnlinkLargeChunk(x: int, ghost s: int, ghost loose: set<int>)
      requires Inv(loose) && x in chunks && !chunks[x].inuse && x !in loose && chunks[x].size == s >= LARGE
      modifies `mem, `treemap, `trees
      ensures Inv(loose + {x}) && Kept(old(mem), mem, chunks)
    {
      hide Sound, Kept, BinLo, BinBits, TreeIndexOf, Sub, SlotOf, ParOf, Delete, Has, BinMap.Clear;
      hide Unlinkable, Detached, Replacement, Adopt, Adoptable, DropStores;
      ghost var m0, h := mem, Now(loose);
      ghost var i := TreePlace(mem, h, x);
      TreeUnlinked(mem, h, i, x, s);
      ghost var u, e, q := NodeFor(h, i, s), SlotFor(h, i, s), ParFor(h, i, s);
      DropNode(mem, h, i, x, s);
      if u.chain[0] == x { DropHead(mem, h, i, x, s); } else { DropChained(mem, h, i, x, s); }
      var xp := Rd(mem, x + PARENT);
      var r := Detach(x, u, e, q, i);
      if xp != 0 {
        var index := Rd(mem, x + INDEX);
        var root := TreeBin(index);
        if x == Rd(mem, root) {
          mem := Wr(mem, root, r);
          if r == 0 {
            treemap := BinMap.Clear(treemap, index);
          }
        } else if xp >= leastAddr {
          if Rd(mem, xp + CHILD0) == x {
            mem := Wr(mem, xp + CHILD0, r);
          } else {
            mem := Wr(mem, xp + CHILD1, r);
          }
        } else {
          assert false;  // corruption error
        }
        if r != 0 {
          PutInPlace(x, r, xp);
        }
      }
      trees := trees[i := Delete(h.trees[i], BinLo(i), BinBits(i), x, s)];
      assert Now(loose + {x}) == AfterTreeUnlink(h, i, x, s);
    }

    /** Relays to small and large bins. */
    method InsertChunk(p: int, s: int, ghost loose: set<int>)
      requires Inv(loose) && p in loose && p in chunks && chunks[p].size == s
      modifies `mem, `smallmap, `small, `treemap, `trees
      ensures Inv(loose - {p}) && Kept(old(mem), mem, chunks)
    {
      hide Sound, Kept;
      if s < LARGE {
        InsertSmallChunk(p, s, loose);
      } else {
        InsertLargeChunk(p, s, loose);
      }
    }

    method UnlinkChunk(p: int, s: int, ghost loose: set<int>)
      requires Inv(loose) && p in chunks && !chunks[p].inuse && p !in loose && chunks[p].size == s
      modifies `mem, `smallmap, `small, `treemap, `trees
      ensures Inv(loose + {p}) && Kept(old(mem), mem, chunks)
    {
      hide Sound, Kept;
      if s < LARGE {
        UnlinkSmallChunk(p, s, loose);
      } else {
        UnlinkLargeChunk(p, s, loose);
      }
    }

    // ----- taking chunks -----

    /** The chunks that are free and in no bin between calls: the designated victim. */
    ghost function Spare(): set<int>
      reads `dv, `dvsize
    {
      if dvsize == 0 then {} else {dv}
    }

    ghost predicate Ready()
      reads `mem, `dv, `dvsize, `leastAddr, `top, `topsize, `chunks, `small, `trees, `smallmap, `treemap
    {
      Inv(Spare()) && (if dvsize == 0 then dv == 0 else dv in chunks && chunks[dv].size == dvsize && dvsize > 0)
    }

    /** The state before the first request: nothing but zeros. */
    ghost predicate Fresh()
      reads `mem, `dv, `dvsize, `top, `topsize, `leastAddr, `smallmap, `treemap, `segSize, `footprint, `chunks
    {
      && top == 0 && topsize == 0 && dv == 0 && dvsize == 0 && smallmap == 0 && treemap == 0 && leastAddr == 0
      && segSize == 0 && footprint == 0 && chunks == map[]
      && forall i :: 0 <= i < 32 ==> Rd(mem, TreeBin(i)) == 0
    }

    /** One contiguous segment up to the end of what `brk` has handed out. */
    ghost predicate Segment()
      reads `leastAddr, `segBase, `segSize, `footprint, `top, `topsize, brk
    {
      && leastAddr == segBase == brk.start && segSize == footprint == brk.heapSize
      && top + topsize + TOP_FOOT_SIZE == brk.heapPtr
    }

    ghost predicate Valid()
      reads `mem, `dv, `dvsize, `leastAddr, `top, `topsize, `chunks, `small, `trees, `smallmap, `treemap
      reads `segBase, `segSize, `footprint, brk
    {
      && brk.Valid() && STATE_END <= brk.start
      && (if top == 0 then Fresh() && brk.heapSize == 0 else Ready() && Segment())
    }

    /** Every byte from the system is in a chunk in use, in a free one, in top, or in the foot behind it; and
        the pages for it are mapped. */
    lemma Accounted()
      requires Valid() && top != 0
      ensures SizeOf(chunks, segBase, top, true) + SizeOf(chunks, segBase, top, false) + topsize + TOP_FOOT_SIZE
        == footprint
      ensures footprint == brk.heapSize <= PAGE * brk.heapPages
    {
      hide Tagged, Owned, SmallBins, TreeBins, Shape;
      SizesTogether(segBase, top, chunks, segBase);
    }

    /** What the allocator's own checks look at, chunk by chunk: the tags, that no two free chunks are
        neighbours, and that a free chunk other than the designated victim is in the one bin for its size. */
    lemma Checked(p: int)
      requires Valid() && p in chunks
      ensures TagsChecked(mem, Now(Spare()), p) && (Cinuse(mem, p) <==> p in Live(chunks))
      ensures var s := chunks[p].size;
        && |small| == 32 && |trees| == 32
        && (forall i :: 0 <= i < 32 && p in small[i] ==> !chunks[p].inuse && p !in Spare() && s == 8 * i)
        && (forall i :: 0 <= i < 32 && Has(trees[i], p, s) ==>
          !chunks[p].inuse && p !in Spare() && s >= LARGE && TreeIndexOf(s) == i)
        && (!chunks[p].inuse && p !in Spare() ==> InItsBin(small, trees, p, s))
      ensures forall i :: 0 <= i < 32 ==>
        (BinMap.Marked(smallmap, i) <==> small[i] != []) && (BinMap.Marked(treemap, i) <==> trees[i].Node?)
    {
      hide Shape, Tiled, Tagged, Owned, TagsChecked, InItsBin, Has, BinMap.Marked, TreeIndexOf, Cinuse;
      CheckedTags(mem, Now(Spare()), p);
      TagIs(mem, Now(Spare()), p);
      CheckedBins(chunks, Spare(), small, trees, p);
      CheckedMaps(mem, smallmap, treemap, small, trees);
    }

    constructor (brk: Sbrk)
      requires brk.Valid() && brk.heapSize == 0 && STATE_END <= brk.start
      ensures Valid() && this.brk == brk && chunks == map[]
    {
      mem, smallmap, treemap, dv, dvsize, top, topsize, leastAddr := map[], 0, 0, 0, 0, 0, 0, 0;
      segBase, segSize, footprint, trimCheck, noncontiguous := 0, 0, 0, 0, false;
      this.brk := brk;
      chunks, small, trees := map[], [], [];
    }

    /** Mark a loose chunk in use, and tell its successor. */
    method Use(p: int, s: int, ghost loose: set<int>)
      requires Inv(loose) && p in loose && p in chunks && chunks[p].size == s
      modifies `mem, `chunks
      ensures Inv(loose - {p}) && Took(old(mem), mem, old(chunks), chunks, p, s)
      ensures forall q :: q in loose && q != p ==> q in old(chunks) && q in chunks && chunks[q] == old(chunks)[q]
    {
      hide Sound, Kept, Live, AfterUse, WithPinuse;
      ghost var h := Now(loose);
      UseSound(mem, SetInuseAndPinuse(mem, p, s), h, p);
      UseOthers(mem, h, p);
      Inside(mem, h, p);
      AfterUseIs(h, p);
      mem := Wr(mem, p + HEAD, s + 3);
      mem := Wr(mem, p + s + HEAD, WithPinuse(Rd(mem, p + s + HEAD)));
      chunks := AfterUse(h, p).chunks;
      assert Now(loose - {p}) == AfterUse(h, p);
    }

    /** Mark the first nb bytes of a loose chunk in use; the rest stays a loose chunk. */
    method Carve(p: int, nb: int, s: int, ghost loose: set<int>)
      requires Inv(loose) && p in loose && p in chunks && chunks[p].size == s
      requires nb % 8 == 0 && nb >= MIN_CHUNK && s - nb >= MIN_CHUNK
      modifies `mem, `chunks
      ensures Inv(loose - {p} + {p + nb}) && Took(old(mem), mem, old(chunks), chunks, p, nb)
      ensures p + nb in chunks && chunks[p + nb] == Chunk(s - nb, false, true) && p + nb !in loose
      ensures forall q :: q in loose && q != p ==> q in old(chunks) && q in chunks && chunks[q] == old(chunks)[q]
    {
      hide Sound, Kept, Live, AfterCarve, AfterUse;
      ghost var m0, h := mem, Now(loose);
      var r := p + nb;
      mem := Wr(mem, p + HEAD, nb + 3);
      mem := Wr(mem, r + HEAD, s - nb + 1);
      mem := Wr(mem, r + (s - nb), s - nb);
      CarveSound(m0, mem, h, p, nb);
      CarveResult(m0, h, p, nb);
      Inside(m0, h, p);
      NotLoose(m0, h, p, r);
      AfterCarveFields(h, p, nb);
      chunks := AfterCarve(h, p, nb).chunks;
      assert Now(loose - {p} + {r}) == AfterCarve(h, p, nb);
    }

    /** Cut a chunk off the bottom of top. */
    method SplitTop(nb: int) returns (p: int)
      requires Ready() && nb % 8 == 0 && MIN_CHUNK <= nb < topsize
      modifies `mem, `chunks, `top, `topsize
      ensures Ready() && p == old(top) && Took(old(mem), mem, old(chunks), chunks, p, nb)
      ensures top == p + nb && top + topsize == old(top + topsize)
    {
      hide Sound, Kept, Live;
      ghost var h, spare := Now(Spare()), Spare();
      GrowSound(mem, Wr(Wr(mem, top + nb + HEAD, topsize - nb + 1), top + HEAD, nb + 3), h, nb);
      GrowLive(h.chunks, h.top, nb);
      var rsize := topsize - nb;
      topsize := rsize;
      p := top;
      var r := p + nb;
      top := r;
      mem := Wr(mem, r + HEAD, rsize + 1);
      mem := Wr(mem, p + HEAD, nb + 3);
      chunks := AfterGrow(h, nb).chunks;
      assert Now(spare) == AfterGrow(h, nb);
    }

    /** Take from the designated victim. */
    method SplitDv(nb: int) returns (p: int)
      requires Ready() && nb % 8 == 0 && MIN_CHUNK <= nb <= dvsize
      modifies `mem, `chunks, `dv, `dvsize
      ensures Ready() && p == old(dv) && Took(old(mem), mem, old(chunks), chunks, p, Fit(old(dvsize), nb))
      ensures if old(dvsize) - nb >= MIN_CHUNK then dv == p + nb && dvsize == old(dvsize) - nb else dv == dvsize == 0
    {
      hide Sound, Kept, Live, AfterCarve, AfterUse, WithPinuse;
      ghost var m0, h, spare := mem, Now(Spare()), Spare();
      var rsize := dvsize - nb;
      p := dv;
      LooseIs(mem, h, p);
      if rsize >= MIN_CHUNK {
        var r := p + nb;
        dv := r;
        dvsize := rsize;
        mem := Wr(mem, r + HEAD, rsize + 1);
        mem := Wr(mem, r + rsize, rsize);
        mem := Wr(mem, p + HEAD, nb + 3);
        CarveSound(m0, mem, h, p, nb);
        CarveResult(m0, h, p, nb);
        AfterCarveFields(h, p, nb);
        chunks := AfterCarve(h, p, nb).chunks;
        assert Now(Spare()) == AfterCarve(h, p, nb);
      } else {
        var dvs := dvsize;
        UseSound(mem, SetInuseAndPinuse(mem, p, dvs), h, p);
        AfterUseIs(h, p);
        dvsize := 0;
        dv := 0;
        mem := Wr(mem, p + HEAD, dvs + 3);
        mem := Wr(mem, p + dvs + HEAD, WithPinuse(Rd(mem, p + dvs + HEAD)));
        chunks := AfterUse(h, p).chunks;
        assert Now(Spare()) == AfterUse(h, p);
      }
    }

    /** Make p the designated victim; the former one goes to a small bin. */
    method ReplaceDv(p: int, s: int)
      requires Inv(Spare() + {p}) && p !in Spare() && p in chunks && chunks[p].size == s && s > 0
      requires if dvsize == 0 then dv == 0 else dv in chunks && chunks[dv].size == dvsize && 0 < dvsize < LARGE
      modifies `mem, `smallmap, `small, `dv, `dvsize
      ensures Ready() && dv == p && dvsize == s && Kept(old(mem), mem, chunks)
    {
      hide Sound, Kept;
      var dvs := dvsize;
      ghost var spare := Spare();
      if dvs != 0 {
        InsertSmallChunk(dv, dvs, Spare() + {p});
        assert spare + {p} - {dv} == {p};
      } else {
        KeptSelf(mem, chunks);
        assert spare + {p} == {p};
      }
      dvsize := s;
      dv := p;
    }

    // ----- allocation from the bins -----

    /** Without a victim its address is no chunk's. */
    lemma NoVictim()
      requires Ready()
      ensures OnlyVictim(Now(Spare()), dv) && (dv in chunks <==> dvsize != 0)
    {
      hide Sound;
      if dvsize == 0 && dv in chunks { ChunkRead(mem, Now(Spare()), dv); }
    }

    lemma VictimIs(nb: int)
      requires Valid() && nb > 0
      ensures OnlyVictim(Now(Spare()), dv) && (VictimFits(chunks, dv, nb) <==> nb <= dvsize)
    {
      hide Inv, Segment;
      if top != 0 { NoVictim(); }
    }

    /** What the map of small bins says. */
    lemma SmallMarks()
      requires Ready()
      ensures |small| == 32 && |trees| == 32
      ensures forall i :: 0 <= i < 32 ==> (BinMap.Marked(smallmap, i) <==> small[i] != [])
      ensures treemap == 0 ==> forall nb :: NoFit(trees, nb)
    {
      hide Sound, BinMap.Marked, Has;
      Parts(mem, Now(Spare()));
      CheckedMaps(mem, smallmap, treemap, small, trees);
      if treemap == 0 {
        forall i: nat | i < 32 ensures trees[i].Nil? { BinMap.ZeroMap(i); }
        NoTrees(trees);
      }
    }

    /** A small bin whose chunks have exactly the wanted size. */
    method TakeSmall(i: nat) returns (p: int)
      requires Ready() && i < 32 && BinMap.Marked(smallmap, i)
      modifies `mem, `smallmap, `small, `chunks
      ensures Ready() && Took(old(mem), mem, old(chunks), chunks, p, 8 * i)
      ensures Binned(old(chunks), old(dv), p) && old(chunks)[p].size == 8 * i
    {
      hide Sound, Kept, Live, BinMap.Marked;
      ghost var m0, c0, spare := mem, chunks, Spare();
      NoVictim();
      p := UnlinkFirstSmallChunk(i, spare);
      ghost var m1 := mem;
      Use(p, 8 * i, spare + {p});
      SameThenTook(m0, m1, mem, c0, c0, chunks, p, 8 * i);
      assert spare + {p} - {p} == Spare();
      assert dvsize != 0 ==> dv in spare + {p} && dv != p && dv in c0 && chunks[dv] == c0[dv];
    }

    /** A small bin whose chunks are larger: the rest becomes the designated victim. */
    method SplitSmall(i: nat, nb: int) returns (p: int)
      requires Ready() && i < 32 && BinMap.Marked(smallmap, i) && nb % 8 == 0 && MIN_CHUNK <= nb
        && 8 * i - nb >= MIN_CHUNK
      requires dvsize < LARGE
      modifies `mem, `smallmap, `small, `chunks, `dv, `dvsize
      ensures Ready() && Took(old(mem), mem, old(chunks), chunks, p, nb)
      ensures Binned(old(chunks), old(dv), p) && old(chunks)[p].size == 8 * i
      ensures dv == p + nb && dvsize == 8 * i - nb
    {
      hide Sound, Kept, Live, BinMap.Marked;
      ghost var m0, c0, spare := mem, chunks, Spare();
      NoVictim();
      p := UnlinkFirstSmallChunk(i, spare);
      var rsize := 8 * i - nb;
      ghost var m1 := mem;
      Carve(p, nb, 8 * i, spare + {p});
      ghost var m2 := mem;
      SameThenTook(m0, m1, m2, c0, c0, chunks, p, nb);
      var r := p + nb;
      assert spare + {p} - {p} + {r} == spare + {r};
      assert dvsize != 0 ==> dv in spare + {p} && dv != p && dv in c0 && chunks[dv] == c0[dv];
      ReplaceDv(r, rsize);
      TookThenSame(m0, m2, mem, c0, chunks, chunks, p, nb);
    }

    /** Take a chunk that is rsize bytes too large out of its tree bin; what is left over, if it can be a
        chunk, is in no bin yet. */
    method TakeLarge(v: int, nb: int, rsize: int)
      requires Ready() && nb % 8 == 0 && nb >= MIN_CHUNK && rsize >= 0
      requires v in chunks && !chunks[v].inuse && v !in Spare() && chunks[v].size == rsize + nb >= LARGE
      modifies `mem, `treemap, `trees, `chunks
      ensures Took(old(mem), mem, old(chunks), chunks, v, Fit(rsize + nb, nb))
      ensures rsize < MIN_CHUNK ==> Inv(Spare())
      ensures rsize >= MIN_CHUNK ==> Inv(Spare() + {v + nb})
      ensures rsize >= MIN_CHUNK ==>
        v + nb in chunks && chunks[v + nb] == Chunk(rsize, false, true) && v + nb !in Spare()
      ensures if dvsize == 0 then dv == 0 else dv in chunks && chunks[dv].size == dvsize > 0
    {
      hide Sound, Kept, Live, Took;
      ghost var m0, c0, spare := mem, chunks, Spare();
      UnlinkLargeChunk(v, rsize + nb, spare);
      ghost var m1 := mem;
      SameIs(m0, c0);
      if rsize < MIN_CHUNK {
        Use(v, rsize + nb, spare + {v});
        SameThenTook(m0, m1, mem, c0, c0, chunks, v, rsize + nb);
        assert spare + {v} - {v} == Spare();
      } else {
        Carve(v, nb, rsize + nb, spare + {v});
        SameThenTook(m0, m1, mem, c0, c0, chunks, v, nb);
        assert spare + {v} - {v} + {v + nb} == spare + {v + nb};
      }
      assert dvsize != 0 ==> dv in spare + {v} && dv != v && dv in c0 && chunks[dv] == c0[dv];
    }

    /** A large request from the tree bins: the best fit of all, unless the designated victim fits and
        is no larger.  The ghost result s is the size of the chunk that was taken. */
    method TmallocLarge(nb: int) returns (p: int, ghost s: int)
      requires Ready() && nb % 8 == 0 && LARGE <= nb < W32
      modifies `mem, `smallmap, `small, `treemap, `trees, `chunks
      ensures Ready() && |old(trees)| == 32
      ensures p != 0 ==>
        s >= nb && 0 <= TreeIndexOf(s) < 32 && Has(old(trees)[TreeIndexOf(s)], p, s) && NoBetter(old(trees), nb, s)
      ensures p != 0 ==> (dvsize >= nb ==> s < dvsize) && Took(old(mem), mem, old(chunks), chunks, p, Fit(s, nb))
      ensures p == 0 ==> mem == old(mem) && chunks == old(chunks) && trees == old(trees)
      ensures p == 0 ==> NoFit(trees, nb) || (dvsize >= nb && NoBetter(trees, nb, dvsize))
    {
      hide Sound, Kept, Live, TreeIndexOf, Has, NoFit, NoBetter, Took, Minus;
      ghost var m0, c0, spare := mem, chunks, Spare();
      var v, rsize := FindBestFit(nb, spare);
      s := rsize + nb;
      if v != 0 {
        TreeMemberOf(mem, Now(spare), TreeIndexOf(s), v, s);
        SizeBound(mem, Now(spare), v);
        DvBound(mem, Now(spare), dv, dvsize);
        DvFits(trees, nb, s, dvsize);
      }
      if v != 0 && rsize < Minus(dvsize, nb) {
        if v >= leastAddr {
          var r := v + nb;
          if v < r {
            TakeLarge(v, nb, rsize);
            if rsize >= MIN_CHUNK {
              ghost var m2 := mem;
              InsertChunk(r, rsize, spare + {r});
              TookThenSame(m0, m2, mem, c0, chunks, chunks, v, nb);
              assert spare + {r} - {r} == Spare();
            }
            return v, s;
          }
        }
        assert false;  // corruption error
      }
      p := 0;
    }

    /** A small request from the tree bins: the least chunk of all; the rest becomes the designated victim. */
    method TmallocSmall(nb: int) returns (p: int, ghost s: int)
      requires Ready() && nb % 8 == 0 && MIN_CHUNK <= nb < LARGE && treemap != 0 && dvsize < LARGE
      modifies `mem, `smallmap, `small, `treemap, `trees, `chunks, `dv, `dvsize
      ensures Ready() && |old(trees)| == 32
      ensures s >= nb && 0 <= TreeIndexOf(s) < 32 && Has(old(trees)[TreeIndexOf(s)], p, s)
        && NoBetter(old(trees), nb, s)
      ensures p != 0 && Took(old(mem), mem, old(chunks), chunks, p, Fit(s, nb))
      ensures if s - nb < MIN_CHUNK then dv == old(dv) && dvsize == old(dvsize) else dv == p + nb && dvsize == s - nb
    {
      hide Sound, Kept, Live, TreeIndexOf, Has, NoFit, NoBetter, Took, Tail, Sizes, BinLo, BinBits, BinMap.LeastBit,
        BinMap.Bit2Idx;
      ghost var m0, c0, spare, h := mem, chunks, Spare(), Now(Spare());
      ghost var k := FirstBinTail(mem, h, nb);
      var i := BinMap.Bit2Idx(BinMap.LeastBit(treemap)) as int;
      var t := Rd(mem, TreeBin(i));
      ghost var root := trees[k];
      ghost var tt, par, lo, b := root, TreeBin(k), BinLo(k), BinBits(k);
      TailParts(mem, trees, k, nb, 0, W32 - nb, tt, par, lo, b);
      WholeBranch(mem, h, k);
      NodeRead(mem, h, k, tt, par, lo, b);
      SomeFit(mem, h, k, nb, lo, b, par);
      var v := t;
      var rsize := (ChunkSize(mem, t) - nb) % W32;
      Look(trees, k, nb, 0, W32 - nb, t, tt.size, v, rsize);
      TailStep(mem, trees, k, nb, 0, W32 - nb, v, rsize, tt, par, lo, b);
      t := if Rd(mem, t + CHILD0) != 0 then Rd(mem, t + CHILD0) else Rd(mem, t + CHILD1);
      if b == 0 {
        tt, par, lo, b := Nil, 0, 0, 0;
      } else if tt.left.Node? {
        tt, par, b := tt.left, Root(tt), b - 1;
      } else {
        tt, par, lo, b := tt.right, Root(tt), Mid(lo, b), b - 1;
      }
      v, rsize := SearchPath(nb, v, rsize, t, spare, k, tt, par, lo, b);
      s := rsize + nb;
      TreeMemberOf(mem, h, TreeIndexOf(s), v, s);
      SizeBound(mem, h, v);
      if v >= leastAddr {
        var r := v + nb;
        if v < r {
          TakeLarge(v, nb, rsize);
          if rsize >= MIN_CHUNK {
            ghost var m2 := mem;
            ReplaceDv(r, rsize);
            TookThenSame(m0, m2, mem, c0, chunks, chunks, v, nb);
          }
          return v, s;
        }
      }
      assert false;  // corruption error
    }

    // ----- system memory -----

    method InitTop(p: int, psize: int, ghost h: View)
      requires p == h.top && Sound(Wr(mem, p + HEAD, h.topsize + 1), h) && psize > 0 && psize % 8 == 0
        && p + psize < W32
      modifies `mem, `top, `topsize, `trimCheck
      ensures top == p && topsize == psize && Sound(mem, h.(topsize := psize)) && Kept(old(mem), mem, h.chunks)
      ensures trimCheck == TRIM_THRESHOLD
    {
      hide Sound, Kept;
      TopResized(mem, h, psize);
      var offset := AlignOffset(p + FD);
      var q := p + offset;
      var size := psize - offset;
      top := q;
      topsize := size;
      mem := Wr(mem, q + HEAD, size + 1);
      mem := Wr(mem, q + size + HEAD, TOP_FOOT_SIZE);  // the size of the fake trailing chunk
      trimCheck := TRIM_THRESHOLD;
    }

    method InitBins()
      modifies `mem
      ensures forall i :: 0 <= i < 32 ==> Rd(mem, TreeBin(i)) == old(Rd(mem, TreeBin(i)))
      ensures forall i :: 0 <= i < 32 ==> Rd(mem, SmallBin(i) + FD) == SmallBin(i) == Rd(mem, SmallBin(i) + BK)
    {
      for i := 0 to 32
        invariant forall j :: 0 <= j < 32 ==> Rd(mem, TreeBin(j)) == old(Rd(mem, TreeBin(j)))
        invariant forall j :: 0 <= j < i ==> Rd(mem, SmallBin(j) + FD) == SmallBin(j) == Rd(mem, SmallBin(j) + BK)
      {
        var b := SmallBin(i);
        mem := Wr(mem, b + FD, b);
        mem := Wr(mem, b + BK, b);
      }
    }

    /** What a request to the memory source brings: the end of the range, moved by whole pages, or nothing,
        when the pages do not suffice. */
    twostate predicate Extended(nb: int, tbase: int, tsize: int)
      reads this, brk
    {
      && brk.Valid() && brk.Pages() == old(brk.Pages())
      && (tbase != FAILED ==>
        tbase == old(brk.heapPtr) && tsize > 0 && tsize % PAGE == 0 && brk.heapSize == old(brk.heapSize) + tsize)
      && (tbase != FAILED ==> WholePages(nb, topsize, old(noncontiguous), tsize))
      && (tbase == FAILED ==> brk.heapSize == old(brk.heapSize))
    }

    /** What must be had from the system for a request that top is too small for: the whole when what comes may not lie
        behind top. */
    static function Missing(nb: int, topsize: int, whole: bool): int {
      nb + SYS_ALLOC_PADDING - if whole then 0 else topsize
    }

    /** The least number of whole pages for it. */
    static predicate WholePages(nb: int, topsize: int, whole: bool, n: int) {
      n > 0 && n % PAGE == 0 && Missing(nb, topsize, whole) <= n < Missing(nb, topsize, whole) + PAGE
    }

    /** Contiguously, for what top lacks. */
    method MoreContiguous(nb: int, asize: int) returns (tbase: int, tsize: int)
      requires brk.Valid() && STATE_END <= brk.start && (top != 0 ==> segBase + segSize == brk.heapPtr)
      requires 0 <= topsize <= nb && (top == 0 ==> topsize == 0 && brk.heapSize == 0) && !noncontiguous
      requires asize == GranularityAlign(nb + SYS_ALLOC_PADDING) && nb + SYS_ALLOC_PADDING + PAGE <= W32
      modifies brk, `noncontiguous
      ensures Extended(nb, tbase, tsize)
      ensures tbase == FAILED ==> noncontiguous && brk.heapSize + asize > PAGE * brk.Pages()
    {
      hide GranularityAlign, PageAlign;
      AlignedUp(nb + SYS_ALLOC_PADDING);
      AlignedUp(nb - topsize + SYS_ALLOC_PADDING);
      AlignLess(nb - topsize + SYS_ALLOC_PADDING, nb + SYS_ALLOC_PADDING);
      tbase, tsize := FAILED, 0;
      var br := FAILED;
      var ssize := asize;
      if top == 0 {  // first time through
        var base := brk.Move(0);
        if base != FAILED {
          PageAligned(base);
          ssize := ssize + (PageAlign(base) - base);
          if ssize > nb && ssize < HALF_MAX {
            br := brk.Move(ssize);
            if br == base {
              tbase, tsize := base, ssize;
            }
          }
        }
      } else {
        ssize := GranularityAlign(nb - topsize + SYS_ALLOC_PADDING);
        if ssize < HALF_MAX {
          br := brk.Move(ssize);
          if br == segBase + segSize {
            tbase, tsize := br, ssize;
          }
        }
      }
      if tbase == FAILED {
        if br != FAILED {
          assert false;  // partial failure
        } else {
          noncontiguous := true;
        }
      }
    }

    /** Anywhere, for the whole request. */
    method MoreNoncontiguous(nb: int, asize: int) returns (tbase: int, tsize: int)
      requires brk.Valid() && STATE_END <= brk.start && 0 <= topsize && noncontiguous
      requires asize == GranularityAlign(nb + SYS_ALLOC_PADDING) && 0 <= nb && nb + SYS_ALLOC_PADDING + PAGE <= W32
      modifies brk
      ensures Extended(nb, tbase, tsize)
      ensures tbase != FAILED ==> brk.heapSize == old(brk.heapSize) + asize <= PAGE * brk.Pages()
      ensures tbase == FAILED ==> brk.heapSize + asize > PAGE * brk.Pages()
    {
      hide GranularityAlign, PageAlign;
      AlignedUp(nb + SYS_ALLOC_PADDING);
      tbase, tsize := FAILED, 0;
      if asize < HALF_MAX {
        var br := brk.Move(asize);
        var end := brk.Move(0);
        if br != FAILED && end != FAILED && br < end {
          var ssize := end - br;
          if ssize > nb + TOP_FOOT_SIZE {
            tbase, tsize := br, ssize;
          }
        }
      }
    }

    /** Ask for more memory. */
    method MoreCore(nb: int, asize: int) returns (tbase: int, tsize: int)
      requires brk.Valid() && STATE_END <= brk.start && (top != 0 ==> segBase + segSize == brk.heapPtr)
      requires 0 <= topsize <= nb && (top == 0 ==> topsize == 0 && brk.heapSize == 0)
      requires asize == GranularityAlign(nb + SYS_ALLOC_PADDING) && nb + SYS_ALLOC_PADDING + PAGE <= W32
      modifies brk, `noncontiguous
      ensures Extended(nb, tbase, tsize)
      ensures tbase == FAILED ==> brk.heapSize + asize > PAGE * brk.Pages()
    {
      hide GranularityAlign;
      tbase, tsize := FAILED, 0;
      if !noncontiguous {
        tbase, tsize := MoreContiguous(nb, asize);
      }
      if tbase == FAILED {
        tbase, tsize := MoreNoncontiguous(nb, asize);
      }
    }

    /** The first memory: everything is top. */
    method SysInit(tbase: int, tsize: int)
      requires Fresh() && STATE_END <= tbase && tbase % 8 == 0 && tsize > TOP_FOOT_SIZE && tsize % 8 == 0
        && tbase + tsize < W32
      modifies `mem, `top, `topsize, `trimCheck, `leastAddr, `segBase, `segSize, `footprint, `small, `trees
      ensures Ready() && Kept(old(mem), mem, chunks) && chunks == old(chunks)
      ensures leastAddr == segBase == tbase && segSize == footprint == tsize
      ensures top == tbase && topsize == tsize - TOP_FOOT_SIZE
    {
      hide BK, FD, Kept, Rd, STATE, SmallBin, Sound, W32, Wr;
      ghost var m0 := mem;
      footprint := footprint + tsize;
      if leastAddr == 0 || tbase < leastAddr {
        leastAddr := tbase;
      }
      segBase := tbase;
      segSize := tsize;
      InitBins();
      ghost var h, m1 := Empty(tbase, tsize - TOP_FOOT_SIZE), mem;
      EmptySound(Wr(mem, tbase + HEAD, h.topsize + 1), tbase, h.topsize);
      InitTop(tbase, tsize - TOP_FOOT_SIZE, h);
      small, trees := h.small, h.trees;
      KeptNone(m0, mem, chunks);
      assert Now(Spare()) == h;
    }

    /** More memory behind top: part of top. */
    method SysAppend(tbase: int, tsize: int)
      requires Ready() && tsize > 0 && tsize % 8 == 0 && tbase == segBase + segSize && top + topsize + tsize < W32
      requires segBase <= top < segBase + segSize
      modifies `mem, `top, `topsize, `trimCheck, `segSize, `footprint
      ensures Ready() && Kept(old(mem), mem, chunks)
      ensures segSize == old(segSize) + tsize && footprint == old(footprint) + tsize
      ensures top == old(top) && topsize == old(topsize) + tsize
    {
      hide Sound, Kept;
      ghost var h, spare := Now(Spare()), Spare();
      footprint := footprint + tsize;
      if tbase == segBase + segSize && segBase <= top < segBase + segSize {
        segSize := segSize + tsize;
        TopHead(mem, h);
        InitTop(top, topsize + tsize, h);
      } else {
        assert false;  // a second segment
      }
      assert Now(Spare()) == h.(topsize := topsize);
    }

    /** Where top starts, or will start. */
    ghost function End(): int
      reads `top, brk
    {
      if top == 0 then brk.start else top
    }

    /** Get memory from the system for the first top or behind the one there is. */
    method MoreTop(nb: int) returns (more: bool)
      requires Valid() && MIN_CHUNK <= nb < W32 && (nb % 8 == 0 || nb == W32 - 1) && topsize <= nb
      modifies this, brk
      ensures Valid() && brk.Pages() == old(brk.Pages()) && dv == old(dv) && dvsize == old(dvsize)
      ensures chunks == old(chunks) && Kept(old(mem), mem, chunks)
      ensures more ==> top == old(End()) && top != 0 && nb < topsize && nb % 8 == 0
      ensures more ==> WholePages(nb, old(topsize), old(noncontiguous), brk.heapSize - old(brk.heapSize))
      ensures !more ==>
        brk.heapSize == old(brk.heapSize) && brk.heapSize + nb + SYS_ALLOC_PADDING + PAGE > PAGE * brk.Pages()
    {
      hide FAILED, GranularityAlign, HEAD, Kept, Live, MIN_CHUNK, Rd, STATE, STATE_END, Sound, Spare, Wr;
      KeptSelf(mem, chunks);
      if top != 0 { TopHead(mem, Now(Spare())); }
      AskSize(nb);
      var asize := GranularityAlign((nb + SYS_ALLOC_PADDING) % W32);
      if asize <= nb {
        return false;
      }
      var tbase, tsize := MoreCore(nb, asize);
      if tbase == FAILED {
        return false;
      }
      EightDivides(tsize);
      EightDivides(brk.start);
      if top == 0 {
        SysInit(tbase, tsize);
      } else {
        SysAppend(tbase, tsize);
      }
      return nb < topsize;
    }

    /** Allocate from the new or extended top. */
    method SysAlloc(nb: int) returns (p: int)
      requires Valid() && MIN_CHUNK <= nb < W32 && (nb % 8 == 0 || nb == W32 - 1) && topsize <= nb
      modifies this, brk
      ensures Valid() && brk.Pages() == old(brk.Pages()) && dv == old(dv) && dvsize == old(dvsize)
      ensures p != 0 ==> p == old(End()) && Took(old(mem), mem, old(chunks), chunks, p, nb) && End() == p + nb
      ensures p != 0 ==> WholePages(nb, old(topsize), old(noncontiguous), brk.heapSize - old(brk.heapSize))
      ensures p == 0 ==> Same(old(mem), mem, old(chunks), chunks)
      ensures p == 0 ==>
        brk.heapSize == old(brk.heapSize) && brk.heapSize + nb + SYS_ALLOC_PADDING + PAGE > PAGE * brk.Pages()
    {
      hide Kept, Live, Rd, Sound, Spare, Took, Wr, Inv, Ready;
      ghost var m0, c0 := mem, chunks;
      p := 0;
      var more := MoreTop(nb);
      if more {
        ghost var m1 := mem;
        p := SplitTop(nb);
        SameThenTook(m0, m1, mem, c0, c0, chunks, p, nb);
      }
    }

    method Release(extra: int) returns (released: int)
      requires brk.Valid() && 0 <= extra <= brk.heapSize && extra < HALF_MAX && segBase + segSize == brk.heapPtr
      modifies brk
      ensures brk.Valid() && brk.Pages() == old(brk.Pages()) && released == extra
        && brk.heapSize == old(brk.heapSize) - extra
    {
      released := 0;
      var oldBr := brk.Move(0);
      if oldBr == segBase + segSize {
        var relBr := brk.Move(-extra);
        var newBr := brk.Move(0);
        if relBr != FAILED && newBr < oldBr {
          released := oldBr - newBr;
        }
      }
    }

    /** Give whole pages of top back, as long as the padding stays. */
    method SysTrim(pad0: int) returns (trimmed: bool)
      requires Valid() && 0 <= pad0
      modifies `mem, `top, `topsize, `trimCheck, `segSize, `footprint, brk
      ensures Valid() && brk.Pages() == old(brk.Pages()) && Kept(old(mem), mem, chunks)
      ensures top == old(top) && old(topsize) - topsize == old(brk.heapSize) - brk.heapSize >= 0
      ensures (old(brk.heapSize) - brk.heapSize) % PAGE == 0 && trimmed == (brk.heapSize < old(brk.heapSize))
      ensures var pad := pad0 + TOP_FOOT_SIZE;
        if pad0 < MAX_REQUEST && top != 0 && old(topsize) > pad then pad < topsize <= pad + PAGE else !trimmed
      ensures trimCheck == if trimmed then TRIM_THRESHOLD
        else if pad0 < MAX_REQUEST && top != 0 && topsize > old(trimCheck) then W32 - 1 else old(trimCheck)
    {
      hide Sound, Kept, Inv, Ready;
      KeptSelf(mem, chunks);
      var released := 0;
      if pad0 < MAX_REQUEST && top != 0 {
        var pad := pad0 + TOP_FOOT_SIZE;
        if topsize > pad {
          released := TrimTop(pad);
        }
        if released == 0 && topsize > trimCheck {
          trimCheck := W32 - 1;
        }
      }
      trimmed := released != 0;
    }

    /** Whole units of top go back to the system; at least pad bytes and the foot stay. */
    method TrimTop(pad: int) returns (released: int)
      requires Valid() && top != 0 && TOP_FOOT_SIZE <= pad < topsize
      modifies `mem, `top, `topsize, `trimCheck, `segSize, `footprint, brk
      ensures Valid() && brk.Pages() == old(brk.Pages()) && Kept(old(mem), mem, chunks) && top == old(top)
      ensures released >= 0 && released % PAGE == 0 && pad < topsize <= pad + PAGE
      ensures topsize == old(topsize) - released && brk.heapSize == old(brk.heapSize) - released
      ensures trimCheck == if released != 0 then TRIM_THRESHOLD else old(trimCheck)
    {
      hide Sound, Kept, Extra;
      KeptSelf(mem, chunks);
      ghost var h := Now(Spare());
      TopHead(mem, h);
      var extra := Extra(topsize, pad);
      ExtraBounds(topsize, pad);
      if extra >= HALF_MAX {
        assert false;
      }
      released := Release(extra);
      if released != 0 {
        segSize := segSize - released;
        footprint := footprint - released;
        InitTop(top, topsize - released, h);
        assert Now(Spare()) == h.(topsize := topsize);
      }
    }

    // ----- malloc -----

    /** Top after a chunk of nb bytes at p has been given: the same, or what is left of it when the chunk was its lower
        end; and the system is asked for no more than the pages that are missing. */
    twostate predicate TopNext(nb: int, p: int)
      reads this, brk
    {
      var more := brk.heapSize - old(brk.heapSize);
      && End() == (if p == old(End()) then p + nb else old(End()))
      && if p == old(End()) && old(topsize) <= nb then WholePages(nb, old(topsize), old(noncontiguous), more)
        else more == 0
    }

    /** A chunk from the bins has been given: s bytes at p. */
    twostate predicate Given(nb: int, p: int, s: int)
      reads this
    {
      && p != 0 && s >= nb && Took(old(mem), mem, old(chunks), chunks, p, s)
      && FromBin(old(chunks), old(dv), nb, p) && s == Fit(old(chunks)[p].size, nb)
      && VictimNext(old(chunks), old(dv), old(dvsize), nb, p, dv, dvsize)
    }

    /** From the request's own small bin or the next one. */
    method TakeSnug(i: nat, nb: int) returns (p: int, ghost s: int)
      requires Ready() && i < 32 && BinMap.Marked(smallmap, i) && nb % 8 == 0 && MIN_CHUNK <= nb < LARGE
      requires nb / 8 <= i <= nb / 8 + 1 && (i > nb / 8 ==> |small| == 32 && small[nb / 8] == [])
      modifies `mem, `smallmap, `small, `chunks
      ensures Ready() && p != 0 && Given(nb, p, s)
    {
      hide Sound, Kept, Took, Live, BinMap.Marked, FromBin, OnlyVictim;
      ghost var m0, c0, h, v := mem, chunks, Now(Spare()), dv;
      NoVictim();
      SmallMarks();
      p := TakeSmall(i);
      s := 8 * i;
      TookAligned(m0, mem, Now(Spare()), c0, p, s);
      SnugTaken(m0, h, v, nb, i, p);
    }

    /** From the next small bin that has a chunk. */
    method TakeNext(i: nat, nb: int) returns (p: int)
      requires Ready() && i < 32 && BinMap.Marked(smallmap, i) && nb % 8 == 0 && MIN_CHUNK <= nb < LARGE && dvsize < nb
      requires nb / 8 + 2 <= i && |small| == 32 && forall j :: nb / 8 <= j < i ==> small[j] == []
      modifies `mem, `smallmap, `small, `chunks, `dv, `dvsize
      ensures Ready() && p != 0 && Given(nb, p, nb)
    {
      hide Sound, Kept, Took, Live, BinMap.Marked, FromBin, OnlyVictim;
      ghost var m0, c0, h, v := mem, chunks, Now(Spare()), dv;
      NoVictim();
      p := SplitSmall(i, nb);
      TookAligned(m0, mem, Now(Spare()), c0, p, nb);
      NextTaken(m0, h, v, nb, i, p);
    }

    /** The least tree chunk, for a small request. */
    method TakeTree(nb: int) returns (p: int, ghost s: int)
      requires Ready() && nb % 8 == 0 && MIN_CHUNK <= nb < LARGE && treemap != 0 && dvsize < nb
      requires |small| == 32 && forall j :: nb / 8 <= j < 32 ==> small[j] == []
      modifies `mem, `smallmap, `small, `treemap, `trees, `chunks, `dv, `dvsize
      ensures Ready() && p != 0 && Given(nb, p, s)
    {
      hide Sound, Kept, Took, Live, Has, TreeIndexOf, NoBetter, FromBin, OnlyVictim;
      ghost var m0, h, v := mem, Now(Spare()), dv;
      NoVictim();
      p, s := TmallocSmall(nb);
      TreeMemberOf(m0, h, TreeIndexOf(s), p, s);
      TreeTaken(m0, h, v, nb, p);
      s := Fit(s, nb);
    }

    /** A small request from the bins, or 0 with nothing changed: a small bin of the right size or the next,
        and when the victim is too small the next larger chunk in any bin. */
    method FromBinsSmall(nb: int) returns (p: int, ghost s: int)
      requires Valid() && nb % 8 == 0 && MIN_CHUNK <= nb < LARGE
      modifies `mem, `smallmap, `small, `treemap, `trees, `chunks, `dv, `dvsize
      ensures Valid()
      ensures p != 0 ==> Given(nb, p, s)
      ensures p == 0 ==> mem == old(mem) && chunks == old(chunks) && dv == old(dv) && dvsize == old(dvsize)
      ensures p == 0 ==> BinsPassed(chunks, dv, nb)
    {
      hide Inv, Given, BinMap.Marked, BinMap.ShiftRight, BinMap.ShiftLeft, BinMap.LeftBits,
        BinMap.LeastBit, BinMap.Bit, BinMap.Bit2Idx, BinMap.And, NoFit, BinsPassed;
      var idx: nat := nb / 8;
      var smallbits := BinMap.ShiftRight(smallmap, idx);
      ghost var k := BinMap.SmallPick(smallmap, idx);
      if top == 0 {
        BinMap.ZeroMap(k);
        NothingBinned(chunks, dv, nb);
      } else {
        SmallMarks();
      }
      if smallbits & 3 != 0 {  // remainderless fit to a small bin
        idx := idx + (!smallbits & 1) as int;
        p, s := TakeSnug(idx, nb);
        return;
      } else if nb > dvsize {
        if smallbits != 0 {  // a chunk of the next small bin that has one
          var leftbits := BinMap.And(BinMap.LeftBits(BinMap.Bit(idx)), BinMap.ShiftLeft(smallbits, idx));
          var i := BinMap.Bit2Idx(BinMap.LeastBit(leftbits)) as int;
          p := TakeNext(i, nb);
          return p, nb;
        } else if treemap != 0 {
          p, s := TakeTree(nb);
          return;
        }
      }
      if top != 0 { NoSmallTaken(nb, k); }
      p, s := 0, 0;
    }

    lemma NoSmallTaken(nb: int, k: nat)
      requires Ready() && nb % 8 == 0 && MIN_CHUNK <= nb < LARGE && |small| == 32 && k <= 32
      requires (forall j :: nb / 8 <= j < k ==> small[j] == []) && (k == 32 || k >= nb / 8 + 2)
      requires nb <= dvsize || (k == 32 && NoFit(trees, nb))
      ensures BinsPassed(chunks, dv, nb)
    {
      hide Sound, BinsPassed, OnlyVictim, NoFit;
      NoVictim();
      SmallPassed(mem, Now(Spare()), dv, nb);
    }

    /** A padded request from the designated victim, from top, or from the system. */
    method FromVictimOrTop(nb: int) returns (p: int, ghost s: int)
      requires Valid() && MIN_CHUNK <= nb < W32 && (nb % 8 == 0 || nb == W32 - 1)
      modifies this, brk
      ensures Valid() && brk.Pages() == old(brk.Pages())
      ensures p != 0 ==> s >= nb && Took(old(mem), mem, old(chunks), chunks, p, s)
      ensures p != 0 ==>
        if VictimFits(old(chunks), old(dv), nb) then p == old(dv) && s == Fit(old(chunks)[old(dv)].size, nb)
        else p == old(End()) && s == nb
      ensures p != 0 ==> VictimNext(old(chunks), old(dv), old(dvsize), nb, p, dv, dvsize) && TopNext(nb, p)
      ensures p == 0 ==> Same(old(mem), mem, old(chunks), chunks) && dv == old(dv) && dvsize == old(dvsize)
      ensures p == 0 ==> !VictimFits(old(chunks), old(dv), nb) && old(topsize) <= nb
      ensures p == 0 ==>
        brk.heapSize == old(brk.heapSize) && brk.heapSize + nb + SYS_ALLOC_PADDING + PAGE > PAGE * brk.Pages()
    {
      hide Sound, Kept, Took, Live, OnlyVictim, Same;
      ghost var m0, c0 := mem, chunks;
      VictimIs(nb);
      if top != 0 { DvBound(mem, Now(Spare()), dv, dvsize); TopHead(mem, Now(Spare())); }
      EndIsNoChunk();
      if nb <= dvsize {
        s := Fit(dvsize, nb);
        p := SplitDv(nb);
        TookAligned(m0, mem, Now(Spare()), c0, p, s);
        return p, s;
      } else if nb < topsize {
        p := SplitTop(nb);
        TookAligned(m0, mem, Now(Spare()), c0, p, nb);
        return p, nb;
      }
      p := SysAlloc(nb);
      s := nb;
    }

    lemma EndIsNoChunk()
      requires Valid()
      ensures End() !in chunks
    {
      hide Sound;
      if top != 0 && top in chunks { SizeBound(mem, Now(Spare()), top); }
    }

    /** A padded large request from the tree bins, or 0 with nothing changed. */
    method FromBinsLarge(nb: int) returns (p: int, ghost s: int)
      requires Valid() && nb % 8 == 0 && LARGE <= nb < W32
      modifies `mem, `smallmap, `small, `treemap, `trees, `chunks
      ensures Valid()
      ensures p != 0 ==> Given(nb, p, s)
      ensures p == 0 ==> mem == old(mem) && chunks == old(chunks) && BinsPassed(chunks, dv, nb)
    {
      hide Sound, Kept, Took, Live, Has, TreeIndexOf, NoBetter, NoFit, BinsPassed, FromBin, OnlyVictim;
      ghost var m0, h := mem, Now(Spare());
      p, s := 0, 0;
      if top == 0 {
        NothingBinned(chunks, dv, nb);
      } else {
        NoVictim();
        SmallMarks();
      }
      if treemap != 0 {
        p, s := TmallocLarge(nb);
        if p != 0 {
          TreeMemberOf(m0, h, TreeIndexOf(s), p, s);
          LargeTaken(m0, h, dv, nb, p);
        }
        s := Fit(s, nb);
      }
      if p == 0 && top != 0 {
        LargePassed(m0, h, dv, nb);
      }
    }

    /** The size of the chunk for a request. */
    static function ChunkFor(bytes: int): int {
      if bytes < MIN_REQUEST then MIN_CHUNK else if bytes >= MAX_REQUEST then W32 - 1 else PadRequest(bytes)
    }

    method Allocate(bytes: int) returns (c: int, ghost s: int)
      requires Valid() && 0 <= bytes < W32
      modifies this, brk
      ensures Valid() && brk.Pages() == old(brk.Pages())
      ensures c != 0 ==> s >= ChunkFor(bytes) && Took(old(mem), mem, old(chunks), chunks, c, s)
      ensures c != 0 ==> Placed(old(chunks), old(dv), old(End()), ChunkFor(bytes), c, s)
      ensures c != 0 ==> VictimNext(old(chunks), old(dv), old(dvsize), ChunkFor(bytes), c, dv, dvsize)
      ensures c != 0 ==> TopNext(ChunkFor(bytes), c)
      ensures c == 0 ==> Same(old(mem), mem, old(chunks), chunks) && dv == old(dv) && dvsize == old(dvsize)
      ensures c == 0 ==> Exhausted(old(chunks), old(topsize), ChunkFor(bytes))
      ensures c == 0 ==>
        brk.heapSize == old(brk.heapSize)
          && brk.heapSize + ChunkFor(bytes) + SYS_ALLOC_PADDING + PAGE > PAGE * brk.Pages()
    {
      hide Valid, Took, Same, PadRequest, FromBin, BinsPassed, VictimFits, VictimNext, Fit, Exhausted;
      if bytes < MAX_REQUEST { Padded(bytes); }
      EndIsNoChunk();
      ghost var c0, v, t := chunks, dv, topsize;
      var nb: int;
      if bytes <= MAX_SMALL_REQUEST {
        nb := if bytes < MIN_REQUEST then MIN_CHUNK else PadRequest(bytes);
        c, s := FromBinsSmall(nb);
        if c != 0 {
          FromBinIs(c0, v, nb, c);
          return c, s;
        }
      } else if bytes >= MAX_REQUEST {
        nb := W32 - 1;  // too big: fails in the system allocation
        TooBig();
      } else {
        nb := PadRequest(bytes);
        c, s := FromBinsLarge(nb);
        if c != 0 {
          FromBinIs(c0, v, nb, c);
          return c, s;
        }
      }
      c, s := FromVictimOrTop(nb);
      if c == 0 { PassedExhausted(c0, v, t, nb); }
    }

    /** No chunk is as large as the request that is bound to fail. */
    lemma TooBig()
      requires Valid()
      ensures BinsPassed(chunks, dv, W32 - 1)
    {
      hide Sound;
      forall q | q in chunks ensures chunks[q].size < W32 - 1 { SizeBound(mem, Now(Spare()), q); }
    }

    /** malloc: the address of at least `bytes` bytes that were not in use before, aligned to 8, or 0 when
        there is not that much memory; s is the size of the chunk behind it. */
    method Malloc(bytes: int) returns (p: int, ghost s: int)
      requires Valid() && 0 <= bytes < W32
      modifies this, brk
      ensures Valid() && brk.Pages() == old(brk.Pages())
      ensures p != 0 ==> p % 8 == 0 && p + bytes <= (p - FD) + s + HEAD && s >= ChunkFor(bytes)
      ensures p != 0 ==> Took(old(mem), mem, old(chunks), chunks, p - FD, s)
      ensures p != 0 ==> Placed(old(chunks), old(dv), old(End()), ChunkFor(bytes), p - FD, s)
      ensures p != 0 ==> VictimNext(old(chunks), old(dv), old(dvsize), ChunkFor(bytes), p - FD, dv, dvsize)
      ensures p != 0 ==> TopNext(ChunkFor(bytes), p - FD)
      ensures !Exhausted(old(chunks), old(topsize), ChunkFor(bytes)) ==> brk.heapSize == old(brk.heapSize)
      ensures p == 0 ==> Same(old(mem), mem, old(chunks), chunks) && dv == old(dv) && dvsize == old(dvsize)
      ensures p == 0 ==> Exhausted(old(chunks), old(topsize), ChunkFor(bytes))
      ensures p == 0 ==> brk.heapSize == old(brk.heapSize) && brk.heapSize + bytes + MALLOC_SLACK > PAGE * brk.Pages()
    {
      hide Sound, Kept, Live, Took, Same, PadRequest, Placed, VictimNext, Exhausted;
      ghost var m0, c0, v, e, t := mem, chunks, dv, End(), topsize;
      if bytes < MAX_REQUEST { Padded(bytes); }
      EndIsNoChunk();
      var c: int;
      c, s := Allocate(bytes);
      if c == 0 {
        return 0, 0;
      }
      if c == e && t <= ChunkFor(bytes) { FromTop(c0, v, e, t, ChunkFor(bytes), s); }
      TookSome(m0, mem, c0, chunks, c, s);
      TookAligned(m0, mem, Now(Spare()), c0, c, s);
      p := c + FD;
    }

    // ----- free -----

    /** The loose chunks while p0 is being released together with what precedes it from p on. */
    ghost function Loosened(p0: int, p: int): set<int>
      reads this
    {
      Spare() + (if p == p0 then {} else {p})
    }

    /** p0, of which nothing but its neighbourhood has been looked at, is about to be released; p is p0 or
        the free chunk in front of it, out of its bin, and psize reaches from p to the end of p0. */
    ghost predicate Releasing(p0: int, p: int, psize: int)
      reads this
    {
      && (if dvsize == 0 then dv == 0 else dv in chunks && chunks[dv].size == dvsize > 0)
      && Inv(Loosened(p0, p)) && Released(Now(Loosened(p0, p)), p0, p)
      && psize == p0 + chunks[p0].size - p
    }

    /** Everything becomes free in place: the successor is in use. */
    method FreeInPlace(p0: int, p: int, psize: int, next: int)
      requires Releasing(p0, p, psize) && next == p0 + chunks[p0].size && next in chunks && chunks[next].inuse
      modifies `mem, `chunks
      ensures Inv(Loosened(p0, p) + {p}) && Gave(old(mem), mem, old(chunks), chunks, p0)
      ensures p in chunks && chunks[p] == Chunk(psize, false, true)
      ensures forall q :: q in old(Loosened(p0, p)) && q != p ==>
        q in old(chunks) && q in chunks && chunks[q] == old(chunks)[q]
    {
      hide Sound, KeptBut, Live, AfterFree, Released, WithoutPinuse;
      ghost var h := Now(Loosened(p0, p));
      FreeSound(mem, SetFree(mem, p, psize, next), h, p0, p);
      FreeLoose(mem, h, p0, p);
      AfterFreeFields(h, p, next);
      mem := Wr(mem, next + HEAD, WithoutPinuse(Rd(mem, next + HEAD)));
      mem := Wr(mem, p + HEAD, psize + 1);
      mem := Wr(mem, p + psize, psize);
      chunks := AfterFree(h, p, next).chunks;
      assert Now(Loosened(p0, p) + {p}) == AfterFree(h, p, next);
    }

    /** Everything becomes free together with the free chunk behind it, which is in no bin any more. */
    method FreeWithNext(p0: int, p: int, size: int, next: int, ghost loose: set<int>)
      requires Inv(loose) && Released(Now(loose), p0, p) && next == p0 + chunks[p0].size && next in loose
        && next in chunks
      requires size == next + chunks[next].size - p
      modifies `mem, `chunks
      ensures Inv(loose - {next} + {p}) && Gave(old(mem), mem, old(chunks), chunks, p0)
      ensures p in chunks && chunks[p] == Chunk(size, false, true)
      ensures forall q :: q in loose && q != p && q != next ==>
        q in old(chunks) && q in chunks && chunks[q] == old(chunks)[q]
    {
      hide Sound, KeptBut, Live, AfterFree, Released;
      ghost var h := Now(loose);
      MergeSound(mem, SetSizeOfFree(mem, p, size), h, p0, p, next);
      MergeLoose(mem, h, p0, p, next);
      AfterFreeFields(h, p, p + size);
      mem := Wr(mem, p + HEAD, size + 1);
      mem := Wr(mem, p + size, size);
      chunks := AfterFree(h, p, p + size).chunks;
      assert Now(loose - {next} + {p}) == AfterFree(h, p, p + size);
    }

    /** Everything becomes part of top. */
    method FreeIntoTop(p0: int, p: int, psize: int)
      requires Releasing(p0, p, psize) && top == p0 + chunks[p0].size
      modifies `mem, `chunks, `top, `topsize, `dv, `dvsize
      ensures Ready() && Gave(old(mem), mem, old(chunks), chunks, p0)
      ensures top == p && top + topsize == old(top + topsize)
      ensures if p == old(dv) then dv == dvsize == 0 else dv == old(dv) && dvsize == old(dvsize)
    {
      hide Sound, KeptBut, Live, AfterDrop, Released;
      ghost var h, spare := Now(Loosened(p0, p)), Spare();
      var tsize := topsize + psize;
      TopMergeSound(mem, Wr(mem, p + HEAD, tsize + 1), h, p0, p);
      TopLoose(mem, h, p0, p);
      AfterDropFields(h, p, tsize);
      topsize := tsize;
      top := p;
      mem := Wr(mem, p + HEAD, tsize + 1);
      chunks := AfterDrop(h, p, tsize).chunks;
      if dvsize != 0 { assert dv in h.loose; }
      if p == dv {
        dv := 0;
        dvsize := 0;
      }
      assert Spare() == h.loose - {p};
      assert Now(Spare()) == AfterDrop(h, p, tsize);
    }

    /** The successor is in use: the whole becomes a free chunk, the victim's if the victim was in front. */
    method FreeAlone(p0: int, p: int, psize: int, next: int)
      requires Releasing(p0, p, psize) && next == p0 + chunks[p0].size && next in chunks && chunks[next].inuse
      modifies `mem, `smallmap, `small, `treemap, `trees, `chunks, `dvsize
      ensures Ready() && Gave(old(mem), mem, old(chunks), chunks, p0)
      ensures dvsize == if p == dv then psize else old(dvsize)
    {
      hide Sound, KeptBut, Live, Released, Gave, Kept;
      ghost var m0, c0, loose := mem, chunks, Loosened(p0, p);
      ReleasedPlace(mem, Now(loose), p0, p);
      FreeInPlace(p0, p, psize, next);
      ghost var m1 := mem;
      if p == dv {
        dvsize := psize;
        assert loose + {p} == Spare();
      } else {
        InsertChunk(p, psize, loose + {p});
        GaveThenSame(m0, m1, mem, c0, chunks, chunks, p0);
        assert loose + {p} - {p} == Spare();
        assert dvsize != 0 ==> dv in loose;
      }
    }

    /** The successor is the victim: the whole becomes the victim. */
    method FreeIntoDv(p0: int, p: int, psize: int)
      requires Releasing(p0, p, psize) && dv == p0 + chunks[p0].size
      modifies `mem, `chunks, `dv, `dvsize
      ensures Ready() && Gave(old(mem), mem, old(chunks), chunks, p0)
      ensures dv == p && dvsize == old(dvsize) + psize
    {
      hide Sound, KeptBut, Live, Released, Gave, Kept;
      ghost var loose, spare := Loosened(p0, p), Spare();
      ReleasedPlace(mem, Now(loose), p0, p);
      var dsize := dvsize + psize;
      FreeWithNext(p0, p, dsize, dv, loose);
      assert loose - {dv} + {p} == {p};
      dvsize := dsize;
      dv := p;
    }

    /** The successor is free and in a bin. */
    method FreeWithBinned(p0: int, p: int, psize0: int, next: int)
      requires Releasing(p0, p, psize0) && next == p0 + chunks[p0].size && next in chunks && !chunks[next].inuse
        && next != dv
      modifies `mem, `smallmap, `small, `treemap, `trees, `chunks, `dvsize
      ensures Ready() && Gave(old(mem), mem, old(chunks), chunks, p0)
      ensures dvsize == (if p == dv then psize0 + old(chunks)[next].size else old(dvsize)) && old(chunks)[next].size > 0
    {
      hide Sound, KeptBut, Live, Released, Gave, Kept;
      ghost var m0, c0, loose := mem, chunks, Loosened(p0, p);
      ReleasedPlace(mem, Now(loose), p0, p);
      ghost var h := Now(loose);
      ChunkRead(mem, h, next);
      var nsize := ChunkSize(mem, next);
      var psize := psize0 + nsize;
      UnlinkChunk(next, nsize, loose);
      ghost var m1, wide := mem, loose + {next};
      ReleasedWider(h, Now(wide), p0, p);
      FreeWithNext(p0, p, psize, next, wide);
      ghost var m2 := mem;
      SameThenGave(m0, m1, m2, c0, c0, chunks, p0) by { SameKept(m0, m1, c0); }
      assert wide - {next} + {p} == loose + {p};
      if p == dv {
        dvsize := psize;
        assert loose + {p} == Spare();
      } else {
        InsertChunk(p, psize, loose + {p});
        GaveThenSame(m0, m2, mem, c0, chunks, chunks, p0) by { SameKept(m2, mem, chunks); }
        assert loose + {p} - {p} == Spare();
        assert dvsize != 0 ==> dv in wide;
      }
    }

    /** Consolidate a chunk that is given up with its free neighbours, and bin the result; tells whether it
        went to top. */
    method DisposeChunk(p0: int, psize0: int) returns (intoTop: bool)
      requires Ready() && p0 in chunks && chunks[p0].inuse && chunks[p0].size == psize0
      modifies `mem, `smallmap, `small, `treemap, `trees, `chunks, `dv, `dvsize, `top, `topsize
      ensures Ready() && Gave(old(mem), mem, old(chunks), chunks, p0)
      ensures top + topsize == old(top + topsize) && top > 0
      ensures (intoTop <==> p0 + psize0 == old(top)) && (!intoTop ==> top == old(top))
      ensures VictimGrown(old(dv), old(dvsize), p0, psize0, intoTop, dv, dvsize)
    {
      hide Sound, KeptBut, Live, Released, Gave, Kept;
      ghost var m0, c0, spare, h := mem, chunks, Spare(), Now(Spare());
      ChunkRead(mem, h, p0);
      TopHead(mem, h);
      if dvsize != 0 { NoOtherBefore(mem, h, p0, dv); }
      var next := p0 + psize0;
      var p, psize := p0, psize0;
      intoTop := false;
      KeptSelf(mem, chunks);
      if !Pinuse(mem, p0) {
        ghost var q := PrevChunk(mem, h, p0);
        var prevsize := Rd(mem, p0);
        if !Cinuse(mem, p0) {
          assert false;  // a chunk mapped on its own
        }
        p := p0 - prevsize;
        psize := psize + prevsize;
        ChunkRead(mem, h, q);
        if p >= leastAddr {
          if p != dv {
            UnlinkChunk(p, prevsize, spare);
            ReleasedBehind(Now(spare + {p}), p0, p);
          } else {
            ReleasedBehind(h, p0, p);
            assert Loosened(p0, p) == spare;
            if Rd(mem, next + HEAD) / 2 % 2 == 1 && Rd(mem, next + HEAD) % 2 == 1 {
              NextRead(mem, h, p0);
              FreeAlone(p0, p, psize, next);
              return;
            }
          }
        } else {
          assert false;  // corruption error
        }
      } else {
        ReleasedAlone(h, p0);
        assert Loosened(p0, p) == spare;
      }
      ghost var m1 := mem;
      SameKept(m0, m1, c0);
      if next >= leastAddr {
        NextRead(mem, Now(Loosened(p0, p)), p0);
        if !Cinuse(mem, next) {
          if next == top {
            FreeIntoTop(p0, p, psize);
            intoTop := true;
          } else if next == dv {
            FreeIntoDv(p0, p, psize);
          } else {
            FreeWithBinned(p0, p, psize, next);
          }
        } else {
          FreeAlone(p0, p, psize, next);
        }
      } else {
        assert false;  // corruption error
      }
      SameThenGave(m0, m1, mem, c0, c0, chunks, p0);
      assert old(dvsize) == 0 ==> dv == old(dv) && dvsize == old(dvsize);
      assert old(dvsize) != 0 && old(dv) + old(dvsize) != p0 ==> p != old(dv);
    }

    /** free: the chunk is live no more; every other live chunk keeps its place, size and contents. */
    method Free(p: int)
      requires Valid() && (p != 0 ==> p - FD in Live(chunks))
      modifies this, brk
      ensures Valid() && brk.Pages() == old(brk.Pages())
      ensures p == 0 ==> mem == old(mem) && chunks == old(chunks)
      ensures p != 0 ==> Gave(old(mem), mem, old(chunks), chunks, p - FD)
      ensures brk.heapSize <= old(brk.heapSize)
      ensures p != 0 ==> var c, s := p - FD, old(chunks)[p - FD].size; var t := old(top + topsize) - top;
        && (c + s != old(top) ==> top == old(top))
          && VictimGrown(old(dv), old(dvsize), c, s, c + s == old(top), dv, dvsize)
        && if c + s == old(top) && t > old(trimCheck) && t > TOP_FOOT_SIZE then
             TOP_FOOT_SIZE < topsize <= TOP_FOOT_SIZE + PAGE && brk.heapSize == old(brk.heapSize) - (t - topsize)
           else topsize == t && brk.heapSize == old(brk.heapSize)
    {
      hide Sound, KeptBut, Gave, Kept, VictimGrown;
      if p == 0 {
        return;
      }
      ghost var m0, c0, h := mem, chunks, Now(Spare());
      var c := p - FD;
      ChunkRead(mem, h, c);
      TopHead(mem, h);
      NextRead(mem, h, c);
      if c >= leastAddr && (Cinuse(mem, c) || !Pinuse(mem, c)) {
        var psize := ChunkSize(mem, c);
        var next := c + psize;
        if c < next && Pinuse(mem, next) {
          var intoTop := DisposeChunk(c, psize);
          if intoTop && topsize > trimCheck {
            ghost var m1 := mem;
            var _ := SysTrim(0);
            SameKept(m1, mem, chunks);
            GaveThenSame(m0, m1, mem, c0, chunks, chunks, c);
          }
          return;
        }
      }
      assert false;  // usage error
    }

    // ----- resizing in place -----

    /** Split the end off a chunk in use, and release it. */
    method TrimTail(p: int, nb: int, s: int)
      requires Ready() && p in chunks && chunks[p].inuse && chunks[p].size == s
      requires nb % 8 == 0 && nb >= MIN_CHUNK && s - nb >= MIN_CHUNK
      modifies `mem, `smallmap, `small, `treemap, `trees, `chunks, `dv, `dvsize, `top, `topsize
      ensures Ready() && Resized(old(mem), mem, old(chunks), chunks, p, nb)
      ensures top + topsize == old(top + topsize) && top > 0
    {
      hide Sound, KeptBut, Live, Gave, Resized, SetInuse;
      ghost var m0, c0, spare, h := mem, chunks, Spare(), Now(Spare());
      HalvesSound(mem, h, p, nb);
      Inside(mem, h, p);
      var rsize := s - nb;
      var r := p + nb;
      mem := SetInuse(mem, p, nb);
      mem := SetInuse(mem, r, rsize);
      chunks := Split(chunks, p, nb);
      ghost var m1, c1 := mem, chunks;
      assert Now(spare) == AfterSplit(h, p, nb);
      var _ := DisposeChunk(r, rsize);
      TrimmedResult(m0, m1, mem, c0, c1, chunks, p, nb, s);
    }

    /** A chunk in use takes the start of top. */
    method ExtendIntoTop(p: int, oldsize: int, nb: int)
      requires Ready() && p in chunks && chunks[p].inuse && chunks[p].size == oldsize && p + oldsize == top
      requires nb % 8 == 0 && oldsize < nb < oldsize + topsize
      modifies `mem, `chunks, `top, `topsize
      ensures Ready() && Resized(old(mem), mem, old(chunks), chunks, p, nb)
      ensures top + topsize == old(top + topsize) && top > 0
    {
      hide Sound, KeptBut, Live, Resized, SetInuse;
      ghost var spare, h := Spare(), Now(Spare());
      ChunkRead(mem, h, p);
      Inside(mem, h, p);
      var newsize := oldsize + topsize;
      ExtendSound(mem, Wr(SetInuse(mem, p, nb), p + nb + HEAD, newsize - nb + 1), h, p, nb);
      var newtopsize := newsize - nb;
      var newtop := p + nb;
      mem := SetInuse(mem, p, nb);
      mem := Wr(mem, newtop + HEAD, newtopsize + 1);
      top := newtop;
      topsize := newtopsize;
      chunks := chunks[p := chunks[p].(size := nb)];
      assert Now(spare) == AfterExtend(h, p, nb);
    }

    /** A chunk in use takes the whole of the loose chunk behind it. */
    method JoinWhole(p: int, newsize: int, ghost n: int, ghost loose: set<int>)
      requires Inv(loose) && p in chunks && chunks[p].inuse && n == p + chunks[p].size && n in loose && n in chunks
      requires newsize == chunks[p].size + chunks[n].size
      modifies `mem, `chunks
      ensures Inv(loose - {n}) && Resized(old(mem), mem, old(chunks), chunks, p, newsize)
      ensures forall q :: q in loose && q != n ==> q in old(chunks) && q in chunks && chunks[q] == old(chunks)[q]
    {
      hide Sound, KeptBut, Live, Resized, SetInuse, AfterJoin;
      ghost var h := Now(loose);
      JoinSound(mem, SetInuse(mem, p, newsize), h, p, n);
      AfterJoinFields(h, p, p + newsize);
      mem := SetInuse(mem, p, newsize);
      chunks := AfterJoin(h, p, p + newsize).chunks;
      assert Now(loose - {n}) == AfterJoin(h, p, p + newsize);
    }

    /** A chunk in use takes nb bytes together with the loose chunk behind it; the rest is a chunk in use. */
    method JoinPart(p: int, nb: int, newsize: int, ghost n: int, ghost loose: set<int>)
      returns (ghost m1: Mem, ghost c1: Chunks)
      requires Inv(loose) && p in chunks && chunks[p].inuse && n == p + chunks[p].size && n in loose && n in chunks
      requires newsize == chunks[p].size + chunks[n].size && nb % 8 == 0 && nb >= MIN_CHUNK && newsize - nb >= MIN_CHUNK
      modifies `mem, `chunks
      ensures Inv(loose - {n}) && p + nb in chunks && chunks[p + nb] == Chunk(newsize - nb, true, true)
      ensures PartTaken(old(mem), m1, mem, old(chunks), c1, chunks, p, nb, newsize)
      ensures mem == Halves(old(mem), p, nb, newsize)
      ensures forall q :: q in loose && q != n ==> q in old(chunks) && q in chunks && chunks[q] == old(chunks)[q]
    {
      hide Sound, PartTaken, SetInuse, AfterJoin, Halves;
      ghost var m0, h := mem, Now(loose);
      ghost var h1 := AfterJoin(h, p, p + newsize);
      m1, c1 := SetInuse(mem, p, newsize), h1.chunks;
      JoinPartSound(mem, h, p, nb, n);
      mem := SetInuse(mem, p, nb);
      mem := SetInuse(mem, p + nb, newsize - nb);
      HalvesIs(m0, p, nb, newsize);
      chunks := Split(h1.chunks, p, nb);
      assert Now(loose - {n}) == AfterSplit(h1, p, nb);
    }

    /** A chunk in use grows into the free, binned chunk behind it. */
    method ExtendIntoBinned(p: int, oldsize: int, nb: int, next: int)
      requires Ready() && p in chunks && chunks[p].inuse && chunks[p].size == oldsize && next == p + oldsize
      requires next in chunks && !chunks[next].inuse && next != dv && nb % 8 == 0
        && oldsize < nb <= oldsize + chunks[next].size
      modifies `mem, `smallmap, `small, `treemap, `trees, `chunks, `dv, `dvsize, `top, `topsize
      ensures Ready() && Resized(old(mem), mem, old(chunks), chunks, p, Fit(oldsize + old(chunks)[next].size, nb))
      ensures top + topsize == old(top + topsize) && top > 0
    {
      hide Sound, Live, Gave, Resized, SetInuse, Halves, Kept, PartTaken;
      ghost var m0, c0, spare, h := mem, chunks, Spare(), Now(Spare());
      ChunkRead(mem, h, next);
      ChunkRead(mem, h, p);
      TopHead(mem, h);
      var nextsize := ChunkSize(mem, next);
      var rsize := oldsize + nextsize - nb;
      UnlinkChunk(next, nextsize, spare);
      ghost var ma := mem;
      if rsize < MIN_CHUNK {
        var newsize := oldsize + nextsize;
        JoinWhole(p, newsize, next, spare + {next});
        SameThenResized(m0, ma, mem, c0, chunks, p, newsize);
        assert spare + {next} - {next} == Spare();
        assert dvsize != 0 ==> dv in spare + {next};
      } else {
        ghost var m1, c1 := JoinPart(p, nb, oldsize + nextsize, next, spare + {next});
        assert spare + {next} - {next} == Spare();
        assert dvsize != 0 ==> dv in spare + {next};
        ghost var m2, c2 := mem, chunks;
        LiveIs(c0, p);
        var _ := DisposeChunk(p + nb, rsize);
        PartResult(ma, m1, m2, mem, c0, c1, c2, chunks, p, nb, oldsize + nextsize);
        SameThenResized(m0, ma, mem, c0, chunks, p, nb);
      }
    }

    /** A chunk in use grows into the designated victim behind it. */
    method ExtendIntoDv(p: int, oldsize: int, nb: int)
      requires Ready() && p in chunks && chunks[p].inuse && chunks[p].size == oldsize && dv == p + oldsize
      requires nb % 8 == 0 && oldsize < nb <= oldsize + dvsize
      modifies `mem, `chunks, `dv, `dvsize
      ensures Ready() && Resized(old(mem), mem, old(chunks), chunks, p, Fit(oldsize + old(dvsize), nb))
    {
      hide Sound, Live, Resized, SetInuse, SetSizeOfFree, WithoutPinuse, AfterFree, AfterJoin;
      ghost var m0, c0, spare, h := mem, chunks, Spare(), Now(Spare());
      ChunkRead(mem, h, p);
      var dvs := dvsize;
      var dsize := oldsize + dvs - nb;
      if dsize >= MIN_CHUNK {
        var r := p + nb;
        var n := r + dsize;
        ExtendDvSound(mem, h, p, nb, dv);
        mem := SetInuse(mem, p, nb);
        mem := SetSizeOfFree(mem, r, dsize);
        mem := Wr(mem, n + HEAD, WithoutPinuse(Rd(mem, n + HEAD)));
        ExtendDvStores(m0, p, nb, oldsize + dvs);
        ghost var h3 := AfterFree(AfterSplit(AfterJoin(h, p, n), p, nb), r, n);
        chunks := h3.chunks;
        dvsize := dsize;
        dv := r;
        assert Now(Spare()) == h3;
      } else {  // exhaust the victim
        var newsize := oldsize + dvs;
        JoinWhole(p, newsize, dv, spare);
        dvsize := 0;
        dv := 0;
        assert spare - {old(dv)} == Spare();
      }
    }

    /** Resize a chunk where it is: shrink it, or let it grow into top, the victim or the free chunk behind
        it; 0 when it cannot grow. */
    method TryReallocChunk(p: int, nb: int) returns (newp: int, ghost s: int)
      requires Ready() && p in chunks && chunks[p].inuse && nb % 8 == 0 && MIN_CHUNK <= nb < W32
      modifies `mem, `smallmap, `small, `treemap, `trees, `chunks, `dv, `dvsize, `top, `topsize
      ensures Ready() && top + topsize == old(top + topsize) && top > 0
      ensures newp != 0 <==> Grows(old(chunks), old(top), old(topsize), p, nb)
      ensures newp != 0 ==> newp == p && s >= nb && Resized(old(mem), mem, old(chunks), chunks, p, s)
      ensures newp != 0 ==> s == GrownTo(old(chunks), old(top), p, nb)
      ensures newp == 0 ==> mem == old(mem) && chunks == old(chunks) && dv == old(dv) && dvsize == old(dvsize)
      ensures newp == 0 ==> top == old(top)
    {
      hide Sound, Live, Resized;
      ghost var h := Now(Spare());
      newp, s := 0, 0;
      ChunkRead(mem, h, p);
      TopHead(mem, h);
      NextRead(mem, h, p);
      DvBound(mem, h, dv, dvsize);
      var oldsize := ChunkSize(mem, p);
      var next := p + oldsize;
      if p >= leastAddr && (Cinuse(mem, p) || !Pinuse(mem, p)) && p < next && Pinuse(mem, next) {
        if !Cinuse(mem, p) && !Pinuse(mem, p) {
          assert false;  // a chunk mapped on its own
        } else if oldsize >= nb {
          var rsize := oldsize - nb;
          if rsize >= MIN_CHUNK {
            TrimTail(p, nb, oldsize);
            s := nb;
          } else {
            s := oldsize;
            ResizedSelf(mem, chunks, p);
          }
          newp := p;
        } else if next == top {
          if oldsize + topsize > nb {
            ExtendIntoTop(p, oldsize, nb);
            newp, s := p, nb;
          }
        } else if next == dv {
          LooseIs(mem, h, dv);
          if oldsize + dvsize >= nb {
            s := Fit(oldsize + dvsize, nb);
            ExtendIntoDv(p, oldsize, nb);
            newp := p;
          }
        } else if !Cinuse(mem, next) {
          ChunkRead(mem, h, next);
          if oldsize + ChunkSize(mem, next) >= nb {
            s := Fit(oldsize + chunks[next].size, nb);
            ExtendIntoBinned(p, oldsize, nb, next);
            newp := p;
          }
        }
      } else {
        assert false;  // usage error
      }
    }

    /** memcpy between ranges that do not meet. */
    method CopyBytes(dst: int, src: int, n: int)
      requires 0 <= n && (dst + Words(n) <= src || src + Words(n) <= dst)
      modifies `mem
      ensures Carried(old(mem), mem, src, dst, n)
      ensures forall w :: w < dst || dst + Words(n) <= w ==> Rd(mem, w) == old(Rd(mem, w))
    {
      hide Merge, Carried;
      ghost var m0 := mem;
      Rounded(n);
      for k := 0 to n / 4
        invariant forall j :: 0 <= j < k ==> Rd(mem, dst + 4 * j) == Rd(m0, src + 4 * j)
        invariant forall w :: w < dst || dst + 4 * k <= w ==> Rd(mem, w) == Rd(m0, w)
      {
        mem := Wr(mem, dst + 4 * k, Rd(mem, src + 4 * k));
      }
      if n % 4 != 0 {
        var t := n / 4 * 4;
        mem := Wr(mem, dst + t, Merge(Rd(mem, dst + t), Rd(mem, src + t), n % 4));
      }
      CopyCarried(m0, mem, src, dst, n);
    }

    /** Move an allocation: a new one, a copy, and the release of the old one. */
    method Relocate(oldmem: int, bytes: int) returns (p: int, ghost s: int)
      requires Valid() && 0 <= bytes < W32 && top != 0 && oldmem - FD in chunks && chunks[oldmem - FD].inuse
      modifies this, brk
      ensures Valid() && brk.Pages() == old(brk.Pages())
      ensures !Exhausted(old(chunks), old(topsize), ChunkFor(bytes)) ==> brk.heapSize <= old(brk.heapSize)
      ensures p == 0 ==> Same(old(mem), mem, old(chunks), chunks)
      ensures p == 0 ==> brk.heapSize == old(brk.heapSize) && brk.heapSize + bytes + MALLOC_SLACK > PAGE * brk.Pages()
      ensures p == 0 ==> Exhausted(old(chunks), old(topsize), ChunkFor(bytes))
      ensures p != 0 ==> Placed(old(chunks), old(dv), old(End()), ChunkFor(bytes), p - FD, s)
      ensures p != 0 ==> p % 8 == 0 && s >= bytes + HEAD
      ensures p != 0 ==> Replaced(old(mem), mem, old(chunks), chunks, oldmem - FD, p - FD, s,
        Smaller(old(chunks)[oldmem - FD].size - HEAD, bytes))
    {
      hide Sound, Live, Took, Gave, Same, Kept, KeptBut, Carried, Replaced, Words, Placed, Exhausted;
      ghost var m0, c0 := mem, chunks;
      var oldp := oldmem - FD;
      SizeBound(mem, Now(Spare()), oldp);
      p, s := Malloc(bytes);
      if p != 0 {
        ghost var m1, c1, h1 := mem, chunks, Now(Spare());
        TookSome(m0, m1, c0, c1, p - FD, s);
        TookPlaces(m0, m1, h1, c0, oldp, p - FD, s);
        ChunkRead(mem, h1, oldp);
        var oc := ChunkSize(mem, oldp) - HEAD;
        var n := if oc < bytes then oc else bytes;
        WordsFit(n, chunks[oldp].size);
        WordsFit(n, s);
        CopyBytes(p, oldmem, n);
        ghost var m2 := mem;
        OwnerMayWrite(m1, m2, h1, p - FD);
        assert Now(Spare()) == h1;
        Free(oldmem);
        MovedReplaced(m0, m1, m2, mem, c0, c1, chunks, oldp, p - FD, s, n);
      }
    }

    /** realloc: the allocation has at least `bytes` bytes afterwards, where it was or elsewhere, and starts
        with what it held before, as far as that fits; on failure nothing has changed.  It moves, or fails, only when
        the bytes cannot be had where it is. */
    method Realloc(oldmem: int, bytes: int) returns (p: int, ghost s: int)
      requires Valid() && 0 <= bytes < W32 && (oldmem != 0 ==> oldmem - FD in Live(chunks))
      modifies this, brk
      ensures Valid() && brk.Pages() == old(brk.Pages())
      ensures !Exhausted(old(chunks), old(topsize), ChunkFor(bytes)) ==> brk.heapSize <= old(brk.heapSize)
      ensures p == 0 ==> Same(old(mem), mem, old(chunks), chunks)
      ensures p != 0 ==> p % 8 == 0 && s >= bytes + HEAD
      ensures p != 0 && oldmem == 0 ==> Took(old(mem), mem, old(chunks), chunks, p - FD, s)
      ensures p != 0 && oldmem != 0 ==>
        Replaced(old(mem), mem, old(chunks), chunks, oldmem - FD, p - FD, s,
          Smaller(old(Live(chunks))[oldmem - FD] - HEAD, bytes))
      ensures
        if oldmem != 0 && bytes < MAX_REQUEST
          && Grows(old(chunks), old(top), old(topsize), oldmem - FD, ChunkFor(bytes))
        then p == oldmem && s == GrownTo(old(chunks), old(top), oldmem - FD, ChunkFor(bytes))
        else if p == 0 then Exhausted(old(chunks), old(topsize), ChunkFor(bytes))
        else Placed(old(chunks), old(dv), old(End()), ChunkFor(bytes), p - FD, s)
      ensures p == 0 ==> brk.heapSize == old(brk.heapSize) && brk.heapSize + bytes + MALLOC_SLACK > PAGE * brk.Pages()
    {
      hide Valid, Placed, Exhausted, Grows, GrownTo, Took, Replaced, Same, PadRequest, Live;
      p, s := 0, 0;
      SameIs(mem, chunks);
      if oldmem == 0 {
        p, s := Malloc(bytes);
      } else if bytes < MAX_REQUEST {
        p, s := ResizeOrMove(oldmem, bytes);
      } else {
        PagesBound();
        AllBelow();
      }
    }

    /** Where it is, or else with a new allocation. */
    method ResizeOrMove(oldmem: int, bytes: int) returns (p: int, ghost s: int)
      requires Valid() && 0 <= bytes < MAX_REQUEST && oldmem != 0 && oldmem - FD in Live(chunks)
      modifies this, brk
      ensures Valid() && brk.Pages() == old(brk.Pages())
      ensures !Exhausted(old(chunks), old(topsize), ChunkFor(bytes)) ==> brk.heapSize <= old(brk.heapSize)
      ensures p == 0 ==> Same(old(mem), mem, old(chunks), chunks)
      ensures p != 0 ==> p % 8 == 0 && s >= bytes + HEAD
      ensures p != 0 ==> Replaced(old(mem), mem, old(chunks), chunks, oldmem - FD, p - FD, s,
        Smaller(old(Live(chunks))[oldmem - FD] - HEAD, bytes))
      ensures if Grows(old(chunks), old(top), old(topsize), oldmem - FD, ChunkFor(bytes)) then
          p == oldmem && s == GrownTo(old(chunks), old(top), oldmem - FD, ChunkFor(bytes))
        else if p == 0 then Exhausted(old(chunks), old(topsize), ChunkFor(bytes))
        else Placed(old(chunks), old(dv), old(End()), ChunkFor(bytes), p - FD, s)
      ensures p == 0 ==> brk.heapSize == old(brk.heapSize) && brk.heapSize + bytes + MALLOC_SLACK > PAGE * brk.Pages()
    {
      hide Placed, Exhausted, Grows, GrownTo, Carried, Gave, HeadWord, Kept, KeptBut, LARGE, Live, MAX_SMALL_REQUEST,
        Owned, PadRequest, Replaced, Resized, Same, Sbrk.Pages, Sbrk.Valid, Sound, Spare, Tagged, Tiled, Took;
      ghost var m0, c0, h := mem, chunks, Now(Spare());
      Padded(bytes);
      var nb := if bytes < MIN_REQUEST then MIN_CHUNK else PadRequest(bytes);
      var oldp := oldmem - FD;
      LiveIs(chunks, oldp);
      Around(mem, h, oldp);
      var newp, s' := TryReallocChunk(oldp, nb);
      if newp != 0 {
        p, s := newp + FD, s';
        ResizedReplaced(m0, mem, c0, chunks, oldp, s, Smaller(Live(c0)[oldp] - HEAD, bytes));
      } else {
        p, s := Relocate(oldmem, bytes);
      }
    }

    /** A chunk that holds so many bytes is large enough for a request for them. */
    lemma LargeEnough(p: int, bytes: int)
      requires Valid() && p in Live(chunks) && 0 <= bytes && bytes + HEAD <= Live(chunks)[p]
      ensures bytes < MAX_REQUEST && Grows(chunks, top, topsize, p, ChunkFor(bytes)) && End() == top
    {
      hide Sound, Inv;
      LiveIs(chunks, p);
      ChunkBelow(p);
      if bytes >= MIN_REQUEST { Padded(bytes); }
    }

    lemma ChunkBelow(p: int)
      requires Valid() && p in chunks
      ensures MIN_CHUNK <= chunks[p].size <= W32 - PAGE && chunks[p].size % 8 == 0 && top != 0
    {
      hide Sound;
      SizeBound(mem, Now(Spare()), p);
      Around(mem, Now(Spare()), p);
      TopHead(mem, Now(Spare()));
    }

    /** What a request gets was not in use. */
    lemma PlacedFree(nb: int, c: int, s: int)
      requires Valid() && Placed(chunks, dv, End(), nb, c, s)
      ensures c !in Live(chunks)
    {
      hide Sound, FromBin, BinsPassed;
      EndIsNoChunk();
      if c in Live(chunks) {
        LiveIs(chunks, c);
        assert FromBin(chunks, dv, nb, c) ==> LeastFit(chunks, dv, nb, c) by { FromBinIs(chunks, dv, nb, c); }
        if c == dv && dvsize != 0 { LooseIs(mem, Now(Spare()), dv); }
        if top != 0 { NoVictim(); }
      }
    }

    /** Everything is smaller than the request that is bound to fail. */
    lemma AllBelow()
      requires Valid()
      ensures Exhausted(chunks, topsize, W32 - 1)
    {
      hide Sound;
      forall q | q in chunks ensures chunks[q].size < W32 - 1 { SizeBound(mem, Now(Spare()), q); }
      if top != 0 { TopBelow(mem, Now(Spare())); }
    }

    // ----- calloc -----

    /** memset to zero. */
    method ClearBytes(dst: int, n: int)
      requires 0 <= n
      modifies `mem
      ensures Zeroed(mem, dst, n)
      ensures forall w :: w < dst || dst + Words(n) <= w ==> Rd(mem, w) == old(Rd(mem, w))
    {
      hide Merge, Zeroed;
      ghost var m0 := mem;
      Rounded(n);
      for k := 0 to n / 4
        invariant forall j :: 0 <= j < k ==> Rd(mem, dst + 4 * j) == 0
        invariant forall w :: w < dst || dst + 4 * k <= w ==> Rd(mem, w) == Rd(m0, w)
      {
        mem := Wr(mem, dst + 4 * k, 0);
      }
      if n % 4 != 0 {
        var t := n / 4 * 4;
        mem := Wr(mem, dst + t, Merge(Rd(mem, dst + t), 0, n % 4));
      }
      ClearZeroed(m0, mem, dst, n);
    }

    /** The product, or a request that no allocation can meet when it does not fit a word. */
    static method CheckedProduct(n: int, size: int) returns (req: int)
      requires 0 <= n < W32 && 0 <= size < W32
      ensures req == if n * size < W32 - 1 then n * size else W32 - 1
    {
      req := 0;
      if n != 0 {
        req := n * size % W32;
        ProductCheck(n, size);
        if (n >= 0x1_0000 || size >= 0x1_0000) && req / n != size {
          req := W32 - 1;  // fails downstream
        }
      }
    }

    /** calloc: as malloc, for the product, which is computed in 32 bits but never taken for a smaller one,
        and with everything zero. */
    method Calloc(n: int, size: int) returns (p: int, ghost s: int)
      requires Valid() && 0 <= n < W32 && 0 <= size < W32
      modifies this, brk
      ensures Valid() && brk.Pages() == old(brk.Pages())
      ensures p != 0 ==> p % 8 == 0 && n * size + HEAD <= s < W32 && Zeroed(mem, p, n * size)
      ensures p != 0 ==> Took(old(mem), mem, old(chunks), chunks, p - FD, s)
      ensures p == 0 ==> Same(old(mem), mem, old(chunks), chunks)
      ensures var nb := ChunkFor(if n * size < W32 - 1 then n * size else W32 - 1);
        if p == 0 then Exhausted(old(chunks), old(topsize), nb)
        else Placed(old(chunks), old(dv), old(End()), nb, p - FD, s) && TopNext(nb, p - FD)
      ensures var nb := ChunkFor(if n * size < W32 - 1 then n * size else W32 - 1);
        !Exhausted(old(chunks), old(topsize), nb) ==> brk.heapSize == old(brk.heapSize)
      ensures p == 0 ==>
        brk.heapSize == old(brk.heapSize) && brk.heapSize + n * size + MALLOC_SLACK > PAGE * brk.Pages()
    {
      hide Sound, Took, Same, Zeroed, KeptBut, Words, Live, Placed, Exhausted, VictimNext;
      ghost var m0, c0 := mem, chunks;
      var req := CheckedProduct(n, size);
      p, s := Malloc(req);
      if p != 0 {
        ghost var m1, h := mem, Now(Spare());
        TookSome(m0, m1, c0, chunks, p - FD, s);
        TookAligned(m0, m1, h, c0, p - FD, s);
        TookIs(m0, m1, c0, chunks, p - FD, s);
        WordsFit(req, s);
        ClearBytes(p, req);
        OwnerMayWrite(m1, mem, h, p - FD);
        TookThenOwn(m0, m1, mem, c0, chunks, p - FD, s);
        assert Now(Spare()) == h;
      }
    }

    // ----- memalign -----

    /** Release the front of a chunk in use, n bytes. */
    method TrimLead(p: int, n: int, s: int)
      requires Ready() && p in chunks && chunks[p].inuse && chunks[p].size == s
      requires n % 8 == 0 && n >= MIN_CHUNK && s - n >= MIN_CHUNK
      modifies `mem, `smallmap, `small, `treemap, `trees, `chunks, `dv, `dvsize, `top, `topsize
      ensures Ready() && top + topsize == old(top + topsize) && top > 0
      ensures forall m, cs :: Took(m, old(mem), cs, old(chunks), p, s) ==> Took(m, mem, cs, chunks, p + n, s - n)
    {
      hide Sound, KeptBut, Live, Gave, Took, SetInuse, Halves;
      ghost var m0, c0, spare, h := mem, chunks, Spare(), Now(Spare());
      HalvesSound(mem, h, p, n);
      Inside(mem, h, p);
      SizeBound(mem, h, p);
      LeadStores(mem, p, n, s);
      var newp := p + n;
      mem := SetInuse(mem, newp, s - n);
      mem := SetInuse(mem, p, n);
      chunks := Split(chunks, p, n);
      ghost var m1, c1 := mem, chunks;
      assert Now(spare) == AfterSplit(h, p, n);
      var _ := DisposeChunk(p, n);
      forall m, cs | Took(m, m0, cs, c0, p, s) ensures Took(m, mem, cs, chunks, p + n, s - n) {
        LedResult(m, m0, m1, mem, cs, c0, c1, chunks, p, n, s);
      }
    }

    /** An address that is a multiple of the alignment; a is the power of two that the alignment is rounded up to. */
    method Memalign(alignment: int, bytes: int) returns (p: int, ghost s: int, ends: bool, ghost a: int)
      requires Valid() && 0 <= alignment < W32 && 0 <= bytes < W32
      modifies this, brk
      ensures Valid() && brk.Pages() == old(brk.Pages()) && (ends <==> alignment <= 0x8000_0000)
      ensures ends ==> PowerOfTwo(a) && alignment <= a && 8 <= a && (a < 2 * alignment || a <= MIN_CHUNK)
      ensures p != 0 ==> ends && p % 8 == 0 && p % a == 0 && bytes + HEAD <= s
      ensures p != 0 && alignment > 8 ==>
        AlignedPart(old(chunks), old(dv), old(End()), ChunkFor(AlignRequest(bytes, a)), a, p - FD)
        && s <= ChunkFor(bytes) + MIN_CHUNK
      ensures p != 0 && alignment <= 8 ==> Placed(old(chunks), old(dv), old(End()), ChunkFor(bytes), p - FD, s)
      ensures p == 0 && ends ==> Exhausted(old(chunks), old(topsize), bytes + a + 6 * MIN_CHUNK)
      ensures p != 0 ==> Took(old(mem), mem, old(chunks), chunks, p - FD, s)
      ensures ends && !Exhausted(old(chunks), old(topsize), bytes + a + 6 * MIN_CHUNK) ==>
        brk.heapSize == old(brk.heapSize)
      ensures p == 0 ==> Same(old(mem), mem, old(chunks), chunks)
      ensures p == 0 && ends ==>
        brk.heapSize == old(brk.heapSize)
          && brk.heapSize + bytes + a + 2 * MIN_CHUNK + MALLOC_SLACK > PAGE * brk.Pages()
    {
      hide PowerOfTwo, Same, Took, Valid, Sbrk.Pages, Placed, Exhausted, VictimNext;
      if alignment <= 8 {
        EightIsPower();
        ends, a := true, 8;
        ghost var c0, t0 := chunks, topsize;
        p, s := Malloc(bytes);
        RequestBound(bytes);
        if Exhausted(c0, t0, ChunkFor(bytes)) {
          ExhaustedMore(c0, t0, ChunkFor(bytes), bytes + a + 6 * MIN_CHUNK);
        }
      } else {
        p, s, ends, a := InternalMemalign(alignment, bytes);
        if p != 0 { AlignedToEight(p, a); }
      }
    }

    /** What is asked of malloc for an aligned chunk. */
    static function AlignRequest(bytes: int, al: int): int {
      ChunkFor(bytes) + al + MIN_CHUNK - HEAD
    }

    /** As malloc, at an address that is a multiple of a: the alignment or, when that is no power of two or less
        than a chunk, the next power of two that is not less than a chunk.  Above 2^31 there is no such power in a word,
        and the search for it does not end. */
    method InternalMemalign(alignment: int, bytes: int) returns (p: int, ghost s: int, ends: bool, ghost a: int)
      requires Valid() && 0 <= alignment < W32 && 0 <= bytes < W32
      modifies this, brk
      ensures Valid() && brk.Pages() == old(brk.Pages()) && (ends <==> alignment <= 0x8000_0000)
      ensures ends ==> PowerOfTwo(a) && alignment <= a && MIN_CHUNK <= a && (a < 2 * alignment || a == MIN_CHUNK)
      ensures p != 0 ==> ends && p % a == 0 && bytes + HEAD <= s && Took(old(mem), mem, old(chunks), chunks, p - FD, s)
      ensures p != 0 ==>
        AlignedPart(old(chunks), old(dv), old(End()), ChunkFor(AlignRequest(bytes, a)), a, p - FD)
        && s <= ChunkFor(bytes) + MIN_CHUNK
      ensures p == 0 && ends ==> Exhausted(old(chunks), old(topsize), bytes + a + 6 * MIN_CHUNK)
      ensures ends && !Exhausted(old(chunks), old(topsize), bytes + a + 6 * MIN_CHUNK) ==>
        brk.heapSize == old(brk.heapSize)
      ensures p == 0 ==> Same(old(mem), mem, old(chunks), chunks)
      ensures p == 0 && ends ==>
        brk.heapSize == old(brk.heapSize)
          && brk.heapSize + bytes + a + 2 * MIN_CHUNK + MALLOC_SLACK > PAGE * brk.Pages()
    {
      hide Sound, Took, Same, PadRequest, PowerOfTwo, Placed, Exhausted, AlignedAt, VictimNext;
      SameIs(mem, chunks);
      PagesBound();
      var al: int;
      ends, al := AlignmentFor(alignment);
      a := al;
      p, s := 0, 0;
      if ends && bytes < MAX_REQUEST - al {
        Padded(bytes);
        var nb := if bytes < MIN_REQUEST then MIN_CHUNK else PadRequest(bytes);
        var req := nb + al + MIN_CHUNK - HEAD;
        ghost var m0, c0, t0 := mem, chunks, topsize;
        p, s := Malloc(req);
        if p != 0 {
          ghost var p0, s0 := p, s;
          p, s := Align(p, al, nb, s, m0, c0);
          assert Placed(old(chunks), old(dv), old(End()), ChunkFor(AlignRequest(bytes, a)), p0 - FD, s0);
        }
        RequestBound(req);
        if Exhausted(c0, t0, ChunkFor(req)) {
          ExhaustedMore(c0, t0, ChunkFor(req), bytes + a + 6 * MIN_CHUNK);
        }
      } else if ends {
        AllBelow();
        ExhaustedMore(chunks, topsize, W32 - 1, bytes + a + 6 * MIN_CHUNK);
      }
    }

    lemma PagesBound()
      requires Valid()
      ensures 0 <= brk.heapSize && PAGE * brk.Pages() < W32 - PAGE
    {
      hide Inv, Segment;
    }

    /** The aligned part of a fresh allocation that is large enough; what is before and behind it goes back. */
    method Align(p0: int, al: int, nb: int, ghost s0: int, ghost m0: Mem, ghost c0: Chunks)
      returns (p: int, ghost s: int)
      requires Valid() && p0 != 0 && Took(m0, mem, c0, chunks, p0 - FD, s0)
      requires al >= 16 && al % 16 == 0 && nb % 8 == 0 && MIN_CHUNK <= nb < W32 && nb + al + MIN_CHUNK <= s0
      modifies `mem, `smallmap, `small, `treemap, `trees, `chunks, `dv, `dvsize, `top, `topsize
      ensures Valid() && brk.Pages() == old(brk.Pages())
      ensures p != 0 && p % al == 0 && nb <= s <= nb + MIN_CHUNK && Took(m0, mem, c0, chunks, p - FD, s)
      ensures AlignedAt(p0 - FD, p - FD, al)
    {
      hide Sound, Took, Live, AlignedSpot, ChunkSize;
      TookSome(m0, mem, c0, chunks, p0 - FD, s0);
      TookAligned(m0, mem, Now(Spare()), c0, p0 - FD, s0);
      TookIs(m0, mem, c0, chunks, p0 - FD, s0);
      ChunkRead(mem, Now(Spare()), p0 - FD);
      var c: int;
      c, s := AlignFront(p0 - FD, al, s0, m0, c0);
      s := TrimBack(c, nb, s, m0, c0);
      p := c + FD;
    }

    /** Give back what is in front of the first aligned spot of a fresh chunk. */
    method AlignFront(c: int, al: int, ghost s: int, ghost m0: Mem, ghost c0: Chunks) returns (d: int, ghost t: int)
      requires Ready() && top > 0 && Took(m0, mem, c0, chunks, c, s) && c in chunks && chunks[c].inuse
        && chunks[c].size == s
      requires al >= 16 && al % 16 == 0 && s >= al + 24
      modifies `mem, `smallmap, `small, `treemap, `trees, `chunks, `dv, `dvsize, `top, `topsize
      ensures Ready() && top + topsize == old(top + topsize) && top > 0
      ensures Took(m0, mem, c0, chunks, d, t) && AlignedAt(c, d, al) && d > 0 && t >= s - al - 8
      ensures d in chunks && chunks[d].inuse && chunks[d].size == t
    {
      hide Sound, Took, Live, AlignedSpot, ChunkSize;
      d, t := c, s;
      ChunkRead(mem, Now(Spare()), c);
      Around(mem, Now(Spare()), c);
      if (c + FD) % al != 0 {
        AlignedSpotIs(c, al);
        var pos := AlignedSpot(c, al);
        var leadsize := pos - c;
        var newsize := ChunkSize(mem, c) - leadsize;
        Eighths(pos, c);
        TrimLead(c, leadsize, leadsize + newsize);
        d, t := pos, newsize;
        TookIs(m0, mem, c0, chunks, d, t);
      }
    }

    /** Give back what a fresh chunk has beyond nb bytes, if that makes a chunk. */
    method TrimBack(c: int, nb: int, ghost s: int, ghost m0: Mem, ghost c0: Chunks) returns (ghost t: int)
      requires Ready() && top > 0 && Took(m0, mem, c0, chunks, c, s) && c in chunks && chunks[c].inuse
        && chunks[c].size == s
      requires nb % 8 == 0 && MIN_CHUNK <= nb <= s
      modifies `mem, `smallmap, `small, `treemap, `trees, `chunks, `dv, `dvsize, `top, `topsize
      ensures Ready() && top + topsize == old(top + topsize) && top > 0
      ensures Took(m0, mem, c0, chunks, c, t) && nb <= t <= nb + MIN_CHUNK
    {
      hide Sound, Took, Live, ChunkSize, Resized;
      t := s;
      ChunkRead(mem, Now(Spare()), c);
      var size := ChunkSize(mem, c);
      if size > nb + MIN_CHUNK {
        ghost var m1, c1 := mem, chunks;
        TrimTail(c, nb, size);
        TookTrimmed(m0, m1, mem, c0, c1, chunks, c, s, nb);
        t := nb;
      }
    }

    /** The least power of two that is large enough, found by doubling in a word.  Once it is shifted out it stays zero,
        and the loop goes on for ever: that is what `ends` denies. */
    static method AlignmentFor(alignment: int) returns (ends: bool, a: int)
      requires 0 <= alignment < W32
      ensures ends <==> alignment <= 0x8000_0000
      ensures ends ==> PowerOfTwo(a) && alignment <= a && MIN_CHUNK <= a <= 0x8000_0000
      ensures ends ==> (a < 2 * alignment || a == MIN_CHUNK) && a % 16 == 0
      ensures !ends ==> forall n: nat :: DoubledWord(n) < alignment
    {
      a := if alignment < MIN_CHUNK then MIN_CHUNK else alignment;
      ends := true;
      if !PowerOfTwo(a) {
        var b := 16;
        while b != 0 && b < a
          invariant if b == 0 then a > 0x8000_0000 else PowerOfTwo(b) && 16 <= b <= 0x8000_0000 && b < 2 * a
          decreases if b == 0 then 0 else W32 - b
        {
          if b < 0x8000_0000 { BelowHighest(b); }
          b := 2 * b % W32;
        }
        if b == 0 {
          forall n: nat ensures DoubledWord(n) < alignment { NeverReached(n); }
          return false, 0;
        }
        a := b;
      } else {
        PowerInWord(a);
      }
      Sixteen(a);
    }

    // ----- use -----

    /** The owner of a live chunk stores a word in it. */
    method Store(a: int, w: int, ghost c: int)
      requires Valid() && c in Live(chunks) && c + FD <= a < c + Live(chunks)[c] + HEAD
      modifies `mem
      ensures Valid() && mem == Wr(old(mem), a, w) && KeptBut(old(mem), mem, chunks, c)
    {
      hide Sound, KeptBut;
      ghost var m0, h := mem, Now(Spare());
      mem := Wr(mem, a, w);
      OwnerMayWrite(m0, mem, h, c);
      assert Now(Spare()) == h;
    }
  }

  // ----- constants of the memory source -----

  const TOP_FOOT_SIZE := 40
  const SYS_ALLOC_PADDING := TOP_FOOT_SIZE + 8
  const TRIM_THRESHOLD := 0x20_0000
  const HALF_MAX := 0x7FFF_FFFF

  /** Rounding up to whole pages, in 32 bits. */
  function GranularityAlign(s: int): int {
    (s + (PAGE - 1)) % W32 / PAGE * PAGE
  }

  function PageAlign(s: int): int {
    (s + (PAGE - 1)) / PAGE * PAGE
  }

  lemma AlignedUp(s: int)
    requires 0 <= s <= W32 - PAGE
    ensures s <= GranularityAlign(s) < s + PAGE && GranularityAlign(s) % PAGE == 0
  {
  }

  lemma AlignLess(s: int, t: int)
    requires 0 <= s <= t <= W32 - PAGE
    ensures GranularityAlign(s) <= GranularityAlign(t)
  {
  }

  lemma PageAligned(s: int)
    requires s % PAGE == 0
    ensures PageAlign(s) == s
  {
  }

  const MAX_REQUEST := W32 - 4 * MIN_CHUNK

  /** The bytes behind top's padding that can go back, in whole pages, keeping at least one. */
  function Extra(topsize: int, pad: int): int {
    ((topsize - pad + (PAGE - 1)) / PAGE - 1) * PAGE
  }

  lemma ExtraBounds(topsize: int, pad: int)
    requires topsize > pad
    ensures 0 <= Extra(topsize, pad) < topsize - pad <= Extra(topsize, pad) + PAGE
    ensures Extra(topsize, pad) % 8 == 0 && Extra(topsize, pad) % PAGE == 0
  {
    EightDivides(Extra(topsize, pad));
  }

  /** The tags of chunk p and of what follows it. */
  ghost predicate TagsChecked(m: Mem, h: View, p: int)
    requires p in h.chunks
  {
    var c, s := h.chunks, h.chunks[p].size;
    var n := p + s;
    && ChunkSize(m, p) == s && s % 8 == 0 && s >= MIN_CHUNK && (n in c || n == h.top)
    && (Cinuse(m, p) <==> c[p].inuse)
    && (n in c ==> (Pinuse(m, n) <==> Cinuse(m, p)))
    && (!Cinuse(m, p) ==> Rd(m, n) == s && Pinuse(m, p) && n in c && Cinuse(m, n))
  }

  lemma CheckedTags(m: Mem, h: View, p: int)
    requires Sound(m, h) && p in h.chunks
    ensures TagsChecked(m, h, p)
  {
    hide Shape, Tagged, Owned, SmallBins, TreeBins, ChunkSize, Cinuse, Pinuse, Tiled;
    var n := p + h.chunks[p].size;
    ShapeOf(h.base, h.top, h.chunks, p);
    TagsRead(m, h.base, h.top, h.chunks, h.topsize, p);
    if n in h.chunks {
      ShapeOf(h.base, h.top, h.chunks, n);
      TagsRead(m, h.base, h.top, h.chunks, h.topsize, n);
      if !h.chunks[p].inuse { assert h.chunks[n].inuse; }
    }
  }

  lemma TagIs(m: Mem, h: View, p: int)
    requires p in h.chunks && TagsChecked(m, h, p)
    ensures Cinuse(m, p) <==> h.chunks[p].inuse
  {
  }

  lemma CheckedMaps(m: Mem, smap: bv32, tmap: bv32, small: Small, trees: Trees)
    requires SmallBins(m, smap, small) && TreeBins(m, tmap, trees)
    ensures |small| == 32 && |trees| == 32
    ensures forall i :: 0 <= i < 32 ==>
      (BinMap.Marked(smap, i) <==> small[i] != []) && (BinMap.Marked(tmap, i) <==> trees[i].Node?)
  {
    hide BinMap.Marked, Links, Sorted, Ring.IsRing, Rd;
    forall i | 0 <= i < 32
      ensures (BinMap.Marked(smap, i) <==> small[i] != []) && (BinMap.Marked(tmap, i) <==> trees[i].Node?)
    {
      assert SmallAt(m, smap, small, i) && TreeAt(m, tmap, trees, i);
    }
  }

  lemma CheckedBins(cs: Chunks, loose: set<int>, small: Small, trees: Trees, p: int)
    requires Owned(cs, loose, small, trees) && p in cs
    ensures |small| == 32 && |trees| == 32
    ensures forall i :: 0 <= i < 32 && p in small[i] ==> !cs[p].inuse && p !in loose && cs[p].size == 8 * i
    ensures forall i :: 0 <= i < 32 && Has(trees[i], p, cs[p].size) ==>
      !cs[p].inuse && p !in loose && cs[p].size >= LARGE && TreeIndexOf(cs[p].size) == i
    ensures !cs[p].inuse && p !in loose ==> InItsBin(small, trees, p, cs[p].size)
  {
    hide InItsBin, Has, TreeIndexOf;
    forall i | 0 <= i < 32 && p in small[i] ensures !cs[p].inuse && p !in loose && cs[p].size == 8 * i {
      assert SmallMember(cs, loose, i, p);
    }
    forall i | 0 <= i < 32 && Has(trees[i], p, cs[p].size)
      ensures !cs[p].inuse && p !in loose && cs[p].size >= LARGE && TreeIndexOf(cs[p].size) == i
    {
      assert TreeMember(cs, loose, i, p, cs[p].size);
    }
  }

  /** When rounding up the padded request wraps around, the result is not above the request. */
  lemma AskSize(nb: int)
    requires 0 <= nb < W32
    ensures nb + SYS_ALLOC_PADDING + PAGE <= W32 ==>
      GranularityAlign((nb + SYS_ALLOC_PADDING) % W32) == GranularityAlign(nb + SYS_ALLOC_PADDING) > nb
    ensures nb + SYS_ALLOC_PADDING + PAGE <= W32 ==>
      GranularityAlign(nb + SYS_ALLOC_PADDING) < nb + SYS_ALLOC_PADDING + PAGE
    ensures nb + SYS_ALLOC_PADDING + PAGE > W32 && nb >= MIN_CHUNK ==>
      GranularityAlign((nb + SYS_ALLOC_PADDING) % W32) <= nb
  {
  }

  lemma EightDivides(x: int)
    requires x % PAGE == 0
    ensures x % 8 == 0
  {
    assert x == 8 * (512 * (x / PAGE));
  }

  lemma KeptNone(m: Mem, m': Mem, cs: Chunks)
    requires cs == map[]
    ensures Kept(m, m', cs)
  {
  }

  lemma TopHead(m: Mem, h: View)
    requires Sound(m, h)
    ensures Wr(m, h.top + HEAD, h.topsize + 1) == m && h.topsize > 0 && h.topsize % 8 == 0 && h.base <= h.top
  {
    hide Shape, Owned, SmallBins, TreeBins;
  }

  function AlignOffset(a: int): int {
    (8 - a % 8) % 8
  }

  // ----- requests -----

  const MIN_REQUEST := 11
  const MAX_SMALL_REQUEST := 244
  const MALLOC_SLACK := 16 + SYS_ALLOC_PADDING + PAGE

  /** A request with its head word, in chunk units. */
  function PadRequest(bytes: int): int {
    (bytes + 4 + 7) % W32 / 8 * 8
  }

  lemma Padded(bytes: int)
    requires 0 <= bytes < MAX_REQUEST
    ensures PadRequest(bytes) % 8 == 0 && bytes + 4 <= PadRequest(bytes) <= bytes + 11
    ensures bytes <= MAX_SMALL_REQUEST ==> PadRequest(bytes) < LARGE
    ensures bytes > MAX_SMALL_REQUEST ==> PadRequest(bytes) >= LARGE
  {
  }

  /** A free chunk in front of p0 is the only one there, and p0's tag tells of it. */
  lemma NoOtherBefore(m: Mem, h: View, p0: int, v: int)
    requires Sound(m, h) && p0 in h.chunks && v in h.loose
    ensures v in h.chunks && h.chunks[v].size > 0 && !h.chunks[v].inuse && v < h.top
    ensures v + h.chunks[v].size == p0 ==> !h.chunks[p0].pinuse
    ensures forall q :: q in h.chunks && q + h.chunks[q].size == p0 == v + h.chunks[v].size ==> q == v
  {
    hide Sound;
    LooseIs(m, h, v);
    Around(m, h, v);
    forall q | q in h.chunks && q + h.chunks[q].size == p0 == v + h.chunks[v].size ensures q == v {
      SizeBound(m, h, q);
      SameEnd(m, h, q, v);
    }
  }

  lemma SameEnd(m: Mem, h: View, q: int, v: int)
    requires Sound(m, h) && q in h.chunks && v in h.chunks && h.chunks[q].size > 0 && h.chunks[v].size > 0
    requires q + h.chunks[q].size == v + h.chunks[v].size
    ensures q == v
  {
    hide Shape, Tagged, Owned, SmallBins, TreeBins;
  }

  lemma TopBelow(m: Mem, h: View)
    requires Sound(m, h)
    ensures 0 < h.topsize < W32
  {
    hide Shape, Tagged, Owned, SmallBins, TreeBins;
  }

  lemma NothingBinned(cs: Chunks, dv: int, nb: int)
    requires cs == map[]
    ensures BinsPassed(cs, dv, nb)
  {
  }

  lemma NoTrees(trees: Trees)
    requires forall i :: 0 <= i < |trees| ==> trees[i].Nil?
    ensures forall nb :: NoFit(trees, nb)
  {
  }

  lemma RequestBound(bytes: int)
    requires 0 <= bytes < W32
    ensures Heap.ChunkFor(bytes) <= bytes + 4 * MIN_CHUNK
  {
    if bytes < MAX_REQUEST { Padded(bytes); }
  }

  lemma TookSome(m0: Mem, m: Mem, c0: Chunks, cs: Chunks, c: int, s: int)
    requires Took(m0, m, c0, cs, c, s)
    ensures c in cs
  {
    assert c in Live(cs);
  }

  /** What became live is a chunk, so it is aligned. */
  lemma TookAligned(m0: Mem, m: Mem, h: View, c0: Chunks, c: int, s: int)
    requires Sound(m, h) && Took(m0, m, c0, h.chunks, c, s)
    ensures c % 8 == 0 && c > 0 && s % 8 == 0 && s < W32 - 1
  {
    hide Sound;
    assert c in Live(h.chunks) && Live(h.chunks)[c] == s;
    Around(m, h, c);
    SizeBound(m, h, c);
    Parts(m, h);
    hide Tiled, Tagged, Owned, SmallBins, TreeBins;
  }

  lemma DvBound(m: Mem, h: View, dv: int, dvsize: int)
    requires Sound(m, h) && (if dvsize == 0 then dv == 0 else dv in h.chunks && h.chunks[dv].size == dvsize)
    ensures 0 <= dvsize < W32 && dvsize % 8 == 0
  {
    hide Sound;
    if dvsize != 0 { SizeBound(m, h, dv); }
  }

  /** Unsigned subtraction of words. */
  function Minus(a: int, b: int): int {
    (a - b) % W32
  }

  /** What the comparison of the best chunk with the victim decides, also when the victim is too small. */
  lemma DvFits(trees: Trees, nb: int, s: int, dvsize: int)
    requires NoBetter(trees, nb, s) && nb <= s < W32 && 0 <= dvsize < W32 && 0 < nb
    ensures s - nb < Minus(dvsize, nb) ==> dvsize >= nb ==> s < dvsize
    ensures s - nb >= Minus(dvsize, nb) ==> dvsize >= nb && NoBetter(trees, nb, dvsize)
  {
    hide Has;
    if dvsize < nb { assert Minus(dvsize, nb) == dvsize - nb + W32; } else { assert Minus(dvsize, nb) == dvsize - nb; }
  }

  /** A bin with chunks has one that fits a small request. */
  lemma SomeFit(m: Mem, h: View, k: nat, nb: int, lo: int, b: nat, root: int)
    requires Sound(m, h) && k < 32 && |h.trees| == 32 && h.trees[k].Node? && nb < LARGE
    requires Branch(m, h.trees, k, h.trees[k], root, lo, b)
    ensures !NoFit(h.trees, nb)
  {
    hide Sound;
    SoundSorts(m, h);
    var p := SizeHasPtr(h.trees[k], lo, b, h.trees[k].size);
  }

  lemma KeptSelf(m: Mem, cs: Chunks)
    ensures Kept(m, m, cs)
  {
  }

  lemma NotLoose(m: Mem, h: View, p: int, r: int)
    requires Sound(m, h) && p in h.chunks && p < r < p + h.chunks[p].size
    ensures r !in h.loose
  {
    hide Sound;
    Inside(m, h, p);
  }

  lemma AfterUseIs(h: View, p: int)
    requires p in h.chunks
    ensures AfterUse(h, p) == h.(chunks := AfterUse(h, p).chunks, loose := h.loose - {p})
  {
  }

  lemma AfterCarveFields(h: View, p: int, n: int)
    requires p in h.chunks
    ensures AfterCarve(h, p, n) == h.(chunks := AfterCarve(h, p, n).chunks, loose := h.loose - {p} + {p + n})
  {
  }

  lemma ReleasedPlace(m: Mem, h: View, p0: int, p: int)
    requires Sound(m, h) && Released(h, p0, p)
    ensures 0 < p <= p0 && p in h.chunks && (p == p0 ==> h.chunks[p].inuse) && p0 in h.chunks
      && h.chunks[p0].size >= MIN_CHUNK
    ensures forall q :: q in h.loose ==> q in h.chunks && !h.chunks[q].inuse
  {
    hide Sound;
    RangeHolds(m, h, p0, p);
    Parts(m, h);
    SizeBound(m, h, p0);
    hide Tiled, Tagged, Owned, SmallBins, TreeBins;
  }

  lemma ReleasedWider(h: View, h2: View, p0: int, p: int)
    requires Released(h, p0, p) && h2.chunks == h.chunks && h.loose <= h2.loose
    ensures Released(h2, p0, p)
  {
  }

  lemma ReleasedAlone(h: View, p0: int)
    requires p0 in h.chunks && h.chunks[p0].inuse && h.chunks[p0].pinuse
    ensures Released(h, p0, p0)
  {
  }

  lemma ReleasedBehind(h: View, p0: int, p: int)
    requires p0 in h.chunks && h.chunks[p0].inuse && p in h.loose && p in h.chunks && p + h.chunks[p].size == p0
    ensures Released(h, p0, p)
  {
  }

  /** The tag words of a chunk. */
  lemma ChunkRead(m: Mem, h: View, p: int)
    requires Sound(m, h) && p in h.chunks
    ensures ChunkSize(m, p) == h.chunks[p].size && (Cinuse(m, p) <==> h.chunks[p].inuse)
      && (Pinuse(m, p) <==> h.chunks[p].pinuse)
    ensures h.base <= p < h.top && 0 < h.base && MIN_CHUNK <= h.chunks[p].size
  {
    Parts(m, h);
    hide Tagged, Owned, SmallBins, TreeBins;
    TagsRead(m, h.base, h.top, h.chunks, h.topsize, p);
    SizeBound(m, h, p);
  }

  /** The tag words of a chunk's successor, which may be top. */
  lemma NextRead(m: Mem, h: View, p: int)
    requires Sound(m, h) && p in h.chunks
    ensures var n := p + h.chunks[p].size;
      && h.base <= n && (n in h.chunks || n == h.top) && (n in h.chunks ==> n != h.top)
      && (Cinuse(m, n) <==> n in h.chunks && h.chunks[n].inuse) && (Pinuse(m, n) <==> h.chunks[p].inuse)
  {
    hide Sound;
    Around(m, h, p);
    var n := p + h.chunks[p].size;
    if n in h.chunks {
      ChunkRead(m, h, n);
    } else {
      Parts(m, h);
      hide Tiled, Tagged, Owned, SmallBins, TreeBins;
      TopRead(m, h.chunks, h.top, h.topsize);
    }
  }

  lemma SameKept(m: Mem, m': Mem, cs: Chunks)
    requires Kept(m, m', cs)
    ensures Same(m, m', cs, cs)
  {
  }

  lemma AfterJoinFields(h: View, p: int, e: int)
    requires p in h.chunks
    ensures AfterJoin(h, p, e) == h.(chunks := AfterJoin(h, p, e).chunks, loose := AfterJoin(h, p, e).loose)
  {
  }

  lemma HalvesIs(m: Mem, p: int, n: int, s: int)
    ensures Halves(m, p, n, s) == SetInuse(SetInuse(m, p, n), p + n, s - n)
  {
  }

  lemma LiveIs(cs: Chunks, p: int)
    requires p in cs && cs[p].inuse
    ensures p in Live(cs) && Live(cs)[p] == cs[p].size
  {
  }

  lemma ResizedSelf(m: Mem, cs: Chunks, p: int)
    requires p in cs && cs[p].inuse
    ensures Resized(m, m, cs, cs, p, cs[p].size)
  {
    assert Live(cs)[p := cs[p].size] == Live(cs);
  }

  function Smaller(a: int, b: int): int {
    if a < b then a else b
  }

  /** The size of the words that hold n bytes. */
  function Words(n: int): int {
    (n + 3) / 4 * 4
  }

  lemma Rounded(n: int)
    requires 0 <= n
    ensures n / 4 * 4 <= n < n / 4 * 4 + 4 && n <= Words(n) < n + 4
    ensures n % 4 != 0 ==> Words(n) == n / 4 * 4 + 4
    ensures n % 4 == 0 ==> Words(n) == n
  {
  }

  /** Contents that leave room for the head word fit into a chunk's words. */
  lemma WordsFit(n: int, s: int)
    requires 0 <= n <= s - HEAD && s % 8 == 0
    ensures Words(n) <= s - HEAD
  {
    assert s == 4 * (2 * (s / 8));
    assert (n + 3) / 4 <= 2 * (s / 8) - 1;
  }

  /** The old and the new chunk, after an allocation. */
  lemma TookPlaces(m0: Mem, m: Mem, h: View, c0: Chunks, p: int, q: int, s: int)
    requires Sound(m, h) && Took(m0, m, c0, h.chunks, q, s) && p in c0 && c0[p].inuse
    ensures p in h.chunks && h.chunks[p] == Chunk(c0[p].size, true, h.chunks[p].pinuse) && p in Live(h.chunks)
    ensures q in h.chunks && h.chunks[q].inuse && h.chunks[q].size == s && s % 8 == 0 && c0[p].size % 8 == 0
    ensures p + c0[p].size <= q || q + s <= p
  {
    hide Sound;
    assert p in Live(c0) && p in Live(h.chunks) && Live(h.chunks)[p] == c0[p].size;
    assert q in Live(h.chunks) && Live(h.chunks)[q] == s;
    Inside(m, h, p);
    Inside(m, h, q);
    Around(m, h, p);
    Around(m, h, q);
  }

  lemma TookIs(m0: Mem, m: Mem, c0: Chunks, cs: Chunks, c: int, s: int)
    requires Took(m0, m, c0, cs, c, s)
    ensures c in cs && cs[c].inuse && cs[c].size == s
  {
    assert c in Live(cs) && Live(cs)[c] == s;
  }

  /** The overflow check of calloc is exact. */
  lemma ProductCheck(n: int, size: int)
    requires 0 < n < W32 && 0 <= size < W32
    ensures (n < 0x1_0000 && size < 0x1_0000) || n * size % W32 / n == size <==> n * size < W32
  {
    Exact(size, n);
    if n < 0x1_0000 && size < 0x1_0000 {
      assert n * size <= 0xFFFF * 0xFFFF by { Product(n, size, 0xFFFF, 0xFFFF); }
    } else if n * size % W32 / n == size {
      Alignment.Quotient(n * size % W32, n);
      assert n * size <= n * size % W32;
    }
  }

  lemma Exact(k: int, n: int)
    requires n > 0
    ensures k * n / n == k && n * k == k * n
  {
    DivRem(k * n, n, k, 0);
  }

  lemma Product(a: int, b: int, x: int, y: int)
    requires 0 <= a <= x && 0 <= b <= y
    ensures a * b <= x * y
  {
    assert a * b <= a * y;
    assert a * y <= x * y;
  }

  lemma Eighths(a: int, b: int)
    requires a % 8 == 0 && b % 8 == 0
    ensures (a - b) % 8 == 0
  {
  }

  lemma JoinSize(m: Mem, h: View, p: int, n: int)
    requires Sound(m, h) && p in h.chunks && n in h.chunks
    ensures (h.chunks[p].size + h.chunks[n].size) % 8 == 0
  {
    hide Sound;
    SizeBound(m, h, p);
    SizeBound(m, h, n);
    EighthsSum(h.chunks[p].size, h.chunks[n].size);
  }

  lemma EighthsSum(a: int, b: int)
    requires a % 8 == 0 && b % 8 == 0
    ensures (a + b) % 8 == 0
  {
  }

  /** The chunk behind the two joined ones is in use. */
  lemma JoinEnd(m: Mem, h: View, p: int, n: int)
    requires Sound(m, h) && p in h.chunks && h.chunks[p].inuse && n == p + h.chunks[p].size && n in h.loose
      && n in h.chunks
    ensures var e := n + h.chunks[n].size; e in AfterJoin(h, p, e).chunks && AfterJoin(h, p, e).chunks[e].inuse
  {
    hide Sound;
    Inside(m, h, n);
    Around(m, h, n);
    Around(m, h, p);
  }

  /** The stores of growing into the victim, in the order of the source, are those of the three steps. */
  lemma ExtendDvStores(m: Mem, p: int, nb: int, s: int)
    requires nb >= MIN_CHUNK && s - nb >= MIN_CHUNK
    ensures var r, e := p + nb, p + s; var m1 := SetSizeOfFree(SetInuse(m, p, nb), r, s - nb);
      Wr(m1, e + HEAD, WithoutPinuse(Rd(m1, e + HEAD))) == SetFree(Halves(m, p, nb, s), r, s - nb, e)
  {
    var r, e := p + nb, p + s;
    var x := Rd(m, e + HEAD);
    assert WithoutPinuse(WithPinuse(x)) == WithoutPinuse(x);
    hide WithPinuse, WithoutPinuse;
    var m1 := SetSizeOfFree(SetInuse(m, p, nb), r, s - nb);
    var a, b := Wr(m1, e + HEAD, WithoutPinuse(Rd(m1, e + HEAD))), SetFree(Halves(m, p, nb, s), r, s - nb, e);
    assert a.Keys == b.Keys;
    assert forall w :: w in a ==> a[w] == b[w];
  }

  lemma JoinPartSound(m: Mem, h: View, p: int, nb: int, n: int)
    requires Sound(m, h) && p in h.chunks && h.chunks[p].inuse && n == p + h.chunks[p].size && n in h.loose
      && n in h.chunks
    requires nb % 8 == 0 && nb >= MIN_CHUNK && h.chunks[p].size + h.chunks[n].size - nb >= MIN_CHUNK
    ensures var s := h.chunks[p].size + h.chunks[n].size; var h1 := AfterJoin(h, p, p + s);
      && p in h1.chunks && h1.chunks[p] == Chunk(s, true, h.chunks[p].pinuse)
        && Sound(Halves(m, p, nb, s), AfterSplit(h1, p, nb))
      && PartTaken(m, SetInuse(m, p, s), Halves(m, p, nb, s), h.chunks, h1.chunks, Split(h1.chunks, p, nb), p, nb, s)
      && h1.loose == h.loose - {n} && p + nb !in h1.chunks && h1 == h.(chunks := h1.chunks, loose := h1.loose)
    ensures var s := h.chunks[p].size + h.chunks[n].size; var h1 := AfterJoin(h, p, p + s);
      forall q :: q in h.loose && q != n ==>
        q in h.chunks && q in h1.chunks && h1.chunks[q] == h.chunks[q] && q != p && q != p + nb
  {
    hide Sound, KeptBut, Live, Resized, SetInuse, AfterJoin, Halves;
    var s := h.chunks[p].size + h.chunks[n].size;
    JoinSound(m, SetInuse(m, p, s), h, p, n);
    AfterJoinFields(h, p, p + s);
    JoinSize(m, h, p, n);
    JoinHalves(m, p, nb, s);
    HalvesSound(SetInuse(m, p, s), AfterJoin(h, p, p + s), p, nb);
    Inside(m, h, p);
  }

  /** Growing into the victim with a rest: joining, splitting, and releasing the rest. */
  lemma ExtendDvSound(m: Mem, h: View, p: int, nb: int, n: int)
    requires Sound(m, h) && p in h.chunks && h.chunks[p].inuse && n == p + h.chunks[p].size && n in h.chunks
      && h.loose == {n}
    requires nb % 8 == 0 && h.chunks[p].size < nb && h.chunks[p].size + h.chunks[n].size - nb >= MIN_CHUNK
    ensures var s := h.chunks[p].size + h.chunks[n].size; var r, e := p + nb, p + s;
      && p in AfterJoin(h, p, e).chunks
      && var h3 := AfterFree(AfterSplit(AfterJoin(h, p, e), p, nb), r, e);
      var m3 := SetFree(Halves(m, p, nb, s), r, s - nb, e);
      && Sound(m3, h3) && Resized(m, m3, h.chunks, h3.chunks, p, nb) && h3.loose == {r}
      && r in h3.chunks && h3.chunks[r] == Chunk(s - nb, false, true) && h3 == h.(chunks := h3.chunks, loose := {r})
  {
    hide Sound, KeptBut, Live, Resized, SetInuse, Halves, SetFree, PartTaken, AfterFree, AfterJoin;
    var s := h.chunks[p].size + h.chunks[n].size;
    var r, e := p + nb, p + s;
    SizeBound(m, h, p);
    JoinPartSound(m, h, p, nb, n);
    var h1 := AfterJoin(h, p, e);
    var m2, h2 := Halves(m, p, nb, s), AfterSplit(h1, p, nb);
    var m3, h3 := SetFree(m2, r, s - nb, e), AfterFree(h2, r, e);
    ReleasedAlone(h2, r);
    JoinEnd(m, h, p, n);
    FreeSound(m2, m3, h2, r, r);
    FreeLoose(m2, h2, r, r);
    AfterFreeFields(h2, r, e);
    LiveIs(h.chunks, p);
    PartResult(m, SetInuse(m, p, s), m2, m3, h.chunks, h1.chunks, h2.chunks, h3.chunks, p, nb, s);
  }

  /** p took the chunk behind it, s bytes together, and gave all but n of them up again, which are a chunk
      in use by themselves. */
  ghost predicate PartTaken(m: Mem, m1: Mem, m': Mem, cs: Chunks, cs1: Chunks, cs': Chunks, p: int, n: int, s: int) {
    && Resized(m, m1, cs, cs1, p, s) && p in cs1 && cs1[p].inuse && cs1[p].size == s && p + n !in cs1 && 0 < n < s
    && KeptBut(m1, m', cs1, p) && (forall w :: p + FD <= w < p + n + HEAD ==> Rd(m', w) == Rd(m1, w))
    && Live(cs') == Live(cs1)[p := n][p + n := s - n]
  }

  lemma PartResult(m: Mem, m1: Mem, m2: Mem, m3: Mem, cs: Chunks, cs1: Chunks, cs2: Chunks, cs3: Chunks, p: int,
      n: int, s: int)
    requires PartTaken(m, m1, m2, cs, cs1, cs2, p, n, s) && Gave(m2, m3, cs2, cs3, p + n) && p in Live(cs)
      && Live(cs)[p] <= s
    ensures Resized(m, m3, cs, cs3, p, n)
  {
    hide Resized, Gave, KeptBut;
    TrimmedResult(m1, m2, m3, cs1, cs2, cs3, p, n, s);
    ResizedTwice(m, m1, m3, cs, cs1, cs3, p, s, n) by { ResizedIn(m, m1, cs, cs1, p, s); }
  }

  lemma ResizedIn(m: Mem, m1: Mem, cs: Chunks, cs1: Chunks, p: int, s: int)
    requires Resized(m, m1, cs, cs1, p, s)
    ensures p in Live(cs)
  {
  }

  lemma AfterFreeFields(h: View, a: int, e: int)
    ensures AfterFree(h, a, e) == h.(chunks := AfterFree(h, a, e).chunks, loose := AfterFree(h, a, e).loose)
  {
  }

  lemma AfterDropFields(h: View, a: int, size: int)
    ensures AfterDrop(h, a, size) == h.(chunks := AfterDrop(h, a, size).chunks, loose := AfterDrop(h, a, size).loose,
      top := a, topsize := size)
  {
  }

  lemma GrowLive(cs: Chunks, top: int, n: int)
    requires top !in cs
    ensures Live(cs[top := Chunk(n, true, true)]) == Live(cs)[top := n] && top !in Live(cs)
  {
    var l, r := Live(cs[top := Chunk(n, true, true)]), Live(cs)[top := n];
    assert forall p :: p in l <==> p in r;
    assert forall p :: p in l ==> l[p] == r[p];
  }

  lemma ChainInside(u: Tree, f: int)
    requires u.Node?
    ensures f in u.chain ==> f in Ptrs(u)
  {
    assert f in u.chain ==> f in SetOf(u.chain);
  }

  lemma ChainOf(m: Mem, u: Tree, x: int, e: int, q: int, i: nat)
    requires Unlinkable(m, u, x, e, q, i)
    ensures u.Node? && x in u.chain && (|u.chain| == 1 ==> u.chain[0] == x)
  {
  }

  lemma FirstAddress(m: Mem, h: View, i: nat)
    requires Sound(m, h) && i < 32 && BinMap.Marked(h.smap, i)
    ensures |h.small| == 32 && h.small[i] != [] && Rd(m, SmallBin(i) + FD) == h.small[i][0] >= h.base
  {
    hide Tiled, Tagged, Owned, SmallBins, TreeBins, Ring.IsRing, BinMap.Marked, NoDup;
    SmallIs(m, h, i);
    FirstOf(m, SmallBin(i), h.small[i]);
    assert h.small[i][0] in h.small[i];
  }

  /** Where a binned small chunk is. */
  lemma SmallPlace(m: Mem, h: View, p: int) returns (k: nat)
    requires Sound(m, h) && p in h.chunks && !h.chunks[p].inuse && p !in h.loose && h.chunks[p].size < LARGE
    ensures |h.small| == 32 && 0 <= h.chunks[p].size / 8 < 32 && k < |h.small[h.chunks[p].size / 8]|
      && h.small[h.chunks[p].size / 8][k] == p
    ensures h.chunks[p].size == 8 * (h.chunks[p].size / 8)
  {
    hide Tiled, Tagged, SmallBins, TreeBins, NoDup, Has;
    SizeBound(m, h, p);
    assert InItsBin(h.small, h.trees, p, h.chunks[p].size);
    k := IndexOf(h.small[h.chunks[p].size / 8], p);
  }

  /** The link checks of the unlink code hold. */
  lemma SmallChecks(m: Mem, h: View, i: nat, k: nat)
    requires Sound(m, h) && i < 32 && |h.small| == 32 && k < |h.small[i]|
    ensures var p, b := h.small[i][k], SmallBin(i); var f, g := Rd(m, p + FD), Rd(m, p + BK);
      && (f == b || (f >= h.base && Rd(m, f + BK) == p)) && (g == b || (g >= h.base && Rd(m, g + FD) == p))
      && (k == 0 ==> g == b)
  {
    hide Sound, NoDup, Ring.IsRing;
    var s, b := h.small[i], SmallBin(i);
    SmallIs(m, h, i);
    RingChecks(m, b, s, k);
  }

  lemma RingChecks(m: Mem, b: int, s: seq<int>, k: nat)
    requires k < |s| && Ring.IsRing(m, [b] + s)
    ensures var p := s[k]; var f, g := Rd(m, p + FD), Rd(m, p + BK);
      && (f == b || (f in s && Rd(m, f + BK) == p)) && (g == b || (g in s && Rd(m, g + FD) == p))
      && (k == 0 ==> g == b)
  {
    var r := [b] + s;
    var n := |r|;
    assert r[k + 1] == s[k];
    assert Ring.LinkedAt(m, r, k + 1);
    assert Ring.LinkedAt(m, r, Ring.Succ(n, k + 1));
    assert Ring.LinkedAt(m, r, Ring.Pred(n, k + 1));
  }

  /** Where a binned large chunk is. */
  lemma TreePlace(m: Mem, h: View, x: int) returns (i: nat)
    requires Sound(m, h) && x in h.chunks && !h.chunks[x].inuse && x !in h.loose && h.chunks[x].size >= LARGE
    ensures |h.trees| == 32 && i == TreeIndexOf(h.chunks[x].size) && i < 32 && Has(h.trees[i], x, h.chunks[x].size)
  {
    hide Tiled, Tagged, SmallBins, TreeBins, NoDup, Has, TreeIndexOf;
    assert InItsBin(h.small, h.trees, x, h.chunks[x].size);
    i := TreeIndexOf(h.chunks[x].size);
  }
}
