/** Linking a chunk into a trie and unlinking one, seen as stores to memory: the new memory holds
    exactly the trie with the chunk inserted or deleted, and nothing else changed. */
module TrieStores {
  import opened WordMemory
  import opened Seqs
  import opened Trie
  import opened TrieLinks
  import opened TrieUnlink
  import Ring

  /** A trie in memory whose root pointer is the word at `slot`; the root's parent link names that word. */
  ghost predicate Stored(m: Mem, t: Tree, slot: int, bin: int, lo: int, b: nat) {
    && Links(m, t, slot, bin) && Rd(m, slot) == Root(t) && Sorted(t, lo, b) && Apart(t)
    && Spread(Ptrs(t)) && !LinkWord(slot, Ptrs(t)) && slot > 0
  }

  // ----- linking -----

  /** All stores of linking chunk x of size s. */
  function LinkStores(m: Mem, t: Tree, slot: int, bin: int, lo: int, b: nat, x: int, s: int): Mem {
    var u, m1 := Sub(t, lo, b, s), Prepare(m, x, bin);
    if u.Node? then Chain(m1, x, Root(u)) else Hang(m1, x, SlotOf(t, slot, lo, b, s), ParOf(t, slot, lo, b, s))
  }

  ghost predicate Linkable(m: Mem, t: Tree, slot: int, bin: int, lo: int, b: nat, x: int, s: int) {
    && Stored(m, t, slot, bin, lo, b) && x !in Ptrs(t) && Spread(Ptrs(t) + {x}) && !LinkWord(slot, Ptrs(t) + {x})
    && x > 0 && lo <= s < lo + Pow2(b)
  }

  lemma PrepareKeeps(m: Mem, t: Tree, slot: int, bin: int, lo: int, b: nat, x: int, s: int)
    requires Linkable(m, t, slot, bin, lo, b, x, s)
    ensures Links(Prepare(m, x, bin), t, slot, bin) && Rd(Prepare(m, x, bin), slot) == Root(t)
    ensures Prepared(Prepare(m, x, bin), x, bin) && Within(m, Prepare(m, x, bin), {x})
  {
    hide Links, Sorted, Apart;
    var m1 := Prepare(m, x, bin);
    assert x in Ptrs(t) + {x};
    forall p, a | p in Ptrs(t) && p + FD <= a < p + 32 ensures Rd(m1, a) == Rd(m, a) {
      assert p in Ptrs(t) + {x};
    }
    forall a | !LinkWord(a, {x}) ensures Rd(m1, a) == Rd(m, a) {
      assert x in {x};
      assert !(x + FD <= a < x + 32);
    }
    assert !(x + FD <= slot < x + 32);
    LinksFrame(m, m1, t, slot, bin);
  }

  /** The end of the walk: its subtree, the word pointing to it, and what surrounds it. */
  lemma WalkEnd(m: Mem, t: Tree, slot: int, bin: int, lo: int, b: nat, s: int)
    requires Links(m, t, slot, bin) && Rd(m, slot) == Root(t) && Sorted(t, lo, b) && Apart(t)
      && lo <= s < lo + Pow2(b) && slot > 0
    ensures var u, e, q := Sub(t, lo, b, s), SlotOf(t, slot, lo, b, s), ParOf(t, slot, lo, b, s);
      && Links(m, u, q, bin) && Rd(m, e) == Root(u) && Apart(u) && (u.Node? ==> u.size == s && u.chain != [])
      && Ptrs(u) <= Ptrs(t)
      && ((e == slot && q == slot && Stops(t, b, s))
        || (!Stops(t, b, s) && q in Ptrs(t) && q !in Ptrs(u) && (e == q + CHILD0 || e == q + CHILD1)))
  {
    SubLinks(m, t, slot, slot, bin, lo, b, s);
    SubSorted(t, lo, b, s);
    SubApart(t, lo, b, s);
    SubInside(t, lo, b, s);
    if !Stops(t, b, s) {
      SlotPlace(m, t, slot, slot, bin, lo, b, s);
      QNotInSub(m, t, slot, slot, bin, lo, b, s);
    }
  }

  /** Chunks outside d keep their link words, apart from the word at e. */
  lemma OthersUntouched(m: Mem, m': Mem, d: set<int>, e: int, all: set<int>, rest: set<int>)
    requires OnlyLinks(m, m', d, e) && Spread(all) && d <= all && rest <= all && d !! rest
    ensures Untouched(m, m', rest, e)
  {
    forall p, a | p in rest && p + FD <= a < p + 32 && a != e ensures Rd(m', a) == Rd(m, a) {
      SlotApart(all, p, a, d);
    }
  }

  /** The same word by word, when the root pointer is the only word outside the chunks that may change. */
  lemma EnlargeFrame(m: Mem, m': Mem, d: set<int>, e: int, all: set<int>, slot: int)
    requires OnlyLinks(m, m', d, e) && d <= all && (e == slot || LinkWord(e, all))
    ensures OnlyLinks(m, m', all, slot)
  {
    forall a | a != slot && !LinkWord(a, all) ensures Rd(m', a) == Rd(m, a) {
      forall p | p in d ensures !(p + FD <= a < p + 32) {
        assert p in all;
      }
    }
  }

  lemma LinkWordIn(e: int, q: int, all: set<int>)
    requires q in all && q + FD <= e < q + 32
    ensures LinkWord(e, all)
  {
  }

  /** The subtree after linking, in place. */
  lemma LinkLocal(m: Mem, t: Tree, slot: int, bin: int, lo: int, b: nat, x: int, s: int)
    requires Linkable(m, t, slot, bin, lo, b, x, s)
    ensures var u, e, q := Sub(t, lo, b, s), SlotOf(t, slot, lo, b, s), ParOf(t, slot, lo, b, s);
      var m1, m' := Prepare(m, x, bin), LinkStores(m, t, slot, bin, lo, b, x, s);
      && Links(m', Grown(u, x, s), q, bin) && Rd(m', e) == Root(Grown(u, x, s))
      && OnlyLinks(m1, m', Ptrs(u) + {x}, e)
  {
    hide Apart, CHILD0, CHILD1, Chain, FD, Hang, LinkWord, Links, NodeAt, ParOf, Pow2, Prepare, Prepared, Rd, SlotOf,
      Sorted, Spread, Stops, Sub, Within;
    var m1 := Prepare(m, x, bin);
    PrepareKeeps(m, t, slot, bin, lo, b, x, s);
    WalkEnd(m1, t, slot, bin, lo, b, s);
    var u, e, q := Sub(t, lo, b, s), SlotOf(t, slot, lo, b, s), ParOf(t, slot, lo, b, s);
    var all := Ptrs(t) + {x};
    SpreadSubset(all, Ptrs(u) + {x});
    EndClear(m1, t, slot, bin, lo, b, x, s);
    hide Links, LinkWord, Spread, Apart, Sub, SlotOf, ParOf, NodeAt;
    if u.Node? {
      ChainLinks(m1, u, q, bin, x);
      GrownRoot(u, x, s);
    } else {
      HangLinks(m1, x, e, q, bin, s);
      assert Ptrs(u) + {x} == {x};
    }
  }

  lemma GrownRoot(u: Tree, x: int, s: int)
    requires u.Node? && u.chain != []
    ensures Root(Grown(u, x, s)) == Root(u) && Root(u) == u.chain[0]
  {
    SecondAt(u.chain, x);
  }

  lemma EndClear(m: Mem, t: Tree, slot: int, bin: int, lo: int, b: nat, x: int, s: int)
    requires Links(m, t, slot, bin) && Rd(m, slot) == Root(t) && Sorted(t, lo, b) && Apart(t)
      && lo <= s < lo + Pow2(b) && slot > 0
    requires x !in Ptrs(t) && Spread(Ptrs(t) + {x}) && !LinkWord(slot, Ptrs(t) + {x})
    ensures var u, e := Sub(t, lo, b, s), SlotOf(t, slot, lo, b, s);
      !LinkWord(e, Ptrs(u) + {x}) && !(x + FD <= e < x + 32) && (e == slot || LinkWord(e, Ptrs(t)))
      && (Stops(t, b, s) || e != slot)
  {
    hide Links, Sorted, Apart, Sub, SlotOf, ParOf;
    WalkEnd(m, t, slot, bin, lo, b, s);
    var u, e, q := Sub(t, lo, b, s), SlotOf(t, slot, lo, b, s), ParOf(t, slot, lo, b, s);
    var all := Ptrs(t) + {x};
    if Stops(t, b, s) {
      forall p | p in Ptrs(u) + {x} ensures !(p + FD <= e < p + 32) { assert p in all; }
    } else {
      assert q in all;
      if e == slot { LinkWordIn(e, q, all); assert false; }
      SlotApart(all, q, e, Ptrs(u) + {x});
      LinkWordIn(e, q, Ptrs(t));
    }
    assert x in Ptrs(u) + {x};
  }

  /** Linking leaves exactly the trie with x inserted. */
  lemma LinkCorrect(m: Mem, t: Tree, slot: int, bin: int, lo: int, b: nat, x: int, s: int)
    requires Linkable(m, t, slot, bin, lo, b, x, s)
    ensures var m' := LinkStores(m, t, slot, bin, lo, b, x, s);
      && Stored(m', Insert(t, lo, b, x, s), slot, bin, lo, b)
      && OnlyLinks(m, m', Ptrs(t) + {x}, slot)
  {
    hide Links, LinkWord, Spread, Apart, Sub, SlotOf, ParOf, LinkStores, Sorted, Prepare, Grown, OnlyLinks, Within,
      Untouched, Subst;
    var m1, m' := Prepare(m, x, bin), LinkStores(m, t, slot, bin, lo, b, x, s);
    var u, e, q := Sub(t, lo, b, s), SlotOf(t, slot, lo, b, s), ParOf(t, slot, lo, b, s);
    var all := Ptrs(t) + {x};
    PrepareKeeps(m, t, slot, bin, lo, b, x, s);
    WalkEnd(m1, t, slot, bin, lo, b, s);
    EndClear(m1, t, slot, bin, lo, b, x, s);
    LinkLocal(m, t, slot, bin, lo, b, x, s);
    OthersUntouched(m1, m', Ptrs(u) + {x}, e, all, Ptrs(t) - Ptrs(u));
    EnlargeBy(m1, m', Ptrs(u) + {x}, e, Ptrs(t), x, slot);
    SlotKept(m1, m', t, b, s, Ptrs(u) + {x}, e, slot, all);
    SubstLinks(m1, m', t, slot, slot, bin, lo, b, s, Grown(u, x, s));
    InsertCorrect(t, lo, b, x, s);
    WithinThen2(m, m1, m', {x}, all, slot);
  }

  lemma EnlargeBy(m: Mem, m': Mem, d: set<int>, e: int, ps: set<int>, x: int, slot: int)
    requires OnlyLinks(m, m', d, e) && d <= ps + {x} && (e == slot || LinkWord(e, ps))
    ensures OnlyLinks(m, m', ps + {x}, slot)
  {
    if e != slot {
      var q :| q in ps && q + FD <= e < q + INDEX + 4;
      LinkWordIn(e, q, ps + {x});
    }
    EnlargeFrame(m, m', d, e, ps + {x}, slot);
  }

  lemma SlotKept(m: Mem, m': Mem, t: Tree, b: nat, s: int, d: set<int>, e: int, slot: int, all: set<int>)
    requires OnlyLinks(m, m', d, e) && d <= all && !LinkWord(slot, all) && (Stops(t, b, s) || e != slot)
    ensures Stops(t, b, s) || Rd(m', slot) == Rd(m, slot)
  {
    if !Stops(t, b, s) {
      forall p | p in d ensures !(p + FD <= slot < p + 32) { assert p in all; }
    }
  }

  lemma WithinThen2(m: Mem, m1: Mem, m2: Mem, ps: set<int>, all: set<int>, slot: int)
    requires Within(m, m1, ps) && ps <= all && OnlyLinks(m1, m2, all, slot)
    ensures OnlyLinks(m, m2, all, slot)
  {
    WithinThen(m, m1, m2, ps, all, slot);
  }

  // ----- unlinking -----

  ghost predicate Member(t: Tree, lo: int, b: nat, x: int, s: int) {
    lo <= s < lo + Pow2(b) && Has(t, x, s)
  }

  /** All stores of unlinking chunk x of size s. */
  function DropStores(m: Mem, t: Tree, slot: int, lo: int, b: nat, x: int, s: int): Mem
    requires Sub(t, lo, b, s).Node? && x in Sub(t, lo, b, s).chain
  {
    UnlinkStores(m, Sub(t, lo, b, s), x, SlotOf(t, slot, lo, b, s), ParOf(t, slot, lo, b, s))
  }

  /** The node that holds x, ready for unlinking. */
  lemma NodeOf(m: Mem, t: Tree, slot: int, bin: int, lo: int, b: nat, x: int, s: int)
    requires Stored(m, t, slot, bin, lo, b) && Member(t, lo, b, x, s)
    ensures var u, e, q := Sub(t, lo, b, s), SlotOf(t, slot, lo, b, s), ParOf(t, slot, lo, b, s);
      && Unlinkable(m, u, x, e, q, bin) && Ptrs(u) <= Ptrs(t)
      && (e == slot || LinkWord(e, Ptrs(t))) && (Stops(t, b, s) || e != slot)
      && (if Stops(t, b, s) then e == slot && q == slot
        else q in Ptrs(t) && q !in Ptrs(u) && (e == q + CHILD0 || e == q + CHILD1))
  {
    hide Links, Apart, Sub, SlotOf, ParOf, Has, Sorted;
    var u, e, q := Sub(t, lo, b, s), SlotOf(t, slot, lo, b, s), ParOf(t, slot, lo, b, s);
    SubFinds(t, lo, b, x, s);
    WalkEnd(m, t, slot, bin, lo, b, s);
    SpreadSubset(Ptrs(t), Ptrs(u));
    if Stops(t, b, s) {
      forall p | p in Ptrs(u) ensures !(p + FD <= e < p + 32) { assert p in Ptrs(t); }
    } else {
      SlotApart(Ptrs(t), q, e, Ptrs(u));
      LinkWordIn(e, q, Ptrs(t));
    }
  }

  /** Unlinking leaves exactly the trie without x. */
  lemma DropCorrect(m: Mem, t: Tree, slot: int, bin: int, lo: int, b: nat, x: int, s: int)
    requires Stored(m, t, slot, bin, lo, b) && Member(t, lo, b, x, s)
    ensures Sub(t, lo, b, s).Node? && x in Sub(t, lo, b, s).chain
    ensures var m' := DropStores(m, t, slot, lo, b, x, s);
      && Stored(m', Delete(t, lo, b, x, s), slot, bin, lo, b)
      && OnlyLinks(m, m', Ptrs(t), slot)
  {
    hide Links, LinkWord, Spread, Apart, Sub, SlotOf, ParOf, Sorted, OnlyLinks, Within, Untouched, Subst, Shrunk,
      UnlinkStores, Has;
    var u, e, q := Sub(t, lo, b, s), SlotOf(t, slot, lo, b, s), ParOf(t, slot, lo, b, s);
    NodeOf(m, t, slot, bin, lo, b, x, s);
    var m' := DropStores(m, t, slot, lo, b, x, s);
    UnlinkCorrect(m, u, x, e, q, bin);
    OthersUntouched(m, m', Ptrs(u), e, Ptrs(t), Ptrs(t) - Ptrs(u));
    EnlargeFrame(m, m', Ptrs(u), e, Ptrs(t), slot);
    SlotKept(m, m', t, b, s, Ptrs(u), e, slot, Ptrs(t));
    SubstLinks(m, m', t, slot, slot, bin, lo, b, s, Shrunk(u, x));
    DeleteCorrect(t, lo, b, x, s);
    SpreadSubset(Ptrs(t), Ptrs(t) - {x});
    LinkWordLess(slot, Ptrs(t), x);
  }

  lemma LinkWordLess(a: int, ps: set<int>, x: int)
    requires !LinkWord(a, ps)
    ensures !LinkWord(a, ps - {x})
  {
    forall p | p in ps - {x} ensures !(p + FD <= a < p + 32) {
      assert p in ps;
    }
  }
}
