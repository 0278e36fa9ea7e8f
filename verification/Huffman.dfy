/** The Huffman decoding tables of the decompressor: building them from code lengths. */
module Huffman {
  import opened Canonical
  import opened HuffSteps

  const FAST_LOOKUP_BITS := 10

  /** How many of the first n symbols have codes. */
  function UsedTo(ls: Lengths, n: nat): (r: nat)
    requires n <= |ls|
  {
    if n == 0 then 0 else UsedTo(ls, n - 1) + (if ls[n - 1] > 0 then 1 else 0)
  }

  class HuffTable {
    const codeSize: array<nat>
    const lookUp: array<int>
    const tree: array<int>
    // The interior nodes of the code that have a pair of cells.
    ghost var names: Names

    ghost predicate Valid() {
      codeSize.Length == 288 && lookUp.Length == LOOKUP && tree.Length == TREE && lookUp != tree
    }

    constructor ()
      ensures Valid() && fresh(codeSize) && fresh(lookUp) && fresh(tree)
    {
      codeSize := new nat[288];
      lookUp := new int[LOOKUP];
      tree := new int[TREE];
      names := [];
    }

    ghost function Lens(size: nat): Lengths
      requires Valid() && size <= 288
      reads codeSize
    {
      codeSize[..size]
    }

    /** Count the code lengths and set up the first code of each length. */
    method Tally(size: nat) returns (usedSyms: nat, total: nat, nextCode: array<nat>)
      requires Valid() && size <= 288 && Sizes(Lens(size))
      ensures fresh(nextCode) && nextCode.Length == 17
      ensures forall l :: 0 <= l <= 15 ==> nextCode[l] == First(Lens(size), l)
      ensures total == First(Lens(size), 16) && usedSyms == UsedTo(Lens(size), size)
    {
      ghost var ls := Lens(size);
      hide First, Sizes;
      var totalSyms := new nat[16](i => 0);
      for i := 0 to size
        invariant forall l :: 0 <= l < 16 ==> totalSyms[l] == CountTo(ls, i, l)
      {
        LengthIn(ls, i);
        totalSyms[codeSize[i]] := totalSyms[codeSize[i]] + 1;
      }
      usedSyms, total := 0, 0;
      nextCode := new nat[17](i => 0);
      hide CountTo;
      FirstZero(ls);
      for i := 1 to 16
        invariant forall l :: 0 <= l < 16 ==> totalSyms[l] == CountTo(ls, size, l)
        invariant usedSyms == UsedBelow(ls, i) && total == First(ls, i)
        invariant forall l :: 0 <= l <= i ==> nextCode[l] == First(ls, l)
      {
        usedSyms := usedSyms + totalSyms[i];
        total := (total + totalSyms[i]) * 2;
        nextCode[i + 1] := total;
        FirstNext(ls, i);
      }
      UsedIs(ls, size);
    }

    /** The bits of a code in the order in which they arrive. */
    static method Reverse(code: nat, l: nat) returns (rev: nat)
      requires code < Pow(l)
      ensures rev < Pow(l) && Prefix(rev, l) == code
    {
      hide Pow, Prefix;
      rev := 0;
      var cur := code;
      ReverseStart(code);
      for k := 0 to l
        invariant rev < Pow(k) && Prefix(rev, k) == code % Pow(k) && cur == code / Pow(k)
      {
        ReverseStep(code, rev, cur, k);
        rev := 2 * rev + cur % 2;
        cur := cur / 2;
      }
      Small(code, Pow(l));
    }

    /** Enter a short code wherever the low bits of the index are its bits. */
    method AddShort(sym: nat, rev: nat, ghost ls: Lengths, ghost names: Names)
      requires Valid() && Holds(ls, sym, names, lookUp[..], tree[..]) && sym < |ls| && 0 < ls[sym] <= 10
        && codeSize[sym] == ls[sym]
      requires sym < 288 && rev < Pow(ls[sym]) && Prefix(rev, ls[sym]) == Code(ls, sym)
      modifies lookUp
      ensures Holds(ls, sym + 1, names, lookUp[..], tree[..])
    {
      hide Holds, Prefix, Code, Pow;
      ghost var look0, tree0 := lookUp[..], tree[..];
      var size := codeSize[sym];
      var k := size * 512 + sym;
      var r := rev;
      PowPositive(size);
      while r < LOOKUP
        invariant rev <= r && Step(r, rev, Pow(size)) && tree[..] == tree0
        invariant forall i :: 0 <= i < LOOKUP ==> lookUp[i] == if i < r && Step(i, rev, Pow(size)) then k else look0[i]
        decreases LOOKUP - r
      {
        NextStep(r, rev, Pow(size));
        lookUp[r] := k;
        r := r + Pow(size);
      }
      forall i | 0 <= i < LOOKUP ensures Step(i, rev, Pow(size)) <==> Prefix(i, size) == Code(ls, sym) {
        StepIsPrefix(i, rev, size);
      }
      ShortSymbol(ls, sym, names, look0, lookUp[..], tree0);
    }

    /** The pair of cells for the first ten bits of a long code. */
    method EnterTree(rev: nat, treeNext: int, ghost ls: Lengths, ghost n: nat, ghost names: Names)
      returns (treeCur: int, next: int, ghost names': Names, ghost k: nat)
      requires Valid() && Holds(ls, n, names, lookUp[..], tree[..]) && treeNext == Ptr(|names|)
        && 2 * |names| + 2 <= TREE
      requires Interior(ls, 10, Prefix(rev, 10))
      modifies lookUp
      ensures Holds(ls, n, names', lookUp[..], tree[..]) && next == Ptr(|names'|) && names <= names'
        && |names'| <= |names| + 1
      ensures k < |names'| && names'[k] == (10, Prefix(rev, 10)) && treeCur == Ptr(k)
    {
      hide Holds, Prefix, Pow, Interior;
      ghost var look0 := lookUp[..];
      var r := rev % LOOKUP;
      LowTen(rev, 10);
      HoldsEntry(ls, n, names, look0, tree[..], r);
      treeCur, next, names' := lookUp[r], treeNext, names;
      if treeCur == 0 {
        AddRoot(ls, n, names, look0, tree[..], r);
        lookUp[r] := treeNext;
        assert lookUp[..] == look0[r := Ptr(|names|)];
        treeCur := treeNext;
        next := treeNext - 2;
        names' := names + [(10, Prefix(r, 10))];
        k := |names|;
      } else {
        k := EntryIndex(ls, n, names, r, treeCur);
      }
    }

    /** One bit further: the pair of cells for the next node. */
    method Descend(bit: nat, treeCur0: int, treeNext: int, ghost ls: Lengths, ghost n: nat, ghost names: Names,
        ghost k0: nat)
      returns (treeCur: int, next: int, ghost names': Names, ghost k: nat)
      requires Valid() && Holds(ls, n, names, lookUp[..], tree[..]) && treeNext == Ptr(|names|)
        && 2 * |names| + 2 <= TREE
      requires k0 < |names| && treeCur0 == Ptr(k0) && bit < 2 && Interior(ls, names[k0].0 + 1, 2 * names[k0].1 + bit)
      modifies tree
      ensures Holds(ls, n, names', lookUp[..], tree[..]) && next == Ptr(|names'|) && names <= names'
        && |names'| <= |names| + 1
      ensures k < |names'| && names'[k] == (names[k0].0 + 1, 2 * names[k0].1 + bit) && treeCur == Ptr(k)
    {
      hide Holds, Interior;
      ghost var tree0, look0 := tree[..], lookUp[..];
      HoldsPair(ls, n, names, look0, tree0, k0, bit);
      treeCur, next, names' := treeCur0 - bit, treeNext, names;
      assert -treeCur - 1 == 2 * k0 + bit;
      if tree[-treeCur - 1] == 0 {
        AddNode(ls, n, names, look0, tree0, k0, bit);
        tree[-treeCur - 1] := treeNext;
        assert tree[..] == tree0[2 * k0 + bit := Ptr(|names|)];
        treeCur := treeNext;
        next := treeNext - 2;
        names' := names + [(names[k0].0 + 1, 2 * names[k0].1 + bit)];
        k := |names|;
      } else {
        treeCur := tree[-treeCur - 1];
        k := CellIndex(ls, n, names, names[k0].0 + 1, 2 * names[k0].1 + bit, treeCur);
      }
    }

    /** Enter a long code: ten bits lead to the second table, and each further bit but the last to another
        pair of its cells. */
    method AddLong(sym: nat, rev0: nat, treeNext0: int, ghost ls: Lengths, ghost names0: Names)
      returns (treeNext: int, ghost names: Names)
      requires Valid() && Holds(ls, sym, names0, lookUp[..], tree[..]) && sym < |ls| && ls[sym] > 10 && sym < 288
        && codeSize[sym] == ls[sym]
      requires rev0 < Pow(ls[sym]) && Prefix(rev0, ls[sym]) == Code(ls, sym)
      requires treeNext0 == Ptr(|names0|)
        && (Complete(ls) || (UsedTo(ls, |ls|) <= 1 && |names0| <= 5 * UsedTo(ls, sym)))
      modifies lookUp, tree
      ensures Holds(ls, sym + 1, names, lookUp[..], tree[..]) && treeNext == Ptr(|names|)
      ensures Complete(ls) || |names| <= 5 * UsedTo(ls, sym + 1)
    {
      hide Holds, Prefix, Code, Pow, Interior, Complete, UsedTo, WayDown;
      var size := codeSize[sym];
      HoldsFacts(ls, sym, names0, lookUp[..], tree[..]);
      OnWayDown(ls, sym, rev0, 10);
      RoomLeft(ls, sym, names0, lookUp[..], tree[..], names0, 0);
      var treeCur: int;
      ghost var k: nat;
      treeCur, treeNext, names, k := EnterTree(rev0, treeNext0, ls, sym, names0);
      var rev := rev0 / Pow(9);
      ghost var d := 10;
      WayStart(names, rev0, k);
      var j := size;
      while j > 11
        invariant 11 <= j && d == 10 + size - j && rev == rev0 / Pow(d - 1) && treeNext == Ptr(|names|)
          && treeCur == Ptr(k)
        invariant Holds(ls, sym, names, lookUp[..], tree[..]) && k < |names| && names[k] == (d, Prefix(rev0, d))
        invariant |names| <= |names0| + d - 9 && WayDown(names, rev0, d)
      {
        RoomLeft(ls, sym, names, lookUp[..], tree[..], names0, d - 9);
        NextBit(rev0, d);
        OnWayDown(ls, sym, rev0, d + 1);
        rev := rev / 2;
        ghost var before := names;
        treeCur, treeNext, names, k := Descend(rev % 2, treeCur, treeNext, ls, sym, names, k);
        d := d + 1;
        WayNext(before, names, rev0, d, k);
        j := j - 1;
      }
      NextBit(rev0, d);
      rev := rev / 2;
      treeCur := treeCur - rev % 2;
      ghost var tree1 := tree[..];
      HoldsPair(ls, sym, names, lookUp[..], tree1, k, rev % 2);
      PathDown(ls, names, sym, rev0);
      CodeHalves(ls, sym, rev0, d);
      SetLeaf(ls, sym, names, lookUp[..], tree1, k, rev % 2);
      assert -treeCur - 1 == 2 * k + rev % 2;
      tree[-treeCur - 1] := sym;
      assert tree[..] == tree1[2 * k + rev % 2 := sym];
      UsedOne(ls, sym);
    }

    /** Enter the codes one after the other. */
    method EnterAll(size: nat, nextCode: array<nat>, ghost ls: Lengths) returns (ghost names: Names)
      requires Valid() && size <= 288 && ls == Lens(size) && Sizes(ls) && nextCode.Length == 17 && nextCode != codeSize
      requires Holds(ls, 0, [], lookUp[..], tree[..]) && (Complete(ls) || UsedTo(ls, size) <= 1)
      requires forall l :: 0 < l <= 15 ==> nextCode[l] == First(ls, l)
      modifies lookUp, tree, nextCode
      ensures Holds(ls, size, names, lookUp[..], tree[..])
    {
      hide Holds, Prefix, Code, Complete, Sizes, First, UsedTo, Pow, CountTo;
      names := [];
      var treeNext := -1;
      CountsZero(ls);
      UsedZero(ls);
      for sym := 0 to size
        invariant Holds(ls, sym, names, lookUp[..], tree[..]) && treeNext == Ptr(|names|) && codeSize[..size] == ls
        invariant Complete(ls) || (UsedTo(ls, size) <= 1 && |names| <= 5 * UsedTo(ls, sym))
        invariant forall l :: 0 < l <= 15 ==> nextCode[l] == First(ls, l) + CountTo(ls, sym, l)
      {
        treeNext, names := EnterCode(sym, size, nextCode, treeNext, ls, names);
      }
    }

    method EnterCode(sym: nat, size: nat, nextCode: array<nat>, treeNext0: int, ghost ls: Lengths,
        ghost names0: Names) returns (treeNext: int, ghost names: Names)
      requires Valid() && sym < size <= 288 && ls == Lens(size) && Sizes(ls) && nextCode.Length == 17
        && nextCode != codeSize
      requires Holds(ls, sym, names0, lookUp[..], tree[..]) && treeNext0 == Ptr(|names0|)
      requires Complete(ls) || (UsedTo(ls, size) <= 1 && |names0| <= 5 * UsedTo(ls, sym))
      requires forall l :: 0 < l <= 15 ==> nextCode[l] == First(ls, l) + CountTo(ls, sym, l)
      modifies lookUp, tree, nextCode
      ensures Holds(ls, sym + 1, names, lookUp[..], tree[..]) && treeNext == Ptr(|names|) && codeSize[..size] == ls
      ensures Complete(ls) || |names| <= 5 * UsedTo(ls, sym + 1)
      ensures forall l :: 0 < l <= 15 ==> nextCode[l] == First(ls, l) + CountTo(ls, sym + 1, l)
    {
      hide Holds, Prefix, Code, Complete, Sizes, First, UsedTo, Pow, CountTo;
      LengthIn(ls, sym);
      HoldsFacts(ls, sym, names0, lookUp[..], tree[..]);
      var codeLen := codeSize[sym];
      UsedOne(ls, sym);
      forall l | 0 < l <= 15 ensures CountTo(ls, sym + 1, l)
        == CountTo(ls, sym, l) + (if l == codeLen then 1 else 0) { CountsOne(ls, sym, l); }
      treeNext, names := treeNext0, names0;
      if codeLen == 0 {
        SkipSymbol(ls, sym, names, lookUp[..], tree[..]);
      } else {
        var curCode := nextCode[codeLen];
        nextCode[codeLen] := curCode + 1;
        CodeRoom(ls, sym);
        var rev := Reverse(curCode, codeLen);
        if codeLen <= FAST_LOOKUP_BITS {
          AddShort(sym, rev, ls, names);
        } else {
          treeNext, names := AddLong(sym, rev, treeNext, ls, names);
        }
      }
    }

    /** The tables are those of the code with these lengths. */
    ghost predicate Built(ls: Lengths)
      requires Valid()
      reads this, lookUp, tree
    {
      Holds(ls, |ls|, names, lookUp[..], tree[..])
    }

    /** The tables of a complete code decode every bit string: to the one symbol whose code it starts with. */
    lemma DecodesAll(ls: Lengths, b: nat) returns (s: nat)
      requires Valid() && Built(ls) && Complete(ls)
      ensures Matches(ls, b, s) && Lookup(lookUp[..], tree[..], b) == (s, ls[s])
      ensures forall t: nat :: Matches(ls, b, t) ==> t == s
    {
      hide Holds, Matches, Complete;
      s := SomeMatch(ls, b);
      LookupCorrect(ls, names, lookUp[..], tree[..], b, s);
      forall t: nat | Matches(ls, b, t) ensures t == s {
        OneMatch(ls, b, s, t);
      }
    }

    /** Build the tables for the code lengths of the first `size` symbols.  This fails exactly when there
        is more than one code and the codes do not use up the room exactly; otherwise every bit string
        that starts with a code decodes to its symbol and its length. */
    method Build(size: nat) returns (ok: bool)
      requires Valid() && size <= 288 && Sizes(Lens(size))
      modifies this, lookUp, tree
      ensures ok <==> Complete(Lens(size)) || UsedTo(Lens(size), size) <= 1
      ensures ok ==> forall b: nat, s: nat :: Matches(Lens(size), b, s) ==>
        Lookup(lookUp[..], tree[..], b) == (s, Lens(size)[s] as int)
      ensures ok ==> Built(Lens(size))
    {
      ghost var ls := Lens(size);
      hide Holds, Prefix, Code, Complete, Sizes, First, UsedTo, Pow, CountTo, Matches, Lookup;
      var usedSyms, total, nextCode := Tally(size);
      CompleteIs(ls);
      if total != 65536 && usedSyms > 1 {
        return false;
      }
      forall i | 0 <= i < LOOKUP { lookUp[i] := 0; }
      forall i | 0 <= i < TREE { tree[i] := 0; }
      FewFit(ls, size);
      HoldsNothing(ls, lookUp[..], tree[..]);
      names := EnterAll(size, nextCode, ls);
      ok := true;
      forall b: nat, s: nat | Matches(ls, b, s) ensures Lookup(lookUp[..], tree[..], b) == (s, ls[s] as int) {
        LookupCorrect(ls, names, lookUp[..], tree[..], b, s);
      }
    }
  }

  /** How many symbols have codes shorter than l. */
  function UsedBelow(ls: Lengths, l: nat): nat {
    if l <= 1 then 0 else UsedBelow(ls, l - 1) + Count(ls, l - 1)
  }

  function UsedBelowTo(ls: Lengths, n: nat, l: nat): nat
    requires n <= |ls|
  {
    if l <= 1 then 0 else UsedBelowTo(ls, n, l - 1) + CountTo(ls, n, l - 1)
  }

  lemma {:induction false} BelowNext(ls: Lengths, n: nat, l: nat)
    requires n < |ls|
    ensures UsedBelowTo(ls, n + 1, l) == UsedBelowTo(ls, n, l) + if 0 < ls[n] < l then 1 else 0
  {
    if l > 1 { BelowNext(ls, n, l - 1); }
  }

  lemma {:induction false} UsedBelowIs(ls: Lengths, n: nat)
    requires n <= |ls| && Sizes(ls)
    ensures UsedBelowTo(ls, n, 16) == UsedTo(ls, n)
  {
    if n > 0 {
      UsedBelowIs(ls, n - 1);
      BelowNext(ls, n - 1, 16);
    } else {
      NoneBelow(ls, 16);
    }
  }

  lemma {:induction false} NoneBelow(ls: Lengths, l: nat)
    ensures UsedBelowTo(ls, 0, l) == 0
  {
    if l > 1 { NoneBelow(ls, l - 1); }
  }

  lemma {:induction false} BelowAll(ls: Lengths, l: nat)
    ensures UsedBelow(ls, l) == UsedBelowTo(ls, |ls|, l)
  {
    if l > 1 { BelowAll(ls, l - 1); }
  }

  lemma UsedIs(ls: Lengths, size: nat)
    requires size == |ls| && Sizes(ls)
    ensures UsedBelow(ls, 16) == UsedTo(ls, size)
  {
    BelowAll(ls, 16);
    UsedBelowIs(ls, size);
  }

  lemma LengthIn(ls: Lengths, i: nat)
    requires Sizes(ls) && i < |ls|
    ensures ls[i] <= 15
  {
  }

  lemma FirstZero(ls: Lengths)
    ensures First(ls, 0) == 0 && First(ls, 1) == 0
  {
  }

  lemma FirstNext(ls: Lengths, i: nat)
    requires i >= 1
    ensures First(ls, i + 1) == (First(ls, i) + CountTo(ls, |ls|, i)) * 2
    ensures UsedBelow(ls, i + 1) == UsedBelow(ls, i) + CountTo(ls, |ls|, i)
  {
  }

  // ----- codes and their reversals -----

  lemma ReverseStart(code: nat)
    ensures Prefix(0, 0) == code % Pow(0) && code == code / Pow(0) && Pow(0) == 1
  {
  }

  lemma ReverseStep(code: nat, rev: nat, cur: nat, k: nat)
    requires rev < Pow(k) && Prefix(rev, k) == code % Pow(k) && cur == code / Pow(k)
    ensures 2 * rev + cur % 2 < Pow(k + 1) && Prefix(2 * rev + cur % 2, k + 1) == code % Pow(k + 1)
      && cur / 2 == code / Pow(k + 1)
  {
    PrefixShift(rev, cur % 2, k);
    ModStep(code, Pow(k));
    QuotientTwice(code, Pow(k));
  }

  lemma QuotientTwice(a: nat, p: nat)
    requires p >= 1
    ensures a / p / 2 == a / (2 * p)
  {
    var q := a / p;
    Euclid(a, p);
    Split(q, p);
    assert q % 2 * p == if q % 2 == 0 then 0 else p;
    DivIs(a, 2 * p, q / 2, q % 2 * p + a % p);
  }

  lemma PowPositive(n: nat)
    ensures Pow(n) >= 1
  {
  }

  /** The indices whose low bits are those of rev. */
  ghost predicate Step(i: nat, rev: nat, p: nat)
    requires p >= 1
  {
    i % p == rev
  }

  lemma NextStep(r: nat, rev: nat, p: nat)
    requires p >= 1 && Step(r, rev, p)
    ensures Step(r + p, rev, p)
    ensures forall i: nat :: r < i < r + p ==> !Step(i, rev, p)
  {
    var q := r / p;
    DivIs(r + p, p, q + 1, rev);
    forall i: nat | r < i < r + p ensures i % p != rev {
      Euclid(i, p);
      var d := i / p - q;
      assert d * p == i / p * p - q * p;
      Multiple(d, p);
    }
  }

  lemma StepIsPrefix(i: nat, rev: nat, l: nat)
    requires rev < Pow(l)
    ensures Step(i, rev, Pow(l)) <==> Prefix(i, l) == Prefix(rev, l)
  {
    Small(rev, Pow(l));
    PrefixMod(i, l, l);
    PrefixMod(rev, l, l);
    if Prefix(i, l) == Prefix(rev, l) { PrefixInjective(i, rev, l); }
  }

  lemma CodeRoom(ls: Lengths, s: nat)
    requires Fits(ls) && s < |ls| && ls[s] > 0
    ensures Code(ls, s) < Pow(ls[s]) && Code(ls, s) == First(ls, ls[s]) + CountTo(ls, s, ls[s])
  {
    CodeRange(ls, s);
    Room(ls, ls[s]);
  }

  // ----- finding the pair a cell refers to -----

  lemma EntryIndex(ls: Lengths, n: nat, names: Names, r: nat, e: int) returns (k: nat)
    requires EntryOk(ls, n, names, r, e) && e != 0 && Interior(ls, 10, Prefix(r, 10))
    ensures k < |names| && names[k] == (10, Prefix(r, 10)) && e == Ptr(k)
  {
    if e > 0 {
      var s: nat :| Short(ls, n, r, s);
      ShortNotInterior(ls, r, s, n);
    }
    k :| 0 <= k < |names| && names[k] == (10, Prefix(r, 10)) && e == Ptr(k);
  }

  lemma CellIndex(ls: Lengths, n: nat, names: Names, d: nat, v: nat, c: int) returns (k: nat)
    requires CellOk(ls, n, names, d, v, c) && c != 0 && Interior(ls, d, v)
    ensures k < |names| && names[k] == (d, v) && c == Ptr(k)
  {
    if c > 0 { LeafNotInterior(ls, c); }
    k :| 0 <= k < |names| && names[k] == (d, v) && c == Ptr(k);
  }

  // ----- the way down to a long code -----

  lemma HoldsFacts(ls: Lengths, n: nat, names: Names, look: seq<int>, tree: seq<int>)
    requires Holds(ls, n, names, look, tree)
    ensures |ls| <= 288 && Fits(ls) && NamesOk(ls, names) && 2 * |names| <= TREE
    ensures forall s :: 0 <= s < |ls| ==> ls[s] <= 15
  {
    hide PathOk, NamesOk, EntryOk, PairOk, First;
  }

  lemma OnWayDown(ls: Lengths, s: nat, rev: nat, d: nat)
    requires s < |ls| && Fits(ls) && Prefix(rev, ls[s]) == Code(ls, s)
    ensures 10 <= d < ls[s] ==> Interior(ls, d, Prefix(rev, d))
  {
    if 10 <= d < ls[s] {
      OnTheWay(ls, s, d);
      PrefixOfPrefix(rev, d, ls[s]);
    }
  }

  lemma RoomLeft(ls: Lengths, n: nat, names: Names, look: seq<int>, tree: seq<int>, names0: Names, k: nat)
    requires Holds(ls, n, names, look, tree) && n < |ls| && ls[n] > 0 && |names| <= |names0| + k && k <= 6
    requires Complete(ls) || (UsedTo(ls, |ls|) <= 1 && |names0| <= 5 * UsedTo(ls, n))
    ensures 2 * |names| + 2 <= TREE
  {
    HoldsFacts(ls, n, names, look, tree);
    hide Holds, NamesOk;
    if Complete(ls) {
      if names != [] { RoomForNames(ls, names); }
    } else {
      UsedGrows(ls, n + 1, |ls|);
    }
  }

  lemma {:induction false} UsedGrows(ls: Lengths, m: nat, n: nat)
    requires m <= n <= |ls|
    ensures UsedTo(ls, m) <= UsedTo(ls, n)
    decreases n - m
  {
    if m < n { UsedGrows(ls, m + 1, n); }
  }

  lemma UsedOne(ls: Lengths, n: nat)
    requires n < |ls|
    ensures UsedTo(ls, n + 1) == UsedTo(ls, n) + if ls[n] > 0 then 1 else 0
  {
  }

  lemma UsedZero(ls: Lengths)
    ensures UsedTo(ls, 0) == 0
  {
  }

  /** The nodes from ten bits down to depth d have cells. */
  ghost predicate WayDown(names: Names, rev: nat, d: nat) {
    forall e: nat :: 10 <= e <= d ==> Way(rev, e) in names
  }

  function Way(rev: nat, e: nat): (nat, nat) {
    (e, Prefix(rev, e))
  }

  lemma WayStart(names: Names, rev: nat, k: nat)
    requires k < |names| && names[k] == (10, Prefix(rev, 10))
    ensures WayDown(names, rev, 10)
  {
    hide Prefix;
  }

  lemma WayNext(before: Names, names: Names, rev: nat, d: nat, k: nat)
    requires d > 10 && WayDown(before, rev, d - 1) && before <= names && k < |names| && names[k] == (d, Prefix(rev, d))
    ensures WayDown(names, rev, d)
  {
    hide Prefix;
    forall e: nat | 10 <= e <= d ensures Way(rev, e) in names {
      if e < d {
        assert Way(rev, e) in before;
        Inherit(before, names, Way(rev, e));
      }
    }
  }

  lemma Inherit(before: Names, names: Names, x: (nat, nat))
    requires before <= names && x in before
    ensures x in names
  {
    var k :| 0 <= k < |before| && before[k] == x;
    assert names[k] == x;
  }

  lemma NextBit(rev: nat, d: nat)
    requires d >= 1
    ensures rev / Pow(d - 1) / 2 == rev / Pow(d) && rev / Pow(d) % 2 == Bit(rev, d)
    ensures Prefix(rev, d + 1) == 2 * Prefix(rev, d) + rev / Pow(d) % 2
  {
    QuotientTwice(rev, Pow(d - 1));
  }

  lemma PathDown(ls: Lengths, names: Names, s: nat, rev: nat)
    requires s < |ls| && ls[s] > 10 && Prefix(rev, ls[s]) == Code(ls, s) && WayDown(names, rev, ls[s] - 1)
    ensures PathOk(ls, names, s)
  {
    hide Prefix, Code, Pow;
    forall d | 10 <= d < ls[s] ensures Node(ls, s, d) in names {
      PrefixOfPrefix(rev, d, ls[s]);
      assert Way(rev, d) in names;
    }
  }

  lemma CodeHalves(ls: Lengths, s: nat, rev: nat, d: nat)
    requires s < |ls| && ls[s] == d + 1 && Prefix(rev, d + 1) == Code(ls, s)
    ensures Code(ls, s) / 2 == Prefix(rev, d) && Code(ls, s) % 2 == rev / Pow(d) % 2
  {
    hide Code;
    assert Prefix(rev, d + 1) == 2 * Prefix(rev, d) + Bit(rev, d);
  }

  // ----- the start -----

  lemma CompleteIs(ls: Lengths)
    ensures Sizes(ls) ==> (Complete(ls) <==> First(ls, 16) == 65536)
  {
  }

  lemma {:induction false} KraftBound(ls: Lengths, n: nat)
    requires n <= |ls|
    ensures KraftTo(ls, n, 15) <= UsedTo(ls, n) * Pow(14)
  {
    if n > 0 {
      KraftBound(ls, n - 1);
      if 0 < ls[n - 1] <= 15 { PowGrows(15 - ls[n - 1], 14); }
      assert UsedTo(ls, n) * Pow(14) == UsedTo(ls, n - 1) * Pow(14) + if ls[n - 1] > 0 then Pow(14) else 0;
    }
  }

  /** A single code always fits. */
  lemma FewFit(ls: Lengths, size: nat)
    requires Sizes(ls) && size == |ls| && (Complete(ls) || UsedTo(ls, size) <= 1)
    ensures Fits(ls)
  {
    if !Complete(ls) {
      KraftBound(ls, size);
      KraftIs(ls, 15);
      assert UsedTo(ls, size) * Pow(14) <= Pow(14);
      Powers();
    }
  }

  lemma HoldsNothing(ls: Lengths, look: seq<int>, tree: seq<int>)
    requires |ls| <= 288 && Fits(ls) && |look| == LOOKUP && |tree| == TREE
    requires (forall i :: 0 <= i < LOOKUP ==> look[i] == 0) && (forall i :: 0 <= i < TREE ==> tree[i] == 0)
    ensures Holds(ls, 0, [], look, tree)
  {
    hide Prefix, Code, First;
  }

  lemma CountsZero(ls: Lengths)
    ensures forall l :: CountTo(ls, 0, l) == 0
  {
  }

  lemma CountsOne(ls: Lengths, n: nat, l: nat)
    requires n < |ls|
    ensures CountTo(ls, n + 1, l) == CountTo(ls, n, l) + if ls[n] == l then 1 else 0
  {
  }
}
