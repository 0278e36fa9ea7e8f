/** Bitwise tries keyed on chunk size, as values.  A trie node stands for one chunk size; its `chain`
    lists the chunks of that size, the first of them being the one that carries the tree links.
    The trie at depth d inspects one bit of the size: a node covers an interval [lo, lo + 2^b),
    its left subtree the lower half and its right subtree the upper half. */
module Trie {
  import opened Seqs

  datatype Tree = Nil | Node(size: int, chain: seq<int>, left: Tree, right: Tree)

  function Pow2(b: nat): (r: int)
    ensures r >= 1
  {
    if b == 0 then 1 else 2 * Pow2(b - 1)
  }

  function Root(t: Tree): int {
    if t.Node? && t.chain != [] then t.chain[0] else 0
  }

  function Ptrs(t: Tree): set<int> {
    match t
    case Nil => {}
    case Node(_, chain, l, r) => SetOf(chain) + Ptrs(l) + Ptrs(r)
  }

  function Sizes(t: Tree): set<int> {
    match t
    case Nil => {}
    case Node(s, _, l, r) => {s} + Sizes(l) + Sizes(r)
  }

  /** Chunk p of size s is in the trie. */
  predicate Has(t: Tree, p: int, s: int) {
    t.Node? && ((t.size == s && p in t.chain) || Has(t.left, p, s) || Has(t.right, p, s))
  }

  function Mid(lo: int, b: nat): int
    requires b > 0
  {
    lo + Pow2(b - 1)
  }

  /** Every node lies on the path its size bits spell, and no two nodes have the same size. */
  ghost predicate Sorted(t: Tree, lo: int, b: nat)
    decreases t
  {
    match t
    case Nil => true
    case Node(s, chain, l, r) =>
      && lo <= s < lo + Pow2(b)
      && chain != []
      && s !in Sizes(l) && s !in Sizes(r)
      && if b == 0 then l.Nil? && r.Nil? else Sorted(l, lo, b - 1) && Sorted(r, Mid(lo, b), b - 1)
  }

  /** No chunk occurs twice. */
  ghost predicate Apart(t: Tree) {
    match t
    case Nil => true
    case Node(_, chain, l, r) =>
      NoDup(chain) && SetOf(chain) !! Ptrs(l) && SetOf(chain) !! Ptrs(r) && Ptrs(l) !! Ptrs(r) && Apart(l) && Apart(r)
  }

  function Height(t: Tree): nat {
    match t
    case Nil => 0
    case Node(_, _, l, r) => 1 + if Height(l) < Height(r) then Height(r) else Height(l)
  }

  /** A path never has more nodes than the interval has bits, plus one. */
  lemma {:induction false} HeightBounded(t: Tree, lo: int, b: nat)
    requires Sorted(t, lo, b)
    ensures Height(t) <= b + 1
    decreases t
  {
    if t.Node? && b > 0 {
      HeightBounded(t.left, lo, b - 1);
      HeightBounded(t.right, Mid(lo, b), b - 1);
    }
  }

  /** Every size lies in the interval its subtree covers. */
  lemma {:induction false} SizesInRange(t: Tree, lo: int, b: nat)
    requires Sorted(t, lo, b)
    ensures forall s :: s in Sizes(t) ==> lo <= s < lo + Pow2(b)
    decreases t
  {
    if t.Node? && b > 0 {
      SizesInRange(t.left, lo, b - 1);
      SizesInRange(t.right, Mid(lo, b), b - 1);
    }
  }

  /** Left sizes are below right sizes. */
  lemma LeftBelowRight(t: Tree, lo: int, b: nat)
    requires Sorted(t, lo, b) && t.Node?
    ensures forall x, y :: x in Sizes(t.left) && y in Sizes(t.right) ==> x < y
  {
    if b > 0 {
      SizesInRange(t.left, lo, b - 1);
      SizesInRange(t.right, Mid(lo, b), b - 1);
    }
  }

  lemma {:induction false} HasProjects(t: Tree, p: int, s: int)
    requires Has(t, p, s)
    ensures p in Ptrs(t) && s in Sizes(t)
  {
    if t.size == s && p in t.chain {
    } else if Has(t.left, p, s) {
      HasProjects(t.left, p, s);
    } else {
      HasProjects(t.right, p, s);
    }
  }

  lemma {:induction false} PtrHasSize(t: Tree, p: int) returns (s: int)
    requires p in Ptrs(t)
    ensures Has(t, p, s)
  {
    if p in t.chain { s := t.size; }
    else if p in Ptrs(t.left) { s := PtrHasSize(t.left, p); }
    else { s := PtrHasSize(t.right, p); }
  }

  lemma {:induction false} SizeHasPtr(t: Tree, lo: int, b: nat, s: int) returns (p: int)
    requires Sorted(t, lo, b) && s in Sizes(t)
    ensures Has(t, p, s)
    decreases t
  {
    if s == t.size { p := t.chain[0]; }
    else if s in Sizes(t.left) { p := SizeHasPtr(t.left, lo, b - 1, s); }
    else { p := SizeHasPtr(t.right, Mid(lo, b), b - 1, s); }
  }

  // ----- walking to a size -----

  /** The subtree at which the walk towards size s stops: a node of that size, or an empty link. */
  function Sub(t: Tree, lo: int, b: nat, s: int): Tree
    decreases t
  {
    if t.Nil? || t.size == s || b == 0 then t
    else if s < Mid(lo, b) then Sub(t.left, lo, b - 1, s)
    else Sub(t.right, Mid(lo, b), b - 1, s)
  }

  /** The trie with that subtree replaced. */
  function Subst(t: Tree, lo: int, b: nat, s: int, u: Tree): Tree
    decreases t
  {
    if t.Nil? || t.size == s || b == 0 then u
    else if s < Mid(lo, b) then t.(left := Subst(t.left, lo, b - 1, s, u))
    else t.(right := Subst(t.right, Mid(lo, b), b - 1, s, u))
  }

  /** The interval that subtree covers. */
  function SubLo(t: Tree, lo: int, b: nat, s: int): int
    decreases t
  {
    if t.Nil? || t.size == s || b == 0 then lo
    else if s < Mid(lo, b) then SubLo(t.left, lo, b - 1, s)
    else SubLo(t.right, Mid(lo, b), b - 1, s)
  }

  function SubBits(t: Tree, lo: int, b: nat, s: int): (r: nat)
    ensures r <= b
    decreases t
  {
    if t.Nil? || t.size == s || b == 0 then b
    else if s < Mid(lo, b) then SubBits(t.left, lo, b - 1, s)
    else SubBits(t.right, Mid(lo, b), b - 1, s)
  }

  lemma {:induction false} SubInside(t: Tree, lo: int, b: nat, s: int)
    ensures Ptrs(Sub(t, lo, b, s)) <= Ptrs(t)
    ensures Sizes(Sub(t, lo, b, s)) <= Sizes(t)
    decreases t
  {
    if t.Nil? || t.size == s || b == 0 {
    } else if s < Mid(lo, b) {
      SubInside(t.left, lo, b - 1, s);
    } else {
      SubInside(t.right, Mid(lo, b), b - 1, s);
    }
  }

  lemma {:induction false} SubSorted(t: Tree, lo: int, b: nat, s: int)
    requires Sorted(t, lo, b) && lo <= s < lo + Pow2(b)
    ensures Sorted(Sub(t, lo, b, s), SubLo(t, lo, b, s), SubBits(t, lo, b, s))
    ensures SubLo(t, lo, b, s) <= s < SubLo(t, lo, b, s) + Pow2(SubBits(t, lo, b, s))
    ensures Sub(t, lo, b, s).Node? ==> Sub(t, lo, b, s).size == s
    decreases t
  {
    if t.Nil? || t.size == s || b == 0 {
    } else if s < Mid(lo, b) {
      SubSorted(t.left, lo, b - 1, s);
    } else {
      SubSorted(t.right, Mid(lo, b), b - 1, s);
    }
  }

  lemma {:induction false} SubApart(t: Tree, lo: int, b: nat, s: int)
    requires Apart(t)
    ensures Apart(Sub(t, lo, b, s))
    decreases t
  {
    if t.Nil? || t.size == s || b == 0 {
    } else if s < Mid(lo, b) {
      SubApart(t.left, lo, b - 1, s);
    } else {
      SubApart(t.right, Mid(lo, b), b - 1, s);
    }
  }

  lemma HasNot(t: Tree, lo: int, b: nat, p: int, s: int)
    requires Sorted(t, lo, b) && !(lo <= s < lo + Pow2(b))
    ensures !Has(t, p, s)
  {
    if Has(t, p, s) {
      HasProjects(t, p, s);
      SizesInRange(t, lo, b);
    }
  }

  /** The walk finds every chunk of size s: in a sorted trie all of them hang off one node. */
  lemma {:induction false} SubFinds(t: Tree, lo: int, b: nat, p: int, s: int)
    requires Sorted(t, lo, b) && lo <= s < lo + Pow2(b)
    ensures Has(t, p, s) <==> Sub(t, lo, b, s).Node? && p in Sub(t, lo, b, s).chain
    decreases t
  {
    if t.Nil? {
    } else if t.size == s {
      if Has(t.left, p, s) { HasProjects(t.left, p, s); }
      if Has(t.right, p, s) { HasProjects(t.right, p, s); }
    } else if s < Mid(lo, b) {
      SubFinds(t.left, lo, b - 1, p, s);
      HasNot(t.right, Mid(lo, b), b - 1, p, s);
    } else {
      SubFinds(t.right, Mid(lo, b), b - 1, p, s);
      HasNot(t.left, lo, b - 1, p, s);
    }
  }

  /** Replacing the subtree the walk stops at keeps the trie sorted,
      provided the new one brings no other size than s. */
  lemma {:induction false} SubstSorted(t: Tree, lo: int, b: nat, s: int, u: Tree)
    requires Sorted(t, lo, b) && lo <= s < lo + Pow2(b)
    requires Sorted(u, SubLo(t, lo, b, s), SubBits(t, lo, b, s))
    requires Sizes(u) <= Sizes(Sub(t, lo, b, s)) + {s}
    ensures Sorted(Subst(t, lo, b, s, u), lo, b)
    ensures Sizes(Subst(t, lo, b, s, u)) <= Sizes(t) + {s}
    decreases t
  {
    if t.Nil? || t.size == s || b == 0 {
    } else if s < Mid(lo, b) {
      SubstSorted(t.left, lo, b - 1, s, u);
    } else {
      SubstSorted(t.right, Mid(lo, b), b - 1, s, u);
    }
  }

  lemma {:induction false} SubstPtrs(t: Tree, lo: int, b: nat, s: int, u: Tree)
    requires Apart(t)
    ensures Ptrs(Subst(t, lo, b, s, u)) == (Ptrs(t) - Ptrs(Sub(t, lo, b, s))) + Ptrs(u)
    decreases t
  {
    SubInside(t, lo, b, s);
    if t.Nil? || t.size == s || b == 0 {
    } else if s < Mid(lo, b) {
      SubInside(t.left, lo, b - 1, s);
      SubstPtrs(t.left, lo, b - 1, s, u);
    } else {
      SubInside(t.right, Mid(lo, b), b - 1, s);
      SubstPtrs(t.right, Mid(lo, b), b - 1, s, u);
    }
  }

  lemma {:induction false} SubstApart(t: Tree, lo: int, b: nat, s: int, u: Tree)
    requires Apart(t) && Apart(u)
    requires Ptrs(u) !! (Ptrs(t) - Ptrs(Sub(t, lo, b, s)))
    ensures Apart(Subst(t, lo, b, s, u))
    decreases t
  {
    if t.Nil? || t.size == s || b == 0 {
    } else if s < Mid(lo, b) {
      SubInside(t.left, lo, b - 1, s);
      SubstPtrs(t.left, lo, b - 1, s, u);
      SubstApart(t.left, lo, b - 1, s, u);
    } else {
      SubInside(t.right, Mid(lo, b), b - 1, s);
      SubstPtrs(t.right, Mid(lo, b), b - 1, s, u);
      SubstApart(t.right, Mid(lo, b), b - 1, s, u);
    }
  }

  /** What such a replacement does to the contents. */
  lemma {:induction false} SubstHas(t: Tree, lo: int, b: nat, s: int, u: Tree, p: int, z: int)
    requires Apart(t)
    ensures Has(Subst(t, lo, b, s, u), p, z) <==> (Has(t, p, z) && !Has(Sub(t, lo, b, s), p, z)) || Has(u, p, z)
    decreases t
  {
    var v := Sub(t, lo, b, s);
    if t.Nil? || t.size == s || b == 0 {
    } else {
      SubInside(t.left, lo, b - 1, s);
      SubInside(t.right, Mid(lo, b), b - 1, s);
      if Has(v, p, z) { HasProjects(v, p, z); }
      if Has(t.left, p, z) { HasProjects(t.left, p, z); }
      if Has(t.right, p, z) { HasProjects(t.right, p, z); }
      if s < Mid(lo, b) {
        SubstHas(t.left, lo, b - 1, s, u, p, z);
      } else {
        SubstHas(t.right, Mid(lo, b), b - 1, s, u, p, z);
      }
    }
  }

  // ----- insertion -----

  /** What insertion puts at the end of the walk: a fresh node, or one more chunk behind the chain's head. */
  function Grown(u: Tree, x: int, s: int): Tree {
    if u.Node? && u.chain != [] then u.(chain := Second(u.chain, x)) else Node(s, [x], Nil, Nil)
  }

  function Insert(t: Tree, lo: int, b: nat, x: int, s: int): Tree {
    Subst(t, lo, b, s, Grown(Sub(t, lo, b, s), x, s))
  }

  lemma GrownProps(u: Tree, lo: int, b: nat, x: int, s: int)
    requires Sorted(u, lo, b) && Apart(u) && lo <= s < lo + Pow2(b) && x !in Ptrs(u)
    requires u.Node? ==> u.size == s
    ensures Sorted(Grown(u, x, s), lo, b) && Apart(Grown(u, x, s))
    ensures Ptrs(Grown(u, x, s)) == Ptrs(u) + {x} && Sizes(Grown(u, x, s)) == Sizes(u) + {s}
  {
    if u.Node? {
      SecondSet(u.chain, x);
    } else {
      assert SetOf([x]) == {x};
    }
  }

  lemma GrownHas(u: Tree, x: int, s: int, p: int, z: int)
    requires u.Node? ==> u.size == s && u.chain != [] && NoDup(u.chain) && x !in u.chain
    ensures Has(Grown(u, x, s), p, z) <==> Has(u, p, z) || (p == x && z == s)
  {
    if u.Node? {
      SecondSet(u.chain, x);
      assert p in SetOf(Second(u.chain, x)) <==> p in SetOf(u.chain) || p == x;
    }
  }

  /** Insertion adds exactly the given chunk and keeps the trie invariant. */
  lemma InsertCorrect(t: Tree, lo: int, b: nat, x: int, s: int)
    requires Sorted(t, lo, b) && Apart(t) && lo <= s < lo + Pow2(b) && x !in Ptrs(t)
    ensures var t' := Insert(t, lo, b, x, s);
      && Sorted(t', lo, b) && Apart(t') && Ptrs(t') == Ptrs(t) + {x}
      && (forall p, z :: Has(t', p, z) <==> Has(t, p, z) || (p == x && z == s))
  {
    var u := Sub(t, lo, b, s);
    SubSorted(t, lo, b, s);
    SubApart(t, lo, b, s);
    SubInside(t, lo, b, s);
    GrownProps(u, SubLo(t, lo, b, s), SubBits(t, lo, b, s), x, s);
    SubstSorted(t, lo, b, s, Grown(u, x, s));
    SubstApart(t, lo, b, s, Grown(u, x, s));
    SubstPtrs(t, lo, b, s, Grown(u, x, s));
    forall p, z ensures Has(Insert(t, lo, b, x, s), p, z) <==> Has(t, p, z) || (p == x && z == s) {
      SubstHas(t, lo, b, s, Grown(u, x, s), p, z);
      GrownHas(u, x, s, p, z);
      if Has(u, p, z) { SubHas(t, lo, b, s, p, z); }
    }
  }

  lemma {:induction false} SubHas(t: Tree, lo: int, b: nat, s: int, p: int, z: int)
    requires Has(Sub(t, lo, b, s), p, z)
    ensures Has(t, p, z)
    decreases t
  {
    if t.Nil? || t.size == s || b == 0 {
    } else if s < Mid(lo, b) {
      SubHas(t.left, lo, b - 1, s, p, z);
    } else {
      SubHas(t.right, Mid(lo, b), b - 1, s, p, z);
    }
  }

  // ----- removal -----

  /** The leaf reached by taking the right link whenever there is one, and the left link otherwise. */
  function Leaf(t: Tree): (r: Tree)
    requires t.Node?
    ensures r.Node? && r.left.Nil? && r.right.Nil?
  {
    if t.right.Node? then Leaf(t.right) else if t.left.Node? then Leaf(t.left) else t
  }

  /** The trie without that leaf. */
  function Pruned(t: Tree): Tree
    requires t.Node?
  {
    if t.right.Node? then t.(right := Pruned(t.right))
    else if t.left.Node? then t.(left := Pruned(t.left))
    else Nil
  }

  /** Removal of chunk x from the node it belongs to.  A chunk that is not alone in its chain leaves
      the chain (the last one takes over when the head goes); a chunk that is alone is
      replaced by the rightmost leaf below it. */
  function Shrunk(u: Tree, x: int): Tree
    requires u.Node? && x in u.chain
  {
    if |u.chain| >= 2 then
      u.(chain := if x == u.chain[0] then Rotated(u.chain) else Without(u.chain, IndexOf(u.chain, x)))
    else if u.right.Node? then Node(Leaf(u.right).size, Leaf(u.right).chain, u.left, Pruned(u.right))
    else if u.left.Node? then Node(Leaf(u.left).size, Leaf(u.left).chain, Pruned(u.left), u.right)
    else Nil
  }

  function Delete(t: Tree, lo: int, b: nat, x: int, s: int): Tree
    requires Sub(t, lo, b, s).Node? && x in Sub(t, lo, b, s).chain
  {
    Subst(t, lo, b, s, Shrunk(Sub(t, lo, b, s), x))
  }

  lemma {:induction false} LeafInside(t: Tree)
    requires t.Node?
    ensures SetOf(Leaf(t).chain) <= Ptrs(t) && Leaf(t).size in Sizes(t)
  {
    if t.right.Node? { LeafInside(t.right); } else if t.left.Node? { LeafInside(t.left); }
  }

  lemma {:induction false} LeafSorted(t: Tree, lo: int, b: nat)
    requires t.Node? && Sorted(t, lo, b)
    ensures lo <= Leaf(t).size < lo + Pow2(b) && Leaf(t).chain != []
    decreases t
  {
    if t.right.Node? { LeafSorted(t.right, Mid(lo, b), b - 1); }
    else if t.left.Node? { LeafSorted(t.left, lo, b - 1); }
  }

  lemma {:induction false} LeafApart(t: Tree)
    requires t.Node? && Apart(t)
    ensures NoDup(Leaf(t).chain)
  {
    if t.right.Node? { LeafApart(t.right); } else if t.left.Node? { LeafApart(t.left); }
  }

  lemma {:induction false} PrunedSizes(t: Tree, lo: int, b: nat)
    requires t.Node? && Sorted(t, lo, b)
    ensures Sizes(Pruned(t)) == Sizes(t) - {Leaf(t).size}
    decreases t
  {
    LeafInside(t);
    if t.right.Node? {
      LeftBelowRight(t, lo, b);
      LeafInside(t.right);
      PrunedSizes(t.right, Mid(lo, b), b - 1);
    } else if t.left.Node? {
      LeafInside(t.left);
      PrunedSizes(t.left, lo, b - 1);
    }
  }

  lemma {:induction false} PrunedSorted(t: Tree, lo: int, b: nat)
    requires t.Node? && Sorted(t, lo, b)
    ensures Sorted(Pruned(t), lo, b)
    decreases t
  {
    if t.right.Node? {
      PrunedSorted(t.right, Mid(lo, b), b - 1);
      PrunedSizes(t.right, Mid(lo, b), b - 1);
    } else if t.left.Node? {
      PrunedSorted(t.left, lo, b - 1);
      PrunedSizes(t.left, lo, b - 1);
    }
  }

  lemma {:induction false} PrunedPtrs(t: Tree)
    requires t.Node? && Apart(t)
    ensures Ptrs(Pruned(t)) == Ptrs(t) - SetOf(Leaf(t).chain)
  {
    if t.right.Node? {
      LeafInside(t.right);
      PrunedPtrs(t.right);
    } else if t.left.Node? {
      LeafInside(t.left);
      PrunedPtrs(t.left);
    }
  }

  lemma {:induction false} PrunedApart(t: Tree)
    requires t.Node? && Apart(t)
    ensures Apart(Pruned(t))
  {
    if t.right.Node? {
      PrunedPtrs(t.right);
      PrunedApart(t.right);
    } else if t.left.Node? {
      PrunedPtrs(t.left);
      PrunedApart(t.left);
    }
  }

  lemma {:induction false} PrunedHas(t: Tree, p: int, z: int)
    requires t.Node? && Apart(t)
    ensures Has(t, p, z) <==> Has(Pruned(t), p, z) || (z == Leaf(t).size && p in Leaf(t).chain)
    ensures !(Has(Pruned(t), p, z) && p in Leaf(t).chain)
  {
    if t.right.Node? {
      PrunedHas(t.right, p, z);
    } else if t.left.Node? {
      PrunedHas(t.left, p, z);
    }
    PrunedPtrs(t);
    if Has(Pruned(t), p, z) { HasProjects(Pruned(t), p, z); }
  }

  lemma ShortenedChain(c: seq<int>, x: int)
    requires NoDup(c) && x in c && |c| >= 2
    ensures var d := if x == c[0] then Rotated(c) else Without(c, IndexOf(c, x));
      NoDup(d) && d != [] && SetOf(d) == SetOf(c) - {x}
  {
    if x == c[0] { RotatedSet(c); } else { WithoutSet(c, IndexOf(c, x)); }
  }

  lemma ShrunkPtrs(u: Tree, x: int)
    requires u.Node? && Apart(u) && x in u.chain
    ensures Ptrs(Shrunk(u, x)) == Ptrs(u) - {x}
    ensures Apart(Shrunk(u, x))
  {
    if |u.chain| >= 2 {
      ShortenedChain(u.chain, x);
      hide Rotated, Without, NoDup;
      assert x in SetOf(u.chain);
    } else {
      assert SetOf(u.chain) == {x};
      hide NoDup;
      if u.right.Node? {
        LeafInside(u.right); LeafApart(u.right); PrunedPtrs(u.right); PrunedApart(u.right);
      } else if u.left.Node? {
        LeafInside(u.left); LeafApart(u.left); PrunedPtrs(u.left); PrunedApart(u.left);
      }
    }
  }

  lemma ShrunkSorted(u: Tree, lo: int, b: nat, x: int)
    requires u.Node? && Sorted(u, lo, b) && Apart(u) && x in u.chain
    ensures Sorted(Shrunk(u, x), lo, b) && Sizes(Shrunk(u, x)) <= Sizes(u)
  {
    if |u.chain| >= 2 {
      ShortenedChain(u.chain, x);
    } else if u.right.Node? {
      LeafInside(u.right); LeafSorted(u.right, Mid(lo, b), b - 1);
      PrunedSorted(u.right, Mid(lo, b), b - 1); PrunedSizes(u.right, Mid(lo, b), b - 1);
      LeftBelowRight(u, lo, b);
    } else if u.left.Node? {
      LeafInside(u.left); LeafSorted(u.left, lo, b - 1);
      PrunedSorted(u.left, lo, b - 1); PrunedSizes(u.left, lo, b - 1);
    }
  }

  lemma ShrunkHas(u: Tree, x: int, p: int, z: int)
    requires u.Node? && Apart(u) && x in u.chain
    ensures Has(Shrunk(u, x), p, z) <==> Has(u, p, z) && p != x
  {
    if Has(u.left, p, z) { HasProjects(u.left, p, z); }
    if Has(u.right, p, z) { HasProjects(u.right, p, z); }
    if |u.chain| >= 2 {
      ShortenedChain(u.chain, x);
      assert p in SetOf(Shrunk(u, x).chain) <==> p in SetOf(u.chain) && p != x;
    } else {
      assert p in u.chain <==> p == x;
      if u.right.Node? {
        PrunedHas(u.right, p, z); LeafInside(u.right);
      } else if u.left.Node? {
        PrunedHas(u.left, p, z); LeafInside(u.left);
      }
    }
  }

  /** Deletion removes exactly the given chunk and keeps the trie invariant. */
  lemma DeleteCorrect(t: Tree, lo: int, b: nat, x: int, s: int)
    requires Sorted(t, lo, b) && Apart(t) && lo <= s < lo + Pow2(b) && Has(t, x, s)
    ensures Sub(t, lo, b, s).Node? && x in Sub(t, lo, b, s).chain
    ensures var t' := Delete(t, lo, b, x, s);
      && Sorted(t', lo, b) && Apart(t') && Ptrs(t') == Ptrs(t) - {x}
      && (forall p, z :: Has(t', p, z) <==> Has(t, p, z) && p != x)
  {
    SubFinds(t, lo, b, x, s);
    var u := Sub(t, lo, b, s);
    SubSorted(t, lo, b, s);
    SubApart(t, lo, b, s);
    SubInside(t, lo, b, s);
    ShrunkPtrs(u, x);
    ShrunkSorted(u, SubLo(t, lo, b, s), SubBits(t, lo, b, s), x);
    SubstSorted(t, lo, b, s, Shrunk(u, x));
    SubstApart(t, lo, b, s, Shrunk(u, x));
    SubstPtrs(t, lo, b, s, Shrunk(u, x));
    forall p, z ensures Has(Delete(t, lo, b, x, s), p, z) <==> Has(t, p, z) && p != x {
      DeleteHas(t, lo, b, x, s, p, z);
    }
  }

  lemma DeleteHas(t: Tree, lo: int, b: nat, x: int, s: int, p: int, z: int)
    requires Sorted(t, lo, b) && Apart(t) && lo <= s < lo + Pow2(b) && Has(t, x, s)
    requires Sub(t, lo, b, s).Node? && x in Sub(t, lo, b, s).chain
    ensures Has(Delete(t, lo, b, x, s), p, z) <==> Has(t, p, z) && p != x
  {
    var u := Sub(t, lo, b, s);
    SubApart(t, lo, b, s);
    SubInside(t, lo, b, s);
    SubstHas(t, lo, b, s, Shrunk(u, x), p, z);
    ShrunkHas(u, x, p, z);
    if Has(u, p, z) { SubHas(t, lo, b, s, p, z); }
    if Has(t, p, z) && p == x { PtrHasOneSize(t, p, z, s); }
    SubSorted(t, lo, b, s);
  }

  /** A chunk occurs with one size only. */
  lemma {:induction false} PtrHasOneSize(t: Tree, p: int, z: int, s: int)
    requires Apart(t) && Has(t, p, z) && Has(t, p, s)
    ensures z == s
  {
    if Has(t.left, p, z) { HasProjects(t.left, p, z); }
    if Has(t.left, p, s) { HasProjects(t.left, p, s); }
    if Has(t.right, p, z) { HasProjects(t.right, p, z); }
    if Has(t.right, p, s) { HasProjects(t.right, p, s); }
    if p in t.chain {
    } else if Has(t.left, p, z) {
      PtrHasOneSize(t.left, p, z, s);
    } else {
      PtrHasOneSize(t.right, p, z, s);
    }
  }
}
