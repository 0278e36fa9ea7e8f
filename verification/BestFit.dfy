/** The best-fit search: one walk down the trie of the request's own bin, remembering the deepest right
    subtree passed by, and then the path of leftmost children of what is left.  `Open` says what the
    search still owes; its steps are the branches of the two loops. */
module BestFit {
  import opened Trie
  import opened TreeIndex

  /** The least size in a trie, found the way the allocator looks for it. */
  function Least(t: Tree): int
    requires t.Node?
  {
    var c := if t.left.Node? then t.left else t.right;
    if c.Node? && Least(c) < t.size then Least(c) else t.size
  }

  /** Following left children where there are any, and right children otherwise, meets the least size. */
  lemma {:induction false} LeastCorrect(t: Tree, lo: int, b: nat)
    requires t.Node? && Sorted(t, lo, b)
    ensures Least(t) in Sizes(t) && forall s :: s in Sizes(t) ==> Least(t) <= s
    decreases t
  {
    if t.left.Node? {
      LeastCorrect(t.left, lo, b - 1);
      LeftBelowRight(t, lo, b);
    } else if t.right.Node? {
      LeastCorrect(t.right, Mid(lo, b), b - 1);
    }
  }

  /** Best so far: chunk v, rsize bytes larger than the request, or no chunk yet. */
  predicate Beats(v: int, rsize: int, nb: int, s: int) {
    v != 0 && rsize + nb <= s
  }

  /** Every fitting size of trie `all` is already matched by v, or is still to come in the subtree `t`
      or, no smaller than its least size, in the remembered subtree `rst`. */
  ghost predicate Open(all: Tree, nb: int, v: int, rsize: int, t: Tree, rst: Tree) {
    forall s :: s in Sizes(all) && s >= nb ==>
      Beats(v, rsize, nb, s) || s in Sizes(t) || (rst.Node? && Least(rst) <= s)
  }

  /** The remembered subtree lies wholly above the interval the walk is in. */
  ghost predicate Above(rst: Tree, hi: int) {
    rst.Node? ==> forall s :: s in Sizes(rst) ==> hi <= s
  }

  /** Looking at a node: v takes it if it fits better. */
  lemma OpenLook(all: Tree, nb: int, v: int, rsize: int, t: Tree, rst: Tree, lo: int, b: nat, v': int, rsize': int)
    requires Open(all, nb, v, rsize, t, rst) && t.Node?
    requires forall s :: Beats(v, rsize, nb, s) ==> Beats(v', rsize', nb, s)
    requires t.size >= nb ==> Beats(v', rsize', nb, t.size)
    ensures forall s :: s in Sizes(all) && s >= nb ==>
      Beats(v', rsize', nb, s) || s in Sizes(t.left) || s in Sizes(t.right) || (rst.Node? && Least(rst) <= s)
  {
    forall s | s in Sizes(all) && s >= nb
      ensures Beats(v', rsize', nb, s) || s in Sizes(t.left) || s in Sizes(t.right) || (rst.Node? && Least(rst) <= s)
    {
      if s == t.size { }
    }
  }

  /** Going right: everything on the left is too small. */
  lemma OpenRight(all: Tree, nb: int, v: int, rsize: int, t: Tree, rst: Tree, lo: int, b: nat)
    requires t.Node? && Sorted(t, lo, b) && b > 0 && nb >= Mid(lo, b)
    requires forall s :: s in Sizes(all) && s >= nb ==>
      Beats(v, rsize, nb, s) || s in Sizes(t.left) || s in Sizes(t.right) || (rst.Node? && Least(rst) <= s)
    ensures Open(all, nb, v, rsize, t.right, rst)
  {
    SizesInRange(t.left, lo, b - 1);
  }

  /** Going left past a right subtree: it becomes the remembered one, being below the former. */
  lemma OpenLeft(all: Tree, nb: int, v: int, rsize: int, t: Tree, rst: Tree, lo: int, b: nat)
    requires t.Node? && Sorted(t, lo, b) && b > 0 && nb < Mid(lo, b)
    requires Above(rst, lo + Pow2(b)) && (rst.Node? ==> Least(rst) in Sizes(rst))
    requires forall s :: s in Sizes(all) && s >= nb ==>
      Beats(v, rsize, nb, s) || s in Sizes(t.left) || s in Sizes(t.right) || (rst.Node? && Least(rst) <= s)
    ensures var rst' := if t.right.Node? then t.right else rst;
      && Open(all, nb, v, rsize, t.left, rst') && Above(rst', Mid(lo, b)) && (rst'.Node? ==> Least(rst') in Sizes(rst'))
  {
    if t.right.Node? {
      SizesInRange(t.right, Mid(lo, b), b - 1);
      LeastCorrect(t.right, Mid(lo, b), b - 1);
    }
  }

  /** One step down the path of leftmost children: the sizes left aside are larger than those ahead. */
  lemma LeastStep(t: Tree, lo: int, b: nat, nb: int, v: int, rsize: int, s: int)
    requires t.Node? && Sorted(t, lo, b) && Least(t) <= s && t.size >= nb
    requires Beats(v, rsize, nb, t.size)
    ensures var c := if t.left.Node? then t.left else t.right;
      Beats(v, rsize, nb, s) || (c.Node? && Least(c) <= s)
  {
  }

  // ----- across the bins -----

  /** No chunk of any trie is large enough. */
  ghost predicate NoFit(trees: seq<Tree>, nb: int) {
    forall i, p, s :: 0 <= i < |trees| && Has(trees[i], p, s) ==> s < nb
  }

  /** No chunk of any trie fits better than size z. */
  ghost predicate NoBetter(trees: seq<Tree>, nb: int, z: int) {
    forall i, p, s :: 0 <= i < |trees| && Has(trees[i], p, s) && s >= nb ==> z <= s
  }

  /** Each trie holds only sizes of its own bin. */
  ghost predicate Sorts(trees: seq<Tree>) {
    |trees| == 32 && forall i, p, s :: 0 <= i < 32 && Has(trees[i], p, s) ==> 256 <= s < W32 && TreeIndexOf(s) == i
  }

  /** When the request's own bin has nothing and the bins up to k are empty, only bins from k on matter. */
  lemma LaterBin(trees: seq<Tree>, nb: nat, k: nat, z: int)
    requires Sorts(trees) && 256 <= nb < W32 && 0 <= TreeIndexOf(nb) < k < 32
    requires forall s :: s in Sizes(trees[TreeIndexOf(nb)]) ==> s < nb
    requires forall i :: TreeIndexOf(nb) < i < k ==> trees[i].Nil?
    requires forall s :: s in Sizes(trees[k]) ==> z <= s
    requires exists p :: Has(trees[k], p, z)
    ensures NoBetter(trees, nb, z)
  {
    var q :| Has(trees[k], q, z);
    forall i, p, s | 0 <= i < |trees| && Has(trees[i], p, s) && s >= nb ensures z <= s {
      HasProjects(trees[i], p, s);
      if s < z {
        IndexMonotone(nb, s);
        IndexMonotone(s, z);
      }
    }
  }

  lemma NoBinLeft(trees: seq<Tree>, nb: nat)
    requires Sorts(trees) && 256 <= nb < W32 && 0 <= TreeIndexOf(nb) < 32
    requires forall s :: s in Sizes(trees[TreeIndexOf(nb)]) ==> s < nb
    requires forall i :: TreeIndexOf(nb) < i < 32 ==> trees[i].Nil?
    ensures NoFit(trees, nb)
  {
    forall i, p, s | 0 <= i < |trees| && Has(trees[i], p, s) ensures s < nb {
      HasProjects(trees[i], p, s);
      if s >= nb { IndexMonotone(nb, s); }
    }
  }

  /** Sizes in later bins exceed the request. */
  lemma LaterSizes(trees: seq<Tree>, nb: nat, k: nat, lo: int, b: nat)
    requires Sorts(trees) && 256 <= nb < W32 && TreeIndexOf(nb) < k < 32 && Sorted(trees[k], lo, b)
    ensures forall s :: s in Sizes(trees[k]) ==> s > nb
  {
    forall s | s in Sizes(trees[k]) ensures s > nb {
      var p := SizeHasPtr(trees[k], lo, b, s);
      if s <= nb { IndexMonotone(s, nb); }
    }
  }
}
