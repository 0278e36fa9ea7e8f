/** Sequences without repetitions, and taking elements out of them. */
module Seqs {

  ghost predicate NoDup(s: seq<int>) {
    forall j, k :: 0 <= j < k < |s| ==> s[j] != s[k]
  }

  function SetOf(s: seq<int>): (r: set<int>)
    ensures forall p :: p in r <==> p in s
  {
    set p | p in s
  }

  function IndexOf(s: seq<int>, x: int): (k: nat)
    requires x in s
    ensures k < |s| && s[k] == x
  {
    if s[0] == x then 0 else 1 + IndexOf(s[1..], x)
  }

  /** s without its j-th element. */
  function Without(s: seq<int>, j: nat): seq<int>
    requires j < |s|
  {
    s[..j] + s[j + 1..]
  }

  /** What is left of s when its first element goes and the last one comes to the front. */
  function Rotated(s: seq<int>): seq<int>
    requires |s| >= 2
  {
    [s[|s| - 1]] + s[1..|s| - 1]
  }

  /** x put behind the first element. */
  function Second(s: seq<int>, x: int): seq<int>
    requires s != []
  {
    [s[0], x] + s[1..]
  }

  lemma WithoutAt(s: seq<int>, j: nat)
    requires j < |s|
    ensures |Without(s, j)| == |s| - 1
    ensures forall i :: 0 <= i < |s| - 1 ==> Without(s, j)[i] == s[if i < j then i else i + 1]
  {
  }

  lemma RotatedAt(s: seq<int>)
    requires |s| >= 2
    ensures |Rotated(s)| == |s| - 1
    ensures forall i :: 0 <= i < |s| - 1 ==> Rotated(s)[i] == s[if i == 0 then |s| - 1 else i]
  {
  }

  lemma SecondAt(s: seq<int>, x: int)
    requires s != []
    ensures |Second(s, x)| == |s| + 1 && Second(s, x)[0] == s[0] && Second(s, x)[1] == x
    ensures forall i :: 2 <= i <= |s| ==> Second(s, x)[i] == s[i - 1]
  {
  }

  lemma WithoutSet(s: seq<int>, j: nat)
    requires j < |s| && NoDup(s)
    ensures NoDup(Without(s, j)) && SetOf(Without(s, j)) == SetOf(s) - {s[j]}
  {
    var t := Without(s, j);
    WithoutAt(s, j);
    hide Without;
    forall p | p in s && p != s[j] ensures p in t {
      var i := IndexOf(s, p);
      assert t[if i < j then i else i - 1] == p;
    }
  }

  lemma RotatedSet(s: seq<int>)
    requires |s| >= 2 && NoDup(s)
    ensures NoDup(Rotated(s)) && SetOf(Rotated(s)) == SetOf(s) - {s[0]}
  {
    var t := Rotated(s);
    RotatedAt(s);
    hide Rotated;
    forall p | p in s && p != s[0] ensures p in t {
      var i := IndexOf(s, p);
      assert t[if i == |s| - 1 then 0 else i] == p;
    }
  }

  lemma SecondSet(s: seq<int>, x: int)
    requires s != [] && NoDup(s) && x !in s
    ensures NoDup(Second(s, x)) && SetOf(Second(s, x)) == SetOf(s) + {x}
  {
    var t := Second(s, x);
    SecondAt(s, x);
    hide Second;
    forall p | p in s ensures p in t {
      var i := IndexOf(s, p);
      assert t[if i == 0 then 0 else i + 1] == p;
    }
  }

  lemma NoDupFront(x: int, s: seq<int>)
    requires NoDup(s) && x !in s
    ensures NoDup([x] + s)
  {
    var t := [x] + s;
    forall j, k | 0 <= j < k < |t| ensures t[j] != t[k] {
      assert t[k] == s[k - 1];
    }
  }
}
