/** The intrusive thread queues: sixteen ready queues in each of two arrays, the queue of threads that wait for an
    interrupt, and one queue for each semaphore. */
module ThreadQueues {
  import opened Seqs
  import opened Chains

  const PRIORITIES := 16
  const IRQ := 32
  const WAITING := 33

  /** The queue of a priority in one of the arrays. */
  function ReadyQueue(p: nat, w: bool): nat {
    2 * p + if w then 1 else 0
  }

  /** The pointers: links and queue of every thread, first and last of every queue. */
  datatype Memory = Memory(links: Links, at: seq<int>, first: seq<int>, last: seq<int>)

  type Queues = seq<seq<int>>

  predicate Thread(m: Memory, t: int) {
    0 <= t < |m.at|
  }

  ghost predicate QueueIs(m: Memory, s: seq<int>, k: nat)
    requires k < |m.first| && k < |m.last|
  {
    && Chain(m.links, s) && m.first[k] == Head(s) && m.last[k] == Last(s)
    && (forall t :: Thread(m, t) && t in s <==> Thread(m, t) && m.at[t] == k)
  }

  /** The pointers say which threads are on which queue, and in which order. */
  ghost predicate Filed(m: Memory, qs: Queues) {
    && |m.links.next| == |m.at| && |m.links.prev| == |m.at|
    && |m.first| == |qs| && |m.last| == |qs|
    && (forall k: nat :: k < |qs| ==> QueueIs(m, qs[k], k))
    && (forall t :: Thread(m, t) ==> -1 <= m.at[t] < |qs|)
  }

  function Add(m: Memory, k: nat, t: int): Memory
    requires Thread(m, t) && k < |m.first| && k < |m.last|
  {
    Memory(PushBack(m.links, m.last[k], t), m.at[t := k],
      if m.last[k] == NONE then m.first[k := t] else m.first, m.last[k := t])
  }

  /** Taking a thread out of the queue it is on. */
  function Remove(m: Memory, t: int): Memory
    requires Thread(m, t) && Record(m.links, t) && 0 <= m.at[t] < |m.first| && m.at[t] < |m.last|
  {
    var k, p, n := m.at[t], m.links.prev[t], m.links.next[t];
    Memory(Unlink(m.links, t), m.at[t := NONE],
      if p == NONE then m.first[k := n] else m.first, if n == NONE then m.last[k := p] else m.last)
  }

  lemma FiledSizes(m: Memory, qs: Queues)
    requires Filed(m, qs)
    ensures |m.links.next| == |m.at| && |m.links.prev| == |m.at| && |m.first| == |qs| && |m.last| == |qs|
  {
  }

  lemma OnQueue(m: Memory, qs: Queues, k: nat, t: int)
    requires Filed(m, qs) && k < |qs|
    ensures t in qs[k] <==> Thread(m, t) && m.at[t] == k
  {
    assert QueueIs(m, qs[k], k);
    if t in qs[k] {
      assert LinkedAt(m.links, qs[k], IndexOf(qs[k], t));
    }
  }

  lemma Elsewhere(m: Memory, qs: Queues, k: nat, h: nat, x: int)
    requires Filed(m, qs) && k < |qs| && h < |qs| && h != k
    ensures x in qs[h] ==> x !in qs[k]
  {
    OnQueue(m, qs, k, x);
    OnQueue(m, qs, h, x);
  }

  lemma AddFiled(m: Memory, qs: Queues, k: nat, t: int)
    requires Filed(m, qs) && k < |qs| && Thread(m, t) && m.at[t] == NONE
    ensures Filed(Add(m, k, t), qs[k := qs[k] + [t]])
  {
    var m', qs', s := Add(m, k, t), qs[k := qs[k] + [t]], qs[k];
    assert QueueIs(m, s, k);
    forall h: nat | h < |qs| ensures t !in qs[h] { OnQueue(m, qs, h, t); }
    PushBackChain(m.links, s, t);
    assert s != [] ==> LinkedAt(m.links, s, |s| - 1);
    assert Head(s + [t]) == (if Last(s) == NONE then t else Head(s)) && Last(s + [t]) == t;
    forall h: nat | h < |qs| ensures QueueIs(m', qs'[h], h) {
      assert QueueIs(m, qs[h], h);
      hide PushBack, Chain;
      if h != k {
        AddElsewhere(m, qs, k, t, h);
      }
    }
  }

  lemma AddElsewhere(m: Memory, qs: Queues, k: nat, t: int, h: nat)
    requires Filed(m, qs) && k < |qs| && h < |qs| && h != k && Thread(m, t) && t !in qs[h]
    ensures Chain(Add(m, k, t).links, qs[h])
  {
    assert QueueIs(m, qs[k], k) && QueueIs(m, qs[h], h);
    hide PushBack, Chain;
    forall p | p in qs[k] ensures p !in qs[h] { Elsewhere(m, qs, k, h, p); }
    EndsElsewhere(m.links, qs[k], qs[h]);
    StepElsewhere(m.links, t, Last(qs[k]), qs[h]);
    Frame(m.links, Add(m, k, t).links, qs[h]);
  }

  lemma EndsAfter(l: Links, s: seq<int>, j: nat)
    requires Chain(l, s) && j < |s|
    ensures Record(l, s[j])
    ensures Head(Without(s, j)) == if l.prev[s[j]] == NONE then l.next[s[j]] else Head(s)
    ensures Last(Without(s, j)) == if l.next[s[j]] == NONE then l.prev[s[j]] else Last(s)
  {
    assert LinkedAt(l, s, j);
    assert j > 0 ==> LinkedAt(l, s, j - 1);
    assert j + 1 < |s| ==> LinkedAt(l, s, j + 1);
    WithoutAt(s, j);
  }

  lemma RemoveFiled(m: Memory, qs: Queues, k: nat, j: nat)
    requires Filed(m, qs) && k < |qs| && j < |qs[k]|
    ensures var t := qs[k][j];
      && Thread(m, t) && Record(m.links, t) && m.at[t] == k
      && Filed(Remove(m, t), qs[k := Without(qs[k], j)])
  {
    var s, t := qs[k], qs[k][j];
    OnQueue(m, qs, k, t);
    assert QueueIs(m, s, k);
    EndsAfter(m.links, s, j);
    UnlinkChain(m.links, s, j);
    assert NoDup(s);
    WithoutSet(s, j);
    var m', qs' := Remove(m, t), qs[k := Without(s, j)];
    assert forall x :: x in Without(s, j) <==> x in SetOf(Without(s, j));
    forall h: nat | h < |qs| ensures QueueIs(m', qs'[h], h) {
      assert QueueIs(m, qs[h], h);
      hide Unlink, Chain, Without, Head, Last, NoDup;
      if h != k {
        RemoveElsewhere(m, qs, k, j, h);
      }
    }
  }

  lemma RemoveElsewhere(m: Memory, qs: Queues, k: nat, j: nat, h: nat)
    requires Filed(m, qs) && k < |qs| && h < |qs| && h != k && j < |qs[k]|
    ensures Record(m.links, qs[k][j]) && Chain(Unlink(m.links, qs[k][j]), qs[h])
  {
    assert QueueIs(m, qs[k], k) && QueueIs(m, qs[h], h);
    hide Unlink, Chain;
    forall p | p in qs[k] ensures p !in qs[h] { Elsewhere(m, qs, k, h, p); }
    UnlinkElsewhere(m.links, qs[k], j, qs[h]);
    Frame(m.links, Unlink(m.links, qs[k][j]), qs[h]);
  }

  /** The ends of a queue, and what a thread on it has for neighbours. */
  lemma EndsOf(m: Memory, qs: Queues, k: nat, t: int)
    requires Filed(m, qs) && k < |qs| && Thread(m, t) && m.at[t] == NONE
    ensures m.last[k] == NONE || (Record(m.links, m.last[k]) && m.last[k] != t)
  {
    var s := qs[k];
    assert QueueIs(m, s, k);
    OnQueue(m, qs, k, t);
    if s != [] {
      assert LinkedAt(m.links, s, |s| - 1);
      assert s[|s| - 1] in s;
    }
  }

  ghost predicate Between(m: Memory, t: int) {
    && Thread(m, t) && Record(m.links, t)
    && (m.links.prev[t] == NONE || (Record(m.links, m.links.prev[t]) && m.links.prev[t] != t))
    && (m.links.next[t] == NONE || (Record(m.links, m.links.next[t]) && m.links.next[t] != t))
  }

  lemma NeighboursOf(m: Memory, qs: Queues, k: nat, j: nat)
    requires Filed(m, qs) && k < |qs| && j < |qs[k]|
    ensures var t := qs[k][j];
      && Between(m, t) && m.at[t] == k
      && m.links.prev[t] == (if j == 0 then NONE else qs[k][j - 1])
      && m.links.next[t] == (if j + 1 == |qs[k]| then NONE else qs[k][j + 1])
  {
    var s := qs[k];
    assert QueueIs(m, s, k);
    OnQueue(m, qs, k, s[j]);
    assert LinkedAt(m.links, s, j);
    if j > 0 { assert LinkedAt(m.links, s, j - 1); }
    if j + 1 < |s| { assert LinkedAt(m.links, s, j + 1); }
  }

  lemma FirstOf(m: Memory, qs: Queues, k: nat)
    requires Filed(m, qs) && k < |qs|
    ensures m.first[k] == Head(qs[k]) && (m.first[k] == NONE <==> qs[k] == [])
  {
    assert QueueIs(m, qs[k], k);
    if qs[k] != [] { assert LinkedAt(m.links, qs[k], 0); }
  }

  // ----- how many threads are ready -----

  /** Threads on the queues of the priorities below p in one array. */
  function Total(qs: Queues, w: bool, p: nat): (n: nat)
    requires |qs| >= WAITING && p <= PRIORITIES
    ensures n == 0 <==> forall i: nat :: i < p ==> qs[ReadyQueue(i, w)] == []
  {
    if p == 0 then 0 else Total(qs, w, p - 1) + |qs[ReadyQueue(p - 1, w)]|
  }

  lemma {:induction false} TotalChange(qs: Queues, k: nat, s: seq<int>, w: bool, p: nat)
    requires |qs| >= WAITING && p <= PRIORITIES && k < |qs|
    ensures Total(qs[k := s], w, p)
      == Total(qs, w, p) + if exists i: nat :: i < p && k == ReadyQueue(i, w) then |s| - |qs[k]| else 0
  {
    if p > 0 {
      TotalChange(qs, k, s, w, p - 1);
      assert k == ReadyQueue(p - 1, w) ==> !exists i: nat :: i < p - 1 && k == ReadyQueue(i, w);
    }
  }

  // ----- what the scheduler keeps -----

  datatype State = State(
    mem: Memory, blocked: seq<bool>, prio: seq<nat>, counter: seq<nat>, count: map<bool, int>)

  ghost predicate Threads(s: State, loose: set<int>) {
    && |s.blocked| == |s.mem.at| && |s.prio| == |s.mem.at|
    && forall t :: Thread(s.mem, t) ==> ThreadOk(s, loose, t)
  }

  /** Off the queues only when loose; on the ready queue of its priority when not blocked, on some other queue when
      blocked. */
  ghost predicate ThreadOk(s: State, loose: set<int>, t: int)
    requires Thread(s.mem, t) && |s.blocked| == |s.mem.at| && |s.prio| == |s.mem.at|
  {
    var k := s.mem.at[t];
    && s.prio[t] < PRIORITIES
    && (k == NONE <==> t in loose)
    && (k < IRQ ==> !s.blocked[t]) && (k >= IRQ ==> s.blocked[t])
    && (0 <= k < IRQ ==> k / 2 == s.prio[t])
  }

  ghost predicate Ok(s: State, qs: Queues, loose: set<int>) {
    && Filed(s.mem, qs) && |qs| == WAITING + |s.counter|
    && Threads(s, loose)
    && s.count.Keys == {false, true}
    && s.count[false] == Total(qs, false, PRIORITIES) && s.count[true] == Total(qs, true, PRIORITIES)
    && (forall k: nat :: k < |s.counter| && s.counter[k] > 0 ==> qs[WAITING + k] == [])
  }

  lemma ReadyTotals(qs: Queues, p: nat, w: bool, s: seq<int>)
    requires |qs| >= WAITING && p < PRIORITIES
    ensures ReadyQueue(p, w) < IRQ
    ensures var qs' := qs[ReadyQueue(p, w) := s];
      && Total(qs', w, PRIORITIES) == Total(qs, w, PRIORITIES) + |s| - |qs[ReadyQueue(p, w)]|
      && Total(qs', !w, PRIORITIES) == Total(qs, !w, PRIORITIES)
  {
    TotalChange(qs, ReadyQueue(p, w), s, w, PRIORITIES);
    TotalChange(qs, ReadyQueue(p, w), s, !w, PRIORITIES);
  }

  lemma WaitTotals(qs: Queues, k: nat, s: seq<int>, w: bool)
    requires |qs| >= WAITING && IRQ <= k < |qs|
    ensures Total(qs[k := s], w, PRIORITIES) == Total(qs, w, PRIORITIES)
  {
    TotalChange(qs, k, s, w, PRIORITIES);
  }

  /** A loose thread goes to the end of its ready queue. */
  lemma ReadyStep(s: State, m: Memory, qs: Queues, loose: set<int>, t: int, w: bool)
    requires Ok(s, qs, loose) && Thread(s.mem, t) && t in loose && t < |s.prio| && ReadyQueue(s.prio[t], w) < |qs|
    requires var k := ReadyQueue(s.prio[t], w); Filed(m, qs[k := qs[k] + [t]]) && m.at == s.mem.at[t := k]
    ensures w in s.count && var k := ReadyQueue(s.prio[t], w);
      Ok(s.(mem := m, count := s.count[w := s.count[w] + 1]), qs[k := qs[k] + [t]], loose - {t})
  {
    hide Filed, Total;
    assert ThreadOk(s, loose, t);
    var k := ReadyQueue(s.prio[t], w);
    ReadyTotals(qs, s.prio[t], w, qs[k] + [t]);
    var s' := s.(mem := m, count := s.count[w := s.count[w] + 1]);
    forall u | Thread(s'.mem, u) ensures ThreadOk(s', loose - {t}, u) { assert ThreadOk(s, loose, u); }
  }

  /** A loose thread blocks on the end of a wait queue. */
  lemma ParkStep(s: State, m: Memory, qs: Queues, loose: set<int>, t: int, k: nat)
    requires Ok(s, qs, loose) && Thread(s.mem, t) && t in loose && IRQ <= k < |qs| && t < |s.blocked|
    requires k >= WAITING ==> s.counter[k - WAITING] == 0
    requires Filed(m, qs[k := qs[k] + [t]]) && m.at == s.mem.at[t := k]
    ensures Ok(s.(mem := m, blocked := s.blocked[t := true]), qs[k := qs[k] + [t]], loose - {t})
  {
    assert ThreadOk(s, loose, t);
    WaitTotals(qs, k, qs[k] + [t], false);
    WaitTotals(qs, k, qs[k] + [t], true);
    hide Filed, Total;
    var s' := s.(mem := m, blocked := s.blocked[t := true]);
    forall u | Thread(s'.mem, u) ensures ThreadOk(s', loose - {t}, u) { assert ThreadOk(s, loose, u); }
  }

  /** The first thread of a ready queue leaves it. */
  lemma PickStep(s: State, m: Memory, qs: Queues, loose: set<int>, p: nat, w: bool)
    requires Ok(s, qs, loose) && p < PRIORITIES && ReadyQueue(p, w) < |qs| && qs[ReadyQueue(p, w)] != []
    requires var k := ReadyQueue(p, w); Thread(s.mem, qs[k][0]) && m.at == s.mem.at[qs[k][0] := NONE]
    requires var k := ReadyQueue(p, w); Filed(m, qs[k := Without(qs[k], 0)])
    ensures var k := ReadyQueue(p, w); var t := qs[k][0];
      && t !in loose && t < |s.prio| && s.prio[t] == p && w in s.count
      && Ok(s.(mem := m, count := s.count[w := s.count[w] - 1]), qs[k := Without(qs[k], 0)], loose + {t})
  {
    hide Filed, Total, Without;
    var k := ReadyQueue(p, w);
    var t := qs[k][0];
    OnQueue(s.mem, qs, k, t);
    assert ThreadOk(s, loose, t);
    WithoutAt(qs[k], 0);
    ReadyTotals(qs, p, w, Without(qs[k], 0));
    var s' := s.(mem := m, count := s.count[w := s.count[w] - 1]);
    forall u | Thread(s'.mem, u) ensures ThreadOk(s', loose + {t}, u) { assert ThreadOk(s, loose, u); }
  }

  /** A blocked thread leaves its wait queue and is no longer blocked. */
  lemma WakeStep(s: State, m: Memory, qs: Queues, loose: set<int>, k: nat, j: nat)
    requires Ok(s, qs, loose) && IRQ <= k < |qs| && j < |qs[k]| && Thread(s.mem, qs[k][j])
    requires Filed(m, qs[k := Without(qs[k], j)]) && m.at == s.mem.at[qs[k][j] := NONE]
    ensures var t := qs[k][j];
      && t !in loose && t < |s.blocked|
      && Ok(s.(mem := m, blocked := s.blocked[t := false]), qs[k := Without(qs[k], j)], loose + {t})
  {
    var t := qs[k][j];
    OnQueue(s.mem, qs, k, t);
    assert ThreadOk(s, loose, t);
    WithoutAt(qs[k], j);
    WaitTotals(qs, k, Without(qs[k], j), false);
    WaitTotals(qs, k, Without(qs[k], j), true);
    hide Filed, Total, Without;
    var s' := s.(mem := m, blocked := s.blocked[t := false]);
    forall u | Thread(s'.mem, u) ensures ThreadOk(s', loose + {t}, u) { assert ThreadOk(s, loose, u); }
  }

  /** A semaphore without waiting threads may have any number of permits. */
  lemma CounterStep(s: State, qs: Queues, loose: set<int>, k: nat, v: nat)
    requires Ok(s, qs, loose) && k < |s.counter| && WAITING + k < |qs| && (s.counter[k] > 0 || qs[WAITING + k] == [])
    ensures Ok(s.(counter := s.counter[k := v]), qs, loose)
  {
    hide Filed, Total;
    var s' := s.(counter := s.counter[k := v]);
    forall u | Thread(s'.mem, u) ensures ThreadOk(s', loose, u) { assert ThreadOk(s, loose, u); }
  }

  function Grown(m: Memory): Memory {
    Memory(Links(m.links.next + [NONE], m.links.prev + [NONE]), m.at + [NONE], m.first, m.last)
  }

  lemma GrownQueue(m: Memory, s: seq<int>, k: nat)
    requires |m.links.next| == |m.at| && |m.links.prev| == |m.at| && k < |m.first| && k < |m.last| && QueueIs(m, s, k)
    ensures QueueIs(Grown(m), s, k)
  {
    forall j: nat | j < |s| ensures LinkedAt(Grown(m).links, s, j) { assert LinkedAt(m.links, s, j); }
    forall t | Thread(Grown(m), t) ensures t in s <==> Grown(m).at[t] == k {
      assert t < |m.at| ==> Thread(m, t);
      if t in s { assert LinkedAt(m.links, s, IndexOf(s, t)); }
    }
  }

  /** A new thread, on no queue yet. */
  lemma NewStep(s: State, qs: Queues, loose: set<int>, p: nat)
    requires Ok(s, qs, loose) && p < PRIORITIES
    ensures Ok(s.(mem := Grown(s.mem), blocked := s.blocked + [false], prio := s.prio + [p]), qs, loose + {|s.mem.at|})
  {
    var m, n := s.mem, |s.mem.at|;
    var m' := Grown(m);
    forall k: nat | k < |qs| ensures QueueIs(m', qs[k], k) {
      assert QueueIs(m, qs[k], k);
      GrownQueue(m, qs[k], k);
    }
    hide QueueIs, Total;
    var s' := s.(mem := m', blocked := s.blocked + [false], prio := s.prio + [p]);
    forall u | Thread(m', u) ensures ThreadOk(s', loose + {n}, u) {
      if u < n { assert Thread(m, u) && ThreadOk(s, loose, u); }
    }
    assert forall t :: Thread(m', t) ==> t == n || Thread(m, t);
  }
}
