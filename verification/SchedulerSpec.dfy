/** The scheduler as a machine over queues that are sequences: waking threads on interrupts, picking the next one, the
    timer and the semaphores. */
module SchedulerSpec {
  import opened Seqs
  import opened Chains
  import opened ThreadQueues

  const DEFAULT_QUANTUM := 10
  const WORD := 0x1_0000_0000

  /** The state between two calls: what is on the queues, and the threads' and the scheduler's own fields. */
  datatype Moment = Moment(
    queues: Queues, prio: seq<nat>, quantum: seq<int>, irqCtrl: seq<nat>, irqMask: seq<bv32>, counter: seq<nat>,
    current: int, which: bool, need: bool, ticks: nat, locked: bool)

  predicate IsFifo(prio: nat) {
    prio >= 12
  }

  predicate Overlap(flags: bv32, mask: bv32) {
    flags & mask != 0
  }

  /** A controller's flags, as read, have one of the bits that a thread waits for. */
  predicate Fires(irq: seq<bv32>, irqCtrl: seq<nat>, irqMask: seq<bv32>, t: int) {
    0 <= t < |irqCtrl| && t < |irqMask| && irqCtrl[t] < |irq| && Overlap(irq[irqCtrl[t]], irqMask[t])
  }

  // ----- waking -----

  /** The threads of s that do not wake. */
  function Kept(s: seq<int>, out: set<int>): seq<int> {
    if s == [] then []
    else
      var t := s[|s| - 1];
      Kept(s[..|s| - 1], out) + if t in out then [] else [t]
  }

  /** The threads of s that wake and have priority p, in the order of s. */
  function Chosen(s: seq<int>, out: set<int>, prio: seq<nat>, p: nat): seq<int> {
    if s == [] then []
    else
      var t := s[|s| - 1];
      Chosen(s[..|s| - 1], out, prio, p) + if t in out && 0 <= t < |prio| && prio[t] == p then [t] else []
  }

  /** The highest priority of those that wake; -1 when none does. */
  function Highest(s: seq<int>, out: set<int>, prio: seq<nat>): (r: int)
    ensures r >= -1
    ensures forall t :: t in s && t in out && 0 <= t < |prio| ==> prio[t] <= r
    ensures r >= 0 ==> exists t :: t in s && t in out && 0 <= t < |prio| && prio[t] == r
  {
    if s == [] then -1
    else
      var t := s[|s| - 1];
      var r := Highest(s[..|s| - 1], out, prio);
      assert forall u :: u in s <==> u in s[..|s| - 1] || u == t;
      if t in out && 0 <= t < |prio| && prio[t] > r then prio[t] else r
  }

  /** The first j threads of the interrupt queue dealt with: those that wake are at the ends of their ready queues
      in the active array, the others wait on in the same order. */
  function WokenTo(qs: Queues, j: nat, out: set<int>, prio: seq<nat>, w: bool): (r: Queues)
    requires |qs| >= WAITING && j <= |qs[IRQ]|
    ensures |r| == |qs|
  {
    seq(|qs|, k requires 0 <= k < |qs| =>
      if k == IRQ then Kept(qs[IRQ][..j], out) + qs[IRQ][j..]
      else if k < IRQ && k % 2 == (if w then 1 else 0) then qs[k] + Chosen(qs[IRQ][..j], out, prio, k / 2)
      else qs[k])
  }

  function Woken(qs: Queues, out: set<int>, prio: seq<nat>, w: bool): (r: Queues)
    requires |qs| >= WAITING
    ensures |r| == |qs|
  {
    WokenTo(qs, |qs[IRQ]|, out, prio, w)
  }

  lemma Snoc(s: seq<int>, j: nat)
    requires j < |s|
    ensures s[..j + 1][..j] == s[..j] && s[..j + 1][j] == s[j] && s[j..] == [s[j]] + s[j + 1..]
  {
  }

  lemma KeptStep(qs: Queues, j: nat, out: set<int>, prio: seq<nat>, w: bool)
    requires |qs| >= WAITING && j < |qs[IRQ]| && qs[IRQ][j] !in out
    ensures WokenTo(qs, j + 1, out, prio, w) == WokenTo(qs, j, out, prio, w)
  {
    var s, t := qs[IRQ], qs[IRQ][j];
    Snoc(s, j);
    var a, b := WokenTo(qs, j + 1, out, prio, w), WokenTo(qs, j, out, prio, w);
    assert Kept(s[..j + 1], out) == Kept(s[..j], out) + [t];
    assert Kept(s[..j], out) + [t] + s[j + 1..] == Kept(s[..j], out) + s[j..];
    forall k | 0 <= k < |qs| ensures a[k] == b[k] {
      assert Chosen(s[..j + 1], out, prio, k / 2) == Chosen(s[..j], out, prio, k / 2);
    }
  }

  lemma WokenStep(qs: Queues, j: nat, out: set<int>, prio: seq<nat>, w: bool)
    requires |qs| >= WAITING && j < |qs[IRQ]| && qs[IRQ][j] in out && 0 <= qs[IRQ][j] < |prio|
    requires prio[qs[IRQ][j]] < PRIORITIES
    ensures var t := qs[IRQ][j]; var a, i, k := WokenTo(qs, j, out, prio, w), |Kept(qs[IRQ][..j], out)|,
      ReadyQueue(prio[t], w);
      && i < |a[IRQ]| && a[IRQ][i] == t && k < IRQ
      && var b := a[IRQ := Without(a[IRQ], i)];
      WokenTo(qs, j + 1, out, prio, w) == b[k := b[k] + [t]]
  {
    var s, t := qs[IRQ], qs[IRQ][j];
    Snoc(s, j);
    var a, i, k := WokenTo(qs, j, out, prio, w), |Kept(s[..j], out)|, ReadyQueue(prio[t], w);
    assert a[IRQ] == Kept(s[..j], out) + ([t] + s[j + 1..]);
    assert Without(a[IRQ], i) == Kept(s[..j], out) + s[j + 1..];
    var b := a[IRQ := Without(a[IRQ], i)];
    var c, d := WokenTo(qs, j + 1, out, prio, w), b[k := b[k] + [t]];
    assert Kept(s[..j + 1], out) == Kept(s[..j], out);
    forall h | 0 <= h < |qs| ensures c[h] == d[h] {
      assert Chosen(s[..j + 1], out, prio, h / 2)
        == Chosen(s[..j], out, prio, h / 2) + if prio[t] == h / 2 then [t] else [];
      if h < IRQ && h % 2 == (if w then 1 else 0) && prio[t] == h / 2 {
        assert h == k;
      }
    }
  }

  lemma WokenStart(qs: Queues, out: set<int>, prio: seq<nat>, w: bool)
    requires |qs| >= WAITING
    ensures WokenTo(qs, 0, out, prio, w) == qs
  {
    assert qs[IRQ][..0] == [];
    var a := WokenTo(qs, 0, out, prio, w);
    forall k | 0 <= k < |qs| ensures a[k] == qs[k] { }
  }

  /** Where the next thread of the interrupt queue is, and what follows it. */
  lemma WaitingAt(qs: Queues, j: nat, out: set<int>, prio: seq<nat>, w: bool)
    requires |qs| >= WAITING && j < |qs[IRQ]|
    ensures var q, i := WokenTo(qs, j, out, prio, w)[IRQ], |Kept(qs[IRQ][..j], out)|;
      && i < |q| && q[i] == qs[IRQ][j]
      && (i + 1 == |q| <==> j + 1 == |qs[IRQ]|) && (i + 1 < |q| ==> q[i + 1] == qs[IRQ][j + 1])
  {
  }

  lemma HighestStep(s: seq<int>, j: nat, out: set<int>, prio: seq<nat>)
    requires j < |s| && 0 <= s[j] < |prio|
    ensures var r := Highest(s[..j], out, prio);
      Highest(s[..j + 1], out, prio) == if s[j] in out && prio[s[j]] > r then prio[s[j]] else r
  {
    Snoc(s, j);
  }

  /** When no thread's interrupt has come, nothing changes. */
  lemma {:induction false} NoneWake(qs: Queues, j: nat, prio: seq<nat>, w: bool)
    requires |qs| >= WAITING && j <= |qs[IRQ]|
    ensures WokenTo(qs, j, {}, prio, w) == qs
  {
    if j == 0 {
      WokenStart(qs, {}, prio, w);
    } else {
      NoneWake(qs, j - 1, prio, w);
      KeptStep(qs, j - 1, {}, prio, w);
    }
  }

  // ----- picking -----

  ghost predicate AnyReady(qs: Queues)
    requires |qs| >= WAITING
  {
    Total(qs, false, PRIORITIES) > 0 || Total(qs, true, PRIORITIES) > 0
  }

  lemma AnyReadyIs(qs: Queues, w: bool)
    requires |qs| >= WAITING
    ensures AnyReady(qs) <==> Total(qs, w, PRIORITIES) > 0 || Total(qs, !w, PRIORITIES) > 0
  {
    if w { } else { }
  }

  /** The array that is picked from: the other one when the active one is empty. */
  ghost function Active(qs: Queues, w: bool): bool
    requires |qs| >= WAITING
  {
    if Total(qs, w, PRIORITIES) > 0 then w else !w
  }

  /** The highest priority below p with a ready thread in an array; -1 when there is none. */
  function Top(qs: Queues, w: bool, p: nat): (r: int)
    requires |qs| >= WAITING && p <= PRIORITIES
    ensures -1 <= r < p && (r >= 0 ==> qs[ReadyQueue(r, w)] != [])
    ensures forall i: nat :: r < i < p ==> qs[ReadyQueue(i, w)] == []
  {
    if p == 0 then -1 else if qs[ReadyQueue(p - 1, w)] != [] then p - 1 else Top(qs, w, p - 1)
  }

  lemma TopIs(qs: Queues, w: bool)
    requires |qs| >= WAITING
    ensures Top(qs, w, PRIORITIES) >= 0 <==> Total(qs, w, PRIORITIES) > 0
  {
  }

  /** The queue that is picked from: the highest priority's of the array with ready threads. */
  ghost function PickQueue(qs: Queues, w: bool): (k: nat)
    requires |qs| >= WAITING && AnyReady(qs)
    ensures k < IRQ && qs[k] != []
  {
    TopIs(qs, Active(qs, w));
    ReadyQueue(Top(qs, Active(qs, w), PRIORITIES), Active(qs, w))
  }

  /** The thread that is picked when array w is active: the oldest one of the highest priority. */
  ghost function PickedThread(qs: Queues, w: bool): int
    requires |qs| >= WAITING && AnyReady(qs)
  {
    qs[PickQueue(qs, w)][0]
  }

  ghost function AfterPick(qs: Queues, w: bool): (r: Queues)
    requires |qs| >= WAITING && AnyReady(qs)
    ensures |r| == |qs|
  {
    qs[PickQueue(qs, w) := Without(qs[PickQueue(qs, w)], 0)]
  }

  /** Thread t goes to the end of a queue. */
  function Appended(qs: Queues, k: nat, t: int): (r: Queues)
    requires k < |qs|
    ensures |r| == |qs|
  {
    qs[k := qs[k] + [t]]
  }

  /** A switch away from a thread that stays ready: it goes to the end of its queue in the array that is not
      active then. */
  ghost function Switched(qs: Queues, w: bool, cur: int, prio: nat): (r: Queues)
    requires |qs| >= WAITING && AnyReady(qs) && prio < PRIORITIES
    ensures |r| == |qs|
  {
    Appended(AfterPick(qs, w), ReadyQueue(prio, !Active(qs, w)), cur)
  }

  /** The first thread that waits on queue k is made ready. */
  function Handed(qs: Queues, k: nat, prio: nat, w: bool): (r: Queues)
    requires |qs| >= WAITING && k < |qs| && qs[k] != [] && prio < PRIORITIES
    ensures |r| == |qs|
  {
    Appended(qs[k := Without(qs[k], 0)], ReadyQueue(prio, w), qs[k][0])
  }

  // ----- the steps -----

  /** There is a current thread, with a priority. */
  predicate Runs(a: Moment) {
    |a.queues| >= WAITING && 0 <= a.current < |a.prio| == |a.quantum| && a.prio[a.current] < PRIORITIES
  }

  /** The threads that wait for one of these interrupts. */
  ghost function Due(a: Moment, irq: seq<bv32>): set<int>
    requires |a.queues| >= WAITING
  {
    set t | t in a.queues[IRQ] && Fires(irq, a.irqCtrl, a.irqMask, t)
  }

  ghost function HighestDue(a: Moment, irq: seq<bv32>): int
    requires |a.queues| >= WAITING
  {
    Highest(a.queues[IRQ], Due(a, irq), a.prio)
  }

  /** The threads of s that wake have all their time again. */
  function Refilled(quantum: seq<int>, s: seq<int>, out: set<int>): (r: seq<int>)
    ensures |r| == |quantum|
  {
    seq(|quantum|, t requires 0 <= t < |quantum| => if t in s && t in out then DEFAULT_QUANTUM else quantum[t])
  }

  lemma RefilledStart(quantum: seq<int>, s: seq<int>, out: set<int>)
    ensures Refilled(quantum, s[..0], out) == quantum
  {
  }

  lemma RefilledStep(quantum: seq<int>, s: seq<int>, j: nat, out: set<int>)
    requires j < |s| && 0 <= s[j] < |quantum|
    ensures Refilled(quantum, s[..j + 1], out) ==
      if s[j] in out then Refilled(quantum, s[..j], out)[s[j] := DEFAULT_QUANTUM] else Refilled(quantum, s[..j], out)
  {
    Snoc(s, j);
    assert forall t :: t in s[..j + 1] <==> t in s[..j] || t == s[j];
  }

  /** Interrupts are looked at. */
  ghost function Rouse(a: Moment, irq: seq<bv32>): (r: Moment)
    requires |a.queues| >= WAITING
    ensures |r.queues| == |a.queues| && |r.quantum| == |a.quantum| && (Runs(a) ==> Runs(r))
  {
    var out := Due(a, irq);
    a.(queues := Woken(a.queues, out, a.prio, a.which), quantum := Refilled(a.quantum, a.queues[IRQ], out))
  }

  lemma RouseAsked(a: Moment, irq: seq<bv32>, need: bool)
    requires |a.queues| >= WAITING
    ensures Rouse(a.(need := need), irq) == Rouse(a, irq).(need := need)
  {
    assert Due(a.(need := need), irq) == Due(a, irq);
  }

  /** The next thread is off its queue. */
  ghost function Picking(a: Moment): (r: Moment)
    requires |a.queues| >= WAITING && AnyReady(a.queues)
    ensures |r.queues| == |a.queues|
  {
    a.(queues := AfterPick(a.queues, a.which), which := Active(a.queues, a.which), need := false)
  }

  /** No thread is ready: both arrays have been looked at. */
  function NothingPicked(a: Moment): Moment {
    a.(which := !a.which, need := false)
  }

  /** The current thread gives way: it stays ready, at the end of its queue in the array that is not active, and the
      thread picked runs.  It goes on when no other one is ready. */
  ghost function GiveWay(a: Moment): Moment
    requires Runs(a)
  {
    if AnyReady(a.queues) then
      Picking(a).(queues := Switched(a.queues, a.which, a.current, a.prio[a.current]),
        quantum := a.quantum[a.current := DEFAULT_QUANTUM], current := PickedThread(a.queues, a.which))
    else
      NothingPicked(a)
  }

  /** The current thread is blocked, at the end of queue k, and the processor waits. */
  function Parked(a: Moment, k: nat): (r: Moment)
    requires k < |a.queues|
    ensures |r.queues| == |a.queues|
  {
    a.(queues := Appended(a.queues, k, a.current), locked := true)
  }

  /** The processor waits no more when a thread is ready. */
  ghost function Resume(a: Moment): (r: Moment)
    requires |a.queues| >= WAITING
    ensures |r.queues| == |a.queues|
  {
    if AnyReady(a.queues) then
      Picking(a).(current := PickedThread(a.queues, a.which), locked := false)
    else
      NothingPicked(a)
  }

  /** Rounds of the wait until a thread runs or the interrupts are used up. */
  ghost function Rounds(a: Moment, irqs: seq<seq<bv32>>): (r: Moment)
    requires |a.queues| >= WAITING
    ensures |r.queues| == |a.queues|
    decreases |irqs|
  {
    if irqs == [] || !a.locked then a else Rounds(Resume(Rouse(a, irqs[0])), irqs[1..])
  }

  /** The timer's interrupt in user or supervisor mode. */
  ghost function Ticked(a: Moment, irq: seq<bv32>): Moment
    requires Runs(a)
  {
    var b := a.(ticks := (a.ticks + 1) % WORD);
    if a.locked then b else TimeTaken(Rouse(b, irq), HighestDue(b, irq))
  }

  /** A tick is taken off the current thread's time unless a thread of higher priority has woken or the current one is
      FIFO; a switch is asked for when such a thread has woken or the time is up. */
  function TimeTaken(a: Moment, woken: int): Moment
    requires Runs(a)
  {
    var c := a.current;
    var outranked := woken > a.prio[c];
    var taken := !outranked && !IsFifo(a.prio[c]);
    a.(quantum := if taken then a.quantum[c := a.quantum[c] - 1] else a.quantum,
      need := a.need || outranked || (taken && a.quantum[c] <= 1))
  }

  /** The semaphore exists, and a thread that waits for it has a priority. */
  predicate Handable(a: Moment, k: nat) {
    && Runs(a) && k < |a.counter| && |a.queues| == WAITING + |a.counter|
    && var q := a.queues[WAITING + k];
    q != [] ==> 0 <= q[0] < |a.prio| && a.prio[q[0]] < PRIORITIES
  }

  /** A permit is put in, or handed to the thread that has waited longest, which runs at once when its priority is
      higher than the current thread's, and after the interrupt when in one. */
  ghost function Raised(a: Moment, k: nat, inIrq: bool, irq: seq<bv32>): Moment
    requires Handable(a, k)
  {
    if a.queues[WAITING + k] == [] then
      a.(counter := a.counter[k := (a.counter[k] + 1) % WORD])
    else
      var t := a.queues[WAITING + k][0];
      var b := a.(queues := Handed(a.queues, WAITING + k, a.prio[t], a.which), need := a.need
        || a.prio[t] > a.prio[a.current]);
      if a.prio[t] > a.prio[a.current] && !inIrq then GiveWay(Rouse(b, irq)) else b
  }

  /** A new thread is ready in the active array, and runs at once when its priority is higher. */
  ghost function Made(a: Moment, p: nat, inIrq: bool, irq: seq<bv32>): Moment
    requires Runs(a) && p < PRIORITIES
  {
    var b := a.(queues := Appended(a.queues, ReadyQueue(p, a.which), |a.prio|), prio := a.prio + [p],
      quantum := a.quantum + [DEFAULT_QUANTUM], irqCtrl := a.irqCtrl + [0], irqMask := a.irqMask + [0]);
    if p > a.prio[a.current] && !inIrq then GiveWay(Rouse(b, irq)) else b
  }
}
