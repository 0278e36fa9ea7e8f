/** Runs of the scheduler: they are those of the machine, what every state that can be reached keeps, and how long a
    ready thread waits. */
module SchedulerRuns {
  import opened Seqs
  import opened Chains
  import opened ThreadQueues
  import opened SchedulerSpec
  import opened Scheduler

  // ----- the machine -----

  /** Everything that can happen, with the interrupt flags as they are read at the time. */
  datatype Event =
    | Yielding(inIrq: bool, irq: seq<bv32>)
    | Timer(mode: bool, irq: seq<bv32>)
    | LeaveIrq
    | WaitIrq(ctrl: nat, mask: bv32)
    | Down(k: nat)
    | Up(k: nat, inIrq: bool, irq: seq<bv32>)
    | Create(p: nat, outOfMemory: bool, inIrq: bool, irq: seq<bv32>)
    | Round(irq: seq<bv32>)

  ghost predicate OnNone(qs: Queues, t: int) {
    forall k :: 0 <= k < |qs| ==> t !in qs[k]
  }

  /** What is needed of a moment for all events to make sense. */
  ghost predicate Sound(a: Moment) {
    && Runs(a) && |a.queues| == WAITING + |a.counter| && |a.irqCtrl| == |a.prio| == |a.irqMask|
    && (forall k: nat :: k < |a.counter| ==> Handable(a, k))
    && (!a.locked ==> OnNone(a.queues, a.current))
  }

  /** What an event does with so many interrupt controllers; nothing when it does not fit the moment.  While the
      processor waits, only the timer, a permit that nobody waits for, and the rounds of the wait do anything. */
  ghost function After(a: Moment, e: Event, controllers: nat): Moment
    requires Sound(a)
  {
    match e
    case Yielding(inIrq, irq) => if a.locked || |irq| != controllers || inIrq then a else GiveWay(Rouse(a, irq))
    case Timer(mode, irq) => if |irq| != controllers || !mode then a else Ticked(a, irq)
    case LeaveIrq => if a.locked || !a.need then a else GiveWay(a)
    case WaitIrq(ctrl, mask) =>
      if a.locked || ctrl >= controllers then a
      else Parked(a.(irqCtrl := a.irqCtrl[a.current := ctrl], irqMask := a.irqMask[a.current := mask]), IRQ)
    case Down(k) =>
      if a.locked || k >= |a.counter| then a
      else if a.counter[k] > 0 then a.(counter := a.counter[k := a.counter[k] - 1])
      else Parked(a, WAITING + k)
    case Up(k, inIrq, irq) =>
      if k >= |a.counter| || |irq| != controllers || (a.locked && a.queues[WAITING + k] != []) then a
      else Raised(a, k, inIrq, irq)
    case Create(p, outOfMemory, inIrq, irq) =>
      if a.locked || p >= PRIORITIES || |irq| != controllers || outOfMemory then a else Made(a, p, inIrq, irq)
    case Round(irq) => if !a.locked || |irq| != controllers then a else Resume(Rouse(a, irq))
  }

  /** The moments of a run. */
  ghost predicate Trace(trace: seq<Moment>, events: seq<Event>, controllers: nat) {
    && |trace| == |events| + 1
    && forall i {:trigger events[i]} :: 0 <= i < |events| ==>
      Sound(trace[i]) && trace[i + 1] == After(trace[i], events[i], controllers)
  }

  // ----- a bound on the wait -----

  ghost predicate ReadyIn(qs: Queues, w: bool, x: int)
    requires |qs| >= WAITING
  {
    exists p: nat :: p < PRIORITIES && x in qs[ReadyQueue(p, w)]
  }

  ghost predicate IsReady(qs: Queues, x: int)
    requires |qs| >= WAITING
  {
    ReadyIn(qs, false, x) || ReadyIn(qs, true, x)
  }

  /** How many more picks a ready thread may have to wait for: with a threads in the active array and e in the
      other one, a when it is in the active array, and 2a + e otherwise. */
  ghost function Rank(qs: Queues, w: bool, x: int): nat
    requires |qs| >= WAITING
  {
    var a, e := Total(qs, w, PRIORITIES), Total(qs, !w, PRIORITIES);
    if ReadyIn(qs, w, x) then a else 2 * a + e
  }

  lemma ReadyCounts(qs: Queues, w: bool, x: int)
    requires |qs| >= WAITING && ReadyIn(qs, w, x)
    ensures Total(qs, w, PRIORITIES) > 0
  {
  }

  lemma ReadyAny(qs: Queues, x: int)
    requires |qs| >= WAITING && IsReady(qs, x)
    ensures AnyReady(qs)
  {
    if ReadyIn(qs, false, x) { ReadyCounts(qs, false, x); } else { ReadyCounts(qs, true, x); }
  }

  /** Totals and membership after a pick. */
  lemma PickChanges(qs: Queues, w: bool)
    requires |qs| >= WAITING && AnyReady(qs)
    ensures var w', r := Active(qs, w), AfterPick(qs, w);
      && Total(r, w', PRIORITIES) == Total(qs, w', PRIORITIES) - 1
        && Total(r, !w', PRIORITIES) == Total(qs, !w', PRIORITIES)
      && forall h, x :: 0 <= h < |qs| && x in qs[h] && x != PickedThread(qs, w) ==> x in r[h]
  {
    var w', k := Active(qs, w), PickQueue(qs, w);
    TopIs(qs, w');
    AnyReadyIs(qs, w);
    ReadyTotals(qs, Top(qs, w', PRIORITIES), w', Without(qs[k], 0));
    FirstGone(qs[k]);
    hide Total, Top, Without;
  }

  lemma FirstGone(s: seq<int>)
    requires s != []
    ensures |Without(s, 0)| == |s| - 1 && forall x :: x in s && x != s[0] ==> x in Without(s, 0)
  {
    assert Without(s, 0) == s[1..];
  }

  lemma AppendChanges(qs: Queues, k: nat, t: int, v: bool)
    requires |qs| >= WAITING && k < |qs|
    ensures var r := Appended(qs, k, t);
      && Total(r, v, PRIORITIES) == Total(qs, v, PRIORITIES) + (if k < IRQ && k % 2 == (if v then 1 else 0) then 1
        else 0)
      && forall h, x :: 0 <= h < |qs| && x in qs[h] ==> x in r[h]
  {
    TotalChange(qs, k, qs[k] + [t], v, PRIORITIES);
    if k < IRQ && k % 2 == (if v then 1 else 0) {
      assert k == ReadyQueue(k / 2, v);
    }
  }

  lemma ReadyStays(qs: Queues, r: Queues, v: bool, x: int)
    requires |qs| >= WAITING && |r| == |qs| && ReadyIn(qs, v, x)
    requires forall h :: 0 <= h < IRQ && x in qs[h] ==> x in r[h]
    ensures ReadyIn(r, v, x)
  {
    var p: nat :| p < PRIORITIES && x in qs[ReadyQueue(p, v)];
    assert x in r[ReadyQueue(p, v)];
  }

  /** A pick of another thread brings a ready one nearer, wherever the current thread goes: nowhere, or to the end of
      a queue of the array that is not active then. */
  lemma RankFalls(qs: Queues, w: bool, x: int, r: Queues, w': bool)
    requires |qs| >= WAITING && IsReady(qs, x) && AnyReady(qs) && x != PickedThread(qs, w) && w' == Active(qs, w)
    requires |r| == |qs| && forall h :: 0 <= h < |qs| && x in qs[h] ==> x in r[h]
    requires Total(r, w', PRIORITIES) == Total(qs, w', PRIORITIES) - 1
    requires Total(r, !w', PRIORITIES) <= Total(qs, !w', PRIORITIES) + 1
    ensures IsReady(r, x) && Rank(r, w', x) < Rank(qs, w, x)
  {
    hide Total, ReadyIn;
    AnyReadyIs(qs, w);
    if ReadyIn(qs, w, x) {
      ReadyCounts(qs, w, x);
      ReadyStays(qs, r, w, x);
    } else {
      assert ReadyIn(qs, !w, x) by { if w { } else { } }
      ReadyStays(qs, r, !w, x);
    }
  }

  lemma ParkRank(qs: Queues, k: nat, t: int, w: bool, x: int)
    requires |qs| >= WAITING && IRQ <= k < |qs| && IsReady(qs, x)
    ensures IsReady(Appended(qs, k, t), x) && Rank(Appended(qs, k, t), w, x) == Rank(qs, w, x)
  {
    var r := Appended(qs, k, t);
    AppendChanges(qs, k, t, w);
    AppendChanges(qs, k, t, !w);
    assert forall v, p: nat :: p < PRIORITIES ==> r[ReadyQueue(p, v)] == qs[ReadyQueue(p, v)];
    forall v ensures ReadyIn(r, v, x) <==> ReadyIn(qs, v, x) {
      if ReadyIn(qs, v, x) { ReadyStays(qs, r, v, x); }
      if ReadyIn(r, v, x) { ReadyStays(r, qs, v, x); }
    }
  }

  lemma ResumeRank(qs: Queues, w: bool, x: int)
    requires |qs| >= WAITING && IsReady(qs, x)
    ensures AnyReady(qs)
    ensures x == PickedThread(qs, w)
      || (IsReady(AfterPick(qs, w), x) && Rank(AfterPick(qs, w), Active(qs, w), x) < Rank(qs, w, x))
  {
    ReadyAny(qs, x);
    PickChanges(qs, w);
    hide ReadyIn, Top, Total;
    if x != PickedThread(qs, w) {
      RankFalls(qs, w, x, AfterPick(qs, w), Active(qs, w));
    }
  }

  lemma SwitchRank(qs: Queues, w: bool, x: int, cur: int, prio: nat)
    requires |qs| >= WAITING && IsReady(qs, x) && prio < PRIORITIES
    ensures AnyReady(qs)
    ensures var r := Switched(qs, w, cur, prio);
      x == PickedThread(qs, w) || (IsReady(r, x) && Rank(r, Active(qs, w), x) < Rank(qs, w, x))
  {
    ReadyAny(qs, x);
    PickChanges(qs, w);
    var w' := Active(qs, w);
    var k := ReadyQueue(prio, !w');
    AppendChanges(AfterPick(qs, w), k, cur, w');
    AppendChanges(AfterPick(qs, w), k, cur, !w');
    assert k < IRQ && k % 2 != (if w' then 1 else 0);
    hide ReadyIn, Top, Total;
    if x != PickedThread(qs, w) {
      RankFalls(qs, w, x, Switched(qs, w, cur, prio), w');
    }
  }

  /** The event makes no thread ready: no flag is up that a thread waits for, no permit is handed over, and no thread
      is made. */
  ghost predicate Calm(a: Moment, e: Event)
    requires |a.queues| >= WAITING
  {
    match e
    case Yielding(_, irq) => Due(a, irq) == {}
    case Timer(_, irq) => Due(a, irq) == {}
    case Round(irq) => Due(a, irq) == {}
    case Up(k, _, _) => WAITING + k < |a.queues| ==> a.queues[WAITING + k] == []
    case Create(_, outOfMemory, _, _) => outOfMemory
    case _ => true
  }

  /** The processor is given to a thread. */
  predicate Picked(a: Moment, b: Moment) {
    b.current != a.current || (a.locked && !b.locked)
  }

  /** How often it is, along a run. */
  function Picks(trace: seq<Moment>): nat {
    if |trace| <= 1 then 0
    else Picks(trace[..|trace| - 1]) + if Picked(trace[|trace| - 2], trace[|trace| - 1]) then 1 else 0
  }

  predicate RunsNow(a: Moment, x: int) {
    a.current == x && !a.locked
  }

  lemma RouseNone(a: Moment, irq: seq<bv32>)
    requires |a.queues| >= WAITING && Due(a, irq) == {}
    ensures Rouse(a, irq) == a
  {
    NoneWake(a.queues, |a.queues[IRQ]|, a.prio, a.which);
    assert Refilled(a.quantum, a.queues[IRQ], {}) == a.quantum;
  }

  ghost predicate Nearer(a: Moment, b: Moment, x: int)
    requires |a.queues| >= WAITING
  {
    RunsNow(b, x) || (|b.queues| >= WAITING && IsReady(b.queues, x)
      && Rank(b.queues, b.which, x) + (if Picked(a, b) then 1 else 0) <= Rank(a.queues, a.which, x))
  }

  lemma GiveWayNearer(a: Moment, x: int)
    requires Runs(a) && IsReady(a.queues, x) && !a.locked
    ensures Nearer(a, GiveWay(a), x)
  {
    hide IsReady, Rank, AnyReady, PickedThread, Switched, AfterPick;
    ReadyAny(a.queues, x);
    SwitchRank(a.queues, a.which, x, a.current, a.prio[a.current]);
  }

  lemma ResumeNearer(a: Moment, x: int)
    requires |a.queues| >= WAITING && IsReady(a.queues, x)
    ensures Nearer(a, Resume(a), x)
  {
    hide IsReady, Rank, AnyReady, PickedThread, AfterPick;
    ReadyAny(a.queues, x);
    ResumeRank(a.queues, a.which, x);
  }

  lemma ParkNearer(a: Moment, k: nat, x: int)
    requires IRQ <= k < |a.queues| && |a.queues| >= WAITING && IsReady(a.queues, x)
    ensures Nearer(a, Parked(a, k), x)
  {
    hide IsReady, Rank;
    ParkRank(a.queues, k, a.current, a.which, x);
  }

  /** A calm event brings a ready thread nearer by one when it gives the processor to another one, and no farther
      away when it does not. */
  lemma CalmNearer(a: Moment, e: Event, controllers: nat, x: int)
    requires Sound(a) && IsReady(a.queues, x) && Calm(a, e)
    ensures Nearer(a, After(a, e, controllers), x)
  {
    hide IsReady, Rank, Due, Rouse, GiveWay, Resume, Parked, Handable, OnNone, TimeTaken;
    match e
    case Yielding(_, irq) => RouseNone(a, irq); if !a.locked { GiveWayNearer(a, x); }
    case Timer(_, irq) => TickNearer(a, irq, x);
    case LeaveIrq => if !a.locked { GiveWayNearer(a, x); }
    case WaitIrq(ctrl, mask) =>
      ParkNearer(a.(irqCtrl := a.irqCtrl[a.current := ctrl], irqMask := a.irqMask[a.current := mask]), IRQ, x);
    case Down(k) => if k < |a.counter| { ParkNearer(a, WAITING + k, x); }
    case Up(k, _, _) =>
    case Create(_, _, _, _) =>
    case Round(irq) => RouseNone(a, irq); ResumeNearer(a, x);
  }

  lemma TickNearer(a: Moment, irq: seq<bv32>, x: int)
    requires Runs(a) && IsReady(a.queues, x) && Due(a, irq) == {}
    ensures Nearer(a, Ticked(a, irq), x)
  {
    hide IsReady, Rank, Rouse;
    var b := a.(ticks := (a.ticks + 1) % WORD);
    assert Due(b, irq) == Due(a, irq);
    RouseNone(b, irq);
  }

  /** However the threads behave, as long as none becomes ready: with a threads in the active array and e in the other
      one, a ready thread of any priority runs before the processor has been given to threads 2a + e times, or a times
      when it is in the active array. */
  lemma {:induction false} NoStarvation(trace: seq<Moment>, events: seq<Event>, controllers: nat, x: int)
    requires Trace(trace, events, controllers) && |trace[0].queues| >= WAITING && IsReady(trace[0].queues, x)
    requires forall i {:trigger events[i]} :: 0 <= i < |events| ==> Calm(trace[i], events[i])
    ensures Picks(trace) < Rank(trace[0].queues, trace[0].which, x)
      || exists i :: 0 < i <= |events| && RunsNow(trace[i], x)
    ensures var a, e := Total(trace[0].queues, trace[0].which, PRIORITIES),
      Total(trace[0].queues, !trace[0].which, PRIORITIES);
      Rank(trace[0].queues, trace[0].which, x) <= 2 * a + e
  {
    hide IsReady, Rank, After, Sound, Picked;
    RankPositive(trace[0].queues, trace[0].which, x);
    if forall i :: 0 < i <= |events| ==> !RunsNow(trace[i], x) {
      StillReady(trace, events, controllers, x);
      RankPositive(trace[|events|].queues, trace[|events|].which, x);
    }
  }

  lemma {:induction false} StillReady(trace: seq<Moment>, events: seq<Event>, controllers: nat, x: int)
    requires Trace(trace, events, controllers) && |trace[0].queues| >= WAITING && IsReady(trace[0].queues, x)
    requires forall i {:trigger events[i]} :: 0 <= i < |events| ==> Calm(trace[i], events[i])
    requires forall i :: 0 < i <= |events| ==> !RunsNow(trace[i], x)
    ensures |trace[|events|].queues| >= WAITING && IsReady(trace[|events|].queues, x)
    ensures var a, b := trace[0], trace[|events|];
      Rank(b.queues, b.which, x) + Picks(trace) <= Rank(a.queues, a.which, x)
  {
    hide IsReady, Rank, After, Calm, Picked;
    var n := |events|;
    if n > 0 {
      var before := events[..n - 1];
      forall j | 0 <= j < |before|
        ensures Sound(trace[j]) && trace[j + 1] == After(trace[j], before[j], controllers) && Calm(trace[j], before[j])
      {
        assert before[j] == events[j];
      }
      StillReady(trace[..n], before, controllers, x);
      assert trace[n] == After(trace[n - 1], events[n - 1], controllers);
      CalmNearer(trace[n - 1], events[n - 1], controllers, x);
      assert trace[..|trace| - 1] == trace[..n];
    }
  }

  /** With a thread ready, the processor is given away by every yield outside interrupts, by every preemption that has
      been asked for, and by the first round of a wait. */
  lemma GivenAway(a: Moment, e: Event, controllers: nat, x: int)
    requires Sound(a) && IsReady(a.queues, x) && Calm(a, e)
    requires match e
      case Yielding(inIrq, irq) => !a.locked && !inIrq && |irq| == controllers
      case LeaveIrq => !a.locked && a.need
      case Round(irq) => a.locked && |irq| == controllers
      case _ => false
    ensures Picked(a, After(a, e, controllers))
  {
    hide IsReady, Due, Rouse, Active, Top, AnyReady;
    ReadyAny(a.queues, x);
    match e
    case Yielding(_, irq) => RouseNone(a, irq); PickedElsewhere(a);
    case LeaveIrq => PickedElsewhere(a);
    case Round(irq) => RouseNone(a, irq);
    case _ =>
  }

  lemma PickedElsewhere(a: Moment)
    requires |a.queues| >= WAITING && AnyReady(a.queues) && OnNone(a.queues, a.current)
    ensures PickedThread(a.queues, a.which) != a.current
  {
    var k := PickQueue(a.queues, a.which);
    assert a.queues[k][0] in a.queues[k];
  }

  lemma RankPositive(qs: Queues, w: bool, x: int)
    requires |qs| >= WAITING && IsReady(qs, x)
    ensures 0 < Rank(qs, w, x) <= 2 * Total(qs, w, PRIORITIES) + Total(qs, !w, PRIORITIES)
  {
    if ReadyIn(qs, w, x) {
      ReadyCounts(qs, w, x);
    } else {
      assert ReadyIn(qs, !w, x) by { if w { } else { } }
      ReadyCounts(qs, !w, x);
    }
  }

  // ----- what every state keeps -----

  /** Every thread is the current one or on exactly one queue, once; ready threads are on the queue of their
      priority, waiting ones are blocked; the counts are right; a semaphore with permits has no waiting threads. */
  ghost predicate Conserved(s: SchedulerInfo, running: bool)
    reads s
  {
    var qs := s.queues;
    && |qs| == WAITING + |s.counter| && |s.blocked| == |s.at| && |s.prio| == |s.at|
    && (forall k :: 0 <= k < |qs| ==> NoDup(qs[k]))
    && (forall t, h, k :: 0 <= h < |qs| && 0 <= k < |qs| && t in qs[h] && t in qs[k] ==> h == k)
    && (forall t :: 0 <= t < |s.at| ==> ((running && t == s.curThread) <==> OnNone(qs, t)))
    && (forall t, k :: 0 <= t < |s.at| && 0 <= k < |qs| && t in qs[k] ==>
      (s.blocked[t] <==> k >= IRQ) && (k < IRQ ==> k / 2 == s.prio[t]))
    && s.readyCount == map[false := Total(qs, false, PRIORITIES), true := Total(qs, true, PRIORITIES)]
    && (forall k :: 0 <= k < |s.counter| && s.counter[k] > 0 ==> qs[WAITING + k] == [])
    && s.Permits()
  }

  lemma Conservation(s: SchedulerInfo, running: bool)
    requires if running then s.Valid() else s.Idle()
    ensures Conserved(s, running)
  {
    var loose := if running then {s.curThread} else {};
    assert s.Busy(loose);
    OnOneQueue(s, loose);
    Placed(s, loose);
    s.Parts(loose);
    hide Filed, Threads, Total, OnNone;
    assert s.St().count == s.readyCount;
  }

  lemma OnOneQueue(s: SchedulerInfo, loose: set<int>)
    requires s.Busy(loose)
    ensures forall k :: 0 <= k < |s.queues| ==> NoDup(s.queues[k])
    ensures forall t, h, k :: 0 <= h < |s.queues| && 0 <= k < |s.queues| && t in s.queues[h] && t in s.queues[k] ==>
      h == k
  {
    var m, qs := s.Mem(), s.queues;
    forall k | 0 <= k < |qs| ensures NoDup(qs[k]) { assert QueueIs(m, qs[k], k); }
    hide QueueIs;
    forall t, h, k | 0 <= h < |qs| && 0 <= k < |qs| && t in qs[h] && t in qs[k] ensures h == k {
      OnQueue(m, qs, h, t);
      OnQueue(m, qs, k, t);
    }
  }

  lemma Placed(s: SchedulerInfo, loose: set<int>)
    requires s.Busy(loose)
    ensures |s.blocked| == |s.at| && |s.prio| == |s.at|
    ensures forall t :: 0 <= t < |s.at| ==> (t in loose <==> OnNone(s.queues, t))
    ensures forall t, k :: 0 <= t < |s.at| && 0 <= k < |s.queues| && t in s.queues[k] ==>
      (s.blocked[t] <==> k >= IRQ) && (k < IRQ ==> k / 2 == s.prio[t])
  {
    var m, qs := s.Mem(), s.queues;
    hide QueueIs;
    forall t | 0 <= t < |s.at|
      ensures t in loose <==> OnNone(qs, t)
    {
      assert ThreadOk(s.St(), loose, t);
      forall k | 0 <= k < |qs| ensures t in qs[k] <==> m.at[t] == k { OnQueue(m, qs, k, t); }
      assert -1 <= m.at[t] < |qs|;
      if t !in loose { assert t in qs[m.at[t]]; }
    }
    forall t, k | 0 <= t < |s.at| && 0 <= k < |qs| && t in qs[k]
      ensures (s.blocked[t] <==> k >= IRQ) && (k < IRQ ==> k / 2 == s.prio[t])
    {
      OnQueue(m, qs, k, t);
      assert ThreadOk(s.St(), loose, t);
    }
  }

  ghost predicate Fine(s: SchedulerInfo)
    reads s
  {
    |s.queues| == WAITING + |s.counter| && if s.lock then s.Idle() else s.Valid()
  }

  lemma FineNow(s: SchedulerInfo)
    requires s.Valid() || s.Idle()
    ensures Fine(s)
  {
    hide Filed, Ok, SchedulerInfo.Permits, SchedulerInfo.Shape, Total;
    s.Parts(if s.lock then {} else {s.curThread});
  }

  lemma SoundNow(s: SchedulerInfo)
    requires Fine(s)
    ensures Sound(s.Now())
  {
    hide Filed, Handable, Total, Runs, OnNone;
    var loose := if s.lock then {} else {s.curThread};
    s.Parts(loose);
    s.NowRuns();
    Placed(s, loose);
    forall k: nat | k < |s.counter| ensures Handable(s.Now(), k) { s.Waiters(k); }
  }

  /** An event does what the machine says. */
  method Happen(s: SchedulerInfo, e: Event)
    requires Fine(s)
    modifies s
    ensures Fine(s) && Sound(old(s.Now())) && s.Now() == After(old(s.Now()), e, s.controllers)
  {
    hide Due, GiveWay, Ok, Raised, Resume, Rouse, SchedulerInfo.Permits, SchedulerInfo.Shape, Ticked, Total;
    SoundNow(s);
    match e {
      case Timer(mode, irq) =>
        if |irq| == s.controllers { s.TimerISR(mode, irq); }
      case Round(irq) =>
        if s.lock && |irq| == s.controllers { var _ := s.IdleRound(irq); }
      case Up(k, inIrq, irq) =>
        if k < |s.counter| && |irq| == s.controllers {
          s.Waiters(k);
          if !s.lock || s.first[WAITING + k] == NONE {
            s.SemaphoreUp(k, inIrq, irq);
          }
        }
      case _ =>
        if !s.lock { Running(s, e); }
    }
    FineNow(s);
  }

  method Running(s: SchedulerInfo, e: Event)
    requires Fine(s) && !s.lock && Sound(s.Now()) && !e.Timer? && !e.Round? && !e.Up?
    modifies s
    ensures s.Valid() || s.Idle()
    ensures s.Now() == After(old(s.Now()), e, s.controllers)
  {
    hide GiveWay, Made, Ok, Parked, Rouse, SchedulerInfo.Permits, SchedulerInfo.Shape, Total;
    match e {
      case Yielding(inIrq, irq) =>
        if |irq| == s.controllers { s.Yield(inIrq, irq); }
      case LeaveIrq =>
        s.Reschedule();
      case WaitIrq(ctrl, mask) =>
        if ctrl < s.controllers { var _ := s.WaitForIRQ(ctrl, mask, []); }
      case Down(k) =>
        if k < |s.counter| { var _ := s.SemaphoreDown(k, []); }
      case Create(p, outOfMemory, inIrq, irq) =>
        if p < PRIORITIES && |irq| == s.controllers { var _ := s.CreateThread(p, outOfMemory, inIrq, irq); }
    }
  }

  /** One thread and nothing on any queue. */
  function Start(permits: seq<nat>): Moment {
    Moment(seq(WAITING + |permits|, _ => []), [0], [DEFAULT_QUANTUM], [0], [0], permits, 0, false, false, 0, false)
  }

  lemma NoEvents(trace: seq<Moment>, events: seq<Event>, controllers: nat)
    requires |trace| == 1
    ensures Trace(trace, events[..0], controllers)
  {
  }

  lemma OneMore(trace: seq<Moment>, events: seq<Event>, i: nat, controllers: nat, b: Moment)
    requires i < |events| && Trace(trace, events[..i], controllers)
    requires Sound(trace[i]) && b == After(trace[i], events[i], controllers)
    ensures Trace(trace + [b], events[..i + 1], controllers)
  {
    hide After, Sound;
    var more := events[..i + 1];
    forall j | 0 <= j < |more|
      ensures Sound((trace + [b])[j]) && (trace + [b])[j + 1] == After((trace + [b])[j], more[j], controllers)
    {
      if j < i { assert events[..i][j] == more[j]; }
    }
  }

  /** Whatever happens from the start on: the machine's run, and everything is conserved. */
  method Run(controllers: nat, permits: seq<nat>, events: seq<Event>)
    returns (s: SchedulerInfo, ghost trace: seq<Moment>)
    requires forall k :: 0 <= k < |permits| ==> permits[k] < WORD
    ensures fresh(s) && s.controllers == controllers && Conserved(s, !s.lock)
    ensures Trace(trace, events, controllers) && trace[0] == Start(permits) && trace[|events|] == s.Now()
  {
    s := new SchedulerInfo.ThrInit(controllers, permits);
    hide After, Conserved, Fine, Sound, Trace;
    FineNow(s);
    trace := [s.Now()];
    NoEvents(trace, events, controllers);
    for i := 0 to |events|
      invariant fresh(s) && s.controllers == controllers && Fine(s)
      invariant |trace| == i + 1 && trace[0] == Start(permits) && trace[i] == s.Now()
      invariant Trace(trace, events[..i], controllers)
    {
      Happen(s, events[i]);
      OneMore(trace, events, i, controllers, s.Now());
      trace := trace + [s.Now()];
    }
    assert events[..|events|] == events;
    Conservation(s, !s.lock);
  }
}
