/** The thread scheduler: two arrays of ready queues, threads that wait for interrupts, and semaphores that hand
    their permits over.  Every method is one atomic step. */
module Scheduler {
  import opened Seqs
  import opened Chains
  import opened ThreadQueues
  import opened SchedulerSpec

  function NextOf(s: seq<int>, j: nat): int {
    if j < |s| then s[j] else NONE
  }

  lemma NextIs(s: seq<int>, j: nat)
    requires forall x :: x in s ==> 0 <= x
    ensures NextOf(s, j) == NONE <==> j >= |s|
  {
    if j < |s| { assert s[j] in s; }
  }

  lemma PickIs(qs: Queues, w: bool, w': bool, t: int, qs': Queues)
    requires |qs| >= WAITING && AnyReady(qs) && w' == Active(qs, w)
    requires Top(qs, w', PRIORITIES) >= 0
    requires var k := ReadyQueue(Top(qs, w', PRIORITIES), w');
      k < |qs| && qs[k] != [] && t == qs[k][0] && qs' == qs[k := Without(qs[k], 0)]
    ensures t == PickedThread(qs, w) && qs' == AfterPick(qs, w)
  {
  }

  lemma PermitOut(x: int)
    requires x % WORD > 0
    ensures (x - 1) % WORD == x % WORD - 1
  {
  }

  lemma PermitIn(x: int)
    ensures (x + 1) % WORD == (x % WORD + 1) % WORD
  {
  }

  lemma NoneHighest(s: seq<int>, out: set<int>, prio: seq<nat>)
    ensures Highest(s[..0], out, prio) == -1
  {
  }

  class SchedulerInfo {
    const controllers: nat
    // threads
    var next: seq<int>
    var prev: seq<int>
    var at: seq<int>
    var blocked: seq<bool>
    var prio: seq<nat>
    var quantum: seq<int>
    var irqCtrl: seq<nat>
    var irqMask: seq<bv32>
    // queues
    var first: seq<int>
    var last: seq<int>
    var counter: seq<nat>
    // the scheduler's record
    var curThread: int
    var readyCount: map<bool, int>
    var which: bool
    var needReschedule: bool
    var tickCount: nat
    var lock: bool

    ghost var queues: Queues
    // for every semaphore: its permits at first, how often it was raised, and how often a thread got a permit
    ghost const initial: seq<int>
    ghost var raised: seq<int>
    ghost var granted: seq<int>

    function Mem(): Memory
      reads `next, `prev, `at, `first, `last
    {
      Memory(Links(next, prev), at, first, last)
    }

    function St(): State
      reads `next, `prev, `at, `first, `last, `blocked, `prio, `counter, `readyCount
    {
      State(Mem(), blocked, prio, counter, readyCount)
    }

    ghost predicate Shape()
      reads `at, `quantum, `irqCtrl, `irqMask, `curThread
    {
      && |quantum| == |at| && |irqCtrl| == |at| && |irqMask| == |at|
      && 0 <= curThread < |at|
      && forall t :: 0 <= t < |at| && at[t] == IRQ ==> irqCtrl[t] < controllers
    }

    /** In the middle of a step: the threads in `loose` are on no queue. */
    ghost predicate Busy(loose: set<int>)
      reads `next, `prev, `at, `first, `last, `blocked, `prio, `counter, `readyCount
      reads `quantum, `irqCtrl, `irqMask, `curThread, `queues
    {
      Shape() && Ok(St(), queues, loose)
    }

    /** A semaphore's counter is what was put in less what was handed out. */
    ghost predicate Permits()
      reads `counter, `raised, `granted
    {
      && |initial| == |counter| && |raised| == |counter| && |granted| == |counter|
      && forall k :: 0 <= k < |counter| ==> counter[k] == (initial[k] + raised[k] - granted[k]) % WORD
    }

    /** Between steps: the current thread runs and is on no queue, every other one is on exactly one. */
    ghost predicate Valid()
      reads this
    {
      Busy({curThread}) && Permits() && !lock
    }

    /** The current thread is blocked, and the processor waits for an interrupt: every thread is on a queue. */
    ghost predicate Idle()
      reads this
    {
      Busy({}) && Permits() && lock
    }

    ghost function Now(): Moment
      reads `queues, `prio, `quantum, `irqCtrl, `irqMask, `counter, `curThread, `which, `needReschedule, `tickCount,
        `lock
    {
      Moment(queues, prio, quantum, irqCtrl, irqMask, counter, curThread, which, needReschedule, tickCount, lock)
    }

    // ----- queues -----

    /** Behind the last thread of queue k. */
    method QueueAdd(k: nat, t: int)
      requires Filed(Mem(), queues) && k < |queues| && Thread(Mem(), t) && at[t] == NONE
      modifies `next, `prev, `at, `first, `last, `queues
      ensures Filed(Mem(), queues) && queues == Appended(old(queues), k, t) && at == old(at)[t := k]
    {
      hide Filed;
      ghost var m := Mem();
      FiledSizes(m, queues);
      EndsOf(m, queues, k, t);
      AddFiled(m, queues, k, t);
      next := next[t := NONE];
      prev := prev[t := last[k]];
      at := at[t := k];
      last := last[k := t];
      if prev[t] != NONE {
        next := next[prev[t] := t];
      } else {
        first := first[k := t];
      }
      assert Mem() == Add(m, k, t);
      queues := Appended(queues, k, t);
    }

    /** The first thread of queue k, off it; null when the queue is empty. */
    method QueuePop(k: nat) returns (t: int)
      requires Filed(Mem(), queues) && k < |queues|
      modifies `prev, `at, `first, `last, `queues
      ensures t == Head(old(queues)[k]) && (t == NONE <==> old(queues)[k] == []) && Filed(Mem(), queues)
      ensures t == NONE ==> queues == old(queues) && at == old(at)
      ensures t != NONE ==> queues == old(queues)[k := Without(old(queues)[k], 0)]
      ensures t != NONE ==> 0 <= t < |old(at)| && at == old(at)[t := NONE]
    {
      hide Filed, Without;
      ghost var m := Mem();
      FiledSizes(m, queues);
      FirstOf(m, queues, k);
      t := first[k];
      if t != NONE {
        NeighboursOf(m, queues, k, 0);
        RemoveFiled(m, queues, k, 0);
        if next[t] != NONE {
          prev := prev[next[t] := NONE];
        } else {
          last := last[k := NONE];
        }
        at := at[t := NONE];
        first := first[k := next[t]];
        assert Mem() == Remove(m, t);
        queues := queues[k := Without(queues[k], 0)];
      }
    }

    /** Off the queue that the thread is on, wherever it is in it. */
    method QueueRemove(t: int, ghost j: nat)
      requires Filed(Mem(), queues) && Thread(Mem(), t) && 0 <= at[t] < |queues|
      requires j < |queues[at[t]]| && queues[at[t]][j] == t
      modifies `next, `prev, `at, `first, `last, `queues
      ensures Filed(Mem(), queues) && at == old(at)[t := NONE]
      ensures queues == old(queues)[old(at)[t] := Without(old(queues)[old(at)[t]], j)]
    {
      hide Filed, Without;
      ghost var m := Mem();
      FiledSizes(m, queues);
      NeighboursOf(m, queues, at[t], j);
      RemoveFiled(m, queues, at[t], j);
      var k := at[t];
      at := at[t := NONE];
      if prev[t] != NONE {
        next := next[prev[t] := next[t]];
        if next[t] != NONE {
          prev := prev[next[t] := prev[t]];
        } else {
          last := last[k := prev[t]];
        }
      } else {
        first := first[k := next[t]];
        if next[t] != NONE {
          prev := prev[next[t] := NONE];
        } else {
          last := last[k := NONE];
        }
      }
      assert Mem() == Remove(m, t);
      queues := queues[k := Without(queues[k], j)];
    }

    // ----- threads between queues -----

    /** A loose thread at the end of its ready queue. */
    method MakeReady(t: int, w: bool, ghost loose: set<int>)
      requires Busy(loose) && t in loose && 0 <= t < |at| == |prio|
      modifies `next, `prev, `at, `first, `last, `readyCount, `queues
      ensures prio[t] < PRIORITIES && |queues| == |old(queues)|
      ensures ReadyQueue(prio[t], w) < |old(queues)|
      ensures queues == Appended(old(queues), ReadyQueue(prio[t], w), t)
      ensures Busy(loose - {t})
    {
      hide Filed, Ok, PRIORITIES, ReadyQueue, Total;
      ghost var s, qs := St(), queues;
      Parts(loose);
      LooseThread(loose, t);
      QueueAdd(ReadyQueue(prio[t], w), t);
      readyCount := readyCount[w := readyCount[w] + 1];
      ReadyStep(s, Mem(), qs, loose, t, w);
      assert Shape();
    }

    /** The current thread blocks on the end of a wait queue. */
    method Park(k: nat, ghost loose: set<int>)
      requires Busy(loose) && curThread in loose && IRQ <= k < |queues| && |counter| + WAITING == |queues|
      requires k == IRQ ==> 0 <= curThread < |irqCtrl| && irqCtrl[curThread] < controllers
      requires k >= WAITING ==> counter[k - WAITING] == 0
      modifies `next, `prev, `at, `first, `last, `blocked, `queues
      ensures Busy(loose - {curThread}) && queues == Appended(old(queues), k, curThread)
    {
      hide Filed, Ok, PRIORITIES, ReadyQueue, Total;
      ghost var s, qs, t := St(), queues, curThread;
      Parts(loose);
      assert 0 <= t < |at|;
      LooseThread(loose, t);
      blocked := blocked[curThread := true];
      QueueAdd(k, curThread);
      ParkStep(s, Mem(), qs, loose, t, k);
      assert Shape();
    }

    /** The first thread of a ready queue is taken off. */
    method PopReady(p: nat, w: bool, ghost loose: set<int>) returns (t: int)
      requires Busy(loose) && p < PRIORITIES && ReadyQueue(p, w) < |queues| && queues[ReadyQueue(p, w)] != []
      modifies `prev, `at, `first, `last, `readyCount, `queues
      ensures t == old(queues)[ReadyQueue(p, w)][0] && t !in loose && Busy(loose + {t})
      ensures queues == old(queues)[ReadyQueue(p, w) := Without(old(queues)[ReadyQueue(p, w)], 0)]
      ensures 0 <= t < |at| == |prio| && prio[t] == p
    {
      hide Filed, Ok, PRIORITIES, ReadyQueue, Total, Without;
      ghost var s, qs := St(), queues;
      Parts(loose);
      readyCount := readyCount[w := readyCount[w] - 1];
      t := QueuePop(ReadyQueue(p, w));
      PickStep(s, Mem(), qs, loose, p, w);
      assert Shape();
    }

    /** The first thread that waits for a semaphore is taken off its queue, no longer blocked. */
    method PopWaiting(k: nat, ghost loose: set<int>) returns (t: int)
      requires Busy(loose) && IRQ <= k < |queues| && queues[k] != []
      modifies `prev, `at, `first, `last, `blocked, `queues
      ensures t == old(queues)[k][0] && t !in loose && Busy(loose + {t})
      ensures queues == old(queues)[k := Without(old(queues)[k], 0)]
      ensures 0 <= t < |at| == |prio|
    {
      hide Filed, Ok, PRIORITIES, ReadyQueue, Total, Without;
      ghost var s, qs := St(), queues;
      Parts(loose);
      t := QueuePop(k);
      blocked := blocked[t := false];
      WakeStep(s, Mem(), qs, loose, k, 0);
      assert Shape();
    }

    /** A thread on the interrupt queue is taken off it, no longer blocked. */
    method Unblock(t: int, ghost j: nat, ghost loose: set<int>)
      requires Busy(loose) && IRQ < |queues| && j < |queues[IRQ]| && t == queues[IRQ][j]
      modifies `next, `prev, `at, `first, `last, `blocked, `queues
      ensures t !in loose && Busy(loose + {t}) && queues == old(queues)[IRQ := Without(old(queues)[IRQ], j)]
      ensures 0 <= t < |at| == |prio|
    {
      hide Filed, Ok, PRIORITIES, ReadyQueue, Total, Without;
      ghost var s, qs := St(), queues;
      Parts(loose);
      OnQueue(Mem(), queues, IRQ, t);
      blocked := blocked[t := false];
      QueueRemove(t, j);
      WakeStep(s, Mem(), qs, loose, IRQ, j);
      assert Shape();
    }

    // ----- interrupts -----

    method WakeOne(t: int, ghost i: nat, ghost loose: set<int>)
      requires Busy(loose) && |queues| >= WAITING && i < |queues[IRQ]| && t == queues[IRQ][i]
      modifies `next, `prev, `at, `first, `last, `blocked, `quantum, `readyCount, `queues
      ensures Busy(loose) && |at| == old(|at|) && 0 <= t < |prio| && prio[t] < PRIORITIES
        && ReadyQueue(prio[t], which) < IRQ
      ensures var k, qs := ReadyQueue(prio[t], which), old(queues)[IRQ := Without(old(queues)[IRQ], i)];
        queues == qs[k := qs[k] + [t]]
      ensures 0 <= t < |old(quantum)| && quantum == old(quantum)[t := DEFAULT_QUANTUM]
    {
      hide Filed, Ok, Total;
      Unblock(t, i, loose);
      Parts(loose + {t});
      LooseThread(loose + {t}, t);
      MakeReady(t, which, loose + {t});
      Parts(loose + {t} - {t});
      assert loose + {t} - {t} == loose;
      quantum := quantum[t := DEFAULT_QUANTUM];
    }

    /** One thread of the interrupt queue: woken when its interrupt has come. */
    method LookAt(t: int, irq: seq<bv32>, maxPrio: int, ghost a: Moment, ghost j: nat, ghost loose: set<int>)
      returns (m: int)
      requires Busy(loose) && |irq| == controllers && |a.queues| >= WAITING && j < |a.queues[IRQ]|
        && t == a.queues[IRQ][j]
      requires irqCtrl == a.irqCtrl && irqMask == a.irqMask
      requires queues == WokenTo(a.queues, j, Due(a, irq), prio, which)
      requires quantum == Refilled(a.quantum, a.queues[IRQ][..j], Due(a, irq))
      requires maxPrio == Highest(a.queues[IRQ][..j], Due(a, irq), prio)
      modifies `next, `prev, `at, `first, `last, `blocked, `quantum, `readyCount, `queues
      ensures Busy(loose) && |at| == old(|at|) && queues == WokenTo(a.queues, j + 1, Due(a, irq), prio, which)
      ensures quantum == Refilled(a.quantum, a.queues[IRQ][..j + 1], Due(a, irq))
      ensures m == Highest(a.queues[IRQ][..j + 1], Due(a, irq), prio)
    {
      hide Busy, Filed, Highest, Kept, Ok, Refilled, Shape, Total, WokenTo, Without;
      ghost var qs, out := a.queues, Due(a, irq);
      ghost var i := |Kept(qs[IRQ][..j], out)|;
      WaitingAt(qs, j, out, prio, which);
      WaitingThread(loose, i);
      HighestStep(qs[IRQ], j, out, prio);
      RefilledStep(a.quantum, qs[IRQ], j, out);
      m := maxPrio;
      if Overlap(irq[irqCtrl[t]], irqMask[t]) {
        WokenStep(qs, j, out, prio, which);
        if prio[t] > m {
          m := prio[t];
        }
        WakeOne(t, i, loose);
      } else {
        KeptStep(qs, j, out, prio, which);
      }
    }

    /** Wakes the threads whose interrupts have come; `irq` is what the controllers' flags are read as. */
    method WakeUpIRQ(irq: seq<bv32>, ghost loose: set<int>) returns (maxPrio: int)
      requires Busy(loose) && |irq| == controllers && |queues| >= WAITING
      modifies `next, `prev, `at, `first, `last, `blocked, `quantum, `readyCount, `queues
      ensures Busy(loose) && |at| == old(|at|)
      ensures Now() == Rouse(old(Now()), irq) && maxPrio == HighestDue(old(Now()), irq)
    {
      hide Busy, Due, Filed, Highest, Kept, Ok, Refilled, Shape, Total, WokenTo;
      ghost var a, s, j := Now(), queues[IRQ], 0;
      ghost var out := Due(a, irq);
      Parts(loose);
      OnlyThreads(loose, IRQ);
      WokenStart(a.queues, out, prio, which);
      NoneHighest(s, out, prio);
      RefilledStart(quantum, s, out);
      FirstOf(Mem(), queues, IRQ);
      maxPrio := -1;
      var t := first[IRQ];
      while t != NONE
        invariant 0 <= j <= |s| && t == NextOf(s, j) && |queues| == |a.queues| && |at| == old(|at|)
        invariant Busy(loose) && queues == WokenTo(a.queues, j, out, prio, which)
        invariant maxPrio == Highest(s[..j], out, prio) && quantum == Refilled(a.quantum, s[..j], out)
        decreases |s| - j
      {
        NextIs(s, j);
        WaitingAt(a.queues, j, out, prio, which);
        WaitingThread(loose, |Kept(s[..j], out)|);
        var tN := next[t];
        maxPrio := LookAt(t, irq, maxPrio, a, j, loose);
        t := tN;
        j := j + 1;
      }
      NextIs(s, j);
      assert s[..j] == s;
    }

    // ----- the scheduler -----

    /** Picks the next thread, or none when no thread is ready; the arrays change roles when the active one is
        empty. */
    method Schedule(isPreempt: bool, irq: seq<bv32>, ghost loose: set<int>) returns (t: int)
      requires Busy(loose) && |queues| >= WAITING && (!isPreempt ==> |irq| == controllers)
      modifies `next, `prev, `at, `first, `last, `blocked, `quantum, `readyCount, `queues, `which, `needReschedule
      ensures |at| == old(|at|)
      ensures var a := if isPreempt then old(Now()) else Rouse(old(Now()), irq);
        if AnyReady(a.queues) then
          t == PickedThread(a.queues, a.which) && Now() == Picking(a) && Busy(loose + {t}) && t !in loose
            && 0 <= t < |at|
        else
          t == NONE && Now() == NothingPicked(a) && Busy(loose)
    {
      hide Active, AfterPick, AnyReady, Busy, Filed, Mem, PRIORITIES, PickedThread, ReadyQueue, Rouse, Top, Total,
        Without;
      Parts(loose);
      ghost var a := if isPreempt then Now() else Rouse(Now(), irq);
      RouseAsked(Now(), irq, false);
      needReschedule := false;
      if !isPreempt {
        var _ := WakeUpIRQ(irq, loose);
      }
      assert Now() == a.(need := false);
      t := Pick(a, loose);
    }

    /** The thread that is picked once the interrupts have been looked at. */
    method Pick(ghost a: Moment, ghost loose: set<int>) returns (t: int)
      requires Busy(loose) && |queues| >= WAITING && Now() == a.(need := false)
      modifies `prev, `at, `first, `last, `readyCount, `queues, `which
      ensures |at| == old(|at|)
      ensures if AnyReady(a.queues) then
          t == PickedThread(a.queues, a.which) && Now() == Picking(a) && Busy(loose + {t}) && t !in loose
            && 0 <= t < |at|
        else
          t == NONE && Now() == NothingPicked(a) && Busy(loose)
    {
      hide AfterPick, AnyReady, Busy, Filed, Mem, PRIORITIES, PickedThread, ReadyQueue, Top, Total, Without;
      Parts(loose);
      AnyReadyIs(queues, which);
      if readyCount[which] == 0 {
        which := !which;
        if readyCount[which] == 0 {
          return NONE;
        }
      }
      assert which == Active(a.queues, a.which);
      t := PickHighest(loose);
      PickIs(a.queues, a.which, which, t, queues);
    }

    /** The loop over the priorities. */
    method PickHighest(ghost loose: set<int>) returns (t: int)
      requires Busy(loose) && |queues| >= WAITING && Total(queues, which, PRIORITIES) > 0
      modifies `prev, `at, `first, `last, `readyCount, `queues
      ensures 0 <= t < |at| && t !in loose && Busy(loose + {t}) && |at| == old(|at|)
      ensures Top(old(queues), which, PRIORITIES) >= 0
      ensures var k := ReadyQueue(Top(old(queues), which, PRIORITIES), which);
        && k < |old(queues)| && old(queues)[k] != []
        && t == old(queues)[k][0] && queues == old(queues)[k := Without(old(queues)[k], 0)]
    {
      hide Busy, Without;
      var i := PRIORITIES - 1;
      while i >= 0
        invariant -1 <= i < PRIORITIES && Busy(loose) && queues == old(queues) && |at| == old(|at|)
        invariant Top(queues, which, PRIORITIES) == Top(queues, which, i + 1)
      {
        Parts(loose);
        FirstOf(Mem(), queues, ReadyQueue(i, which));
        if first[ReadyQueue(i, which)] != NONE {
          t := PopReady(i, which, loose);
          return;
        }
        i := i - 1;
      }
      assert false;
    }

    // ----- yielding -----

    /** Away from the current thread, which stays ready. */
    method SwitchTo(t: int)
      requires Busy({curThread, t}) && t != curThread && 0 <= t < |at| && |prio| == |at| && 0 <= curThread < |at|
      modifies `next, `prev, `at, `first, `last, `readyCount, `queues, `quantum, `curThread
      ensures prio[old(curThread)] < PRIORITIES && ReadyQueue(prio[old(curThread)], !which) < |old(queues)|
      ensures curThread == t && Busy({curThread}) && old(curThread) < |old(quantum)|
      ensures queues == Appended(old(queues), ReadyQueue(prio[old(curThread)], !which), old(curThread))
      ensures quantum == old(quantum)[old(curThread) := DEFAULT_QUANTUM]
    {
      hide Filed, Ok, Total;
      ghost var cur := curThread;
      MakeReady(curThread, !which, {curThread, t});
      assert {cur, t} - {cur} == {t};
      Parts({t});
      quantum := quantum[curThread := DEFAULT_QUANTUM];
      curThread := t;
    }

    /** The current thread gives way, unless in an interrupt or with no other thread ready. */
    method Yield(inIrq: bool, irq: seq<bv32>)
      requires Valid() && |irq| == controllers && |queues| >= WAITING
      modifies `next, `prev, `at, `first, `last, `blocked, `quantum, `readyCount, `queues, `which, `needReschedule,
        `curThread
      ensures Valid() && Runs(old(Now()))
      ensures Now() == if inIrq then old(Now()) else GiveWay(Rouse(old(Now()), irq))
    {
      hide AfterPick, AnyReady, Appended, Busy, DEFAULT_QUANTUM, Idle, NothingPicked, Ok, PRIORITIES, Permits,
        PickedThread, ReadyQueue, Rouse, Runs, WAITING;
      NowRuns();
      if inIrq {
        return;
      }
      var t := Schedule(false, irq, {curThread});
      if t != NONE {
        assert {curThread} + {t} == {curThread, t};
        CurrentThread({curThread, t});
        SwitchTo(t);
      }
    }

    /** On the way out of an interrupt. */
    method Reschedule()
      requires Valid() && |queues| >= WAITING
      modifies `next, `prev, `at, `first, `last, `blocked, `quantum, `readyCount, `queues, `which, `needReschedule,
        `curThread
      ensures Valid() && Runs(old(Now()))
      ensures Now() == if old(needReschedule) then GiveWay(old(Now())) else old(Now())
    {
      hide AfterPick, AnyReady, Ok, Permits, PickedThread, Rouse;
      NowRuns();
      if !needReschedule {
        return;
      }
      var t := Schedule(true, [], {curThread});
      if t != NONE {
        assert {curThread} + {t} == {curThread, t};
        CurrentThread({curThread, t});
        SwitchTo(t);
      }
    }

    lemma CurrentThread(loose: set<int>)
      requires Busy(loose)
      ensures 0 <= curThread < |at| == |prio|
    {
    }

    lemma NowRuns()
      requires Valid() || Idle()
      ensures Runs(Now())
    {
      hide Filed, Permits, Total;
      var loose := if lock then {} else {curThread};
      assert ThreadOk(St(), loose, curThread);
    }

    // ----- blocking -----

    /** One round of the wait for a thread to run, with the current one blocked; it may be the one that wakes. */
    method IdleRound(irq: seq<bv32>) returns (found: bool)
      requires Idle() && |irq| == controllers && |queues| >= WAITING
      modifies `next, `prev, `at, `first, `last, `blocked, `quantum, `readyCount, `queues, `which, `needReschedule,
        `curThread, `lock
      ensures if found then Valid() else Idle()
      ensures Now() == Resume(Rouse(old(Now()), irq))
    {
      hide AfterPick, AnyReady, NothingPicked, Ok, Permits, PickedThread, Picking, Rouse, Runs, St, WAITING;
      ghost var a := Rouse(Now(), irq);
      var t := Schedule(false, irq, {});
      found := t != NONE;
      if found {
        assert {} + {t} == {t};
        lock := false;
        if t != curThread {
          curThread := t;
        }
      }
    }

    /** The current thread is blocked, and the processor waits. */
    method Block(k: nat)
      requires Valid() && IRQ <= k < |queues| && |counter| + WAITING == |queues|
      requires k == IRQ ==> 0 <= curThread < |irqCtrl| && irqCtrl[curThread] < controllers
      requires k >= WAITING ==> counter[k - WAITING] == 0
      modifies `next, `prev, `at, `first, `last, `blocked, `queues, `lock
      ensures Idle() && Now() == Parked(old(Now()), k)
    {
      hide Ok, Permits, Shape, St;
      assert Busy({curThread});
      Park(k, {curThread});
      assert {curThread} - {curThread} == {};
      lock := true;
    }

    /** Rounds until a thread is found, or until the given interrupts are used up. */
    method Sleep(irqs: seq<seq<bv32>>) returns (found: bool)
      requires Idle() && |queues| >= WAITING && forall k :: 0 <= k < |irqs| ==> |irqs[k]| == controllers
      modifies `next, `prev, `at, `first, `last, `blocked, `quantum, `readyCount, `queues, `which, `needReschedule,
        `curThread, `lock
      ensures if found then Valid() else Idle()
      ensures Now() == Rounds(old(Now()), irqs)
    {
      hide AnyReady, Busy, Permits, Resume, Rouse;
      found := false;
      var k := 0;
      while k < |irqs| && !found
        invariant 0 <= k <= |irqs| && |queues| >= WAITING
        invariant if found then Valid() else Idle()
        invariant Rounds(old(Now()), irqs) == Rounds(Now(), irqs[k..])
      {
        assert irqs[k..][1..] == irqs[k + 1..];
        found := IdleRound(irqs[k]);
        k := k + 1;
      }
    }

    /** The current thread waits for an interrupt. */
    method WaitForIRQ(ctrl: nat, mask: bv32, irqs: seq<seq<bv32>>) returns (found: bool)
      requires Valid() && |queues| >= WAITING && ctrl < controllers
      requires forall k :: 0 <= k < |irqs| ==> |irqs[k]| == controllers
      modifies `next, `prev, `at, `first, `last, `blocked, `quantum, `readyCount, `queues, `which, `needReschedule,
        `curThread, `lock
      modifies `irqCtrl, `irqMask
      ensures (if found then Valid() else Idle()) && 0 <= old(curThread) < |old(irqCtrl)|
        && old(curThread) < |old(irqMask)|
      ensures var a := old(Now()).(irqCtrl := old(irqCtrl)[old(curThread) := ctrl],
        irqMask := old(irqMask)[old(curThread) := mask]);
        Now() == Rounds(Parked(a, IRQ), irqs)
    {
      hide Filed, Idle, Mem, Ok, PRIORITIES, Parked, Permits, ReadyQueue, Rounds, St, Total;
      Parts({curThread});
      CurrentThread({curThread});
      irqCtrl := irqCtrl[curThread := ctrl];
      irqMask := irqMask[curThread := mask];
      assert Valid();
      Block(IRQ);
      found := Sleep(irqs);
    }

    // ----- the timer -----

    /** The timer's interrupt: in user or supervisor mode only. */
    method TimerISR(mode: bool, irq: seq<bv32>)
      requires (Valid() || Idle()) && |irq| == controllers && |queues| >= WAITING
      modifies `next, `prev, `at, `first, `last, `blocked, `quantum, `readyCount, `queues, `needReschedule, `tickCount
      ensures (if lock then Idle() else Valid()) && Runs(old(Now()))
      ensures Now() == if mode then Ticked(old(Now()), irq) else old(Now())
    {
      hide Busy, Due, Filed, Highest, IRQ, IsFifo, Mem, Ok, PRIORITIES, Permits, ReadyQueue, Refilled, St, TimeTaken,
        Total,
        WAITING, Woken;
      NowRuns();
      if !mode {
        return;
      }
      tickCount := (tickCount + 1) % WORD;
      if lock {
        return;
      }
      var maxPrio := WakeUpIRQ(irq, {curThread});
      NowRuns();
      TakeTick(maxPrio);
    }

    /** A tick off the current thread's quantum, unless a woken thread is to run before it anyway or it is a FIFO
        thread. */
    method TakeTick(maxPrio: int)
      requires Valid() && Runs(Now())
      modifies `quantum, `needReschedule
      ensures Valid() && Now() == TimeTaken(old(Now()), maxPrio)
    {
      hide IsFifo, Ok, Permits, St;
      if maxPrio <= prio[curThread] {
        if IsFifo(prio[curThread]) {
          return;
        }
        quantum := quantum[curThread := quantum[curThread] - 1];
        if quantum[curThread] > 0 {
          return;
        }
      }
      needReschedule := true;
    }

    // ----- semaphores -----

    /** Takes a permit, or blocks until one is handed over. */
    method SemaphoreDown(k: nat, irqs: seq<seq<bv32>>) returns (found: bool)
      requires Valid() && |queues| >= WAITING && k < |counter| && WAITING + |counter| == |queues|
      requires forall i :: 0 <= i < |irqs| ==> |irqs[i]| == controllers
      modifies `next, `prev, `at, `first, `last, `blocked, `quantum, `readyCount, `queues, `which, `needReschedule,
        `curThread, `lock
      modifies `counter, `granted
      ensures if found then Valid() else Idle()
      ensures Now() == if old(counter[k]) > 0 then old(Now()).(counter := old(counter)[k := old(counter[k]) - 1])
        else Rounds(Parked(old(Now()), WAITING + k), irqs)
    {
      hide Idle, Parked, Rounds, Valid;
      if counter[k] != 0 {
        TakePermit(k);
        return true;
      }
      Block(WAITING + k);
      found := Sleep(irqs);
    }

    method TakePermit(k: nat)
      requires Valid() && k < |counter| && counter[k] > 0
      modifies `counter, `granted
      ensures Valid() && counter == old(counter)[k := old(counter[k]) - 1]
    {
      hide Filed, Ok, Total;
      PermitOut(initial[k] + raised[k] - granted[k]);
      Parts({curThread});
      CounterStep(St(), queues, {curThread}, k, counter[k] - 1);
      counter := counter[k := counter[k] - 1];
      granted := granted[k := granted[k] + 1];
    }

    method GivePermit(k: nat)
      requires (Valid() || Idle()) && k < |counter| && |queues| == WAITING + |counter| && queues[WAITING + k] == []
      modifies `counter, `raised
      ensures if lock then Idle() else Valid()
      ensures counter == old(counter)[k := (old(counter[k]) + 1) % WORD]
    {
      hide Filed, Ok, Total;
      ghost var loose := if lock then {} else {curThread};
      PermitIn(initial[k] + raised[k] - granted[k]);
      Parts(loose);
      CounterStep(St(), queues, loose, k, (counter[k] + 1) % WORD);
      counter := counter[k := (counter[k] + 1) % WORD];
      raised := raised[k := raised[k] + 1];
    }

    /** The thread that has waited longest gets the permit and is ready. */
    method HandOver(k: nat) returns (t: int)
      requires Valid() && |queues| >= WAITING && k < |counter| && WAITING + k < |queues| && queues[WAITING + k] != []
      modifies `next, `prev, `at, `first, `last, `blocked, `readyCount, `queues, `raised, `granted
      ensures Valid() && t == old(queues)[WAITING + k][0] && 0 <= t < |prio| && prio[t] < PRIORITIES
        && 0 <= curThread < |prio|
      ensures queues == Handed(old(queues), WAITING + k, prio[t], which)
    {
      hide Busy, Filed, Mem, NONE, PRIORITIES, ReadyQueue, Total, WORD, Without;
      ghost var cur := curThread;
      assert Busy({curThread}) && Permits() && !lock;
      t := PopWaiting(WAITING + k, {curThread});
      LooseThread({cur} + {t}, t);
      CurrentThread({cur} + {t});
      Parts({cur} + {t});
      MakeReady(t, which, {cur} + {t});
      assert {cur} + {t} - {t} == {cur};
      assert |raised| == |granted| == |counter|;
      raised, granted := raised[k := raised[k] + 1], granted[k := granted[k] + 1];
      assert Valid();
    }

    /** Puts a permit in, or hands it to the thread that has waited longest: that thread is ready then, and runs at
        once when its priority is higher than the current thread's.  While the processor waits for an interrupt the
        scheduler's lock is held, and only a semaphore without waiting threads can be raised. */
    method SemaphoreUp(k: nat, inIrq: bool, irq: seq<bv32>)
      requires |queues| >= WAITING && k < |counter| && WAITING + |counter| == |queues| && |irq| == controllers
      requires Valid() || (Idle() && queues[WAITING + k] == [])
      modifies `next, `prev, `at, `first, `last, `blocked, `quantum, `readyCount, `queues, `which, `needReschedule,
        `curThread
      modifies `counter, `raised, `granted
      ensures (if lock then Idle() else Valid()) && Handable(old(Now()), k)
      ensures Now() == Raised(old(Now()), k, inIrq, irq)
    {
      hide Busy, GiveWay, Handable, Handed, Idle, NONE, PRIORITIES, Permits, Rouse, Runs, WORD;
      Waiters(k);
      if first[WAITING + k] == NONE {
        GivePermit(k);
        return;
      }
      var t := HandOver(k);
      Outrank(t, inIrq, irq);
    }

    /** The first thread that waits for a semaphore. */
    lemma Waiters(k: nat)
      requires (Valid() || Idle()) && k < |counter|
      ensures |first| == |queues| == WAITING + |counter| && (first[WAITING + k] == NONE <==> queues[WAITING + k] == [])
      ensures Handable(Now(), k)
    {
      hide Filed, Total;
      var loose := if lock then {} else {curThread};
      Parts(loose);
      FirstOf(Mem(), queues, WAITING + k);
      NowRuns();
      if queues[WAITING + k] != [] {
        OnQueue(Mem(), queues, WAITING + k, queues[WAITING + k][0]);
        assert ThreadOk(St(), loose, queues[WAITING + k][0]);
      }
    }

    /** A thread of higher priority runs at once, or after the interrupt. */
    method Outrank(t: int, inIrq: bool, irq: seq<bv32>)
      requires Valid() && 0 <= t < |prio| && |irq| == controllers
      modifies `next, `prev, `at, `first, `last, `blocked, `quantum, `readyCount, `queues, `which, `needReschedule,
        `curThread
      ensures Valid() && Runs(old(Now()))
      ensures var a := old(Now());
        Now() == if a.prio[t] <= a.prio[a.current] then a
          else if inIrq then a.(need := true) else GiveWay(Rouse(a.(need := true), irq))
    {
      hide Busy, GiveWay, Permits, Rouse;
      NowRuns();
      var bNeedYield := prio[t] > prio[curThread];
      if bNeedYield {
        needReschedule := true;
        assert Valid();
        Yield(inIrq, irq);
      }
    }

    // ----- threads -----

    /** A new thread, ready at once in the active array; none when there is no memory for it. */
    method CreateThread(p: nat, outOfMemory: bool, inIrq: bool, irq: seq<bv32>) returns (t: int)
      requires Valid() && |queues| >= WAITING && p < PRIORITIES && |irq| == controllers
      modifies `next, `prev, `at, `first, `last, `blocked, `prio, `quantum, `irqCtrl, `irqMask, `readyCount, `queues,
        `which
      modifies `needReschedule, `curThread
      ensures Valid() && Runs(old(Now()))
      ensures outOfMemory ==> t == NONE && Now() == old(Now())
      ensures !outOfMemory ==> t == old(|at|) == old(|prio|) && Now() == Made(old(Now()), p, inIrq, irq)
    {
      hide Busy, Filed, GiveWay, IRQ, Mem, NONE, PRIORITIES, ReadyQueue, Rouse, Total, WAITING, WORD;
      NowRuns();
      if outOfMemory {
        return NONE;
      }
      ghost var cur := curThread;
      t := NewThread(p);
      Parts({cur} + {t});
      CurrentThread({cur} + {t});
      LooseThread({cur} + {t}, t);
      MakeReady(t, which, {cur} + {t});
      assert {cur} + {t} - {t} == {cur};
      assert Valid();
      var bNeedYield := p > prio[curThread];
      if bNeedYield {
        Yield(inIrq, irq);
      }
    }

    method NewThread(p: nat) returns (t: int)
      requires Valid() && p < PRIORITIES
      modifies `next, `prev, `at, `blocked, `prio, `quantum, `irqCtrl, `irqMask
      ensures t == old(|at|) == old(|prio|) && t != curThread && prio == old(prio) + [p] && |prio| == |at| == t + 1
      ensures quantum == old(quantum) + [DEFAULT_QUANTUM] && irqCtrl == old(irqCtrl) + [0]
        && irqMask == old(irqMask) + [0]
      ensures Busy({curThread} + {t}) && Permits() && !lock
    {
      hide DEFAULT_QUANTUM, Filed, NONE, Ok, PRIORITIES, Permits, ReadyQueue, Shape, Total, WAITING;
      Parts({curThread});
      CurrentThread({curThread});
      ghost var s := St();
      NewStep(s, queues, {curThread}, p);
      t := |at|;
      next, prev, at := next + [NONE], prev + [NONE], at + [NONE];
      blocked, prio, quantum := blocked + [false], prio + [p], quantum + [DEFAULT_QUANTUM];
      irqCtrl, irqMask := irqCtrl + [0], irqMask + [0];
      assert Mem() == Grown(s.mem);
      ShapeGrown();
    }

    /** One more thread, on no queue, leaves the shape as it was. */
    twostate lemma ShapeGrown()
      requires old(Shape()) && curThread == old(curThread) && at == old(at) + [NONE] && |quantum| == old(|quantum|) + 1
      requires (exists c :: irqCtrl == old(irqCtrl) + [c]) && |irqMask| == old(|irqMask|) + 1
      ensures Shape()
    {
    }

    /** One thread, running; the semaphores have their first permits. */
    constructor ThrInit(irqControllers: nat, permits: seq<nat>)
      requires forall k :: 0 <= k < |permits| ==> permits[k] < WORD
      ensures Valid() && controllers == irqControllers && initial == permits
      ensures Now() == Moment(seq(WAITING + |permits|, _ => []), [0], [DEFAULT_QUANTUM], [0], [0], permits, 0, false,
        false, 0, false)
    {
      hide Valid;
      controllers := irqControllers;
      next, prev, at := [NONE], [NONE], [NONE];
      blocked, prio, quantum := [false], [0], [DEFAULT_QUANTUM];
      irqCtrl, irqMask := [0], [0];
      first, last := seq(WAITING + |permits|, _ => NONE), seq(WAITING + |permits|, _ => NONE);
      counter, readyCount := permits, map[false := 0, true := 0];
      curThread, which, needReschedule, tickCount, lock := 0, false, false, 0, false;
      queues := seq(WAITING + |permits|, _ => []);
      initial, raised, granted := permits, seq(|permits|, _ => 0), seq(|permits|, _ => 0);
      new;
      Started();
    }

    lemma Started()
      requires at == next == prev == [NONE] && prio == [0] && |quantum| == |irqCtrl| == |irqMask| == 1
        && blocked == [false]
      requires |queues| == |first| == |last| == WAITING + |counter| && curThread == 0 && !lock
      requires forall k :: 0 <= k < |queues| ==> queues[k] == [] && first[k] == last[k] == NONE
      requires readyCount == map[false := 0, true := 0] && initial == counter && |raised| == |granted| == |counter|
      requires forall k :: 0 <= k < |counter| ==> raised[k] == granted[k] == 0 && counter[k] < WORD
      ensures Valid()
    {
    }

    lemma OnlyThreads(loose: set<int>, k: nat)
      requires Busy(loose) && k < |queues|
      ensures forall x :: x in queues[k] ==> 0 <= x < |at|
    {
      hide Filed;
      forall x | x in queues[k] ensures 0 <= x < |at| {
        OnQueue(Mem(), queues, k, x);
      }
    }

    lemma WaitingThread(loose: set<int>, i: nat)
      requires Busy(loose) && |queues| >= WAITING && i < |queues[IRQ]|
      ensures var q, t := queues[IRQ], queues[IRQ][i];
        && 0 <= t < |at| == |prio| == |next| == |irqCtrl| == |irqMask| == |quantum| && irqCtrl[t] < controllers
          && prio[t] < PRIORITIES
        && next[t] == (if i + 1 == |q| then NONE else q[i + 1])
    {
      NeighboursOf(Mem(), queues, IRQ, i);
      assert ThreadOk(St(), loose, queues[IRQ][i]);
    }

    lemma Parts(loose: set<int>)
      requires Busy(loose)
      ensures Filed(Mem(), queues) && |queues| == WAITING + |counter|
      ensures |first| == |queues| && |last| == |queues| && |queues| >= WAITING && |readyCount| >= 0
      ensures |next| == |at| && |prev| == |at| && |blocked| == |at| && |prio| == |at|
      ensures |quantum| == |at| && |irqCtrl| == |at| && |irqMask| == |at|
      ensures which in readyCount && !which in readyCount
      ensures readyCount[which] == Total(queues, which, PRIORITIES)
        && readyCount[!which] == Total(queues, !which, PRIORITIES)
    {
      if which { } else { }
    }

    lemma LooseThread(loose: set<int>, t: int)
      requires Busy(loose) && t in loose && 0 <= t < |at|
      ensures |prio| == |at| && |blocked| == |at|
      ensures at[t] == NONE && prio[t] < PRIORITIES && !blocked[t]
      ensures forall w :: ReadyQueue(prio[t], w) < IRQ
    {
      assert ThreadOk(St(), loose, t);
    }
  }
}
