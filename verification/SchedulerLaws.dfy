/** What the events of the scheduler do, said without the machine's own functions: of the queues, which are 2p and 2p
    + 1 for priority p in the two arrays, 32 for interrupts and 33 + k for semaphore k, and of priorities, quanta,
    permits and flags.  And what follows for runs. */
module SchedulerLaws {
  import opened Seqs
  import opened Chains
  import opened ThreadQueues
  import opened SchedulerSpec
  import opened SchedulerRuns

  // ----- interrupts -----

  /** Thread t waits for an interrupt that has come. */
  predicate Hears(a: Moment, irq: seq<bv32>, t: int)
    requires |a.queues| > 32
  {
    && t in a.queues[32] && 0 <= t < |a.irqCtrl| && t < |a.irqMask| && a.irqCtrl[t] < |irq|
    && irq[a.irqCtrl[t]] & a.irqMask[t] != 0
  }

  function Slot(p: nat, w: bool): nat {
    if w then 2 * p + 1 else 2 * p
  }

  /** The queue of priority p in one of the arrays. */
  function Ready(a: Moment, p: nat, w: bool): seq<int>
    requires |a.queues| > 32 && p < 16
  {
    a.queues[Slot(p, w)]
  }

  ghost predicate Before(s: seq<int>, x: int, y: int) {
    exists i, j :: 0 <= i < j < |s| && s[i] == x && s[j] == y
  }

  /** Exactly the threads that hear are moved, each behind the ready threads of its priority in the active array and
      with all its time again; nobody overtakes anybody. */
  ghost predicate Wakes(a: Moment, irq: seq<bv32>, r: Moment)
    requires |a.queues| > 32
  {
    && |r.queues| == |a.queues| && |r.quantum| == |a.quantum| && r == a.(queues := r.queues, quantum := r.quantum)
    && (forall t :: 0 <= t < |a.quantum| ==> r.quantum[t] == if Hears(a, irq, t) then 10 else a.quantum[t])
    && (forall k :: 32 < k < |a.queues| ==> r.queues[k] == a.queues[k])
    && (forall t :: t in r.queues[32] <==> t in a.queues[32] && !Hears(a, irq, t))
    && (forall x, y :: Before(r.queues[32], x, y) ==> Before(a.queues[32], x, y))
    && SameArray(a, r, !a.which)
    && (forall p: nat :: p < 16 ==> Joined(a, irq, p, Ready(r, p, a.which)))
  }

  ghost predicate SameArray(a: Moment, r: Moment, w: bool)
    requires |a.queues| > 32 && |r.queues| > 32
  {
    forall p: nat :: p < 16 ==> Ready(r, p, w) == Ready(a, p, w)
  }

  /** The queue of priority p with the woken threads behind. */
  ghost predicate Joined(a: Moment, irq: seq<bv32>, p: nat, s: seq<int>)
    requires |a.queues| > 32 && p < 16
  {
    var q := Ready(a, p, a.which);
    && q <= s
    && (forall t :: t in s[|q|..] <==> Hears(a, irq, t) && t < |a.prio| && a.prio[t] == p)
    && (forall x, y :: Before(s[|q|..], x, y) ==> Before(a.queues[32], x, y))
  }

  lemma HearsIs(a: Moment, irq: seq<bv32>)
    requires |a.queues| >= WAITING
    ensures forall t :: t in Due(a, irq) <==> Hears(a, irq, t)
  {
  }

  lemma BeforeLast(s: seq<int>, t: int, x: int, y: int)
    requires Before(s + [t], x, y)
    ensures Before(s, x, y) || (x in s && y == t)
  {
    var i, j :| 0 <= i < j < |s + [t]| && (s + [t])[i] == x && (s + [t])[j] == y;
    assert s[i] == x;
    if j < |s| { assert s[j] == y; }
  }

  lemma BeforeMore(s: seq<int>, t: int, x: int, y: int)
    requires Before(s, x, y) || (x in s && y == t)
    ensures Before(s + [t], x, y)
  {
    var u := s + [t];
    if Before(s, x, y) {
      var i, j :| 0 <= i < j < |s| && s[i] == x && s[j] == y;
      assert u[i] == x && u[j] == y;
    } else {
      var i :| 0 <= i < |s| && s[i] == x;
      assert u[i] == x && u[|s|] == y;
    }
  }

  lemma {:induction false} KeptLaw(s: seq<int>, out: set<int>)
    ensures forall t :: t in Kept(s, out) <==> t in s && t !in out
    ensures forall x, y :: Before(Kept(s, out), x, y) ==> Before(s, x, y)
  {
    if s != [] {
      var u, t := s[..|s| - 1], s[|s| - 1];
      KeptLaw(u, out);
      assert s == u + [t];
      forall x, y | Before(Kept(s, out), x, y) ensures Before(s, x, y) {
        if t !in out { BeforeLast(Kept(u, out), t, x, y); }
        BeforeMore(u, t, x, y);
      }
    }
  }

  lemma {:induction false} ChosenLaw(s: seq<int>, out: set<int>, prio: seq<nat>, p: nat)
    ensures forall t :: t in Chosen(s, out, prio, p) <==> t in s && t in out && 0 <= t < |prio| && prio[t] == p
    ensures forall x, y :: Before(Chosen(s, out, prio, p), x, y) ==> Before(s, x, y)
  {
    if s != [] {
      var u, t := s[..|s| - 1], s[|s| - 1];
      ChosenLaw(u, out, prio, p);
      assert s == u + [t];
      forall x, y | Before(Chosen(s, out, prio, p), x, y) ensures Before(s, x, y) {
        if t in out && 0 <= t < |prio| && prio[t] == p { BeforeLast(Chosen(u, out, prio, p), t, x, y); }
        BeforeMore(u, t, x, y);
      }
    }
  }

  lemma WakesLaw(a: Moment, irq: seq<bv32>)
    requires |a.queues| >= WAITING
    ensures Wakes(a, irq, Rouse(a, irq))
  {
    var out, s, r := Due(a, irq), a.queues[IRQ], Rouse(a, irq);
    HearsIs(a, irq);
    assert s[..|s|] == s;
    KeptLaw(s, out);
    assert r.queues[32] == Kept(s, out);
    hide Due, Kept, Chosen, Joined;
    forall p: nat | p < 16 ensures Joined(a, irq, p, Ready(r, p, a.which)) { JoinedLaw(a, irq, p); }
  }

  lemma JoinedLaw(a: Moment, irq: seq<bv32>, p: nat)
    requires |a.queues| >= WAITING && p < 16
    ensures Joined(a, irq, p, Ready(Rouse(a, irq), p, a.which))
  {
    var out, s, q := Due(a, irq), a.queues[IRQ], Ready(a, p, a.which);
    HearsIs(a, irq);
    assert s[..|s|] == s;
    ChosenLaw(s, out, a.prio, p);
    hide Due, Chosen;
    var more := Chosen(s, out, a.prio, p);
    assert Ready(Rouse(a, irq), p, a.which) == q + more;
    assert (q + more)[|q|..] == more;
  }

  // ----- who runs next -----

  ghost predicate NoneReady(a: Moment, w: bool)
    requires |a.queues| > 32
  {
    forall p: nat :: p < 16 ==> Ready(a, p, w) == []
  }

  /** p is the highest priority of a thread that is ready in an array. */
  ghost predicate Foremost(a: Moment, w: bool, p: nat)
    requires |a.queues| > 32
  {
    p < 16 && Ready(a, p, w) != [] && forall h: nat :: p < h < 16 ==> Ready(a, h, w) == []
  }

  /** The array that is picked from. */
  ghost function Side(a: Moment): bool
    requires |a.queues| > 32
  {
    if NoneReady(a, a.which) then !a.which else a.which
  }

  /** The processor passes on, and the current thread stays ready: the thread that has been ready longest among those of
      the highest priority runs, from the active array or, when that is empty, from the other one, and the current
      thread is last of its priority in the array that is not active then, with all its time again. */
  ghost predicate Passes(a: Moment, b: Moment)
    requires Runs(a)
  {
    if NoneReady(a, false) && NoneReady(a, true) then
      b == a.(which := !a.which, need := false)
    else
      exists p: nat :: Foremost(a, Side(a), p) && b == Passed(a, p)
  }

  ghost function Passed(a: Moment, p: nat): Moment
    requires Runs(a) && Foremost(a, Side(a), p)
  {
    var w, c := Side(a), a.current;
    a.(queues := a.queues[Slot(p, w) := Ready(a, p, w)[1..]][Slot(a.prio[c], !w) := Ready(a, a.prio[c], !w) + [c]],
      quantum := a.quantum[c := 10], current := Ready(a, p, w)[0], which := w, need := false)
  }

  /** The foremost thread runs; the one that waited stays on its queue. */
  ghost function Resumed(a: Moment, p: nat): Moment
    requires |a.queues| > 32 && Foremost(a, Side(a), p)
  {
    var w := Side(a);
    a.(queues := a.queues[Slot(p, w) := Ready(a, p, w)[1..]], current := Ready(a, p, w)[0], which := w, need := false,
      locked := false)
  }

  ghost predicate Resumes(a: Moment, b: Moment)
    requires |a.queues| > 32
  {
    if NoneReady(a, false) && NoneReady(a, true) then
      b == a.(which := !a.which, need := false)
    else
      exists p: nat :: Foremost(a, Side(a), p) && b == Resumed(a, p)
  }

  lemma NoneReadyIs(a: Moment, w: bool)
    requires |a.queues| >= WAITING
    ensures NoneReady(a, w) <==> Total(a.queues, w, PRIORITIES) == 0
  {
    SlotIs(a, w);
  }

  lemma SlotIs(a: Moment, w: bool)
    requires |a.queues| >= WAITING
    ensures forall p: nat :: p < 16 ==> Ready(a, p, w) == a.queues[ReadyQueue(p, w)]
  {
  }

  lemma ForemostIs(a: Moment, w: bool)
    requires |a.queues| >= WAITING && Total(a.queues, w, PRIORITIES) > 0
    ensures Top(a.queues, w, PRIORITIES) >= 0 && Foremost(a, w, Top(a.queues, w, PRIORITIES))
  {
    TopIs(a.queues, w);
    SlotIs(a, w);
  }

  lemma SideIs(a: Moment)
    requires |a.queues| >= WAITING
    ensures AnyReady(a.queues) <==> !(NoneReady(a, false) && NoneReady(a, true))
    ensures Active(a.queues, a.which) == Side(a)
    ensures AnyReady(a.queues) ==> Total(a.queues, Side(a), PRIORITIES) > 0
  {
    NoneReadyIs(a, false);
    NoneReadyIs(a, true);
    if a.which { } else { }
  }

  /** The machine's pick. */
  lemma PickLaw(a: Moment) returns (p: nat)
    requires |a.queues| >= WAITING && AnyReady(a.queues)
    ensures Foremost(a, Side(a), p) && Active(a.queues, a.which) == Side(a)
    ensures PickedThread(a.queues, a.which) == Ready(a, p, Side(a))[0]
    ensures AfterPick(a.queues, a.which) == a.queues[Slot(p, Side(a)) := Ready(a, p, Side(a))[1..]]
  {
    SideIs(a);
    ForemostIs(a, Side(a));
    p := Top(a.queues, Side(a), PRIORITIES);
    hide Total, Side, Top;
    assert Without(Ready(a, p, Side(a)), 0) == Ready(a, p, Side(a))[1..];
  }

  lemma PassesLaw(a: Moment)
    requires Runs(a)
    ensures Passes(a, GiveWay(a))
  {
    SideIs(a);
    if AnyReady(a.queues) {
      var p := PickLaw(a);
      hide AfterPick, AnyReady, Foremost, NoneReady, PickedThread, Side, Active;
      assert GiveWay(a) == Passed(a, p);
    }
  }

  lemma ResumesLaw(a: Moment)
    requires |a.queues| >= WAITING
    ensures Resumes(a, Resume(a))
  {
    SideIs(a);
    if AnyReady(a.queues) {
      var p := PickLaw(a);
      hide AfterPick, AnyReady, Foremost, NoneReady, PickedThread, Side, Active;
      assert Resume(a) == Resumed(a, p);
    }
  }

  /** A yield outside interrupts: the interrupts are looked at, and the processor passes on. */
  lemma YieldLaw(a: Moment, irq: seq<bv32>, controllers: nat) returns (r: Moment)
    requires Sound(a) && !a.locked && |irq| == controllers
    ensures Wakes(a, irq, r) && Runs(r) && Passes(r, After(a, Yielding(false, irq), controllers))
  {
    r := Rouse(a, irq);
    WakesLaw(a, irq);
    PassesLaw(r);
  }

  /** On the way out of an interrupt the processor passes on when that has been asked for. */
  lemma LeaveLaw(a: Moment, controllers: nat)
    requires Sound(a) && !a.locked
    ensures if a.need then Passes(a, After(a, LeaveIrq, controllers)) else After(a, LeaveIrq, controllers) == a
  {
    PassesLaw(a);
  }

  /** A round of a wait: the interrupts are looked at, and the wait is over exactly when a thread is ready then; the one
      that runs is picked as in a yield, but the thread that waited stays where it is. */
  lemma RoundLaw(a: Moment, irq: seq<bv32>, controllers: nat) returns (r: Moment)
    requires Sound(a) && a.locked && |irq| == controllers
    ensures Wakes(a, irq, r)
    ensures Resumes(r, After(a, Round(irq), controllers))
  {
    r := Rouse(a, irq);
    WakesLaw(a, irq);
    ResumesLaw(r);
  }

  /** Waiting for an interrupt: last of those that do. */
  lemma WaitLaw(a: Moment, ctrl: nat, mask: bv32, controllers: nat)
    requires Sound(a) && !a.locked && ctrl < controllers
    ensures var c, q := a.current, a.queues[32] + [a.current];
      After(a, WaitIrq(ctrl, mask), controllers) ==
      a.(queues := a.queues[32 := q], irqCtrl := a.irqCtrl[c := ctrl], irqMask := a.irqMask[c := mask], locked := true)
  {
  }

  /** Lowering a semaphore: a permit, or last of those that wait for one. */
  lemma DownLaw(a: Moment, k: nat, controllers: nat)
    requires Sound(a) && !a.locked && k < |a.counter|
    ensures After(a, Down(k), controllers) ==
      if a.counter[k] > 0 then a.(counter := a.counter[k := a.counter[k] - 1])
      else a.(queues := a.queues[33 + k := a.queues[33 + k] + [a.current]], locked := true)
  {
  }

  /** Raising a semaphore: one permit more, or the thread that has waited longest is ready in the active array.  When
      its priority is higher than the current thread's, the processor passes on, in an interrupt on the way out of
      it. */
  lemma UpLaw(a: Moment, k: nat, inIrq: bool, irq: seq<bv32>, controllers: nat) returns (m: Moment, r: Moment)
    requires Sound(a) && k < |a.counter| && |irq| == controllers && (a.locked ==> a.queues[33 + k] == [])
    ensures var b, c, q := After(a, Up(k, inIrq, irq), controllers), a.current, a.queues[33 + k];
      if q == [] then b == a.(counter := a.counter[k := (a.counter[k] + 1) % 0x1_0000_0000])
      else
        var t := q[0];
        && 0 <= t < |a.prio| && a.prio[t] < 16
        && m == a.(queues := a.queues[33 + k := q[1..]][Slot(a.prio[t], a.which) := Ready(a, a.prio[t], a.which) + [t]],
                   need := a.need || a.prio[t] > a.prio[c])
        && if inIrq || a.prio[t] <= a.prio[c] then b == m else Wakes(m, irq, r) && Runs(r) && Passes(r, b)
  {
    m, r := a, a;
    assert Handable(a, k);
    UpIs(a, k, inIrq, irq, controllers);
    hide After, Sound, OnNone, Handed, Wakes, Passes, Rouse, GiveWay, Slot, Ready;
    if a.queues[33 + k] != [] {
      HandedIs(a, k);
      var t := a.queues[33 + k][0];
      m := a.(queues := Handed(a.queues, WAITING + k, a.prio[t], a.which),
              need := a.need || a.prio[t] > a.prio[a.current]);
      r := Rouse(m, irq);
      WakesLaw(m, irq);
      if !inIrq && a.prio[t] > a.prio[a.current] { PassesLaw(r); }
    }
  }

  lemma UpIs(a: Moment, k: nat, inIrq: bool, irq: seq<bv32>, controllers: nat)
    requires Sound(a) && k < |a.counter| && |irq| == controllers && (a.locked ==> a.queues[33 + k] == [])
    ensures Handable(a, k) && After(a, Up(k, inIrq, irq), controllers) == Raised(a, k, inIrq, irq)
  {
    hide Raised, OnNone;
  }

  lemma HandedIs(a: Moment, k: nat)
    requires Handable(a, k) && a.queues[33 + k] != []
    ensures var q := a.queues[33 + k];
      var t, w := q[0], a.which;
      Handed(a.queues, 33 + k, a.prio[t], w)
      == a.queues[33 + k := q[1..]][Slot(a.prio[t], w) := Ready(a, a.prio[t], w) + [t]]
  {
    assert Without(a.queues[33 + k], 0) == a.queues[33 + k][1..];
  }

  /** Making a thread: it is last of its priority in the active array, with all its time.  When its priority is higher
      than the current thread's, the processor passes on, but for in an interrupt. */
  lemma CreateLaw(a: Moment, p: nat, inIrq: bool, irq: seq<bv32>, controllers: nat) returns (m: Moment, r: Moment)
    requires Sound(a) && !a.locked && p < 16 && |irq| == controllers
    ensures var b := After(a, Create(p, false, inIrq, irq), controllers);
      && m == a.(queues := a.queues[Slot(p, a.which) := Ready(a, p, a.which) + [|a.prio|]], prio := a.prio + [p],
                 quantum := a.quantum + [10], irqCtrl := a.irqCtrl + [0], irqMask := a.irqMask + [0])
      && if inIrq || p <= a.prio[a.current] then b == m else Wakes(m, irq, r) && Runs(r) && Passes(r, b)
  {
    m := a.(queues := Appended(a.queues, ReadyQueue(p, a.which), |a.prio|), prio := a.prio + [p],
      quantum := a.quantum + [DEFAULT_QUANTUM], irqCtrl := a.irqCtrl + [0], irqMask := a.irqMask + [0]);
    r := Rouse(m, irq);
    WakesLaw(m, irq);
    PassesLaw(r);
  }

  lemma Empty(s: seq<int>)
    requires forall u :: u !in s
    ensures s == []
  {
    if s != [] { var _ := Member(s); }
  }

  lemma Member(s: seq<int>) returns (u: int)
    requires s != []
    ensures u in s
  {
    u := s[0];
  }

  /** Thread t is alone of priority p in the active array, with none of a higher one there or waking. */
  ghost predicate Alone(m: Moment, irq: seq<bv32>, t: int, p: nat)
    requires |m.queues| > 32
  {
    && p < 16 && Ready(m, p, m.which) == [t] && (forall h: nat :: p < h < 16 ==> Ready(m, h, m.which) == [])
    && forall s :: Hears(m, irq, s) && s < |m.prio| ==> m.prio[s] < p
  }

  lemma NoneJoins(m: Moment, irq: seq<bv32>, h: nat, s: seq<int>)
    requires |m.queues| > 32 && h < 16 && Joined(m, irq, h, s)
    requires forall u :: Hears(m, irq, u) && u < |m.prio| ==> m.prio[u] != h
    ensures s == Ready(m, h, m.which)
  {
    hide Hears, Ready, Before;
    var q := Ready(m, h, m.which);
    Empty(s[|q|..]);
    assert s == q + s[|q|..];
  }

  lemma TopRuns(r: Moment, b: Moment, t: int, p: nat)
    requires Runs(r) && Passes(r, b) && p < 16 && Ready(r, p, r.which) == [t]
    requires forall h: nat :: p < h < 16 ==> Ready(r, h, r.which) == []
    ensures b.current == t
  {
    hide Ready;
    assert Foremost(r, r.which, p) && !NoneReady(r, r.which);
    var g: nat :| Foremost(r, Side(r), g) && b == Passed(r, g);
    assert g == p;
  }

  /** A thread alone of its priority in the active array, with none of a higher one there or waking, runs next. */
  lemma AloneRuns(m: Moment, irq: seq<bv32>, r: Moment, b: Moment, t: int, p: nat)
    requires Runs(m) && Wakes(m, irq, r) && Runs(r) && Passes(r, b) && Alone(m, irq, t, p)
    ensures b.current == t
  {
    hide Hears, Ready, Passes, Joined, Before;
    forall h: nat | p <= h < 16 ensures Ready(r, h, m.which) == Ready(m, h, m.which) {
      assert Joined(m, irq, h, Ready(r, h, m.which));
      NoneJoins(m, irq, h, Ready(r, h, m.which));
    }
    TopRuns(r, b, t, p);
  }

  /** So a thread that gets a permit outside interrupts runs at once when it outranks the current thread, all that are
      ready in the active array, and all that wake. */
  lemma HandedRuns(a: Moment, k: nat, irq: seq<bv32>, controllers: nat)
    requires Sound(a) && !a.locked && k < |a.counter| && |irq| == controllers && a.queues[33 + k] != []
    requires 0 <= a.queues[33 + k][0] < |a.prio|
    requires var p := a.prio[a.queues[33 + k][0]];
      && a.prio[a.current] < p && (forall h: nat :: p <= h < 16 ==> Ready(a, h, a.which) == [])
      && forall s :: Hears(a, irq, s) && s < |a.prio| ==> a.prio[s] < p
    ensures After(a, Up(k, false, irq), controllers).current == a.queues[33 + k][0]
  {
    var t := a.queues[33 + k][0];
    var m, r := UpLaw(a, k, false, irq, controllers);
    hide After, Passes, Wakes, Alone, Hears;
    HandedAlone(a, m, irq, k, t);
    AloneRuns(m, irq, r, After(a, Up(k, false, irq), controllers), t, a.prio[t]);
  }

  lemma HandedAlone(a: Moment, m: Moment, irq: seq<bv32>, k: nat, t: int)
    requires |a.queues| > 33 + k && 0 <= t < |a.prio| && a.prio[t] < 16 && a.queues[33 + k] != []
    requires m == a.(need := m.need, queues :=
      a.queues[33 + k := a.queues[33 + k][1..]][Slot(a.prio[t], a.which) := Ready(a, a.prio[t], a.which) + [t]])
    requires forall h: nat :: a.prio[t] <= h < 16 ==> Ready(a, h, a.which) == []
    requires forall s :: Hears(a, irq, s) && s < |a.prio| ==> a.prio[s] < a.prio[t]
    ensures Alone(m, irq, t, a.prio[t])
  {
    assert forall s :: Hears(m, irq, s) ==> Hears(a, irq, s);
    hide Hears;
    forall h: nat | a.prio[t] < h < 16 ensures Ready(m, h, m.which) == [] {
      assert Ready(a, h, a.which) == [];
    }
    assert Ready(a, a.prio[t], a.which) == [];
  }

  /** And so does a new thread. */
  lemma CreatedRuns(a: Moment, p: nat, irq: seq<bv32>, controllers: nat)
    requires Sound(a) && !a.locked && p < 16 && |irq| == controllers && a.prio[a.current] < p
    requires forall h: nat :: p <= h < 16 ==> Ready(a, h, a.which) == []
    requires forall s :: Hears(a, irq, s) && s < |a.prio| ==> a.prio[s] < p
    requires forall s :: s in a.queues[32] ==> 0 <= s < |a.prio|
    ensures After(a, Create(p, false, false, irq), controllers).current == |a.prio|
  {
    var m, r := CreateLaw(a, p, false, irq, controllers);
    hide After, Passes, Wakes, Alone, Hears;
    MadeAlone(a, m, irq, p);
    AloneRuns(m, irq, r, After(a, Create(p, false, false, irq), controllers), |a.prio|, p);
  }

  lemma MadeAlone(a: Moment, m: Moment, irq: seq<bv32>, p: nat)
    requires |a.queues| > 32 && p < 16 && |a.irqCtrl| == |a.irqMask| == |a.prio|
    requires m == a.(queues := a.queues[Slot(p, a.which) := Ready(a, p, a.which) + [|a.prio|]], prio := a.prio + [p],
      quantum := a.quantum + [10], irqCtrl := a.irqCtrl + [0], irqMask := a.irqMask + [0])
    requires forall h: nat :: p <= h < 16 ==> Ready(a, h, a.which) == []
    requires forall s :: Hears(a, irq, s) && s < |a.prio| ==> a.prio[s] < p
    requires forall s :: s in a.queues[32] ==> 0 <= s < |a.prio|
    ensures Alone(m, irq, |a.prio|, p)
  {
    forall h: nat | p < h < 16 ensures Ready(m, h, m.which) == [] {
      assert Ready(a, h, a.which) == [];
    }
    assert Ready(a, p, a.which) == [];
    forall s | Hears(m, irq, s) && s < |m.prio| ensures m.prio[s] < p { assert Hears(a, irq, s); }
  }

  // ----- time -----

  /** A thread that wakes has a higher priority than the current one. */
  ghost predicate Outranked(a: Moment, irq: seq<bv32>)
    requires Runs(a)
  {
    exists t :: Hears(a, irq, t) && t < |a.prio| && a.prio[t] > a.prio[a.current]
  }

  /** The timer's interrupt in user or supervisor mode, with the lock free: the interrupts are looked at.  When a woken
      thread has a higher priority, a switch is asked for.  Otherwise a thread of priority 12 or more keeps its time,
        and
      any other loses one of it, and a switch is asked for when none is left. */
  lemma TickLaw(a: Moment, irq: seq<bv32>, controllers: nat) returns (r: Moment)
    requires Sound(a) && !a.locked && |irq| == controllers
    ensures Wakes(a, irq, r)
    ensures var b, c := After(a, Timer(true, irq), controllers), a.current;
      && b == r.(ticks := (a.ticks + 1) % 0x1_0000_0000, quantum := b.quantum, need := b.need)
      && if Outranked(a, irq) then b.quantum == r.quantum && b.need
         else if a.prio[c] >= 12 then b.quantum == r.quantum && b.need == a.need
         else b.quantum == r.quantum[c := a.quantum[c] - 1] && b.need == (a.need || a.quantum[c] <= 1)
  {
    r := Rouse(a, irq);
    WakesLaw(a, irq);
    RouseTicks(a, irq);
    OutrankedIs(a, irq);
    CurrentDeaf(a, irq);
    hide Wakes, Hears, Rouse, Outranked, HighestDue;
  }

  lemma RouseTicks(a: Moment, irq: seq<bv32>)
    requires |a.queues| >= WAITING
    ensures var b := a.(ticks := (a.ticks + 1) % WORD);
      Rouse(b, irq) == Rouse(a, irq).(ticks := b.ticks) && HighestDue(b, irq) == HighestDue(a, irq)
  {
    var b := a.(ticks := (a.ticks + 1) % WORD);
    assert Due(b, irq) == Due(a, irq);
    hide Due;
  }

  lemma OutrankedIs(a: Moment, irq: seq<bv32>)
    requires Runs(a)
    ensures Outranked(a, irq) <==> HighestDue(a, irq) > a.prio[a.current]
  {
    HearsIs(a, irq);
    hide Due;
  }

  /** The current thread waits for nothing. */
  lemma CurrentDeaf(a: Moment, irq: seq<bv32>)
    requires Sound(a) && !a.locked
    ensures !Hears(a, irq, a.current) && Rouse(a, irq).quantum[a.current] == a.quantum[a.current]
  {
    HearsIs(a, irq);
  }

  /** In other modes the timer does nothing, and with the lock held nothing but count. */
  lemma NoTickLaw(a: Moment, mode: bool, irq: seq<bv32>, controllers: nat)
    requires Sound(a) && (a.locked || !mode)
    ensures After(a, Timer(mode, irq), controllers) ==
      if mode && |irq| == controllers then a.(ticks := (a.ticks + 1) % 0x1_0000_0000) else a
  {
  }

  predicate Tick(e: Event, controllers: nat) {
    e.Timer? && e.mode && |e.irq| == controllers
  }

  function Ticks(events: seq<Event>, controllers: nat): nat {
    if events == [] then 0
    else Ticks(events[..|events| - 1], controllers) + if Tick(events[|events| - 1], controllers) then 1 else 0
  }

  /** Who is ready after the interrupts have been looked at was so before or has woken. */
  lemma ReadyFrom(m: Moment, irq: seq<bv32>, r: Moment, p: nat, w: bool, x: int)
    requires |m.queues| > 32 && Wakes(m, irq, r) && p < 16 && x in Ready(r, p, w)
    ensures x in Ready(m, p, w) || Hears(m, irq, x)
  {
    var q, s := Ready(m, p, w), Ready(r, p, w);
    if w == m.which {
      assert Joined(m, irq, p, s);
      if x !in q { InTail(q, s, x); }
    } else {
      assert SameArray(m, r, !m.which);
    }
  }

  lemma NotFirst(m: Moment, irq: seq<bv32>, r: Moment, p: nat, w: bool)
    requires |m.queues| > 32 && Wakes(m, irq, r) && p < 16 && OnNone(m.queues, m.current)
    ensures m.current !in Ready(r, p, w) && (Ready(r, p, w) != [] ==> Ready(r, p, w)[0] != m.current)
  {
    if m.current in Ready(r, p, w) {
      ReadyFrom(m, irq, r, p, w, m.current);
    } else if Ready(r, p, w) != [] {
      assert Ready(r, p, w)[0] in Ready(r, p, w);
    }
  }

  /** A thread on no queue is not picked, and what the processor does not leave keeps its time. */
  lemma PassedBy(m: Moment, irq: seq<bv32>, r: Moment, b: Moment)
    requires Runs(m) && OnNone(m.queues, m.current) && Wakes(m, irq, r) && Runs(r) && Passes(r, b)
      && b.current == m.current
    ensures b.quantum == r.quantum && b.prio == m.prio && !Hears(m, irq, m.current)
  {
    if !(NoneReady(r, false) && NoneReady(r, true)) {
      var p: nat :| Foremost(r, Side(r), p) && b == Passed(r, p);
      NotFirst(m, irq, r, p, Side(r));
    }
  }

  lemma InTail(q: seq<int>, s: seq<int>, c: int)
    requires q <= s && c in s && c !in q
    ensures c in s[|q|..]
  {
    assert s == q + s[|q|..];
  }

  ghost predicate SameTime(a: Moment, b: Moment) {
    var c := a.current;
    b.current == c && !b.locked && 0 <= c < |a.quantum| && c < |a.prio| ==>
      c < |b.prio| && c < |b.quantum| && b.quantum[c] == a.quantum[c] && b.prio[c] == a.prio[c]
  }

  /** A thread that stays current keeps its time but for ticks. */
  lemma KeepsTime(a: Moment, e: Event, controllers: nat)
    requires Sound(a) && !a.locked && !Tick(e, controllers)
    ensures SameTime(a, After(a, e, controllers))
  {
    var b, c := After(a, e, controllers), a.current;
    if b.current == c && !b.locked {
      match e
      case Yielding(inIrq, irq) =>
        if !inIrq && |irq| == controllers {
          var r := YieldLaw(a, irq, controllers);
          PassedBy(a, irq, r, b);
        }
      case LeaveIrq => LeftBy(a, controllers);
      case Up(k, inIrq, irq) => RaisedBy(a, k, inIrq, irq, controllers);
      case Create(p, outOfMemory, inIrq, irq) => MadeBy(a, p, outOfMemory, inIrq, irq, controllers);
      case _ =>
    }
  }

  lemma FirstElse(a: Moment, p: nat)
    requires |a.queues| > 32 && Foremost(a, Side(a), p) && OnNone(a.queues, a.current)
    ensures Ready(a, p, Side(a))[0] != a.current
  {
    assert Ready(a, p, Side(a))[0] in Ready(a, p, Side(a));
  }

  lemma LeftBy(a: Moment, controllers: nat)
    requires Sound(a) && !a.locked
    ensures SameTime(a, After(a, LeaveIrq, controllers))
  {
    var b := After(a, LeaveIrq, controllers);
    LeaveLaw(a, controllers);
    if a.need && b.current == a.current && !(NoneReady(a, false) && NoneReady(a, true)) {
      var p: nat :| Foremost(a, Side(a), p) && b == Passed(a, p);
      FirstElse(a, p);
    }
  }

  lemma RaisedBy(a: Moment, k: nat, inIrq: bool, irq: seq<bv32>, controllers: nat)
    requires Sound(a) && !a.locked
    ensures SameTime(a, After(a, Up(k, inIrq, irq), controllers))
  {
    var b := After(a, Up(k, inIrq, irq), controllers);
    if k < |a.counter| && |irq| == controllers {
      var m, r := UpLaw(a, k, inIrq, irq, controllers);
      hide After, Ready, Wakes, Passes, Foremost;
      if a.queues[33 + k] != [] && !(inIrq || a.prio[a.queues[33 + k][0]] <= a.prio[a.current])
        && b.current == a.current {
        StillOnNone(a, m, k);
        PassedBy(m, irq, r, b);
        WakesTime(m, irq, r);
      }
    }
  }

  lemma StillOnNone(a: Moment, m: Moment, k: nat)
    requires Sound(a) && !a.locked && k < |a.counter| && a.queues[33 + k] != [] && 0 <= a.queues[33 + k][0] < |a.prio|
    requires var t := a.queues[33 + k][0];
      && a.prio[t] < 16
      && m.queues ==
        a.queues[33 + k := a.queues[33 + k][1..]][Slot(a.prio[t], a.which) := Ready(a, a.prio[t], a.which) + [t]]
    ensures OnNone(m.queues, a.current)
  {
    assert a.queues[33 + k][0] in a.queues[33 + k];
  }

  lemma WakesTime(m: Moment, irq: seq<bv32>, r: Moment)
    requires |m.queues| > 32 && Wakes(m, irq, r) && 0 <= m.current < |m.quantum| && !Hears(m, irq, m.current)
    ensures |r.quantum| == |m.quantum| && r.quantum[m.current] == m.quantum[m.current]
  {
  }

  lemma MadeBy(a: Moment, p: nat, outOfMemory: bool, inIrq: bool, irq: seq<bv32>, controllers: nat)
    requires Sound(a) && !a.locked
    ensures SameTime(a, After(a, Create(p, outOfMemory, inIrq, irq), controllers))
  {
    var b := After(a, Create(p, outOfMemory, inIrq, irq), controllers);
    if p < PRIORITIES && |irq| == controllers && !outOfMemory {
      var m, r := CreateLaw(a, p, inIrq, irq, controllers);
      assert OnNone(m.queues, a.current);
      hide After, Ready, Wakes, Passes, Foremost;
      if !(inIrq || p <= a.prio[a.current]) && b.current == a.current {
        PassedBy(m, irq, r, b);
        WakesTime(m, irq, r);
      }
    }
  }

  /** Thread c runs all the time, and nobody that wakes at a tick outranks it. */
  ghost predicate Undisturbed(trace: seq<Moment>, events: seq<Event>, controllers: nat, c: int)
    requires Trace(trace, events, controllers)
  {
    && (forall i :: 0 <= i <= |events| ==> RunsNow(trace[i], c))
    && forall i {:trigger events[i]} :: 0 <= i < |events| && Tick(events[i], controllers) ==>
      !Outranked(trace[i], events[i].irq)
  }

  /** Round robin: a thread of a priority below 12 that runs on loses one of its time with every tick, and at the
      tick that takes the last of it, and at every one from then on, a switch is asked for; one of priority 12 or
      more keeps its time. */
  lemma {:induction false} TimeLaw(trace: seq<Moment>, events: seq<Event>, controllers: nat, c: int)
    requires Trace(trace, events, controllers) && Undisturbed(trace, events, controllers, c) && events != []
    ensures var a, b, n := trace[0], trace[|events|], Ticks(events, controllers);
      && 0 <= c < |a.quantum| == |a.prio| && c < |b.quantum| && c < |b.prio| && b.prio[c] == a.prio[c]
      && b.quantum[c] == a.quantum[c] - (if a.prio[c] < 12 then n else 0)
      && (a.prio[c] < 12 && n >= a.quantum[c] && Tick(events[|events| - 1], controllers) ==> b.need)
  {
    hide After, Sound, Outranked;
    var n := |events|;
    var before := events[..n - 1];
    forall j | 0 <= j < n - 1
      ensures Sound(trace[j]) && trace[j + 1] == After(trace[j], before[j], controllers) && before[j] == events[j]
    {
      assert before[j] == events[j];
    }
    assert Trace(trace[..n], before, controllers);
    if n > 1 { TimeLaw(trace[..n], before, controllers, c); }
    OneEvent(trace[n - 1], events[n - 1], controllers);
  }

  /** A tick, or no tick, has been taken off the time of the thread that runs on. */
  ghost predicate TickTaken(a: Moment, b: Moment, tick: bool) {
    var c := a.current;
    b.current == c && !b.locked && 0 <= c < |a.quantum| && c < |a.prio| ==>
      && c < |b.quantum| && c < |b.prio| && b.prio[c] == a.prio[c]
      && b.quantum[c] == a.quantum[c] - (if a.prio[c] < 12 && tick then 1 else 0)
      && (tick && a.prio[c] < 12 && a.quantum[c] <= 1 ==> b.need)
  }

  lemma OneEvent(a: Moment, e: Event, controllers: nat)
    requires Sound(a) && !a.locked && (Tick(e, controllers) ==> !Outranked(a, e.irq))
    ensures |a.quantum| == |a.prio| && 0 <= a.current < |a.prio|
    ensures TickTaken(a, After(a, e, controllers), Tick(e, controllers))
  {
    if Tick(e, controllers) {
      var r := TickLaw(a, e.irq, controllers);
      CurrentDeaf(a, e.irq);
      WakesTime(a, e.irq, r);
    } else {
      KeepsTime(a, e, controllers);
    }
  }

  /** And then, on the way out of the interrupt, the processor is given away when another thread is ready. */
  lemma TimeUp(trace: seq<Moment>, events: seq<Event>, controllers: nat, c: int, x: int)
    requires Trace(trace, events, controllers) && Undisturbed(trace, events, controllers, c) && events != []
    requires 0 <= c < |trace[0].quantum| && c < |trace[0].prio| && trace[0].prio[c] < 12
    requires Ticks(events, controllers) >= trace[0].quantum[c] && Tick(events[|events| - 1], controllers)
    requires Sound(trace[|events|]) && IsReady(trace[|events|].queues, x)
    ensures After(trace[|events|], LeaveIrq, controllers).current != c
  {
    hide After, Sound, IsReady;
    TimeLaw(trace, events, controllers, c);
    GivenAway(trace[|events|], LeaveIrq, controllers, x);
    LeaveUnlocked(trace[|events|], controllers);
  }

  lemma LeaveUnlocked(a: Moment, controllers: nat)
    requires Sound(a) && !a.locked
    ensures !After(a, LeaveIrq, controllers).locked && |a.queues| >= WAITING
  {
  }

  // ----- semaphores -----

  /** The event raises semaphore k, or lowers it. */
  predicate Raises(a: Moment, e: Event, controllers: nat, k: nat)
    requires 33 + k < |a.queues|
  {
    e.Up? && e.k == k && |e.irq| == controllers && (a.locked ==> a.queues[33 + k] == [])
  }

  predicate Lowers(a: Moment, e: Event, k: nat) {
    e.Down? && e.k == k && !a.locked
  }

  /** Permits less the threads that wait for one: negative when there are any. */
  function Level(a: Moment, k: nat): int
    requires k < |a.counter| && 33 + k < |a.queues|
  {
    a.counter[k] - |a.queues[33 + k]|
  }

  /** The waiting queues and the permits of an event that is not about semaphore k. */
  ghost predicate SameLevel(a: Moment, b: Moment) {
    && |b.queues| == |a.queues| && b.counter == a.counter
      && forall h :: 33 <= h < |a.queues| ==> b.queues[h] == a.queues[h]
  }

  lemma PassesLevel(m: Moment, irq: seq<bv32>, r: Moment, b: Moment)
    requires |m.queues| > 32 && Wakes(m, irq, r) && Runs(r) && Passes(r, b)
    ensures SameLevel(m, b)
  {
    if !(NoneReady(r, false) && NoneReady(r, true)) {
      var p: nat :| Foremost(r, Side(r), p) && b == Passed(r, p);
    }
  }

  /** From a to b semaphore k has d more permits, or fewer threads that wait for one. */
  ghost predicate Levels(a: Moment, b: Moment, k: nat, d: int)
    requires k < |a.counter| && 33 + k < |a.queues|
  {
    && |b.counter| == |a.counter| && |b.queues| == |a.queues| && (b.counter[k] > 0 ==> b.queues[33 + k] == [])
    && Level(b, k) % 0x1_0000_0000 == (Level(a, k) + d) % 0x1_0000_0000
  }

  lemma SameLevels(a: Moment, b: Moment, c: Moment, k: nat, d: int)
    requires k < |a.counter| && 33 + k < |a.queues| && Levels(a, b, k, d) && SameLevel(b, c)
    ensures Levels(a, c, k, d)
  {
  }

  /** Every raise puts one in and every lowering takes one out, whether a thread waits for it or not. */
  lemma LevelLaw(a: Moment, e: Event, controllers: nat, k: nat)
    requires Sound(a) && k < |a.counter| && (a.counter[k] > 0 ==> a.queues[33 + k] == [])
    ensures Levels(a, After(a, e, controllers), k,
      (if Raises(a, e, controllers, k) then 1 else 0) - (if Lowers(a, e, k) then 1 else 0))
  {
    if e.Up? {
      UpLevel(a, e.k, e.inIrq, e.irq, controllers, k);
    } else if e.Down? {
      DownLevel(a, e.k, controllers, k);
    } else {
      OtherLevel(a, e, controllers);
      hide After, Sound, SameLevel;
      NoLevel(a, After(a, e, controllers), k);
    }
  }

  lemma NoLevel(a: Moment, b: Moment, k: nat)
    requires k < |a.counter| && 33 + k < |a.queues| && SameLevel(a, b) && (a.counter[k] > 0 ==> a.queues[33 + k] == [])
    ensures Levels(a, b, k, 0)
  {
  }

  lemma OtherLevel(a: Moment, e: Event, controllers: nat)
    requires Sound(a) && !e.Up? && !e.Down?
    ensures SameLevel(a, After(a, e, controllers))
  {
    hide SameLevel, GiveWay, Made, OnNone, Raised, Resume, Rouse, Handable, Ticked;
    match e
    case Yielding(inIrq, irq) => YieldLevel(a, inIrq, irq, controllers);
    case Timer(_, irq) => TickLevel(a, e, controllers);
    case LeaveIrq => LeaveLevel(a, controllers);
    case WaitIrq(ctrl, mask) => WaitLevel(a, ctrl, mask, controllers);
    case Create(p, outOfMemory, inIrq, irq) => MadeLevel(a, p, outOfMemory, inIrq, irq, controllers);
    case Round(irq) => RoundLevel(a, irq, controllers);
  }

  lemma WaitLevel(a: Moment, ctrl: nat, mask: bv32, controllers: nat)
    requires Sound(a)
    ensures SameLevel(a, After(a, WaitIrq(ctrl, mask), controllers))
  {
  }

  lemma DownLevel(a: Moment, j: nat, controllers: nat, k: nat)
    requires Sound(a) && k < |a.counter| && (a.counter[k] > 0 ==> a.queues[33 + k] == [])
    ensures Levels(a, After(a, Down(j), controllers), k, if Lowers(a, Down(j), k) then -1 else 0)
  {
    if !a.locked && j < |a.counter| { DownLaw(a, j, controllers); }
    hide OnNone, Handable, Runs;
  }

  lemma YieldLevel(a: Moment, inIrq: bool, irq: seq<bv32>, controllers: nat)
    requires Sound(a)
    ensures SameLevel(a, After(a, Yielding(inIrq, irq), controllers))
  {
    if !a.locked && !inIrq && |irq| == controllers {
      var r := YieldLaw(a, irq, controllers);
      PassesLevel(a, irq, r, After(a, Yielding(inIrq, irq), controllers));
    }
  }

  lemma TickLevel(a: Moment, e: Event, controllers: nat)
    requires Sound(a) && e.Timer?
    ensures SameLevel(a, After(a, e, controllers))
  {
    if a.locked || !e.mode {
      NoTickLaw(a, e.mode, e.irq, controllers);
    } else if |e.irq| == controllers {
      var _ := TickLaw(a, e.irq, controllers);
    }
  }

  lemma LeaveLevel(a: Moment, controllers: nat)
    requires Sound(a)
    ensures SameLevel(a, After(a, LeaveIrq, controllers))
  {
    var b := After(a, LeaveIrq, controllers);
    if !a.locked {
      LeaveLaw(a, controllers);
      if a.need && !(NoneReady(a, false) && NoneReady(a, true)) {
        var p: nat :| Foremost(a, Side(a), p) && b == Passed(a, p);
      }
    }
  }

  lemma RoundLevel(a: Moment, irq: seq<bv32>, controllers: nat)
    requires Sound(a)
    ensures SameLevel(a, After(a, Round(irq), controllers))
  {
    var b := After(a, Round(irq), controllers);
    if a.locked && |irq| == controllers {
      var r := RoundLaw(a, irq, controllers);
      if !(NoneReady(r, false) && NoneReady(r, true)) {
        var p: nat :| Foremost(r, Side(r), p) && b == Resumed(r, p);
      }
    }
  }

  lemma MadeLevel(a: Moment, p: nat, outOfMemory: bool, inIrq: bool, irq: seq<bv32>, controllers: nat)
    requires Sound(a)
    ensures SameLevel(a, After(a, Create(p, outOfMemory, inIrq, irq), controllers))
  {
    var b := After(a, Create(p, outOfMemory, inIrq, irq), controllers);
    if !a.locked && p < PRIORITIES && |irq| == controllers && !outOfMemory {
      var m, r := CreateLaw(a, p, inIrq, irq, controllers);
      hide After, Wakes, Passes;
      if !(inIrq || p <= a.prio[a.current]) { PassesLevel(m, irq, r, b); }
    }
  }

  lemma UpLevel(a: Moment, j: nat, inIrq: bool, irq: seq<bv32>, controllers: nat, k: nat)
    requires Sound(a) && k < |a.counter| && (a.counter[k] > 0 ==> a.queues[33 + k] == [])
    ensures Levels(a, After(a, Up(j, inIrq, irq), controllers), k,
      if Raises(a, Up(j, inIrq, irq), controllers, k) then 1 else 0)
  {
    var b := After(a, Up(j, inIrq, irq), controllers);
    if j < |a.counter| && |irq| == controllers && (a.locked ==> a.queues[33 + j] == []) {
      var m, r := UpLaw(a, j, inIrq, irq, controllers);
      hide After, Wakes, Passes, Levels, SameLevel;
      if a.queues[33 + j] == [] {
        PermitLevel(a, b, j, k);
      } else {
        HandedLevel(a, m, j, k);
        if !(inIrq || a.prio[a.queues[33 + j][0]] <= a.prio[a.current]) {
          PassesLevel(m, irq, r, b);
          SameLevels(a, m, b, k, if j == k then 1 else 0);
        }
      }
    } else {
      hide Levels;
      NoLevel(a, b, k);
    }
  }

  lemma PermitLevel(a: Moment, b: Moment, j: nat, k: nat)
    requires j < |a.counter| && k < |a.counter| && |a.queues| == 33 + |a.counter| && a.queues[33 + j] == []
    requires (a.counter[k] > 0 ==> a.queues[33 + k] == [])
      && b == a.(counter := a.counter[j := (a.counter[j] + 1) % 0x1_0000_0000])
    ensures Levels(a, b, k, if j == k then 1 else 0)
  {
  }

  lemma HandedLevel(a: Moment, m: Moment, j: nat, k: nat)
    requires j < |a.counter| && k < |a.counter| && |a.queues| == 33 + |a.counter| && a.queues[33 + j] != []
    requires 0 <= a.queues[33 + j][0] < |a.prio| && a.prio[a.queues[33 + j][0]] < 16
    requires (a.counter[k] > 0 ==> a.queues[33 + k] == []) && m.counter == a.counter
    requires var t := a.queues[33 + j][0];
      m.queues == a.queues[33 + j := a.queues[33 + j][1..]][Slot(a.prio[t], a.which) := Ready(a, a.prio[t],
        a.which) + [t]]
    ensures Levels(a, m, k, if j == k then 1 else 0)
  {
  }

  /** How often semaphore k has been raised along a run, less how often it has been lowered. */
  function Balance(trace: seq<Moment>, events: seq<Event>, controllers: nat, k: nat): int {
    if events == [] || |trace| < |events| then 0
    else
      var n := |events| - 1;
      Balance(trace, events[..n], controllers, k)
      + (if 33 + k < |trace[n].queues| && Raises(trace[n], events[n], controllers, k) then 1 else 0)
      - (if Lowers(trace[n], events[n], k) then 1 else 0)
  }

  /** Over any run: the permits less the waiting threads are what they were, and one for every raise, less one for every
      lowering; and no thread waits while there are permits. */
  lemma {:induction false} SemaphoreLaw(trace: seq<Moment>, events: seq<Event>, controllers: nat, k: nat)
    requires Trace(trace, events, controllers) && k < |trace[0].counter| && |trace[0].queues| == 33 + |trace[0].counter|
    requires trace[0].counter[k] > 0 ==> trace[0].queues[33 + k] == []
    ensures Levels(trace[0], trace[|events|], k, Balance(trace, events, controllers, k))
  {
    hide After, Level;
    var n := |events|;
    if n > 0 {
      var before := events[..n - 1];
      forall j | 0 <= j < n - 1
        ensures Sound(trace[j]) && trace[j + 1] == After(trace[j], before[j], controllers)
      {
        assert before[j] == events[j];
      }
      SemaphoreLaw(trace[..n], before, controllers, k);
      BalancePrefix(trace, n, before, controllers, k);
      LevelLaw(trace[n - 1], events[n - 1], controllers, k);
    }
  }

  lemma {:induction false} BalancePrefix(trace: seq<Moment>, n: nat, events: seq<Event>, controllers: nat, k: nat)
    requires |events| <= n <= |trace|
    ensures Balance(trace[..n], events, controllers, k) == Balance(trace, events, controllers, k)
  {
    if events != [] { BalancePrefix(trace, n, events[..|events| - 1], controllers, k); }
  }

  // ----- in the order of coming -----

  /** x is before y on ready queue h, and y is on no other queue, once, and not running. */
  ghost predicate Ahead(a: Moment, h: nat, x: int, y: int) {
    && h < 32 < |a.queues| && Before(a.queues[h], x, y) && NoDup(a.queues[h]) && !RunsNow(a, y)
    && forall k :: 0 <= k < |a.queues| && k != h ==> y !in a.queues[k]
  }

  lemma RestBefore(s: seq<int>, x: int, y: int)
    requires s != [] && NoDup(s) && Before(s, x, y) && s[0] != x
    ensures s[0] != y && Before(s[1..], x, y) && NoDup(s[1..])
  {
    var i, j :| 0 <= i < j < |s| && s[i] == x && s[j] == y;
    assert s[1..][i - 1] == x && s[1..][j - 1] == y;
  }

  lemma PassedAhead(a: Moment, p: nat, h: nat, x: int, y: int)
    requires Runs(a) && !a.locked && OnNone(a.queues, a.current) && Foremost(a, Side(a), p) && Ahead(a, h, x, y)
    ensures RunsNow(Passed(a, p), x) || Ahead(Passed(a, p), h, x, y)
  {
    var b, w, c := Passed(a, p), Side(a), a.current;
    var i, j :| 0 <= i < j < |a.queues[h]| && a.queues[h][i] == x && a.queues[h][j] == y;
    assert y in a.queues[h] && y != c;
    var f := Ready(a, p, w)[0];
    assert f in Ready(a, p, w);
    if f != x {
      if Slot(p, w) == h {
        RestBefore(a.queues[h], x, y);
      } else if Slot(a.prio[c], !w) == h {
        BeforeMore(a.queues[h], c, x, y);
      }
      hide Before;
      assert b.queues[h] == (if Slot(p, w) == h then a.queues[h][1..]
        else if Slot(a.prio[c], !w) == h then a.queues[h] + [c] else a.queues[h]);
    }
  }

  lemma ResumedAhead(a: Moment, p: nat, h: nat, x: int, y: int)
    requires |a.queues| > 32 && Foremost(a, Side(a), p) && Ahead(a, h, x, y)
    ensures RunsNow(Resumed(a, p), x) || Ahead(Resumed(a, p), h, x, y)
  {
    var f, w := Ready(a, p, Side(a))[0], Side(a);
    assert f in Ready(a, p, w);
    if f != x && Slot(p, w) == h { RestBefore(a.queues[h], x, y); }
  }

  lemma GoneAhead(a: Moment, b: Moment, h: nat, x: int, y: int)
    requires Sound(a) && !a.locked && Passes(a, b) && Ahead(a, h, x, y)
    ensures (RunsNow(b, x) || Ahead(b, h, x, y)) && !b.locked
  {
    hide Ahead;
    if NoneReady(a, false) && NoneReady(a, true) {
      SameAhead(a, b, h, x, y);
    } else {
      var p: nat :| Foremost(a, Side(a), p) && b == Passed(a, p);
      PassedAhead(a, p, h, x, y);
    }
  }

  lemma BackAhead(a: Moment, b: Moment, h: nat, x: int, y: int)
    requires |a.queues| > 32 && a.locked && a.current != y && Resumes(a, b) && Ahead(a, h, x, y)
    ensures RunsNow(b, x) || (Ahead(b, h, x, y) && (b.locked ==> b.current != y))
  {
    hide Ahead;
    if NoneReady(a, false) && NoneReady(a, true) {
      SameAhead(a, b, h, x, y);
    } else {
      var p: nat :| Foremost(a, Side(a), p) && b == Resumed(a, p);
      ResumedAhead(a, p, h, x, y);
    }
  }

  lemma SameAhead(a: Moment, b: Moment, h: nat, x: int, y: int)
    requires Ahead(a, h, x, y) && b.queues == a.queues && b.current == a.current && b.locked == a.locked
    ensures Ahead(b, h, x, y)
  {
  }

  lemma TickAhead(a: Moment, e: Event, controllers: nat, h: nat, x: int, y: int)
    requires Sound(a) && e.Timer? && Calm(a, e) && Ahead(a, h, x, y)
    ensures var b := After(a, e, controllers); Ahead(b, h, x, y) && b.locked == a.locked && b.current == a.current
  {
    var b := After(a, e, controllers);
    if a.locked || !e.mode {
      NoTickLaw(a, e.mode, e.irq, controllers);
    } else {
      RouseNone(a, e.irq);
      RouseTicks(a, e.irq);
    }
    hide Ahead;
    SameAhead(a, b, h, x, y);
  }

  lemma ParkedAhead(a: Moment, b: Moment, k: nat, h: nat, x: int, y: int)
    requires Ahead(a, h, x, y) && OnNone(a.queues, a.current) && 32 <= k < |a.queues|
    requires b.queues == a.queues[k := a.queues[k] + [a.current]] && b.current == a.current
    ensures Ahead(b, h, x, y) && b.current != y
  {
    var i, j :| 0 <= i < j < |a.queues[h]| && a.queues[h][i] == x && a.queues[h][j] == y;
    assert y in a.queues[h];
  }

  /** An event that makes no thread ready leaves x before y, or x runs. */
  lemma AheadLaw(a: Moment, e: Event, controllers: nat, h: nat, x: int, y: int)
    requires Sound(a) && Calm(a, e) && Ahead(a, h, x, y) && (a.locked ==> a.current != y)
    ensures var b := After(a, e, controllers); RunsNow(b, x) || (Ahead(b, h, x, y) && (b.locked ==> b.current != y))
  {
    var b := After(a, e, controllers);
    hide Ahead, GiveWay, Made, Resume, Rouse, Handable, Ticked, Due, Passes, Resumes;
    match e
    case Yielding(inIrq, irq) =>
      RouseNone(a, irq);
      PassesLaw(a);
      if !a.locked && !inIrq && |irq| == controllers { GoneAhead(a, b, h, x, y); }
    case LeaveIrq =>
      PassesLaw(a);
      if !a.locked && a.need { GoneAhead(a, b, h, x, y); }
    case Round(irq) =>
      RouseNone(a, irq);
      ResumesLaw(a);
      if a.locked && |irq| == controllers { BackAhead(a, b, h, x, y); }
    case Timer(mode, irq) => TickAhead(a, e, controllers, h, x, y);
    case WaitIrq(ctrl, _) => if !a.locked && ctrl < controllers { ParkedAhead(a, b, 32, h, x, y); }
    case Down(k) => if !a.locked && k < |a.counter| && a.counter[k] == 0 { ParkedAhead(a, b, 33 + k, h, x, y); }
    case _ => SameOrRaised(a, e, controllers, h, x, y);
  }

  lemma SameOrRaised(a: Moment, e: Event, controllers: nat, h: nat, x: int, y: int)
    requires Sound(a) && (e.Up? || e.Create?) && Calm(a, e) && Ahead(a, h, x, y)
    ensures var b := After(a, e, controllers); Ahead(b, h, x, y) && b.locked == a.locked && b.current == a.current
  {
    hide Ahead;
    SameAhead(a, After(a, e, controllers), h, x, y);
  }

  /** As long as no thread becomes ready, of two threads on one ready queue the one that came first runs first. */
  lemma {:induction false} FirstComeFirst(trace: seq<Moment>, events: seq<Event>, controllers: nat, h: nat, x: int,
      y: int)
    requires Trace(trace, events, controllers) && Ahead(trace[0], h, x, y)
      && (trace[0].locked ==> trace[0].current != y)
    requires forall i {:trigger events[i]} :: 0 <= i < |events| ==> Calm(trace[i], events[i])
    ensures (exists i :: 0 < i <= |events| && RunsNow(trace[i], x))
      || (Ahead(trace[|events|], h, x, y) && (trace[|events|].locked ==> trace[|events|].current != y))
  {
    hide After, Ahead, Calm;
    var n := |events|;
    if n > 0 {
      var before := events[..n - 1];
      forall j | 0 <= j < n - 1
        ensures Sound(trace[j]) && trace[j + 1] == After(trace[j], before[j], controllers) && Calm(trace[j], before[j])
      {
        assert before[j] == events[j];
      }
      FirstComeFirst(trace[..n], before, controllers, h, x, y);
      if Ahead(trace[n - 1], h, x, y) && (trace[n - 1].locked ==> trace[n - 1].current != y) {
        AheadLaw(trace[n - 1], events[n - 1], controllers, h, x, y);
      } else {
        var i :| 0 < i <= n - 1 && RunsNow(trace[..n][i], x);
        assert RunsNow(trace[i], x);
      }
    }
  }
}
