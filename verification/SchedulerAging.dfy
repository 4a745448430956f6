/** Aging: what N passes do to a thread that stays in the active table, and when the priority of a
    node is that of its thread. */
module SchedulerAging {
  import opened Basics
  import opened PriorityList
  import opened Waiters
  import opened SchedulerModel
  import opened SchedulerInvariant
  import opened SchedulerTiming
  import opened SchedulerPace

  // ----- one pass ----------------------------------------------------------------------------------

  lemma {:induction false} AgeFromElse(k: Kernel, i: nat, t: Tid)
    requires i <= |k.ready| && forall j :: i <= j < |k.ready| ==> k.ready[j].item != t
    ensures Get(AgeFrom(k, i), t) == Get(k, t)
    decreases |k.ready| - i
  {
    if i < |k.ready| {
      var e := k.ready[i];
      if Exempt(k, e.item) {
        AgeFromElse(k, i + 1, t);
      } else {
        AgeFromElse(Put(k.(ready := k.ready[i := e.(prio := AgePrio(e.prio, Get(k, e.item)))]),
                        e.item, AgeThread(Get(k, e.item))), i + 1, t);
      }
    }
  }

  /** The loop treats every thread of the table once, and its node with it. */
  lemma {:induction false} AgeFromAt(k: Kernel, i: nat, j: nat)
    requires NoDup(k.ready) && i <= |k.ready| && j < |k.ready|
    ensures var r, e := AgeFrom(k, i), k.ready[j];
      && |r.ready| == |k.ready|
      && (j < i || Exempt(k, e.item) ==> r.ready[j] == e && Get(r, e.item) == Get(k, e.item))
      && (i <= j && !Exempt(k, e.item) ==>
            r.ready[j] == e.(prio := AgePrio(e.prio, Get(k, e.item))) && Get(r, e.item) == AgeThread(Get(k, e.item)))
    decreases |k.ready| - i
  {
    hide AgePrio, AgeThread;
    if i < |k.ready| {
      var e := k.ready[i];
      if Exempt(k, e.item) {
        AgeFromAt(k, i + 1, j);
      } else {
        var m := Put(k.(ready := k.ready[i := e.(prio := AgePrio(e.prio, Get(k, e.item)))]),
                     e.item, AgeThread(Get(k, e.item)));
        AgeFromAt(m, i + 1, j);
      }
    }
  }

  /** The active thread at the time of a pass: it has its initial priority back at the end of its slice. */
  function Sliced(th: Thread, quantum: bool): Thread {
    if quantum then th.(priority := th.initPrio) else th
  }

  lemma AgeAt(k: Kernel, quantum: bool, j: nat)
    requires NoDup(k.ready) && j < |k.ready| && !Exempt(k, k.active)
    ensures var r, e := Age(k, quantum), k.ready[j];
      && |r.ready| == |k.ready|
      && (Exempt(k, e.item) ==> r.ready[j] == e && Get(r, e.item) == Get(k, e.item))
      && (!Exempt(k, e.item) && e.item != k.active ==>
            r.ready[j] == e.(prio := AgePrio(e.prio, Get(k, e.item))) && Get(r, e.item) == AgeThread(Get(k, e.item)))
      && (e.item == k.active ==>
            var th := Sliced(Get(k, k.active), quantum);
            r.ready[j] == e.(prio := AgePrio(e.prio, th)) && Get(r, e.item) == AgeThread(th).(lastSched := 0))
  {
    hide AgePrio, AgeThread;
    var th := Get(k, k.active);
    var k1 := if quantum then Put(k, k.active, th.(priority := th.initPrio)) else k;
    AgeFromAt(k1, 0, j);
    hide AgeFrom;
  }

  // ----- nodes and threads -------------------------------------------------------------------------

  /** The node of t in the active table, if there is one, has the priority of t. */
  ghost predicate NodeAgrees(k: Kernel, t: Tid) {
    forall e :: e in k.ready && e.item == t ==> e.prio == Get(k, t).priority
  }

  /** A time slice ends while the active thread stands in the active table: a poster in an interrupt
      handler unlocked it between its lock_thread and its own call of schedule. */
  predicate Stray(k: Kernel, quantum: bool) {
    && quantum && !Exempt(k, k.active) && Get(k, k.active).state == Ready
    && Get(k, k.active).priority != Get(k, k.active).initPrio
  }

  lemma AgedPrio(th: Thread)
    requires th.priority <= LOWEST_PRIORITY
    ensures AgePrio(th.priority, th) == AgeThread(th).priority
  {
  }

  lemma AgeAgrees(k: Kernel, quantum: bool, t: Tid)
    requires Inv(k) && Bounded(k) && NodeAgrees(k, t) && (t == k.active ==> !Stray(k, quantum))
    ensures NodeAgrees(Age(k, quantum), t)
  {
    if !Exempt(k, k.active) {
      var r := Age(k, quantum);
      ReadyExist(k);
      SameLength(k, quantum);
      forall e | e in r.ready && e.item == t ensures e.prio == Get(r, t).priority {
        var j :| 0 <= j < |r.ready| && r.ready[j] == e;
        AgeAt(k, quantum, j);
        AgreesAt(k, quantum, j);
      }
    }
  }

  lemma SameLength(k: Kernel, quantum: bool)
    requires Inv(k)
    ensures |Age(k, quantum).ready| == |k.ready|
  {
    AgeOnly(k, quantum);
    assert |Items(Age(k, quantum).ready)| == |Items(k.ready)|;
  }

  lemma AgreesAt(k: Kernel, quantum: bool, j: nat)
    requires Inv(k) && Bounded(k) && j < |k.ready| && !Exempt(k, k.active) && |Age(k, quantum).ready| == |k.ready|
    requires NodeAgrees(k, Age(k, quantum).ready[j].item)
    requires Age(k, quantum).ready[j].item == k.active ==> !Stray(k, quantum)
    ensures var e := Age(k, quantum).ready[j]; e.prio == Get(Age(k, quantum), e.item).priority
  {
    hide Age;
    AgeAt(k, quantum, j);
    var o := k.ready[j];
    assert o in k.ready && o.item in Members(k.ready) && o.item in InState(k, Ready);
    hide Inv, AgePrio, AgeThread, NoDup, Members;
    AgedPrio(Get(k, o.item));
    AgedPrio(Sliced(Get(k, o.item), quantum));
  }

  /** A pass leaves nodes and threads in agreement if and only if it is not a stray one. */
  lemma AgeAgreesIff(k: Kernel, quantum: bool)
    requires Inv(k) && Bounded(k) && forall t: Tid :: NodeAgrees(k, t)
    ensures (forall t: Tid :: NodeAgrees(Age(k, quantum), t)) <==> !Stray(k, quantum)
  {
    if Stray(k, quantum) {
      StrayDiffers(k, quantum);
    } else {
      forall t: Tid ensures NodeAgrees(Age(k, quantum), t) {
        AgeAgrees(k, quantum, t);
      }
    }
  }

  lemma StrayDiffers(k: Kernel, quantum: bool)
    requires Inv(k) && Bounded(k) && NodeAgrees(k, k.active) && Stray(k, quantum)
    ensures !NodeAgrees(Age(k, quantum), k.active)
  {
    assert k.active in InState(k, Ready) && k.active in Members(k.ready);
    var j :| 0 <= j < |k.ready| && k.ready[j].item == k.active;
    assert k.ready[j] in k.ready;
    hide Age, AgeThread, AgePrio;
    AgeAt(k, quantum, j);
    SlicedDiffers(Get(k, k.active));
    assert Age(k, quantum).ready[j] in Age(k, quantum).ready;
  }

  lemma SlicedDiffers(th: Thread)
    requires BoundedThread(th) && th.priority != th.initPrio
    ensures AgePrio(th.priority, Sliced(th, true)) != AgeThread(Sliced(th, true)).priority
  {
  }

  // ----- agreement in runs -------------------------------------------------------------------------

  lemma EnlistAgrees(k: Kernel, x: Tid, t: Tid)
    requires NodeAgrees(k, t)
    ensures NodeAgrees(Enlist(k, x), t)
  {
    InsertHas(k.ready, Entry(x, Get(k, x).priority));
    hide Insert;
  }

  lemma {:induction false} WakeAgrees(k: Kernel, now: nat, t: Tid)
    requires NodeAgrees(k, t)
    ensures NodeAgrees(Wake(k, now), t)
    decreases |k.sleeping|
  {
    hide Insert;
    if k.sleeping != [] {
      var x := k.sleeping[|k.sleeping| - 1].item;
      if Get(k, x).wakeup < now {
        var rest := k.(sleeping := k.sleeping[..|k.sleeping| - 1]);
        EnlistAgrees(rest, x, t);
        EnlistSleeping(rest, x);
        hide Enlist;
        WakeAgrees(Enlist(rest, x), now, t);
      }
    }
  }

  lemma ElectAgrees(k: Kernel, t: Tid)
    requires NodeAgrees(k, t) && Elect(k).Some?
    ensures NodeAgrees(Elect(k).value, t)
  {
    assert forall e :: e in Elect(k).value.ready ==> e in k.ready;
  }

  lemma SelectAgrees(k: Kernel, now: nat, t: Tid)
    requires NodeAgrees(k, t) && Select(k, now).Some?
    ensures NodeAgrees(Select(k, now).value, t)
  {
    EnlistAgrees(k, k.active, t);
    hide Enlist, Insert, Wake, Elect;
    WakeAgrees(PutAway(k), now, t);
    ElectAgrees(Wake(PutAway(k), now), t);
  }

  lemma CalmAgrees(k: Kernel, r: Kernel, t: Tid)
    requires Inv(k) && Inv(r) && Calm(k, r) && NodeAgrees(k, t)
    ensures NodeAgrees(r, t)
  {
    forall e | e in r.ready && e.item == t ensures e.prio == Get(r, t).priority {
      assert e.item in Members(r.ready) && e.item in InState(r, Ready);
      if e in k.ready {
        assert e.item in Members(k.ready) && e.item in InState(k, Ready);
      }
    }
  }

  lemma StepAgrees(k: Kernel, step: Step, t: Tid)
    requires Inv(k) && Bounded(k) && Enabled(k, step) && Next(k, step).Some? && NodeAgrees(k, t)
    requires step.ScheduleStep? && t == k.active ==> !Stray(k, step.quantum)
    ensures NodeAgrees(Next(k, step).value, t)
  {
    hide Inv, NodeAgrees, Bounded, Calm, Age, Select, Stray;
    StepKeeps(k, step);
    if step.ScheduleStep? {
      AgeAgrees(k, step.quantum, t);
      SelectAgrees(Age(k, step.quantum), step.now, t);
    } else {
      StepCalm(k, step);
      CalmAgrees(k, Next(k, step).value, t);
    }
  }

  // ----- runs without stray time slices ------------------------------------------------------------

  /** Nobody unlocks the active thread: no handler posts to a thread between its lock_thread and its
      own call of schedule. */
  predicate UnlocksOthers(k: Kernel, steps: seq<Step>)
    decreases |steps|
  {
    steps == []
    || (&& Enabled(k, steps[0])
        && (steps[0].UnlockStep? ==> steps[0].t != k.active)
        && (Next(k, steps[0]).Some? ==> UnlocksOthers(Next(k, steps[0]).value, steps[1..])))
  }

  /** The active thread does not stand in the active table. */
  predicate Dispatched(k: Kernel) {
    Get(k, k.active).state != Ready
  }

  lemma StepDispatched(k: Kernel, step: Step)
    requires Inv(k) && Dispatched(k) && Enabled(k, step) && Next(k, step).Some?
    requires step.UnlockStep? ==> step.t != k.active
    ensures Dispatched(Next(k, step).value)
  {
    hide Inv, Schedule, Insert, Removed, Rest, Join;
    Ids(k);
    if step.ScheduleStep? {
      ScheduleKeeps(k, step.quantum, step.now);
    }
  }

  lemma NeverStray(k: Kernel, quantum: bool)
    requires Dispatched(k)
    ensures !Stray(k, quantum)
  {
  }

  lemma {:induction false} RunAgrees(k: Kernel, steps: seq<Step>, r: Outcome)
    requires Inv(k) && Bounded(k) && Dispatched(k) && SchedulerInvariant.Run(k, steps, r) && UnlocksOthers(k, steps)
    requires forall t: Tid :: NodeAgrees(k, t)
    ensures r.Reached? ==> Inv(r.k) && Bounded(r.k) && Dispatched(r.k) && forall t: Tid :: NodeAgrees(r.k, t)
    decreases |steps|
  {
    hide Inv, Bounded, NodeAgrees, Next, Enabled, Stray, Dispatched;
    if steps != [] && Next(k, steps[0]).Some? {
      StepKeeps(k, steps[0]);
      StepBounded(k, steps[0]);
      StepDispatched(k, steps[0]);
      var n := Next(k, steps[0]).value;
      forall t: Tid ensures NodeAgrees(n, t) {
        if steps[0].ScheduleStep? { NeverStray(k, steps[0].quantum); }
        StepAgrees(k, steps[0], t);
      }
      RunAgrees(n, steps[1..], r);
    }
  }

  // ----- many passes -------------------------------------------------------------------------------

  function AtLeastZero(x: int): nat {
    if x < 0 then 0 else x
  }

  /** What n passes make of a thread that stands in the active table all the time. */
  predicate AgedBy(a: Thread, b: Thread, n: nat) {
    && b.priority == AtLeastZero(a.priority - (a.lastSched + n) / AGING_TICKS)
    && b.lastSched == (a.lastSched + n) % AGING_TICKS
  }

  lemma AgedOnce(a: Thread)
    requires a.lastSched < AGING_TICKS
    ensures AgedBy(a, a, 0) && AgedBy(a, AgeThread(a), 1)
  {
  }

  lemma AgedTwice(a: Thread, b: Thread, c: Thread, n: nat, m: nat)
    requires AgedBy(a, b, n) && AgedBy(b, c, m)
    ensures AgedBy(a, c, n + m)
  {
    var x := a.lastSched + n;
    assert x == x / AGING_TICKS * AGING_TICKS + x % AGING_TICKS;
    assert (x + m) / AGING_TICKS == x / AGING_TICKS + (x % AGING_TICKS + m) / AGING_TICKS;
  }

  /** Thread t is in the active table in every state of the run. */
  predicate Queued(k: Kernel, steps: seq<Step>, t: Tid)
    decreases |steps|
  {
    && t in k.threads && k.threads[t].state == Ready && t != k.active && !Exempt(k, t)
    && (steps == []
        || (Enabled(k, steps[0])
            && (Next(k, steps[0]).Some? ==> Queued(Next(k, steps[0]).value, steps[1..], t))))
  }

  predicate IsPass(k: Kernel, step: Step) {
    step.ScheduleStep? && !Exempt(k, k.active)
  }

  /** The aging passes of a run. */
  function Passes(k: Kernel, steps: seq<Step>): nat
    decreases |steps|
  {
    if steps == [] || !Enabled(k, steps[0]) then 0
    else
      (if IsPass(k, steps[0]) then 1 else 0)
      + if Next(k, steps[0]).Some? then Passes(Next(k, steps[0]).value, steps[1..]) else 0
  }

  lemma ScheduleAges(k: Kernel, quantum: bool, now: nat, t: Tid)
    requires Inv(k) && Bounded(k) && t in k.threads && k.threads[t].state == Ready && t != k.active && !Exempt(k, t)
    ensures var r := Schedule(k, quantum, now);
      r.Some? && AgedBy(k.threads[t], Get(r.value, t), if Exempt(k, k.active) then 0 else 1)
  {
    hide Select, AgedBy, AgePrio, AgeThread, StatesOnly;
    AgeOnly(k, quantum);
    AgedKeeps(k, Age(k, quantum));
    AgedOnce(k.threads[t]);
    SelectStatesOnly(Age(k, quantum), now);
    if !Exempt(k, k.active) {
      QueuedAt(k, quantum, t);
    }
    hide Inv, Age;
    SamePaceAges(k.threads[t], Age(k, quantum), Schedule(k, quantum, now).value, t,
                 if Exempt(k, k.active) then 0 else 1);
  }

  lemma QueuedAt(k: Kernel, quantum: bool, t: Tid)
    requires Inv(k) && t in k.threads && k.threads[t].state == Ready && t != k.active && !Exempt(k, t)
    requires !Exempt(k, k.active)
    ensures Get(Age(k, quantum), t) == AgeThread(k.threads[t])
  {
    assert t in InState(k, Ready) && t in Members(k.ready);
    var j :| 0 <= j < |k.ready| && k.ready[j].item == t;
    hide Age;
    AgeAt(k, quantum, j);
  }

  lemma SamePaceAges(a: Thread, k: Kernel, r: Kernel, t: Tid, n: nat)
    requires StatesOnly(k, r) && t in k.threads && AgedBy(a, Get(k, t), n)
    ensures AgedBy(a, Get(r, t), n)
  {
  }

  lemma StepAges(k: Kernel, step: Step, t: Tid)
    requires Inv(k) && Bounded(k) && Enabled(k, step) && Queued(k, [], t)
    requires Next(k, step).Some? && t in Next(k, step).value.threads
    ensures AgedBy(k.threads[t], Get(Next(k, step).value, t), if IsPass(k, step) then 1 else 0)
  {
    hide Inv, AgedBy;
    if step.ScheduleStep? {
      ScheduleAges(k, step.quantum, step.now, t);
    } else {
      StepCalm(k, step);
      CalmAges(k, Next(k, step).value, t);
    }
  }

  lemma CalmAges(k: Kernel, r: Kernel, t: Tid)
    requires Calm(k, r) && t in k.threads && t in r.threads && Bounded(k)
    ensures AgedBy(k.threads[t], Get(r, t), 0)
  {
    AgedOnce(k.threads[t]);
  }

  lemma {:induction false} WaitingAges(k: Kernel, steps: seq<Step>, r: Outcome, t: Tid)
    requires Inv(k) && Bounded(k) && SchedulerInvariant.Run(k, steps, r) && r.Reached? && Queued(k, steps, t)
    ensures t in k.threads && t in r.k.threads
    ensures AgedBy(k.threads[t], r.k.threads[t], Passes(k, steps))
    ensures NodeAgrees(k, t) ==> NodeAgrees(r.k, t)
    decreases |steps|
  {
    hide Inv, Bounded, NodeAgrees, AgedBy, Next, Enabled, IsPass, Exempt;
    if steps == [] {
      Unaged(k, t);
    } else {
      StepKeeps(k, steps[0]);
      StepBounded(k, steps[0]);
      var n := Next(k, steps[0]).value;
      assert Queued(n, steps[1..], t);
      StepAges(k, steps[0], t);
      if NodeAgrees(k, t) {
        StepAgrees(k, steps[0], t);
      }
      WaitingAges(n, steps[1..], r, t);
      AgedTwice(k.threads[t], n.threads[t], r.k.threads[t],
                if IsPass(k, steps[0]) then 1 else 0, Passes(n, steps[1..]));
    }
  }

  lemma Unaged(k: Kernel, t: Tid)
    requires Bounded(k) && t in k.threads
    ensures AgedBy(k.threads[t], k.threads[t], 0)
  {
    AgedOnce(k.threads[t]);
  }

  lemma BootAgrees()
    ensures Inv(Boot()) && Bounded(Boot()) && Dispatched(Boot()) && forall t: Tid :: NodeAgrees(Boot(), t)
  {
    BootHolds();
  }

  /** In every run: a thread that stands in the active table for N passes, from priority p and
      counter l on, has priority max(0, p - (l + N) / 25) and counter (l + N) mod 25 after them; and
      its node has the thread's priority after them if it had before. */
  lemma EveryRunAges(before: seq<Step>, mid: Kernel, steps: seq<Step>, r: Outcome, t: Tid)
    requires SchedulerInvariant.Run(Boot(), before, Reached(mid))
    requires SchedulerInvariant.Run(mid, steps, r) && r.Reached? && Queued(mid, steps, t)
    ensures t in mid.threads && t in r.k.threads
    ensures var a, b, n := mid.threads[t], r.k.threads[t], Passes(mid, steps);
      && b.priority == AtLeastZero(a.priority - (a.lastSched + n) / 25)
      && b.lastSched == (a.lastSched + n) % 25
    ensures NodeAgrees(mid, t) ==> NodeAgrees(r.k, t)
  {
    hide *;
    BootAgrees();
    RunKeeps(Boot(), before, Reached(mid));
    RunBounded(Boot(), before, Reached(mid));
    WaitingAges(mid, steps, r, t);
    Told(mid.threads[t], r.k.threads[t], Passes(mid, steps));
  }

  lemma Told(a: Thread, b: Thread, n: nat)
    requires AgedBy(a, b, n)
    ensures b.priority == AtLeastZero(a.priority - (a.lastSched + n) / 25) && b.lastSched == (a.lastSched + n) % 25
  {
  }

  /** In every run in which nobody unlocks the active thread, every node of the active table has its
      thread's priority, and no time slice ends at a stray moment. */
  lemma EveryRunAgrees(steps: seq<Step>, r: Outcome)
    requires SchedulerInvariant.Run(Boot(), steps, r) && r.Reached? && UnlocksOthers(Boot(), steps)
    ensures forall e :: e in r.k.ready ==> e.prio == Get(r.k, e.item).priority
    ensures forall quantum :: !Stray(r.k, quantum)
  {
    BootAgrees();
    RunAgrees(Boot(), steps, r);
    hide Inv, Bounded;
    assert forall e :: e in r.k.ready ==> NodeAgrees(r.k, e.item);
  }
}
