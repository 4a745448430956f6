/** Priorities, tick counts and wake times in every run: what the calls leave alone, the bounds that
    always hold, and the order of the sleeping table. */
module SchedulerPace {
  import opened Basics
  import opened PriorityList
  import opened Waiters
  import opened SchedulerModel
  import opened SchedulerInvariant
  import opened SchedulerTiming

  // ----- what the calls leave alone ----------------------------------------------------------------

  predicate SamePace(a: Thread, b: Thread) {
    a.priority == b.priority && a.initPrio == b.initPrio && a.lastSched == b.lastSched
  }

  predicate Born(th: Thread) {
    th.priority == th.initPrio <= LOWEST_PRIORITY && th.lastSched == 0
  }

  /** Threads keep their priorities and tick counts, and all but the active one their wake times. */
  ghost predicate Kept(k: Kernel, r: Kernel) {
    forall t :: t in r.threads ==>
      if t in k.threads then
        SamePace(k.threads[t], r.threads[t]) && (t != k.active ==> k.threads[t].wakeup == r.threads[t].wakeup)
      else Born(r.threads[t])
  }

  /** Nodes that come into the active table come with the priority of their thread. */
  ghost predicate Grown(k: Kernel, r: Kernel) {
    forall e :: e in r.ready ==> e in k.ready || e.prio == Get(r, e.item).priority
  }

  ghost predicate Calm(k: Kernel, r: Kernel) {
    Kept(k, r) && Grown(k, r) && r.sleeping == k.sleeping
  }

  lemma InsertHas(q: Line, e: Entry<Tid>)
    ensures forall x :: x in Insert(q, e) <==> x in q || x == e
  {
    InsertIs(q, e);
    var k := Position(q, e.prio);
    assert q == q[..k] + q[k..];
  }

  lemma EnlistCalm(k: Kernel, t: Tid)
    requires t in k.threads
    ensures Calm(k, Enlist(k, t))
  {
    InsertHas(k.ready, Entry(t, k.threads[t].priority));
    hide Insert;
  }

  lemma CreateCalm(k: Kernel, priority: nat, memory: Granted)
    requires k.active in k.threads && k.lastPid + 1 !in k.threads
    ensures Calm(k, Create(k, priority, memory))
  {
    var t: Tid := k.lastPid + 1;
    InsertHas(k.ready, Entry(t, priority));
    hide Insert;
  }

  lemma WaitCalm(k: Kernel, t: Tid)
    requires k.active in k.threads && t in k.threads
    ensures Calm(k, Wait(k, t))
  {
    hide Removed;
  }

  lemma ExitCalm(k: Kernel)
    requires k.active in k.threads && (k.threads[k.active].joiner.Some? ==> k.threads[k.active].joiner.value in k.threads)
    ensures Calm(k, Exit(k))
  {
    var j := k.threads[k.active].joiner;
    if j.Some? {
      EnlistCalm(k, j.value);
    }
    hide Insert;
  }

  /** No call but schedule touches priorities, tick counts or the sleeping table. */
  lemma StepCalm(k: Kernel, step: Step)
    requires Inv(k) && Enabled(k, step) && !step.ScheduleStep? && Next(k, step).Some?
    ensures Calm(k, Next(k, step).value)
  {
    assert k.active in k.threads && k.lastPid + 1 !in k.threads;
    assert JoinerOk(k, k.active);
    if step.WaitStep? {
      ChildOf(k, step.t);
    } else if step.UnlockStep? {
      assert step.t in InState(k, Blocked);
    }
    hide Core, Tables, Insert, Removed, Calm, Enlist;
    match step {
      case CreateStep(priority, memory) => CreateCalm(k, priority, memory);
      case WaitStep(t) => WaitCalm(k, t);
      case ExitStep => ExitCalm(k);
      case UnlockStep(t, blockType) => UnlockCalm(k, t, blockType);
      case SleepStep(_, _) => CalmCalls(k, step);
      case LockStep(_, _) => CalmCalls(k, step);
      case DelistStep(_) => CalmCalls(k, step);
      case FinishWaitStep => CalmCalls(k, step);
      case TakeChildStep => CalmCalls(k, step);
    }
  }

  lemma UnlockCalm(k: Kernel, t: Tid, blockType: BlockType)
    requires t in k.threads
    ensures Calm(k, Unlock(k, t, blockType))
  {
    EnlistCalm(k, t);
    hide Enlist;
  }

  lemma CalmCalls(k: Kernel, step: Step)
    requires k.active in k.threads && Enabled(k, step) && Next(k, step).Some?
    requires step.SleepStep? || step.LockStep? || step.DelistStep? || step.FinishWaitStep? || step.TakeChildStep?
    ensures Calm(k, Next(k, step).value)
  {
    hide Removed, Join, Rest;
  }

  // ----- bounds ------------------------------------------------------------------------------------

  predicate BoundedThread(th: Thread) {
    th.priority <= th.initPrio <= LOWEST_PRIORITY && th.lastSched < AGING_TICKS
  }

  ghost predicate Bounded(k: Kernel) {
    forall t :: t in k.threads ==> BoundedThread(k.threads[t])
  }

  lemma {:induction false} AgeFromBounded(k: Kernel, i: nat)
    requires i <= |k.ready| && Bounded(k) && forall j :: 0 <= j < |k.ready| ==> k.ready[j].item in k.threads
    ensures Bounded(AgeFrom(k, i))
    decreases |k.ready| - i
  {
    if i < |k.ready| {
      var e := k.ready[i];
      if Exempt(k, e.item) {
        AgeFromBounded(k, i + 1);
      } else {
        var m := Put(k.(ready := k.ready[i := e.(prio := AgePrio(e.prio, Get(k, e.item)))]),
                     e.item, AgeThread(Get(k, e.item)));
        AgeFromBounded(m, i + 1);
      }
    }
  }

  lemma AgeBounded(k: Kernel, quantum: bool)
    requires k.active in k.threads && forall j :: 0 <= j < |k.ready| ==> k.ready[j].item in k.threads
    requires Bounded(k)
    ensures Bounded(Age(k, quantum))
  {
    if !Exempt(k, k.active) {
      var th := k.threads[k.active];
      var k1 := if quantum then Put(k, k.active, th.(priority := th.initPrio)) else k;
      AgeFromBounded(k1, 0);
      AgeFromOnly(k1, 0);
    }
  }

  lemma ScheduleBounded(k: Kernel, quantum: bool, now: nat)
    requires Inv(k) && Bounded(k)
    ensures Schedule(k, quantum, now).Some? && Bounded(Schedule(k, quantum, now).value)
  {
    hide Inv, Select, Age, AgedOnly;
    ActiveExists(k);
    ReadyExist(k);
    AgeBounded(k, quantum);
    AgeOnly(k, quantum);
    AgedKeeps(k, Age(k, quantum));
    SelectStatesOnly(Age(k, quantum), now);
  }

  lemma StepBounded(k: Kernel, step: Step)
    requires Inv(k) && Bounded(k) && Enabled(k, step) && Next(k, step).Some?
    ensures Bounded(Next(k, step).value)
  {
    hide Inv;
    if step.ScheduleStep? {
      ScheduleBounded(k, step.quantum, step.now);
    } else {
      StepCalm(k, step);
      hide Next, Enabled;
    }
  }

  lemma {:induction false} RunBounded(k: Kernel, steps: seq<Step>, r: Outcome)
    requires Inv(k) && Bounded(k) && SchedulerInvariant.Run(k, steps, r)
    ensures r.Reached? ==> Bounded(r.k)
    decreases |steps|
  {
    hide Inv, Enabled, Next, Bounded;
    if steps != [] {
      StepKeeps(k, steps[0]);
      if Next(k, steps[0]).Some? {
        StepBounded(k, steps[0]);
        RunBounded(Next(k, steps[0]).value, steps[1..], r);
      }
    }
  }

  /** In every run every thread keeps priority <= init_prio <= 64 and last_sched < 25. */
  lemma EveryRunBounded(steps: seq<Step>, r: Outcome)
    requires SchedulerInvariant.Run(Boot(), steps, r) && r.Reached?
    ensures Bounded(r.k)
  {
    BootHolds();
    RunBounded(Boot(), steps, r);
  }

  // ----- the sleeping table ------------------------------------------------------------------------

  lemma KeyedSame(k: Kernel, r: Kernel)
    requires Keyed(k) && r.sleeping == k.sleeping
    requires forall i :: 0 <= i < |k.sleeping| ==> SleepKey(r, k.sleeping[i].item) == SleepKey(k, k.sleeping[i].item)
    ensures Keyed(r)
  {
  }

  lemma CalmKeyed(k: Kernel, r: Kernel)
    requires Inv(k) && Inv(r) && Keyed(k) && Calm(k, r)
    ensures Keyed(r)
  {
    forall i | 0 <= i < |k.sleeping| ensures SleepKey(r, k.sleeping[i].item) == SleepKey(k, k.sleeping[i].item) {
      var t := k.sleeping[i].item;
      assert k.sleeping[i] in k.sleeping && t in Members(k.sleeping) && t in Members(r.sleeping);
      assert t in InState(k, Sleeping) && t != k.active && t in InState(r, Sleeping);
    }
    KeyedSame(k, r);
  }

  lemma InsertKeyed(k: Kernel, t: Tid)
    requires Keyed(k)
    ensures Keyed(k.(sleeping := Insert(k.sleeping, Entry(t, SleepKey(k, t)))))
  {
    var e := Entry(t, SleepKey(k, t));
    var q := Insert(k.sleeping, e);
    InsertSorted(k.sleeping, e);
    InsertHas(k.sleeping, e);
    hide Insert;
    forall i | 0 <= i < |q| ensures q[i].prio == SleepKey(k, q[i].item) {
      assert q[i] in q;
    }
  }

  lemma PutAwayKeyed(k: Kernel)
    requires Keyed(k)
    ensures Keyed(PutAway(k))
  {
    hide Insert, Keyed;
    InsertKeyed(k, k.active);
    EnlistKeyed(k, k.active);
  }

  lemma EnlistKeyed(k: Kernel, t: Tid)
    requires Keyed(k)
    ensures Keyed(Enlist(k, t))
  {
    hide Insert;
    assert forall x :: SleepKey(Enlist(k, t), x) == SleepKey(k, x);
  }

  lemma EnlistSleeping(k: Kernel, t: Tid)
    ensures Enlist(k, t).sleeping == k.sleeping
  {
  }

  lemma TailKeyed(k: Kernel)
    requires Keyed(k) && k.sleeping != []
    ensures Keyed(k.(sleeping := k.sleeping[..|k.sleeping| - 1]))
  {
  }

  lemma {:induction false} WakeKeyed(k: Kernel, now: nat)
    requires Keyed(k)
    ensures Keyed(Wake(k, now))
    decreases |k.sleeping|
  {
    hide Insert, Keyed, Enlist;
    if k.sleeping != [] {
      var t := k.sleeping[|k.sleeping| - 1].item;
      var rest := k.(sleeping := k.sleeping[..|k.sleeping| - 1]);
      TailKeyed(k);
      if Get(k, t).wakeup < now {
        EnlistKeyed(rest, t);
        EnlistSleeping(rest, t);
        WakeKeyed(Enlist(rest, t), now);
      } else {
        InsertKeyed(rest, t);
      }
    }
  }

  /** What the wake loop leaves of the sleeping table: it takes the sleepers from the tail on up to one that
      is not due, which goes behind all others of the same key; nobody else changes places. */
  lemma {:induction false} WakeLeaves(k: Kernel, now: nat) returns (m: nat, p: nat)
    requires Keyed(k)
    ensures var q, r := k.sleeping, Wake(k, now).sleeping;
      && m <= |q| && (forall i :: m <= i < |q| ==> Due(k, q[i].item, now)) && (m == 0 ==> r == [])
      && (m > 0 ==> p < m && !Due(k, q[m - 1].item, now) && r == q[..p] + [q[m - 1]] + q[p..m - 1])
      && (m > 0 ==> (forall i :: 0 <= i < p ==> q[i].prio > q[m - 1].prio) && q[p].prio == q[m - 1].prio)
    decreases |k.sleeping|
  {
    hide Insert, Position, Enlist, Keyed;
    m, p := 0, 0;
    if k.sleeping != [] {
      var n := |k.sleeping| - 1;
      var t := k.sleeping[n].item;
      var rest := k.(sleeping := k.sleeping[..n]);
      TailKeyed(k);
      if Due(k, t, now) {
        EnlistKeyed(rest, t);
        EnlistSleeping(rest, t);
        EnlistWakeups(rest, t);
        m, p := WakeLeaves(Enlist(rest, t), now);
      } else {
        m := n + 1;
        p := GoesBack(k, rest.sleeping, t);
      }
    }
  }

  lemma EnlistWakeups(k: Kernel, t: Tid)
    ensures forall x: Tid :: Get(Enlist(k, t), x).wakeup == Get(k, x).wakeup
  {
    hide Insert;
  }

  lemma GoesBack(k: Kernel, s: Line, t: Tid) returns (p: nat)
    requires Keyed(k) && k.sleeping != [] && s == k.sleeping[..|k.sleeping| - 1] && t == k.sleeping[|k.sleeping| - 1].item
    ensures var q, n := k.sleeping, |k.sleeping| - 1;
      && p <= n && Insert(s, Entry(t, SleepKey(k, t))) == q[..p] + [q[n]] + q[p..n]
      && (forall i :: 0 <= i < p ==> q[i].prio > q[n].prio) && q[p].prio == q[n].prio
  {
    var e := Entry(t, SleepKey(k, t));
    InsertIs(s, e);
    p := Position(s, e.prio);
    hide Insert;
  }

  lemma ScheduleKeyed(k: Kernel, quantum: bool, now: nat)
    requires Inv(k) && Keyed(k)
    ensures Schedule(k, quantum, now).Some? && Keyed(Schedule(k, quantum, now).value)
  {
    hide Insert, Wake;
    ScheduleKeeps(k, quantum, now);
    AgeOnly(k, quantum);
    AgedKeyed(k, Age(k, quantum));
    hide Inv, Age, AgedOnly, Keyed, PutAway;
    PutAwayKeyed(Age(k, quantum));
    WakeKeyed(PutAway(Age(k, quantum)), now);
    ElectKeyed(Wake(PutAway(Age(k, quantum)), now));
  }

  lemma AgedKeyed(k: Kernel, r: Kernel)
    requires AgedOnly(k, r) && Keyed(k)
    ensures Keyed(r)
  {
    assert forall x :: SleepKey(r, x) == SleepKey(k, x);
  }

  lemma ElectKeyed(k: Kernel)
    requires Keyed(k)
    ensures Elect(k).Some? ==> Keyed(Elect(k).value)
  {
    if Elect(k).Some? {
      assert forall x :: SleepKey(Elect(k).value, x) == SleepKey(k, x);
    }
  }

  lemma StepKeyed(k: Kernel, step: Step)
    requires Inv(k) && Keyed(k) && Enabled(k, step) && Next(k, step).Some?
    ensures Keyed(Next(k, step).value)
  {
    hide Inv, Keyed;
    if step.ScheduleStep? {
      ScheduleKeyed(k, step.quantum, step.now);
    } else {
      StepKeeps(k, step);
      StepCalm(k, step);
      CalmKeyed(k, Next(k, step).value);
    }
  }

  lemma {:induction false} RunKeyed(k: Kernel, steps: seq<Step>, r: Outcome)
    requires Inv(k) && Keyed(k) && SchedulerInvariant.Run(k, steps, r)
    ensures r.Reached? ==> Inv(r.k) && Keyed(r.k)
    decreases |steps|
  {
    hide Inv, Enabled, Next, Keyed;
    if steps != [] {
      StepKeeps(k, steps[0]);
      if Next(k, steps[0]).Some? {
        StepKeyed(k, steps[0]);
        RunKeyed(Next(k, steps[0]).value, steps[1..], r);
      }
    }
  }

  /** The sleeping threads, the active one included if it sleeps, that are due at the time now. */
  ghost function DueSleepers(k: Kernel, now: nat): set<Tid> {
    set t | t in InState(k, Sleeping) && Due(k, t, now)
  }

  /** In every run, if the wake times are below 2^16 when select_thread goes through the sleeping
      table, it moves exactly the sleepers that are due to the active table, as ready threads, and
      keeps exactly the others, in a table that is still sorted; no node is lost or doubled. */
  lemma EveryRunWakes(steps: seq<Step>, quantum: bool, now: nat, r: Outcome)
    requires SchedulerInvariant.Run(Boot(), steps, r) && r.Reached?
    requires forall t :: t in InState(r.k, Sleeping) ==> Get(r.k, t).wakeup < UINT16
    ensures var p := PutAway(Age(r.k, quantum)); var w := Wake(p, now);
      && DueSleepers(p, now) == DueSleepers(r.k, now)
      && Lists(w.ready, InState(p, Ready) + DueSleepers(p, now))
      && Lists(w.sleeping, InState(p, Sleeping) - DueSleepers(p, now))
      && InState(w, Ready) == InState(p, Ready) + DueSleepers(p, now)
      && Sorted(w.sleeping)
  {
    BootHolds();
    RunKeyed(Boot(), steps, r);
    var k := Age(r.k, quantum);
    AgeOnly(r.k, quantum);
    AgedKeeps(r.k, k);
    AgedKeyed(r.k, k);
    PutAwayKeeps(k);
    PutAwayKeyed(k);
    PutAwaySleepers(r.k, k, now);
    ShortWakes(PutAway(k), now);
  }

  lemma PutAwaySleepers(k: Kernel, a: Kernel, now: nat)
    requires Inv(k) && AgedOnly(k, a)
    ensures InState(PutAway(a), Sleeping) == InState(k, Sleeping)
    ensures forall t :: Get(PutAway(a), t).wakeup == Get(k, t).wakeup
    ensures DueSleepers(PutAway(a), now) == DueSleepers(k, now)
  {
    hide Insert, Tables, Global, BlockedPlaces, Joins, Family;
  }

  lemma WokenSets(k: Kernel, w: Kernel, due: set<Tid>)
    requires w.threads.Keys == k.threads.Keys && due <= InState(k, Sleeping)
    requires forall t :: t in k.threads ==> w.threads[t].state == if t in due then Ready else k.threads[t].state
    ensures InState(w, Ready) == InState(k, Ready) + due
    ensures InState(w, Sleeping) == InState(k, Sleeping) - due
  {
  }

  /** A sleeper is woken, or it sleeps on. */
  lemma ShortWakes(k: Kernel, now: nat)
    requires Core(k) && TablesBetween(k) && Keyed(k)
    requires forall t :: t in InState(k, Sleeping) ==> Get(k, t).wakeup < UINT16
    ensures var w := Wake(k, now);
      && InState(w, Ready) == InState(k, Ready) + DueSleepers(k, now)
      && InState(w, Sleeping) == InState(k, Sleeping) - DueSleepers(k, now)
      && Lists(w.ready, InState(w, Ready)) && Lists(w.sleeping, InState(w, Sleeping)) && Sorted(w.sleeping)
  {
    hide Core, Wake, NoDup, Members, DueLast;
    var w := Wake(k, now);
    WakeKeeps(k, now);
    WakeKeyed(k, now);
    SleepersExist(k);
    WakeStatesOnly(k, now);
    TableSleepers(k);
    ShortTimesDueLast(k, now);
    hide TablesBetween, Keyed;
    forall t | t in k.threads
      ensures w.threads[t].state == if t in DueSleepers(k, now) then Ready else k.threads[t].state
    {
      WakeOne(k, t, now);
    }
    WokenSets(k, w, DueSleepers(k, now));
    KeptTables(w);
  }

  lemma KeptTables(w: Kernel)
    requires TablesBetween(w) && Keyed(w)
    ensures Lists(w.ready, InState(w, Ready)) && Lists(w.sleeping, InState(w, Sleeping)) && Sorted(w.sleeping)
  {
  }

  lemma TableSleepers(k: Kernel)
    requires TablesBetween(k)
    ensures Asleep(k)
    ensures forall i :: 0 <= i < |k.sleeping| ==> k.sleeping[i].item in InState(k, Sleeping)
  {
    forall i | 0 <= i < |k.sleeping| ensures k.sleeping[i].item in InState(k, Sleeping) {
      assert k.sleeping[i] in k.sleeping && k.sleeping[i].item in Members(k.sleeping);
    }
  }

  lemma WakeOne(k: Kernel, t: Tid, now: nat)
    requires TablesBetween(k) && DueLast(k, now) && t in k.threads
    ensures Get(Wake(k, now), t).state == if t in DueSleepers(k, now) then Ready else k.threads[t].state
  {
    TableSleepers(k);
    hide Wake, DueLast, Asleep;
    if k.threads[t].state == Sleeping {
      assert t in Members(k.sleeping);
      var i :| 0 <= i < |k.sleeping| && k.sleeping[i].item == t;
      WakesDue(k, now, i);
    } else {
      forall e | e in k.sleeping ensures e.item != t {
        assert e.item in Members(k.sleeping);
      }
      WakeLeavesOthers(k, t, now);
    }
  }
}
