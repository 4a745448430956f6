/** Runs from boot that show why the conditions of the scheduling theorems are needed. */
module SchedulerExamples {
  import opened Basics
  import opened PriorityList
  import opened Waiters
  import opened SchedulerModel
  import opened SchedulerInvariant
  import opened SchedulerAging

  // ----- two threads that init creates ------------------------------------------------------------

  const TICK := ScheduleStep(false, 0)

  function E(t: Tid, prio: nat): Entry<Tid> {
    Entry(t, prio)
  }

  function IdleThread(state: ThreadState): Thread {
    Thread(state, SemBlock, LOWEST_PRIORITY, LOWEST_PRIORITY, 0, 0, None, 0, [E(1, 0)], None)
  }

  function InitThread(state: ThreadState, children: Line, awaiting: Option<Tid>): Thread {
    Thread(state, SemBlock, 0, 0, 0, 0, None, 0, children, awaiting)
  }

  function Worker(state: ThreadState, priority: nat, initPrio: nat, lastSched: nat, joiner: Option<Tid>): Thread {
    Thread(state, SemBlock, priority, initPrio, 0, lastSched, joiner, 1, [], None)
  }

  function AllOf(p2: nat, p3: nat): Line {
    Insert(Insert([E(0, LOWEST_PRIORITY), E(1, 0)], E(2, p2)), E(3, p3))
  }

  /** Thread 2 runs, init waits for it, and thread 3 stands in the active table with count c. */
  function Pair(p2: nat, p3: nat, c: nat): Kernel {
    Kernel(map[0 := IdleThread(Ready), 1 := InitThread(Joining, [E(3, 0), E(2, 0)], Some(2)),
               2 := Worker(Running, p2, p2, 0, Some(1)), 3 := Worker(Ready, p3, p3, c, None)],
           2, 0, Some(1), Insert([E(0, LOWEST_PRIORITY)], E(3, p3)), [], [], AllOf(p2, p3), 3, 4, map[], {})
  }

  function AfterInit(): Kernel {
    Kernel(map[0 := IdleThread(Ready), 1 := InitThread(Running, [], None)], 1, 0, Some(1),
           [E(0, LOWEST_PRIORITY)], [], [], [E(0, LOWEST_PRIORITY), E(1, 0)], 1, 2, map[], {})
  }

  /** Init exists, and idle still runs. */
  function InitCreated(): Kernel {
    Kernel(map[0 := IdleThread(Running), 1 := InitThread(Ready, [], None)], 0, 0, Some(1),
           [E(1, 0)], [], [], [E(0, LOWEST_PRIORITY), E(1, 0)], 1, 2, map[], {})
  }

  lemma IdleCreatesInit()
    ensures Next(Boot(), CreateStep(0, AllGranted)) == Some(InitCreated()) && Enabled(Boot(), CreateStep(0, AllGranted))
  {
    var r := Create(Boot(), 0, AllGranted);
    assert r.threads == InitCreated().threads;
    assert r.all == InitCreated().all && r.ready == InitCreated().ready;
    assert r == InitCreated();
  }

  lemma InitElected()
    ensures Next(InitCreated(), TICK) == Some(AfterInit())
  {
    assert Age(InitCreated(), false) == InitCreated();
    var p := PutAway(InitCreated());
    assert p.ready == [E(0, LOWEST_PRIORITY), E(1, 0)];
    assert Wake(p, 0) == p;
    var r := Elect(p).value;
    assert r.threads == AfterInit().threads;
    assert r.ready == AfterInit().ready;
  }

  lemma InitRuns()
    ensures SchedulerInvariant.Run(Boot(), [CreateStep(0, AllGranted), TICK], Reached(AfterInit()))
  {
    hide SchedulerInvariant.Run, Next, Boot, InitCreated, AfterInit;
    IdleCreatesInit();
    InitElected();
    OneStep(Boot(), CreateStep(0, AllGranted), InitCreated());
    RunStep(Boot(), [CreateStep(0, AllGranted)], InitCreated(), TICK, AfterInit());
    assert [CreateStep(0, AllGranted)] + [TICK] == [CreateStep(0, AllGranted), TICK];
  }

  function Two(p2: nat, p3: nat): seq<Step> {
    [CreateStep(p2, AllGranted), CreateStep(p3, AllGranted), WaitStep(2), TICK]
  }

  /** The active table with idle and thread 3. */
  function Rear(p3: nat): Line {
    if p3 < LOWEST_PRIORITY then [E(0, LOWEST_PRIORITY), E(3, p3)] else [E(3, p3), E(0, LOWEST_PRIORITY)]
  }

  lemma RearIs(p2: nat, p3: nat)
    requires p2 < p3 <= LOWEST_PRIORITY
    ensures Insert([E(0, LOWEST_PRIORITY)], E(3, p3)) == Rear(p3)
    ensures Insert([E(0, LOWEST_PRIORITY)], E(2, p2)) == [E(0, LOWEST_PRIORITY), E(2, p2)]
    ensures Insert([E(0, LOWEST_PRIORITY), E(2, p2)], E(3, p3)) == Rear(p3) + [E(2, p2)]
    ensures Insert(Rear(p3), E(2, p2)) == Rear(p3) + [E(2, p2)]
  {
    assert [E(0, LOWEST_PRIORITY)][1..] == [];
    assert [E(0, LOWEST_PRIORITY), E(2, p2)][1..] == [E(2, p2)];
    assert Rear(p3)[1..] == [Rear(p3)[1]] && |Rear(p3)[1..][1..]| == 0;
    assert Insert([], E(2, p2)) == [E(2, p2)];
  }

  function Created2(p2: nat): Kernel {
    Kernel(map[0 := IdleThread(Ready), 1 := InitThread(Running, [E(2, 0)], None), 2 := Worker(Ready, p2, p2, 0, None)],
           1, 0, Some(1), [E(0, LOWEST_PRIORITY), E(2, p2)], [], [],
           Insert([E(0, LOWEST_PRIORITY), E(1, 0)], E(2, p2)), 2, 3, map[], {})
  }

  function Created3(p2: nat, p3: nat, init: Thread, joiner: Option<Tid>): Kernel {
    Kernel(map[0 := IdleThread(Ready), 1 := init, 2 := Worker(Ready, p2, p2, 0, joiner),
               3 := Worker(Ready, p3, p3, 0, None)],
           1, 0, Some(1), Rear(p3) + [E(2, p2)], [], [], AllOf(p2, p3), 3, 4, map[], {})
  }

  lemma CreateTwo(p2: nat, p3: nat)
    requires p2 < p3 <= LOWEST_PRIORITY
    ensures Next(AfterInit(), CreateStep(p2, AllGranted)) == Some(Created2(p2))
    ensures Next(Created2(p2), CreateStep(p3, AllGranted))
         == Some(Created3(p2, p3, InitThread(Running, [E(3, 0), E(2, 0)], None), None))
  {
    RearIs(p2, p3);
    var r := Create(AfterInit(), p2, AllGranted);
    assert Insert([], E(2, 0)) == [E(2, 0)] && Insert([E(2, 0)], E(3, 0)) == [E(3, 0), E(2, 0)];
    assert r.threads == Created2(p2).threads;
    assert r == Created2(p2);
    var init := InitThread(Running, [E(3, 0), E(2, 0)], None);
    var s := Create(Created2(p2), p3, AllGranted);
    assert s.threads == Created3(p2, p3, init, None).threads;
    assert s == Created3(p2, p3, init, None);
  }

  lemma InitWaits(p2: nat, p3: nat)
    requires p2 < p3 <= LOWEST_PRIORITY
    ensures var k := Created3(p2, p3, InitThread(Running, [E(3, 0), E(2, 0)], None), None);
      var w := Created3(p2, p3, InitThread(Joining, [E(3, 0), E(2, 0)], Some(2)), Some(1));
      && Enabled(k, WaitStep(2)) && Next(k, WaitStep(2)) == Some(w)
  {
    hide Insert;
    var k := Created3(p2, p3, InitThread(Running, [E(3, 0), E(2, 0)], None), None);
    var w := Created3(p2, p3, InitThread(Joining, [E(3, 0), E(2, 0)], Some(2)), Some(1));
    assert Wait(k, 2).threads == w.threads;
    assert Wait(k, 2) == w;
  }

  lemma SecondRuns(p2: nat, p3: nat)
    requires p2 < p3 <= LOWEST_PRIORITY
    ensures var w := Created3(p2, p3, InitThread(Joining, [E(3, 0), E(2, 0)], Some(2)), Some(1));
      Next(w, TICK) == Some(Pair(p2, p3, 0))
  {
    hide Insert, Rear;
    RearIs(p2, p3);
    var w := Created3(p2, p3, InitThread(Joining, [E(3, 0), E(2, 0)], Some(2)), Some(1));
    assert PutAway(Age(w, false)) == w && Wake(w, 0) == w;
    var r := Elect(w).value;
    assert r.threads == Pair(p2, p3, 0).threads;
    assert (Rear(p3) + [E(2, p2)])[..|Rear(p3)|] == Rear(p3);
    assert r == Pair(p2, p3, 0);
  }

  lemma TwoRun(p2: nat, p3: nat)
    requires p2 < p3 <= LOWEST_PRIORITY
    ensures SchedulerInvariant.Run(Boot(), [CreateStep(0, AllGranted), TICK] + Two(p2, p3), Reached(Pair(p2, p3, 0)))
  {
    hide SchedulerInvariant.Run, Next, Enabled, Pair, Created2, Created3;
    InitRuns();
    CreateTwo(p2, p3);
    InitWaits(p2, p3);
    SecondRuns(p2, p3);
    EnabledTwo(p2, p3);
    var k := Created3(p2, p3, InitThread(Running, [E(3, 0), E(2, 0)], None), None);
    var w := Created3(p2, p3, InitThread(Joining, [E(3, 0), E(2, 0)], Some(2)), Some(1));
    var a := [CreateStep(0, AllGranted), TICK];
    RunStep(Boot(), a, AfterInit(), CreateStep(p2, AllGranted), Created2(p2));
    var b := a + [CreateStep(p2, AllGranted)];
    RunStep(Boot(), b, Created2(p2), CreateStep(p3, AllGranted), k);
    var c := b + [CreateStep(p3, AllGranted)];
    RunStep(Boot(), c, k, WaitStep(2), w);
    RunStep(Boot(), c + [WaitStep(2)], w, TICK, Pair(p2, p3, 0));
    assert c + [WaitStep(2)] + [TICK] == a + Two(p2, p3);
  }

  lemma EnabledTwo(p2: nat, p3: nat)
    ensures Enabled(AfterInit(), CreateStep(p2, AllGranted)) && Enabled(Created2(p2), CreateStep(p3, AllGranted))
    ensures forall k :: Enabled(k, TICK)
  {
  }

  // ----- passes -----------------------------------------------------------------------------------

  lemma SelectPair(p2: nat, p3: nat, c: nat)
    requires p2 < p3 <= LOWEST_PRIORITY
    ensures Select(Pair(p2, p3, c), 0) == Some(Pair(p2, p3, c))
  {
    var k := Pair(p2, p3, c);
    RearIs(p2, p3);
    var p := PutAway(k);
    assert p.ready == Rear(p3) + [E(2, p2)];
    assert Wake(p, 0) == p;
    var r := Elect(p).value;
    assert r.threads == k.threads;
    assert (Rear(p3) + [E(2, p2)])[..2] == Rear(p3);
  }

  /** The kernel of Pair, but with threads 2 and 3 and the active table as given. */
  function PairWith(second: Thread, ready: Line, third: Thread, all: Line): Kernel {
    Kernel(map[0 := IdleThread(Ready), 1 := InitThread(Joining, [E(3, 0), E(2, 0)], Some(2)), 2 := second, 3 := third],
           2, 0, Some(1), ready, [], [], all, 3, 4, map[], {})
  }

  lemma AgePair(second: Thread, p3: nat, c: nat, all: Line)
    requires p3 <= LOWEST_PRIORITY && c < AGING_TICKS && second.lastSched == 0
    ensures var third := Worker(Ready, p3, p3, c, None);
      Age(PairWith(second, Rear(p3), third, all), false) == PairWith(second, AgedRear(p3, c), AgeThread(third), all)
  {
    var third := Worker(Ready, p3, p3, c, None);
    var k := PairWith(second, Rear(p3), third, all);
    var r := PairWith(second, AgedRear(p3, c), AgeThread(third), all);
    if p3 < LOWEST_PRIORITY {
      assert AgeFrom(k, 1) == AgeFrom(r, 2) by {
        assert k.ready[1 := E(3, AgePrio(p3, third))] == r.ready;
        assert k.threads[3 := AgeThread(third)] == r.threads;
      }
      assert AgeFrom(k, 0) == AgeFrom(k, 1);
    } else {
      assert AgeFrom(k, 0) == AgeFrom(r, 1) by {
        assert k.ready[0 := E(3, AgePrio(p3, third))] == r.ready;
        assert k.threads[3 := AgeThread(third)] == r.threads;
      }
      assert AgeFrom(r, 1) == AgeFrom(r, 2);
    }
    assert AgeFrom(r, 2) == r;
    assert Put(r, 2, Get(r, 2).(lastSched := 0)).threads == r.threads;
  }

  /** Idle and thread 3 after a pass. */
  function AgedRear(p3: nat, c: nat): Line {
    var p := if c + 1 < AGING_TICKS || p3 == 0 then p3 else p3 - 1;
    if p3 < LOWEST_PRIORITY then [E(0, LOWEST_PRIORITY), E(3, p)] else [E(3, p), E(0, LOWEST_PRIORITY)]
  }

  lemma PassPair(p2: nat, p3: nat, c: nat)
    requires p2 < p3 <= LOWEST_PRIORITY && c + 1 < AGING_TICKS
    ensures Next(Pair(p2, p3, c), TICK) == Some(Pair(p2, p3, c + 1))
  {
    RearIs(p2, p3);
    AgePair(Worker(Running, p2, p2, 0, Some(1)), p3, c, AllOf(p2, p3));
    SelectPair(p2, p3, c + 1);
  }

  function Ticks(n: nat): seq<Step> {
    if n == 0 then [] else Ticks(n - 1) + [TICK]
  }

  lemma NoSteps(k: Kernel)
    ensures SchedulerInvariant.Run(k, [], Reached(k))
  {
  }

  lemma {:induction false} PairRun(p2: nat, p3: nat, c: nat)
    requires p2 < p3 <= LOWEST_PRIORITY && c < AGING_TICKS
    ensures SchedulerInvariant.Run(Pair(p2, p3, 0), Ticks(c), Reached(Pair(p2, p3, c)))
  {
    hide SchedulerInvariant.Run, Next, Pair, Enabled;
    NoSteps(Pair(p2, p3, 0));
    if c > 0 {
      PairRun(p2, p3, c - 1);
      PassPair(p2, p3, c - 1);
      EnabledTwo(p2, p3);
      RunStep(Pair(p2, p3, 0), Ticks(c - 1), Pair(p2, p3, c - 1), TICK, Pair(p2, p3, c));
    }
  }

  function Prelude(p2: nat, p3: nat, c: nat): seq<Step> {
    [CreateStep(0, AllGranted), TICK] + Two(p2, p3) + Ticks(c)
  }

  /** From boot: thread 2 runs for c passes while thread 3 stands in the active table. */
  lemma PreludeRun(p2: nat, p3: nat, c: nat)
    requires p2 < p3 <= LOWEST_PRIORITY && c < AGING_TICKS
    ensures SchedulerInvariant.Run(Boot(), Prelude(p2, p3, c), Reached(Pair(p2, p3, c)))
  {
    hide SchedulerInvariant.Run, Pair;
    TwoRun(p2, p3);
    PairRun(p2, p3, c);
    RunThen(Boot(), [CreateStep(0, AllGranted), TICK] + Two(p2, p3), Pair(p2, p3, 0), Ticks(c), Reached(Pair(p2, p3, c)));
  }

  // ----- thread 2 goes to sleep -------------------------------------------------------------------

  function Sleeper(p2: nat, until: nat): Thread {
    Worker(Sleeping, p2, p2, 0, Some(1)).(wakeup := until)
  }

  lemma SecondSleeps(p2: nat, p3: nat, c: nat, until: nat)
    requires p2 < p3 <= LOWEST_PRIORITY && until < 0x1_0000_0000
    ensures Enabled(Pair(p2, p3, c), SleepStep(0, until))
    ensures Next(Pair(p2, p3, c), SleepStep(0, until))
         == Some(PairWith(Sleeper(p2, until), Rear(p3), Worker(Ready, p3, p3, c, None), AllOf(p2, p3)))
  {
    RearIs(p2, p3);
    hide Insert;
    var r := Sleep(Pair(p2, p3, c), 0, until);
    assert r.threads == PairWith(Sleeper(p2, until), Rear(p3), Worker(Ready, p3, p3, c, None), AllOf(p2, p3)).threads;
  }

  /** Thread 2 sleeps, the next in the table runs. */
  function AfterSleep(p2: nat, until: nat, idleState: ThreadState, third: Thread, active: Tid, ready: Line, all: Line): Kernel {
    Kernel(map[0 := IdleThread(idleState), 1 := InitThread(Joining, [E(3, 0), E(2, 0)], Some(2)),
               2 := Sleeper(p2, until), 3 := third],
           active, 0, Some(1), ready, [E(2, until % UINT16)], [], all, 3, 4, map[], {})
  }

  lemma SleeperPutAway(p2: nat, until: nat, ready: Line, third: Thread, all: Line)
    ensures var k := PairWith(Sleeper(p2, until), ready, third, all);
      Wake(PutAway(k), 0) == k.(sleeping := [E(2, until % UINT16)])
  {
    var k := PairWith(Sleeper(p2, until), ready, third, all);
    assert Insert([], E(2, until % UINT16)) == [E(2, until % UINT16)];
    var p := PutAway(k);
    assert p == k.(sleeping := [E(2, until % UINT16)]);
    assert p.sleeping[..0] == [];
  }

  // ----- priority 64 for a thread other than idle -------------------------------------------------

  /** init creates a thread at priority 3 and one at priority 64. The second ages for 25 passes, and so
      gets to 63, in front of idle; when the first goes to sleep, idle is elected at 64. */
  lemma LowestPriorityRun() returns (steps: seq<Step>, k: Kernel)
    ensures SchedulerInvariant.Run(Boot(), steps, Reached(k)) && forall i :: 0 <= i < |steps| ==> !steps[i].UnlockStep?
    ensures Schedule(k, false, 0).Some?
    ensures var n := Schedule(k, false, 0).value;
      n.active == n.idle && 3 in InState(n, Ready) && Get(n, 3).priority < Get(n, n.active).priority
  {
    PreludeRun(3, 64, 24);
    SecondSleeps(3, 64, 24, 1000);
    k := PairWith(Sleeper(3, 1000), Rear(64), Worker(Ready, 64, 64, 24, None), AllOf(3, 64));
    IdleElected(k);
    steps := Prelude(3, 64, 24) + [SleepStep(0, 1000)];
    NoUnlocks(3, 64, 24);
    hide SchedulerInvariant.Run, Next, Pair, Enabled, Prelude;
    RunStep(Boot(), Prelude(3, 64, 24), Pair(3, 64, 24), SleepStep(0, 1000), k);
  }

  lemma IdleElected(k: Kernel)
    requires k == PairWith(Sleeper(3, 1000), Rear(64), Worker(Ready, 64, 64, 24, None), AllOf(3, 64))
    ensures Schedule(k, false, 0).Some?
    ensures var n := Schedule(k, false, 0).value;
      n.active == n.idle && 3 in InState(n, Ready) && Get(n, 3).priority < Get(n, n.active).priority
  {
    AgePair(Sleeper(3, 1000), 64, 24, AllOf(3, 64));
    hide Insert, Age;
    SleeperPutAway(3, 1000, AgedRear(64, 24), AgeThread(Worker(Ready, 64, 64, 24, None)), AllOf(3, 64));
  }

  lemma {:induction false} TicksOnly(c: nat)
    ensures forall i :: 0 <= i < |Ticks(c)| ==> Ticks(c)[i] == TICK
  {
    if c > 0 { TicksOnly(c - 1); }
  }

  lemma NoUnlocks(p2: nat, p3: nat, c: nat)
    ensures forall i :: 0 <= i < |Prelude(p2, p3, c)| ==> !Prelude(p2, p3, c)[i].UnlockStep?
    ensures forall i :: 0 <= i < |Prelude(p2, p3, c)| && Prelude(p2, p3, c)[i].CreateStep? ==>
      Prelude(p2, p3, c)[i].priority in {0, p2, p3}
  {
    TicksOnly(c);
  }

  // ----- the active thread is unlocked ------------------------------------------------------------

  lemma ThirdElected(p2: nat, p3: nat, c: nat, until: nat)
    requires p2 < p3 < LOWEST_PRIORITY && c < AGING_TICKS
    ensures var third := Worker(Ready, p3, p3, c, None);
      Next(PairWith(Sleeper(p2, until), Rear(p3), third, AllOf(p2, p3)), TICK)
      == Some(AfterSleep(p2, until, Ready, AgeThread(third).(state := Running), 3, [E(0, LOWEST_PRIORITY)], AllOf(p2, p3)))
  {
    var third := Worker(Ready, p3, p3, c, None);
    AgePair(Sleeper(p2, until), p3, c, AllOf(p2, p3));
    hide Insert, Age;
    SleeperPutAway(p2, until, AgedRear(p3, c), AgeThread(third), AllOf(p2, p3));
    var k := PairWith(Sleeper(p2, until), AgedRear(p3, c), AgeThread(third), AllOf(p2, p3));
    var r := Elect(k.(sleeping := [E(2, until % UINT16)])).value;
    var n := AfterSleep(p2, until, Ready, AgeThread(third).(state := Running), 3, [E(0, LOWEST_PRIORITY)], AllOf(p2, p3));
    assert r.threads == n.threads;
    assert r.ready == n.ready;
  }

  /** From boot to where thread 3 runs, having aged for c + 1 passes, and thread 2 sleeps. */
  lemma ThirdRun(p2: nat, p3: nat, c: nat, until: nat)
    requires p2 < p3 < LOWEST_PRIORITY && c < AGING_TICKS && until < 0x1_0000_0000
    ensures SchedulerInvariant.Run(Boot(), Prelude(p2, p3, c) + [SleepStep(0, until), TICK],
      Reached(AfterSleep(p2, until, Ready, AgeThread(Worker(Ready, p3, p3, c, None)).(state := Running), 3,
                         [E(0, LOWEST_PRIORITY)], AllOf(p2, p3))))
  {
    hide SchedulerInvariant.Run, Next, Pair, PairWith, Enabled, Prelude, AfterSleep, AgeThread;
    PreludeRun(p2, p3, c);
    SecondSleeps(p2, p3, c, until);
    ThirdElected(p2, p3, c, until);
    EnabledTwo(p2, p3);
    var third := Worker(Ready, p3, p3, c, None);
    var k := PairWith(Sleeper(p2, until), Rear(p3), third, AllOf(p2, p3));
    RunStep(Boot(), Prelude(p2, p3, c), Pair(p2, p3, c), SleepStep(0, until), k);
    RunStep(Boot(), Prelude(p2, p3, c) + [SleepStep(0, until)], k, TICK,
            AfterSleep(p2, until, Ready, AgeThread(third).(state := Running), 3, [E(0, LOWEST_PRIORITY)], AllOf(p2, p3)));
    assert Prelude(p2, p3, c) + [SleepStep(0, until)] + [TICK] == Prelude(p2, p3, c) + [SleepStep(0, until), TICK];
  }

  const SELF_UNLOCK := [LockStep(0, SemBlock), DelistStep(0), UnlockStep(3, SemBlock)]

  /** Thread 3 pends, and a handler posts before it gets to schedule. */
  function SelfUnlocked(k: Kernel): Kernel {
    Put(k.(ready := Insert(k.ready, E(3, Get(k, 3).priority)), waiting := map[0 := []]),
        3, Get(k, 3).(state := Ready, blockType := SemBlock))
  }

  lemma SelfUnlockRun(k: Kernel)
    requires k.active == 3 != k.idle && 3 in k.threads && Executing(k) && k.waiting == map[] && k.transit == {}
    ensures SchedulerInvariant.Run(k, SELF_UNLOCK, Reached(SelfUnlocked(k)))
  {
    var th := k.threads[3];
    var a := Put(k.(waiting := map[0 := [E(3, 0)]]), 3, th.(state := Blocked, blockType := SemBlock));
    var b := a.(waiting := map[0 := []], transit := {3});
    assert Lock(k, 0, SemBlock) == a by {
      assert Join([], 3) == [E(3, 0)];
      assert k.waiting[0 := [E(3, 0)]] == map[0 := [E(3, 0)]];
    }
    assert Delist(a, 0) == b by {
      assert [E(3, 0)][..0] == [];
      assert a.waiting[0 := []] == map[0 := []];
    }
    assert Unlock(b, 3, SemBlock) == SelfUnlocked(k) by {
      hide Insert;
      assert Unlock(b, 3, SemBlock).threads == SelfUnlocked(k).threads;
    }
    OneStep(k, SELF_UNLOCK[0], a);
    OneStep(a, SELF_UNLOCK[1], b);
    OneStep(b, SELF_UNLOCK[2], SelfUnlocked(k));
    hide SchedulerInvariant.Run, SelfUnlocked;
    RunThen(k, [SELF_UNLOCK[0]], a, [SELF_UNLOCK[1]], Reached(b));
    RunThen(k, [SELF_UNLOCK[0]] + [SELF_UNLOCK[1]], b, [SELF_UNLOCK[2]], Reached(SelfUnlocked(k)));
    assert [SELF_UNLOCK[0]] + [SELF_UNLOCK[1]] + [SELF_UNLOCK[2]] == SELF_UNLOCK;
  }

  /** A time slice does end at a stray moment: thread 3 has aged from 5 to 4 when it runs, pends, and is
      unlocked by a handler before it gets to schedule. */
  lemma StrayRun() returns (steps: seq<Step>, k: Kernel)
    ensures SchedulerInvariant.Run(Boot(), steps, Reached(k)) && Stray(k, true)
  {
    ThirdRun(3, 5, 24, 1000);
    var third := AgeThread(Worker(Ready, 5, 5, 24, None)).(state := Running);
    var m := AfterSleep(3, 1000, Ready, third, 3, [E(0, LOWEST_PRIORITY)], AllOf(3, 5));
    SelfUnlockRun(m);
    k := SelfUnlocked(m);
    steps := Prelude(3, 5, 24) + [SleepStep(0, 1000), TICK] + SELF_UNLOCK;
    assert Stray(k, true);
    hide SchedulerInvariant.Run, AfterSleep, SelfUnlocked;
    RunThen(Boot(), Prelude(3, 5, 24) + [SleepStep(0, 1000), TICK], m, SELF_UNLOCK, Reached(k));
  }

  function FourthCreated(third: Thread): Kernel {
    var k := AfterSleep(3, 1000, Ready, third, 3, [E(0, LOWEST_PRIORITY)], AllOf(3, 5));
    Create(k, 5, AllGranted)
  }

  lemma FourthIs(third: Thread)
    requires third == Worker(Running, 5, 5, 24, None)
    ensures var k := AfterSleep(3, 1000, Ready, third, 3, [E(0, LOWEST_PRIORITY)], AllOf(3, 5));
      Enabled(k, CreateStep(5, AllGranted)) && Next(k, CreateStep(5, AllGranted)) == Some(FourthCreated(third))
    ensures var r := FourthCreated(third);
      && r.ready == [E(0, LOWEST_PRIORITY), E(4, 5)] && r.active == 3 && r.idle == 0 && r.init == Some(1)
      && r.waiting == map[] && r.transit == {} && r.sleeping == [E(2, 1000)]
      && 3 in r.threads && r.threads[3] == third.(children := [E(4, 0)])
      && 4 in r.threads && r.threads[4] == Thread(Ready, SemBlock, 5, 5, 0, 0, None, 3, [], None)
      && 2 in r.threads && r.threads[2].wakeup == 1000
  {
    assert Insert([], E(4, 0)) == [E(4, 0)];
    assert [E(0, LOWEST_PRIORITY)][1..] == [] && Insert([], E(4, 5)) == [E(4, 5)];
    assert Insert([E(0, LOWEST_PRIORITY)], E(4, 5)) == [E(0, LOWEST_PRIORITY), E(4, 5)];
  }

  /** Thread 3 comes back into the table with its count at 24, in front of thread 4 of the same
      priority: the next pass lowers it to 4, and thread 4 is elected at 5. */
  lemma SelfUnlockDisorders(k: Kernel)
    requires k.ready == [E(0, LOWEST_PRIORITY), E(3, 5), E(4, 5)] && k.active == 3 && k.idle == 0 && k.init == Some(1)
    requires 3 in k.threads && k.threads[3].state == Ready && k.threads[3].priority == 5 && k.threads[3].lastSched == 24
    requires 4 in k.threads && k.threads[4].priority == 5 && k.threads[4].lastSched == 0
    requires k.sleeping == [E(2, 1000)] && 2 in k.threads && k.threads[2].wakeup == 1000
    ensures Schedule(k, false, 0).Some?
    ensures var n := Schedule(k, false, 0).value;
      n.active == 4 && Get(n, 4).priority == 5 && Get(n, 3).state == Ready && Get(n, 3).priority == 4
  {
    var a := Put(k.(ready := [E(0, LOWEST_PRIORITY), E(3, 4), E(4, 5)]), 3, AgeThread(k.threads[3]));
    var b := Put(a, 4, AgeThread(k.threads[4]));
    assert AgeFrom(k, 0) == AgeFrom(k, 1);
    assert AgeFrom(k, 1) == AgeFrom(a, 2) by {
      assert k.ready[1 := E(3, 4)] == a.ready;
    }
    assert AgeFrom(a, 2) == AgeFrom(b, 3) == b by {
      assert a.ready[2 := E(4, 5)] == b.ready;
    }
    var c := Age(k, false);
    assert c == Put(b, 3, Get(b, 3).(lastSched := 0));
    assert PutAway(c) == c;
    assert c.sleeping[..0] == [] && Insert([], E(2, 1000)) == [E(2, 1000)];
    assert Wake(c, 0) == c;
  }

  lemma FourthWaits(f: Kernel, third: Thread)
    requires f == FourthCreated(third) && third == Worker(Running, 5, 5, 24, None)
    ensures Schedule(SelfUnlocked(f), false, 0).Some?
    ensures var n := Schedule(SelfUnlocked(f), false, 0).value;
      n.active == 4 && Get(n, 4).priority == 5 && Get(n, 3).state == Ready && Get(n, 3).priority == 4
  {
    FourthIs(third);
    hide FourthCreated, Schedule;
    assert Insert(f.ready, E(3, 5)) == [E(0, LOWEST_PRIORITY), E(3, 5), E(4, 5)] by {
      assert f.ready[1..] == [E(4, 5)];
    }
    SelfUnlockDisorders(SelfUnlocked(f));
  }

  lemma FourthUnlocks(f: Kernel, third: Thread)
    requires f == FourthCreated(third) && third == Worker(Running, 5, 5, 24, None)
    ensures SchedulerInvariant.Run(f, SELF_UNLOCK, Reached(SelfUnlocked(f)))
  {
    FourthIs(third);
    hide FourthCreated, SchedulerInvariant.Run;
    SelfUnlockRun(f);
  }

  function SelfUnlockSteps(): seq<Step> {
    Prelude(3, 5, 23) + [SleepStep(0, 1000), TICK] + [CreateStep(5, AllGranted)] + SELF_UNLOCK
  }

  lemma SelfUnlockPriorities()
    ensures var steps := SelfUnlockSteps();
      forall i :: 0 <= i < |steps| && steps[i].CreateStep? ==> steps[i].priority != LOWEST_PRIORITY
  {
    NoUnlocks(3, 5, 23);
    hide Prelude;
  }

  /** Nobody but idle has priority 64 here. */
  lemma SelfUnlockExample() returns (steps: seq<Step>, k: Kernel)
    ensures SchedulerInvariant.Run(Boot(), steps, Reached(k))
    ensures forall i :: 0 <= i < |steps| && steps[i].CreateStep? ==> steps[i].priority != LOWEST_PRIORITY
    ensures Schedule(k, false, 0).Some?
    ensures var n := Schedule(k, false, 0).value;
      n.active == 4 && Get(n, 4).priority == 5 && Get(n, 3).state == Ready && Get(n, 3).priority == 4
  {
    var third := Worker(Running, 5, 5, 24, None);
    var f := FourthCreated(third);
    hide FourthCreated, SchedulerInvariant.Run, Prelude, Schedule, SelfUnlocked, Get;
    steps := SelfUnlockSteps();
    k := SelfUnlocked(f);
    FourthWaits(f, third);
    SelfUnlockPriorities();
    FourthReached(third);
    FourthUnlocks(f, third);
    RunThen(Boot(), Prelude(3, 5, 23) + [SleepStep(0, 1000), TICK] + [CreateStep(5, AllGranted)], f, SELF_UNLOCK, Reached(k));
  }

  lemma FourthReached(third: Thread)
    requires third == Worker(Running, 5, 5, 24, None)
    ensures SchedulerInvariant.Run(Boot(), Prelude(3, 5, 23) + [SleepStep(0, 1000), TICK] + [CreateStep(5, AllGranted)],
                                   Reached(FourthCreated(third)))
  {
    ThirdRun(3, 5, 23, 1000);
    assert AgeThread(Worker(Ready, 5, 5, 23, None)).(state := Running) == third;
    FourthIs(third);
    hide AfterSleep, FourthCreated, SchedulerInvariant.Run, Prelude, Next;
    RunStep(Boot(), Prelude(3, 5, 23) + [SleepStep(0, 1000), TICK],
            AfterSleep(3, 1000, Ready, third, 3, [E(0, LOWEST_PRIORITY)], AllOf(3, 5)),
            CreateStep(5, AllGranted), FourthCreated(third));
  }

  // ----- wake times beyond 16 bits ----------------------------------------------------------------

  lemma BothSleep()
    ensures var k := AfterSleep(1, 10, Ready, Worker(Running, 2, 2, 1, None), 3, [E(0, LOWEST_PRIORITY)], AllOf(1, 2));
      var late := Worker(Sleeping, 2, 2, 1, None).(wakeup := 65541);
      && Enabled(k, SleepStep(0, 65541))
      && Next(k, SleepStep(0, 65541)) == Some(AfterSleep(1, 10, Ready, late, 3, [E(0, LOWEST_PRIORITY)], AllOf(1, 2)))
  {
    hide Insert;
    var late := Worker(Sleeping, 2, 2, 1, None).(wakeup := 65541);
    var k := AfterSleep(1, 10, Ready, Worker(Running, 2, 2, 1, None), 3, [E(0, LOWEST_PRIORITY)], AllOf(1, 2));
    assert Sleep(k, 0, 65541).threads == AfterSleep(1, 10, Ready, late, 3, [E(0, LOWEST_PRIORITY)], AllOf(1, 2)).threads;
  }

  /** Idle runs; the table of the sleepers is sorted by 16-bit keys, 10 before 5. */
  function IdleWaits(): Kernel {
    AfterSleep(1, 10, Running, Worker(Sleeping, 2, 2, 0, None).(wakeup := 65541), 0, [], AllOf(1, 2)).(
      sleeping := [E(2, 10), E(3, 5)])
  }

  lemma IdleComes()
    ensures var late := Worker(Sleeping, 2, 2, 1, None).(wakeup := 65541);
      Next(AfterSleep(1, 10, Ready, late, 3, [E(0, LOWEST_PRIORITY)], AllOf(1, 2)), TICK) == Some(IdleWaits())
  {
    var late := Worker(Sleeping, 2, 2, 1, None).(wakeup := 65541);
    var k := AfterSleep(1, 10, Ready, late, 3, [E(0, LOWEST_PRIORITY)], AllOf(1, 2));
    var rested := AfterSleep(1, 10, Ready, late.(lastSched := 0), 3, [E(0, LOWEST_PRIORITY)], AllOf(1, 2));
    assert AgeFrom(k, 0) == AgeFrom(k, 1) == k;
    assert Age(k, false) == rested by {
      assert Put(k, 3, late.(lastSched := 0)).threads == rested.threads;
    }
    KeyOrder();
    var p := rested.(sleeping := [E(2, 10), E(3, 5)]);
    assert PutAway(rested) == p;
    assert Wake(p, 0) == p by {
      assert p.sleeping[..1] == [E(2, 10)];
    }
    var r := Elect(p).value;
    assert r.threads == IdleWaits().threads;
    assert r.ready == [];
  }

  lemma KeyOrder()
    ensures Insert([E(2, 10)], E(3, 5)) == [E(2, 10), E(3, 5)]
  {
    assert [E(2, 10)][1..] == [] && Insert([], E(3, 5)) == [E(3, 5)];
  }

  /** At the time 20, thread 2, which is due at 10, sleeps on behind thread 3, which is due at 65541. */
  lemma SleepsThroughItsTime()
    ensures Schedule(IdleWaits(), false, 20).Some?
    ensures var n := Schedule(IdleWaits(), false, 20).value; Get(n, 2).state == Sleeping && Get(n, 2).wakeup == 10
  {
    var k := IdleWaits();
    assert Age(k, false) == k;
    var p := PutAway(k);
    assert Insert([], E(0, LOWEST_PRIORITY)) == [E(0, LOWEST_PRIORITY)];
    KeyOrder();
    assert p.sleeping[..1] == [E(2, 10)];
    assert Wake(p, 20) == p;
  }

  lemma LateWakeupExample() returns (steps: seq<Step>, k: Kernel)
    ensures SchedulerInvariant.Run(Boot(), steps, Reached(k)) && SleepStep(0, 10) in steps && SleepStep(0, 65541) in steps
    ensures Schedule(k, false, 20).Some?
    ensures var n := Schedule(k, false, 20).value; Get(n, 2).state == Sleeping && Get(n, 2).wakeup == 10
  {
    hide SchedulerInvariant.Run, Prelude, Next, AfterSleep, Schedule, IdleWaits, Get;
    ThirdRun(1, 2, 0, 10);
    BothSleep();
    IdleComes();
    SleepsThroughItsTime();
    EnabledTwo(1, 2);
    var third := Worker(Running, 2, 2, 1, None);
    assert AgeThread(Worker(Ready, 2, 2, 0, None)).(state := Running) == third;
    var late := Worker(Sleeping, 2, 2, 1, None).(wakeup := 65541);
    var m := AfterSleep(1, 10, Ready, third, 3, [E(0, LOWEST_PRIORITY)], AllOf(1, 2));
    var s := AfterSleep(1, 10, Ready, late, 3, [E(0, LOWEST_PRIORITY)], AllOf(1, 2));
    var before := Prelude(1, 2, 0) + [SleepStep(0, 10), TICK];
    k := IdleWaits();
    RunStep(Boot(), before, m, SleepStep(0, 65541), s);
    RunStep(Boot(), before + [SleepStep(0, 65541)], s, TICK, k);
    steps := before + [SleepStep(0, 65541)] + [TICK];
    assert steps[|before|] == SleepStep(0, 65541) && steps[|before| - 2] == SleepStep(0, 10);
  }
}
