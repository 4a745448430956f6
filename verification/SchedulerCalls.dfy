/** What single calls leave in the records of the threads, and what that means for whole runs. */
module SchedulerCalls {
  import opened Basics
  import opened PriorityList
  import opened Waiters
  import opened SchedulerModel
  import opened SchedulerInvariant
  import opened SchedulerTiming
  import opened SchedulerPace
  import opened SchedulerAging
  import opened SchedulerOrder
  import opened SchedulerSleep
  import opened SchedulerFamily

  // ----- create_thread ------------------------------------------------------------------------------

  /** Thread x is recorded in r as in k, but for its children. */
  ghost predicate SameRecord(k: Kernel, r: Kernel, x: Tid) {
    x in k.threads && x in r.threads && r.threads[x] == k.threads[x].(children := r.threads[x].children)
  }

  /** create_thread makes a thread exactly if the priority is at most 64 and there is memory for all of it:
      ready, with that priority now and to start with, not aged, joined by nobody and without children of
      its own, the youngest child of its creator, in the active and the global table. Else nothing changes
      but the last pid, if it got that far. */
  lemma CreateRecords(k: Kernel, priority: nat, memory: Granted)
    requires Inv(k) && Enabled(k, CreateStep(priority, memory)) && !Fatal(k, CreateStep(priority, memory))
    ensures var r, t: Tid := Next(k, CreateStep(priority, memory)).value, k.lastPid + 1;
      if priority <= 64 && memory == AllGranted then
        && r.threads.Keys == k.threads.Keys + {t} && t !in k.threads && r.lastPid == t
        && r.threads[t].state == Ready && r.threads[t].priority == r.threads[t].initPrio == priority
        && r.threads[t].lastSched == 0 && r.threads[t].joiner.None? && r.threads[t].awaiting.None?
        && r.threads[t].parent == k.active && r.threads[t].children == []
        && (forall x :: x in k.threads ==> SameRecord(k, r, x))
        && multiset(r.ready) == multiset(k.ready) + multiset{Entry(t, priority)}
        && multiset(r.all) == multiset(k.all) + multiset{Entry(t, priority)}
        && (r.init == if k.active == k.idle then Some(t) else k.init)
      else
        r == k.(lastPid := if priority <= 64 && memory == SomeGranted then t else k.lastPid)
  {
    hide Inv, Insert, SameRecord;
    Ids(k);
    var t: Tid := k.lastPid + 1;
    InsertMultiset(k.ready, Entry(t, priority));
    InsertMultiset(k.all, Entry(t, priority));
    if priority <= 64 && memory == AllGranted {
      forall x | x in k.threads ensures SameRecord(k, Create(k, priority, memory), x) {
        CreateSame(k, priority, x);
      }
    }
  }

  lemma CreateSame(k: Kernel, priority: nat, x: Tid)
    requires x in k.threads && k.active in k.threads && k.lastPid + 1 !in k.threads && priority <= 64
    ensures SameRecord(k, Create(k, priority, AllGranted), x)
  {
    hide Insert;
  }

  // ----- waiting, waking, exiting -------------------------------------------------------------------

  /** The same threads exist, and all but a few are recorded as they were. */
  ghost predicate OnlyThese(k: Kernel, r: Kernel, changed: set<Tid>) {
    r.threads.Keys == k.threads.Keys && forall x :: x in k.threads && x !in changed ==> r.threads[x] == k.threads[x]
  }

  /** lock_thread and the enlisting: the caller is blocked for the reason given and comes last in the
      object's line. */
  lemma LockRecords(k: Kernel, o: nat, blockType: BlockType)
    requires Inv(k) && Executing(k) && k.active != k.idle
    ensures var r := Next(k, LockStep(o, blockType)).value;
      && r == k.(threads := r.threads, waiting := r.waiting) && OnlyThese(k, r, {k.active}) && k.active in k.threads
      && r.threads[k.active] == k.threads[k.active].(state := Blocked, blockType := blockType)
      && Order(LineOf(r, o)) == Order(LineOf(k, o)) + [k.active]
      && forall p: nat :: p != o ==> LineOf(r, p) == LineOf(k, p)
  {
    hide Order, Join, Tables, Global, Joins;
    JoinGoesLast(LineOf(k, o), k.active);
  }

  /** A delisting takes whoever came first off the object's line, if anybody is there, for the poster. */
  lemma DelistRecords(k: Kernel, o: nat) returns (u: Option<Tid>)
    ensures var r := Next(k, DelistStep(o)).value;
      && r == k.(waiting := r.waiting, transit := k.transit + Added(u))
      && Order(LineOf(k, o)) == Served(u) + Order(LineOf(r, o)) && (u.None? ==> Order(LineOf(k, o)) == [])
      && forall p: nat :: p != o ==> LineOf(r, p) == LineOf(k, p)
  {
    hide Order;
    u := TailOf(LineOf(k, o));
    LeavesFirst(LineOf(k, o));
  }

  /** unlock_thread makes the thread ready, by its own priority, and the poster holds it no longer. */
  lemma UnlockRecords(k: Kernel, t: Tid, blockType: BlockType)
    requires Inv(k) && Enabled(k, UnlockStep(t, blockType)) && !Fatal(k, UnlockStep(t, blockType))
    ensures var r := Next(k, UnlockStep(t, blockType)).value;
      && t in k.threads && r == k.(threads := r.threads, ready := r.ready, transit := k.transit - {t})
      && OnlyThese(k, r, {t}) && r.threads[t] == k.threads[t].(state := Ready)
      && multiset(r.ready) == multiset(k.ready) + multiset{Entry(t, k.threads[t].priority)}
  {
    hide Insert, Tables, Global, Joins;
    InsertMultiset(k.ready, Entry(t, Get(k, t).priority));
  }

  /** wait_thread on a child that did not exit yet records who waits for whom. */
  lemma WaitRecords(k: Kernel, t: Tid)
    requires Inv(k) && Enabled(k, WaitStep(t)) && Get(k, t).state != Zombie
    ensures var r := Next(k, WaitStep(t)).value;
      && r == k.(threads := r.threads) && k.active in k.threads && OnlyThese(k, r, {k.active, t})
      && r.threads[t] == k.threads[t].(joiner := Some(k.active))
      && r.threads[k.active] == k.threads[k.active].(state := Joining, awaiting := Some(t))
  {
    hide Inv;
    InvActors(k);
    ActiveExists(k);
  }

  /** thread_exit: the thread is a zombie, and is enlisted among them unless it is init; whoever waits for
      it becomes ready; nobody else changes. */
  lemma ExitRecords(k: Kernel)
    requires Inv(k) && Enabled(k, ExitStep)
    ensures var r, a := Next(k, ExitStep).value, k.active;
      a in k.threads && var j := k.threads[a].joiner;
      var wakes := Some(a) != k.init && j.Some? && Get(k, j.value).state == Joining;
      && r == k.(threads := r.threads, ready := r.ready, zombies := r.zombies)
      && r.threads.Keys == k.threads.Keys && r.threads[a] == k.threads[a].(state := Zombie)
      && multiset(r.zombies) == multiset(k.zombies) + (if Some(a) == k.init then multiset{} else multiset{Entry(a, 0)})
      && OnlyThese(k, r, if wakes then {a, j.value} else {a})
      && (!wakes ==> r.ready == k.ready)
      && (wakes ==> r.threads[j.value] == Get(k, j.value).(state := Ready))
      && (wakes ==> multiset(r.ready) == multiset(k.ready) + multiset{Entry(j.value, Get(k, j.value).priority)})
  {
    hide Inv, Insert;
    ActiveExists(k);
    InsertMultiset(k.zombies, Entry(k.active, 0));
    var j := Get(k, k.active).joiner;
    if j.Some? {
      InsertMultiset(k.ready, Entry(j.value, Get(k, j.value).priority));
    }
  }

  /** init takes the oldest child off its list, which it waits for next; the others stay, in their order. */
  lemma TakesOldest(k: Kernel) returns (u: Option<Tid>)
    requires Inv(k) && Enabled(k, TakeChildStep)
    ensures var r := Next(k, TakeChildStep).value;
      && r == k.(threads := r.threads) && k.active in k.threads && OnlyThese(k, r, {k.active})
      && r.threads[k.active] == k.threads[k.active].(children := r.threads[k.active].children)
      && ChildrenOf(k, k.active) == ChildrenOf(r, k.active) + Served(u)
      && (u.None? ==> ChildrenOf(k, k.active) == [])
  {
    hide Inv;
    ActiveExists(k);
    u := TailOf(Get(k, k.active).children);
  }

  // ----- the end of a time slice --------------------------------------------------------------------

  /** A scheduling interrupt starts the count of the thread that it finds active anew, and gives it its
      initial priority back if its time slice is over; unless a handler has put it back already. When it
      finds idle or init active, it leaves the priorities and counts of all threads alone. */
  lemma SliceRestores(k: Kernel, quantum: bool, now: nat)
    requires Inv(k)
    ensures Schedule(k, quantum, now).Some?
    ensures var r, a := Schedule(k, quantum, now).value, Get(k, k.active);
      && r.threads.Keys == k.threads.Keys && k.active in k.threads
      && (k.active != k.idle && Some(k.active) != k.init && a.state != Ready ==>
            && r.threads[k.active].lastSched == 0
            && r.threads[k.active].priority == (if quantum then a.initPrio else a.priority)
            && r.threads[k.active].initPrio == a.initPrio)
      && (k.active == k.idle || Some(k.active) == k.init ==>
            forall t :: t in k.threads ==> SamePace(k.threads[t], r.threads[t]))
  {
    hide Inv, Select, Age;
    ActiveExists(k);
    AgeOnly(k, quantum);
    AgedKeeps(k, Age(k, quantum));
    SelectStatesOnly(Age(k, quantum), now);
    if Exempt(k, k.active) {
      NobodyAges(k, quantum);
    } else if Get(k, k.active).state != Ready {
      ActiveAged(k, quantum);
    }
  }

  lemma NobodyAges(k: Kernel, quantum: bool)
    requires Exempt(k, k.active)
    ensures Age(k, quantum) == k
  {
  }

  lemma ActiveAged(k: Kernel, quantum: bool)
    requires Inv(k) && !Exempt(k, k.active) && Get(k, k.active).state != Ready && k.active in k.threads
    ensures var th := Get(Age(k, quantum), k.active);
      && th.lastSched == 0 && th.initPrio == k.threads[k.active].initPrio
      && th.priority == if quantum then k.threads[k.active].initPrio else k.threads[k.active].priority
  {
    assert k.active !in InState(k, Ready);
    forall j | 0 <= j < |k.ready| ensures k.ready[j].item != k.active {
      assert k.ready[j] in k.ready && k.ready[j].item in Members(k.ready);
    }
    hide Inv, AgeFrom;
    var th := k.threads[k.active];
    AgeFromElse(if quantum then Put(k, k.active, th.(priority := th.initPrio)) else k, 0, k.active);
  }

  // ----- idle and init ------------------------------------------------------------------------------

  ghost predicate Exempted(k: Kernel) {
    && (k.idle in k.threads ==> Fixed(k.threads[k.idle], 64))
    && (k.init.Some? && k.init.value in k.threads ==> Fixed(k.threads[k.init.value], 0))
  }

  lemma CallExempted(k: Kernel, step: Step)
    requires Inv(k) && Exempted(k) && Enabled(k, step) && !step.ScheduleStep? && Next(k, step).Some?
    ensures Exempted(Next(k, step).value)
  {
    hide Inv, Insert, Removed, Rest, Join, Calm;
    StepCalm(k, step);
    ActiveStays(k, step);
    InvActors(k);
    CalmSame(k, Next(k, step).value);
    CallInit(k, step);
    hide Next;
  }

  lemma InvActors(k: Kernel)
    requires Inv(k)
    ensures k.idle in k.threads && (k.init.Some? ==> k.init.value in k.threads)
  {
  }

  lemma CalmSame(k: Kernel, r: Kernel)
    requires Calm(k, r)
    ensures forall t :: t in r.threads && t in k.threads ==> SamePace(k.threads[t], r.threads[t])
  {
  }

  lemma CallInit(k: Kernel, step: Step)
    requires Inv(k) && Enabled(k, step) && !step.ScheduleStep? && Next(k, step).Some?
    ensures var r := Next(k, step).value;
      r.init == k.init || (r.init.Some? && r.init.value in r.threads && Fixed(r.threads[r.init.value], 0))
  {
    hide Inv, Insert, Removed, Rest, Join;
    Ids(k);
    InvJoins(k, k.active);
    if step.UnlockStep? {
      InvHeld(k, step.t);
    }
    if !step.CreateStep? {
      OthersInit(k, step);
    }
  }

  lemma ScheduleExempted(k: Kernel, quantum: bool, now: nat)
    requires Inv(k) && Exempted(k)
    ensures Schedule(k, quantum, now).Some? && Exempted(Schedule(k, quantum, now).value)
  {
    hide Inv, Select, Age;
    InvReady(k);
    AgeFixes(k, quantum, k.idle);
    if k.init.Some? {
      AgeFixes(k, quantum, k.init.value);
    }
    AgeOnly(k, quantum);
    AgedKeeps(k, Age(k, quantum));
    SelectStatesOnly(Age(k, quantum), now);
    SelectActors(Age(k, quantum), now);
    InvActors(k);
  }

  lemma InvReady(k: Kernel)
    requires Inv(k)
    ensures NoDup(k.ready)
  {
  }

  lemma {:induction false} RunExempted(k: Kernel, steps: seq<Step>, r: Outcome)
    requires Inv(k) && Exempted(k) && SchedulerInvariant.Run(k, steps, r)
    ensures r.Reached? ==> Inv(r.k) && Exempted(r.k)
    decreases |steps|
  {
    hide Inv, Exempted, Enabled, Next;
    if steps != [] {
      StepKeeps(k, steps[0]);
      if Next(k, steps[0]).Some? {
        StepExempted(k, steps[0]);
        RunExempted(Next(k, steps[0]).value, steps[1..], r);
      }
    }
  }

  lemma StepExempted(k: Kernel, step: Step)
    requires Inv(k) && Exempted(k) && Enabled(k, step) && Next(k, step).Some?
    ensures Exempted(Next(k, step).value)
  {
    hide Inv, Exempted, Schedule;
    if step.ScheduleStep? {
      ScheduleExempted(k, step.quantum, step.now);
    } else {
      CallExempted(k, step);
    }
  }

  /** In every run, whatever happens: idle stays at the lowest priority and init at the highest, and
      neither is ever counted. */
  lemma EveryRunExempts(steps: seq<Step>, r: Outcome)
    requires SchedulerInvariant.Run(Boot(), steps, r) && r.Reached?
    ensures var idle := Get(r.k, r.k.idle); idle.priority == idle.initPrio == 64 && idle.lastSched == 0
    ensures r.k.init.Some? ==>
      var init := Get(r.k, r.k.init.value); init.priority == init.initPrio == 0 && init.lastSched == 0
  {
    BootHolds();
    RunExempted(Boot(), steps, r);
    hide Inv;
    InvActors(r.k);
  }

  // ----- sleep --------------------------------------------------------------------------------------

  /** sleep records the time that it is told, in 32 bits, and nothing else; idle is refused. */
  lemma SleepRecords(k: Kernel, now: nat, ms: nat)
    requires Inv(k) && Executing(k)
    ensures var r := Next(k, SleepStep(now, ms)).value;
      && r == k.(threads := r.threads) && r.threads.Keys == k.threads.Keys && k.active in k.threads
      && (forall t :: t in k.threads && (t != k.active || t == k.idle) ==> r.threads[t] == k.threads[t])
      && (k.active != k.idle ==>
            r.threads[k.active] == k.threads[k.active].(state := Sleeping, wakeup := (now + ms) % 0x1_0000_0000))
  {
    hide Inv;
    Ids(k);
  }

  /** A thread that calls sleep for ms milliseconds is woken by the first wake pass at a time later than
      the sum, in every run in which the wake times of all sleepers are below 2^16 then. */
  lemma WakesInTime(before: seq<Step>, k: Kernel, now: nat, ms: nat, steps: seq<Step>, r: Outcome, quantum: bool, later: nat)
    requires SchedulerInvariant.Run(Boot(), before, Reached(k)) && Executing(k) && k.active != k.idle
    requires now + ms < 0x1_0000_0000 && SchedulerInvariant.Run(Sleep(k, now, ms), steps, r) && r.Reached?
    requires forall i :: 0 <= i < |steps| && steps[i].ScheduleStep? ==> steps[i].now <= now + ms
    requires forall t :: t in InState(r.k, Sleeping) ==> Get(r.k, t).wakeup < 0x1_0000
    requires later > now + ms
    ensures Get(r.k, k.active).state == Sleeping
    ensures Schedule(r.k, quantum, later).Some?
    ensures Get(Schedule(r.k, quantum, later).value, k.active).state in {Ready, Running}
  {
    hide Inv, SchedulerInvariant.Run, Boot, Sleep, Sleeps, Enabled, Next, Schedule, InState, PutAway, Wake, Age, DueSleepers;
    BootHolds();
    RunKeeps(Boot(), before, Reached(k));
    FallsAsleepNow(k, now, ms);
    RunStep(Boot(), before, k, SleepStep(now, ms), Sleep(k, now, ms));
    RunThen(Boot(), before + [SleepStep(now, ms)], Sleep(k, now, ms), steps, r);
    RunLeavesSleeper(Sleep(k, now, ms), steps, r, k.active, now + ms);
    RunKeeps(Sleep(k, now, ms), steps, r);
    EveryRunWakes(before + [SleepStep(now, ms)] + steps, quantum, later, r);
    WokenNow(r.k, quantum, later, k.active, now + ms);
  }

  lemma FallsAsleepNow(k: Kernel, now: nat, ms: nat)
    requires Inv(k) && Executing(k) && k.active != k.idle && now + ms < 0x1_0000_0000
    ensures Enabled(k, SleepStep(now, ms)) && Next(k, SleepStep(now, ms)) == Some(Sleep(k, now, ms))
    ensures Sleeps(Sleep(k, now, ms), k.active, now + ms) && Inv(Sleep(k, now, ms))
  {
    hide Inv;
    SleepKeeps(k, now, ms);
    Ids(k);
  }

  lemma WokenNow(k: Kernel, quantum: bool, later: nat, t: Tid, until: nat)
    requires Inv(k) && Sleeps(k, t, until) && until < later
    requires var p := PutAway(Age(k, quantum)); var w := Wake(p, later);
      DueSleepers(p, later) == DueSleepers(k, later) && InState(w, Ready) == InState(p, Ready) + DueSleepers(p, later)
    ensures Get(k, t).state == Sleeping
    ensures Schedule(k, quantum, later).Some?
    ensures Get(Schedule(k, quantum, later).value, t).state in {Ready, Running}
  {
    hide Inv, Age, PutAway, Wake;
    ScheduleKeeps(k, quantum, later);
    var w := Wake(PutAway(Age(k, quantum)), later);
    assert t in DueSleepers(k, later);
    assert t in InState(w, Ready);
  }
}
