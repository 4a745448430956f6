/** Where every thread's node is, in every reachable state of the scheduler. */
module SchedulerInvariant {
  import opened Basics
  import opened PriorityList
  import opened Waiters
  import opened SchedulerModel

  datatype Step =
    | CreateStep(priority: nat, memory: Granted)
    | SleepStep(now: nat, ms: nat)
    | LockStep(o: nat, blockType: BlockType)
    | DelistStep(o: nat)
    | UnlockStep(t: Tid, blockType: BlockType)
    | TakeChildStep
    | WaitStep(t: Tid)
    | FinishWaitStep
    | ExitStep
    | ScheduleStep(quantum: bool, now: nat)

  /** The active thread is executing its own code, outside wait_thread. */
  predicate Executing(k: Kernel) {
    Get(k, k.active).state == Running && Get(k, k.active).awaiting.None?
  }

  predicate OwnChild(k: Kernel, t: Tid) {
    t in k.threads && t != k.active && t != k.idle && k.threads[t].parent == k.active
  }

  /** A thread that called sleep, lock_thread, wait_thread or thread_exit goes on to schedule, and one
      that schedule brought back into wait_thread finishes that. Idle only creates init, with the highest
      priority; parents join each child once, init after it took the child off its list; a thread exits
      when its list of children is empty. Delisting and unlocking may also happen in an interrupt
      handler. */
  predicate Enabled(k: Kernel, step: Step) {
    match step
    case CreateStep(priority, _) =>
      Executing(k) && (k.active == k.idle ==> k.init.None? && priority == HIGHEST_PRIORITY)
    case SleepStep(_, _) => Executing(k)
    case LockStep(_, _) => Executing(k)
    case DelistStep(_) => true
    case UnlockStep(t, _) => t in k.transit
    case WaitStep(t) =>
      Executing(k) && k.active != k.idle && OwnChild(k, t) && Get(k, t).joiner.None?
    case TakeChildStep => Executing(k) && Some(k.active) == k.init
    case FinishWaitStep => Get(k, k.active).state == Running && Get(k, k.active).awaiting.Some?
    case ExitStep => Executing(k) && k.active != k.idle && Get(k, k.active).children == []
    case ScheduleStep(_, _) => true
  }

  /** The errors on which the callers of lock_thread, create_thread and unlock_thread panic: idle
      cannot wait, idle cannot do without init, and a poster must find the thread that it took still
      blocked for the same reason. */
  predicate Fatal(k: Kernel, step: Step) {
    match step
    case LockStep(_, _) => k.active == k.idle
    case CreateStep(_, memory) => k.active == k.idle && memory != AllGranted
    case UnlockStep(t, blockType) => t == k.idle || Get(k, t).state != Blocked || Get(k, t).blockType != blockType
    case _ => false
  }

  /** None stands for a panic. */
  function Next(k: Kernel, step: Step): Option<Kernel>
    requires Enabled(k, step)
  {
    if Fatal(k, step) then None
    else match step
    case CreateStep(priority, memory) => Some(Create(k, priority, memory))
    case SleepStep(now, ms) => Some(Sleep(k, now, ms))
    case LockStep(o, blockType) => Some(Lock(k, o, blockType))
    case DelistStep(o) => Some(Delist(k, o))
    case UnlockStep(t, blockType) => Some(Unlock(k, t, blockType))
    case TakeChildStep => Some(TakeChild(k))
    case WaitStep(t) => Some(Wait(k, t))
    case FinishWaitStep => Some(FinishWait(k))
    case ExitStep => Some(Exit(k))
    case ScheduleStep(quantum, now) => Schedule(k, quantum, now)
  }

  // ----- the invariant --------------------------------------------------------------------------

  ghost function InState(k: Kernel, state: ThreadState): set<Tid> {
    set t | t in k.threads && k.threads[t].state == state
  }

  ghost predicate Lists(q: Line, s: set<Tid>) {
    NoDup(q) && Members(q) == s
  }

  /** Ready, sleeping and zombie threads are in their tables, once and nowhere else; the active
      thread is put away only when it schedules, and init is never put away as a zombie. */
  ghost predicate Tables(k: Kernel) {
    && Lists(k.ready, InState(k, Ready))
    && Lists(k.sleeping, InState(k, Sleeping) - {k.active})
    && Lists(k.zombies, InState(k, Zombie) - (if k.init.Some? then {k.init.value} else {}))
    && InState(k, Running) <= {k.active}
  }

  /** The global table lists every thread that exists, and thread_count counts them. */
  ghost predicate Global(k: Kernel) {
    && Lists(k.all, k.threads.Keys)
    && k.threadCount == |k.threads|
    && (forall t :: t in k.threads ==> t <= k.lastPid)
  }

  ghost predicate WaitsOn(k: Kernel, t: Tid, o: nat) {
    o in k.waiting && t in Members(k.waiting[o])
  }

  /** A blocked thread stands in one waiting list or is held by a poster. */
  ghost predicate BlockedPlaces(k: Kernel) {
    && (forall o :: o in k.waiting ==> Proper(k.waiting[o]))
    && (forall t: Tid, o: nat :: WaitsOn(k, t, o) ==> t in InState(k, Blocked) && t !in k.transit)
    && (forall t: Tid, o: nat, p: nat :: WaitsOn(k, t, o) && WaitsOn(k, t, p) ==> o == p)
    && (forall t :: t in k.transit ==> t in InState(k, Blocked))
    && (forall t :: t in InState(k, Blocked) ==> t in k.transit || exists o :: WaitsOn(k, t, o))
  }

  /** A thread inside wait_thread waits for its own child, which records it as joiner; it is joining
      until the child has exited, and comes back only after that. */
  ghost predicate WaiterOk(k: Kernel, t: Tid) {
    t in k.threads ==>
      var th := k.threads[t];
      && (th.state == Joining ==> th.awaiting.Some?)
      && (th.awaiting.Some? ==>
            var c := th.awaiting.value;
            && c in k.threads && c != t && c != k.idle && Some(c) != k.init
            && k.threads[c].parent == t && k.threads[c].joiner == Some(t)
            && (k.threads[c].state == Zombie <==> th.state != Joining)
            && th.state in {Joining, Ready, Running})
  }

  /** Whoever is recorded as joiner is inside wait_thread for this thread. */
  ghost predicate JoinerOk(k: Kernel, c: Tid) {
    c in k.threads && k.threads[c].joiner.Some? ==>
      var t := k.threads[c].joiner.value; t in k.threads && k.threads[t].awaiting == Some(c)
  }

  ghost predicate Joins(k: Kernel) {
    forall t: Tid :: WaiterOk(k, t) && JoinerOk(k, t)
  }

  /** The children of a thread are threads that record it as their parent; init is idle's. */
  ghost predicate Family(k: Kernel) {
    && (forall t :: t in k.threads ==> NoDup(k.threads[t].children))
    && (forall t: Tid, c: Tid :: Child(k, t, c) ==> c in k.threads && c != t && c != k.idle && k.threads[c].parent == t)
    && (k.init.Some? && k.init.value in k.threads ==> k.threads[k.init.value].parent == k.idle)
  }

  ghost predicate Child(k: Kernel, t: Tid, c: Tid) {
    t in k.threads && c in Members(k.threads[t].children)
  }

  ghost predicate Actors(k: Kernel) {
    && k.active in k.threads && k.idle in k.threads
    && (k.init.Some? ==> k.init.value in k.threads && k.init.value != k.idle)
    && k.threads[k.idle].state in {Running, Ready}
    && k.threads[k.idle].awaiting.None?
  }

  ghost predicate Core(k: Kernel) {
    Actors(k) && Global(k) && BlockedPlaces(k) && Joins(k) && Family(k)
  }

  ghost predicate Inv(k: Kernel) {
    Core(k) && Tables(k)
  }

  // ----- steps that change the state of one thread -------------------------------------------------

  lemma PutState(k: Kernel, r: Kernel, t: Tid, th: Thread, state: ThreadState)
    requires r.threads == k.threads[t := th]
    ensures InState(r, state) == InState(k, state) - {t} + if th.state == state then {t} else {}
  {
  }

  lemma PutStates(k: Kernel, r: Kernel, t: Tid, th: Thread)
    requires r.threads == k.threads[t := th]
    ensures forall state :: InState(r, state) == InState(k, state) - {t} + if th.state == state then {t} else {}
  {
    forall state ensures InState(r, state) == InState(k, state) - {t} + if th.state == state then {t} else {} {
      PutState(k, r, t, th, state);
    }
  }

  lemma FourStates(k: Kernel, r: Kernel, t: Tid, th: Thread)
    requires r.threads == k.threads[t := th] && t in k.threads
    ensures InState(r, Ready) == InState(k, Ready) - {t} + if th.state == Ready then {t} else {}
    ensures InState(r, Sleeping) == InState(k, Sleeping) - {t} + if th.state == Sleeping then {t} else {}
    ensures InState(r, Zombie) == InState(k, Zombie) - {t} + if th.state == Zombie then {t} else {}
    ensures InState(r, Running) == InState(k, Running) - {t} + if th.state == Running then {t} else {}
    ensures forall state :: t in InState(k, state) <==> k.threads[t].state == state
  {
    PutStates(k, r, t, th);
  }

  /** The threads, lists and joins of r are those of k but for thread t, which exists in both. */
  ghost predicate OnlyThread(k: Kernel, r: Kernel, t: Tid, th: Thread) {
    && t in k.threads && r.threads == k.threads[t := th]
    && r.all == k.all && r.lastPid == k.lastPid && r.threadCount == k.threadCount
    && r.idle == k.idle && r.init == k.init
  }

  lemma OnlyThreadGlobal(k: Kernel, r: Kernel, t: Tid, th: Thread)
    requires OnlyThread(k, r, t, th) && Global(k)
    ensures Global(r)
  {
    assert r.threads.Keys == k.threads.Keys;
    assert |r.threads| == |r.threads.Keys| == |k.threads|;
  }

  lemma OnlyThreadFamily(k: Kernel, r: Kernel, t: Tid, th: Thread)
    requires OnlyThread(k, r, t, th) && Family(k)
    requires th.children == k.threads[t].children && th.parent == k.threads[t].parent
    ensures Family(r)
  {
    assert forall x: Tid, c: Tid :: Child(r, x, c) ==> Child(k, x, c);
  }

  /** Joins depend on the states of waiting and exited threads, on joiners and on awaited threads. */
  lemma OnlyThreadJoins(k: Kernel, r: Kernel, t: Tid, th: Thread)
    requires OnlyThread(k, r, t, th) && Joins(k)
    requires th.joiner == k.threads[t].joiner && th.awaiting == k.threads[t].awaiting
    requires th.parent == k.threads[t].parent
    requires th.state == Joining <==> k.threads[t].state == Joining
    requires th.state == Zombie <==> k.threads[t].state == Zombie
    requires th.awaiting.Some? ==> th.state in {Joining, Ready, Running}
    ensures Joins(r)
  {
    forall x: Tid ensures WaiterOk(r, x) && JoinerOk(r, x) {
      assert WaiterOk(k, x) && JoinerOk(k, x);
    }
  }

  lemma OnlyThreadBlocked(k: Kernel, r: Kernel, t: Tid, th: Thread)
    requires OnlyThread(k, r, t, th) && BlockedPlaces(k)
    requires th.state == Blocked <==> k.threads[t].state == Blocked
    requires r.waiting == k.waiting && r.transit == k.transit
    ensures BlockedPlaces(r)
  {
    assert InState(r, Blocked) == InState(k, Blocked);
    assert forall x: Tid, o: nat :: WaitsOn(r, x, o) <==> WaitsOn(k, x, o);
  }

  /** A thread that is not blocked, joining or a zombie goes to the active table. */
  lemma EnlistKeeps(k: Kernel, t: Tid)
    requires Core(k) && t in k.threads && k.threads[t].state in {Running, Sleeping}
    ensures Core(Enlist(k, t))
  {
    var r, th := Enlist(k, t), k.threads[t].(state := Ready);
    OnlyThreadGlobal(k, r, t, th);
    OnlyThreadBlocked(k, r, t, th);
    OnlyThreadJoins(k, r, t, th);
    OnlyThreadFamily(k, r, t, th);
  }

  // ----- select_thread --------------------------------------------------------------------------

  /** Between the put-away and the election nobody runs, and every sleeper is in its table. */
  ghost predicate TablesBetween(k: Kernel) {
    && Lists(k.ready, InState(k, Ready))
    && Lists(k.sleeping, InState(k, Sleeping))
    && Lists(k.zombies, InState(k, Zombie) - (if k.init.Some? then {k.init.value} else {}))
    && InState(k, Running) == {}
  }

  lemma PutAwayRunning(k: Kernel)
    requires Inv(k) && k.threads[k.active].state == Running
    ensures Core(PutAway(k)) && TablesBetween(PutAway(k))
  {
    var t, th := k.active, k.threads[k.active];
    EnlistKeeps(k, t);
    RunningPutAway(k, t, th);
  }

  lemma RunningPutAway(k: Kernel, t: Tid, th: Thread)
    requires Tables(k) && t == k.active && t in k.threads && th == k.threads[t] && th.state == Running
    ensures TablesBetween(Enlist(k, t))
  {
    hide NoDup, Insert;
    FourStates(k, Enlist(k, t), t, th.(state := Ready));
    InsertMembers(k.ready, Entry(t, th.priority));
  }

  lemma PutAwaySleeping(k: Kernel)
    requires Inv(k) && k.threads[k.active].state == Sleeping
    ensures Core(PutAway(k)) && TablesBetween(PutAway(k))
  {
    hide Global, BlockedPlaces, Joins, Family, NoDup, Insert;
    SameThreads(k, PutAway(k));
    InsertMembers(k.sleeping, Entry(k.active, SleepKey(k, k.active)));
  }

  lemma PutAwayKeeps(k: Kernel)
    requires Inv(k)
    ensures Core(PutAway(k)) && TablesBetween(PutAway(k))
  {
    var state := k.threads[k.active].state;
    if state == Running {
      PutAwayRunning(k);
    } else if state == Sleeping {
      PutAwaySleeping(k);
    } else {
      hide Global, BlockedPlaces, Joins, Family, NoDup;
      assert k.active !in InState(k, Running) && k.active !in InState(k, Sleeping);
    }
  }

  lemma SameThreads(k: Kernel, r: Kernel)
    requires r.threads == k.threads
    ensures forall state :: InState(r, state) == InState(k, state)
    ensures r == k.(ready := r.ready, sleeping := r.sleeping) && Core(k) ==> Core(r)
  {
    if r == k.(ready := r.ready, sleeping := r.sleeping) && Core(k) {
      assert forall x: Tid, c: Tid :: Child(r, x, c) <==> Child(k, x, c);
      assert forall x: Tid, o: nat :: WaitsOn(r, x, o) <==> WaitsOn(k, x, o);
      forall x: Tid ensures WaiterOk(r, x) && JoinerOk(r, x) {
        assert WaiterOk(k, x) && JoinerOk(k, x);
      }
    }
  }

  /** One turn of the wake loop: the sleeper at the tail goes to the active table. */
  lemma WokenKeeps(k: Kernel, t: Tid, r: Kernel)
    requires Core(k) && TablesBetween(k) && k.sleeping != [] && t == k.sleeping[|k.sleeping| - 1].item
    requires r == Enlist(k.(sleeping := k.sleeping[..|k.sleeping| - 1]), t)
    ensures t in k.threads && k.threads[t].state == Sleeping
    ensures Core(r) && TablesBetween(r)
  {
    hide Global, BlockedPlaces, Joins, Family, Actors, NoDup, Insert;
    var rest := k.(sleeping := k.sleeping[..|k.sleeping| - 1]);
    TailMembers(k.sleeping);
    SameThreads(k, rest);
    EnlistKeeps(rest, t);
    PutStates(rest, r, t, k.threads[t].(state := Ready));
    InsertMembers(k.ready, Entry(t, k.threads[t].priority));
  }

  lemma {:induction false} WakeKeeps(k: Kernel, now: nat)
    requires Core(k) && TablesBetween(k)
    ensures Core(Wake(k, now)) && TablesBetween(Wake(k, now))
    decreases |k.sleeping|
  {
    hide Global, BlockedPlaces, Joins, Family, Actors, NoDup, Insert, Enlist;
    if k.sleeping != [] {
      var t := k.sleeping[|k.sleeping| - 1].item;
      var rest := k.(sleeping := k.sleeping[..|k.sleeping| - 1]);
      if Get(k, t).wakeup < now {
        WokenKeeps(k, t, Enlist(rest, t));
        EnlistsReady(rest, t);
        WakeKeeps(Enlist(rest, t), now);
      } else {
        TailMembers(k.sleeping);
        InsertMembers(rest.sleeping, Entry(t, SleepKey(k, t)));
        SameThreads(k, Wake(k, now));
      }
    }
  }

  lemma EnlistsReady(k: Kernel, t: Tid)
    ensures Enlist(k, t).sleeping == k.sleeping
  {
  }

  lemma IdleReady(k: Kernel)
    requires Core(k) && TablesBetween(k)
    ensures k.idle in Members(k.ready) && k.ready != []
  {
    assert k.threads[k.idle].state == Ready by {
      assert k.idle !in InState(k, Running);
    }
    assert k.idle in InState(k, Ready);
  }

  lemma ElectCore(k: Kernel, t: Tid, q: Line)
    requires Core(k) && t in k.threads && k.threads[t].state == Ready
    ensures Core(SetState(k.(ready := q, active := t), t, Running))
  {
    var r, th := SetState(k.(ready := q, active := t), t, Running), k.threads[t].(state := Running);
    OnlyThreadGlobal(k, r, t, th);
    OnlyThreadBlocked(k, r, t, th);
    OnlyThreadJoins(k, r, t, th);
    OnlyThreadFamily(k, r, t, th);
  }

  /** An election never panics for want of a ready thread. */
  lemma ElectKeeps(k: Kernel)
    requires Core(k) && TablesBetween(k)
    ensures Elect(k).Some? && Inv(Elect(k).value)
    ensures Get(Elect(k).value, Elect(k).value.active).state == Running
  {
    IdleReady(k);
    TailMembers(k.ready);
    var t := k.ready[|k.ready| - 1].item;
    assert t in InState(k, Ready);
    ElectCore(k, t, k.ready[..|k.ready| - 1]);
    ElectTables(k, t);
  }

  lemma ElectTables(k: Kernel, t: Tid)
    requires TablesBetween(k) && k.ready != [] && t == k.ready[|k.ready| - 1].item && t in k.threads
    ensures Tables(Elect(k).value)
  {
    hide NoDup;
    TailMembers(k.ready);
    FourStates(k, Elect(k).value, t, k.threads[t].(state := Running));
  }

  // ----- aging ----------------------------------------------------------------------------------

  /** Only priorities, on threads and on nodes of the active table, and tick counts differ. */
  ghost predicate AgedOnly(k: Kernel, r: Kernel) {
    && r == k.(threads := r.threads, ready := r.ready)
    && r.threads.Keys == k.threads.Keys
    && (forall t :: t in k.threads ==>
          r.threads[t] == k.threads[t].(priority := r.threads[t].priority, lastSched := r.threads[t].lastSched))
    && Items(r.ready) == Items(k.ready)
  }

  lemma SameItems(q: Line, r: Line)
    requires Items(q) == Items(r)
    ensures Members(q) == Members(r) && (NoDup(q) <==> NoDup(r))
  {
    assert |q| == |Items(q)| == |Items(r)| == |r|;
    forall i | 0 <= i < |q| ensures q[i].item == r[i].item {
      assert Items(q)[i] == Items(r)[i];
    }
    forall t ensures t in Members(q) <==> t in Members(r) {
      if t in Members(q) {
        var i :| 0 <= i < |q| && q[i].item == t;
        assert r[i] in r;
      }
      if t in Members(r) {
        var i :| 0 <= i < |r| && r[i].item == t;
        assert q[i] in q;
      }
    }
  }

  lemma AgedKeeps(k: Kernel, r: Kernel)
    requires Inv(k) && AgedOnly(k, r)
    ensures Inv(r)
  {
    SameItems(k.ready, r.ready);
    assert forall state :: InState(r, state) == InState(k, state);
    assert forall x: Tid, c: Tid :: Child(r, x, c) <==> Child(k, x, c);
    assert forall x: Tid, o: nat :: WaitsOn(r, x, o) <==> WaitsOn(k, x, o);
    forall x: Tid ensures WaiterOk(r, x) && JoinerOk(r, x) {
      assert WaiterOk(k, x) && JoinerOk(k, x);
    }
    assert |r.threads| == |r.threads.Keys| == |k.threads|;
  }

  lemma {:induction false} AgeFromOnly(k: Kernel, i: nat)
    requires i <= |k.ready| && forall j :: 0 <= j < |k.ready| ==> k.ready[j].item in k.threads
    ensures AgedOnly(k, AgeFrom(k, i))
    decreases |k.ready| - i
  {
    if i < |k.ready| {
      var e := k.ready[i];
      if Exempt(k, e.item) {
        AgeFromOnly(k, i + 1);
      } else {
        var m := Put(k.(ready := k.ready[i := e.(prio := AgePrio(e.prio, Get(k, e.item)))]),
                     e.item, AgeThread(Get(k, e.item)));
        assert Items(m.ready) == Items(k.ready);
        assert forall j :: 0 <= j < |m.ready| ==> m.ready[j].item == k.ready[j].item;
        AgeFromOnly(m, i + 1);
      }
    }
  }

  lemma ReadyExist(k: Kernel)
    requires Inv(k)
    ensures forall j :: 0 <= j < |k.ready| ==> k.ready[j].item in k.threads
  {
    forall j | 0 <= j < |k.ready| ensures k.ready[j].item in k.threads {
      assert k.ready[j] in k.ready;
      assert k.ready[j].item in InState(k, Ready);
    }
  }

  lemma AgeOnlyOf(k: Kernel, quantum: bool)
    requires k.active in k.threads && forall j :: 0 <= j < |k.ready| ==> k.ready[j].item in k.threads
    ensures AgedOnly(k, Age(k, quantum))
  {
    if !Exempt(k, k.active) {
      var th := Get(k, k.active);
      AgeFromOnly(if quantum then Put(k, k.active, th.(priority := th.initPrio)) else k, 0);
    }
  }

  lemma AgeOnly(k: Kernel, quantum: bool)
    requires Inv(k)
    ensures AgedOnly(k, Age(k, quantum))
  {
    ReadyExist(k);
    AgeOnlyOf(k, quantum);
  }

  /** The scheduling interrupt always finds a thread to run, and leaves it running. */
  lemma ScheduleKeeps(k: Kernel, quantum: bool, now: nat)
    requires Inv(k)
    ensures Schedule(k, quantum, now).Some? && Inv(Schedule(k, quantum, now).value)
    ensures var r := Schedule(k, quantum, now).value; Get(r, r.active).state == Running
  {
    AgeOnly(k, quantum);
    AgedKeeps(k, Age(k, quantum));
    PutAwayKeeps(Age(k, quantum));
    WakeKeeps(PutAway(Age(k, quantum)), now);
    ElectKeeps(Wake(PutAway(Age(k, quantum)), now));
  }

  // ----- sleep, lock, unlock ----------------------------------------------------------------------

  /** A change of one thread's state that neither joins nor exits keeps everything but the tables
      and the places of the blocked. */
  lemma OnlyThreadRest(k: Kernel, r: Kernel, t: Tid, th: Thread)
    requires OnlyThread(k, r, t, th) && Global(k) && Joins(k) && Family(k)
    requires th.joiner == k.threads[t].joiner && th.awaiting == k.threads[t].awaiting
    requires th.children == k.threads[t].children && th.parent == k.threads[t].parent
    requires th.state !in {Joining, Zombie} && k.threads[t].state !in {Joining, Zombie}
    requires th.awaiting.Some? ==> th.state in {Ready, Running}
    ensures Global(r) && Joins(r) && Family(r)
  {
    OnlyThreadGlobal(k, r, t, th);
    OnlyThreadJoins(k, r, t, th);
    OnlyThreadFamily(k, r, t, th);
  }

  /** The active thread stops running without going to any table yet. */
  lemma StopTables(k: Kernel, r: Kernel, th: Thread)
    requires Tables(k) && k.active in k.threads && k.threads[k.active].state == Running
    requires r.threads == k.threads[k.active := th] && th.state !in {Running, Ready, Zombie}
    requires r.ready == k.ready && r.sleeping == k.sleeping && r.zombies == k.zombies
    requires r.init == k.init && r.active == k.active
    ensures Tables(r)
  {
    hide NoDup;
    FourStates(k, r, k.active, th);
  }

  lemma SleepKeeps(k: Kernel, now: nat, ms: nat)
    requires Inv(k) && Executing(k)
    ensures Inv(Sleep(k, now, ms))
  {
    hide Global, BlockedPlaces, Joins, Family, Tables;
    if k.active != k.idle {
      var r, t := Sleep(k, now, ms), k.active;
      var th := k.threads[t].(wakeup := (now + ms) % 0x1_0000_0000, state := Sleeping);
      OnlyThreadRest(k, r, t, th);
      OnlyThreadBlocked(k, r, t, th);
      StopTables(k, r, th);
    }
  }

  lemma NotWaiting(k: Kernel, t: Tid)
    requires BlockedPlaces(k) && t in k.threads && k.threads[t].state != Blocked
    ensures t !in k.transit && forall o: nat :: !WaitsOn(k, t, o)
  {
    assert t !in InState(k, Blocked);
  }

  lemma LockBlocked(k: Kernel, o: nat, t: Tid, th: Thread, r: Kernel)
    requires BlockedPlaces(k) && t in k.threads && k.threads[t].state != Blocked && th.state == Blocked
    requires r.threads == k.threads[t := th] && r.transit == k.transit
    requires r.waiting == k.waiting[o := Join(LineOf(k, o), t)]
    ensures BlockedPlaces(r)
  {
    PutState(k, r, t, th, Blocked);
    NotWaiting(k, t);
    assert Proper([]) && Members([]) == {};
    assert t !in Members(LineOf(k, o)) by { assert !WaitsOn(k, t, o); }
    JoinProper(LineOf(k, o), t);
    hide Join, Proper, InState, Members;
    forall x: Tid, p: nat ensures WaitsOn(r, x, p) <==> WaitsOn(k, x, p) || (x == t && p == o) {
      if p == o {
        assert WaitsOn(r, x, o) <==> x in Members(LineOf(k, o)) + {t};
      }
    }
    assert WaitsOn(r, t, o);
  }

  lemma LockKeeps(k: Kernel, o: nat, blockType: BlockType)
    requires Inv(k) && Executing(k)
    ensures Inv(Lock(k, o, blockType))
  {
    hide Global, BlockedPlaces, Joins, Family, Tables, Join;
    if k.active != k.idle {
      var r, t := Lock(k, o, blockType), k.active;
      var th := k.threads[t].(state := Blocked, blockType := blockType);
      LockBlocked(k, o, t, th, r);
      OnlyThreadRest(k, r, t, th);
      StopTables(k, r, th);
    }
  }

  lemma DelistKeeps(k: Kernel, o: nat)
    requires Inv(k)
    ensures Inv(Delist(k, o))
  {
    var r := Delist(k, o);
    DelistBlocked(k, o);
    hide BlockedPlaces;
    assert forall state :: InState(r, state) == InState(k, state);
    assert forall x: Tid, c: Tid :: Child(r, x, c) <==> Child(k, x, c);
    forall x: Tid ensures WaiterOk(r, x) && JoinerOk(r, x) {
      assert WaiterOk(k, x) && JoinerOk(k, x);
    }
  }

  lemma DelistBlocked(k: Kernel, o: nat)
    requires BlockedPlaces(k)
    ensures BlockedPlaces(Delist(k, o))
  {
    var r, u := Delist(k, o), Added(TailOf(LineOf(k, o)));
    assert Proper([]) && Members([]) == {};
    RestProper(LineOf(k, o));
    assert InState(r, Blocked) == InState(k, Blocked);
    assert forall x :: x in u ==> WaitsOn(k, x, o);
    forall x: Tid, p: nat ensures WaitsOn(r, x, p) <==> WaitsOn(k, x, p) && !(p == o && x in u) {
    }
  }

  lemma UnlockBlocked(k: Kernel, t: Tid)
    requires BlockedPlaces(k) && t in k.transit && t in k.threads
    ensures BlockedPlaces(Enlist(k, t).(transit := k.transit - {t}))
  {
    var r := Enlist(k, t).(transit := k.transit - {t});
    PutState(k, r, t, k.threads[t].(state := Ready), Blocked);
    assert forall x: Tid, p: nat :: WaitsOn(r, x, p) <==> WaitsOn(k, x, p);
  }

  /** A thread that stands in no table goes to the active table. */
  lemma ReadyTables(k: Kernel, r: Kernel, t: Tid, th: Thread, prio: nat)
    requires Tables(k) && t in k.threads && k.threads[t].state in {Blocked, Joining}
    requires r.threads == k.threads[t := th] && th.state == Ready
    requires r.ready == Insert(k.ready, Entry(t, prio)) && r.sleeping == k.sleeping && r.zombies == k.zombies
    requires r.init == k.init && r.active == k.active
    ensures Tables(r)
  {
    hide NoDup, Insert;
    FourStates(k, r, t, th);
    InsertMembers(k.ready, Entry(t, prio));
  }

  lemma Held(k: Kernel, t: Tid)
    requires BlockedPlaces(k) && t in k.transit
    ensures t in k.threads && k.threads[t].state == Blocked
  {
    assert t in InState(k, Blocked);
  }

  lemma UnlockKeeps(k: Kernel, t: Tid, blockType: BlockType)
    requires Inv(k) && t in k.transit
    ensures Inv(Unlock(k, t, blockType))
  {
    hide Global, BlockedPlaces, Joins, Family, Tables, Insert;
    Held(k, t);
    if t != k.idle && k.threads[t].blockType == blockType {
      var r, th := Unlock(k, t, blockType), k.threads[t].(state := Ready);
      UnlockBlocked(k, t);
      OnlyThreadRest(k, r, t, th);
      ReadyTables(k, r, t, th, k.threads[t].priority);
    }
  }

  // ----- wait_thread ------------------------------------------------------------------------------

  lemma RemovedMembers(q: Line, t: Tid)
    requires NoDup(q)
    ensures NoDup(Removed(q, t)) && Members(Removed(q, t)) == Members(q) - {t}
  {
    var i := IndexOf(q, t);
    if i < |q| {
      WithoutMembers(q, i);
    } else {
      assert forall e :: e in q ==> e.item != t;
    }
  }

  lemma GoneStates(k: Kernel, r: Kernel, t: Tid)
    requires r.threads == k.threads - {t}
    ensures forall state :: InState(r, state) == InState(k, state) - {t}
  {
    forall state ensures InState(r, state) == InState(k, state) - {t} {
    }
  }

  /** t has exited, and whoever waited for it is done waiting. */
  ghost predicate Finished(k: Kernel, t: Tid) {
    && t in k.threads && k.threads[t].state == Zombie && t != k.idle && Some(t) != k.init
    && forall x :: x in k.threads ==> k.threads[x].awaiting != Some(t)
  }

  /** As Joins, but t may record a joiner that is done with it. */
  ghost predicate JoinsBut(k: Kernel, t: Tid) {
    forall x: Tid :: WaiterOk(k, x) && (x != t ==> JoinerOk(k, x))
  }

  lemma CleanJoins(k: Kernel, t: Tid)
    requires JoinsBut(k, t) && Finished(k, t) && k.active in k.threads && t != k.active
    ensures Joins(Clean(k, t))
  {
    var r := Clean(k, t);
    assert WaiterOk(k, t);
    forall x: Tid ensures WaiterOk(r, x) && JoinerOk(r, x) {
      assert WaiterOk(k, x) && (x != t ==> JoinerOk(k, x));
    }
  }

  lemma CleanFamily(k: Kernel, t: Tid)
    requires Family(k) && t in k.threads && k.active in k.threads && t != k.active && k.threads[t].parent == k.active
    requires Some(t) != k.init
    ensures Family(Clean(k, t))
  {
    var r := Clean(k, t);
    RemovedMembers(k.threads[k.active].children, t);
    forall x: Tid, c: Tid ensures Child(r, x, c) ==> Child(k, x, c) && c != t {
      if Child(r, x, c) && c == t {
        assert Child(k, x, t);
      }
    }
  }

  lemma CleanTables(k: Kernel, t: Tid)
    requires Tables(k) && Finished(k, t) && k.active in k.threads && t != k.active
    ensures Tables(Clean(k, t))
  {
    var a := k.threads[k.active];
    var k1 := Put(k, k.active, a.(children := Removed(a.children, t)));
    hide NoDup, Removed;
    PutStates(k, k1, k.active, a.(children := Removed(a.children, t)));
    assert forall state :: InState(k1, state) == InState(k, state);
    GoneStates(k1, Clean(k, t), t);
    RemovedMembers(k.zombies, t);
    assert t !in InState(k, Ready) && t !in InState(k, Sleeping) && t !in InState(k, Running);
  }

  lemma CleanGlobal(k: Kernel, t: Tid)
    requires Global(k) && t in k.threads && k.active in k.threads && t != k.active
    ensures Global(Clean(k, t))
  {
    var r := Clean(k, t);
    RemovedMembers(k.all, t);
    assert r.threads.Keys == k.threads.Keys - {t};
    assert |r.threads| == |r.threads.Keys| && |k.threads| == |k.threads.Keys|;
  }

  lemma CleanBlocked(k: Kernel, t: Tid)
    requires BlockedPlaces(k) && t in k.threads && k.threads[t].state == Zombie && k.active in k.threads && t != k.active
    ensures BlockedPlaces(Clean(k, t))
  {
    var r := Clean(k, t);
    NotWaiting(k, t);
    assert InState(r, Blocked) == InState(k, Blocked);
    assert forall x: Tid, p: nat :: WaitsOn(r, x, p) <==> WaitsOn(k, x, p);
  }

  lemma CleanKeeps(k: Kernel, t: Tid)
    requires Actors(k) && Tables(k) && Global(k) && BlockedPlaces(k) && Family(k) && JoinsBut(k, t)
    requires Finished(k, t) && t != k.active && k.threads[t].parent == k.active
    ensures Inv(Clean(k, t))
  {
    hide Tables, Global, BlockedPlaces, Family, Joins, JoinsBut, Removed;
    CleanJoins(k, t);
    CleanFamily(k, t);
    CleanTables(k, t);
    CleanGlobal(k, t);
    CleanBlocked(k, t);
  }

  lemma TakeChildKeeps(k: Kernel)
    requires Inv(k) && Executing(k)
    ensures Inv(TakeChild(k))
  {
    var r, th := TakeChild(k), k.threads[k.active].(children := Rest(k.threads[k.active].children));
    TakenFamily(k, r, th);
    hide Global, BlockedPlaces, Joins, Family, Tables, Rest;
    OnlyThreadGlobal(k, r, k.active, th);
    OnlyThreadBlocked(k, r, k.active, th);
    OnlyThreadJoins(k, r, k.active, th);
    SameStateTables(k, r, k.active, th);
  }

  lemma TakenFamily(k: Kernel, r: Kernel, th: Thread)
    requires Family(k) && k.active in k.threads && OnlyThread(k, r, k.active, th)
    requires th == k.threads[k.active].(children := Rest(k.threads[k.active].children))
    ensures Family(r)
  {
    var q := k.threads[k.active].children;
    if q != [] {
      TailMembers(q);
    }
    assert forall x: Tid, c: Tid :: Child(r, x, c) ==> Child(k, x, c);
  }

  /** A thread that waits for its own child. */
  lemma ChildOf(k: Kernel, t: Tid)
    requires Inv(k) && k.active != k.idle && OwnChild(k, t)
    ensures t in k.threads && t != k.active && t != k.idle && k.threads[t].parent == k.active && Some(t) != k.init
  {
  }

  lemma JoinJoins(k: Kernel, t: Tid)
    requires Joins(k) && k.active in k.threads && t in k.threads && t != k.active && t != k.idle
    requires k.threads[k.active].state == Running && k.threads[k.active].awaiting.None?
    requires k.threads[t].joiner.None? && k.threads[t].state != Zombie
    requires k.threads[t].parent == k.active && Some(t) != k.init
    ensures Joins(Wait(k, t))
  {
    var r := Wait(k, t);
    forall x: Tid ensures WaiterOk(r, x) && JoinerOk(r, x) {
      assert WaiterOk(k, x) && JoinerOk(k, x) && WaiterOk(k, t) && JoinerOk(k, t);
    }
  }

  /** A change that leaves the thread's state alone leaves the tables alone. */
  lemma SameStateTables(k: Kernel, r: Kernel, t: Tid, th: Thread)
    requires Tables(k) && t in k.threads && r.threads == k.threads[t := th] && th.state == k.threads[t].state
    requires r.ready == k.ready && r.sleeping == k.sleeping && r.zombies == k.zombies
    requires r.init == k.init && r.active == k.active
    ensures Tables(r)
  {
    hide NoDup;
    PutStates(k, r, t, th);
    assert forall state :: InState(r, state) == InState(k, state);
  }

  /** Recording the joiner changes nothing else. */
  lemma RecordJoiner(k: Kernel, t: Tid)
    requires Actors(k) && Tables(k) && Global(k) && BlockedPlaces(k) && Family(k) && t in k.threads
    ensures var r := Put(k, t, k.threads[t].(joiner := Some(k.active)));
      Actors(r) && Tables(r) && Global(r) && BlockedPlaces(r) && Family(r)
  {
    var th := k.threads[t].(joiner := Some(k.active));
    var r := Put(k, t, th);
    hide Global, BlockedPlaces, Family, Tables;
    OnlyThreadGlobal(k, r, t, th);
    OnlyThreadBlocked(k, r, t, th);
    OnlyThreadFamily(k, r, t, th);
    SameStateTables(k, r, t, th);
  }

  lemma JoinFamily(k: Kernel, r: Kernel, t: Tid)
    requires Family(k) && k.active in k.threads && t in k.threads && k.threads[t].parent == k.active
    requires Some(t) != k.init
    requires OnlyThread(k, r, k.active, k.threads[k.active].(state := Joining, awaiting := Some(t)))
    ensures Family(r)
  {
    assert forall x: Tid, c: Tid :: Child(r, x, c) <==> Child(k, x, c);
  }

  lemma JoinKeeps(k: Kernel, t: Tid)
    requires Inv(k) && Executing(k) && k.active != k.idle && OwnChild(k, t)
    requires Get(k, t).joiner.None? && Get(k, t).state != Zombie
    ensures Inv(Wait(k, t))
  {
    ChildOf(k, t);
    hide Joins, Global, BlockedPlaces, Family, Tables;
    JoinJoins(k, t);
    RecordJoiner(k, t);
    JoinRest(Put(k, t, k.threads[t].(joiner := Some(k.active))), t, Wait(k, t));
  }

  lemma JoinRest(k: Kernel, t: Tid, r: Kernel)
    requires Actors(k) && Tables(k) && Global(k) && BlockedPlaces(k) && Family(k)
    requires k.active != k.idle && k.threads[k.active].state == Running
    requires t in k.threads && t != k.active && k.threads[t].parent == k.active && Some(t) != k.init
    requires r == Put(k, k.active, k.threads[k.active].(state := Joining, awaiting := Some(t)))
    ensures Actors(r) && Tables(r) && Global(r) && BlockedPlaces(r) && Family(r)
  {
    var th := k.threads[k.active].(state := Joining, awaiting := Some(t));
    hide Global, BlockedPlaces, Family, Tables;
    OnlyThreadGlobal(k, r, k.active, th);
    OnlyThreadBlocked(k, r, k.active, th);
    JoinFamily(k, r, t);
    StopTables(k, r, th);
  }

  lemma WaitKeeps(k: Kernel, t: Tid)
    requires Inv(k) && Enabled(k, WaitStep(t))
    ensures Inv(Wait(k, t))
  {
    ChildOf(k, t);
    if k.threads[t].state == Zombie {
      forall x | x in k.threads ensures k.threads[x].awaiting != Some(t) {
        assert WaiterOk(k, x);
      }
      CleanKeeps(k, t);
    } else {
      JoinKeeps(k, t);
    }
  }

  lemma UnawaitJoins(k: Kernel, t: Tid)
    requires Joins(k) && k.active in k.threads && k.threads[k.active].state == Running
    requires k.threads[k.active].awaiting == Some(t)
    ensures var r := Put(k, k.active, k.threads[k.active].(awaiting := None));
      && JoinsBut(r, t) && t != k.active && Finished(r, t) && r.threads[t].parent == k.active
  {
    var r := Put(k, k.active, k.threads[k.active].(awaiting := None));
    assert WaiterOk(k, k.active);
    forall x: Tid ensures WaiterOk(r, x) && (x != t ==> JoinerOk(r, x)) {
      assert WaiterOk(k, x) && JoinerOk(k, x);
    }
    forall x | x in r.threads ensures r.threads[x].awaiting != Some(t) {
      assert WaiterOk(k, x);
    }
  }

  /** The thread that was waited for has exited by the time the waiting thread runs again. */
  lemma FinishWaitKeeps(k: Kernel)
    requires Inv(k) && Enabled(k, FinishWaitStep)
    ensures Get(k, Get(k, k.active).awaiting.value).state == Zombie
    ensures Inv(FinishWait(k))
  {
    var t := k.threads[k.active].awaiting.value;
    var th := k.threads[k.active].(awaiting := None);
    var r := Put(k, k.active, th);
    UnawaitJoins(k, t);
    UnawaitRest(k, r, th);
    hide Global, BlockedPlaces, Joins, Family, JoinsBut, Tables;
    CleanKeeps(r, t);
  }

  lemma UnawaitRest(k: Kernel, r: Kernel, th: Thread)
    requires Actors(k) && Tables(k) && Global(k) && BlockedPlaces(k) && Family(k)
    requires th == k.threads[k.active].(awaiting := None) && r == Put(k, k.active, th)
    ensures Actors(r) && Tables(r) && Global(r) && BlockedPlaces(r) && Family(r)
  {
    OnlyThreadGlobal(k, r, k.active, th);
    OnlyThreadBlocked(k, r, k.active, th);
    OnlyThreadFamily(k, r, k.active, th);
    hide Global, BlockedPlaces, Family, Tables;
    SameStateTables(k, r, k.active, th);
  }

  // ----- thread_exit ------------------------------------------------------------------------------

  /** An exiting thread goes to the zombie table, unless it is init. */
  lemma ZombieTables(k: Kernel, r: Kernel, th: Thread)
    requires Tables(k) && k.active in k.threads && k.threads[k.active].state == Running
    requires r.threads == k.threads[k.active := th] && th.state == Zombie
    requires r.zombies == if Some(k.active) == k.init then k.zombies else Insert(k.zombies, Entry(k.active, 0))
    requires r.ready == k.ready && r.sleeping == k.sleeping && r.init == k.init && r.active == k.active
    ensures Tables(r)
  {
    hide NoDup, Insert;
    FourStates(k, r, k.active, th);
    InsertMembers(k.zombies, Entry(k.active, 0));
  }

  /** The joiner that an exit wakes, if any. */
  function Woken(k: Kernel): Option<Tid> {
    var j := Get(k, k.active).joiner;
    if Some(k.active) != k.init && j.Some? && Get(k, j.value).state == Joining then j else None
  }

  /** An exit makes its joiner ready and its thread a zombie. */
  ghost predicate ExitThreads(k: Kernel, r: Kernel) {
    && k.active in k.threads && r.idle == k.idle && r.init == k.init && r.threads.Keys == k.threads.Keys
    && forall x :: x in k.threads ==>
      r.threads[x] == k.threads[x].(state := if x == k.active then Zombie else if Some(x) == Woken(k) then Ready
                                             else k.threads[x].state)
  }

  lemma ExitIs(k: Kernel)
    requires k.active in k.threads && k.threads[k.active].state == Running
    ensures ExitThreads(k, Exit(k))
  {
    hide Insert;
  }

  /** Whoever records a joiner is not gone without waking it. */
  lemma ExitJoins(k: Kernel, r: Kernel)
    requires Joins(k) && ExitThreads(k, r) && k.threads[k.active].state == Running
    requires k.threads[k.active].awaiting.None? && (k.init.Some? ==> k.init.value in k.threads)
    ensures Joins(r)
  {
    forall x: Tid ensures WaiterOk(r, x) && JoinerOk(r, x) {
      ExitJoinsAt(k, r, x);
    }
  }

  lemma ExitJoinsAt(k: Kernel, r: Kernel, x: Tid)
    requires Joins(k) && ExitThreads(k, r) && k.threads[k.active].state == Running
    requires k.threads[k.active].awaiting.None? && (k.init.Some? ==> k.init.value in k.threads)
    ensures WaiterOk(r, x) && JoinerOk(r, x)
  {
    hide Joins;
    JoinsAt(k, k.active);
    JoinsAt(k, x);
    if k.threads[k.active].joiner.Some? {
      JoinsAt(k, k.threads[k.active].joiner.value);
    }
  }

  lemma JoinsAt(k: Kernel, x: Tid)
    requires Joins(k)
    ensures WaiterOk(k, x) && JoinerOk(k, x)
  {
  }

  lemma ZombieRest(k: Kernel, r: Kernel, th: Thread)
    requires Actors(k) && Tables(k) && Global(k) && BlockedPlaces(k) && Family(k)
    requires k.threads[k.active].state == Running && k.active != k.idle
    requires th == k.threads[k.active].(state := Zombie) && r.threads == k.threads[k.active := th]
    requires r == k.(threads := r.threads, zombies := r.zombies)
    requires r.zombies == if Some(k.active) == k.init then k.zombies else Insert(k.zombies, Entry(k.active, 0))
    ensures Actors(r) && Tables(r) && Global(r) && BlockedPlaces(r) && Family(r)
  {
    hide Global, BlockedPlaces, Family, Tables, Insert;
    OnlyThreadGlobal(k, r, k.active, th);
    OnlyThreadBlocked(k, r, k.active, th);
    OnlyThreadFamily(k, r, k.active, th);
    ZombieTables(k, r, th);
  }

  lemma WakeJoiner(k: Kernel, j: Tid)
    requires Actors(k) && Tables(k) && Global(k) && BlockedPlaces(k) && Family(k)
    requires j in k.threads && k.threads[j].state == Joining
    ensures var r := Enlist(k, j); Actors(r) && Tables(r) && Global(r) && BlockedPlaces(r) && Family(r)
  {
    var th := k.threads[j].(state := Ready);
    hide Global, BlockedPlaces, Family, Tables, Insert;
    OnlyThreadGlobal(k, Enlist(k, j), j, th);
    OnlyThreadBlocked(k, Enlist(k, j), j, th);
    OnlyThreadFamily(k, Enlist(k, j), j, th);
    ReadyTables(k, Enlist(k, j), j, th, k.threads[j].priority);
  }

  lemma ExitKeeps(k: Kernel)
    requires Inv(k) && Enabled(k, ExitStep)
    ensures Inv(Exit(k))
  {
    hide Global, BlockedPlaces, Joins, Family, Tables, Insert;
    ExitIs(k);
    ExitJoins(k, Exit(k));
    JoinsAt(k, k.active);
    var j := k.threads[k.active].joiner;
    var th := k.threads[k.active].(state := Zombie);
    if Some(k.active) != k.init && j.Some? && Get(k, j.value).state == Joining {
      WakeJoiner(k, j.value);
      ZombieRest(Enlist(k, j.value), Exit(k), th);
    } else {
      ZombieRest(k, Exit(k), th);
    }
  }

  // ----- create_thread ----------------------------------------------------------------------------

  ghost predicate Created(k: Kernel, r: Kernel, priority: nat) {
    && k.active in k.threads
    && r == Create(k, priority, AllGranted) && priority <= LOWEST_PRIORITY
    && (k.active == k.idle ==> k.init.None?)
  }

  lemma CreateStates(k: Kernel, r: Kernel, t: Tid, a: Thread, th: Thread)
    requires t !in k.threads && k.active in k.threads && a.state == k.threads[k.active].state
    requires r.threads == k.threads[k.active := a][t := th] && th.state == Ready
    ensures forall state :: InState(r, state) == InState(k, state) + if state == Ready then {t} else {}
    ensures forall state :: t !in InState(k, state)
  {
  }

  lemma CreateTables(k: Kernel, r: Kernel, t: Tid, a: Thread, th: Thread, prio: nat)
    requires Tables(k) && t !in k.threads && k.active in k.threads && a.state == k.threads[k.active].state
    requires r.threads == k.threads[k.active := a][t := th] && th.state == Ready
    requires r.ready == Insert(k.ready, Entry(t, prio)) && r.sleeping == k.sleeping && r.zombies == k.zombies
    requires r.active == k.active && (r.init == k.init || (k.init.None? && r.init == Some(t)))
    ensures Tables(r)
  {
    hide NoDup, Insert, InState, Members;
    CreateStates(k, r, t, a, th);
    InsertMembers(k.ready, Entry(t, prio));
    assert InState(r, Zombie) == InState(k, Zombie);
  }

  lemma CreateGlobal(k: Kernel, r: Kernel, t: Tid, a: Thread, th: Thread, prio: nat)
    requires Global(k) && t == k.lastPid + 1 && k.active in k.threads
    requires r.threads == k.threads[k.active := a][t := th]
    requires r.all == Insert(k.all, Entry(t, prio)) && r.threadCount == k.threadCount + 1 && r.lastPid == t
    ensures Global(r)
  {
    hide NoDup, Insert, Members;
    assert t !in Members(k.all);
    InsertMembers(k.all, Entry(t, prio));
    KeysAdded(k.threads, k.active, a, t, th);
  }

  lemma KeysAdded(m: map<Tid, Thread>, x: Tid, a: Thread, t: Tid, th: Thread)
    requires x in m && t !in m
    ensures m[x := a][t := th].Keys == m.Keys + {t} && |m[x := a][t := th]| == |m| + 1
  {
    assert m[x := a][t := th].Keys == m.Keys + {t};
    assert |m[x := a][t := th]| == |m[x := a][t := th].Keys| && |m| == |m.Keys|;
  }

  lemma CreateJoins(k: Kernel, r: Kernel, priority: nat)
    requires Created(k, r, priority) && Joins(k) && k.lastPid + 1 !in k.threads
    ensures Joins(r)
  {
    forall x: Tid ensures WaiterOk(r, x) && JoinerOk(r, x) {
      assert WaiterOk(k, x) && JoinerOk(k, x);
    }
  }

  lemma CreateFamily(k: Kernel, r: Kernel, priority: nat)
    requires Created(k, r, priority) && Family(k) && k.lastPid + 1 !in k.threads && k.idle in k.threads
    requires k.init.Some? ==> k.init.value in k.threads
    ensures Family(r)
  {
    hide Insert;
    var t: Tid := k.lastPid + 1;
    var a := k.threads[k.active];
    assert !Child(k, k.active, t);
    InsertMembers(a.children, Entry(t, 0));
    assert r.threads.Keys == k.threads.Keys + {t};
    forall x: Tid, c: Tid ensures Child(r, x, c) ==> Child(k, x, c) || (x == k.active && c == t) {
    }
    assert Members([]) == {};
  }

  lemma CreateBlocked(k: Kernel, r: Kernel, priority: nat)
    requires Created(k, r, priority) && BlockedPlaces(k) && k.lastPid + 1 !in k.threads
    ensures BlockedPlaces(r)
  {
    assert InState(r, Blocked) == InState(k, Blocked);
    assert forall x: Tid, o: nat :: WaitsOn(r, x, o) <==> WaitsOn(k, x, o);
  }

  lemma PidOnly(k: Kernel, r: Kernel)
    requires Core(k) && r == k.(lastPid := k.lastPid + 1)
    ensures Core(r)
  {
    assert InState(r, Blocked) == InState(k, Blocked);
    assert forall x: Tid, c: Tid :: Child(r, x, c) <==> Child(k, x, c);
    assert forall x: Tid, o: nat :: WaitsOn(r, x, o) <==> WaitsOn(k, x, o);
    forall x: Tid ensures WaiterOk(r, x) && JoinerOk(r, x) {
      assert WaiterOk(k, x) && JoinerOk(k, x);
    }
  }

  lemma NewPid(k: Kernel)
    requires Global(k)
    ensures k.lastPid + 1 !in k.threads
  {
  }

  lemma CreateAllKeeps(k: Kernel, priority: nat)
    requires Inv(k) && Enabled(k, CreateStep(priority, AllGranted)) && priority <= LOWEST_PRIORITY
    ensures Inv(Create(k, priority, AllGranted))
  {
    hide Global, BlockedPlaces, Joins, Family, Tables, Insert;
    var r := Create(k, priority, AllGranted);
    NewPid(k);
    var a := r.threads[k.active];
    CreateTables(k, r, k.lastPid + 1, a, r.threads[r.lastPid], priority);
    CreateGlobal(k, r, k.lastPid + 1, a, r.threads[r.lastPid], priority);
    CreateJoins(k, r, priority);
    CreateFamily(k, r, priority);
    CreateBlocked(k, r, priority);
  }

  lemma PidTables(k: Kernel, r: Kernel)
    requires Tables(k) && r == k.(lastPid := k.lastPid + 1)
    ensures Tables(r)
  {
    hide NoDup;
    assert forall state :: InState(r, state) == InState(k, state);
  }

  lemma CreateKeeps(k: Kernel, priority: nat, memory: Granted)
    requires Inv(k) && Enabled(k, CreateStep(priority, memory))
    ensures Inv(Create(k, priority, memory))
  {
    hide Core, Tables;
    if priority <= LOWEST_PRIORITY && memory == AllGranted {
      CreateAllKeeps(k, priority);
    } else if priority <= LOWEST_PRIORITY && memory == SomeGranted {
      var r := k.(lastPid := k.lastPid + 1);
      PidTables(k, r);
      PidOnly(k, r);
    }
  }

  // ----- all runs ---------------------------------------------------------------------------------

  /** A step panics for the three reasons given and for no other, and keeps the invariant else. */
  lemma StepKeeps(k: Kernel, step: Step)
    requires Inv(k) && Enabled(k, step)
    ensures Next(k, step).None? <==> Fatal(k, step)
    ensures Next(k, step).Some? ==> Inv(Next(k, step).value)
  {
    hide Inv, Create, Sleep, Lock, Delist, Unlock, TakeChild, Wait, FinishWait, Exit, Schedule, OwnChild;
    match step {
      case CreateStep(priority, memory) => CreateKeeps(k, priority, memory);
      case SleepStep(now, ms) => SleepKeeps(k, now, ms);
      case LockStep(o, blockType) => LockKeeps(k, o, blockType);
      case DelistStep(o) => DelistKeeps(k, o);
      case UnlockStep(t, blockType) => UnlockKeeps(k, t, blockType);
      case TakeChildStep => TakeChildKeeps(k);
      case WaitStep(t) => WaitKeeps(k, t);
      case FinishWaitStep => FinishWaitKeeps(k);
      case ExitStep => ExitKeeps(k);
      case ScheduleStep(quantum, now) => ScheduleKeeps(k, quantum, now);
    }
  }

  // ----- parts of the invariant ---------------------------------------------------------------------

  lemma Ids(k: Kernel)
    requires Inv(k)
    ensures k.active in k.threads && k.idle in k.threads && k.lastPid + 1 !in k.threads
  {
  }

  lemma InvJoins(k: Kernel, x: Tid)
    requires Inv(k)
    ensures WaiterOk(k, x) && JoinerOk(k, x)
  {
  }

  lemma InvHeld(k: Kernel, t: Tid)
    requires Inv(k) && t in k.transit
    ensures t in k.threads && k.threads[t].state == Blocked
  {
    Held(k, t);
  }

  /** A run either goes on from state to state or ends in a panic. */
  datatype Outcome = Reached(k: Kernel) | Panicked

  ghost predicate Run(k: Kernel, steps: seq<Step>, r: Outcome)
    decreases |steps|
  {
    if steps == [] then r == Reached(k)
    else
      Enabled(k, steps[0])
      && match Next(k, steps[0])
         case None => r == Panicked
         case Some(n) => Run(n, steps[1..], r)
  }

  lemma OneStep(k: Kernel, step: Step, n: Kernel)
    requires Enabled(k, step) && Next(k, step) == Some(n)
    ensures Run(k, [step], Reached(n))
  {
    assert [step][1..] == [];
    assert Run(n, [], Reached(n));
  }

  lemma {:induction false} RunThen(k: Kernel, a: seq<Step>, n: Kernel, b: seq<Step>, r: Outcome)
    requires Run(k, a, Reached(n)) && Run(n, b, r)
    ensures Run(k, a + b, r)
    decreases |a|
  {
    hide Enabled, Next;
    if a == [] {
      assert a + b == b;
    } else {
      RunThen(Next(k, a[0]).value, a[1..], n, b, r);
      assert (a + b)[1..] == a[1..] + b;
    }
  }

  lemma RunStep(k: Kernel, a: seq<Step>, n: Kernel, step: Step, m: Kernel)
    requires Run(k, a, Reached(n)) && Enabled(n, step) && Next(n, step) == Some(m)
    ensures Run(k, a + [step], Reached(m))
  {
    hide Enabled, Next;
    OneStep(n, step, m);
    RunThen(k, a, n, [step], Reached(m));
  }

  /** A fatal step comes up in the run. */
  predicate MeetsFatal(k: Kernel, steps: seq<Step>)
    decreases |steps|
  {
    steps != [] && Enabled(k, steps[0])
    && (Fatal(k, steps[0]) || (Next(k, steps[0]).Some? && MeetsFatal(Next(k, steps[0]).value, steps[1..])))
  }

  lemma {:induction false} RunKeeps(k: Kernel, steps: seq<Step>, r: Outcome)
    requires Inv(k) && Run(k, steps, r)
    ensures r.Reached? ==> Inv(r.k)
    ensures r.Panicked? <==> MeetsFatal(k, steps)
    decreases |steps|
  {
    hide Inv, Enabled, Fatal, Next;
    if steps != [] {
      StepKeeps(k, steps[0]);
      if Next(k, steps[0]).Some? {
        RunKeeps(Next(k, steps[0]).value, steps[1..], r);
      }
    }
  }

  lemma BootTables()
    ensures Tables(Boot()) && Actors(Boot())
  {
    assert Members([]) == {};
    assert InState(Boot(), Running) == {0};
  }

  lemma BootGlobal()
    ensures Global(Boot())
  {
    var q := [Entry(0, LOWEST_PRIORITY)];
    assert q[0] in q;
    assert Members(q) == {0};
  }

  lemma BootThreads()
    ensures BlockedPlaces(Boot()) && Joins(Boot()) && Family(Boot())
  {
    assert Members([]) == {};
  }

  lemma BootHolds()
    ensures Inv(Boot())
  {
    hide *;
    BootTables();
    BootGlobal();
    BootThreads();
    BootIs(Boot());
  }

  lemma BootIs(k: Kernel)
    requires Tables(k) && Actors(k) && Global(k) && BlockedPlaces(k) && Joins(k) && Family(k)
    ensures Inv(k)
  {
    hide Tables, Actors, Global, BlockedPlaces, Joins, Family;
  }

  /** A run panics if and only if a fatal step comes up: never in select_thread, for idle is always
      active or in the active table. In every state reached every thread's node is where the thread's
      state says. */
  lemma EveryRun(steps: seq<Step>, r: Outcome)
    requires Run(Boot(), steps, r)
    ensures r.Panicked? <==> MeetsFatal(Boot(), steps)
    ensures r.Reached? ==> Inv(r.k) && (r.k.active == r.k.idle || r.k.idle in Members(r.k.ready))
  {
    BootHolds();
    RunKeeps(Boot(), steps, r);
    if r.Reached? {
      IdleThere(r.k);
    }
  }

  lemma IdleThere(k: Kernel)
    requires Inv(k)
    ensures k.active == k.idle || k.idle in Members(k.ready)
  {
    if k.active != k.idle {
      assert k.idle !in InState(k, Running);
      assert k.idle in InState(k, Ready);
    }
  }

  /** The active thread runs, alone; every ready, sleeping or zombie thread but init is in the matching
      table only; and thread_count is right. */
  ghost predicate Settled(n: Kernel) {
    && InState(n, Running) == {n.active}
    && Lists(n.ready, InState(n, Ready)) && Lists(n.sleeping, InState(n, Sleeping))
    && Lists(n.zombies, InState(n, Zombie) - (if n.init.Some? then {n.init.value} else {}))
    && BlockedPlaces(n) && Joins(n)
    && n.threadCount == |n.all|
  }

  lemma RunningSettles(n: Kernel)
    requires Inv(n) && Get(n, n.active).state == Running
    ensures Settled(n)
  {
    hide BlockedPlaces, Joins, Family, NoDup;
    assert n.active in InState(n, Running);
    assert n.active !in InState(n, Sleeping);
    DistinctLength(n.all);
  }

  /** What every return of select_thread leaves, in every run. */
  lemma AfterSelect(steps: seq<Step>, quantum: bool, now: nat, r: Outcome)
    requires Run(Boot(), steps, r) && r.Reached?
    ensures Schedule(r.k, quantum, now).Some? && Settled(Schedule(r.k, quantum, now).value)
  {
    hide Run, Inv, Schedule, Settled;
    EveryRun(steps, r);
    ScheduleKeeps(r.k, quantum, now);
    RunningSettles(Schedule(r.k, quantum, now).value);
  }

  lemma {:induction false} DistinctLength(q: Line)
    requires NoDup(q)
    ensures |Members(q)| == |q|
  {
    if q == [] {
      assert Members(q) == {};
    } else {
      TailMembers(q);
      DistinctLength(q[..|q| - 1]);
    }
  }
}
