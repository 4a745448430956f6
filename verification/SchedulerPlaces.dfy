/** Which nodes stand nowhere and may be enlisted, and the steps of SchedulerModel unrolled the way the
    code over linked lists takes them. */
module SchedulerPlaces {
  import opened Basics
  import opened PriorityList
  import opened Waiters
  import opened SchedulerModel
  import opened SchedulerInvariant
  import opened SchedulerPace

  // ----- threads that stand nowhere ----------------------------------------------------------------

  ghost predicate NotListed(k: Kernel, t: Tid) {
    && t !in Members(k.ready) && t !in Members(k.sleeping) && t !in Members(k.zombies)
    && forall o: nat :: !WaitsOn(k, t, o)
  }

  /** By its state, the active thread's node is in none of the tables. */
  lemma ActiveNotListed(k: Kernel)
    requires Inv(k) && (k.threads[k.active].state in {Running, Sleeping, Joining})
    ensures NotListed(k, k.active)
  {
    NotWaiting(k, k.active);
    assert k.active !in InState(k, Ready) && k.active !in InState(k, Zombie);
  }

  lemma HeldNotListed(k: Kernel, t: Tid)
    requires Inv(k) && t in k.transit
    ensures t in k.threads && k.threads[t].state == Blocked && NotListed(k, t)
  {
    assert t in InState(k, Blocked) && t !in InState(k, Ready) && t !in InState(k, Sleeping) && t !in InState(k, Zombie);
  }

  lemma JoiningNotListed(k: Kernel, t: Tid)
    requires Inv(k) && t in k.threads && k.threads[t].state == Joining
    ensures NotListed(k, t)
  {
    NotWaiting(k, t);
    assert t !in InState(k, Ready) && t !in InState(k, Sleeping) && t !in InState(k, Zombie);
  }

  /** A sleeper that was just taken off its table. */
  lemma WokenNotListed(k: Kernel)
    requires Core(k) && TablesBetween(k) && k.sleeping != []
    ensures var t := k.sleeping[|k.sleeping| - 1].item;
      && t in k.threads && NotListed(k.(sleeping := k.sleeping[..|k.sleeping| - 1]), t)
  {
    var t := k.sleeping[|k.sleeping| - 1].item;
    TailMembers(k.sleeping);
    assert t in InState(k, Sleeping) && t !in InState(k, Ready) && t !in InState(k, Zombie);
    NotWaiting(k, t);
    var r := k.(sleeping := k.sleeping[..|k.sleeping| - 1]);
    assert forall o: nat :: WaitsOn(r, t, o) <==> WaitsOn(k, t, o);
  }

  ghost predicate Good(k: Kernel) {
    Inv(k) && Bounded(k)
  }

  // ----- the scheduling interrupt -------------------------------------------------------------------

  /** The aging loop unrolled once. */
  lemma AgeTurn(k: Kernel, i: nat)
    requires i < |k.ready| && k.ready[i].item in k.threads
    ensures var t, prio := k.ready[i].item, k.ready[i].prio;
      var th := k.threads[t].(lastSched := k.threads[t].lastSched + 1);
      AgeFrom(k, i) == AgeFrom(
        if t == k.idle || Some(t) == k.init then k
        else if th.lastSched < AGING_TICKS then Put(k, t, th)
        else if th.priority > HIGHEST_PRIORITY then
          Put(k.(ready := k.ready[i := Entry(t, (prio + UINT16 - 1) % UINT16)]), t,
              th.(priority := th.priority - 1, lastSched := 0))
        else Put(k, t, th.(lastSched := 0)), i + 1)
  {
    assert k.ready[i := k.ready[i]] == k.ready;
    assert k.(ready := k.ready) == k;
  }

  lemma AgeEnds(k: Kernel)
    ensures AgeFrom(k, |k.ready|) == k
  {
  }

  lemma AgeUnfolds(k: Kernel, quantum: bool)
    requires k.active in k.threads
    ensures Age(k, quantum) ==
      if k.active != k.idle && Some(k.active) != k.init then
        var th := k.threads[k.active];
        var r := AgeFrom(if quantum then Put(k, k.active, th.(priority := th.initPrio)) else k, 0);
        Put(r, k.active, Get(r, k.active).(lastSched := 0))
      else k
  {
  }

  lemma Scheduled(k: Kernel, quantum: bool, now: nat)
    requires Good(k)
    ensures k.active in k.threads && Good(Age(k, quantum))
    ensures Schedule(k, quantum, now) == Select(Age(k, quantum), now)
    ensures Schedule(k, quantum, now).Some?
    ensures var r := Schedule(k, quantum, now).value;
      Good(r) && r.active in r.threads && r.threads[r.active].state == Running
  {
    ScheduleKeeps(k, quantum, now);
    ScheduleBounded(k, quantum, now);
    AgeOnly(k, quantum);
    ReadyExist(k);
    hide Age, Select, Tables, Global, BlockedPlaces, Joins, Family, Bounded;
    AgedKeeps(k, Age(k, quantum));
    AgeBounded(k, quantum);
  }

  /** Between the put-away and the election. */
  ghost predicate Between(k: Kernel) {
    Core(k) && TablesBetween(k) && Bounded(k)
  }

  /** The wake loop unrolled once, in the terms of what one turn does to the tables. */
  lemma WakeTurn(k: Kernel, now: nat)
    requires Between(k)
    ensures var u, rest := TailOf(k.sleeping), k.(sleeping := Rest(k.sleeping));
      match u
      case None => Wake(k, now) == rest
      case Some(t) =>
        && t in k.threads && NotListed(rest, t) && k.threads[t].priority < UINT16
        && if k.threads[t].wakeup < now then
             var next := Enlist(rest, t);
             Between(next) && |next.sleeping| < |k.sleeping| && Wake(k, now) == Wake(next, now)
           else
             Wake(k, now) == rest.(sleeping := Insert(rest.sleeping, Entry(t, k.threads[t].wakeup % UINT16)))
  {
    hide Core, TablesBetween, NotListed, Insert;
    if k.sleeping != [] {
      var t := k.sleeping[|k.sleeping| - 1].item;
      var rest := k.(sleeping := k.sleeping[..|k.sleeping| - 1]);
      WokenNotListed(k);
      WokenKeeps(k, t, Enlist(rest, t));
    }
  }

  /** The election at the end of select_thread finds a thread. */
  lemma SelectReady(k: Kernel, now: nat)
    requires Good(k)
    ensures var w := Wake(PutAway(k), now);
      match TailOf(w.ready)
      case None => false
      case Some(t) =>
        && t in w.threads
        && Select(k, now) == Some(Put(w.(ready := Rest(w.ready), active := t), t, w.threads[t].(state := Running)))
  {
    hide Core, Tables, TablesBetween, Bounded, PutAway, Wake;
    PutAwayKeeps(k);
    WakeKeeps(PutAway(k), now);
    IdleReady(Wake(PutAway(k), now));
    ReadyIn(Wake(PutAway(k), now));
  }

  lemma ReadyIn(k: Kernel)
    requires TablesBetween(k) && k.ready != []
    ensures k.ready[|k.ready| - 1].item in k.threads
  {
    assert k.ready[|k.ready| - 1] in k.ready && k.ready[|k.ready| - 1].item in Members(k.ready);
  }

  /** The thread that ran can be put away: its node stands nowhere. */
  lemma OldAway(k: Kernel)
    requires Good(k)
    ensures k.active in k.threads && k.threads[k.active].priority < UINT16
    ensures k.threads[k.active].state in {Running, Sleeping} ==> NotListed(k, k.active)
    ensures Between(PutAway(k))
  {
    if k.threads[k.active].state in {Running, Sleeping} {
      ActiveNotListed(k);
    }
    PutAwayKeeps(k);
    hide Insert, Inv, NotListed, Core, TablesBetween;
  }

  // ----- the calls ----------------------------------------------------------------------------------

  lemma Stepped(k: Kernel, step: Step)
    requires Good(k) && Enabled(k, step) && !Fatal(k, step)
    ensures Next(k, step).Some? && Good(Next(k, step).value)
  {
    hide Inv, Bounded, Enabled, Fatal, Next;
    StepKeeps(k, step);
    StepBounded(k, step);
  }

  /** Where a thread is listed does not depend on what is recorded of it. */
  lemma PutNotListed(k: Kernel, t: Tid, x: Tid, th: Thread)
    requires NotListed(k, t)
    ensures NotListed(Put(k, x, th), t)
  {
    assert forall o: nat :: WaitsOn(Put(k, x, th), t, o) <==> WaitsOn(k, t, o);
  }

  lemma SleepGoes(k: Kernel, now: nat, ms: nat)
    requires Good(k) && Executing(k)
    ensures k.active in k.threads && Good(Sleep(k, now, ms))
  {
    Stepped(k, SleepStep(now, ms));
    hide Core, Tables, Bounded;
  }

  lemma LockGoes(k: Kernel, o: nat, blockType: BlockType)
    requires Good(k) && Executing(k) && k.active != k.idle && o in k.waiting
    ensures k.active in k.threads
    ensures var m := Put(k, k.active, k.threads[k.active].(state := Blocked, blockType := blockType));
      && NotListed(m, k.active)
      && Lock(k, o, blockType) == m.(waiting := m.waiting[o := Join(m.waiting[o], k.active)])
    ensures Good(Lock(k, o, blockType))
  {
    Stepped(k, LockStep(o, blockType));
    ActiveNotListed(k);
    var th := k.threads[k.active].(state := Blocked, blockType := blockType);
    hide Core, Tables, Bounded, NotListed, Join;
    PutNotListed(k, k.active, k.active, th);
  }

  /** Who waits for an object is served in the order of arrival. */
  lemma LineServed(k: Kernel, o: nat, t: Tid)
    requires Good(k) && o in k.waiting
    ensures Order(Join(k.waiting[o], t)) == Order(k.waiting[o]) + [t]
    ensures Order(k.waiting[o]) == (match TailOf(k.waiting[o]) case None => [] case Some(u) => [u]) + Order(Rest(k.waiting[o]))
  {
    hide Join;
    JoinGoesLast(k.waiting[o], t);
  }

  lemma EnlistsReadily(k: Kernel, t: Tid)
    ensures t in Members(Enlist(k, t).ready)
  {
    hide Insert, Members;
    InsertMembers(k.ready, Entry(t, Get(k, t).priority));
  }

  lemma LockRefused(k: Kernel, o: nat, blockType: BlockType)
    requires k.active == k.idle
    ensures Lock(k, o, blockType) == k
  {
  }

  lemma DelistGoes(k: Kernel, o: nat)
    requires Good(k) && o in k.waiting
    ensures Good(Delist(k, o))
  {
    Stepped(k, DelistStep(o));
    hide Good;
  }

  lemma UnlockGoes(k: Kernel, t: Tid, blockType: BlockType)
    requires Good(k) && t in k.transit
    ensures t in k.threads && NotListed(k, t) && k.threads[t].priority < UINT16
    ensures Good(Unlock(k, t, blockType))
    ensures k.threads[t].state == Blocked
    ensures Fatal(k, UnlockStep(t, blockType)) <==> t == k.idle || k.threads[t].blockType != blockType
  {
    HeldNotListed(k, t);
    hide Inv, NotListed, Enlist;
    if !Fatal(k, UnlockStep(t, blockType)) {
      Stepped(k, UnlockStep(t, blockType));
    }
  }

  lemma ZombieGone(k: Kernel, t: Tid)
    requires Inv(k) && t in k.threads && k.threads[t].state == Zombie && Some(t) != k.init
    ensures NotListed(k.(zombies := Removed(k.zombies, t)), t)
  {
    NotWaiting(k, t);
    RemovedMembers(k.zombies, t);
    assert t !in InState(k, Ready) && t !in InState(k, Sleeping);
    var r := k.(zombies := Removed(k.zombies, t));
    assert forall o: nat :: WaitsOn(r, t, o) <==> WaitsOn(k, t, o);
  }

  /** The global table is no place in which a thread's own node stands. */
  lemma GlobalNotListed(k: Kernel, m: Kernel, t: Tid)
    requires NotListed(m, t) && k == m.(all := k.all)
    ensures NotListed(k, t)
  {
    assert forall o: nat :: WaitsOn(k, t, o) <==> WaitsOn(m, t, o);
  }

  /** What wait_thread cleans up is the calling thread's own, exited child. */
  ghost predicate Cleanable(k: Kernel, t: Tid) {
    && k.active in k.threads && t in k.threads && t != k.active
    && NotListed(k.(zombies := Removed(k.zombies, t)), t)
  }

  lemma WaitGoes(k: Kernel, t: Tid)
    requires Good(k) && Enabled(k, WaitStep(t))
    ensures k.active in k.threads && t in k.threads && t != k.active && Good(Wait(k, t))
    ensures k.threads[t].state == Zombie ==> Cleanable(k, t)
  {
    ChildOf(k, t);
    Stepped(k, WaitStep(t));
    if k.threads[t].state == Zombie {
      ZombieGone(k, t);
    }
    hide Core, Tables, Bounded, NotListed;
  }

  lemma FinishGoes(k: Kernel)
    requires Good(k) && Enabled(k, FinishWaitStep)
    ensures k.active in k.threads && k.threads[k.active].awaiting.Some? && Good(FinishWait(k))
    ensures var t := k.threads[k.active].awaiting.value;
      && t in k.threads && k.threads[t].state == Zombie
      && Cleanable(Put(k, k.active, k.threads[k.active].(awaiting := None)), t)
  {
    var t := k.threads[k.active].awaiting.value;
    assert WaiterOk(k, k.active);
    Stepped(k, FinishWaitStep);
    FinishWaitKeeps(k);
    ZombieGone(k, t);
    hide Core, Tables, Bounded, NotListed, Removed;
    PutNotListed(k.(zombies := Removed(k.zombies, t)), t, k.active, k.threads[k.active].(awaiting := None));
  }

  lemma TakeChildGoes(k: Kernel)
    requires Good(k) && Enabled(k, TakeChildStep)
    ensures k.active in k.threads && Good(TakeChild(k))
  {
    Stepped(k, TakeChildStep);
    hide Core, Tables, Bounded;
  }

  /** thread_exit wakes its joiner, whose node stands nowhere, and then goes to the zombie table. */
  lemma ExitGoes(k: Kernel)
    requires Good(k) && Enabled(k, ExitStep)
    ensures k.active in k.threads && Good(Exit(k))
    ensures NotListed(k, k.active)
    ensures var j := k.threads[k.active].joiner;
      && (j.Some? ==> j.value in k.threads && k.threads[j.value].priority < UINT16 && j.value != k.active)
      && (j.Some? && k.threads[j.value].state == Joining ==>
            NotListed(k, j.value) && NotListed(Enlist(k, j.value), k.active))
  {
    Stepped(k, ExitStep);
    ActiveNotListed(k);
    var j := k.threads[k.active].joiner;
    assert JoinerOk(k, k.active) && WaiterOk(k, k.active);
    if j.Some? {
      assert WaiterOk(k, j.value);
      hide Exit, Inv;
      if k.threads[j.value].state == Joining {
        JoiningNotListed(k, j.value);
        EnlistedOther(k, j.value, k.active);
      }
    }
  }

  lemma EnlistedOther(k: Kernel, t: Tid, x: Tid)
    requires NotListed(k, x) && x != t
    ensures NotListed(Enlist(k, t), x)
  {
    hide Insert;
    InsertMembers(k.ready, Entry(t, Get(k, t).priority));
    assert forall o: nat :: WaitsOn(Enlist(k, t), x, o) <==> WaitsOn(k, x, o);
  }

  /** A new thread stands nowhere yet. */
  lemma NewNotListed(k: Kernel, t: Tid)
    requires Inv(k) && t !in k.threads
    ensures NotListed(k, t)
  {
    assert t !in InState(k, Ready) && t !in InState(k, Sleeping) && t !in InState(k, Zombie) && t !in InState(k, Blocked);
  }

  lemma CreateGoes(k: Kernel, priority: nat, memory: Granted)
    requires Good(k) && Enabled(k, CreateStep(priority, memory)) && !Fatal(k, CreateStep(priority, memory))
    ensures k.active in k.threads && k.lastPid + 1 !in k.threads && NotListed(k, k.lastPid + 1)
    ensures Good(Create(k, priority, memory))
  {
    Stepped(k, CreateStep(priority, memory));
    NewPid(k);
    NewNotListed(k, k.lastPid + 1);
    hide Core, Tables, Bounded, NotListed;
  }

  /** A new object, on which nobody waits. */
  lemma NewObjectGoes(k: Kernel, o: nat)
    requires Good(k) && o !in k.waiting
    ensures Good(k.(waiting := k.waiting[o := []]))
  {
    var r := k.(waiting := k.waiting[o := []]);
    assert forall state :: InState(r, state) == InState(k, state);
    assert Members([]) == {};
    assert forall x: Tid, p: nat :: WaitsOn(r, x, p) <==> WaitsOn(k, x, p);
    assert forall x: Tid, c: Tid :: Child(r, x, c) <==> Child(k, x, c);
    forall x: Tid ensures WaiterOk(r, x) && JoinerOk(r, x) {
      assert WaiterOk(k, x) && JoinerOk(k, x);
    }
  }
}
