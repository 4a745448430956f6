/** A poster that took a thread off a waiting list can always unlock it: the error of unlock_thread
    that would make the poster panic is unreachable. */
module SchedulerHandover {
  import opened Basics
  import opened PriorityList
  import opened Waiters
  import opened SchedulerModel
  import opened SchedulerInvariant
  import opened SchedulerTiming

  /** Threads block on an object for the reason that goes with it, as semaphores do with SEM. */
  predicate KindStep(step: Step, kind: nat -> BlockType) {
    step.LockStep? ==> step.blockType == kind(step.o)
  }

  ghost predicate Typed(k: Kernel, kind: nat -> BlockType) {
    forall t: Tid, o: nat :: WaitsOn(k, t, o) ==> Get(k, t).blockType == kind(o)
  }

  /** Waiting lists and reasons for blocking are the same, and the threads held by posters at least those. */
  ghost predicate SameBlocks(k: Kernel, r: Kernel) {
    && r.waiting == k.waiting && r.transit == k.transit
    && forall t :: t in k.threads && t in r.threads ==> r.threads[t].blockType == k.threads[t].blockType
  }

  lemma {:induction false} WakeBlocks(k: Kernel, now: nat)
    ensures Wake(k, now).waiting == k.waiting && Wake(k, now).transit == k.transit
    decreases |k.sleeping|
  {
    hide Insert;
    if k.sleeping != [] {
      var t := k.sleeping[|k.sleeping| - 1].item;
      if Get(k, t).wakeup < now {
        WakeBlocks(Enlist(k.(sleeping := k.sleeping[..|k.sleeping| - 1]), t), now);
      }
    }
  }

  lemma SelectBlocks(k: Kernel, now: nat)
    requires Inv(k)
    ensures Select(k, now).Some? && SameBlocks(k, Select(k, now).value)
  {
    SelectStatesOnly(k, now);
    hide Inv, Insert, Wake;
    WakeBlocks(PutAway(k), now);
  }

  lemma ScheduleBlocks(k: Kernel, quantum: bool, now: nat)
    requires Inv(k)
    ensures Schedule(k, quantum, now).Some? && SameBlocks(k, Schedule(k, quantum, now).value)
  {
    AgeOnly(k, quantum);
    hide Inv, Select, Age;
    AgedKeeps(k, Age(k, quantum));
    SelectBlocks(Age(k, quantum), now);
  }

  lemma ExitBlocks(k: Kernel)
    requires k.active in k.threads
    ensures SameBlocks(k, Exit(k))
  {
    hide Insert;
  }

  lemma CallBlocks(k: Kernel, step: Step)
    requires k.active in k.threads && Enabled(k, step) && Next(k, step).Some? && k.lastPid + 1 !in k.threads
    requires step.CreateStep? || step.SleepStep? || step.TakeChildStep? || step.WaitStep?
      || step.FinishWaitStep? || step.ExitStep?
    ensures SameBlocks(k, Next(k, step).value)
  {
    hide Insert, Removed, Rest, Exit;
    if step.ExitStep? {
      ExitBlocks(k);
    }
  }

  lemma SameTyped(k: Kernel, r: Kernel, kind: nat -> BlockType)
    requires BlockedPlaces(k) && BlockedPlaces(r) && SameBlocks(k, r) && Typed(k, kind)
    ensures Typed(r, kind)
  {
    forall t: Tid, o: nat | WaitsOn(r, t, o) ensures Get(r, t).blockType == kind(o) {
      assert WaitsOn(k, t, o) && t in InState(k, Blocked) && t in InState(r, Blocked);
    }
  }

  lemma LockTyped(k: Kernel, o: nat, blockType: BlockType, kind: nat -> BlockType)
    requires BlockedPlaces(k) && k.active in k.threads && k.threads[k.active].state != Blocked
    requires Typed(k, kind) && blockType == kind(o)
    ensures Typed(Lock(k, o, blockType), kind)
  {
    var r, t := Lock(k, o, blockType), k.active;
    NotWaiting(k, t);
    assert Proper([]) && Members([]) == {};
    assert t !in Members(LineOf(k, o)) by { assert !WaitsOn(k, t, o); }
    JoinProper(LineOf(k, o), t);
    hide Join, Proper, Members, BlockedPlaces;
    forall x: Tid, p: nat | WaitsOn(r, x, p) ensures Get(r, x).blockType == kind(p) {
      assert WaitsOn(k, x, p) || (x == t && p == o);
    }
  }

  lemma DelistTyped(k: Kernel, o: nat, kind: nat -> BlockType)
    requires BlockedPlaces(k) && Typed(k, kind)
    ensures Typed(Delist(k, o), kind)
  {
    assert Proper([]) && Members([]) == {};
    RestProper(LineOf(k, o));
    var r := Delist(k, o);
    forall x: Tid, p: nat | WaitsOn(r, x, p) ensures Get(r, x).blockType == kind(p) {
      assert WaitsOn(k, x, p);
    }
  }

  lemma UnlockTyped(k: Kernel, t: Tid, blockType: BlockType, kind: nat -> BlockType)
    requires Typed(k, kind)
    ensures Typed(Unlock(k, t, blockType), kind)
  {
    hide Insert;
    var r := Unlock(k, t, blockType);
    assert forall x: Tid :: Get(r, x).blockType == Get(k, x).blockType;
    forall x: Tid, p: nat | WaitsOn(r, x, p) ensures Get(r, x).blockType == kind(p) {
      assert WaitsOn(k, x, p);
    }
  }

  lemma StepTyped(k: Kernel, step: Step, kind: nat -> BlockType)
    requires Inv(k) && Enabled(k, step) && Next(k, step).Some? && Typed(k, kind) && KindStep(step, kind)
    ensures Typed(Next(k, step).value, kind)
  {
    hide Tables, Global, BlockedPlaces, Joins, Family, Actors, Typed, SameBlocks;
    hide Schedule, Create, Exit, Wait, FinishWait, Sleep, TakeChild, Lock, Unlock, Delist;
    StepKeeps(k, step);
    Ids(k);
    match step {
      case LockStep(o, blockType) => LockTyped(k, o, blockType, kind);
      case DelistStep(o) => DelistTyped(k, o, kind);
      case UnlockStep(t, blockType) => UnlockTyped(k, t, blockType, kind);
      case ScheduleStep(quantum, now) =>
        ScheduleBlocks(k, quantum, now);
        SameTyped(k, Next(k, step).value, kind);
      case _ =>
        CallBlocks(k, step);
        SameTyped(k, Next(k, step).value, kind);
    }
  }

  /** A thread held by a poster keeps its reason for blocking until it is unlocked. */
  ghost predicate Held(k: Kernel, t: Tid, blockType: BlockType) {
    t in k.transit && Get(k, t).blockType == blockType
  }

  lemma LockHolds(k: Kernel, o: nat, reason: BlockType, t: Tid, blockType: BlockType)
    requires Held(k, t, blockType) && t != k.active
    ensures Held(Lock(k, o, reason), t, blockType)
  {
    hide Join;
  }

  lemma DelistKeepsHeld(k: Kernel, o: nat, t: Tid, blockType: BlockType)
    requires Held(k, t, blockType)
    ensures Held(Delist(k, o), t, blockType)
  {
    hide Rest;
  }

  lemma UnlockHolds(k: Kernel, x: Tid, reason: BlockType, t: Tid, blockType: BlockType)
    requires Held(k, t, blockType) && t != x
    ensures Held(Unlock(k, x, reason), t, blockType)
  {
    hide Insert;
  }

  lemma SameHolds(k: Kernel, r: Kernel, t: Tid, blockType: BlockType)
    requires SameBlocks(k, r) && Held(k, t, blockType) && t in k.threads && t in r.threads
    ensures Held(r, t, blockType)
  {
  }

  lemma HeldExists(k: Kernel, t: Tid)
    requires Inv(k) && t in k.transit
    ensures t in k.threads && k.threads[t].state == Blocked
  {
    assert t in InState(k, Blocked);
  }

  lemma StepHolds(k: Kernel, step: Step, t: Tid, blockType: BlockType)
    requires Inv(k) && Enabled(k, step) && Next(k, step).Some? && Held(k, t, blockType)
    requires step.UnlockStep? ==> step.t != t
    ensures Held(Next(k, step).value, t, blockType)
  {
    StepKeeps(k, step);
    HeldExists(k, t);
    var r := Next(k, step).value;
    if step.LockStep? {
      LockHolds(k, step.o, step.blockType, t, blockType);
    } else if step.DelistStep? {
      DelistKeepsHeld(k, step.o, t, blockType);
    } else if step.UnlockStep? {
      UnlockHolds(k, step.t, step.blockType, t, blockType);
    } else {
      OthersHold(k, step, t, blockType);
    }
  }

  lemma OthersHold(k: Kernel, step: Step, t: Tid, blockType: BlockType)
    requires Inv(k) && Enabled(k, step) && Next(k, step).Some? && Held(k, t, blockType)
    requires !step.LockStep? && !step.DelistStep? && !step.UnlockStep?
    ensures Held(Next(k, step).value, t, blockType)
  {
    StepKeeps(k, step);
    NewPid(k);
    HeldExists(k, t);
    var r := Next(k, step).value;
    hide Core, Tables, Held, Schedule, Create, Exit, Wait, FinishWait, Sleep, TakeChild;
    if step.ScheduleStep? {
      ScheduleBlocks(k, step.quantum, step.now);
    } else {
      CallBlocks(k, step);
    }
    assert t in r.transit;
    HeldExists(r, t);
    SameHolds(k, r, t, blockType);
  }

  lemma {:induction false} RunTyped(k: Kernel, steps: seq<Step>, r: Outcome, kind: nat -> BlockType)
    requires Inv(k) && SchedulerInvariant.Run(k, steps, r) && Typed(k, kind)
    requires forall i :: 0 <= i < |steps| ==> KindStep(steps[i], kind)
    ensures r.Reached? ==> Inv(r.k) && Typed(r.k, kind)
    decreases |steps|
  {
    hide Inv, Enabled, Next, Typed, KindStep;
    if steps != [] {
      StepKeeps(k, steps[0]);
      if Next(k, steps[0]).Some? {
        StepTyped(k, steps[0], kind);
        RunTyped(Next(k, steps[0]).value, steps[1..], r, kind);
      }
    }
  }

  lemma {:induction false} RunHolds(k: Kernel, steps: seq<Step>, r: Outcome, t: Tid, blockType: BlockType)
    requires Inv(k) && SchedulerInvariant.Run(k, steps, r) && Held(k, t, blockType)
    requires forall i :: 0 <= i < |steps| && steps[i].UnlockStep? ==> steps[i].t != t
    ensures r.Reached? ==> Inv(r.k) && Held(r.k, t, blockType)
    decreases |steps|
  {
    hide Inv, Enabled, Next, Held;
    if steps != [] {
      StepKeeps(k, steps[0]);
      if Next(k, steps[0]).Some? {
        StepHolds(k, steps[0], t, blockType);
        RunHolds(Next(k, steps[0]).value, steps[1..], r, t, blockType);
      }
    }
  }

  lemma DelistHolds(k: Kernel, o: nat, kind: nat -> BlockType)
    requires BlockedPlaces(k) && Typed(k, kind) && LineOf(k, o) != []
    ensures Held(Delist(k, o), TailOf(LineOf(k, o)).value, kind(o))
  {
    RestProper(LineOf(k, o));
    var t := TailOf(LineOf(k, o)).value;
    assert t in Added(TailOf(LineOf(k, o)));
    assert WaitsOn(k, t, o);
  }

  lemma BootTyped(kind: nat -> BlockType)
    ensures Inv(Boot()) && Typed(Boot(), kind)
  {
    BootHolds();
  }

  lemma HeldUnlocks(k: Kernel, t: Tid, blockType: BlockType)
    requires Inv(k) && Held(k, t, blockType)
    ensures t != k.idle && Get(k, t).state == Blocked && Get(k, t).blockType == blockType
    ensures !Fatal(k, UnlockStep(t, blockType))
    ensures var r := Unlock(k, t, blockType); t in Members(r.ready) && Get(r, t).state == Ready
  {
    assert t in InState(k, Blocked);
    InsertMembers(k.ready, Entry(t, k.threads[t].priority));
    hide Insert, Members, Core, Tables;
  }

  /** In every run: after a poster took the next thread off an object's list, and whatever happens
      before it goes on, unlock_thread finds that thread blocked for the object's reason, and makes it
      ready in the active table. */
  lemma PosterUnlocks(before: seq<Step>, k: Kernel, o: nat, between: seq<Step>, m: Outcome, kind: nat -> BlockType)
    requires SchedulerInvariant.Run(Boot(), before, Reached(k)) && LineOf(k, o) != []
    requires SchedulerInvariant.Run(Delist(k, o), between, m) && m.Reached?
    requires forall i :: 0 <= i < |before| ==> KindStep(before[i], kind)
    requires forall i :: 0 <= i < |between| && between[i].UnlockStep? ==> between[i].t != TailOf(LineOf(k, o)).value
    ensures var t := TailOf(LineOf(k, o)).value;
      && t in m.k.transit && !Fatal(m.k, UnlockStep(t, kind(o)))
      && t != m.k.idle && Get(m.k, t).state == Blocked && Get(m.k, t).blockType == kind(o)
      && t in Members(Unlock(m.k, t, kind(o)).ready) && Get(Unlock(m.k, t, kind(o)), t).state == Ready
  {
    var t := TailOf(LineOf(k, o)).value;
    BootTyped(kind);
    RunTyped(Boot(), before, Reached(k), kind);
    DelistKeeps(k, o);
    DelistHolds(k, o, kind);
    hide Inv, Held, Typed, Delist;
    RunHolds(Delist(k, o), between, m, t, kind(o));
    HeldUnlocks(m.k, t, kind(o));
  }
}
