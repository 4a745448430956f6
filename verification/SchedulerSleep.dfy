/** How long a sleeper sleeps. */
module SchedulerSleep {
  import opened Basics
  import opened PriorityList
  import opened Waiters
  import opened SchedulerModel
  import opened SchedulerInvariant
  import opened SchedulerTiming
  import opened SchedulerPace

  predicate Sleeps(k: Kernel, t: Tid, until: nat) {
    t in k.threads && k.threads[t].state == Sleeping && k.threads[t].wakeup == until
  }

  lemma CallsLeaveSleeper(k: Kernel, step: Step, t: Tid, until: nat)
    requires Inv(k) && Enabled(k, step) && !step.ScheduleStep? && Next(k, step).Some? && Sleeps(k, t, until)
    ensures Sleeps(Next(k, step).value, t, until)
  {
    hide Inv, Insert, Removed, Rest, Join;
    Ids(k);
    InvJoins(k, k.active);
    if step.UnlockStep? {
      InvHeld(k, step.t);
    }
  }

  lemma SelectLeavesSleeper(k: Kernel, now: nat, t: Tid, until: nat)
    requires Inv(k) && Sleeps(k, t, until) && now <= until
    ensures Select(k, now).Some? && Sleeps(Select(k, now).value, t, until)
  {
    hide Insert, Core, TablesBetween, Inv, Wake, Tables, Elect;
    var p := PutAway(k);
    var w := Wake(p, now);
    PutAwayKeeps(k);
    assert Sleeps(p, t, until);
    hide PutAway;
    WakeKeeps(p, now);
    NotYetDue(p, now, t, until);
    ElectKeeps(w);
    ElectLeavesSleeper(w, t, until);
  }

  lemma NotYetDue(k: Kernel, now: nat, t: Tid, until: nat)
    requires TablesBetween(k) && Sleeps(k, t, until) && now <= until
    ensures Sleeps(Wake(k, now), t, until)
  {
    SleepersExist(k);
    WakeStatesOnly(k, now);
    TableSleepers(k);
    assert t in InState(k, Sleeping) && t in Members(k.sleeping);
    var i :| 0 <= i < |k.sleeping| && k.sleeping[i].item == t;
    hide Wake, NoDup;
    WakesDue(k, now, i);
  }

  lemma ElectLeavesSleeper(k: Kernel, t: Tid, until: nat)
    requires TablesBetween(k) && Sleeps(k, t, until) && Elect(k).Some?
    ensures Sleeps(Elect(k).value, t, until)
  {
    hide NoDup;
    var e := k.ready[|k.ready| - 1];
    assert e in k.ready && e.item in Members(k.ready) && e.item in InState(k, Ready);
  }

  lemma StepLeavesSleeper(k: Kernel, step: Step, t: Tid, until: nat)
    requires Inv(k) && Enabled(k, step) && Next(k, step).Some? && Sleeps(k, t, until)
    requires step.ScheduleStep? ==> step.now <= until
    ensures Sleeps(Next(k, step).value, t, until)
  {
    hide Inv, Select, Age, AgedOnly, Sleeps;
    if step.ScheduleStep? {
      AgeOnly(k, step.quantum);
      AgedKeeps(k, Age(k, step.quantum));
      AgedSleeps(k, Age(k, step.quantum), t, until);
      SelectLeavesSleeper(Age(k, step.quantum), step.now, t, until);
    } else {
      StepKeeps(k, step);
      CallsLeaveSleeper(k, step, t, until);
    }
  }

  lemma AgedSleeps(k: Kernel, r: Kernel, t: Tid, until: nat)
    requires AgedOnly(k, r) && Sleeps(k, t, until)
    ensures Sleeps(r, t, until)
  {
  }

  lemma {:induction false} RunLeavesSleeper(k: Kernel, steps: seq<Step>, r: Outcome, t: Tid, until: nat)
    requires Inv(k) && SchedulerInvariant.Run(k, steps, r) && Sleeps(k, t, until)
    requires forall i :: 0 <= i < |steps| && steps[i].ScheduleStep? ==> steps[i].now <= until
    ensures r.Reached? ==> Sleeps(r.k, t, until)
    decreases |steps|
  {
    hide Inv, Next, Enabled, Sleeps;
    if steps != [] {
      StepKeeps(k, steps[0]);
      if Next(k, steps[0]).Some? {
        StepLeavesSleeper(k, steps[0], t, until);
        RunLeavesSleeper(Next(k, steps[0]).value, steps[1..], r, t, until);
      }
    }
  }

  lemma FallsAsleep(k: Kernel, now: nat, ms: nat)
    requires k.active in k.threads && k.active != k.idle && now + ms < 0x1_0000_0000
    ensures Sleeps(Sleep(k, now, ms), k.active, now + ms)
  {
  }

  lemma StillSleeps(k: Kernel, t: Tid, until: nat)
    requires Sleeps(k, t, until)
    ensures Get(k, t).state == Sleeping
  {
  }

  /** A thread that calls sleep at a time `now` for ms milliseconds sleeps on in every run, whatever
      the others do, until a wake pass at a time after now + ms, if that sum does not wrap around. */
  lemma SleepsLongEnough(k: Kernel, now: nat, ms: nat, steps: seq<Step>, r: Outcome)
    requires Inv(k) && Executing(k) && k.active != k.idle && now + ms < 0x1_0000_0000
    requires SchedulerInvariant.Run(Sleep(k, now, ms), steps, r) && r.Reached?
    requires forall i :: 0 <= i < |steps| && steps[i].ScheduleStep? ==> steps[i].now <= now + ms
    ensures Get(r.k, k.active).state == Sleeping
  {
    hide *;
    SleepKeeps(k, now, ms);
    ActiveExists(k);
    FallsAsleep(k, now, ms);
    RunLeavesSleeper(Sleep(k, now, ms), steps, r, k.active, now + ms);
    StillSleeps(r.k, k.active, now + ms);
  }
}
