/** The wake loop and the aging of priorities. */
module SchedulerTiming {
  import opened Basics
  import opened PriorityList
  import opened Waiters
  import opened SchedulerModel
  import opened SchedulerInvariant

  // ----- what selecting leaves alone ---------------------------------------------------------------

  /** Threads differ in nothing but their states. */
  ghost predicate StatesOnly(k: Kernel, r: Kernel) {
    && r.threads.Keys == k.threads.Keys
    && forall t :: t in k.threads ==> r.threads[t] == k.threads[t].(state := r.threads[t].state)
  }

  lemma {:induction false} WakeStatesOnly(k: Kernel, now: nat)
    requires forall e :: e in k.sleeping ==> e.item in k.threads
    ensures StatesOnly(k, Wake(k, now))
    decreases |k.sleeping|
  {
    if k.sleeping != [] {
      var e := k.sleeping[|k.sleeping| - 1];
      var rest := k.(sleeping := k.sleeping[..|k.sleeping| - 1]);
      assert e in k.sleeping;
      if Get(k, e.item).wakeup < now {
        assert forall x :: x in rest.sleeping ==> x in k.sleeping;
        WakeStatesOnly(Enlist(rest, e.item), now);
      }
    }
  }

  lemma SleepersExist(k: Kernel)
    requires TablesBetween(k)
    ensures forall e :: e in k.sleeping ==> e.item in k.threads
  {
    forall e | e in k.sleeping ensures e.item in k.threads {
      assert e.item in Members(k.sleeping);
    }
  }

  lemma ElectStatesOnly(k: Kernel)
    requires TablesBetween(k) && k.ready != []
    ensures StatesOnly(k, Elect(k).value)
  {
    hide NoDup;
    assert k.ready[|k.ready| - 1] in k.ready;
    assert k.ready[|k.ready| - 1].item in Members(k.ready);
  }

  lemma StatesOnlyChain(k: Kernel, m: Kernel, r: Kernel)
    requires StatesOnly(k, m) && StatesOnly(m, r)
    ensures StatesOnly(k, r)
  {
  }

  lemma ActiveExists(k: Kernel)
    requires Inv(k)
    ensures k.active in k.threads
  {
  }

  lemma PutAwayStatesOnly(k: Kernel)
    requires k.active in k.threads
    ensures StatesOnly(k, PutAway(k))
  {
    hide Insert;
  }

  lemma SelectStatesOnly(k: Kernel, now: nat)
    requires Inv(k)
    ensures Select(k, now).Some? && StatesOnly(k, Select(k, now).value)
  {
    hide Core, Inv, StatesOnly, PutAway, Wake, Elect;
    var p := PutAway(k);
    var w := Wake(p, now);
    ActiveExists(k);
    PutAwayStatesOnly(k);
    PutAwayKeeps(k);
    SleepersExist(p);
    WakeStatesOnly(p, now);
    WakeKeeps(p, now);
    ElectKeeps(w);
    assert w.ready != [] by {
      IdleReady(w);
    }
    ElectStatesOnly(w);
    StatesOnlyChain(k, p, w);
    StatesOnlyChain(k, w, Elect(w).value);
  }

  // ----- the wake loop ------------------------------------------------------------------------------

  predicate Due(k: Kernel, t: Tid, now: nat) {
    Get(k, t).wakeup < now
  }

  /** The sleeping table is sorted by the low 16 bits of the wake times. */
  ghost predicate Keyed(k: Kernel) {
    Sorted(k.sleeping) && forall i :: 0 <= i < |k.sleeping| ==> k.sleeping[i].prio == SleepKey(k, k.sleeping[i].item)
  }

  /** No sleeper that is due stands further from the tail than one that is not. */
  ghost predicate DueLast(k: Kernel, now: nat) {
    forall i, j :: 0 <= i < j < |k.sleeping| && Due(k, k.sleeping[i].item, now) ==> Due(k, k.sleeping[j].item, now)
  }

  /** Every sleeper is in its table once. */
  ghost predicate Asleep(k: Kernel) {
    NoDup(k.sleeping) && forall i :: 0 <= i < |k.sleeping| ==> Get(k, k.sleeping[i].item).state == Sleeping
  }

  lemma SleeperAt(k: Kernel, i: nat)
    requires Asleep(k) && i < |k.sleeping|
    ensures Get(k, k.sleeping[i].item).state == Sleeping
  {
  }

  /** Waking the sleeper at the tail leaves the others as they are. */
  lemma WokenTail(k: Kernel, m: Kernel)
    requires k.sleeping != [] && Asleep(k)
    requires m == Enlist(k.(sleeping := k.sleeping[..|k.sleeping| - 1]), k.sleeping[|k.sleeping| - 1].item)
    ensures m.sleeping == k.sleeping[..|k.sleeping| - 1] && Asleep(m)
    ensures forall i :: 0 <= i < |m.sleeping| ==> Get(m, k.sleeping[i].item) == Get(k, k.sleeping[i].item)
    ensures Get(m, k.sleeping[|k.sleeping| - 1].item).state == Ready
    ensures forall e :: e in m.sleeping ==> e.item != k.sleeping[|k.sleeping| - 1].item
  {
    hide Insert;
  }

  /** Threads that do not sleep are not touched. */
  lemma {:induction false} WakeLeavesOthers(k: Kernel, t: Tid, now: nat)
    requires forall e :: e in k.sleeping ==> e.item != t
    ensures Get(Wake(k, now), t) == Get(k, t)
    decreases |k.sleeping|
  {
    if k.sleeping != [] {
      var e := k.sleeping[|k.sleeping| - 1];
      assert e in k.sleeping;
      var rest := k.(sleeping := k.sleeping[..|k.sleeping| - 1]);
      if Get(k, e.item).wakeup < now {
        assert forall x :: x in rest.sleeping ==> x in k.sleeping;
        WakeLeavesOthers(Enlist(rest, e.item), t, now);
      }
    }
  }

  /** Every sleeper that is woken is due; if the due ones stand at the tail, all of them are woken. */
  lemma {:induction false} WakesDue(k: Kernel, now: nat, i: nat)
    requires Asleep(k) && i < |k.sleeping|
    ensures Get(Wake(k, now), k.sleeping[i].item).state == Ready ==> Due(k, k.sleeping[i].item, now)
    ensures Get(Wake(k, now), k.sleeping[i].item).state in {Ready, Sleeping}
    ensures DueLast(k, now) && Due(k, k.sleeping[i].item, now) ==> Get(Wake(k, now), k.sleeping[i].item).state == Ready
    decreases |k.sleeping|
  {
    hide Insert, Asleep, Enlist;
    var n := |k.sleeping| - 1;
    var t := k.sleeping[n].item;
    if Due(k, t, now) {
      var m := Enlist(k.(sleeping := k.sleeping[..n]), t);
      WokenTail(k, m);
      if i == n {
        WakeLeavesOthers(m, t, now);
      } else {
        assert m.sleeping[i] == k.sleeping[i];
        WakesDue(m, now, i);
      }
    } else {
      SleeperAt(k, i);
    }
  }

  /** If the due ones do not all stand at the tail, some due sleeper sleeps on. */
  lemma {:induction false} SleepsOn(k: Kernel, now: nat) returns (i: nat)
    requires Asleep(k) && !DueLast(k, now)
    ensures i < |k.sleeping| && Due(k, k.sleeping[i].item, now)
    ensures Get(Wake(k, now), k.sleeping[i].item).state == Sleeping
    decreases |k.sleeping|
  {
    hide Insert, Enlist, NoDup;
    var n := |k.sleeping| - 1;
    var a, b :| 0 <= a < b < |k.sleeping| && Due(k, k.sleeping[a].item, now) && !Due(k, k.sleeping[b].item, now);
    var t := k.sleeping[n].item;
    if Due(k, t, now) {
      var m := Enlist(k.(sleeping := k.sleeping[..n]), t);
      WokenTail(k, m);
      assert m.sleeping[a] == k.sleeping[a] && m.sleeping[b] == k.sleeping[b];
      i := SleepsOn(m, now);
    } else {
      i := a;
    }
  }

  /** The wake loop wakes exactly the sleepers that are due if and only if these stand last. */
  lemma WakesExactlyDueIff(k: Kernel, now: nat)
    requires TablesBetween(k)
    ensures (forall i :: 0 <= i < |k.sleeping| ==>
               (Get(Wake(k, now), k.sleeping[i].item).state == Ready <==> Due(k, k.sleeping[i].item, now)))
       <==> DueLast(k, now)
  {
    assert Asleep(k) by {
      forall i | 0 <= i < |k.sleeping| ensures Get(k, k.sleeping[i].item).state == Sleeping {
        assert k.sleeping[i] in k.sleeping && k.sleeping[i].item in Members(k.sleeping);
      }
    }
    hide TablesBetween, Asleep, Wake, DueLast;
    if DueLast(k, now) {
      forall i | 0 <= i < |k.sleeping|
        ensures Get(Wake(k, now), k.sleeping[i].item).state == Ready <==> Due(k, k.sleeping[i].item, now)
      {
        WakesDue(k, now, i);
      }
    } else {
      var i := SleepsOn(k, now);
      assert Get(Wake(k, now), k.sleeping[i].item).state != Ready;
    }
  }

  /** Wake times below 2^16 are ordered as their keys are, so the due sleepers do stand last. */
  lemma ShortTimesDueLast(k: Kernel, now: nat)
    requires Keyed(k) && forall i :: 0 <= i < |k.sleeping| ==> Get(k, k.sleeping[i].item).wakeup < UINT16
    ensures DueLast(k, now)
  {
    forall i, j | 0 <= i < j < |k.sleeping| && Due(k, k.sleeping[i].item, now)
      ensures Due(k, k.sleeping[j].item, now)
    {
      assert k.sleeping[i].prio >= k.sleeping[j].prio;
    }
  }
}
