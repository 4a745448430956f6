/** Who runs next: the table is ordered by how many passes each thread is away from priority 0. */
module SchedulerOrder {
  import opened Basics
  import opened PriorityList
  import opened Waiters
  import opened SchedulerModel
  import opened SchedulerInvariant
  import opened SchedulerTiming
  import opened SchedulerPace
  import opened SchedulerAging

  /** The thread elected has the least priority number of a sorted table. */
  lemma ElectBest(k: Kernel)
    requires Sorted(k.ready) && (forall t: Tid :: NodeAgrees(k, t)) && Elect(k).Some?
    ensures var r := Elect(k).value;
      && Sorted(r.ready) && forall e :: e in r.ready ==> Get(r, r.active).priority <= e.prio
  {
    var n := |k.ready| - 1;
    var last := k.ready[n];
    assert last in k.ready && NodeAgrees(k, last.item);
    forall e | e in k.ready[..n] ensures last.prio <= e.prio {
      var i :| 0 <= i < n && k.ready[i] == e;
    }
  }

  /** The thread's counter is full: a pass lowers its priority number if that is not 0. */
  predicate Promoted(k: Kernel, t: Tid) {
    !Exempt(k, k.active) && !Exempt(k, t) && Get(k, t).lastSched + 1 >= AGING_TICKS
  }

  /** A promoted thread leaves one of equal priority behind that is nearer to being elected. */
  ghost predicate Overtakes(k: Kernel) {
    exists i, j :: 0 <= i < j < |k.ready| && k.ready[i].prio == k.ready[j].prio > 0
      && Promoted(k, k.ready[i].item) && !Promoted(k, k.ready[j].item)
  }

  lemma PassedPrio(k: Kernel, quantum: bool, j: nat)
    requires Inv(k) && Bounded(k) && j < |k.ready| && NodeAgrees(k, k.ready[j].item) && !Stray(k, quantum)
    ensures |Age(k, quantum).ready| == |k.ready|
    ensures var p := k.ready[j].prio;
      Age(k, quantum).ready[j].prio == if Promoted(k, k.ready[j].item) && p > 0 then p - 1 else p
  {
    SameLength(k, quantum);
    if !Exempt(k, k.active) {
      hide Age;
      AgeAt(k, quantum, j);
      var o := k.ready[j];
      assert o in k.ready && o.item in Members(k.ready) && o.item in InState(k, Ready);
    }
  }

  /** A pass keeps the active table sorted if and only if no promoted thread overtakes. */
  lemma PassSortedIff(k: Kernel, quantum: bool)
    requires Inv(k) && Bounded(k) && (forall t: Tid :: NodeAgrees(k, t)) && !Stray(k, quantum) && Sorted(k.ready)
    ensures Sorted(Age(k, quantum).ready) <==> !Overtakes(k)
  {
    var q, r := k.ready, Age(k, quantum).ready;
    SameLength(k, quantum);
    forall j | 0 <= j < |q|
      ensures r[j].prio == if Promoted(k, q[j].item) && q[j].prio > 0 then q[j].prio - 1 else q[j].prio
    {
      assert NodeAgrees(k, q[j].item);
      PassedPrio(k, quantum, j);
    }
    hide Inv, Bounded, NodeAgrees, Age, Promoted, Stray;
    if Overtakes(k) {
      var i, j :| 0 <= i < j < |q| && q[i].prio == q[j].prio > 0 && Promoted(k, q[i].item) && !Promoted(k, q[j].item);
      assert r[i].prio < r[j].prio;
    } else {
      forall i, j | 0 <= i < j < |r| ensures r[i].prio >= r[j].prio {
        assert q[i].prio >= q[j].prio;
      }
    }
  }

  // ----- the order of the active table -------------------------------------------------------------

  /** How many passes it takes to bring the priority number of a thread down to 0: what a pass does
      to every thread that it treats is to take one off. */
  function Rank(th: Thread): int {
    if th.priority == 0 then 0 else AGING_TICKS * th.priority - th.lastSched
  }

  function RankOf(k: Kernel, t: Tid): int {
    Rank(Get(k, t))
  }

  /** From head to tail the threads of the active table have falling ranks. */
  ghost predicate Ranked(k: Kernel) {
    forall i, j :: 0 <= i < j < |k.ready| ==> RankOf(k, k.ready[i].item) >= RankOf(k, k.ready[j].item)
  }

  ghost predicate AllAgree(k: Kernel) {
    forall t: Tid :: NodeAgrees(k, t)
  }

  /** Idle alone has the lowest priority, and init has the highest; neither ages. */
  ghost predicate Classes(k: Kernel) {
    && (k.idle in k.threads ==> Fixed(k.threads[k.idle], LOWEST_PRIORITY))
    && (k.init.Some? && k.init.value in k.threads ==> Fixed(k.threads[k.init.value], HIGHEST_PRIORITY))
    && (forall t :: t in k.threads && t != k.idle ==> k.threads[t].initPrio < LOWEST_PRIORITY)
  }

  predicate Fixed(th: Thread, priority: nat) {
    th.priority == th.initPrio == priority && th.lastSched == 0
  }

  /** A thread outside the active table, but for thread t, starts its count anew when it comes back. */
  ghost predicate RestedBut(k: Kernel, t: Option<Tid>) {
    forall x :: x in k.threads && Some(x) != t && k.threads[x].state != Ready ==> k.threads[x].lastSched == 0
  }

  ghost predicate Ordered(k: Kernel, t: Option<Tid>) {
    Bounded(k) && AllAgree(k) && Ranked(k) && Classes(k) && RestedBut(k, t)
  }

  lemma RankBounds(th: Thread)
    requires BoundedThread(th)
    ensures AGING_TICKS * (th.priority - 1) < Rank(th) <= AGING_TICKS * th.priority || th.priority == 0 == Rank(th)
    ensures th.lastSched == 0 ==> Rank(th) == AGING_TICKS * th.priority
  {
  }

  lemma ByRank(a: Thread, b: Thread)
    requires BoundedThread(a) && BoundedThread(b) && Rank(a) >= Rank(b)
    ensures a.priority >= b.priority
  {
  }

  /** A pass takes one off the rank. */
  lemma AgedRank(th: Thread)
    requires BoundedThread(th)
    ensures Rank(AgeThread(th)) == if Rank(th) > 0 then Rank(th) - 1 else 0
  {
  }

  ghost predicate ReadyExists(k: Kernel) {
    forall i :: 0 <= i < |k.ready| ==> k.ready[i].item in k.threads
  }

  lemma ReadyPrio(k: Kernel, i: nat)
    requires AllAgree(k) && i < |k.ready|
    ensures k.ready[i].prio == Get(k, k.ready[i].item).priority
  {
    assert k.ready[i] in k.ready && NodeAgrees(k, k.ready[i].item);
  }

  lemma RankedSorted(k: Kernel)
    requires Bounded(k) && AllAgree(k) && Ranked(k) && ReadyExists(k)
    ensures Sorted(k.ready)
  {
    forall i, j | 0 <= i < j < |k.ready| ensures k.ready[i].prio >= k.ready[j].prio {
      ReadyPrio(k, i);
      ReadyPrio(k, j);
      ByRank(Get(k, k.ready[i].item), Get(k, k.ready[j].item));
    }
  }

  /** A thread that comes into the table with its count at 0 finds its place by rank. */
  lemma InsertRanked(k: Kernel, r: Kernel, t: Tid)
    requires Bounded(k) && AllAgree(k) && Ranked(k) && ReadyExists(k)
    requires r.ready == Insert(k.ready, Entry(t, Get(r, t).priority)) && Get(r, t).lastSched == 0
    requires BoundedThread(Get(r, t))
    requires forall j :: 0 <= j < |k.ready| ==> RankOf(r, k.ready[j].item) == RankOf(k, k.ready[j].item)
    ensures Ranked(r)
  {
    hide Insert, AllAgree, Ranked;
    var e := Entry(t, Get(r, t).priority);
    RankedSorted(k);
    InsertIs(k.ready, e);
    var p := Position(k.ready, e.prio);
    hide Position, Bounded;
    forall j | 0 <= j < |k.ready|
      ensures j < p ==> RankOf(r, k.ready[j].item) >= RankOf(r, t)
      ensures p <= j ==> RankOf(r, t) >= RankOf(r, k.ready[j].item)
    {
      PlacedByRank(k, e, p, j, Get(r, t));
    }
    SplicedRanked(k, r, p, e);
  }

  lemma PlacedByRank(k: Kernel, e: Entry<Tid>, p: nat, j: nat, th: Thread)
    requires Bounded(k) && AllAgree(k) && ReadyExists(k) && Sorted(k.ready) && j < |k.ready| && p <= |k.ready|
    requires j < p ==> k.ready[j].prio > e.prio
    requires p < |k.ready| ==> k.ready[p].prio <= e.prio
    requires BoundedThread(th) && th.priority == e.prio && th.lastSched == 0
    ensures j < p ==> RankOf(k, k.ready[j].item) >= Rank(th)
    ensures p <= j ==> Rank(th) >= RankOf(k, k.ready[j].item)
  {
    ReadyPrio(k, j);
    hide AllAgree;
    RankBounds(Get(k, k.ready[j].item));
    RankBounds(th);
    hide Rank;
    if p < j {
      assert k.ready[p].prio >= k.ready[j].prio;
    }
  }

  lemma SplicedRanked(k: Kernel, r: Kernel, p: nat, e: Entry<Tid>)
    requires Ranked(k) && p <= |k.ready| && r.ready == k.ready[..p] + [e] + k.ready[p..]
    requires forall j :: 0 <= j < |k.ready| ==> RankOf(r, k.ready[j].item) == RankOf(k, k.ready[j].item)
    requires forall j :: 0 <= j < p ==> RankOf(r, k.ready[j].item) >= RankOf(r, e.item)
    requires forall j :: p <= j < |k.ready| ==> RankOf(r, e.item) >= RankOf(r, k.ready[j].item)
    ensures Ranked(r)
  {
    hide RankOf;
    forall i, j | 0 <= i < j < |r.ready| ensures RankOf(r, r.ready[i].item) >= RankOf(r, r.ready[j].item) {
      SplicedAt(k.ready, p, e, i);
      SplicedAt(k.ready, p, e, j);
    }
  }

  // ----- calls -------------------------------------------------------------------------------------

  /** What the calls promise about priorities: only idle runs at the lowest one, and nobody unlocks the
      active thread, which a handler could do between its lock_thread and its own call of schedule. */
  predicate Tame(k: Kernel, step: Step) {
    && (step.CreateStep? && k.active != k.idle ==> step.priority != LOWEST_PRIORITY)
    && (step.UnlockStep? ==> step.t != k.active)
  }

  lemma EnlistOrdered(k: Kernel, t: Tid, but: Option<Tid>)
    requires Ordered(k, but) && ReadyExists(k) && t in k.threads && k.threads[t].lastSched == 0
    ensures Ordered(Enlist(k, t), but) && ReadyExists(Enlist(k, t))
  {
    var r := Enlist(k, t);
    assert AllAgree(r) by {
      forall x: Tid ensures NodeAgrees(r, x) {
        EnlistAgrees(k, t, x);
      }
    }
    assert forall x :: RankOf(r, x) == RankOf(k, x);
    InsertRanked(k, r, t);
    InsertHas(k.ready, Entry(t, k.threads[t].priority));
    hide Insert, AllAgree, Ranked;
    forall i | 0 <= i < |r.ready| ensures r.ready[i].item in r.threads {
      assert r.ready[i] in r.ready;
    }
  }

  lemma SameReadyRanked(k: Kernel, r: Kernel)
    requires Ranked(k) && r.ready == k.ready
    requires forall j :: 0 <= j < |k.ready| ==> RankOf(r, k.ready[j].item) == RankOf(k, k.ready[j].item)
    ensures Ranked(r)
  {
  }

  /** Calls other than schedule leave the ranks of the threads in the table alone. */
  lemma CalmRanks(k: Kernel, r: Kernel)
    requires Inv(k) && Inv(r) && Calm(k, r) && (forall e :: e in k.ready ==> e.item in r.threads)
    ensures forall j :: 0 <= j < |k.ready| ==> RankOf(r, k.ready[j].item) == RankOf(k, k.ready[j].item)
  {
    hide Inv;
    ReadyExist(k);
    forall j | 0 <= j < |k.ready| ensures RankOf(r, k.ready[j].item) == RankOf(k, k.ready[j].item) {
      assert k.ready[j] in k.ready;
    }
  }

  /** Ready threads go on existing. */
  lemma ReadyStay(k: Kernel, step: Step)
    requires Inv(k) && Enabled(k, step) && !step.ScheduleStep? && Next(k, step).Some?
    ensures forall e :: e in k.ready ==> e.item in Next(k, step).value.threads
  {
    var r := Next(k, step).value;
    forall e | e in k.ready ensures e.item in r.threads {
      assert e.item in Members(k.ready) && e.item in InState(k, Ready);
      ReadyStays(k, step, e.item);
    }
  }

  lemma ReadyStays(k: Kernel, step: Step, t: Tid)
    requires Inv(k) && Enabled(k, step) && !step.ScheduleStep? && Next(k, step).Some?
    requires t in k.threads && k.threads[t].state == Ready
    ensures t in Next(k, step).value.threads
  {
    hide Inv, Insert, Removed, Rest, Join;
    Ids(k);
    if step.FinishWaitStep? {
      FinishWaitKeeps(k);
    }
  }

  lemma StepRanked(k: Kernel, step: Step)
    requires Inv(k) && Ordered(k, Some(k.active)) && Enabled(k, step) && Tame(k, step)
    requires !step.ScheduleStep? && Next(k, step).Some?
    ensures Ranked(Next(k, step).value)
  {
    var r := Next(k, step).value;
    hide Bounded, AllAgree, Ranked, Classes, RestedBut, Calm, Inv, RankOf;
    StepKeeps(k, step);
    StepCalm(k, step);
    ReadyStay(k, step);
    CalmRanks(k, r);
    ReadyOf(k);
    if step.CreateStep? {
      CreateRanked(k, r, step.priority, step.memory);
    } else if step.UnlockStep? {
      UnlockRanked(k, step.t, step.blockType);
    } else if step.ExitStep? {
      ExitRanked(k);
    } else {
      OthersSameReady(k, step);
      SameReadyRanked(k, r);
    }
  }

  lemma OthersSameReady(k: Kernel, step: Step)
    requires Enabled(k, step) && Next(k, step).Some?
    requires !step.ScheduleStep? && !step.CreateStep? && !step.UnlockStep? && !step.ExitStep?
    ensures Next(k, step).value.ready == k.ready
  {
    hide Insert, Removed, Rest, Join;
  }

  lemma CreateRanked(k: Kernel, r: Kernel, priority: nat, memory: Granted)
    requires Inv(k) && Ordered(k, Some(k.active)) && ReadyExists(k) && r == Create(k, priority, memory)
    requires forall j :: 0 <= j < |k.ready| ==> RankOf(r, k.ready[j].item) == RankOf(k, k.ready[j].item)
    ensures Ranked(r)
  {
    hide Inv, Insert, Ranked, RankOf, AllAgree, Bounded;
    Ids(k);
    if priority <= LOWEST_PRIORITY && memory == AllGranted {
      InsertRanked(k, r, k.lastPid + 1);
    } else {
      SameReadyRanked(k, r);
    }
  }

  lemma UnlockRanked(k: Kernel, t: Tid, blockType: BlockType)
    requires Inv(k) && Ordered(k, Some(k.active)) && ReadyExists(k) && t in k.transit && t != k.active
    ensures Ranked(Unlock(k, t, blockType))
  {
    assert t in InState(k, Blocked);
    hide Inv, Insert, Ranked, AllAgree, Bounded;
    EnlistOrdered(k, t, Some(k.active));
    if Unlock(k, t, blockType) != k {
      SameReadyRanked(Enlist(k, t), Unlock(k, t, blockType));
    }
  }

  lemma ExitRanked(k: Kernel)
    requires Inv(k) && Ordered(k, Some(k.active)) && ReadyExists(k) && Enabled(k, ExitStep)
    ensures Ranked(Exit(k))
  {
    hide Inv, Ranked, AllAgree, Bounded, Enlist;
    ActorsExist(k);
    JoinerExists(k);
    ExitReady(k);
    var j := k.threads[k.active].joiner;
    if Some(k.active) != k.init && j.Some? && Get(k, j.value).state == Joining {
      EnlistOrdered(k, j.value, Some(k.active));
      hide Exit;
      SameReadyRanked(Enlist(k, j.value), Exit(k));
    } else {
      hide Exit;
      SameReadyRanked(k, Exit(k));
    }
  }

  lemma JoinerExists(k: Kernel)
    requires Inv(k)
    ensures k.active in k.threads
    ensures k.threads[k.active].joiner.Some? ==> k.threads[k.active].joiner.value in k.threads
  {
    assert JoinerOk(k, k.active);
  }

  lemma ExitReady(k: Kernel)
    requires k.active in k.threads
    ensures forall x :: RankOf(Exit(k), x) == RankOf(k, x)
    ensures var j := k.threads[k.active].joiner;
      if Some(k.active) != k.init && j.Some? && Get(k, j.value).state == Joining then
        Exit(k).ready == Enlist(k, j.value).ready && forall x :: RankOf(Enlist(k, j.value), x) == RankOf(k, x)
      else Exit(k).ready == k.ready
  {
    hide Insert;
  }

  /** Threads that wait, sleep or are gone stay so, the active one aside, unless they get ready. */
  ghost predicate StatesStay(k: Kernel, r: Kernel) {
    && r.active == k.active
    && forall t :: t in r.threads && t != k.active ==>
         r.threads[t].state == Ready || (t in k.threads && r.threads[t].state == k.threads[t].state)
  }

  lemma ExitStates(k: Kernel)
    requires k.active in k.threads && (k.threads[k.active].joiner.Some? ==> k.threads[k.active].joiner.value in k.threads)
    ensures StatesStay(k, Exit(k))
  {
    hide Insert;
  }

  lemma OtherStates(k: Kernel, step: Step)
    requires k.active in k.threads && Enabled(k, step) && Next(k, step).Some?
    requires !step.ScheduleStep? && !step.ExitStep? && !step.CreateStep? && (step.UnlockStep? ==> step.t in k.threads)
    ensures StatesStay(k, Next(k, step).value)
  {
    hide Insert, Removed, Rest, Join;
  }

  lemma CreateStates(k: Kernel, priority: nat, memory: Granted)
    requires k.active in k.threads
    ensures StatesStay(k, Create(k, priority, memory))
  {
    hide Insert;
  }

  lemma StepStates(k: Kernel, step: Step)
    requires Inv(k) && Enabled(k, step) && !step.ScheduleStep? && Next(k, step).Some?
    ensures StatesStay(k, Next(k, step).value)
  {
    JoinerExists(k);
    if step.UnlockStep? { assert step.t in InState(k, Blocked); }
    hide Inv, StatesStay, Create, Exit;
    if step.ExitStep? {
      ExitStates(k);
    } else if step.CreateStep? {
      CreateStates(k, step.priority, step.memory);
    } else {
      OtherStates(k, step);
    }
  }

  lemma StepRested(k: Kernel, step: Step)
    requires Inv(k) && RestedBut(k, Some(k.active)) && Enabled(k, step) && !step.ScheduleStep? && Next(k, step).Some?
    ensures RestedBut(Next(k, step).value, Some(Next(k, step).value.active))
  {
    hide Inv, Enabled, Next;
    StepCalm(k, step);
    var r := Next(k, step).value;
    ActiveStays(k, step);
    StepStates(k, step);
  }

  lemma ActiveStays(k: Kernel, step: Step)
    requires Enabled(k, step) && !step.ScheduleStep? && Next(k, step).Some?
    ensures Next(k, step).value.active == k.active && Next(k, step).value.idle == k.idle
  {
    hide Insert, Removed, Rest, Join;
  }

  lemma CreateInit(k: Kernel, priority: nat, memory: Granted)
    requires Enabled(k, CreateStep(priority, memory)) && Tame(k, CreateStep(priority, memory))
    requires k.active in k.threads && k.lastPid + 1 !in k.threads
    ensures var r := Create(k, priority, memory);
      && (r.init != k.init ==> r.init.Some? && r.init.value in r.threads
                               && Fixed(r.threads[r.init.value], HIGHEST_PRIORITY))
      && (forall t :: t in r.threads && t !in k.threads ==> r.threads[t].initPrio < LOWEST_PRIORITY)
  {
    hide Insert;
  }

  lemma OthersInit(k: Kernel, step: Step)
    requires k.active in k.threads && Enabled(k, step) && !step.ScheduleStep? && !step.CreateStep? && Next(k, step).Some?
    requires step.UnlockStep? ==> step.t in k.threads
    requires k.threads[k.active].joiner.Some? ==> k.threads[k.active].joiner.value in k.threads
    ensures Next(k, step).value.init == k.init && Next(k, step).value.threads.Keys <= k.threads.Keys
  {
    hide Insert, Removed, Rest, Join;
  }

  lemma StepInit(k: Kernel, step: Step)
    requires Inv(k) && Enabled(k, step) && Tame(k, step) && !step.ScheduleStep? && Next(k, step).Some?
    ensures var r := Next(k, step).value;
      && (r.init != k.init ==> r.init.Some? && r.init.value in r.threads
                               && Fixed(r.threads[r.init.value], HIGHEST_PRIORITY))
      && (forall t :: t in r.threads && t !in k.threads ==> r.threads[t].initPrio < LOWEST_PRIORITY)
  {
    NewPid(k);
    JoinerExists(k);
    if step.UnlockStep? { assert step.t in InState(k, Blocked); }
    hide Inv, Create, Fixed;
    if step.CreateStep? {
      CreateInit(k, step.priority, step.memory);
    } else {
      OthersInit(k, step);
    }
  }

  lemma StepClasses(k: Kernel, step: Step)
    requires Inv(k) && Classes(k) && Enabled(k, step) && Tame(k, step) && !step.ScheduleStep? && Next(k, step).Some?
    ensures Classes(Next(k, step).value)
  {
    StepKeeps(k, step);
    StepCalm(k, step);
    StepInit(k, step);
    ActiveStays(k, step);
    ActorsExist(k);
    hide Inv, Enabled, Next, Tame;
  }

  lemma ActorsExist(k: Kernel)
    requires Inv(k)
    ensures k.idle in k.threads && k.active in k.threads && (k.init.Some? ==> k.init.value in k.threads && k.init.value != k.idle)
  {
  }

  // ----- schedule ----------------------------------------------------------------------------------

  lemma PassClasses(k: Kernel, i: nat, j: nat)
    requires Inv(k) && Ordered(k, Some(k.active)) && i < j < |k.ready| && ReadyExists(k)
    ensures Exempt(k, k.ready[i].item) && !Exempt(k, k.ready[j].item) ==>
      RankOf(k, k.ready[i].item) > RankOf(k, k.ready[j].item) || RankOf(k, k.ready[j].item) == 0
    ensures !Exempt(k, k.ready[i].item) && Exempt(k, k.ready[j].item) ==> RankOf(k, k.ready[j].item) == 0
  {
    ActorsExist(k);
    hide Inv, AllAgree;
    var a, b := Get(k, k.ready[i].item), Get(k, k.ready[j].item);
    RankBounds(a);
    RankBounds(b);
    assert Rank(a) >= Rank(b);
    assert a.priority <= a.initPrio && b.priority <= b.initPrio;
    hide Rank;
  }

  lemma PassRanked(k: Kernel, quantum: bool)
    requires Inv(k) && Ordered(k, Some(k.active)) && Dispatched(k) && !Exempt(k, k.active)
    ensures Ranked(Age(k, quantum))
  {
    var r := Age(k, quantum);
    SameLength(k, quantum);
    ReadyExist(k);
    forall i, j | 0 <= i < j < |r.ready| ensures RankOf(r, r.ready[i].item) >= RankOf(r, r.ready[j].item) {
      PassedRank(k, quantum, i);
      PassedRank(k, quantum, j);
      PassClasses(k, i, j);
    }
  }

  lemma PassedRank(k: Kernel, quantum: bool, j: nat)
    requires Inv(k) && Bounded(k) && Dispatched(k) && !Exempt(k, k.active) && j < |k.ready| == |Age(k, quantum).ready|
    ensures var t := k.ready[j].item;
      && t in k.threads && Age(k, quantum).ready[j].item == t
      && RankOf(k, t) >= 0
      && RankOf(Age(k, quantum), t) == if Exempt(k, t) || RankOf(k, t) == 0 then RankOf(k, t) else RankOf(k, t) - 1
  {
    var o := k.ready[j];
    assert o in k.ready && o.item in Members(k.ready) && o.item in InState(k, Ready);
    hide Age, AgeThread, Inv;
    AgeAt(k, quantum, j);
    AgedRank(k.threads[o.item]);
    RankBounds(k.threads[o.item]);
  }

  lemma PassRested(k: Kernel, quantum: bool, t: Tid)
    requires Inv(k) && Bounded(k) && !Exempt(k, k.active) && t in k.threads && t != k.active && k.threads[t].state != Ready
    ensures Get(Age(k, quantum), t) == k.threads[t]
  {
    assert t !in InState(k, Ready);
    forall j | 0 <= j < |k.ready| ensures k.ready[j].item != t {
      assert k.ready[j] in k.ready && k.ready[j].item in Members(k.ready);
    }
    AgeFromElse(if quantum then Put(k, k.active, k.threads[k.active].(priority := k.threads[k.active].initPrio)) else k, 0, t);
  }

  lemma AgeClasses(k: Kernel, quantum: bool)
    requires Inv(k) && Classes(k) && NoDup(k.ready)
    ensures Classes(Age(k, quantum))
  {
    AgeOnly(k, quantum);
    AgeFixes(k, quantum, k.idle);
    if k.init.Some? { AgeFixes(k, quantum, k.init.value); }
    hide Inv, Age;
  }

  lemma AgeFixes(k: Kernel, quantum: bool, t: Tid)
    requires Exempt(k, t) && NoDup(k.ready)
    ensures Get(Age(k, quantum), t) == Get(k, t)
  {
    if !Exempt(k, k.active) {
      if i :| 0 <= i < |k.ready| && k.ready[i].item == t {
        AgeAt(k, quantum, i);
      } else {
        AgeFromElse(if quantum then Put(k, k.active, Get(k, k.active).(priority := Get(k, k.active).initPrio)) else k, 0, t);
      }
    }
  }

  /** After the pass, or without one, every thread outside the table has its count at 0. */
  lemma AgeOrdered(k: Kernel, quantum: bool)
    requires Inv(k) && Ordered(k, Some(k.active)) && Dispatched(k)
    ensures Inv(Age(k, quantum)) && Ordered(Age(k, quantum), None)
  {
    var r := Age(k, quantum);
    hide Bounded, AllAgree, Ranked, Classes;
    AgeOnly(k, quantum);
    AgedKeeps(k, r);
    ReadyExist(k);
    ActorsExist(k);
    AgeBounded(k, quantum);
    assert AllAgree(r) by {
      NeverStray(k, quantum);
      AgeAllAgree(k, quantum);
    }
    AgeClasses(k, quantum);
    if Exempt(k, k.active) {
      assert Get(k, k.active).lastSched == 0 by {
        ExemptCount(k, k.active);
      }
    } else {
      PassRanked(k, quantum);
    }
    assert RestedBut(r, None) by {
      hide Inv;
      AgeRests(k, quantum);
    }
  }

  lemma ExemptCount(k: Kernel, t: Tid)
    requires Classes(k) && Exempt(k, t) && t in k.threads
    ensures k.threads[t].lastSched == 0
  {
  }

  lemma AgeAllAgree(k: Kernel, quantum: bool)
    requires Inv(k) && Bounded(k) && AllAgree(k) && !Stray(k, quantum)
    ensures AllAgree(Age(k, quantum))
  {
    hide Inv, Bounded, Age, Stray;
    forall t: Tid ensures NodeAgrees(Age(k, quantum), t) {
      AgeAgrees(k, quantum, t);
    }
  }

  lemma AgeRests(k: Kernel, quantum: bool)
    requires Inv(k) && Ordered(k, Some(k.active))
    ensures RestedBut(Age(k, quantum), None)
  {
    var r := Age(k, quantum);
    AgeOnly(k, quantum);
    ActorsExist(k);
    forall x | x in r.threads && r.threads[x].state != Ready ensures r.threads[x].lastSched == 0 {
      assert x in k.threads && k.threads[x].state != Ready;
      if Exempt(k, k.active) {
        if x == k.active { ExemptCount(k, x); }
      } else if x == k.active {
        assert Get(r, x).lastSched == 0;
      } else {
        PassRested(k, quantum, x);
      }
    }
  }

  lemma PutAwayOrdered(k: Kernel)
    requires Ordered(k, None) && ReadyExists(k) && k.active in k.threads
    ensures Ordered(PutAway(k), None) && ReadyExists(PutAway(k))
  {
    hide Bounded, AllAgree, Ranked, Classes;
    if k.threads[k.active].state == Running {
      EnlistOrdered(k, k.active, None);
    } else if k.threads[k.active].state == Sleeping {
      SameThreadsOrdered(k, PutAway(k));
    }
  }

  lemma SameThreadsOrdered(k: Kernel, r: Kernel)
    requires Ordered(k, None) && r == k.(sleeping := r.sleeping)
    ensures Ordered(r, None)
  {
    forall x: Tid ensures NodeAgrees(r, x) {
      assert NodeAgrees(k, x);
    }
    assert forall x :: RankOf(r, x) == RankOf(k, x);
  }

  lemma {:induction false} WakeOrdered(k: Kernel, now: nat)
    requires Ordered(k, None) && ReadyExists(k) && Asleep(k) && (forall i :: 0 <= i < |k.sleeping| ==> k.sleeping[i].item in k.threads)
    ensures Ordered(Wake(k, now), None) && ReadyExists(Wake(k, now))
    decreases |k.sleeping|
  {
    hide Insert, Bounded, AllAgree, Ranked, Classes, Enlist, NoDup;
    if k.sleeping != [] {
      var n := |k.sleeping| - 1;
      var t := k.sleeping[n].item;
      var rest := k.(sleeping := k.sleeping[..n]);
      SameThreadsOrdered(k, rest);
      if Get(k, t).wakeup < now {
        EnlistOrdered(rest, t, None);
        WokenTail(k, Enlist(rest, t));
        EnlistThreads(rest, t);
        WakeOrdered(Enlist(rest, t), now);
      } else {
        SameThreadsOrdered(k, Wake(k, now));
      }
    }
  }

  lemma EnlistThreads(k: Kernel, t: Tid)
    requires t in k.threads
    ensures Enlist(k, t).threads.Keys == k.threads.Keys
  {
  }

  lemma ElectOrdered(k: Kernel)
    requires Ordered(k, None) && ReadyExists(k) && Elect(k).Some?
    ensures var r := Elect(k).value; Ordered(r, Some(r.active))
  {
    var r := Elect(k).value;
    assert r.active in k.threads;
    forall x: Tid ensures NodeAgrees(r, x) {
      ElectAgrees(k, x);
    }
    assert forall x :: RankOf(r, x) == RankOf(k, x);
    assert forall i :: 0 <= i < |r.ready| ==> r.ready[i] == k.ready[i];
    assert Ranked(r);
  }

  lemma SelectOrdered(k: Kernel, now: nat)
    requires Inv(k) && Ordered(k, None)
    ensures Select(k, now).Some?
    ensures var r := Select(k, now).value;
      && Ordered(r, Some(r.active)) && forall e :: e in r.ready ==> Get(r, r.active).priority <= e.prio
  {
    hide Inv, Core, TablesBetween, Ordered, PutAway, Wake, Elect, ReadyExists;
    var p := PutAway(k);
    var w := Wake(p, now);
    ActorsExist(k);
    ReadyOf(k);
    PutAwayKeeps(k);
    PutAwayOrdered(k);
    SleepersIn(p);
    WakeOrdered(p, now);
    WakeKeeps(p, now);
    ElectKeeps(w);
    ElectOrdered(w);
    BestElected(w);
  }

  lemma ReadyOf(k: Kernel)
    requires Inv(k)
    ensures ReadyExists(k)
  {
    ReadyExist(k);
  }

  lemma SleepersIn(k: Kernel)
    requires TablesBetween(k)
    ensures Asleep(k) && forall i :: 0 <= i < |k.sleeping| ==> k.sleeping[i].item in k.threads
  {
    TableSleepers(k);
  }

  lemma BestElected(k: Kernel)
    requires Ordered(k, None) && ReadyExists(k) && Elect(k).Some?
    ensures var r := Elect(k).value; forall e :: e in r.ready ==> Get(r, r.active).priority <= e.prio
  {
    RankedSorted(k);
    hide Ranked, Bounded, Classes;
    ElectBest(k);
  }

  lemma ScheduleOrdered(k: Kernel, quantum: bool, now: nat)
    requires Inv(k) && Ordered(k, Some(k.active)) && Dispatched(k)
    ensures Schedule(k, quantum, now).Some?
    ensures var r := Schedule(k, quantum, now).value;
      && Ordered(r, Some(r.active)) && forall e :: e in r.ready ==> Get(r, r.active).priority <= e.prio
  {
    hide Inv, Ordered, Age, Select;
    AgeOrdered(k, quantum);
    SelectOrdered(Age(k, quantum), now);
  }

  // ----- all runs ----------------------------------------------------------------------------------

  lemma StepAllAgree(k: Kernel, step: Step)
    requires Inv(k) && Bounded(k) && Enabled(k, step) && AllAgree(k) && Next(k, step).Some? && !step.ScheduleStep?
    ensures AllAgree(Next(k, step).value)
  {
    hide Inv, Bounded, Next;
    forall t: Tid ensures NodeAgrees(Next(k, step).value, t) {
      StepAgrees(k, step, t);
    }
  }

  lemma StepOrdered(k: Kernel, step: Step)
    requires Inv(k) && Ordered(k, Some(k.active)) && Dispatched(k) && Enabled(k, step) && Tame(k, step) && Next(k, step).Some?
    ensures Ordered(Next(k, step).value, Some(Next(k, step).value.active))
  {
    hide Inv, Enabled, Bounded, AllAgree, Ranked, Classes, RestedBut, Schedule;
    if step.ScheduleStep? {
      ScheduleOrdered(k, step.quantum, step.now);
    } else {
      hide Next;
      StepBounded(k, step);
      StepAllAgree(k, step);
      StepRanked(k, step);
      StepClasses(k, step);
      StepRested(k, step);
    }
  }

  /** Every step of the run is tame. */
  predicate AllTame(k: Kernel, steps: seq<Step>)
    decreases |steps|
  {
    steps == []
    || (&& Enabled(k, steps[0]) && Tame(k, steps[0])
        && (Next(k, steps[0]).Some? ==> AllTame(Next(k, steps[0]).value, steps[1..])))
  }

  lemma {:induction false} RunOrdered(k: Kernel, steps: seq<Step>, r: Outcome)
    requires Inv(k) && Ordered(k, Some(k.active)) && Dispatched(k)
    requires SchedulerInvariant.Run(k, steps, r) && AllTame(k, steps)
    ensures r.Reached? ==> Inv(r.k) && Ordered(r.k, Some(r.k.active)) && Dispatched(r.k)
    decreases |steps|
  {
    hide Inv, Ordered, Dispatched, Enabled, Next;
    if steps != [] && Next(k, steps[0]).Some? {
      StepKeeps(k, steps[0]);
      StepDispatched(k, steps[0]);
      StepOrdered(k, steps[0]);
      RunOrdered(Next(k, steps[0]).value, steps[1..], r);
    }
  }

  lemma BootOrdered()
    ensures Inv(Boot()) && Ordered(Boot(), Some(Boot().active)) && Dispatched(Boot())
  {
    BootAgrees();
  }

  /** In every tame run, the thread that schedule elects has the least priority number of all threads
      that are ready. */
  lemma EveryRunElectsBest(steps: seq<Step>, quantum: bool, now: nat, r: Outcome)
    requires SchedulerInvariant.Run(Boot(), steps, r) && r.Reached? && AllTame(Boot(), steps)
    ensures Schedule(r.k, quantum, now).Some?
    ensures var n := Schedule(r.k, quantum, now).value;
      forall t :: t in InState(n, Ready) ==> Get(n, n.active).priority <= Get(n, t).priority
  {
    hide *;
    BootOrdered();
    RunOrdered(Boot(), steps, r);
    ScheduleOrdered(r.k, quantum, now);
    ScheduleKeeps(r.k, quantum, now);
    BestOfAll(Schedule(r.k, quantum, now).value);
  }

  lemma BestOfAll(r: Kernel)
    requires Inv(r) && Ordered(r, Some(r.active)) && forall e :: e in r.ready ==> Get(r, r.active).priority <= e.prio
    ensures forall t :: t in InState(r, Ready) ==> Get(r, r.active).priority <= Get(r, t).priority
  {
    hide Bounded, Ranked, Classes, RestedBut, Core;
    forall t | t in InState(r, Ready) ensures Get(r, r.active).priority <= Get(r, t).priority {
      assert NodeAgrees(r, t);
      ListedAgrees(r, t);
    }
  }

  /** In every tame run the active table is sorted, and no pass lets a thread overtake or ends a stray
      time slice. */
  lemma EveryRunSorted(steps: seq<Step>, r: Outcome)
    requires SchedulerInvariant.Run(Boot(), steps, r) && r.Reached? && AllTame(Boot(), steps)
    ensures Sorted(r.k.ready) && !Overtakes(r.k) && forall quantum :: !Stray(r.k, quantum)
  {
    hide *;
    BootOrdered();
    RunOrdered(Boot(), steps, r);
    forall quantum ensures !Stray(r.k, quantum) {
      NeverStray(r.k, quantum);
    }
    ReadyOf(r.k);
    SortedNow(r.k);
    AgeOrdered(r.k, false);
    ReadyOf(Age(r.k, false));
    SortedNow(Age(r.k, false));
    PassOf(r.k, false);
  }

  lemma SortedNow(k: Kernel)
    requires ReadyExists(k) && exists t :: Ordered(k, t)
    ensures Sorted(k.ready)
  {
    RankedSorted(k);
  }

  lemma PassOf(k: Kernel, quantum: bool)
    requires Inv(k) && Ordered(k, Some(k.active)) && !Stray(k, quantum) && Sorted(k.ready)
    requires Sorted(Age(k, quantum).ready)
    ensures !Overtakes(k)
  {
    hide Inv, Bounded, Age, Overtakes, Stray;
    PassSortedIff(k, quantum);
  }

  lemma ListedAgrees(r: Kernel, t: Tid)
    requires t in Members(r.ready) && NodeAgrees(r, t)
    requires forall e :: e in r.ready ==> Get(r, r.active).priority <= e.prio
    ensures Get(r, r.active).priority <= Get(r, t).priority
  {
  }
}
