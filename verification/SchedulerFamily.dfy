/** The lists of children, in every run: who is in them, in what order, and what the calls leave in them. */
module SchedulerFamily {
  import opened Basics
  import opened PriorityList
  import opened Waiters
  import opened SchedulerModel
  import opened SchedulerInvariant
  import opened SchedulerTiming

  // ----- what a cleaning leaves -------------------------------------------------------------------

  /** The children of a thread, from the youngest to the oldest. */
  function ChildrenOf(k: Kernel, t: Tid): seq<Tid> {
    Items(Get(k, t).children)
  }

  /** The sequence without t, in its order. */
  function Others(s: seq<Tid>, t: Tid): seq<Tid> {
    if s == [] then [] else (if s[0] == t then [] else [s[0]]) + Others(s[1..], t)
  }

  lemma {:induction false} OthersAbsent(s: seq<Tid>, t: Tid)
    requires t !in s
    ensures Others(s, t) == s
  {
    if s != [] {
      OthersAbsent(s[1..], t);
    }
  }

  lemma {:induction false} OthersAt(s: seq<Tid>, t: Tid, i: nat)
    requires i < |s| && s[i] == t && t !in s[..i] && t !in s[i + 1..]
    ensures Others(s, t) == s[..i] + s[i + 1..]
  {
    if i == 0 {
      OthersAbsent(s[1..], t);
    } else {
      assert s[1..][..i - 1] == s[..i][1..] && s[1..][i..] == s[i + 1..];
      OthersAt(s[1..], t, i - 1);
    }
  }

  lemma RemovedLeaves(q: Line, t: Tid)
    requires NoDup(q)
    ensures Items(Removed(q, t)) == Others(Items(q), t)
  {
    var i, s := IndexOf(q, t), Items(q);
    if i < |q| {
      assert forall j :: 0 <= j < |s| && j != i ==> s[j] != t;
      OthersAt(s, t, i);
      assert Items(Removed(q, t)) == s[..i] + s[i + 1..];
    } else {
      assert t !in s;
      OthersAbsent(s, t);
    }
  }

  /** Of the lists of children, wait_thread changes the caller's only, and takes nobody but the child that
      had exited from it; the rest of wait_thread, after its call of schedule, does the same. */
  lemma WaitLeavesOthers(k: Kernel, step: Step, t: Tid)
    requires Inv(k) && Enabled(k, step)
    requires step == WaitStep(t) || (step == FinishWaitStep && Get(k, k.active).awaiting == Some(t))
    ensures Next(k, step).Some?
    ensures var r, gone := Next(k, step).value, step.FinishWaitStep? || Get(k, t).state == Zombie;
      && r.threads.Keys == k.threads.Keys - (if gone then {t} else {})
      && ChildrenOf(r, k.active) == (if gone then Others(ChildrenOf(k, k.active), t) else ChildrenOf(k, k.active))
      && forall x :: x in r.threads && x != k.active ==> ChildrenOf(r, x) == ChildrenOf(k, x)
  {
    hide Removed, Items, Tables, Global, BlockedPlaces;
    InvJoins(k, k.active);
    RemovedLeaves(k.threads[k.active].children, t);
  }

  // ----- who is in the lists ------------------------------------------------------------------------

  /** The children that init takes off its list in the course of a run. */
  ghost function TakenIn(k: Kernel, steps: seq<Step>): set<Tid>
    decreases |steps|
  {
    if steps == [] || !Enabled(k, steps[0]) || Next(k, steps[0]).None? then {}
    else TakenBy(k, steps[0]) + TakenIn(Next(k, steps[0]).value, steps[1..])
  }

  function TakenBy(k: Kernel, step: Step): set<Tid> {
    if step.TakeChildStep? then Added(TailOf(Get(k, k.active).children)) else {}
  }

  /** Younger children stand before older ones. */
  ghost predicate ByAge(q: Line) {
    AllZero(q) && forall i, j :: 0 <= i < j < |q| ==> q[i].item > q[j].item
  }

  /** Thread t stands in the list of the thread that created it, unless init took it off its own. */
  ghost predicate Cared(k: Kernel, taken: set<Tid>, t: Tid) {
    t in k.threads && t != k.idle ==>
      var p := k.threads[t].parent;
      p in k.threads && (Child(k, p, t) || (t in taken && Some(p) == k.init))
  }

  ghost predicate Raised(k: Kernel, taken: set<Tid>) {
    && (forall t: Tid :: Cared(k, taken, t))
    && (forall t :: t in k.threads ==> ByAge(k.threads[t].children))
    && (forall t :: t in k.threads && k.threads[t].state == Zombie ==> k.threads[t].children == [])
  }

  /** The threads of r are those of k, with the same parents and children, and whoever exited had none. */
  ghost predicate SameFamily(k: Kernel, r: Kernel) {
    && r.threads.Keys == k.threads.Keys && r.idle == k.idle && r.init == k.init
    && forall t :: t in k.threads ==>
      && r.threads[t].parent == k.threads[t].parent && r.threads[t].children == k.threads[t].children
      && (r.threads[t].state == Zombie ==> k.threads[t].state == Zombie || k.threads[t].children == [])
  }

  lemma SameRaised(k: Kernel, r: Kernel, taken: set<Tid>)
    requires Raised(k, taken) && SameFamily(k, r)
    ensures Raised(r, taken)
  {
    hide ByAge;
    forall t: Tid ensures Cared(r, taken, t) {
      assert Cared(k, taken, t);
      if t in k.threads {
        assert Child(r, k.threads[t].parent, t) <==> Child(k, k.threads[t].parent, t);
      }
    }
  }

  // ----- the steps ----------------------------------------------------------------------------------

  lemma StopFamily(k: Kernel, step: Step)
    requires k.active in k.threads && Enabled(k, step) && Next(k, step).Some?
    requires step.SleepStep? || step.LockStep? || step.DelistStep?
    ensures SameFamily(k, Next(k, step).value)
  {
    hide Join, Rest, TailOf;
  }

  lemma EnlistFamily(k: Kernel, t: Tid)
    requires t in k.threads
    ensures SameFamily(k, Enlist(k, t))
  {
    hide Insert;
  }

  lemma ExitFamily(k: Kernel)
    requires Inv(k) && Enabled(k, ExitStep)
    ensures SameFamily(k, Exit(k))
  {
    hide Inv, Insert;
    Ids(k);
    InvJoins(k, k.active);
  }

  lemma JoinFamilyStays(k: Kernel, t: Tid)
    requires k.active in k.threads && t in k.threads && k.threads[t].state != Zombie && t != k.active
    ensures SameFamily(k, Wait(k, t))
  {
  }

  lemma CallsFamily(k: Kernel, step: Step)
    requires Inv(k) && Enabled(k, step) && Next(k, step).Some?
    requires step.SleepStep? || step.LockStep? || step.DelistStep? || step.UnlockStep? || step.ExitStep?
             || (step.WaitStep? && Get(k, step.t).state != Zombie)
    ensures SameFamily(k, Next(k, step).value)
  {
    hide Inv, SameFamily, Exit, Wait, Enlist;
    Ids(k);
    match step {
      case UnlockStep(t, _) =>
        InvHeld(k, t);
        EnlistFamily(k, t);
        SameButTransit(k, Enlist(k, t), k.transit - {t});
      case ExitStep => ExitFamily(k);
      case WaitStep(t) =>
        ChildOf(k, t);
        JoinFamilyStays(k, t);
      case _ => StopFamily(k, step);
    }
  }

  lemma SameButTransit(k: Kernel, r: Kernel, held: set<Tid>)
    requires SameFamily(k, r)
    ensures SameFamily(k, r.(transit := held))
  {
  }

  ghost predicate NoNewZombies(k: Kernel, r: Kernel) {
    forall t :: t in r.threads && r.threads[t].state == Zombie ==> t in k.threads && k.threads[t].state == Zombie
  }

  lemma {:induction false} WakeZombies(k: Kernel, now: nat)
    ensures NoNewZombies(k, Wake(k, now))
    decreases |k.sleeping|
  {
    hide Insert;
    if k.sleeping != [] {
      var e := k.sleeping[|k.sleeping| - 1];
      var rest := k.(sleeping := k.sleeping[..|k.sleeping| - 1]);
      if Get(k, e.item).wakeup < now {
        WakeZombies(Enlist(rest, e.item), now);
      }
    }
  }

  lemma SelectZombies(k: Kernel, now: nat)
    requires Select(k, now).Some?
    ensures NoNewZombies(k, Select(k, now).value)
  {
    hide Insert, Wake;
    WakeZombies(PutAway(k), now);
  }

  lemma ScheduleFamily(k: Kernel, quantum: bool, now: nat)
    requires Inv(k)
    ensures Schedule(k, quantum, now).Some? && SameFamily(k, Schedule(k, quantum, now).value)
  {
    hide Inv, Select, Age;
    AgeOnly(k, quantum);
    AgedKeeps(k, Age(k, quantum));
    SelectStatesOnly(Age(k, quantum), now);
    SelectZombies(Age(k, quantum), now);
    SelectActors(Age(k, quantum), now);
  }

  lemma SelectActors(k: Kernel, now: nat)
    requires Select(k, now).Some?
    ensures Select(k, now).value.idle == k.idle && Select(k, now).value.init == k.init
  {
    hide Insert, Wake;
    WakeActors(PutAway(k), now);
  }

  lemma {:induction false} WakeActors(k: Kernel, now: nat)
    ensures Wake(k, now).idle == k.idle && Wake(k, now).init == k.init
    decreases |k.sleeping|
  {
    hide Insert;
    if k.sleeping != [] {
      var e := k.sleeping[|k.sleeping| - 1];
      var rest := k.(sleeping := k.sleeping[..|k.sleeping| - 1]);
      if Get(k, e.item).wakeup < now {
        WakeActors(Enlist(rest, e.item), now);
      }
    }
  }

  /** A child goes to the head of its parent's list. */
  lemma BornFirst(k: Kernel, q: Line, t: Tid)
    requires ByAge(q) && forall x :: x in Members(q) ==> x < t
    ensures Insert(q, Entry(t, 0)) == [Entry(t, 0)] + q && ByAge([Entry(t, 0)] + q)
  {
    JoinIs(q, t);
    hide Insert;
    var r := [Entry(t, 0)] + q;
    assert forall i :: 0 < i < |r| ==> r[i] == q[i - 1] && q[i - 1] in q && q[i - 1].item in Members(q);
  }

  /** Thread t comes into being, as the youngest child of the active thread. */
  ghost predicate Born(k: Kernel, r: Kernel, t: Tid) {
    && k.active in k.threads && t !in k.threads && r.threads.Keys == k.threads.Keys + {t}
    && r.idle == k.idle && (k.init.Some? ==> r.init == k.init)
    && r.threads[t].parent == k.active && r.threads[t].children == [] && r.threads[t].state == Ready
    && forall x :: x in k.threads ==>
      && r.threads[x].parent == k.threads[x].parent && r.threads[x].state == k.threads[x].state
      && r.threads[x].children == (if x == k.active then [Entry(t, 0)] else []) + k.threads[x].children
  }

  lemma CreateBears(k: Kernel, priority: nat)
    requires Inv(k) && priority <= LOWEST_PRIORITY && ByAge(Get(k, k.active).children)
    ensures Born(k, Create(k, priority, AllGranted), k.lastPid + 1)
    ensures forall x :: x in Members(Get(k, k.active).children) ==> x < k.lastPid + 1
  {
    hide Inv, Insert, Members, ByAge;
    Ids(k);
    Younger(k, k.active);
    BornFirst(k, k.threads[k.active].children, k.lastPid + 1);
    assert forall x :: x in k.threads ==> [] + k.threads[x].children == k.threads[x].children;
  }

  lemma BornCared(k: Kernel, r: Kernel, t: Tid, taken: set<Tid>)
    requires Raised(k, taken) && Born(k, r, t)
    ensures forall x: Tid :: Cared(r, taken, x)
  {
    hide ByAge;
    forall x: Tid ensures Cared(r, taken, x) {
      assert Cared(k, taken, x);
      BornMembers(k.threads[k.active].children, t);
      if x in k.threads {
        var p := k.threads[x].parent;
        assert [] + Get(k, p).children == Get(k, p).children;
        assert Child(k, p, x) ==> Child(r, p, x);
      }
    }
  }

  lemma BornMembers(q: Line, t: Tid)
    ensures Members([Entry(t, 0)] + q) == Members(q) + {t}
  {
    var r := [Entry(t, 0)] + q;
    assert r[0] == Entry(t, 0);
    assert forall e :: e in r <==> e == Entry(t, 0) || e in q;
  }

  lemma BornRaised(k: Kernel, r: Kernel, t: Tid, taken: set<Tid>)
    requires Raised(k, taken) && Born(k, r, t) && (forall x :: x in Members(Get(k, k.active).children) ==> x < t)
    requires k.threads[k.active].state != Zombie
    ensures Raised(r, taken)
  {
    BornCared(k, r, t, taken);
    hide Cared, ByAge, Members;
    NoChildren();
    BornFirst(k, k.threads[k.active].children, t);
    forall x | x in r.threads ensures ByAge(r.threads[x].children) {
      if x in k.threads && x != k.active {
        assert [] + k.threads[x].children == k.threads[x].children;
      }
    }
    forall x | x in r.threads && r.threads[x].state == Zombie ensures r.threads[x].children == [] {
      assert x in k.threads && x != k.active;
    }
  }

  lemma CreateRaised(k: Kernel, taken: set<Tid>, priority: nat)
    requires Inv(k) && Raised(k, taken) && Enabled(k, CreateStep(priority, AllGranted)) && priority <= LOWEST_PRIORITY
    ensures Raised(Create(k, priority, AllGranted), taken)
  {
    hide Inv, Born, Create, ByAge, Cared;
    Ids(k);
    CreateBears(k, priority);
    BornRaised(k, Create(k, priority, AllGranted), k.lastPid + 1, taken);
  }

  lemma NoChildren()
    ensures ByAge([]) && Members([]) == {}
  {
  }

  lemma Younger(k: Kernel, p: Tid)
    requires Inv(k) && p in k.threads
    ensures forall x :: x in Members(k.threads[p].children) ==> x < k.lastPid + 1
  {
    forall x | x in Members(k.threads[p].children) ensures x < k.lastPid + 1 {
      assert Child(k, p, x);
    }
  }

  lemma TakeChildRaised(k: Kernel, taken: set<Tid>)
    requires Inv(k) && Raised(k, taken) && Enabled(k, TakeChildStep)
    ensures Raised(TakeChild(k), taken + TakenBy(k, TakeChildStep))
  {
    InvFamily(k, k.active);
    hide Inv, NoDup, Members, ByAge, Rest, TailOf, Cared;
    TakenCared(k, taken);
    RestByAge(k.threads[k.active].children);
  }

  lemma TakenCared(k: Kernel, taken: set<Tid>)
    requires Inv(k) && Raised(k, taken) && Enabled(k, TakeChildStep)
    ensures forall x: Tid :: Cared(TakeChild(k), taken + TakenBy(k, TakeChildStep), x)
  {
    hide Inv, NoDup, Members, ByAge, Rest, TailOf;
    InvFamily(k, k.active);
    RestFamily(k.threads[k.active].children);
    var u := TakenBy(k, TakeChildStep);
    forall x: Tid ensures Cared(TakeChild(k), taken + u, x) {
      assert Cared(k, taken, x);
      if x in u {
        assert Child(k, k.active, x);
        InvParent(k, k.active, x);
      }
    }
  }

  lemma RestFamily(q: Line)
    requires NoDup(q)
    ensures Members(Rest(q)) == Members(q) - Added(TailOf(q)) && Added(TailOf(q)) <= Members(q)
  {
    if q != [] {
      TailMembers(q);
    }
  }

  lemma RestByAge(q: Line)
    requires ByAge(q)
    ensures ByAge(Rest(q)) && (q == [] ==> Rest(q) == [])
  {
  }

  lemma InvFamily(k: Kernel, p: Tid)
    requires Inv(k)
    ensures p in k.threads ==> NoDup(k.threads[p].children)
    ensures k.active in k.threads
  {
  }

  lemma InvParent(k: Kernel, p: Tid, c: Tid)
    requires Inv(k) && Child(k, p, c)
    ensures c in k.threads && c != p && c != k.idle && k.threads[c].parent == p
  {
  }

  lemma RemovedByAge(q: Line, t: Tid)
    requires ByAge(q)
    ensures ByAge(Removed(q, t)) && (q == [] ==> Removed(q, t) == [])
  {
    var i := IndexOf(q, t);
    if i < |q| {
      WithoutByAge(q, i);
    }
  }

  lemma WithoutByAge(q: Line, i: nat)
    requires ByAge(q) && i < |q|
    ensures ByAge(Without(q, i))
  {
    var r := Without(q, i);
    assert forall j :: 0 <= j < |r| ==> r[j] == q[if j < i then j else j + 1];
  }

  /** Thread t, which had no children, is gone, and its parent's list is without it. */
  ghost predicate Gone(k: Kernel, r: Kernel, t: Tid) {
    && k.active in k.threads && t in k.threads && t != k.active && r.threads.Keys == k.threads.Keys - {t}
    && r.idle == k.idle && r.init == k.init && Some(t) != k.init
    && k.threads[t].state == Zombie
    && forall x :: x in r.threads ==>
      && r.threads[x].parent == k.threads[x].parent && r.threads[x].state == k.threads[x].state
      && r.threads[x].children == if x == k.active then Removed(k.threads[x].children, t) else k.threads[x].children
  }

  lemma GoneCared(k: Kernel, r: Kernel, t: Tid, taken: set<Tid>)
    requires Raised(k, taken) && Gone(k, r, t) && NoDup(k.threads[k.active].children)
    ensures forall x: Tid :: Cared(r, taken, x)
  {
    hide ByAge, NoDup, Removed;
    RemovedMembers(k.threads[k.active].children, t);
    assert Members([]) == {} by { NobodyThere(); }
    forall x: Tid ensures Cared(r, taken, x) {
      assert Cared(k, taken, x);
      if x in r.threads && x != k.idle {
        assert k.threads[x].parent != t;
      }
    }
  }

  /** Whoever is cleaned has no children left, so nobody loses its parent. */
  lemma GoneRaised(k: Kernel, r: Kernel, t: Tid, taken: set<Tid>)
    requires Raised(k, taken) && Gone(k, r, t) && NoDup(k.threads[k.active].children)
    ensures Raised(r, taken)
  {
    GoneCared(k, r, t, taken);
    hide Cared, ByAge, NoDup, Removed;
    RemovedByAge(k.threads[k.active].children, t);
  }

  lemma CleanGone(k: Kernel, t: Tid)
    requires k.active in k.threads && t in k.threads && t != k.active && Some(t) != k.init
    requires k.threads[t].state == Zombie
    ensures Gone(k, Clean(k, t), t)
  {
    hide Removed;
  }

  lemma WaitRaised(k: Kernel, taken: set<Tid>, t: Tid)
    requires Inv(k) && Raised(k, taken) && Enabled(k, WaitStep(t)) && Get(k, t).state == Zombie
    ensures Raised(Wait(k, t), taken)
  {
    hide Inv, Raised, NoDup, Clean, Gone;
    Ids(k);
    InvFamily(k, k.active);
    ChildOf(k, t);
    CleanGone(k, t);
    GoneRaised(k, Clean(k, t), t, taken);
  }

  lemma FinishRaised(k: Kernel, taken: set<Tid>)
    requires Inv(k) && Raised(k, taken) && Enabled(k, FinishWaitStep)
    ensures Raised(FinishWait(k), taken)
  {
    hide Inv, Raised, NoDup, Clean, Gone;
    Ids(k);
    InvFamily(k, k.active);
    InvJoins(k, k.active);
    FinishWaitKeeps(k);
    var t := k.threads[k.active].awaiting.value;
    var m := Put(k, k.active, k.threads[k.active].(awaiting := None));
    SameRaised(k, m, taken);
    CleanGone(m, t);
    GoneRaised(m, Clean(m, t), t, taken);
  }

  lemma StepRaised(k: Kernel, taken: set<Tid>, step: Step)
    requires Inv(k) && Raised(k, taken) && Enabled(k, step) && Next(k, step).Some?
    ensures Raised(Next(k, step).value, taken + TakenBy(k, step))
  {
    hide Inv, Raised, SameFamily, Create, Sleep, Lock, Delist, Unlock, TakeChild, Wait, FinishWait, Exit, Schedule;
    var r := Next(k, step).value;
    assert !step.TakeChildStep? ==> taken + TakenBy(k, step) == taken;
    match step {
      case TakeChildStep => TakeChildRaised(k, taken);
      case CreateStep(priority, memory) => CreatesRaised(k, taken, priority, memory);
      case FinishWaitStep => FinishRaised(k, taken);
      case WaitStep(t) =>
        if Get(k, t).state == Zombie {
          WaitRaised(k, taken, t);
        } else {
          CallsFamily(k, step);
          SameRaised(k, r, taken);
        }
      case ScheduleStep(quantum, now) =>
        ScheduleFamily(k, quantum, now);
        SameRaised(k, r, taken);
      case _ =>
        CallsFamily(k, step);
        SameRaised(k, r, taken);
    }
  }

  lemma CreatesRaised(k: Kernel, taken: set<Tid>, priority: nat, memory: Granted)
    requires Inv(k) && Raised(k, taken) && Enabled(k, CreateStep(priority, memory))
    ensures Raised(Create(k, priority, memory), taken)
  {
    hide Inv, Raised;
    if priority <= LOWEST_PRIORITY && memory == AllGranted {
      CreateRaised(k, taken, priority);
    } else {
      SameRaised(k, Create(k, priority, memory), taken);
    }
  }

  // ----- all runs -----------------------------------------------------------------------------------

  lemma {:induction false} RunRaised(k: Kernel, taken: set<Tid>, steps: seq<Step>, r: Outcome)
    requires Inv(k) && Raised(k, taken) && SchedulerInvariant.Run(k, steps, r)
    ensures r.Reached? ==> Raised(r.k, taken + TakenIn(k, steps))
    decreases |steps|
  {
    hide Inv, Raised, Enabled, Next, TakenBy;
    if steps == [] {
      assert taken + {} == taken;
    } else if Next(k, steps[0]).Some? {
      var n := Next(k, steps[0]).value;
      StepKeeps(k, steps[0]);
      StepRaised(k, taken, steps[0]);
      RunRaised(n, taken + TakenBy(k, steps[0]), steps[1..], r);
      assert taken + TakenBy(k, steps[0]) + TakenIn(n, steps[1..]) == taken + (TakenBy(k, steps[0]) + TakenIn(n, steps[1..]));
    }
  }

  lemma BootRaised()
    ensures Raised(Boot(), {})
  {
    NoChildren();
  }

  /** In every run: every thread but idle has a parent that still exists, and stands in its parent's
      list, unless it is a child that init took off its own list; the lists go from the youngest child
      to the oldest; and whoever has exited has no children. */
  lemma EveryRunListed(steps: seq<Step>, r: Outcome)
    requires SchedulerInvariant.Run(Boot(), steps, r) && r.Reached?
    ensures forall t :: t in r.k.threads && t != r.k.idle ==>
      var p := r.k.threads[t].parent;
      p in r.k.threads && (t in ChildrenOf(r.k, p) || (t in TakenIn(Boot(), steps) && Some(p) == r.k.init))
    ensures forall p, i, j :: p in r.k.threads && 0 <= i < j < |ChildrenOf(r.k, p)| ==> ChildrenOf(r.k, p)[i] > ChildrenOf(r.k, p)[j]
    ensures forall t :: t in r.k.threads && r.k.threads[t].state == Zombie ==> ChildrenOf(r.k, t) == []
  {
    hide SchedulerInvariant.Run, Raised, Boot, Inv;
    BootHolds();
    BootRaised();
    RunRaised(Boot(), {}, steps, r);
    assert {} + TakenIn(Boot(), steps) == TakenIn(Boot(), steps);
    Listed(r.k, TakenIn(Boot(), steps));
  }

  lemma Listed(k: Kernel, taken: set<Tid>)
    requires Raised(k, taken)
    ensures forall t :: t in k.threads && t != k.idle ==>
      var p := k.threads[t].parent;
      p in k.threads && (t in ChildrenOf(k, p) || (t in taken && Some(p) == k.init))
    ensures forall p, i, j :: p in k.threads && 0 <= i < j < |ChildrenOf(k, p)| ==> ChildrenOf(k, p)[i] > ChildrenOf(k, p)[j]
    ensures forall t :: t in k.threads && k.threads[t].state == Zombie ==> ChildrenOf(k, t) == []
  {
    forall t | t in k.threads && t != k.idle
      ensures var p := k.threads[t].parent;
        p in k.threads && (t in ChildrenOf(k, p) || (t in taken && Some(p) == k.init))
    {
      assert Cared(k, taken, t);
      var p := k.threads[t].parent;
      if Child(k, p, t) {
        var i :| 0 <= i < |k.threads[p].children| && k.threads[p].children[i].item == t;
        assert ChildrenOf(k, p)[i] == t;
      }
    }
  }
}
