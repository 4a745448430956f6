/** Counting semaphores. Each atomic section, from spinlock_lock to spinlock_unlock, is one step;
    threads interleave between sections in any way. */
module Semaphore {
  import opened Basics
  import opened PriorityList
  import opened Waiters
  import KernelList
  import opened ThreadLists

  datatype Code = NoError | Locked | Uninitialized | Blocked

  datatype Sem = Sem(level: int, init: int, waiting: Line)

  /** Two's complement truncation to 8 bits. */
  function Int8(x: int): int {
    (x + 128) % 256 - 128
  }

  /** One pass of sem_pend by thread t through its section: on entry, or after being woken. */
  function Pend(s: Sem, t: Tid): (Sem, Code) {
    if s.init != 1 then (s, Uninitialized)
    else if s.level < 1 then (s.(waiting := Join(s.waiting, t)), Blocked)
    else (s.(level := Int32(s.level - 1)), NoError)
  }

  /** sem_post; the second component is the thread taken off the list to be unlocked. */
  function Post(s: Sem): (Sem, Option<Tid>) {
    if s.init != 1 then (s, None)
    else
      var r := s.(level := Int32(s.level + 1));
      if r.level > 0 then (r.(waiting := Rest(s.waiting)), TailOf(s.waiting)) else (r, None)
  }

  /** sem_try_pend, with the value stored through its pointer. */
  function TryPend(s: Sem): (Sem, Code, int) {
    if s.init != 1 then (s, Uninitialized, 0)
    else if s.level < 1 then (s, Locked, Int8(s.level))
    else (s.(level := Int32(s.level - 1)), NoError, Int8(Int32(s.level - 1)))
  }

  /** sem_destroy wakes every waiting thread. */
  function Destroy(s: Sem): Sem {
    if s.init != 1 then s else Sem(s.level, 0, [])
  }

  class Semaphore {
    var level: int
    var init: int
    const waiting: KernelList.List

    ghost function View(): Sem
      reads this, waiting, waiting.nodes
    {
      Sem(level, init, Threads(waiting))
    }

    /** The nodes of the waiting threads are well linked, each thread stands there once, in the order
        of arrival. */
    ghost predicate Valid()
      reads this, waiting, waiting.nodes
    {
      waiting.Valid() && Proper(Threads(waiting))
    }

    constructor (initLevel: int)
      ensures Valid() && fresh(waiting) && View() == Sem(initLevel, 1, [])
    {
      level, init := initLevel, 1;
      waiting := new KernelList.List();
    }

    /** One pass of sem_pend by the thread of the node. It gets a unit if there is one, and else goes to
        the end of the line; the panics of enlisting are unreachable. */
    method PendSection(node: KernelList.Node) returns (code: Code, panic: bool)
      requires Valid() && node.data !in Members(Threads(waiting))
      modifies this, waiting, waiting.nodes, node
      ensures Valid() && !panic && (View(), code) == Pend(old(View()), node.data)
      ensures code == Uninitialized <==> old(init) != 1
      ensures code == Blocked <==> old(init) == 1 && old(level) < 1
      ensures code == NoError <==> old(init) == 1 && old(level) >= 1
      ensures init == old(init) && level == if code == NoError then Int32(old(level) - 1) else old(level)
      ensures Order(Threads(waiting)) == old(Order(Threads(waiting))) + if code == Blocked then [node.data] else []
    {
      panic := false;
      if init != 1 {
        return Uninitialized, panic;
      }
      if init == 1 && level < 1 {
        Arrives(waiting, node);
        panic := EnlistThread(node, waiting, 0);
        return Blocked, panic;
      }
      level := Int32(level - 1);
      code := NoError;
    }

    /** Provides a unit, and takes the thread that waits longest off the line if the level is above 0. */
    method PostSection() returns (code: Code, woken: KernelList.Node?, panic: bool)
      requires Valid()
      modifies this, waiting, waiting.nodes
      ensures Valid() && !panic && (View(), Pid(woken)) == Post(old(View()))
      ensures code == if old(init) != 1 then Uninitialized else NoError
      ensures init == old(init) && level == if code == NoError then Int32(old(level) + 1) else old(level)
      ensures old(Order(Threads(waiting))) == First(woken) + Order(Threads(waiting))
      ensures woken == null && code == NoError && level > 0 ==> Threads(waiting) == []
      ensures woken != null ==> code == NoError && level > 0
    {
      woken, panic := null, false;
      if init != 1 {
        return Uninitialized, woken, panic;
      }
      level := Int32(level + 1);
      if level > 0 {
        woken, panic := TakeFirst(waiting);
      }
      code := NoError;
    }

    method TryPendSection() returns (code: Code, value: int)
      modifies this`level
      ensures (View(), code, value) == TryPend(old(View()))
      ensures code == Uninitialized <==> init != 1
      ensures code == Locked <==> init == 1 && old(level) < 1
      ensures code == NoError <==> init == 1 && old(level) >= 1
      ensures level == if code == NoError then Int32(old(level) - 1) else old(level)
      ensures code != Uninitialized ==> -128 <= value < 128 && (level - value) % 256 == 0
    {
      if init != 1 {
        return Uninitialized, 0;
      }
      if level < 1 {
        return Locked, Int8(level);
      }
      level := Int32(level - 1);
      return NoError, Int8(level);
    }

    /** Unlocks the waiting threads one by one, from the tail of the list. */
    method DestroySection() returns (code: Code, woken: seq<Tid>, panic: bool)
      requires Valid()
      modifies this, waiting, waiting.nodes
      ensures Valid() && !panic && View() == Destroy(old(View()))
      ensures code == if old(init) != 1 then Uninitialized else NoError
      ensures woken == if old(init) != 1 then [] else old(Order(Threads(waiting)))
      ensures init != 1 && level == old(level)
      ensures code == NoError ==> init == 0 && Threads(waiting) == []
    {
      woken, panic := [], false;
      if init != 1 {
        return Uninitialized, woken, panic;
      }
      init := 0;
      woken, panic := DelistAll(waiting);
      code := NoError;
    }
  }

  /** What sem_pend answers, and when: an error exactly if the semaphore is not initialized; a place at
      the end of the line exactly if no unit is left; a unit else. Nothing else changes. */
  lemma PendAnswers(s: Sem, t: Tid)
    requires AllZero(s.waiting)
    ensures var (r, code) := Pend(s, t);
      && (code == Uninitialized <==> s.init != 1)
      && (code == Blocked <==> s.init == 1 && s.level < 1)
      && (code == NoError <==> s.init == 1 && s.level >= 1)
      && r.init == s.init
      && Order(r.waiting) == Order(s.waiting) + (if code == Blocked then [t] else [])
      && (code == NoError && IsInt32(s.level) ==> r.level == s.level - 1)
      && (code != NoError ==> r.level == s.level)
      && (code != Blocked ==> r.waiting == s.waiting)
  {
    JoinGoesLast(s.waiting, t);
  }

  /** The answer of sem_try_pend is the level that it leaves, in 8 bits. */
  lemma TryPendAnswers(s: Sem)
    ensures var (r, code, value) := TryPend(s);
      && (code == Uninitialized <==> s.init != 1)
      && (code == Locked <==> s.init == 1 && s.level < 1)
      && code != Blocked
      && (code != Uninitialized ==> -128 <= value < 128 && (r.level - value) % 256 == 0)
      && (code == NoError && IsInt32(s.level) ==> r == s.(level := s.level - 1))
  {
    hide Int8, Int32;
    Int8Near(TryPend(s).0.level);
    Int32Limits(s.level);
  }

  lemma Int8Near(x: int)
    ensures -128 <= Int8(x) < 128 && (x - Int8(x)) % 256 == 0
  {
  }

  /** A destroyed semaphore: whatever is called answers that it is not initialized, and changes nothing. */
  lemma DestroyedAnswers(s: Sem, t: Tid)
    requires s.init != 1
    ensures Pend(s, t) == (s, Uninitialized) && TryPend(s).0 == s && TryPend(s).1 == Uninitialized
    ensures Post(s) == (s, None) && Destroy(s) == s
  {
  }

  /** sem_try_pend acquires exactly when sem_pend would not wait, to the same effect; it never waits. */
  lemma TryPendIff(s: Sem, t: Tid)
    ensures TryPend(s).1 == NoError <==> Pend(s, t).1 == NoError
    ensures TryPend(s).1 == NoError ==> TryPend(s).0 == Pend(s, t).0
    ensures TryPend(s).1 != NoError ==> TryPend(s).0 == s
  {
  }

  // ----- threads around one semaphore -----------------------------------------------------------

  /** Besides the semaphore: the threads taken off its list but not unlocked yet, the threads
      unlocked but not back in their section yet, and how often the level went up and down. */
  datatype System = System(sem: Sem, transit: set<Tid>, woken: set<Tid>,
                           initial: int, posts: nat, taken: nat)

  datatype Step =
    | EnterPend(t: Tid)
    | Recheck(t: Tid)
    | PostStep
    | Unlock(t: Tid)
    | TryPendStep
    | DestroyStep

  predicate Enabled(s: System, step: Step) {
    match step
    case EnterPend(t) => t !in Members(s.sem.waiting) && t !in s.transit && t !in s.woken
    case Recheck(t) => t in s.woken
    case Unlock(t) => t in s.transit
    case _ => true
  }

  function Counted(s: System, code: Code): System {
    if code == NoError then s.(taken := s.taken + 1) else s
  }

  function Next(s: System, step: Step): System
    requires Enabled(s, step)
  {
    match step
    case EnterPend(t) =>
      var (r, code) := Pend(s.sem, t);
      Counted(s.(sem := r), code)
    case Recheck(t) =>
      var (r, code) := Pend(s.sem, t);
      Counted(s.(sem := r, woken := s.woken - {t}), code)
    case PostStep =>
      var (r, u) := Post(s.sem);
      s.(sem := r, transit := s.transit + Added(u),
         posts := if s.sem.init == 1 then s.posts + 1 else s.posts)
    case Unlock(t) => s.(transit := s.transit - {t}, woken := s.woken + {t})
    case TryPendStep =>
      var (r, code, _) := TryPend(s.sem);
      Counted(s.(sem := r), code)
    case DestroyStep => s.(sem := Destroy(s.sem), woken := s.woken + Members(s.sem.waiting))
  }

  function Start(initial: int): System {
    System(Sem(initial, 1, []), {}, {}, initial, 0, 0)
  }

  lemma Int32Down(x: int)
    ensures Int32(Int32(x) - 1) == Int32(x - 1) && IsInt32(Int32(x - 1))
  {
  }

  lemma Int32Up(x: int)
    ensures Int32(Int32(x) + 1) == Int32(x + 1) && IsInt32(Int32(x + 1))
  {
  }

  lemma Int32Step(x: int)
    ensures Int32(Int32(x) - 1) == Int32(x - 1) && IsInt32(Int32(x - 1))
    ensures Int32(Int32(x) + 1) == Int32(x + 1) && IsInt32(Int32(x + 1))
  {
    hide Int32;
    Int32Down(x);
    Int32Up(x);
  }

  lemma Int32Limits(x: int)
    ensures Int32(x + 1) > 0 && IsInt32(x) ==> Int32(x + 1) == x + 1
    ensures x >= 1 && IsInt32(x) ==> Int32(x - 1) == x - 1
  {
  }

  /** A level of one or more means that more went in than was taken out, even after wrap-around. */
  lemma LevelMeansUnits(s: System)
    requires IsInt32(s.initial) && s.taken <= s.posts + Max0(s.initial)
    requires Int32(s.initial + s.posts - s.taken) >= 1
    ensures s.initial + s.posts - s.taken >= 1
  {
    var x := s.initial + s.posts - s.taken;
    assert IsInt32(x) ==> Int32(x) == x;
  }

  function Max0(x: int): int {
    if x < 0 then 0 else x
  }

  /** The level is what went in less what was taken out, no wakeup is lost while somebody waits,
      and no more is taken than was provided. */
  ghost predicate Inv(s: System) {
    var w := s.sem.waiting;
    && Proper(w) && Members(w) !! s.transit && Members(w) !! s.woken && s.transit !! s.woken
    && IsInt32(s.initial) && IsInt32(s.sem.level)
    && s.sem.level == Int32(s.initial + s.posts - s.taken)
    && s.taken <= s.posts + Max0(s.initial)
    && (w != [] ==> |s.transit| + |s.woken| >= Max0(s.sem.level))
    && (s.sem.init != 1 ==> s.sem.init == 0 && w == [])
  }

  lemma PendKeeps(s: System, t: Tid)
    requires Inv(s) && t !in Members(s.sem.waiting) && t !in s.transit && t !in s.woken
    ensures Inv(Next(s, EnterPend(t)))
  {
    hide Int32, Proper, Insert;
    Int32Step(s.initial + s.posts - s.taken);
    Int32Limits(s.sem.level);
    if s.sem.init == 1 && s.sem.level < 1 {
      JoinProper(s.sem.waiting, t);
    } else if s.sem.init == 1 {
      LevelMeansUnits(s);
    }
  }

  lemma RecheckTakes(s: System, t: Tid)
    requires Inv(s) && t in s.woken && s.sem.init == 1 && s.sem.level >= 1
    ensures Inv(Next(s, Recheck(t)))
  {
    Int32Step(s.initial + s.posts - s.taken);
    Int32Limits(s.sem.level);
    LevelMeansUnits(s);
    hide Int32, Proper;
    assert |s.woken - {t}| == |s.woken| - 1;
  }

  lemma RecheckKeeps(s: System, t: Tid)
    requires Inv(s) && t in s.woken
    ensures Inv(Next(s, Recheck(t)))
  {
    if s.sem.init == 1 && s.sem.level >= 1 {
      RecheckTakes(s, t);
    } else {
      hide Int32, Proper;
      assert t !in Members(s.sem.waiting);
      JoinProper(s.sem.waiting, t);
    }
  }

  lemma PostKeeps(s: System)
    requires Inv(s)
    ensures Inv(Next(s, PostStep))
  {
    Int32Step(s.initial + s.posts - s.taken);
    Int32Limits(s.sem.level);
    hide Int32, Proper, Insert;
    RestProper(s.sem.waiting);
    if s.sem.waiting != [] {
      var u := TailOf(s.sem.waiting).value;
      assert u in Added(TailOf(s.sem.waiting));
      assert |s.transit + {u}| == |s.transit| + 1;
    }
  }

  lemma UnlockKeeps(s: System, t: Tid)
    requires Inv(s) && t in s.transit
    ensures Inv(Next(s, Unlock(t)))
  {
    assert |s.transit - {t}| == |s.transit| - 1;
    assert |s.woken + {t}| == |s.woken| + 1;
  }

  lemma TryPendKeeps(s: System)
    requires Inv(s)
    ensures Inv(Next(s, TryPendStep))
  {
    Int32Step(s.initial + s.posts - s.taken);
    Int32Limits(s.sem.level);
    hide Int32, Proper, Insert;
    if s.sem.level >= 1 {
      LevelMeansUnits(s);
    }
  }

  lemma StepKeeps(s: System, step: Step)
    requires Inv(s) && Enabled(s, step)
    ensures Inv(Next(s, step))
  {
    match step {
      case EnterPend(t) => PendKeeps(s, t);
      case Recheck(t) => RecheckKeeps(s, t);
      case PostStep => PostKeeps(s);
      case Unlock(t) => UnlockKeeps(s, t);
      case TryPendStep => TryPendKeeps(s);
      case DestroyStep =>
    }
  }

  ghost predicate Run(s: System, steps: seq<Step>, r: System)
    decreases |steps|
  {
    if steps == [] then s == r
    else Enabled(s, steps[0]) && Run(Next(s, steps[0]), steps[1..], r)
  }

  lemma {:induction false} RunKeeps(s: System, steps: seq<Step>, r: System)
    requires Inv(s) && Run(s, steps, r)
    ensures Inv(r)
    decreases |steps|
  {
    if steps != [] {
      StepKeeps(s, steps[0]);
      RunKeeps(Next(s, steps[0]), steps[1..], r);
    }
  }

  /** Over every interleaving: the level law, the bound on acquisitions, and no lost wakeup. */
  lemma EveryRun(initial: int, steps: seq<Step>, r: System)
    requires IsInt32(initial) && Run(Start(initial), steps, r)
    ensures r.sem.level == Int32(r.initial + r.posts - r.taken)
    ensures r.taken <= r.posts + Max0(r.initial)
    ensures r.sem.waiting != [] ==> |r.transit| + |r.woken| >= Max0(r.sem.level)
    ensures r.sem.waiting != [] && r.sem.level > 0 ==> exists t :: t in r.transit || t in r.woken
  {
    RunKeeps(Start(initial), steps, r);
    if r.transit == {} && r.woken == {} {
      assert |r.transit| + |r.woken| == 0;
    } else if r.transit != {} {
      var t :| t in r.transit;
    } else {
      var t :| t in r.woken;
    }
  }

  // ----- waiting is reached ------------------------------------------------------------------------

  /** In every reachable state, a thread that enters sem_pend comes to stand in the line exactly if no
      unit is left, and acquires exactly if one is; likewise a woken thread that looks again. */
  lemma EveryPendWaitsIff(initial: int, steps: seq<Step>, r: System, t: Tid)
    requires IsInt32(initial) && Run(Start(initial), steps, r)
    ensures Enabled(r, EnterPend(t)) ==> Waits(r, Next(r, EnterPend(t)), t)
    ensures Enabled(r, Recheck(t)) ==> Waits(r, Next(r, Recheck(t)), t) && t !in Next(r, Recheck(t)).woken
  {
    RunKeeps(Start(initial), steps, r);
    JoinMembers(r.sem.waiting, t);
  }

  ghost predicate Waits(s: System, r: System, t: Tid) {
    && (t in Members(r.sem.waiting) <==> s.sem.init == 1 && s.sem.level < 1)
    && r.taken == s.taken + (if s.sem.init == 1 && s.sem.level >= 1 then 1 else 0)
  }

  lemma {:induction false} RunThen(s: System, steps: seq<Step>, m: System, step: Step)
    requires Run(s, steps, m) && Enabled(m, step)
    ensures Run(s, steps + [step], Next(m, step))
    decreases |steps|
  {
    hide Enabled, Next;
    if steps == [] {
      assert [step][1..] == [];
      assert Run(Next(m, step), [], Next(m, step));
    } else {
      RunThen(Next(s, steps[0]), steps[1..], m, step);
      assert (steps + [step])[1..] == steps[1..] + [step];
    }
  }

  /** After k calls of sem_pend by thread 1 there are k units less. */
  lemma {:induction false} Drained(initial: int, k: nat) returns (steps: seq<Step>, r: System)
    requires IsInt32(initial) && k <= Max0(initial)
    ensures Run(Start(initial), steps, r) && r == Start(initial).(sem := Sem(initial - k, 1, []), taken := k)
  {
    if k == 0 {
      steps, r := [], Start(initial);
    } else {
      var before, s := Drained(initial, k - 1);
      assert Members([]) == {};
      Int32Limits(s.sem.level);
      RunThen(Start(initial), before, s, EnterPend(1));
      steps, r := before + [EnterPend(1)], Next(s, EnterPend(1));
    }
  }

  /** Whatever the initial level, some run brings a thread to wait. */
  lemma SomeoneWaits(initial: int) returns (steps: seq<Step>, r: System)
    requires IsInt32(initial)
    ensures Run(Start(initial), steps, r) && r.sem.init == 1 && Order(r.sem.waiting) == [2]
  {
    var before, s := Drained(initial, Max0(initial));
    assert Members([]) == {};
    RunThen(Start(initial), before, s, EnterPend(2));
    steps, r := before + [EnterPend(2)], Next(s, EnterPend(2));
    PendAnswers(s.sem, 2);
  }

  // ----- destruction -------------------------------------------------------------------------------

  lemma {:induction false} StaysDestroyed(s: System, steps: seq<Step>, r: System)
    requires s.sem.init != 1 && s.sem.waiting == [] && Run(s, steps, r)
    ensures r.sem == s.sem
    decreases |steps|
  {
    if steps != [] {
      var n := Next(s, steps[0]);
      assert n.sem == s.sem by {
        DestroyedAnswers(s.sem, 0);
      }
      StaysDestroyed(n, steps[1..], r);
    }
  }

  /** Over every interleaving: once destroyed, a semaphore stays as it is, uninitialized and with nobody
      waiting, whatever is called; whoever waited is woken by the destruction; and a thread that looks
      again, or comes new, is told at once, and waits for nothing. */
  lemma EveryRunDestroyed(initial: int, before: seq<Step>, s: System, after: seq<Step>, r: System, t: Tid)
    requires IsInt32(initial) && Run(Start(initial), before, s) && Run(Next(s, DestroyStep), after, r)
    ensures Members(s.sem.waiting) <= Next(s, DestroyStep).woken
    ensures r.sem.init == 0 && r.sem.waiting == [] && r.sem.level == s.sem.level
    ensures Pend(r.sem, t).1 == Uninitialized
    ensures t in r.woken ==> Next(r, Recheck(t)) == r.(woken := r.woken - {t})
    ensures Enabled(r, EnterPend(t)) ==> Next(r, EnterPend(t)) == r
  {
    hide Run, Inv, Next, Pend, Members;
    StartHolds(initial);
    RunKeeps(Start(initial), before, s);
    DestroyWakes(s);
    StaysDestroyed(Next(s, DestroyStep), after, r);
    LooksAgain(r, t);
  }

  lemma StartHolds(initial: int)
    requires IsInt32(initial)
    ensures Inv(Start(initial))
  {
  }

  lemma DestroyWakes(s: System)
    requires Inv(s)
    ensures var r := Next(s, DestroyStep);
      Members(s.sem.waiting) <= r.woken && r.sem == Sem(s.sem.level, 0, [])
  {
    hide Int32, Proper;
    assert Members([]) == {};
  }

  lemma LooksAgain(r: System, t: Tid)
    requires r.sem.init == 0
    ensures Pend(r.sem, t).1 == Uninitialized
    ensures t in r.woken ==> Next(r, Recheck(t)) == r.(woken := r.woken - {t})
    ensures Enabled(r, EnterPend(t)) ==> Next(r, EnterPend(t)) == r
  {
    DestroyedAnswers(r.sem, t);
  }
}
