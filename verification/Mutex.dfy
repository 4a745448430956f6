/** Mutexes. Each atomic section, from spinlock_lock to spinlock_unlock, is one step; threads
    interleave between sections in any way. */
module Mutex {
  import opened Basics
  import opened PriorityList
  import opened Waiters
  import KernelList
  import opened ThreadLists

  datatype Code = NoError | Locked | Uninitialized | Blocked

  datatype State = State(state: int, recursive: bool, locker: Tid, init: int, waiting: Line)

  /** One pass of mutex_pend by thread t through its section: on entry, or after being woken. */
  function Pend(m: State, t: Tid): (State, Code) {
    if m.init != 1 then (m, Uninitialized)
    else if m.state != 1 && !(m.recursive && t == m.locker) then
      (m.(waiting := Join(m.waiting, t)), Blocked)
    else (m.(state := 0, locker := t), NoError)
  }

  function Post(m: State): (State, Option<Tid>) {
    if m.init != 1 then (m, None)
    else (m.(state := 1, waiting := Rest(m.waiting)), TailOf(m.waiting))
  }

  /** mutex_try_pend does not record the new owner. */
  function TryPend(m: State): (State, Code) {
    if m.init != 1 then (m, Uninitialized)
    else if m.state != 1 then (m, Locked)
    else (m.(state := 0), NoError)
  }

  function Destroy(m: State): State {
    if m.init != 1 then m else m.(init := 0, waiting := [])
  }

  class Mutex {
    var state: int
    var recursive: bool
    var locker: Tid
    var init: int
    const waiting: KernelList.List

    ghost function View(): State
      reads this, waiting, waiting.nodes
    {
      State(state, recursive, locker, init, Threads(waiting))
    }

    /** The nodes of the waiting threads are well linked, each thread stands there once, in the order
        of arrival. */
    ghost predicate Valid()
      reads this, waiting, waiting.nodes
    {
      waiting.Valid() && Proper(Threads(waiting))
    }

    constructor (recursive: bool)
      ensures Valid() && fresh(waiting) && View() == State(1, recursive, 0, 1, [])
    {
      state, locker, init := 1, 0, 1;
      this.recursive := recursive;
      waiting := new KernelList.List();
    }

    /** One pass of mutex_pend by the thread of the node. It becomes the owner of a free mutex, or of a
        recursive one that it owns, and else goes to the end of the line. */
    method PendSection(node: KernelList.Node) returns (code: Code, panic: bool)
      requires Valid() && node.data !in Members(Threads(waiting))
      modifies this, waiting, waiting.nodes, node
      ensures Valid() && !panic && (View(), code) == Pend(old(View()), node.data)
      ensures code == Uninitialized <==> old(init) != 1
      ensures code == Blocked <==> old(init == 1 && state != 1) && !(recursive && old(locker) == node.data)
      ensures code == NoError <==> old(init) == 1 && (old(state) == 1 || (recursive && old(locker) == node.data))
      ensures init == old(init) && recursive == old(recursive)
      ensures if code == NoError then state == 0 && locker == node.data else state == old(state) && locker == old(locker)
      ensures Order(Threads(waiting)) == old(Order(Threads(waiting))) + if code == Blocked then [node.data] else []
    {
      panic := false;
      if init != 1 {
        return Uninitialized, panic;
      }
      if init == 1 && state != 1 {
        if recursive && node.data == locker {
        } else {
          Arrives(waiting, node);
          panic := EnlistThread(node, waiting, 0);
          return Blocked, panic;
        }
      }
      state := 0;
      locker := node.data;
      code := NoError;
    }

    /** Frees the mutex and takes the thread that waits longest off the line, if there is one. */
    method PostSection() returns (code: Code, woken: KernelList.Node?, panic: bool)
      requires Valid()
      modifies this, waiting, waiting.nodes
      ensures Valid() && !panic && (View(), Pid(woken)) == Post(old(View()))
      ensures code == if old(init) != 1 then Uninitialized else NoError
      ensures init == old(init) && recursive == old(recursive) && locker == old(locker)
      ensures state == if code == NoError then 1 else old(state)
      ensures old(Order(Threads(waiting))) == First(woken) + Order(Threads(waiting))
      ensures woken == null && code == NoError ==> Threads(waiting) == []
      ensures woken != null ==> code == NoError
    {
      woken, panic := null, false;
      if init != 1 {
        return Uninitialized, woken, panic;
      }
      state := 1;
      woken, panic := TakeFirst(waiting);
      code := NoError;
    }

    /** Answers the value stored through the pointer as well; it is unset on success. */
    method TryPendSection() returns (code: Code, value: Option<int>)
      modifies this`state
      ensures (View(), code) == TryPend(old(View()))
      ensures value == if code == Locked then Some(old(state)) else None
      ensures code == Uninitialized <==> init != 1
      ensures code == Locked <==> init == 1 && old(state) != 1
      ensures code == NoError <==> init == 1 && old(state) == 1
      ensures state == if code == NoError then 0 else old(state)
    {
      if init != 1 {
        return Uninitialized, None;
      }
      if state != 1 {
        return Locked, Some(state);
      }
      state := 0;
      return NoError, None;
    }

    method DestroySection() returns (code: Code, woken: seq<Tid>, panic: bool)
      requires Valid()
      modifies this, waiting, waiting.nodes
      ensures Valid() && !panic && View() == Destroy(old(View()))
      ensures code == if old(init) != 1 then Uninitialized else NoError
      ensures woken == if old(init) != 1 then [] else old(Order(Threads(waiting)))
      ensures init != 1 && state == old(state) && locker == old(locker) && recursive == old(recursive)
      ensures code == NoError ==> init == 0 && Threads(waiting) == []
    {
      woken, panic := [], false;
      if init != 1 {
        return Uninitialized, woken, panic;
      }
      woken, panic := DelistAll(waiting);
      init := 0;
      code := NoError;
    }
  }

  /** What mutex_pend answers, and when: an error exactly if the mutex is not initialized; a place at the
      end of the line exactly if it is held, unless recursively by the caller; ownership else. */
  lemma PendAnswers(m: State, t: Tid)
    requires AllZero(m.waiting)
    ensures var (r, code) := Pend(m, t);
      && (code == Uninitialized <==> m.init != 1)
      && (code == Blocked <==> m.init == 1 && m.state != 1 && !(m.recursive && m.locker == t))
      && (code == NoError <==> m.init == 1 && (m.state == 1 || (m.recursive && m.locker == t)))
      && r.init == m.init && r.recursive == m.recursive
      && Order(r.waiting) == Order(m.waiting) + (if code == Blocked then [t] else [])
      && (if code == NoError then r.state == 0 && r.locker == t else r.state == m.state && r.locker == m.locker)
      && (code != Blocked ==> r.waiting == m.waiting)
  {
    JoinGoesLast(m.waiting, t);
  }

  /** A destroyed mutex: whatever is called answers that it is not initialized, and changes nothing. */
  lemma DestroyedAnswers(m: State, t: Tid)
    requires m.init != 1
    ensures Pend(m, t) == (m, Uninitialized) && TryPend(m) == (m, Uninitialized)
    ensures Post(m) == (m, None) && Destroy(m) == m
  {
  }

  /** mutex_try_pend acquires exactly when the mutex is free, and then differs from mutex_pend in one
      thing: it does not record the owner. When it fails it changes nothing, and a thread other than
      the owner of a recursive mutex would have to wait. */
  lemma TryPendIff(m: State, t: Tid)
    ensures TryPend(m).1 == NoError <==> m.init == 1 && m.state == 1
    ensures TryPend(m).1 == NoError ==> Pend(m, t) == (TryPend(m).0.(locker := t), NoError)
    ensures TryPend(m).0.locker == m.locker
    ensures TryPend(m).1 != NoError ==> TryPend(m).0 == m && (Pend(m, t).1 != NoError || (m.recursive && m.locker == t))
  {
  }

  // ----- threads around one mutex ---------------------------------------------------------------

  /** Besides the mutex: who pended successfully and did not post yet, the threads taken off the
      list but not unlocked yet, and the threads unlocked but not back in their section yet. */
  datatype System = System(mutex: State, held: multiset<Tid>, transit: set<Tid>, woken: set<Tid>)

  datatype Step =
    | EnterPend(t: Tid)
    | Recheck(t: Tid)
    | PostStep(t: Tid)
    | Unlock(t: Tid)
    | TryPendStep(t: Tid)
    | DestroyStep

  predicate Running(s: System, t: Tid) {
    t !in Members(s.mutex.waiting) && t !in s.transit && t !in s.woken
  }

  /** Threads that run may pend and try; only a holder posts. */
  predicate Enabled(s: System, step: Step) {
    match step
    case EnterPend(t) => Running(s, t)
    case Recheck(t) => t in s.woken
    case PostStep(t) => Running(s, t) && t in s.held
    case Unlock(t) => t in s.transit
    case TryPendStep(t) => Running(s, t)
    case DestroyStep => true
  }

  function Acquired(s: System, t: Tid, code: Code): System {
    if code == NoError then s.(held := s.held + multiset{t}) else s
  }

  /** What mutex_post by thread t does, whether or not t holds the mutex. */
  function AfterPost(s: System, t: Tid): System {
    var (r, u) := Post(s.mutex);
    s.(mutex := r, transit := s.transit + Added(u),
       held := if s.mutex.init == 1 then s.held - multiset{t} else s.held)
  }

  function Next(s: System, step: Step): System
    requires Enabled(s, step)
  {
    match step
    case EnterPend(t) =>
      var (r, code) := Pend(s.mutex, t);
      Acquired(s.(mutex := r), t, code)
    case Recheck(t) =>
      var (r, code) := Pend(s.mutex, t);
      Acquired(s.(mutex := r, woken := s.woken - {t}), t, code)
    case PostStep(t) => AfterPost(s, t)
    case Unlock(t) => s.(transit := s.transit - {t}, woken := s.woken + {t})
    case TryPendStep(t) =>
      var (r, code) := TryPend(s.mutex);
      Acquired(s.(mutex := r), t, code)
    case DestroyStep => s.(mutex := Destroy(s.mutex), woken := s.woken + Members(s.mutex.waiting))
  }

  function Start(recursive: bool): System {
    System(State(1, recursive, 0, 1, []), multiset{}, {}, {})
  }

  /** Every thread stands in one place, and nobody waits for a mutex that was destroyed. */
  ghost predicate Placed(s: System) {
    var w := s.mutex.waiting;
    && Proper(w) && Members(w) !! s.transit && Members(w) !! s.woken && s.transit !! s.woken
    && (s.mutex.init != 1 ==> s.mutex.init == 0 && w == [])
  }

  /** State 0 exactly when one thread holds the mutex, never two; and a free mutex with waiting
      threads has a woken one that is due to look again. */
  ghost predicate Inv(s: System) {
    var w := s.mutex.waiting;
    && Placed(s)
    && (s.mutex.state == 0 || s.mutex.state == 1)
    && |s.held| == 1 - s.mutex.state
    && (s.mutex.state == 1 && w != [] ==> s.transit + s.woken != {})
  }

  lemma PendKeeps(s: System, t: Tid)
    requires Inv(s) && !s.mutex.recursive && Running(s, t)
    ensures Inv(Next(s, EnterPend(t)))
  {
    if s.mutex.init == 1 && s.mutex.state != 1 {
      JoinProper(s.mutex.waiting, t);
    }
  }

  lemma RecheckKeeps(s: System, t: Tid)
    requires Inv(s) && !s.mutex.recursive && t in s.woken
    ensures Inv(Next(s, Recheck(t)))
  {
    if s.mutex.init == 1 && s.mutex.state != 1 {
      assert t !in Members(s.mutex.waiting);
      JoinProper(s.mutex.waiting, t);
    }
  }

  lemma PostKeeps(s: System, t: Tid)
    requires Inv(s) && t in s.held
    ensures Inv(AfterPost(s, t))
  {
    RestProper(s.mutex.waiting);
  }

  /** While the mutex lives, a post keeps mutual exclusion intact exactly when it comes from the
      holder or nobody holds the mutex. */
  lemma PostKeepsIff(s: System, t: Tid)
    requires Inv(s) && s.mutex.init == 1
    ensures Inv(AfterPost(s, t)) <==> t in s.held || s.held == multiset{}
  {
    if t in s.held {
      PostKeeps(s, t);
    } else {
      assert s.held - multiset{t} == s.held;
      RestProper(s.mutex.waiting);
      assert |s.held| == 0 <==> s.held == multiset{};
    }
  }

  lemma StepKeeps(s: System, step: Step)
    requires Inv(s) && !s.mutex.recursive && Enabled(s, step)
    ensures Inv(Next(s, step)) && !Next(s, step).mutex.recursive
  {
    match step {
      case EnterPend(t) => PendKeeps(s, t);
      case Recheck(t) => RecheckKeeps(s, t);
      case PostStep(t) => PostKeeps(s, t);
      case Unlock(t) => assert t in s.woken + {t};
      case TryPendStep(t) =>
      case DestroyStep =>
    }
  }

  ghost predicate Run(s: System, steps: seq<Step>, r: System)
    decreases |steps|
  {
    if steps == [] then s == r
    else Enabled(s, steps[0]) && Run(Next(s, steps[0]), steps[1..], r)
  }

  lemma {:induction false} RunKeeps(s: System, steps: seq<Step>, r: System)
    requires Inv(s) && !s.mutex.recursive && Run(s, steps, r)
    ensures Inv(r) && !r.mutex.recursive
    decreases |steps|
  {
    if steps != [] {
      StepKeeps(s, steps[0]);
      RunKeeps(Next(s, steps[0]), steps[1..], r);
    }
  }

  /** Over every interleaving around a non-recursive mutex: at most one holder, the state tells
      whether there is one, and no wakeup is lost. */
  lemma EveryRun(steps: seq<Step>, r: System)
    requires Run(Start(false), steps, r)
    ensures |r.held| <= 1
    ensures r.mutex.state == 0 <==> |r.held| == 1
    ensures r.mutex.state == 1 && r.mutex.waiting != [] ==> exists t :: t in r.transit || t in r.woken
  {
    RunKeeps(Start(false), steps, r);
    if r.mutex.state == 1 && r.mutex.waiting != [] {
      var t :| t in r.transit + r.woken;
    }
  }

  lemma RunFirst(s: System, step: Step, next: System, steps: seq<Step>, r: System)
    requires Enabled(s, step) && Next(s, step) == next && Run(next, steps, r)
    ensures Run(s, [step] + steps, r)
  {
    assert ([step] + steps)[1..] == steps;
  }

  /** A recursive mutex keeps no depth: thread 1 pends twice and posts once, and thread 2 gets in. */
  lemma RecursiveLetsTwoIn() returns (steps: seq<Step>, r: System)
    ensures steps == [EnterPend(1), EnterPend(1), PostStep(1), EnterPend(2)]
    ensures Run(Start(true), steps, r) && r.held == multiset{1, 2}
  {
    NobodyThere();
    var s1 := System(State(0, true, 1, 1, []), multiset{1}, {}, {});
    var s2 := System(State(0, true, 1, 1, []), multiset{1, 1}, {}, {});
    var s3 := System(State(1, true, 1, 1, []), multiset{1}, {}, {});
    r := System(State(0, true, 2, 1, []), multiset{1, 2}, {}, {});
    assert Run(r, [], r);
    hide Run;
    RunFirst(s3, EnterPend(2), r, [], r);
    assert [EnterPend(2)] + [] == [EnterPend(2)];
    RunFirst(s2, PostStep(1), s3, [EnterPend(2)], r);
    RunFirst(s1, EnterPend(1), s2, [PostStep(1)] + [EnterPend(2)], r);
    RunFirst(Start(true), EnterPend(1), s1, [EnterPend(1)] + ([PostStep(1)] + [EnterPend(2)]), r);
    steps := [EnterPend(1)] + ([EnterPend(1)] + ([PostStep(1)] + [EnterPend(2)]));
  }

  /** Posts by holders only keep two threads apart in every run exactly when the mutex is not
      recursive. */
  lemma ExclusionIff(recursive: bool)
    ensures (forall steps, r :: Run(Start(recursive), steps, r) ==> |r.held| <= 1) <==> !recursive
  {
    if recursive {
      var steps, r := RecursiveLetsTwoIn();
      assert Run(Start(recursive), steps, r) && |r.held| == 2;
    } else {
      forall steps, r | Run(Start(recursive), steps, r) ensures |r.held| <= 1 {
        EveryRun(steps, r);
      }
    }
  }

  // ----- waiting is reached, whether or not the mutex is recursive ---------------------------------

  lemma StepPlaced(s: System, step: Step)
    requires Placed(s) && Enabled(s, step)
    ensures Placed(Next(s, step))
  {
    hide Proper, Members, Join, Rest, TailOf;
    match step {
      case EnterPend(t) => JoinPlaced(s.mutex.waiting, t);
      case Recheck(t) => JoinPlaced(s.mutex.waiting, t);
      case PostStep(t) => RestProper(s.mutex.waiting);
      case Unlock(t) =>
      case TryPendStep(t) =>
      case DestroyStep =>
        NobodyThere();
    }
  }

  lemma JoinPlaced(q: Line, t: Tid)
    requires Proper(q)
    ensures t !in Members(q) ==> Proper(Join(q, t))
    ensures Members(Join(q, t)) == Members(q) + {t}
  {
    JoinMembers(q, t);
    if t !in Members(q) {
      JoinProper(q, t);
    }
  }

  lemma {:induction false} RunPlaced(s: System, steps: seq<Step>, r: System)
    requires Placed(s) && Run(s, steps, r)
    ensures Placed(r)
    decreases |steps|
  {
    hide Placed, Next, Enabled;
    if steps != [] {
      StepPlaced(s, steps[0]);
      RunPlaced(Next(s, steps[0]), steps[1..], r);
    }
  }

  /** In every reachable state, a thread that enters mutex_pend comes to stand in the line exactly if the
      mutex is held, unless recursively by itself, and becomes the owner else; likewise a woken thread
      that looks again. */
  lemma EveryPendWaitsIff(recursive: bool, steps: seq<Step>, r: System, t: Tid)
    requires Run(Start(recursive), steps, r)
    ensures Enabled(r, EnterPend(t)) ==> Waits(r, Next(r, EnterPend(t)), t)
    ensures Enabled(r, Recheck(t)) ==> Waits(r, Next(r, Recheck(t)), t) && t !in Next(r, Recheck(t)).woken
  {
    NobodyThere();
    RunPlaced(Start(recursive), steps, r);
    hide Run, Start;
    JoinPlaced(r.mutex.waiting, t);
    PendAnswers(r.mutex, t);
  }

  ghost predicate Waits(s: System, r: System, t: Tid) {
    var m := s.mutex;
    && (t in Members(r.mutex.waiting) <==> m.init == 1 && m.state != 1 && !(m.recursive && m.locker == t))
    && (t !in Members(r.mutex.waiting) && m.init == 1 ==>
          r.mutex.state == 0 && r.mutex.locker == t && r.held == s.held + multiset{t})
    && (m.init != 1 ==> r.mutex == m && r.held == s.held)
  }

  /** Some run brings a thread to wait. */
  lemma SomeoneWaits(recursive: bool) returns (steps: seq<Step>, r: System)
    ensures Run(Start(recursive), steps, r) && r.mutex.init == 1 && Order(r.mutex.waiting) == [2]
  {
    NobodyThere();
    var s1 := System(State(0, recursive, 1, 1, []), multiset{1}, {}, {});
    PendAnswers(s1.mutex, 2);
    r := Next(s1, EnterPend(2));
    assert Run(r, [], r);
    assert Next(Start(recursive), EnterPend(1)) == s1;
    hide Run;
    RunFirst(s1, EnterPend(2), r, [], r);
    RunFirst(Start(recursive), EnterPend(1), s1, [EnterPend(2)] + [], r);
    steps := [EnterPend(1)] + ([EnterPend(2)] + []);
  }

  // ----- destruction -------------------------------------------------------------------------------

  lemma {:induction false} StaysDestroyed(s: System, steps: seq<Step>, r: System)
    requires s.mutex.init != 1 && s.mutex.waiting == [] && Run(s, steps, r)
    ensures r.mutex == s.mutex
    decreases |steps|
  {
    if steps != [] {
      var n := Next(s, steps[0]);
      assert n.mutex == s.mutex by {
        DestroyedAnswers(s.mutex, 0);
      }
      StaysDestroyed(n, steps[1..], r);
    }
  }

  /** Over every interleaving: once destroyed, a mutex stays as it is, uninitialized and with nobody
      waiting, whatever is called; whoever waited is woken by the destruction; and a thread that looks
      again, or comes new, is told at once, and waits for nothing. */
  lemma EveryRunDestroyed(recursive: bool, before: seq<Step>, s: System, after: seq<Step>, r: System, t: Tid)
    requires Run(Start(recursive), before, s) && Run(Next(s, DestroyStep), after, r)
    ensures Members(s.mutex.waiting) <= Next(s, DestroyStep).woken
    ensures r.mutex == s.mutex.(init := 0, waiting := [])
    ensures Pend(r.mutex, t).1 == Uninitialized
    ensures t in r.woken ==> Next(r, Recheck(t)) == r.(woken := r.woken - {t})
    ensures Enabled(r, EnterPend(t)) ==> Next(r, EnterPend(t)) == r
  {
    hide Run, Placed, Next, Pend, Members;
    StartPlaced(recursive);
    RunPlaced(Start(recursive), before, s);
    DestroyWakes(s);
    StaysDestroyed(Next(s, DestroyStep), after, r);
    LooksAgain(r, t);
  }

  lemma StartPlaced(recursive: bool)
    ensures Placed(Start(recursive))
  {
    NobodyThere();
  }

  lemma DestroyWakes(s: System)
    requires Placed(s)
    ensures var r := Next(s, DestroyStep);
      Members(s.mutex.waiting) <= r.woken && r.mutex == s.mutex.(init := 0, waiting := [])
  {
    NobodyThere();
  }

  lemma LooksAgain(r: System, t: Tid)
    requires r.mutex.init == 0
    ensures Pend(r.mutex, t).1 == Uninitialized
    ensures t in r.woken ==> Next(r, Recheck(t)) == r.(woken := r.woken - {t})
    ensures Enabled(r, EnterPend(t)) ==> Next(r, EnterPend(t)) == r
  {
    DestroyedAnswers(r.mutex, t);
  }
}
