/** Mailboxes of one value. Each atomic section, from spinlock_lock to spinlock_unlock, is one
    step; threads interleave between sections in any way. */
module Mailbox {
  import opened Basics
  import opened PriorityList
  import opened Waiters
  import KernelList
  import opened ThreadLists

  datatype Code = NoError | Uninitialized | Blocked

  datatype State = State(value: int, state: int, init: int, readers: Line, writers: Line)

  /** One pass of mailbox_pend by thread t, with the value received and the writer taken off its list. */
  function Pend(m: State, t: Tid): (State, Code, int, Option<Tid>) {
    if m.init != 1 then (m, Uninitialized, 0, None)
    else if m.state == 0 then (m.(readers := Join(m.readers, t)), Blocked, 0, None)
    else (m.(state := 0, writers := Rest(m.writers)), NoError, m.value, TailOf(m.writers))
  }

  /** One pass of mailbox_post by thread t, with the reader taken off its list. */
  function Post(m: State, t: Tid, element: int): (State, Code, Option<Tid>) {
    if m.init != 1 then (m, Uninitialized, None)
    else if m.state == 1 then (m.(writers := Join(m.writers, t)), Blocked, None)
    else (m.(value := element, state := 1, readers := Rest(m.readers)), NoError, TailOf(m.readers))
  }

  function Destroy(m: State): State {
    if m.init != 1 then m else State(m.value, 0, 0, [], [])
  }

  class Mailbox {
    var value: int
    var state: int
    var init: int
    const readers: KernelList.List
    const writers: KernelList.List

    ghost function View(): State
      reads this, readers, readers.nodes, writers, writers.nodes
    {
      State(value, state, init, Threads(readers), Threads(writers))
    }

    constructor ()
      ensures Lines(readers, writers) && fresh(readers) && fresh(writers) && View() == State(0, 0, 1, [], [])
    {
      value, state, init := 0, 0, 1;
      readers := new KernelList.List();
      writers := new KernelList.List();
    }

    /** One pass of mailbox_pend by the thread of the node. It empties a full box and takes the first
        writer off its line, and else goes to the end of the readers' line. */
    method PendSection(node: KernelList.Node) returns (code: Code, received: int, woken: KernelList.Node?, panic: bool)
      requires Lines(readers, writers) && node.data !in Members(Threads(readers)) && node.data !in Members(Threads(writers))
      modifies this, readers, readers.nodes, writers, writers.nodes, node
      ensures Lines(readers, writers) && !panic && (View(), code, received, Pid(woken)) == Pend(old(View()), node.data)
      ensures code == Uninitialized <==> old(init) != 1
      ensures code == Blocked <==> old(init) == 1 && old(state) == 0
      ensures code == NoError <==> old(init) == 1 && old(state) != 0
      ensures init == old(init) && value == old(value)
      ensures if code == NoError then state == 0 && received == old(value) else state == old(state) && woken == null
      ensures Order(Threads(readers)) == old(Order(Threads(readers))) + if code == Blocked then [node.data] else []
      ensures old(Order(Threads(writers))) == First(woken) + Order(Threads(writers))
      ensures woken == null && code == NoError ==> Threads(writers) == []
    {
      hide Lines, Threads, Order, Members, Join;
      woken, received, panic := null, 0, false;
      if init != 1 {
        return Uninitialized, received, woken, panic;
      }
      if init == 1 && state == 0 {
        panic := JoinLine(node, readers, writers);
        return Blocked, received, woken, panic;
      }
      received := value;
      state := 0;
      LinesTurned(readers, writers);
      woken, panic := LeaveLine(writers, readers);
      LinesTurned(writers, readers);
      code := NoError;
    }

    /** One pass of mailbox_post by the thread of the node. It fills an empty box and takes the first
        reader off its line, and else goes to the end of the writers' line. */
    method PostSection(node: KernelList.Node, element: int) returns (code: Code, woken: KernelList.Node?, panic: bool)
      requires Lines(readers, writers) && node.data !in Members(Threads(readers)) && node.data !in Members(Threads(writers))
      modifies this, readers, readers.nodes, writers, writers.nodes, node
      ensures Lines(readers, writers) && !panic && (View(), code, Pid(woken)) == Post(old(View()), node.data, element)
      ensures code == Uninitialized <==> old(init) != 1
      ensures code == Blocked <==> old(init) == 1 && old(state) == 1
      ensures code == NoError <==> old(init) == 1 && old(state) != 1
      ensures init == old(init)
      ensures if code == NoError then state == 1 && value == element
              else state == old(state) && value == old(value) && woken == null
      ensures Order(Threads(writers)) == old(Order(Threads(writers))) + if code == Blocked then [node.data] else []
      ensures old(Order(Threads(readers))) == First(woken) + Order(Threads(readers))
      ensures woken == null && code == NoError ==> Threads(readers) == []
    {
      hide Lines, Threads, Order, Members, Join;
      woken, panic := null, false;
      if init != 1 {
        return Uninitialized, woken, panic;
      }
      if init == 1 && state == 1 {
        LinesTurned(readers, writers);
        panic := JoinLine(node, writers, readers);
        LinesTurned(writers, readers);
        return Blocked, woken, panic;
      }
      value := element;
      state := 1;
      woken, panic := LeaveLine(readers, writers);
      code := NoError;
    }

    method DestroySection() returns (code: Code, woken: seq<Tid>, panic: bool)
      requires Lines(readers, writers)
      modifies this, readers, readers.nodes, writers, writers.nodes
      ensures Lines(readers, writers) && !panic && View() == Destroy(old(View()))
      ensures code == if old(init) != 1 then Uninitialized else NoError
      ensures woken == if old(init) != 1 then [] else old(Order(Threads(readers))) + old(Order(Threads(writers)))
      ensures init != 1 && value == old(value)
      ensures code == NoError ==> init == 0 && state == 0 && Threads(readers) == [] && Threads(writers) == []
    {
      hide Lines, Threads, Order, Members, Join;
      woken, panic := [], false;
      if init != 1 {
        return Uninitialized, woken, panic;
      }
      woken, panic := EmptyLines(readers, writers);
      init := 0;
      state := 0;
      code := NoError;
    }
  }

  /** What mailbox_pend answers, and when: an error exactly if the box is not initialized; a place at the
      end of the readers' line exactly if it is empty; the value else, and the first writer goes on. */
  lemma PendAnswers(m: State, t: Tid)
    requires AllZero(m.readers)
    ensures var (r, code, value, u) := Pend(m, t);
      && (code == Uninitialized <==> m.init != 1)
      && (code == Blocked <==> m.init == 1 && m.state == 0)
      && (code == NoError <==> m.init == 1 && m.state != 0)
      && r.init == m.init && r.value == m.value
      && r.state == (if code == NoError then 0 else m.state)
      && (code == NoError ==> value == m.value && (u.None? ==> Order(m.writers) == []))
      && Order(r.readers) == Order(m.readers) + (if code == Blocked then [t] else [])
      && Order(m.writers) == Served(u) + Order(r.writers) && (code != NoError ==> u == None)
  {
    JoinGoesLast(m.readers, t);
    LeavesFirst(m.writers);
  }

  lemma PostAnswers(m: State, t: Tid, element: int)
    requires AllZero(m.writers)
    ensures var (r, code, u) := Post(m, t, element);
      && (code == Uninitialized <==> m.init != 1)
      && (code == Blocked <==> m.init == 1 && m.state == 1)
      && (code == NoError <==> m.init == 1 && m.state != 1)
      && r.init == m.init
      && (if code == NoError then r.state == 1 && r.value == element else r.state == m.state && r.value == m.value)
      && (code == NoError && u.None? ==> Order(m.readers) == [])
      && Order(r.writers) == Order(m.writers) + (if code == Blocked then [t] else [])
      && Order(m.readers) == Served(u) + Order(r.readers) && (code != NoError ==> u == None)
  {
    JoinGoesLast(m.writers, t);
    LeavesFirst(m.readers);
  }

  /** A destroyed mailbox: whatever is called answers that it is not initialized, and changes nothing. */
  lemma DestroyedAnswers(m: State, t: Tid, element: int)
    requires m.init != 1
    ensures Pend(m, t) == (m, Uninitialized, 0, None) && Post(m, t, element) == (m, Uninitialized, None)
    ensures Destroy(m) == m
  {
  }

  // ----- threads around one mailbox ---------------------------------------------------------------

  /** Besides the mailbox: the readers and writers taken off its lists that did not look again yet,
      those of them that are not unlocked yet, the elements that blocked writers carry, and all
      elements posted and received so far. */
  datatype System = System(m: State, wokenReaders: set<Tid>, wokenWriters: set<Tid>, transit: set<Tid>,
                           carried: map<Tid, int>, posted: seq<int>, received: seq<int>)

  datatype Step =
    | EnterPend(t: Tid)
    | RecheckPend(t: Tid)
    | EnterPost(t: Tid, element: int)
    | RecheckPost(t: Tid)
    | Unlock(t: Tid)
    | DestroyStep

  predicate Running(s: System, t: Tid) {
    t !in Members(s.m.readers) && t !in Members(s.m.writers) && t !in s.wokenReaders && t !in s.wokenWriters
  }

  predicate Enabled(s: System, step: Step) {
    match step
    case EnterPend(t) => Running(s, t)
    case RecheckPend(t) => t in s.wokenReaders && t !in s.transit
    case EnterPost(t, _) => Running(s, t)
    case RecheckPost(t) => t in s.wokenWriters && t !in s.transit && t in s.carried
    case Unlock(t) => t in s.transit
    case DestroyStep => true
  }

  function DoPend(s: System, t: Tid): System {
    var (r, code, value, u) := Pend(s.m, t);
    s.(m := r, wokenWriters := s.wokenWriters + Added(u), transit := s.transit + Added(u),
       received := if code == NoError then s.received + [value] else s.received)
  }

  function DoPost(s: System, t: Tid, element: int): System {
    var (r, code, u) := Post(s.m, t, element);
    s.(m := r, wokenReaders := s.wokenReaders + Added(u), transit := s.transit + Added(u),
       carried := if code == Blocked then s.carried[t := element] else s.carried,
       posted := if code == NoError then s.posted + [element] else s.posted)
  }

  function Next(s: System, step: Step): System
    requires Enabled(s, step)
  {
    match step
    case EnterPend(t) => DoPend(s, t)
    case RecheckPend(t) => DoPend(s.(wokenReaders := s.wokenReaders - {t}), t)
    case EnterPost(t, element) => DoPost(s, t, element)
    case RecheckPost(t) => DoPost(s.(wokenWriters := s.wokenWriters - {t}), t, s.carried[t])
    case Unlock(t) => s.(transit := s.transit - {t})
    case DestroyStep =>
      s.(m := Destroy(s.m), wokenReaders := s.wokenReaders + Members(s.m.readers),
         wokenWriters := s.wokenWriters + Members(s.m.writers))
  }

  function Start(): System {
    System(State(0, 0, 1, [], []), {}, {}, {}, map[], [], [])
  }

  /** Every thread stands in one place, and whoever waits to post carries its element. */
  ghost predicate Placed(s: System) {
    var R, W := Members(s.m.readers), Members(s.m.writers);
    && Proper(s.m.readers) && Proper(s.m.writers)
    && R !! W && R !! s.wokenReaders && R !! s.wokenWriters && W !! s.wokenReaders && W !! s.wokenWriters
    && s.wokenReaders !! s.wokenWriters
    && W + s.wokenWriters <= s.carried.Keys
  }

  /** What was posted is what was received, and the value in the box if it is full. */
  ghost predicate InOrder(s: System) {
    && (s.m.state == 0 || s.m.state == 1)
    && s.received <= s.posted
    && (s.m.init == 1 ==> s.posted == s.received + if s.m.state == 1 then [s.m.value] else [])
  }

  /** A full box with waiting readers has a woken reader, an empty one with waiting writers a woken
      writer. */
  ghost predicate NoLostWakeup(s: System) {
    && (s.m.readers != [] && s.m.state == 1 ==> s.wokenReaders != {})
    && (s.m.writers != [] && s.m.state == 0 ==> s.wokenWriters != {})
    && (s.m.init != 1 ==> s.m.init == 0 && s.m.readers == [] && s.m.writers == [])
  }

  ghost predicate Inv(s: System) {
    Placed(s) && InOrder(s) && NoLostWakeup(s)
  }

  /** All of the invariant that a pass through mailbox_pend relies on: it may itself be the last
      woken reader. */
  lemma DoPendKeeps(s: System, t: Tid)
    requires Placed(s) && InOrder(s) && Running(s, t)
    requires s.m.writers != [] && s.m.state == 0 ==> s.wokenWriters != {}
    requires s.m.init != 1 ==> s.m.init == 0 && s.m.readers == [] && s.m.writers == []
    ensures Inv(DoPend(s, t))
  {
    if s.m.init == 1 && s.m.state == 0 {
      JoinProper(s.m.readers, t);
    } else {
      RestProper(s.m.writers);
    }
  }

  lemma DoPostKeeps(s: System, t: Tid, element: int)
    requires Placed(s) && InOrder(s) && Running(s, t)
    requires s.m.readers != [] && s.m.state == 1 ==> s.wokenReaders != {}
    requires s.m.init != 1 ==> s.m.init == 0 && s.m.readers == [] && s.m.writers == []
    ensures Inv(DoPost(s, t, element))
  {
    if s.m.init == 1 && s.m.state == 1 {
      JoinProper(s.m.writers, t);
    } else {
      RestProper(s.m.readers);
    }
  }

  lemma StepKeeps(s: System, step: Step)
    requires Inv(s) && Enabled(s, step)
    ensures Inv(Next(s, step))
  {
    match step {
      case EnterPend(t) => DoPendKeeps(s, t);
      case RecheckPend(t) => DoPendKeeps(s.(wokenReaders := s.wokenReaders - {t}), t);
      case EnterPost(t, element) => DoPostKeeps(s, t, element);
      case RecheckPost(t) => DoPostKeeps(s.(wokenWriters := s.wokenWriters - {t}), t, s.carried[t]);
      case Unlock(t) =>
      case DestroyStep =>
    }
  }

  ghost predicate Run(s: System, steps: seq<Step>, r: System)
    decreases |steps|
  {
    if steps == [] then s == r
    else Enabled(s, steps[0]) && Run(Next(s, steps[0]), steps[1..], r)
  }

  lemma {:induction false} RunKeeps(s: System, steps: seq<Step>, r: System)
    requires Inv(s) && Run(s, steps, r)
    ensures Inv(r)
    decreases |steps|
  {
    if steps != [] {
      StepKeeps(s, steps[0]);
      RunKeeps(Next(s, steps[0]), steps[1..], r);
    }
  }

  /** Over every interleaving: each value is received once and in the order of the posts, at most
      one is under way, no wakeup is lost on either side, and a writer that waits or was woken still
      carries its element. */
  lemma EveryRun(steps: seq<Step>, r: System)
    requires Run(Start(), steps, r)
    ensures r.received <= r.posted
    ensures r.m.init == 1 ==> r.posted == r.received + if r.m.state == 1 then [r.m.value] else []
    ensures r.m.readers != [] && r.m.state == 1 ==> exists t :: t in r.wokenReaders
    ensures r.m.writers != [] && r.m.state == 0 ==> exists t :: t in r.wokenWriters
    ensures Members(r.m.writers) + r.wokenWriters <= r.carried.Keys
  {
    RunKeeps(Start(), steps, r);
    if r.wokenReaders != {} {
      var t :| t in r.wokenReaders;
    }
    if r.wokenWriters != {} {
      var t :| t in r.wokenWriters;
    }
  }

  // ----- waiting is reached ------------------------------------------------------------------------

  /** In every reachable state: who enters mailbox_pend, or looks again there, comes to stand in the
      readers' line exactly if the box is empty, and receives its value else; who enters mailbox_post, or
      looks again there, comes to stand in the writers' line exactly if the box is full, and its own
      element is posted else. */
  lemma EveryCallWaitsIff(steps: seq<Step>, r: System, t: Tid, element: int)
    requires Run(Start(), steps, r)
    ensures Enabled(r, EnterPend(t)) ==> PendWaits(r, Next(r, EnterPend(t)), t)
    ensures Enabled(r, RecheckPend(t)) ==> PendWaits(r, Next(r, RecheckPend(t)), t) && t !in Next(r, RecheckPend(t)).wokenReaders
    ensures Enabled(r, EnterPost(t, element)) ==> PostWaits(r, Next(r, EnterPost(t, element)), t, element)
    ensures Enabled(r, RecheckPost(t)) ==>
      PostWaits(r, Next(r, RecheckPost(t)), t, r.carried[t]) && t !in Next(r, RecheckPost(t)).wokenWriters
  {
    StartHolds();
    RunKeeps(Start(), steps, r);
    hide Run, Start;
    if t !in Members(r.m.readers) && t !in Members(r.m.writers) {
      PassWaits(r, t, element);
      PassWaits(r.(wokenReaders := r.wokenReaders - {t}), t, element);
      if t in r.carried {
        PassWaits(r.(wokenWriters := r.wokenWriters - {t}), t, r.carried[t]);
      }
    }
  }

  lemma PassWaits(s: System, t: Tid, element: int)
    requires t !in Members(s.m.readers) && t !in Members(s.m.writers)
    ensures PendWaits(s, DoPend(s, t), t) && PostWaits(s, DoPost(s, t, element), t, element)
  {
    JoinMembers(s.m.readers, t);
    JoinMembers(s.m.writers, t);
    hide Join, Members;
  }

  lemma StartHolds()
    ensures Inv(Start())
  {
    NobodyThere();
  }

  ghost predicate PendWaits(s: System, r: System, t: Tid) {
    && (t in Members(r.m.readers) <==> s.m.init == 1 && s.m.state == 0)
    && r.received == s.received + (if s.m.init == 1 && s.m.state != 0 then [s.m.value] else [])
    && r.posted == s.posted
  }

  ghost predicate PostWaits(s: System, r: System, t: Tid, element: int) {
    && (t in Members(r.m.writers) <==> s.m.init == 1 && s.m.state == 1)
    && (t in Members(r.m.writers) ==> t in r.carried && r.carried[t] == element)
    && r.posted == s.posted + (if s.m.init == 1 && s.m.state != 1 then [element] else [])
    && r.received == s.received
  }

  /** Only a call of its own changes what a thread carries. */
  lemma {:induction false} KeepsCarrying(s: System, steps: seq<Step>, r: System, t: Tid)
    requires Run(s, steps, r) && t in s.carried
    requires forall i :: 0 <= i < |steps| ==> !(steps[i].EnterPost? && steps[i].t == t)
    ensures t in r.carried && r.carried[t] == s.carried[t]
    decreases |steps|
  {
    if steps != [] {
      KeepsCarrying(Next(s, steps[0]), steps[1..], r, t);
    }
  }

  /** Some runs bring a reader to wait, and a writer. */
  lemma SomeoneWaits() returns (reading: System, writing: System)
    ensures Run(Start(), [EnterPend(1)], reading) && Order(reading.m.readers) == [1] && reading.m.init == 1
    ensures Run(Start(), [EnterPost(1, 5), EnterPost(2, 7)], writing) && Order(writing.m.writers) == [2] && writing.m.init == 1
  {
    NobodyThere();
    PendAnswers(Start().m, 1);
    reading := Next(Start(), EnterPend(1));
    assert [EnterPend(1)][1..] == [];
    assert Run(reading, [], reading);
    var full := Next(Start(), EnterPost(1, 5));
    PostAnswers(full.m, 2, 7);
    writing := Next(full, EnterPost(2, 7));
    assert [EnterPost(2, 7)][1..] == [] && [EnterPost(1, 5), EnterPost(2, 7)][1..] == [EnterPost(2, 7)];
    assert Run(writing, [], writing);
    assert Run(full, [EnterPost(2, 7)], writing);
  }

  // ----- destruction -------------------------------------------------------------------------------

  lemma {:induction false} StaysDestroyed(s: System, steps: seq<Step>, r: System)
    requires s.m.init != 1 && s.m.readers == [] && s.m.writers == [] && Run(s, steps, r)
    ensures r.m == s.m && r.received == s.received && r.posted == s.posted
    decreases |steps|
  {
    if steps != [] {
      var n := Next(s, steps[0]);
      assert n.m == s.m && n.received == s.received && n.posted == s.posted by {
        DestroyedAnswers(s.m, 0, 0);
      }
      StaysDestroyed(n, steps[1..], r);
    }
  }

  /** Over every interleaving: once destroyed, a mailbox stays uninitialized, empty and with nobody
      waiting, and nothing is posted or received any more, whatever is called; whoever waited is woken by
      the destruction; and a thread that looks again, or comes new, is told at once, and waits for
      nothing. */
  lemma EveryRunDestroyed(before: seq<Step>, s: System, after: seq<Step>, r: System, t: Tid, element: int)
    requires Run(Start(), before, s) && Run(Next(s, DestroyStep), after, r)
    ensures var d := Next(s, DestroyStep);
      Members(s.m.readers) <= d.wokenReaders && Members(s.m.writers) <= d.wokenWriters
    ensures r.m.init == 0 && r.m.readers == [] && r.m.writers == [] && r.received == s.received && r.posted == s.posted
    ensures Pend(r.m, t).1 == Uninitialized && Post(r.m, t, element).1 == Uninitialized
    ensures Enabled(r, RecheckPend(t)) ==> Next(r, RecheckPend(t)) == r.(wokenReaders := r.wokenReaders - {t})
    ensures Enabled(r, RecheckPost(t)) ==> Next(r, RecheckPost(t)) == r.(wokenWriters := r.wokenWriters - {t})
    ensures Enabled(r, EnterPend(t)) ==> Next(r, EnterPend(t)) == r
    ensures Enabled(r, EnterPost(t, element)) ==> Next(r, EnterPost(t, element)) == r
  {
    hide Run, Inv, Next, Pend, Post, Members;
    StartHolds();
    RunKeeps(Start(), before, s);
    DestroyWakes(s);
    StaysDestroyed(Next(s, DestroyStep), after, r);
    LooksAgain(r, t, element);
  }

  lemma DestroyWakes(s: System)
    requires Inv(s)
    ensures var r := Next(s, DestroyStep);
      && Members(s.m.readers) <= r.wokenReaders && Members(s.m.writers) <= r.wokenWriters
      && r.m.init == 0 && r.m.readers == [] && r.m.writers == [] && r.received == s.received && r.posted == s.posted
  {
    NobodyThere();
    hide Proper, Members;
  }

  lemma LooksAgain(r: System, t: Tid, element: int)
    requires r.m.init == 0
    ensures Pend(r.m, t).1 == Uninitialized && Post(r.m, t, element).1 == Uninitialized
    ensures Enabled(r, RecheckPend(t)) ==> Next(r, RecheckPend(t)) == r.(wokenReaders := r.wokenReaders - {t})
    ensures Enabled(r, RecheckPost(t)) ==> Next(r, RecheckPost(t)) == r.(wokenWriters := r.wokenWriters - {t})
    ensures Enabled(r, EnterPend(t)) ==> Next(r, EnterPend(t)) == r
    ensures Enabled(r, EnterPost(t, element)) ==> Next(r, EnterPost(t, element)) == r
  {
    DestroyedAnswers(r.m, t, element);
  }
}
