/** Bounded message queues. Each atomic section, from spinlock_lock to spinlock_unlock, is one
    step; threads interleave between sections in any way. */
module MessageQueue {
  import opened Basics
  import opened PriorityList
  import opened Waiters
  import KernelList
  import opened ThreadLists

  datatype Code = NoError | Uninitialized | Blocked

  datatype State = State(head: nat, tail: nat, length: nat, maxLength: nat, cells: seq<int>,
                         init: int, readers: Line, writers: Line)

  /** The indexes run over maxLength + 1 cells. */
  ghost predicate Well(q: State) {
    && |q.cells| == q.maxLength + 1
    && q.head <= q.maxLength && q.tail <= q.maxLength && q.length <= q.maxLength
    && q.head == Around(q.tail + q.length, q.maxLength + 1)
  }

  /** i modulo n, for an i that runs past n once at most. */
  function Around(i: nat, n: nat): nat
    requires i < 2 * n
  {
    if i < n then i else i - n
  }

  function Advance(i: nat, maxLength: nat): nat {
    if i >= maxLength then 0 else i + 1
  }

  /** What is in the queue, oldest first. */
  function Contents(q: State): seq<int>
    requires Well(q)
  {
    seq(q.length, i requires 0 <= i < q.length => q.cells[Around(q.tail + i, q.maxLength + 1)])
  }

  /** One pass of queue_pend by thread t, with the value received and the writer taken off its list. */
  function Pend(q: State, t: Tid): (State, Code, int, Option<Tid>)
    requires q.init == 1 ==> Well(q)
  {
    if q.init != 1 then (q, Uninitialized, 0, None)
    else if q.length == 0 then (q.(readers := Join(q.readers, t)), Blocked, 0, None)
    else (q.(tail := Advance(q.tail, q.maxLength), length := q.length - 1, writers := Rest(q.writers)),
          NoError, q.cells[q.tail], TailOf(q.writers))
  }

  /** One pass of queue_post by thread t, with the reader taken off its list. */
  function Post(q: State, t: Tid, element: int): (State, Code, Option<Tid>)
    requires q.init == 1 ==> Well(q)
  {
    if q.init != 1 then (q, Uninitialized, None)
    else if q.length == q.maxLength then (q.(writers := Join(q.writers, t)), Blocked, None)
    else (q.(cells := q.cells[q.head := element], head := Advance(q.head, q.maxLength),
             length := q.length + 1, readers := Rest(q.readers)),
          NoError, TailOf(q.readers))
  }

  function Destroy(q: State): State {
    if q.init != 1 then q else State(0, 0, 0, 0, [], 0, [], [])
  }

  // ----- the queue is a bounded FIFO --------------------------------------------------------------

  lemma PostAppends(q: State, t: Tid, element: int)
    requires q.init == 1 && Well(q) && q.length < q.maxLength
    ensures var r := Post(q, t, element).0; Well(r) && Contents(r) == Contents(q) + [element]
  {
    var r := Post(q, t, element).0;
    forall i | 0 <= i < q.length ensures Contents(r)[i] == Contents(q)[i] {
      assert Around(q.tail + i, q.maxLength + 1) != q.head;
    }
  }

  lemma PendTakesOldest(q: State, t: Tid)
    requires q.init == 1 && Well(q) && q.length > 0
    ensures var (r, _, value, _) := Pend(q, t);
      Well(r) && Contents(q) == [value] + Contents(r)
  {
    var (r, _, value, _) := Pend(q, t);
    forall i | 0 <= i < r.length ensures Contents(r)[i] == Contents(q)[i + 1] {
      assert Around(r.tail + i, q.maxLength + 1) == Around(q.tail + (i + 1), q.maxLength + 1);
    }
    assert Around(q.tail + 0, q.maxLength + 1) == q.tail;
    assert Contents(q)[0] == value;
    var s := [value] + Contents(r);
    assert |s| == |Contents(q)|;
    forall i | 0 <= i < |s| ensures s[i] == Contents(q)[i] {
      if i > 0 { assert s[i] == Contents(r)[i - 1]; }
    }
  }

  lemma SameContents(q: State, r: State)
    requires Well(q) && r == q.(readers := r.readers, writers := r.writers)
    ensures Contents(r) == Contents(q)
  {
  }

  /** What queue_pend answers, and when: an error exactly if the queue is not initialized; a place at the
      end of the readers' line exactly if it is empty; the oldest value else, and the first writer goes on. */
  lemma PendAnswers(q: State, t: Tid)
    requires Proper(q.readers) && (q.init == 1 ==> Well(q))
    ensures var (r, code, value, u) := Pend(q, t);
      && (code == Uninitialized <==> q.init != 1)
      && (code == Blocked <==> q.init == 1 && q.length == 0)
      && (code == NoError <==> q.init == 1 && q.length > 0)
      && r.init == q.init && r.maxLength == q.maxLength && (code != NoError ==> r == q.(readers := r.readers))
      && (q.init == 1 ==> Well(r) && Contents(q) == (if code == NoError then [value] else []) + Contents(r))
      && Order(r.readers) == Order(q.readers) + (if code == Blocked then [t] else [])
      && Order(q.writers) == Served(u) + Order(r.writers)
      && (if code == NoError then u.None? ==> q.writers == [] else u.None?)
  {
    hide Contents;
    JoinGoesLast(q.readers, t);
    LeavesFirst(q.writers);
    if q.init == 1 && q.length > 0 {
      PendTakesOldest(q, t);
    } else if q.init == 1 {
      SameContents(q, Pend(q, t).0);
    }
  }

  lemma PostAnswers(q: State, t: Tid, element: int)
    requires Proper(q.writers) && (q.init == 1 ==> Well(q))
    ensures var (r, code, u) := Post(q, t, element);
      && (code == Uninitialized <==> q.init != 1)
      && (code == Blocked <==> q.init == 1 && q.length == q.maxLength)
      && (code == NoError <==> q.init == 1 && q.length != q.maxLength)
      && r.init == q.init && r.maxLength == q.maxLength && (code != NoError ==> r == q.(writers := r.writers))
      && (q.init == 1 ==> Well(r) && Contents(r) == Contents(q) + (if code == NoError then [element] else []))
      && Order(r.writers) == Order(q.writers) + (if code == Blocked then [t] else [])
      && Order(q.readers) == Served(u) + Order(r.readers)
      && (if code == NoError then u.None? ==> q.readers == [] else u.None?)
  {
    hide Contents;
    JoinGoesLast(q.writers, t);
    LeavesFirst(q.readers);
    if q.init == 1 && q.length < q.maxLength {
      PostAppends(q, t, element);
    } else if q.init == 1 {
      SameContents(q, Post(q, t, element).0);
    }
  }

  /** A destroyed queue: whatever is called answers that it is not initialized, and changes nothing. */
  lemma DestroyedAnswers(q: State, t: Tid, element: int)
    requires q.init != 1
    ensures Pend(q, t) == (q, Uninitialized, 0, None) && Post(q, t, element) == (q, Uninitialized, None)
    ensures Destroy(q) == q
  {
  }

  class MessageQueue {
    var head: nat
    var tail: nat
    var length: nat
    var maxLength: nat
    var container: array<int>
    var init: int
    const readers: KernelList.List
    const writers: KernelList.List

    ghost function View(): State
      reads this, container, readers, readers.nodes, writers, writers.nodes
    {
      State(head, tail, length, maxLength, container[..], init, Threads(readers), Threads(writers))
    }

    constructor (depth: nat)
      ensures Lines(readers, writers) && fresh(readers) && fresh(writers) && fresh(container)
      ensures Well(View()) && Contents(View()) == [] && Threads(readers) == [] && Threads(writers) == []
      ensures maxLength == depth && init == 1
    {
      container := new int[depth + 1](_ => 0);
      head, tail, length, maxLength := 0, 0, 0, depth;
      init := 1;
      readers := new KernelList.List();
      writers := new KernelList.List();
    }

    /** One pass of queue_pend by the thread of the node. */
    method PendSection(node: KernelList.Node) returns (code: Code, value: int, woken: KernelList.Node?, panic: bool)
      requires Lines(readers, writers) && (init == 1 ==> Well(View()))
      requires node.data !in Members(Threads(readers)) && node.data !in Members(Threads(writers))
      modifies this, readers, readers.nodes, writers, writers.nodes, node
      ensures Lines(readers, writers) && !panic && (View(), code, value, Pid(woken)) == Pend(old(View()), node.data)
      ensures code == Uninitialized <==> old(init) != 1
      ensures code == Blocked <==> old(init) == 1 && old(length) == 0
      ensures code == NoError <==> old(init) == 1 && old(length) > 0
      ensures init == old(init) && maxLength == old(maxLength) && (init == 1 ==> Well(View()))
      ensures init == 1 ==> old(Contents(View())) == (if code == NoError then [value] else []) + Contents(View())
      ensures Order(Threads(readers)) == old(Order(Threads(readers))) + if code == Blocked then [node.data] else []
      ensures old(Order(Threads(writers))) == First(woken) + Order(Threads(writers))
      ensures if code == NoError then woken == null ==> Threads(writers) == [] else woken == null
    {
      hide Lines, Threads, Order, Members, Join, Proper, Contents;
      LinesProper(readers, writers);
      PendAnswers(View(), node.data);
      value, woken, panic := 0, null, false;
      if init != 1 {
        return Uninitialized, value, woken, panic;
      }
      if init == 1 && length == 0 {
        panic := JoinLine(node, readers, writers);
        return Blocked, value, woken, panic;
      }
      value := container[tail];
      if tail >= maxLength {
        tail := 0;
      } else {
        tail := tail + 1;
      }
      length := length - 1;
      LinesTurned(readers, writers);
      woken, panic := LeaveLine(writers, readers);
      LinesTurned(writers, readers);
      code := NoError;
    }

    /** One pass of queue_post by the thread of the node. */
    method PostSection(node: KernelList.Node, element: int) returns (code: Code, woken: KernelList.Node?, panic: bool)
      requires Lines(readers, writers) && (init == 1 ==> Well(View()))
      requires node.data !in Members(Threads(readers)) && node.data !in Members(Threads(writers))
      modifies this, container, readers, readers.nodes, writers, writers.nodes, node
      ensures Lines(readers, writers) && !panic && (View(), code, Pid(woken)) == Post(old(View()), node.data, element)
      ensures container == old(container)
      ensures code == Uninitialized <==> old(init) != 1
      ensures code == Blocked <==> old(init) == 1 && old(length) == maxLength
      ensures code == NoError <==> old(init) == 1 && old(length) != maxLength
      ensures init == old(init) && maxLength == old(maxLength) && (init == 1 ==> Well(View()))
      ensures init == 1 ==> Contents(View()) == old(Contents(View())) + if code == NoError then [element] else []
      ensures Order(Threads(writers)) == old(Order(Threads(writers))) + if code == Blocked then [node.data] else []
      ensures old(Order(Threads(readers))) == First(woken) + Order(Threads(readers))
      ensures if code == NoError then woken == null ==> Threads(readers) == [] else woken == null
    {
      hide Lines, Threads, Order, Members, Join, Proper, Contents;
      LinesProper(readers, writers);
      PostAnswers(View(), node.data, element);
      woken, panic := null, false;
      if init != 1 {
        return Uninitialized, woken, panic;
      }
      if init == 1 && length == maxLength {
        LinesTurned(readers, writers);
        panic := JoinLine(node, writers, readers);
        LinesTurned(writers, readers);
        return Blocked, woken, panic;
      }
      container[head] := element;
      if head >= maxLength {
        head := 0;
      } else {
        head := head + 1;
      }
      length := length + 1;
      woken, panic := LeaveLine(readers, writers);
      code := NoError;
    }

    method DestroySection() returns (code: Code, woken: seq<Tid>, panic: bool)
      requires Lines(readers, writers)
      modifies this, readers, readers.nodes, writers, writers.nodes
      ensures Lines(readers, writers) && !panic && View() == Destroy(old(View()))
      ensures code == if old(init) != 1 then Uninitialized else NoError
      ensures woken == if old(init) != 1 then [] else old(Order(Threads(readers))) + old(Order(Threads(writers)))
      ensures init != 1
      ensures code == NoError ==>
        init == 0 && head == tail == length == maxLength == 0 && Threads(readers) == [] && Threads(writers) == []
    {
      hide Lines, Threads, Order, Members, Join;
      woken, panic := [], false;
      if init != 1 {
        return Uninitialized, woken, panic;
      }
      woken, panic := EmptyLines(readers, writers);
      init, head, tail, maxLength, length := 0, 0, 0, 0, 0;
      container := new int[0];
      code := NoError;
    }
  }

  // ----- threads around one queue -----------------------------------------------------------------

  /** Besides the queue: the readers and writers taken off its lists that did not look again yet,
      those of them that are not unlocked yet, the elements that blocked writers carry, and all
      elements posted and received so far. */
  datatype System = System(q: State, wokenReaders: set<Tid>, wokenWriters: set<Tid>, transit: set<Tid>,
                           carried: map<Tid, int>, posted: seq<int>, received: seq<int>)

  datatype Step =
    | EnterPend(t: Tid)
    | RecheckPend(t: Tid)
    | EnterPost(t: Tid, element: int)
    | RecheckPost(t: Tid)
    | Unlock(t: Tid)
    | DestroyStep

  predicate Running(s: System, t: Tid) {
    t !in Members(s.q.readers) && t !in Members(s.q.writers) && t !in s.wokenReaders && t !in s.wokenWriters
  }

  predicate Enabled(s: System, step: Step) {
    match step
    case EnterPend(t) => Running(s, t)
    case RecheckPend(t) => t in s.wokenReaders && t !in s.transit
    case EnterPost(t, _) => Running(s, t)
    case RecheckPost(t) => t in s.wokenWriters && t !in s.transit && t in s.carried
    case Unlock(t) => t in s.transit
    case DestroyStep => true
  }

  function DoPend(s: System, t: Tid): System
    requires s.q.init == 1 ==> Well(s.q)
  {
    var (r, code, value, u) := Pend(s.q, t);
    s.(q := r, wokenWriters := s.wokenWriters + Added(u), transit := s.transit + Added(u),
       received := if code == NoError then s.received + [value] else s.received)
  }

  function DoPost(s: System, t: Tid, element: int): System
    requires s.q.init == 1 ==> Well(s.q)
  {
    var (r, code, u) := Post(s.q, t, element);
    s.(q := r, wokenReaders := s.wokenReaders + Added(u), transit := s.transit + Added(u),
       carried := if code == Blocked then s.carried[t := element] else s.carried,
       posted := if code == NoError then s.posted + [element] else s.posted)
  }

  function Next(s: System, step: Step): System
    requires Enabled(s, step) && (s.q.init == 1 ==> Well(s.q))
  {
    match step
    case EnterPend(t) => DoPend(s, t)
    case RecheckPend(t) => DoPend(s.(wokenReaders := s.wokenReaders - {t}), t)
    case EnterPost(t, element) => DoPost(s, t, element)
    case RecheckPost(t) => DoPost(s.(wokenWriters := s.wokenWriters - {t}), t, s.carried[t])
    case Unlock(t) => s.(transit := s.transit - {t})
    case DestroyStep =>
      s.(q := Destroy(s.q), wokenReaders := s.wokenReaders + Members(s.q.readers),
         wokenWriters := s.wokenWriters + Members(s.q.writers))
  }

  function Start(maxLength: nat): System {
    System(State(0, 0, 0, maxLength, seq(maxLength + 1, i => 0), 1, [], []), {}, {}, {}, map[], [], [])
  }

  /** Every thread stands in one place. */
  ghost predicate Placed(s: System) {
    var R, W := Members(s.q.readers), Members(s.q.writers);
    && Proper(s.q.readers) && Proper(s.q.writers)
    && R !! W && R !! s.wokenReaders && R !! s.wokenWriters && W !! s.wokenReaders && W !! s.wokenWriters
    && s.wokenReaders !! s.wokenWriters
  }

  /** Whoever waits to post, or was woken to look again, carries its element. */
  ghost predicate Carrying(s: System) {
    forall t :: t in Members(s.q.writers) || t in s.wokenWriters ==> t in s.carried
  }

  /** The elements received are the first ones posted, in order; while the queue lives the rest is
      what it contains. */
  ghost predicate InOrder(s: System) {
    && s.received <= s.posted
    && (s.q.init == 1 ==> Well(s.q) && s.posted == s.received + Contents(s.q))
  }

  /** While readers wait there are as many woken readers as elements; while writers wait there are
      as many woken writers as free places. */
  ghost predicate NoLostWakeup(s: System) {
    && (s.q.readers != [] ==> |s.wokenReaders| >= s.q.length)
    && (s.q.writers != [] ==> |s.wokenWriters| >= s.q.maxLength - s.q.length)
    && (s.q.init != 1 ==> s.q.init == 0 && s.q.readers == [] && s.q.writers == [])
  }

  ghost predicate Inv(s: System) {
    Placed(s) && Carrying(s) && InOrder(s) && NoLostWakeup(s)
  }

  lemma AddedCount(s: set<Tid>, u: Option<Tid>)
    requires Added(u) !! s
    ensures |s + Added(u)| == |s| + if u.Some? then 1 else 0
  {
  }

  /** What a pass through queue_pend needs of the count of woken readers: one spare when the
      reader has just been woken itself. */
  ghost predicate ReaderReady(s: System, spare: int) {
    && Placed(s) && Carrying(s) && InOrder(s)
    && (s.q.readers != [] ==> |s.wokenReaders| + spare >= s.q.length)
    && (s.q.writers != [] ==> |s.wokenWriters| >= s.q.maxLength - s.q.length)
    && (s.q.init != 1 ==> s.q.init == 0 && s.q.readers == [] && s.q.writers == [])
  }

  /** Joining and leaving the lists keeps every thread in one place. */
  lemma PlacedPend(s: System, t: Tid)
    requires Placed(s) && Carrying(s) && Running(s, t) && (s.q.init == 1 ==> Well(s.q))
    ensures Placed(DoPend(s, t)) && Carrying(DoPend(s, t))
  {
    hide Insert, Position, Proper, Rest, TailOf, Join, Members;
    JoinProper(s.q.readers, t);
    RestProper(s.q.writers);
  }

  lemma OrderPend(s: System, t: Tid)
    requires InOrder(s)
    ensures InOrder(DoPend(s, t))
  {
    hide Contents, Rest, TailOf, Join, Around;
    if s.q.init == 1 && s.q.length > 0 {
      PendTakesOldest(s.q, t);
    } else if s.q.init == 1 {
      SameContents(s.q, DoPend(s, t).q);
    }
  }

  lemma CountPend(s: System, t: Tid, spare: int)
    requires ReaderReady(s, spare) && Running(s, t) && 0 <= spare <= 1
    ensures NoLostWakeup(DoPend(s, t))
  {
    hide InOrder, Carrying, Proper, Join, Members;
    RestProper(s.q.writers);
    AddedCount(s.wokenWriters, TailOf(s.q.writers));
  }

  lemma DoPendKeeps(s: System, t: Tid, spare: int)
    requires ReaderReady(s, spare) && Running(s, t) && 0 <= spare <= 1
    ensures Inv(DoPend(s, t))
  {
    hide Placed, Carrying, NoLostWakeup, DoPend, Contents, Around;
    PlacedPend(s, t);
    OrderPend(s, t);
    CountPend(s, t, spare);
  }

  ghost predicate WriterReady(s: System, spare: int) {
    && Placed(s) && Carrying(s) && InOrder(s)
    && (s.q.readers != [] ==> |s.wokenReaders| >= s.q.length)
    && (s.q.writers != [] ==> |s.wokenWriters| + spare >= s.q.maxLength - s.q.length)
    && (s.q.init != 1 ==> s.q.init == 0 && s.q.readers == [] && s.q.writers == [])
  }

  lemma PlacedPost(s: System, t: Tid, element: int)
    requires Placed(s) && Carrying(s) && Running(s, t) && (s.q.init == 1 ==> Well(s.q))
    ensures Placed(DoPost(s, t, element)) && Carrying(DoPost(s, t, element))
  {
    hide Insert, Position, Proper, Rest, TailOf, Join, Members;
    JoinProper(s.q.writers, t);
    RestProper(s.q.readers);
  }

  lemma OrderPost(s: System, t: Tid, element: int)
    requires InOrder(s)
    ensures InOrder(DoPost(s, t, element))
  {
    hide Contents, Rest, TailOf, Join, Around;
    if s.q.init == 1 && s.q.length < s.q.maxLength {
      PostAppends(s.q, t, element);
    } else if s.q.init == 1 {
      SameContents(s.q, DoPost(s, t, element).q);
    }
  }

  lemma CountPost(s: System, t: Tid, element: int, spare: int)
    requires WriterReady(s, spare) && Running(s, t) && 0 <= spare <= 1
    ensures NoLostWakeup(DoPost(s, t, element))
  {
    hide InOrder, Carrying, Proper, Join, Members;
    RestProper(s.q.readers);
    AddedCount(s.wokenReaders, TailOf(s.q.readers));
  }

  lemma DoPostKeeps(s: System, t: Tid, element: int, spare: int)
    requires WriterReady(s, spare) && Running(s, t) && 0 <= spare <= 1
    ensures Inv(DoPost(s, t, element))
  {
    hide Placed, Carrying, NoLostWakeup, DoPost, Contents, Around;
    PlacedPost(s, t, element);
    OrderPost(s, t, element);
    CountPost(s, t, element, spare);
  }

  /** A woken thread that looks again is no longer counted, but may itself be the one that was owed. */
  lemma Rechecks(s: System, t: Tid)
    requires Inv(s)
    ensures t in s.wokenReaders ==>
      var m := s.(wokenReaders := s.wokenReaders - {t}); ReaderReady(m, 1) && Running(m, t)
    ensures t in s.wokenWriters ==>
      var m := s.(wokenWriters := s.wokenWriters - {t}); WriterReady(m, 1) && Running(m, t)
  {
    hide Members, Proper, Contents, Around;
    assert t in s.wokenReaders ==> |s.wokenReaders - {t}| == |s.wokenReaders| - 1;
    assert t in s.wokenWriters ==> |s.wokenWriters - {t}| == |s.wokenWriters| - 1;
  }

  lemma DestroyPlaced(s: System, r: System)
    requires Placed(s) && Carrying(s) && (s.q.init == 1 ==> Well(s.q)) && r == Next(s, DestroyStep)
    requires s.q.init != 1 ==> s.q.readers == [] && s.q.writers == []
    ensures Placed(r) && Carrying(r)
  {
    hide Well, Members, NoDup;
    NobodyThere();
    assert r.q.readers == [] && r.q.writers == [];
  }

  lemma DestroyKeeps(s: System)
    requires Inv(s)
    ensures Inv(Next(s, DestroyStep))
  {
    hide Contents, Around, Well, Placed, Carrying, Members;
    NobodyThere();
    DestroyPlaced(s, Next(s, DestroyStep));
  }

  lemma StepKeeps(s: System, step: Step)
    requires Inv(s) && Enabled(s, step)
    ensures Inv(Next(s, step))
  {
    hide Placed, Carrying, DoPend, DoPost, Destroy, Members, Contents, Around;
    match step {
      case EnterPend(t) => DoPendKeeps(s, t, 0);
      case RecheckPend(t) =>
        Rechecks(s, t);
        DoPendKeeps(s.(wokenReaders := s.wokenReaders - {t}), t, 1);
      case EnterPost(t, element) => DoPostKeeps(s, t, element, 0);
      case RecheckPost(t) =>
        Rechecks(s, t);
        DoPostKeeps(s.(wokenWriters := s.wokenWriters - {t}), t, s.carried[t], 1);
      case Unlock(t) => UnlockKeeps(s, t);
      case DestroyStep => DestroyKeeps(s);
    }
  }

  lemma UnlockKeeps(s: System, t: Tid)
    requires Inv(s)
    ensures Inv(s.(transit := s.transit - {t}))
  {
    hide Members, Proper, Contents, Around, Well;
  }

  ghost predicate Run(s: System, steps: seq<Step>, r: System)
    requires Inv(s)
    decreases |steps|
  {
    if steps == [] then s == r
    else Enabled(s, steps[0]) && (StepKeeps(s, steps[0]); Run(Next(s, steps[0]), steps[1..], r))
  }

  lemma {:induction false} RunKeeps(s: System, steps: seq<Step>, r: System)
    requires Inv(s) && Run(s, steps, r)
    ensures Inv(r) && (r.q.init == 1 ==> s.q.init == 1 && r.q.maxLength == s.q.maxLength)
    decreases |steps|
  {
    hide Placed, Carrying, NoLostWakeup, Contents, Around, Members, Rest, TailOf, Join, Well;
    if steps != [] {
      StepKeeps(s, steps[0]);
      RunKeeps(Next(s, steps[0]), steps[1..], r);
    }
  }

  lemma StartHolds(maxLength: nat)
    ensures Inv(Start(maxLength))
  {
  }

  /** Over every interleaving: first in, first out, never more than maxLength in between; while
      readers wait there is a woken reader for every element, while writers wait a woken writer for
      every free place; and a writer that waits or was woken still carries its element. */
  lemma EveryRun(maxLength: nat, steps: seq<Step>, r: System)
    requires (StartHolds(maxLength); Run(Start(maxLength), steps, r))
    ensures r.received <= r.posted
    ensures r.q.init == 1 ==> |r.posted| - |r.received| == r.q.length <= maxLength
    ensures r.q.init == 1 ==> Well(r.q) && r.posted == r.received + Contents(r.q)
    ensures r.q.readers != [] ==> |r.wokenReaders| >= r.q.length
    ensures r.q.writers != [] ==> |r.wokenWriters| >= maxLength - r.q.length
    ensures Members(r.q.writers) + r.wokenWriters <= r.carried.Keys
  {
    hide Placed, Around, Members, Run;
    StartHolds(maxLength);
    RunKeeps(Start(maxLength), steps, r);
  }

  // ----- waiting is reached ------------------------------------------------------------------------

  /** In every reachable state: who enters queue_pend, or looks again there, comes to stand in the
      readers' line exactly if the queue is empty, and receives its oldest value else; who enters
      queue_post, or looks again there, comes to stand in the writers' line exactly if the queue is full,
      and its own element is posted else. */
  lemma EveryCallWaitsIff(maxLength: nat, steps: seq<Step>, r: System, t: Tid, element: int)
    requires (StartHolds(maxLength); Run(Start(maxLength), steps, r))
    ensures Inv(r)
    ensures Enabled(r, EnterPend(t)) ==> PendWaits(r, Next(r, EnterPend(t)), t)
    ensures Enabled(r, RecheckPend(t)) ==> PendWaits(r, Next(r, RecheckPend(t)), t) && t !in Next(r, RecheckPend(t)).wokenReaders
    ensures Enabled(r, EnterPost(t, element)) ==> PostWaits(r, Next(r, EnterPost(t, element)), t, element)
    ensures Enabled(r, RecheckPost(t)) ==>
      PostWaits(r, Next(r, RecheckPost(t)), t, r.carried[t]) && t !in Next(r, RecheckPost(t)).wokenWriters
  {
    hide Run, Start, Contents, Around, Proper, Members, PendWaits, PostWaits;
    StartHolds(maxLength);
    RunKeeps(Start(maxLength), steps, r);
    if t !in Members(r.q.readers) && t !in Members(r.q.writers) {
      PassWaits(r, t, element);
      if t in r.carried {
        PassWaits(r, t, r.carried[t]);
      }
      WokenWaits(r, t);
    }
  }

  lemma WokenWaits(r: System, t: Tid)
    requires Inv(r) && t !in Members(r.q.readers) && t !in Members(r.q.writers)
    ensures Enabled(r, RecheckPend(t)) ==> PendWaits(r, Next(r, RecheckPend(t)), t) && t !in Next(r, RecheckPend(t)).wokenReaders
    ensures Enabled(r, RecheckPost(t)) ==>
      PostWaits(r, Next(r, RecheckPost(t)), t, r.carried[t]) && t !in Next(r, RecheckPost(t)).wokenWriters
  {
    hide Contents, Around, Proper, Members, Run;
    PassWaits(r.(wokenReaders := r.wokenReaders - {t}), t, 0);
    if t in r.carried {
      PassWaits(r.(wokenWriters := r.wokenWriters - {t}), t, r.carried[t]);
    }
    LeavesOthers(r, t);
  }

  lemma LeavesOthers(r: System, t: Tid)
    requires Inv(r)
    ensures Enabled(r, RecheckPend(t)) ==> t !in Next(r, RecheckPend(t)).wokenReaders
    ensures Enabled(r, RecheckPost(t)) ==> t !in Next(r, RecheckPost(t)).wokenWriters
  {
    hide Contents, Around, Proper;
    RestProper(r.q.writers);
    RestProper(r.q.readers);
  }

  lemma PassWaits(s: System, t: Tid, element: int)
    requires t !in Members(s.q.readers) && t !in Members(s.q.writers) && (s.q.init == 1 ==> Well(s.q))
    ensures PendWaits(s, DoPend(s, t), t) && PostWaits(s, DoPost(s, t, element), t, element)
  {
    hide Join, Members, Contents;
    JoinMembers(s.q.readers, t);
    JoinMembers(s.q.writers, t);
    if s.q.init == 1 && s.q.length > 0 {
      PendTakesOldest(s.q, t);
    }
    RestMembers(s.q.readers);
    RestMembers(s.q.writers);
  }

  ghost predicate PendWaits(s: System, r: System, t: Tid)
    requires s.q.init == 1 ==> Well(s.q)
  {
    && (t in Members(r.q.readers) <==> s.q.init == 1 && s.q.length == 0)
    && r.received == s.received + (if s.q.init == 1 && s.q.length > 0 then [Contents(s.q)[0]] else [])
    && r.posted == s.posted
  }

  ghost predicate PostWaits(s: System, r: System, t: Tid, element: int) {
    && (t in Members(r.q.writers) <==> s.q.init == 1 && s.q.length == s.q.maxLength)
    && (t in Members(r.q.writers) ==> t in r.carried && r.carried[t] == element)
    && r.posted == s.posted + (if s.q.init == 1 && s.q.length != s.q.maxLength then [element] else [])
    && r.received == s.received
  }

  /** Only a call of its own changes what a thread carries. */
  lemma {:induction false} KeepsCarrying(s: System, steps: seq<Step>, r: System, t: Tid)
    requires Inv(s) && Run(s, steps, r) && t in s.carried
    requires forall i :: 0 <= i < |steps| ==> !(steps[i].EnterPost? && steps[i].t == t)
    ensures t in r.carried && r.carried[t] == s.carried[t]
    decreases |steps|
  {
    hide Placed, Carrying, NoLostWakeup, Contents, Around, Well;
    if steps != [] {
      StepKeeps(s, steps[0]);
      KeepsCarrying(Next(s, steps[0]), steps[1..], r, t);
    }
  }

  /** After k posts there are k elements in the queue. */
  lemma {:induction false} Filled(maxLength: nat, k: nat) returns (steps: seq<Step>, r: System)
    requires k <= maxLength
    ensures (StartHolds(maxLength); Run(Start(maxLength), steps, r)) && Inv(r)
    ensures r.q.init == 1 && r.q.length == k && r.q.maxLength == maxLength
    ensures r.q.readers == [] && r.q.writers == [] && r.wokenReaders == {} && r.wokenWriters == {}
  {
    hide Placed, Carrying, Contents, Around, NoLostWakeup, Run, Well, Members;
    StartHolds(maxLength);
    NobodyThere();
    if k == 0 {
      steps, r := [], Start(maxLength);
      NoSteps(r);
    } else {
      var before, s := Filled(maxLength, k - 1);
      StepKeeps(s, EnterPost(1, 0));
      RunThen(Start(maxLength), before, s, EnterPost(1, 0));
      steps, r := before + [EnterPost(1, 0)], Next(s, EnterPost(1, 0));
    }
  }

  lemma NoSteps(s: System)
    requires Inv(s)
    ensures Run(s, [], s)
  {
  }

  /** Whatever the depth, some run brings a reader to wait, and some run a writer. */
  lemma SomeoneWaits(maxLength: nat) returns (steps: seq<Step>, reading: System, writing: System)
    ensures (StartHolds(maxLength); Run(Start(maxLength), [EnterPend(1)], reading)) && Order(reading.q.readers) == [1]
    ensures (StartHolds(maxLength); Run(Start(maxLength), steps, writing)) && Order(writing.q.writers) == [2]
    ensures reading.q.init == 1 && writing.q.init == 1
  {
    hide Placed, Carrying, Contents, Around, NoLostWakeup, Run, Well, Members, Order, Join, Proper;
    StartHolds(maxLength);
    NobodyThere();
    NobodyServed();
    NoSteps(Start(maxLength));
    RunThen(Start(maxLength), [], Start(maxLength), EnterPend(1));
    assert [] + [EnterPend(1)] == [EnterPend(1)];
    reading := Next(Start(maxLength), EnterPend(1));
    PendAnswers(Start(maxLength).q, 1);
    var before, full := Filled(maxLength, maxLength);
    RunThen(Start(maxLength), before, full, EnterPost(2, 0));
    steps, writing := before + [EnterPost(2, 0)], Next(full, EnterPost(2, 0));
    PostAnswers(full.q, 2, 0);
  }

  lemma NobodyServed()
    ensures Order([]) == []
  {
  }

  // ----- destruction -------------------------------------------------------------------------------

  lemma {:induction false} StaysDestroyed(s: System, steps: seq<Step>, r: System)
    requires Inv(s) && s.q.init != 1 && Run(s, steps, r)
    ensures r.q == s.q && r.received == s.received && r.posted == s.posted
    decreases |steps|
  {
    hide Placed, Carrying, Contents, Around, Well, Next;
    if steps != [] {
      StepKeeps(s, steps[0]);
      DestroyedStep(s, steps[0]);
      StaysDestroyed(Next(s, steps[0]), steps[1..], r);
    }
  }

  lemma DestroyedStep(s: System, step: Step)
    requires s.q.init != 1 && Enabled(s, step)
    ensures var n := Next(s, step); n.q == s.q && n.received == s.received && n.posted == s.posted
  {
    hide Pend, Post, Destroy, Running;
    match step {
      case EnterPend(t) => DestroyedAnswers(s.q, t, 0);
      case RecheckPend(t) => DestroyedAnswers(s.q, t, 0);
      case EnterPost(t, element) => DestroyedAnswers(s.q, t, element);
      case RecheckPost(t) => DestroyedAnswers(s.q, t, s.carried[t]);
      case Unlock(t) =>
      case DestroyStep => DestroyedAnswers(s.q, 0, 0);
    }
  }

  /** Over every interleaving: once destroyed, a queue stays uninitialized, without room and with nobody
      waiting, and nothing is posted or received any more, whatever is called; whoever waited is woken by
      the destruction; and a thread that looks again, or comes new, is told at once, and waits for
      nothing. */
  lemma EveryRunDestroyed(maxLength: nat, before: seq<Step>, s: System, after: seq<Step>, r: System, t: Tid, element: int)
    requires (StartHolds(maxLength); Run(Start(maxLength), before, s)) && Inv(s)
    requires (StepKeeps(s, DestroyStep); Run(Next(s, DestroyStep), after, r))
    ensures var d := Next(s, DestroyStep);
      Members(s.q.readers) <= d.wokenReaders && Members(s.q.writers) <= d.wokenWriters
    ensures r.q.init == 0 && r.q.readers == [] && r.q.writers == [] && r.received == s.received && r.posted == s.posted
    ensures s.q.init == 1 ==> r.q.maxLength == r.q.length == 0 && r.q.cells == []
    ensures Pend(r.q, t).1 == Uninitialized && Post(r.q, t, element).1 == Uninitialized
    ensures Enabled(r, RecheckPend(t)) ==> Next(r, RecheckPend(t)) == r.(wokenReaders := r.wokenReaders - {t})
    ensures Enabled(r, RecheckPost(t)) ==> Next(r, RecheckPost(t)) == r.(wokenWriters := r.wokenWriters - {t})
    ensures Enabled(r, EnterPend(t)) ==> Next(r, EnterPend(t)) == r
    ensures Enabled(r, EnterPost(t, element)) ==> Next(r, EnterPost(t, element)) == r
  {
    hide Run, Placed, Carrying, NoLostWakeup, Contents, Around, Well, Next, Pend, Post, Members;
    StartHolds(maxLength);
    RunKeeps(Start(maxLength), before, s);
    DestroyWakes(s);
    StepKeeps(s, DestroyStep);
    StaysDestroyed(Next(s, DestroyStep), after, r);
    LooksAgain(r, t, element);
  }

  lemma DestroyWakes(s: System)
    requires Inv(s)
    ensures var r := Next(s, DestroyStep);
      && Members(s.q.readers) <= r.wokenReaders && Members(s.q.writers) <= r.wokenWriters
      && r.q.init == 0 && r.q.readers == [] && r.q.writers == [] && r.received == s.received && r.posted == s.posted
      && (s.q.init == 1 ==> r.q.maxLength == r.q.length == 0 && r.q.cells == [])
  {
    hide Proper, Members, Contents, Around, Well;
    NobodyThere();
  }

  lemma LooksAgain(r: System, t: Tid, element: int)
    requires r.q.init == 0
    ensures Pend(r.q, t).1 == Uninitialized && Post(r.q, t, element).1 == Uninitialized
    ensures Enabled(r, RecheckPend(t)) ==> Next(r, RecheckPend(t)) == r.(wokenReaders := r.wokenReaders - {t})
    ensures Enabled(r, RecheckPost(t)) ==> Next(r, RecheckPost(t)) == r.(wokenWriters := r.wokenWriters - {t})
    ensures Enabled(r, EnterPend(t)) ==> Next(r, EnterPend(t)) == r
    ensures Enabled(r, EnterPost(t, element)) ==> Next(r, EnterPost(t, element)) == r
  {
    DestroyedAnswers(r.q, t, element);
  }

  // ----- the cells that are really allocated ------------------------------------------------------

  /** A post that does not block writes the cell at head. */
  ghost predicate WritesOutside(s: System, cells: nat) {
    s.q.init == 1 && s.q.length < s.q.maxLength && s.q.head >= cells
  }

  /** No run of a queue of this depth ever writes outside so many cells. */
  ghost predicate Fits(maxLength: nat, cells: nat) {
    StartHolds(maxLength);
    forall steps, r :: Run(Start(maxLength), steps, r) ==> !WritesOutside(r, cells)
  }

  lemma {:induction false} RunThen(s: System, steps: seq<Step>, m: System, step: Step)
    requires Inv(s) && Run(s, steps, m) && Inv(m) && Enabled(m, step)
    ensures Run(s, steps + [step], Next(m, step))
    decreases |steps|
  {
    hide Placed, NoLostWakeup, Next, Well;
    StepKeeps(m, step);
    if steps == [] {
      assert [step][1..] == [];
    } else {
      StepKeeps(s, steps[0]);
      RunThen(Next(s, steps[0]), steps[1..], m, step);
      assert (steps + [step])[1..] == steps[1..] + [step];
    }
  }

  /** After k rounds of one post and one receipt, head and tail stand at cell k. */
  lemma {:induction false} Rounds(maxLength: nat, k: nat) returns (steps: seq<Step>, r: System)
    requires k <= maxLength
    ensures (StartHolds(maxLength); Run(Start(maxLength), steps, r)) && Inv(r)
    ensures r.q.init == 1 && r.q.head == k && r.q.length == 0 && r.q.maxLength == maxLength
    ensures r.q.readers == [] && r.q.writers == [] && r.wokenReaders == {} && r.wokenWriters == {}
  {
    StartHolds(maxLength);
    if k == 0 {
      steps, r := [], Start(maxLength);
    } else {
      var before, s := Rounds(maxLength, k - 1);
      assert Members([]) == {};
      StepKeeps(s, EnterPost(1, 0));
      RunThen(Start(maxLength), before, s, EnterPost(1, 0));
      var m := Next(s, EnterPost(1, 0));
      StepKeeps(m, EnterPend(1));
      RunThen(Start(maxLength), before + [EnterPost(1, 0)], m, EnterPend(1));
      steps, r := before + [EnterPost(1, 0)] + [EnterPend(1)], Next(m, EnterPend(1));
    }
  }

  /** A queue needs a cell more than its depth, unless that is 0; queue_init asks for its depth. */
  lemma AllocationSufficesIff(maxLength: nat, cells: nat)
    ensures Fits(maxLength, cells) <==> maxLength == 0 || cells > maxLength
  {
    StartHolds(maxLength);
    if maxLength > 0 && cells <= maxLength {
      var steps, r := Rounds(maxLength, maxLength);
      assert WritesOutside(r, cells);
    } else {
      forall steps, r | Run(Start(maxLength), steps, r) ensures !WritesOutside(r, cells) {
        RunKeeps(Start(maxLength), steps, r);
      }
    }
  }
}
