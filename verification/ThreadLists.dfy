/** The kernel lists in which the nodes of threads stand, seen as lines of pids. */
module ThreadLists {
  import opened Basics
  import opened PriorityList
  import opened KernelList
  import opened Waiters

  /** The pids of the threads in a list, with their priorities, from head to tail. */
  ghost function Threads(list: List): Line
    reads list, list.nodes
  {
    Data(list.View())
  }

  lemma ListedData(list: List, node: Node)
    requires node in list.nodes
    ensures node.data in Members(Threads(list))
  {
    var i :| 0 <= i < |list.nodes| && list.nodes[i] == node;
    assert Threads(list)[i] in Threads(list);
  }

  /** A list whose nodes were left alone is as it was. */
  twostate lemma Untouched(list: List)
    requires old(list.Valid()) && unchanged(list) && forall n :: n in list.nodes ==> unchanged(n)
    ensures list.Valid() && Threads(list) == old(Threads(list))
  {
    forall i | 0 <= i < |list.nodes| ensures list.Linked(i) && list.nodes[i].priority == old(list.nodes[i].priority) {
      assert list.nodes[i] in list.nodes && old(list.Linked(i));
    }
    assert list.View() == old(list.View());
  }

  /** Priorities do not matter to how a list is linked. */
  twostate lemma Revalued(list: KernelList.List)
    requires old(list.Valid()) && unchanged(list)
    requires forall n :: n in list.nodes ==> n.next == old(n.next) && n.prev == old(n.prev) && n.enlisted == old(n.enlisted)
    ensures list.Valid()
    ensures (forall n :: n in list.nodes ==> n.priority == old(n.priority)) ==> Threads(list) == old(Threads(list))
  {
    forall i | 0 <= i < |list.nodes| ensures list.Linked(i) {
      assert list.nodes[i] in list.nodes && old(list.Linked(i));
    }
    if forall n :: n in list.nodes ==> n.priority == old(n.priority) {
      assert forall i :: 0 <= i < |list.nodes| ==> list.nodes[i] in list.nodes;
      assert list.View() == old(list.View());
    }
  }

  /** Puts a thread's node into a list where it does not stand; the caller's panics are unreachable. */
  method EnlistThread(node: Node, list: List, priority: nat) returns (panic: bool)
    requires list.Valid() && node !in list.nodes && priority < UINT16
    modifies list, list.nodes, node
    ensures !panic && list.Valid()
    ensures Threads(list) == Insert(old(Threads(list)), Entry(node.data, priority))
    ensures forall n :: n in list.nodes <==> n in old(list.nodes) || n == node
  {
    DataInsert(list.View(), Entry(node, priority));
    var error, entangled := EnlistData(node, list, priority);
    panic := entangled || error != NoError;
  }

  /** Takes the node at the tail; null if the list is empty. */
  method DelistThread(list: List) returns (node: Node?, panic: bool)
    requires list.Valid()
    modifies list, list.nodes
    ensures !panic && list.Valid() && Threads(list) == Rest(old(Threads(list)))
    ensures TailOf(old(Threads(list))) == if node == null then None else Some(node.data)
    ensures node == null ==> old(list.nodes) == [] && list.nodes == []
    ensures node != null ==> node in old(list.nodes) && list.nodes == old(list.nodes)[..|old(list.nodes)| - 1]
    ensures forall n :: n in list.nodes <==> n in old(list.nodes) && n != node
  {
    ghost var q := list.View();
    var error;
    node, error := DelistData(list);
    panic := error != NoError;
    if q != [] {
      assert Data(q[..|q| - 1]) == Data(q)[..|q| - 1];
    }
  }

  function Pid(node: Node?): Option<Tid> {
    if node == null then None else Some(node.data)
  }

  // ----- lines in order of arrival ----------------------------------------------------------------

  /** The node of a thread that does not stand in a line can go there, to its end. */
  lemma Arrives(list: List, node: Node)
    requires Proper(Threads(list)) && node.data !in Members(Threads(list))
    ensures node !in list.nodes && Insert(Threads(list), Entry(node.data, 0)) == Join(Threads(list), node.data)
    ensures Proper(Join(Threads(list), node.data))
    ensures Order(Join(Threads(list), node.data)) == Order(Threads(list)) + [node.data]
  {
    if node in list.nodes { ListedData(list, node); }
    JoinProper(Threads(list), node.data);
    JoinGoesLast(Threads(list), node.data);
  }

  /** Whoever leaves a line first is the one that came first. */
  lemma Leaves(list: List)
    requires Proper(Threads(list))
    ensures var q := Threads(list);
      && Proper(Rest(q))
      && Order(q) == (if q == [] then [] else [q[|q| - 1].item]) + Order(Rest(q))
  {
    RestProper(Threads(list));
    if Threads(list) != [] {
      TailFirst(Threads(list));
    }
  }

  function First(node: Node?): seq<Tid> {
    if node == null then [] else [node.data]
  }

  /** Takes the thread that stands longest in a line. */
  method TakeFirst(list: List) returns (node: Node?, panic: bool)
    requires list.Valid() && Proper(Threads(list))
    modifies list, list.nodes
    ensures !panic && list.Valid() && Proper(Threads(list))
    ensures Threads(list) == Rest(old(Threads(list))) && Pid(node) == TailOf(old(Threads(list)))
    ensures old(Order(Threads(list))) == First(node) + Order(Threads(list))
    ensures node == null ==> Threads(list) == [] && list.nodes == []
    ensures node != null ==> node in old(list.nodes) && list.nodes == old(list.nodes)[..|old(list.nodes)| - 1]
    ensures forall n :: n in list.nodes <==> n in old(list.nodes) && n != node
  {
    Leaves(list);
    hide Proper, Order;
    ghost var q := Threads(list);
    node, panic := DelistThread(list);
  }

  /** Empties a line, from the tail on. */
  method DelistAll(list: List) returns (woken: seq<Tid>, panic: bool)
    requires list.Valid() && Proper(Threads(list))
    modifies list, list.nodes
    ensures !panic && list.Valid() && Threads(list) == [] && list.nodes == []
    ensures woken == old(Order(Threads(list)))
  {
    hide Proper, Order, List.Linked, Distinct;
    woken := [];
    var node;
    node, panic := TakeFirst(list);
    while node != null
      invariant !panic && list.Valid() && Proper(Threads(list))
      invariant list.nodes <= old(list.nodes)
      invariant woken + First(node) + Order(Threads(list)) == old(Order(Threads(list)))
      invariant node == null ==> Threads(list) == [] && list.nodes == []
      decreases if node == null then 0 else 1 + |list.nodes|
    {
      woken := woken + [node.data];
      node, panic := TakeFirst(list);
    }
    NobodyLeft();
  }

  lemma NobodyLeft()
    ensures Order([]) == []
  {
  }

  // ----- two lines of one object ------------------------------------------------------------------

  /** The nodes of both lines are well linked and apart; each thread stands in its line once, in the
      order of arrival. */
  ghost predicate Lines(a: List, b: List)
    reads a, a.nodes, b, b.nodes
  {
    && a != b && a.Valid() && b.Valid() && Proper(Threads(a)) && Proper(Threads(b))
    && (forall n :: n in a.nodes ==> n !in b.nodes)
  }

  lemma LinesProper(a: List, b: List)
    requires Lines(a, b)
    ensures Proper(Threads(a)) && Proper(Threads(b))
  {
  }

  lemma LinesTurned(a: List, b: List)
    requires Lines(a, b)
    ensures Lines(b, a)
  {
  }

  method JoinLine(node: Node, a: List, b: List) returns (panic: bool)
    requires Lines(a, b) && node.data !in Members(Threads(a)) && node.data !in Members(Threads(b))
    modifies a, a.nodes, node
    ensures !panic && Lines(a, b) && Threads(b) == old(Threads(b))
    ensures Threads(a) == old(Join(Threads(a), node.data))
    ensures Order(Threads(a)) == old(Order(Threads(a))) + [node.data]
  {
    Arrives(a, node);
    Arrives(b, node);
    hide Insert, Order, Proper, Join;
    panic := EnlistThread(node, a, 0);
    Untouched(b);
  }

  method LeaveLine(a: List, b: List) returns (node: Node?, panic: bool)
    requires Lines(a, b)
    modifies a, a.nodes
    ensures !panic && Lines(a, b) && Threads(b) == old(Threads(b))
    ensures Threads(a) == Rest(old(Threads(a))) && Pid(node) == TailOf(old(Threads(a)))
    ensures old(Order(Threads(a))) == First(node) + Order(Threads(a))
    ensures node == null ==> Threads(a) == []
  {
    hide Order, Proper;
    node, panic := TakeFirst(a);
    Untouched(b);
  }

  method EmptyLines(a: List, b: List) returns (woken: seq<Tid>, panic: bool)
    requires Lines(a, b)
    modifies a, a.nodes, b, b.nodes
    ensures !panic && Lines(a, b) && Threads(a) == [] && Threads(b) == []
    ensures woken == old(Order(Threads(a))) + old(Order(Threads(b)))
  {
    hide Order;
    woken, panic := DelistAll(a);
    Untouched(b);
    var more, again := DelistAll(b);
    woken, panic := woken + more, panic || again;
    assert a.nodes == [];
    assert Threads(a) == [];
  }
}
