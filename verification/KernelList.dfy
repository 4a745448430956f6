/** The kernel's priority lists over linked nodes, proved to follow PriorityList. */
module KernelList {
  import opened Basics
  import opened PriorityList

  datatype ReturnCode = NoError | NullPointer | NoSuchId

  class Node {
    var next: Node?
    var prev: Node?
    var priority: nat
    var enlisted: bool
    const data: nat

    constructor (data: nat)
      ensures next == null && prev == null && priority == 0 && !enlisted && this.data == data
    {
      next, prev, priority, enlisted := null, null, 0, false;
      this.data := data;
    }
  }

  /** The queue of what the nodes carry, which for the scheduler's lists are pids. */
  function Data(q: Queue<Node>): Queue<nat> {
    seq(|q|, i requires 0 <= i < |q| => Entry(q[i].item.data, q[i].prio))
  }

  lemma {:induction false} DataInsert(q: Queue<Node>, e: Entry<Node>)
    ensures Data(Insert(q, e)) == Insert(Data(q), Entry(e.item.data, e.prio))
  {
    if q != [] && q[0].prio > e.prio {
      DataInsert(q[1..], e);
      assert Data(q)[1..] == Data(q[1..]);
      assert Data(Insert(q, e)) == [Data(q)[0]] + Data(Insert(q[1..], e));
    }
  }

  ghost predicate Distinct(s: seq<Node>) {
    forall i, j :: 0 <= i < j < |s| ==> s[i] != s[j]
  }

  lemma InsertDistinct(s: seq<Node>, k: nat, node: Node)
    requires Distinct(s) && node !in s && k <= |s|
    ensures Distinct(s[..k] + [node] + s[k..])
  {
    var t := s[..k] + [node] + s[k..];
    forall i, j | 0 <= i < j < |t| ensures t[i] != t[j] {
      if i != k { assert t[i] == s[if i < k then i else i - 1]; }
      if j != k { assert t[j] == s[if j < k then j else j - 1]; }
    }
  }

  lemma RemoveDistinct(s: seq<Node>, k: nat)
    requires Distinct(s) && k < |s|
    ensures Distinct(s[..k] + s[k + 1..]) && s[k] !in s[..k] + s[k + 1..]
    ensures forall i :: 0 <= i < |s| && i != k ==> s[i] != s[k]
  {
    var t := s[..k] + s[k + 1..];
    assert forall i :: 0 <= i < |t| ==> t[i] == s[if i < k then i else i + 1];
  }

  class List {
    var head: Node?
    var tail: Node?
    var size: nat

    /** The nodes from head to tail, and how many were taken out by Remove. */
    ghost var nodes: seq<Node>
    ghost var removals: nat

    constructor ()
      ensures Valid() && nodes == [] && removals == 0
    {
      head, tail, size := null, null, 0;
      nodes, removals := [], 0;
    }

    ghost predicate Linked(i: nat)
      requires i < |nodes|
      reads this, nodes
    {
      && nodes[i].enlisted
      && nodes[i].next == (if i + 1 < |nodes| then nodes[i + 1] else null)
      && nodes[i].prev == (if i > 0 then nodes[i - 1] else null)
    }

    /** The nodes are distinct and linked in both directions, and size counts them: it counts what
        Remove took out as if it were still there. */
    ghost predicate Valid()
      reads this, nodes
    {
      && head == (if nodes == [] then null else nodes[0])
      && tail == (if nodes == [] then null else nodes[|nodes| - 1])
      && Distinct(nodes)
      && (forall i :: 0 <= i < |nodes| ==> Linked(i))
      && size == (|nodes| + removals) % UINT32
    }

    ghost function View(): Queue<Node>
      reads this, nodes
    {
      seq(|nodes|, i requires 0 <= i < |nodes| reads this, nodes => Entry(nodes[i], nodes[i].priority))
    }
  }

  /** The first node whose priority number is not larger, null when there is none. */
  method FindPlace(list: List, priority: nat) returns (cursor: Node?, ghost k: nat)
    requires list.Valid()
    ensures k == Position(list.View(), priority)
    ensures cursor == if k < |list.nodes| then list.nodes[k] else null
  {
    ghost var q, s := list.View(), list.nodes;
    cursor := list.head;
    k := 0;
    while cursor != null && cursor.priority > priority
      invariant k <= |s|
      invariant cursor == if k < |s| then s[k] else null
      invariant forall i :: 0 <= i < k ==> q[i].prio > priority
      decreases |s| - k
    {
      assert list.Linked(k);
      cursor := cursor.next;
      k := k + 1;
    }
    PositionBy(q, priority, k);
  }

  /** Nodes s, linked as one list would be but for the node that goes in at position k. */
  ghost predicate LinkedAround(s: seq<Node>, node: Node, k: nat)
    reads s
  {
    forall i :: 0 <= i < |s| ==> Around(s, node, k, i)
  }

  ghost predicate Around(s: seq<Node>, node: Node, k: nat, i: nat)
    requires i < |s|
    reads s
  {
    && s[i].enlisted
    && s[i].next == (if i + 1 == k then node else if i + 1 < |s| then s[i + 1] else null)
    && s[i].prev == (if i == k then node else if i > 0 then s[i - 1] else null)
  }

  lemma LinkedIn(list: List, s: seq<Node>, node: Node, k: nat)
    requires k <= |s| && list.nodes == s[..k] + [node] + s[k..] && LinkedAround(s, node, k)
    requires node.enlisted && node.next == (if k < |s| then s[k] else null)
    requires node.prev == if k > 0 then s[k - 1] else null
    ensures forall i :: 0 <= i < |list.nodes| ==> list.Linked(i)
  {
    forall i | 0 <= i < |list.nodes| ensures list.Linked(i) {
      assert i < k ==> Around(s, node, k, i);
      assert i > k ==> Around(s, node, k, i - 1);
      assert list.nodes[i] == InsertedAt(s, node, k, i);
      assert i > 0 ==> list.nodes[i - 1] == InsertedAt(s, node, k, i - 1);
      assert i + 1 < |list.nodes| ==> list.nodes[i + 1] == InsertedAt(s, node, k, i + 1);
    }
  }

  function InsertedAt(s: seq<Node>, node: Node, k: nat, i: nat): Node
    requires k <= |s| && i <= |s|
  {
    if i < k then s[i] else if i == k then node else s[i - 1]
  }

  /** Sets the links around a new node that goes before the node at position k, or at the end. */
  method LinkNeighbours(list: List, node: Node, cursor: Node?, ghost k: nat)
    requires list.Valid() && node !in list.nodes
    requires k <= |list.nodes| && cursor == if k < |list.nodes| then list.nodes[k] else null
    modifies list`head, list`tail, list.nodes, node
    ensures node.priority == old(node.priority)
    ensures forall n :: n in list.nodes ==> n.priority == old(n.priority) && n.enlisted == old(n.enlisted)
    ensures node.next == cursor && node.prev == (if k > 0 then list.nodes[k - 1] else null)
    ensures list.head == (if k > 0 then old(list.head) else node)
    ensures list.tail == (if k < |list.nodes| then old(list.tail) else node)
    ensures LinkedAround(list.nodes, node, k)
  {
    assert k < |list.nodes| ==> list.Linked(k);
    assert k > 0 ==> list.Linked(k - 1);
    if list.head == null {
      list.head := node;
      list.tail := node;
      node.next := null;
      node.prev := null;
    } else if cursor != null {
      node.next := cursor;
      node.prev := cursor.prev;
      cursor.prev := node;
      if node.prev != null {
        node.prev.next := node;
      } else {
        list.head := node;
      }
    } else {
      node.prev := list.tail;
      node.next := null;
      list.tail.next := node;
      list.tail := node;
    }
    forall i | 0 <= i < |list.nodes| ensures Around(list.nodes, node, k, i) {
      assert old(list.Linked(i));
    }
  }

  lemma CountUp(n: nat)
    ensures (n % UINT32 + 1) % UINT32 == (n + 1) % UINT32 && ((n + 1) % UINT32 - 1) % UINT32 == n % UINT32
  {
  }

  /** Links a new node in and counts it. */
  method LinkAt(list: List, node: Node, cursor: Node?, ghost k: nat)
    requires list.Valid() && node !in list.nodes
    requires k <= |list.nodes| && cursor == if k < |list.nodes| then list.nodes[k] else null
    modifies list, list.nodes, node
    ensures list.Valid() && list.nodes == old(list.nodes)[..k] + [node] + old(list.nodes)[k..]
    ensures list.removals == old(list.removals) && node.enlisted
    ensures node.priority == old(node.priority)
    ensures forall n :: n in old(list.nodes) ==> n.priority == old(n.priority)
  {
    hide Distinct, LinkedAround;
    ghost var s := list.nodes;
    InsertDistinct(s, k, node);
    LinkNeighbours(list, node, cursor, k);
    CountUp(|s| + list.removals);
    list.size := (list.size + 1) % UINT32;
    node.enlisted := true;
    list.nodes := s[..k] + [node] + s[k..];
    LinkedIn(list, s, node, k);
  }

  lemma InsertedView(list: List, q: Queue<Node>, s: seq<Node>, node: Node, k: nat)
    requires k == Position(q, node.priority) && |q| == |s|
    requires forall i :: 0 <= i < |s| ==> q[i] == Entry(s[i], s[i].priority)
    requires list.nodes == s[..k] + [node] + s[k..]
    ensures list.View() == Insert(q, Entry(node, node.priority))
  {
    InsertIs(q, Entry(node, node.priority));
    var r := q[..k] + [Entry(node, node.priority)] + q[k..];
    assert |list.View()| == |r|;
    forall i | 0 <= i < |r| ensures list.View()[i] == r[i] {
      if i < k {
        assert list.nodes[i] == s[i];
      } else if i > k {
        assert list.nodes[i] == s[i - 1];
      }
    }
  }

  /** Enlists a node in front of the first node with a priority number that is not larger. */
  method EnlistData(node: Node?, list: List?, priority: nat) returns (error: ReturnCode, panic: bool)
    requires priority < UINT16
    requires list != null ==> list.Valid()
    requires list != null && node != null ==> node !in list.nodes
    modifies list, if list != null then list.nodes else [], node
    ensures node == null || list == null ==> error == NullPointer && !panic
    ensures node == null && list != null ==> list.Valid() && list.View() == old(list.View())
    ensures node != null && list != null ==>
      && error == NoError && !panic && list.Valid() && node.enlisted
      && list.View() == Insert(old(list.View()), Entry(node as Node, priority))
      && list.removals == old(list.removals)
      && forall n :: n in list.nodes <==> n in old(list.nodes) || n == node
  {
    panic := false;
    if node == null || list == null {
      return NullPointer, panic;
    }
    panic := Enlist(node, list, priority);
    error := NoError;
  }

  method Enlist(node: Node, list: List, priority: nat) returns (panic: bool)
    requires list.Valid() && node !in list.nodes
    modifies list, list.nodes, node
    ensures !panic && list.Valid() && node.enlisted && list.removals == old(list.removals)
    ensures list.View() == Insert(old(list.View()), Entry(node, priority))
    ensures forall n :: n in list.nodes <==> n in old(list.nodes) || n == node
  {
    hide Insert, Position, Distinct, List.Linked;
    ghost var q, s := list.View(), list.nodes;
    node.priority := priority;
    assert list.View() == q;
    var cursor, k := FindPlace(list, priority);
    LinkAt(list, node, cursor, k);
    InsertedView(list, q, s, node, k);
    panic := Entangled(list, node, k);
  }

  /** A linked node never has the same node on both sides. */
  method Entangled(list: List, node: Node, ghost k: nat) returns (panic: bool)
    requires list.Valid() && k < |list.nodes| && list.nodes[k] == node
    ensures !panic
  {
    assert list.Linked(k);
    panic := node.next != null && node.prev != null && node.next == node.prev;
  }

  method UnlinkTail(list: List) returns (node: Node)
    requires list.Valid() && list.nodes != []
    modifies list, list.nodes
    ensures list.Valid() && list.removals == old(list.removals)
    ensures node == old(list.nodes[|list.nodes| - 1]) && list.nodes == old(list.nodes[..|list.nodes| - 1])
    ensures node.next == null && node.prev == null && !node.enlisted && node !in list.nodes
    ensures forall n :: n in old(list.nodes) ==> n.priority == old(n.priority) && (n != node ==> n in list.nodes)
  {
    hide Distinct;
    ghost var s := list.nodes;
    ghost var n := |s| - 1;
    RemoveDistinct(s, n);
    assert s[..n] + s[n + 1..] == s[..n];
    assert list.Linked(n);
    assert n > 0 ==> list.Linked(n - 1);
    node := list.tail;
    if node.prev != null {
      node.prev.next := null;
      list.tail := node.prev;
    } else {
      list.head := null;
      list.tail := null;
    }
    CountUp(|s| - 1 + list.removals);
    list.size := (list.size - 1) % UINT32;
    node.next := null;
    node.prev := null;
    node.enlisted := false;
    list.nodes := s[..n];
    assert s == s[..n] + [s[n]];
    forall i | 0 <= i < n ensures list.Linked(i) {
      assert list.nodes[i] == s[i] && old(list.Linked(i));
    }
  }

  /** Takes the node at the tail out of the list. */
  method DelistData(list: List?) returns (node: Node?, error: ReturnCode)
    requires list != null ==> list.Valid()
    modifies list, if list != null then list.nodes else []
    ensures list == null ==> node == null && error == NullPointer
    ensures list != null ==> list.Valid() && error == NoError && list.removals == old(list.removals)
    ensures list != null && old(list.View()) == [] ==> node == null && list.View() == []
    ensures list != null && old(list.View()) != [] ==>
      var q := old(list.View());
      && node == q[|q| - 1].item && list.View() == q[..|q| - 1]
      && node.next == null && node.prev == null && !node.enlisted
      && node.priority == old(q[|q| - 1].item.priority)
      && node in old(list.nodes) && list.nodes == old(list.nodes)[..|q| - 1] && node !in list.nodes
      && forall n :: n in old(list.nodes) && n != node ==> n in list.nodes
  {
    if list == null {
      return null, NullPointer;
    }
    if list.head == null {
      return null, NoError;
    }
    ghost var q := list.View();
    node := UnlinkTail(list);
    error := NoError;
    assert list.View() == q[..|q| - 1];
  }

  /** The first node from the head on that carries the data. */
  method FindNode(list: List?, data: nat) returns (node: Node?, error: ReturnCode)
    requires list != null ==> list.Valid()
    ensures list == null ==> node == null && error == NullPointer
    ensures list != null && (exists i :: 0 <= i < |list.nodes| && list.nodes[i].data == data) ==>
      error == NoError && exists k :: 0 <= k < |list.nodes| && node == list.nodes[k] && node.data == data
                                      && forall i :: 0 <= i < k ==> list.nodes[i].data != data
    ensures list != null && (forall i :: 0 <= i < |list.nodes| ==> list.nodes[i].data != data) ==>
      error == NoSuchId && node == null
  {
    if list == null {
      return null, NullPointer;
    }
    node := list.head;
    ghost var k := 0;
    while node != null && node.data != data
      invariant 0 <= k <= |list.nodes|
      invariant node == if k < |list.nodes| then list.nodes[k] else null
      invariant forall i :: 0 <= i < k ==> list.nodes[i].data != data
      decreases |list.nodes| - k
    {
      assert list.Linked(k);
      node := node.next;
      k := k + 1;
    }
    if node == null {
      return null, NoSuchId;
    }
    error := NoError;
  }

  /** Takes a node out of the list, wherever it stands; size is not changed. */
  method RemoveNodeFrom(list: List?, node: Node?) returns (error: ReturnCode)
    requires list != null ==> list.Valid()
    modifies list, if list != null then list.nodes else [], node
    ensures list == null || node == null ==> error == NullPointer
    ensures list != null ==> list.Valid()
    ensures list != null && (node == null || node !in old(list.nodes)) ==>
      list.View() == old(list.View()) && list.removals == old(list.removals)
    ensures list != null && node != null && node !in old(list.nodes) ==> error == NoSuchId
    ensures list != null && node != null && node in old(list.nodes) ==>
      && error == NoError && !node.enlisted && node.next == null && node.prev == null
      && list.size == old(list.size) && list.removals == old(list.removals) + 1
      && (exists k :: 0 <= k < |old(list.nodes)| && old(list.nodes)[k] == node
                      && list.View() == Without(old(list.View()), k))
      && forall n :: n in list.nodes <==> n in old(list.nodes) && n != node
  {
    if list == null || node == null {
      return NullPointer;
    }
    var cursor := list.head;
    ghost var k := 0;
    while cursor != null && cursor != node
      invariant 0 <= k <= |list.nodes|
      invariant cursor == if k < |list.nodes| then list.nodes[k] else null
      invariant node !in list.nodes[..k]
      decreases |list.nodes| - k
    {
      assert list.Linked(k);
      cursor := cursor.next;
      k := k + 1;
    }
    if cursor == null {
      return NoSuchId;
    }
    UnlinkAt(list, cursor, k);
    error := NoError;
  }

  /** The node at position i of s, linked past the node at position k. */
  ghost predicate Past(s: seq<Node>, k: nat, i: nat)
    requires i < |s|
    reads s[i]
  {
    var after, before := if i + 1 == k then i + 2 else i + 1, if i == k + 1 then i - 2 else i - 1;
    && s[i].enlisted
    && s[i].next == (if after < |s| then s[after] else null)
    && s[i].prev == (if before >= 0 then s[before] else null)
  }

  /** Links the neighbours of a node with each other. */
  method UnlinkNeighbours(list: List, cursor: Node, ghost k: nat)
    requires list.Valid() && k < |list.nodes| && list.nodes[k] == cursor
    modifies list`head, list`tail, list.nodes
    ensures list.head == (if k > 0 then old(list.head) else if |list.nodes| > 1 then list.nodes[1] else null)
    ensures list.tail == (if k + 1 < |list.nodes| then old(list.tail) else if k > 0 then list.nodes[k - 1] else null)
    ensures forall n :: n in list.nodes ==> n.priority == old(n.priority)
    ensures forall i :: 0 <= i < |list.nodes| && i != k ==> Past(list.nodes, k, i)
  {
    assert list.Linked(k);
    assert k > 0 ==> list.Linked(k - 1);
    assert k + 1 < |list.nodes| ==> list.Linked(k + 1);
    if cursor.prev != null && cursor.next != null {
      cursor.prev.next := cursor.next;
      cursor.next.prev := cursor.prev;
    } else if cursor.prev == null && cursor.next != null {
      list.head := cursor.next;
      cursor.next.prev := null;
    } else if cursor.prev != null && cursor.next == null {
      list.tail := cursor.prev;
      cursor.prev.next := null;
    } else {
      list.head := null;
      list.tail := null;
    }
    forall i | 0 <= i < |list.nodes| && i != k ensures Past(list.nodes, k, i) {
      assert old(list.Linked(i));
    }
  }

  lemma LinkedPast(list: List, s: seq<Node>, k: nat)
    requires k < |s| && list.nodes == s[..k] + s[k + 1..]
    requires forall i :: 0 <= i < |s| && i != k ==> Past(s, k, i)
    ensures forall i :: 0 <= i < |list.nodes| ==> list.Linked(i)
  {
    forall i | 0 <= i < |list.nodes| ensures list.Linked(i) {
      assert Past(s, k, if i < k then i else i + 1);
    }
  }

  lemma WithoutView(list: List, q: Queue<Node>, s: seq<Node>, k: nat)
    requires |q| == |s| && k < |s| && list.nodes == s[..k] + s[k + 1..]
    requires forall i :: 0 <= i < |s| ==> q[i] == Entry(s[i], s[i].priority)
    ensures list.View() == Without(q, k)
  {
    forall i | 0 <= i < |list.nodes| ensures list.View()[i] == Without(q, k)[i] {
      assert list.nodes[i] == s[if i < k then i else i + 1];
    }
  }

  method UnlinkAt(list: List, cursor: Node, ghost k: nat)
    requires list.Valid() && k < |list.nodes| && list.nodes[k] == cursor
    modifies list, list.nodes
    ensures list.Valid() && list.nodes == old(list.nodes)[..k] + old(list.nodes)[k + 1..]
    ensures list.View() == Without(old(list.View()), k)
    ensures list.size == old(list.size) && list.removals == old(list.removals) + 1
    ensures !cursor.enlisted && cursor.next == null && cursor.prev == null
  {
    hide Past, Distinct, List.Linked, Without;
    ghost var s, q := list.nodes, list.View();
    RemoveDistinct(s, k);
    UnlinkNeighbours(list, cursor, k);
    cursor.next := null;
    cursor.prev := null;
    cursor.enlisted := false;
    list.nodes := s[..k] + s[k + 1..];
    list.removals := list.removals + 1;
    LinkedPast(list, s, k);
    WithoutView(list, q, s, k);
  }
}
