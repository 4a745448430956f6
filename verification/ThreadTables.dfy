/** Several kernel lists that share their nodes out among them: a node stands in one list at most. */
module ThreadTables {
  import opened Basics
  import opened PriorityList
  import opened KernelList
  import opened Waiters
  import opened ThreadLists

  /** The lists are well linked, over nodes of the pool, and no node stands in two of them. */
  ghost predicate Apart(lists: set<List>, pool: set<Node>)
    reads lists, pool
  {
    && (forall l :: l in lists ==> (forall n :: n in l.nodes ==> n in pool) && l.Valid())
    && (forall l, m, n :: l in lists && m in lists && n in l.nodes && n in m.nodes ==> l == m)
  }

  ghost predicate Free(lists: set<List>, node: Node)
    reads lists
  {
    forall l :: l in lists ==> node !in l.nodes
  }

  lemma ApartNodes(lists: set<List>, pool: set<Node>, list: List)
    requires Apart(lists, pool) && list in lists
    ensures forall n :: n in list.nodes ==> n in pool
  {
  }

  /** An empty list shares no node. */
  lemma ApartAdded(lists: set<List>, pool: set<Node>, list: List)
    requires Apart(lists, pool) && list.Valid() && list.nodes == []
    ensures Apart(lists + {list}, pool)
  {
  }

  /** Puts a node that stands nowhere into one of the lists. */
  method EnlistAmong(node: Node, list: List, priority: nat, ghost lists: set<List>, ghost pool: set<Node>)
    returns (panic: bool)
    requires Apart(lists, pool) && list in lists && node in pool && Free(lists, node) && priority < UINT16
    modifies list, list.nodes, node
    ensures !panic && Apart(lists, pool)
    ensures Threads(list) == Insert(old(Threads(list)), Entry(node.data, priority))
    ensures forall n :: n in list.nodes <==> n in old(list.nodes) || n == node
    ensures forall m :: m in lists && m != list ==> Threads(m) == old(Threads(m)) && m.nodes == old(m.nodes)
  {
    hide Insert;
    panic := EnlistThread(node, list, priority);
    forall m | m in lists && m != list ensures m.Valid() && Threads(m) == old(Threads(m)) {
      Untouched(m);
    }
  }

  /** Takes the tail of one of the lists; it stands nowhere then. */
  method DelistAmong(list: List, ghost lists: set<List>, ghost pool: set<Node>) returns (node: Node?, panic: bool)
    requires Apart(lists, pool) && list in lists
    modifies list, list.nodes
    ensures !panic && Apart(lists, pool)
    ensures Threads(list) == Rest(old(Threads(list))) && Pid(node) == TailOf(old(Threads(list)))
    ensures node != null ==> node in pool && Free(lists, node)
    ensures forall n :: n in list.nodes <==> n in old(list.nodes) && n != node
    ensures forall m :: m in lists && m != list ==> Threads(m) == old(Threads(m)) && m.nodes == old(m.nodes)
  {
    node, panic := DelistThread(list);
    forall m | m in lists && m != list ensures m.Valid() && Threads(m) == old(Threads(m)) {
      Untouched(m);
    }
  }

  lemma {:induction false} FoundAt(q: Line, t: Tid, k: nat)
    requires k < |q| && q[k].item == t && forall i :: 0 <= i < k ==> q[i].item != t
    ensures IndexOf(q, t) == k
  {
    if k > 0 {
      FoundAt(q[1..], t, k - 1);
    }
  }

  /** Finds the node of a thread in a list and takes it out, if it stands there. */
  method RemoveThread(t: Tid, list: List) returns (node: Node?, panic: bool)
    requires list.Valid()
    modifies list, list.nodes
    ensures !panic && list.Valid() && Threads(list) == Removed(old(Threads(list)), t)
    ensures node != null ==> node.data == t && node in old(list.nodes)
    ensures forall n :: n in list.nodes <==> n in old(list.nodes) && n != node
    ensures node == null <==> forall n :: n in old(list.nodes) ==> n.data != t
  {
    hide Removed, Without, Data, List.Linked;
    panic := false;
    var error;
    ghost var q, s := list.View(), list.nodes;
    node, error := FindNode(list, t);
    if node == null {
      NotThere(q, t);
      return;
    }
    ghost var k :| 0 <= k < |s| && node == s[k] && forall i :: 0 <= i < k ==> s[i].data != t;
    RemovedAt(q, t, k);
    error := RemoveNodeFrom(list, node);
    panic := error != ReturnCode.NoError;
  }

  lemma RemovedAt(q: Queue<Node>, t: Tid, k: nat)
    requires k < |q| && q[k].item.data == t && forall i :: 0 <= i < k ==> q[i].item.data != t
    ensures Removed(Data(q), t) == Data(Without(q, k))
  {
    FoundAt(Data(q), t, k);
    assert Data(Without(q, k)) == Without(Data(q), k);
  }

  lemma NotThere(q: Queue<Node>, t: Tid)
    requires forall i :: 0 <= i < |q| ==> q[i].item.data != t
    ensures Removed(Data(q), t) == Data(q)
  {
    NotFound(Data(q), t);
  }

  lemma NotFound(q: Line, t: Tid)
    requires forall i :: 0 <= i < |q| ==> q[i].item != t
    ensures IndexOf(q, t) == |q|
  {
  }

  method RemoveAmong(t: Tid, list: List, ghost lists: set<List>, ghost pool: set<Node>) returns (node: Node?, panic: bool)
    requires Apart(lists, pool) && list in lists
    modifies list, list.nodes
    ensures !panic && Apart(lists, pool) && Threads(list) == Removed(old(Threads(list)), t)
    ensures node != null ==> node.data == t && node in pool && Free(lists, node)
    ensures node == null <==> forall n :: n in old(list.nodes) ==> n.data != t
    ensures forall n :: n in list.nodes <==> n in old(list.nodes) && n != node
    ensures forall m :: m in lists && m != list ==> Threads(m) == old(Threads(m)) && m.nodes == old(m.nodes)
  {
    hide Removed;
    node, panic := RemoveThread(t, list);
    forall m | m in lists && m != list ensures m.Valid() && Threads(m) == old(Threads(m)) {
      Untouched(m);
    }
  }
}
