/** The scheduler's code over linked lists: the tables and waiting lists hold the nodes of the threads.
    Every method follows the step of SchedulerModel that it stands for, and keeps its invariant. */
module Scheduler {
  import opened Basics
  import opened PriorityList
  import opened Waiters
  import opened SchedulerModel
  import opened SchedulerInvariant
  import opened ThreadLists
  import opened ThreadTables
  import opened SchedulerPace
  import opened SchedulerPlaces
  import KernelList

  datatype Code = NoError | ForbiddenPriority | NoMemory | Unauthorized | NoSuchId | NotBlocked(blockType: BlockType)

  /** A global table with one thread. */
  method GlobalOf(t: Tid, priority: nat) returns (list: KernelList.List, node: KernelList.Node)
    requires priority < UINT16
    ensures fresh(list) && fresh(node) && list.Valid() && node.data == t && Threads(list) == [Entry(t, priority)]
    ensures list.nodes == [node]
  {
    list := new KernelList.List();
    node := new KernelList.Node(t);
    var panic := EnlistThread(node, list, priority);
    assert |list.nodes| == |Threads(list)| == 1 && list.nodes[0] in list.nodes;
  }

  ghost predicate Empty(list: KernelList.List)
    reads list, list.nodes
  {
    list.Valid() && list.nodes == []
  }

  method Start() returns (s: KernelScheduler)
    ensures fresh(s) && s.Owned() && s.View() == Boot() && Inv(s.View()) && fresh(s.lists) && fresh(s.pool)
  {
    hide Inv, Boot, Threads, KernelScheduler.Owned, KernelScheduler.View, KernelList.List.Valid;
    var ready := new KernelList.List();
    var sleeping := new KernelList.List();
    var zombies := new KernelList.List();
    var all, second := GlobalOf(0, LOWEST_PRIORITY);
    var node := new KernelList.Node(0);
    assert Empty(ready) && Empty(sleeping) && Empty(zombies);
    s := new KernelScheduler(ready, sleeping, zombies, all, node, second);
  }

  class KernelScheduler {
    var threads: map<Tid, Thread>
    var active: Tid
    var idle: Tid
    var init: Option<Tid>
    var lastPid: nat
    var threadCount: int
    var transit: set<Tid>

    const ready: KernelList.List
    const sleeping: KernelList.List
    const zombies: KernelList.List
    const all: KernelList.List

    /** The waiting lists of the synchronization objects, and the node of each thread. */
    var waiting: map<nat, KernelList.List>
    var nodes: map<Tid, KernelList.Node>

    /** All lists, and all nodes that may stand in them. */
    ghost var lists: set<KernelList.List>
    ghost var pool: set<KernelList.Node>

    ghost predicate FourTables()
      reads this`lists
    {
      && ready in lists && sleeping in lists && zombies in lists && all in lists
      && ready != sleeping && ready != zombies && ready != all
      && sleeping != zombies && sleeping != all && zombies != all
    }

    ghost predicate IsTable(l: KernelList.List) {
      l == ready || l == sleeping || l == zombies || l == all
    }

    ghost predicate WaitingLists()
      reads this`lists, this`waiting
    {
      && (forall o :: o in waiting ==> waiting[o] in lists && !IsTable(waiting[o]))
      && (forall o, p :: o in waiting && p in waiting && waiting[o] == waiting[p] ==> o == p)
      && (forall l :: l in lists ==> IsTable(l) || exists o :: o in waiting && waiting[o] == l)
    }

    /** Every thread has a node of its own; other nodes of its stand in the global table only. */
    ghost predicate NodesOfThreads()
      reads this`threads, this`nodes, this`lists, this`pool, lists
    {
      && nodes.Keys == threads.Keys
      && (forall t :: t in nodes ==> nodes[t].data == t && nodes[t] in pool)
      && (forall l, n :: l in lists && l != all && n in l.nodes ==> n.data in nodes && nodes[n.data] == n)
      && (all in lists ==> forall t :: t in nodes ==> nodes[t] !in all.nodes)
    }

    ghost predicate Owned()
      reads this`threads, this`nodes, this`lists, this`pool, this`waiting, lists, pool
    {
      FourTables() && WaitingLists() && Apart(lists, pool) && NodesOfThreads()
    }

    ghost function Lines(): map<nat, Line>
      requires Owned()
      reads this`threads, this`nodes, this`lists, this`pool, this`waiting, lists, pool
    {
      map o | o in waiting :: Threads(waiting[o])
    }

    ghost function View(): (k: Kernel)
      requires Owned()
      reads this, lists, pool
      ensures k.threads == threads && k.active == active && k.idle == idle && k.init == init
      ensures k.lastPid == lastPid && k.threadCount == threadCount && k.transit == transit
      ensures k.waiting.Keys == waiting.Keys
    {
      Kernel(threads, active, idle, init, Threads(ready), Threads(sleeping), Threads(zombies), Threads(all),
             lastPid, threadCount, Lines(), transit)
    }

    lemma OwnNode(t: Tid)
      requires Owned() && t in threads
      ensures t in nodes && nodes[t].data == t && nodes[t] in pool
    {
    }

    lemma FreeNode(t: Tid)
      requires Owned() && t in threads && NotListed(View(), t)
      ensures Free(lists, nodes[t])
    {
      forall l | l in lists ensures nodes[t] !in l.nodes {
        if nodes[t] in l.nodes {
          ListedData(l, nodes[t]);
          if !IsTable(l) {
            var o :| o in waiting && waiting[o] == l;
            assert WaitsOn(View(), t, o);
          }
        }
      }
    }

    /** init_scheduler, over tables that were just made: idle runs, and stands in the global table only. */
    constructor (ready: KernelList.List, sleeping: KernelList.List, zombies: KernelList.List, all: KernelList.List,
                 node: KernelList.Node, second: KernelList.Node)
      requires Empty(ready) && Empty(sleeping) && Empty(zombies) && all.Valid() && all.nodes == [second]
      requires Threads(all) == [Entry(0, LOWEST_PRIORITY)] && node.data == 0 && node != second
      requires ready != sleeping && ready != zombies && ready != all && sleeping != zombies && sleeping != all && zombies != all
      ensures Owned() && View() == Boot() && Inv(View())
      ensures lists == {ready, sleeping, zombies, all} && pool == {node, second}
    {
      this.ready, this.sleeping, this.zombies, this.all := ready, sleeping, zombies, all;
      threads := map[0 := Thread(Running, SemBlock, LOWEST_PRIORITY, LOWEST_PRIORITY, 0, 0, None, 0, [], None)];
      active, idle, init, lastPid, threadCount, transit := 0, 0, None, 0, 1, {};
      waiting, nodes := map[], map[0 := node];
      lists, pool := {ready, sleeping, zombies, all}, {node, second};
      new;
      hide Inv, Boot, Owned, View, Threads;
      Booted(second);
    }

    ghost predicate AtBoot(second: KernelList.Node)
      reads this, lists, pool
    {
      && FourTables() && lists == {ready, sleeping, zombies, all} && waiting == map[] && transit == {}
      && 0 in nodes && nodes == map[0 := nodes[0]] && nodes[0].data == 0
      && pool == {nodes[0], second} && nodes[0] != second
      && ready.nodes == [] && sleeping.nodes == [] && zombies.nodes == [] && all.nodes == [second]
      && ready.Valid() && sleeping.Valid() && zombies.Valid() && all.Valid()
      && Threads(all) == [Entry(0, LOWEST_PRIORITY)]
      && threads == map[0 := Thread(Running, SemBlock, LOWEST_PRIORITY, LOWEST_PRIORITY, 0, 0, None, 0, [], None)]
      && active == 0 && idle == 0 && init == None && lastPid == 0 && threadCount == 1
    }

    lemma Booted(second: KernelList.Node)
      requires AtBoot(second)
      ensures Owned() && View() == Boot() && Inv(View())
    {
      assert Owned();
      assert Lines() == map[];
      assert Threads(ready) == [] && Threads(sleeping) == [] && Threads(zombies) == [];
      hide Owned;
      BootHolds();
    }

    // ----- one node, one list ---------------------------------------------------------------------

    /** The node of t alone went to other lists: the nodes are where they belong as before. */
    twostate lemma StillOwned(t: Tid)
      requires old(Owned()) && unchanged(this) && Apart(lists, pool) && t in nodes
      requires forall l, n :: l in lists && l != all && n in l.nodes ==> n in old(l.nodes) || n == nodes[t]
      requires all.nodes == old(all.nodes)
      ensures Owned()
    {
    }

    twostate lemma LinesStay()
      requires old(Owned()) && Owned() && waiting == old(waiting)
      requires forall o :: o in waiting ==> Threads(waiting[o]) == old(Threads(waiting[o]))
      ensures Lines() == old(Lines())
    {
    }

    lemma WaitingApart(l: KernelList.List)
      requires Owned() && IsTable(l)
      ensures l in lists && forall o :: o in waiting ==> waiting[o] in lists && waiting[o] != l
    {
    }

    twostate lemma OneLine(o: nat)
      requires old(Owned()) && Owned() && waiting == old(waiting) && o in waiting
      requires forall p :: p in waiting && p != o ==> Threads(waiting[p]) == old(Threads(waiting[p]))
      ensures Lines() == old(Lines())[o := Threads(waiting[o])]
    {
      hide Owned, Threads;
    }

    lemma WaitingList(o: nat)
      requires Owned() && o in waiting
      ensures waiting[o] in lists && !IsTable(waiting[o])
      ensures ready in lists && sleeping in lists && zombies in lists && all in lists
      ensures forall p :: p in waiting && p != o ==> waiting[p] in lists && waiting[p] != waiting[o]
    {
    }

    /** Enlisting in the active, sleeping or zombie table. */
    method EnlistTable(t: Tid, l: KernelList.List, priority: nat) returns (panic: bool)
      requires Owned() && t in threads && NotListed(View(), t) && priority < UINT16
      requires l == ready || l == sleeping || l == zombies
      modifies lists, pool
      ensures Owned() && !panic && Lines() == old(Lines())
      ensures Threads(l) == Insert(old(Threads(l)), Entry(t, priority))
      ensures forall m :: IsTable(m) && m != l ==> Threads(m) == old(Threads(m))
    {
      hide Insert, NotListed, WaitingLists, Apart, NodesOfThreads;
      FreeNode(t);
      OwnNode(t);
      ApartNodes(lists, pool, l);
      panic := EnlistAmong(nodes[t], l, priority, lists, pool);
      StillOwned(t);
      WaitingApart(l);
      LinesStay();
    }

    method PutReady(t: Tid, priority: nat) returns (panic: bool)
      requires Owned() && t in threads && NotListed(View(), t) && priority < UINT16
      modifies lists, pool
      ensures Owned() && !panic
      ensures View() == old(View()).(ready := Insert(old(View()).ready, Entry(t, priority)))
    {
      hide Insert, NotListed;
      panic := EnlistTable(t, ready, priority);
    }

    method PutSleeping(t: Tid, priority: nat) returns (panic: bool)
      requires Owned() && t in threads && NotListed(View(), t) && priority < UINT16
      modifies lists, pool
      ensures Owned() && !panic
      ensures View() == old(View()).(sleeping := Insert(old(View()).sleeping, Entry(t, priority)))
    {
      hide Insert, NotListed;
      panic := EnlistTable(t, sleeping, priority);
    }

    method PutZombie(t: Tid) returns (panic: bool)
      requires Owned() && t in threads && NotListed(View(), t)
      modifies lists, pool
      ensures Owned() && !panic
      ensures View() == old(View()).(zombies := Insert(old(View()).zombies, Entry(t, 0)))
    {
      hide Insert, NotListed;
      panic := EnlistTable(t, zombies, 0);
    }

    /** Enlisting in the waiting list of object o. */
    method PutWaiting(t: Tid, o: nat) returns (panic: bool)
      requires Owned() && t in threads && NotListed(View(), t) && o in waiting
      modifies lists, pool
      ensures Owned() && !panic
      ensures View() == old(View()).(waiting := old(View()).waiting[o := Join(old(View()).waiting[o], t)])
    {
      hide Insert, NotListed, WaitingLists, Join, Apart, NodesOfThreads;
      FreeNode(t);
      WaitingList(o);
      OwnNode(t);
      JoinInserts(Threads(waiting[o]), t);
      ApartNodes(lists, pool, waiting[o]);
      panic := EnlistAmong(nodes[t], waiting[o], 0, lists, pool);
      StillOwned(t);
      OneLine(o);
    }

    lemma JoinInserts(q: Line, t: Tid)
      ensures Join(q, t) == Insert(q, Entry(t, 0))
    {
    }

    /** Taking nodes away: what stays is where it belongs. */
    twostate lemma StillOwnedLess()
      requires old(Owned()) && unchanged(this) && Apart(lists, pool)
      requires forall l, n :: l in lists && n in l.nodes ==> n in old(l.nodes)
      ensures Owned()
    {
    }

    method DelistTable(l: KernelList.List) returns (node: KernelList.Node?, panic: bool)
      requires Owned() && (l == ready || l == sleeping)
      modifies lists, pool
      ensures Owned() && !panic && Lines() == old(Lines())
      ensures Threads(l) == Rest(old(Threads(l))) && Pid(node) == TailOf(old(Threads(l)))
      ensures forall m :: IsTable(m) && m != l ==> Threads(m) == old(Threads(m))
    {
      hide WaitingLists;
      node, panic := DelistAmong(l, lists, pool);
      StillOwnedLess();
      WaitingApart(l);
      LinesStay();
    }

    method TakeReady() returns (node: KernelList.Node?, panic: bool)
      requires Owned()
      modifies lists, pool
      ensures Owned() && !panic && Pid(node) == TailOf(old(View()).ready)
      ensures View() == old(View()).(ready := Rest(old(View()).ready))
    {
      node, panic := DelistTable(ready);
    }

    method TakeSleeping() returns (node: KernelList.Node?, panic: bool)
      requires Owned()
      modifies lists, pool
      ensures Owned() && !panic && Pid(node) == TailOf(old(View()).sleeping)
      ensures View() == old(View()).(sleeping := Rest(old(View()).sleeping))
    {
      node, panic := DelistTable(sleeping);
    }

    method TakeWaiting(o: nat) returns (node: KernelList.Node?, panic: bool)
      requires Owned() && o in waiting
      modifies lists, pool
      ensures Owned() && !panic && Pid(node) == TailOf(old(View()).waiting[o])
      ensures View() == old(View()).(waiting := old(View()).waiting[o := Rest(old(View()).waiting[o])])
    {
      WaitingList(o);
      hide WaitingLists;
      node, panic := DelistAmong(waiting[o], lists, pool);
      StillOwnedLess();
      OneLine(o);
    }

    method SetThread(t: Tid, th: Thread)
      requires Owned() && t in threads
      modifies this`threads
      ensures Owned() && View() == Put(old(View()), t, th)
    {
      hide Apart, WaitingLists, Threads;
      threads := threads[t := th];
      LinesStay();
    }

    /** A thread that comes into being, with a node that stands nowhere. */
    method Admit(t: Tid, th: Thread, node: KernelList.Node)
      requires Owned() && t !in threads && node !in pool && node.data == t
      modifies this`threads, this`nodes, this`pool
      ensures Owned() && View() == Put(old(View()), t, th)
      ensures lists == old(lists) && pool == old(pool) + {node} && threads == old(threads)[t := th]
    {
      hide WaitingLists, Apart, NodesOfThreads, Threads;
      Pooled(node);
      Register(t, th, node);
    }

    method Register(t: Tid, th: Thread, node: KernelList.Node)
      requires Owned() && t !in threads && node in pool && node.data == t && Free(lists, node)
      modifies this`threads, this`nodes
      ensures Owned() && View() == Put(old(View()), t, th) && threads == old(threads)[t := th]
    {
      hide WaitingLists, Apart, Threads;
      nodes := nodes[t := node];
      threads := threads[t := th];
      LinesStay();
    }

    /** The second node of a thread, for the global table. */
    method PutGlobal(node: KernelList.Node, priority: nat) returns (panic: bool)
      requires Owned() && priority < UINT16 && node !in pool
      modifies this`pool, lists, pool, node
      ensures Owned() && !panic
      ensures View() == old(View()).(all := Insert(old(View()).all, Entry(node.data, priority)))
      ensures lists == old(lists) && pool == old(pool) + {node}
    {
      hide Insert;
      Pooled(node);
      panic := EnlistInAll(node, priority);
    }

    method Pooled(node: KernelList.Node)
      requires Owned() && node !in pool
      modifies this`pool
      ensures Owned() && View() == old(View()) && pool == old(pool) + {node}
      ensures Free(lists, node) && forall t :: t in nodes ==> nodes[t] != node
    {
      hide WaitingLists;
      pool := pool + {node};
      assert Apart(lists, pool);
      assert NodesOfThreads();
      LinesStay();
    }

    method EnlistInAll(node: KernelList.Node, priority: nat) returns (panic: bool)
      requires Owned() && priority < UINT16 && node in pool && Free(lists, node)
      requires forall t :: t in nodes ==> nodes[t] != node
      modifies lists, pool
      ensures Owned() && !panic
      ensures View() == old(View()).(all := Insert(old(View()).all, Entry(node.data, priority)))
    {
      hide Insert, WaitingLists;
      WaitingApart(all);
      panic := EnlistAmong(node, all, priority, lists, pool);
      assert NodesOfThreads();
      LinesStay();
    }

    method RemoveFrom(t: Tid, l: KernelList.List) returns (panic: bool)
      requires Owned() && (l == zombies || l == all)
      modifies lists, pool
      ensures Owned() && !panic && Lines() == old(Lines())
      ensures Threads(l) == Removed(old(Threads(l)), t)
      ensures forall m :: IsTable(m) && m != l ==> Threads(m) == old(Threads(m))
    {
      hide WaitingLists, Removed;
      var node;
      node, panic := RemoveAmong(t, l, lists, pool);
      StillOwnedLess();
      WaitingApart(l);
      LinesStay();
    }

    /** A thread ceases to exist that stands in no list. */
    method Forget(t: Tid)
      requires Owned() && t in threads && NotListed(View(), t)
      modifies this`threads, this`nodes
      ensures Owned() && View() == old(View()).(threads := old(View()).threads - {t})
    {
      FreeNode(t);
      hide NotListed;
      Unregister(t);
    }

    method Unregister(t: Tid)
      requires Owned() && t in threads && Free(lists, nodes[t])
      modifies this`threads, this`nodes
      ensures Owned() && View() == old(View()).(threads := old(View()).threads - {t})
    {
      hide WaitingLists, Apart, Threads;
      nodes := nodes - {t};
      threads := threads - {t};
      LinesStay();
    }

    /** Edits the priority of the node at position i of the active table where it stands. */
    method SetPriority(cursor: KernelList.Node, priority: nat, ghost i: nat)
      requires Owned() && i < |ready.nodes| && cursor == ready.nodes[i]
      modifies cursor`priority
      ensures Owned() && ready.nodes == old(ready.nodes)
      ensures View() == old(View()).(ready := old(View()).ready[i := Entry(cursor.data, priority)])
    {
      hide WaitingLists;
      cursor.priority := priority;
      forall l | l in lists ensures l.Valid() && (l != ready ==> Threads(l) == old(Threads(l))) {
        Revalued(l);
      }
      RevaluedAt(i);
      WaitingApart(ready);
      LinesStay();
    }

    twostate lemma RevaluedAt(i: nat)
      requires ready.nodes == old(ready.nodes) && i < |ready.nodes| && old(ready.Valid())
      requires forall n :: n in ready.nodes && n != ready.nodes[i] ==> n.priority == old(n.priority)
      ensures Threads(ready) == old(Threads(ready))[i := Entry(ready.nodes[i].data, ready.nodes[i].priority)]
    {
      assert forall j :: 0 <= j < |ready.nodes| ==> ready.nodes[j] in ready.nodes;
    }

    method SetActive(t: Tid)
      requires Owned()
      modifies this`active
      ensures Owned() && View() == old(View()).(active := t)
    {
      hide Owned, Lines, Threads;
      active := t;
    }

    method SetCounts(pid: nat, count: int, first: Option<Tid>)
      requires Owned()
      modifies this`lastPid, this`threadCount, this`init
      ensures Owned() && View() == old(View()).(lastPid := pid, threadCount := count, init := first)
    {
      hide Owned, Lines, Threads;
      lastPid, threadCount, init := pid, count, first;
    }

    method SetThreadCount(count: int)
      requires Owned()
      modifies this`threadCount
      ensures Owned() && View() == old(View()).(threadCount := count)
    {
      hide Owned, Lines, Threads;
      threadCount := count;
    }

    method SetTransit(held: set<Tid>)
      requires Owned()
      modifies this`transit
      ensures Owned() && View() == old(View()).(transit := held)
    {
      hide Owned, Lines, Threads;
      transit := held;
    }

    /** The thread of a node goes to the active table, as ready. */
    method EnlistReady(t: Tid) returns (panic: bool)
      requires Owned() && t in threads && NotListed(View(), t) && threads[t].priority < UINT16
      modifies this`threads, lists, pool
      ensures Owned() && !panic && View() == Enlist(old(View()), t)
    {
      hide Owned, View, Insert, NotListed;
      panic := PutReady(t, threads[t].priority);
      SetThread(t, threads[t].(state := Ready));
    }

    // ----- select_thread ------------------------------------------------------------------------

    /** The thread that ran so far goes to the active or the sleeping table, or nowhere. */
    method PutOldAway() returns (panic: bool)
      requires Owned() && Good(View())
      modifies this`threads, lists, pool
      ensures Owned() && !panic && View() == PutAway(old(View())) && Between(View())
    {
      hide Owned, View, Insert, NotListed, Good, Enlist, Between;
      OldAway(View());
      panic := false;
      var state := threads[active].state;
      if state == Running {
        panic := EnlistReady(active);
      } else if state == Sleeping {
        panic := PutSleeping(active, threads[active].wakeup % UINT16);
      }
    }

    /** One turn of the wake loop. */
    method WakeOne(now: nat) returns (going: bool, panic: bool)
      requires Owned() && Between(View())
      modifies this`threads, lists, pool
      ensures Owned() && !panic
      ensures going ==> Between(View()) && |View().sleeping| < |old(View()).sleeping|
      ensures going ==> Wake(View(), now) == Wake(old(View()), now)
      ensures !going ==> View() == Wake(old(View()), now)
    {
      hide Owned, View, Insert, NotListed, Between, Enlist, Wake;
      WakeTurn(View(), now);
      var node;
      node, panic := TakeSleeping();
      if node == null {
        return false, panic;
      }
      var t := node.data;
      going := threads[t].wakeup < now;
      if going {
        panic := EnlistReady(t);
      } else {
        panic := PutSleeping(t, threads[t].wakeup % UINT16);
      }
    }

    method WakeSleepers(now: nat) returns (panic: bool)
      requires Owned() && Between(View())
      modifies this`threads, lists, pool
      ensures Owned() && !panic && View() == Wake(old(View()), now)
    {
      hide *;
      var going := true;
      panic := false;
      while going
        invariant Owned() && !panic && lists == old(lists) && pool == old(pool)
        invariant going ==> Between(View()) && Wake(View(), now) == old(Wake(View(), now))
        invariant !going ==> View() == old(Wake(View(), now))
        decreases if going then 1 + |View().sleeping| else 0
      {
        going, panic := WakeOne(now);
      }
    }

    /** Its panic for want of a ready thread is unreachable, and so are those of the lists. */
    method SelectThread(now: nat) returns (panic: bool)
      requires Owned() && Good(View())
      modifies this`threads, this`active, lists, pool
      ensures Owned() && !panic && Some(View()) == Select(old(View()), now)
    {
      hide Owned, View, Good, PutAway, Wake, Elect;
      SelectReady(View(), now);
      panic := PutOldAway();
      var again := WakeSleepers(now);
      var node, late := TakeReady();
      if node == null {
        return true;
      }
      SetActive(node.data);
      SetThread(active, threads[active].(state := Running));
      panic := panic || again || late;
    }

    // ----- schedule_int -------------------------------------------------------------------------

    /** One turn of the aging loop, at the node at position i. */
    method AgeNode(cursor: KernelList.Node, ghost i: nat)
      requires Owned() && i < |ready.nodes| && cursor == ready.nodes[i]
      modifies this`threads, cursor`priority
      ensures Owned() && ready.nodes == old(ready.nodes) && |View().ready| == |ready.nodes|
      ensures threads.Keys == old(threads.Keys)
      ensures |View().ready| == |old(View()).ready| && AgeFrom(View(), i + 1) == AgeFrom(old(View()), i)
    {
      hide Owned, View, AgeFrom;
      NodeAt(i);
      AgeTurn(View(), i);
      var t := cursor.data;
      if t != idle && Some(t) != init {
        var th := threads[t];
        th := th.(lastSched := th.lastSched + 1);
        if th.lastSched >= AGING_TICKS {
          if th.priority > HIGHEST_PRIORITY {
            th := th.(priority := th.priority - 1);
            SetPriority(cursor, (cursor.priority + UINT16 - 1) % UINT16, i);
          }
          th := th.(lastSched := 0);
        }
        SetThread(t, th);
      }
    }

    lemma NodeAt(i: nat)
      requires Owned() && i < |ready.nodes|
      ensures ready.nodes[i].data in threads && ready.nodes[i] in pool && |View().ready| == |ready.nodes|
      ensures View().ready[i] == Entry(ready.nodes[i].data, ready.nodes[i].priority)
      ensures ready.nodes[i].next == if i + 1 < |ready.nodes| then ready.nodes[i + 1] else null
    {
      assert ready.nodes[i] in ready.nodes && ready.Linked(i);
    }

    lemma HeadOfReady()
      requires Owned()
      ensures |View().ready| == |ready.nodes| && ready.head == if ready.nodes == [] then null else ready.nodes[0]
    {
    }

    /** The aging loop walks along the links of the active table. */
    method AgeTable()
      requires Owned()
      modifies this`threads, pool
      ensures Owned() && View() == AgeFrom(old(View()), 0) && threads.Keys == old(threads.Keys)
    {
      hide *;
      HeadOfReady();
      ghost var i := 0;
      var cursor := ready.head;
      while cursor != null
        invariant Owned() && ready.nodes == old(ready.nodes) && threads.Keys == old(threads.Keys)
        invariant i <= |ready.nodes| == |View().ready|
        invariant cursor == if i < |ready.nodes| then ready.nodes[i] else null
        invariant AgeFrom(View(), i) == AgeFrom(old(View()), 0)
        decreases |ready.nodes| - i
      {
        NodeAt(i);
        AgeNode(cursor, i);
        cursor := cursor.next;
        i := i + 1;
      }
      AgeEnds(View());
    }

    /** What schedule_int does before it selects. */
    method AgeThreads(quantum: bool)
      requires Owned() && active in threads
      modifies this`threads, pool
      ensures Owned() && View() == Age(old(View()), quantum)
    {
      hide Owned, View, AgeFrom, Age;
      AgeUnfolds(View(), quantum);
      if active != idle && Some(active) != init {
        if quantum {
          SetThread(active, threads[active].(priority := threads[active].initPrio));
        }
        AgeTable();
        assert active in old(threads).Keys;
        SetThread(active, threads[active].(lastSched := 0));
      }
    }

    // ----- the interrupt and the calls -------------------------------------------------------------

    ghost predicate Valid()
      reads this, lists, pool
    {
      Owned() && Good(View())
    }

    /** The scheduling interrupt: neither the lists nor an empty active table make it panic, and the
        thread that it elects runs. */
    method ScheduleInt(quantum: bool, now: nat) returns (panic: bool)
      requires Valid()
      modifies this`threads, this`active, lists, pool
      ensures Valid() && !panic && Some(View()) == Schedule(old(View()), quantum, now)
      ensures active in threads && threads[active].state == Running
    {
      hide Owned, View, Good, Age, Select;
      Scheduled(View(), quantum, now);
      AgeThreads(quantum);
      panic := SelectThread(now);
    }

    /** sleep, up to its call of schedule. */
    method SleepThread(now: nat, ms: nat) returns (code: Code)
      requires Valid() && Executing(View())
      modifies this`threads
      ensures Valid() && View() == Sleep(old(View()), now, ms)
      ensures code == if active == idle then Unauthorized else NoError
    {
      hide Owned, View, Good, Executing;
      SleepGoes(View(), now, ms);
      if active == idle {
        return Unauthorized;
      }
      SetThread(active, threads[active].(wakeup := (now + ms) % 0x1_0000_0000, state := Sleeping));
      code := NoError;
    }

    /** lock_thread, and the enlisting in a waiting list that its callers do in the same section: the
        caller goes to the end of the line. Null is for idle, on which the callers panic. */
    method LockThread(o: nat, blockType: BlockType) returns (node: KernelList.Node?, panic: bool)
      requires Valid() && Executing(View()) && o in waiting
      modifies this`threads, lists, pool
      ensures Valid() && !panic && View() == Lock(old(View()), o, blockType)
      ensures node == null <==> Fatal(old(View()), LockStep(o, blockType))
      ensures node != null ==> active in nodes && node == nodes[active]
      ensures Order(View().waiting[o]) == old(Order(View().waiting[o])) + if node == null then [] else [active]
    {
      hide Owned, View, Good, Executing, NotListed, Join, Order, Lock;
      panic := false;
      if active == idle {
        LockRefused(View(), o, blockType);
        return null, panic;
      }
      LockGoes(View(), o, blockType);
      LineServed(View(), o, active);
      OwnNode(active);
      node := nodes[active];
      SetThread(active, threads[active].(state := Blocked, blockType := blockType));
      panic := PutWaiting(active, o);
    }

    /** A poster takes the first thread of the line of an object. */
    method TakeWaiter(o: nat) returns (node: KernelList.Node?, panic: bool)
      requires Valid() && o in waiting
      modifies this`transit, lists, pool
      ensures Valid() && !panic && View() == Delist(old(View()), o)
      ensures Pid(node) == TailOf(old(View()).waiting[o])
      ensures old(Order(View().waiting[o])) == First(node) + Order(View().waiting[o])
    {
      hide Owned, View, Good, Rest, Order, TailOf;
      DelistGoes(View(), o);
      LineServed(View(), o, 0);
      node, panic := TakeWaiting(o);
      SetTransit(transit + Added(Pid(node)));
    }

    /** unlock_thread, up to its call of schedule: an error is exactly what its callers panic on. */
    method UnlockThread(node: KernelList.Node, blockType: BlockType) returns (code: Code, panic: bool)
      requires Valid() && node.data in transit
      modifies this`threads, this`transit, lists, pool
      ensures Valid() && !panic && View() == Unlock(old(View()), node.data, blockType)
      ensures code != NoError <==> Fatal(old(View()), UnlockStep(node.data, blockType))
      ensures code != NoError ==> code == if node.data == idle then NoSuchId else NotBlocked(blockType)
      ensures code == NoError ==> node.data in Members(View().ready) && node.data !in transit
    {
      hide Owned, View, Good, NotListed, Enlist, Members, Fatal;
      var t := node.data;
      EnlistsReadily(View(), t);
      UnlockGoes(View(), t, blockType);
      panic := false;
      if t == idle {
        return NoSuchId, panic;
      }
      if threads[t].state != Blocked || threads[t].blockType != blockType {
        return NotBlocked(blockType), panic;
      }
      panic := EnlistReady(t);
      SetTransit(transit - {t});
      code := NoError;
    }

    /** clean_joined_thread: the child leaves the zombie table, the global table and the kernel. */
    method CleanJoinedThread(t: Tid) returns (panic: bool)
      requires Owned() && Cleanable(View(), t)
      modifies this`threads, this`nodes, this`threadCount, lists, pool
      ensures Owned() && !panic && View() == Clean(old(View()), t) && t !in threads
    {
      hide Owned, View, NotListed, Removed;
      ghost var k := View();
      var a := threads[active];
      a := a.(children := Removed(a.children, t));
      PutNotListed(k.(zombies := Removed(k.zombies, t)), t, active, a);
      SetThread(active, a);
      panic := RemoveZombie(t);
      var again := RemoveGlobal(t);
      GlobalNotListed(View(), Put(k, active, a).(zombies := Removed(k.zombies, t)), t);
      Forget(t);
      SetThreadCount(threadCount - 1);
      panic := panic || again;
    }

    method RemoveZombie(t: Tid) returns (panic: bool)
      requires Owned()
      modifies lists, pool
      ensures Owned() && !panic
      ensures View() == old(View()).(zombies := Removed(old(View()).zombies, t))
    {
      panic := RemoveFrom(t, zombies);
    }

    method RemoveGlobal(t: Tid) returns (panic: bool)
      requires Owned()
      modifies lists, pool
      ensures Owned() && !panic
      ensures View() == old(View()).(all := Removed(old(View()).all, t))
    {
      panic := RemoveFrom(t, all);
    }

    /** wait_thread, up to its call of schedule; done tells that it returns without one. */
    method WaitThread(t: Tid) returns (done: bool, panic: bool)
      requires Valid() && Enabled(View(), WaitStep(t))
      modifies this`threads, this`nodes, this`threadCount, lists, pool
      ensures Valid() && !panic && View() == Wait(old(View()), t)
      ensures done <==> t in old(threads) && old(threads)[t].state == Zombie
      ensures done <==> t !in threads
    {
      hide Owned, View, Good, Cleanable, Enabled;
      WaitGoes(View(), t);
      panic := false;
      done := threads[t].state == Zombie;
      if done {
        panic := CleanJoinedThread(t);
      } else {
        SetThread(t, threads[t].(joiner := Some(active)));
        SetThread(active, threads[active].(state := Joining, awaiting := Some(t)));
      }
    }

    /** The rest of wait_thread: the thread that was waited for has exited, and is gone now. */
    method ResumeWait() returns (panic: bool)
      requires Valid() && Enabled(View(), FinishWaitStep)
      modifies this`threads, this`nodes, this`threadCount, lists, pool
      ensures Valid() && !panic && Some(View()) == Next(old(View()), FinishWaitStep)
      ensures active in old(threads) && old(threads)[active].awaiting.Some?
      ensures var t := old(threads)[active].awaiting.value;
        t in old(threads) && old(threads)[t].state == Zombie && t !in threads
    {
      hide Owned, View, Good, Cleanable, Enabled, Clean;
      FinishGoes(View());
      var t := threads[active].awaiting.value;
      SetThread(active, threads[active].(awaiting := None));
      panic := CleanJoinedThread(t);
    }

    /** init takes its oldest child off its list before it waits for it. */
    method TakeChildThread() returns (child: Option<Tid>)
      requires Valid() && Enabled(View(), TakeChildStep)
      modifies this`threads
      ensures Valid() && View() == TakeChild(old(View()))
      ensures active in old(threads) && child == TailOf(old(threads)[active].children)
    {
      hide Owned, View, Good, Enabled, TailOf, Rest;
      TakeChildGoes(View());
      var a := threads[active];
      child := TailOf(a.children);
      SetThread(active, a.(children := Rest(a.children)));
    }

    /** thread_exit, up to its call of schedule. */
    method ThreadExit() returns (panic: bool)
      requires Valid() && Enabled(View(), ExitStep)
      modifies this`threads, lists, pool
      ensures Valid() && !panic && View() == Exit(old(View()))
    {
      hide Owned, View, Good, Enabled, NotListed, Insert;
      ExitGoes(View());
      panic := false;
      if Some(active) == init {
        SetThread(active, threads[active].(state := Zombie));
        return;
      }
      var joiner := threads[active].joiner;
      if joiner.Some? && threads[joiner.value].state == Joining {
        panic := EnlistReady(joiner.value);
      }
      PutNotListed(View(), active, active, threads[active].(state := Zombie));
      SetThread(active, threads[active].(state := Zombie));
      var again := PutZombie(active);
      panic := panic || again;
    }

    /** create_thread: the new thread's nodes go to the active and to the global table. */
    method CreateThread(priority: nat, memory: Granted) returns (code: Code, thread: Option<Tid>, panic: bool)
      requires Valid() && Enabled(View(), CreateStep(priority, memory))
      requires !Fatal(View(), CreateStep(priority, memory))
      modifies this`threads, this`nodes, this`pool, this`lastPid, this`threadCount, this`init, lists, pool
      ensures Valid() && !panic && View() == Create(old(View()), priority, memory)
      ensures lists == old(lists) && fresh(pool - old(pool))
      ensures code == if priority > LOWEST_PRIORITY then ForbiddenPriority
                      else if memory != AllGranted then NoMemory else NoError
      ensures thread == if code == NoError then Some(old(lastPid) + 1) else None
    {
      hide Owned, View, Good, Enabled, Insert, NotListed;
      panic := false;
      CreateGoes(View(), priority, memory);
      if priority > LOWEST_PRIORITY {
        return ForbiddenPriority, None, panic;
      }
      if memory == NoneGranted {
        return NoMemory, None, panic;
      }
      if memory == SomeGranted {
        SetCounts(lastPid + 1, threadCount, init);
        return NoMemory, None, panic;
      }
      var t: Tid := lastPid + 1;
      panic := AddThread(t, priority);
      SetCounts(t, threadCount + 1, if active == idle && init == None then Some(t) else init);
      return NoError, Some(t), panic;
    }

    /** The part of create_thread that no longer fails. */
    method AddThread(t: Tid, priority: nat) returns (panic: bool)
      requires Owned() && active in threads && t !in threads && NotListed(View(), t) && priority < UINT16
      modifies this`threads, this`nodes, this`pool, lists, pool
      ensures Owned() && !panic && lists == old(lists) && fresh(pool - old(pool))
      ensures var parent := old(threads)[active].children;
        View() == Put(Put(old(View()), active, old(threads)[active].(children := Insert(parent, Entry(t, 0)))), t,
                      Thread(Ready, SemBlock, priority, priority, 0, 0, None, active, [], None)).(
                    ready := Insert(old(View()).ready, Entry(t, priority)),
                    all := Insert(old(View()).all, Entry(t, priority)))
    {
      hide Owned, View, Insert, NotListed;
      var parent := threads[active];
      panic := AddReady(t, Thread(Ready, SemBlock, priority, priority, 0, 0, None, active, [], None));
      var again := AddGlobal(t, priority);
      SetThread(active, parent.(children := Insert(parent.children, Entry(t, 0))));
      panic := panic || again;
    }

    method AddReady(t: Tid, th: Thread) returns (panic: bool)
      requires Owned() && t !in threads && NotListed(View(), t) && th.priority < UINT16
      modifies this`threads, this`nodes, this`pool, lists, pool
      ensures Owned() && !panic && lists == old(lists) && fresh(pool - old(pool)) && threads == old(threads)[t := th]
      ensures View() == Put(old(View()), t, th).(ready := Insert(old(View()).ready, Entry(t, th.priority)))
    {
      hide Owned, View, Insert, NotListed;
      var node := new KernelList.Node(t);
      PutNotListed(View(), t, t, th);
      Admit(t, th, node);
      panic := PutReady(t, th.priority);
    }

    method AddGlobal(t: Tid, priority: nat) returns (panic: bool)
      requires Owned() && priority < UINT16
      modifies this`pool, lists, pool
      ensures Owned() && !panic && lists == old(lists) && fresh(pool - old(pool))
      ensures View() == old(View()).(all := Insert(old(View()).all, Entry(t, priority)))
    {
      hide Owned, View, Insert;
      var node := new KernelList.Node(t);
      panic := PutGlobal(node, priority);
    }

    /** The waiting list of a synchronization object that is created. */
    method AddObject(o: nat, line: KernelList.List)
      requires Valid() && o !in waiting && Empty(line) && line !in lists
      modifies this`waiting, this`lists
      ensures Valid() && View() == old(View()).(waiting := old(View()).waiting[o := []])
      ensures lists == old(lists) + {line} && pool == old(pool)
    {
      hide Owned, View, Good, Empty;
      NewObjectGoes(View(), o);
      AddLine(o, line);
    }

    method AddLine(o: nat, line: KernelList.List)
      requires Owned() && o !in waiting && Empty(line) && line !in lists
      modifies this`waiting, this`lists
      ensures Owned() && View() == old(View()).(waiting := old(View()).waiting[o := []])
      ensures lists == old(lists) + {line} && pool == old(pool)
    {
      hide Owned, Threads, Lines;
      EmptyLine(line);
      waiting := waiting[o := line];
      lists := lists + {line};
      OwnedMore(o);
      MoreLines(o);
    }

    twostate lemma MoreLines(o: nat)
      requires old(Owned()) && Owned() && o in waiting && waiting == old(waiting)[o := waiting[o]]
      requires forall p :: p in old(waiting) && p != o ==> Threads(waiting[p]) == old(Threads(waiting[p]))
      ensures Lines() == old(Lines())[o := Threads(waiting[o])]
    {
    }

    twostate lemma OwnedMore(o: nat)
      requires old(Owned()) && o !in old(waiting) && o in waiting && waiting[o].Valid() && waiting[o].nodes == []
      requires waiting == old(waiting)[o := waiting[o]] && lists == old(lists) + {waiting[o]} && waiting[o] !in old(lists)
      requires threads == old(threads) && nodes == old(nodes) && pool == old(pool)
      requires forall l :: l in old(lists) ==> unchanged(l)
      requires forall n :: n in pool ==> unchanged(n)
      ensures Owned()
    {
      LinesAdded(o);
      ApartAdded(old(lists), pool, waiting[o]);
    }

    twostate lemma LinesAdded(o: nat)
      requires old(FourTables()) && FourTables() && old(WaitingLists()) && o !in old(waiting) && o in waiting
      requires waiting == old(waiting)[o := waiting[o]] && lists == old(lists) + {waiting[o]} && waiting[o] !in old(lists)
      ensures WaitingLists()
    {
      forall l | l in lists && !IsTable(l) ensures exists p :: p in waiting && waiting[p] == l {
        if l in old(lists) {
          var p :| p in old(waiting) && old(waiting)[p] == l;
          assert waiting[p] == l;
        } else {
          assert waiting[o] == l;
        }
      }
    }
  }

  lemma EmptyLine(line: KernelList.List)
    requires Empty(line)
    ensures Threads(line) == []
  {
  }
}
