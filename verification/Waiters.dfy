/** The lists of threads that wait on a semaphore, mutex, mailbox or queue. Every thread is
    enlisted there with priority 0, so the lists are first come, first served. */
module Waiters {
  import opened Basics
  import opened PriorityList

  type Line = Queue<Tid>

  function Join(q: Line, t: Tid): Line {
    Insert(q, Entry(t, 0))
  }

  /** The threads in the order in which they will be woken. */
  function Order(q: Line): seq<Tid> {
    if q == [] then [] else Order(q[1..]) + [q[0].item]
  }

  ghost predicate AllZero(q: Line) {
    forall i :: 0 <= i < |q| ==> q[i].prio == 0
  }

  lemma JoinIs(q: Line, t: Tid)
    requires AllZero(q)
    ensures Join(q, t) == [Entry(t, 0)] + q && AllZero(Join(q, t))
  {
  }

  /** Joining means going to the back, and the tail is the next to be woken. */
  lemma {:induction false} JoinGoesLast(q: Line, t: Tid)
    requires AllZero(q)
    ensures Order(Join(q, t)) == Order(q) + [t]
    ensures q != [] ==> Order(q) == [q[|q| - 1].item] + Order(q[..|q| - 1])
  {
    assert ([Entry(t, 0)] + q)[1..] == q;
    if q != [] {
      TailFirst(q);
    }
  }

  lemma {:induction false} TailFirst(q: Line)
    requires q != []
    ensures Order(q) == [q[|q| - 1].item] + Order(q[..|q| - 1])
  {
    if |q| == 1 {
      assert Order(q[1..]) == [];
    } else {
      TailFirst(q[1..]);
      assert q[1..][..|q| - 2] == q[..|q| - 1][1..];
    }
  }

  function Members(q: Line): set<Tid> {
    set e | e in q :: e.item
  }

  ghost predicate NoDup(q: Line) {
    forall i, j :: 0 <= i < j < |q| ==> q[i].item != q[j].item
  }

  /** A line in which every thread stands once. */
  ghost predicate Proper(q: Line) {
    AllZero(q) && NoDup(q)
  }

  lemma JoinProper(q: Line, t: Tid)
    requires Proper(q) && t !in Members(q)
    ensures Proper(Join(q, t)) && Members(Join(q, t)) == Members(q) + {t}
  {
    JoinIs(q, t);
    var r := [Entry(t, 0)] + q;
    forall i, j | 0 <= i < j < |r| ensures r[i].item != r[j].item {
      assert r[j] == q[j - 1] && q[j - 1] in q;
    }
    assert forall e :: e in r <==> e == Entry(t, 0) || e in q;
    assert Entry(t, 0) in r;
  }

  lemma JoinMembers(q: Line, t: Tid)
    ensures Members(Join(q, t)) == Members(q) + {t}
  {
    InsertMembers(q, Entry(t, 0));
  }

  lemma NobodyThere()
    ensures Members([]) == {} && Proper([])
  {
  }

  lemma LeaveProper(q: Line)
    requires Proper(q) && q != []
    ensures Proper(q[..|q| - 1]) && Members(q[..|q| - 1]) == Members(q) - {q[|q| - 1].item}
    ensures q[|q| - 1].item in Members(q)
  {
    var n := |q| - 1;
    assert q == q[..n] + [q[n]];
    assert q[n] in q;
    assert forall e :: e in q <==> e in q[..n] || e == q[n];
  }

  /** The thread that the next delisting takes, and what it leaves. */
  function TailOf(w: Line): Option<Tid> {
    if w == [] then None else Some(w[|w| - 1].item)
  }

  function Rest(w: Line): Line {
    if w == [] then w else w[..|w| - 1]
  }

  function Served(u: Option<Tid>): seq<Tid> {
    if u.Some? then [u.value] else []
  }

  /** Whoever leaves first is the one that came first, and somebody leaves if anybody is there. */
  lemma {:induction false} LeavesFirst(w: Line)
    ensures Order(w) == Served(TailOf(w)) + Order(Rest(w))
    ensures TailOf(w).None? ==> Order(w) == []
  {
    if w != [] {
      TailFirst(w);
    }
  }

  function Added(u: Option<Tid>): set<Tid> {
    if u.Some? then {u.value} else {}
  }

  lemma RestProper(w: Line)
    requires Proper(w)
    ensures Proper(Rest(w)) && Members(Rest(w)) == Members(w) - Added(TailOf(w))
    ensures Added(TailOf(w)) <= Members(w) && (w != [] ==> Added(TailOf(w)) != {})
  {
    if w != [] {
      LeaveProper(w);
    }
  }

  lemma RestMembers(w: Line)
    ensures Members(Rest(w)) <= Members(w)
  {
  }

  /** A line without the first entry of t, if there is one. */
  function Removed(q: Line, t: Tid): Line {
    var i := IndexOf(q, t);
    if i < |q| then Without(q, i) else q
  }

  // ----- lists with priorities ------------------------------------------------------------------

  lemma InsertMembers(q: Line, e: Entry<Tid>)
    ensures Members(Insert(q, e)) == Members(q) + {e.item}
    ensures NoDup(q) && e.item !in Members(q) ==> NoDup(Insert(q, e))
  {
    hide Insert, Position;
    InsertIs(q, e);
    SplicedMembers(q, Position(q, e.prio), e);
  }

  lemma SplicedMembers(q: Line, k: nat, e: Entry<Tid>)
    requires k <= |q|
    ensures var r := q[..k] + [e] + q[k..];
      Members(r) == Members(q) + {e.item} && (NoDup(q) && e.item !in Members(q) ==> NoDup(r))
  {
    var r := q[..k] + [e] + q[k..];
    assert q == q[..k] + q[k..];
    assert forall x :: x in r <==> x == e || x in q;
    assert e in r;
    if NoDup(q) && e.item !in Members(q) {
      forall i, j | 0 <= i < j < |r| ensures r[i].item != r[j].item {
        if i != k { assert r[i] == q[if i < k then i else i - 1] && r[i] in q; }
        if j != k { assert r[j] == q[if j < k then j else j - 1] && r[j] in q; }
      }
    }
  }

  lemma WithoutMembers(q: Line, k: nat)
    requires NoDup(q) && k < |q|
    ensures NoDup(Without(q, k)) && Members(Without(q, k)) == Members(q) - {q[k].item}
    ensures q[k].item in Members(q)
  {
    var r := Without(q, k);
    assert q == q[..k] + [q[k]] + q[k + 1..];
    assert q[k] in q;
    forall x ensures x in r <==> x in q && x != q[k] {
      if x in r {
        var i :| 0 <= i < |r| && r[i] == x;
        assert r[i] == q[if i < k then i else i + 1];
      }
    }
    assert forall i :: 0 <= i < |r| ==> r[i] == q[if i < k then i else i + 1];
  }

  lemma TailMembers(q: Line)
    requires NoDup(q) && q != []
    ensures NoDup(q[..|q| - 1]) && Members(q[..|q| - 1]) == Members(q) - {q[|q| - 1].item}
    ensures q[|q| - 1].item in Members(q)
  {
    assert Without(q, |q| - 1) == q[..|q| - 1];
    WithoutMembers(q, |q| - 1);
  }
}
