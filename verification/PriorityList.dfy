/** What a kernel list means: a queue sorted by priority from head (largest number) to tail
    (smallest number), served from the tail. */
module PriorityList {

  datatype Entry<+T> = Entry(item: T, prio: nat)

  type Queue<T> = seq<Entry<T>>

  /** A new entry goes in front of the first entry whose priority number is not larger. */
  function Insert<T>(q: Queue<T>, e: Entry<T>): Queue<T> {
    if q == [] then [e]
    else if q[0].prio > e.prio then [q[0]] + Insert(q[1..], e)
    else [e] + q
  }

  function Position<T>(q: Queue<T>, prio: nat): (k: nat)
    ensures k <= |q|
    ensures forall i :: 0 <= i < k ==> q[i].prio > prio
    ensures k < |q| ==> q[k].prio <= prio
  {
    if q == [] || q[0].prio <= prio then 0
    else
      var k := Position(q[1..], prio);
      assert forall i :: 0 < i <= k ==> q[i] == q[1..][i - 1];
      k + 1
  }

  lemma PositionBy<T>(q: Queue<T>, prio: nat, k: nat)
    requires k <= |q| && forall i :: 0 <= i < k ==> q[i].prio > prio
    requires k < |q| ==> q[k].prio <= prio
    ensures k == Position(q, prio)
  {
  }

  lemma {:induction false} InsertIs<T>(q: Queue<T>, e: Entry<T>)
    ensures var k := Position(q, e.prio); Insert(q, e) == q[..k] + [e] + q[k..]
  {
    var k := Position(q, e.prio);
    if q != [] && q[0].prio > e.prio {
      InsertIs(q[1..], e);
      assert q[..k] == [q[0]] + q[1..][..k - 1];
    }
  }

  function Items<T>(q: Queue<T>): seq<T> {
    seq(|q|, i requires 0 <= i < |q| => q[i].item)
  }

  /** Nothing is lost or duplicated by an insertion. */
  lemma InsertMultiset<T>(q: Queue<T>, e: Entry<T>)
    ensures multiset(Insert(q, e)) == multiset(q) + multiset{e}
  {
    hide Insert, Position;
    InsertIs(q, e);
    var k := Position(q, e.prio);
    assert q == q[..k] + q[k..];
    assert multiset(q) == multiset(q[..k]) + multiset(q[k..]);
  }

  ghost predicate Sorted<T>(q: Queue<T>) {
    forall i, j :: 0 <= i < j < |q| ==> q[i].prio >= q[j].prio
  }

  /** The entries around position k, after e was put there. */
  lemma SplicedAt<T>(q: Queue<T>, k: nat, e: Entry<T>, i: nat)
    requires k <= |q| && i <= |q|
    ensures (q[..k] + [e] + q[k..])[i] == if i < k then q[i] else if i == k then e else q[i - 1]
  {
  }

  lemma InsertSorted<T>(q: Queue<T>, e: Entry<T>)
    requires Sorted(q)
    ensures Sorted(Insert(q, e))
  {
    hide Insert;
    InsertIs(q, e);
    var k := Position(q, e.prio);
    var r := Insert(q, e);
    hide Position;
    forall i, j | 0 <= i < j < |r| ensures r[i].prio >= r[j].prio {
      SplicedAt(q, k, e, i);
      SplicedAt(q, k, e, j);
    }
  }

  /** Among equal priorities, entries stand newest first, so that the tail holds the oldest. */
  ghost predicate Stable<T>(q: Queue<T>, age: T -> nat) {
    forall i, j :: 0 <= i < j < |q| && q[i].prio == q[j].prio ==> age(q[i].item) > age(q[j].item)
  }

  lemma InsertStable<T>(q: Queue<T>, e: Entry<T>, age: T -> nat)
    requires Sorted(q) && Stable(q, age)
    requires forall i :: 0 <= i < |q| ==> age(q[i].item) < age(e.item)
    ensures Stable(Insert(q, e), age)
  {
    hide Insert;
    InsertIs(q, e);
    var k := Position(q, e.prio);
    var r := Insert(q, e);
    hide Position;
    forall i, j | 0 <= i < j < |r| && r[i].prio == r[j].prio ensures age(r[i].item) > age(r[j].item) {
      SplicedAt(q, k, e, i);
      SplicedAt(q, k, e, j);
    }
  }

  /** e is served before every other entry of q. */
  ghost predicate Foremost<T>(q: Queue<T>, e: Entry<T>, age: T -> nat) {
    forall x :: x in q && x != e ==> e.prio < x.prio || (e.prio == x.prio && age(e.item) < age(x.item))
  }

  function Without<T>(q: Queue<T>, k: nat): Queue<T>
    requires k < |q|
  {
    q[..k] + q[k + 1..]
  }

  lemma WithoutSorted<T>(q: Queue<T>, k: nat, age: T -> nat)
    requires Sorted(q) && Stable(q, age) && k < |q|
    ensures Sorted(Without(q, k)) && Stable(Without(q, k), age)
  {
    var r := Without(q, k);
    assert forall i :: 0 <= i < |r| ==> r[i] == q[if i < k then i else i + 1];
  }

  // ----- runs -----------------------------------------------------------------------------------

  datatype Op<+T> = EnlistOp(item: T, prio: nat) | DelistOp | RemoveOp(item: T)

  function IndexOf<T(==)>(q: Queue<T>, item: T): (k: nat)
    ensures k <= |q|
    ensures k < |q| ==> q[k].item == item
    ensures forall j :: 0 <= j < k ==> q[j].item != item
  {
    if q == [] || q[0].item == item then 0
    else
      var k := IndexOf(q[1..], item);
      assert forall j :: 0 < j <= k ==> q[j] == q[1..][j - 1];
      k + 1
  }

  function Step<T(==)>(q: Queue<T>, op: Op<T>): Queue<T> {
    match op
    case EnlistOp(item, prio) => Insert(q, Entry(item, prio))
    case DelistOp => if q == [] then q else q[..|q| - 1]
    case RemoveOp(item) => var k := IndexOf(q, item); if k < |q| then Without(q, k) else q
  }

  function Run<T(==)>(q: Queue<T>, ops: seq<Op<T>>): Queue<T>
    decreases |ops|
  {
    if ops == [] then q else Run(Step(q, ops[0]), ops[1..])
  }

  /** Items are enlisted in increasing age, each later than all that are listed at the start. */
  ghost predicate InOrder<T>(q: Queue<T>, ops: seq<Op<T>>, age: T -> nat) {
    && (forall e, k :: e in q && 0 <= k < |ops| && ops[k].EnlistOp? ==> age(e.item) < age(ops[k].item))
    && (forall j, k :: 0 <= j < k < |ops| && ops[j].EnlistOp? && ops[k].EnlistOp? ==> age(ops[j].item) < age(ops[k].item))
  }

  lemma StepInOrder<T>(q: Queue<T>, ops: seq<Op<T>>, age: T -> nat)
    requires ops != [] && InOrder(q, ops, age)
    ensures InOrder(Step(q, ops[0]), ops[1..], age)
  {
    var r := Step(q, ops[0]);
    if ops[0].EnlistOp? { InsertIs(q, Entry(ops[0].item, ops[0].prio)); }
    forall e, k | e in r && 0 <= k < |ops[1..]| && ops[1..][k].EnlistOp?
      ensures age(e.item) < age(ops[1..][k].item)
    {
      assert ops[1..][k] == ops[k + 1];
      assert e in q || (ops[0].EnlistOp? && e.item == ops[0].item);
    }
    assert forall j :: 0 <= j < |ops[1..]| ==> ops[1..][j] == ops[j + 1];
  }

  /** In every run the list stays a stable priority queue. */
  lemma {:induction false} RunKeepsOrder<T>(q: Queue<T>, ops: seq<Op<T>>, age: T -> nat)
    requires Sorted(q) && Stable(q, age) && InOrder(q, ops, age)
    ensures Sorted(Run(q, ops)) && Stable(Run(q, ops), age)
    decreases |ops|
  {
    if ops != [] {
      var r := Step(q, ops[0]);
      match ops[0] {
        case EnlistOp(item, prio) =>
          InsertSorted(q, Entry(item, prio));
          forall i | 0 <= i < |q| ensures age(q[i].item) < age(item) {
            assert q[i] in q && ops[0].EnlistOp?;
          }
          InsertStable(q, Entry(item, prio), age);
        case DelistOp =>
        case RemoveOp(item) =>
          var k := IndexOf(q, item);
          if k < |q| { WithoutSorted(q, k, age); }
      }
      StepInOrder(q, ops, age);
      RunKeepsOrder(r, ops[1..], age);
    }
  }

  /** After every run from an empty list, the entry at the tail has the smallest priority number,
      and is the oldest of those that have it. */
  lemma TailIsForemost<T>(ops: seq<Op<T>>, age: T -> nat)
    requires InOrder([], ops, age) && Run([], ops) != []
    ensures var q := Run([], ops); Foremost(q, q[|q| - 1], age)
  {
    RunKeepsOrder([], ops, age);
    var q := Run([], ops);
    forall x | x in q && x != q[|q| - 1]
      ensures q[|q| - 1].prio < x.prio || (q[|q| - 1].prio == x.prio && age(q[|q| - 1].item) < age(x.item))
    {
      var i :| 0 <= i < |q| && q[i] == x;
    }
  }
}
