/** The words of kernel memory and the circular doubly linked rings stored in them.

    A `list_t` node at byte address a keeps its `next` link in the word at a and its `prev` link in
    the word at a + 4. A ring is described by the sequence of its node addresses. */
module LinkMemory {

  type Memory = map<int, int>

  const NULL := 0

  function Load(m: Memory, a: int): int {
    if a in m then m[a] else 0
  }

  function Next(m: Memory, node: int): int {
    Load(m, node)
  }

  function Prev(m: Memory, node: int): int {
    Load(m, node + 4)
  }

  function After(i: nat, n: nat): nat
    requires i < n
  {
    if i + 1 == n then 0 else i + 1
  }

  function Before(i: nat, n: nat): nat
    requires i < n
  {
    if i == 0 then n - 1 else i - 1
  }

  /** Nodes of a ring occupy two words each and never overlap. */
  ghost predicate Spaced(s: seq<int>) {
    forall i, j :: 0 <= i < |s| && 0 <= j < |s| && i != j ==> s[i] + 8 <= s[j] || s[j] + 8 <= s[i]
  }

  ghost predicate Linked(m: Memory, s: seq<int>, i: nat)
    requires i < |s|
  {
    Next(m, s[i]) == s[After(i, |s|)] && Prev(m, s[i]) == s[Before(i, |s|)]
  }

  /** The nodes of s, in this order, form one circular doubly linked list. */
  ghost predicate Ring(m: Memory, s: seq<int>) {
    |s| > 0 && Spaced(s) && forall i :: 0 <= i < |s| ==> Linked(m, s, i)
  }

  /** a is one of the words that hold the links of the nodes of s. */
  ghost predicate IsCell(s: seq<int>, a: int) {
    exists i :: 0 <= i < |s| && (s[i] == a || s[i] == a - 4)
  }

  /** Only link words of the nodes of s may differ between m and m'. */
  ghost predicate OnlyCells(m: Memory, m': Memory, s: seq<int>) {
    forall a :: !IsCell(s, a) ==> Load(m', a) == Load(m, a)
  }

  ghost predicate Apart(s: seq<int>, t: seq<int>) {
    forall i, j :: 0 <= i < |s| && 0 <= j < |t| ==> s[i] + 8 <= t[j] || t[j] + 8 <= s[i]
  }

  /** A ring survives every write that leaves its own link words alone. */
  lemma RingFrame(m: Memory, m': Memory, s: seq<int>)
    requires Ring(m, s)
    requires forall i :: 0 <= i < |s| ==> Next(m', s[i]) == Next(m, s[i]) && Prev(m', s[i]) == Prev(m, s[i])
    ensures Ring(m', s)
  {
    forall i | 0 <= i < |s| ensures Linked(m', s, i) {
      assert Linked(m, s, i);
    }
  }

  lemma RingApart(m: Memory, m': Memory, s: seq<int>, t: seq<int>)
    requires Ring(m, s) && Apart(s, t) && OnlyCells(m, m', t)
    ensures Ring(m', s)
  {
    forall i | 0 <= i < |s|
      ensures Next(m', s[i]) == Next(m, s[i]) && Prev(m', s[i]) == Prev(m, s[i])
    {
      assert !IsCell(t, s[i]);
      assert !IsCell(t, s[i] + 4);
    }
    RingFrame(m, m', s);
  }

  function InsertAt(s: seq<int>, k: nat, x: int): seq<int>
    requires k <= |s|
  {
    s[..k] + [x] + s[k..]
  }

  function RemoveAt(s: seq<int>, k: nat): seq<int>
    requires k < |s|
  {
    s[..k] + s[k + 1..]
  }

  /** m' is m after node x was linked in between left and right. */
  ghost predicate LinkedIn(m: Memory, m': Memory, left: int, x: int, right: int) {
    && Next(m', left) == x
    && Prev(m', x) == left
    && Next(m', x) == right
    && Prev(m', right) == x
    && forall a :: a != left && a != x && a != x + 4 && a != right + 4 ==> Load(m', a) == Load(m, a)
  }

  /** m' is m after node x was taken out from between left and right and made a ring of its own. */
  ghost predicate LinkedOut(m: Memory, m': Memory, left: int, x: int, right: int) {
    && (left != x ==> Next(m', left) == right)
    && (right != x ==> Prev(m', right) == left)
    && Next(m', x) == x
    && Prev(m', x) == x
    && forall a :: a != left && a != x && a != x + 4 && a != right + 4 ==> Load(m', a) == Load(m, a)
  }

  function LeftOf(s: seq<int>, k: nat): int
    requires |s| > 0 && k <= |s|
  {
    if k == 0 then s[|s| - 1] else s[k - 1]
  }

  function RightOf(s: seq<int>, k: nat): int
    requires |s| > 0 && k <= |s|
  {
    if k == |s| then s[0] else s[k]
  }

  lemma InsertSpaced(s: seq<int>, k: nat, x: int)
    requires Spaced(s) && k <= |s| && Apart(s, [x])
    ensures Spaced(InsertAt(s, k, x))
  {
    var t := InsertAt(s, k, x);
    forall i, j | 0 <= i < |t| && 0 <= j < |t| && i != j
      ensures t[i] + 8 <= t[j] || t[j] + 8 <= t[i]
    {
      assert [x][0] == x;
      if i != k { assert t[i] == s[if i < k then i else i - 1]; }
      if j != k { assert t[j] == s[if j < k then j else j - 1]; }
    }
  }

  lemma LinkNext(m: Memory, m': Memory, s: seq<int>, k: nat, x: int, o: nat)
    requires Ring(m, s) && k <= |s| && Apart(s, [x]) && o < |s|
    requires LinkedIn(m, m', LeftOf(s, k), x, RightOf(s, k))
    ensures Next(m', s[o]) == if o + 1 == (if k == 0 then |s| else k) then x else s[After(o, |s|)]
  {
    assert [x][0] == x;
    assert Linked(m, s, o);
    var r := if k == |s| then 0 else k;
    assert s[o] != s[r] + 4;
    assert s[o] != x && s[o] != x + 4;
  }

  lemma LinkPrev(m: Memory, m': Memory, s: seq<int>, k: nat, x: int, o: nat)
    requires Ring(m, s) && k <= |s| && Apart(s, [x]) && o < |s|
    requires LinkedIn(m, m', LeftOf(s, k), x, RightOf(s, k))
    ensures Prev(m', s[o]) == if o == (if k == |s| then 0 else k) then x else s[Before(o, |s|)]
  {
    assert [x][0] == x;
    assert Linked(m, s, o);
    var l := if k == 0 then |s| - 1 else k - 1;
    assert s[o] + 4 != s[l];
    assert s[o] + 4 != x && s[o] != x;
  }

  /** Who stands next to whom once x is inserted. */
  lemma InsertedNext(s: seq<int>, k: nat, x: int, i: nat)
    requires s != [] && k <= |s| && i <= |s|
    ensures var t, o := InsertAt(s, k, x), if i < k then i else i - 1;
      && t[i] == (if i == k then x else s[o])
      && t[After(i, |t|)] == (if i == k then RightOf(s, k) else if o + 1 == (if k == 0 then |s| else k) then x
                              else s[After(o, |s|)])
  {
  }

  lemma InsertedPrev(s: seq<int>, k: nat, x: int, i: nat)
    requires s != [] && k <= |s| && i <= |s|
    ensures var t, o := InsertAt(s, k, x), if i < k then i else i - 1;
      && t[Before(i, |t|)] == (if i == k then LeftOf(s, k) else if o == (if k == |s| then 0 else k) then x
                               else s[Before(o, |s|)])
  {
  }

  lemma LinkStep(m: Memory, m': Memory, s: seq<int>, k: nat, x: int, i: nat)
    requires Ring(m, s) && k <= |s| && Apart(s, [x]) && i <= |s|
    requires LinkedIn(m, m', LeftOf(s, k), x, RightOf(s, k))
    ensures Linked(m', InsertAt(s, k, x), i)
  {
    hide Spaced, Apart, After, Before;
    InsertedNext(s, k, x, i);
    InsertedPrev(s, k, x, i);
    if i != k {
      hide LinkedIn;
      var o := if i < k then i else i - 1;
      LinkNext(m, m', s, k, x, o);
      LinkPrev(m, m', s, k, x, o);
    }
  }

  /** Linking x in at position k of a ring gives the ring with x inserted at k. */
  lemma LinkRing(m: Memory, m': Memory, s: seq<int>, k: nat, x: int)
    requires Ring(m, s) && k <= |s| && Apart(s, [x])
    requires LinkedIn(m, m', LeftOf(s, k), x, RightOf(s, k))
    ensures Ring(m', InsertAt(s, k, x))
    ensures OnlyCells(m, m', InsertAt(s, k, x))
  {
    var t := InsertAt(s, k, x);
    InsertSpaced(s, k, x);
    forall i | 0 <= i < |t| ensures Linked(m', t, i) {
      LinkStep(m, m', s, k, x, i);
    }
    forall a | !IsCell(t, a) ensures Load(m', a) == Load(m, a) {
      assert t[k] == x;
      assert t[Before(k, |t|)] == LeftOf(s, k);
      assert t[After(k, |t|)] == RightOf(s, k);
    }
  }

  lemma RemoveSpaced(s: seq<int>, k: nat)
    requires Spaced(s) && k < |s|
    ensures Spaced(RemoveAt(s, k))
  {
    var t := RemoveAt(s, k);
    forall i, j | 0 <= i < |t| && 0 <= j < |t| && i != j
      ensures t[i] + 8 <= t[j] || t[j] + 8 <= t[i]
    {
      assert t[i] == s[if i < k then i else i + 1];
      assert t[j] == s[if j < k then j else j + 1];
    }
  }

  /** Who stands next to whom once the node at position k is gone. */
  lemma RemovedNeighbours(s: seq<int>, k: nat, i: nat)
    requires k < |s| && i < |s| - 1
    ensures var t, o, n := RemoveAt(s, k), if i < k then i else i + 1, |s|;
      && t[i] == s[o]
      && t[After(i, |t|)] == s[if After(o, n) == k then After(k, n) else After(o, n)]
      && t[Before(i, |t|)] == s[if Before(o, n) == k then Before(k, n) else Before(o, n)]
  {
  }

  lemma UnlinkNode(m: Memory, m': Memory, s: seq<int>, k: nat, o: nat)
    requires Ring(m, s) && k < |s| && o < |s| && o != k
    requires LinkedOut(m, m', s[Before(k, |s|)], s[k], s[After(k, |s|)])
    ensures var n := |s|;
      && Next(m', s[o]) == s[if After(o, n) == k then After(k, n) else After(o, n)]
      && Prev(m', s[o]) == s[if Before(o, n) == k then Before(k, n) else Before(o, n)]
  {
    assert Linked(m, s, o);
    assert After(o, |s|) != k ==> Next(m', s[o]) == Next(m, s[o]);
    assert Before(o, |s|) != k ==> Prev(m', s[o]) == Prev(m, s[o]);
  }

  lemma UnlinkStep(m: Memory, m': Memory, s: seq<int>, k: nat, i: nat)
    requires Ring(m, s) && k < |s| && i < |s| - 1
    requires LinkedOut(m, m', s[Before(k, |s|)], s[k], s[After(k, |s|)])
    ensures Linked(m', RemoveAt(s, k), i)
  {
    hide Ring, LinkedOut;
    RemovedNeighbours(s, k, i);
    UnlinkNode(m, m', s, k, if i < k then i else i + 1);
  }

  /** Unlinking the node at position k leaves the rest a ring and the node a ring of its own. */
  lemma UnlinkRing(m: Memory, m': Memory, s: seq<int>, k: nat)
    requires Ring(m, s) && k < |s|
    requires LinkedOut(m, m', s[Before(k, |s|)], s[k], s[After(k, |s|)])
    ensures Ring(m', [s[k]])
    ensures |s| > 1 ==> Ring(m', RemoveAt(s, k))
    ensures OnlyCells(m, m', s)
  {
    assert Linked(m', [s[k]], 0);
    if |s| > 1 {
      var t := RemoveAt(s, k);
      RemoveSpaced(s, k);
      forall i | 0 <= i < |t| ensures Linked(m', t, i) {
        UnlinkStep(m, m', s, k, i);
      }
    }
  }
}
