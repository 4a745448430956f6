/** The search for a block of memory in another, which compares the second byte first and then skips
    one or two positions. */
module Memmem {
  import opened Basics

  predicate Occurs<T(==)>(haystack: seq<T>, needle: seq<T>, at: nat) {
    at + |needle| <= |haystack| && haystack[at..at + |needle|] == needle
  }

  /** Where a search that tries every position in turn finds the needle first. */
  function FirstFrom<T(==)>(haystack: seq<T>, needle: seq<T>, from: nat): Option<nat>
    decreases |haystack| - from
  {
    if Occurs(haystack, needle, from) then Some(from)
    else if from >= |haystack| then None
    else FirstFrom(haystack, needle, from + 1)
  }

  lemma {:induction false} FirstFromIs<T>(haystack: seq<T>, needle: seq<T>, from: nat)
    ensures FirstFrom(haystack, needle, from).None? <==> forall i: nat :: from <= i ==> !Occurs(haystack, needle, i)
    ensures FirstFrom(haystack, needle, from).Some? ==>
      var at := FirstFrom(haystack, needle, from).value;
      from <= at && Occurs(haystack, needle, at) && forall i: nat :: from <= i < at ==> !Occurs(haystack, needle, i)
    decreases |haystack| - from
  {
    if !Occurs(haystack, needle, from) {
      if from >= |haystack| {
        forall i: nat | from <= i ensures !Occurs(haystack, needle, i) {
          if i + |needle| <= |haystack| {
            assert i == from;
          }
        }
      } else {
        FirstFromIs(haystack, needle, from + 1);
      }
    }
  }

  lemma Passed<T>(haystack: seq<T>, needle: seq<T>, j: nat)
    requires forall i: nat :: i < j ==> !Occurs(haystack, needle, i)
    ensures Occurs(haystack, needle, j) ==> FirstFrom(haystack, needle, 0) == Some(j)
    ensures j + |needle| > |haystack| ==> FirstFrom(haystack, needle, 0) == None
  {
    FirstFromIs(haystack, needle, 0);
  }

  /** An occurrence has the needle's bytes at its first two positions. */
  lemma FirstTwo<T>(haystack: seq<T>, needle: seq<T>, j: nat)
    requires |needle| >= 2 && j + |needle| <= |haystack|
    ensures Occurs(haystack, needle, j) <==>
      haystack[j] == needle[0] && haystack[j + 1] == needle[1] && haystack[j + 2..j + |needle|] == needle[2..]
  {
    var w := haystack[j..j + |needle|];
    assert w == [haystack[j], haystack[j + 1]] + haystack[j + 2..j + |needle|];
    assert needle == [needle[0], needle[1]] + needle[2..];
    assert w[2..] == haystack[j + 2..j + |needle|];
  }

  /** memmem: the first occurrence of the needle, None for the null pointer. An empty needle is not
      found anywhere. */
  method Search<T(==)>(y: seq<T>, x: seq<T>) returns (r: Option<nat>)
    ensures x == [] ==> r == None
    ensures x != [] ==> r == FirstFrom(y, x, 0)
    ensures x != [] && r.Some? ==> Occurs(y, x, r.value) && forall i: nat :: i < r.value ==> !Occurs(y, x, i)
    ensures x != [] && r.None? ==> forall i: nat :: !Occurs(y, x, i)
  {
    FirstFromIs(y, x, 0);
    var n, m := |y|, |x|;
    if m > n || m == 0 || n == 0 {
      return None;
    }
    if m != 1 {
      r := SearchLong(y, x);
    } else {
      r := SearchByte(y, x);
    }
  }

  method SearchLong<T(==)>(y: seq<T>, x: seq<T>) returns (r: Option<nat>)
    requires 2 <= |x| <= |y|
    ensures r == FirstFrom(y, x, 0)
  {
    var n, m := |y|, |x|;
    var k, l;
    if x[0] == x[1] {
      k, l := 2, 1;
    } else {
      k, l := 1, 2;
    }
    var j := 0;
    while j <= n - m
      invariant forall i: nat :: i < j ==> !Occurs(y, x, i)
      decreases n - j
    {
      FirstTwo(y, x, j);
      if j + 1 + m <= n {
        FirstTwo(y, x, j + 1);
      }
      if x[1] != y[j + 1] {
        j := j + k;
      } else {
        if x[2..] == y[j + 2..j + m] && x[0] == y[j] {
          Passed(y, x, j);
          return Some(j);
        }
        j := j + l;
      }
    }
    Passed(y, x, j);
    r := None;
  }

  /** A needle of one byte is looked for with a pointer and a count of what is left. */
  method SearchByte<T(==)>(y: seq<T>, x: seq<T>) returns (r: Option<nat>)
    requires |x| == 1 <= |y|
    ensures r == FirstFrom(y, x, 0)
  {
    var p, n := 0, |y|;
    while true
      invariant p + n == |y| && n > 0
      invariant forall i: nat :: i < p ==> !Occurs(y, x, i)
      decreases n
    {
      assert y[p..p + 1] == [y[p]] && x == [x[0]];
      if y[p] == x[0] {
        Passed(y, x, p);
        return Some(p);
      }
      p, n := p + 1, n - 1;
      if n == 0 {
        break;
      }
    }
    Passed(y, x, p);
    r := None;
  }
}
