/**
 * The ordering step of `OrderByDescending(city => city)`: a sort of the
 * city names in non-increasing ordinal order.
 */
module Sorting {
  import opened Strings

  /** Every earlier element is at least as large as every later one. */
  predicate SortedDescending(s: seq<string>) {
    forall i, j :: 0 <= i < j < |s| ==> OrdinalLessOrEqual(s[j], s[i])
  }

  /** Places `x` before the first element of `s` that does not exceed it. */
  function Insert(x: string, s: seq<string>): (r: seq<string>)
    ensures multiset(r) == multiset(s) + multiset{x}
  {
    if s == [] then [x]
    else if OrdinalLessOrEqual(s[0], x) then [x] + s
    else
      assert s == [s[0]] + s[1..];
      [s[0]] + Insert(x, s[1..])
  }

  /** Inserting into a descending sequence keeps it descending. */
  lemma {:induction false} InsertSorted(x: string, s: seq<string>)
    requires SortedDescending(s)
    ensures SortedDescending(Insert(x, s))
  {
    if s == [] {
    } else if OrdinalLessOrEqual(s[0], x) {
      var r := [x] + s;
      forall i, j | 0 <= i < j < |r|
        ensures OrdinalLessOrEqual(r[j], r[i])
      {
        if i == 0 && j > 1 {
          OrdinalTransitive(s[j - 1], s[0], x);
        }
      }
    } else {
      OrdinalTotal(s[0], x);
      var t := Insert(x, s[1..]);
      InsertSorted(x, s[1..]);
      var r := [s[0]] + t;
      forall i, j | 0 <= i < j < |r|
        ensures OrdinalLessOrEqual(r[j], r[i])
      {
        if i == 0 {
          assert r[j] in multiset(t);
          if r[j] != x {
            assert r[j] in multiset(s[1..]);
            var k :| 0 <= k < |s[1..]| && s[1..][k] == r[j];
            assert s[k + 1] == r[j];
          }
        }
      }
    }
  }

  /**
   * The input rearranged into non-increasing order: the result is sorted
   * and is a permutation of the input.
   */
  function SortDescending(s: seq<string>): (r: seq<string>)
    ensures SortedDescending(r)
    ensures multiset(r) == multiset(s)
  {
    if s == [] then []
    else
      var t := SortDescending(s[1..]);
      InsertSorted(s[0], t);
      assert s == [s[0]] + s[1..];
      Insert(s[0], t)
  }

  /** The first element of a descending sequence is at least every element of it. */
  lemma SortedHeadIsGreatest(s: seq<string>, x: string)
    requires SortedDescending(s)
    requires x in multiset(s)
    ensures OrdinalLessOrEqual(x, s[0])
  {
    var k :| 0 <= k < |s| && s[k] == x;
    if k == 0 {
      OrdinalReflexive(x);
    }
  }

  /**
   * There is only one descending arrangement of a multiset of strings:
   * strings that compare equal are identical, so whether the sort is stable
   * cannot be observed in its result.
   */
  lemma {:induction false} SortedUnique(a: seq<string>, b: seq<string>)
    requires SortedDescending(a) && SortedDescending(b)
    requires multiset(a) == multiset(b)
    ensures a == b
  {
    if a == [] {
      assert |multiset(b)| == 0;
    } else {
      assert |multiset(b)| == |b| > 0;
      SortedHeadIsGreatest(b, a[0]);
      SortedHeadIsGreatest(a, b[0]);
      OrdinalAntisymmetric(a[0], b[0]);
      assert a == [a[0]] + a[1..];
      assert b == [b[0]] + b[1..];
      assert multiset(a[1..]) == multiset(a) - multiset{a[0]};
      assert multiset(b[1..]) == multiset(b) - multiset{b[0]};
      SortedUnique(a[1..], b[1..]);
    }
  }
}
