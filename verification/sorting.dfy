/** Ascending sort of real sequences, standing in for Python's `sorted(...)`. */
module Sorting {

  predicate Sorted(s: seq<real>) {
    forall i, j :: 0 <= i < j < |s| ==> s[i] <= s[j]
  }

  /** Insert `x` before the first element not smaller than it. */
  function Insert(x: real, s: seq<real>): seq<real>
  {
    if |s| == 0 then [x]
    else if x <= s[0] then [x] + s
    else [s[0]] + Insert(x, s[1..])
  }

  /** Insertion sort. */
  function Sort(s: seq<real>): seq<real>
  {
    if |s| == 0 then [] else Insert(s[0], Sort(s[1..]))
  }

  /** Inserting adds exactly `x`. */
  lemma {:induction false} InsertPermutation(x: real, s: seq<real>)
    ensures multiset(Insert(x, s)) == multiset(s) + multiset{x}
    ensures |Insert(x, s)| == |s| + 1
  {
    if |s| > 0 {
      assert s == [s[0]] + s[1..];
      if x > s[0] {
        InsertPermutation(x, s[1..]);
        assert Insert(x, s) == [s[0]] + Insert(x, s[1..]);
      }
    }
  }

  /** Every element of a sorted sequence after the first is at least the first. */
  lemma HeadIsSmallest(s: seq<real>, y: real)
    requires Sorted(s) && |s| > 0 && y in s[1..]
    ensures s[0] <= y
  {
    var k :| 0 <= k < |s[1..]| && s[1..][k] == y;
    assert s[k + 1] == y;
  }

  /** Inserting into a sorted sequence keeps it sorted and adds exactly `x`. */
  lemma {:induction false} InsertCorrect(x: real, s: seq<real>)
    requires Sorted(s)
    ensures Sorted(Insert(x, s))
    ensures multiset(Insert(x, s)) == multiset(s) + multiset{x}
    ensures |Insert(x, s)| == |s| + 1
  {
    InsertPermutation(x, s);
    if |s| > 0 && x > s[0] {
      var rest := Insert(x, s[1..]);
      assert Sorted(s[1..]);
      InsertCorrect(x, s[1..]);
      assert Insert(x, s) == [s[0]] + rest;
      forall k | 0 <= k < |rest|
        ensures s[0] <= rest[k]
      {
        assert rest[k] in multiset(s[1..]) + multiset{x};
        if rest[k] != x {
          HeadIsSmallest(s, rest[k]);
        }
      }
    }
  }

  /** The sort returns an ascending permutation of its input. */
  lemma {:induction false} SortCorrect(s: seq<real>)
    ensures Sorted(Sort(s))
    ensures multiset(Sort(s)) == multiset(s)
    ensures |Sort(s)| == |s|
  {
    if |s| > 0 {
      SortCorrect(s[1..]);
      InsertCorrect(s[0], Sort(s[1..]));
      assert s == [s[0]] + s[1..];
    }
  }

  /** Sorting puts the minimum first and the maximum last. */
  lemma SortBounds(s: seq<real>, x: real)
    requires x in s
    ensures |Sort(s)| == |s|
    ensures Sort(s)[0] <= x <= Sort(s)[|s| - 1]
  {
    SortCorrect(s);
    var r := Sort(s);
    assert x in multiset(s);
    assert x in multiset(r);
  }
}
