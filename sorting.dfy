/**
 * Python's `sorted`, which is stable: an element moves in front of an
 * earlier one only when it is strictly smaller.  `le(x, y)` says that `x`
 * may stay in front of `y`.
 */
module Sorting {

  /** Places `x` in front of the first element that it may precede. */
  function Insert<T>(x: T, s: seq<T>, le: (T, T) -> bool): seq<T>
  {
    if |s| == 0 then [x]
    else if le(x, s[0]) then [x] + s
    else [s[0]] + Insert(x, s[1..], le)
  }

  /** Stable insertion sort: the head of the list goes in front of everything it may precede. */
  function Sort<T>(s: seq<T>, le: (T, T) -> bool): seq<T>
  {
    if |s| == 0 then [] else Insert(s[0], Sort(s[1..], le), le)
  }

  ghost predicate Sorted<T>(s: seq<T>, le: (T, T) -> bool)
  {
    forall i, j | 0 <= i < j < |s| :: le(s[i], s[j])
  }

  ghost predicate TotalOn<T>(s: seq<T>, le: (T, T) -> bool)
  {
    forall x, y | x in s && y in s :: le(x, y) || le(y, x)
  }

  ghost predicate TransitiveOn<T>(s: seq<T>, le: (T, T) -> bool)
  {
    forall x, y, z | x in s && y in s && z in s && le(x, y) && le(y, z) :: le(x, z)
  }

  lemma {:induction false} InsertPermutes<T>(x: T, s: seq<T>, le: (T, T) -> bool)
    ensures multiset(Insert(x, s, le)) == multiset(s) + multiset{x}
  {
    if |s| > 0 && !le(x, s[0]) {
      InsertPermutes(x, s[1..], le);
      assert s == [s[0]] + s[1..];
    }
  }

  /** Sorting only reorders: the result is a permutation of the input. */
  lemma {:induction false} SortPermutes<T>(s: seq<T>, le: (T, T) -> bool)
    ensures multiset(Sort(s, le)) == multiset(s)
  {
    if |s| > 0 {
      SortPermutes(s[1..], le);
      InsertPermutes(s[0], Sort(s[1..], le), le);
      assert s == [s[0]] + s[1..];
    }
  }

  lemma {:induction false} SortElements<T>(s: seq<T>, le: (T, T) -> bool)
    ensures |Sort(s, le)| == |s|
    ensures forall y | y in Sort(s, le) :: y in s
  {
    SortPermutes(s, le);
    assert |multiset(Sort(s, le))| == |multiset(s)|;
    forall y | y in Sort(s, le)
      ensures y in s
    {
      assert y in multiset(Sort(s, le));
    }
  }

  /** Joining an element onto the first of several sorted lists keeps them all sorted, when the joined list is. */
  lemma MergeKeepsSorted<T>(x: T, rest: seq<seq<T>>, le: (T, T) -> bool)
    requires |rest| > 0 && Sorted([x] + rest[0], le)
    requires forall i | 0 <= i < |rest| :: Sorted(rest[i], le)
    ensures forall i | 0 <= i < |[[x] + rest[0]] + rest[1..]| :: Sorted(([[x] + rest[0]] + rest[1..])[i], le)
  {
    var runs := [[x] + rest[0]] + rest[1..];
    forall i | 0 < i < |runs|
      ensures Sorted(runs[i], le)
    {
      assert runs[i] == rest[i];
    }
  }

  /** A one-element list in front of several sorted lists keeps them all sorted. */
  lemma PushKeepsSorted<T>(x: T, rest: seq<seq<T>>, le: (T, T) -> bool)
    requires forall i | 0 <= i < |rest| :: Sorted(rest[i], le)
    ensures forall i | 0 <= i < |[[x]] + rest| :: Sorted(([[x]] + rest)[i], le)
  {
    var runs := [[x]] + rest;
    forall i | 0 < i < |runs|
      ensures Sorted(runs[i], le)
    {
      assert runs[i] == rest[i - 1];
    }
  }

  lemma {:induction false} ConsSorted<T>(y: T, t: seq<T>, le: (T, T) -> bool)
    requires Sorted(t, le)
    requires forall z | z in t :: le(y, z)
    ensures Sorted([y] + t, le)
  {
    var out := [y] + t;
    forall i, j | 0 <= i < j < |out|
      ensures le(out[i], out[j])
    {
      assert out[j] == t[j - 1];
      if i > 0 {
        assert out[i] == t[i - 1];
      } else {
        assert t[j - 1] in t;
      }
    }
  }

  lemma {:induction false} InsertSorted<T>(x: T, s: seq<T>, le: (T, T) -> bool)
    requires Sorted(s, le)
    requires TotalOn([x] + s, le) && TransitiveOn([x] + s, le)
    ensures Sorted(Insert(x, s, le), le)
  {
    if |s| == 0 {
    } else if le(x, s[0]) {
      forall z | z in s
        ensures le(x, z)
      {
        var k :| 0 <= k < |s| && s[k] == z;
        if k > 0 {
          assert le(s[0], s[k]);
          assert x in [x] + s && s[0] in [x] + s && z in [x] + s;
        }
      }
      ConsSorted(x, s, le);
    } else {
      var t := s[1..];
      assert Sorted(t, le);
      assert forall y | y in [x] + t :: y in [x] + s;
      InsertSorted(x, t, le);
      var r := Insert(x, t, le);
      InsertPermutes(x, t, le);
      assert le(s[0], x) by {
        assert x in [x] + s && s[0] in [x] + s;
      }
      forall y | y in r
        ensures le(s[0], y)
      {
        assert y in multiset(r);
        if y != x {
          assert y in t;
          var k :| 0 <= k < |t| && t[k] == y;
          assert s[k + 1] == y;
        }
      }
      ConsSorted(s[0], r, le);
    }
  }

  /** Under a total, transitive relation the result is sorted. */
  lemma {:induction false} SortSorted<T>(s: seq<T>, le: (T, T) -> bool)
    requires TotalOn(s, le) && TransitiveOn(s, le)
    ensures Sorted(Sort(s, le), le)
  {
    if |s| > 0 {
      var t := s[1..];
      assert forall y | y in t :: y in s;
      SortSorted(t, le);
      SortElements(t, le);
      var u := Sort(t, le);
      assert forall y | y in [s[0]] + u :: y in s;
      InsertSorted(s[0], u, le);
    }
  }

  /** An input that is already sorted is returned unchanged (the sort is stable). */
  lemma {:induction false} SortIdentity<T>(s: seq<T>, le: (T, T) -> bool)
    requires Sorted(s, le)
    ensures Sort(s, le) == s
  {
    if |s| > 0 {
      assert Sorted(s[1..], le);
      SortIdentity(s[1..], le);
      if |s| > 1 {
        assert le(s[0], s[1]);
      }
      assert s == [s[0]] + s[1..];
    }
  }
}
