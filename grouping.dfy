/**
 * plot_data.py `group_by_keys`: `itertools.groupby` over a sorted list,
 * splitting it into maximal runs whose records project equally onto a key list.
 */
module Grouping {
  import opened Values
  import opened Records
  import opened Seqs
  import Sorting

  predicate HasKeys(r: Record, keys: seq<string>)
  {
    forall k | k in keys :: k in r
  }

  /** Every record has every key (otherwise `b[k]` raises KeyError). */
  predicate AllHaveKeys(s: seq<Record>, keys: seq<string>)
  {
    forall r | r in s :: HasKeys(r, keys)
  }

  /** Having every key of a list implies having every key of a shorter list. */
  lemma {:induction false} WeakenKeys(s: seq<Record>, big: seq<string>, small: seq<string>)
    requires AllHaveKeys(s, big) && forall k | k in small :: k in big
    ensures AllHaveKeys(s, small)
  {
  }

  /** `[b[k] for k in keyset]` */
  function Project(r: Record, keys: seq<string>): (p: seq<Value>)
    requires HasKeys(r, keys)
    ensures |p| == |keys| && forall i | 0 <= i < |keys| :: p[i] == r[keys[i]]
  {
    seq(|keys|, i requires 0 <= i < |keys| => r[keys[i]])
  }

  /** Equal projections are the same thing as agreeing on the keys. */
  lemma {:induction false} ProjectAgree(a: Record, b: Record, keys: seq<string>)
    requires HasKeys(a, keys) && HasKeys(b, keys)
    ensures Project(a, keys) == Project(b, keys) <==> Agree(keys, a, b)
  {
    if Agree(keys, a, b) {
      assert forall i | 0 <= i < |keys| :: Project(a, keys)[i] == Project(b, keys)[i];
    }
    if Project(a, keys) == Project(b, keys) {
      forall k | k in keys && k in a && k in b
        ensures a[k] == b[k]
      {
        var i :| 0 <= i < |keys| && keys[i] == k;
        assert Project(a, keys)[i] == Project(b, keys)[i];
      }
    }
  }

  /** plot_data.py `group_by_keys` */
  function GroupByKeys(s: seq<Record>, keys: seq<string>): (runs: seq<seq<Record>>)
    requires AllHaveKeys(s, keys)
    ensures forall i | 0 <= i < |runs| :: |runs[i]| > 0
    ensures forall i, j | 0 <= i < |runs| && 0 <= j < |runs[i]| :: runs[i][j] in s
    ensures |s| > 0 ==> |runs| > 0 && runs[0][0] == s[0]
    decreases |s|
  {
    if |s| == 0 then []
    else
      var rest := GroupByKeys(s[1..], keys);
      if |rest| > 0 && Project(s[0], keys) == Project(rest[0][0], keys) then
        [[s[0]] + rest[0]] + rest[1..]
      else
        [[s[0]]] + rest
  }

  /** Concatenating the runs in order gives back the input: nothing lost, nothing repeated. */
  lemma {:induction false} GroupsConcatenate(s: seq<Record>, keys: seq<string>)
    requires AllHaveKeys(s, keys)
    ensures Flatten(GroupByKeys(s, keys)) == s
    decreases |s|
  {
    if |s| > 0 {
      var rest := GroupByKeys(s[1..], keys);
      GroupsConcatenate(s[1..], keys);
      if |rest| > 0 && Project(s[0], keys) == Project(rest[0][0], keys) {
        FlattenMerge(s[0], rest);
      } else {
        FlattenCons([s[0]], rest);
      }
      assert s == [s[0]] + s[1..];
    }
  }

  /** All records of a run have the projection of the run's first record. */
  lemma {:induction false} GroupsUniform(s: seq<Record>, keys: seq<string>)
    requires AllHaveKeys(s, keys)
    ensures forall i, j | 0 <= i < |GroupByKeys(s, keys)| && 0 <= j < |GroupByKeys(s, keys)[i]| ::
      Project(GroupByKeys(s, keys)[i][j], keys) == Project(GroupByKeys(s, keys)[i][0], keys)
    decreases |s|
  {
    if |s| > 0 {
      var rest := GroupByKeys(s[1..], keys);
      GroupsUniform(s[1..], keys);
      var runs := GroupByKeys(s, keys);
      if |rest| > 0 && Project(s[0], keys) == Project(rest[0][0], keys) {
        forall i, j | 0 <= i < |runs| && 0 <= j < |runs[i]|
          ensures Project(runs[i][j], keys) == Project(runs[i][0], keys)
        {
          if i == 0 {
            if j > 0 {
              assert runs[0][j] == rest[0][j - 1];
            }
          } else {
            assert runs[i] == rest[i];
          }
        }
      } else {
        forall i, j | 0 <= i < |runs| && 0 <= j < |runs[i]|
          ensures Project(runs[i][j], keys) == Project(runs[i][0], keys)
        {
          if i > 0 {
            assert runs[i] == rest[i - 1];
          }
        }
      }
    }
  }

  /** Runs are maximal: neighbouring runs have different projections. */
  lemma {:induction false} GroupsAdjacentDiffer(s: seq<Record>, keys: seq<string>)
    requires AllHaveKeys(s, keys)
    ensures forall i, j | 0 <= i < j < |GroupByKeys(s, keys)| && j == i + 1 ::
      Project(GroupByKeys(s, keys)[i][0], keys) != Project(GroupByKeys(s, keys)[j][0], keys)
    decreases |s|
  {
    if |s| > 0 {
      var rest := GroupByKeys(s[1..], keys);
      GroupsAdjacentDiffer(s[1..], keys);
      var runs := GroupByKeys(s, keys);
      if |rest| > 0 && Project(s[0], keys) == Project(rest[0][0], keys) {
        forall i, j | 0 <= i < j < |runs| && j == i + 1
          ensures Project(runs[i][0], keys) != Project(runs[j][0], keys)
        {
          if i == 0 {
            assert runs[0][0] == s[0] && runs[1] == rest[1];
          } else {
            assert runs[i] == rest[i] && runs[i + 1] == rest[i + 1];
          }
        }
      } else {
        forall i, j | 0 <= i < j < |runs| && j == i + 1
          ensures Project(runs[i][0], keys) != Project(runs[j][0], keys)
        {
          if i > 0 {
            assert runs[i] == rest[i - 1] && runs[i + 1] == rest[i];
          }
        }
      }
    }
  }

  /** Each run of a sorted list is itself sorted. */
  lemma {:induction false} GroupsSorted(s: seq<Record>, keys: seq<string>, le: (Record, Record) -> bool)
    requires AllHaveKeys(s, keys) && Sorting.Sorted(s, le)
    ensures forall i | 0 <= i < |GroupByKeys(s, keys)| :: Sorting.Sorted(GroupByKeys(s, keys)[i], le)
    decreases |s|
  {
    if |s| > 0 {
      var rest := GroupByKeys(s[1..], keys);
      assert Sorting.Sorted(s[1..], le);
      GroupsSorted(s[1..], keys, le);
      if |rest| > 0 && Project(s[0], keys) == Project(rest[0][0], keys) {
        forall z | z in rest[0]
          ensures le(s[0], z)
        {
          var k :| 0 <= k < |s[1..]| && s[1..][k] == z;
          assert s[k + 1] == z;
        }
        Sorting.ConsSorted(s[0], rest[0], le);
        Sorting.MergeKeepsSorted(s[0], rest, le);
      } else {
        Sorting.PushKeepsSorted(s[0], rest, le);
      }
    }
  }

  /** Sorted over `p + q` implies sorted over the leading keys `p`. */
  lemma {:induction false} SortedPrefix(s: seq<Record>, p: seq<string>, q: seq<string>)
    requires Sorting.Sorted(s, RecordLe(p + q))
    ensures Sorting.Sorted(s, RecordLe(p))
  {
    forall i, j | 0 <= i < j < |s|
      ensures RecordLe(p)(s[i], s[j])
    {
      assert RecordLe(p + q)(s[i], s[j]);
      CompareAppend(p, q, s[i], s[j]);
    }
  }

  /** A sorted list whose records agree on `p` is sorted by the remaining keys `q`. */
  lemma {:induction false} SortedSuffix(s: seq<Record>, p: seq<string>, q: seq<string>)
    requires Sorting.Sorted(s, RecordLe(p + q))
    requires forall a, b | a in s && b in s :: Agree(p, a, b)
    ensures Sorting.Sorted(s, RecordLe(q))
  {
    forall i, j | 0 <= i < j < |s|
      ensures RecordLe(q)(s[i], s[j])
    {
      assert RecordLe(p + q)(s[i], s[j]);
      CompareAppend(p, q, s[i], s[j]);
      CompareZeroIffAgree(p, s[i], s[j]);
    }
  }

  /**
   * Grouping a list sorted by the grouping keys yields runs whose first
   * records are strictly ascending: no projection occurs in two runs.
   */
  lemma {:induction false} GroupsOfSortedAscend(s: seq<Record>, keys: seq<string>)
    requires AllHaveKeys(s, keys) && Sorting.Sorted(s, RecordLe(keys))
    ensures forall i, j | 0 <= i < j < |GroupByKeys(s, keys)| ::
      Compare(keys, GroupByKeys(s, keys)[i][0], GroupByKeys(s, keys)[j][0]) == -1
    decreases |s|
  {
    if |s| > 1 {
      var t := s[1..];
      var rest := GroupByKeys(t, keys);
      assert Sorting.Sorted(t, RecordLe(keys));
      GroupsOfSortedAscend(t, keys);
      var runs := GroupByKeys(s, keys);
      assert rest[0][0] == s[1];
      assert RecordLe(keys)(s[0], s[1]);
      var tail := runs[1..];
      LaterHeadsAbove(s, keys);
      FirstHeadBelow(s, keys);
      forall i, j | 0 <= i < j < |runs|
        ensures Compare(keys, runs[i][0], runs[j][0]) == -1
      {
        if i > 0 {
          assert runs[i] == tail[i - 1] && runs[j] == tail[j - 1];
          if Project(s[0], keys) == Project(s[1], keys) {
            assert tail == rest[1..];
            assert tail[i - 1] == rest[i] && tail[j - 1] == rest[j];
          } else {
            assert tail == rest;
          }
        }
      }
    }
  }

  /** The run that `s[0]` opens sits strictly below every later run. */
  lemma {:induction false} FirstHeadBelow(s: seq<Record>, keys: seq<string>)
    requires |s| > 1 && AllHaveKeys(s, keys) && Compare(keys, s[0], s[1]) <= 0
    requires forall j | 0 < j < |GroupByKeys(s[1..], keys)| :: Compare(keys, s[0], GroupByKeys(s[1..], keys)[j][0]) == -1
    ensures forall j | 0 < j < |GroupByKeys(s, keys)| :: Compare(keys, s[0], GroupByKeys(s, keys)[j][0]) == -1
  {
    var rest := GroupByKeys(s[1..], keys);
    var runs := GroupByKeys(s, keys);
    var a, b := s[0], s[1];
    assert rest[0][0] == b;
    if Project(a, keys) == Project(b, keys) {
      assert runs == [[a] + rest[0]] + rest[1..];
      assert forall j | 0 < j < |runs| :: runs[j] == rest[j];
    } else {
      assert HasKeys(a, keys) && HasKeys(b, keys);
      StrictlyBelow(keys, a, b);
      assert runs == [[a]] + rest;
    }
  }

  /** Two records in order with different projections are strictly in order. */
  lemma {:induction false} StrictlyBelow(keys: seq<string>, a: Record, b: Record)
    requires HasKeys(a, keys) && HasKeys(b, keys)
    requires Compare(keys, a, b) <= 0 && Project(a, keys) != Project(b, keys)
    ensures Compare(keys, a, b) == -1
  {
    ProjectAgree(a, b, keys);
    CompareZeroIffAgree(keys, a, b);
    CompareRange(keys, a, b);
  }

  /** In a sorted list, `s[0]` sits strictly below the heads of all runs of `s[1..]` after the first. */
  lemma {:induction false} LaterHeadsAbove(s: seq<Record>, keys: seq<string>)
    requires |s| > 1 && AllHaveKeys(s, keys) && Sorting.Sorted(s, RecordLe(keys))
    requires forall i, j | 0 <= i < j < |GroupByKeys(s[1..], keys)| ::
      Compare(keys, GroupByKeys(s[1..], keys)[i][0], GroupByKeys(s[1..], keys)[j][0]) == -1
    ensures forall j | 0 < j < |GroupByKeys(s[1..], keys)| :: Compare(keys, s[0], GroupByKeys(s[1..], keys)[j][0]) == -1
  {
    var rest := GroupByKeys(s[1..], keys);
    var a, b := s[0], s[1];
    assert rest[0][0] == b;
    assert HasKeys(a, keys) && HasKeys(b, keys);
    assert Compare(keys, a, b) <= 0 by {
      assert RecordLe(keys)(s[0], s[1]);
    }
    forall j | 0 < j < |rest|
      ensures Compare(keys, a, rest[j][0]) == -1
    {
      var k :| 0 <= k < |s[1..]| && s[1..][k] == rest[j][0];
      assert s[k + 1] == rest[j][0];
      BelowStep(keys, a, b, rest[j][0]);
    }
  }

  lemma {:induction false} BelowStep(keys: seq<string>, a: Record, b: Record, c: Record)
    requires HasKeys(a, keys) && HasKeys(b, keys) && HasKeys(c, keys)
    requires Compare(keys, a, b) <= 0 && Compare(keys, b, c) == -1
    ensures Compare(keys, a, c) == -1
  {
    CompareTransitive(keys, a, b, c);
    CompareRange(keys, a, c);
  }

  /** The runs consist of records of the input, so they have every key the input has. */
  lemma {:induction false} RunsHaveKeys(s: seq<Record>, keys: seq<string>, needed: seq<string>)
    requires AllHaveKeys(s, keys) && AllHaveKeys(s, needed)
    ensures forall i | 0 <= i < |GroupByKeys(s, keys)| :: AllHaveKeys(GroupByKeys(s, keys)[i], needed)
  {
    var runs := GroupByKeys(s, keys);
    forall i, r | 0 <= i < |runs| && r in runs[i]
      ensures HasKeys(r, needed)
    {
      var j :| 0 <= j < |runs[i]| && runs[i][j] == r;
      assert r in s;
    }
  }
}
