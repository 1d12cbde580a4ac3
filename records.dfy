/**
 * Benchmark records (Python dicts from field name to value) and the
 * key-list comparator `comp_function` that `extract_data` sorts them with.
 */
module Records {
  import opened Values
  import Sorting

  type Record = map<string, Value>

  /** `d.get(k)`: the value of `k`, or None when the key is missing. */
  function GetField(d: Record, k: string): (v: Value)
    ensures k in d ==> v == d[k]
    ensures k !in d ==> v == None
  {
    if k in d then d[k] else None
  }

  /** Each key of `keys` is in both records or in neither; otherwise `comp_function` raises KeyError. */
  predicate SamePresence(keys: seq<string>, a: Record, b: Record)
  {
    forall k | k in keys :: k in a <==> k in b
  }

  /** All records of a list have the same keys among `keys`. */
  predicate UniformPresence(keys: seq<string>, rs: seq<Record>)
  {
    forall a, b | a in rs && b in rs :: SamePresence(keys, a, b)
  }

  /** The records hold the same value at every key of `keys` that they have. */
  predicate Agree(keys: seq<string>, a: Record, b: Record)
  {
    forall k | k in keys && k in a && k in b :: a[k] == b[k]
  }

  /**
   * The three-way lexicographic comparison of `comp_function`: keys that
   * neither record has are skipped, the first key whose values differ decides.
   */
  function Compare(keys: seq<string>, a: Record, b: Record): int
  {
    if |keys| == 0 then 0
    else if keys[0] in a && keys[0] in b then
      if Less(a[keys[0]], b[keys[0]]) then -1
      else if Less(b[keys[0]], a[keys[0]]) then 1
      else Compare(keys[1..], a, b)
    else Compare(keys[1..], a, b)
  }

  /** plot_data.py `comp_function`: a loop over the keys with an early return. */
  method CompFunction(keys: seq<string>, left: Record, right: Record) returns (c: int)
    requires SamePresence(keys, left, right)
    ensures c == Compare(keys, left, right)
  {
    var i := 0;
    while i < |keys|
      invariant 0 <= i <= |keys|
      invariant Compare(keys, left, right) == Compare(keys[i..], left, right)
    {
      assert keys[i..][1..] == keys[i + 1..];
      var key := keys[i];
      if key !in left && key !in right {
        i := i + 1;
        continue;
      }
      var l, r := left[key], right[key];
      if Less(l, r) {
        return -1;
      }
      if Less(r, l) {
        return 1;
      }
      i := i + 1;
    }
    return 0;
  }

  /** The comparator only ever answers -1, 0 or 1. */
  lemma {:induction false} CompareRange(keys: seq<string>, a: Record, b: Record)
    ensures Compare(keys, a, b) in {-1, 0, 1}
  {
    if |keys| > 0 {
      CompareRange(keys[1..], a, b);
    }
  }

  /** A record compares equal to itself. */
  lemma {:induction false} CompareSelf(keys: seq<string>, a: Record)
    ensures Compare(keys, a, a) == 0
  {
    if |keys| > 0 {
      if keys[0] in a {
        LessIrreflexive(a[keys[0]]);
      }
      CompareSelf(keys[1..], a);
    }
  }

  /** Swapping the arguments negates the result. */
  lemma {:induction false} CompareAntisymmetric(keys: seq<string>, a: Record, b: Record)
    ensures Compare(keys, b, a) == -Compare(keys, a, b)
  {
    if |keys| > 0 {
      var k := keys[0];
      if k in a && k in b && Less(a[k], b[k]) {
        LessAsymmetric(a[k], b[k]);
      } else {
        CompareAntisymmetric(keys[1..], a, b);
      }
    }
  }

  /** The result is 0 exactly when the records agree on every key they have. */
  lemma {:induction false} CompareZeroIffAgree(keys: seq<string>, a: Record, b: Record)
    ensures Compare(keys, a, b) == 0 <==> Agree(keys, a, b)
  {
    if |keys| > 0 {
      var k := keys[0];
      CompareZeroIffAgree(keys[1..], a, b);
      if k in a && k in b && a[k] != b[k] {
        LessTotal(a[k], b[k]);
        assert !Agree(keys, a, b);
      } else {
        if k in a && k in b {
          LessIrreflexive(a[k]);
        }
        assert Agree(keys, a, b) <==> Agree(keys[1..], a, b) by {
          forall k' | k' in keys
            ensures k' == k || k' in keys[1..]
          {
          }
        }
      }
    }
  }

  /** When the records differ, the first key (in list order) whose values differ decides the order. */
  lemma {:induction false} CompareDecidedByFirstDifference(keys: seq<string>, a: Record, b: Record, i: nat)
    requires i < |keys| && keys[i] in a && keys[i] in b && a[keys[i]] != b[keys[i]]
    requires forall j | 0 <= j < i && keys[j] in a && keys[j] in b :: a[keys[j]] == b[keys[j]]
    ensures Compare(keys, a, b) == if Less(a[keys[i]], b[keys[i]]) then -1 else 1
  {
    var k := keys[0];
    if i == 0 {
      LessTotal(a[k], b[k]);
      if Less(a[k], b[k]) {
        LessAsymmetric(a[k], b[k]);
      }
    } else {
      if k in a && k in b {
        LessIrreflexive(a[k]);
      }
      CompareDecidedByFirstDifference(keys[1..], a, b, i - 1);
    }
  }

  /** Comparing over `p + q` compares over `p` first and falls back to `q` on a tie. */
  lemma {:induction false} CompareAppend(p: seq<string>, q: seq<string>, a: Record, b: Record)
    ensures Compare(p + q, a, b) == if Compare(p, a, b) != 0 then Compare(p, a, b) else Compare(q, a, b)
  {
    if |p| == 0 {
      assert p + q == q;
    } else {
      assert (p + q)[0] == p[0] && (p + q)[1..] == p[1..] + q;
      CompareAppend(p[1..], q, a, b);
    }
  }

  /** The comparator is a total preorder on records with the same keys: it is transitive. */
  lemma {:induction false} CompareTransitive(keys: seq<string>, a: Record, b: Record, c: Record)
    requires SamePresence(keys, a, b) && SamePresence(keys, b, c)
    requires Compare(keys, a, b) <= 0 && Compare(keys, b, c) <= 0
    ensures Compare(keys, a, c) <= 0
    ensures Compare(keys, a, b) < 0 || Compare(keys, b, c) < 0 ==> Compare(keys, a, c) < 0
  {
    if |keys| > 0 {
      var k := keys[0];
      assert SamePresence(keys[1..], a, b) && SamePresence(keys[1..], b, c);
      if k in a {
        var x, y, z := a[k], b[k], c[k];
        if Less(x, y) {
          LessAsymmetric(x, y);
          if Less(y, z) {
            LessTransitive(x, y, z);
          } else if y != z {
            LessTotal(y, z);
          }
        } else if Less(y, x) {
          LessAsymmetric(y, x);
        } else {
          if x != y {
            LessTotal(x, y);
          }
          if Less(y, z) {
          } else if Less(z, y) {
            LessAsymmetric(z, y);
          } else {
            CompareTransitive(keys[1..], a, b, c);
          }
        }
      } else {
        CompareTransitive(keys[1..], a, b, c);
      }
    }
  }

  /** `cmp(a, b) <= 0`: `a` may stay in front of `b` in a stable sort. */
  function RecordLe(keys: seq<string>): (Record, Record) -> bool
  {
    (a: Record, b: Record) => Compare(keys, a, b) <= 0
  }

  /** `sorted(records, cmp=functools.partial(comp_function, keys))` */
  function SortRecords(keys: seq<string>, rs: seq<Record>): seq<Record>
  {
    Sorting.Sort(rs, RecordLe(keys))
  }

  /** Sorting records with the same key presence gives a sorted permutation of them. */
  lemma {:induction false} SortRecordsCorrect(keys: seq<string>, rs: seq<Record>)
    requires UniformPresence(keys, rs)
    ensures Sorting.Sorted(SortRecords(keys, rs), RecordLe(keys))
    ensures multiset(SortRecords(keys, rs)) == multiset(rs)
  {
    var le := RecordLe(keys);
    forall x, y | x in rs && y in rs
      ensures le(x, y) || le(y, x)
    {
      CompareAntisymmetric(keys, x, y);
    }
    forall x, y, z | x in rs && y in rs && z in rs && le(x, y) && le(y, z)
      ensures le(x, z)
    {
      CompareTransitive(keys, x, y, z);
    }
    Sorting.SortSorted(rs, le);
    Sorting.SortPermutes(rs, le);
  }
}
