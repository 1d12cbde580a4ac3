/**
 * plot_data.py `aggregate_measurements`: the replicates of one benchmark
 * configuration are combined into their last record, whose measure becomes the
 * least measured value; the replicate count must match the record's multiplier.
 */
module Aggregation {
  import opened Values
  import opened Records
  import opened Outcomes

  /** Python's `min` over a non-empty list: a later element replaces the current one only when it is smaller. */
  function MinValue(vs: seq<Value>): (m: Value)
    requires |vs| > 0
    ensures m in vs
    ensures forall v | v in vs :: !Less(v, m)
  {
    if |vs| == 1 then
      LessIrreflexive(vs[0]);
      vs[0]
    else
      var init := vs[..|vs| - 1];
      var m := MinValue(init);
      var last := vs[|vs| - 1];
      assert vs == init + [last];
      MinStep(init, m, last);
      if Less(last, m) then last else m
  }

  /** Extending a list by `x` keeps the smaller of `x` and the old least element as the least one. */
  lemma {:induction false} MinStep(init: seq<Value>, m: Value, x: Value)
    requires forall v | v in init :: !Less(v, m)
    ensures Less(x, m) ==> forall v | v in init + [x] :: !Less(v, x)
    ensures !Less(x, m) ==> forall v | v in init + [x] :: !Less(v, m)
  {
    LessIrreflexive(x);
    forall v | v in init && Less(x, m)
      ensures !Less(v, x)
    {
      if Less(v, x) {
        LessTransitive(v, x, m);
      }
    }
  }

  /** The minimum depends only on which values occur, not on their order. */
  lemma {:induction false} MinValuePermutation(a: seq<Value>, b: seq<Value>)
    requires |a| > 0 && multiset(a) == multiset(b)
    ensures |b| > 0 && MinValue(a) == MinValue(b)
  {
    assert a[0] in multiset(b);
    var ma := MinValue(a);
    var mb := MinValue(b);
    assert ma in multiset(a) && mb in multiset(b);
    if ma != mb {
      LessTotal(ma, mb);
    }
  }

  /** `[benchmark[measure] for benchmark in benchmarks]` */
  function MeasureValues(rs: seq<Record>, measure: string): (vs: seq<Value>)
    requires forall r | r in rs :: measure in r
    ensures |vs| == |rs| && forall k | 0 <= k < |rs| :: vs[k] == rs[k][measure]
  {
    seq(|rs|, k requires 0 <= k < |rs| => rs[k][measure])
  }

  /** What `benchmark['multiplier']` needs: the key, in the last record or as the measure just written. */
  predicate CanAggregate(rs: seq<Record>, measure: string)
  {
    |rs| > 0 && (forall r | r in rs :: measure in r) && ("multiplier" in rs[|rs| - 1] || measure == "multiplier")
  }

  /**
   * The aggregate of one configuration's replicates.  On success it is the
   * last record with only the measure changed, to the least measured value;
   * the program exits exactly when the replicate count differs from the
   * multiplier of that updated record.
   */
  function AggregateSpec(rs: seq<Record>, measure: string): (r: Result<Record>)
    requires CanAggregate(rs, measure)
    ensures r.Ok? ==> r.value.Keys == rs[|rs| - 1].Keys
    ensures r.Ok? ==> forall k | k in r.value && k != measure :: r.value[k] == rs[|rs| - 1][k]
    ensures r.Ok? ==> exists i | 0 <= i < |rs| :: r.value[measure] == rs[i][measure]
    ensures r.Ok? ==> forall x | x in rs :: !Less(x[measure], r.value[measure])
    ensures r.Ok? <==> EqualsInt(rs[|rs| - 1][measure := MinValue(MeasureValues(rs, measure))]["multiplier"], |rs|)
    ensures r.Exit? ==> r.error.MultiplierMismatch? && r.error.got == |rs|
  {
    var vs := MeasureValues(rs, measure);
    var m := MinValue(vs);
    var updated := rs[|rs| - 1][measure := m];
    assert forall x | x in rs :: x[measure] in vs by {
      forall x | x in rs
        ensures x[measure] in vs
      {
        var i :| 0 <= i < |rs| && rs[i] == x;
        assert vs[i] == x[measure];
      }
    }
    if EqualsInt(updated["multiplier"], |rs|) then Ok(updated)
    else Exit(MultiplierMismatch(updated["multiplier"], |rs|))
  }

  /** When the measure is not the multiplier, failure is decided by the last record's own multiplier. */
  lemma {:induction false} AggregateFailsIff(rs: seq<Record>, measure: string)
    requires CanAggregate(rs, measure) && measure != "multiplier"
    ensures AggregateSpec(rs, measure).Exit? <==> !EqualsInt(rs[|rs| - 1]["multiplier"], |rs|)
  {
  }

  /** Replicates in another order with the same last record aggregate to the same result. */
  lemma {:induction false} AggregatePermutation(rs: seq<Record>, ts: seq<Record>, measure: string)
    requires CanAggregate(rs, measure) && CanAggregate(ts, measure)
    requires |rs| == |ts| && rs[|rs| - 1] == ts[|ts| - 1]
    requires multiset(MeasureValues(rs, measure)) == multiset(MeasureValues(ts, measure))
    ensures AggregateSpec(rs, measure) == AggregateSpec(ts, measure)
  {
    MinValuePermutation(MeasureValues(rs, measure), MeasureValues(ts, measure));
  }

  /** A key on which all replicates agree keeps that value in the aggregate, even when it is the measure. */
  lemma {:induction false} AggregateKeepsAgreement(rs: seq<Record>, measure: string, key: string)
    requires CanAggregate(rs, measure) && AggregateSpec(rs, measure).Ok?
    requires forall r | r in rs :: key in r
    requires forall r | r in rs :: r[key] == rs[0][key]
    ensures key in AggregateSpec(rs, measure).value
    ensures AggregateSpec(rs, measure).value[key] == rs[0][key]
  {
    assert rs[|rs| - 1] in rs;
    var i :| 0 <= i < |rs| && AggregateSpec(rs, measure).value[measure] == rs[i][measure];
    assert rs[i] in rs;
  }

  /** plot_data.py `aggregate_measurements`: collects the measured values in a loop, then updates the last record. */
  method AggregateMeasurements(benchmarks: seq<Record>, measure: string) returns (res: Result<Record>)
    requires CanAggregate(benchmarks, measure)
    ensures res == AggregateSpec(benchmarks, measure)
  {
    var values: seq<Value> := [];
    var benchmark := benchmarks[0];
    for i := 0 to |benchmarks|
      invariant values == MeasureValues(benchmarks[..i], measure)
      invariant i > 0 ==> benchmark == benchmarks[i - 1]
    {
      values := values + [benchmarks[i][measure]];
      benchmark := benchmarks[i];
    }
    assert benchmarks[..|benchmarks|] == benchmarks;
    benchmark := benchmark[measure := MinValue(values)];
    if !EqualsInt(benchmark["multiplier"], |values|) {
      return Exit(MultiplierMismatch(benchmark["multiplier"], |values|));
    }
    return Ok(benchmark);
  }
}
