/**
 * plot_data.py `extract_data`: classifies the record keys, sorts the records,
 * groups them three levels deep (compatible sets of equal controlled keys,
 * then plot groups, then one run per variable value), aggregates each run,
 * and builds the ordered dictionaries group value -> variable value -> cell.
 */
module Extraction {
  import opened Values
  import opened Strings
  import opened Seqs
  import opened Outcomes
  import opened Records
  import opened Grouping
  import opened Aggregation
  import opened OrderedDicts
  import Sorting

  // ---------------------------------------------------------------------
  // Key classification (plot_data.py:151-168)

  /** Metadata that is never analysed. */
  const BaseInfo: seq<string> := ["no", "from", "to", "lineno", "start", "end"]

  /**
   * `re.match('parameter_type_.+count', v)`: the literal prefix, at least one
   * character other than a newline, then `count`; anchored at the start only.
   */
  predicate MatchesParameterTypeCount(v: string)
  {
    StartsWith(v, "parameter_type_") && exists p | 16 <= p <= |v| - 5 :: CountAfterAny(v, p)
  }

  /** `v[15..p]` holds no newline and `count` starts at `p`. */
  predicate CountAfterAny(v: string, p: nat)
  {
    15 <= p <= |v| - 5 && v[p..p + 5] == "count" && forall q | 15 <= q < p :: v[q] != '\n'
  }

  /** The `info` list of `extract_data`. */
  function InfoKeys(first: Record, variable: string): (info: seq<string>)
    ensures |info| >= |BaseInfo| && info[..|BaseInfo|] == BaseInfo
    ensures "class" in info <==> "class" in first
    ensures "description" in info <==> "description" in first
    ensures "parameter_count" in info <==> MatchesParameterTypeCount(variable)
    ensures "id" in info <==> variable != "id"
    ensures forall k | k in info :: k in BaseInfo || k in ["class", "description", "parameter_count", "id"]
  {
    InfoOptional(first, variable);
    InfoClass(first, variable);
    InfoDescription(first, variable);
    InfoParameterCount(first, variable);
    InfoId(first, variable);
    BaseInfo + InfoExtra(first, variable)
  }

  /** The optional part of the `info` list, in the order the keys are appended. */
  function InfoExtra(first: Record, variable: string): seq<string>
  {
    (if "class" in first then ["class"] else [])
    + (if "description" in first then ["description"] else [])
    + (if MatchesParameterTypeCount(variable) then ["parameter_count"] else [])
    + (if variable != "id" then ["id"] else [])
  }

  /** The optional keys are only the four that `extract_data` may append. */
  lemma InfoOptional(first: Record, variable: string)
    ensures forall k | k in InfoExtra(first, variable) :: k in ["class", "description", "parameter_count", "id"]
  {
  }

  /** `class` is listed exactly when the first record has it. */
  lemma InfoClass(first: Record, variable: string)
    ensures "class" in BaseInfo + InfoExtra(first, variable) <==> "class" in first
  {
  }

  /** `description` is listed exactly when the first record has it. */
  lemma InfoDescription(first: Record, variable: string)
    ensures "description" in BaseInfo + InfoExtra(first, variable) <==> "description" in first
  {
  }

  /** `parameter_count` is listed exactly when the variable matches `parameter_type_.+count`. */
  lemma InfoParameterCount(first: Record, variable: string)
    ensures "parameter_count" in BaseInfo + InfoExtra(first, variable) <==> MatchesParameterTypeCount(variable)
  {
  }

  /** `id` is listed exactly when it is not the variable. */
  lemma InfoId(first: Record, variable: string)
    ensures "id" in BaseInfo + InfoExtra(first, variable) <==> variable != "id"
  {
  }

  /** The roles keys play in one extraction; `controlled` lists the controlled keys in set-iteration order. */
  datatype Roles = Roles(group: string, variable: string, measure: string, controlled: seq<string>, info: seq<string>)

  /** `sort_last = [group, variable, measure] + info` */
  function SortLast(ro: Roles): seq<string>
  {
    [ro.group, ro.variable, ro.measure] + ro.info
  }

  /** `sorted_keys = list(controlled_variables) + sort_last` */
  function SortedKeys(ro: Roles): seq<string>
  {
    ro.controlled + SortLast(ro)
  }

  /** Every key the extraction reads from a record. */
  function Needed(ro: Roles): (keys: seq<string>)
    ensures ro.group in keys && ro.variable in keys && ro.measure in keys
    ensures ro.measure != "multiplier" ==> "multiplier" in keys
    ensures forall k | k in ro.controlled :: k in keys
    ensures forall k | k in ro.info :: k in keys
  {
    SortedKeys(ro) + (if ro.measure == "multiplier" then [] else ["multiplier"])
  }

  /** `list(all_keys - set(sort_last))`: each such key once, in some order. */
  predicate EnumeratesControlled(order: seq<string>, first: Record, sortLast: seq<string>)
  {
    Distinct(order) &&
    (forall k | k in order :: k in first && k !in sortLast) &&
    (forall k | k in first && k !in sortLast :: k in order)
  }

  function MakeRoles(first: Record, group: string, variable: string, measure: string, order: seq<string>): Roles
  {
    Roles(group, variable, measure, order, InfoKeys(first, variable))
  }

  /**
   * What `extract_data` relies on: a first record, the same keys in every
   * record, and every key it reads present (else it raises).
   */
  predicate ExtractRequires(benchmarks: seq<Record>, group: string, variable: string, measure: string, order: seq<string>)
  {
    |benchmarks| > 0 &&
    (forall r | r in benchmarks :: r.Keys == benchmarks[0].Keys) &&
    var ro := MakeRoles(benchmarks[0], group, variable, measure, order);
    EnumeratesControlled(order, benchmarks[0], SortLast(ro)) &&
    HasKeys(benchmarks[0], Needed(ro))
  }

  /** The controlled keys and the keys of `sort_last` are disjoint and together make up the record keys. */
  lemma {:induction false} ControlledPartition(benchmarks: seq<Record>, group: string, variable: string, measure: string, order: seq<string>)
    requires ExtractRequires(benchmarks, group, variable, measure, order)
    ensures var ro := MakeRoles(benchmarks[0], group, variable, measure, order);
      (forall k | k in order :: k !in SortLast(ro)) &&
      (forall k | k in benchmarks[0] :: k in order || k in SortLast(ro)) &&
      (forall k | k in SortedKeys(ro) :: k in benchmarks[0])
  {
  }

  // ---------------------------------------------------------------------
  // Cells and the nested output

  /**
   * One aggregated cell: the dict literal of plot_data.py:197-206.  Its keys are
   * `fixed`, `info`, `variable`, `measure`, `group` and then the names of the
   * variable, measure and group; a later key of the literal overrides an earlier one.
   */
  datatype AggCell = AggCell(
    fixed: map<string, Value>,
    info: map<string, Value>,
    variableName: string,
    measureName: string,
    groupName: string,
    variableValue: Value,
    measureValue: Value,
    groupValue: Value)

  /** A value in a cell: a scalar, one of the two nested dicts, or no entry. */
  datatype Entry = Absent | Scalar(v: Value) | Dict(d: map<string, Value>)

  /** `cell.get(key)`, with the dict literal's later-key-wins rule. */
  function Lookup(c: AggCell, key: string): (e: Entry)
    ensures key == c.groupName ==> e == Scalar(c.groupValue)
    ensures key != c.groupName && key == c.measureName ==> e == Scalar(c.measureValue)
    ensures key !in {c.groupName, c.measureName} && key == c.variableName ==> e == Scalar(c.variableValue)
    ensures key !in {c.groupName, c.measureName, c.variableName, "fixed", "info", "variable", "measure", "group"} ==> e == Absent
  {
    if key == c.groupName then Scalar(c.groupValue)
    else if key == c.measureName then Scalar(c.measureValue)
    else if key == c.variableName then Scalar(c.variableValue)
    else if key == "group" then Scalar(Str(c.groupName))
    else if key == "measure" then Scalar(Str(c.measureName))
    else if key == "variable" then Scalar(Str(c.variableName))
    else if key == "info" then Dict(c.info)
    else if key == "fixed" then Dict(c.fixed)
    else Absent
  }

  /** An ordered dict from variable value to cell. */
  type Series = seq<(Value, AggCell)>

  /** An ordered dict from group value to series. */
  type CompatibleSet = seq<(Value, Series)>

  function MakeCell(b: Record, ro: Roles): (c: AggCell)
    requires HasKeys(b, Needed(ro))
  {
    AggCell(
      map k | k in ro.controlled :: b[k],
      map k | k in ro.info :: b[k],
      ro.variable, ro.measure, ro.group,
      b[ro.variable], b[ro.measure], b[ro.group])
  }

  predicate Ready(rs: seq<Record>, ro: Roles)
  {
    AllHaveKeys(rs, Needed(ro))
  }

  predicate RunsReady(plot: seq<seq<Record>>, ro: Roles)
  {
    forall k | 0 <= k < |plot| :: |plot[k]| > 0 && Ready(plot[k], ro)
  }

  predicate PlotsReady(compatible: seq<seq<seq<Record>>>, ro: Roles)
  {
    forall j | 0 <= j < |compatible| :: |compatible[j]| > 0 && RunsReady(compatible[j], ro)
  }

  predicate SetsReady(nested: seq<seq<seq<seq<Record>>>>, ro: Roles)
  {
    forall i | 0 <= i < |nested| :: |nested[i]| > 0 && PlotsReady(nested[i], ro)
  }

  // ---------------------------------------------------------------------
  // Stage 1: three levels of grouping (plot_data.py:179-183)

  function Level3(plot: seq<Record>, ro: Roles): (runs: seq<seq<Record>>)
    requires Ready(plot, ro)
    ensures |plot| > 0 ==> |runs| > 0
    ensures RunsReady(runs, ro)
  {
    WeakenKeys(plot, Needed(ro), [ro.variable]);
    RunsHaveKeys(plot, [ro.variable], Needed(ro));
    GroupByKeys(plot, [ro.variable])
  }

  /** `group_by_keys(x, [group])`: the plot groups of one compatible set. */
  function PlotGroups(compatible: seq<Record>, ro: Roles): (runs: seq<seq<Record>>)
    requires Ready(compatible, ro)
    ensures AllHaveKeys(compatible, [ro.group]) && runs == GroupByKeys(compatible, [ro.group])
    ensures |compatible| > 0 ==> |runs| > 0
    ensures forall j | 0 <= j < |runs| :: |runs[j]| > 0 && Ready(runs[j], ro)
    ensures forall j, r | 0 <= j < |runs| && r in runs[j] :: r in compatible
  {
    WeakenKeys(compatible, Needed(ro), [ro.group]);
    RunsHaveKeys(compatible, [ro.group], Needed(ro));
    GroupByKeys(compatible, [ro.group])
  }

  function Level2(compatible: seq<Record>, ro: Roles): (plots: seq<seq<seq<Record>>>)
    requires Ready(compatible, ro)
    ensures |compatible| > 0 ==> |plots| > 0
    ensures PlotsReady(plots, ro)
  {
    var runs := PlotGroups(compatible, ro);
    seq(|runs|, j requires 0 <= j < |runs| => Level3(runs[j], ro))
  }

  function Nest(sorted: seq<Record>, ro: Roles): (nested: seq<seq<seq<seq<Record>>>>)
    requires Ready(sorted, ro)
    ensures SetsReady(nested, ro)
  {
    WeakenKeys(sorted, Needed(ro), ro.controlled);
    RunsHaveKeys(sorted, ro.controlled, Needed(ro));
    var runs := GroupByKeys(sorted, ro.controlled);
    seq(|runs|, i requires 0 <= i < |runs| => Level2(runs[i], ro))
  }

  // ---------------------------------------------------------------------
  // Stage 2: aggregation and the ordered dicts (plot_data.py:189-211)

  lemma {:induction false} ReadyCanAggregate(run: seq<Record>, ro: Roles)
    requires |run| > 0 && Ready(run, ro)
    ensures CanAggregate(run, ro.measure)
  {
    assert run[|run| - 1] in run;
  }

  /** The aggregation steps of one plot group, one per variable value. */
  function AggregateSteps(plot: seq<seq<Record>>, ro: Roles): (steps: seq<Result<Record>>)
    requires RunsReady(plot, ro)
    ensures |steps| == |plot|
    ensures forall k | 0 <= k < |plot| :: CanAggregate(plot[k], ro.measure) && steps[k] == AggregateSpec(plot[k], ro.measure)
  {
    forall k | 0 <= k < |plot|
      ensures CanAggregate(plot[k], ro.measure)
    {
      ReadyCanAggregate(plot[k], ro);
    }
    seq(|plot|, k requires 0 <= k < |plot| => AggregateSpec(plot[k], ro.measure))
  }

  /** `(benchmark[variable], {...}) for benchmark in plotgroups` */
  function CellPairs(aggs: seq<Record>, ro: Roles): (pairs: Series)
    requires forall k | 0 <= k < |aggs| :: HasKeys(aggs[k], Needed(ro))
    ensures |pairs| == |aggs|
    ensures forall k | 0 <= k < |aggs| :: ro.variable in aggs[k] && pairs[k] == (aggs[k][ro.variable], MakeCell(aggs[k], ro))
  {
    assert forall k | 0 <= k < |aggs| :: ro.variable in aggs[k] by {
      var ks := Needed(ro);
      assert ro.variable in ks;
      forall k | 0 <= k < |aggs|
        ensures ro.variable in aggs[k]
      {
        assert HasKeys(aggs[k], ks);
      }
    }
    seq(|aggs|, k requires 0 <= k < |aggs| => (aggs[k][ro.variable], MakeCell(aggs[k], ro)))
  }

  /** Aggregates each variable run of a plot group, then builds its ordered dict. */
  function SeriesOf(plot: seq<seq<Record>>, ro: Roles): (r: Result<Series>)
    requires RunsReady(plot, ro)
    ensures r.Ok? && |plot| > 0 ==> |r.value| > 0
  {
    var aggs := Sequence(AggregateSteps(plot, ro));
    if aggs.Exit? then Exit(aggs.error)
    else
      assert forall k | 0 <= k < |aggs.value| :: HasKeys(aggs.value[k], Needed(ro)) by {
        forall k | 0 <= k < |aggs.value|
          ensures HasKeys(aggs.value[k], Needed(ro))
        {
          assert plot[k][|plot[k]| - 1] in plot[k];
        }
      }
      Ok(FromPairs(CellPairs(aggs.value, ro)))
  }

  /** `(bms.values()[0][group], bms)`: the group key written last in the cell literal. */
  function GroupPairs(series: seq<Series>): (pairs: CompatibleSet)
    requires forall j | 0 <= j < |series| :: |series[j]| > 0
    ensures |pairs| == |series|
    ensures forall j | 0 <= j < |series| :: pairs[j] == (series[j][0].1.groupValue, series[j])
  {
    seq(|series|, j requires 0 <= j < |series| => (series[j][0].1.groupValue, series[j]))
  }

  /** `key=lambda x: x[0]` in a stable sort: an entry stays in front unless the next key is smaller. */
  function GroupLe(): ((Value, Series), (Value, Series)) -> bool
  {
    (x: (Value, Series), y: (Value, Series)) => !Less(y.0, x.0)
  }

  function SeriesSteps(compatible: seq<seq<seq<Record>>>, ro: Roles): (steps: seq<Result<Series>>)
    requires PlotsReady(compatible, ro)
    ensures |steps| == |compatible|
    ensures forall j | 0 <= j < |compatible| :: steps[j] == SeriesOf(compatible[j], ro)
  {
    seq(|compatible|, j requires 0 <= j < |compatible| => SeriesOf(compatible[j], ro))
  }

  /** One compatible set: its series, keyed by group value in ascending order. */
  function CompatibleOf(compatible: seq<seq<seq<Record>>>, ro: Roles): (r: Result<CompatibleSet>)
    requires PlotsReady(compatible, ro)
    ensures r.Ok? && |compatible| > 0 ==> |r.value| > 0
  {
    var ss := Sequence(SeriesSteps(compatible, ro));
    if ss.Exit? then Exit(ss.error)
    else
      var pairs := GroupPairs(ss.value);
      Sorting.SortElements(pairs, GroupLe());
      Ok(FromPairs(Sorting.Sort(pairs, GroupLe())))
  }

  function CompatibleSteps(nested: seq<seq<seq<seq<Record>>>>, ro: Roles): (steps: seq<Result<CompatibleSet>>)
    requires SetsReady(nested, ro)
    ensures |steps| == |nested|
    ensures forall i | 0 <= i < |nested| :: steps[i] == CompatibleOf(nested[i], ro)
  {
    seq(|nested|, i requires 0 <= i < |nested| => CompatibleOf(nested[i], ro))
  }

  // ---------------------------------------------------------------------
  // Stage 3: the filter (plot_data.py:213-214)

  /** `[x for x in sets if len(x.values()[0]) >= min_series_length]`: only the first series is looked at. */
  function KeepLong(sets: seq<CompatibleSet>, minLength: int): (kept: seq<CompatibleSet>)
    requires forall i | 0 <= i < |sets| :: |sets[i]| > 0
    ensures IsSubsequence(kept, sets)
    ensures forall x: CompatibleSet :: x in kept <==> x in sets && |x[0].1| >= minLength
  {
    if |sets| == 0 then []
    else if |sets[0][0].1| >= minLength then [sets[0]] + KeepLong(sets[1..], minLength)
    else KeepLong(sets[1..], minLength)
  }

  // ---------------------------------------------------------------------
  // The whole extraction

  /** The sorted records are a permutation of the input, so they have the input's keys. */
  function SortedBenchmarks(benchmarks: seq<Record>, ro: Roles): (sorted: seq<Record>)
    requires Ready(benchmarks, ro)
    ensures Ready(sorted, ro)
  {
    Sorting.SortElements(benchmarks, RecordLe(SortedKeys(ro)));
    SortRecords(SortedKeys(ro), benchmarks)
  }

  /** Stages 2 and 3 on the grouped records. */
  function Assemble(nested: seq<seq<seq<seq<Record>>>>, ro: Roles, minSeriesLength: int): Result<seq<CompatibleSet>>
    requires SetsReady(nested, ro)
  {
    var sets := Sequence(CompatibleSteps(nested, ro));
    if sets.Exit? then Exit(sets.error)
    else Ok(KeepLong(sets.value, minSeriesLength))
  }

  lemma {:induction false} FirstKeysEverywhere(benchmarks: seq<Record>, group: string, variable: string, measure: string, order: seq<string>)
    requires ExtractRequires(benchmarks, group, variable, measure, order)
    ensures Ready(benchmarks, MakeRoles(benchmarks[0], group, variable, measure, order))
  {
  }

  function ExtractSpec(benchmarks: seq<Record>, group: string, variable: string, measure: string,
                       minSeriesLength: int, order: seq<string>): Result<seq<CompatibleSet>>
    requires ExtractRequires(benchmarks, group, variable, measure, order)
  {
    var ro := MakeRoles(benchmarks[0], group, variable, measure, order);
    FirstKeysEverywhere(benchmarks, group, variable, measure, order);
    Assemble(Nest(SortedBenchmarks(benchmarks, ro), ro), ro, minSeriesLength)
  }

  // ---------------------------------------------------------------------
  // The loops of `extract_data`

  /** plot_data.py:191-206 for one plot group: aggregate each variable run, then build the ordered dict. */
  method BuildSeries(plotgroups: seq<seq<Record>>, ro: Roles) returns (res: Result<Series>)
    requires RunsReady(plotgroups, ro)
    ensures res == SeriesOf(plotgroups, ro)
  {
    ghost var steps := AggregateSteps(plotgroups, ro);
    var aggregated: seq<Record> := [];
    for k := 0 to |plotgroups|
      invariant Sequence(steps[..k]) == Ok(aggregated)
    {
      var a := AggregateMeasurements(plotgroups[k], ro.measure);
      SequenceStep(steps, k, aggregated);
      if a.Exit? {
        SequenceStopsAtFailure(steps, k + 1);
        return Exit(a.error);
      }
      aggregated := aggregated + [a.value];
    }
    assert steps[..|plotgroups|] == steps;
    forall k | 0 <= k < |aggregated|
      ensures HasKeys(aggregated[k], Needed(ro))
    {
      assert plotgroups[k][|plotgroups[k]| - 1] in plotgroups[k];
    }
    return Ok(FromPairs(CellPairs(aggregated, ro)));
  }

  /** plot_data.py:190-211 for one compatible set: its series, then the ordered dict sorted by group value. */
  method BuildCompatible(compatibles: seq<seq<seq<Record>>>, ro: Roles) returns (res: Result<CompatibleSet>)
    requires PlotsReady(compatibles, ro)
    ensures res == CompatibleOf(compatibles, ro)
  {
    ghost var steps := SeriesSteps(compatibles, ro);
    var series: seq<Series> := [];
    for j := 0 to |compatibles|
      invariant Sequence(steps[..j]) == Ok(series)
    {
      var s := BuildSeries(compatibles[j], ro);
      SequenceStep(steps, j, series);
      if s.Exit? {
        SequenceStopsAtFailure(steps, j + 1);
        return Exit(s.error);
      }
      series := series + [s.value];
    }
    assert steps[..|compatibles|] == steps;
    var pairs := GroupPairs(series);
    return Ok(FromPairs(Sorting.Sort(pairs, GroupLe())));
  }

  /** plot_data.py:181-183 for one compatible set: its plot groups, each split into variable runs. */
  method GroupPlots(compatible: seq<Record>, ro: Roles) returns (plots: seq<seq<seq<Record>>>)
    requires Ready(compatible, ro)
    ensures plots == Level2(compatible, ro)
  {
    WeakenKeys(compatible, Needed(ro), [ro.group]);
    RunsHaveKeys(compatible, [ro.group], Needed(ro));
    var level2 := GroupByKeys(compatible, [ro.group]);
    plots := [];
    for j := 0 to |level2|
      invariant |plots| == j
      invariant forall m | 0 <= m < j :: plots[m] == Level3(level2[m], ro)
    {
      WeakenKeys(level2[j], Needed(ro), [ro.variable]);
      plots := plots + [GroupByKeys(level2[j], [ro.variable])];
    }
  }

  /** plot_data.py:179-183: the three levels of `group_by_keys`, filled in slot by slot. */
  method GroupAll(sorted: seq<Record>, ro: Roles) returns (nested: seq<seq<seq<seq<Record>>>>)
    requires Ready(sorted, ro)
    ensures nested == Nest(sorted, ro)
  {
    WeakenKeys(sorted, Needed(ro), ro.controlled);
    var level1 := GroupByKeys(sorted, ro.controlled);
    NestAt(sorted, ro);
    nested := [];
    for i := 0 to |level1|
      invariant nested == Nest(sorted, ro)[..i]
    {
      nested := GroupNext(sorted, ro, level1, nested, i);
    }
    assert Nest(sorted, ro)[..|level1|] == Nest(sorted, ro);
  }

  /** One slot of `GroupAll`: the plot groups of the next compatible set. */
  method GroupNext(sorted: seq<Record>, ro: Roles, level1: seq<seq<Record>>, nested: seq<seq<seq<seq<Record>>>>, i: nat)
    returns (next: seq<seq<seq<seq<Record>>>>)
    requires Ready(sorted, ro) && AllHaveKeys(sorted, ro.controlled)
    requires level1 == GroupByKeys(sorted, ro.controlled) && i < |level1|
    requires nested == Nest(sorted, ro)[..i]
    ensures next == Nest(sorted, ro)[..i + 1]
  {
    NestAt(sorted, ro);
    ghost var whole := Nest(sorted, ro);
    var plots := GroupPlots(level1[i], ro);
    assert plots == whole[i];
    PrefixNext(whole, i);
    next := nested + [plots];
  }

  /** The compatible sets of `Nest` are the plot groups of the runs over the controlled keys. */
  lemma NestAt(sorted: seq<Record>, ro: Roles)
    requires Ready(sorted, ro) && AllHaveKeys(sorted, ro.controlled)
    ensures var level1 := GroupByKeys(sorted, ro.controlled);
      && |Nest(sorted, ro)| == |level1|
      && forall i | 0 <= i < |level1| :: Ready(level1[i], ro) && Nest(sorted, ro)[i] == Level2(level1[i], ro)
  {
    RunsHaveKeys(sorted, ro.controlled, Needed(ro));
  }

  /** plot_data.py:151-160: the `info` list, built by appends. */
  method ClassifyInfo(first: Record, variable: string) returns (info: seq<string>)
    ensures info == InfoKeys(first, variable)
  {
    info := BaseInfo;
    ghost var extra: seq<string> := [];
    if "class" in first {
      info, extra := info + ["class"], extra + ["class"];
    }
    if "description" in first {
      info, extra := info + ["description"], extra + ["description"];
    }
    assert info == BaseInfo + extra;
    if MatchesParameterTypeCount(variable) {
      info, extra := info + ["parameter_count"], extra + ["parameter_count"];
    }
    if variable != "id" {
      info, extra := info + ["id"], extra + ["id"];
    }
    assert info == BaseInfo + extra;
    assert extra == InfoExtra(first, variable);
  }

  /** plot_data.py:189-214: aggregation, the ordered dicts, and the filter. */
  method AssembleSets(nested: seq<seq<seq<seq<Record>>>>, ro: Roles, minSeriesLength: int)
    returns (res: Result<seq<CompatibleSet>>)
    requires SetsReady(nested, ro)
    ensures res == Assemble(nested, ro, minSeriesLength)
  {
    ghost var steps := CompatibleSteps(nested, ro);
    var sets: seq<CompatibleSet> := [];
    for i := 0 to |nested|
      invariant Sequence(steps[..i]) == Ok(sets)
    {
      var c := BuildCompatible(nested[i], ro);
      SequenceStep(steps, i, sets);
      if c.Exit? {
        SequenceStopsAtFailure(steps, i + 1);
        return Exit(c.error);
      }
      sets := sets + [c.value];
    }
    assert steps[..|nested|] == steps;
    return Ok(KeepLong(sets, minSeriesLength));
  }

  /** plot_data.py `extract_data`, with `list(controlled_variables)` given as `order`. */
  method ExtractData(benchmarks: seq<Record>, group: string, variable: string, measure: string,
                     minSeriesLength: int, order: seq<string>) returns (res: Result<seq<CompatibleSet>>)
    requires ExtractRequires(benchmarks, group, variable, measure, order)
    ensures res == ExtractSpec(benchmarks, group, variable, measure, minSeriesLength, order)
  {
    var info := ClassifyInfo(benchmarks[0], variable);
    var ro := Roles(group, variable, measure, order, info);
    FirstKeysEverywhere(benchmarks, group, variable, measure, order);
    var sorted := SortedBenchmarks(benchmarks, ro);
    var nested := GroupAll(sorted, ro);
    res := AssembleSets(nested, ro, minSeriesLength);
  }
}
