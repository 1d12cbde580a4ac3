/**
 * What the result of `extract_data` looks like: every compatible set maps
 * distinct group values, in ascending order, to series that map distinct
 * variable values, in ascending order, to cells; each cell carries its own
 * keys, and all cells of one set carry the controlled keys of one input record.
 */
module ExtractionProperties {
  import opened Values
  import opened Seqs
  import opened Outcomes
  import opened Records
  import opened Grouping
  import opened Aggregation
  import opened OrderedDicts
  import opened Extraction
  import Sorting

  /** Keys strictly ascending in Python's order, hence distinct. */
  predicate Ascending<V>(d: seq<(Value, V)>)
  {
    forall a, b | 0 <= a < b < |d| :: Less(d[a].0, d[b].0)
  }

  /** The controlled keys of a record, as the cell's `fixed` dict holds them. */
  function Fixed(b: Record, ro: Roles): map<string, Value>
    requires forall k | k in ro.controlled :: k in b
  {
    map k | k in ro.controlled :: b[k]
  }

  /** All records of a non-empty list hold the same value at `k`. */
  predicate SharesValue(s: seq<Record>, k: string)
  {
    |s| > 0 && k in s[0] && forall r | r in s :: k in r && r[k] == s[0][k]
  }

  predicate SharesValues(s: seq<Record>, keys: seq<string>)
  {
    forall k | k in keys :: SharesValue(s, k)
  }

  /** A series of one plot group: ascending variable values, each cell matching its key, its group and the set's `fixed`. */
  predicate SeriesShape(s: Series, ro: Roles, groupValue: Value, fixed: map<string, Value>)
  {
    Ascending(s) &&
    forall a | 0 <= a < |s| ::
      s[a].1.variableValue == s[a].0 && s[a].1.groupValue == groupValue && s[a].1.fixed == fixed &&
      s[a].1.variableName == ro.variable && s[a].1.measureName == ro.measure && s[a].1.groupName == ro.group &&
      s[a].1.info.Keys == set k | k in ro.info
  }

  predicate SetShape(x: CompatibleSet, ro: Roles, fixed: map<string, Value>)
  {
    |x| > 0 && Ascending(x) &&
    forall a | 0 <= a < |x| :: |x[a].1| > 0 && SeriesShape(x[a].1, ro, x[a].0, fixed)
  }

  lemma {:induction false} AscendingDistinct<V>(d: seq<(Value, V)>)
    requires Ascending(d)
    ensures Distinct(Keys(d))
  {
    forall a, b | 0 <= a < b < |d|
      ensures Keys(d)[a] != Keys(d)[b]
    {
      LessIrreflexive(d[a].0);
    }
  }

  /** Over a single key that both records have, the comparator says -1 exactly when the first value is smaller. */
  lemma {:induction false} CompareSingle(k: string, a: Record, b: Record)
    requires k in a && k in b
    ensures Compare([k], a, b) == -1 <==> Less(a[k], b[k])
  {
    assert [k][1..] == [];
  }

  /** Every record of every run has the value the first record of the first run has, when the whole list does. */
  lemma {:induction false} RunsKeepValue(s: seq<Record>, keys: seq<string>, k: string, val: Value)
    requires AllHaveKeys(s, keys)
    requires forall r | r in s :: k in r && r[k] == val
    ensures forall i, r | 0 <= i < |GroupByKeys(s, keys)| && r in GroupByKeys(s, keys)[i] :: k in r && r[k] == val
  {
    var runs := GroupByKeys(s, keys);
    forall i, r | 0 <= i < |runs| && r in runs[i]
      ensures k in r && r[k] == val
    {
      var j :| 0 <= j < |runs[i]| && runs[i][j] == r;
    }
  }

  /** Records of one run share the value of each grouping key. */
  lemma {:induction false} RunUniformOn(s: seq<Record>, k: string, i: nat)
    requires AllHaveKeys(s, [k]) && i < |GroupByKeys(s, [k])|
    ensures forall r | r in GroupByKeys(s, [k])[i] :: k in r && r[k] == GroupByKeys(s, [k])[i][0][k]
  {
    var run := GroupByKeys(s, [k])[i];
    GroupsUniform(s, [k]);
    forall r | r in run
      ensures k in r && r[k] == run[0][k]
    {
      var j :| 0 <= j < |run| && run[j] == r;
      assert Project(run[j], [k])[0] == Project(run[0], [k])[0];
    }
  }

  /** A list sorted by `sort_last` whose records share the leading key `p` is sorted by the next key alone. */
  lemma {:induction false} SortedBySecond(s: seq<Record>, p: string, q: string, rest: seq<string>)
    requires Sorting.Sorted(s, RecordLe([p, q] + rest))
    requires SharesValue(s, p)
    ensures Sorting.Sorted(s, RecordLe([q]))
  {
    assert [p, q] + rest == [p] + ([q] + rest);
    forall a, b | a in s && b in s
      ensures Agree([p], a, b)
    {
    }
    SortedSuffix(s, [p], [q] + rest);
    SortedPrefix(s, [q], rest);
  }

  /** The first records of the runs of a list sorted by one key have strictly ascending values of that key. */
  lemma {:induction false} HeadsAscend(g: seq<Record>, k: string)
    requires AllHaveKeys(g, [k]) && Sorting.Sorted(g, RecordLe([k]))
    ensures forall a | 0 <= a < |GroupByKeys(g, [k])| :: k in GroupByKeys(g, [k])[a][0]
    ensures forall a, b | 0 <= a < b < |GroupByKeys(g, [k])| ::
      Less(GroupByKeys(g, [k])[a][0][k], GroupByKeys(g, [k])[b][0][k])
  {
    var runs := GroupByKeys(g, [k]);
    assert forall a | 0 <= a < |runs| :: runs[a][0] in g;
    GroupsOfSortedAscend(g, [k]);
    forall a, b | 0 <= a < b < |runs|
      ensures Less(runs[a][0][k], runs[b][0][k])
    {
      CompareSingle(k, runs[a][0], runs[b][0]);
    }
  }

  /** The aggregates of the variable runs, in order. */
  function Aggregates(g: seq<Record>, ro: Roles): (aggs: seq<Record>)
    requires Ready(g, ro) && SeriesOf(Level3(g, ro), ro).Ok?
    ensures |aggs| == |Level3(g, ro)|
    ensures forall a | 0 <= a < |aggs| :: AggregateSpec(Level3(g, ro)[a], ro.measure) == Ok(aggs[a])
  {
    Sequence(AggregateSteps(Level3(g, ro), ro)).value
  }

  /** The aggregate of each variable run keeps the run's variable value, group value and controlled keys. */
  lemma {:induction false} AggregatesKeep(g: seq<Record>, ro: Roles, a: nat)
    requires |g| > 0 && Ready(g, ro)
    requires SharesValue(g, ro.group) && SharesValues(g, ro.controlled)
    requires SeriesOf(Level3(g, ro), ro).Ok? && a < |Level3(g, ro)|
    ensures var agg := Aggregates(g, ro)[a];
      HasKeys(agg, Needed(ro)) &&
      agg[ro.variable] == Level3(g, ro)[a][0][ro.variable] &&
      agg[ro.group] == g[0][ro.group] &&
      forall k | k in ro.controlled :: agg[k] == g[0][k]
  {
    var runs := Level3(g, ro);
    var run := runs[a];
    assert AggregateSpec(run, ro.measure) == Ok(Aggregates(g, ro)[a]);
    WeakenKeys(g, Needed(ro), [ro.variable]);
    RunUniformOn(g, ro.variable, a);
    assert forall r | r in run :: r in g;
    assert run[0] in run && run[|run| - 1] in run;
    AggregateKeepsAgreement(run, ro.measure, ro.variable);
    AggregateKeepsAgreement(run, ro.measure, ro.group);
    forall k | k in ro.controlled
      ensures AggregateSpec(run, ro.measure).value[k] == g[0][k]
    {
      AggregateKeepsAgreement(run, ro.measure, k);
    }
  }

  /** In a plot group sorted by `sort_last`, the variable runs start with ascending variable values. */
  lemma {:induction false} VariableHeadsAscend(g: seq<Record>, ro: Roles)
    requires Ready(g, ro) && Sorting.Sorted(g, RecordLe(SortLast(ro))) && SharesValue(g, ro.group)
    ensures forall a | 0 <= a < |Level3(g, ro)| :: ro.variable in Level3(g, ro)[a][0]
    ensures forall a, b | 0 <= a < b < |Level3(g, ro)| ::
      Less(Level3(g, ro)[a][0][ro.variable], Level3(g, ro)[b][0][ro.variable])
  {
    WeakenKeys(g, Needed(ro), [ro.variable]);
    assert SortLast(ro) == [ro.group, ro.variable] + ([ro.measure] + ro.info);
    SortedBySecond(g, ro.group, ro.variable, [ro.measure] + ro.info);
    HeadsAscend(g, ro.variable);
  }

  /** In a plot group sorted by `sort_last`, the variable values of the series entries ascend. */
  lemma {:induction false} SeriesPairsAscend(g: seq<Record>, ro: Roles)
    requires |g| > 0 && Ready(g, ro)
    requires Sorting.Sorted(g, RecordLe(SortLast(ro)))
    requires SharesValue(g, ro.group) && SharesValues(g, ro.controlled)
    requires SeriesOf(Level3(g, ro), ro).Ok?
    ensures forall a | 0 <= a < |Aggregates(g, ro)| :: HasKeys(Aggregates(g, ro)[a], Needed(ro))
    ensures Ascending(CellPairs(Aggregates(g, ro), ro))
  {
    var v := ro.variable;
    var runs := Level3(g, ro);
    var aggs := Aggregates(g, ro);
    WeakenKeys(g, Needed(ro), [v]);
    VariableHeadsAscend(g, ro);
    forall a | 0 <= a < |runs|
      ensures HasKeys(aggs[a], Needed(ro)) && aggs[a][v] == runs[a][0][v]
    {
      AggregatesKeep(g, ro, a);
    }
  }

  /** The entries built from the aggregates already have the shape of a series. */
  lemma {:induction false} CellPairsShape(g: seq<Record>, ro: Roles)
    requires |g| > 0 && Ready(g, ro)
    requires Sorting.Sorted(g, RecordLe(SortLast(ro)))
    requires SharesValue(g, ro.group) && SharesValues(g, ro.controlled)
    requires SeriesOf(Level3(g, ro), ro).Ok?
    ensures forall a | 0 <= a < |Aggregates(g, ro)| :: HasKeys(Aggregates(g, ro)[a], Needed(ro))
    ensures SeriesShape(CellPairs(Aggregates(g, ro), ro), ro, g[0][ro.group], Fixed(g[0], ro))
  {
    var aggs := Aggregates(g, ro);
    SeriesPairsAscend(g, ro);
    forall a | 0 <= a < |aggs|
      ensures HasKeys(aggs[a], Needed(ro)) && AggregateFits(aggs[a], g[0], ro)
    {
      AggregatesKeep(g, ro, a);
    }
    FittingPairsShape(aggs, g[0], ro);
  }

  /** An aggregate that has every needed key and keeps the group value and controlled keys of `first`. */
  predicate AggregateFits(agg: Record, first: Record, ro: Roles)
  {
    && HasKeys(agg, Needed(ro))
    && ro.group in agg && ro.group in first && agg[ro.group] == first[ro.group]
    && forall k | k in ro.controlled :: k in first && agg[k] == first[k]
  }

  /** Ascending entries made from fitting aggregates have the shape of a series. */
  lemma FittingPairsShape(aggs: seq<Record>, first: Record, ro: Roles)
    requires forall a | 0 <= a < |aggs| :: HasKeys(aggs[a], Needed(ro)) && AggregateFits(aggs[a], first, ro)
    requires Ascending(CellPairs(aggs, ro))
    requires ro.group in first && forall k | k in ro.controlled :: k in first
    ensures SeriesShape(CellPairs(aggs, ro), ro, first[ro.group], Fixed(first, ro))
  {
    var pairs := CellPairs(aggs, ro);
    forall a | 0 <= a < |pairs|
      ensures pairs[a].1.groupValue == first[ro.group] && pairs[a].1.fixed == Fixed(first, ro)
      ensures pairs[a].1.info.Keys == set k | k in ro.info
    {
      CellOfAggregate(aggs[a], first, ro);
    }
  }

  lemma {:induction false} CellOfAggregate(agg: Record, first: Record, ro: Roles)
    requires HasKeys(agg, Needed(ro)) && forall k | k in ro.controlled :: k in first && agg[k] == first[k]
    ensures MakeCell(agg, ro).fixed == Fixed(first, ro)
    ensures MakeCell(agg, ro).info.Keys == set k | k in ro.info
  {
  }

  /** One plot group, sorted and sharing its group value and controlled keys, yields a well-shaped series. */
  lemma {:induction false} SeriesFacts(g: seq<Record>, ro: Roles)
    requires |g| > 0 && Ready(g, ro)
    requires Sorting.Sorted(g, RecordLe(SortLast(ro)))
    requires SharesValue(g, ro.group) && SharesValues(g, ro.controlled)
    requires SeriesOf(Level3(g, ro), ro).Ok?
    ensures SeriesShape(SeriesOf(Level3(g, ro), ro).value, ro, g[0][ro.group], Fixed(g[0], ro))
  {
    CellPairsShape(g, ro);
    var pairs := CellPairs(Aggregates(g, ro), ro);
    AscendingDistinct(pairs);
    FromPairsDistinct(pairs);
  }

  /** The series of a compatible set, in plot-group order, before the sort by group value. */
  function SeriesList(c: seq<Record>, ro: Roles): (series: seq<Series>)
    requires Ready(c, ro) && CompatibleOf(Level2(c, ro), ro).Ok?
    ensures |series| == |Level2(c, ro)|
    ensures forall j | 0 <= j < |series| :: SeriesOf(Level2(c, ro)[j], ro) == Ok(series[j])
  {
    Sequence(SeriesSteps(Level2(c, ro), ro)).value
  }

  /** A plot group inherits sortedness and the controlled keys from its compatible set, and shares its group value. */
  lemma {:induction false} PlotGroupReady(c: seq<Record>, ro: Roles, j: nat)
    requires |c| > 0 && Ready(c, ro)
    requires Sorting.Sorted(c, RecordLe(SortLast(ro)))
    requires SharesValues(c, ro.controlled)
    requires j < |PlotGroups(c, ro)|
    ensures var g := PlotGroups(c, ro)[j];
      |g| > 0 && Ready(g, ro) && Sorting.Sorted(g, RecordLe(SortLast(ro))) &&
      SharesValue(g, ro.group) && SharesValues(g, ro.controlled) && Fixed(g[0], ro) == Fixed(c[0], ro)
  {
    var g := PlotGroups(c, ro)[j];
    assert Sorting.Sorted(g, RecordLe(SortLast(ro))) by {
      GroupsSorted(c, [ro.group], RecordLe(SortLast(ro)));
    }
    RunUniformOn(c, ro.group, j);
    assert g[0] in g;
    forall k | k in ro.controlled
      ensures SharesValue(g, k)
    {
      assert SharesValue(c, k);
    }
    assert Fixed(g[0], ro) == Fixed(c[0], ro);
  }

  /** Each plot group of a compatible set yields a series with that group's value and the set's controlled keys. */
  lemma {:induction false} PlotFacts(c: seq<Record>, ro: Roles, j: nat)
    requires |c| > 0 && Ready(c, ro)
    requires Sorting.Sorted(c, RecordLe(SortLast(ro)))
    requires SharesValues(c, ro.controlled)
    requires CompatibleOf(Level2(c, ro), ro).Ok? && j < |Level2(c, ro)|
    ensures var g := PlotGroups(c, ro)[j];
      |g| > 0 && ro.group in g[0] &&
      |SeriesList(c, ro)[j]| > 0 &&
      SeriesShape(SeriesList(c, ro)[j], ro, g[0][ro.group], Fixed(c[0], ro))
  {
    var g := PlotGroups(c, ro)[j];
    assert Level2(c, ro)[j] == Level3(g, ro);
    PlotGroupReady(c, ro, j);
    SeriesFacts(g, ro);
  }

  /** The plot groups of a compatible set start with ascending group values. */
  lemma {:induction false} GroupHeadsAscend(c: seq<Record>, ro: Roles)
    requires Ready(c, ro) && Sorting.Sorted(c, RecordLe(SortLast(ro)))
    ensures forall a | 0 <= a < |PlotGroups(c, ro)| :: ro.group in PlotGroups(c, ro)[a][0]
    ensures forall a, b | 0 <= a < b < |PlotGroups(c, ro)| ::
      Less(PlotGroups(c, ro)[a][0][ro.group], PlotGroups(c, ro)[b][0][ro.group])
  {
    WeakenKeys(c, Needed(ro), [ro.group]);
    assert SortLast(ro) == [ro.group] + ([ro.variable, ro.measure] + ro.info);
    SortedPrefix(c, [ro.group], [ro.variable, ro.measure] + ro.info);
    HeadsAscend(c, ro.group);
  }

  /** Entries with strictly ascending keys are sorted for the stable sort by key. */
  lemma {:induction false} AscendingSortedByKey(pairs: CompatibleSet)
    requires Ascending(pairs)
    ensures Sorting.Sorted(pairs, GroupLe())
  {
    forall a, b | 0 <= a < b < |pairs|
      ensures GroupLe()(pairs[a], pairs[b])
    {
      LessAsymmetric(pairs[a].0, pairs[b].0);
    }
  }

  /** The group-keyed entries of a compatible set ascend and carry well-shaped series. */
  lemma {:induction false} GroupPairsShape(c: seq<Record>, ro: Roles)
    requires |c| > 0 && Ready(c, ro)
    requires Sorting.Sorted(c, RecordLe(SortLast(ro)))
    requires SharesValues(c, ro.controlled)
    requires CompatibleOf(Level2(c, ro), ro).Ok?
    ensures forall j | 0 <= j < |SeriesList(c, ro)| :: |SeriesList(c, ro)[j]| > 0
    ensures SetShape(GroupPairs(SeriesList(c, ro)), ro, Fixed(c[0], ro))
  {
    var series := SeriesList(c, ro);
    var runs := PlotGroups(c, ro);
    forall j | 0 <= j < |series|
      ensures |runs[j]| > 0 && ro.group in runs[j][0] && |series[j]| > 0
      ensures SeriesShape(series[j], ro, runs[j][0][ro.group], Fixed(c[0], ro))
    {
      PlotFacts(c, ro, j);
    }
    GroupHeadsAscend(c, ro);
    AssembleSetShape(series, runs, ro, Fixed(c[0], ro));
  }

  /** Series whose plot groups start with ascending group values, each series of the right shape, make a well-shaped compatible set. */
  lemma {:induction false} AssembleSetShape(series: seq<Series>, runs: seq<seq<Record>>, ro: Roles, fixed: map<string, Value>)
    requires |series| == |runs| > 0
    requires forall j | 0 <= j < |runs| :: |runs[j]| > 0 && ro.group in runs[j][0]
    requires forall j | 0 <= j < |series| :: |series[j]| > 0 && SeriesShape(series[j], ro, runs[j][0][ro.group], fixed)
    requires forall a, b | 0 <= a < b < |runs| :: Less(runs[a][0][ro.group], runs[b][0][ro.group])
    ensures SetShape(GroupPairs(series), ro, fixed)
  {
    var pairs := GroupPairs(series);
    forall a | 0 <= a < |pairs|
      ensures pairs[a].0 == runs[a][0][ro.group]
    {
      assert series[a][0].1.groupValue == runs[a][0][ro.group];
    }
  }

  /** One compatible set, sorted and sharing its controlled keys, yields a well-shaped ordered dict. */
  lemma {:induction false} CompatibleFacts(c: seq<Record>, ro: Roles)
    requires |c| > 0 && Ready(c, ro)
    requires Sorting.Sorted(c, RecordLe(SortLast(ro)))
    requires SharesValues(c, ro.controlled)
    requires CompatibleOf(Level2(c, ro), ro).Ok?
    ensures SetShape(CompatibleOf(Level2(c, ro), ro).value, ro, Fixed(c[0], ro))
  {
    GroupPairsShape(c, ro);
    var pairs := GroupPairs(SeriesList(c, ro));
    AscendingSortedByKey(pairs);
    Sorting.SortIdentity(pairs, GroupLe());
    AscendingDistinct(pairs);
    FromPairsDistinct(pairs);
  }

  /** A run of equal controlled keys of the sorted records is sorted on the remaining keys and shares its controlled values. */
  lemma {:induction false} ControlledRunFacts(sorted: seq<Record>, ro: Roles, i: nat)
    requires Ready(sorted, ro) && AllHaveKeys(sorted, ro.controlled)
    requires Sorting.Sorted(sorted, RecordLe(SortedKeys(ro)))
    requires i < |GroupByKeys(sorted, ro.controlled)|
    ensures var c := GroupByKeys(sorted, ro.controlled)[i];
      |c| > 0 && Ready(c, ro) && Sorting.Sorted(c, RecordLe(SortLast(ro))) && SharesValues(c, ro.controlled)
  {
    var runs := GroupByKeys(sorted, ro.controlled);
    var c := runs[i];
    RunsHaveKeys(sorted, ro.controlled, Needed(ro));
    GroupsUniform(sorted, ro.controlled);
    forall a, b | a in c && b in c
      ensures Agree(ro.controlled, a, b)
    {
      var ja :| 0 <= ja < |c| && c[ja] == a;
      var jb :| 0 <= jb < |c| && c[jb] == b;
      ProjectAgree(a, b, ro.controlled);
    }
    forall k | k in ro.controlled
      ensures SharesValue(c, k)
    {
      forall r | r in c
        ensures k in r && r[k] == c[0][k]
      {
        assert Agree(ro.controlled, r, c[0]);
      }
    }
    assert Sorting.Sorted(c, RecordLe(SortLast(ro))) by {
      GroupsSorted(sorted, ro.controlled, RecordLe(SortedKeys(ro)));
      SortedSuffix(c, ro.controlled, SortLast(ro));
    }
  }

  /** Every compatible set built from the sorted records is well shaped, with the controlled values of one of them. */
  lemma {:induction false} SetsShaped(sorted: seq<Record>, ro: Roles)
    requires Ready(sorted, ro) && Sorting.Sorted(sorted, RecordLe(SortedKeys(ro)))
    requires Sequence(CompatibleSteps(Nest(sorted, ro), ro)).Ok?
    ensures var sets := Sequence(CompatibleSteps(Nest(sorted, ro), ro)).value;
      forall x | x in sets :: ShapedFrom(x, sorted, ro)
  {
    var nested := Nest(sorted, ro);
    var sets := Sequence(CompatibleSteps(nested, ro)).value;
    WeakenKeys(sorted, Needed(ro), ro.controlled);
    var runs := GroupByKeys(sorted, ro.controlled);
    forall x | x in sets
      ensures ShapedFrom(x, sorted, ro)
    {
      var i :| 0 <= i < |sets| && sets[i] == x;
      var steps := CompatibleSteps(nested, ro);
      assert steps[i] == Ok(x);
      assert nested[i] == Level2(runs[i], ro);
      ControlledRunShape(sorted, ro, i, x);
    }
  }

  /** The compatible set of one run of equal controlled keys is well shaped, with the controlled values of its first record. */
  lemma {:induction false} ControlledRunShape(sorted: seq<Record>, ro: Roles, i: nat, x: CompatibleSet)
    requires Ready(sorted, ro) && AllHaveKeys(sorted, ro.controlled)
    requires Sorting.Sorted(sorted, RecordLe(SortedKeys(ro)))
    requires i < |GroupByKeys(sorted, ro.controlled)|
    requires Ready(GroupByKeys(sorted, ro.controlled)[i], ro)
    requires CompatibleOf(Level2(GroupByKeys(sorted, ro.controlled)[i], ro), ro) == Ok(x)
    ensures ShapedFrom(x, sorted, ro)
  {
    var c := GroupByKeys(sorted, ro.controlled)[i];
    ControlledRunFacts(sorted, ro, i);
    CompatibleFacts(c, ro);
    assert c[0] in sorted;
    ShapeWitness(x, c[0], sorted, ro);
  }

  /** The set is well shaped, with the controlled values of one of the records `bs`. */
  predicate ShapedFrom(x: CompatibleSet, bs: seq<Record>, ro: Roles)
  {
    exists b | b in bs && HasKeys(b, ro.controlled) :: SetShape(x, ro, Fixed(b, ro))
  }

  lemma {:induction false} ShapeWitness(x: CompatibleSet, b: Record, bs: seq<Record>, ro: Roles)
    requires b in bs && HasKeys(b, ro.controlled) && SetShape(x, ro, Fixed(b, ro))
    ensures ShapedFrom(x, bs, ro)
  {
  }

  lemma {:induction false} ShapedFromPermutation(x: CompatibleSet, bs: seq<Record>, cs: seq<Record>, ro: Roles)
    requires multiset(bs) == multiset(cs) && ShapedFrom(x, bs, ro)
    ensures ShapedFrom(x, cs, ro)
  {
    var b :| b in bs && HasKeys(b, ro.controlled) && SetShape(x, ro, Fixed(b, ro));
    assert b in multiset(cs);
  }

  /**
   * plot_data.py `extract_data`: when the extraction succeeds, every compatible
   * set it returns has a first series of at least the minimum length and is well
   * shaped, its cells carrying the controlled values of one input benchmark.
   */
  lemma {:induction false} ExtractFacts(benchmarks: seq<Record>, group: string, variable: string, measure: string,
                     minSeriesLength: int, order: seq<string>)
    requires ExtractRequires(benchmarks, group, variable, measure, order)
    ensures var ro := MakeRoles(benchmarks[0], group, variable, measure, order);
      var r := ExtractSpec(benchmarks, group, variable, measure, minSeriesLength, order);
      r.Ok? ==> forall x: CompatibleSet | x in r.value ::
        |x| > 0 && |x[0].1| >= minSeriesLength &&
        ShapedFrom(x, benchmarks, ro)
  {
    var ro := MakeRoles(benchmarks[0], group, variable, measure, order);
    FirstKeysEverywhere(benchmarks, group, variable, measure, order);
    var sorted := SortedBenchmarks(benchmarks, ro);
    var r := ExtractSpec(benchmarks, group, variable, measure, minSeriesLength, order);
    if r.Ok? {
      var sets := Sequence(CompatibleSteps(Nest(sorted, ro), ro)).value;
      assert r.value == KeepLong(sets, minSeriesLength);
      assert forall x | x in sets :: ShapedFrom(x, sorted, ro) by {
        SortedBenchmarksFacts(benchmarks, ro);
        SetsShaped(sorted, ro);
      }
      assert multiset(sorted) == multiset(benchmarks) by {
        SortedBenchmarksFacts(benchmarks, ro);
      }
      forall x: CompatibleSet | x in r.value
        ensures |x| > 0 && |x[0].1| >= minSeriesLength
        ensures ShapedFrom(x, benchmarks, ro)
      {
        assert x in sets;
        ShapedFromPermutation(x, sorted, benchmarks, ro);
      }
    }
  }

  /** The records sorted by the controlled keys and then the role keys are a sorted permutation of the input. */
  lemma {:induction false} SortedBenchmarksFacts(benchmarks: seq<Record>, ro: Roles)
    requires Ready(benchmarks, ro) && forall r | r in benchmarks :: r.Keys == benchmarks[0].Keys
    ensures Sorting.Sorted(SortedBenchmarks(benchmarks, ro), RecordLe(SortedKeys(ro)))
    ensures multiset(SortedBenchmarks(benchmarks, ro)) == multiset(benchmarks)
  {
    assert UniformPresence(SortedKeys(ro), benchmarks) by {
      forall a, b | a in benchmarks && b in benchmarks
        ensures SamePresence(SortedKeys(ro), a, b)
      {
        assert a.Keys == benchmarks[0].Keys == b.Keys;
      }
    }
    SortRecordsCorrect(SortedKeys(ro), benchmarks);
  }
}
