/**
 * The arithmetic and string pieces of plot_data.py around `plot`: the
 * `without` key filter, the integer `binned_value`, the start of `plot`
 * (selection, the skip and the exit), the numbering of its pages and plot
 * identifiers over the compatible sets, the identifiers of `make_id`, and the
 * rows of the fitted overlay table.
 */
module Plotting {
  import opened Values
  import opened Strings
  import opened Outcomes
  import opened Records
  import opened Extraction
  import opened Pivot

  // ---------------------------------------------------------------------
  // without

  /** plot_data.py `without`: the record minus the listed keys; no list means the record itself. */
  function Without(keys: Option<seq<string>>, d: Record): (r: Record)
    ensures keys.Nothing? ==> r == d
    ensures keys.Some? ==> r.Keys == d.Keys - set k | k in keys.value
    ensures forall k | k in r :: r[k] == d[k]
  {
    if keys.Nothing? then d else map k | k in d && k !in keys.value :: d[k]
  }

  /** Removing the same keys again changes nothing. */
  lemma {:induction false} WithoutIdempotent(keys: Option<seq<string>>, d: Record)
    ensures Without(keys, Without(keys, d)) == Without(keys, d)
  {
  }

  /** Removal only depends on the keys listed, not on their order or repetition. */
  lemma {:induction false} WithoutSameKeys(keys: seq<string>, other: seq<string>, d: Record)
    requires forall k :: k in keys <==> k in other
    ensures Without(Some(keys), d) == Without(Some(other), d)
  {
  }

  // ---------------------------------------------------------------------
  // binned_value

  /** Python 2's `/` on ints: the quotient rounded down, for either sign of the divisor. */
  function FloorDiv(a: int, b: int): int
    requires b != 0
  {
    if b > 0 then a / b else (-a) / (-b)
  }

  lemma {:induction false} FloorDivBounds(a: int, b: int)
    requires b != 0
    ensures b > 0 ==> b * FloorDiv(a, b) <= a < b * FloorDiv(a, b) + b
    ensures b < 0 ==> b * FloorDiv(a, b) >= a > b * FloorDiv(a, b) + b
  {
    if b < 0 {
      var q := (-a) / (-b);
      assert (-b) * q <= -a < (-b) * q + (-b);
    }
  }

  /** plot_data.py `binned_value` on ints: the lower edge of the bin of width `width`, counted from `minimum`, that holds `value`. */
  function BinnedValue(minimum: int, width: int, value: int): int
    requires width != 0
  {
    width * FloorDiv(value - minimum, width) + minimum
  }

  /** The bin holds the value: it lies in the half-open interval of one width from the bin's edge. */
  lemma {:induction false} BinnedValueBounds(minimum: int, width: int, value: int)
    requires width != 0
    ensures width > 0 ==> BinnedValue(minimum, width, value) <= value < BinnedValue(minimum, width, value) + width
    ensures width < 0 ==> BinnedValue(minimum, width, value) + width < value <= BinnedValue(minimum, width, value)
  {
    FloorDivBounds(value - minimum, width);
  }

  /** A bin edge is a whole number of widths from the minimum, and it is its own bin. */
  lemma {:induction false} BinnedValueIdempotent(minimum: int, width: int, value: int)
    requires width != 0
    ensures BinnedValue(minimum, width, BinnedValue(minimum, width, value)) == BinnedValue(minimum, width, value)
  {
    var q := FloorDiv(value - minimum, width);
    var edge := BinnedValue(minimum, width, value);
    assert edge - minimum == width * q;
    if width > 0 {
      MultipleDivides(width, q);
    } else {
      assert -(width * q) == (-width) * q;
      MultipleDivides(-width, q);
    }
  }

  /** A non-zero multiple of a positive number is at least that number away from zero. */
  lemma {:induction false} MultipleBounds(w: int, k: int)
    requires w > 0
    ensures k >= 1 ==> w * k >= w
    ensures k <= -1 ==> w * k <= -w
  {
    assert w * k - w == w * (k - 1);
    assert w * k + w == w * (k + 1);
  }

  /** Dividing a multiple of a positive divisor gives the multiplier back. */
  lemma {:induction false} MultipleDivides(w: int, q: int)
    requires w > 0
    ensures (w * q) / w == q
  {
    var d, r := (w * q) / w, (w * q) % w;
    assert w * q == w * d + r && 0 <= r < w;
    assert w * (q - d) == r;
    MultipleBounds(w, q - d);
  }

  // ---------------------------------------------------------------------
  // The start of plot

  /** `[without(keys_to_remove, x) for x in benchmarks if select_predicate(x)]` */
  function Selected(benchmarks: seq<Record>, keysToRemove: Option<seq<string>>, select: Record -> bool): (fs: seq<Record>)
    ensures |fs| <= |benchmarks|
    ensures forall f | f in fs :: exists b | b in benchmarks :: select(b) && f == Without(keysToRemove, b)
    ensures forall b | b in benchmarks && select(b) :: Without(keysToRemove, b) in fs
  {
    if |benchmarks| == 0 then []
    else
      var rest := Selected(benchmarks[1..], keysToRemove, select);
      assert forall b | b in benchmarks[1..] :: b in benchmarks;
      assert forall b | b in benchmarks :: b == benchmarks[0] || b in benchmarks[1..];
      if select(benchmarks[0]) then [Without(keysToRemove, benchmarks[0])] + rest else rest
  }

  /** `set([benchmark[variable] for benchmark in filtered_benchmarks])` */
  function VariableValues(fs: seq<Record>, variable: string): set<Value>
    requires forall f | f in fs :: variable in f
  {
    set f | f in fs :: f[variable]
  }

  /** How `plot` goes on after selecting its benchmarks. */
  datatype PlotStart = Skip | NoBenchmarks | Proceed(filtered: seq<Record>)

  /**
   * plot_data.py `plot`, lines 273-286: a plot with fewer than two variable
   * values is skipped; an empty selection is reported and ends the program.
   */
  function StartPlot(benchmarks: seq<Record>, keysToRemove: Option<seq<string>>, select: Record -> bool, variable: string): (r: PlotStart)
    requires forall b | b in benchmarks && select(b) :: variable in Without(keysToRemove, b)
    ensures r.Proceed? ==> r.filtered == Selected(benchmarks, keysToRemove, select)
    ensures r.Proceed? ==> forall f | f in r.filtered :: variable in f
  {
    var filtered := Selected(benchmarks, keysToRemove, select);
    if |VariableValues(filtered, variable)| < 2 then Skip
    else if |filtered| == 0 then NoBenchmarks
    else Proceed(filtered)
  }

  /**
   * The `exit(1)` for an empty selection cannot run: an empty selection has no
   * variable values and is skipped first.  A plot that goes on has at least
   * two records with different variable values.
   */
  lemma {:induction false} StartPlotNeverExits(benchmarks: seq<Record>, keysToRemove: Option<seq<string>>, select: Record -> bool, variable: string)
    requires forall b | b in benchmarks && select(b) :: variable in Without(keysToRemove, b)
    ensures StartPlot(benchmarks, keysToRemove, select, variable) != NoBenchmarks
    ensures var r := StartPlot(benchmarks, keysToRemove, select, variable);
      r.Proceed? ==> exists i, j | 0 <= i < |r.filtered| && 0 <= j < |r.filtered| :: r.filtered[i][variable] != r.filtered[j][variable]
  {
    var filtered := Selected(benchmarks, keysToRemove, select);
    var vs := VariableValues(filtered, variable);
    if |filtered| == 0 {
      assert vs == {};
    }
    if |vs| >= 2 {
      var v :| v in vs;
      assert |vs - {v}| == |vs| - 1;
      var w :| w in vs - {v};
      var i :| 0 <= i < |filtered| && filtered[i][variable] == v;
      var j :| 0 <= j < |filtered| && filtered[j][variable] == w;
    }
  }

  /** plot_data.py `plot`, lines 268-269: allocating benchmarks are plotted under an `-alloc` identifier. */
  function PlotIdentifier(benchmarks: seq<Record>, identifier: string): string
  {
    if |benchmarks| > 0 && Truthy(GetField(benchmarks[0], "is_allocating")) then identifier + "-alloc" else identifier
  }

  // ---------------------------------------------------------------------
  // Pages and identifier suffixes of plot

  /** One compatible set that `plot` draws: its index, its page, its identifier suffix and the page of its fitted overlay. */
  datatype PlotPlan = PlotPlan(index: nat, page: nat, suffix: string, fitPage: Option<nat>)

  /** `len([s for s in data if len(s.keys()) >= min_series_width])` */
  function WideCount(data: seq<CompatibleSet>, minWidth: int): (n: nat)
    ensures n <= |data|
  {
    if |data| == 0 then 0
    else WideCount(data[..|data| - 1], minWidth) + (if |data[|data| - 1]| >= minWidth then 1 else 0)
  }

  /** Pages used by `n` drawn sets: one each, and one more each for the fitted overlay. */
  function PagesFor(n: nat, fitted: bool): nat
  {
    if fitted then 2 * n else n
  }

  /** `"-{}".format(index)` when several sets are drawn, else nothing. */
  function Suffix(index: nat, dataLen: nat): string
  {
    if dataLen > 1 then "-" + IntToString(index) else ""
  }

  /** The plan of the k-th drawn set when `plot.page` was `page0` before the call. */
  function PlanAt(k: nat, page0: nat, dataLen: nat, fitted: bool): PlotPlan
  {
    PlotPlan(k, page0 + 1 + PagesFor(k, fitted), Suffix(k, dataLen),
             if fitted then Some(page0 + 2 + PagesFor(k, fitted)) else Nothing)
  }

  /**
   * The loop of `plot` over the compatible sets, reduced to its use of the
   * page counter `plot.page` (threaded in and out) and of the set index.  Sets
   * narrower than `min_series_width` are passed over; `fitted` is whether the
   * variable gets a fitted overlay (it is neither `direction` nor `id`).
   */
  method PlanPlots(data: seq<CompatibleSet>, minWidth: int, page0: nat, fitted: bool)
    returns (plans: seq<PlotPlan>, page: nat)
    ensures |plans| == WideCount(data, minWidth)
    ensures forall k | 0 <= k < |plans| :: plans[k] == PlanAt(k, page0, |plans|, fitted)
    ensures page == page0 + PagesFor(|plans|, fitted)
  {
    var index: int := -1;
    var dataLen := WideCount(data, minWidth);
    plans := [];
    page := page0;
    for i := 0 to |data|
      invariant index == |plans| - 1
      invariant |plans| == WideCount(data[..i], minWidth)
      invariant page == page0 + PagesFor(|plans|, fitted)
      invariant forall k | 0 <= k < |plans| :: plans[k] == PlanAt(k, page0, dataLen, fitted)
    {
      assert data[..i + 1][..i] == data[..i];
      if |data[i]| < minWidth {
        continue;
      }
      var plan;
      index, page, plan := DrawOne(index, page, dataLen, fitted);
      plans := plans + [plan];
    }
    assert data[..|data|] == data;
  }

  /** One drawn set: the next index, a page for the plot, the suffix, and a page for the fitted overlay. */
  method DrawOne(index: int, page: nat, dataLen: nat, fitted: bool) returns (next: nat, last: nat, plan: PlotPlan)
    requires index >= -1
    ensures next == index + 1 && last == page + PagesFor(1, fitted)
    ensures plan == PlotPlan(next, page + 1, Suffix(next, dataLen), if fitted then Some(page + 2) else Nothing)
  {
    next := index + 1;
    last := page + 1;
    var plotPage := last;
    var suffix := "";
    if dataLen > 1 {
      suffix := "-" + IntToString(next);
    }
    var fitPage := Nothing;
    if fitted {
      last := last + 1;
      fitPage := Some(last);
    }
    plan := PlotPlan(next, plotPage, suffix, fitPage);
  }

  /** `str` on non-negative ints is injective. */
  lemma {:induction false} IntToStringInjective(a: int, b: int)
    requires IntToString(a) == IntToString(b)
    ensures a == b
  {
    ParseIntToString(a);
    ParseIntToString(b);
  }

  /** With several sets drawn, their identifier suffixes differ, so no output file overwrites another. */
  lemma {:induction false} SuffixesDistinct(k: nat, l: nat, dataLen: nat)
    requires k != l
    requires dataLen > 1
    ensures Suffix(k, dataLen) != Suffix(l, dataLen)
  {
    var sk, sl := IntToString(k), IntToString(l);
    if Suffix(k, dataLen) == Suffix(l, dataLen) {
      assert ("-" + sk)[1..] == sk;
      assert ("-" + sl)[1..] == sl;
      IntToStringInjective(k, l);
    }
  }

  /** A single drawn set gets no suffix; with several, every suffix is a dash and the index. */
  lemma {:induction false} SuffixEmptyIffSingle(k: nat, dataLen: nat)
    ensures Suffix(k, dataLen) == "" <==> dataLen <= 1
  {
  }

  /**
   * Every page is used once: the plot pages increase, each fitted overlay
   * takes the page right after its plot, and all pages lie after `page0` and
   * up to the final counter.
   */
  lemma {:induction false} PagesDistinct(k: nat, l: nat, page0: nat, dataLen: nat, fitted: bool)
    requires k < l < dataLen
    ensures var p, q := PlanAt(k, page0, dataLen, fitted), PlanAt(l, page0, dataLen, fitted);
      && page0 < p.page < q.page <= page0 + PagesFor(dataLen, fitted)
      && (fitted ==> p.fitPage == Some(p.page + 1) && p.page + 1 < q.page && q.fitPage.value <= page0 + PagesFor(dataLen, fitted))
      && (!fitted ==> p.fitPage.Nothing?)
  {
  }

  // ---------------------------------------------------------------------
  // make_id and the identifier table

  /** `item or '-'` where the item is a string when it is truthy; joining any other value raises TypeError. */
  predicate ItemOk(item: Value)
  {
    !Truthy(item) || item.Str?
  }

  function ItemText(item: Value): string
    requires ItemOk(item)
  {
    if Truthy(item) then item.s else "-"
  }

  /** plot_data.py `make_id`: revision and class, and the variable value when it is the dynamic size. */
  function MakeId(revision: string, variableValue: Value, item: Value, variable: string): string
    requires ItemOk(item)
  {
    Join("/", [revision, ItemText(item)]) + (if variable == "dynamic_size" then "/" + Show(variableValue) else "")
  }

  /** Without slashes in its parts, an identifier splits back into revision, class and (for dynamic sizes) the value. */
  lemma {:induction false} MakeIdParts(revision: string, variableValue: Value, item: Value, variable: string)
    requires ItemOk(item)
    requires '/' !in revision && '/' !in ItemText(item) && '/' !in Show(variableValue)
    ensures Split(MakeId(revision, variableValue, item, variable), '/')
      == [revision, ItemText(item)] + (if variable == "dynamic_size" then [Show(variableValue)] else [])
  {
    var item' := ItemText(item);
    assert Join("/", [revision, item']) == revision + "/" + item';
    if variable == "dynamic_size" {
      var id := MakeId(revision, variableValue, item, variable);
      assert id == revision + "/" + item' + "/" + Show(variableValue);
      ThreeParts(revision, item', Show(variableValue));
      assert [revision, item'] + [Show(variableValue)] == [revision, item', Show(variableValue)];
    } else {
      var id := MakeId(revision, variableValue, item, variable);
      assert id == revision + "/" + item';
      TwoParts(revision, item');
      assert [revision, item'] + [] == [revision, item'];
    }
  }

  lemma {:induction false} TwoParts(a: string, b: string)
    requires '/' !in a && '/' !in b
    ensures Split(a + "/" + b, '/') == [a, b]
  {
    assert a + "/" + b == a + ['/'] + b;
    SplitAfterPart(a, '/', b);
    SplitNoSeparator(b, '/');
  }

  lemma {:induction false} ThreeParts(a: string, b: string, c: string)
    requires '/' !in a && '/' !in b && '/' !in c
    ensures Split(a + "/" + b + "/" + c, '/') == [a, b, c]
  {
    assert a + "/" + b + "/" + c == a + ['/'] + (b + "/" + c);
    SplitAfterPart(a, '/', b + "/" + c);
    TwoParts(b, c);
  }

  /** What `make_id` needs of the rows of the class table: a first cell, and class cells that are strings or false. */
  predicate IdRowsReady(rows: seq<seq<Cell>>)
  {
    forall row: seq<Cell> | row in rows :: |row| > 0 && row[0].Val? && forall c: Cell | c in row[1..] :: c.Val? && ItemOk(c.v)
  }

  /** plot_data.py `plot`, lines 346-349: every class cell becomes the identifier of its measurement. */
  function IdRows(rows: seq<seq<Cell>>, revision: string, variable: string): (ids: seq<seq<Cell>>)
    requires IdRowsReady(rows)
    ensures |ids| == |rows|
    ensures forall i | 0 <= i < |rows| :: |ids[i]| == |rows[i]| && ids[i][0] == rows[i][0]
    ensures forall i, j | 0 <= i < |rows| && 1 <= j < |rows[i]| ::
      rows[i][j].Val? && ItemOk(rows[i][j].v) && ids[i][j] == Val(Str(MakeId(revision, rows[i][0].v, rows[i][j].v, variable)))
  {
    seq(|rows|, i requires 0 <= i < |rows| =>
      assert rows[i] in rows;
      assert forall j | 1 <= j < |rows[i]| :: rows[i][j] in rows[i][1..] by {
        forall j | 1 <= j < |rows[i]| ensures rows[i][j] in rows[i][1..] { assert rows[i][1..][j - 1] == rows[i][j]; }
      }
      [rows[i][0]] + seq(|rows[i]| - 1, j requires 0 <= j < |rows[i]| - 1 =>
        Val(Str(MakeId(revision, rows[i][0].v, rows[i][j + 1].v, variable)))))
  }

  // ---------------------------------------------------------------------
  // The fitted overlay rows

  /**
   * One row of the fitted overlay: the fitted x value, the row's measured
   * cells, then the value of each series' polynomial at x.  The polynomial
   * evaluation is a parameter.
   */
  function FittedRow<T, P>(xv: T, row: seq<T>, polys: seq<P>, eval: (P, T) -> T): (r: seq<T>)
    requires |row| - 1 <= |polys|
    ensures |r| == if |row| == 0 then 1 else 2 * |row| - 1
    ensures r[0] == xv
    ensures forall j | 1 <= j < |row| :: r[j] == row[j]
    ensures forall j | 0 <= j < |row| - 1 :: r[|row| + j] == eval(polys[j], xv)
  {
    var measured := if |row| == 0 then [] else row[1..];
    var n := if |row| == 0 then 0 else |row| - 1;
    [xv] + measured + seq(n, j requires 0 <= j < n => eval(polys[j], xv))
  }

  /** plot_data.py `plot`, lines 357-363: the loop that builds `fitted_curves`. */
  method FittedCurves<T, P>(x: seq<T>, rows: seq<seq<T>>, polys: seq<P>, eval: (P, T) -> T) returns (curves: seq<seq<T>>)
    requires |x| <= |rows|
    requires forall i | 0 <= i < |x| :: |rows[i]| - 1 <= |polys|
    ensures |curves| == |x|
    ensures forall i | 0 <= i < |x| :: curves[i] == FittedRow(x[i], rows[i], polys, eval)
  {
    curves := [];
    for i := 0 to |x|
      invariant |curves| == i
      invariant forall k | 0 <= k < i :: curves[k] == FittedRow(x[k], rows[k], polys, eval)
    {
      var current := [x[i]];
      if |rows[i]| > 0 {
        current := current + rows[i][1..];
      }
      var fits := [];
      var n := if |rows[i]| == 0 then 0 else |rows[i]| - 1;
      for j := 0 to n
        invariant |fits| == j
        invariant forall m | 0 <= m < j :: fits[m] == eval(polys[m], x[i])
      {
        fits := fits + [eval(polys[j], x[i])];
      }
      current := current + fits;
      curves := curves + [current];
    }
  }

  /** A table row with one cell per header gives a fitted row with one cell per header of `headers + headers[1:]`. */
  lemma {:induction false} FittedRowMatchesHeaders<T, P, H>(xv: T, row: seq<T>, polys: seq<P>, eval: (P, T) -> T, headers: seq<H>)
    requires |row| == |headers| > 0 && |row| - 1 <= |polys|
    ensures |FittedRow(xv, row, polys, eval)| == |headers + headers[1..]|
  {
  }
}
