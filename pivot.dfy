/**
 * plot_data.py `make_table` and `convert_to_seconds`: one compatible set is
 * pivoted into a table with a row per variable value (in ascending order) and
 * a column per group; response times are turned from nanoseconds into seconds.
 */
module Pivot {
  import opened Values
  import opened Seqs
  import opened OrderedDicts
  import opened Extraction
  import Sorting

  /**
   * A table cell: a record value, or a response time of `nanos` nanoseconds
   * that `convert_to_seconds` has turned into the float `nanos / 10^9`.
   */
  datatype Cell = Val(v: Value) | Seconds(nanos: int)

  // ---------------------------------------------------------------------
  // convert_to_seconds (plot_data.py:384-394)

  /** Python 2 `int` (as opposed to `long`): the 64-bit range. */
  predicate IsMachineInt(n: int)
  {
    -0x8000_0000_0000_0000 <= n <= 0x7fff_ffff_ffff_ffff
  }

  /** `type(value) == int` selects the values that are converted; bools, longs and the rest pass through. */
  function ConvertToSeconds(v: Value): (c: Cell)
    ensures c.Seconds? <==> v.Int? && IsMachineInt(v.i)
    ensures c.Seconds? ==> c.nanos == v.i
    ensures c.Val? ==> c.v == v
  {
    if v.Int? && IsMachineInt(v.i) then Seconds(v.i) else Val(v)
  }

  function Zeros(n: nat): (z: string)
    ensures |z| == n && forall i | 0 <= i < n :: z[i] == '0'
  {
    if n == 0 then "" else Zeros(n - 1) + "0"
  }

  /** `s.zfill(w)`: zeros go after a leading sign, up to width `w`. */
  function ZFill(s: string, w: nat): (r: string)
    ensures |r| == if |s| >= w then |s| else w
  {
    if |s| >= w then s
    else if |s| > 0 && (s[0] == '-' || s[0] == '+') then [s[0]] + Zeros(w - |s|) + s[1..]
    else Zeros(w - |s|) + s
  }

  /** The integer and fractional digits that `convert_to_seconds` joins with a point. */
  function SecondsParts(n: int): (parts: (string, string))
    ensures |parts.1| == 9 && |parts.0| >= 1
  {
    var s := ZFill(IntToString(n), 10);
    (s[..|s| - 9], s[|s| - 9..])
  }

  /** `"{}.{}".format(strval[0:strlen-9], strval[strlen-9:])`, the text the float is parsed from. */
  function SecondsText(n: int): string
  {
    SecondsParts(n).0 + "." + SecondsParts(n).1
  }

  function Pow10(k: nat): nat
  {
    if k == 0 then 1 else 10 * Pow10(k - 1)
  }

  lemma {:induction false} ParseDigitsAppend(a: string, b: string)
    requires AllDigits(a) && AllDigits(b)
    ensures AllDigits(a + b) && ParseDigits(a + b) == ParseDigits(a) * Pow10(|b|) + ParseDigits(b)
    decreases |b|
  {
    if |b| == 0 {
      assert a + b == a;
    } else {
      var b' := b[..|b| - 1];
      assert (a + b)[..|a + b| - 1] == a + b';
      assert (a + b)[|a + b| - 1] == b[|b| - 1];
      ParseDigitsAppend(a, b');
      var x, y, d := ParseDigits(a), Pow10(|b'|), DigitValue(b[|b| - 1]);
      assert ParseDigits(a + b) == 10 * (x * y + ParseDigits(b')) + d;
      assert ParseDigits(b) == 10 * ParseDigits(b') + d;
      assert Pow10(|b|) == 10 * y;
      ShiftTen(x, y);
    }
  }

  /** Appending a digit multiplies the value of the earlier digits by ten. */
  lemma ShiftTen(x: int, y: int)
    ensures 10 * (x * y) == x * (10 * y)
  {
  }

  lemma {:induction false} ParseZeros(n: nat)
    ensures AllDigits(Zeros(n)) && ParseDigits(Zeros(n)) == 0
  {
    if n > 0 {
      assert Zeros(n)[..n - 1] == Zeros(n - 1);
      ParseZeros(n - 1);
    }
  }

  /** Leading zeros do not change the value of a digit string. */
  lemma {:induction false} LeadingZeros(k: nat, d: string)
    requires AllDigits(d)
    ensures AllDigits(Zeros(k) + d) && ParseDigits(Zeros(k) + d) == ParseDigits(d)
  {
    ParseZeros(k);
    ParseDigitsAppend(Zeros(k), d);
    assert ParseDigits(Zeros(k)) * Pow10(|d|) == 0;
  }

  /** Zero-padding a digit string to width `w` keeps it a digit string of the same value. */
  lemma {:induction false} PaddedDigits(d: string, w: nat)
    requires |d| > 0 && AllDigits(d)
    ensures AllDigits(ZFill(d, w)) && ParseDigits(ZFill(d, w)) == ParseDigits(d)
  {
    if |d| < w {
      assert d[0] != '-' && d[0] != '+' by {
        assert IsDigit(d[0]);
      }
      assert ZFill(d, w) == Zeros(w - |d|) + d;
      LeadingZeros(w - |d|, d);
    }
  }

  /** A digit string split anywhere: the front digits count in units of the back's length. */
  lemma {:induction false} SplitDigits(s: string, k: nat)
    requires AllDigits(s) && k <= |s|
    ensures AllDigits(s[..k]) && AllDigits(s[k..])
    ensures ParseDigits(s[..k]) * Pow10(|s| - k) + ParseDigits(s[k..]) == ParseDigits(s)
  {
    assert forall i | 0 <= i < k :: s[..k][i] == s[i];
    assert forall i | 0 <= i < |s| - k :: s[k..][i] == s[k + i];
    assert s[..k] + s[k..] == s;
    ParseDigitsAppend(s[..k], s[k..]);
  }

  /** The padded text of a non-negative count of nanoseconds is its digits, at least ten of them. */
  lemma {:induction false} PaddedNonNegative(n: nat)
    ensures var s := ZFill(IntToString(n), 10); AllDigits(s) && ParseDigits(s) == n
  {
    ParseNatToString(n);
    PaddedDigits(NatToString(n), 10);
  }

  /** Zero-padding a signed digit string keeps the sign in front and the value of the digits after it. */
  lemma {:induction false} PaddedSigned(c: char, d: string, w: nat)
    requires c == '-' || c == '+'
    requires AllDigits(d)
    ensures var s := ZFill([c] + d, w); s[0] == c && AllDigits(s[1..]) && ParseDigits(s[1..]) == ParseDigits(d)
  {
    var s0 := [c] + d;
    var s := ZFill(s0, w);
    assert s0[0] == c && s0[1..] == d;
    if |s0| < w {
      var z := Zeros(w - |s0|);
      assert s == [c] + z + d;
      assert s[1..] == z + d;
      LeadingZeros(w - |s0|, d);
    } else {
      assert s == s0;
    }
  }

  /** The padded text of a negative count is a minus sign before the zero-padded digits of its magnitude. */
  lemma {:induction false} PaddedNegative(n: int)
    requires n < 0
    ensures var s := ZFill(IntToString(n), 10); s[0] == '-' && AllDigits(s[1..]) && ParseDigits(s[1..]) == -n
  {
    var d := NatToString(-n);
    ParseNatToString(-n);
    var s0 := IntToString(n);
    assert s0 == ['-'] + d;
    PaddedSigned('-', d, 10);
    var s := ZFill(s0, 10);
    assert s == ZFill(['-'] + d, 10);
    assert s[0] == '-' && AllDigits(s[1..]) && ParseDigits(s[1..]) == ParseDigits(d);
  }

  /**
   * The decimal text is `n / 10^9` written out exactly: nine fractional digits,
   * the integer digits before them, and a minus sign for a negative `n`.
   */
  lemma {:induction false} SecondsTextValue(n: int)
    ensures var (whole, frac) := SecondsParts(n);
      SecondsText(n) == whole + "." + frac && AllDigits(frac) &&
      (n >= 0 ==> AllDigits(whole) && ParseDigits(whole) * Pow10(9) + ParseDigits(frac) == n) &&
      (n < 0 ==> whole[0] == '-' && AllDigits(whole[1..]) && ParseDigits(whole[1..]) * Pow10(9) + ParseDigits(frac) == -n)
  {
    var s := ZFill(IntToString(n), 10);
    var k := |s| - 9;
    if n >= 0 {
      PaddedNonNegative(n);
      SplitDigits(s, k);
    } else {
      PaddedNegative(n);
      var t := s[1..];
      SplitDigits(t, k - 1);
      assert t[..k - 1] == s[..k][1..];
      assert t[k - 1..] == s[k..];
    }
  }

  // ---------------------------------------------------------------------
  // The cells of the table (plot_data.py:413-419)

  /** `d.get(k, None)` on a plain dict. */
  function InfoGet(d: map<string, Value>, k: string): Value
  {
    if k in d then d[k] else None
  }

  /** The fallback `grp[v]['info']` is a dict: no role of the cell is literally named "info". */
  predicate InfoIsDict(grp: Series)
  {
    forall p | p in grp :: Lookup(p.1, "info").Dict?
  }

  /**
   * What `make_table` may be given: the looked-up measure is a scalar entry
   * (not the nested "fixed" or "info" dicts), and the `info` fallback is a dict.
   */
  predicate TableReady(series: CompatibleSet, measure: string)
  {
    measure != "fixed" && measure != "info" && forall j | 0 <= j < |series| :: InfoIsDict(series[j].1)
  }

  /** The conversion `make_table` applies to the looked-up value. */
  function Converted(measure: string, val: Value): Cell
  {
    if measure == "response_time" then ConvertToSeconds(val) else Val(val)
  }

  /**
   * One cell: `grp.get(v, {}).get(measure, None)`, then `info[measure]` when
   * that is None, converted to seconds when the measure is the response time.
   */
  function CellFor(grp: Series, v: Value, measure: string): Cell
    requires measure != "fixed" && measure != "info" && InfoIsDict(grp)
  {
    var entry := Get(grp, v);
    var first := if entry.Some? then Lookup(entry.value, measure) else Absent;
    var val :=
      if first.Scalar? && first.v != None then first.v
      else if entry.Some? then InfoGet(Lookup(entry.value, "info").d, measure)
      else None;
    Converted(measure, val)
  }

  /** A group without the variable value leaves an empty (None) cell. */
  lemma {:induction false} MissingCell(grp: Series, v: Value, measure: string)
    requires measure != "fixed" && measure != "info" && InfoIsDict(grp)
    requires v !in Keys(grp)
    ensures CellFor(grp, v, measure) == Converted(measure, None)
  {
  }

  /** A group's entry whose measure is set gives that measure. */
  lemma {:induction false} MeasureCell(grp: Series, a: nat, measure: string)
    requires measure != "fixed" && measure != "info" && InfoIsDict(grp)
    requires Distinct(Keys(grp)) && a < |grp|
    requires grp[a].1.groupName != measure && grp[a].1.measureName == measure && grp[a].1.measureValue != None
    ensures CellFor(grp, grp[a].0, measure) == Converted(measure, grp[a].1.measureValue)
  {
    GetAt(grp, a);
  }

  /** A key that is none of the cell's own entries is read from its `info` dict, or is None. */
  lemma {:induction false} InfoCell(grp: Series, a: nat, measure: string)
    requires measure != "fixed" && measure != "info" && InfoIsDict(grp)
    requires Distinct(Keys(grp)) && a < |grp|
    requires measure !in {grp[a].1.groupName, grp[a].1.measureName, grp[a].1.variableName, "group", "measure", "variable"}
    ensures CellFor(grp, grp[a].0, measure) == Converted(measure, InfoGet(grp[a].1.info, measure))
  {
    GetAt(grp, a);
    assert grp[a] in grp;
  }

  // ---------------------------------------------------------------------
  // The variable values: sorted(list(set().update(...))) (plot_data.py:397-401)

  function KeySet(grp: Series): (ks: set<Value>)
    ensures forall v :: v in ks <==> v in Keys(grp)
  {
    set a | 0 <= a < |grp| :: grp[a].0
  }

  /** The union of the variable values of all series, accumulated series by series. */
  function VariableSet(series: CompatibleSet): (vs: set<Value>)
    ensures forall v :: v in vs <==> exists j | 0 <= j < |series| :: v in Keys(series[j].1)
  {
    if |series| == 0 then {}
    else
      var init := series[..|series| - 1];
      assert forall j | 0 <= j < |init| :: init[j] == series[j];
      VariableSet(init) + KeySet(series[|series| - 1].1)
  }

  predicate IsLeast(m: Value, s: set<Value>)
  {
    m in s && forall x | x in s :: !Less(x, m)
  }

  lemma {:induction false} LeastExists(s: set<Value>)
    requires s != {}
    ensures exists m :: IsLeast(m, s)
    decreases |s|
  {
    var x :| x in s;
    LessIrreflexive(x);
    if s == {x} {
      assert IsLeast(x, s);
    } else {
      LeastExists(s - {x});
      var m :| IsLeast(m, s - {x});
      if Less(x, m) {
        forall y | y in s
          ensures !Less(y, x)
        {
          if y != x && Less(y, x) {
            LessTransitive(y, x, m);
          }
        }
        assert IsLeast(x, s);
      } else {
        assert IsLeast(m, s);
      }
    }
  }

  lemma {:induction false} LeastUnique(s: set<Value>)
    ensures forall a, b | IsLeast(a, s) && IsLeast(b, s) :: a == b
  {
    forall a, b | IsLeast(a, s) && IsLeast(b, s)
      ensures a == b
    {
      if a != b {
        LessTotal(a, b);
      }
    }
  }

  /** `sorted(list(s))`: the elements of the set in strictly ascending order. */
  function SortedList(s: set<Value>): (r: seq<Value>)
    ensures |r| == |s|
    ensures forall x :: x in r <==> x in s
    ensures forall a, b | 0 <= a < b < |r| :: Less(r[a], r[b])
    decreases |s|
  {
    if s == {} then []
    else
      LeastExists(s);
      LeastUnique(s);
      var m :| IsLeast(m, s);
      var rest := SortedList(s - {m});
      LeastFirst(m, s, rest);
      [m] + rest
  }

  /** The least element of a set, put before the sorted rest, gives the set sorted. */
  lemma LeastFirst(m: Value, s: set<Value>, rest: seq<Value>)
    requires IsLeast(m, s)
    requires |rest| == |s - {m}| && forall x :: x in rest <==> x in s - {m}
    requires forall a, b | 0 <= a < b < |rest| :: Less(rest[a], rest[b])
    ensures |[m] + rest| == |s|
    ensures forall x :: x in [m] + rest <==> x in s
    ensures forall a, b | 0 <= a < b < |[m] + rest| :: Less(([m] + rest)[a], ([m] + rest)[b])
  {
    forall x | x in rest
      ensures Less(m, x)
    {
      LessTotal(m, x);
    }
    var r := [m] + rest;
    forall a, b | 0 <= a < b < |r|
      ensures Less(r[a], r[b])
    {
      assert r[b] == rest[b - 1];
      if a > 0 {
        assert r[a] == rest[a - 1];
      }
    }
  }

  /** The variable values of the table, one per row. */
  function AllVariables(series: CompatibleSet): seq<Value>
  {
    SortedList(VariableSet(series))
  }

  // ---------------------------------------------------------------------
  // Rows and headers (plot_data.py:403-425)

  function Headers(series: CompatibleSet, axesLabel: string): seq<Value>
  {
    [Str(axesLabel)] + Keys(series)
  }

  /** The data cells of the row for variable value `v`, one per group in series order. */
  function Cells(series: CompatibleSet, v: Value, measure: string): (cs: seq<Cell>)
    requires TableReady(series, measure)
    ensures |cs| == |series|
  {
    seq(|series|, j requires 0 <= j < |series| => CellFor(series[j].1, v, measure))
  }

  /** The row for variable value `v`: the value, then one cell per group. */
  function Row(series: CompatibleSet, v: Value, measure: string): (row: seq<Cell>)
    requires TableReady(series, measure)
    ensures |row| == |series| + 1 && row[0] == Val(v)
  {
    [Val(v)] + Cells(series, v, measure)
  }

  /** One row per value of `vs`, in that order. */
  function RowsFor(series: CompatibleSet, vs: seq<Value>, measure: string): (rows: seq<seq<Cell>>)
    requires TableReady(series, measure)
    ensures |rows| == |vs| && forall r | 0 <= r < |vs| :: rows[r] == Row(series, vs[r], measure)
  {
    seq(|vs|, r requires 0 <= r < |vs| => Row(series, vs[r], measure))
  }

  lemma {:induction false} RowsForSnoc(series: CompatibleSet, vs: seq<Value>, v: Value, measure: string)
    requires TableReady(series, measure)
    ensures RowsFor(series, vs + [v], measure) == RowsFor(series, vs, measure) + [Row(series, v, measure)]
  {
  }

  /** The rows before the `id` re-sort: one per variable value, in ascending order. */
  function BaseRows(series: CompatibleSet, measure: string): (rows: seq<seq<Cell>>)
    requires TableReady(series, measure)
    ensures |rows| == |AllVariables(series)|
    ensures forall r | 0 <= r < |rows| :: rows[r] == Row(series, AllVariables(series)[r], measure)
  {
    RowsFor(series, AllVariables(series), measure)
  }

  predicate CellTruthy(c: Cell)
  {
    match c
    case Val(v) => Truthy(v)
    case Seconds(n) => n != 0
  }

  /** Python 2 orders None first, then numbers (ints and floats by value), then strings. */
  function CellRank(c: Cell): nat
  {
    match c
    case Val(v) => Rank(v)
    case Seconds(_) => 1
  }

  /** A number in nanoseconds, so that ints and converted seconds compare exactly. */
  function Scaled(c: Cell): int
    requires CellRank(c) == 1
  {
    match c
    case Val(v) => Num(v) * 1_000_000_000
    case Seconds(n) => n
  }

  /** `<` between sort keys: a strict weak order (equal numbers tie, whatever their type). */
  predicate CellLess(a: Cell, b: Cell)
  {
    if CellRank(a) != CellRank(b) then CellRank(a) < CellRank(b)
    else if CellRank(a) == 2 then StrLess(a.v.s, b.v.s)
    else if CellRank(a) == 1 then Scaled(a) < Scaled(b)
    else false
  }

  /** `x[1] or -1`: the first data cell, or -1 when it is false. */
  function IdKey(row: seq<Cell>): Cell
  {
    if |row| > 1 && CellTruthy(row[1]) then row[1] else Val(Int(-1))
  }

  /** `sorted(rows, key=lambda x: x[1] or -1)` keeps a row in front unless the next one's key is smaller. */
  function IdLe(): (seq<Cell>, seq<Cell>) -> bool
  {
    (x: seq<Cell>, y: seq<Cell>) => !CellLess(IdKey(y), IdKey(x))
  }

  /** The rows `make_table` returns. */
  function TableRows(series: CompatibleSet, variable: string, measure: string): seq<seq<Cell>>
    requires TableReady(series, measure)
  {
    if variable == "id" then Sorting.Sort(BaseRows(series, measure), IdLe()) else BaseRows(series, measure)
  }

  lemma {:induction false} CellLessAsymmetric(a: Cell, b: Cell)
    requires CellLess(a, b)
    ensures !CellLess(b, a)
  {
    if CellRank(a) == CellRank(b) == 2 {
      StrLessAsymmetric(a.v.s, b.v.s);
    }
  }

  /** Not being smaller is transitive, as a stable sort by key needs. */
  lemma {:induction false} CellNotLessTransitive(a: Cell, b: Cell, c: Cell)
    requires !CellLess(b, a) && !CellLess(c, b)
    ensures !CellLess(c, a)
  {
    if CellRank(a) == CellRank(b) == CellRank(c) == 2 {
      var x, y, z := a.v.s, b.v.s, c.v.s;
      if StrLess(z, x) {
        if x == y {
        } else {
          StrLessTotal(x, y);
          StrLessTransitive(z, x, y);
        }
      }
    }
  }

  /** The `id` re-sort orders the rows by key and keeps every row. */
  lemma {:induction false} IdSortCorrect(rows: seq<seq<Cell>>)
    ensures Sorting.Sorted(Sorting.Sort(rows, IdLe()), IdLe())
    ensures multiset(Sorting.Sort(rows, IdLe())) == multiset(rows)
  {
    var le := IdLe();
    forall x, y | x in rows && y in rows
      ensures le(x, y) || le(y, x)
    {
      if CellLess(IdKey(y), IdKey(x)) {
        CellLessAsymmetric(IdKey(y), IdKey(x));
      }
    }
    forall x, y, z | x in rows && y in rows && z in rows && le(x, y) && le(y, z)
      ensures le(x, z)
    {
      CellNotLessTransitive(IdKey(x), IdKey(y), IdKey(z));
    }
    Sorting.SortSorted(rows, le);
    Sorting.SortPermutes(rows, le);
  }

  /**
   * The shape of the table: the headers are the axis label and the group
   * values in series order; there is one row per variable value of any series,
   * in ascending order; every row has one cell per header and starts with its
   * variable value.  For the `id` variable the same rows come re-sorted.
   */
  lemma {:induction false} TableShape(series: CompatibleSet, variable: string, measure: string, axesLabel: string)
    requires TableReady(series, measure)
    ensures var headers, rows := Headers(series, axesLabel), TableRows(series, variable, measure);
      |headers| == |series| + 1 && headers[0] == Str(axesLabel) &&
      (forall j | 0 <= j < |series| :: headers[j + 1] == series[j].0) &&
      |rows| == |AllVariables(series)| &&
      (forall r: seq<Cell> | r in rows :: |r| == |headers| && r[0].Val? && r[0].v in AllVariables(series)) &&
      multiset(rows) == multiset(BaseRows(series, measure))
  {
    HeadersShape(series, axesLabel);
    TableRowsShape(series, variable, measure);
  }

  lemma {:induction false} HeadersShape(series: CompatibleSet, axesLabel: string)
    ensures var headers := Headers(series, axesLabel);
      |headers| == |series| + 1 && headers[0] == Str(axesLabel) &&
      forall j | 0 <= j < |series| :: headers[j + 1] == series[j].0
  {
    var headers, ks := Headers(series, axesLabel), Keys(series);
    assert headers == [Str(axesLabel)] + ks;
    forall j | 0 <= j < |series|
      ensures headers[j + 1] == series[j].0
    {
      assert headers[j + 1] == ks[j];
    }
  }

  lemma {:induction false} TableRowsShape(series: CompatibleSet, variable: string, measure: string)
    requires TableReady(series, measure)
    ensures var rows := TableRows(series, variable, measure);
      |rows| == |AllVariables(series)| &&
      (forall r: seq<Cell> | r in rows :: |r| == |series| + 1 && r[0].Val? && r[0].v in AllVariables(series)) &&
      multiset(rows) == multiset(BaseRows(series, measure))
  {
    var base := BaseRows(series, measure);
    BaseRowsShape(series, measure);
    if variable == "id" {
      Sorting.SortPermutes(base, IdLe());
      Sorting.SortElements(base, IdLe());
    }
  }

  lemma {:induction false} BaseRowsShape(series: CompatibleSet, measure: string)
    requires TableReady(series, measure)
    ensures forall r: seq<Cell> | r in BaseRows(series, measure) :: |r| == |series| + 1 && r[0].Val? && r[0].v in AllVariables(series)
  {
    var base := BaseRows(series, measure);
    forall r: seq<Cell> | r in base
      ensures |r| == |series| + 1 && r[0].Val? && r[0].v in AllVariables(series)
    {
      var i :| 0 <= i < |base| && base[i] == r;
    }
  }

  /** For the `id` variable the rows are ordered by their first data cell, a false one counting as -1. */
  lemma {:induction false} IdTableSorted(series: CompatibleSet, measure: string)
    requires TableReady(series, measure)
    ensures Sorting.Sorted(TableRows(series, "id", measure), IdLe())
  {
    IdSortCorrect(BaseRows(series, measure));
  }

  /** Every value that some series has gets a row, and no other value does. */
  lemma {:induction false} TableVariables(series: CompatibleSet)
    ensures forall v :: v in AllVariables(series) <==> exists j | 0 <= j < |series| :: v in Keys(series[j].1)
    ensures forall a, b | 0 <= a < b < |AllVariables(series)| :: Less(AllVariables(series)[a], AllVariables(series)[b])
  {
  }

  /** Outside the `id` case the rows stay in variable order, each cell coming from its group. */
  lemma {:induction false} TableCells(series: CompatibleSet, variable: string, measure: string, r: nat, j: nat)
    requires TableReady(series, measure) && variable != "id"
    requires r < |AllVariables(series)| && j < |series|
    ensures var row := TableRows(series, variable, measure)[r];
      row[0] == Val(AllVariables(series)[r]) && row[j + 1] == CellFor(series[j].1, AllVariables(series)[r], measure)
  {
  }

  /** plot_data.py:397-399: the union of the series' variable values, one `update` per series. */
  method CollectVariables(series: CompatibleSet) returns (allSet: set<Value>)
    ensures allSet == VariableSet(series)
  {
    allSet := {};
    for j := 0 to |series|
      invariant allSet == VariableSet(series[..j])
    {
      assert series[..j + 1][..j] == series[..j];
      allSet := allSet + KeySet(series[j].1);
    }
    assert series[..|series|] == series;
  }

  /** plot_data.py:411-419: one row, the variable value followed by a cell per group. */
  method BuildRow(series: CompatibleSet, v: Value, measure: string) returns (row: seq<Cell>)
    requires TableReady(series, measure)
    ensures row == Row(series, v, measure)
  {
    row := [Val(v)];
    for j := 0 to |series|
      invariant row == [Val(v)] + Cells(series, v, measure)[..j]
    {
      var val := CellFor(series[j].1, v, measure);
      assert Cells(series, v, measure)[..j + 1] == Cells(series, v, measure)[..j] + [val];
      row := row + [val];
    }
    assert Cells(series, v, measure)[..|series|] == Cells(series, v, measure);
  }

  /** plot_data.py:410-420: the outer loop, one row per variable value. */
  method BuildRows(series: CompatibleSet, all: seq<Value>, measure: string) returns (rows: seq<seq<Cell>>)
    requires TableReady(series, measure)
    ensures rows == RowsFor(series, all, measure)
  {
    rows := [];
    for r := 0 to |all|
      invariant rows == RowsFor(series, all[..r], measure)
    {
      var row := BuildRow(series, all[r], measure);
      assert all[..r + 1] == all[..r] + [all[r]];
      RowsForSnoc(series, all[..r], all[r], measure);
      rows := rows + [row];
    }
    assert all[..|all|] == all;
  }

  /** plot_data.py `make_table`: collects the variable values, builds one row per value, re-sorts for `id`. */
  method MakeTable(series: CompatibleSet, variable: string, measure: string, axesLabel: string)
    returns (headers: seq<Value>, rows: seq<seq<Cell>>)
    requires TableReady(series, measure)
    ensures headers == Headers(series, axesLabel)
    ensures rows == TableRows(series, variable, measure)
  {
    var allSet := CollectVariables(series);
    var all := SortedList(allSet);
    headers := Headers(series, axesLabel);
    rows := BuildRows(series, all, measure);
    if variable == "id" {
      rows := Sorting.Sort(rows, IdLe());
    }
  }
}
