/**
 * gnuplot.py: the data block written for gnuplot (`print_benchmarks` and
 * `format_value`), and the numbers `output_plot` computes for its templates
 * (the lower end of the y range, and the columns of the fitted style).
 */
module Gnuplot {
  import opened Values
  import opened Strings
  import opened Seqs
  import Plotting

  // ---------------------------------------------------------------------
  // format_value and print_benchmarks

  /** gnuplot.py `format_value`: None is plotted as -500, strings are quoted, anything else is `str`. */
  function FormatValue(v: Value): string
  {
    if v == None then "-500"
    else if v.Str? then "\"" + v.s + "\""
    else Show(v)
  }

  /** A value whose rendering keeps to one line. */
  predicate OneLine(v: Value)
  {
    v.Str? ==> '\n' !in v.s
  }

  /** A formatted value starts with a double quote exactly when it is a string, and never holds a newline of its own. */
  lemma {:induction false} FormatValueShape(v: Value)
    ensures |FormatValue(v)| > 0
    ensures FormatValue(v)[0] == '"' <==> v.Str?
    ensures OneLine(v) ==> '\n' !in FormatValue(v)
  {
    var r := FormatValue(v);
    if v.Int? {
      var s := IntToString(v.i);
      ParseIntToString(v.i);
      assert s[0] == '-' || IsDigit(s[0]);
    }
    if v.Str? && OneLine(v) {
      assert r == ['"'] + v.s + ['"'];
      assert forall k | 0 <= k < |r| :: r[k] == '"' || r[k] in v.s;
    }
    if v.Int? {
      assert forall k | 0 <= k < |r| :: r[k] == '-' || IsDigit(r[k]);
    }
  }

  /** The formatted values of a row, separated by single spaces. */
  function Line(vs: seq<Value>): string
  {
    Join(" ", seq(|vs|, k requires 0 <= k < |vs| => FormatValue(vs[k])))
  }

  /** The line of each row. */
  function Lines(rows: seq<seq<Value>>): (ls: seq<string>)
    ensures |ls| == |rows| && forall i | 0 <= i < |rows| :: ls[i] == Line(rows[i])
  {
    seq(|rows|, i requires 0 <= i < |rows| => Line(rows[i]))
  }

  /** The header line, the row lines, then two empty lines. */
  function BenchmarksText(headers: seq<Value>, rows: seq<seq<Value>>): string
  {
    Unlines([Line(headers)] + Lines(rows)) + "\n\n"
  }

  /** gnuplot.py `print_benchmarks`; the comment lines it starts with are overwritten and never returned. */
  method PrintBenchmarks(headers: seq<Value>, rows: seq<seq<Value>>, title: string,
                         group: Value, variable: Value, measure: Value) returns (result: string)
    ensures result == BenchmarksText(headers, rows)
  {
    result := "#" + title + "\n";
    if Truthy(group) && Truthy(variable) && Truthy(measure) {
      result := "#measure:" + Show(measure) + " variable:" + Show(variable) + " group:" + Show(group);
    }
    result := Line(headers);
    result := result + "\n";
    assert result == Unlines([Line(headers)]) by {
      UnlinesAppend([], Line(headers));
    }
    for i := 0 to |rows|
      invariant result == Unlines([Line(headers)] + Lines(rows[..i]))
    {
      assert Lines(rows[..i + 1]) == Lines(rows[..i]) + [Line(rows[i])];
      UnlinesAppend([Line(headers)] + Lines(rows[..i]), Line(rows[i]));
      assert [Line(headers)] + Lines(rows[..i + 1]) == [Line(headers)] + Lines(rows[..i]) + [Line(rows[i])];
      result := result + Line(rows[i]);
      result := result + "\n";
    }
    assert rows[..|rows|] == rows;
    result := result + "\n\n";
  }

  /** A join of one-line parts with a one-line separator is one line. */
  lemma {:induction false} JoinOneLine(sep: string, parts: seq<string>)
    requires '\n' !in sep && forall k | 0 <= k < |parts| :: '\n' !in parts[k]
    ensures '\n' !in Join(sep, parts)
  {
    if |parts| > 1 {
      JoinOneLine(sep, parts[1..]);
    }
  }

  /** The line of a row whose strings hold no newline has no newline either. */
  lemma {:induction false} LineOneLine(vs: seq<Value>)
    requires forall k | 0 <= k < |vs| :: OneLine(vs[k])
    ensures '\n' !in Line(vs)
  {
    var parts := seq(|vs|, k requires 0 <= k < |vs| => FormatValue(vs[k]));
    forall k | 0 <= k < |vs| ensures '\n' !in parts[k] {
      FormatValueShape(vs[k]);
    }
    JoinOneLine(" ", parts);
  }

  /** Every cell of the table keeps to one line. */
  predicate AllOneLine(headers: seq<Value>, rows: seq<seq<Value>>)
  {
    && (forall k | 0 <= k < |headers| :: OneLine(headers[k]))
    && (forall i, k | 0 <= i < |rows| && 0 <= k < |rows[i]| :: OneLine(rows[i][k]))
  }

  /** The header line and the row lines hold no newline when no string does. */
  lemma {:induction false} AllLinesOneLine(headers: seq<Value>, rows: seq<seq<Value>>)
    requires AllOneLine(headers, rows)
    ensures var ls := [Line(headers)] + Lines(rows);
      forall k | 0 <= k < |ls| :: '\n' !in ls[k]
  {
    LineOneLine(headers);
    forall i | 0 <= i < |rows| ensures '\n' !in Line(rows[i]) {
      LineOneLine(rows[i]);
    }
  }

  /**
   * When no string holds a newline, the output reads back, line by line, as
   * the header line, one line per row, and two empty lines.
   */
  lemma {:induction false} BenchmarksLines(headers: seq<Value>, rows: seq<seq<Value>>)
    requires AllOneLine(headers, rows)
    ensures Split(BenchmarksText(headers, rows), '\n') == [Line(headers)] + Lines(rows) + ["", "", ""]
  {
    AllLinesOneLine(headers, rows);
    UnlinesSplit([Line(headers)] + Lines(rows), "\n\n");
    assert "\n\n" == "" + ['\n'] + ("" + ['\n'] + "");
    SplitAfterPart("", '\n', "" + ['\n'] + "");
    SplitAfterPart("", '\n', "");
  }

  /** The output holds exactly as many newlines as the rows plus three. */
  lemma {:induction false} BenchmarksNewlines(headers: seq<Value>, rows: seq<seq<Value>>)
    requires AllOneLine(headers, rows)
    ensures Count(BenchmarksText(headers, rows), '\n') == |rows| + 3
  {
    AllLinesOneLine(headers, rows);
    UnlinesCount([Line(headers)] + Lines(rows));
    CountAppend(Unlines([Line(headers)] + Lines(rows)), "\n\n", '\n');
  }

  // ---------------------------------------------------------------------
  // miny

  /** Python 2's `<` exactly: None below numbers, numbers (bools as 0 and 1) below strings. */
  predicate PyLess(a: Value, b: Value)
  {
    if Rank(a) != Rank(b) then Rank(a) < Rank(b)
    else if a.Str? then StrLess(a.s, b.s)
    else if IsNumber(a) then Num(a) < Num(b)
    else false
  }

  /** The smallest of `start` and the cells, as the `if cell < miny` loop finds it. */
  function Least(start: Value, cells: seq<Value>): Value
  {
    if |cells| == 0 then start
    else
      var m := Least(start, cells[..|cells| - 1]);
      if PyLess(cells[|cells| - 1], m) then cells[|cells| - 1] else m
  }

  /** Every cell but the first of every row. */
  function DataCells(rows: seq<seq<Value>>): seq<Value>
  {
    if |rows| == 0 then []
    else DataCells(rows[..|rows| - 1]) + (if |rows[|rows| - 1]| == 0 then [] else rows[|rows| - 1][1..])
  }

  /** The lower end of the y range: the least cell or 0, or `*` (gnuplot's automatic bound) after a None. */
  function MinY(rows: seq<seq<Value>>): Value
  {
    var m := Least(Int(0), DataCells(rows));
    if m == None then Str("*") else m
  }

  /**
   * Starting from 0, the least is None as soon as one cell is None;
   * otherwise it is a number, 0 or one of the cells, no greater than any
   * numeric cell.  Strings are never less than a number and are passed by.
   */
  lemma {:induction false} LeastFacts(cells: seq<Value>)
    ensures None in cells ==> Least(Int(0), cells) == None
    ensures None !in cells ==> var m := Least(Int(0), cells);
      && IsNumber(m) && Num(m) <= 0
      && (m == Int(0) || m in cells)
      && forall k | 0 <= k < |cells| && IsNumber(cells[k]) :: Num(m) <= Num(cells[k])
  {
    if |cells| > 0 {
      var n := |cells| - 1;
      var init := cells[..n];
      LeastFacts(init);
      assert cells == init + [cells[n]];
      if None in init {
        assert None in cells;
      }
      if None !in cells {
        assert None !in init;
        var m := Least(Int(0), init);
        forall k | 0 <= k < n && IsNumber(cells[k]) ensures Num(m) <= Num(cells[k]) {
          assert cells[k] == init[k];
        }
        if m in init {
          assert m in cells;
        }
      }
    }
  }

  /** What `miny` ends as: `*` exactly when some data cell is None, otherwise the least of 0 and the numeric data cells. */
  lemma {:induction false} MinYFacts(rows: seq<seq<Value>>)
    ensures MinY(rows) == Str("*") <==> None in DataCells(rows)
    ensures None !in DataCells(rows) ==> var m := MinY(rows);
      && IsNumber(m) && Num(m) <= 0
      && (m == Int(0) || m in DataCells(rows))
      && forall k | 0 <= k < |DataCells(rows)| && IsNumber(DataCells(rows)[k]) :: Num(m) <= Num(DataCells(rows)[k])
  {
    LeastFacts(DataCells(rows));
  }

  /** The data cells are the cells after the first of each row, row by row. */
  lemma {:induction false} DataCellsIn(rows: seq<seq<Value>>, i: nat, k: nat)
    requires i < |rows| && 1 <= k < |rows[i]|
    ensures rows[i][k] in DataCells(rows)
  {
    var n := |rows| - 1;
    if i < n {
      DataCellsIn(rows[..n], i, k);
    } else {
      assert rows[i][1..][k - 1] == rows[i][k];
    }
  }

  /** gnuplot.py `output_plot`, lines 109-115. */
  method ComputeMinY(rows: seq<seq<Value>>) returns (miny: Value)
    ensures miny == MinY(rows)
  {
    miny := Int(0);
    for i := 0 to |rows|
      invariant miny == Least(Int(0), DataCells(rows[..i]))
    {
      assert rows[..i + 1][..i] == rows[..i];
      ghost var before := DataCells(rows[..i]);
      var row := rows[i];
      var tail := if |row| == 0 then [] else row[1..];
      assert DataCells(rows[..i + 1]) == before + tail;
      assert before + tail[..0] == before;
      for j := 0 to |tail|
        invariant miny == Least(Int(0), before + tail[..j])
      {
        assert (before + tail[..j + 1])[..|before| + j] == before + tail[..j];
        if PyLess(tail[j], miny) {
          miny := tail[j];
        }
      }
      assert tail[..|tail|] == tail;
    }
    assert rows[..|rows|] == rows;
    if miny == None {
      miny := Str("*");
    }
  }

  // ---------------------------------------------------------------------
  // The fitted style

  /** `last_real_column` and `first_fitted_column` for a table of the given number of headers (Python 2's `/` floors). */
  function FittedColumns(headerCount: nat): (r: (int, int))
    ensures r.1 == r.0 + 1
  {
    var length := headerCount - 1;
    var lastReal := 1 + length / 2;
    (lastReal, lastReal + 1)
  }

  /**
   * For the fitted table, whose headers are the measured ones followed by a
   * second copy of all but the first, gnuplot columns 2 to `last_real_column`
   * are the measured values and `first_fitted_column` onwards the fitted
   * ones, up to the last column (gnuplot column k + 1 is row position k).
   */
  lemma {:induction false} FittedColumnsMatch<T, P, H>(xv: T, row: seq<T>, polys: seq<P>, eval: (P, T) -> T, headers: seq<H>)
    requires |row| == |headers| > 0 && |row| - 1 <= |polys|
    ensures var cols := FittedColumns(|headers + headers[1..]|);
      var r := Plotting.FittedRow(xv, row, polys, eval);
      && cols.0 == |headers| && cols.1 == |headers| + 1 && |r| == 2 * |headers| - 1
      && (forall k | 1 <= k < cols.0 :: r[k] == row[k])
      && (forall k | cols.0 <= k < |r| :: r[k] == eval(polys[k - |row|], xv))
  {
    var h := |headers|;
    assert |headers + headers[1..]| - 1 == 2 * (h - 1);
    var r := Plotting.FittedRow(xv, row, polys, eval);
    forall k | h <= k < |r|
      ensures r[k] == eval(polys[k - |row|], xv)
    {
      var j := k - |row|;
      assert 0 <= j < |row| - 1;
      assert r[|row| + j] == eval(polys[j], xv);
    }
  }
}
