/**
 * textualtable.py: fixed-width plain-text tables, right-aligned.  A cell is
 * the text `str` gives for it.
 */
module TextualTable {
  import opened Strings
  import opened Seqs

  // ---------------------------------------------------------------------
  // make_textual_table

  /** Every row has one cell per header (a longer row fails on `max_widths[i]`, a shorter one in `format`). */
  predicate Rectangular(headers: seq<string>, rows: seq<seq<string>>)
  {
    forall r | 0 <= r < |rows| :: |rows[r]| == |headers|
  }

  /** The width of column i: the longest of its header and its cells. */
  function ColumnWidth(headers: seq<string>, rows: seq<seq<string>>, i: nat): nat
    requires i < |headers| && Rectangular(headers, rows)
  {
    if |rows| == 0 then |headers[i]|
    else
      var w := ColumnWidth(headers, rows[..|rows| - 1], i);
      var l := |rows[|rows| - 1][i]|;
      if w < l then l else w
  }

  /** The width of a column is the length of its longest entry: no entry is longer, and one has that length. */
  lemma {:induction false} ColumnWidthIsMax(headers: seq<string>, rows: seq<seq<string>>, i: nat)
    requires i < |headers| && Rectangular(headers, rows)
    ensures |headers[i]| <= ColumnWidth(headers, rows, i)
    ensures forall r | 0 <= r < |rows| :: |rows[r][i]| <= ColumnWidth(headers, rows, i)
    ensures ColumnWidth(headers, rows, i) == |headers[i]|
         || exists r | 0 <= r < |rows| :: ColumnWidth(headers, rows, i) == |rows[r][i]|
  {
    if |rows| > 0 {
      var n := |rows| - 1;
      ColumnWidthIsMax(headers, rows[..n], i);
      forall r | 0 <= r < n ensures rows[..n][r] == rows[r] { }
      if ColumnWidth(headers, rows, i) != |headers[i]| && ColumnWidth(headers, rows, i) != |rows[n][i]| {
        var r :| 0 <= r < n && ColumnWidth(headers, rows[..n], i) == |rows[..n][r][i]|;
        assert ColumnWidth(headers, rows, i) == |rows[r][i]|;
      }
    }
  }

  /** The widths of all columns. */
  function Widths(headers: seq<string>, rows: seq<seq<string>>): (ws: seq<nat>)
    requires Rectangular(headers, rows)
    ensures |ws| == |headers| && forall i | 0 <= i < |headers| :: ws[i] == ColumnWidth(headers, rows, i)
  {
    seq(|headers|, i requires 0 <= i < |headers| => ColumnWidth(headers, rows, i))
  }

  /** The cells right-aligned to their widths, each followed by three spaces (the `{:>w}   ` fields of `row_format`). */
  function Fields(cells: seq<string>, widths: seq<nat>): string
    requires |cells| == |widths|
  {
    if |cells| == 0 then ""
    else
      var n := |cells| - 1;
      Fields(cells[..n], widths[..n]) + PadLeft(cells[n], widths[n]) + "   "
  }

  /** The lines rendered with the given widths, without their newlines: the header line first, then one per row. */
  function Rendered(headers: seq<string>, rows: seq<seq<string>>, ws: seq<nat>): (ls: seq<string>)
    requires Rectangular(headers, rows) && |ws| == |headers|
    ensures |ls| == 1 + |rows| && ls[0] == Fields(headers, ws)
    ensures forall r | 0 <= r < |rows| :: ls[r + 1] == Fields(rows[r], ws)
  {
    [Fields(headers, ws)] + seq(|rows|, r requires 0 <= r < |rows| => Fields(rows[r], ws))
  }

  /** The lines of the table, each column as wide as its widest entry. */
  function TableLines(headers: seq<string>, rows: seq<seq<string>>): (ls: seq<string>)
    requires Rectangular(headers, rows)
    ensures |ls| == 1 + |rows| && ls[0] == Fields(headers, Widths(headers, rows))
    ensures forall r | 0 <= r < |rows| :: ls[r + 1] == Fields(rows[r], Widths(headers, rows))
  {
    Rendered(headers, rows, Widths(headers, rows))
  }

  /** textualtable.py `make_textual_table` */
  function TextualTable(headers: seq<string>, rows: seq<seq<string>>): string
    requires Rectangular(headers, rows)
  {
    Unlines(TableLines(headers, rows))
  }

  /** The length of a line with the given column widths: each width plus the three spaces after it. */
  function LineLength(widths: seq<nat>): nat
  {
    if |widths| == 0 then 0 else LineLength(widths[..|widths| - 1]) + widths[|widths| - 1] + 3
  }

  /** The length of the fields of a line: the widths plus three spaces per column, when no cell is wider than its column. */
  lemma {:induction false} FieldsLength(cells: seq<string>, widths: seq<nat>)
    requires |cells| == |widths| && forall k | 0 <= k < |cells| :: |cells[k]| <= widths[k]
    ensures |Fields(cells, widths)| == LineLength(widths)
  {
    if |cells| > 0 {
      var n := |cells| - 1;
      FieldsLength(cells[..n], widths[..n]);
      PadLeftShape(cells[n], widths[n]);
    }
  }

  /** A line is made of the padded cells and spaces; it has no newline when no cell has one. */
  lemma {:induction false} FieldsOneLine(cells: seq<string>, widths: seq<nat>)
    requires |cells| == |widths| && forall k | 0 <= k < |cells| :: '\n' !in cells[k]
    ensures '\n' !in Fields(cells, widths)
  {
    if |cells| > 0 {
      var n := |cells| - 1;
      FieldsOneLine(cells[..n], widths[..n]);
      PadLeftAvoids(cells[n], widths[n], '\n');
      var front, p := Fields(cells[..n], widths[..n]), PadLeft(cells[n], widths[n]);
      assert Fields(cells, widths) == front + p + "   ";
      assert '\n' !in "   ";
    }
  }

  /** No cell and no header holds a newline. */
  predicate OneLineCells(headers: seq<string>, rows: seq<seq<string>>)
  {
    && (forall k | 0 <= k < |headers| :: '\n' !in headers[k])
    && (forall r, k | 0 <= r < |rows| && 0 <= k < |rows[r]| :: '\n' !in rows[r][k])
  }

  /** No cell is wider than its column. */
  lemma {:induction false} FitsWidths(headers: seq<string>, rows: seq<seq<string>>)
    requires Rectangular(headers, rows)
    ensures var ws := Widths(headers, rows);
      && (forall i | 0 <= i < |headers| :: |headers[i]| <= ws[i])
      && (forall r, i | 0 <= r < |rows| && 0 <= i < |headers| :: |rows[r][i]| <= ws[i])
  {
    forall i | 0 <= i < |headers| {
      ColumnWidthIsMax(headers, rows, i);
    }
  }

  /** The lines of the table hold no newline when no cell does. */
  lemma {:induction false} TableLinesOneLine(headers: seq<string>, rows: seq<seq<string>>)
    requires Rectangular(headers, rows) && OneLineCells(headers, rows)
    ensures var ls := TableLines(headers, rows);
      forall l | 0 <= l < |ls| :: '\n' !in ls[l]
  {
    var ws := Widths(headers, rows);
    var ls := TableLines(headers, rows);
    FieldsOneLine(headers, ws);
    forall l | 1 <= l < |ls| ensures '\n' !in ls[l] {
      assert ls[l] == Fields(rows[l - 1], ws);
      FieldsOneLine(rows[l - 1], ws);
    }
  }

  /** Every line of the table is the sum of the widths plus three per column long. */
  lemma {:induction false} TableLinesLength(headers: seq<string>, rows: seq<seq<string>>)
    requires Rectangular(headers, rows)
    ensures var ws := Widths(headers, rows);
      var ls := TableLines(headers, rows);
      forall l | 0 <= l < |ls| :: |ls[l]| == LineLength(ws)
  {
    var ws := Widths(headers, rows);
    var ls := TableLines(headers, rows);
    FitsWidths(headers, rows);
    FieldsLength(headers, ws);
    forall l | 1 <= l < |ls| ensures |ls[l]| == LineLength(ws) {
      assert ls[l] == Fields(rows[l - 1], ws);
      FieldsLength(rows[l - 1], ws);
    }
  }

  /**
   * The table has one line for the headers and one per row, and reads back
   * as those lines when no cell holds a newline.
   */
  lemma {:induction false} TableShape(headers: seq<string>, rows: seq<seq<string>>)
    requires Rectangular(headers, rows) && OneLineCells(headers, rows)
    ensures Split(TextualTable(headers, rows), '\n') == TableLines(headers, rows) + [""]
    ensures Count(TextualTable(headers, rows), '\n') == 1 + |rows|
  {
    var ls := TableLines(headers, rows);
    TableLinesOneLine(headers, rows);
    UnlinesSplit(ls, "");
    assert Unlines(ls) + "" == Unlines(ls);
    UnlinesCount(ls);
  }

  /** The `for row in rows` loops that widen `max_widths`, on the array itself. */
  method WidenColumns(maxWidths: array<nat>, headers: seq<string>, rows: seq<seq<string>>)
    requires maxWidths.Length == |headers| && Rectangular(headers, rows)
    requires forall k | 0 <= k < |headers| :: maxWidths[k] == |headers[k]|
    modifies maxWidths
    ensures forall k | 0 <= k < |headers| :: maxWidths[k] == ColumnWidth(headers, rows, k)
  {
    for r := 0 to |rows|
      invariant forall k | 0 <= k < |headers| :: maxWidths[k] == ColumnWidth(headers, rows[..r], k)
    {
      assert rows[..r + 1][..r] == rows[..r];
      var row := rows[r];
      for i := 0 to |row|
        invariant forall k | 0 <= k < i :: maxWidths[k] == ColumnWidth(headers, rows[..r + 1], k)
        invariant forall k | i <= k < |headers| :: maxWidths[k] == ColumnWidth(headers, rows[..r], k)
      {
        var l := |row[i]|;
        if maxWidths[i] < l {
          maxWidths[i] := l;
        }
      }
    }
    assert rows[..|rows|] == rows;
  }

  /** The `for x in headers` loop that starts `max_widths` at the header lengths. */
  method HeaderWidths(headers: seq<string>) returns (maxWidths: array<nat>)
    ensures fresh(maxWidths) && maxWidths.Length == |headers|
    ensures forall k | 0 <= k < |headers| :: maxWidths[k] == |headers[k]|
  {
    maxWidths := new nat[|headers|];
    for k := 0 to |headers|
      invariant forall j | 0 <= j < k :: maxWidths[j] == |headers[j]|
    {
      maxWidths[k] := |headers[k]|;
    }
  }

  /** The header line, then one line per row, all with the same `row_format`. */
  method RenderLines(headers: seq<string>, rows: seq<seq<string>>, widths: seq<nat>) returns (result: string)
    requires Rectangular(headers, rows) && |widths| == |headers|
    ensures result == Unlines(Rendered(headers, rows, widths))
  {
    ghost var ls := Rendered(headers, rows, widths);
    result := "";
    result := result + Fields(headers, widths) + "\n";
    UnlinesPrefix(ls, 0);
    for r := 0 to |rows|
      invariant result == Unlines(ls[..r + 1])
    {
      UnlinesPrefix(ls, r + 1);
      result := result + Fields(rows[r], widths) + "\n";
    }
    assert ls[..|rows| + 1] == ls;
  }

  /** textualtable.py `make_textual_table`, with the widths in an array. */
  method MakeTextualTable(headers: seq<string>, rows: seq<seq<string>>) returns (result: string)
    requires Rectangular(headers, rows)
    ensures result == TextualTable(headers, rows)
  {
    var maxWidths := HeaderWidths(headers);
    WidenColumns(maxWidths, headers, rows);
    var widths := maxWidths[..];
    assert widths == Widths(headers, rows) by {
      assert forall k | 0 <= k < |headers| :: widths[k] == Widths(headers, rows)[k];
    }
    result := RenderLines(headers, rows, widths);
  }

  // ---------------------------------------------------------------------
  // make_vertical_textual_table

  /** The length of the longest header (`max` of an empty sequence fails). */
  function MaxLength(headers: seq<string>): (m: nat)
    requires |headers| > 0
    ensures forall k | 0 <= k < |headers| :: |headers[k]| <= m
    ensures exists k | 0 <= k < |headers| :: |headers[k]| == m
  {
    if |headers| == 1 then |headers[0]|
    else
      var m := MaxLength(headers[..|headers| - 1]);
      assert forall k | 0 <= k < |headers| - 1 :: headers[..|headers| - 1][k] == headers[k];
      var l := |headers[|headers| - 1]|;
      if m < l then l else m
  }

  /** Every group has an entry for every header. */
  predicate Covers(headers: seq<string>, elements: seq<seq<string>>)
  {
    forall g | 0 <= g < |elements| :: |elements[g]| >= |headers|
  }

  /** Entry i of every group, each after four spaces. */
  function GroupEntries(elements: seq<seq<string>>, i: nat): string
    requires forall g | 0 <= g < |elements| :: i < |elements[g]|
  {
    if |elements| == 0 then ""
    else
      var n := |elements| - 1;
      GroupEntries(elements[..n], i) + "    " + elements[n][i]
  }

  /** The line of header i, without its newline. */
  function VerticalLine(headers: seq<string>, elements: seq<seq<string>>, i: nat): string
    requires |headers| > 0 && i < |headers| && Covers(headers, elements)
  {
    PadLeft(headers[i], MaxLength(headers)) + GroupEntries(elements, i)
  }

  function VerticalLines(headers: seq<string>, elements: seq<seq<string>>): (ls: seq<string>)
    requires |headers| > 0 && Covers(headers, elements)
    ensures |ls| == |headers|
  {
    seq(|headers|, i requires 0 <= i < |headers| => VerticalLine(headers, elements, i))
  }

  /** textualtable.py `make_vertical_textual_table` */
  function VerticalTextualTable(headers: seq<string>, elements: seq<seq<string>>): string
    requires |headers| > 0 && Covers(headers, elements)
  {
    Unlines(VerticalLines(headers, elements))
  }

  /** Every line starts with its header, right-aligned to the longest one. */
  lemma {:induction false} VerticalLineStart(headers: seq<string>, elements: seq<seq<string>>, i: nat)
    requires |headers| > 0 && i < |headers| && Covers(headers, elements)
    ensures var w := MaxLength(headers);
      var line := VerticalLine(headers, elements, i);
      && |line| >= w
      && line[w - |headers[i]|..w] == headers[i]
      && forall k | 0 <= k < w - |headers[i]| :: line[k] == ' '
  {
    var w := MaxLength(headers);
    PadLeftShape(headers[i], w);
    var p := PadLeft(headers[i], w);
    var line := VerticalLine(headers, elements, i);
    assert line[..w] == p;
    assert line[w - |headers[i]|..w] == p[w - |headers[i]|..];
  }

  /** The entries after the header are the groups' entries, each four spaces in. */
  lemma {:induction false} GroupEntriesLength(elements: seq<seq<string>>, i: nat)
    requires forall g | 0 <= g < |elements| :: i < |elements[g]|
    ensures |GroupEntries(elements, i)| == Sum(seq(|elements|, g requires 0 <= g < |elements| => 4 + |elements[g][i]|))
  {
    var all := seq(|elements|, g requires 0 <= g < |elements| => 4 + |elements[g][i]|);
    if |elements| > 0 {
      var n := |elements| - 1;
      GroupEntriesLength(elements[..n], i);
      var front := seq(n, g requires 0 <= g < n => 4 + |elements[..n][g][i]|);
      assert all == front + [4 + |elements[n][i]|];
      SumAppend(front, [4 + |elements[n][i]|]);
    }
  }

  /** The entries of a line hold no newline when none of them does. */
  lemma {:induction false} GroupEntriesOneLine(elements: seq<seq<string>>, i: nat)
    requires forall g | 0 <= g < |elements| :: i < |elements[g]| && '\n' !in elements[g][i]
    ensures '\n' !in GroupEntries(elements, i)
  {
    if |elements| > 0 {
      GroupEntriesOneLine(elements[..|elements| - 1], i);
    }
  }

  /**
   * The vertical table has one line per header, each as long as the longest
   * header plus four and the entry for each group, and reads back as those
   * lines when no text holds a newline.
   */
  lemma {:induction false} VerticalShape(headers: seq<string>, elements: seq<seq<string>>)
    requires |headers| > 0 && Covers(headers, elements)
    requires forall k | 0 <= k < |headers| :: '\n' !in headers[k]
    requires forall g, k | 0 <= g < |elements| && 0 <= k < |headers| :: '\n' !in elements[g][k]
    ensures var ls := VerticalLines(headers, elements);
      && Split(VerticalTextualTable(headers, elements), '\n') == ls + [""]
      && Count(VerticalTextualTable(headers, elements), '\n') == |headers|
      && forall i | 0 <= i < |headers| ::
           |ls[i]| == MaxLength(headers) + Sum(seq(|elements|, g requires 0 <= g < |elements| => 4 + |elements[g][i]|))
  {
    var ls := VerticalLines(headers, elements);
    forall i | 0 <= i < |headers|
      ensures '\n' !in ls[i]
      ensures |ls[i]| == MaxLength(headers) + Sum(seq(|elements|, g requires 0 <= g < |elements| => 4 + |elements[g][i]|))
    {
      var w := MaxLength(headers);
      PadLeftShape(headers[i], w);
      var p := PadLeft(headers[i], w);
      assert forall k | 0 <= k < |p| :: p[k] == ' ' || p[k] in headers[i] by {
        forall k | 0 <= k < |p| ensures p[k] == ' ' || p[k] in headers[i] {
          if k >= |p| - |headers[i]| {
            assert p[|p| - |headers[i]|..][k - (|p| - |headers[i]|)] == p[k];
          }
        }
      }
      GroupEntriesOneLine(elements, i);
      GroupEntriesLength(elements, i);
    }
    UnlinesSplit(ls, "");
    assert Unlines(ls) + "" == Unlines(ls);
    UnlinesCount(ls);
  }

  /** One more group adds its entry at the end of a line. */
  lemma {:induction false} GroupEntriesPrefix(elements: seq<seq<string>>, g: nat, i: nat)
    requires g < |elements| && forall h | 0 <= h < |elements| :: i < |elements[h]|
    ensures GroupEntries(elements[..g + 1], i) == GroupEntries(elements[..g], i) + "    " + elements[g][i]
  {
    assert elements[..g + 1][..g] == elements[..g];
  }

  /** The `for group in elements` loop, which appends the entries of header i. */
  method AppendEntries(line: string, elements: seq<seq<string>>, i: nat) returns (result: string)
    requires forall g | 0 <= g < |elements| :: i < |elements[g]|
    ensures result == line + GroupEntries(elements, i)
  {
    result := line;
    for g := 0 to |elements|
      invariant result == line + GroupEntries(elements[..g], i)
    {
      GroupEntriesPrefix(elements, g, i);
      result := result + "    ";
      result := result + elements[g][i];
    }
    assert elements[..|elements|] == elements;
  }

  /** The body of the `for i in range(0, len(headers))` loop: the line of header i. */
  method AppendLine(text: string, headers: seq<string>, elements: seq<seq<string>>, i: nat, maxWidth: nat)
    returns (result: string)
    requires |headers| > 0 && i < |headers| && Covers(headers, elements) && maxWidth == MaxLength(headers)
    ensures result == text + VerticalLine(headers, elements, i) + "\n"
  {
    result := text + PadLeft(headers[i], maxWidth);
    result := AppendEntries(result, elements, i);
    result := result + "\n";
  }

  /** textualtable.py `make_vertical_textual_table`, growing the text one entry at a time. */
  method MakeVerticalTextualTable(headers: seq<string>, elements: seq<seq<string>>) returns (result: string)
    requires |headers| > 0 && Covers(headers, elements)
    ensures result == VerticalTextualTable(headers, elements)
  {
    result := "";
    var maxWidth := MaxLength(headers);
    ghost var ls := VerticalLines(headers, elements);
    for i := 0 to |headers|
      invariant result == Unlines(ls[..i])
    {
      result := AppendLine(result, headers, elements, i, maxWidth);
      UnlinesPrefix(ls, i);
    }
    assert ls[..|headers|] == ls;
  }
}
