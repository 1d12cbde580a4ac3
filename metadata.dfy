/**
 * datafiles.py `read_measurement_metadata`: a metadata file is a series of
 * blocks of `key: value` lines separated by blank lines; the blocks that name
 * a code revision and a repetition count are filed in an ordered dictionary,
 * either one per block or grouped by their configuration.
 */
module Metadata {
  import opened Values
  import opened Strings
  import opened Seqs
  import opened Outcomes
  import opened Records
  import opened OrderedDicts

  /** The key a measurement is filed under: its configuration, or its position among the filed ones. */
  datatype MetaKey =
    | Combined(revision: Value, checksum: Value, repetitions: Value, tool: Value,
               cpuFreq: Value, benchmarkSet: Value, substringFilter: Value)
    | Index(n: nat)

  /** The ordered dictionary of filed measurements. */
  type Compatibles = seq<(MetaKey, seq<Record>)>

  /** The reader's variables: the dictionary, the counter `i`, and the measurement being read (None before the first blank line). */
  datatype State = State(compatibles: Compatibles, next: nat, measurement: Option<Record>)

  /** The first position of a key. */
  function IndexOf(ks: seq<MetaKey>, k: MetaKey): (j: nat)
    requires k in ks
    ensures j < |ks| && ks[j] == k && forall i | 0 <= i < j :: ks[i] != k
  {
    if ks[0] == k then 0 else 1 + IndexOf(ks[1..], k)
  }

  /** `if key not in compatibles: compatibles[key] = []` followed by `compatibles[key].append(m)`. */
  function AddTo(d: Compatibles, k: MetaKey, m: Record): (r: Compatibles)
    ensures k !in Keys(d) ==> r == d + [(k, [m])]
    ensures k in Keys(d) ==>
      (|r| == |d| && Keys(r) == Keys(d)
       && var j := IndexOf(Keys(d), k);
          r[j] == (k, d[j].1 + [m]) && forall i | 0 <= i < |d| && i != j :: r[i] == d[i])
  {
    if k in Keys(d) then
      var j := IndexOf(Keys(d), k);
      d[j := (k, d[j].1 + [m])]
    else d + [(k, [m])]
  }

  /** The measurement as it is filed: `tools` copied to `tool`, and one round unless it says otherwise. */
  function Completed(m: Record): (c: Record)
    ensures "rounds" in c && (GetField(m, "rounds") != None ==> c["rounds"] == m["rounds"])
    ensures GetField(m, "rounds") == None ==> c["rounds"] == Int(1)
    ensures "tools" in m ==> "tool" in c && c["tool"] == m["tools"]
    ensures forall k | k in m && k != "tool" && k != "rounds" :: k in c && c[k] == m[k]
    ensures c.Keys == m.Keys + {"rounds"} + (if "tools" in m then {"tool"} else {})
  {
    var withTool := if "tools" in m then m["tool" := m["tools"]] else m;
    if GetField(withTool, "rounds") == None then withTool["rounds" := Int(1)] else withTool
  }

  /** A measurement is filed only when it names a code revision and a number of repetitions. */
  predicate Stored(c: Record)
  {
    Truthy(GetField(c, "code-revision")) && Truthy(GetField(c, "repetitions"))
  }

  /** The configuration of a measurement, a missing field being None. */
  function CombinedKey(c: Record): MetaKey
  {
    Combined(GetField(c, "code-revision"), GetField(c, "code-checksum"), GetField(c, "repetitions"),
             GetField(c, "tool"), GetField(c, "cpu-freq"), GetField(c, "benchmark-set"),
             GetField(c, "substring-filter"))
  }

  /** Files a finished measurement; returns the dictionary and the counter. */
  function Commit(d: Compatibles, next: nat, m: Record, combine: bool): (Compatibles, nat)
  {
    var c := Completed(m);
    if !Stored(c) then (d, next)
    else if combine then (AddTo(d, CombinedKey(c), c), next)
    else (AddTo(d, Index(next), c), next + 1)
  }

  /** A blank line: the measurement read so far, if it has anything in it, is filed, and a new one starts. */
  function Blank(s: State, combine: bool): State
  {
    if s.measurement.Some? && |s.measurement.value| > 0 then
      var filed := Commit(s.compatibles, s.next, s.measurement.value, combine);
      State(filed.0, filed.1, Some(map[]))
    else State(s.compatibles, s.next, Some(map[]))
  }

  /** A line of two or more words is an entry: the first word without its colons, and the rest. */
  function Entry(line: string): Option<(string, string)>
  {
    var ws := Words(line);
    if |ws| > 1 then Some((RStripChar(ws[0], ':'), Strip(Join(" ", ws[1..])))) else Nothing
  }

  /** One line of the file; an entry before the first blank line assigns into None and ends the program. */
  function Step(s: State, line: string, lineNumber: nat, combine: bool): Result<State>
  {
    if line == "\n" then Ok(Blank(s, combine))
    else
      match Entry(line)
      case Nothing => Ok(s)
      case Some(kv) =>
        if s.measurement.Nothing? then Exit(EntryBeforeFirstBlock(lineNumber))
        else Ok(State(s.compatibles, s.next, Some(s.measurement.value[kv.0 := Str(kv.1)])))
  }

  /** The reader after the given lines. */
  function Fold(lines: seq<string>, combine: bool): Result<State>
  {
    if |lines| == 0 then Ok(State([], 0, Nothing))
    else
      match Fold(lines[..|lines| - 1], combine)
      case Exit(e) => Exit(e)
      case Ok(s) => Step(s, lines[|lines| - 1], |lines|, combine)
  }

  /** datafiles.py `read_measurement_metadata` */
  function MetadataSpec(lines: seq<string>, combine: bool): Result<Compatibles>
  {
    match Fold(lines, combine)
    case Exit(e) => Exit(e)
    case Ok(s) => Ok(s.compatibles)
  }

  // ---------------------------------------------------------------------
  // Properties

  /** A run of blank lines files the measurement once: the second blank line changes nothing. */
  lemma {:induction false} BlankTwice(s: State, combine: bool)
    ensures Blank(Blank(s, combine), combine) == Blank(s, combine)
  {
  }

  /** A failure on the first lines is the failure of the whole file. */
  lemma {:induction false} FoldExit(lines: seq<string>, combine: bool, i: nat)
    requires i <= |lines| && Fold(lines[..i], combine).Exit?
    ensures Fold(lines, combine) == Fold(lines[..i], combine)
    decreases |lines| - i
  {
    if i < |lines| {
      assert lines[..i + 1][..i] == lines[..i];
      FoldExit(lines, combine, i + 1);
    } else {
      assert lines[..i] == lines;
    }
  }

  /** A last block not followed by a blank line is never filed. */
  lemma {:induction false} TrailingBlockIgnored(lines: seq<string>, more: seq<string>, combine: bool)
    requires "\n" !in more
    requires Fold(lines + more, combine).Ok?
    ensures Fold(lines, combine).Ok?
    ensures Fold(lines + more, combine).value.compatibles == Fold(lines, combine).value.compatibles
    ensures Fold(lines + more, combine).value.next == Fold(lines, combine).value.next
  {
    if |more| == 0 {
      assert lines + more == lines;
    } else {
      var n := |more| - 1;
      assert (lines + more)[..|lines + more| - 1] == lines + more[..n];
      assert more[n] in more;
      match Fold(lines + more[..n], combine)
      case Exit(e) =>
      case Ok(s) =>
        TrailingBlockIgnored(lines, more[..n], combine);
        assert Fold(lines + more, combine) == Step(s, more[n], |lines + more|, combine);
        EntryKeepsFiled(s, more[n], |lines + more|, combine);
    }
  }

  /** A line that is not blank leaves the filed measurements and the counter alone. */
  lemma {:induction false} EntryKeepsFiled(s: State, line: string, lineNumber: nat, combine: bool)
    requires line != "\n" && Step(s, line, lineNumber, combine).Ok?
    ensures Step(s, line, lineNumber, combine).value.compatibles == s.compatibles
    ensures Step(s, line, lineNumber, combine).value.next == s.next
  {
    match Entry(line)
    case Nothing =>
    case Some(kv) =>
      assert Step(s, line, lineNumber, combine).value == State(s.compatibles, s.next, Some(s.measurement.value[kv.0 := Str(kv.1)]));
  }

  /**
   * A blank line files a non-empty measurement exactly when it names a
   * revision and repetitions, completed, at the end of its key's list.
   */
  lemma {:induction false} BlankFiles(s: State, combine: bool)
    requires s.measurement.Some? && |s.measurement.value| > 0
    ensures var c := Completed(s.measurement.value);
      var d := Blank(s, combine).compatibles;
      var k := if combine then CombinedKey(c) else Index(s.next);
      && (!Stored(c) ==> d == s.compatibles)
      && (Stored(c) ==> k in Keys(d) && exists j | 0 <= j < |d| :: d[j].0 == k && |d[j].1| > 0 && d[j].1[|d[j].1| - 1] == c)
  {
    var c := Completed(s.measurement.value);
    var k := if combine then CombinedKey(c) else Index(s.next);
    var d := Blank(s, combine).compatibles;
    assert d == Commit(s.compatibles, s.next, s.measurement.value, combine).0;
    if Stored(c) {
      assert d == AddTo(s.compatibles, k, c);
      AddToLast(s.compatibles, k, c);
    }
  }

  /** After `AddTo`, the key is present and its list ends with the new measurement. */
  lemma {:induction false} AddToLast(d: Compatibles, k: MetaKey, c: Record)
    ensures var r := AddTo(d, k, c);
      k in Keys(r) && exists j | 0 <= j < |r| :: r[j].0 == k && |r[j].1| > 0 && r[j].1[|r[j].1| - 1] == c
  {
    var r := AddTo(d, k, c);
    var j := if k in Keys(d) then IndexOf(Keys(d), k) else |d|;
    assert r[j].0 == k && r[j].1 == (if k in Keys(d) then d[j].1 else []) + [c];
    assert Keys(r)[j] == k;
  }

  /** What every filed measurement satisfies: complete, and with a revision and repetitions. */
  predicate WellFiled(m: Record)
  {
    "rounds" in m && Stored(m) && ("tools" in m ==> "tool" in m && m["tool"] == m["tools"])
  }

  /**
   * The invariant of the dictionary: no key twice, only well-filed
   * measurements, and, when combining, each under its own configuration;
   * otherwise the keys are 0, 1, … in order, one measurement each.
   */
  predicate Invariant(s: State, combine: bool)
  {
    var d := s.compatibles;
    && Distinct(Keys(d))
    && AllFiled(d, combine)
    && (!combine ==> Numbered(d) && |d| == s.next)
  }

  /** Every filed measurement is well filed and, when combining, under its own configuration. */
  predicate AllFiled(d: Compatibles, combine: bool)
  {
    forall j, x | 0 <= j < |d| && x in d[j].1 :: WellFiled(x) && (combine ==> CombinedKey(x) == d[j].0)
  }

  /** The keys are 0, 1, … in order, with one measurement each. */
  predicate Numbered(d: Compatibles)
  {
    forall j | 0 <= j < |d| :: d[j].0 == Index(j) && |d[j].1| == 1
  }

  /** A measurement that is filed is complete. */
  lemma {:induction false} CompletedWellFiled(m: Record)
    requires Stored(Completed(m))
    ensures WellFiled(Completed(m))
  {
    var c := Completed(m);
    if "tools" in m {
      assert "tools" != "tool" && "tools" != "rounds";
      assert c["tools"] == m["tools"];
    }
  }

  /** Appending a well-filed measurement under its key keeps every measurement well filed, and no key twice. */
  lemma {:induction false} AddToKeeps(d: Compatibles, k: MetaKey, c: Record, combine: bool)
    requires Distinct(Keys(d)) && AllFiled(d, combine)
    requires WellFiled(c) && (combine ==> CombinedKey(c) == k)
    ensures Distinct(Keys(AddTo(d, k, c))) && AllFiled(AddTo(d, k, c), combine)
  {
    var r := AddTo(d, k, c);
    if k in Keys(d) {
      var j := IndexOf(Keys(d), k);
      forall i, x | 0 <= i < |r| && x in r[i].1
        ensures WellFiled(x) && (combine ==> CombinedKey(x) == r[i].0)
      {
        if i == j {
          assert x in d[j].1 || x == c;
        }
      }
    } else {
      assert Keys(r) == Keys(d) + [k];
      forall i, x | 0 <= i < |r| && x in r[i].1
        ensures WellFiled(x) && (combine ==> CombinedKey(x) == r[i].0)
      {
        if i < |d| {
          assert r[i] == d[i];
        }
      }
    }
  }

  /** Filing under the next number appends a new key. */
  lemma {:induction false} AddToNumbered(d: Compatibles, c: Record)
    requires Numbered(d)
    ensures Numbered(AddTo(d, Index(|d|), c))
  {
    assert forall j | 0 <= j < |d| :: d[j].0 != Index(|d|);
  }

  /** Filing a measurement keeps the invariant. */
  lemma {:induction false} BlankKeeps(s: State, combine: bool)
    requires Invariant(s, combine)
    ensures Invariant(Blank(s, combine), combine)
  {
    if s.measurement.Some? && |s.measurement.value| > 0 {
      var c := Completed(s.measurement.value);
      if Stored(c) {
        CompletedWellFiled(s.measurement.value);
        var k := if combine then CombinedKey(c) else Index(s.next);
        AddToKeeps(s.compatibles, k, c, combine);
        if !combine {
          AddToNumbered(s.compatibles, c);
        }
      }
    }
  }

  /** Every state the reader reaches satisfies the invariant. */
  lemma {:induction false} FoldKeeps(lines: seq<string>, combine: bool)
    requires Fold(lines, combine).Ok?
    ensures Invariant(Fold(lines, combine).value, combine)
  {
    if |lines| > 0 {
      var n := |lines| - 1;
      FoldKeeps(lines[..n], combine);
      var s := Fold(lines[..n], combine).value;
      assert Fold(lines, combine) == Step(s, lines[n], |lines|, combine);
      if lines[n] == "\n" {
        BlankKeeps(s, combine);
      } else {
        EntryKeepsFiled(s, lines[n], |lines|, combine);
      }
    }
  }

  /** The filed measurements: no key twice, all complete, and without combining one per key, numbered in filing order. */
  lemma {:induction false} MetadataFiled(lines: seq<string>, combine: bool)
    requires MetadataSpec(lines, combine).Ok?
    ensures var d := MetadataSpec(lines, combine).value;
      Distinct(Keys(d)) && AllFiled(d, combine) && (!combine ==> Numbered(d))
  {
    FoldKeeps(lines, combine);
    assert MetadataSpec(lines, combine).value == Fold(lines, combine).value.compatibles;
  }

  // ---------------------------------------------------------------------
  // The reader as the source writes it

  /** The block of the source that files the measurement once a run of blank lines ends. */
  method CommitMeasurement(compatibles: Compatibles, i: nat, measurement: Record, combine: bool)
    returns (d: Compatibles, next: nat)
    ensures (d, next) == Commit(compatibles, i, measurement, combine)
  {
    d, next := compatibles, i;
    var m := measurement;
    if "tools" in m {
      m := m["tool" := m["tools"]];
    }
    var revision := GetField(m, "code-revision");
    var checksum := GetField(m, "code-checksum");
    var repetitions := GetField(m, "repetitions");
    var tool := GetField(m, "tool");
    var cpufreq := GetField(m, "cpu-freq");
    var benchmarkSet := GetField(m, "benchmark-set");
    var substringFilter := GetField(m, "substring-filter");
    if GetField(m, "rounds") == None {
      m := m["rounds" := Int(1)];
    }
    assert m == Completed(measurement);
    assert revision == GetField(m, "code-revision") && repetitions == GetField(m, "repetitions");
    if Truthy(revision) && Truthy(repetitions) {
      var key;
      if combine {
        key := Combined(revision, checksum, repetitions, tool, cpufreq, benchmarkSet, substringFilter);
        assert key == CombinedKey(m);
      } else {
        key := Index(next);
        next := next + 1;
      }
      d := AddTo(d, key, m);
    }
  }

  /**
   * Where the reader stands: `line` is the last line read, at `pos`, and `s`
   * is the state after the lines before it; None before the first read, ""
   * at the end of the file, when `s` is the state after all lines.
   */
  predicate Cursor(lines: seq<string>, combine: bool, line: Option<string>, pos: nat, s: State)
  {
    pos <= |lines| &&
    (line == Nothing ==> pos == 0 && s == State([], 0, Nothing)) &&
    (line.Some? && line.value != "" ==> 1 <= pos && line.value == lines[pos - 1] && Fold(lines[..pos - 1], combine) == Ok(s)) &&
    (line == Some("") ==> pos == |lines| && Fold(lines, combine) == Ok(s))
  }

  /** The first `readline`. */
  lemma {:induction false} CursorFirst(lines: seq<string>, combine: bool)
    requires forall l | l in lines :: l != ""
    ensures |lines| > 0 ==> Cursor(lines, combine, Some(lines[0]), 1, State([], 0, Nothing))
    ensures |lines| == 0 ==> Cursor(lines, combine, Some(""), 0, State([], 0, Nothing))
  {
    if |lines| > 0 {
      assert lines[0] in lines;
    }
  }

  /** Taking in the last line read, then reading the next one. */
  lemma {:induction false} CursorNext(lines: seq<string>, combine: bool, line: Option<string>, pos: nat, s: State, s': State)
    requires forall l | l in lines :: l != ""
    requires Cursor(lines, combine, line, pos, s) && line.Some? && line.value != ""
    requires Step(s, line.value, pos, combine) == Ok(s')
    ensures pos < |lines| ==> Cursor(lines, combine, Some(lines[pos]), pos + 1, s')
    ensures pos == |lines| ==> Cursor(lines, combine, Some(""), pos, s')
  {
    assert lines[..pos][..pos - 1] == lines[..pos - 1];
    assert Fold(lines[..pos], combine) == Ok(s');
    if pos < |lines| {
      assert lines[pos] in lines;
      assert lines[..pos + 1][..pos] == lines[..pos];
    } else {
      assert lines[..pos] == lines;
    }
  }

  /** A line that ends the program ends the whole read. */
  lemma {:induction false} CursorExit(lines: seq<string>, combine: bool, line: Option<string>, pos: nat, s: State)
    requires Cursor(lines, combine, line, pos, s) && line.Some? && line.value != ""
    requires Step(s, line.value, pos, combine).Exit?
    ensures MetadataSpec(lines, combine) == Exit(Step(s, line.value, pos, combine).error)
  {
    assert lines[..pos][..pos - 1] == lines[..pos - 1];
    FoldExit(lines, combine, pos);
  }

  /** The next `readline`: the next line, or "" at the end of the file. */
  method ReadLine(lines: seq<string>, pos: nat) returns (line: string, next: nat)
    requires pos <= |lines|
    ensures pos < |lines| ==> line == lines[pos] && next == pos + 1
    ensures pos == |lines| ==> line == "" && next == pos
  {
    if pos < |lines| {
      line, next := lines[pos], pos + 1;
    } else {
      line, next := "", pos;
    }
  }

  /**
   * The inner `while line == "\n"` loop.  Afterwards `line` is the first line
   * that is not blank, and `skipped` tells whether a blank line was passed,
   * which files the measurement.
   */
  method SkipBlanks(lines: seq<string>, combine: bool, line0: Option<string>, pos0: nat, ghost st: State)
    returns (line: Option<string>, pos: nat, skipped: bool)
    requires forall l | l in lines :: l != ""
    requires Cursor(lines, combine, line0, pos0, st)
    ensures pos0 <= pos && line != Some("\n") && (line == Nothing ==> !skipped)
    ensures Cursor(lines, combine, line, pos, if skipped then Blank(st, combine) else st)
  {
    line, pos, skipped := line0, pos0, false;
    ghost var cur := st;
    while line == Some("\n")
      invariant pos0 <= pos && (line == Nothing ==> !skipped)
      invariant cur == if skipped then Blank(st, combine) else st
      invariant Cursor(lines, combine, line, pos, cur)
      decreases |lines| - pos + (if line == Some("\n") then 1 else 0)
    {
      line, pos := ReadAfterBlank(lines, combine, pos, st, cur);
      cur := Blank(st, combine);
      skipped := true;
    }
  }

  /** One pass of the inner loop: the blank line is taken in and the next line read. */
  method ReadAfterBlank(lines: seq<string>, combine: bool, pos: nat, ghost st: State, ghost cur: State)
    returns (line: Option<string>, next: nat)
    requires forall l | l in lines :: l != ""
    requires Cursor(lines, combine, Some("\n"), pos, cur)
    requires cur == st || cur == Blank(st, combine)
    ensures line.Some? && Cursor(lines, combine, line, next, Blank(st, combine))
    ensures pos < next || (next == pos && line == Some(""))
  {
    SkipNext(lines, combine, pos, st, cur);
    var l;
    l, next := ReadLine(lines, pos);
    line := Some(l);
  }

  /** Taking in one more blank line of a run: the measurement before the run is filed once. */
  lemma {:induction false} SkipNext(lines: seq<string>, combine: bool, pos: nat, st: State, cur: State)
    requires forall l | l in lines :: l != ""
    requires Cursor(lines, combine, Some("\n"), pos, cur)
    requires cur == st || cur == Blank(st, combine)
    ensures pos < |lines| ==> Cursor(lines, combine, Some(lines[pos]), pos + 1, Blank(st, combine))
    ensures pos == |lines| ==> Cursor(lines, combine, Some(""), pos, Blank(st, combine))
  {
    BlankTwice(st, combine);
    assert Step(cur, "\n", pos, combine) == Ok(Blank(st, combine));
    CursorNext(lines, combine, Some("\n"), pos, cur, Blank(st, combine));
  }

  /** The entry part of one round: a line of two or more words is assigned into the measurement, which must exist. */
  method ReadEntry(line: string, measurement: Option<Record>, ghost s: State, lineNumber: nat, combine: bool)
    returns (fails: bool, m: Option<Record>)
    requires line != "\n" && s.measurement == measurement
    ensures Step(s, line, lineNumber, combine) == if fails then Exit(EntryBeforeFirstBlock(lineNumber)) else Ok(State(s.compatibles, s.next, m))
  {
    fails, m := false, measurement;
    var splitted := Words(line);
    if |splitted| > 1 {
      var key := RStripChar(splitted[0], ':');
      var val := Join(" ", splitted[1..]);
      if measurement.Nothing? {
        fails := true;
        return;
      }
      m := Some(measurement.value[key := Str(Strip(val))]);
    }
  }

  /** datafiles.py `read_measurement_metadata`: the outer loop reads a line per round, the inner one skips blank lines. */
  method ReadMeasurementMetadata(lines: seq<string>, combine: bool) returns (r: Result<Compatibles>)
    requires forall l | l in lines :: l != ""
    ensures r == MetadataSpec(lines, combine)
  {
    var compatibles: Compatibles := [];
    var measurement: Option<Record> := Nothing;
    var line: Option<string> := Nothing;
    var pos := 0;
    var i := 0;
    while line != Some("")
      invariant Cursor(lines, combine, line, pos, State(compatibles, i, measurement))
      decreases |lines| - pos + (if line == Some("") then 0 else 1)
    {
      ghost var before := State(compatibles, i, measurement);
      var skipped;
      line, pos, skipped := SkipBlanks(lines, combine, line, pos, before);
      if skipped {
        if measurement.Some? && |measurement.value| > 0 {
          compatibles, i := CommitMeasurement(compatibles, i, measurement.value, combine);
        }
        measurement := Some(map[]);
      }
      ghost var current := State(compatibles, i, measurement);
      assert current == if skipped then Blank(before, combine) else before;
      if line.Some? && line.value != "" {
        var fails;
        fails, measurement := ReadEntry(line.value, measurement, current, pos, combine);
        if fails {
          CursorExit(lines, combine, line, pos, current);
          return Exit(EntryBeforeFirstBlock(pos));
        }
        CursorNext(lines, combine, line, pos, current, State(compatibles, i, measurement));
      } else if line == Nothing {
        CursorFirst(lines, combine);
      }
      var l;
      l, pos := ReadLine(lines, pos);
      line := Some(l);
    }
    return Ok(compatibles);
  }
}
