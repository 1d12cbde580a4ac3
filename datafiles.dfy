/**
 * datafiles.py `value`, `empty_label` and `read_datafiles`: comma-separated
 * measurement files become benchmark records.  A file is the sequence of the
 * lines `readline` returns, each with its newline; the empty string that
 * `readline` returns at the end of a file is not one of them.
 */
module DataFiles {
  import opened Values
  import opened Strings
  import opened Seqs
  import opened Outcomes
  import opened Records

  // ---------------------------------------------------------------------
  // value

  /** `RE_EMPTY.match(s)`: nothing but whitespace, or nothing at all. */
  predicate IsBlankText(s: string)
  {
    forall i | 0 <= i < |s| :: IsSpace(s[i])
  }

  /** `RE_NUMERICAL.match(s)`: `-?[0-9]+`, where `$` also matches before one final newline. */
  predicate IsNumericText(s: string)
  {
    IsIntText(s) || (|s| > 0 && s[|s| - 1] == '\n' && IsIntText(s[..|s| - 1]))
  }

  /** `int(s)` of a numeric field: a final newline is whitespace that `int` ignores. */
  function NumericValue(s: string): int
    requires IsNumericText(s)
  {
    if IsIntText(s) then ParseInt(s) else ParseInt(s[..|s| - 1])
  }

  /** The part after the last `.`, `s.split('.')[-1]`. */
  function LastDotted(s: string): (r: string)
    ensures '.' !in r
  {
    var parts := Split(s, '.');
    JoinSplit(s, '.');
    assert parts[|parts| - 1] in parts;
    parts[|parts| - 1]
  }

  /**
   * datafiles.py `value`: `start` and `end` stay text, a class name loses its
   * package, `-` and blank fields are None, integers are parsed, and anything
   * else stays the text it is.
   */
  function ValueOf(s: string, key: string): Value
  {
    if key == "start" || key == "end" then Str(s)
    else if key == "class" then Str(LastDotted(s))
    else if s == "-" || IsBlankText(s) then None
    else if IsNumericText(s) then Int(NumericValue(s))
    else Str(s)
  }

  /** An ordinary key: not one of those `value` treats specially. */
  predicate PlainKey(key: string)
  {
    key != "start" && key != "end" && key != "class"
  }

  /**
   * `value(str(n))` is `n` for an ordinary key, also as the last field of a
   * line, which still carries the newline.
   */
  lemma {:induction false} ValueOfInt(n: int, key: string)
    requires PlainKey(key)
    ensures ValueOf(IntToString(n), key) == Int(n)
    ensures ValueOf(IntToString(n) + "\n", key) == Int(n)
  {
    var s := IntToString(n);
    ParseIntToString(n);
    assert s[0] == '-' || IsDigit(s[0]);
    assert !IsBlankText(s) && s != "-";
    var t := s + "\n";
    assert t[..|t| - 1] == s;
    assert !IsBlankText(t) by {
      assert !IsSpace(t[0]);
    }
    assert !IsDigit(t[|t| - 1]);
  }

  /** A qualified class name keeps its last component. */
  lemma {:induction false} ValueOfClass(prefix: string, name: string)
    requires '.' !in name
    ensures ValueOf(prefix + "." + name, "class") == Str(name)
  {
    assert prefix + "." + name == prefix + ['.'] + name;
    SplitBeforeLast(prefix, '.', name);
  }

  /** The padding `-` of a short line reads as None under an ordinary key. */
  lemma {:induction false} ValueOfDash(key: string)
    requires PlainKey(key)
    ensures ValueOf("-", key) == None
  {
  }

  // ---------------------------------------------------------------------
  // empty_label

  /** datafiles.py `empty_label`: the counter, threaded in and out, goes up by one and names the label. */
  function EmptyLabel(counter: nat): (r: (string, nat))
    ensures r.1 == counter + 1
  {
    ("empty_" + NatToString(counter + 1), counter + 1)
  }

  /** Labels made from different counter values differ, so the counter never repeats a label. */
  lemma {:induction false} EmptyLabelsDistinct(a: nat, b: nat)
    requires a != b
    ensures EmptyLabel(a).0 != EmptyLabel(b).0
  {
    var ta, tb := NatToString(a + 1), NatToString(b + 1);
    ParseNatToString(a + 1);
    ParseNatToString(b + 1);
    assert ta != tb;
    assert ("empty_" + ta)[6..] == ta && ("empty_" + tb)[6..] == tb;
  }

  /** A made-up label is never blank, nor one of the keys `value` treats specially, nor `lineno`. */
  lemma {:induction false} EmptyLabelShape(counter: nat)
    ensures !IsBlankText(EmptyLabel(counter).0)
    ensures PlainKey(EmptyLabel(counter).0) && EmptyLabel(counter).0 != "lineno"
  {
    var l := EmptyLabel(counter).0;
    assert l[0] == 'e' && l[1] == 'm';
  }

  /** The number of blank labels, each of which takes one counter value. */
  function BlankCount(labels: seq<string>): (n: nat)
    ensures n <= |labels|
  {
    if |labels| == 0 then 0
    else BlankCount(labels[..|labels| - 1]) + (if IsBlankText(labels[|labels| - 1]) then 1 else 0)
  }

  /** The header labels with each blank one replaced by the next `empty_N`, and the counter afterwards. */
  function Relabel(labels: seq<string>, counter: nat): (r: (seq<string>, nat))
    ensures |r.0| == |labels|
    ensures r.1 == counter + BlankCount(labels)
  {
    if |labels| == 0 then ([], counter)
    else
      var init := Relabel(labels[..|labels| - 1], counter);
      var l := labels[|labels| - 1];
      if IsBlankText(l) then (init.0 + [EmptyLabel(init.1).0], init.1 + 1)
      else (init.0 + [l], init.1)
  }

  /**
   * A label that is not blank is kept; the blank one at position i becomes
   * `empty_N` with N one more than the counter plus the blanks before it.
   */
  lemma {:induction false} RelabelAt(labels: seq<string>, counter: nat, i: nat)
    requires i < |labels|
    ensures !IsBlankText(labels[i]) ==> Relabel(labels, counter).0[i] == labels[i]
    ensures IsBlankText(labels[i]) ==> Relabel(labels, counter).0[i] == EmptyLabel(counter + BlankCount(labels[..i])).0
  {
    var init := labels[..|labels| - 1];
    if i < |labels| - 1 {
      RelabelAt(init, counter, i);
      assert init[i] == labels[i];
      assert init[..i] == labels[..i];
    } else {
      assert labels[..i] == init;
    }
  }

  /** The `for i, l in enumerate(labels)` loop, which replaces blank labels in place. */
  method RelabelInPlace(labels: seq<string>, counter: nat) returns (out: seq<string>, next: nat)
    ensures (out, next) == Relabel(labels, counter)
  {
    out := labels;
    next := counter;
    for i := 0 to |labels|
      invariant |out| == |labels|
      invariant out[..i] == Relabel(labels[..i], counter).0 && out[i..] == labels[i..]
      invariant next == Relabel(labels[..i], counter).1
    {
      assert labels[..i + 1][..i] == labels[..i];
      assert out[i] == out[i..][0] == labels[i];
      if IsBlankText(out[i]) {
        var made := EmptyLabel(next);
        next := made.1;
        out := out[i := made.0];
      }
      assert out[..i + 1] == out[..i] + [out[i]];
      assert out[i + 1..] == labels[i + 1..];
    }
    assert labels[..|labels|] == labels && out[..|labels|] == out;
  }

  // ---------------------------------------------------------------------
  // One data line

  /** `['-'] * n` */
  function Dashes(n: int): (r: seq<string>)
    ensures |r| == if n < 0 then 0 else n
    ensures forall k | 0 <= k < |r| :: r[k] == "-"
  {
    if n <= 0 then [] else Dashes(n - 1) + ["-"]
  }

  /** The fields of a line padded with `-` up to the number of labels. */
  function Padded(labels: seq<string>, line: string): (fields: seq<string>)
  {
    var exploded := Split(line, ',');
    exploded + Dashes(|labels| - |exploded|)
  }

  /** The record of one line: its line number, then each label with its field's value; a repeated label keeps its last value. */
  function RowRecord(labels: seq<string>, fields: seq<string>, lineno: nat): Record
    requires |fields| == |labels|
  {
    if |labels| == 0 then map["lineno" := Int(lineno)]
    else
      var n := |labels| - 1;
      RowRecord(labels[..n], fields[..n], lineno)[labels[n] := ValueOf(fields[n], labels[n])]
  }

  /** The labels a line gives a value other than None (`keys_with_values`). */
  function RowValued(labels: seq<string>, fields: seq<string>): set<string>
    requires |fields| == |labels|
  {
    if |labels| == 0 then {}
    else
      var n := |labels| - 1;
      RowValued(labels[..n], fields[..n]) + (if ValueOf(fields[n], labels[n]) != None then {labels[n]} else {})
  }

  /** One data line: too many fields end the program; otherwise its record and its valued labels. */
  function ParseRow(labels: seq<string>, line: string, lineno: nat): Result<(Record, set<string>)>
  {
    var fields := Padded(labels, line);
    if |labels| != |fields| then Exit(TooManyFields(lineno, |labels|, |fields|))
    else Ok((RowRecord(labels, fields, lineno), RowValued(labels, fields)))
  }

  /** A line fails exactly when it has more fields than there are labels; a short one is padded. */
  lemma {:induction false} ParseRowFails(labels: seq<string>, line: string, lineno: nat)
    ensures ParseRow(labels, line, lineno).Exit? <==> |Split(line, ',')| > |labels|
    ensures |Split(line, ',')| <= |labels| ==>
      (|Padded(labels, line)| == |labels| && forall k | |Split(line, ',')| <= k < |labels| :: Padded(labels, line)[k] == "-")
  {
  }

  /** The keys of a line's record are `lineno` and the labels. */
  lemma {:induction false} RowRecordKeys(labels: seq<string>, fields: seq<string>, lineno: nat)
    requires |fields| == |labels|
    ensures RowRecord(labels, fields, lineno).Keys == {"lineno"} + LabelSet(labels)
  {
    if |labels| > 0 {
      var n := |labels| - 1;
      RowRecordKeys(labels[..n], fields[..n], lineno);
      assert labels == labels[..n] + [labels[n]];
      assert LabelSet(labels) == LabelSet(labels[..n]) + {labels[n]};
    }
  }

  /** With distinct labels, each label holds the value of its own field; without a `lineno` label, `lineno` holds the line number. */
  lemma {:induction false} RowRecordAt(labels: seq<string>, fields: seq<string>, lineno: nat, k: nat)
    requires |fields| == |labels| && Distinct(labels) && k < |labels|
    ensures labels[k] in RowRecord(labels, fields, lineno)
    ensures RowRecord(labels, fields, lineno)[labels[k]] == ValueOf(fields[k], labels[k])
  {
    var n := |labels| - 1;
    if k < n {
      assert Distinct(labels[..n]);
      RowRecordAt(labels[..n], fields[..n], lineno, k);
      assert labels[..n][k] == labels[k] && fields[..n][k] == fields[k];
    }
  }

  /** Without a `lineno` label, the record's `lineno` is the line number. */
  lemma {:induction false} RowRecordLineno(labels: seq<string>, fields: seq<string>, lineno: nat)
    requires |fields| == |labels| && "lineno" !in labels
    ensures "lineno" in RowRecord(labels, fields, lineno) && RowRecord(labels, fields, lineno)["lineno"] == Int(lineno)
  {
    if |labels| > 0 {
      var n := |labels| - 1;
      assert "lineno" !in labels[..n] by {
        forall l | l in labels[..n] ensures l in labels { }
      }
      RowRecordLineno(labels[..n], fields[..n], lineno);
      assert labels[n] in labels;
    }
  }

  /** The valued labels are exactly the labels of fields whose value is not None. */
  lemma {:induction false} RowValuedIff(labels: seq<string>, fields: seq<string>, key: string)
    requires |fields| == |labels|
    ensures key in RowValued(labels, fields) <==> exists k | 0 <= k < |labels| :: labels[k] == key && ValueOf(fields[k], labels[k]) != None
  {
    if |labels| > 0 {
      var n := |labels| - 1;
      RowValuedIff(labels[..n], fields[..n], key);
      if key in RowValued(labels[..n], fields[..n]) {
        var k :| 0 <= k < n && labels[..n][k] == key && ValueOf(fields[..n][k], labels[..n][k]) != None;
        assert labels[k] == key && ValueOf(fields[k], labels[k]) != None;
      }
      if exists k | 0 <= k < |labels| :: labels[k] == key && ValueOf(fields[k], labels[k]) != None {
        var k :| 0 <= k < |labels| && labels[k] == key && ValueOf(fields[k], labels[k]) != None;
        if k < n {
          assert labels[..n][k] == key && ValueOf(fields[..n][k], labels[..n][k]) != None;
        }
      }
    }
  }

  /** The `zip(labels, exploded_line)` loop of one data line. */
  method ParseLine(labels: seq<string>, line: string, lineno: nat) returns (r: Result<(Record, set<string>)>)
    ensures r == ParseRow(labels, line, lineno)
  {
    var exploded := Split(line, ',');
    var padAmount := |labels| - |exploded|;
    exploded := exploded + Dashes(padAmount);
    if |labels| != |exploded| {
      return Exit(TooManyFields(lineno, |labels|, |exploded|));
    }
    var benchmark := map["lineno" := Int(lineno)];
    var valued := {};
    for k := 0 to |labels|
      invariant benchmark == RowRecord(labels[..k], exploded[..k], lineno)
      invariant valued == RowValued(labels[..k], exploded[..k])
    {
      assert labels[..k + 1][..k] == labels[..k] && exploded[..k + 1][..k] == exploded[..k];
      var key, field := labels[k], exploded[k];
      benchmark := benchmark[key := ValueOf(field, key)];
      if ValueOf(field, key) != None {
        valued := valued + {key};
      }
    }
    assert labels[..|labels|] == labels && exploded[..|labels|] == exploded;
    return Ok((benchmark, valued));
  }

  // ---------------------------------------------------------------------
  // Reading the files

  /** What the reader has gathered so far: records, the label counter, the next line number, all labels, and the valued labels. */
  datatype Raw = Raw(records: seq<Record>, counter: nat, lineno: nat, allKeys: set<string>, valued: set<string>)

  /** `readline` never returns an empty line before the end of the file. */
  predicate WellFormed(files: seq<seq<string>>)
  {
    forall f | f in files :: forall l | l in f :: l != ""
  }

  /** The data lines of one file, read with `labels`, after `raw`. */
  function ReadLines(labels: seq<string>, lines: seq<string>, raw: Raw): Result<Raw>
  {
    if |lines| == 0 then Ok(raw)
    else
      match ReadLines(labels, lines[..|lines| - 1], raw)
      case Exit(e) => Exit(e)
      case Ok(acc) =>
        match ParseRow(labels, lines[|lines| - 1], acc.lineno)
        case Exit(e) => Exit(e)
        case Ok(row) => Ok(Raw(acc.records + [row.0], acc.counter, acc.lineno + 1, acc.allKeys, acc.valued + row.1))
  }

  /** The labels as a set (`all_keys.update(labels)`). */
  function LabelSet(labels: seq<string>): set<string>
  {
    set l | l in labels
  }

  /** The first line of a file (the empty string for an empty file). */
  function Header(lines: seq<string>): string
  {
    if |lines| > 0 then lines[0] else ""
  }

  function DataLines(lines: seq<string>): seq<string>
  {
    if |lines| > 0 then lines[1..] else []
  }

  /** The labels of a file and the counter after naming its blank ones. */
  function FileLabels(lines: seq<string>, counter: nat): (seq<string>, nat)
  {
    Relabel(Split(Header(lines), ','), counter)
  }

  /** One file: its header names the columns, its other lines are records. */
  function ReadFile(raw: Raw, lines: seq<string>): Result<Raw>
  {
    var labels := FileLabels(lines, raw.counter);
    ReadLines(labels.0, DataLines(lines),
              Raw(raw.records, labels.1, raw.lineno, raw.allKeys + LabelSet(labels.0), raw.valued))
  }

  /** All files in order, line numbers running on from one file to the next. */
  function ReadRaw(files: seq<seq<string>>, counter: nat): Result<Raw>
  {
    if |files| == 0 then Ok(Raw([], counter, 1, {}, {}))
    else
      match ReadRaw(files[..|files| - 1], counter)
      case Exit(e) => Exit(e)
      case Ok(acc) => ReadFile(acc, files[|files| - 1])
  }

  /** Each record without the keys that no record gives a value. */
  function Stripped(rs: seq<Record>, without: set<string>): (out: seq<Record>)
    ensures |out| == |rs| && forall i | 0 <= i < |rs| :: out[i] == rs[i] - without
  {
    seq(|rs|, i requires 0 <= i < |rs| => rs[i] - without)
  }

  /**
   * The key-count check: the expected count is the first non-zero count seen
   * (`benchmark_keycount or current_keycount`), and a record with another
   * count ends the program.
   */
  function KeyCounts(rs: seq<Record>): Result<nat>
  {
    if |rs| == 0 then Ok(0)
    else
      match KeyCounts(rs[..|rs| - 1])
      case Exit(e) => Exit(e)
      case Ok(expected) =>
        var b := rs[|rs| - 1];
        var current := |b.Keys|;
        var count := if expected != 0 then expected else current;
        if count != current then Exit(KeyCountMismatch(count, current, GetField(b, "lineno"))) else Ok(count)
  }

  /** datafiles.py `read_datafiles`: the records, and the label counter afterwards. */
  function ReadDatafilesSpec(files: seq<seq<string>>, counter: nat): Result<(seq<Record>, nat)>
  {
    match ReadRaw(files, counter)
    case Exit(e) => Exit(e)
    case Ok(raw) =>
      var rs := Stripped(raw.records, raw.allKeys - raw.valued);
      match KeyCounts(rs)
      case Exit(e) => Exit(e)
      case Ok(_) => Ok((rs, raw.counter))
  }

  // ---------------------------------------------------------------------
  // Properties of the reader

  /** A failure of the first lines of a file is the failure of the whole file. */
  lemma {:induction false} ReadLinesExit(labels: seq<string>, lines: seq<string>, raw: Raw, i: nat)
    requires i <= |lines| && ReadLines(labels, lines[..i], raw).Exit?
    ensures ReadLines(labels, lines, raw) == ReadLines(labels, lines[..i], raw)
    decreases |lines| - i
  {
    if i < |lines| {
      assert lines[..i + 1][..i] == lines[..i];
      ReadLinesExit(labels, lines, raw, i + 1);
    } else {
      assert lines[..i] == lines;
    }
  }

  /** A failure in one file is the failure of the whole read. */
  lemma {:induction false} ReadRawExit(files: seq<seq<string>>, counter: nat, i: nat)
    requires i <= |files| && ReadRaw(files[..i], counter).Exit?
    ensures ReadRaw(files, counter) == ReadRaw(files[..i], counter)
    decreases |files| - i
  {
    if i < |files| {
      assert files[..i + 1][..i] == files[..i];
      ReadRawExit(files, counter, i + 1);
    } else {
      assert files[..i] == files;
    }
  }

  /** No label of any file is `lineno`. */
  predicate NoLinenoLabel(files: seq<seq<string>>)
  {
    forall f | f in files :: "lineno" !in Split(Header(f), ',')
  }

  /** Renaming blank labels never produces `lineno`. */
  lemma {:induction false} RelabelNoLineno(labels: seq<string>, counter: nat)
    requires "lineno" !in labels
    ensures "lineno" !in Relabel(labels, counter).0
  {
    forall i | 0 <= i < |labels|
      ensures Relabel(labels, counter).0[i] != "lineno"
    {
      RelabelAt(labels, counter, i);
      EmptyLabelShape(counter + BlankCount(labels[..i]));
    }
  }

  /** Line numbers of one file's records continue those before it, one per data line. */
  lemma {:induction false} ReadLinesNumbers(labels: seq<string>, lines: seq<string>, raw: Raw)
    requires "lineno" !in labels
    requires ReadLines(labels, lines, raw).Ok?
    ensures var out := ReadLines(labels, lines, raw).value;
      && out.lineno == raw.lineno + |lines|
      && |out.records| == |raw.records| + |lines|
      && out.records[..|raw.records|] == raw.records
      && (forall k | |raw.records| <= k < |out.records| ::
            "lineno" in out.records[k] && out.records[k]["lineno"] == Int(raw.lineno + k - |raw.records|))
      && out.counter == raw.counter && out.allKeys == raw.allKeys
  {
    if |lines| > 0 {
      var n := |lines| - 1;
      ReadLinesNumbers(labels, lines[..n], raw);
      var acc := ReadLines(labels, lines[..n], raw).value;
      var fields := Padded(labels, lines[n]);
      RowRecordLineno(labels, fields, acc.lineno);
    }
  }

  /** The records carry the line numbers 1, 2, 3, …, the next number follows them, and no label is `lineno`. */
  predicate NumberedFromOne(raw: Raw)
  {
    && raw.lineno == |raw.records| + 1
    && (forall k | 0 <= k < |raw.records| :: "lineno" in raw.records[k] && raw.records[k]["lineno"] == Int(k + 1))
    && "lineno" !in raw.allKeys
  }

  /** Without a `lineno` label, the records carry the line numbers 1, 2, 3, … across all files. */
  lemma {:induction false} ReadRawNumbers(files: seq<seq<string>>, counter: nat)
    requires NoLinenoLabel(files)
    requires ReadRaw(files, counter).Ok?
    ensures NumberedFromOne(ReadRaw(files, counter).value)
  {
    if |files| > 0 {
      var n := |files| - 1;
      assert NoLinenoLabel(files[..n]) by {
        forall f | f in files[..n] ensures f in files { }
      }
      ReadRawNumbers(files[..n], counter);
      assert files[n] in files;
      ReadFileNumbers(ReadRaw(files[..n], counter).value, files[n]);
    }
  }

  /** Reading one more file without a `lineno` label numbers its records on. */
  lemma ReadFileNumbers(acc: Raw, lines: seq<string>)
    requires NumberedFromOne(acc) && "lineno" !in Split(Header(lines), ',')
    requires ReadFile(acc, lines).Ok?
    ensures NumberedFromOne(ReadFile(acc, lines).value)
  {
    var labels := FileLabels(lines, acc.counter);
    RelabelNoLineno(Split(Header(lines), ','), acc.counter);
    var start := Raw(acc.records, labels.1, acc.lineno, acc.allKeys + LabelSet(labels.0), acc.valued);
    ReadLinesNumbers(labels.0, DataLines(lines), start);
    NumbersContinue(acc, ReadFile(acc, lines).value);
  }

  /** Records numbered on from earlier records numbered 1, 2, 3, … keep the whole list numbered 1, 2, 3, … */
  lemma NumbersContinue(acc: Raw, out: Raw)
    requires acc.lineno == |acc.records| + 1
    requires forall k | 0 <= k < |acc.records| :: "lineno" in acc.records[k] && acc.records[k]["lineno"] == Int(k + 1)
    requires out.lineno == acc.lineno + (|out.records| - |acc.records|)
    requires |acc.records| <= |out.records| && out.records[..|acc.records|] == acc.records
    requires forall k | |acc.records| <= k < |out.records| ::
      "lineno" in out.records[k] && out.records[k]["lineno"] == Int(acc.lineno + k - |acc.records|)
    ensures out.lineno == |out.records| + 1
    ensures forall k | 0 <= k < |out.records| :: "lineno" in out.records[k] && out.records[k]["lineno"] == Int(k + 1)
  {
    forall k | 0 <= k < |acc.records|
      ensures out.records[k] == acc.records[k]
    {
      assert out.records[k] == out.records[..|acc.records|][k];
    }
  }

  /** The names `empty_label` makes up all start with `empty_`. */
  predicate MadeUpName(l: string)
  {
    |l| >= 6 && l[..6] == "empty_"
  }

  /**
   * A header whose labels survive as distinct keys: its non-blank labels are
   * distinct, none of them looks like a made-up name, and none is `lineno`.
   */
  predicate GoodHeader(labels: seq<string>)
  {
    && (forall i, j | 0 <= i < j < |labels| && !IsBlankText(labels[i]) :: labels[i] != labels[j])
    && (forall i | 0 <= i < |labels| :: !MadeUpName(labels[i]))
    && "lineno" !in labels
  }

  predicate GoodHeaders(files: seq<seq<string>>)
  {
    forall f | f in files :: GoodHeader(Split(Header(f), ','))
  }

  /** Blank labels seen so far only grow, and a blank label counts. */
  lemma {:induction false} BlankCountGrows(labels: seq<string>, i: nat, j: nat)
    requires i < j <= |labels|
    ensures BlankCount(labels[..j]) >= BlankCount(labels[..i]) + (if IsBlankText(labels[i]) then 1 else 0)
    decreases j - i
  {
    assert labels[..j][..j - 1] == labels[..j - 1];
    if i < j - 1 {
      BlankCountGrows(labels, i, j - 1);
    }
  }

  /** After renaming, the labels of a good header are distinct. */
  lemma {:induction false} RelabelDistinct(labels: seq<string>, counter: nat)
    requires GoodHeader(labels)
    ensures Distinct(Relabel(labels, counter).0)
  {
    var out := Relabel(labels, counter).0;
    forall i, j | 0 <= i < j < |out|
      ensures out[i] != out[j]
    {
      RelabelAt(labels, counter, i);
      RelabelAt(labels, counter, j);
      var bi, bj := IsBlankText(labels[i]), IsBlankText(labels[j]);
      if bi && bj {
        BlankCountGrows(labels, i, j);
        EmptyLabelsDistinct(counter + BlankCount(labels[..i]), counter + BlankCount(labels[..j]));
      } else if bi {
        assert MadeUpName(out[i]);
        assert !MadeUpName(labels[j]);
      } else if bj {
        assert MadeUpName(out[j]);
        assert !MadeUpName(labels[i]);
      }
    }
  }

  /** Some record gives `k` a value other than None. */
  predicate HasValue(rs: seq<Record>, k: string)
  {
    exists i | 0 <= i < |rs| :: k in rs[i] && rs[i][k] != None
  }

  /** Every key of a record is `lineno` or one of the labels gathered so far. */
  predicate KeysFromLabels(raw: Raw)
  {
    forall i | 0 <= i < |raw.records| :: forall k | k in raw.records[i] :: k == "lineno" || k in raw.allKeys
  }

  /** What the reader keeps track of: the valued labels are exactly the labels some record gives a value. */
  predicate Tracked(raw: Raw)
  {
    && KeysFromLabels(raw)
    && "lineno" !in raw.allKeys
    && (forall k | k in raw.valued :: k in raw.allKeys && HasValue(raw.records, k))
    && (forall k | k in raw.allKeys && HasValue(raw.records, k) :: k in raw.valued)
  }

  /** With distinct labels, the valued labels of a line are the keys its record gives a value. */
  lemma {:induction false} RowValuedExact(labels: seq<string>, fields: seq<string>, lineno: nat, k: string)
    requires |fields| == |labels| && Distinct(labels) && k in labels
    ensures var rec := RowRecord(labels, fields, lineno);
      k in rec && (k in RowValued(labels, fields) <==> rec[k] != None)
  {
    var m :| 0 <= m < |labels| && labels[m] == k;
    RowRecordAt(labels, fields, lineno, m);
    RowValuedIff(labels, fields, k);
    if k in RowValued(labels, fields) {
      var m' :| 0 <= m' < |labels| && labels[m'] == k && ValueOf(fields[m'], labels[m']) != None;
      assert m' == m;
    }
  }

  /** Adding a record, and as valued exactly the gathered labels it gives a value, keeps the valued labels exact. */
  lemma {:induction false} AppendTracked(acc: Raw, out: Raw, rec: Record, vals: set<string>)
    requires Tracked(acc) && out.allKeys == acc.allKeys
    requires out.records == acc.records + [rec] && out.valued == acc.valued + vals
    requires forall k | k in rec :: k == "lineno" || k in acc.allKeys
    requires forall k | k in vals :: k in acc.allKeys && k in rec && rec[k] != None
    requires forall k | k in acc.allKeys && k in rec && rec[k] != None :: k in vals
    ensures Tracked(out)
  {
    var n := |acc.records|;
    assert out.records[n] == rec;
    forall k | k in out.valued
      ensures HasValue(out.records, k)
    {
      if k in acc.valued {
        var i :| 0 <= i < n && k in acc.records[i] && acc.records[i][k] != None;
        assert out.records[i] == acc.records[i];
      }
    }
    forall k | k in out.allKeys && HasValue(out.records, k)
      ensures k in out.valued
    {
      var i :| 0 <= i < |out.records| && k in out.records[i] && out.records[i][k] != None;
      if i < n {
        assert out.records[i] == acc.records[i];
      }
    }
    forall i | 0 <= i < |out.records|
      ensures forall k | k in out.records[i] :: k == "lineno" || k in out.allKeys
    {
      if i < n {
        assert out.records[i] == acc.records[i];
      }
    }
  }

  /** The record of a line has only its labels and `lineno`, and its valued labels are the labels it gives a value. */
  lemma {:induction false} RowTracked(labels: seq<string>, fields: seq<string>, lineno: nat, gathered: set<string>)
    requires |fields| == |labels| && Distinct(labels) && LabelSet(labels) <= gathered && "lineno" !in gathered
    ensures var rec := RowRecord(labels, fields, lineno);
      && (forall k | k in rec :: k == "lineno" || k in gathered)
      && (forall k | k in RowValued(labels, fields) :: k in gathered && k in rec && rec[k] != None)
      && (forall k | k in gathered && k in rec && rec[k] != None :: k in RowValued(labels, fields))
  {
    var rec := RowRecord(labels, fields, lineno);
    RowRecordKeys(labels, fields, lineno);
    forall k | k in RowValued(labels, fields)
      ensures k in gathered && k in rec && rec[k] != None
    {
      RowValuedIff(labels, fields, k);
      var m :| 0 <= m < |labels| && labels[m] == k && ValueOf(fields[m], labels[m]) != None;
      assert k in LabelSet(labels);
      RowValuedExact(labels, fields, lineno, k);
    }
    forall k | k in gathered && k in rec && rec[k] != None
      ensures k in RowValued(labels, fields)
    {
      if k != "lineno" {
        assert k in LabelSet(labels);
        RowValuedExact(labels, fields, lineno, k);
      }
    }
  }

  /** Reading the lines of one file keeps the valued labels exact. */
  lemma {:induction false} ReadLinesTracked(labels: seq<string>, lines: seq<string>, raw: Raw)
    requires Distinct(labels) && "lineno" !in labels && LabelSet(labels) <= raw.allKeys
    requires Tracked(raw) && ReadLines(labels, lines, raw).Ok?
    ensures Tracked(ReadLines(labels, lines, raw).value)
    ensures ReadLines(labels, lines, raw).value.allKeys == raw.allKeys
  {
    if |lines| > 0 {
      var n := |lines| - 1;
      ReadLinesTracked(labels, lines[..n], raw);
      var acc := ReadLines(labels, lines[..n], raw).value;
      var fields := Padded(labels, lines[n]);
      var rec := RowRecord(labels, fields, acc.lineno);
      var out := ReadLines(labels, lines, raw).value;
      assert out.records == acc.records + [rec];
      assert out.valued == acc.valued + RowValued(labels, fields);
      RowTracked(labels, fields, acc.lineno, acc.allKeys);
      AppendTracked(acc, out, rec, RowValued(labels, fields));
    }
  }

  /** Reading good files keeps the valued labels exact. */
  lemma {:induction false} ReadRawTracked(files: seq<seq<string>>, counter: nat)
    requires GoodHeaders(files) && ReadRaw(files, counter).Ok?
    ensures Tracked(ReadRaw(files, counter).value)
  {
    if |files| > 0 {
      var n := |files| - 1;
      assert GoodHeaders(files[..n]) by {
        forall f | f in files[..n] ensures f in files { }
      }
      ReadRawTracked(files[..n], counter);
      var acc := ReadRaw(files[..n], counter).value;
      var lines := files[n];
      assert lines in files;
      var labels := FileLabels(lines, acc.counter);
      RelabelDistinct(Split(Header(lines), ','), acc.counter);
      RelabelNoLineno(Split(Header(lines), ','), acc.counter);
      var start := Raw(acc.records, labels.1, acc.lineno, acc.allKeys + LabelSet(labels.0), acc.valued);
      WidenTracked(acc, start);
      ReadLinesTracked(labels.0, DataLines(lines), start);
    }
  }

  /** Adding labels without `lineno` to the gathered ones keeps the valued labels exact. */
  lemma {:induction false} WidenTracked(raw: Raw, wider: Raw)
    requires Tracked(raw) && wider.records == raw.records && wider.valued == raw.valued
    requires raw.allKeys <= wider.allKeys && "lineno" !in wider.allKeys
    ensures Tracked(wider)
  {
  }

  /**
   * The cleanup deletes exactly the keys that no record gives a value:
   * a record keeps a key when it is `lineno` or some record, perhaps
   * another one, has a value for it.
   */
  lemma {:induction false} CleanupKeepsValued(files: seq<seq<string>>, counter: nat)
    requires GoodHeaders(files) && ReadRaw(files, counter).Ok?
    ensures var raw := ReadRaw(files, counter).value;
      var rs := Stripped(raw.records, raw.allKeys - raw.valued);
      forall i, k | 0 <= i < |raw.records| && k in raw.records[i] ::
        k in rs[i] <==> (k == "lineno" || HasValue(raw.records, k))
  {
    ReadRawTracked(files, counter);
  }

  // ---------------------------------------------------------------------
  // The key-count check

  /** The check passes only when every record with keys has the same number of them. */
  lemma {:induction false} KeyCountsUniform(rs: seq<Record>)
    requires KeyCounts(rs).Ok?
    ensures forall i | 0 <= i < |rs| && |rs[i].Keys| > 0 :: |rs[i].Keys| == KeyCounts(rs).value
    ensures KeyCounts(rs).value == 0 <==> forall i | 0 <= i < |rs| :: |rs[i].Keys| == 0
  {
    if |rs| > 0 {
      var n := |rs| - 1;
      KeyCountsUniform(rs[..n]);
      forall i | 0 <= i < n ensures rs[i] == rs[..n][i] { }
    }
  }

  /** When every record keeps its `lineno`, the check passes exactly when all records have the same number of keys. */
  lemma {:induction false} KeyCountsIff(rs: seq<Record>)
    requires forall i | 0 <= i < |rs| :: "lineno" in rs[i]
    ensures KeyCounts(rs).Ok? <==> forall i, j | 0 <= i < |rs| && 0 <= j < |rs| :: |rs[i].Keys| == |rs[j].Keys|
  {
    if |rs| > 0 {
      var n := |rs| - 1;
      KeyCountsIff(rs[..n]);
      forall i | 0 <= i < |rs| ensures |rs[i].Keys| > 0 {
        assert "lineno" in rs[i].Keys;
      }
      forall i | 0 <= i < n ensures rs[i] == rs[..n][i] { }
      if KeyCounts(rs[..n]).Ok? {
        KeyCountsUniform(rs[..n]);
      }
      if KeyCounts(rs).Ok? {
        KeyCountsUniform(rs);
      }
    }
  }

  // ---------------------------------------------------------------------
  // The whole read

  /**
   * A successful read of files with good headers numbers its records 1, 2,
   * 3, … across the files, and every record has the same number of keys.
   */
  lemma {:induction false} ReadDatafilesFacts(files: seq<seq<string>>, counter: nat)
    requires GoodHeaders(files) && ReadDatafilesSpec(files, counter).Ok?
    ensures var rs := ReadDatafilesSpec(files, counter).value.0;
      && (forall k | 0 <= k < |rs| :: "lineno" in rs[k] && rs[k]["lineno"] == Int(k + 1))
      && (forall i, j | 0 <= i < |rs| && 0 <= j < |rs| :: |rs[i].Keys| == |rs[j].Keys|)
  {
    assert NoLinenoLabel(files);
    ReadRawNumbers(files, counter);
    var raw := ReadRaw(files, counter).value;
    var rs := Stripped(raw.records, raw.allKeys - raw.valued);
    assert ReadDatafilesSpec(files, counter).value.0 == rs;
    assert forall k | 0 <= k < |rs| :: "lineno" in rs[k] && rs[k]["lineno"] == Int(k + 1);
    KeyCountsIff(rs);
  }

  // ---------------------------------------------------------------------
  // The reader as the source writes it

  /** The `while line != ''` loop over the data lines of one file. */
  method ReadDataLines(labels: seq<string>, lines: seq<string>, raw: Raw) returns (r: Result<Raw>)
    requires forall l | l in lines :: l != ""
    ensures r == ReadLines(labels, lines, raw)
  {
    var benchmarks, lineno, valued := raw.records, raw.lineno, raw.valued;
    var pos := 0;
    var line := if pos < |lines| then lines[pos] else "";
    while line != ""
      invariant 0 <= pos <= |lines|
      invariant line == if pos < |lines| then lines[pos] else ""
      invariant ReadLines(labels, lines[..pos], raw) == Ok(Raw(benchmarks, raw.counter, lineno, raw.allKeys, valued))
      decreases |lines| - pos
    {
      assert pos < |lines|;
      assert lines[..pos + 1][..pos] == lines[..pos];
      var row := ParseLine(labels, line, lineno);
      if row.Exit? {
        ReadLinesExit(labels, lines, raw, pos + 1);
        return Exit(row.error);
      }
      benchmarks := benchmarks + [row.value.0];
      valued := valued + row.value.1;
      pos := pos + 1;
      line := if pos < |lines| then lines[pos] else "";
      lineno := lineno + 1;
    }
    assert forall k | 0 <= k < |lines| :: lines[k] != "" by {
      forall k | 0 <= k < |lines| ensures lines[k] != "" {
        assert lines[k] in lines;
      }
    }
    assert pos == |lines|;
    assert lines[..pos] == lines;
    return Ok(Raw(benchmarks, raw.counter, lineno, raw.allKeys, valued));
  }

  /** The header of one file, then its data lines. */
  method ReadOneFile(raw: Raw, lines: seq<string>) returns (r: Result<Raw>)
    requires forall l | l in lines :: l != ""
    ensures r == ReadFile(raw, lines)
  {
    var header := if |lines| > 0 then lines[0] else "";
    var labels, counter := RelabelInPlace(Split(header, ','), raw.counter);
    var allKeys := raw.allKeys + LabelSet(labels);
    assert forall l | l in DataLines(lines) :: l in lines;
    r := ReadDataLines(labels, DataLines(lines), Raw(raw.records, counter, raw.lineno, allKeys, raw.valued));
  }

  /** The final loop: the keys that never had a value are deleted, then the key counts compared. */
  method RemoveUnvalued(benchmarks: seq<Record>, without: set<string>) returns (r: Result<seq<Record>>)
    ensures KeyCounts(Stripped(benchmarks, without)).Exit? ==> r == Exit(KeyCounts(Stripped(benchmarks, without)).error)
    ensures KeyCounts(Stripped(benchmarks, without)).Ok? ==> r == Ok(Stripped(benchmarks, without))
  {
    var out := [];
    var keycount := 0;
    for i := 0 to |benchmarks|
      invariant out == Stripped(benchmarks[..i], without)
      invariant KeyCounts(out) == Ok(keycount)
    {
      var benchmark := benchmarks[i] - without;
      var current := |benchmark.Keys|;
      StrippedNext(benchmarks, without, i);
      KeyCountsNext(out, benchmark, keycount);
      keycount := if keycount != 0 then keycount else current;
      if keycount != current {
        KeyCountsExit(Stripped(benchmarks, without), i + 1);
        return Exit(KeyCountMismatch(keycount, current, GetField(benchmark, "lineno")));
      }
      out := out + [benchmark];
    }
    assert benchmarks[..|benchmarks|] == benchmarks;
    return Ok(out);
  }

  /** Cleaning one more record appends it, cleaned. */
  lemma {:induction false} StrippedNext(rs: seq<Record>, without: set<string>, i: nat)
    requires i < |rs|
    ensures Stripped(rs[..i + 1], without) == Stripped(rs[..i], without) + [rs[i] - without]
    ensures Stripped(rs, without)[..i + 1] == Stripped(rs[..i + 1], without)
  {
  }

  /** Checking one more record: the expected count, or the mismatch that ends the program. */
  lemma {:induction false} KeyCountsNext(rs: seq<Record>, b: Record, expected: nat)
    requires KeyCounts(rs) == Ok(expected)
    ensures var count := if expected != 0 then expected else |b.Keys|;
      KeyCounts(rs + [b]) == if count != |b.Keys| then Exit(KeyCountMismatch(count, |b.Keys|, GetField(b, "lineno"))) else Ok(count)
  {
    assert (rs + [b])[..|rs|] == rs;
  }

  /** A failure of the check on the first records is the failure of the whole check. */
  lemma {:induction false} KeyCountsExit(rs: seq<Record>, i: nat)
    requires i <= |rs| && KeyCounts(rs[..i]).Exit?
    ensures KeyCounts(rs) == KeyCounts(rs[..i])
    decreases |rs| - i
  {
    if i < |rs| {
      assert rs[..i + 1][..i] == rs[..i];
      KeyCountsExit(rs, i + 1);
    } else {
      assert rs[..i] == rs;
    }
  }

  /** datafiles.py `read_datafiles`, with the label counter threaded in and out. */
  method ReadDatafiles(files: seq<seq<string>>, counter: nat) returns (r: Result<(seq<Record>, nat)>)
    requires WellFormed(files)
    ensures r == ReadDatafilesSpec(files, counter)
  {
    var raw := Raw([], counter, 1, {}, {});
    for i := 0 to |files|
      invariant ReadRaw(files[..i], counter) == Ok(raw)
    {
      assert files[..i + 1][..i] == files[..i];
      assert files[i] in files;
      var next := ReadOneFile(raw, files[i]);
      if next.Exit? {
        ReadRawExit(files, counter, i + 1);
        return Exit(next.error);
      }
      raw := next.value;
    }
    assert files[..|files|] == files;
    var cleaned := RemoveUnvalued(raw.records, raw.allKeys - raw.valued);
    if cleaned.Exit? {
      return Exit(cleaned.error);
    }
    return Ok((cleaned.value, raw.counter));
  }
}
