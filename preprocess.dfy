/**
 * plot_data.py `preprocess_benchmarks`, `add_derived_values`,
 * `add_global_values` and `format_direction`: each benchmark record is a
 * dictionary that these functions complete in place with derived and global
 * values.  A record is therefore an object, `Benchmark`, whose `fields` the
 * methods reassign.
 */
module Preprocess {
  import opened Values
  import opened Strings
  import opened Seqs
  import opened Outcomes
  import opened Records

  /** One benchmark's dictionary, updated in place. */
  class Benchmark {
    var fields: Record

    constructor (fields: Record)
      ensures this.fields == fields
    {
      this.fields := fields;
    }
  }

  // ---------------------------------------------------------------------
  // format_direction

  /** An end point of a call: 'J' is spelled out as Java, anything else is printed with `str`. */
  function EndPoint(v: Value): string
  {
    if v == Str("J") then "Java" else Show(v)
  }

  /** The separator between the two end points: a LaTeX arrow, or " > ". */
  function Separator(latex: bool): string
  {
    if latex then "$\\\\rightarrow$" else " > "
  }

  /** plot_data.py `format_direction`: "from SEPARATOR to". */
  function FormatDirection(fr: Value, to: Value, latex: bool): (r: string)
    ensures |r| == |EndPoint(fr)| + |Separator(latex)| + |EndPoint(to)|
    ensures r[..|EndPoint(fr)|] == EndPoint(fr) && r[|r| - |EndPoint(to)|..] == EndPoint(to)
  {
    EndPoint(fr) + Separator(latex) + EndPoint(to)
  }

  /** The four call directions the benchmarks exercise (plot_data.py `DIRECTIONS`) get four different labels. */
  lemma {:induction false} DirectionsDistinct(latex: bool)
    ensures var cj, jc := FormatDirection(Str("C"), Str("J"), latex), FormatDirection(Str("J"), Str("C"), latex);
      var jj, cc := FormatDirection(Str("J"), Str("J"), latex), FormatDirection(Str("C"), Str("C"), latex);
      cj != jc && cj != jj && cj != cc && jc != jj && jc != cc && jj != cc
  {
    assert EndPoint(Str("C")) == "C" && EndPoint(Str("J")) == "Java";
    var cj, jc := FormatDirection(Str("C"), Str("J"), latex), FormatDirection(Str("J"), Str("C"), latex);
    var jj, cc := FormatDirection(Str("J"), Str("J"), latex), FormatDirection(Str("C"), Str("C"), latex);
    assert cj[0] == 'C' && cc[0] == 'C' && jc[0] == 'J' && jj[0] == 'J';
  }

  // ---------------------------------------------------------------------
  // add_derived_values

  /** The custom benchmarks (`no == -1`) whose ids are renamed to the JNI function they measure. */
  function RenamedId(bid: Value): (r: Option<string>)
  {
    if bid == Str("CopyUnicode") then Some("GetStringRegion")
    else if bid == Str("CopyUTF") then Some("GetStringRegionUTF")
    else if bid == Str("StringLength") then Some("GetStringLength")
    else if bid == Str("StringLengthUTF") then Some("GetStringUTFLength")
    else if bid == Str("ReadUnicode") then Some("ReadString")
    else if bid == Str("ReadUnicodeCritical") then Some("ReadStringCritical")
    else if bid == Str("ReadUTF") then Some("ReadStringUTF")
    else if bid == Str("ReadUtf") then Some("ReadStringUTF")
    else if bid == Str("ReadObjectArrayElement") then Some("GetObjectArrayElement")
    else if bid == Str("WriteObjectArrayElement") then Some("SetObjectArrayElement")
    else Nothing
  }

  /** No new name is itself an old name: renaming a renamed record changes nothing. */
  lemma {:induction false} RenameSettles(bid: Value)
    requires RenamedId(bid).Some?
    ensures RenamedId(Str(RenamedId(bid).value)).Nothing?
  {
    NewNamesNotRenamed(RenamedId(bid).value);
  }

  /** The names custom benchmarks are renamed to. */
  const NewNames: set<string> :=
    {"GetStringRegion", "GetStringRegionUTF", "GetStringLength", "GetStringUTFLength", "ReadString",
     "ReadStringCritical", "ReadStringUTF", "GetObjectArrayElement", "SetObjectArrayElement"}

  /** None of the new names is renamed again. */
  lemma NewNamesNotRenamed(n: string)
    requires n in NewNames
    ensures RenamedId(Str(n)).Nothing?
  {
  }

  /** The key of one parameter type's count, `parameter_type_{t}_count`. */
  function TypeCountKey(t: string): (k: string)
    ensures |k| == |t| + 21
  {
    "parameter_type_" + t + "_count"
  }

  /**
   * The first type in `types` whose count key holds a value, as the loop with
   * `break` finds it; None when there is none.
   */
  function FirstCountedType(f: Record, types: seq<string>): Value
  {
    if |types| == 0 then None
    else if GetField(f, TypeCountKey(types[0])) != None then Str(types[0])
    else FirstCountedType(f, types[1..])
  }

  /** The type found is listed and counted and no earlier one is; None means no listed type is counted. */
  lemma {:induction false} FirstCountedTypeIsFirst(f: Record, types: seq<string>)
    ensures FirstCountedType(f, types) == None <==> forall t | t in types :: GetField(f, TypeCountKey(t)) == None
    ensures FirstCountedType(f, types) != None ==> exists i | 0 <= i < |types| ::
      FirstCountedType(f, types) == Str(types[i]) && GetField(f, TypeCountKey(types[i])) != None
      && forall j | 0 <= j < i :: GetField(f, TypeCountKey(types[j])) == None
  {
    if |types| > 0 && GetField(f, TypeCountKey(types[0])) == None {
      var rest := types[1..];
      var r := FirstCountedType(f, rest);
      FirstCountedTypeIsFirst(f, rest);
      assert forall t | t in types :: t == types[0] || t in rest;
      assert forall t | t in rest :: t in types;
      if r != None {
        var i :| 0 <= i < |rest| && r == Str(rest[i]) && GetField(f, TypeCountKey(rest[i])) != None
          && forall j | 0 <= j < i :: GetField(f, TypeCountKey(rest[j])) == None;
        forall j | 0 <= j < i + 1
          ensures GetField(f, TypeCountKey(types[j])) == None
        {
          if j > 0 { assert types[j] == rest[j - 1]; }
        }
        assert types[i + 1] == rest[i];
      }
    }
  }

  /** `single_type`: 'any' without parameters, the single counted type with one parameter type, else None. */
  function SingleTypeOf(f: Record, types: seq<string>): Value
  {
    if EqualsInt(GetField(f, "parameter_count"), 0) then Str("any")
    else if EqualsInt(GetField(f, "parameter_type_count"), 1) then FirstCountedType(f, types)
    else None
  }

  /** The keys `add_derived_values` reads without a default: a missing one raises KeyError, and `'Nio' in id` needs a string. */
  predicate DerivedReady(f: Record)
  {
    "no" in f && "from" in f && "to" in f && "id" in f && f["id"].Str?
  }

  /** The keys `add_derived_values` may write or delete. */
  const DerivedKeys: set<string> :=
    {"response_time", "time_unit", "response_time_millis", "dynamic_variation", "dynamic_size",
     "id", "direction", "single_type", "nio"}

  /** The migration of `response_time_millis` to `response_time` in milliseconds. */
  function MigrateMillis(f: Record): (r: Record)
    ensures forall k | k !in {"response_time", "time_unit", "response_time_millis"} :: (k in r <==> k in f) && (k in f ==> r[k] == f[k])
  {
    if GetField(f, "response_time_millis") != None then
      f["response_time" := f["response_time_millis"]]["time_unit" := Str("milliseconds")] - {"response_time_millis"}
    else f
  }

  /** A benchmark without a dynamic size gets size 0 and variation 0; one with a size gets variation 1. */
  function DefaultDynamic(f: Record): (r: Record)
    ensures forall k | k !in {"dynamic_variation", "dynamic_size"} :: (k in r <==> k in f) && (k in f ==> r[k] == f[k])
  {
    if GetField(f, "dynamic_size") == None then f["dynamic_variation" := Int(0)]["dynamic_size" := Int(0)]
    else f["dynamic_variation" := Int(1)]
  }

  /** The renaming of custom benchmarks, those numbered -1. */
  function RenameCustom(f: Record): (r: Record)
    requires "no" in f && "id" in f
    ensures forall k | k != "id" :: (k in r <==> k in f) && (k in f ==> r[k] == f[k])
    ensures "id" in r && (f["id"].Str? ==> r["id"].Str?)
  {
    if EqualsInt(f["no"], -1) && RenamedId(f["id"]).Some? then f["id" := Str(RenamedId(f["id"]).value)] else f
  }

  /** The last part of `add_derived_values`: the direction label, the single type and the `nio` flag. */
  function Finish(f: Record, latex: bool, types: seq<string>): Record
    requires "from" in f && "to" in f && "id" in f && f["id"].Str?
  {
    f["direction" := Str(FormatDirection(f["from"], f["to"], latex))]
      ["single_type" := SingleTypeOf(f, types)]
      ["nio" := Bool(Contains(f["id"].s, "Nio"))]
  }

  /** The keys the last part reads survive the earlier steps. */
  lemma {:induction false} StepsKeepReady(f: Record)
    requires DerivedReady(f)
    ensures var f1 := MigrateMillis(f);
      && "no" in f1 && "id" in f1 && DerivedReady(DefaultDynamic(f1)) && DerivedReady(RenameCustom(DefaultDynamic(f1)))
  {
    var f1 := MigrateMillis(f);
    assert f1["no"] == f["no"] && f1["id"] == f["id"] && f1["from"] == f["from"] && f1["to"] == f["to"];
    var f2 := DefaultDynamic(f1);
    assert f2["no"] == f["no"] && f2["id"] == f["id"] && f2["from"] == f["from"] && f2["to"] == f["to"];
  }

  /** plot_data.py `add_derived_values`, as a function of the record before the call. */
  function Derived(f: Record, latex: bool, types: seq<string>): Record
    requires DerivedReady(f)
  {
    StepsKeepReady(f);
    Finish(RenameCustom(DefaultDynamic(MigrateMillis(f))), latex, types)
  }

  /** The count keys of parameter types are never among the keys `add_derived_values` writes. */
  lemma {:induction false} TypeCountKeysUntouched(f: Record, types: seq<string>)
    ensures forall t | t in types :: TypeCountKey(t) !in DerivedKeys
  {
    forall t | t in types
      ensures TypeCountKey(t) !in DerivedKeys
    {
      assert |TypeCountKey(t)| >= 21;
    }
  }

  /** `response_time_millis` is moved to `response_time` in milliseconds; a None one stays. */
  lemma {:induction false} DerivedMigration(f: Record, latex: bool, types: seq<string>)
    requires DerivedReady(f)
    ensures var r := Derived(f, latex, types);
      && ("response_time_millis" in r <==> "response_time_millis" in f && f["response_time_millis"] == None)
      && (GetField(f, "response_time_millis") != None ==>
            r["response_time"] == f["response_time_millis"] && r["time_unit"] == Str("milliseconds"))
  {
    var f1 := MigrateMillis(f);
    StepsKeepReady(f);
    LaterStepsKeep(f1, latex, types, "response_time_millis");
    LaterStepsKeep(f1, latex, types, "response_time");
    LaterStepsKeep(f1, latex, types, "time_unit");
    assert Derived(f, latex, types) == Finish(RenameCustom(DefaultDynamic(f1)), latex, types);
  }

  /** The steps after the migration leave the keys it writes alone. */
  lemma {:induction false} LaterStepsKeep(f1: Record, latex: bool, types: seq<string>, k: string)
    requires "no" in f1 && "id" in f1 && DerivedReady(RenameCustom(DefaultDynamic(f1)))
    requires k in {"response_time", "time_unit", "response_time_millis"}
    ensures var r := Finish(RenameCustom(DefaultDynamic(f1)), latex, types);
      (k in r <==> k in f1) && (k in f1 ==> r[k] == f1[k])
  {
    var f2 := DefaultDynamic(f1);
    assert k !in {"dynamic_variation", "dynamic_size"} && k != "id";
    assert (k in f2 <==> k in f1) && (k in f1 ==> f2[k] == f1[k]);
    var f3 := RenameCustom(f2);
    assert (k in f3 <==> k in f2) && (k in f2 ==> f3[k] == f2[k]);
    FinishFrame(f3, latex, types, k);
  }

  /** The last part of `add_derived_values` writes only the direction, the single type and `nio`. */
  lemma {:induction false} FinishFrame(f: Record, latex: bool, types: seq<string>, k: string)
    requires "from" in f && "to" in f && "id" in f && f["id"].Str?
    requires k !in {"direction", "single_type", "nio"}
    ensures var r := Finish(f, latex, types);
      (k in r <==> k in f) && (k in f ==> r[k] == f[k])
  {
    var d, st, nio := Str(FormatDirection(f["from"], f["to"], latex)), SingleTypeOf(f, types), Bool(Contains(f["id"].s, "Nio"));
    assert Finish(f, latex, types) == f["direction" := d]["single_type" := st]["nio" := nio];
  }

  /** A record without a dynamic size gets size 0 and variation 0, one with a size keeps it and gets variation 1. */
  lemma {:induction false} DerivedDynamic(f: Record, latex: bool, types: seq<string>)
    requires DerivedReady(f)
    ensures var r := Derived(f, latex, types);
      && r["dynamic_size"] == (if GetField(f, "dynamic_size") == None then Int(0) else f["dynamic_size"])
      && r["dynamic_variation"] == Int(if GetField(f, "dynamic_size") == None then 0 else 1)
  {
    var f1 := MigrateMillis(f);
    var f2 := DefaultDynamic(f1);
    var f3 := RenameCustom(f2);
    var r := Derived(f, latex, types);
    assert r == Finish(f3, latex, types);
    assert GetField(f1, "dynamic_size") == GetField(f, "dynamic_size");
    assert r["dynamic_size"] == f2["dynamic_size"] && r["dynamic_variation"] == f2["dynamic_variation"];
  }

  /** A custom benchmark with a listed old id gets the new one; `nio` tells whether the final id mentions Nio. */
  lemma {:induction false} DerivedId(f: Record, latex: bool, types: seq<string>)
    requires DerivedReady(f)
    ensures var r := Derived(f, latex, types);
      && r["id"] == (if EqualsInt(f["no"], -1) && RenamedId(f["id"]).Some? then Str(RenamedId(f["id"]).value) else f["id"])
      && r["id"].Str? && r["nio"] == Bool(Contains(r["id"].s, "Nio"))
  {
    var f1 := MigrateMillis(f);
    var f2 := DefaultDynamic(f1);
    var f3 := RenameCustom(f2);
    var r := Derived(f, latex, types);
    assert r == Finish(f3, latex, types);
    assert f2["no"] == f["no"] && f2["id"] == f["id"];
    assert r["id"] == f3["id"];
  }

  /** The direction label comes from the record's end points, the single type from its parameter counts. */
  lemma {:induction false} DerivedLabels(f: Record, latex: bool, types: seq<string>)
    requires DerivedReady(f)
    ensures var r := Derived(f, latex, types);
      && r["direction"] == Str(FormatDirection(f["from"], f["to"], latex))
      && r["single_type"] == SingleTypeOf(f, types)
  {
    var f3 := RenameCustom(DefaultDynamic(MigrateMillis(f)));
    PreparedFrame(f);
    assert "from" !in DerivedKeys && "to" !in DerivedKeys;
    SingleTypeAgree(f3, f, types);
    assert Derived(f, latex, types) == Finish(f3, latex, types);
  }

  /** Records that agree outside the keys `add_derived_values` writes have the same single type. */
  lemma {:induction false} SingleTypeAgree(g: Record, f: Record, types: seq<string>)
    requires forall k | k !in DerivedKeys :: (k in g <==> k in f) && (k in f ==> g[k] == f[k])
    ensures SingleTypeOf(g, types) == SingleTypeOf(f, types)
  {
    TypeCountKeysUntouched(f, types);
    FirstCountedTypeAgree(g, f, types);
    assert "parameter_count" !in DerivedKeys && "parameter_type_count" !in DerivedKeys;
    assert GetField(g, "parameter_count") == GetField(f, "parameter_count");
    assert GetField(g, "parameter_type_count") == GetField(f, "parameter_type_count");
  }

  /** Every key `add_derived_values` does not name keeps its presence and its value. */
  lemma {:induction false} DerivedFrame(f: Record, latex: bool, types: seq<string>)
    requires DerivedReady(f)
    ensures var r := Derived(f, latex, types);
      forall k | k !in DerivedKeys :: (k in r <==> k in f) && (k in f ==> r[k] == f[k])
  {
    PreparedFrame(f);
  }

  /** The steps before the labels keep every key `add_derived_values` does not name. */
  lemma {:induction false} PreparedFrame(f: Record)
    requires DerivedReady(f)
    ensures var f3 := RenameCustom(DefaultDynamic(MigrateMillis(f)));
      forall k | k !in DerivedKeys :: (k in f3 <==> k in f) && (k in f ==> f3[k] == f[k])
  {
    var f1 := MigrateMillis(f);
    var f2 := DefaultDynamic(f1);
    var f3 := RenameCustom(f2);
    forall k | k !in DerivedKeys
      ensures (k in f3 <==> k in f) && (k in f ==> f3[k] == f[k])
    {
      assert (k in f1 <==> k in f) && (k in f ==> f1[k] == f[k]);
      assert (k in f2 <==> k in f1) && (k in f1 ==> f2[k] == f1[k]);
      assert (k in f3 <==> k in f2) && (k in f2 ==> f3[k] == f2[k]);
    }
  }

  /** The first counted type only depends on the count keys of the listed types. */
  lemma {:induction false} FirstCountedTypeAgree(f: Record, g: Record, types: seq<string>)
    requires forall t | t in types :: GetField(f, TypeCountKey(t)) == GetField(g, TypeCountKey(t))
    ensures FirstCountedType(f, types) == FirstCountedType(g, types)
  {
    if |types| > 0 {
      assert types[0] in types;
      assert forall t | t in types[1..] :: t in types;
      FirstCountedTypeAgree(f, g, types[1..]);
    }
  }

  /** The `for tp in types: … break` loop of `add_derived_values`, which only reads the record. */
  method FindSingleType(f: Record, types: seq<string>) returns (singleType: Value)
    ensures singleType == FirstCountedType(f, types)
  {
    singleType := None;
    var i := 0;
    while i < |types|
      invariant 0 <= i <= |types|
      invariant FirstCountedType(f, types) == FirstCountedType(f, types[i..])
    {
      if GetField(f, TypeCountKey(types[i])) != None {
        singleType := Str(types[i]);
        assert types[i..][0] == types[i];
        break;
      }
      assert types[i..][1..] == types[i + 1..];
      i := i + 1;
    }
  }

  /** The `response_time_millis` migration, in place. */
  method MigrateMillisInPlace(b: Benchmark)
    modifies b
    ensures b.fields == MigrateMillis(old(b.fields))
  {
    if GetField(b.fields, "response_time_millis") != None {
      b.fields := b.fields["response_time" := b.fields["response_time_millis"]];
      b.fields := b.fields["time_unit" := Str("milliseconds")];
      b.fields := b.fields - {"response_time_millis"};
    }
  }

  /** The dynamic size defaults, in place. */
  method DefaultDynamicInPlace(b: Benchmark)
    modifies b
    ensures b.fields == DefaultDynamic(old(b.fields))
  {
    if GetField(b.fields, "dynamic_size") == None {
      b.fields := b.fields["dynamic_variation" := Int(0)];
      b.fields := b.fields["dynamic_size" := Int(0)];
    } else {
      b.fields := b.fields["dynamic_variation" := Int(1)];
    }
  }

  /** The renaming of custom benchmarks, in place. */
  method RenameCustomInPlace(b: Benchmark)
    requires "no" in b.fields && "id" in b.fields
    modifies b
    ensures b.fields == RenameCustom(old(b.fields))
  {
    if EqualsInt(b.fields["no"], -1) {
      var bid := RenamedId(b.fields["id"]);
      if bid.Some? {
        b.fields := b.fields["id" := Str(bid.value)];
      }
    }
  }

  /** The last part, in place. */
  method FinishInPlace(b: Benchmark, latex: bool, types: seq<string>)
    requires "from" in b.fields && "to" in b.fields && "id" in b.fields && b.fields["id"].Str?
    modifies b
    ensures b.fields == Finish(old(b.fields), latex, types)
  {
    var singleType := None;
    if EqualsInt(GetField(b.fields, "parameter_count"), 0) {
      singleType := Str("any");
    } else if EqualsInt(GetField(b.fields, "parameter_type_count"), 1) {
      singleType := FindSingleType(b.fields, types);
    }
    ghost var before := b.fields;
    b.fields := b.fields["direction" := Str(FormatDirection(b.fields["from"], b.fields["to"], latex))];
    b.fields := b.fields["single_type" := singleType];
    assert b.fields["id"] == before["id"];
    if Contains(b.fields["id"].s, "Nio") {
      b.fields := b.fields["nio" := Bool(true)];
    } else {
      b.fields := b.fields["nio" := Bool(false)];
    }
  }

  /** plot_data.py `add_derived_values`, updating the record step by step. */
  method AddDerivedValues(b: Benchmark, latex: bool, types: seq<string>)
    requires DerivedReady(b.fields)
    modifies b
    ensures b.fields == Derived(old(b.fields), latex, types)
  {
    StepsKeepReady(b.fields);
    MigrateMillisInPlace(b);
    DefaultDynamicInPlace(b);
    RenameCustomInPlace(b);
    FinishInPlace(b, latex, types);
  }

  // ---------------------------------------------------------------------
  // add_global_values

  /** `a * b` in Python 2: numbers multiply, a string times a number repeats it, anything else raises TypeError. */
  predicate CanMultiply(a: Value, b: Value)
  {
    (IsNumber(a) && IsNumber(b)) || (a.Str? && IsNumber(b)) || (IsNumber(a) && b.Str?)
  }

  function Multiply(a: Value, b: Value): (r: Value)
    requires CanMultiply(a, b)
    ensures IsNumber(a) && IsNumber(b) ==> r == Int(Num(a) * Num(b))
    ensures a.Str? ==> r == Str(Repeat(a.s, Num(b)))
    ensures b.Str? ==> r == Str(Repeat(b.s, Num(a)))
  {
    if IsNumber(a) && IsNumber(b) then Int(Num(a) * Num(b))
    else if a.Str? then Str(Repeat(a.s, Num(b)))
    else Str(Repeat(b.s, Num(a)))
  }

  /** `benchmark['multiplier'] *= val` must not raise: it only runs on a present, non-None multiplier. */
  predicate GlobalsFit(f: Record, globals: map<string, Value>)
  {
    "multiplier" in globals && "multiplier" in f && f["multiplier"] != None ==> CanMultiply(f["multiplier"], globals["multiplier"])
  }

  /**
   * The value of key `k` once the global values are applied: a missing or
   * None entry takes the global value, a present multiplier is multiplied by
   * it, every other entry stays.
   */
  function GlobalEntry(f: Record, globals: map<string, Value>, k: string): Value
    requires k in f || k in globals
    requires GlobalsFit(f, globals)
  {
    if k in globals && (k !in f || f[k] == None) then globals[k]
    else if k in globals && k == "multiplier" then Multiply(f[k], globals[k])
    else f[k]
  }

  /** plot_data.py `add_global_values`, as a function of the record before the call. */
  function WithGlobals(f: Record, globals: map<string, Value>): (r: Record)
    requires GlobalsFit(f, globals)
    ensures r.Keys == f.Keys + globals.Keys
  {
    map k | k in f.Keys + globals.Keys :: GlobalEntry(f, globals, k)
  }

  /** One iteration of the loop on the current record. */
  function WithGlobal(f: Record, k: string, v: Value): Record
    requires k == "multiplier" && k in f && f[k] != None ==> CanMultiply(f[k], v)
  {
    if k !in f || f[k] == None then f[k := v]
    else if k == "multiplier" then f[k := Multiply(f[k], v)]
    else f
  }

  /** The part of `globals` whose keys the loop has already visited. */
  function Restrict(globals: map<string, Value>, done: set<string>): (g: map<string, Value>)
    requires done <= globals.Keys
    ensures g.Keys == done && forall k | k in g :: g[k] == globals[k]
  {
    map k | k in done :: globals[k]
  }

  /** Visiting one more key of the dictionary extends the applied part of it by that key. */
  lemma {:induction false} WithGlobalsStep(f: Record, globals: map<string, Value>, done: set<string>, k: string)
    requires done <= globals.Keys && k in globals && k !in done
    requires GlobalsFit(f, globals)
    ensures GlobalsFit(f, Restrict(globals, done)) && GlobalsFit(f, Restrict(globals, done + {k}))
    ensures var cur := WithGlobals(f, Restrict(globals, done));
      && (k == "multiplier" && k in cur && cur[k] != None ==> CanMultiply(cur[k], globals[k]))
      && WithGlobal(cur, k, globals[k]) == WithGlobals(f, Restrict(globals, done + {k}))
  {
    var d1, d2 := Restrict(globals, done), Restrict(globals, done + {k});
    RestrictFits(f, globals, done);
    RestrictFits(f, globals, done + {k});
    var cur, next := WithGlobals(f, d1), WithGlobals(f, d2);
    assert k !in d1 && d2[k] == globals[k];
    assert k in cur <==> k in f;
    assert k in f ==> cur[k] == f[k];
    var stepped := WithGlobal(cur, k, globals[k]);
    assert stepped.Keys == next.Keys;
    forall j | j in next
      ensures stepped[j] == next[j]
    {
      if j != k {
        assert stepped[j] == cur[j];
        assert (j in d1 <==> j in d2) && (j in d1 ==> d1[j] == d2[j]);
      }
    }
  }

  /** Part of a fitting dictionary fits too. */
  lemma RestrictFits(f: Record, globals: map<string, Value>, done: set<string>)
    requires done <= globals.Keys && GlobalsFit(f, globals)
    ensures GlobalsFit(f, Restrict(globals, done))
  {
  }

  /**
   * plot_data.py `add_global_values`.  The dictionary is visited in an order
   * the model leaves open; the result is the same whatever the order.
   */
  method AddGlobalValues(b: Benchmark, globals: map<string, Value>)
    requires GlobalsFit(b.fields, globals)
    modifies b
    ensures b.fields == WithGlobals(old(b.fields), globals)
  {
    ghost var start := b.fields;
    ghost var done: set<string> := {};
    var todo := globals.Keys;
    while todo != {}
      invariant done <= globals.Keys && todo == globals.Keys - done
      invariant GlobalsFit(start, Restrict(globals, done))
      invariant b.fields == WithGlobals(start, Restrict(globals, done))
      decreases todo
    {
      var key :| key in todo;
      var val := globals[key];
      WithGlobalsStep(start, globals, done, key);
      ApplyGlobal(b, key, val);
      todo, done := todo - {key}, done + {key};
    }
    RestrictAll(globals);
  }

  /** The part of the dictionary whose keys have all been visited is the dictionary. */
  lemma RestrictAll(globals: map<string, Value>)
    ensures Restrict(globals, globals.Keys) == globals
  {
  }

  /** The body of the loop of `add_global_values` for one key and its value. */
  method ApplyGlobal(b: Benchmark, key: string, val: Value)
    requires key == "multiplier" && key in b.fields && b.fields[key] != None ==> CanMultiply(b.fields[key], val)
    modifies b
    ensures b.fields == WithGlobal(old(b.fields), key, val)
  {
    if key !in b.fields || b.fields[key] == None {
      b.fields := b.fields[key := val];
    } else if key == "multiplier" {
      b.fields := b.fields[key := Multiply(b.fields[key], val)];
    }
  }

  /** Applying two different global keys in either order gives the same record: the dictionary order does not matter. */
  lemma {:induction false} GlobalsCommute(f: Record, k1: string, v1: Value, k2: string, v2: Value)
    requires k1 != k2
    requires k1 == "multiplier" && k1 in f && f[k1] != None ==> CanMultiply(f[k1], v1)
    requires k2 == "multiplier" && k2 in f && f[k2] != None ==> CanMultiply(f[k2], v2)
    ensures k2 == "multiplier" && k2 in WithGlobal(f, k1, v1) && WithGlobal(f, k1, v1)[k2] != None ==> CanMultiply(WithGlobal(f, k1, v1)[k2], v2)
    ensures k1 == "multiplier" && k1 in WithGlobal(f, k2, v2) && WithGlobal(f, k2, v2)[k1] != None ==> CanMultiply(WithGlobal(f, k2, v2)[k1], v1)
    ensures WithGlobal(WithGlobal(f, k1, v1), k2, v2) == WithGlobal(WithGlobal(f, k2, v2), k1, v1)
  {
    var g1, g2 := WithGlobal(f, k1, v1), WithGlobal(f, k2, v2);
    assert (k2 in g1 <==> k2 in f) && (k2 in f ==> g1[k2] == f[k2]);
    assert (k1 in g2 <==> k1 in f) && (k1 in f ==> g2[k1] == f[k1]);
    var a, b := WithGlobal(g1, k2, v2), WithGlobal(g2, k1, v1);
    assert a.Keys == b.Keys;
    forall j | j in a
      ensures a[j] == b[j]
    {
      if j == k1 {
        assert a[j] == g1[k1] && b[j] == WithGlobal(g2, k1, v1)[k1];
      } else if j == k2 {
        assert b[j] == g2[k2] && a[j] == WithGlobal(g1, k2, v2)[k2];
      } else {
        assert a[j] == f[j] && b[j] == f[j];
      }
    }
  }

  /** Without a global multiplier, applying the global values a second time changes nothing. */
  lemma {:induction false} GlobalsIdempotent(f: Record, globals: map<string, Value>)
    requires "multiplier" !in globals
    ensures GlobalsFit(WithGlobals(f, globals), globals)
    ensures WithGlobals(WithGlobals(f, globals), globals) == WithGlobals(f, globals)
  {
    var once := WithGlobals(f, globals);
    var twice := WithGlobals(once, globals);
    forall k | k in twice
      ensures twice[k] == once[k]
    {
    }
  }

  /** A global value that is not None leaves no None behind at its key. */
  lemma {:induction false} GlobalsFill(f: Record, globals: map<string, Value>, k: string)
    requires GlobalsFit(f, globals)
    requires k in globals && globals[k] != None
    requires k == "multiplier" && k in f && f[k] != None ==> Multiply(f[k], globals[k]) != None
    ensures k in WithGlobals(f, globals) && WithGlobals(f, globals)[k] != None
  {
  }

  // ---------------------------------------------------------------------
  // preprocess_benchmarks

  /** Whether some record has a `repetitions` key. */
  predicate AnyRepetitions(bs: seq<Benchmark>)
    reads bs
  {
    exists b | b in bs :: "repetitions" in b.fields
  }

  /** `b['repetitions'] is not None` for every record needs the key in every record. */
  predicate RepetitionsUniform(bs: seq<Benchmark>)
    reads bs
  {
    AnyRepetitions(bs) ==> forall b | b in bs :: "repetitions" in b.fields
  }

  /** `[b for b in benchmarks if b['repetitions'] is not None]` */
  function KeepRepeated(bs: seq<Benchmark>): (kept: seq<Benchmark>)
    reads bs
    requires forall b | b in bs :: "repetitions" in b.fields
    ensures IsSubsequence(kept, bs)
    ensures forall b | b in kept :: b in bs
    ensures forall b | b in kept :: b.fields["repetitions"] != None
    ensures forall b | b in bs && b.fields["repetitions"] != None :: b in kept
  {
    if |bs| == 0 then []
    else
      var rest := KeepRepeated(bs[1..]);
      assert forall b | b in bs[1..] :: b in bs;
      if bs[0].fields["repetitions"] != None then [bs[0]] + rest else rest
  }

  /** The records that are processed: those with repetitions when the key occurs at all. */
  function Kept(bs: seq<Benchmark>): (kept: seq<Benchmark>)
    reads bs
    requires RepetitionsUniform(bs)
    ensures IsSubsequence(kept, bs)
  {
    if AnyRepetitions(bs) then KeepRepeated(bs) else (IsSubsequenceSelf(bs); bs)
  }

  lemma {:induction false} IsSubsequenceSelf<T>(s: seq<T>)
    ensures IsSubsequence(s, s)
  {
    if |s| > 0 {
      IsSubsequenceSelf(s[1..]);
    }
  }

  /** A subsequence of distinct elements is distinct, and its elements come from the sequence. */
  lemma {:induction false} SubsequenceDistinct<T>(sub: seq<T>, s: seq<T>)
    requires IsSubsequence(sub, s) && Distinct(s)
    ensures Distinct(sub) && forall x | x in sub :: x in s
    decreases |s|
  {
    if |sub| > 0 {
      assert Distinct(s[1..]) by {
        forall i, j | 0 <= i < j < |s[1..]|
          ensures s[1..][i] != s[1..][j]
        {
          assert s[1..][i] == s[i + 1] && s[1..][j] == s[j + 1];
        }
      }
      if sub[0] == s[0] {
        SubsequenceDistinct(sub[1..], s[1..]);
        assert forall x | x in sub :: x == sub[0] || x in sub[1..];
        forall i, j | 0 <= i < j < |sub|
          ensures sub[i] != sub[j]
        {
          if i == 0 {
            assert sub[j] == sub[1..][j - 1];
            assert sub[j] in s[1..];
            var m :| 0 <= m < |s[1..]| && s[1..][m] == sub[j];
            assert s[m + 1] == sub[j];
          } else {
            assert sub[i] == sub[1..][i - 1] && sub[j] == sub[1..][j - 1];
          }
        }
      } else {
        SubsequenceDistinct(sub, s[1..]);
      }
    }
  }

  /**
   * What `preprocess_benchmarks` needs of a kept record: the keys derivation
   * reads, and a global multiplier it can apply (derivation leaves the
   * multiplier alone, so the record before derivation decides it).
   */
  predicate Processable(f: Record, globals: map<string, Value>, latex: bool, types: seq<string>)
  {
    DerivedReady(f) && GlobalsFit(f, globals)
  }

  /** `add_derived_values` keeps whatever `add_global_values` needs of the multiplier. */
  lemma {:induction false} DerivedStillFits(f: Record, globals: map<string, Value>, latex: bool, types: seq<string>)
    requires Processable(f, globals, latex, types)
    ensures GlobalsFit(Derived(f, latex, types), globals)
  {
    var f3 := RenameCustom(DefaultDynamic(MigrateMillis(f)));
    PreparedFrame(f);
    assert "multiplier" !in DerivedKeys;
    StepsKeepReady(f);
    var r := Finish(f3, latex, types);
    assert r == Derived(f, latex, types);
    assert ("multiplier" in r <==> "multiplier" in f) && ("multiplier" in f ==> r["multiplier"] == f["multiplier"]);
  }

  /** A kept record after `add_derived_values` and then `add_global_values`. */
  function Preprocessed(f: Record, globals: map<string, Value>, latex: bool, types: seq<string>): Record
    requires Processable(f, globals, latex, types)
  {
    DerivedStillFits(f, globals, latex, types);
    WithGlobals(Derived(f, latex, types), globals)
  }

  /** The body of the loop of `preprocess_benchmarks`: derived values first, then the global ones. */
  method PreprocessOne(b: Benchmark, globals: map<string, Value>, latex: bool, types: seq<string>)
    requires Processable(b.fields, globals, latex, types)
    modifies b
    ensures b.fields == Preprocessed(old(b.fields), globals, latex, types)
  {
    DerivedStillFits(b.fields, globals, latex, types);
    AddDerivedValues(b, latex, types);
    AddGlobalValues(b, globals);
  }

  /** The loop of `preprocess_benchmarks` over distinct records. */
  method PreprocessAll(kept: seq<Benchmark>, globals: map<string, Value>, latex: bool, types: seq<string>)
    requires Distinct(kept)
    requires forall b | b in kept :: Processable(b.fields, globals, latex, types)
    modifies set b | b in kept
    ensures forall i | 0 <= i < |kept| :: kept[i].fields == Preprocessed(old(kept[i].fields), globals, latex, types)
  {
    ghost var before := seq(|kept|, j requires 0 <= j < |kept| reads kept => kept[j].fields);
    assert forall j | 0 <= j < |kept| :: kept[j] in kept && Processable(before[j], globals, latex, types);
    for i := 0 to |kept|
      invariant forall j | 0 <= j < i :: kept[j].fields == Preprocessed(before[j], globals, latex, types)
      invariant forall j | i <= j < |kept| :: kept[j].fields == before[j]
    {
      assert forall j | 0 <= j < |kept| && j != i :: kept[j] != kept[i];
      PreprocessOne(kept[i], globals, latex, types);
    }
  }

  /**
   * plot_data.py `preprocess_benchmarks`.  The records are distinct objects
   * (each record is processed once); the list returned holds the kept ones,
   * each completed in place, and the dropped ones are untouched.
   */
  method PreprocessBenchmarks(benchmarks: seq<Benchmark>, globals: map<string, Value>, latex: bool, types: seq<string>)
    returns (kept: seq<Benchmark>)
    requires Distinct(benchmarks)
    requires RepetitionsUniform(benchmarks)
    requires forall b | b in Kept(benchmarks) :: Processable(b.fields, globals, latex, types)
    modifies set b | b in benchmarks
    ensures kept == old(Kept(benchmarks))
    ensures forall i | 0 <= i < |kept| :: kept[i] in benchmarks && kept[i].fields == Preprocessed(old(kept[i].fields), globals, latex, types)
    ensures forall b | b in benchmarks && b !in kept :: b.fields == old(b.fields)
  {
    var anyRepetitions := exists b | b in benchmarks :: "repetitions" in b.fields;
    if anyRepetitions {
      kept := KeepRepeated(benchmarks);
    } else {
      kept := benchmarks;
    }
    assert kept == Kept(benchmarks);
    SubsequenceDistinct(kept, benchmarks);
    PreprocessAll(kept, globals, latex, types);
  }
}
