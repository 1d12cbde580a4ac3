# Benchmark analysis core, modelled in Dafny

This project models the analysis layer of a JNI call-overhead benchmark study.
That layer reads raw measurement records from comma-separated data files. It
completes the records and sorts and groups them along their controlled
dimensions. It collapses replicate measurements to their minimum, checking the
replicate count against the declared multiplier, and pivots each compatible
set into a (headers, rows) table. The tables are then written out as gnuplot
data blocks and as fixed-width textual tables.

The model keeps the source's own form:

- Pure computations become functions with named results, proved against
  lemmas.
- Every loop of the source becomes a method with a `while` or `for` loop. The
  method is proved equal to a specification function, and the properties are
  proved about that function.
- The benchmark records that `add_derived_values` and `add_global_values` change
  in place are objects of the class `Preprocess.Benchmark`.
- The `max_widths` list of `make_textual_table` is an array.
- `exit(1)` becomes the `Exit` case of `Outcomes.Result`, carrying the reason.
  Every error path of the source is modelled this way: a replicate-count
  mismatch, a data line with too many fields, unequal key counts, and a
  metadata entry before the first blank line.

Python 2 values are `Values.Value`: None, bool, int or str. They are ordered the
way Python 2 orders them: None first, then numbers (a bool counts as 0 or 1),
then strings by code point. A record is a `map<string, Value>`. An
`OrderedDict` is a sequence of key/value pairs. A data file is the sequence of
lines its `readline` returns. Each line is non-empty and keeps its newline.

Modules:

| module | models |
|---|---|
| `Values`, `Strings`, `Seqs`, `Sorting`, `OrderedDicts`, `Outcomes` | Python 2 values and their order, `str`/`int` conversion, `split`/`join`/`strip`/`zfill`/`rjust`, `sorted` (a stable insertion sort), ordered dicts, `exit(1)` |
| `Records` | `comp_function` and the sort of the records by it |
| `Grouping` | `group_by_keys` (`itertools.groupby` over projected keys) |
| `Aggregation` | `aggregate_measurements` |
| `Extraction`, `ExtractionProperties` | `extract_data`: the key roles, the three levels of grouping, aggregation, the ordered dicts and the length filter |
| `Pivot` | `make_table` and `convert_to_seconds` |
| `Preprocess` | `format_direction`, `add_derived_values`, `add_global_values`, `preprocess_benchmarks` |
| `Plotting` | `without`, `binned_value`, and the parts of `plot` that are not I/O: the selection, the skip and exit cases, the page counter and identifier suffixes, `make_id`, the fitted rows |
| `DataFiles` | `value`, `empty_label`, `read_datafiles` |
| `Metadata` | `read_measurement_metadata` |
| `Gnuplot` | `format_value`, `print_benchmarks`, the `miny` loop and the fitted-style columns of `output_plot` |
| `TextualTable` | `make_textual_table`, `make_vertical_textual_table` |

Preconditions state what the source needs in order not to crash with a
`KeyError`, `TypeError` or `IndexError`. Examples:

- every record read by `extract_data` has the keys it reads;
- a row of a textual table has one cell per header;
- a vertical table has at least one header, because `max` of an empty list
  fails.

Where the source checks a condition and exits, the model has an error result
instead of a precondition.

## Model

| member | source | states |
|---|---|---|
| Values.LessTotal | plot_data.py:246-249 | two different values are ordered one way or the other, so `comp_function` decides every pair of distinct values |
| Values.LessTransitive | plot_data.py:246-249 | the value order is transitive |
| Values.ParseIntToString | datafiles.py:22-23 | `int(str(i)) == i`: the decimal text of any int matches the numeric pattern and parses back to it |
| Records.CompFunction | plot_data.py:241-250 | the loop with early returns computes the lexicographic comparison over the key list, skipping keys absent from both records |
| Records.CompareRange | plot_data.py:241-250 | the comparator only answers -1, 0 or 1 |
| Records.CompareSelf | plot_data.py:241-250 | a record compares equal to itself |
| Records.CompareAntisymmetric | plot_data.py:241-250 | swapping the records negates the answer |
| Records.CompareZeroIffAgree | plot_data.py:241-250 | the answer is 0 exactly when the records agree on every listed key they have |
| Records.CompareDecidedByFirstDifference | plot_data.py:241-250 | the first listed key on which the records differ decides the order |
| Records.CompareAppend | plot_data.py:166-168 | comparing over `list(controlled) + sort_last` compares the controlled keys first and falls back to `sort_last` on a tie |
| Records.CompareTransitive | plot_data.py:241-250 | over records with the same key presence the comparator is a transitive preorder, strictly so when either step is strict |
| Records.SortRecordsCorrect | plot_data.py:170-172 | `sorted(..., cmp=comp_function)` returns a sorted permutation of the records |
| Grouping.ProjectAgree | plot_data.py:222 | two records have equal projections `[b[k] for k in keyset]` exactly when they agree on the keys |
| Grouping.GroupByKeys | plot_data.py:217-222 | every run is non-empty and made of input records; the first run starts with the first record |
| Grouping.GroupsConcatenate | plot_data.py:217-222 | concatenating the runs in order gives back the input: nothing is lost, repeated or reordered |
| Grouping.GroupsUniform | plot_data.py:217-222 | all records of a run have the projection of its first record |
| Grouping.GroupsAdjacentDiffer | plot_data.py:217-222 | runs are maximal: neighbouring runs have different projections |
| Grouping.GroupsSorted | plot_data.py:217-222 | each run of a sorted list is sorted |
| Grouping.SortedPrefix | plot_data.py:166-172 | a list sorted over `p + q` is sorted over the leading keys `p` |
| Grouping.SortedSuffix | plot_data.py:166-172 | a sorted list whose records agree on `p` is sorted over the remaining keys `q` |
| Grouping.GroupsOfSortedAscend | plot_data.py:179 | grouping a list sorted by the grouping keys yields runs with strictly ascending first records, so no projection occurs in two runs |
| Grouping.LaterHeadsAbove | plot_data.py:179 | in a sorted list the first record sits strictly below the first records of all later runs of the rest |
| Grouping.FirstHeadBelow | plot_data.py:217-222 | the run opened by the first record sits strictly below every later run, whether that record joins the next run or opens its own |
| Grouping.RunsHaveKeys | plot_data.py:217-222 | the runs have every key that all input records have |
| Aggregation.MinValue | plot_data.py:194 | `min` of a non-empty list is one of its elements, and no element is smaller |
| Aggregation.MinValuePermutation | plot_data.py:194 | the minimum depends only on which values occur, not on their order |
| Aggregation.AggregateSpec | plot_data.py:225-238 | on success: the last replicate with only the measure changed, to the least measured value; the program exits exactly when the updated record's multiplier differs from the replicate count |
| Aggregation.AggregateFailsIff | plot_data.py:233-236 | when the measure is not `multiplier`, the exit is decided by the last replicate's own multiplier |
| Aggregation.AggregatePermutation | plot_data.py:225-238 | replicates reordered, keeping the same last record and the same measured values, aggregate to the same result |
| Aggregation.AggregateKeepsAgreement | plot_data.py:225-238 | a key on which all replicates agree keeps that value in the aggregate, even when it is the measure |
| Aggregation.AggregateMeasurements | plot_data.py:225-238 | the loop that collects the measured values, followed by the update of the last record, computes `AggregateSpec` |
| Extraction.InfoKeys | plot_data.py:151-160 | `info` starts with the six fixed keys; it holds `class` and `description` exactly when the first record has them, `parameter_count` exactly when the variable matches `parameter_type_.+count`, and `id` exactly when the variable is not `id`; it holds nothing else |
| Extraction.ClassifyInfo | plot_data.py:151-160 | the appends build `InfoKeys` |
| Extraction.InfoOptional | plot_data.py:153-160 | beyond the six fixed keys, `info` can only gain `class`, `description`, `parameter_count` and `id` |
| Extraction.InfoClass | plot_data.py:153-154 | `class` is an info key exactly when the first record has it |
| Extraction.InfoDescription | plot_data.py:155-156 | `description` is an info key exactly when the first record has it |
| Extraction.InfoParameterCount | plot_data.py:157-158 | `parameter_count` is an info key exactly when the variable matches `parameter_type_.+count` |
| Extraction.InfoId | plot_data.py:159-160 | `id` is an info key exactly when the variable is not `id` |
| Extraction.ControlledPartition | plot_data.py:163-168 | the controlled keys and the keys of `sort_last` are disjoint and together make up the record keys |
| Extraction.Lookup | plot_data.py:197-206 | `cell.get(key)` on the aggregated cell literal, where a later key wins: the group value, then the measure, then the variable value shadow the fixed entries |
| Extraction.PlotGroups | plot_data.py:181 | `group_by_keys(x, [group])`: non-empty plot groups of records of the compatible set |
| Extraction.GroupPairs | plot_data.py:208-211 | each series is keyed by the group value of its first cell |
| Extraction.KeepLong | plot_data.py:213-214 | the filter keeps, in order, exactly the sets whose first series has at least `min_series_length` entries |
| Extraction.BuildSeries | plot_data.py:191-206 | aggregating each variable run and building the ordered dict computes `SeriesOf` |
| Extraction.BuildCompatible | plot_data.py:190-211 | building the series of one compatible set and sorting them by group value computes `CompatibleOf` |
| Extraction.GroupPlots | plot_data.py:181-183 | the nested slot-by-slot regrouping computes the two inner grouping levels |
| Extraction.GroupAll | plot_data.py:179-183 | the slot-by-slot regrouping computes all three grouping levels |
| Extraction.GroupNext | plot_data.py:181-183 | one pass of the loop extends the computed grouping by the next compatible set's plot groups |
| Extraction.AssembleSets | plot_data.py:189-214 | the aggregation loops, the ordered dicts and the filter compute `Assemble`, stopping at the first replicate-count mismatch |
| Extraction.ExtractData | plot_data.py:146-214 | `extract_data` computes `ExtractSpec`: sort, group, aggregate, filter |
| ExtractionProperties.SortedBenchmarksFacts | plot_data.py:163-172 | the records sorted by the controlled keys and then `sort_last` are a sorted permutation of the input |
| ExtractionProperties.HeadsAscend | plot_data.py:181-183 | the runs of a list sorted by one key start with strictly ascending values of that key |
| ExtractionProperties.GroupHeadsAscend | plot_data.py:181 | the plot groups of a compatible set start with strictly ascending group values |
| ExtractionProperties.VariableHeadsAscend | plot_data.py:183 | the variable runs of a plot group start with strictly ascending variable values |
| ExtractionProperties.AggregatesKeep | plot_data.py:193-206 | the aggregate of a variable run keeps the run's variable value, the plot group's value and the controlled values |
| ExtractionProperties.SeriesPairsAscend | plot_data.py:196-206 | the entries of a series have strictly ascending variable values, so the ordered dict loses none of them |
| ExtractionProperties.CellOfAggregate | plot_data.py:198-199 | a cell's `fixed` dict holds the controlled values, and its `info` dict has exactly the info keys |
| ExtractionProperties.SeriesFacts | plot_data.py:191-206 | a sorted plot group that shares its group value and controlled values yields a well-shaped series |
| ExtractionProperties.PlotGroupReady | plot_data.py:181 | a plot group inherits sortedness and the controlled values from its compatible set and shares one group value |
| ExtractionProperties.CompatibleFacts | plot_data.py:190-211 | a sorted compatible set yields an ordered dict of series with strictly ascending group values |
| ExtractionProperties.ControlledRunFacts | plot_data.py:179 | a run of equal controlled values is sorted over `sort_last` and shares its controlled values |
| ExtractionProperties.SetsShaped | plot_data.py:179-211 | every compatible set built from the sorted records is well shaped, with the controlled values of one of the records |
| ExtractionProperties.ShapedFromPermutation | plot_data.py:170-172 | being built from a record does not depend on the order of the records |
| ExtractionProperties.ExtractFacts | plot_data.py:146-214 | every set that `extract_data` returns is non-empty and has a first series of at least `min_series_length` entries; its series have ascending group values and entries with ascending variable values; its cells carry the controlled values of one input record |
| Pivot.ConvertToSeconds | plot_data.py:384-394 | only a value of type `int` is converted, and it keeps its count of nanoseconds; bools and longs pass through unchanged |
| Pivot.ZFill | plot_data.py:389 | `zfill(w)` pads to width `w` and never shortens |
| Pivot.PaddedDigits | plot_data.py:389 | zero-padding a digit string keeps its value |
| Pivot.PaddedNonNegative | plot_data.py:386-389 | the padded text of a non-negative count is a digit string of that value |
| Pivot.PaddedNegative | plot_data.py:386-389 | the padded text of a negative count is a minus sign followed by the digits of its magnitude |
| Pivot.SecondsTextValue | plot_data.py:389-393 | the decimal text that `float` parses is `n / 10^9` written out exactly: nine fractional digits, the integer digits before them, and a sign for negative `n` |
| Pivot.MissingCell | plot_data.py:414-416 | a group without the variable value gives a None cell |
| Pivot.MeasureCell | plot_data.py:414 | an entry whose measure is set gives that measure |
| Pivot.InfoCell | plot_data.py:415-416 | a key that is none of the cell's own entries is read from its `info` dict, or is None |
| Pivot.VariableSet | plot_data.py:397-399 | the union holds exactly the variable values of some series |
| Pivot.SortedList | plot_data.py:401 | `sorted(list(s))` holds exactly the elements of the set, in strictly ascending order |
| Pivot.LeastUnique | plot_data.py:401 | a set has at most one least element, so the sorted list is determined by the set |
| Pivot.CollectVariables | plot_data.py:397-399 | the loop of `update` calls computes the union of the series' variable values |
| Pivot.BuildRow | plot_data.py:411-419 | one row is the variable value followed by one cell per group, in series order |
| Pivot.BuildRows | plot_data.py:410-420 | the outer loop builds one row per variable value, in order |
| Pivot.MakeTable | plot_data.py:396-425 | `make_table` returns the axis label followed by the group values, and the rows of `TableRows` |
| Pivot.IdSortCorrect | plot_data.py:423 | the `id` re-sort orders the rows by their first data cell, a false cell counting as -1, and keeps every row |
| Pivot.CellNotLessTransitive | plot_data.py:423 | not being smaller is transitive for the sort key, as a stable sort needs |
| Pivot.TableShape | plot_data.py:396-425 | the headers are the axis label and the group values; there is one row per variable value; every row has one cell per header and starts with a variable value; the `id` rows are a permutation of the others |
| Pivot.HeadersShape | plot_data.py:404-407 | the headers are the axis label followed by the group values, in order |
| Pivot.IdTableSorted | plot_data.py:422-423 | for the `id` variable the rows come sorted by their first data cell |
| Pivot.TableVariables | plot_data.py:397-401 | every value that some series has gets a row, no other value does, and the rows ascend |
| Pivot.TableCells | plot_data.py:410-420 | outside the `id` case, row `r` belongs to the r-th variable value and its cells come from the groups in series order |
| Preprocess.Benchmark.constructor | plot_data.py:72 | a benchmark object holds the given record |
| Preprocess.FormatDirection | plot_data.py:59-68 | the label is the origin, the separator and the target, with `J` written `Java` |
| Preprocess.DirectionsDistinct | plot_data.py:70 | the four call directions get four different labels, with either separator |
| Preprocess.RenameSettles | plot_data.py:98-121 | no new name of a custom benchmark is itself an old name, so renaming twice changes nothing more |
| Preprocess.NewNamesNotRenamed | plot_data.py:98-121 | none of the names custom benchmarks are renamed to is renamed again |
| Preprocess.FirstCountedTypeIsFirst | plot_data.py:126-130 | the type found is the first listed type whose count key has a value; None means that no listed type has one |
| Preprocess.FirstCountedTypeAgree | plot_data.py:126-130 | the type found depends only on the count keys of the listed types |
| Preprocess.FindSingleType | plot_data.py:127-130 | the `for … break` loop finds the first counted type |
| Preprocess.TypeCountKeysUntouched | plot_data.py:128 | no count key of a parameter type is among the keys `add_derived_values` writes |
| Preprocess.MigrateMillis | plot_data.py:85-88 | the migration changes only `response_time`, `time_unit` and `response_time_millis` |
| Preprocess.DefaultDynamic | plot_data.py:89-93 | the defaults change only `dynamic_size` and `dynamic_variation` |
| Preprocess.RenameCustom | plot_data.py:94-121 | the renaming changes only `id`, and a string id stays a string |
| Preprocess.StepsKeepReady | plot_data.py:83-136 | the keys the later steps read survive the earlier ones |
| Preprocess.DerivedMigration | plot_data.py:85-88 | a set `response_time_millis` moves to `response_time` in milliseconds and is deleted; a None one stays |
| Preprocess.DerivedDynamic | plot_data.py:89-93 | a record without a dynamic size gets size 0 and variation 0; one with a size keeps it and gets variation 1 |
| Preprocess.DerivedId | plot_data.py:94-136 | a custom benchmark (`no == -1`) with a listed old id gets the new one, any other id stays; `nio` is whether the final id contains `Nio` |
| Preprocess.DerivedLabels | plot_data.py:123-132 | the direction label comes from the end points; the single type is `any` when `parameter_count` is 0, otherwise the first counted type when `parameter_type_count` is 1, and None otherwise |
| Preprocess.DerivedFrame | plot_data.py:83-136 | every key that `add_derived_values` does not name keeps its presence and its value |
| Preprocess.PreparedFrame | plot_data.py:84-121 | the migration, dynamic-size and renaming steps keep every key `add_derived_values` does not name |
| Preprocess.MigrateMillisInPlace | plot_data.py:85-88 | the object's record becomes `MigrateMillis` of the old one |
| Preprocess.DefaultDynamicInPlace | plot_data.py:89-93 | the object's record becomes `DefaultDynamic` of the old one |
| Preprocess.RenameCustomInPlace | plot_data.py:94-121 | the object's record becomes `RenameCustom` of the old one |
| Preprocess.FinishInPlace | plot_data.py:123-136 | the object's record gets its direction, single type and `nio` |
| Preprocess.AddDerivedValues | plot_data.py:83-136 | `add_derived_values` updates the object's record to `Derived` of the old one |
| Preprocess.Multiply | plot_data.py:143 | `*=` multiplies numbers and repeats a string by a number |
| Preprocess.WithGlobals | plot_data.py:138-143 | the completed record has the old keys plus the global ones |
| Preprocess.WithGlobalsStep | plot_data.py:139-143 | visiting one more global key extends the applied part of the dictionary by that key |
| Preprocess.AddGlobalValues | plot_data.py:138-143 | the loop over the dictionary, in any visiting order, updates the object's record to `WithGlobals` of the old one |
| Preprocess.ApplyGlobal | plot_data.py:140-143 | one pass of the loop fills a missing or None entry, multiplies a present multiplier, and leaves any other entry |
| Preprocess.GlobalsCommute | plot_data.py:139-143 | applying two different global keys in either order gives the same record |
| Preprocess.GlobalsIdempotent | plot_data.py:138-143 | without a global multiplier, applying the global values a second time changes nothing |
| Preprocess.GlobalsFill | plot_data.py:140-141 | a global value that is not None leaves no None at its key |
| Preprocess.KeepRepeated | plot_data.py:77 | the filter keeps, in order, exactly the records whose repetitions are not None |
| Preprocess.SubsequenceDistinct | plot_data.py:77 | the kept records are distinct objects, each from the input |
| Preprocess.DerivedStillFits | plot_data.py:79-80 | a multiplier that `add_global_values` can apply before `add_derived_values` can still be applied after it |
| Preprocess.FinishFrame | plot_data.py:123-136 | the last part of `add_derived_values` writes only `direction`, `single_type` and `nio` |
| Preprocess.PreprocessOne | plot_data.py:79-80 | one record gets its derived values, then the global ones |
| Preprocess.PreprocessAll | plot_data.py:78-80 | every record of the loop is completed, and each exactly once |
| Preprocess.PreprocessBenchmarks | plot_data.py:72-81 | the result holds the records that are kept, in order, each completed in place; the dropped records are unchanged |
| Plotting.Without | plot_data.py:253-256 | no key list gives the record itself; otherwise the record loses exactly the listed keys and keeps the others' values |
| Plotting.WithoutIdempotent | plot_data.py:253-256 | removing the same keys again changes nothing |
| Plotting.WithoutSameKeys | plot_data.py:253-256 | the result depends only on which keys are listed, not on their order or repetition |
| Plotting.FloorDivBounds | plot_data.py:429 | Python 2's `/` on ints rounds toward minus infinity |
| Plotting.BinnedValueBounds | plot_data.py:428-429 | the value lies in the half-open bin of one width that starts at the returned edge |
| Plotting.BinnedValueIdempotent | plot_data.py:428-429 | a bin edge is its own bin |
| Plotting.Selected | plot_data.py:273-276 | the selection holds `without(keys, b)` for exactly the records `b` the predicate accepts |
| Plotting.StartPlot | plot_data.py:273-286 | a plot that goes on draws the selected records, each of which has the variable |
| Plotting.StartPlotNeverExits | plot_data.py:278-286 | the `exit(1)` for an empty selection cannot run, because an empty selection is skipped first; a plot that goes on has two records with different variable values |
| Plotting.WideCount | plot_data.py:299 | `data_len` counts at most all the sets |
| Plotting.PlanPlots | plot_data.py:297-368 | the loop draws one plot per set of at least `min_series_width` groups, in order; each plot takes the next page, a fitted overlay one more, and the page counter ends advanced by all of them |
| Plotting.DrawOne | plot_data.py:304-365 | one drawn set takes the next index, the next page for its plot, its suffix, and for a fitted overlay the page after |
| Plotting.IntToStringInjective | plot_data.py:315 | `str` gives different ints different texts, so different indices give different suffixes |
| Plotting.SuffixesDistinct | plot_data.py:313-315 | with several sets drawn, their identifier suffixes differ, so no output file overwrites another |
| Plotting.SuffixEmptyIffSingle | plot_data.py:313-315 | a set gets no suffix exactly when at most one set is drawn |
| Plotting.PagesDistinct | plot_data.py:306-365 | every page is used once: the plot pages increase, each overlay takes the page right after its plot, and all pages lie after the starting counter and up to the final one |
| Plotting.MakeIdParts | plot_data.py:340-344 | without slashes in its parts, an identifier splits back into revision, class (or `-`) and, for dynamic sizes, the variable value |
| Plotting.IdRows | plot_data.py:346-349 | the rows keep their shape and first cell; every class cell becomes the identifier of its measurement |
| Plotting.FittedRow | plot_data.py:359-362 | a fitted row is the fitted x value, the row's measured cells, then each series' polynomial evaluated at x |
| Plotting.FittedCurves | plot_data.py:357-363 | the loop builds one fitted row per fitted x value |
| Plotting.FittedRowMatchesHeaders | plot_data.py:366-367 | a fitted row has one cell per header of `headers + headers[1:]` |
| DataFiles.LastDotted | datafiles.py:19 | the last component of a dotted name holds no dot |
| DataFiles.ValueOfInt | datafiles.py:22-23 | `value(str(n))` is `n` for an ordinary key, also when the field still carries the line's newline |
| DataFiles.ValueOfClass | datafiles.py:18-19 | a qualified class name keeps only its last component |
| DataFiles.ValueOfDash | datafiles.py:20-21 | the padding `-` reads as None under an ordinary key |
| DataFiles.EmptyLabel | datafiles.py:27-31 | each call advances the counter by one |
| DataFiles.EmptyLabelsDistinct | datafiles.py:27-29 | different counter values give different labels, so the counter never repeats a label |
| DataFiles.EmptyLabelShape | datafiles.py:29 | a made-up label is not blank, not a key that `value` treats specially, and not `lineno` |
| DataFiles.BlankCount | datafiles.py:49 | at most every label is blank |
| DataFiles.Relabel | datafiles.py:46-50 | relabelling keeps the number of labels and uses one counter value per blank label |
| DataFiles.RelabelAt | datafiles.py:46-50 | a label that is not blank is kept; the blank one at position `i` becomes `empty_N`, with N one more than the counter plus the blanks before it |
| DataFiles.RelabelInPlace | datafiles.py:46-50 | the in-place loop computes `Relabel` and the new counter |
| DataFiles.RelabelNoLineno | datafiles.py:46-50 | relabelling never produces `lineno` |
| DataFiles.RelabelDistinct | datafiles.py:46-50 | after relabelling, the labels of a good header are distinct |
| DataFiles.Dashes | datafiles.py:58 | `['-'] * n` has `n` dashes, and none for a negative `n` |
| DataFiles.ParseRowFails | datafiles.py:56-61 | a line fails exactly when it has more fields than there are labels; a shorter one is padded with `-` to one field per label |
| DataFiles.RowRecordKeys | datafiles.py:63-67 | the keys of a line's record are `lineno` and the labels |
| DataFiles.RowRecordAt | datafiles.py:66-67 | with distinct labels, each label holds the value of its own field |
| DataFiles.RowRecordLineno | datafiles.py:64 | without a `lineno` label, the record's `lineno` is the line number |
| DataFiles.RowValuedIff | datafiles.py:69-70 | a label is marked as valued exactly when one of its fields has a value that is not None |
| DataFiles.RowValuedExact | datafiles.py:66-70 | with distinct labels, the valued labels of a line are the keys its record gives a value |
| DataFiles.ParseLine | datafiles.py:56-70 | the `zip` loop of one data line computes `ParseRow` |
| DataFiles.Stripped | datafiles.py:81-84 | each record loses exactly the keys without values |
| DataFiles.ReadLinesExit | datafiles.py:59-61 | an exit on the first lines of a file is the outcome of the whole file |
| DataFiles.ReadRawExit | datafiles.py:43-61 | an exit in one file is the outcome of the whole read |
| DataFiles.ReadLinesNumbers | datafiles.py:54-76 | the records of a file continue the line numbers before it, one per data line |
| DataFiles.ReadFileNumbers | datafiles.py:42-76 | reading one more file without a `lineno` label numbers its records on from the previous files |
| DataFiles.ReadRawNumbers | datafiles.py:42-76 | without a `lineno` label, the records carry the line numbers 1, 2, 3, … across all files |
| DataFiles.ReadLinesTracked | datafiles.py:54-76 | reading the lines of one file keeps the valued labels exact |
| DataFiles.ReadRawTracked | datafiles.py:43-76 | reading files with good headers keeps the valued labels exact |
| DataFiles.CleanupKeepsValued | datafiles.py:78-84 | the cleanup deletes exactly the keys that no record gives a value: a record keeps a key when it is `lineno` or when some record has a value for it |
| DataFiles.KeyCountsUniform | datafiles.py:80-89 | the check passes only when every record with keys has the same number of them |
| DataFiles.KeyCountsIff | datafiles.py:80-89 | when every record has its `lineno`, the check passes exactly when all records have the same number of keys |
| DataFiles.KeyCountsExit | datafiles.py:81-89 | a failure of the check on the first records is the failure of the whole check |
| DataFiles.KeyCountsNext | datafiles.py:81-89 | checking one more record either keeps the expected count or ends with the mismatch |
| DataFiles.ReadDataLines | datafiles.py:54-76 | the `while line != ''` loop reads the data lines of one file |
| DataFiles.ReadOneFile | datafiles.py:44-76 | one file is its header, relabelled, and then its data lines |
| DataFiles.RemoveUnvalued | datafiles.py:78-89 | the final loop deletes the keys without values and then compares the key counts |
| DataFiles.ReadDatafiles | datafiles.py:33-93 | `read_datafiles` computes `ReadDatafilesSpec`, with the label counter threaded in and out |
| DataFiles.ReadDatafilesFacts | datafiles.py:33-93 | a successful read of files with good headers numbers its records 1, 2, 3, … across the files, and every record has the same number of keys |
| Metadata.AddTo | datafiles.py:128-130 | a new key is appended with a one-element list; an existing key's list grows by the measurement at the end, and every other entry stays |
| Metadata.Completed | datafiles.py:110-120 | the filed measurement copies `tools` to `tool` and has one round unless it names the rounds; every other entry stays |
| Metadata.BlankTwice | datafiles.py:101-108 | a second blank line in a row changes nothing |
| Metadata.BlankFiles | datafiles.py:108-131 | a blank line files a non-empty measurement exactly when it names a revision and repetitions, completed, at the end of its key's list |
| Metadata.FoldExit | datafiles.py:133-138 | once the read has ended with an error (an entry before the first blank line), the later lines do not matter |
| Metadata.TrailingBlockIgnored | datafiles.py:101-140 | a last block not followed by a blank line is never filed |
| Metadata.CompletedWellFiled | datafiles.py:110-122 | a filed measurement is complete |
| Metadata.AddToKeeps | datafiles.py:122-130 | filing a complete measurement under its key keeps all measurements complete and no key twice |
| Metadata.AddToNumbered | datafiles.py:125-127 | filing under the next number appends a new key |
| Metadata.BlankKeeps | datafiles.py:108-131 | filing a measurement keeps the reader's invariant |
| Metadata.FoldKeeps | datafiles.py:95-142 | every state the reader reaches satisfies the invariant |
| Metadata.MetadataFiled | datafiles.py:95-142 | the result has no key twice and only complete measurements; without combining, the keys are 0, 1, 2, … in filing order |
| Metadata.CommitMeasurement | datafiles.py:109-131 | the block after a run of blank lines files the measurement as `Commit` does |
| Metadata.ReadMeasurementMetadata | datafiles.py:95-142 | the nested `while` loops compute `MetadataSpec` |
| Gnuplot.FormatValueShape | gnuplot.py:156-162 | a formatted value starts with a double quote exactly when it is a string, and holds no newline unless that string does |
| Gnuplot.Lines | gnuplot.py:149-151 | one line per row, in order |
| Gnuplot.JoinOneLine | gnuplot.py:146 | a join of one-line parts with a space is one line |
| Gnuplot.LineOneLine | gnuplot.py:150 | the line of a row whose strings hold no newline has no newline |
| Gnuplot.AllLinesOneLine | gnuplot.py:146-151 | the header line and the row lines hold no newline when no string does |
| Gnuplot.PrintBenchmarks | gnuplot.py:140-154 | the function returns the header line, one line per row and two empty lines; the comment lines it writes first are overwritten |
| Gnuplot.BenchmarksLines | gnuplot.py:146-152 | read back line by line, the data block is the header line, the row lines and three empty parts |
| Gnuplot.BenchmarksNewlines | gnuplot.py:146-152 | the data block holds as many newlines as the rows plus three |
| Gnuplot.LeastFacts | gnuplot.py:109-113 | starting from 0, the least is None as soon as a cell is None; otherwise it is 0 or a cell, at most 0 and at most every numeric cell; strings are passed by |
| Gnuplot.MinYFacts | gnuplot.py:109-115 | `miny` is `*` exactly when some data cell is None; otherwise it is the least of 0 and the numeric data cells |
| Gnuplot.DataCellsIn | gnuplot.py:110-111 | every cell after the first of each row is a data cell |
| Gnuplot.ComputeMinY | gnuplot.py:109-115 | the nested loops compute `MinY` |
| Gnuplot.FittedColumns | gnuplot.py:123-125 | the first fitted column follows the last real one |
| Gnuplot.FittedColumnsMatch | gnuplot.py:122-125 | for a fitted table, gnuplot columns 2 to `last_real_column` are the measured cells and `first_fitted_column` onwards the fitted ones, up to the last column |
| TextualTable.ColumnWidthIsMax | textualtable.py:7-14 | a column is as wide as its longest entry: no entry is longer, and one entry has that length |
| TextualTable.Widths | textualtable.py:7-14 | there is one width per header, each the width of its column |
| TextualTable.FitsWidths | textualtable.py:7-14 | no cell is wider than its column |
| TextualTable.Rendered | textualtable.py:16-21 | the lines are the header line, then one line per row, all in the same format |
| TextualTable.TableLines | textualtable.py:16-21 | the lines are rendered with the column widths |
| TextualTable.FieldsLength | textualtable.py:16-17 | a line is the widths plus three spaces per column long when no cell is wider than its column |
| TextualTable.FieldsOneLine | textualtable.py:16-17 | a line holds no newline when no cell does |
| TextualTable.TableLinesOneLine | textualtable.py:16-21 | the lines of the table hold no newline when no cell does |
| TextualTable.TableLinesLength | textualtable.py:16-21 | every line of the table has the same length: the widths plus three per column |
| TextualTable.TableShape | textualtable.py:3-22 | the table reads back as one line for the headers and one per row, and has exactly that many newlines |
| TextualTable.HeaderWidths | textualtable.py:7-8 | the new array starts at the header lengths |
| TextualTable.WidenColumns | textualtable.py:10-14 | the loops widen the array in place to the column widths |
| TextualTable.RenderLines | textualtable.py:19-21 | the loop appends the header line and one line per row |
| TextualTable.MakeTextualTable | textualtable.py:3-22 | `make_textual_table` computes `TextualTable` |
| TextualTable.MaxLength | textualtable.py:26 | the longest header's length: no header is longer, and one has that length |
| TextualTable.VerticalLines | textualtable.py:30-35 | one line per header |
| TextualTable.VerticalLineStart | textualtable.py:28-31 | every line starts with its header, right-aligned to the longest one |
| TextualTable.GroupEntriesLength | textualtable.py:32-34 | after the header, each group's entry takes four spaces plus its length |
| TextualTable.GroupEntriesOneLine | textualtable.py:32-34 | the entries of a line hold no newline when none of them does |
| TextualTable.VerticalShape | textualtable.py:24-37 | the table reads back as one line per header, each as long as the longest header plus four and the entry of each group |
| TextualTable.MakeVerticalTextualTable | textualtable.py:24-37 | `make_vertical_textual_table` computes `VerticalTextualTable` |
| Strings.JoinSplit | datafiles.py:12-13 | `split` and a re-join with the same separator give the line back, and no part holds the separator |
| Strings.Words | datafiles.py:134 | `split()` gives non-empty runs without whitespace |
| Strings.RStripChar | datafiles.py:136 | `rstrip(c)` drops exactly the trailing `c` characters |
| Strings.PadLeftShape | textualtable.py:16 | right-alignment to width `w` puts spaces before the text and never shortens it |

## Left out

- Values.Less: a bool and an int with the same numeric value (`True` and `1`) are equal in Python 2. The model orders the bool first so that the value order is strict. The only bool the records carry is `nio`.
- Aggregation.AggregateMeasurements: the source overwrites the measure in the last replicate's own dictionary, which the caller's list still holds. The model returns the updated record as a new value; that aliasing is not modelled.
- Preprocess.PreprocessBenchmarks: the records must be distinct objects. A list holding one dictionary twice would be completed twice in the source.
- Extraction.ExtractData: the order in which a Python `set` iterates `controlled_variables` is the parameter `order`. The model constrains it only to list each controlled key once.
- Preprocess.AddDerivedValues: the lists `types` of `jni_types` are a parameter, because `jni_types` is not part of this model.
- Pivot.ConvertToSeconds: the `float(...)` of the decimal text is left out, because floating point is not modelled. The converted cell keeps its exact count of nanoseconds, and `Pivot.SecondsTextValue` proves what the text denotes. The branch `if convert_to_seconds == False` compares the function itself with False, so it never returns. A Python `long` is not `int` there and passes through; the model has no longs.
- Pivot.MakeTable: the measure may not be `fixed` or `info`, whose lookups give dicts, and each `info` entry must be a dict.
- Plotting: `linear_fit`, `numpy.polyval` and the residuals are floating point and are left out. The polynomial evaluation is a parameter of `Plotting.FittedRow`.
- Not modelled, as floating point: `plot_distributions`, `hex_color_gradient` and the `simplified_function` formatting.
- Plotting: the `metadata_file` writes, the `debugdata` dump and the console messages are I/O and are left out. The tables written there are the ones `TextualTable` models.
- Plotting: `identifier + '-alloc'` and `reps` only feed that I/O. When `identifier` is None the concatenation is a `TypeError` and is not modelled.
- Gnuplot: `init` and the template rendering of `output_plot` are left out. They are string formatting against gnuplot templates, and the `if late` line of `output_plot` does not parse as Python. Only its `miny` loop and fitted-style column numbers are modelled. `last_column = len(data_rows[0])` needs a non-empty table and is not modelled.
- Gnuplot.FormatValue: covers the values of the model. A converted seconds cell of `Pivot` is a float in the source and is not rendered.
- TextualTable: the cells are taken to be the `str` texts of the values. The rendering of floats and of the polynomial texts is not modelled.
- Not modelled, as outside this core: `format_profile_latex.py`, `plot_benchmarks` and the other report drivers, the syncing of measurements from devices, `render_perf_reports` and the command-line driver.
- DataFiles.ReadDatafiles: the messages printed unless `silent` are left out. The files are given as their `readline` lines.
- DataFiles.KeyCountsIff: the source compares only the NUMBER of keys per record, not the key sets, and the model follows the code. A record with no keys leaves the expected count at 0, as `benchmark_keycount or current_keycount` does.
- DataFiles.CleanupKeepsValued: stated for good headers, whose labels are distinct, non-blank and neither `lineno` nor `empty_N`. With repeated labels a later field overwrites an earlier one, and the valued-key bookkeeping of the source then no longer matches the record.
- Metadata.ReadMeasurementMetadata: filing an entry before the first blank line assigns into None. That is a `TypeError` in the source and the `Exit(EntryBeforeFirstBlock)` result in the model.
- Metadata.ReadMeasurementMetadata: the model files a measurement at the first blank line of a run, while the source files it after the run. The two agree because the measurement does not change within the run, as `Metadata.BlankTwice` shows.
- Gnuplot.BenchmarksLines, TextualTable.TableShape, TextualTable.VerticalShape: the read-back properties need texts without newlines. A string value holding a newline would split a line in the source too.
