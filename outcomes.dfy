/** Optional values, and the results of operations that end the program with `exit(1)`. */
module Outcomes {
  import opened Values

  datatype Option<T> = Nothing | Some(value: T)

  /** The `exit(1)` calls (and the one crash) of the analysis code, with what they report. */
  datatype Error =
    | MultiplierMismatch(multiplier: Value, got: nat)      // plot_data.py aggregate_measurements
    | TooManyFields(lineno: nat, labels: nat, fields: nat) // datafiles.py "missing values"
    | KeyCountMismatch(firstCount: nat, count: nat, at: Value)
    | EntryBeforeFirstBlock(line: nat)                    // a `key: value` line assigned into None

  datatype Result<T> = Ok(value: T) | Exit(error: Error)

  /**
   * Runs a series of steps in order and stops at the first one that ends the
   * program: either every step succeeds, or the first failure is the outcome.
   */
  function Sequence<T>(rs: seq<Result<T>>): (r: Result<seq<T>>)
    ensures r.Ok? <==> forall k | 0 <= k < |rs| :: rs[k].Ok?
    ensures r.Ok? ==> |r.value| == |rs| && forall k | 0 <= k < |rs| :: rs[k] == Ok(r.value[k])
    ensures r.Exit? ==> exists k | 0 <= k < |rs| :: rs[k] == Exit(r.error) && forall m | 0 <= m < k :: rs[m].Ok?
  {
    if |rs| == 0 then Ok([])
    else
      var n := |rs| - 1;
      var init := Sequence(rs[..n]);
      assert forall k | 0 <= k < n :: rs[..n][k] == rs[k];
      if init.Exit? then init
      else if rs[n].Exit? then Exit(rs[n].error)
      else Ok(init.value + [rs[n].value])
  }

  /** Once a prefix of the steps has failed, the later steps no longer matter. */
  lemma {:induction false} SequenceStopsAtFailure<T>(rs: seq<Result<T>>, n: nat)
    requires n <= |rs| && Sequence(rs[..n]).Exit?
    ensures Sequence(rs) == Sequence(rs[..n])
    decreases |rs| - n
  {
    if n < |rs| {
      assert rs[..n + 1][..n] == rs[..n];
      SequenceStopsAtFailure(rs, n + 1);
    } else {
      assert rs[..n] == rs;
    }
  }

  /** One more successful step extends the successful prefix. */
  lemma {:induction false} SequenceStep<T>(rs: seq<Result<T>>, n: nat, acc: seq<T>)
    requires n < |rs| && Sequence(rs[..n]) == Ok(acc)
    ensures Sequence(rs[..n + 1]) == match rs[n] case Ok(v) => Ok(acc + [v]) case Exit(e) => Exit(e)
  {
    assert rs[..n + 1][..n] == rs[..n];
  }
}
