/** Outcomes of the modelled code: the exceptions it raises and the
    failure-compatible Result and Option types used to carry them. */
module Errors {

  /** The exceptions the pipeline raises, by Python class, or by the
      situation a RuntimeError/ValueError message describes. */
  datatype Error =
    | KeyError(key: string)             // missing dict key or DataFrame column
    | AttributeError                    // `.get` on something that is not a dict
    | TypeError                         // iterating or subscripting a non-container
    | ValueError                        // `int(...)` of a malformed string
    | IndexError                        // `parts[k]` past the end of a list
    | FileNotFound                      // missing landing directory or parquet file
    | NoLeaderboardRows(processingDate: string)   // empty selection result
    | NoProfileRecords                  // no profile survived assembly
    | SeasonIdUnavailable               // `current_season.id` could not be read
    | MissingColumns(columns: seq<string>)        // raw character-info columns absent
    | JsonDecodeError                   // `resp.json()` on a body that is not JSON

  datatype Option<+T> = None | Some(value: T)

  datatype Result<+T> = Ok(value: T) | Err(error: Error) {

    predicate IsFailure() {
      Err?
    }

    function PropagateFailure<U>(): Result<U>
      requires Err?
    {
      Err(error)
    }

    function Extract(): T
      requires Ok?
    {
      value
    }
  }

  /** The values of the results in order, or the error of the first one
      that failed: what a loop or a list comprehension that calls a
      raising function on each element yields. */
  function Collect<T>(results: seq<Result<T>>): Result<seq<T>> {
    if results == [] then Ok([])
    else
      var init :- Collect(results[..|results| - 1]);
      var last :- results[|results| - 1];
      Ok(init + [last])
  }

  /** Collecting succeeds exactly when every result does, and then holds
      every value, in order; a failure carries the error of the first
      failed result. */
  lemma {:induction false} CollectOk<T>(results: seq<Result<T>>)
    ensures Collect(results).Ok? <==> forall k :: 0 <= k < |results| ==> results[k].Ok?
    ensures Collect(results).Ok? ==>
      && |Collect(results).value| == |results|
      && forall k :: 0 <= k < |results| ==> results[k] == Ok(Collect(results).value[k])
    ensures Collect(results).Err? ==>
      exists k :: && 0 <= k < |results| && results[k] == Err(Collect(results).error)
                  && forall j :: 0 <= j < k ==> results[j].Ok?
  {
    if results != [] {
      var init := results[..|results| - 1];
      var last := results[|results| - 1];
      CollectOk(init);
      assert forall k :: 0 <= k < |init| ==> init[k] == results[k];
      if Collect(init).Ok? && last.Ok? {
        var values := Collect(init).value + [last.value];
        assert Collect(results) == Ok(values);
        assert forall k :: 0 <= k < |init| ==> values[k] == Collect(init).value[k];
      } else if Collect(init).Err? {
        var k :| && 0 <= k < |init| && init[k] == Err(Collect(init).error)
                 && forall j :: 0 <= j < k ==> init[j].Ok?;
        assert results[k] == Err(Collect(results).error);
      } else {
        assert results[|results| - 1] == Err(Collect(results).error);
      }
    }
  }

  /** Once a prefix has failed, every longer prefix fails the same way. */
  lemma {:induction false} CollectErrPersists<T>(results: seq<Result<T>>, n: int, m: int)
    requires 0 <= n <= m <= |results|
    requires Collect(results[..n]).Err?
    ensures Collect(results[..m]) == Collect(results[..n])
    decreases m - n
  {
    if n < m {
      assert results[..n + 1][..n] == results[..n];
      CollectErrPersists(results, n + 1, m);
    }
  }
}
