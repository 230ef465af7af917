/** Failure-carrying values shared by the whole model. A Java method that may
    throw becomes a function or method returning a Result (or an Outcome when
    it returns nothing); the exception it would throw is the Failure's error. */
module Wrappers {

  /** A Java reference that may be null. */
  datatype Option<+T> = None | Some(value: T)

  /** The exceptions the modelled code throws or lets through. */
  datatype Exception =
    | IllegalArgument(message: string)
    | IllegalState(message: string)
      /** java.sql.SQLException, with the exceptions attached by addSuppressed */
    | Sql(message: string, suppressed: seq<Exception>)
    | NullPointer
    | IndexOutOfBounds(index: int)
      /** com.google.gson.JsonSyntaxException */
    | JsonSyntax(message: string)
      /** java.util.MissingFormatWidthException */
    | MissingFormatWidth(specifier: string)

  datatype Result<+T> = Success(value: T) | Failure(error: Exception) {
    predicate IsFailure() {
      Failure?
    }

    function PropagateFailure<U>(): Result<U>
      requires Failure?
    {
      Failure(error)
    }

    function Extract(): T
      requires Success?
    {
      value
    }
  }

  /** The result of a Java method declared void. */
  datatype Outcome = Pass | Fail(error: Exception)

  /** A loop that stops at the first exception: the values of all the
      results, in order, or the first failure. */
  function Collect<T>(results: seq<Result<T>>): Result<seq<T>> {
    if results == [] then Success([])
    else match Collect(results[..|results| - 1])
      case Failure(e) => Failure(e)
      case Success(done) =>
        match results[|results| - 1]
        case Failure(e) => Failure(e)
        case Success(v) => Success(done + [v])
  }

  /** Collecting succeeds exactly when every result does, and then gives
      their values in order; otherwise it gives the first failure. */
  lemma {:induction false} CollectSpec<T>(results: seq<Result<T>>)
    ensures Collect(results).Success? <==> forall i :: 0 <= i < |results| ==> results[i].Success?
    ensures Collect(results).Success? ==>
      |Collect(results).value| == |results|
      && forall i :: 0 <= i < |results| ==> Collect(results).value[i] == results[i].value
    ensures Collect(results).Failure? ==>
      exists i :: 0 <= i < |results| && results[i].Failure?
        && (forall j :: 0 <= j < i ==> results[j].Success?)
        && Collect(results).error == results[i].error
  {
    if results != [] {
      var init := results[..|results| - 1];
      CollectSpec(init);
      assert forall i :: 0 <= i < |init| ==> init[i] == results[i];
      if Collect(init).Failure? {
        var i :| 0 <= i < |init| && init[i].Failure? && (forall j :: 0 <= j < i ==> init[j].Success?)
          && Collect(init).error == init[i].error;
        assert results[i].Failure?;
      }
    }
  }

  /** Once a prefix fails, the whole fails the same way. */
  lemma {:induction false} CollectFailsEarly<T>(results: seq<Result<T>>, k: nat)
    requires k <= |results| && Collect(results[..k]).Failure?
    ensures Collect(results) == Collect(results[..k])
    decreases |results| - k
  {
    if k < |results| {
      assert results[..k + 1][..k] == results[..k];
      CollectFailsEarly(results, k + 1);
    } else {
      assert results[..k] == results;
    }
  }

  /** A Java int. The modelled code only compares such values, so a subset
      type of int is enough to keep them in range. */
  type Int32 = x: int | -0x8000_0000 <= x < 0x8000_0000
}
