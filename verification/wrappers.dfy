/** Failure-carrying values used throughout the model: `Option` for a value
    that may be absent (a missing dict key, a failed parse) and `Result` for
    an operation that the source lets raise an exception. */
module Wrappers {

  datatype Option<+T> = None | Some(value: T) {

    /** The value, or `default` when absent: Python's `d.get(key, default)`. */
    function GetOr(default: T): T {
      match this
      case Some(v) => v
      case None => default
    }
  }

  datatype Result<+T, +E> = Success(value: T) | Failure(error: E) {

    predicate IsFailure() {
      Failure?
    }

    function PropagateFailure<U>(): Result<U, E>
      requires Failure?
    {
      Failure(error)
    }

    function Extract(): T
      requires Success?
    {
      value
    }
  }

  /** Evaluating a list comprehension whose element expression may raise:
      all the values, or the exception of the first element that raises. */
  function Collect<T, E>(rs: seq<Result<T, E>>): (r: Result<seq<T>, E>)
    ensures r.Success? <==> forall i :: 0 <= i < |rs| ==> rs[i].Success?
    ensures r.Success? ==> |r.value| == |rs| && forall i :: 0 <= i < |rs| ==> r.value[i] == rs[i].value
  {
    if |rs| == 0 then Success([])
    else
      match rs[0]
      case Failure(e) => Failure(e)
      case Success(x) =>
        match Collect(rs[1..])
        case Failure(e) =>
          assert forall i :: 1 <= i < |rs| ==> rs[i] == rs[1..][i - 1];
          Failure(e)
        case Success(xs) =>
          assert forall i :: 1 <= i < |rs| ==> rs[i] == rs[1..][i - 1];
          Success([x] + xs)
  }

  /** Position `k` holds the first failure, and it carries `e`. */
  ghost predicate FirstFailureAt<T, E>(rs: seq<Result<T, E>>, k: int, e: E) {
    0 <= k < |rs| && rs[k] == Failure(e) &&
    forall j :: 0 <= j < k ==> rs[j].Success?
  }

  /** The failure `Collect` reports is that of the first failing element. */
  lemma {:induction false} CollectFirstFailure<T, E>(rs: seq<Result<T, E>>)
    requires Collect(rs).Failure?
    ensures exists k :: FirstFailureAt(rs, k, Collect(rs).error)
  {
    if rs[0].Failure? {
      assert FirstFailureAt(rs, 0, Collect(rs).error);
    } else {
      var rest := rs[1..];
      assert Collect(rest).Failure? && Collect(rs).error == Collect(rest).error;
      CollectFirstFailure(rest);
      var k :| FirstFailureAt(rest, k, Collect(rest).error);
      assert forall j :: 1 <= j <= k + 1 ==> rs[j] == rest[j - 1];
      assert FirstFailureAt(rs, k + 1, Collect(rs).error);
    }
  }
}
