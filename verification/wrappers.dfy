/** Failure-compatible result types and the error kinds the modelled code raises. */
module Wrappers {

  datatype Option<+T> = None | Some(value: T)

  /** The exceptions of the modelled code, as values. */
  datatype Error =
    /** `int(...)` of a text that is not a decimal integer, or `dict(...)` of a
        line that does not split into exactly two parts. */
    | ValueError(text: string)
    /** `int(None)`, or a regular-expression match on a non-string. */
    | TypeError
    /** Indexing a list past its end. */
    | IndexError
    /** `getattr` of an attribute the configuration does not have. */
    | AttributeError(name: string)
    /** `EC2InstanceLimitExceeded`. */
    | InstanceLimitExceeded
    /** A plain `WolphinException` wrapping another provider error. */
    | WolphinError
    /** `SSHTimeoutError`. */
    | SshTimeout
    /** `InvalidWolphinConfiguration`, with the attribute or rule that failed. */
    | InvalidConfiguration(reason: string)

  datatype Result<+T> = Success(value: T) | Failure(error: Error) {

    predicate IsFailure() {
      Failure?
    }

    function PropagateFailure<U>(): Result<U>
      requires Failure?
    {
      Failure(error)
    }

    function Extract(): T
      requires Success?
    {
      value
    }
  }

  /** Pass/fail outcome of a check that returns nothing. */
  datatype Outcome = Pass | Fail(error: Error) {

    predicate IsFailure() {
      Fail?
    }

    function PropagateFailure<U>(): Result<U>
      requires Fail?
    {
      Failure(error)
    }
  }

  /** A conversion applied to each element in turn; the first that fails raises. */
  function Each<A, B>(f: A -> Result<B>, xs: seq<A>): (r: Result<seq<B>>)
    ensures r.Success? <==> forall k :: 0 <= k < |xs| ==> f(xs[k]).Success?
    ensures r.Success? ==> |r.value| == |xs|
    ensures r.Success? ==> forall k :: 0 <= k < |xs| ==> r.value[k] == f(xs[k]).value
    decreases |xs|
  {
    if |xs| == 0 then Success([])
    else
      var head := f(xs[0]);
      var tail := Each(f, xs[1..]);
      if head.Failure? then Failure(head.error)
      else if tail.Failure? then
        assert !f(xs[1..][0]).Success? || exists k :: 1 <= k < |xs| && !f(xs[k]).Success? by {
          var k :| 0 <= k < |xs| - 1 && !f(xs[1..][k]).Success?;
          assert xs[1..][k] == xs[k + 1];
        }
        Failure(tail.error)
      else
        Success([head.value] + tail.value)
  }
}
