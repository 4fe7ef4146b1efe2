/** Python's `None` and its exceptions, as values.

    Every operation of the hubs that can raise returns a `Result`; the error
    tag names the Python exception class the source raises or lets through.
 */
module Outcomes {

  /** `None` or a present value. */
  datatype Option<+T> = None | Some(value: T) {

    /** The value, or `default` when absent. */
    function GetOr(default: T): T {
      match this
      case Some(v) => v
      case None => default
    }
  }

  /** The exception classes the modelled code raises or catches. `Raised`
      stands for any other exception a collaborator lets escape. */
  datatype Error =
    | KeyError
    | ValueError
    | TypeError
    | AttributeError
    | IndexError
    | Raised(name: string)

  /** A value, or the exception that was raised instead. */
  datatype Result<+T> = Ok(value: T) | Err(error: Error) {

    predicate IsFailure() {
      Err?
    }

    function PropagateFailure<U>(): Result<U>
      requires Err?
    {
      Err(error)
    }

    function Extract(): T
      requires Ok?
    {
      value
    }
  }

  /** All results at once, in order: the values when every one is `Ok`,
      else the error of the first that is not. */
  function Collect<T>(rs: seq<Result<T>>): (r: Result<seq<T>>)
    ensures r.Ok? <==> forall i :: 0 <= i < |rs| ==> rs[i].Ok?
    ensures r.Ok? ==> |r.value| == |rs| && forall i :: 0 <= i < |rs| ==> rs[i] == Ok(r.value[i])
    ensures r.Err? ==> exists i :: 0 <= i < |rs| && rs[i] == Err(r.error) && forall j :: 0 <= j < i ==> rs[j].Ok?
  {
    if |rs| == 0 then Ok([])
    else if rs[0].Err? then Err(rs[0].error)
    else
      var tail := Collect(rs[1..]);
      if tail.Err? then Err(tail.error) else Ok([rs[0].value] + tail.value)
  }
}
