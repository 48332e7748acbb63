/** Failure-compatible wrappers and the Python exceptions the client can raise.

    Every exception the modelled code can raise (including `sys.exit`, which
    raises SystemExit) is an `Error` value; an operation that may raise
    returns a `Result`. */
module Wrappers {

  datatype Option<+T> = None | Some(value: T) {
    /** The value, or `default` when there is none (`x if x is not None else default`). */
    function GetOr(default: T): T {
      match this
      case Some(v) => v
      case None => default
    }
  }

  /** The exceptions raised by the modelled code, by Python class. */
  datatype Error =
    | KeyError(key: string)              // `attrib[key]` on a missing key
    | AttributeError(detail: string)     // an attribute looked up on `None`
    | UnboundLocalError(name: string)    // a local read before any assignment
    | RequestException(message: string)  // requests.RequestException
    | IndexError                         // `args[i]` past the end of a list
    | EOFError                           // `input()` at the end of the input
    | SystemExit(message: string)        // `sys.exit(message)`

  datatype Result<+T> = Ok(value: T) | Err(error: Error) {
    predicate IsFailure() {
      Err?
    }

    function PropagateFailure<U>(): Result<U>
      requires Err?
    {
      Err(error)
    }

    function Extract(): T
      requires Ok?
    {
      value
    }
  }

  /** Runs a sequence of steps that may raise, in order: the values of all of
      them, or the first exception. Defined on the last step, so that a loop
      over the steps keeps `Collect(rs[..i])` as its invariant. */
  function Collect<T>(rs: seq<Result<T>>): Result<seq<T>>
  {
    if rs == [] then Ok([])
    else
      var vs :- Collect(rs[..|rs| - 1]);
      var v :- rs[|rs| - 1];
      Ok(vs + [v])
  }

  /** Collect succeeds exactly when every step does, and then yields each step's value in place. */
  lemma {:induction false} CollectOk<T>(rs: seq<Result<T>>)
    ensures Collect(rs).Ok? <==> forall i :: 0 <= i < |rs| ==> rs[i].Ok?
    ensures Collect(rs).Ok? ==>
              |Collect(rs).value| == |rs| && forall i :: 0 <= i < |rs| ==> rs[i] == Ok(Collect(rs).value[i])
  {
    if rs != [] {
      var front := rs[..|rs| - 1];
      CollectOk(front);
      assert forall i :: 0 <= i < |front| ==> front[i] == rs[i];
    }
  }

  /** When Collect fails, it fails with the exception of the first step that fails. */
  lemma {:induction false} CollectFirstError<T>(rs: seq<Result<T>>, k: nat)
    requires k < |rs| && rs[k].Err?
    requires forall i :: 0 <= i < k ==> rs[i].Ok?
    ensures Collect(rs) == Err(rs[k].error)
  {
    if k < |rs| - 1 {
      CollectFirstError(rs[..|rs| - 1], k);
    } else {
      CollectOk(rs[..k]);
    }
  }

  /** A loop over the steps that has run the first `k` successfully and
      meets a failing step stops with that step's exception. */
  lemma CollectStops<T>(rs: seq<Result<T>>, k: nat)
    requires k < |rs| && rs[k].Err? && Collect(rs[..k]).Ok?
    ensures Collect(rs) == Err(rs[k].error)
  {
    CollectOk(rs[..k]);
    assert forall i :: 0 <= i < k ==> rs[i] == rs[..k][i];
    CollectFirstError(rs, k);
  }

  /** One more successful step appends its value. */
  lemma CollectSnoc<T>(rs: seq<Result<T>>, r: Result<T>)
    ensures Collect(rs + [r]) ==
              match Collect(rs)
              case Err(e) => Err(e)
              case Ok(vs) => (if r.Ok? then Ok(vs + [r.value]) else Err(r.error))
  {
    assert (rs + [r])[..|rs|] == rs;
  }
}
