/**
 * Errors and results. A finished future, a synchronous remote call and every
 * report either produce a value or raise; raising is modelled as `Err`.
 */
module Outcomes {

  /** The exceptions the report code raises or lets through. */
  datatype Error =
    | NotFoundError(message: string)
    | ValueError(message: string)
    | AssertionError
    | TypeError
    | IndexError
    | KeyError(key: string)
    | UnboundLocalError(name: string)

  datatype Option<T> = None | Some(value: T)

  datatype Result<T> = Ok(value: T) | Err(error: Error)

  /**
   * Runs a sequence of steps in order and stops at the first one that fails,
   * the way a Python loop stops at the first exception.
   */
  function Collect<T>(rs: seq<Result<T>>): Result<seq<T>>
  {
    if |rs| == 0 then Ok([])
    else match rs[0]
      case Err(e) => Err(e)
      case Ok(v) =>
        match Collect(rs[1..])
        case Err(e) => Err(e)
        case Ok(vs) => Ok([v] + vs)
  }

  /** Every step succeeds: the values come back one per step, in order. */
  lemma {:induction false} CollectAllOk<T>(rs: seq<Result<T>>, vs: seq<T>)
    requires |rs| == |vs|
    requires forall k :: 0 <= k < |rs| ==> rs[k] == Ok(vs[k])
    ensures Collect(rs) == Ok(vs)
  {
    if |rs| > 0 {
      CollectAllOk(rs[1..], vs[1..]);
      assert vs == [vs[0]] + vs[1..];
    }
  }

  /** Step `i` is the first to fail: the whole run fails with its error. */
  lemma {:induction false} CollectFirstErr<T>(rs: seq<Result<T>>, i: nat)
    requires i < |rs| && rs[i].Err?
    requires forall k :: 0 <= k < i ==> rs[k].Ok?
    ensures Collect(rs) == Err(rs[i].error)
  {
    if i > 0 {
      assert rs[1..][i - 1] == rs[i];
      CollectFirstErr(rs[1..], i - 1);
    }
  }

  /** A successful run has one value per step, each the value of its step. */
  lemma {:induction false} CollectOkValues<T>(rs: seq<Result<T>>)
    requires Collect(rs).Ok?
    ensures |Collect(rs).value| == |rs|
    ensures forall k :: 0 <= k < |rs| ==> rs[k] == Ok(Collect(rs).value[k])
  {
    if |rs| > 0 {
      CollectOkValues(rs[1..]);
      forall k | 0 <= k < |rs|
        ensures rs[k] == Ok(Collect(rs).value[k])
      {
        if k > 0 {
          assert rs[k] == rs[1..][k - 1];
        }
      }
    }
  }

  /** A run fails exactly when some step fails: one failure is never isolated. */
  lemma {:induction false} CollectFailsIffSomeStepFails<T>(rs: seq<Result<T>>)
    ensures Collect(rs).Err? <==> exists k :: 0 <= k < |rs| && rs[k].Err?
  {
    if Collect(rs).Ok? {
      CollectOkValues(rs);
    }
    if |rs| > 0 {
      CollectFailsIffSomeStepFails(rs[1..]);
      if rs[0].Ok? && Collect(rs[1..]).Err? {
        var k :| 0 <= k < |rs[1..]| && rs[1..][k].Err?;
        assert rs[k + 1].Err?;
      }
    }
  }
}
