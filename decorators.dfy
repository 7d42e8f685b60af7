/**
 * The `retry`/`async_retry` and `timing`/`async_timing` decorators. The
 * wrapped call is an oracle: `calls[k]` is what its (k+1)-th invocation does.
 * The synchronous and asynchronous variants run the same loop; awaiting does
 * not change which calls are made or what is returned.
 */
module Decorators {
  import opened Wrappers

  /** What one invocation of the wrapped function does: return a value or raise. */
  datatype Attempt<T, E> = Ok(value: T) | Err(error: E)

  /**
   * What a decorated call does. `RaisedNone` is `raise None` (a `TypeError` in
   * Python), reached when the loop runs zero times.
   */
  datatype CallResult<T, E> = Returned(value: T) | Raised(error: E) | RaisedNone

  /**
   * `retry(max_attempts, delay)` applied to a call. `made` is the number of
   * invocations and `delays` the number of sleeps between them.
   */
  method Retry<T, E>(maxAttempts: int, calls: seq<Attempt<T, E>>) returns (r: CallResult<T, E>, made: nat, delays: nat)
    requires maxAttempts <= |calls|
    ensures maxAttempts <= 0 ==> r == RaisedNone && made == 0 && delays == 0
    ensures maxAttempts > 0 ==> 1 <= made <= maxAttempts && delays == made - 1
    ensures forall k :: 0 <= k < made - 1 ==> calls[k].Err?
    ensures r.Returned? ==> calls[made - 1] == Ok(r.value)
    ensures r.Raised? ==> made == maxAttempts && (forall k :: 0 <= k < made ==> calls[k].Err?) && r.error == calls[made - 1].error
    ensures r.RaisedNone? ==> maxAttempts <= 0
  {
    var lastError: Option<E> := None;
    var attempt := 0;
    made, delays := 0, 0;
    while attempt < maxAttempts
      invariant 0 <= attempt <= if maxAttempts < 0 then 0 else maxAttempts
      invariant made == attempt
      invariant delays == if attempt == maxAttempts && attempt > 0 then attempt - 1 else attempt
      invariant forall k :: 0 <= k < attempt ==> calls[k].Err?
      invariant attempt == 0 ==> lastError.None?
      invariant attempt > 0 ==> lastError == Some(calls[attempt - 1].error)
    {
      made := made + 1;
      match calls[attempt]
      case Ok(v) =>
        return Returned(v), made, delays;
      case Err(e) =>
        lastError := Some(e);
        if attempt < maxAttempts - 1 {
          delays := delays + 1;
        }
      attempt := attempt + 1;
    }
    r := if lastError.Some? then Raised(lastError.value) else RaisedNone;
  }

  /**
   * `timing`/`async_timing` applied to a call: the result is passed through
   * and an exception is re-raised as it is; only the logged duration is added.
   */
  function Timed<T, E>(call: Attempt<T, E>): (r: CallResult<T, E>)
    ensures r.Returned? <==> call.Ok?
    ensures r.Returned? ==> r.value == call.value
    ensures !r.Returned? ==> r == Raised(call.error)
  {
    match call
    case Ok(v) => Returned(v)
    case Err(e) => Raised(e)
  }
}
