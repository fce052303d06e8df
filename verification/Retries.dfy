/** Calling an operation again while it fails for a transient reason. */
module Retries {
  import opened Wrappers

  /** UNAVAILABLE is the one status that counts as transient, for an operation as for a gRPC error. */
  datatype OperationStatus = Success | Unavailable | OtherStatus(code: nat)

  datatype CallError = GrpcError(code: nat, message: string) | PlainError(message: string)

  /** The gRPC code of UNAVAILABLE. */
  const UNAVAILABLE: nat := 14

  datatype Outcome = Reply(status: OperationStatus) | Failed(error: CallError)

  /** RetryExceeded wraps the last error, if there was a call at all. */
  datatype Result =
    | Operation(status: OperationStatus)
    | Error(error: CallError)
    | RetryExceeded(last: Option<CallError>)

  predicate ShouldRetry(error: CallError) {
    error.GrpcError? && error.code == UNAVAILABLE
  }

  predicate Transient(o: Outcome) {
    o == Reply(Unavailable) || (o.Failed? && ShouldRetry(o.error))
  }

  /** The error that a transient outcome counts as. */
  function AsError(o: Outcome): CallError
    requires Transient(o)
  {
    if o.Failed? then o.error else GrpcError(UNAVAILABLE, "operation status UNAVAILABLE")
  }

  function Pow2(n: nat): nat {
    if n == 0 then 1 else 2 * Pow2(n - 1)
  }

  /** Seconds to wait after the given attempt. */
  function BackoffTimeAfter(attempt: nat): nat {
    Pow2(attempt)
  }

  /** What is tried again: status UNAVAILABLE, and the gRPC error with code 14, whatever its message. */
  lemma TransientIff(o: Outcome)
    ensures Transient(o) <==> o == Reply(Unavailable) || exists message :: o == Failed(GrpcError(14, message))
    ensures Transient(o) ==> AsError(o).GrpcError? && AsError(o).code == 14
    ensures Transient(o) && o.Failed? ==> o == Failed(AsError(o))
  {
    if o.Failed? && o.error.GrpcError? && o.error.code == 14 {
      assert o == Failed(GrpcError(14, o.error.message));
    }
  }

  /** One second after the first attempt, and twice as long after each further one: 2^t - 1 after t attempts. */
  lemma {:induction false} BackoffDoubles(attempts: nat)
    ensures BackoffTimeAfter(0) == 1 && BackoffTimeAfter(attempts + 1) == 2 * BackoffTimeAfter(attempts)
    ensures TotalBackoff(attempts) == Pow2(attempts) - 1
  {
    if attempts > 0 {
      BackoffDoubles(attempts - 1);
    }
  }

  /** The sum of the waits after the first attempts. */
  function TotalBackoff(attempts: nat): nat {
    if attempts == 0 then 0 else TotalBackoff(attempts - 1) + BackoffTimeAfter(attempts - 1)
  }

  /** The service called: its answers are fixed in advance, calls and seconds slept are counted. */
  class Service {
    const answers: nat -> Outcome
    var calls: nat
    var slept: nat

    constructor (answers: nat -> Outcome)
      ensures this.answers == answers && calls == 0 && slept == 0
    {
      this.answers := answers;
      calls, slept := 0, 0;
    }

    method Call() returns (o: Outcome)
      modifies `calls
      ensures o == answers(old(calls)) && calls == old(calls) + 1
    {
      o := answers(calls);
      calls := calls + 1;
    }

    method Sleep(seconds: nat)
      modifies `slept
      ensures slept == old(slept) + seconds
    {
      slept := slept + seconds;
    }
  }

  /** The first n answers from a call count on are all transient. */
  ghost predicate AllTransient(answers: nat -> Outcome, first: nat, n: nat) {
    forall k: nat :: first <= k < first + n ==> Transient(answers(k))
  }

  function Conclude(o: Outcome): Result
    requires !Transient(o)
  {
    match o
    case Reply(status) => Operation(status)
    case Failed(error) => Error(error)
  }

  /**
   With m attempts: the calls stop at the first answer that is not transient and its outcome is returned; if all m
   are transient the result is RetryExceeded. Between t transient answers and the next call 2^t - 1 seconds pass
   in total, and none after the last attempt.
   */
  method WrapWithRetries(maxAttempts: int, f: Service) returns (r: Result)
    modifies f
    ensures var m := if maxAttempts < 0 then 0 else maxAttempts;
      && (r.RetryExceeded? <==> AllTransient(f.answers, old(f.calls), m))
      && (r.RetryExceeded? ==>
            && f.calls == old(f.calls) + m && f.slept == old(f.slept) + (if m == 0 then 0 else Pow2(m - 1) - 1)
            && r.last == if m == 0 then None else Some(AsError(f.answers(old(f.calls) + m - 1))))
      && (!r.RetryExceeded? ==>
            var transient := f.calls - old(f.calls) - 1;
            && 0 <= transient < m
            && AllTransient(f.answers, old(f.calls), transient)
            && !Transient(f.answers(old(f.calls) + transient))
            && r == Conclude(f.answers(old(f.calls) + transient))
            && f.slept == old(f.slept) + Pow2(transient) - 1)
  {
    var lastError := None;
    var attempt := 0;
    while attempt < maxAttempts
      invariant 0 <= attempt && (attempt <= maxAttempts || attempt == 0)
      invariant f.calls == old(f.calls) + attempt
      invariant AllTransient(f.answers, old(f.calls), attempt)
      invariant lastError == if attempt == 0 then None else Some(AsError(f.answers(old(f.calls) + attempt - 1)))
      invariant attempt == 0 ==> f.slept == old(f.slept)
      invariant attempt < maxAttempts ==> f.slept == old(f.slept) + Pow2(attempt) - 1
      invariant 0 < attempt == maxAttempts ==> f.slept == old(f.slept) + Pow2(attempt - 1) - 1
    {
      var o := f.Call();
      var err;
      match o {
        case Reply(status) =>
          if status != Unavailable {
            return Operation(status);
          }
          err := GrpcError(UNAVAILABLE, "operation status UNAVAILABLE");
        case Failed(error) =>
          err := error;
      }
      if !ShouldRetry(err) {
        return Error(err);
      }
      var delay := BackoffTimeAfter(attempt);
      if attempt < maxAttempts - 1 {
        f.Sleep(delay);
      }
      lastError := Some(err);
      attempt := attempt + 1;
    }
    return RetryExceeded(lastError);
  }
}
