/** The payment service's bounded retry (src/payment/payment.service.ts). */
module Payments {
  import opened Domain

  /** One HTTP attempt: a response with its status, or an exception or timeout. */
  datatype Attempt = Response(transaction: string, status: string) | Failure(message: string)

  datatype PaymentResult = PaymentResult(
    success: bool,
    transaction: Option<string>,
    status: string,
    errorMessage: Option<string>)

  const CONFIRMED := "confirmed"

  /** The first attempt below `bound` that gets a response, or `bound`. */
  function FirstResponse(attempts: nat -> Attempt, bound: nat): (k: nat)
    ensures k <= bound
    ensures forall j :: 0 <= j < k ==> attempts(j).Failure?
    ensures k < bound ==> attempts(k).Response?
  {
    if bound == 0 then 0
    else
      var k := FirstResponse(attempts, bound - 1);
      if k < bound - 1 || attempts(k).Response? then k else bound
  }

  function Power2(n: nat): (r: nat)
    ensures r >= 1
  {
    if n == 0 then 1 else 2 * Power2(n - 1)
  }

  /** What `n` waits come to, each twice the one before, from `backoff` on. */
  function TotalWait(backoff: nat, n: nat): nat {
    backoff * (Power2(n) - 1)
  }

  /** The transaction a run of the loop obtains: the first response's, if it comes in time and says confirmed. */
  function Transaction(attempts: nat -> Attempt, maxRetries: int): Option<string> {
    if maxRetries < 0 then None
    else
      var k := FirstResponse(attempts, maxRetries + 1);
      if k <= maxRetries && attempts(k).status == CONFIRMED then Some(attempts(k).transaction) else None
  }

  class PaymentService {
    const maxRetries: int
    const initialBackoffMs: nat

    constructor (maxRetries: int, initialBackoffMs: nat)
      ensures this.maxRetries == maxRetries && this.initialBackoffMs == initialBackoffMs
    {
      this.maxRetries := maxRetries;
      this.initialBackoffMs := initialBackoffMs;
    }

    /**
     * The loop stops at the first response, whatever its status, and gives up after maxRetries + 1 exceptions;
     * the waits between `calls` attempts add up to a geometric series.
     */
    method CallPaymentServiceWithRetry(attempts: nat -> Attempt)
      returns (result: PaymentResult, calls: nat, slept: nat)
      // It succeeds exactly when the first attempt that is answered comes in time and says so.
      ensures result.success <==>
        exists k: nat :: k <= maxRetries && (forall j :: 0 <= j < k ==> attempts(j).Failure?)
                         && attempts(k).Response? && attempts(k).status == "confirmed"
      ensures result.success ==>
        1 <= calls && attempts(calls - 1).Response? && result.transaction == Some(attempts(calls - 1).transaction)
      ensures !result.success ==>
        && result.transaction.None?
        && result.errorMessage == Some(
             if calls == 0 then "Payment failed after all retries"
             else match attempts(calls - 1)
               case Response(_, status) => "Payment returned non-confirmed status: " + status
               case Failure(message) => message)
      // It calls until an attempt is answered, or the retries are used up.
      ensures maxRetries >= 0 ==>
        && 1 <= calls <= maxRetries + 1 && (forall j :: 0 <= j < calls - 1 ==> attempts(j).Failure?)
        && (calls <= maxRetries ==> attempts(calls - 1).Response?)
      ensures maxRetries < 0 ==> calls == 0 && slept == 0
      ensures maxRetries >= 0 ==>
        var k := FirstResponse(attempts, maxRetries + 1);
        && calls == (if k <= maxRetries then k else maxRetries) + 1
        && slept == TotalWait(initialBackoffMs, calls - 1)
        && result.status == (if k <= maxRetries then attempts(k).status else "failed")
        && (k > maxRetries ==> result.errorMessage == Some(attempts(maxRetries).message))
      ensures result.transaction == Transaction(attempts, maxRetries)
      ensures result.success <==> result.transaction.Some?
      ensures result.success <==> result.errorMessage.None?
    {
      var lastError: Option<string> := None;
      calls, slept := 0, 0;
      var attempt := 0;
      while attempt <= maxRetries
        invariant 0 <= attempt && (maxRetries >= 0 ==> attempt <= maxRetries + 1)
        invariant maxRetries < 0 ==> attempt == 0
        invariant calls == attempt
        invariant forall j :: 0 <= j < attempt ==> attempts(j).Failure?
        invariant attempt == 0 ==> slept == 0 && lastError.None?
        invariant attempt > 0 ==> lastError == Some(attempts(attempt - 1).message)
        invariant attempt > 0 ==> slept == TotalWait(initialBackoffMs, attempt - 1)
      {
        if attempt > 0 {
          var backoffMs := initialBackoffMs * Power2(attempt - 1);
          slept := slept + backoffMs;
          Doubling(initialBackoffMs, attempt - 1);
        }
        calls := calls + 1;
        match attempts(attempt) {
          case Response(transaction, status) =>
            assert FirstResponse(attempts, maxRetries + 1) == attempt;
            if status == CONFIRMED {
              return PaymentResult(true, Some(transaction), status, None), calls, slept;
            }
            var errorMessage := "Payment returned non-confirmed status: " + status;
            return PaymentResult(false, None, status, Some(errorMessage)), calls, slept;
          case Failure(message) =>
            lastError := Some(message);
        }
        attempt := attempt + 1;
      }
      result := PaymentResult(false, None, "failed",
                              if lastError.Some? then lastError else Some("Payment failed after all retries"));
    }
  }

  lemma Doubling(backoff: nat, n: nat)
    ensures TotalWait(backoff, n) + backoff * Power2(n) == TotalWait(backoff, n + 1)
    ensures Power2(0) == 1 && Power2(n + 1) == 2 * Power2(n)
  {
    var p := Power2(n);
    assert Power2(n + 1) == 2 * p;
    assert backoff * (p - 1) + backoff * p == backoff * (2 * p - 1);
  }
}
