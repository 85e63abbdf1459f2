/**
  Delivery of the phone's stop signal over an unreliable channel, retried a
  bounded number of times. The channel is a caller-supplied oracle telling
  whether attempt number `a` gets through; the waiting between attempts is
  the scheduler's business and is not part of this model.
 */
module StopRetry {

  /** The tag standing for the outcome's free-text final status. */
  datatype FinalStatus = Delivered | FailedAllRetries

  datatype StopOutcome = StopOutcome(success: bool, attempts: int, finalStatus: FinalStatus)

  /** The default retry budget of the phone. */
  const DefaultMaxRetries := 5

  /** `r` is what a sequential retrier numbering its attempts from 1 must
      report: success exactly when some attempt in 1..maxRetries gets
      through, the first such attempt as the count on success, and the whole
      budget as the count on failure. */
  ghost predicate IsDeliveryOutcome(networkAvailable: int -> bool, maxRetries: int, r: StopOutcome)
  {
    && (r.success <==> exists a :: 1 <= a <= maxRetries && networkAvailable(a))
    && (r.success ==>
          && 1 <= r.attempts <= maxRetries
          && networkAvailable(r.attempts)
          && forall a :: 1 <= a < r.attempts ==> !networkAvailable(a))
    && (!r.success ==> r.attempts == maxRetries)
    && r.finalStatus == (if r.success then Delivered else FailedAllRetries)
  }

  /** Tries attempts 1, 2, ..., maxRetries in order and returns at the first
      one the channel lets through. */
  method PhoneStopWithRetry(networkAvailable: int -> bool, maxRetries: int) returns (r: StopOutcome)
    ensures IsDeliveryOutcome(networkAvailable, maxRetries, r)
  {
    var attempt := 1;
    while attempt <= maxRetries
      invariant 1 <= attempt
      invariant forall a :: 1 <= a < attempt ==> !networkAvailable(a)
    {
      if networkAvailable(attempt) {
        return StopOutcome(true, attempt, Delivered);
      }
      attempt := attempt + 1;
    }
    return StopOutcome(false, maxRetries, FailedAllRetries);
  }

  /** The outcome depends only on the channel's answers for attempts
      1..maxRetries: two channels that agree there give the same outcome. In
      particular no attempt beyond the budget is ever consulted. */
  lemma OutcomeDependsOnlyOnBudget(net1: int -> bool, net2: int -> bool, maxRetries: int, r1: StopOutcome, r2: StopOutcome)
    requires forall a :: 1 <= a <= maxRetries ==> net1(a) == net2(a)
    requires IsDeliveryOutcome(net1, maxRetries, r1)
    requires IsDeliveryOutcome(net2, maxRetries, r2)
    ensures r1 == r2
  {
  }

  /** With no budget the delivery fails whatever the channel says, with the
      budget itself reported as the attempt count. */
  lemma NoBudgetFails(networkAvailable: int -> bool, maxRetries: int, r: StopOutcome)
    requires maxRetries <= 0
    requires IsDeliveryOutcome(networkAvailable, maxRetries, r)
    ensures !r.success && r.attempts == maxRetries && r.finalStatus == FailedAllRetries
  {
  }

  /** The network comes back at the third attempt: delivered on attempt 3. */
  lemma NetworkBackOnThirdAttempt(r: StopOutcome)
    requires IsDeliveryOutcome(a => a >= 3, DefaultMaxRetries, r)
    ensures r.success && r.attempts == 3 && r.finalStatus == Delivered
  {
    assert (a => a >= 3)(3);
  }

  /** The network never comes back: all five attempts fail. */
  lemma NetworkNeverBack(r: StopOutcome)
    requires IsDeliveryOutcome(a => false, DefaultMaxRetries, r)
    ensures !r.success && r.attempts == 5 && r.finalStatus == FailedAllRetries
  {
  }
}
