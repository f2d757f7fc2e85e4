/** Retrying a promise factory: the factory is called again after each failure
    while the retry count is positive. The promises and the timer between
    attempts are abstracted into `attempt(i)`, the outcome of the i-th call
    of the factory (counting from 0). */
module PromiseRetrier {
  import opened JsStrings

  datatype Outcome<T> = Resolved(value: T) | Rejected(reason: string)

  /** How retrying ends, and how many times the factory was called. */
  datatype Settled<T> = Fulfilled(value: T, calls: nat) | Failed(reason: string, calls: nat)

  /** The retry count `retryPromise` uses when none is given. */
  const DefaultTimes: int := 2

  /** The most calls a retry count allows: one, plus one per positive unit of the count. */
  function MaxCalls(times: int): nat {
    if times > 0 then times + 1 else 1
  }

  /** `runPromise` started at call number `index` with `times` retries left: the first
      resolved call ends it with its value; a rejection with no retries left ends it with
      that rejection's reason. */
  function RunPromise<T>(attempt: nat -> Outcome<T>, times: int, index: nat): (r: Settled<T>)
    ensures 1 <= r.calls <= MaxCalls(times)
    ensures r.Fulfilled? <==> exists i :: index <= i < index + MaxCalls(times) && attempt(i).Resolved?
    ensures r.Fulfilled? ==> attempt(index + r.calls - 1) == Resolved(r.value)
    ensures forall i :: index <= i < index + r.calls - 1 ==> attempt(i).Rejected?
    ensures r.Failed? ==> r.calls == MaxCalls(times) && attempt(index + r.calls - 1) == Rejected(r.reason)
    decreases if times > 0 then times else 0
  {
    match attempt(index)
    case Resolved(v) => Fulfilled(v, 1)
    case Rejected(reason) =>
      if times > 0 then
        match RunPromise(attempt, times - 1, index + 1)
        case Fulfilled(v, n) => Fulfilled(v, n + 1)
        case Failed(e, n) => Failed(e, n + 1)
      else
        Failed(reason, 1)
  }

  /** The text of the final rejection: the last reason and the number of calls promised. */
  function RejectionMessage(reason: string, times: int): string {
    reason + " (" + IntToString(times + 1) + " times)"
  }

  /** `retryPromise(createPromise, times)`: at most `times + 1` calls (one when `times` is not
      positive); the first resolved value wins; when every call fails, the last reason is
      reported together with `times + 1`. */
  function RetryPromise<T>(attempt: nat -> Outcome<T>, times: int): (r: Settled<T>)
    ensures 1 <= r.calls <= MaxCalls(times)
    ensures r.Fulfilled? <==> exists i :: 0 <= i < MaxCalls(times) && attempt(i).Resolved?
    ensures r.Fulfilled? ==> attempt(r.calls - 1) == Resolved(r.value)
    ensures forall i :: 0 <= i < r.calls - 1 ==> attempt(i).Rejected?
    ensures r.Failed? ==> r.calls == MaxCalls(times)
                          && r.reason == RejectionMessage(attempt(r.calls - 1).reason, times)
  {
    match RunPromise(attempt, times, 0)
    case Fulfilled(v, n) => Fulfilled(v, n)
    case Failed(e, n) => Failed(RejectionMessage(e, times), n)
  }

  /** With the default count, a factory that always fails is called three times and the
      rejection reads "failed (3 times)". */
  lemma AlwaysFailingGivesUpAfterThree()
    ensures RetryPromise<string>((i: nat) => Rejected("failed"), DefaultTimes) == Failed("failed (3 times)", 3)
  {
    var attempt: nat -> Outcome<string> := (i: nat) => Rejected("failed");
    assert RunPromise(attempt, 0, 2) == Failed("failed", 1);
    assert RunPromise(attempt, 1, 1) == Failed("failed", 2);
    assert RunPromise(attempt, 2, 0) == Failed("failed", 3);
    assert IntToString(3) == "3";
  }

  /** A factory that fails once and then succeeds is called twice and yields the success. */
  lemma FailingOnceSucceedsOnSecondCall()
    ensures RetryPromise((i: nat) => if i == 0 then Rejected("failed") else Resolved("succeeded"), 3)
            == Fulfilled("succeeded", 2)
  {
    var attempt: nat -> Outcome<string> := (i: nat) => if i == 0 then Rejected("failed") else Resolved("succeeded");
    assert RunPromise(attempt, 2, 1) == Fulfilled("succeeded", 1);
  }
}
