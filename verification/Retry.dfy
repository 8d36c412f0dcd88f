/** The retry loops around Cardano calls (helpers.rs). The calls themselves are answered by a
    function from the attempt's number; sleeping is counted in seconds. */
module Retry {
  import opened Common

  // ----- submitting -------------------------------------------------------------------------

  datatype Submitted<T> = Accepted(value: T) | Rejected(message: string)

  datatype SubmitResult<T> =
    | Done(value: T)
    | NotRetryable(message: string)
    | Exhausted(attempts: nat, message: string)

  predicate OccursAt(s: string, part: string, i: nat) {
    i + |part| <= |s| && s[i..i + |part|] == part
  }

  predicate Contains(s: string, part: string) {
    exists i :: 0 <= i <= |s| && OccursAt(s, part, i)
  }

  /** `is_retryable_submit_err` */
  predicate Retryable(message: string) {
    || Contains(message, "BadInputs")
    || Contains(message, "already been included")
    || Contains(message, "ConwayMempoolFailure")
  }

  /** The phrase occurs somewhere in the text. */
  ghost predicate Around(s: string, part: string) { exists a: string, b: string :: s == a + part + b }

  lemma ContainsIff(s: string, part: string)
    ensures Contains(s, part) <==> Around(s, part)
  {
    if i :| 0 <= i <= |s| && OccursAt(s, part, i) {
      assert s == s[..i] + part + s[i + |part|..];
    }
    if a: string, b: string :| s == a + part + b {
      assert OccursAt(s, part, |a|);
    }
  }

  /** A rejection that mentions, at any place, one of the three signs that the indexer lags. */
  ghost predicate Lagging<T>(a: Submitted<T>) {
    a.Rejected? && (|| Around(a.message, "BadInputs")
                    || Around(a.message, "already been included")
                    || Around(a.message, "ConwayMempoolFailure"))
  }

  /** A message is retryable if and only if it is a text, one of the three phrases, and a text. */
  lemma RetryableIff(message: string)
    ensures Retryable(message) <==>
            || Around(message, "BadInputs")
            || Around(message, "already been included")
            || Around(message, "ConwayMempoolFailure")
  {
    hide Contains, Around;
    ContainsIff(message, "BadInputs");
    ContainsIff(message, "already been included");
    ContainsIff(message, "ConwayMempoolFailure");
  }

  lemma FinalIff<T>(a: Submitted<T>)
    ensures Final(a) <==> !Lagging(a)
  {
    hide Retryable, Around;
    if a.Rejected? { RetryableIff(a.message); }
  }

  /** An answer that ends the loop. */
  predicate Final<T>(a: Submitted<T>) { a.Accepted? || !Retryable(a.message) }

  /** The first of the attempts from..max whose answer is final, or max if there is none. */
  function FirstFinal<T>(answer: nat -> Submitted<T>, from: nat, max: nat): (k: nat)
    requires from <= max
    ensures from <= k <= max
    ensures k < max ==> Final(answer(k))
    ensures forall i :: from <= i < k ==> !Final(answer(i))
    decreases max - from
  {
    if from == max || Final(answer(from)) then from else FirstFinal(answer, from + 1, max)
  }

  function Outcome<T>(a: Submitted<T>): SubmitResult<T>
    requires Final(a)
  {
    match a
    case Accepted(value) => Done(value)
    case Rejected(message) => NotRetryable(message)
  }

  /** Some attempt is accepted, and every one before it is a lagging rejection. */
  ghost predicate Accepts<T>(answer: nat -> Submitted<T>, max: nat) {
    exists k :: 0 <= k < max && AcceptedAt(answer, k)
  }

  ghost predicate AcceptedAt<T>(answer: nat -> Submitted<T>, k: nat) {
    answer(k).Accepted? && forall i :: 0 <= i < k ==> Lagging(answer(i))
  }

  lemma AcceptsIff<T>(answer: nat -> Submitted<T>, max: nat)
    ensures Accepts(answer, max) <==>
            FirstFinal(answer, 0, max) < max && answer(FirstFinal(answer, 0, max)).Accepted?
  {
    hide FirstFinal, Final, Lagging;
    forall i: nat ensures Final(answer(i)) <==> !Lagging(answer(i)) { FinalIff(answer(i)); }
    var first := FirstFinal(answer, 0, max);
    if first < max && answer(first).Accepted? { assert AcceptedAt(answer, first); }
    if k :| 0 <= k < max && AcceptedAt(answer, k) {
      assert Final(answer(k)) by { FinalIsAccepted(answer(k)); }
      FirstFinalIs(answer, k, max);
    }
  }

  lemma FinalIsAccepted<T>(a: Submitted<T>)
    requires a.Accepted?
    ensures Final(a)
  {
  }

  /** `submit_contract_tx_with_retry` returns the first final answer among the first `max`, having
      made no further call and slept once between any two. It succeeds exactly when some attempt is
      accepted after nothing but lagging rejections. */
  method SubmitWithRetry<T>(max: nat, delay: nat, answer: nat -> Submitted<T>)
    returns (result: SubmitResult<T>, calls: nat, slept: nat)
    ensures var k := FirstFinal(answer, 0, max);
            if k < max then result == Outcome(answer(k)) && calls == k + 1 && slept == k * delay
            else
              && result == Exhausted(max, if max == 0 then "" else answer(max - 1).message)
              && calls == max && slept == Sleeps(max) * delay
    ensures result.Done? <==> Accepts(answer, max)
  {
    AcceptsIff(answer, max);
    hide Retryable, FirstFinal, Accepts;
    var lastErr := "";
    calls, slept := 0, 0;
    for attempt := 0 to max
      invariant calls == attempt && slept == Sleeps(attempt) * delay
      invariant forall i :: 0 <= i < attempt ==> !Final(answer(i))
      invariant lastErr == if attempt == 0 then "" else answer(attempt - 1).message
    {
      if attempt > 0 { slept := slept + delay; }
      OneMoreSleep(attempt, delay);
      calls := calls + 1;
      match answer(attempt) {
        case Accepted(value) =>
          FirstFinalIs(answer, attempt, max);
          return Done(value), calls, slept;
        case Rejected(message) =>
          lastErr := message;
          if !Retryable(message) {
            FirstFinalIs(answer, attempt, max);
            return NotRetryable(message), calls, slept;
          }
      }
    }
    FirstFinalIs(answer, max, max);
    result := Exhausted(max, lastErr);
  }

  /** Sleeps between the first `n` calls. */
  function Sleeps(n: nat): nat { if n == 0 then 0 else n - 1 }

  lemma OneMoreSleep(n: nat, delay: nat)
    ensures n > 0 ==> Sleeps(n) * delay + delay == n * delay
    ensures Sleeps(n + 1) * delay == n * delay
  {
    if n > 0 { assert n * delay == (n - 1) * delay + delay; }
  }

  lemma FirstFinalIs<T>(answer: nat -> Submitted<T>, k: nat, max: nat)
    requires k <= max && forall i :: 0 <= i < k ==> !Final(answer(i))
    requires k < max ==> Final(answer(k))
    ensures FirstFinal(answer, 0, max) == k
  {
    hide FirstFinal, Final;
  }

  // ----- querying ---------------------------------------------------------------------------

  /** One query of the on-chain state: an error, or what the search in it found. */
  datatype Queried<T> = State(found: Option<T>) | QueryError(message: string)

  datatype QueryResult<T> = Found(value: T) | QueryFailed(attempts: nat, message: string) | NotFound(attempts: nat)

  predicate IsHit<T>(q: Queried<T>) { q.State? && q.found.Some? }

  function FirstHit<T>(answer: nat -> Queried<T>, from: nat, max: nat): (k: nat)
    requires from <= max
    ensures from <= k <= max
    ensures k < max ==> IsHit(answer(k))
    ensures forall i :: from <= i < k ==> !IsHit(answer(i))
    decreases max - from
  {
    if from == max || IsHit(answer(from)) then from else FirstHit(answer, from + 1, max)
  }

  /** `query_state_with_retry` returns the first hit among the first `max` queries whatever errors
      and misses come before it; without one, the last query decides the error. */
  method QueryWithRetry<T>(max: nat, delay: nat, answer: nat -> Queried<T>)
    returns (result: QueryResult<T>, calls: nat, slept: nat)
    ensures var k := FirstHit(answer, 0, max);
            if k < max then result == Found(answer(k).found.value) && calls == k + 1 && slept == k * delay
            else
              && result == Missed(answer, max)
              && calls == max && slept == Sleeps(max) * delay
  {
    hide FirstHit;
    calls, slept := 0, 0;
    for attempt := 0 to max
      invariant calls == attempt && forall i :: 0 <= i < attempt ==> !IsHit(answer(i))
      invariant slept == (if attempt == max then Sleeps(attempt) else attempt) * delay
      invariant attempt == max > 0 ==> answer(max - 1).State?
    {
      calls := calls + 1;
      OneMoreSleep(attempt + 1, delay);
      match answer(attempt) {
        case State(found) =>
          if found.Some? {
            FirstHitIs(answer, attempt, max);
            return Found(found.value), calls, slept;
          }
          if attempt < max - 1 { slept := slept + delay; }
        case QueryError(message) =>
          if attempt < max - 1 {
            slept := slept + delay;
          } else {
            FirstHitIs(answer, max, max);
            return QueryFailed(max, message), calls, slept;
          }
      }
    }
    FirstHitIs(answer, max, max);
    result := NotFound(max);
  }

  /** Without a hit the last query decides the error. */
  function Missed<T>(answer: nat -> Queried<T>, max: nat): QueryResult<T> {
    if max > 0 && answer(max - 1).QueryError? then QueryFailed(max, answer(max - 1).message) else NotFound(max)
  }

  lemma FirstHitIs<T>(answer: nat -> Queried<T>, k: nat, max: nat)
    requires k <= max && forall i :: 0 <= i < k ==> !IsHit(answer(i))
    requires k < max ==> IsHit(answer(k))
    ensures FirstHit(answer, 0, max) == k
  {
    hide FirstHit, IsHit;
  }

  // ----- one fulfilment ---------------------------------------------------------------------

  const QUERY_ATTEMPTS := 24
  const QUERY_DELAY := 10
  const SUBMIT_ATTEMPTS := 3
  const SUBMIT_DELAY := 15

  /** What querying then submitting comes to: the hash of the first accepted attempt, if the entry is
      found at all and no attempt before is rejected for good. */
  function Delivered<E, T>(query: nat -> Queried<E>, submit: nat -> Submitted<T>): Option<T> {
    var k := FirstFinal(submit, 0, SUBMIT_ATTEMPTS);
    if FirstHit(query, 0, QUERY_ATTEMPTS) < QUERY_ATTEMPTS && k < SUBMIT_ATTEMPTS && submit(k).Accepted?
    then Some(submit(k).value) else None
  }

  /** The waiting part of `fulfill_swap` and `complete_offramp`: find the entry on chain, then
      submit. Nothing is submitted unless the entry was found by the 24th query. It sleeps ten seconds
      between queries and fifteen between submissions, so at most 23 * 10 + 2 * 15. */
  method QueryThenSubmit<E, T>(query: nat -> Queried<E>, submit: nat -> Submitted<T>)
    returns (tx: Option<T>, submits: nat, slept: nat)
    ensures slept <= 23 * 10 + 2 * 15 && submits <= 3
    ensures submits > 0 <==> exists k :: 0 <= k < 24 && IsHit(query(k))
    ensures tx.Some? <==> (exists k :: 0 <= k < 24 && IsHit(query(k))) && Accepts(submit, 3)
    ensures slept == 10 * (if submits > 0 then FirstHit(query, 0, 24) else 23) + 15 * Sleeps(submits)
    ensures tx == Delivered(query, submit)
    ensures forall i :: 0 <= i < submits - 1 ==> !Final(submit(i))
    ensures 0 < submits < 3 ==> Final(submit(submits - 1))
    ensures tx.Some? <==> 0 < submits && submit(submits - 1).Accepted?
    ensures tx.Some? ==> submit(submits - 1).value == tx.value
  {
    hide FirstHit, FirstFinal, Retryable, Accepts;
    var found, _, waited := QueryWithRetry(QUERY_ATTEMPTS, QUERY_DELAY, query);
    tx, submits, slept := None, 0, waited;
    if found.Found? {
      var result, calls, more := SubmitWithRetry(SUBMIT_ATTEMPTS, SUBMIT_DELAY, submit);
      submits, slept := calls, slept + more;
      if result.Done? { tx := Some(result.value); }
    }
  }
}
