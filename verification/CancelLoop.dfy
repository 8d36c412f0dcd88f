/** The cancel loops of the command line, `cancel_expired` and `cancel_expired_offramps`
    (cli/cardano_cmds.rs), which differ only in what they cancel. Times are in milliseconds since
    the loop started; a sleep that overshoots counts as part of the work that follows it. */
module CancelLoop {
  import opened Retry

  const RETRY_ATTEMPTS := 3
  const RETRY_DELAY := 15_000
  const SEQ_CANCEL_DELAY := 30_000
  const CANCEL_BUDGET := 180_000

  /** An invoice or offramp entry of the pool state. */
  datatype Entry = Entry(id: int, expiresAt: int)

  function Expired(entries: seq<Entry>, now: int): seq<Entry> {
    if entries == [] then []
    else (if entries[0].expiresAt < now then [entries[0]] else []) + Expired(entries[1..], now)
  }

  /** The selection keeps every expired entry, as often as it occurs, and no other. */
  lemma {:induction false} ExpiredCounts(entries: seq<Entry>, now: int, e: Entry)
    ensures multiset(Expired(entries, now))[e] == if e.expiresAt < now then multiset(entries)[e] else 0
  {
    if entries != [] {
      ExpiredCounts(entries[1..], now, e);
      assert entries == [entries[0]] + entries[1..];
    }
  }

  /** It keeps their order: what is selected of a list is what is selected of its parts, in turn. */
  lemma {:induction false} ExpiredInOrder(first: seq<Entry>, second: seq<Entry>, now: int)
    ensures Expired(first + second, now) == Expired(first, now) + Expired(second, now)
  {
    if first == [] {
      assert first + second == second;
    } else {
      ExpiredInOrder(first[1..], second, now);
      assert (first + second)[1..] == first[1..] + second;
    }
  }

  /** One cancel: when the budget was checked, when the submission started and ended, how it ended. */
  datatype Attempt = Attempt(entry: Entry, checked: nat, start: nat, end: nat, ok: bool)

  function Successes(attempts: seq<Attempt>): nat {
    if attempts == [] then 0
    else Successes(attempts[..|attempts| - 1]) + if attempts[|attempts| - 1].ok then 1 else 0
  }

  /** The submission of the i-th cancel succeeds: one of three attempts, after lagging rejections. */
  ghost predicate Succeeds(answer: (nat, nat) -> Submitted<string>, i: nat) {
    Accepts(j => answer(i, j), 3)
  }

  /** Fifteen seconds between the attempts of the i-th cancel. */
  function Pauses(answer: (nat, nat) -> Submitted<string>, i: nat): nat {
    var k := FirstFinal(j => answer(i, j), 0, 3);
    15_000 * if k < 3 then k else 2
  }

  /** Two successful cancels are at least the delay apart, whatever happened in between. */
  predicate Spaced(attempts: seq<Attempt>) {
    forall i, j :: 0 <= i < j < |attempts| && attempts[i].ok ==> attempts[i].end + 30_000 <= attempts[j].start
  }

  /** One pass through the loop body after the budget check: wait if the previous cancel succeeded,
      then submit. */
  method CancelOne(entry: Entry, i: nat, elapsed: nat, lastOk: bool,
                   answer: (nat, nat) -> Submitted<string>, work: nat -> nat)
    returns (attempt: Attempt, slept: nat)
    ensures attempt.entry == entry && attempt.checked == elapsed && (attempt.ok <==> Succeeds(answer, i))
    ensures attempt.start == elapsed + if lastOk then 30_000 else 0
    ensures elapsed + slept <= attempt.end && attempt.start <= attempt.end
    ensures slept == (if lastOk then 30_000 else 0) + Pauses(answer, i) <= 60_000
  {
    slept := if lastOk then SEQ_CANCEL_DELAY else 0;
    var start := elapsed + slept;
    var result, _, waited := SubmitWithRetry(RETRY_ATTEMPTS, RETRY_DELAY, j => answer(i, j));
    slept := slept + waited;
    attempt := Attempt(entry, elapsed, start, start + work(i) + waited, result.Done?);
  }

  /** The attempts made so far, the last of which ended at `elapsed`. */
  ghost predicate Good(expired: seq<Entry>, answer: (nat, nat) -> Submitted<string>,
                       attempts: seq<Attempt>, elapsed: nat) {
    && |attempts| <= |expired|
    && (forall j :: 0 <= j < |attempts| ==> attempts[j].entry == expired[j] && attempts[j].checked <= 180_000)
    && (forall j :: 0 <= j < |attempts| ==> (attempts[j].ok <==> Succeeds(answer, j)))
    && Spaced(attempts)
    && (forall j :: 0 <= j < |attempts| - 1 && attempts[j].ok ==> attempts[j].end + 30_000 <= elapsed)
    && elapsed == if attempts == [] then 0 else attempts[|attempts| - 1].end
  }

  lemma NoneYet(expired: seq<Entry>, answer: (nat, nat) -> Submitted<string>)
    ensures Good(expired, answer, [], 0)
  {
  }

  lemma Extends(expired: seq<Entry>, answer: (nat, nat) -> Submitted<string>,
                attempts: seq<Attempt>, elapsed: nat, a: Attempt)
    requires Good(expired, answer, attempts, elapsed) && |attempts| < |expired| && elapsed <= CANCEL_BUDGET
    requires a.entry == expired[|attempts|] && a.checked == elapsed && (a.ok <==> Succeeds(answer, |attempts|))
    requires a.start == elapsed + (if attempts != [] && attempts[|attempts| - 1].ok then 30_000 else 0)
    requires a.start <= a.end
    ensures Good(expired, answer, attempts + [a], a.end)
  {
    hide Succeeds;
  }

  lemma GoodMeans(expired: seq<Entry>, answer: (nat, nat) -> Submitted<string>, attempts: seq<Attempt>, elapsed: nat)
    requires Good(expired, answer, attempts, elapsed)
    ensures |attempts| <= |expired| && Spaced(attempts)
    ensures forall j :: 0 <= j < |attempts| ==> attempts[j].entry == expired[j] && attempts[j].checked <= 180_000
    ensures forall j :: 0 <= j < |attempts| ==> (attempts[j].ok <==> Succeeds(answer, j))
    ensures elapsed == if attempts == [] then 0 else attempts[|attempts| - 1].end
  {
  }

  /** `answer(i, j)` is the answer to the j-th submission for the i-th entry, `work(i)` the time all
      its submissions take besides sleeping. */
  method CancelExpired(entries: seq<Entry>, now: int, answer: (nat, nat) -> Submitted<string>, work: nat -> nat)
    returns (cancelled: nat, attempts: seq<Attempt>, slept: nat)
    ensures var expired := Expired(entries, now);
            && |attempts| <= |expired|
            && (forall i :: 0 <= i < |attempts| ==>
                  attempts[i].entry == expired[i] && attempts[i].entry.expiresAt < now)
            && (|attempts| < |expired| ==> attempts != [] && attempts[|attempts| - 1].end > 180_000)
    ensures forall i :: 0 <= i < |attempts| ==> attempts[i].checked <= 180_000
    ensures forall i :: 0 <= i < |attempts| ==> (attempts[i].ok <==> Succeeds(answer, i))
    ensures Spaced(attempts)
    ensures slept <= 240_000
    ensures cancelled == Successes(attempts)
  {
    hide Good, Succeeds, Spaced, Pauses;
    var expired := Expired(entries, now);
    AllExpired(entries, now);
    cancelled, attempts, slept := 0, [], 0;
    var elapsed, lastOk := 0, false;
    NoneYet(expired, answer);
    for i := 0 to |expired|
      invariant i == |attempts| && slept <= elapsed && slept <= 240_000 && Good(expired, answer, attempts, elapsed)
      invariant lastOk == (i > 0 && attempts[i - 1].ok) && cancelled == Successes(attempts)
    {
      if elapsed > CANCEL_BUDGET { break; }
      var attempt, more := CancelOne(expired[i], i, elapsed, lastOk, answer, work);
      Extends(expired, answer, attempts, elapsed, attempt);
      elapsed, slept, lastOk := attempt.end, slept + more, attempt.ok;
      if lastOk { cancelled := cancelled + 1; }
      assert (attempts + [attempt])[..i] == attempts;
      attempts := attempts + [attempt];
    }
    GoodMeans(expired, answer, attempts, elapsed);
  }

  lemma {:induction false} AllExpired(entries: seq<Entry>, now: int)
    ensures forall i :: 0 <= i < |Expired(entries, now)| ==> Expired(entries, now)[i].expiresAt < now
  {
    if entries != [] { AllExpired(entries[1..], now); }
  }
}
