/** The swap handlers of cardano_swap.rs and background.rs as the source writes them, over the
    database object, each proved to be the protocol's task running with nothing in between. */
module SwapHandlers {
  import opened Common
  import opened SwapTable
  import opened SwapProtocol
  import opened SwapDb
  import opened Retry

  // ----- a task on its own ------------------------------------------------------------------

  datatype Origin = Origin(table: Table, history: History, clock: int, cfg: Config, task: Task)

  datatype Stage = Stage(answers: seq<Answer>, table: Table, next: Option<Task>, history: History)

  /** The steps of one task, one answer each, with no other task in between and no time passing. */
  function Alone(o: Origin, answers: seq<Answer>): Option<Stage> {
    if answers == [] then Some(Stage([], o.table, Some(o.task), o.history))
    else
      var before := Alone(o, answers[..|answers| - 1]);
      if before.None? || before.value.next.None? then None
      else
        var b := before.value;
        var e := TaskStep(b.table, b.history, o.clock, o.cfg, b.next.value, answers[|answers| - 1]);
        if e.None? then None else Some(Stage(answers, e.value.table, e.value.next, e.value.history))
  }

  predicate Reached(o: Origin, s: Stage) { Alone(o, s.answers) == Some(s) }

  function Advances(tid: nat, answers: seq<Answer>): seq<Step> {
    if answers == [] then [] else Advances(tid, answers[..|answers| - 1]) + [Advance(tid, answers[|answers| - 1])]
  }

  function OriginOf(s: Sys, tid: nat): Origin
    requires tid in s.tasks
  {
    Origin(s.table, s.history, s.clock, s.cfg, s.tasks[tid])
  }

  function SysAt(s: Sys, tid: nat, at: Stage): Sys {
    s.(table := at.table, history := at.history,
       tasks := if at.next.Some? then s.tasks[tid := at.next.value] else s.tasks - {tid})
  }

  /** Such a stretch is a run of the whole relay, whatever else is waiting. */
  lemma {:induction false} AloneIsRun(s: Sys, tid: nat, at: Stage)
    requires tid in s.tasks && Reached(OriginOf(s, tid), at)
    ensures Run(s, Advances(tid, at.answers)) == Some(SysAt(s, tid, at))
    decreases |at.answers|
  {
    hide TaskStep;
    if at.answers == [] {
      assert s.tasks[tid := s.tasks[tid]] == s.tasks;
    } else {
      var past := at.answers[..|at.answers| - 1];
      var before := Alone(OriginOf(s, tid), past).value;
      AloneKeepsAnswers(OriginOf(s, tid), past);
      AloneIsRun(s, tid, before);
      var steps := Advances(tid, at.answers);
      assert steps[..|steps| - 1] == Advances(tid, past);
      AdvanceAlone(s, tid, before, at);
    }
  }

  lemma AloneKeepsAnswers(o: Origin, answers: seq<Answer>)
    ensures Alone(o, answers).Some? ==> Alone(o, answers).value.answers == answers
  {
  }

  lemma AdvanceAlone(s: Sys, tid: nat, before: Stage, at: Stage)
    requires tid in s.tasks && at.answers != [] && before.next.Some?
    requires var a := at.answers[|at.answers| - 1];
             var e := TaskStep(before.table, before.history, s.clock, s.cfg, before.next.value, a);
             e.Some? && at == Stage(at.answers, e.value.table, e.value.next, e.value.history)
    ensures Next(SysAt(s, tid, before), Advance(tid, at.answers[|at.answers| - 1])) == Some(SysAt(s, tid, at))
  {
    hide TaskStep;
    var m := SysAt(s, tid, before);
    if at.next.Some? { assert m.tasks[tid := at.next.value] == s.tasks[tid := at.next.value]; }
    else { assert m.tasks - {tid} == s.tasks - {tid}; }
  }

  lemma Start(o: Origin) returns (at: Stage)
    ensures at == Stage([], o.table, Some(o.task), o.history) && Reached(o, at)
  {
    at := Stage([], o.table, Some(o.task), o.history);
  }

  lemma OneMore(o: Origin, s: Stage, a: Answer, e: Effect<Task>) returns (at: Stage)
    requires Reached(o, s) && s.next.Some?
    requires TaskStep(s.table, s.history, o.clock, o.cfg, s.next.value, a) == Some(e)
    ensures at == Stage(s.answers + [a], e.table, e.next, e.history) && Reached(o, at)
  {
    at := Stage(s.answers + [a], e.table, e.next, e.history);
    assert at.answers[..|s.answers|] == s.answers;
    hide TaskStep;
  }

  lemma StepRequest(o: Origin, s: Stage, a: Answer) returns (at: Stage)
    requires Reached(o, s) && s.next.Some? && s.next.value.Request?
    requires RequestStep(s.table, s.history, o.clock, o.cfg, s.next.value.r, a).Some?
    ensures Reached(o, at)
    ensures var e := RequestStep(s.table, s.history, o.clock, o.cfg, s.next.value.r, a).value;
            at == Stage(s.answers + [a], e.table, if e.next.Some? then Some(Request(e.next.value)) else None, e.history)
  {
    hide Reached, RequestStep;
    var e := RequestStep(s.table, s.history, o.clock, o.cfg, s.next.value.r, a).value;
    at := OneMore(o, s, a, Effect(e.table, if e.next.Some? then Some(Request(e.next.value)) else None, e.history));
  }

  lemma StepFulfill(o: Origin, s: Stage, a: Answer) returns (at: Stage)
    requires Reached(o, s) && s.next.Some? && s.next.value.Fulfill?
    requires FulfillStep(s.table, s.history, o.clock, s.next.value.f, a).Some?
    ensures Reached(o, at)
    ensures var e := FulfillStep(s.table, s.history, o.clock, s.next.value.f, a).value;
            at == Stage(s.answers + [a], e.table, if e.next.Some? then Some(Fulfill(e.next.value)) else None, e.history)
  {
    hide Reached, FulfillStep;
    var e := FulfillStep(s.table, s.history, o.clock, s.next.value.f, a).value;
    at := OneMore(o, s, a, Effect(e.table, if e.next.Some? then Some(Fulfill(e.next.value)) else None, e.history));
  }

  lemma StepMonitor(o: Origin, s: Stage, a: Answer) returns (at: Stage)
    requires Reached(o, s) && s.next.Some? && s.next.value.Monitor?
    requires MonitorStep(s.table, s.history, o.clock, s.next.value.m, a).Some?
    ensures Reached(o, at)
    ensures var e := MonitorStep(s.table, s.history, o.clock, s.next.value.m, a).value;
            at == Stage(s.answers + [a], e.table, if e.next.Some? then Some(Monitor(e.next.value)) else None, e.history)
  {
    hide Reached, MonitorStep;
    var e := MonitorStep(s.table, s.history, o.clock, s.next.value.m, a).value;
    at := OneMore(o, s, a, Effect(e.table, if e.next.Some? then Some(Monitor(e.next.value)) else None, e.history));
  }

  // ----- handle_swap_request ----------------------------------------------------------------

  /** handle_swap_request after its input checks, with request_swap and store_swap_mapping: a swap is
      stored exactly when there is room under the cap, the pool and the address are in order, the
      chain accepted the invoice and the Lightning invoice has a new hash. A call refused for pool or
      address just ends where it is. */
  method HandleSwapRequest(db: SwapDb, now: int, ghost h: History, cfg: Config, amount: int, address: string,
                           liquid: bool, addressOk: bool, create: nat -> Submitted<(int, string)>,
                           invoice: Option<string>)
    returns (stored: Option<string>, ghost at: Stage)
    modifies db`swaps
    ensures Reached(Origin(old(db.swaps), h, now, cfg, Request(RequestCount(amount, address))), at)
    ensures at.table == db.swaps && (stored.Some? ==> at.next.None? && stored == invoice)
    ensures stored.Some? <==>
              && |Active(old(db.swaps))| < cfg.maxActive && liquid && addressOk
              && invoice.Some? && invoice.value !in old(db.swaps)
              && var k := FirstFinal(create, 0, SUBMIT_ATTEMPTS); k < SUBMIT_ATTEMPTS && create(k).Accepted?
    ensures stored.None? ==> db.swaps == old(db.swaps)
    ensures stored.Some? ==>
              && stored.value !in old(db.swaps) && stored.value in db.swaps
              && db.swaps - {stored.value} == old(db.swaps)
    ensures stored.Some? ==>
              var row := db.swaps[stored.value];
              && row.createTxHash.Some?
              && create(FirstFinal(create, 0, SUBMIT_ATTEMPTS)) == Accepted((row.invoiceId, row.createTxHash.value))
              && row.status == Pending && row.amountCbtc == amount && row.cardanoAddress == address
              && row.createdAt == now && row.cardanoTxHash == None
              && at.history == h.(chain := h.chain + {(row.invoiceId, row.expiresAt)})
              && row.expiresAt == now + cfg.expiry
  {
    hide Reached, Retryable, FirstFinal, Accepts, Active;
    ghost var o := Origin(db.swaps, h, now, cfg, Request(RequestCount(amount, address)));
    at := Start(o);
    var active := db.CountActiveSwaps();
    at := StepRequest(o, at, Proceed);
    if active >= cfg.maxActive || !liquid || !addressOk { return None, at; }
    at := StepRequest(o, at, Proceed);
    var result, _, _ := SubmitWithRetry(SUBMIT_ATTEMPTS, SUBMIT_DELAY, create);
    if !result.Done? {
      at := StepRequest(o, at, ChainErr);
      return None, at;
    }
    var (id, createTx) := result.value;
    at := StepRequest(o, at, ChainOk(id, createTx));
    if invoice.None? {
      at := StepRequest(o, at, Miss);
      return None, at;
    }
    at := StepRequest(o, at, NewInvoice(invoice.value));
    at := StepRequest(o, at, Proceed);
    var ok := db.Insert(invoice.value, Row(id, amount, address, Pending, now, now + cfg.expiry, None, Some(createTx)));
    at := StepRequest(o, at, Proceed);
    stored := if ok then invoice else None;
    assert ok ==> db.swaps - {invoice.value} == old(db.swaps);
  }

  // ----- fulfill_swap -----------------------------------------------------------------------

  /** fulfill_swap: only a Pending swap is touched, and it ends Completed with the transaction's
      hash or Failed with none; past its expiry nothing is built. */
  method FulfillSwap(db: SwapDb, now: int, ghost h: History, ghost cfg: Config, hash: string,
                     query: nat -> Queried<()>, submit: nat -> Submitted<string>)
    returns (tx: Option<string>, slept: nat, ghost at: Stage)
    modifies db`swaps
    ensures slept <= 260
    ensures Reached(Origin(old(db.swaps), h, now, cfg, Fulfill(FulfillRead(hash))), at)
    ensures at.table == db.swaps && at.next.None?
    ensures !Is(old(db.swaps), hash, Pending) ==> tx.None? && slept == 0 && db.swaps == old(db.swaps) && at.history == h
    ensures Is(old(db.swaps), hash, Pending) ==>
              db.swaps == old(db.swaps)[hash := old(db.swaps)[hash].(
                status := if tx.Some? then Completed else Failed, cardanoTxHash := tx)]
    ensures Is(old(db.swaps), hash, Pending) ==>
              if old(db.swaps)[hash].expiresAt < now then tx.None? && at.history.built == h.built
              else tx == Delivered(query, submit)
  {
    hide Reached, Delivered;
    ghost var o := Origin(db.swaps, h, now, cfg, Fulfill(FulfillRead(hash)));
    at := Start(o);
    var mapping := db.GetByPaymentHash(hash);
    at := StepFulfill(o, at, Proceed);
    if mapping.None? { return None, 0, at; }

    var claimed := db.TransitionStatus(hash, Pending, Fulfilling, None);
    at := StepFulfill(o, at, Proceed);
    if !claimed { return None, 0, at; }

    at := StepFulfill(o, at, Proceed);
    if now > mapping.value.expiresAt {
      db.UpdateStatus(hash, Failed, None);
      at := StepFulfill(o, at, Proceed);
      return None, 0, at;
    }
    tx, slept, at := FulfillOnChain(db, o, at, hash, query, submit);
  }

  /** fulfill_swap from the on-chain lookup on. */
  method FulfillOnChain(db: SwapDb, ghost o: Origin, ghost from: Stage, hash: string,
                        query: nat -> Queried<()>, submit: nat -> Submitted<string>)
    returns (tx: Option<string>, slept: nat, ghost at: Stage)
    requires hash in db.swaps
    requires Reached(o, from) && from.table == db.swaps && from.next == Some(Fulfill(FulfillQuery(hash)))
    modifies db`swaps
    ensures slept <= 260 && tx == Delivered(query, submit)
    ensures Reached(o, at) && at.table == db.swaps && at.next.None?
    ensures db.swaps == old(db.swaps)[hash := old(db.swaps)[hash].(
              status := if tx.Some? then Completed else Failed, cardanoTxHash := tx)]
  {
    hide Reached, Delivered, Final, Accepts, FirstHit;
    var submits;
    tx, submits, slept := QueryThenSubmit(query, submit);
    at := StepFulfill(o, from, if submits > 0 then Hit else Miss);
    if submits > 0 { at := Submitting(o, at, hash, submit, 0, submits); }
    if tx.Some? {
      db.UpdateStatus(hash, Completed, tx);
    } else {
      db.UpdateStatus(hash, Failed, None);
    }
    at := StepFulfill(o, at, Proceed);
  }

  /** The attempts of the submit loop are the task's steps. */
  lemma {:induction false} Submitting(o: Origin, from: Stage, hash: string, submit: nat -> Submitted<string>,
                                     attempt: nat, calls: nat)
    returns (at: Stage)
    requires attempt < calls <= 3 && Reached(o, from) && from.next == Some(Fulfill(FulfillSubmit(hash, attempt)))
    requires forall i :: attempt <= i < calls - 1 ==> !Final(submit(i))
    requires Final(submit(calls - 1)) || calls == 3
    ensures Reached(o, at) && at.table == from.table
    ensures var last := submit(calls - 1);
            at.next == Some(Fulfill(if last.Accepted? then FulfillDone(hash, last.value) else FulfillFail(hash)))
    decreases calls - attempt
  {
    hide Reached, Retryable;
    var answer := submit(attempt);
    var a := if answer.Accepted? then TxOk(answer.value) else if Final(answer) then TxErr else TxRetryable;
    at := StepFulfill(o, from, a);
    if attempt + 1 < calls { at := Submitting(o, at, hash, submit, attempt + 1, calls); }
  }

  // ----- monitor_expired_swaps --------------------------------------------------------------

  function Cancelled(row: Row, c: Cancel): Row {
    if c.Sent? then row.(status := Expired, cardanoTxHash := Some(c.tx)) else row
  }

  function MonitorPass(t: Table, now: int, cancels: string -> Cancel): Table {
    map h | h in t ::
      if t[h].status == Pending && t[h].expiresAt < now then Cancelled(t[h], cancels(h)) else t[h]
  }

  function Rest(t: Table, now: int, hashes: seq<string>): map<string, Row> {
    map h | h in ExpiredPending(t, now) && h in hashes :: t[h]
  }

  predicate Passed(t: Table, u: Table, cancels: string -> Cancel, done: seq<string>) {
    && u.Keys == t.Keys
    && forall h :: h in t ==> u[h] == if h in done then Cancelled(t[h], cancels(h)) else t[h]
  }

  /** One round of monitor_expired_swaps: of the Pending swaps past their expiry, those whose
      cancellation went out are Expired, and no other row is touched. */
  method MonitorExpiredSwaps(db: SwapDb, now: int, ghost h: History, ghost cfg: Config, cancels: string -> Cancel)
    returns (ghost at: Stage)
    modifies db`swaps
    ensures Reached(Origin(old(db.swaps), h, now, cfg, Monitor(MonitorTick)), at)
    ensures at.table == db.swaps && at.next == Some(Monitor(MonitorTick))
    ensures db.swaps == MonitorPass(old(db.swaps), now, cancels)
  {
    hide Reached, MonitorStep, Rest, Passed, MonitorPass, Cancelled, Lists, ExpiredPending;
    ghost var t := db.swaps;
    ghost var o := Origin(t, h, now, cfg, Monitor(MonitorTick));
    var hashes := db.GetExpiredPending(now);
    at := MonitorSelects(o, hashes, cancels);
    for i := 0 to |hashes|
      invariant Reached(o, at) && at.table == db.swaps
      invariant at.next == Some(Monitor(MonitorLoop(now, Rest(t, now, hashes[i..]))))
      invariant Passed(t, db.swaps, cancels, hashes[..i])
    {
      at := MonitorPicks(o, at, t, now, hashes, i);
      PassOne(t, db.swaps, now, cancels, hashes, i);
      at := CancelSwapOnChain(db, o, at, hashes[i], t[hashes[i]], Rest(t, now, hashes[i + 1..]), now,
                              cancels(hashes[i]));
    }
    at := MonitorRests(o, at, t, now, hashes);
    PassedAll(t, db.swaps, now, cancels, hashes);
  }

  /** One iteration of the monitor's loop. */
  method CancelSwapOnChain(db: SwapDb, ghost o: Origin, ghost from: Stage, hash: string, ghost row: Row,
                           ghost todo: map<string, Row>, ghost now: int, cancel: Cancel)
    returns (ghost at: Stage)
    requires hash in db.swaps
    requires Reached(o, from) && from.table == db.swaps
    requires from.next == Some(Monitor(MonitorCancel(hash, row, now, todo)))
    modifies db`swaps
    ensures Reached(o, at) && at.table == db.swaps && at.next == Some(Monitor(MonitorLoop(now, todo)))
    ensures db.swaps == old(db.swaps)[hash := Cancelled(old(db.swaps)[hash], cancel)]
  {
    hide Reached;
    if cancel.NotBuilt? {
      at := StepMonitor(o, from, TxErr);
      return;
    }
    at := StepMonitor(o, from, TxOk(""));
    if cancel.NotSubmitted? {
      at := StepMonitor(o, at, TxErr);
      return;
    }
    at := StepMonitor(o, at, TxOk(cancel.tx));
    db.UpdateStatus(hash, Expired, Some(cancel.tx));
    at := StepMonitor(o, at, Proceed);
  }

  lemma PassOne(t: Table, u: Table, now: int, cancels: string -> Cancel, hashes: seq<string>, i: nat)
    requires i < |hashes| && Lists(hashes, ExpiredPending(t, now).Keys) && Passed(t, u, cancels, hashes[..i])
    ensures hashes[i] in u
    ensures Passed(t, u[hashes[i] := Cancelled(u[hashes[i]], cancels(hashes[i]))], cancels, hashes[..i + 1])
  {
    assert hashes[i] in hashes && hashes[..i + 1] == hashes[..i] + [hashes[i]];
  }

  lemma PassedAll(t: Table, u: Table, now: int, cancels: string -> Cancel, hashes: seq<string>)
    requires Lists(hashes, ExpiredPending(t, now).Keys) && Passed(t, u, cancels, hashes[..|hashes|])
    ensures u == MonitorPass(t, now, cancels)
  {
    assert hashes[..|hashes|] == hashes;
    var passed := MonitorPass(t, now, cancels);
    assert passed.Keys == t.Keys;
    forall h | h in t
      ensures u[h] == passed[h]
    {
      assert h in ExpiredPending(t, now).Keys <==> h in hashes;
    }
    assert u == passed;
  }

  lemma MonitorSelects(o: Origin, hashes: seq<string>, cancels: string -> Cancel) returns (at: Stage)
    requires Lists(hashes, ExpiredPending(o.table, o.clock).Keys) && o.task == Monitor(MonitorTick)
    ensures Reached(o, at) && at.table == o.table
    ensures at.next == Some(Monitor(MonitorLoop(o.clock, Rest(o.table, o.clock, hashes[0..]))))
    ensures Passed(o.table, o.table, cancels, hashes[..0])
  {
    hide Reached;
    at := Start(o);
    at := StepMonitor(o, at, Proceed);
    at := StepMonitor(o, at, Proceed);
    assert hashes[0..] == hashes;
    assert Rest(o.table, o.clock, hashes) == ExpiredPending(o.table, o.clock);
  }

  lemma NextExpired(t: Table, now: int, hashes: seq<string>, i: nat)
    requires i < |hashes| && Lists(hashes, ExpiredPending(t, now).Keys)
    ensures hashes[i] in t && hashes[i] in Rest(t, now, hashes[i..])
    ensures Rest(t, now, hashes[i..])[hashes[i]] == t[hashes[i]]
    ensures Rest(t, now, hashes[i..]) - {hashes[i]} == Rest(t, now, hashes[i + 1..])
  {
    assert hashes[i..] == [hashes[i]] + hashes[i + 1..];
    assert hashes[i] in hashes;
  }

  lemma MonitorPicks(o: Origin, from: Stage, t: Table, now: int, hashes: seq<string>, i: nat) returns (at: Stage)
    requires i < |hashes| && Lists(hashes, ExpiredPending(t, now).Keys) && Reached(o, from)
    requires from.next == Some(Monitor(MonitorLoop(now, Rest(t, now, hashes[i..]))))
    ensures Reached(o, at) && at.table == from.table && hashes[i] in t
    ensures at.next == Some(Monitor(MonitorCancel(hashes[i], t[hashes[i]], now, Rest(t, now, hashes[i + 1..]))))
  {
    hide Reached, Rest, Lists, ExpiredPending;
    NextExpired(t, now, hashes, i);
    at := StepMonitor(o, from, Pick(hashes[i]));
  }

  lemma MonitorRests(o: Origin, from: Stage, t: Table, now: int, hashes: seq<string>) returns (at: Stage)
    requires Reached(o, from) && from.next == Some(Monitor(MonitorLoop(now, Rest(t, now, hashes[|hashes|..]))))
    ensures Reached(o, at) && at.table == from.table && at.next == Some(Monitor(MonitorTick))
  {
    hide Reached;
    assert Rest(t, now, hashes[|hashes|..]) == map[];
    at := StepMonitor(o, from, Proceed);
  }
}
