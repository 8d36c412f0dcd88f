/** The offramp handlers of cardano_offramp.rs as the source writes them, over the database object.
    Each is proved to take the database where the protocol's task takes the table when nothing
    interleaves, so the protocol's theorems are about this code. */
module OfframpHandlers {
  import opened Common
  import opened OfframpTable
  import opened OfframpProtocol
  import opened SwapDb
  import opened Retry
  import Amounts

  // ----- a task on its own ------------------------------------------------------------------

  /** For tasks that read neither the clock nor the configuration. */
  const NO_LIMITS := Config(0, 0)

  /** Where a task started. */
  datatype Origin = Origin(table: Table, clock: int, cfg: Config, task: Task)

  /** Where it is after some answers of the outside world. */
  datatype Stage = Stage(answers: seq<Answer>, table: Table, next: Option<Task>, log: seq<Event>)

  /** The steps of one task, one answer each, with no other task in between. */
  function Alone(o: Origin, answers: seq<Answer>): Option<Stage> {
    if answers == [] then Some(Stage([], o.table, Some(o.task), []))
    else
      var before := Alone(o, answers[..|answers| - 1]);
      if before.None? || before.value.next.None? then None
      else
        var e := TaskStep(before.value.table, o.clock, o.cfg, before.value.next.value, answers[|answers| - 1]);
        if e.None? then None
        else Some(Stage(answers, e.value.table, e.value.next, Append(before.value.log, e.value.event)))
  }

  predicate Reached(o: Origin, s: Stage) { Alone(o, s.answers) == Some(s) }

  function Advances(tid: nat, answers: seq<Answer>): seq<Step> {
    if answers == [] then [] else Advances(tid, answers[..|answers| - 1]) + [Advance(tid, answers[|answers| - 1])]
  }

  function SysAt(s: Sys, tid: nat, at: Stage): Sys {
    s.(table := at.table, log := s.log + at.log,
       tasks := if at.next.Some? then s.tasks[tid := at.next.value] else s.tasks - {tid})
  }

  /** Such a stretch is a run of the whole relay, whatever else is waiting. */
  lemma {:induction false} AloneIsRun(s: Sys, tid: nat, at: Stage)
    requires tid in s.tasks && Reached(Origin(s.table, s.clock, s.cfg, s.tasks[tid]), at)
    ensures Run(s, Advances(tid, at.answers)) == Some(SysAt(s, tid, at))
    decreases |at.answers|
  {
    hide TaskStep;
    if at.answers == [] {
      assert s.tasks[tid := s.tasks[tid]] == s.tasks && s.log + [] == s.log;
    } else {
      var past := at.answers[..|at.answers| - 1];
      var before := Alone(Origin(s.table, s.clock, s.cfg, s.tasks[tid]), past).value;
      AloneKeepsAnswers(Origin(s.table, s.clock, s.cfg, s.tasks[tid]), past);
      AloneIsRun(s, tid, before);
      var steps := Advances(tid, at.answers);
      assert steps[..|steps| - 1] == Advances(tid, past);
      AdvanceAlone(s, tid, before, at);
    }
  }

  lemma AloneKeepsAnswers(o: Origin, answers: seq<Answer>)
    ensures Alone(o, answers).Some? ==> Alone(o, answers).value.answers == answers
  {
  }

  lemma AdvanceAlone(s: Sys, tid: nat, before: Stage, at: Stage)
    requires tid in s.tasks && at.answers != [] && before.next.Some?
    requires var e := TaskStep(before.table, s.clock, s.cfg, before.next.value, at.answers[|at.answers| - 1]);
             e.Some? && at == Stage(at.answers, e.value.table, e.value.next, Append(before.log, e.value.event))
    ensures Next(SysAt(s, tid, before), Advance(tid, at.answers[|at.answers| - 1])) == Some(SysAt(s, tid, at))
  {
    hide TaskStep;
    var m := SysAt(s, tid, before);
    if at.next.Some? { assert m.tasks[tid := at.next.value] == s.tasks[tid := at.next.value]; }
    else { assert m.tasks - {tid} == s.tasks - {tid}; }
    var e := TaskStep(before.table, s.clock, s.cfg, before.next.value, at.answers[|at.answers| - 1]).value;
    assert Append(s.log + before.log, e.event) == s.log + Append(before.log, e.event);
  }

  // One more step, for each kind of task.

  lemma Start(o: Origin) returns (at: Stage)
    ensures at == Stage([], o.table, Some(o.task), []) && Reached(o, at)
  {
    at := Stage([], o.table, Some(o.task), []);
  }

  lemma OneMore(o: Origin, s: Stage, a: Answer, e: Effect<Task>) returns (at: Stage)
    requires Reached(o, s) && s.next.Some? && TaskStep(s.table, o.clock, o.cfg, s.next.value, a) == Some(e)
    ensures at == Stage(s.answers + [a], e.table, e.next, Append(s.log, e.event)) && Reached(o, at)
  {
    at := Stage(s.answers + [a], e.table, e.next, Append(s.log, e.event));
    assert at.answers[..|s.answers|] == s.answers;
    hide TaskStep, Append;
  }

  lemma StepRequest(o: Origin, s: Stage, a: Answer) returns (at: Stage)
    requires Reached(o, s) && s.next.Some? && s.next.value.Request?
    requires RequestStep(s.table, o.clock, o.cfg, s.next.value.r, a).Some?
    ensures Reached(o, at)
    ensures var e := RequestStep(s.table, o.clock, o.cfg, s.next.value.r, a).value;
            at == Stage(s.answers + [a], e.table, if e.next.Some? then Some(Request(e.next.value)) else None,
                        Append(s.log, e.event))
  {
    hide Reached, RequestStep;
    var e := RequestStep(s.table, o.clock, o.cfg, s.next.value.r, a).value;
    at := OneMore(o, s, a, Effect(e.table, if e.next.Some? then Some(Request(e.next.value)) else None, e.event));
  }

  lemma StepDeposit(o: Origin, s: Stage, a: Answer) returns (at: Stage)
    requires Reached(o, s) && s.next.Some? && s.next.value.Deposit? && DepositStep(s.table, s.next.value.d, a).Some?
    ensures Reached(o, at)
    ensures var e := DepositStep(s.table, s.next.value.d, a).value;
            at == Stage(s.answers + [a], e.table, if e.next.Some? then Some(Deposit(e.next.value)) else None,
                        Append(s.log, e.event))
  {
    hide Reached, DepositStep;
    var e := DepositStep(s.table, s.next.value.d, a).value;
    at := OneMore(o, s, a, Effect(e.table, if e.next.Some? then Some(Deposit(e.next.value)) else None, e.event));
  }

  lemma StepComplete(o: Origin, s: Stage, a: Answer) returns (at: Stage)
    requires Reached(o, s) && s.next.Some? && s.next.value.Complete? && CompleteStep(s.table, s.next.value.c, a).Some?
    ensures Reached(o, at)
    ensures var e := CompleteStep(s.table, s.next.value.c, a).value;
            at == Stage(s.answers + [a], e.table, if e.next.Some? then Some(Complete(e.next.value)) else None,
                        Append(s.log, e.event))
  {
    hide Reached, CompleteStep;
    var e := CompleteStep(s.table, s.next.value.c, a).value;
    at := OneMore(o, s, a, Effect(e.table, if e.next.Some? then Some(Complete(e.next.value)) else None, e.event));
  }

  lemma StepFailure(o: Origin, s: Stage, a: Answer) returns (at: Stage)
    requires Reached(o, s) && s.next.Some? && s.next.value.Failure?
    requires FailureStep(s.table, o.clock, s.next.value.f, a).Some?
    ensures Reached(o, at)
    ensures var e := FailureStep(s.table, o.clock, s.next.value.f, a).value;
            at == Stage(s.answers + [a], e.table, if e.next.Some? then Some(Failure(e.next.value)) else None,
                        Append(s.log, e.event))
  {
    hide Reached, FailureStep;
    var e := FailureStep(s.table, o.clock, s.next.value.f, a).value;
    at := OneMore(o, s, a, Effect(e.table, if e.next.Some? then Some(Failure(e.next.value)) else None, e.event));
  }

  // ----- handle_offramp_request and request_offramp -----------------------------------------

  /** What request_offramp stores a row for: an invoice no row has, network and amounts that fit, a
      readable address, and an entry the chain accepted under a new id. */
  predicate Grants(t: Table, invoice: Invoice, amount: int, refund: Option<string>, networkOk: bool,
                   create: nat -> Submitted<(int, string)>) {
    && FoundByHash(t, invoice.paymentHash, None) && networkOk && AmountsAgree(invoice, amount) && refund.Some?
    && var k := FirstFinal(create, 0, SUBMIT_ATTEMPTS);
       k < SUBMIT_ATTEMPTS && create(k).Accepted? && create(k).value.0 !in t
  }

  /** The row it stores. */
  function Granted(now: int, cfg: Config, invoice: Invoice, amount: int, refund: string, createTx: string): Row {
    Row(invoice, invoice.paymentHash, amount, "", AwaitingDeposit, now, None, None, None, Some(createTx), refund,
        now + cfg.expiry)
  }

  /** handle_offramp_request after its input checks: a row is stored exactly when there is room under
      the cap and request_offramp grants it. */
  method HandleOfframpRequest(db: SwapDb, now: int, cfg: Config, invoice: Invoice, amount: int, refund: Option<string>,
                              networkOk: bool, create: nat -> Submitted<(int, string)>)
    returns (created: Option<int>, ghost at: Stage)
    modifies db`offramps
    ensures Reached(Origin(old(db.offramps), now, cfg, Request(RequestCount(invoice, amount, Text(refund)))), at)
    ensures at.table == db.offramps && (created.Some? ==> at.next.None?)
    ensures created.None? ==> db.offramps == old(db.offramps)
    ensures created.Some? <==>
              |Active(old(db.offramps))| < cfg.maxActive
              && Grants(old(db.offramps), invoice, amount, refund, networkOk, create)
    ensures created.Some? ==>
              var accepted := create(FirstFinal(create, 0, SUBMIT_ATTEMPTS)).value;
              && created.value == accepted.0 && created.value !in old(db.offramps)
              && db.offramps ==
                 old(db.offramps)[accepted.0 := Granted(now, cfg, invoice, amount, refund.value, accepted.1)]
              && at.log == [ChainCreated(accepted.0, now + cfg.expiry)]
  {
    hide Reached, Active, FirstFinal, AmountsAgree;
    ghost var o := Origin(db.offramps, now, cfg, Request(RequestCount(invoice, amount, Text(refund))));
    at := Start(o);
    var active := db.CountActiveOfframps();
    at := StepRequest(o, at, Proceed);
    if active >= cfg.maxActive { return None, at; }
    created, at := RequestOfframp(db, o, at, now, cfg, invoice, amount, refund, networkOk, create);
  }

  /** request_offramp: `refund` is the key hash of the caller's address, if that is readable. The
      expiry told to the chain is the one stored. A call refused for its network or its address just
      ends where it is. */
  method RequestOfframp(db: SwapDb, ghost o: Origin, ghost from: Stage, now: int, cfg: Config, invoice: Invoice,
                        amount: int, refund: Option<string>, networkOk: bool, create: nat -> Submitted<(int, string)>)
    returns (created: Option<int>, ghost at: Stage)
    requires Reached(o, from) && o.clock == now && o.cfg == cfg && from.table == db.offramps
    requires from.next == Some(Request(RequestCheck(invoice, amount, Text(refund))))
    modifies db`offramps
    ensures Reached(o, at) && at.table == db.offramps && (created.Some? ==> at.next.None?)
    ensures created.None? ==> db.offramps == old(db.offramps)
    ensures created.Some? <==> Grants(old(db.offramps), invoice, amount, refund, networkOk, create)
    ensures created.Some? ==>
              var accepted := create(FirstFinal(create, 0, SUBMIT_ATTEMPTS)).value;
              && created.value == accepted.0
              && db.offramps ==
                 old(db.offramps)[accepted.0 := Granted(now, cfg, invoice, amount, refund.value, accepted.1)]
              && at.log == from.log + [ChainCreated(accepted.0, now + cfg.expiry)]
  {
    AmountOkIff(invoice, amount);
    hide Reached, Retryable, FirstFinal, Accepts, AmountOk, AmountsAgree;
    at := from;
    var existing := db.GetOfframpByPaymentHash(invoice.paymentHash);
    if existing.None? && !networkOk { return None, at; }
    at := StepRequest(o, at, Selected(existing));
    if existing.Some? || !AmountOk(invoice, amount) || refund.None? { return None, at; }
    at := StepRequest(o, at, Proceed);
    var result, _, _ := SubmitWithRetry(SUBMIT_ATTEMPTS, SUBMIT_DELAY, create);
    if !result.Done? {
      at := StepRequest(o, at, ChainErr);
      return None, at;
    }
    var (id, createTx) := result.value;
    at := StepRequest(o, at, ChainOk(id, createTx));
    var ok := db.InsertOfframp(id, Granted(now, cfg, invoice, amount, refund.value, createTx));
    at := StepRequest(o, at, Proceed);
    created := if ok then Some(id) else None;
  }

  function Text(t: Option<string>): string { if t.Some? then t.value else "" }

  // ----- process_offramp_deposit ------------------------------------------------------------

  datatype Verification = Unverifiable | Absent | Present

  /** Another row already holds this deposit's transaction hash. */
  predicate UsedByOther(t: Table, id: int, tx: string) {
    tx != "" && exists other :: other in t && other != id && t[other].cbtcTxHash == tx
  }

  /** What the Lightning node is asked to pay for a row, if its amounts agree. */
  function Payable(row: Row): Option<nat> {
    var required := Amounts.CbtcToMsat(row.amountCbtc);
    if required.None? then None else Amounts.SelectAmount(row.bolt11.amountMsat, required)
  }

  /** A row can be paid exactly when its amounts agree, and then 1000 msat per unit. */
  lemma PayableIff(row: Row)
    ensures Payable(row).Some? <==> AmountsAgree(row.bolt11, row.amountCbtc)
    ensures Payable(row).Some? ==> Payable(row).value == 1000 * row.amountCbtc
  {
    AmountOkIff(row.bolt11, row.amountCbtc);
  }

  /** What becomes of a row that is claimed for a deposit. A row whose amount cannot be converted is
      left in PayingLightning, as nothing is written after that check. */
  function Deposited(row: Row, tx: string, verification: Verification, started: bool): Row {
    match verification
    case Unverifiable => row.(status := AwaitingDeposit)
    case Absent => row.(status := AwaitingDeposit, errorMessage := Some("cBTC not received at operator address"))
    case Present =>
      var paying := row.(cbtcTxHash := tx, status := PayingLightning);
      if Amounts.CbtcToMsat(row.amountCbtc).None? || (Payable(row).Some? && started) then paying
      else paying.(status := Failed, errorMessage := Some("Lightning payment initiation failed"))
  }

  /** process_offramp_deposit: a row that awaits its deposit becomes the deposited one if no other row
      holds the transaction, and stays if another row does and this one does not; nothing else
      changes. The answer is yes exactly when the row was claimed, the deposit is there, the amounts
      agree and the payment was started. */
  method ProcessOfframpDeposit(db: SwapDb, id: int, tx: string, verification: Verification, started: bool)
    returns (ok: bool, claimed: bool, ghost at: Stage)
    modifies db`offramps
    ensures Reached(Origin(old(db.offramps), 0, NO_LIMITS, Deposit(DepositRead(id, tx))), at)
    ensures at.table == db.offramps && at.next.None?
    ensures claimed ==> Is(old(db.offramps), id, AwaitingDeposit)
    ensures claimed ==> UsedByOther(old(db.offramps), id, tx) ==> old(db.offramps)[id].cbtcTxHash == tx
    ensures Is(old(db.offramps), id, AwaitingDeposit) && !UsedByOther(old(db.offramps), id, tx) ==> claimed
    ensures !claimed ==> !ok && db.offramps == old(db.offramps) && at.log == []
    ensures claimed ==>
              var row := old(db.offramps)[id];
              && db.offramps == old(db.offramps)[id := Deposited(row, tx, verification, started)]
              && (ok <==> verification.Present? && started && Payable(row).Some?)
              && (ok ==> at.log == [DepositVerified(id, tx, row.amountCbtc), EnteredPaying(id),
                                    PaymentStarted(id, Payable(row).value, tx)])
              && (!verification.Present? ==> at.log == [])
  {
    hide Reached, Payable, Deposited;
    ghost var o := Origin(db.offramps, 0, NO_LIMITS, Deposit(DepositRead(id, tx)));
    at := Start(o);
    claimed := false;
    var mapping := db.GetOfframpById(id);
    at := StepDeposit(o, at, Proceed);
    if mapping.None? { return false, false, at; }

    var existing := db.GetOfframpByCbtcTx(tx);
    at := StepDeposit(o, at, Selected(existing));
    if existing.Some? && existing.value != id { return false, false, at; }

    claimed := db.TransitionOfframpStatus(id, AwaitingDeposit, PendingVerification);
    at := StepDeposit(o, at, Proceed);
    if !claimed { return false, false, at; }

    ok, at := VerifyAndPay(db, o, at, id, tx, mapping.value, verification, started);
  }

  /** process_offramp_deposit from the verification on. */
  method VerifyAndPay(db: SwapDb, ghost o: Origin, ghost from: Stage, id: int, tx: string, row: Row,
                      verification: Verification, started: bool)
    returns (ok: bool, ghost at: Stage)
    requires id in db.offramps && db.offramps[id] == row.(status := PendingVerification)
    requires row.status == AwaitingDeposit
    requires Reached(o, from) && from.table == db.offramps && from.next == Some(Deposit(DepositVerify(id, tx, row)))
    requires from.log == []
    modifies db`offramps
    ensures Reached(o, at) && at.table == db.offramps && at.next.None?
    ensures db.offramps == old(db.offramps)[id := Deposited(row, tx, verification, started)]
    ensures ok <==> verification.Present? && started && Payable(row).Some?
    ensures ok ==> at.log == [DepositVerified(id, tx, row.amountCbtc), EnteredPaying(id),
                              PaymentStarted(id, Payable(row).value, tx)]
    ensures !verification.Present? ==> at.log == []
  {
    hide Reached, Payable, Amounts.CbtcToMsat;
    if verification.Unverifiable? {
      at := StepDeposit(o, from, VerifyErr);
      db.UpdateOfframpStatus(id, AwaitingDeposit, None, None, None);
      at := StepDeposit(o, at, Proceed);
      return false, at;
    }
    if verification.Absent? {
      at := StepDeposit(o, from, NotReceived);
      db.UpdateOfframpStatus(id, AwaitingDeposit, None, None, Some("cBTC not received at operator address"));
      at := StepDeposit(o, at, Proceed);
      return false, at;
    }
    at := StepDeposit(o, from, Received);
    var confirmed := db.TransitionOfframpWithCbtcTx(id, tx, PendingVerification, PayingLightning);
    at := StepDeposit(o, at, Proceed);
    if !confirmed { return false, at; }
    ok, at := Pay(db, o, at, id, tx, row, started);
  }

  /** The end of process_offramp_deposit: pick the amount and have the Lightning node pay it. */
  method Pay(db: SwapDb, ghost o: Origin, ghost from: Stage, id: int, tx: string, row: Row, started: bool)
    returns (ok: bool, ghost at: Stage)
    requires id in db.offramps
    requires Reached(o, from) && from.table == db.offramps && from.next == Some(Deposit(DepositPay(id, tx, row)))
    modifies db`offramps
    ensures Reached(o, at) && at.table == db.offramps && at.next.None?
    ensures ok <==> started && Payable(row).Some?
    ensures ok ==> at.log == from.log + [PaymentStarted(id, Payable(row).value, tx)]
    ensures db.offramps ==
            if ok || Amounts.CbtcToMsat(row.amountCbtc).None? then old(db.offramps)
            else old(db.offramps)[id := old(db.offramps)[id].(
                   status := Failed, errorMessage := Some("Lightning payment initiation failed"))]
  {
    hide Reached;
    var required := Amounts.CbtcToMsat(row.amountCbtc);
    if required.None? {
      at := StepDeposit(o, from, Proceed);
      return false, at;
    }
    var msat := Amounts.SelectAmount(row.bolt11.amountMsat, required);
    at := StepDeposit(o, from, if msat.None? then Proceed else if started then Hit else Miss);
    if msat.Some? && started { return true, at; }
    db.UpdateOfframpStatus(id, Failed, None, None, Some("Lightning payment initiation failed"));
    at := StepDeposit(o, at, Proceed);
    ok := false;
  }

  // ----- complete_offramp -------------------------------------------------------------------

  /** The row of an offramp whose payment went out. */
  function Settled(row: Row, image: string, delivered: Option<string>): Row {
    var paid := row.(preimage := Some(image));
    if delivered.Some? then paid.(status := Completed, depositTxHash := delivered)
    else paid.(status := Failed, errorMessage := Some("FulfillOfframp failed"))
  }

  /** complete_offramp settles the row it claims, which was PayingLightning with this payment hash,
      and no other; the whole of it sleeps at most 23 * 10 + 2 * 15 seconds. */
  method CompleteOfframp(db: SwapDb, hash: string, image: string,
                         query: nat -> Queried<()>, submit: nat -> Submitted<string>)
    returns (claimed: Option<int>, slept: nat, ghost at: Stage)
    modifies db`offramps
    ensures slept <= 260
    ensures Reached(Origin(old(db.offramps), 0, NO_LIMITS, Complete(CompleteRead(hash, image))), at)
    ensures at.table == db.offramps && at.next.None?
    ensures claimed.None? ==> db.offramps == old(db.offramps) && at.log == [] && slept == 0
    ensures claimed.None? ==> exists found :: FoundByHash(old(db.offramps), hash, found) &&
                                              (found.Some? ==> old(db.offramps)[found.value].status != PayingLightning)
    ensures claimed.Some? ==>
              var id := claimed.value;
              && Is(old(db.offramps), id, PayingLightning) && old(db.offramps)[id].paymentHash == hash
              && db.offramps == old(db.offramps)[id := Settled(old(db.offramps)[id], image, Delivered(query, submit))]
  {
    hide Reached, Delivered;
    ghost var o := Origin(db.offramps, 0, NO_LIMITS, Complete(CompleteRead(hash, image)));
    at := Start(o);
    var mapping := db.GetOfframpByPaymentHash(hash);
    at := StepComplete(o, at, Selected(mapping));
    if mapping.None? { return None, 0, at; }
    var id := mapping.value;

    var won := db.TransitionOfframpStatus(id, PayingLightning, DepositingToPool);
    at := StepComplete(o, at, Proceed);
    if !won { return None, 0, at; }

    db.UpdateOfframpStatus(id, DepositingToPool, Some(image), None, None);
    at := StepComplete(o, at, Proceed);
    var tx;
    tx, slept, at := FulfillOnChain(db, o, at, id, query, submit);
    claimed := Some(id);
  }

  /** complete_offramp from the on-chain lookup on. */
  method FulfillOnChain(db: SwapDb, ghost o: Origin, ghost from: Stage, id: int,
                        query: nat -> Queried<()>, submit: nat -> Submitted<string>)
    returns (tx: Option<string>, slept: nat, ghost at: Stage)
    requires id in db.offramps
    requires Reached(o, from) && from.table == db.offramps && from.next == Some(Complete(CompleteQuery(id)))
    modifies db`offramps
    ensures slept <= 260 && tx == Delivered(query, submit)
    ensures Reached(o, at) && at.table == db.offramps && at.next.None?
    ensures db.offramps ==
            if tx.Some? then old(db.offramps)[id := old(db.offramps)[id].(status := Completed, depositTxHash := tx)]
            else old(db.offramps)[id := old(db.offramps)[id].(
                   status := Failed, errorMessage := Some("FulfillOfframp failed"))]
  {
    hide Reached, Delivered, Final, Accepts, FirstHit;
    var submits;
    tx, submits, slept := QueryThenSubmit(query, submit);
    at := StepComplete(o, from, if submits > 0 then Hit else Miss);
    if submits > 0 { at := Submitting(o, at, id, submit, 0, submits); }
    if tx.Some? {
      db.UpdateOfframpStatus(id, Completed, None, tx, None);
    } else {
      db.UpdateOfframpStatus(id, Failed, None, None, Some("FulfillOfframp failed"));
    }
    at := StepComplete(o, at, Proceed);
  }

  /** The attempts of the submit loop are the task's steps. */
  lemma {:induction false} Submitting(o: Origin, from: Stage, id: int, submit: nat -> Submitted<string>,
                                     attempt: nat, calls: nat)
    returns (at: Stage)
    requires attempt < calls <= 3 && Reached(o, from) && from.next == Some(Complete(CompleteSubmit(id, attempt)))
    requires forall i :: attempt <= i < calls - 1 ==> !Final(submit(i))
    requires Final(submit(calls - 1)) || calls == 3
    ensures Reached(o, at) && at.table == from.table
    ensures var last := submit(calls - 1);
            at.next == Some(Complete(if last.Accepted? then CompleteDone(id, last.value) else CompleteFail(id)))
    decreases calls - attempt
  {
    hide Reached, Retryable;
    var answer := submit(attempt);
    var a := if answer.Accepted? then TxOk(answer.value) else if Final(answer) then TxErr else TxRetryable;
    at := StepComplete(o, from, a);
    if attempt + 1 < calls { at := Submitting(o, at, id, submit, attempt + 1, calls); }
  }

  // ----- handle_offramp_payment_failed, cancel_offramp_on_chain, monitor_expired_offramps -----

  function Cancelled(row: Row, c: Cancel): Row {
    if !c.Sent? then row
    else
      var existing := if row.errorMessage.Some? then row.errorMessage.value else "";
      var message := if existing == "" then "cancelled on-chain: " + c.tx
                     else existing + "; cancelled on-chain: " + c.tx;
      row.(status := Failed, errorMessage := Some(message))
  }

  method CancelOfframpOnChain(db: SwapDb, ghost o: Origin, ghost from: Stage, id: int,
                              ghost cont: Continuation, cancel: Cancel)
    returns (ghost at: Stage)
    requires id in db.offramps
    requires Reached(o, from) && from.table == db.offramps && from.next == Some(Failure(CancelBuild(id, cont)))
    modifies db`offramps
    ensures Reached(o, at) && at.table == db.offramps
    ensures at.next == if Resume(cont).Some? then Some(Failure(Resume(cont).value)) else None
    ensures db.offramps == old(db.offramps)[id := Cancelled(old(db.offramps)[id], cancel)]
  {
    hide Reached;
    if cancel.NotBuilt? {
      at := StepFailure(o, from, TxErr);
      return;
    }
    at := StepFailure(o, from, TxOk(""));
    if cancel.NotSubmitted? {
      at := StepFailure(o, at, TxErr);
      return;
    }
    at := StepFailure(o, at, TxOk(cancel.tx));
    var mapping := db.GetOfframpById(id);
    at := StepFailure(o, at, Proceed);
    var existing := if mapping.Some? && mapping.value.errorMessage.Some? then mapping.value.errorMessage.value else "";
    var message := if existing == "" then "cancelled on-chain: " + cancel.tx
                   else existing + "; cancelled on-chain: " + cancel.tx;
    db.UpdateOfframpStatus(id, Failed, None, None, Some(message));
    at := StepFailure(o, at, Proceed);
  }

  /** What the operator answers to the refund of a failed payment. */
  datatype Refund = RefundFailed | Refunded(tx: string)

  function FailureNote(row: Row, refund: Refund): string {
    if row.refundAddress == "" then "Lightning payment failed, no refund address available"
    else if refund.Refunded? then "Lightning payment failed, cBTC refunded: " + refund.tx
    else "Lightning payment failed, refund failed"
  }

  /** handle_offramp_payment_failed: whatever the refund and the cancellation do, the one row with
      this payment ends Failed, and the reason comes first in its message. */
  method HandleOfframpPaymentFailed(db: SwapDb, hash: string, refund: Refund, cancel: Cancel)
    returns (found: Option<int>, ghost at: Stage)
    modifies db`offramps
    ensures Reached(Origin(old(db.offramps), 0, NO_LIMITS, Failure(FailedRead(hash))), at)
    ensures at.table == db.offramps && at.next.None?
    ensures FoundByHash(old(db.offramps), hash, found)
    ensures found.None? ==> db.offramps == old(db.offramps)
    ensures found.Some? ==>
              var row := old(db.offramps)[found.value];
              db.offramps == old(db.offramps)[found.value :=
                Cancelled(row.(status := Failed, errorMessage := Some(FailureNote(row, refund))), cancel)]
  {
    hide Reached, Cancelled, FailureNote, FoundByHash;
    ghost var o := Origin(db.offramps, 0, NO_LIMITS, Failure(FailedRead(hash)));
    found := db.GetOfframpByPaymentHash(hash);
    at := Refunding(o, hash, found, refund);
    if found.None? { return; }
    var mapping := db.GetOfframpById(found.value);
    var row := mapping.value;
    db.UpdateOfframpStatus(found.value, Failed, None, None, Some(FailureNote(row, refund)));
    at := StepFailure(o, at, Proceed);
    at := CancelOfframpOnChain(db, o, at, found.value, Return, cancel);
  }

  /** The lookup and the refund attempt, which write nothing. */
  lemma Refunding(o: Origin, hash: string, found: Option<int>, refund: Refund) returns (at: Stage)
    requires o.task == Failure(FailedRead(hash)) && FoundByHash(o.table, hash, found)
    ensures Reached(o, at) && at.table == o.table && (found.Some? ==> found.value in o.table)
    ensures found.None? ==> at.next.None?
    ensures found.Some? ==>
              var row := o.table[found.value];
              at.next == Some(Failure(FailedMark(found.value, row, FailureNote(row, refund))))
  {
    hide Reached;
    at := Start(o);
    at := StepFailure(o, at, Selected(found));
    if found.Some? && o.table[found.value].refundAddress != "" {
      at := StepFailure(o, at, if refund.Refunded? then TxOk(refund.tx) else TxErr);
    }
  }

  function MonitorPass(t: Table, now: int, cancels: int -> Cancel): Table {
    map id | id in t ::
      if (t[id].status == AwaitingDeposit || t[id].status == Failed) && 0 < t[id].expiresAt < now
      then Cancelled(t[id], cancels(id)) else t[id]
  }

  function Rest(t: Table, now: int, ids: seq<int>): map<int, Row> {
    map id | id in Expired(t, now) && id in ids :: t[id]
  }

  /** One round of monitor_expired_offramps: of the rows past their expiry it cancels each once,
      and touches no other. */
  method MonitorExpiredOfframps(db: SwapDb, now: int, cancels: int -> Cancel) returns (ghost at: Stage)
    modifies db`offramps
    ensures Reached(Origin(old(db.offramps), now, NO_LIMITS, Failure(MonitorTick)), at)
    ensures at.table == db.offramps && at.next == Some(Failure(MonitorTick))
    ensures db.offramps == MonitorPass(old(db.offramps), now, cancels)
  {
    hide Reached, FailureStep, Rest, Passed, MonitorPass, Cancelled, Lists, Expired;
    ghost var t := db.offramps;
    ghost var o := Origin(t, now, NO_LIMITS, Failure(MonitorTick));
    var ids := db.GetExpiredOfframps(now);
    at := MonitorSelects(t, now, ids, cancels);
    for i := 0 to |ids|
      invariant Reached(o, at) && at.table == db.offramps
      invariant at.next == Some(Failure(MonitorLoop(now, Rest(t, now, ids[i..]))))
      invariant Passed(t, db.offramps, cancels, ids[..i])
    {
      at := MonitorPicks(o, at, t, now, ids, i);
      PassOne(t, db.offramps, now, cancels, ids, i);
      at := CancelOfframpOnChain(db, o, at, ids[i], Monitor(now, Rest(t, now, ids[i + 1..])), cancels(ids[i]));
    }
    at := MonitorRests(o, at, t, now, ids);
    PassedAll(t, db.offramps, now, cancels, ids);
  }

  predicate Passed(t: Table, u: Table, cancels: int -> Cancel, done: seq<int>) {
    && u.Keys == t.Keys
    && forall id :: id in t ==> u[id] == if id in done then Cancelled(t[id], cancels(id)) else t[id]
  }

  lemma PassOne(t: Table, u: Table, now: int, cancels: int -> Cancel, ids: seq<int>, i: nat)
    requires i < |ids| && Lists(ids, Expired(t, now).Keys) && Passed(t, u, cancels, ids[..i])
    ensures ids[i] in u && Passed(t, u[ids[i] := Cancelled(u[ids[i]], cancels(ids[i]))], cancels, ids[..i + 1])
  {
    assert ids[i] in ids && ids[..i + 1] == ids[..i] + [ids[i]];
  }

  lemma PassedAll(t: Table, u: Table, now: int, cancels: int -> Cancel, ids: seq<int>)
    requires Lists(ids, Expired(t, now).Keys) && Passed(t, u, cancels, ids[..|ids|])
    ensures u == MonitorPass(t, now, cancels)
  {
    assert ids[..|ids|] == ids;
    var passed := MonitorPass(t, now, cancels);
    assert passed.Keys == t.Keys;
    forall id | id in t
      ensures u[id] == passed[id]
    {
      assert id in Expired(t, now).Keys <==> id in ids;
    }
    assert u == passed;
  }

  lemma MonitorSelects(t: Table, now: int, ids: seq<int>, cancels: int -> Cancel) returns (at: Stage)
    requires Lists(ids, Expired(t, now).Keys)
    ensures Reached(Origin(t, now, NO_LIMITS, Failure(MonitorTick)), at) && at.table == t
    ensures at.next == Some(Failure(MonitorLoop(now, Rest(t, now, ids[0..]))))
    ensures Passed(t, t, cancels, ids[..0])
  {
    hide Reached;
    var o := Origin(t, now, NO_LIMITS, Failure(MonitorTick));
    at := Start(o);
    at := StepFailure(o, at, Proceed);
    at := StepFailure(o, at, Proceed);
    assert ids[0..] == ids;
    assert Rest(t, now, ids) == Expired(t, now);
  }

  lemma MonitorPicks(o: Origin, from: Stage, t: Table, now: int, ids: seq<int>, i: nat) returns (at: Stage)
    requires i < |ids| && Lists(ids, Expired(t, now).Keys) && Reached(o, from)
    requires from.next == Some(Failure(MonitorLoop(now, Rest(t, now, ids[i..]))))
    ensures Reached(o, at) && at.table == from.table
    ensures at.next == Some(Failure(CancelBuild(ids[i], Monitor(now, Rest(t, now, ids[i + 1..])))))
  {
    hide Reached, Rest, Lists, Expired;
    NextExpired(t, now, ids, i);
    at := StepFailure(o, from, Pick(ids[i]));
  }

  lemma NextExpired(t: Table, now: int, ids: seq<int>, i: nat)
    requires i < |ids| && Lists(ids, Expired(t, now).Keys)
    ensures ids[i] in Rest(t, now, ids[i..])
    ensures Rest(t, now, ids[i..]) - {ids[i]} == Rest(t, now, ids[i + 1..])
  {
    assert ids[i..] == [ids[i]] + ids[i + 1..];
    assert ids[i] in ids;
  }

  lemma MonitorRests(o: Origin, from: Stage, t: Table, now: int, ids: seq<int>) returns (at: Stage)
    requires Reached(o, from) && from.next == Some(Failure(MonitorLoop(now, Rest(t, now, ids[|ids|..]))))
    ensures Reached(o, at) && at.table == from.table && at.next == Some(Failure(MonitorTick))
  {
    hide Reached;
    assert Rest(t, now, ids[|ids|..]) == map[];
    at := StepFailure(o, from, Proceed);
  }
}
