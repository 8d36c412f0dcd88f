/** How much the relay pays out against the cBTC deposits it has verified. */
module OfframpSolvency {
  import opened Common
  import opened Sums
  import opened OfframpTable
  import opened OfframpProtocol
  import opened OfframpSafety
  import opened OfframpTheorems
  import Amounts

  /** Total millisatoshis handed to the Lightning node. */
  function Paid(log: seq<Event>): nat {
    if log == [] then 0
    else
      var e := log[|log| - 1];
      Paid(log[..|log| - 1]) + if e.PaymentStarted? then e.msat else 0
  }

  function PaidIds(log: seq<Event>): set<int> { set e | e in log && e.PaymentStarted? :: e.id }
  function PaidTxs(log: seq<Event>): set<string> { set e | e in log && e.PaymentStarted? :: e.tx }
  function VerifiedIds(log: seq<Event>): set<int> { set e | e in log && e.DepositVerified? :: e.id }
  function VerifiedTxs(log: seq<Event>): set<string> { set e | e in log && e.DepositVerified? :: e.tx }

  function AmountIn(t: Table): int -> nat {
    id => if id in t && t[id].amountCbtc >= 0 then t[id].amountCbtc else 0
  }

  /** The payment of an offramp is its amount, against the transaction stored in its row. */
  predicate Fitting(t: Table, e: Event) {
    e.PaymentStarted? ==>
      && e.id in t
      && t[e.id].amountCbtc >= 0
      && e.msat == 1000 * t[e.id].amountCbtc
      && e.tx == t[e.id].cbtcTxHash != ""
  }

  ghost predicate Accounts(s: Sys) {
    && (forall e :: e in s.log ==> Fitting(s.table, e))
    && Paid(s.log) == 1000 * Sum(PaidIds(s.log), AmountIn(s.table))
  }

  function EventOf(s: Sys, step: Step): Option<Event>
    requires Next(s, step).Some?
  {
    match step
    case Advance(tid, a) => TaskStep(s.table, s.clock, s.cfg, s.tasks[tid], a).value.event
    case Recover(a) => RecoveryStep(s.table, s.phase.rec, a).value.event
    case _ => None
  }

  lemma LogOf(s: Sys, step: Step)
    requires Next(s, step).Some?
    ensures Next(s, step).value.log == Append(s.log, EventOf(s, step))
  {
    hide TaskStep, RecoveryStep;
  }

  lemma {:induction false} StartedIds(log: seq<Event>, id: int)
    ensures id in PaidIds(log) <==> Count(log, Started, id) > 0
  {
    if log != [] {
      var e := log[|log| - 1];
      StartedIds(log[..|log| - 1], id);
      PaidAppend(log[..|log| - 1], e);
      assert log == log[..|log| - 1] + [e];
    }
  }

  lemma PaidAppend(log: seq<Event>, e: Event)
    ensures Paid(log + [e]) == Paid(log) + if e.PaymentStarted? then e.msat else 0
    ensures PaidIds(log + [e]) == PaidIds(log) + if e.PaymentStarted? then {e.id} else {}
    ensures PaidTxs(log + [e]) == PaidTxs(log) + if e.PaymentStarted? then {e.tx} else {}
  {
    assert (log + [e])[..|log|] == log;
    assert forall x :: x in log + [e] <==> x in log || x == e;
  }

  predicate NoPayment(e: Option<Event>) { e.Some? ==> !e.value.PaymentStarted? }

  lemma RequestNeverPays(t: Table, clock: int, cfg: Config, r: RequestTask, a: Answer)
    ensures RequestStep(t, clock, cfg, r, a).Some? ==> NoPayment(RequestStep(t, clock, cfg, r, a).value.event)
  {
    hide FoundByHash, AmountOk;
  }

  lemma CompleteNeverPays(t: Table, c: CompleteTask, a: Answer)
    ensures CompleteStep(t, c, a).Some? ==> NoPayment(CompleteStep(t, c, a).value.event)
  {
    hide Is, FoundByHash, Update, Transition;
  }

  lemma RecoveryNeverPays(t: Table, rec: Recovery, a: Answer)
    ensures RecoveryStep(t, rec, a).Some? ==> NoPayment(RecoveryStep(t, rec, a).value.event)
  {
    hide Is, Update, Transition, ByStatus;
  }

  lemma FailureNeverPays(t: Table, clock: int, f: FailureTask, a: Answer)
    ensures FailureStep(t, clock, f, a).Some? ==> NoPayment(FailureStep(t, clock, f, a).value.event)
  {
    hide FoundByHash, Expired, Update;
  }

  lemma OnlyPayPays(t: Table, d: DepositTask, a: Answer)
    requires DepositStep(t, d, a).Some? && !d.DepositPay?
    ensures NoPayment(DepositStep(t, d, a).value.event)
  {
    hide Is, FoundByTx, Update, Transition, TransitionWithTx;
  }

  /** Only the last step of process_offramp_deposit pays. */
  lemma OnlyDepositPays(s: Sys, step: Step)
    requires Next(s, step).Some? && !NoPayment(EventOf(s, step))
    ensures step.Advance? && s.tasks[step.tid].Deposit? && s.tasks[step.tid].d.DepositPay?
  {
    hide RequestStep, DepositStep, CompleteStep, FailureStep, RecoveryStep;
    match step
    case Recover(a) => RecoveryNeverPays(s.table, s.phase.rec, a);
    case Advance(tid, a) =>
      match s.tasks[tid] {
        case Request(r) => RequestNeverPays(s.table, s.clock, s.cfg, r, a);
        case Deposit(d) => if !d.DepositPay? { OnlyPayPays(s.table, d, a); }
        case Complete(c) => CompleteNeverPays(s.table, c, a);
        case Failure(f) => FailureNeverPays(s.table, s.clock, f, a);
      }
    case _ =>
  }

  lemma PayFits(t: Table, d: DepositTask, a: Answer, v: View)
    requires DepositStep(t, d, a).Some? && d.DepositPay? && !a.Proceed?
    requires RowOk(v) && DepositOk(v, d) && v.row == Lookup(t, d.id)
    ensures var e := DepositStep(t, d, a).value.event;
            e.Some? && e.value.PaymentStarted? && e.value.id == d.id && e.value.tx == d.tx && Fitting(t, e.value)
  {
  }

  /** A payment is only started for an offramp not paid before, and fits its row. */
  lemma PaymentDue(s: Sys, step: Step)
    requires Inv(s) && Next(s, step).Some? && !NoPayment(EventOf(s, step))
    ensures var e := EventOf(s, step).value;
            && Fitting(s.table, e) && e.id !in PaidIds(s.log)
            && step.Advance? && s.tasks[step.tid].Deposit?
            && s.tasks[step.tid].d.tx == e.tx && s.tasks[step.tid].d.id == e.id
  {
    OnlyDepositPays(s, step);
    var d := s.tasks[step.tid].d;
    var v := V(s, d.id);
    assert RowOk(v);
    assert TaskOk(v, s.tasks[step.tid]);
    assert v.row == Lookup(s.table, d.id) && Count(s.log, Started, d.id) == 0;
    StartedIds(s.log, d.id);
    hide Inv, Clash, ViewOf, PaidIds, RowOk;
    PayFits(s.table, d, step.a, v);
  }

  lemma AccountsKept(s: Sys, step: Step)
    requires Inv(s) && Accounts(s) && Next(s, step).Some?
    ensures Accounts(Next(s, step).value)
  {
    hide Inv, Accounts, Next, EventOf;
    LogOf(s, step);
    NextPersists(s, step);
    if !NoPayment(EventOf(s, step)) { PaymentDue(s, step); }
    AccountsGrow(s, Next(s, step).value, EventOf(s, step));
  }

  lemma AccountsGrow(s: Sys, s': Sys, e: Option<Event>)
    requires Accounts(s) && Persisted(s, s') && s'.log == Append(s.log, e)
    requires !NoPayment(e) ==> Fitting(s.table, e.value) && e.value.id !in PaidIds(s.log)
    ensures Accounts(s')
  {
    hide Paid, PaidTxs;
    forall x | x in s.log || e == Some(x) ensures Fitting(s'.table, x) {
      if x.PaymentStarted? {
        assert Fitting(s.table, x);
        assert Persists(Lookup(s.table, x.id), Lookup(s'.table, x.id));
      }
    }
    forall id | id in PaidIds(s.log) ensures AmountIn(s.table)(id) == AmountIn(s'.table)(id) {
      assert Persists(Lookup(s.table, id), Lookup(s'.table, id));
    }
    Congruent(PaidIds(s.log), AmountIn(s.table), AmountIn(s'.table));
    if e.Some? {
      PaidAppend(s.log, e.value);
      if e.value.PaymentStarted? { Insert(PaidIds(s.log), AmountIn(s'.table), e.value.id); }
      else { assert PaidIds(s'.log) == PaidIds(s.log); }
    }
  }

  lemma {:induction false} RunAccounts(s: Sys, steps: seq<Step>)
    requires Inv(s) && Accounts(s) && Run(s, steps).Some?
    ensures Accounts(Run(s, steps).value)
  {
    if steps != [] {
      hide Inv, Accounts, Next;
      RunAccounts(s, steps[..|steps| - 1]);
      RunKeeps(s, steps[..|steps| - 1]);
      AccountsKept(Run(s, steps[..|steps| - 1]).value, steps[|steps| - 1]);
    }
  }

  /** Solvency: what the relay pays is exactly 1000 msat per cBTC unit of the offramps it pays,
      all of them verified, so never more than the verified offramps are worth. */
  lemma Solvent(s: Sys)
    requires Reachable(s)
    ensures Paid(s.log) == 1000 * Sum(PaidIds(s.log), AmountIn(s.table))
    ensures PaidIds(s.log) <= VerifiedIds(s.log)
    ensures Paid(s.log) <= 1000 * Sum(VerifiedIds(s.log), AmountIn(s.table))
  {
    ReachableInv(s);
    var clock: int, cfg: Config :| Reaches(Init(clock, cfg), s);
    var steps :| Run(Init(clock, cfg), steps) == Some(s);
    InitHolds(clock, cfg);
    RunAccounts(Init(clock, cfg), steps);
    hide Inv, Run;
    PaidAreVerified(s);
    Monotone(PaidIds(s.log), VerifiedIds(s.log), AmountIn(s.table));
  }

  // ----- one payment per cBTC transaction ---------------------------------------------------

  predicate SameTx(task: Task, tx: string) { task.Deposit? && task.d.tx == tx }

  /** A deposit call for `tx` starts only while no call for another offramp with `tx` is running. */
  predicate Waits(s: Sys, step: Step) {
    step.HttpDeposit? ==>
      forall j :: j in s.tasks && SameTx(s.tasks[j], step.tx) ==> s.tasks[j].d.id == step.id
  }

  /** Deposit calls that name the same cBTC transaction are run one at a time. */
  predicate OneAtATime(s: Sys, steps: seq<Step>)
    requires Run(s, steps).Some?
  {
    steps == [] ||
    (OneAtATime(s, steps[..|steps| - 1]) && Waits(Run(s, steps[..|steps| - 1]).value, steps[|steps| - 1]))
  }

  /** Past the reuse check and not yet done with the row. */
  predicate Cleared(d: DepositTask) { d.DepositClaim? || Verifying(d) }

  predicate Unused(t: Table, id: int, tx: string) {
    forall x :: x in t && x != id ==> t[x].cbtcTxHash != tx
  }

  ghost predicate Distinct(s: Sys) {
    && (forall x, y :: x in s.table && y in s.table && s.table[x].cbtcTxHash == s.table[y].cbtcTxHash != "" ==> x == y)
    && (forall i :: i in s.tasks && s.tasks[i].Deposit? && Cleared(s.tasks[i].d) ==>
          Unused(s.table, s.tasks[i].d.id, s.tasks[i].d.tx))
    && (forall i, j :: i in s.tasks && j in s.tasks && s.tasks[i].Deposit? && SameTx(s.tasks[j], s.tasks[i].d.tx) ==>
          s.tasks[j].d.id == s.tasks[i].d.id)
  }

  /** `hash` is what the row held before, or was just confirmed by a deposit task. */
  predicate HashFrom(s: Sys, step: Step, id: int, hash: string) {
    || hash == ""
    || (id in s.table && hash == s.table[id].cbtcTxHash)
    || (step.Advance? && step.tid in s.tasks && s.tasks[step.tid].Deposit? && s.tasks[step.tid].d.DepositConfirm?
        && s.tasks[step.tid].d.id == id && s.tasks[step.tid].d.tx == hash)
  }

  lemma MovedHash(v: View, m: Move)
    requires Moved(v, m).row.Some? && !m.Confirmed? && (m.Inserted? ==> m.row.cbtcTxHash == "")
    ensures var hash := Moved(v, m).row.value.cbtcTxHash;
            hash == "" || (v.row.Some? && hash == v.row.value.cbtcTxHash)
  {
  }

  /** The cBTC hash of a row only changes when a deposit task confirms it. */
  lemma HashChange(s: Sys, step: Step, id: int)
    requires Next(s, step).Some? && id in Next(s, step).value.table
    ensures HashFrom(s, step, id, Next(s, step).value.table[id].cbtcTxHash)
  {
    hide TaskStep, RecoveryStep, Count, Deposits, Moved;
    match step
    case Advance(tid, a) =>
      StepIsMove(s, tid, a, id);
      if id == Target(s.tasks[tid]) {
        var m := MoveOf(s.table, s.tasks[tid], a);
        if m.Confirmed? { ConfirmedHash(V(s, id), m); }
        else { MovedHash(V(s, id), m); }
      }
    case Recover(a) =>
      RecoveryIsMove(s, a, id);
      if id == RecoveryTarget(s.phase.rec, a) { MovedHash(V(s, id), RecoveryMove(s.table, s.phase.rec, a)); }
    case _ =>
  }

  lemma ConfirmedHash(v: View, m: Move)
    requires Moved(v, m).row.Some? && m.Confirmed?
    ensures Moved(v, m).row.value.cbtcTxHash == m.tx
  {
  }

  /** What a deposit task looks like one step later. */
  lemma DepositMovesOn(t: Table, d: DepositTask, a: Answer)
    requires DepositStep(t, d, a).Some? && DepositStep(t, d, a).value.next.Some?
    ensures var next := DepositStep(t, d, a).value.next.value;
            && next.id == d.id && next.tx == d.tx
            && (Cleared(next) ==> Cleared(d) || (d.DepositReuse? && a.Selected? && FoundByTx(t, d.tx, a.found)
                                                && (a.found.Some? ==> a.found.value == d.id)))
  {
    hide Is, FoundByTx, Amounts.CbtcToMsat, Amounts.SelectAmount, Update, Transition, TransitionWithTx;
  }

  lemma DepositTaskLater(s: Sys, step: Step, i: nat)
    requires Next(s, step).Some? && i in Next(s, step).value.tasks && Next(s, step).value.tasks[i].Deposit?
    ensures var d := Next(s, step).value.tasks[i].d;
            if step == HttpDeposit(i, d.id, d.tx) then d.DepositRead?
            else
              && i in s.tasks && s.tasks[i].Deposit? && s.tasks[i].d.id == d.id && s.tasks[i].d.tx == d.tx
              && (Cleared(d) ==>
                    || Cleared(s.tasks[i].d)
                    || exists found :: FoundByTx(s.table, d.tx, found) && (found.Some? ==> found.value == d.id))
  {
    hide RequestStep, DepositStep, CompleteStep, FailureStep, RecoveryStep, FoundByTx;
    if step.Advance? && step.tid == i && s.tasks[i].Deposit? { DepositMovesOn(s.table, s.tasks[i].d, step.a); }
  }

  lemma DistinctRows(s: Sys, step: Step, x: int, y: int)
    requires Distinct(s) && Next(s, step).Some? && x in Next(s, step).value.table && y in Next(s, step).value.table
    requires Next(s, step).value.table[x].cbtcTxHash == Next(s, step).value.table[y].cbtcTxHash != ""
    ensures x == y
  {
    hide Next;
    HashChange(s, step, x);
    HashChange(s, step, y);
  }

  lemma DistinctTask(s: Sys, step: Step, i: nat)
    requires Distinct(s) && Next(s, step).Some?
    requires i in Next(s, step).value.tasks && Next(s, step).value.tasks[i].Deposit?
    requires Cleared(Next(s, step).value.tasks[i].d) && Next(s, step).value.tasks[i].d.tx != ""
    ensures Unused(Next(s, step).value.table, Next(s, step).value.tasks[i].d.id, Next(s, step).value.tasks[i].d.tx)
  {
    hide Next;
    DepositTaskLater(s, step, i);
    var d := Next(s, step).value.tasks[i].d;
    assert Unused(s.table, d.id, d.tx);
    forall x | x in Next(s, step).value.table && x != d.id ensures Next(s, step).value.table[x].cbtcTxHash != d.tx {
      HashChange(s, step, x);
    }
  }

  lemma DistinctPair(s: Sys, step: Step, i: nat, j: nat)
    requires Distinct(s) && Next(s, step).Some? && Waits(s, step)
    requires i in Next(s, step).value.tasks && j in Next(s, step).value.tasks && Next(s, step).value.tasks[i].Deposit?
    requires SameTx(Next(s, step).value.tasks[j], Next(s, step).value.tasks[i].d.tx)
    ensures Next(s, step).value.tasks[j].d.id == Next(s, step).value.tasks[i].d.id
  {
    hide Next, Unused, Cleared;
    DepositTaskLater(s, step, i);
    DepositTaskLater(s, step, j);
  }

  lemma DistinctKept(s: Sys, step: Step)
    requires Inv(s) && Distinct(s) && Next(s, step).Some? && Waits(s, step)
    ensures Distinct(Next(s, step).value)
  {
    var s' := Next(s, step).value;
    NextKeeps(s, step);
    forall i | i in s'.tasks && s'.tasks[i].Deposit? && Cleared(s'.tasks[i].d)
      ensures Unused(s'.table, s'.tasks[i].d.id, s'.tasks[i].d.tx)
    {
      assert TaskOk(V(s', Subject(s'.tasks[i])), s'.tasks[i]);
      DistinctTask(s, step, i);
    }
    hide Inv, Next, Cleared, Unused;
    forall x, y | x in s'.table && y in s'.table && s'.table[x].cbtcTxHash == s'.table[y].cbtcTxHash != ""
      ensures x == y
    {
      DistinctRows(s, step, x, y);
    }
    forall i, j | i in s'.tasks && j in s'.tasks && s'.tasks[i].Deposit? && SameTx(s'.tasks[j], s'.tasks[i].d.tx)
      ensures s'.tasks[j].d.id == s'.tasks[i].d.id
    {
      DistinctPair(s, step, i, j);
    }
  }

  /** How many payments were started against one cBTC transaction. */
  function PaymentsFor(log: seq<Event>, tx: string): nat {
    if log == [] then 0
    else
      var e := log[|log| - 1];
      PaymentsFor(log[..|log| - 1], tx) + if e.PaymentStarted? && e.tx == tx then 1 else 0
  }

  /** `worth(tx)` is at least every amount the operator has confirmed for `tx`. */
  predicate Truthful(log: seq<Event>, worth: string -> nat) {
    forall e :: e in log && e.DepositVerified? ==> e.amount <= worth(e.tx)
  }

  ghost predicate Backed(log: seq<Event>, worth: string -> nat) {
    && (forall tx :: PaymentsFor(log, tx) == if tx in PaidTxs(log) then 1 else 0)
    && (Truthful(log, worth) ==> Paid(log) <= 1000 * Sum(PaidTxs(log), worth))
  }

  lemma BackedGrows(log: seq<Event>, e: Event, worth: string -> nat)
    requires Backed(log, worth)
    requires e.PaymentStarted? ==>
               e.tx !in PaidTxs(log) && (Truthful(log, worth) ==> e.msat <= 1000 * worth(e.tx))
    ensures Backed(log + [e], worth)
  {
    assert (log + [e])[..|log|] == log;
    PaidAppend(log, e);
    if e.PaymentStarted? { Insert(PaidTxs(log), worth, e.tx); }
    else { assert PaidTxs(log + [e]) == PaidTxs(log); }
    assert Truthful(log + [e], worth) ==> Truthful(log, worth);
  }

  /** When deposit calls wait for each other, a payment is against a transaction not used before. */
  lemma FreshTx(s: Sys, step: Step, worth: string -> nat)
    requires Inv(s) && Accounts(s) && Distinct(s) && Next(s, step).Some? && !NoPayment(EventOf(s, step))
    ensures var e := EventOf(s, step).value;
            e.tx !in PaidTxs(s.log) && (Truthful(s.log, worth) ==> e.msat <= 1000 * worth(e.tx))
  {
    PaymentDue(s, step);
    var e := EventOf(s, step).value;
    assert RowOk(V(s, e.id));
    hide Inv, Next, EventOf;
    assert DepositVerified(e.id, e.tx, s.table[e.id].amountCbtc) in s.log;
    forall f | f in s.log && f.PaymentStarted? ensures f.tx != e.tx {
      assert Fitting(s.table, f);
    }
  }

  lemma {:induction false} RunBacked(s: Sys, steps: seq<Step>, worth: string -> nat)
    requires Inv(s) && Accounts(s) && Distinct(s) && Backed(s.log, worth)
    requires Run(s, steps).Some? && OneAtATime(s, steps)
    ensures Distinct(Run(s, steps).value) && Backed(Run(s, steps).value.log, worth)
  {
    if steps != [] {
      var before, step := Run(s, steps[..|steps| - 1]).value, steps[|steps| - 1];
      hide Inv, Accounts, Distinct, Next, EventOf, Backed, Waits;
      RunBacked(s, steps[..|steps| - 1], worth);
      RunKeeps(s, steps[..|steps| - 1]);
      RunAccounts(s, steps[..|steps| - 1]);
      DistinctKept(before, step);
      LogOf(before, step);
      if EventOf(before, step).Some? {
        if !NoPayment(EventOf(before, step)) { FreshTx(before, step, worth); }
        BackedGrows(before.log, EventOf(before, step).value, worth);
      }
    }
  }

  lemma PaidAreVerified(s: Sys)
    requires Inv(s) && Accounts(s)
    ensures PaidTxs(s.log) <= VerifiedTxs(s.log) && PaidIds(s.log) <= VerifiedIds(s.log)
  {
    forall e | e in s.log && e.PaymentStarted? ensures e.tx in VerifiedTxs(s.log) && e.id in VerifiedIds(s.log) {
      assert Fitting(s.table, e);
      assert RowOk(V(s, e.id));
      hide Inv, Count, Clash, TaskOk;
      assert DepositVerified(e.id, e.tx, s.table[e.id].amountCbtc) in s.log;
    }
  }

  lemma InitBacked(clock: int, cfg: Config, worth: string -> nat)
    ensures var init := Init(clock, cfg); Accounts(init) && Distinct(init) && Backed(init.log, worth)
  {
  }

  /** If deposit calls that name the same cBTC transaction are run one at a time, each transaction
      backs at most one payment, and all payments together are covered by the distinct verified
      transactions. */
  lemma CoveredByDistinctDeposits(clock: int, cfg: Config, steps: seq<Step>, worth: string -> nat)
    requires Run(Init(clock, cfg), steps).Some? && OneAtATime(Init(clock, cfg), steps)
    ensures var log := Run(Init(clock, cfg), steps).value.log;
            && (forall tx :: PaymentsFor(log, tx) <= 1)
            && (Truthful(log, worth) ==> Paid(log) <= 1000 * Sum(VerifiedTxs(log), worth))
  {
    hide Inv, Accounts, Distinct, Run, Truthful, OneAtATime, Init;
    var init := Init(clock, cfg);
    InitHolds(clock, cfg);
    InitBacked(clock, cfg, worth);
    RunKeeps(init, steps);
    RunAccounts(init, steps);
    RunBacked(init, steps, worth);
    PaidAreVerified(Run(init, steps).value);
    Monotone(PaidTxs(Run(init, steps).value.log), VerifiedTxs(Run(init, steps).value.log), worth);
  }
}
