/** Failed offramps can become active again, past the cap: the bound on active offramps is reached for
    every number of request handlers and of reviving tasks. */
module OfframpCapTight {
  import opened Common
  import opened Sizes
  import opened OfframpTable
  import opened OfframpProtocol
  import opened OfframpCap
  import Amounts

  /** The run to build: `k` request handlers from `base` on, then one deposit call for each of `ids`, all
      naming `tx`, then the handler of payment-failed events. */
  datatype Plan = Plan(base: nat, k: nat, ids: seq<int>, tx: string) {
    function First(): nat { base + k }
    function Deposit(n: nat): nat { First() + n }
    function Event(): nat { First() + |ids| }
  }

  predicate Requesting(p: Plan, tid: nat) { p.base <= tid < p.First() }
  predicate Depositing(p: Plan, tid: nat) { p.First() <= tid < p.Event() }

  /** No request handler and no reviving task but those of the plan. */
  ghost predicate Only(s: Sys, p: Plan) {
    && (forall i :: i in s.tasks && s.tasks[i].Request? ==> Requesting(p, i))
    && (forall i :: i in s.tasks && Reviving(s.tasks[i]) ==> Depositing(p, i))
  }

  function Range(a: nat, b: nat): (r: set<nat>)
    ensures (forall i: nat :: i in r <==> a <= i < b) && |r| == if a <= b then b - a else 0
  {
    if a >= b then {} else Range(a, b - 1) + {b - 1}
  }

  lemma OnlyIsAtMost(s: Sys, p: Plan)
    requires Only(s, p)
    ensures AtMost(s, p.k, |p.ids|)
  {
    assert forall i :: i in InFlight(s) ==> i in Range(p.base, p.First());
    Included(InFlight(s), Range(p.base, p.First()));
    SubsetSize(InFlight(s), Range(p.base, p.First()));
    assert forall i :: i in Revivers(s) ==> i in Range(p.First(), p.Event());
    Included(Revivers(s), Range(p.First(), p.Event()));
    SubsetSize(Revivers(s), Range(p.First(), p.Event()));
  }

  /** Reached by a run that never has more requests and reviving tasks at once than the plan. */
  ghost predicate ReachesWithin(s: Sys, m: Sys, p: Plan) {
    exists steps :: Run(s, steps) == Some(m) && NeverMore(s, steps, p.k, |p.ids|)
  }

  ghost predicate Within(s: Sys, m: Sys, p: Plan) { ReachesWithin(s, m, p) && Only(m, p) }

  lemma WithinStep(s: Sys, m: Sys, step: Step, p: Plan)
    requires Within(s, m, p) && Next(m, step).Some? && Only(Next(m, step).value, p)
    ensures Within(s, Next(m, step).value, p)
  {
    OnlyIsAtMost(Next(m, step).value, p);
    var steps :| Run(s, steps) == Some(m) && NeverMore(s, steps, p.k, |p.ids|);
    hide Next, AtMost, Only;
    assert (steps + [step])[..|steps|] == steps;
    assert Run(s, steps + [step]) == Next(m, step);
    assert NeverMore(s, steps + [step], p.k, |p.ids|);
  }

  function Put(m: Sys, t: Table, log: seq<Event>, tid: nat, task: Task): Sys {
    m.(table := t, log := log, tasks := m.tasks[tid := task])
  }

  /** The plan has a place for the task under this number. */
  predicate Placed(p: Plan, tid: nat, task: Task) {
    (task.Request? ==> Requesting(p, tid)) && (Reviving(task) ==> Depositing(p, tid))
  }

  lemma PutKeeps(m: Sys, t: Table, log: seq<Event>, tid: nat, task: Task, p: Plan)
    requires Only(m, p) && Placed(p, tid, task)
    ensures Only(Put(m, t, log, tid, task), p)
  {
  }

  lemma RemoveKeeps(m: Sys, t: Table, tid: nat, p: Plan)
    requires Only(m, p)
    ensures Only(m.(table := t, tasks := m.tasks - {tid}), p)
  {
  }

  /** One step of task `tid`, which stays alive. */
  lemma TaskWithin(s: Sys, m: Sys, tid: nat, task: Task, a: Answer, e: Effect<Task>, p: Plan)
    requires Within(s, Put(m, m.table, m.log, tid, task), p)
    requires TaskStep(m.table, m.clock, m.cfg, task, a) == Some(e) && e.next.Some? && Placed(p, tid, e.next.value)
    ensures Within(s, Put(m, e.table, Append(m.log, e.event), tid, e.next.value), p)
  {
    hide TaskStep, ReachesWithin, Only, Placed;
    var before := Put(m, m.table, m.log, tid, task);
    var m' := Put(m, e.table, Append(m.log, e.event), tid, e.next.value);
    assert before.tasks[tid := e.next.value] == m'.tasks;
    PutKeeps(before, e.table, Append(m.log, e.event), tid, e.next.value, p);
    assert Put(before, e.table, Append(m.log, e.event), tid, e.next.value) == m';
    WithinStep(s, before, Advance(tid, a), p);
  }

  /** The last step of task `tid`. */
  lemma TaskEnds(s: Sys, m: Sys, tid: nat, task: Task, a: Answer, t: Table, p: Plan)
    requires Within(s, Put(m, m.table, m.log, tid, task), p)
    requires TaskStep(m.table, m.clock, m.cfg, task, a) == Some(Effect(t, None, None))
    ensures Within(s, m.(table := t, tasks := m.tasks - {tid}), p)
  {
    hide TaskStep, ReachesWithin, Only;
    var before := Put(m, m.table, m.log, tid, task);
    RemoveKeeps(before, t, tid, p);
    assert before.tasks - {tid} == m.tasks - {tid};
    WithinStep(s, before, Advance(tid, a), p);
  }

  lemma Spawned(s: Sys, m: Sys, step: Step, tid: nat, task: Task, p: Plan)
    requires Within(s, m, p) && Placed(p, tid, task) && Next(m, step) == Some(Put(m, m.table, m.log, tid, task))
    ensures Within(s, Put(m, m.table, m.log, tid, task), p)
  {
    PutKeeps(m, m.table, m.log, tid, task, p);
    hide Next, ReachesWithin, Only;
    WithinStep(s, m, step, p);
  }

  // ----- counting -----------------------------------------------------------------------------

  lemma OneMoreActive(t: Table, id: int, row: Row)
    requires id !in Active(t) && IsActive(row.status)
    ensures |Active(t[id := row])| == |Active(t)| + 1
  {
    Included(Active(t[id := row]), Active(t) + {id});
    Included(Active(t) + {id}, Active(t[id := row]));
    assert Active(t[id := row]) == Active(t) + {id};
  }

  lemma OneLessActive(t: Table, id: int, row: Row)
    requires id in Active(t) && !IsActive(row.status)
    ensures |Active(t[id := row])| == |Active(t)| - 1
  {
    Included(Active(t[id := row]), Active(t) - {id});
    Included(Active(t) - {id}, Active(t[id := row]));
    assert Active(t[id := row]) == Active(t) - {id};
  }

  lemma SameActive(t: Table, id: int, row: Row)
    requires id in Active(t) && IsActive(row.status)
    ensures |Active(t[id := row])| == |Active(t)|
  {
    Included(Active(t[id := row]), Active(t));
    Included(Active(t), Active(t[id := row]));
    assert Active(t[id := row]) == Active(t);
  }

  // ----- single handlers ----------------------------------------------------------------------

  /** A deposit call claims its row, and cannot verify the deposit. */
  lemma Claims(s: Sys, m: Sys, p: Plan, j: nat, a: int)
    requires Within(s, m, p) && m.phase == Serving && j !in m.tasks && Depositing(p, j)
    requires 0 < a && Is(m.table, a, AwaitingDeposit)
    requires 0 < |p.tx| <= 128 && FoundByTx(m.table, p.tx, None)
    ensures var t := m.table[a := m.table[a].(status := PendingVerification)];
            Within(s, Put(m, t, m.log, j, Deposit(DepositRevert(a, p.tx, m.table[a], None))), p)
  {
    hide Within, FoundByTx;
    var row, tx := m.table[a], p.tx;
    var t := m.table[a := row.(status := PendingVerification)];
    Spawned(s, m, HttpDeposit(j, a, tx), j, Deposit(DepositRead(a, tx)), p);
    TaskWithin(s, m, j, Deposit(DepositRead(a, tx)), Proceed,
               Effect(m.table, Some(Deposit(DepositReuse(a, tx, row))), None), p);
    TaskWithin(s, m, j, Deposit(DepositReuse(a, tx, row)), Selected(None),
               Effect(m.table, Some(Deposit(DepositClaim(a, tx, row))), None), p);
    TaskWithin(s, m, j, Deposit(DepositClaim(a, tx, row)), Proceed,
               Effect(t, Some(Deposit(DepositVerify(a, tx, row))), None), p);
    TaskWithin(s, m.(table := t), j, Deposit(DepositVerify(a, tx, row)), VerifyErr,
               Effect(t, Some(Deposit(DepositRevert(a, tx, row, None))), None), p);
  }

  /** A payment-failed event marks the row Failed whatever its status. */
  lemma Fails(s: Sys, m: Sys, p: Plan, tid: nat, a: int) returns (note: string)
    requires Within(s, m, p) && tid !in m.tasks && a in m.table
    ensures Within(s, m.(table := Update(m.table, a, Failed, None, None, Some(note))), p)
  {
    hide Within, Update, FailureStep;
    var row := m.table[a];
    Spawned(s, m, PaymentFailed(tid, row.paymentHash), tid, Failure(FailedRead(row.paymentHash)), p);
    note := Refuses(s, m, p, tid, a);
    var t := Update(m.table, a, Failed, None, None, Some(note));
    MarksAndEnds(m.table, t, m.clock, a, row, note);
    TaskWithin(s, m, tid, Failure(FailedMark(a, row, note)), Proceed,
               Effect(t, Some(Failure(CancelBuild(a, Return))), None), p);
    TaskEnds(s, m.(table := t), tid, Failure(CancelBuild(a, Return)), TxErr, t, p);
    assert m.tasks - {tid} == m.tasks;
  }

  lemma MarksAndEnds(t: Table, t': Table, clock: int, a: int, row: Row, note: string)
    requires t' == Update(t, a, Failed, None, None, Some(note))
    ensures FailureStep(t, clock, FailedMark(a, row, note), Proceed)
            == Some(Effect(t', Some(CancelBuild(a, Return)), None))
    ensures FailureStep(t', clock, CancelBuild(a, Return), TxErr) == Some(Effect(t', None, None))
  {
  }

  lemma Refuses(s: Sys, m: Sys, p: Plan, tid: nat, a: int) returns (note: string)
    requires a in m.table
    requires Within(s, Put(m, m.table, m.log, tid, Failure(FailedRead(m.table[a].paymentHash))), p)
    ensures Within(s, Put(m, m.table, m.log, tid, Failure(FailedMark(a, m.table[a], note))), p)
  {
    hide Within;
    var row := m.table[a];
    if row.refundAddress != "" {
      note := "Lightning payment failed, refund failed";
      TaskWithin(s, m, tid, Failure(FailedRead(row.paymentHash)), Selected(Some(a)),
                 Effect(m.table, Some(Failure(FailedRefund(a, row))), None), p);
      TaskWithin(s, m, tid, Failure(FailedRefund(a, row)), TxErr,
                 Effect(m.table, Some(Failure(FailedMark(a, row, note))), None), p);
    } else {
      note := "Lightning payment failed, no refund address available";
      TaskWithin(s, m, tid, Failure(FailedRead(row.paymentHash)), Selected(Some(a)),
                 Effect(m.table, Some(Failure(FailedMark(a, row, note))), None), p);
    }
  }

  /** A request past the count and the payment-hash check. */
  function Passed(hash: string): Task { Request(RequestClock(Invoice(hash, None), 1, "")) }

  lemma Admits(s: Sys, m: Sys, p: Plan, i: nat, hash: string)
    requires Within(s, m, p) && m.phase == Serving && i !in m.tasks && Requesting(p, i)
    requires |Active(m.table)| < m.cfg.maxActive && FoundByHash(m.table, hash, None)
    ensures Within(s, m.(tasks := m.tasks[i := Passed(hash)]), p)
  {
    hide Within, Active, FoundByHash;
    var invoice := Invoice(hash, None);
    Spawned(s, m, HttpRequest(i, invoice, 1, ""), i, Request(RequestCount(invoice, 1, "")), p);
    TaskWithin(s, m, i, Request(RequestCount(invoice, 1, "")), Proceed,
               Effect(m.table, Some(Request(RequestCheck(invoice, 1, ""))), None), p);
    TaskWithin(s, m, i, Request(RequestCheck(invoice, 1, "")), Selected(None),
               Effect(m.table, Some(Passed(hash)), None), p);
  }

  /** It is stored, whatever the count is by then. */
  lemma Stores(s: Sys, m: Sys, p: Plan, i: nat, hash: string) returns (m': Sys, id: int)
    requires Within(s, m, p) && i in m.tasks && m.tasks[i] == Passed(hash) && Requesting(p, i)
    ensures Within(s, m', p) && m'.tasks == m.tasks - {i} && m'.cfg == m.cfg && m'.phase == m.phase
    ensures id !in m.table && id in m'.table && m'.table == m.table[id := m'.table[id]]
    ensures m'.table[id].status == AwaitingDeposit && m'.table[id].cbtcTxHash == ""
    ensures |Active(m'.table)| == |Active(m.table)| + 1
  {
    hide Within, Active;
    id := FreshInt(m.table.Keys);
    assert id !in m.table.Keys;
    var invoice := Invoice(hash, None);
    var at := m.clock + m.cfg.expiry;
    var submit := RequestSubmit(invoice, 1, "", m.clock, at);
    var insert := RequestInsert(invoice, 1, "", m.clock, at, id, "");
    assert Put(m, m.table, m.log, i, Passed(hash)) == m;
    TaskWithin(s, m, i, Passed(hash), Proceed, Effect(m.table, Some(Request(submit)), None), p);
    TaskWithin(s, m, i, Request(submit), ChainOk(id, ""),
               Effect(m.table, Some(Request(insert)), Some(ChainCreated(id, at))), p);
    var created := m.(log := m.log + [ChainCreated(id, at)]);
    var t := m.table[id := NewRow(insert)];
    TaskEnds(s, created, i, Request(insert), Proceed, t, p);
    m' := created.(table := t, tasks := created.tasks - {i});
    NewIsActive(m.table, id, NewRow(insert));
  }

  lemma NewIsActive(t: Table, id: int, row: Row)
    requires id !in t && IsActive(row.status)
    ensures |Active(t[id := row])| == |Active(t)| + 1
  {
    OneMoreActive(t, id, row);
  }

  // ----- all deposit calls --------------------------------------------------------------------

  /** The first `n` ids are held by a deposit call and Failed. */
  ghost predicate HeldFirst(m: Sys, p: Plan, n: nat) {
    && n <= |p.ids|
    && (forall i :: 0 <= i < n ==> HeldBy(m, p, i) && Is(m.table, p.ids[i], Failed))
  }

  predicate HeldBy(m: Sys, p: Plan, i: nat)
    requires i < |p.ids|
  {
    && p.Deposit(i) in m.tasks && m.tasks[p.Deposit(i)].Deposit? && m.tasks[p.Deposit(i)].d.DepositRevert?
    && m.tasks[p.Deposit(i)].d.id == p.ids[i]
  }

  predicate AllDifferent(ids: seq<int>) { forall i, j :: 0 <= i < j < |ids| ==> ids[i] != ids[j] }

  /** The ids from `n` on still await their deposit, and the numbers from the n-th deposit call on are free. */
  ghost predicate FreeFrom(m: Sys, p: Plan, n: nat) {
    && n <= |p.ids|
    && (forall i :: n <= i < |p.ids| ==> Is(m.table, p.ids[i], AwaitingDeposit))
    && (forall tid :: tid in m.tasks ==> tid < p.base || p.First() <= tid < p.Deposit(n))
  }

  ghost predicate Usable(m: Sys, p: Plan) {
    && m.phase == Serving && AllDifferent(p.ids) && (forall i :: 0 <= i < |p.ids| ==> 0 < p.ids[i])
    && 0 < |p.tx| <= 128 && FoundByTx(m.table, p.tx, None)
  }

  lemma HoldNext(s: Sys, m: Sys, p: Plan, n: nat) returns (m': Sys)
    requires Within(s, m, p) && n < |p.ids| && HeldFirst(m, p, n) && FreeFrom(m, p, n) && Usable(m, p)
    ensures Within(s, m', p) && HeldFirst(m', p, n + 1) && FreeFrom(m', p, n + 1) && Usable(m', p)
    ensures m'.cfg == m.cfg && |Active(m'.table)| == |Active(m.table)| - 1
  {
    hide Within, Active;
    var a, j := p.ids[n], p.Deposit(n);
    var row := m.table[a];
    var t := m.table[a := row.(status := PendingVerification)];
    Claims(s, m, p, j, a);
    var held := Put(m, t, m.log, j, Deposit(DepositRevert(a, p.tx, row, None)));
    var note := Fails(s, held, p, p.Event() + 1, a);
    var t' := Update(t, a, Failed, None, None, Some(note));
    m' := held.(table := t');
    CountsDown(m.table, a, t[a], t'[a]);
    assert m'.table == m.table[a := t'[a]];
    HeldOneMore(m, m', p, n);
  }

  lemma HeldOneMore(m: Sys, m': Sys, p: Plan, n: nat)
    requires n < |p.ids| && HeldFirst(m, p, n) && FreeFrom(m, p, n) && Usable(m, p)
    requires p.ids[n] in m.table && p.ids[n] in m'.table && HeldBy(m', p, n) && m'.phase == m.phase
    requires m'.tasks == m.tasks[p.Deposit(n) := m'.tasks[p.Deposit(n)]]
    requires m'.table == m.table[p.ids[n] := m'.table[p.ids[n]]] && m'.table[p.ids[n]].status == Failed
    requires m'.table[p.ids[n]].cbtcTxHash == m.table[p.ids[n]].cbtcTxHash
    ensures HeldFirst(m', p, n + 1) && FreeFrom(m', p, n + 1) && Usable(m', p)
  {
    forall i | 0 <= i < n ensures HeldBy(m', p, i) && Is(m'.table, p.ids[i], Failed) {
      assert HeldBy(m, p, i) && p.Deposit(i) != p.Deposit(n);
    }
  }

  lemma CountsDown(t: Table, a: int, pending: Row, failed: Row)
    requires Is(t, a, AwaitingDeposit) && pending.status == PendingVerification && failed.status == Failed
    ensures |Active(t[a := pending][a := failed])| == |Active(t)| - 1
  {
    assert a in Active(t) && a in Active(t[a := pending]);
    SameActive(t, a, pending);
    OneLessActive(t[a := pending], a, failed);
  }

  lemma {:induction false} HoldAll(s: Sys, m: Sys, p: Plan, n: nat, left: nat) returns (m': Sys)
    requires Within(s, m, p) && HeldFirst(m, p, n) && FreeFrom(m, p, n) && Usable(m, p) && n + left == |p.ids|
    ensures Within(s, m', p) && HeldFirst(m', p, |p.ids|) && FreeFrom(m', p, |p.ids|) && Usable(m', p)
    ensures m'.cfg == m.cfg && |Active(m'.table)| == |Active(m.table)| - left
    decreases left
  {
    hide Within, HeldFirst, FreeFrom, Usable, Active;
    m' := m;
    if left > 0 {
      m' := HoldNext(s, m, p, n);
      m' := HoldAll(s, m', p, n + 1, left - 1);
    }
  }

  // ----- all requests -------------------------------------------------------------------------

  /** All ids are held, and the requests in flight are those numbered from..to, past their checks. */
  ghost predicate Waiting(m: Sys, p: Plan, hash: string, from: nat, to: nat) {
    && m.phase == Serving && HeldFirst(m, p, |p.ids|) && p.base <= from <= to <= p.First()
    && (forall i :: from <= i < to ==> i in m.tasks && m.tasks[i] == Passed(hash))
    && (forall i :: i in m.tasks && Requesting(p, i) ==> from <= i < to)
  }

  lemma AdmitNext(s: Sys, m: Sys, p: Plan, hash: string, from: nat, to: nat) returns (m': Sys)
    requires Within(s, m, p) && Waiting(m, p, hash, from, to) && to < p.First()
    requires |Active(m.table)| < m.cfg.maxActive && FoundByHash(m.table, hash, None)
    ensures Within(s, m', p) && Waiting(m', p, hash, from, to + 1) && m'.table == m.table && m'.cfg == m.cfg
  {
    hide Within, Active, FoundByHash;
    Admits(s, m, p, to, hash);
    m' := m.(tasks := m.tasks[to := Passed(hash)]);
    assert forall i :: 0 <= i < |p.ids| ==> HeldBy(m, p, i) && p.Deposit(i) != to;
  }

  lemma {:induction false} AdmitAll(s: Sys, m: Sys, p: Plan, hash: string, from: nat, to: nat, left: nat)
    returns (m': Sys)
    requires Within(s, m, p) && Waiting(m, p, hash, from, to) && to + left <= p.First()
    requires |Active(m.table)| < m.cfg.maxActive && FoundByHash(m.table, hash, None)
    ensures Within(s, m', p) && Waiting(m', p, hash, from, to + left) && m'.table == m.table && m'.cfg == m.cfg
    decreases left
  {
    hide Within, Waiting, Active, FoundByHash;
    m' := m;
    if left > 0 {
      m' := AdmitNext(s, m, p, hash, from, to);
      m' := AdmitAll(s, m', p, hash, from, to + 1, left - 1);
    }
  }

  lemma StoreNext(s: Sys, m: Sys, p: Plan, hash: string, from: nat, to: nat) returns (m': Sys)
    requires Within(s, m, p) && Waiting(m, p, hash, from, to) && from < to
    ensures Within(s, m', p) && Waiting(m', p, hash, from + 1, to) && m'.cfg == m.cfg
    ensures |Active(m'.table)| == |Active(m.table)| + 1
  {
    hide Within, Active;
    var id;
    m', id := Stores(s, m, p, from, hash);
    assert forall i :: 0 <= i < |p.ids| ==>
      HeldBy(m, p, i) && p.Deposit(i) != from && Is(m.table, p.ids[i], Failed) && p.ids[i] != id;
  }

  lemma {:induction false} StoreAll(s: Sys, m: Sys, p: Plan, hash: string, from: nat, left: nat) returns (m': Sys)
    requires Within(s, m, p) && Waiting(m, p, hash, from, from + left)
    ensures Within(s, m', p) && Waiting(m', p, hash, from + left, from + left) && m'.cfg == m.cfg
    ensures |Active(m'.table)| == |Active(m.table)| + left
    decreases left
  {
    hide Within, Waiting, Active;
    m' := m;
    if left > 0 {
      m' := StoreNext(s, m, p, hash, from, from + left);
      m' := StoreAll(s, m', p, hash, from + 1, left - 1);
    }
  }

  /** No request is in flight. */
  ghost predicate Quiet(m: Sys, p: Plan) {
    m.phase == Serving && HeldFirst(m, p, |p.ids|) && forall i :: i in m.tasks ==> !Requesting(p, i)
  }

  lemma QuietWaits(m: Sys, p: Plan, hash: string)
    requires Quiet(m, p)
    ensures Waiting(m, p, hash, p.base, p.base)
  {
  }

  lemma WaitsQuiet(m: Sys, p: Plan, hash: string, from: nat)
    requires Waiting(m, p, hash, from, from)
    ensures Quiet(m, p)
  {
  }

  /** A batch of requests, all admitted before the first is stored. */
  lemma Batch(s: Sys, m: Sys, p: Plan, n: nat) returns (m': Sys)
    requires Within(s, m, p) && Quiet(m, p) && n <= p.k && |Active(m.table)| < m.cfg.maxActive
    ensures Within(s, m', p) && Quiet(m', p) && m'.cfg == m.cfg && |Active(m'.table)| == |Active(m.table)| + n
  {
    hide Within, Quiet, Waiting, Active, FoundByHash;
    var hash := UnusedHash(m.table);
    QuietWaits(m, p, hash);
    m' := AdmitAll(s, m, p, hash, p.base, p.base, n);
    m' := StoreAll(s, m', p, hash, p.base, n);
    WaitsQuiet(m', p, hash, p.base + n);
  }

  lemma UnusedHash(t: Table) returns (hash: string)
    ensures FoundByHash(t, hash, None)
  {
    var used := set id | id in t :: t[id].paymentHash;
    hash := FreshText(used);
    forall id | id in t ensures t[id].paymentHash != hash { assert t[id].paymentHash in used; }
  }

  /** Requests served one after the other. */
  lemma {:induction false} Fill(s: Sys, m: Sys, p: Plan, n: nat) returns (m': Sys)
    requires Within(s, m, p) && Quiet(m, p) && p.k >= 1 && |Active(m.table)| + n <= m.cfg.maxActive
    ensures Within(s, m', p) && Quiet(m', p) && m'.cfg == m.cfg && |Active(m'.table)| == |Active(m.table)| + n
    decreases n
  {
    hide Within, Quiet, Active;
    m' := m;
    if n > 0 {
      m' := Batch(s, m, p, 1);
      m' := Fill(s, m', p, n - 1);
    }
  }

  // ----- all reverts --------------------------------------------------------------------------

  lemma ReviveLast(s: Sys, m: Sys, p: Plan, n: nat) returns (m': Sys)
    requires Within(s, m, p) && HeldFirst(m, p, n + 1) && AllDifferent(p.ids)
    ensures Within(s, m', p) && HeldFirst(m', p, n) && |Active(m'.table)| == |Active(m.table)| + 1
  {
    hide Within, Active;
    var a, j := p.ids[n], p.Deposit(n);
    assert HeldBy(m, p, n) && Is(m.table, a, Failed);
    var d := m.tasks[j].d;
    var t := Update(m.table, a, AwaitingDeposit, None, None, d.message);
    assert Put(m, m.table, m.log, j, m.tasks[j]) == m;
    TaskEnds(s, m, j, m.tasks[j], Proceed, t, p);
    m' := m.(table := t, tasks := m.tasks - {j});
    RevivedCounts(m.table, a, t[a]);
    assert forall i :: 0 <= i < n ==> HeldBy(m, p, i) && p.ids[i] != a && p.Deposit(i) != j;
  }

  lemma RevivedCounts(t: Table, a: int, awaiting: Row)
    requires Is(t, a, Failed) && awaiting.status == AwaitingDeposit
    ensures |Active(t[a := awaiting])| == |Active(t)| + 1
  {
    assert a !in Active(t);
    OneMoreActive(t, a, awaiting);
  }

  lemma {:induction false} ReviveAll(s: Sys, m: Sys, p: Plan, n: nat) returns (m': Sys)
    requires Within(s, m, p) && HeldFirst(m, p, n) && AllDifferent(p.ids)
    ensures Within(s, m', p) && |Active(m'.table)| == |Active(m.table)| + n
    decreases n
  {
    hide Within, HeldFirst, Active;
    m' := m;
    if n > 0 {
      m' := ReviveLast(s, m, p, n - 1);
      m' := ReviveAll(s, m', p, n - 1);
    }
  }

  // ----- the run ------------------------------------------------------------------------------

  /** From any serving state at the cap, with no request in flight and no reviving task, and for any
      choice of offramps that await their deposit: deposit calls claim them all, their payments are
      reported failed, requests take the places that leaves, `k` of them overlapping, and the reverts
      of the deposit calls make them active again. That is `k + d - 1` past the cap for `d` such
      offramps, the bound of ActiveOfframpsBounded. (With none, one place has to be free.) */
  lemma RevivalExceedsCap(s: Sys, k: nat, ids: seq<int>, tx: string)
    requires s.phase == Serving && InFlight(s) == {} && Revivers(s) == {} && k >= 1 && AllDifferent(ids)
    requires |Active(s.table)| == s.cfg.maxActive - (if ids == [] then 1 else 0)
    requires forall i :: 0 <= i < |ids| ==> 0 < ids[i] && Is(s.table, ids[i], AwaitingDeposit)
    requires 0 < |tx| <= 128 && FoundByTx(s.table, tx, None)
    ensures exists m, steps ::
              && Run(s, steps) == Some(m) && NeverMore(s, steps, k, |ids|)
              && |Active(m.table)| == s.cfg.maxActive + k + |ids| - 1
  {
    var base := FreshInt(s.tasks.Keys);
    var p := Plan(base, k, ids, tx);
    StartsWithin(s, p);
    var held := HoldAll(s, s, p, 0, |ids|);
    assert Quiet(held, p);
    hide Quiet, HeldFirst, FreeFrom, Active;
    var filled := Fill(s, held, p, if ids == [] then 0 else |ids| - 1);
    var full := Batch(s, filled, p, k);
    assert HeldFirst(full, p, |ids|) by { QuietHolds(full, p); }
    var revived := ReviveAll(s, full, p, |ids|);
    var steps :| Run(s, steps) == Some(revived) && NeverMore(s, steps, p.k, |p.ids|);
  }

  lemma QuietHolds(m: Sys, p: Plan)
    requires Quiet(m, p)
    ensures HeldFirst(m, p, |p.ids|)
  {
  }

  lemma StartsWithin(s: Sys, p: Plan)
    requires InFlight(s) == {} && Revivers(s) == {} && forall i :: i in s.tasks.Keys ==> i < p.base
    ensures Within(s, s, p)
  {
    assert Run(s, []) == Some(s);
    forall i | i in s.tasks ensures !s.tasks[i].Request? && !Reviving(s.tasks[i]) {
      assert i !in InFlight(s) && i !in Revivers(s);
    }
    assert AtMost(s, p.k, |p.ids|);
    assert NeverMore(s, [], p.k, |p.ids|);
  }
}
