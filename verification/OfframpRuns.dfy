/** Runs built step by step: what the offramp protocol can reach. */
module OfframpRuns {
  import opened Common
  import opened OfframpTable
  import opened OfframpProtocol
  import opened OfframpTheorems
  import Amounts

  lemma {:induction false} RunConcat(s: Sys, first: seq<Step>, second: seq<Step>)
    requires Run(s, first).Some?
    ensures Run(s, first + second) == Run(Run(s, first).value, second)
  {
    if second == [] {
      assert first + second == first;
    } else {
      hide Next;
      RunConcat(s, first, second[..|second| - 1]);
      assert (first + second)[..|first + second| - 1] == first + second[..|second| - 1];
    }
  }

  lemma ReachesStep(s: Sys, m: Sys, step: Step)
    requires Reaches(s, m) && Next(m, step).Some?
    ensures Reaches(s, Next(m, step).value)
  {
    var steps :| Run(s, steps) == Some(m);
    hide Next;
    assert (steps + [step])[..|steps|] == steps;
    assert Run(s, steps + [step]) == Next(m, step);
  }

  lemma ReachesSelf(s: Sys)
    ensures Reaches(s, s)
  {
    assert Run(s, []) == Some(s);
  }

  lemma ReachesTransitive(a: Sys, b: Sys, c: Sys)
    requires Reaches(a, b) && Reaches(b, c)
    ensures Reaches(a, c)
  {
    var first :| Run(a, first) == Some(b);
    var second :| Run(b, second) == Some(c);
    RunConcat(a, first, second);
  }

  function With(s: Sys, tid: nat, task: Task): Sys { s.(tasks := s.tasks[tid := task]) }

  /** One step of task `tid`, which stays alive. */
  lemma TaskReaches(init: Sys, s: Sys, tid: nat, task: Task, a: Answer, e: Effect<Task>)
    requires Reaches(init, With(s, tid, task)) && TaskStep(s.table, s.clock, s.cfg, task, a) == Some(e) && e.next.Some?
    ensures Reaches(init, With(s.(table := e.table, log := Append(s.log, e.event)), tid, e.next.value))
  {
    hide TaskStep, Reaches, Run;
    ReachesStep(init, With(s, tid, task), Advance(tid, a));
    assert With(s, tid, task).tasks[tid := e.next.value] == s.tasks[tid := e.next.value];
  }

  /** A relay with nothing to recover comes up. */
  lemma ComesUp(clock: int, cfg: Config)
    ensures Reaches(Init(clock, cfg), Init(clock, cfg).(phase := Serving, tasks := map[0 := Failure(MonitorTick)]))
  {
    var s := Init(clock, cfg);
    ReachesSelf(s);
    assert ByStatus(s.table, PendingVerification) == {} && ByStatus(s.table, PayingLightning) == {};
    assert ByStatus(s.table, DepositingToPool) == {};
    ReachesStep(s, s, Recover(Proceed));
    ReachesStep(s, s.(phase := Recovering(ResetVerifying({}))), Recover(Proceed));
    ReachesStep(s, s.(phase := Recovering(ScanPaying)), Recover(Proceed));
    ReachesStep(s, s.(phase := Recovering(FailPaying({}))), Recover(Proceed));
    ReachesStep(s, s.(phase := Recovering(ScanDepositing)), Recover(Proceed));
    ReachesStep(s, s.(phase := Recovering(RetryDepositing({}))), Recover(Proceed));
    ReachesStep(s, s.(phase := Recovering(RecoveryDone)), StartMonitor(0));
    ReachesStep(s, s.(phase := MonitorUp, tasks := map[0 := Failure(MonitorTick)]), StartApi);
  }

  /** A request gets past the count while there is room under the cap. */
  lemma RequestAdmitted(s: Sys, tid: nat, invoice: Invoice, amount: int)
    requires s.phase == Serving && tid !in s.tasks && 0 < amount <= 10_000_000_000
    requires |Active(s.table)| < s.cfg.maxActive
    ensures Reaches(s, With(s, tid, Request(RequestCheck(invoice, amount, "refund"))))
  {
    hide Reaches, Run, Active;
    ReachesSelf(s);
    ReachesStep(s, s, HttpRequest(tid, invoice, amount, "refund"));
    TaskReaches(s, s, tid, Request(RequestCount(invoice, amount, "refund")), Proceed,
                Effect(s.table, Some(Request(RequestCheck(invoice, amount, "refund"))), None));
  }

  function Inserting(s: Sys, id: int, invoice: Invoice, amount: int): (r: RequestTask)
    ensures r.RequestInsert?
  {
    RequestInsert(invoice, amount, "refund", s.clock, s.clock + s.cfg.expiry, id, "create")
  }

  function Requested(s: Sys, tid: nat, id: int, invoice: Invoice, amount: int): Sys {
    s.(table := s.table[id := NewRow(Inserting(s, id, invoice, amount))], tasks := s.tasks - {tid},
       log := s.log + [ChainCreated(id, s.clock + s.cfg.expiry)])
  }

  /** An admitted request for an unused invoice can be stored, whatever the count is by then. */
  lemma RequestStored(s: Sys, tid: nat, id: int, invoice: Invoice, amount: int)
    requires tid in s.tasks && s.tasks[tid] == Request(RequestCheck(invoice, amount, "refund")) && id !in s.table
    requires AmountOk(invoice, amount) && FoundByHash(s.table, invoice.paymentHash, None)
    ensures Reaches(s, Requested(s, tid, id, invoice, amount))
  {
    RequestInserting(s, tid, id, invoice, amount);
    hide AmountOk, FoundByHash, Reaches, Run;
    var insert := Inserting(s, id, invoice, amount);
    var s' := With(s.(log := s.log + [ChainCreated(id, s.clock + s.cfg.expiry)]), tid, Request(insert));
    ReachesStep(s, s', Advance(tid, Proceed));
    assert s'.tasks - {tid} == s.tasks - {tid};
  }

  lemma RequestInserting(s: Sys, tid: nat, id: int, invoice: Invoice, amount: int)
    requires tid in s.tasks && s.tasks[tid] == Request(RequestCheck(invoice, amount, "refund"))
    requires AmountOk(invoice, amount) && FoundByHash(s.table, invoice.paymentHash, None)
    ensures Reaches(s, With(s.(log := s.log + [ChainCreated(id, s.clock + s.cfg.expiry)]), tid,
                            Request(Inserting(s, id, invoice, amount))))
  {
    hide AmountOk, FoundByHash, Reaches, Run;
    var submit := RequestSubmit(invoice, amount, "refund", s.clock, s.clock + s.cfg.expiry);
    ReachesSelf(s);
    assert With(s, tid, s.tasks[tid]) == s;
    TaskReaches(s, s, tid, s.tasks[tid], Selected(None),
                Effect(s.table, Some(Request(RequestClock(invoice, amount, "refund"))), None));
    TaskReaches(s, s, tid, Request(RequestClock(invoice, amount, "refund")), Proceed,
                Effect(s.table, Some(Request(submit)), None));
    TaskReaches(s, s, tid, Request(submit), ChainOk(id, "create"),
                Effect(s.table, Some(Request(Inserting(s, id, invoice, amount))),
                       Some(ChainCreated(id, s.clock + s.cfg.expiry))));
  }

  /** A request for an unused invoice, which names the right amount or none, can be served while there is
      room under the cap. */
  lemma RequestServed(s: Sys, tid: nat, id: int, invoice: Invoice, amount: int)
    requires s.phase == Serving && tid !in s.tasks && id !in s.table && 0 < amount <= 10_000_000_000
    requires invoice.amountMsat == None || invoice.amountMsat == Some(1000 * amount)
    requires FoundByHash(s.table, invoice.paymentHash, None) && |Active(s.table)| < s.cfg.maxActive
    ensures Reaches(s, Requested(s, tid, id, invoice, amount))
  {
    AmountOkIff(invoice, amount);
    var admitted := With(s, tid, Request(RequestCheck(invoice, amount, "refund")));
    RequestAdmitted(s, tid, invoice, amount);
    RequestStored(admitted, tid, id, invoice, amount);
    assert Requested(admitted, tid, id, invoice, amount) == Requested(s, tid, id, invoice, amount) by {
      assert admitted.tasks - {tid} == s.tasks - {tid};
    }
    ReachesTransitive(s, admitted, Requested(s, tid, id, invoice, amount));
  }

  /** Only requests for 1 to 10,000,000,000 units, and deposits of a known kind, get past the API, and only
      while it serves; payment events are taken at any time. */
  lemma InputChecks(s: Sys, tid: nat, invoice: Invoice, amount: int, refund: string, id: int, tx: string)
    ensures Next(s, HttpRequest(tid, invoice, amount, refund)).Some? <==>
            s.phase == Serving && tid !in s.tasks && 0 < amount <= 10_000_000_000
    ensures Next(s, HttpDeposit(tid, id, tx)).Some? <==>
            s.phase == Serving && tid !in s.tasks && 0 < id && 0 < |tx| <= 128
    ensures Next(s, PaymentSent(tid, refund, tx)).Some? <==> tid !in s.tasks
    ensures Next(s, PaymentFailed(tid, refund)).Some? <==> tid !in s.tasks
  {
  }

  /** The API serves only after the monitor was started, the monitor is started only after recovery is
      done, and after a crash recovery starts again from its first scan with no task left. Time passes only by
      ticks, and a dropped task leaves nothing behind but what it wrote. */
  lemma StartupOrder(s: Sys, step: Step)
    requires Next(s, step).Some?
    ensures var s' := Next(s, step).value;
            && (s'.phase == Serving ==> s.phase == Serving || s.phase == MonitorUp)
            && (s'.phase == MonitorUp ==> s.phase == MonitorUp || s.phase == Recovering(RecoveryDone))
            && (s'.phase.Recovering? ==> s.phase.Recovering? || step == Crash)
            && s'.clock == s.clock + (if step.Tick? then step.elapsed else 0)
            && (step.Drop? ==> s' == s.(tasks := s.tasks - {step.tid}))
            && (step == Crash ==> s'.phase == Recovering(ScanVerifying) && s'.tasks == map[] && s'.table == s.table)
  {
    hide TaskStep, RecoveryStep;
  }
}
