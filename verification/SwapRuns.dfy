/** Runs built step by step: what the swap protocol can reach. */
module SwapRuns {
  import opened Common
  import opened SwapTable
  import opened SwapProtocol
  import opened SwapTheorems

  lemma ReachesSelf(s: Sys)
    ensures Reaches(s, s)
  {
    assert Run(s, []) == Some(s);
  }

  lemma {:induction false} RunConcat(s: Sys, a: seq<Step>, b: seq<Step>)
    requires Run(s, a).Some?
    ensures Run(s, a + b) == Run(Run(s, a).value, b)
  {
    if b == [] { assert a + b == a; }
    else {
      assert (a + b)[..|a + b| - 1] == a + b[..|b| - 1];
      RunConcat(s, a, b[..|b| - 1]);
    }
  }

  lemma ReachesTransitive(a: Sys, b: Sys, c: Sys)
    requires Reaches(a, b) && Reaches(b, c)
    ensures Reaches(a, c)
  {
    var p :| Run(a, p) == Some(b);
    var q :| Run(b, q) == Some(c);
    RunConcat(a, p, q);
  }

  lemma ReachesStep(s: Sys, m: Sys, step: Step)
    requires Reaches(s, m) && Next(m, step).Some?
    ensures Reaches(s, Next(m, step).value)
  {
    var steps :| Run(s, steps) == Some(m);
    hide Next;
    assert (steps + [step])[..|steps|] == steps;
    assert Run(s, steps + [step]) == Next(m, step);
  }

  function With(s: Sys, tid: nat, task: Task): Sys { s.(tasks := s.tasks[tid := task]) }

  /** One step of task `tid`, which stays alive. */
  lemma TaskReaches(init: Sys, s: Sys, tid: nat, task: Task, a: Answer, e: Effect<Task>)
    requires Reaches(init, With(s, tid, task))
    requires TaskStep(s.table, s.history, s.clock, s.cfg, task, a) == Some(e) && e.next.Some?
    ensures Reaches(init, With(s.(table := e.table, history := e.history), tid, e.next.value))
  {
    hide TaskStep, Reaches, Run;
    ReachesStep(init, With(s, tid, task), Advance(tid, a));
    assert With(s, tid, task).tasks[tid := e.next.value] == s.tasks[tid := e.next.value];
  }

  lemma ComesUp(clock: int, cfg: Config)
    ensures Reaches(Init(clock, cfg), Init(clock, cfg).(phase := Serving, tasks := map[0 := Monitor(MonitorTick)]))
  {
    var s := Init(clock, cfg);
    assert Run(s, []) == Some(s);
    assert ByStatus(s.table, Fulfilling) == {};
    hide Reaches, Run;
    ReachesStep(s, s, Recover(Proceed));
    ReachesStep(s, s.(phase := Recovering(RetryFulfilling({}))), Recover(Proceed));
    ReachesStep(s, s.(phase := Recovering(RecoveryDone)), StartMonitor(0));
    ReachesStep(s, s.(phase := MonitorUp, tasks := map[0 := Monitor(MonitorTick)]), StartApi);
  }

  function SwapRow(clock: int, cfg: Config): Row {
    Row(7, 1, "addr", Pending, clock, clock + cfg.expiry, None, Some("create"))
  }

  function Requested(clock: int, cfg: Config): Sys {
    Sys(map["h" := SwapRow(clock, cfg)], map[0 := Monitor(MonitorTick)], Serving, clock, cfg,
        NO_HISTORY.(chain := {(7, clock + cfg.expiry)}))
  }

  lemma RequestCreated(init: Sys, s: Sys)
    requires Reaches(init, s) && s.phase == Serving && 1 !in s.tasks && |Active(s.table)| < s.cfg.maxActive
    ensures Reaches(init, With(s.(history := s.history.(chain := s.history.chain + {(7, s.clock + s.cfg.expiry)})), 1,
                               Request(RequestInvoice(1, "addr", 7, "create"))))
  {
    hide Reaches, Run, Active;
    var create := RequestCreate(1, "addr", s.clock + s.cfg.expiry);
    var created := s.history.(chain := s.history.chain + {(7, s.clock + s.cfg.expiry)});
    ReachesStep(init, s, HttpRequest(1, 1, "addr"));
    TaskReaches(init, s, 1, Request(RequestCount(1, "addr")), Proceed,
                Effect(s.table, Some(Request(RequestClock(1, "addr"))), s.history));
    TaskReaches(init, s, 1, Request(RequestClock(1, "addr")), Proceed,
                Effect(s.table, Some(Request(create)), s.history));
    TaskReaches(init, s, 1, Request(create), ChainOk(7, "create"),
                Effect(s.table, Some(Request(RequestInvoice(1, "addr", 7, "create"))), created));
  }

  lemma RequestStored(init: Sys, s: Sys)
    requires Reaches(init, With(s, 1, Request(RequestInvoice(1, "addr", 7, "create"))))
    requires 1 !in s.tasks && s.table == map[]
    ensures Reaches(init, s.(table := map["h" := SwapRow(s.clock, s.cfg)]))
  {
    hide Reaches, Run, Active;
    var stamp := RequestStamp(1, "addr", 7, "create", "h");
    var insert := RequestInsert(1, "addr", 7, "create", "h", s.clock + s.cfg.expiry);
    TaskReaches(init, s, 1, Request(RequestInvoice(1, "addr", 7, "create")), NewInvoice("h"),
                Effect(s.table, Some(Request(stamp)), s.history));
    TaskReaches(init, s, 1, Request(stamp), Proceed, Effect(s.table, Some(Request(insert)), s.history));
    ReachesStep(init, With(s, 1, Request(insert)), Advance(1, Proceed));
    assert With(s, 1, Request(insert)).tasks - {1} == s.tasks;
    assert s.table["h" := SwapRow(s.clock, s.cfg)] == map["h" := SwapRow(s.clock, s.cfg)];
  }

  lemma RequestServed(clock: int, cfg: Config)
    requires cfg.maxActive > 0
    ensures Reaches(Init(clock, cfg), Requested(clock, cfg))
  {
    var s := Init(clock, cfg).(phase := Serving, tasks := map[0 := Monitor(MonitorTick)]);
    ComesUp(clock, cfg);
    assert Active(s.table) == {};
    hide Reaches, Run;
    RequestCreated(Init(clock, cfg), s);
    RequestStored(Init(clock, cfg), s.(history := s.history.(chain := s.history.chain + {(7, clock + cfg.expiry)})));
    assert s.history.chain + {(7, clock + cfg.expiry)} == {(7, clock + cfg.expiry)};
  }

  /** Only requests for 1 to 10,000,000,000 units get past the API, and only while it serves; payment events
      are taken at any time. */
  lemma InputChecks(s: Sys, tid: nat, amount: int, address: string)
    ensures Next(s, HttpRequest(tid, amount, address)).Some? <==>
            s.phase == Serving && tid !in s.tasks && 0 < amount <= 10_000_000_000
    ensures Next(s, PaymentClaimed(tid, address)).Some? <==> tid !in s.tasks
  {
  }

  /** The API serves only after the monitor was started, the monitor is started only after recovery is
      done, and after a crash recovery starts again from its scan with no task left. Time passes only by
      ticks, and a dropped task leaves nothing behind but what it wrote. */
  lemma StartupOrder(s: Sys, step: Step)
    requires Next(s, step).Some?
    ensures var s' := Next(s, step).value;
            && (s'.phase == Serving ==> s.phase == Serving || s.phase == MonitorUp)
            && (s'.phase == MonitorUp ==> s.phase == MonitorUp || s.phase == Recovering(RecoveryDone))
            && (s'.phase.Recovering? ==> s.phase.Recovering? || step == Crash)
            && s'.clock == s.clock + (if step.Tick? then step.elapsed else 0)
            && (step.Drop? ==> s' == s.(tasks := s.tasks - {step.tid}))
            && (step == Crash ==> s'.phase == Recovering(ScanFulfilling) && s'.tasks == map[] && s'.table == s.table)
  {
    hide TaskStep, RecoveryStep;
  }
}
