/** The cap on active swaps: the count is read before the swap is stored, so requests that overlap
    can push the number of active swaps past the cap, but only by as many as overlap. */
module SwapCap {
  import opened Sizes
  import opened SwapTable
  import opened SwapProtocol

  /** Request handlers in flight. */
  function InFlight(s: Sys): set<nat> { set i | i in s.tasks && s.tasks[i].Request? }

  /** Request handlers that have passed the cap check and not yet stored their swap. */
  function Admitted(s: Sys): set<nat> { set i | i in s.tasks && s.tasks[i].Request? && !s.tasks[i].r.RequestCount? }

  ghost predicate WithinCap(s: Sys, k: nat) {
    |Active(s.table)| + |Admitted(s)| <= s.cfg.maxActive + k - 1
  }

  /** No step makes an inactive swap active again; only storing an admitted one adds to them. */
  lemma ActiveOnlyByInsert(s: Sys, step: Step, hash: string)
    requires Next(s, step).Some? && hash in Active(Next(s, step).value.table) && hash !in Active(s.table)
    ensures step.Advance? && step.tid in s.tasks && s.tasks[step.tid].Request?
    ensures var r := s.tasks[step.tid].r;
            && r.RequestInsert? && r.hash == hash && Admitted(Next(s, step).value) == Admitted(s) - {step.tid}
  {
    assert step.Advance? && s.tasks[step.tid].Request?;
    assert s.tasks[step.tid].r.RequestInsert? && s.tasks[step.tid].r.hash == hash;
  }

  /** Only reading a count below the cap admits a request, and that leaves the swaps as they were. */
  lemma AdmittedOnlyBelowCap(s: Sys, step: Step, i: nat)
    requires Next(s, step).Some? && i in Admitted(Next(s, step).value) && i !in Admitted(s)
    ensures |Active(s.table)| < s.cfg.maxActive && Next(s, step).value.table == s.table
  {
    hide Active;
  }

  lemma CapKept(s: Sys, step: Step, k: nat)
    requires WithinCap(s, k) && Next(s, step).Some? && |InFlight(Next(s, step).value)| <= k
    ensures WithinCap(Next(s, step).value, k)
  {
    var s' := Next(s, step).value;
    assert s'.cfg == s.cfg by { hide TaskStep, RecoveryStep; }
    if i :| i in Admitted(s') && i !in Admitted(s) {
      AdmittedOnlyBelowCap(s, step, i);
      SubsetSize(Admitted(s'), InFlight(s'));
    } else if hash :| hash in Active(s'.table) && hash !in Active(s.table) {
      ActiveOnlyByInsert(s, step, hash);
      forall x | x in Active(s'.table) && x !in Active(s.table) ensures x == hash { ActiveOnlyByInsert(s, step, x); }
      hide Next, Active;
      SubsetSize(Active(s'.table), Active(s.table) + {hash});
    } else {
      hide Next, Active, Admitted;
      SubsetSize(Active(s'.table), Active(s.table));
      SubsetSize(Admitted(s'), Admitted(s));
    }
  }

  /** In every state of the run at most `k` request handlers are in flight. */
  predicate NeverMore(s: Sys, steps: seq<Step>, k: nat)
    requires Run(s, steps).Some?
  {
    |InFlight(Run(s, steps).value)| <= k && (steps == [] || NeverMore(s, steps[..|steps| - 1], k))
  }

  lemma {:induction false} RunWithinCap(s: Sys, steps: seq<Step>, k: nat)
    requires WithinCap(s, k) && Run(s, steps).Some? && NeverMore(s, steps, k)
    ensures WithinCap(Run(s, steps).value, k) && Run(s, steps).value.cfg == s.cfg
  {
    if steps != [] {
      var before, step := Run(s, steps[..|steps| - 1]).value, steps[|steps| - 1];
      RunWithinCap(s, steps[..|steps| - 1], k);
      assert Next(before, step).value.cfg == before.cfg by { hide TaskStep, RecoveryStep; }
      hide WithinCap, Next;
      CapKept(before, step, k);
    }
  }

  /** A relay started within the cap, with at most `k` request handlers at once, never has more
      than `k - 1` active swaps beyond it, in any interleaving and across crashes. */
  lemma ActiveSwapsBounded(s: Sys, steps: seq<Step>, k: nat)
    requires s.tasks == map[] && |Active(s.table)| <= s.cfg.maxActive && k >= 1
    requires Run(s, steps).Some? && NeverMore(s, steps, k)
    ensures |Active(Run(s, steps).value.table)| <= s.cfg.maxActive + k - 1
  {
    assert Admitted(s) == {};
    RunWithinCap(s, steps, k);
  }
}
