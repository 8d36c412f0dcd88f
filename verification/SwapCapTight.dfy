/** The bound on active swaps is exact: `k` overlapping requests can fill a relay to `k - 1` past
    its cap. */
module SwapCapTight {
  import opened Common
  import opened Sizes
  import opened SwapTable
  import opened SwapProtocol
  import opened SwapCap

  /** Reached by a run that never has more than `k` request handlers in flight. */
  ghost predicate ReachesWithin(s: Sys, m: Sys, k: nat) {
    exists steps :: Run(s, steps) == Some(m) && NeverMore(s, steps, k)
  }

  lemma WithinStep(s: Sys, m: Sys, step: Step, k: nat)
    requires ReachesWithin(s, m, k) && Next(m, step).Some? && |InFlight(Next(m, step).value)| <= k
    ensures ReachesWithin(s, Next(m, step).value, k)
  {
    var steps :| Run(s, steps) == Some(m) && NeverMore(s, steps, k);
    hide Next, InFlight;
    assert (steps + [step])[..|steps|] == steps;
    assert Run(s, steps + [step]) == Next(m, step);
    assert NeverMore(s, steps + [step], k);
  }

  // ----- admitting and storing --------------------------------------------------------------

  const ADMITTED := Request(RequestClock(1, ""))

  function Range(a: nat, b: nat): (r: set<nat>)
    ensures (forall i: nat :: i in r <==> a <= i < b) && |r| == if a <= b then b - a else 0
  {
    if a >= b then {} else Range(a, b - 1) + {b - 1}
  }

  /** The requests in flight are those numbered from..to, all just admitted. */
  ghost predicate Waiting(m: Sys, from: nat, to: nat) {
    && m.phase == Serving && from <= to
    && InFlight(m) == Range(from, to)
    && (forall i :: from <= i < to ==> i in m.tasks && m.tasks[i] == ADMITTED)
  }

  lemma AdmitOne(s: Sys, m: Sys, from: nat, to: nat, k: nat)
    requires ReachesWithin(s, m, k) && Waiting(m, from, to) && to - from < k && to !in m.tasks
    requires |Active(m.table)| < m.cfg.maxActive
    ensures ReachesWithin(s, m.(tasks := m.tasks[to := ADMITTED]), k)
    ensures Waiting(m.(tasks := m.tasks[to := ADMITTED]), from, to + 1)
  {
    var counting := m.(tasks := m.tasks[to := Request(RequestCount(1, ""))]);
    var admitted := m.(tasks := m.tasks[to := ADMITTED]);
    hide ReachesWithin, Active, Range, InFlight, Next;
    OneMoreInFlight(m, to, RequestCount(1, ""));
    OneMoreInFlight(m, to, RequestClock(1, ""));
    OneMoreInRange(from, to);
    CountAdmits(m, to);
    WithinStep(s, m, HttpRequest(to, 1, ""), k);
    WithinStep(s, counting, Advance(to, Proceed), k);
  }

  lemma OneMoreInRange(from: nat, to: nat)
    requires from <= to
    ensures Range(from, to + 1) == Range(from, to) + {to} && |Range(from, to + 1)| == to + 1 - from
  {
  }

  lemma CountAdmits(m: Sys, tid: nat)
    requires m.phase == Serving && tid !in m.tasks && |Active(m.table)| < m.cfg.maxActive
    ensures var counting := m.(tasks := m.tasks[tid := Request(RequestCount(1, ""))]);
            && Next(m, HttpRequest(tid, 1, "")) == Some(counting)
            && Next(counting, Advance(tid, Proceed)) == Some(m.(tasks := m.tasks[tid := ADMITTED]))
  {
    hide Active;
    assert m.tasks[tid := Request(RequestCount(1, ""))][tid := ADMITTED] == m.tasks[tid := ADMITTED];
  }

  lemma OneMoreInFlight(m: Sys, tid: nat, r: RequestTask)
    ensures InFlight(m.(tasks := m.tasks[tid := Request(r)])) == InFlight(m) + {tid}
  {
  }

  lemma {:induction false} AdmitAll(s: Sys, m: Sys, from: nat, to: nat, left: nat, k: nat) returns (full: Sys)
    requires ReachesWithin(s, m, k) && Waiting(m, from, to) && from <= to && to + left == from + k
    requires |Active(m.table)| < m.cfg.maxActive && forall i :: i in m.tasks ==> i < to
    ensures ReachesWithin(s, full, k) && Waiting(full, from, from + k)
    ensures full.table == m.table && full.cfg == m.cfg
    decreases left
  {
    hide ReachesWithin, Waiting, Range, Active;
    full := m;
    if left > 0 {
      AdmitOne(s, m, from, to, k);
      full := AdmitAll(s, m.(tasks := m.tasks[to := ADMITTED]), from, to + 1, left - 1, k);
    }
  }

  /** One step of a request that stays in flight. */
  lemma RequestAdvances(s: Sys, m: Sys, tid: nat, r: RequestTask, a: Answer, h: History, next: RequestTask, k: nat)
    requires ReachesWithin(s, m, k) && tid in m.tasks && m.tasks[tid] == Request(r) && |InFlight(m)| <= k
    requires RequestStep(m.table, m.history, m.clock, m.cfg, r, a) == Some(Effect(m.table, Some(next), h))
    ensures var m' := m.(tasks := m.tasks[tid := Request(next)], history := h);
            ReachesWithin(s, m', k) && InFlight(m') == InFlight(m)
  {
    var m' := m.(tasks := m.tasks[tid := Request(next)], history := h);
    assert InFlight(m') == InFlight(m);
    hide ReachesWithin, RequestStep, InFlight;
    WithinStep(s, m, Advance(tid, a), k);
  }

  /** An admitted request is stored as one more active swap, however many there are by then. */
  lemma StoreOne(s: Sys, m: Sys, from: nat, to: nat, k: nat) returns (stored: Sys)
    requires ReachesWithin(s, m, k) && Waiting(m, from, to) && from < to <= from + k
    ensures ReachesWithin(s, stored, k) && Waiting(stored, from + 1, to)
    ensures |Active(stored.table)| == |Active(m.table)| + 1
  {
    hide ReachesWithin, Active, InFlight, Range, Next, RequestStep;
    var hash := FreshText(m.table.Keys);
    var insert := RequestInsert(1, "", 0, "c", hash, m.clock + m.cfg.expiry);
    assert |InFlight(m)| <= k && m.tasks[from] == ADMITTED;
    var ready := ReadyToStore(s, m, from, k, hash);
    OneMoreInFlight(m, from, insert);
    StoredWaits(m, ready, from, to, insert);
    stored := Stored(ready, from, insert);
    OneMoreActive(m.table, hash, NewRow(insert, m.clock));
    assert |InFlight(stored)| <= k;
    assert hash !in m.table;
    InsertStores(ready, from, insert);
    WithinStep(s, ready, Advance(from, Proceed), k);
  }

  function Stored(m: Sys, tid: nat, insert: RequestTask): Sys
    requires insert.RequestInsert?
  {
    m.(table := m.table[insert.hash := NewRow(insert, m.clock)], tasks := m.tasks - {tid})
  }

  lemma InsertStores(m: Sys, tid: nat, insert: RequestTask)
    requires insert.RequestInsert? && tid in m.tasks && m.tasks[tid] == Request(insert) && insert.hash !in m.table
    ensures Next(m, Advance(tid, Proceed)) == Some(Stored(m, tid, insert))
  {
  }

  lemma StoredWaits(m: Sys, ready: Sys, from: nat, to: nat, insert: RequestTask)
    requires Waiting(m, from, to) && from < to && insert.RequestInsert?
    requires ready == m.(tasks := m.tasks[from := Request(insert)], history := ready.history)
    ensures Waiting(Stored(ready, from, insert), from + 1, to)
  {
    var stored := Stored(ready, from, insert);
    assert InFlight(stored) == InFlight(m) - {from};
    hide InFlight;
    OneLessInRange(from, to);
    hide Range;
  }

  lemma OneLessInRange(from: nat, to: nat)
    requires from < to
    ensures Range(from + 1, to) == Range(from, to) - {from}
  {
  }

  lemma OneMoreActive(t: Table, hash: string, row: Row)
    requires hash !in t && row.status == Pending
    ensures |Active(t[hash := row])| == |Active(t)| + 1
  {
    assert Active(t[hash := row]) == Active(t) + {hash};
  }

  lemma ReadyToStore(s: Sys, m: Sys, tid: nat, k: nat, hash: string) returns (ready: Sys)
    requires ReachesWithin(s, m, k) && tid in m.tasks && m.tasks[tid] == ADMITTED && |InFlight(m)| <= k
    ensures ReachesWithin(s, ready, k)
    ensures var at := m.clock + m.cfg.expiry;
            ready == m.(tasks := m.tasks[tid := Request(RequestInsert(1, "", 0, "c", hash, at))],
                        history := m.history.(chain := m.history.chain + {(0, at)}))
  {
    var at := m.clock + m.cfg.expiry;
    var h := m.history.(chain := m.history.chain + {(0, at)});
    hide ReachesWithin, InFlight;
    var create := RequestCreate(1, "", at);
    RequestAdvances(s, m, tid, RequestClock(1, ""), Proceed, m.history, create, k);
    var m1 := m.(tasks := m.tasks[tid := Request(create)]);
    var invoice := RequestInvoice(1, "", 0, "c");
    RequestAdvances(s, m1, tid, create, ChainOk(0, "c"), h, invoice, k);
    var m2 := m.(tasks := m1.tasks[tid := Request(invoice)], history := h);
    var stamp := RequestStamp(1, "", 0, "c", hash);
    RequestAdvances(s, m2, tid, invoice, NewInvoice(hash), h, stamp, k);
    var m3 := m.(tasks := m2.tasks[tid := Request(stamp)], history := h);
    var insert := RequestInsert(1, "", 0, "c", hash, at);
    RequestAdvances(s, m3, tid, stamp, Proceed, h, insert, k);
    ready := m.(tasks := m3.tasks[tid := Request(insert)], history := h);
    assert ready.tasks == m.tasks[tid := Request(insert)];
  }

  lemma {:induction false} StoreAll(s: Sys, m: Sys, from: nat, left: nat, k: nat) returns (full: Sys)
    requires ReachesWithin(s, m, k) && Waiting(m, from, from + left) && left <= k
    ensures ReachesWithin(s, full, k) && |Active(full.table)| == |Active(m.table)| + left
    decreases left
  {
    hide ReachesWithin, Active, InFlight, Range, Waiting;
    full := m;
    if left > 0 {
      var stored := StoreOne(s, m, from, from + left, k);
      full := StoreAll(s, stored, from + 1, left - 1, k);
    }
  }

  /** A serving relay with one place left and no request in flight can be taken to `k - 1` active
      swaps past its cap with `k` requests at once, so the bound of ActiveSwapsBounded is exact. */
  lemma CapExceededByOverlap(s: Sys, k: nat)
    requires s.phase == Serving && InFlight(s) == {} && |Active(s.table)| == s.cfg.maxActive - 1
    ensures exists full :: ReachesWithin(s, full, k) && |Active(full.table)| == s.cfg.maxActive + k - 1
  {
    var base := FreshInt(s.tasks.Keys);
    forall i | i in s.tasks ensures i < base { assert i in s.tasks.Keys; }
    assert Range(base, base) == {};
    assert Waiting(s, base, base);
    assert Run(s, []) == Some(s) && NeverMore(s, [], k);
    assert ReachesWithin(s, s, k);
    hide ReachesWithin, Active, Waiting;
    var admitted := AdmitAll(s, s, base, base, k, k);
    var full := StoreAll(s, admitted, base, k, k);
  }
}
