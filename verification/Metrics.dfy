/** The metrics endpoint: GROUP BY counts of mapping.rs folded by `to_status_counts` of api.rs,
    against counting the rows directly. */
module Metrics {
  import ST = SwapTable
  import OT = OfframpTable

  datatype StatusCounts = StatusCounts(completed: nat, pending: nat, failed: nat, total: nat)

  predicate IsCompleted(status: string) { status == "completed" }
  predicate IsFailed(status: string) { status == "failed" || status == "expired" }
  predicate IsPending(status: string) { !IsCompleted(status) && !IsFailed(status) }

  /** Rows counted under the statuses that satisfy `p`. */
  function CountWhere(counts: seq<(string, nat)>, p: string -> bool): nat {
    if counts == [] then 0
    else
      var c := counts[|counts| - 1];
      CountWhere(counts[..|counts| - 1], p) + if p(c.0) then c.1 else 0
  }

  /** `to_status_counts` */
  method ToStatusCounts(counts: seq<(string, nat)>) returns (c: StatusCounts)
    ensures c.completed == CountWhere(counts, IsCompleted) && c.failed == CountWhere(counts, IsFailed)
    ensures c.pending == CountWhere(counts, IsPending) && c.total == CountWhere(counts, _ => true)
  {
    var completed, pending, failed, total := 0, 0, 0, 0;
    for i := 0 to |counts|
      invariant completed == CountWhere(counts[..i], IsCompleted) && failed == CountWhere(counts[..i], IsFailed)
      invariant pending == CountWhere(counts[..i], IsPending) && total == CountWhere(counts[..i], _ => true)
    {
      var (status, count) := counts[i];
      assert counts[..i + 1][..i] == counts[..i];
      total := total + count;
      if status == "completed" { completed := completed + count; }
      else if status == "failed" || status == "expired" { failed := failed + count; }
      else { pending := pending + count; }
    }
    assert counts[..|counts|] == counts;
    c := StatusCounts(completed, pending, failed, total);
  }

  // ----- GROUP BY ---------------------------------------------------------------------------

  function Having<K>(status: map<K, string>, text: string): set<K> { set k | k in status && status[k] == text }

  /** `counts` is an answer to SELECT status, COUNT(*) ... GROUP BY status. */
  ghost predicate Groups<K>(status: map<K, string>, counts: seq<(string, nat)>) {
    && (forall i, j :: 0 <= i < j < |counts| ==> counts[i].0 != counts[j].0)
    && (forall i :: 0 <= i < |counts| ==> counts[i].1 == |Having(status, counts[i].0)|)
    && (forall k :: k in status ==> exists i :: 0 <= i < |counts| && counts[i].0 == status[k])
  }

  function Where<K>(status: map<K, string>, p: string -> bool): set<K> { set k | k in status && p(status[k]) }

  /** The statuses of the first `n` groups. */
  function Texts(counts: seq<(string, nat)>, n: nat): set<string>
    requires n <= |counts|
  {
    set i | 0 <= i < n :: counts[i].0
  }

  /** The rows whose status satisfies `p` and is one of `texts`. */
  function Among<K>(status: map<K, string>, p: string -> bool, texts: set<string>): set<K> {
    set k | k in status && p(status[k]) && status[k] in texts
  }

  lemma OneMoreGroup<K>(status: map<K, string>, p: string -> bool, texts: set<string>, text: string)
    requires text !in texts
    ensures |Among(status, p, texts + {text})| ==
            |Among(status, p, texts)| + if p(text) then |Having(status, text)| else 0
  {
    var before, all := Among(status, p, texts), Among(status, p, texts + {text});
    if p(text) {
      assert all == before + Having(status, text) && before !! Having(status, text);
    } else {
      assert all == before;
    }
  }

  lemma {:induction false} PrefixCounts<K>(status: map<K, string>, counts: seq<(string, nat)>,
                                           p: string -> bool, n: nat)
    requires Groups(status, counts) && n <= |counts|
    ensures CountWhere(counts[..n], p) == |Among(status, p, Texts(counts, n))|
  {
    if n == 0 {
      assert Among(status, p, Texts(counts, 0)) == {};
    } else {
      PrefixCounts(status, counts, p, n - 1);
      var text := counts[n - 1].0;
      assert Texts(counts, n) == Texts(counts, n - 1) + {text} && text !in Texts(counts, n - 1);
      assert counts[..n][..n - 1] == counts[..n - 1];
      hide Among, Texts, Having;
      OneMoreGroup(status, p, Texts(counts, n - 1), text);
    }
  }

  /** Folding the groups counts the rows. */
  lemma GroupsCountRows<K>(status: map<K, string>, counts: seq<(string, nat)>, p: string -> bool)
    requires Groups(status, counts)
    ensures CountWhere(counts, p) == |Where(status, p)|
  {
    PrefixCounts(status, counts, p, |counts|);
    assert counts[..|counts|] == counts;
    assert Among(status, p, Texts(counts, |counts|)) == Where(status, p);
  }

  lemma {:induction false} SplitThree(counts: seq<(string, nat)>)
    ensures CountWhere(counts, IsCompleted) + CountWhere(counts, IsPending) + CountWhere(counts, IsFailed)
            == CountWhere(counts, _ => true)
  {
    if counts != [] { SplitThree(counts[..|counts| - 1]); }
  }

  // ----- the two tables ---------------------------------------------------------------------

  function SwapStatuses(t: ST.Table): map<string, string> { map h | h in t :: ST.StatusText(t[h].status) }
  function OfframpStatuses(t: OT.Table): map<int, string> { map id | id in t :: OT.StatusText(t[id].status) }

  lemma SwapText(s: ST.Status)
    ensures IsPending(ST.StatusText(s)) <==> s == ST.Pending || s == ST.Fulfilling
    ensures IsCompleted(ST.StatusText(s)) <==> s == ST.Completed
    ensures IsFailed(ST.StatusText(s)) <==> s == ST.Failed || s == ST.Expired
  {
    assert "pending"[0] == 'p' && "fulfilling"[1] == 'u' && "completed"[0] == 'c' && "failed"[1] == 'a'
           && "expired"[0] == 'e';
  }

  lemma OfframpText(s: OT.Status)
    ensures IsPending(OT.StatusText(s)) <==>
            s in {OT.AwaitingDeposit, OT.PendingVerification, OT.PayingLightning, OT.DepositingToPool}
    ensures IsCompleted(OT.StatusText(s)) <==> s == OT.Completed
    ensures IsFailed(OT.StatusText(s)) <==> s == OT.Failed
  {
    assert "awaiting_deposit"[0] == 'a' && "pending_verification"[0] == 'p' && "paying_lightning"[0] == 'p'
           && "depositing_to_pool"[0] == 'd' && "completed"[0] == 'c' && "failed"[0] == 'f' && "expired"[0] == 'e';
  }

  /** For every swap table and every answer of the grouped query, pending is the active count, completed
      and failed count the rows with those statuses, and the three add up to the number of rows. */
  lemma SwapMetricsAgree(t: ST.Table, counts: seq<(string, nat)>)
    requires Groups(SwapStatuses(t), counts)
    ensures CountWhere(counts, IsPending) == |ST.Active(t)|
    ensures CountWhere(counts, IsCompleted) == |ST.ByStatus(t, ST.Completed)|
    ensures CountWhere(counts, IsFailed) == |ST.ByStatus(t, ST.Failed) + ST.ByStatus(t, ST.Expired)|
    ensures CountWhere(counts, IsCompleted) + CountWhere(counts, IsPending) + CountWhere(counts, IsFailed)
            == CountWhere(counts, _ => true) == |t|
  {
    var statuses := SwapStatuses(t);
    GroupsCountRows(statuses, counts, IsPending);
    GroupsCountRows(statuses, counts, IsCompleted);
    GroupsCountRows(statuses, counts, IsFailed);
    GroupsCountRows(statuses, counts, _ => true);
    SplitThree(counts);
    SwapClasses(t);
  }

  lemma SwapClasses(t: ST.Table)
    ensures var statuses := SwapStatuses(t);
            && Where(statuses, IsPending) == ST.Active(t) && Where(statuses, _ => true) == t.Keys
            && Where(statuses, IsCompleted) == ST.ByStatus(t, ST.Completed)
            && Where(statuses, IsFailed) == ST.ByStatus(t, ST.Failed) + ST.ByStatus(t, ST.Expired)
  {
    var statuses := SwapStatuses(t);
    forall h | h in t
      ensures h in Where(statuses, IsPending) <==> h in ST.Active(t)
      ensures h in Where(statuses, IsCompleted) <==> h in ST.ByStatus(t, ST.Completed)
      ensures h in Where(statuses, IsFailed) <==> h in ST.ByStatus(t, ST.Failed) + ST.ByStatus(t, ST.Expired)
    {
      SwapText(t[h].status);
      hide IsPending, IsCompleted, IsFailed, ST.StatusText;
    }
  }

  /** The same for offramps. */
  lemma OfframpMetricsAgree(t: OT.Table, counts: seq<(string, nat)>)
    requires Groups(OfframpStatuses(t), counts)
    ensures CountWhere(counts, IsPending) == |OT.Active(t)|
    ensures CountWhere(counts, IsCompleted) == |OT.ByStatus(t, OT.Completed)|
    ensures CountWhere(counts, IsFailed) == |OT.ByStatus(t, OT.Failed)|
    ensures CountWhere(counts, IsCompleted) + CountWhere(counts, IsPending) + CountWhere(counts, IsFailed)
            == CountWhere(counts, _ => true) == |t|
  {
    var statuses := OfframpStatuses(t);
    GroupsCountRows(statuses, counts, IsPending);
    GroupsCountRows(statuses, counts, IsCompleted);
    GroupsCountRows(statuses, counts, IsFailed);
    GroupsCountRows(statuses, counts, _ => true);
    SplitThree(counts);
    OfframpClasses(t);
  }

  lemma OfframpClasses(t: OT.Table)
    ensures var statuses := OfframpStatuses(t);
            && Where(statuses, IsPending) == OT.Active(t) && Where(statuses, _ => true) == t.Keys
            && Where(statuses, IsCompleted) == OT.ByStatus(t, OT.Completed)
            && Where(statuses, IsFailed) == OT.ByStatus(t, OT.Failed)
  {
    var statuses := OfframpStatuses(t);
    forall id | id in t
      ensures id in Where(statuses, IsPending) <==> id in OT.Active(t)
      ensures id in Where(statuses, IsCompleted) <==> id in OT.ByStatus(t, OT.Completed)
      ensures id in Where(statuses, IsFailed) <==> id in OT.ByStatus(t, OT.Failed)
    {
      OfframpText(t[id].status);
      hide IsPending, IsCompleted, IsFailed, OT.StatusText;
    }
  }
}
