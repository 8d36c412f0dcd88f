/** The promises of the swap protocol, over every state some run reaches. */
module SwapTheorems {
  import opened Common
  import opened SwapTable
  import opened SwapProtocol
  import opened SwapSafety

  ghost predicate Reaches(s: Sys, s': Sys) {
    exists steps :: Run(s, steps) == Some(s')
  }

  ghost predicate Reachable(s: Sys) {
    exists clock: int, cfg: Config :: Reaches(Init(clock, cfg), s)
  }

  lemma ReachableInv(s: Sys)
    requires Reachable(s)
    ensures Inv(s)
  {
    var clock: int, cfg: Config :| Reaches(Init(clock, cfg), s);
    var steps :| Run(Init(clock, cfg), steps) == Some(s);
    assert Inv(Init(clock, cfg));
    RunKeeps(Init(clock, cfg), steps);
  }

  /** fulfill_swap and the monitor exclude each other: once the monitor has selected a swap, no
      fulfill_swap task builds FulfillInvoice for it, and none has before, although the monitor's
      own status write is unconditional. Crashes included. */
  lemma FulfillExcludesCancel(s: Sys, hash: string)
    requires Reachable(s)
    ensures !(hash in s.history.built && hash in s.history.selected)
  {
    ReachableInv(s);
    assert RowOk(s.table, s.history, s.clock, hash);
  }

  /** At most one fulfill_swap task works on a swap at any time, and a compare-and-set for it only
      succeeds while none ever has. */
  lemma FulfilledByOneTask(s: Sys, i: nat, j: nat, hash: string)
    requires Reachable(s) && i in s.tasks && j in s.tasks
    ensures Owns(s.tasks[i], hash) && Owns(s.tasks[j], hash) ==> i == j
    ensures Is(s.table, hash, Pending) ==> hash !in s.history.claimed && !Owns(s.tasks[i], hash)
  {
    ReachableInv(s);
    assert RowOk(s.table, s.history, s.clock, hash);
    assert TaskOk(s, s.tasks[i]);
  }

  /** On-chain ids are not reused with another expiry. */
  predicate ChainIdsUnique(chain: set<(int, int)>) {
    forall c, d :: c in chain && d in chain && c.0 == d.0 ==> c.1 == d.1
  }

  /** For every stored swap an expiry no later than the stored one was sent on chain for its invoice,
      and every invoice the monitor ever tried to cancel had passed an expiry sent for it; that is
      the expiry of the invoice as long as ids are not reused with another. */
  lemma ExpiryAligned(s: Sys)
    requires Reachable(s)
    ensures forall hash :: hash in s.table ==> Covered(s.history, s.table[hash].invoiceId, s.table[hash].expiresAt)
    ensures forall i, now :: (i, now) in s.history.cancels ==> now <= s.clock && Covered(s.history, i, now - 1)
    ensures ChainIdsUnique(s.history.chain) ==>
              && (forall hash, c :: hash in s.table && (s.table[hash].invoiceId, c) in s.history.chain ==>
                    c <= s.table[hash].expiresAt)
              && (forall i, now, c :: (i, now) in s.history.cancels && (i, c) in s.history.chain ==> c < now)
  {
    ReachableInv(s);
    forall hash | hash in s.table ensures Covered(s.history, s.table[hash].invoiceId, s.table[hash].expiresAt) {
      assert RowOk(s.table, s.history, s.clock, hash);
    }
    hide Inv;
    forall i, at, c | ChainIdsUnique(s.history.chain) && Covered(s.history, i, at) && (i, c) in s.history.chain
      ensures c <= at
    {
      OneExpiry(s.history, i, at, c);
    }
  }

  lemma OneExpiry(h: History, i: int, at: int, c: int)
    requires ChainIdsUnique(h.chain) && Covered(h, i, at) && (i, c) in h.chain
    ensures c <= at
  {
    var d :| (i, d) in h.chain && d <= at;
    assert (i, c).0 == (i, d).0;
  }
}
