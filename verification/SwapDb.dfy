/** SwapDb: the relay's two tables behind one mutex. Each method is one SQL statement, and is
    proved against the statement's meaning on table values, which the protocol models use. */
module SwapDb {
  import opened Common
  import OT = OfframpTable
  import ST = SwapTable

  class SwapDb {
    var swaps: ST.Table
    var offramps: OT.Table

    constructor Open()
      ensures swaps == map[] && offramps == map[]
    {
      swaps, offramps := map[], map[];
    }

    /** False stands for the panic of an INSERT on a taken primary key. */
    method Insert(hash: string, row: ST.Row) returns (ok: bool)
      modifies this`swaps
      ensures ok == (hash !in old(swaps))
      ensures swaps == if ok then old(swaps)[hash := row.(cardanoTxHash := None)] else old(swaps)
    {
      ok := hash !in swaps;
      if ok { swaps := swaps[hash := row.(cardanoTxHash := None)]; }
    }

    method GetByPaymentHash(hash: string) returns (row: Option<ST.Row>)
      ensures row.Some? <==> hash in swaps
      ensures row.Some? ==> row.value == swaps[hash]
    {
      row := if hash in swaps then Some(swaps[hash]) else None;
    }

    method UpdateStatus(hash: string, s: ST.Status, tx: Option<string>)
      modifies this`swaps
      ensures swaps == ST.Update(old(swaps), hash, s, tx)
    {
      if hash in swaps { swaps := swaps[hash := swaps[hash].(status := s, cardanoTxHash := tx)]; }
    }

    method TransitionStatus(hash: string, expected: ST.Status, s: ST.Status, tx: Option<string>) returns (ok: bool)
      modifies this`swaps
      ensures ok == ST.Is(old(swaps), hash, expected)
      ensures swaps == ST.Transition(old(swaps), hash, expected, s, tx)
    {
      ok := false;
      if hash in swaps && swaps[hash].status == expected {
        swaps := swaps[hash := swaps[hash].(status := s, cardanoTxHash := tx)];
        ok := true;
      }
    }

    method GetExpiredPending(now: int) returns (hashes: seq<string>)
      ensures Lists(hashes, ST.ExpiredPending(swaps, now).Keys)
      ensures forall h :: h in hashes <==> h in swaps && swaps[h].status == ST.Pending && swaps[h].expiresAt < now
    {
      hashes := Enumerate(ST.ExpiredPending(swaps, now).Keys);
    }

    /** `count_active_swaps` */
    method CountActiveSwaps() returns (n: nat)
      ensures n == |ST.Active(swaps)|
    {
      var active := Enumerate(ST.Active(swaps));
      ListedSize(active, ST.Active(swaps));
      n := |active|;
    }

    /** `get_by_status`: the matching rows, each once, in some order. */
    method GetByStatus(s: ST.Status) returns (hashes: seq<string>)
      ensures Lists(hashes, ST.ByStatus(swaps, s))
    {
      hashes := Enumerate(ST.ByStatus(swaps, s));
    }

    method InsertOfframp(id: int, row: OT.Row) returns (ok: bool)
      modifies this`offramps
      ensures ok == (id !in old(offramps))
      ensures offramps ==
              if ok then old(offramps)[id := row.(preimage := None, depositTxHash := None, errorMessage := None)]
              else old(offramps)
    {
      ok := id !in offramps;
      if ok { offramps := offramps[id := row.(preimage := None, depositTxHash := None, errorMessage := None)]; }
    }

    method GetOfframpById(id: int) returns (row: Option<OT.Row>)
      ensures row.Some? <==> id in offramps
      ensures row.Some? ==> row.value == offramps[id]
    {
      row := if id in offramps then Some(offramps[id]) else None;
    }

    /** One of the matches, when there are several: the query gives no order. */
    method GetOfframpByPaymentHash(hash: string) returns (found: Option<int>)
      ensures OT.FoundByHash(offramps, hash, found)
    {
      var matches := set id | id in offramps && offramps[id].paymentHash == hash;
      found := OneOf(matches);
      assert forall id :: id in offramps && offramps[id].paymentHash == hash ==> id in matches;
    }

    method GetOfframpByCbtcTx(tx: string) returns (found: Option<int>)
      ensures OT.FoundByTx(offramps, tx, found)
    {
      var matches := set id | id in offramps && offramps[id].cbtcTxHash == tx && tx != "";
      found := OneOf(matches);
      assert forall id :: id in offramps && offramps[id].cbtcTxHash == tx && tx != "" ==> id in matches;
    }

    method UpdateOfframpStatus(id: int, s: OT.Status, preimage: Option<string>,
                               depositTxHash: Option<string>, errorMessage: Option<string>)
      modifies this`offramps
      ensures offramps == OT.Update(old(offramps), id, s, preimage, depositTxHash, errorMessage)
    {
      if id in offramps {
        var row := offramps[id].(status := s);
        if preimage.Some? { row := row.(preimage := preimage); }
        if depositTxHash.Some? { row := row.(depositTxHash := depositTxHash); }
        if errorMessage.Some? { row := row.(errorMessage := errorMessage); }
        offramps := offramps[id := row];
      }
    }

    method TransitionOfframpStatus(id: int, expected: OT.Status, s: OT.Status) returns (ok: bool)
      modifies this`offramps
      ensures ok == OT.Is(old(offramps), id, expected)
      ensures offramps == OT.Transition(old(offramps), id, expected, s)
    {
      ok := false;
      if id in offramps && offramps[id].status == expected {
        offramps := offramps[id := offramps[id].(status := s)];
        ok := true;
      }
    }

    method TransitionOfframpWithCbtcTx(id: int, tx: string, expected: OT.Status, s: OT.Status) returns (ok: bool)
      modifies this`offramps
      ensures ok == OT.Is(old(offramps), id, expected)
      ensures offramps == OT.TransitionWithTx(old(offramps), id, tx, expected, s)
    {
      ok := false;
      if id in offramps && offramps[id].status == expected {
        offramps := offramps[id := offramps[id].(cbtcTxHash := tx, status := s)];
        ok := true;
      }
    }

    /** `count_active_offramps` */
    method CountActiveOfframps() returns (n: nat)
      ensures n == |OT.Active(offramps)|
    {
      var active := Enumerate(OT.Active(offramps));
      ListedSize(active, OT.Active(offramps));
      n := |active|;
    }

    method GetOfframpsByStatus(s: OT.Status) returns (ids: seq<int>)
      ensures Lists(ids, OT.ByStatus(offramps, s))
    {
      ids := Enumerate(OT.ByStatus(offramps, s));
    }

    method GetExpiredOfframps(now: int) returns (ids: seq<int>)
      ensures Lists(ids, OT.Expired(offramps, now).Keys)
      ensures forall id :: id in ids <==>
                && id in offramps && (offramps[id].status == OT.AwaitingDeposit || offramps[id].status == OT.Failed)
                && 0 < offramps[id].expiresAt < now
    {
      ids := Enumerate(OT.Expired(offramps, now).Keys);
    }
  }

  /** A query result: every matching key exactly once. */
  ghost predicate Lists<K>(keys: seq<K>, matches: set<K>) {
    && (forall i, j :: 0 <= i < j < |keys| ==> keys[i] != keys[j])
    && (forall k :: k in matches ==> k in keys)
    && (forall k :: k in keys ==> k in matches)
  }

  lemma {:induction false} ListedSize<K>(keys: seq<K>, matches: set<K>)
    requires Lists(keys, matches)
    ensures |keys| == |matches|
    decreases |keys|
  {
    if keys == [] {
      assert matches == {};
    } else {
      var last := keys[|keys| - 1];
      var rest := keys[..|keys| - 1];
      assert forall k :: k in keys <==> k in rest || k == last;
      ListedSize(rest, matches - {last});
    }
  }

  method OneOf<K(==)>(matches: set<K>) returns (found: Option<K>)
    ensures found.None? ==> matches == {}
    ensures found.Some? ==> found.value in matches
  {
    if matches == {} { return None; }
    var k :| k in matches;
    found := Some(k);
  }

  method Enumerate<K(==)>(matches: set<K>) returns (keys: seq<K>)
    ensures Lists(keys, matches)
  {
    keys := [];
    var left := matches;
    while left != {}
      invariant left <= matches
      invariant forall k :: k in matches ==> k in left || k in keys
      invariant forall k :: k in keys ==> k in matches && k !in left
      invariant forall i, j :: 0 <= i < j < |keys| ==> keys[i] != keys[j]
      decreases left
    {
      var k :| k in left;
      keys := keys + [k];
      left := left - {k};
    }
  }
}
