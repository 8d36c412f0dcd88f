/** The per-IP rate limiter of the API (api.rs). */
module RateLimiter {

  type Ip = nat

  /** Requests accepted since the window started, and when it started. */
  datatype Entry = Entry(count: nat, start: int)

  type Entries = map<Ip, Entry>

  datatype Config = Config(max: nat, window: nat)

  const EVICTION_THRESHOLD := 1000

  predicate Expired(e: Entry, now: int, cfg: Config) { now - e.start > cfg.window }

  /** Dropping expired entries once there are many. */
  function Evict(m: Entries, now: int, cfg: Config): Entries {
    if |m| > EVICTION_THRESHOLD then map ip | ip in m && !Expired(m[ip], now, cfg) :: m[ip] else m
  }

  function EntryFor(m: Entries, ip: Ip, now: int): Entry {
    if ip in m then m[ip] else Entry(0, now)
  }

  function Allowed(e: Entry, now: int, cfg: Config): bool {
    Expired(e, now, cfg) || e.count < cfg.max
  }

  function Counted(e: Entry, now: int, cfg: Config): Entry {
    if Expired(e, now, cfg) then Entry(1, now)
    else if e.count < cfg.max then e.(count := e.count + 1)
    else e
  }

  class RateLimiter {
    var requests: Entries
    const cfg: Config

    constructor (max: nat, window: nat)
      ensures requests == map[] && cfg == Config(max, window)
    {
      requests := map[];
      cfg := Config(max, window);
    }

    /** `check`, with the instant it reads as a parameter */
    method Check(ip: Ip, now: int) returns (ok: bool)
      modifies this
      ensures var m := Evict(old(requests), now, cfg);
              && ok == Allowed(EntryFor(m, ip, now), now, cfg)
              && requests == m[ip := Counted(EntryFor(m, ip, now), now, cfg)]
    {
      if |requests| > EVICTION_THRESHOLD {
        requests := map k | k in requests && now - requests[k].start <= cfg.window :: requests[k];
      }
      if ip !in requests { requests := requests[ip := Entry(0, now)]; }
      var entry := requests[ip];
      if now - entry.start > cfg.window {
        requests := requests[ip := Entry(1, now)];
        ok := true;
      } else if entry.count < cfg.max {
        requests := requests[ip := entry.(count := entry.count + 1)];
        ok := true;
      } else {
        ok := false;
      }
    }
  }

  // ----- request sequences ------------------------------------------------------------------

  datatype Req = Req(ip: Ip, at: int)

  predicate InOrder(reqs: seq<Req>) {
    forall i, j :: 0 <= i < j < |reqs| ==> reqs[i].at <= reqs[j].at
  }

  /** The entries a limiter looks at when it serves `req`, with or without eviction. */
  function Seen(cfg: Config, evicting: bool, m: Entries, now: int): Entries {
    if evicting then Evict(m, now, cfg) else m
  }

  /** The entries after a sequence of requests, starting from none. */
  function After(cfg: Config, evicting: bool, reqs: seq<Req>): Entries {
    if reqs == [] then map[]
    else
      var req := reqs[|reqs| - 1];
      var m := Seen(cfg, evicting, After(cfg, evicting, reqs[..|reqs| - 1]), req.at);
      m[req.ip := Counted(EntryFor(m, req.ip, req.at), req.at, cfg)]
  }

  /** The answer to the last request of a sequence. */
  function Answer(cfg: Config, evicting: bool, reqs: seq<Req>): bool
    requires reqs != []
  {
    var req := reqs[|reqs| - 1];
    var m := Seen(cfg, evicting, After(cfg, evicting, reqs[..|reqs| - 1]), req.at);
    Allowed(EntryFor(m, req.ip, req.at), req.at, cfg)
  }

  // ----- eviction is invisible --------------------------------------------------------------

  /** An evicting limiter has lost nothing but expired entries. */
  ghost predicate Agree(cfg: Config, m: Entries, full: Entries, now: int) {
    && (forall ip :: ip in m ==> ip in full && full[ip] == m[ip])
    && (forall ip :: ip in full && ip !in m ==> Expired(full[ip], now, cfg))
  }

  lemma {:induction false} EvictingAgrees(cfg: Config, reqs: seq<Req>, now: int)
    requires cfg.max >= 1 && InOrder(reqs) && (reqs != [] ==> reqs[|reqs| - 1].at <= now)
    ensures Agree(cfg, After(cfg, true, reqs), After(cfg, false, reqs), now)
  {
    if reqs != [] {
      var req := reqs[|reqs| - 1];
      EvictingAgrees(cfg, reqs[..|reqs| - 1], req.at);
    }
  }

  lemma SameAnswer(cfg: Config, reqs: seq<Req>)
    requires cfg.max >= 1 && InOrder(reqs) && reqs != []
    ensures Answer(cfg, true, reqs) == Answer(cfg, false, reqs)
  {
    EvictingAgrees(cfg, reqs[..|reqs| - 1], reqs[|reqs| - 1].at);
  }

  /** Every answer of every request sequence is the same with and without eviction. */
  ghost predicate EvictionInvisible(cfg: Config) {
    forall reqs :: reqs != [] && InOrder(reqs) ==> Answer(cfg, true, reqs) == Answer(cfg, false, reqs)
  }

  /** One request at time 0 from each of the first `n` addresses. */
  function Crowd(n: nat): (r: seq<Req>)
    ensures |r| == n && forall i :: 0 <= i < n ==> r[i].at == 0
  {
    if n == 0 then [] else Crowd(n - 1) + [Req(n - 1, 0)]
  }

  function CrowdTable(n: nat): Entries {
    if n == 0 then map[] else CrowdTable(n - 1)[n - 1 := Entry(0, 0)]
  }

  lemma {:induction false} CrowdTableFacts(n: nat)
    ensures |CrowdTable(n)| == n && forall ip: Ip :: ip in CrowdTable(n) <==> ip < n
    ensures forall ip :: ip in CrowdTable(n) ==> CrowdTable(n)[ip] == Entry(0, 0)
  {
    if n > 0 {
      CrowdTableFacts(n - 1);
    }
  }

  /** With nothing allowed, a new address gets an empty entry. */
  lemma NewcomerEntry(cfg: Config, evicting: bool, reqs: seq<Req>, ip: Ip)
    requires cfg.max == 0 && reqs != [] && reqs[|reqs| - 1] == Req(ip, 0)
    requires var m := After(cfg, evicting, reqs[..|reqs| - 1]); |m| <= EVICTION_THRESHOLD && ip !in m
    ensures After(cfg, evicting, reqs) == After(cfg, evicting, reqs[..|reqs| - 1])[ip := Entry(0, 0)]
  {
  }

  lemma {:induction false} CrowdEntries(cfg: Config, evicting: bool, n: nat)
    requires cfg.max == 0 && n <= EVICTION_THRESHOLD + 1
    ensures After(cfg, evicting, Crowd(n)) == CrowdTable(n)
  {
    if n > 0 {
      CrowdEntries(cfg, evicting, n - 1);
      CrowdTableFacts(n - 1);
      assert Crowd(n)[..n - 1] == Crowd(n - 1) && Crowd(n)[n - 1] == Req(n - 1, 0);
      hide After, Crowd;
      NewcomerEntry(cfg, evicting, Crowd(n), n - 1);
    }
  }

  lemma CrowdEvicted(cfg: Config, now: int)
    requires now > cfg.window
    ensures Evict(CrowdTable(EVICTION_THRESHOLD + 1), now, cfg) == map[]
  {
    CrowdTableFacts(EVICTION_THRESHOLD + 1);
    hide CrowdTable;
  }

  function Shown(cfg: Config): (r: seq<Req>)
    ensures r != []
  {
    Crowd(EVICTION_THRESHOLD + 1) + [Req(0, cfg.window + 1)]
  }

  /** A limiter set to zero lets one request through when it finds an expired entry, which
      eviction takes away. */
  lemma ZeroLimitShowsEviction(cfg: Config)
    requires cfg.max == 0
    ensures InOrder(Shown(cfg)) && !Answer(cfg, true, Shown(cfg)) && Answer(cfg, false, Shown(cfg))
  {
    var n := EVICTION_THRESHOLD + 1;
    var reqs := Shown(cfg);
    assert reqs[..|reqs| - 1] == Crowd(n) && InOrder(reqs);
    CrowdEntries(cfg, true, n);
    CrowdEntries(cfg, false, n);
    CrowdTableFacts(n);
    CrowdEvicted(cfg, cfg.window + 1);
    hide CrowdTable, Crowd, After, Evict, InOrder;
  }

  /** Eviction is invisible exactly when at least one request per window is allowed. */
  lemma EvictionInvisibleIff(cfg: Config)
    ensures EvictionInvisible(cfg) <==> cfg.max >= 1
  {
    if cfg.max >= 1 {
      forall reqs | reqs != [] && InOrder(reqs) ensures Answer(cfg, true, reqs) == Answer(cfg, false, reqs) {
        SameAnswer(cfg, reqs);
      }
    } else {
      ZeroLimitShowsEviction(cfg);
    }
  }

  /** A request finds every entry while there are at most 1000, and only unexpired ones beyond that. */
  lemma EvictionExact(cfg: Config, reqs: seq<Req>)
    requires reqs != []
    ensures var req, before := reqs[|reqs| - 1], After(cfg, true, reqs[..|reqs| - 1]);
            forall ip :: ip in before && ip != req.ip ==>
              (ip in After(cfg, true, reqs) <==> |before| <= 1000 || req.at - before[ip].start <= cfg.window)
  {
  }

  // ----- isolation --------------------------------------------------------------------------

  function Own(reqs: seq<Req>, ip: Ip): seq<Req> {
    if reqs == [] then []
    else
      var req := reqs[|reqs| - 1];
      Own(reqs[..|reqs| - 1], ip) + if req.ip == ip then [req] else []
  }

  lemma {:induction false} OwnEntry(cfg: Config, reqs: seq<Req>, ip: Ip)
    ensures ip in After(cfg, false, reqs) <==> ip in After(cfg, false, Own(reqs, ip))
    ensures ip in After(cfg, false, reqs) ==> After(cfg, false, reqs)[ip] == After(cfg, false, Own(reqs, ip))[ip]
  {
    if reqs != [] {
      var req := reqs[|reqs| - 1];
      OwnEntry(cfg, reqs[..|reqs| - 1], ip);
      if req.ip == ip {
        assert Own(reqs, ip)[..|Own(reqs, ip)| - 1] == Own(reqs[..|reqs| - 1], ip);
      } else {
        assert Own(reqs, ip) == Own(reqs[..|reqs| - 1], ip);
      }
    }
  }

  lemma {:induction false} OwnInOrder(reqs: seq<Req>, ip: Ip)
    requires InOrder(reqs)
    ensures InOrder(Own(reqs, ip))
    ensures forall x :: x in Own(reqs, ip) ==> x in reqs
  {
    if reqs != [] {
      OwnInOrder(reqs[..|reqs| - 1], ip);
      assert forall x :: x in reqs[..|reqs| - 1] ==> x in reqs && x.at <= reqs[|reqs| - 1].at;
    }
  }

  /** Requests from other addresses never change the answer an address gets. */
  lemma Isolated(cfg: Config, reqs: seq<Req>)
    requires cfg.max >= 1 && InOrder(reqs) && reqs != []
    ensures AnsweredAlone(cfg, reqs)
  {
    var req := reqs[|reqs| - 1];
    var own := Own(reqs, req.ip);
    OwnInOrder(reqs, req.ip);
    SameAnswer(cfg, reqs);
    SameAnswer(cfg, own);
    OwnEntry(cfg, reqs[..|reqs| - 1], req.ip);
    assert own[..|own| - 1] == Own(reqs[..|reqs| - 1], req.ip);
  }

  /** The answer to the last request is the one its address would get alone. */
  predicate AnsweredAlone(cfg: Config, reqs: seq<Req>)
    requires reqs != []
  {
    var own := Own(reqs, reqs[|reqs| - 1].ip);
    own != [] && Answer(cfg, true, reqs) == Answer(cfg, true, own)
  }

  ghost predicate AddressesIsolated(cfg: Config) {
    forall reqs: seq<Req> :: reqs != [] && InOrder(reqs) ==> AnsweredAlone(cfg, reqs)
  }

  lemma {:induction false} OwnOfCrowd(n: nat)
    requires n >= 1
    ensures Own(Crowd(n), 0) == [Req(0, 0)]
  {
    assert Crowd(n)[..n - 1] == Crowd(n - 1) && Crowd(n)[n - 1] == Req(n - 1, 0);
    if n > 1 { OwnOfCrowd(n - 1); }
  }

  /** On its own, an address waits out its window and is let through, even with a limit of zero. */
  lemma ZeroLimitLetsOneThrough(cfg: Config)
    requires cfg.max == 0
    ensures InOrder([Req(0, 0), Req(0, cfg.window + 1)]) && Answer(cfg, true, [Req(0, 0), Req(0, cfg.window + 1)])
  {
    var own := [Req(0, 0), Req(0, cfg.window + 1)];
    assert own[..1] == [Req(0, 0)] && [Req(0, 0)][..0] == [];
    assert After(cfg, true, [Req(0, 0)]) == map[0 := Entry(0, 0)];
  }

  /** Addresses are isolated exactly when at least one request per window is allowed. */
  lemma IsolatedIff(cfg: Config)
    ensures AddressesIsolated(cfg) <==> cfg.max >= 1
  {
    if cfg.max >= 1 {
      forall reqs: seq<Req> | reqs != [] && InOrder(reqs)
        ensures AnsweredAlone(cfg, reqs)
      {
        Isolated(cfg, reqs);
      }
    } else {
      var reqs, n := Shown(cfg), EVICTION_THRESHOLD + 1;
      assert reqs[..|reqs| - 1] == Crowd(n) && reqs[|reqs| - 1] == Req(0, cfg.window + 1);
      ZeroLimitShowsEviction(cfg);
      ZeroLimitLetsOneThrough(cfg);
      OwnOfCrowd(n);
      hide Shown, Answer, Crowd, InOrder;
      assert Own(reqs, 0) == [Req(0, 0), Req(0, cfg.window + 1)];
      assert !AnsweredAlone(cfg, reqs);
    }
  }

  // ----- the bound --------------------------------------------------------------------------

  /** Requests of `ip` accepted at a time in [from, from + window]. */
  function Accepted(cfg: Config, evicting: bool, reqs: seq<Req>, ip: Ip, from: int): nat {
    if reqs == [] then 0
    else
      var req := reqs[|reqs| - 1];
      Accepted(cfg, evicting, reqs[..|reqs| - 1], ip, from)
      + if req.ip == ip && from <= req.at <= from + cfg.window && Answer(cfg, evicting, reqs) then 1 else 0
  }

  /** How much of the interval the address has used up by time `last`, by when its window started. */
  ghost predicate Used(cfg: Config, e: Entry, from: int, accepted: nat, last: int) {
    && e.count <= cfg.max && e.start <= last
    && (last < from ==> accepted == 0)
    && (e.start < from ==> accepted <= e.count)
    && (from <= e.start <= from + cfg.window ==> accepted <= cfg.max + e.count)
    && accepted <= 2 * cfg.max
  }

  lemma UsedByOne(cfg: Config, e: Entry, from: int, accepted: nat, last: int, now: int)
    requires cfg.max >= 1 && Used(cfg, e, from, accepted, last) && last <= now
    ensures Used(cfg, Counted(e, now, cfg), from,
                 accepted + if from <= now <= from + cfg.window && Allowed(e, now, cfg) then 1 else 0, now)
  {
  }

  lemma {:induction false} WindowUse(cfg: Config, reqs: seq<Req>, ip: Ip, from: int)
    requires cfg.max >= 1 && InOrder(reqs)
    ensures var m := After(cfg, false, reqs);
            var accepted := Accepted(cfg, false, reqs, ip, from);
            if ip in m then reqs != [] && Used(cfg, m[ip], from, accepted, reqs[|reqs| - 1].at) else accepted == 0
  {
    if reqs != [] {
      var prev, req := reqs[..|reqs| - 1], reqs[|reqs| - 1];
      WindowUse(cfg, prev, ip, from);
      assert prev != [] ==> prev[|prev| - 1].at <= req.at;
      var before := After(cfg, false, prev);
      if req.ip == ip && ip in before {
        UsedByOne(cfg, before[ip], from, Accepted(cfg, false, prev, ip, from), prev[|prev| - 1].at, req.at);
      }
    }
  }

  lemma {:induction false} AcceptedSame(cfg: Config, reqs: seq<Req>, ip: Ip, from: int)
    requires cfg.max >= 1 && InOrder(reqs)
    ensures Accepted(cfg, true, reqs, ip, from) == Accepted(cfg, false, reqs, ip, from)
  {
    if reqs != [] {
      SameAnswer(cfg, reqs);
      AcceptedSame(cfg, reqs[..|reqs| - 1], ip, from);
    }
  }

  /** In any stretch of time as long as the window, one address gets at most twice the maximum. */
  lemma AtMostTwiceTheMax(cfg: Config, reqs: seq<Req>, ip: Ip, from: int)
    requires cfg.max >= 1 && InOrder(reqs)
    ensures Accepted(cfg, true, reqs, ip, from) <= 2 * cfg.max
  {
    AcceptedSame(cfg, reqs, ip, from);
    WindowUse(cfg, reqs, ip, from);
  }

  ghost predicate WindowBound(cfg: Config) {
    forall reqs, ip: Ip, from :: InOrder(reqs) ==> Accepted(cfg, true, reqs, ip, from) <= 2 * cfg.max
  }

  /** The bound holds exactly when at least one request per window is allowed. */
  lemma WindowBoundIff(cfg: Config)
    ensures WindowBound(cfg) <==> cfg.max >= 1
  {
    if cfg.max >= 1 {
      forall reqs, ip: Ip, from | InOrder(reqs) ensures Accepted(cfg, true, reqs, ip, from) <= 2 * cfg.max {
        AtMostTwiceTheMax(cfg, reqs, ip, from);
      }
    } else {
      var own := [Req(0, 0), Req(0, cfg.window + 1)];
      ZeroLimitLetsOneThrough(cfg);
      hide Answer, InOrder;
      assert Accepted(cfg, true, own, 0, cfg.window + 1) >= 1;
    }
  }

  // ----- an address gets its full maximum -----------------------------------------------------

  /** What an entry counts was accepted since its window started. */
  lemma {:induction false} CountWasAccepted(cfg: Config, reqs: seq<Req>, ip: Ip, from: int)
    requires cfg.max >= 1 && InOrder(reqs) && (reqs != [] ==> reqs[|reqs| - 1].at <= from + cfg.window)
    ensures var m := After(cfg, false, reqs);
            ip in m && from <= m[ip].start ==> m[ip].count <= Accepted(cfg, false, reqs, ip, from)
    ensures ip in After(cfg, false, reqs) ==> reqs != [] && After(cfg, false, reqs)[ip].start <= reqs[|reqs| - 1].at
  {
    if reqs != [] {
      var prev := reqs[..|reqs| - 1];
      assert prev != [] ==> prev[|prev| - 1].at <= reqs[|reqs| - 1].at;
      CountWasAccepted(cfg, prev, ip, from);
    }
  }

  /** A request is accepted if fewer than the maximum of its address's requests were accepted within the
      last window. */
  lemma FullMaximum(cfg: Config, reqs: seq<Req>)
    requires cfg.max >= 1 && InOrder(reqs) && reqs != []
    ensures var req := reqs[|reqs| - 1];
            Accepted(cfg, true, reqs[..|reqs| - 1], req.ip, req.at - cfg.window) < cfg.max ==> Answer(cfg, true, reqs)
  {
    var prev, req := reqs[..|reqs| - 1], reqs[|reqs| - 1];
    SameAnswer(cfg, reqs);
    AcceptedSame(cfg, prev, req.ip, req.at - cfg.window);
    assert prev != [] ==> prev[|prev| - 1].at <= req.at;
    CountWasAccepted(cfg, prev, req.ip, req.at - cfg.window);
  }

  lemma {:induction false} OneAddress(reqs: seq<Req>, ip: Ip)
    ensures forall x :: x in Own(reqs, ip) ==> x.ip == ip
  {
    if reqs != [] { OneAddress(reqs[..|reqs| - 1], ip); }
  }

  /** Within a window of its first request, an address's entry counts its requests up to the maximum. */
  lemma {:induction false} FirstWindowEntry(cfg: Config, own: seq<Req>, ip: Ip)
    requires cfg.max >= 1 && InOrder(own) && own != [] && (forall x :: x in own ==> x.ip == ip)
    requires own[|own| - 1].at <= own[0].at + cfg.window
    ensures After(cfg, false, own) == map[ip := Entry(if |own| <= cfg.max then |own| else cfg.max, own[0].at)]
  {
    var prev, req := own[..|own| - 1], own[|own| - 1];
    assert req in own;
    if prev == [] {
      assert own == [req];
      assert After(cfg, false, prev) == map[];
    } else {
      assert prev[0] == own[0] && prev[|prev| - 1].at <= req.at;
      FirstWindowEntry(cfg, prev, ip);
    }
  }

  /** Up to and including the moment one window after its first request, an address gets exactly its first
      `max` requests through. */
  lemma FirstWindowExact(cfg: Config, reqs: seq<Req>)
    requires cfg.max >= 1 && InOrder(reqs) && reqs != []
    requires var own := Own(reqs, reqs[|reqs| - 1].ip);
             own != [] && reqs[|reqs| - 1].at <= own[0].at + cfg.window
    ensures Answer(cfg, true, reqs) <==> |Own(reqs, reqs[|reqs| - 1].ip)| <= cfg.max
  {
    var req := reqs[|reqs| - 1];
    var own := Own(reqs, req.ip);
    Isolated(cfg, reqs);
    OwnInOrder(reqs, req.ip);
    OneAddress(reqs, req.ip);
    SameAnswer(cfg, own);
    var prev := own[..|own| - 1];
    assert own[|own| - 1] == req && InOrder(prev);
    if prev != [] {
      assert prev[0] == own[0] && prev[|prev| - 1].at <= req.at;
      assert forall x :: x in prev ==> x in own;
      FirstWindowEntry(cfg, prev, req.ip);
    } else {
      assert After(cfg, false, prev) == map[];
    }
  }
}
