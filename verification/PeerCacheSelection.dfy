/** What a selection from the peer cache returns. */
module PeerCacheSelection {
  import opened SortedSets
  import opened PeerPolicy
  import opened PeerCache
  import opened PeerCacheRuns

  // ---------- One walk ----------

  /** The k-th choice is an eligible endpoint of `order`, under the k-th token, which was not
      in use before and is now bound to this choice. */
  ghost predicate ChoiceGood(s: State, t: State, q: Query, tokens: seq<Token>, order: seq<Endpoint>,
                             r: seq<Selected>, k: int)
    requires 0 <= k < |r| <= |tokens|
  {
    var e := r[k].entry.item.endpoint;
    && e in order && Eligible(s, q, e)
    && r[k] == Selected(s.records[e], tokens[k], UsableUntil(q, s.records[e]))
    && Digest(tokens[k]) !in s.receipts && Digest(tokens[k]) in t.receipts
    && t.receipts[Digest(tokens[k])] == ReceiptFor(q, e, s.records[e])
  }

  predicate Keyed(s: State) {
    forall e :: e in s.records ==> s.records[e].item.endpoint == e
  }

  /** The state and the choices after taking the first of `order`. */
  function Issued(s: State, q: Query, tokens: seq<Token>, e: Endpoint, chosen: seq<Selected>): (State, seq<Selected>)
    requires |chosen| < |tokens| && e in s.records
  {
    (s.(receipts := s.receipts[Digest(tokens[|chosen|]) := ReceiptFor(q, e, s.records[e])]),
     chosen + [Selected(s.records[e], tokens[|chosen|], UsableUntil(q, s.records[e]))])
  }

  lemma {:induction false} WalkShape(s: State, q: Query, tokens: seq<Token>, order: seq<Endpoint>,
                                     chosen: seq<Selected>)
    requires |chosen| <= q.count && |chosen| <= |tokens|
    ensures var (t, r) := SelectFrom(s, q, tokens, order, chosen);
            && |chosen| <= |r| <= |tokens| && |r| <= q.count && r[..|chosen|] == chosen
            && t == s.(receipts := t.receipts)
            && (forall d :: d in s.receipts ==> d in t.receipts && t.receipts[d] == s.receipts[d])
    decreases |order|
  {
    if order == [] || |chosen| >= q.count || |chosen| >= |tokens| {
    } else if !Eligible(s, q, order[0]) || Digest(tokens[|chosen|]) in s.receipts {
      WalkShape(s, q, tokens, order[1..], chosen);
    } else {
      var (s1, chosen1) := Issued(s, q, tokens, order[0], chosen);
      WalkShape(s1, q, tokens, order[1..], chosen1);
      var r := SelectFrom(s1, q, tokens, order[1..], chosen1).1;
      assert r[..|chosen|] == r[..|chosen1|][..|chosen|];
    }
  }

  /** A choice that is good after more receipts were issued was good before. */
  lemma GoodBefore(s: State, s1: State, t: State, q: Query, tokens: seq<Token>, order: seq<Endpoint>,
                   r: seq<Selected>, k: nat)
    requires order != [] && k < |r| <= |tokens|
    requires s1 == s.(receipts := s1.receipts) && forall d :: d in s.receipts ==> d in s1.receipts
    requires ChoiceGood(s1, t, q, tokens, order[1..], r, k)
    ensures ChoiceGood(s, t, q, tokens, order, r, k)
  {
  }

  lemma {:induction false} WalkIsGood(s: State, q: Query, tokens: seq<Token>, order: seq<Endpoint>,
                                      chosen: seq<Selected>)
    requires Keyed(s) && |chosen| <= q.count && |chosen| <= |tokens|
    ensures var (t, r) := SelectFrom(s, q, tokens, order, chosen);
            && |chosen| <= |r| <= |tokens| && |r| <= q.count && r[..|chosen|] == chosen
            && t == s.(receipts := t.receipts)
            && (forall d :: d in s.receipts ==> d in t.receipts && t.receipts[d] == s.receipts[d])
            && (forall k :: |chosen| <= k < |r| ==> ChoiceGood(s, t, q, tokens, order, r, k))
    decreases |order|
  {
    WalkShape(s, q, tokens, order, chosen);
    if order == [] || |chosen| >= q.count || |chosen| >= |tokens| {
    } else if !Eligible(s, q, order[0]) || Digest(tokens[|chosen|]) in s.receipts {
      WalkIsGood(s, q, tokens, order[1..], chosen);
      var (t, r) := SelectFrom(s, q, tokens, order[1..], chosen);
      forall k | |chosen| <= k < |r| ensures ChoiceGood(s, t, q, tokens, order, r, k) {
        GoodBefore(s, s, t, q, tokens, order, r, k);
      }
    } else {
      var n := |chosen|;
      var (s1, chosen1) := Issued(s, q, tokens, order[0], chosen);
      WalkIsGood(s1, q, tokens, order[1..], chosen1);
      var (t, r) := SelectFrom(s1, q, tokens, order[1..], chosen1);
      assert r[n] == r[..n + 1][n] == chosen1[n];
      forall k | n <= k < |r| ensures ChoiceGood(s, t, q, tokens, order, r, k) {
        if k > n {
          GoodBefore(s, s1, t, q, tokens, order, r, k);
        }
      }
    }
  }

  /** From the n-th choice on, no two share an endpoint or a token. */
  predicate DistinctFrom(r: seq<Selected>, n: nat) {
    forall j, k :: n <= j < k < |r| ==>
      r[j].token != r[k].token && r[j].entry.item.endpoint != r[k].entry.item.endpoint
  }

  /** The new choices are distinct, even if `tokens` repeats one. */
  lemma {:induction false} WalkIsDistinct(s: State, q: Query, tokens: seq<Token>, order: seq<Endpoint>,
                                          chosen: seq<Selected>)
    requires Keyed(s) && NoDuplicates(order) && |chosen| <= q.count && |chosen| <= |tokens|
    ensures DistinctFrom(SelectFrom(s, q, tokens, order, chosen).1, |chosen|)
    decreases |order|
  {
    if order == [] || |chosen| >= q.count || |chosen| >= |tokens| {
    } else if !Eligible(s, q, order[0]) || Digest(tokens[|chosen|]) in s.receipts {
      WalkIsDistinct(s, q, tokens, order[1..], chosen);
    } else {
      var n := |chosen|;
      var (s1, chosen1) := Issued(s, q, tokens, order[0], chosen);
      WalkIsDistinct(s1, q, tokens, order[1..], chosen1);
      WalkIsGood(s1, q, tokens, order[1..], chosen1);
      var (t, r) := SelectFrom(s1, q, tokens, order[1..], chosen1);
      assert r[n] == chosen1[n];
      forall k | n < k < |r|
        ensures r[n].token != r[k].token && r[n].entry.item.endpoint != r[k].entry.item.endpoint
      {
        assert ChoiceGood(s1, t, q, tokens, order[1..], r, k);
        assert r[k].entry.item.endpoint in order[1..];
      }
    }
  }

  // ---------- Every choice is safe ----------

  /** Everything the pool may rely on in a choice made at q.now. */
  predicate Safe(cfg: Config, s: State, request: Policy, exclusions: seq<Endpoint>, now: real, c: Selected) {
    var item := c.entry.item;
    && Accepts(EvidenceOf(item), request, now) && Accepts(EvidenceOf(item), cfg.policy, now)
    && Accepts(EvidenceOf(item), HardBounds(cfg.domain), now)
    && item.endpoint !in exclusions && item.endpoint !in s.formal
    && item.peerName == cfg.peerName
    && now < c.usableUntil <= now + RECEIPT_TTL && c.usableUntil <= c.entry.expires <= item.expiresAt
  }

  lemma EligibleIsSafe(cfg: Config, s: State, request: Policy, count: int, exclusions: seq<Endpoint>,
                       principal: string, now: real, q: Query, e: Endpoint)
    requires Inv(cfg, s, now) && QueryFor(cfg, request, count, exclusions, principal, now) == Some(q)
    requires Eligible(s, q, e)
    ensures forall token :: Safe(cfg, s, request, exclusions, now, Selected(s.records[e], token,
                                                                            UsableUntil(q, s.records[e])))
  {
    var item := s.records[e].item;
    assert Accepts(EvidenceOf(item), q.policy, now);
    EffectiveIsTheMeet(request, cfg.policy, cfg.policy, EvidenceOf(item), now);
  }

  /** Whatever tokens it is given, a selection returns at most `count` proxies, all distinct,
      each of them safe and unsuppressed, and each under its own token that was not in use
      and is now bound to a receipt for that very observation. Nothing else changes. */
  lemma SelectionIsSafe(cfg: Config, s: State, request: Policy, count: int, exclusions: seq<Endpoint>,
                        principal: string, now: real, tokens: seq<Token>, order: seq<Endpoint>)
    requires Inv(cfg, s, now) && IsLaterThan(s.expiry, now, order)
    requires Select(cfg, s, request, count, exclusions, principal, now, tokens, order).1.Some?
    ensures var (t, found) := Select(cfg, s, request, count, exclusions, principal, now, tokens, order);
            var r := found.value;
            && |r| <= count && |r| <= |tokens|
            && t == s.(receipts := t.receipts)
            && (forall d :: d in s.receipts ==> d in t.receipts && t.receipts[d] == s.receipts[d])
            && DistinctFrom(r, 0)
            && (forall k :: 0 <= k < |r| ==>
                  var e := r[k].entry.item.endpoint;
                  && Safe(cfg, s, request, exclusions, now, r[k])
                  && e in s.records && r[k].entry == s.records[e]
                  && !Blocked(s.suppression, e, r[k].entry.item.checkedAt, now)
                  && Digest(r[k].token) !in s.receipts && Digest(r[k].token) in t.receipts
                  && t.receipts[Digest(r[k].token)] ==
                     Receipt(principal, e, r[k].entry, r[k].entry.item.checkedAt, now, false))
  {
    var q := QueryFor(cfg, request, count, exclusions, principal, now).value;
    var (t, r) := SelectFrom(s, q, tokens, order, []);
    WalkIsGood(s, q, tokens, order, []);
    WalkIsDistinct(s, q, tokens, order, []);
    forall k | 0 <= k < |r|
      ensures ChoiceGood(s, t, q, tokens, order, r, k)
      ensures Safe(cfg, s, request, exclusions, now, r[k])
    {
      assert ChoiceGood(s, t, q, tokens, order, r, k);
      EligibleIsSafe(cfg, s, request, count, exclusions, principal, now, q, r[k].entry.item.endpoint);
    }
  }

  /** Until its `usableUntil` a choice stays acceptable to all policies it was chosen under. */
  lemma UsableMeansAcceptable(cfg: Config, s: State, request: Policy, count: int, exclusions: seq<Endpoint>,
                              principal: string, now: real, q: Query, e: Endpoint, later: real)
    requires Inv(cfg, s, now) && QueryFor(cfg, request, count, exclusions, principal, now) == Some(q)
    requires Eligible(s, q, e) && now <= later < UsableUntil(q, s.records[e])
    ensures var found := EvidenceOf(s.records[e].item);
            Accepts(found, request, later) && Accepts(found, cfg.policy, later)
            && Accepts(found, HardBounds(cfg.domain), later)
  {
    var item := s.records[e].item;
    assert Accepts(EvidenceOf(item), q.policy, later);
    EffectiveIsTheMeet(request, cfg.policy, cfg.policy, EvidenceOf(item), later);
  }

  /** Over any run: once a failure of an observation made at `source` has been reported at
      `at`, no later selection returns that endpoint on an observation as old as the failed
      one or as the report plus 5 s, nor any before the cooldown is over. This spans later
      reports, snapshot replacements with times from before, and the removal of the failure
      from the records. */
  lemma FailedIsNeverServedAgain(cfg: Config, run: Run, i: nat, j: nat, f: Report, k: nat)
    requires Legal(cfg, run) && ReportedAt(cfg, run, i, f) && i < j < |run.events|
    requires run.events[j].Pick? && run.replies[j].Picked? && run.replies[j].chosen.Some?
    requires k < |run.replies[j].chosen.value|
    requires run.replies[j].chosen.value[k].entry.item.endpoint == f.endpoint
    ensures run.replies[j].chosen.value[k].entry.item.checkedAt > f.source
    ensures run.replies[j].chosen.value[k].entry.item.checkedAt > f.at + SKEW
    ensures run.times[j] >= f.at + cfg.cooldown
  {
    assert StepOk(cfg, run, j);
    ReachableIsGood(cfg, run, j, run.times[j]);
    ReportsAreRemembered(cfg, run, i, j, run.times[j], f);
    var s, e := run.states[j], run.events[j];
    var q := QueryFor(cfg, e.request, e.count, e.exclusions, e.principal, run.times[j]).value;
    WalkIsGood(s, q, e.tokens, e.order, []);
    var (t, r) := SelectFrom(s, q, e.tokens, e.order, []);
    assert ChoiceGood(s, t, q, e.tokens, e.order, r, k);
    RememberedIsNotEligible(cfg, s, run.times[j], q, f);
  }

  // ---------- Every choice there is ----------

  /** The eligible endpoints of `order`. */
  function EligibleOf(s: State, q: Query, order: seq<Endpoint>): (r: seq<Endpoint>)
    ensures forall e :: e in r <==> e in order && Eligible(s, q, e)
  {
    if order == [] then []
    else (if Eligible(s, q, order[0]) then [order[0]] else []) + EligibleOf(s, q, order[1..])
  }

  lemma {:induction false} EligibleOfSize(s: State, q: Query, order: seq<Endpoint>)
    requires NoDuplicates(order)
    ensures NoDuplicates(EligibleOf(s, q, order))
    ensures |EligibleOf(s, q, order)| == |set e | e in order && Eligible(s, q, e)|
  {
    if order == [] {
    } else {
      EligibleOfSize(s, q, order[1..]);
    }
    DistinctLength(EligibleOf(s, q, order));
    assert (set e | e in EligibleOf(s, q, order)) == (set e | e in order && Eligible(s, q, e));
  }

  predicate FreshTokens(s: State, tokens: seq<Token>) {
    NoDuplicates(tokens) && forall k :: 0 <= k < |tokens| ==> Digest(tokens[k]) !in s.receipts
  }

  function EndpointsOf(r: seq<Selected>): seq<Endpoint> {
    seq(|r|, i requires 0 <= i < |r| => r[i].entry.item.endpoint)
  }

  /** With fresh tokens the walk takes every eligible endpoint it meets, up to the count. */
  lemma {:induction false} WalkIsExact(s: State, q: Query, tokens: seq<Token>, order: seq<Endpoint>,
                                       chosen: seq<Selected>)
    requires Keyed(s) && NoDuplicates(tokens) && |chosen| <= q.count <= |tokens|
    requires forall k :: |chosen| <= k < |tokens| ==> Digest(tokens[k]) !in s.receipts
    ensures var eligible := EligibleOf(s, q, order);
            EndpointsOf(SelectFrom(s, q, tokens, order, chosen).1)
            == EndpointsOf(chosen) + eligible[..Min(q.count - |chosen|, |eligible|)]
    decreases |order|
  {
    var eligible := EligibleOf(s, q, order);
    if order == [] || |chosen| >= q.count {
      assert eligible[..Min(q.count - |chosen|, |eligible|)] == [];
    } else if !Eligible(s, q, order[0]) {
      WalkIsExact(s, q, tokens, order[1..], chosen);
    } else {
      var (s1, chosen1) := Issued(s, q, tokens, order[0], chosen);
      WalkIsExact(s1, q, tokens, order[1..], chosen1);
      EligibleIgnoresReceipts(s, s1, q, order[1..]);
      assert EndpointsOf(chosen1) == EndpointsOf(chosen) + [order[0]];
      var rest := EligibleOf(s, q, order[1..]);
      assert eligible[..Min(q.count - |chosen|, |eligible|)] == [order[0]] + rest[..Min(q.count - |chosen1|, |rest|)];
    }
  }

  lemma {:induction false} EligibleIgnoresReceipts(s: State, s1: State, q: Query, order: seq<Endpoint>)
    requires s1 == s.(receipts := s1.receipts)
    ensures EligibleOf(s1, q, order) == EligibleOf(s, q, order)
  {
    if order == [] {
    } else {
      EligibleIgnoresReceipts(s, s1, q, order[1..]);
    }
  }

  function EligibleSet(s: State, q: Query): set<Endpoint> {
    set e | e in s.records && Eligible(s, q, e)
  }

  lemma EligibleAreInOrder(cfg: Config, s: State, q: Query, order: seq<Endpoint>)
    requires Inv(cfg, s, q.now) && IsLaterThan(s.expiry, q.now, order)
    ensures |EligibleOf(s, q, order)| == |EligibleSet(s, q)|
    ensures forall e :: e in EligibleOf(s, q, order) <==> e in EligibleSet(s, q)
  {
    EligibleOfSize(s, q, order);
    assert (set e | e in order && Eligible(s, q, e)) == EligibleSet(s, q);
  }

  ghost predicate Ascending(z: map<Endpoint, real>, r: seq<Endpoint>) {
    && (forall e :: e in r ==> e in z)
    && (forall i, j :: 0 <= i < j < |r| ==> z[r[i]] <= z[r[j]])
  }

  lemma AscendingCons(z: map<Endpoint, real>, first: Endpoint, rest: seq<Endpoint>)
    requires Ascending(z, rest) && first in z && forall e :: e in rest ==> z[first] <= z[e]
    ensures Ascending(z, [first] + rest)
  {
    var r := [first] + rest;
    assert forall j :: 0 < j < |r| ==> r[j] == rest[j - 1] && r[j] in rest;
  }

  /** In an ordered walk, what is taken expires no later than what is left. */
  lemma {:induction false} EligibleOfIsSorted(s: State, q: Query, z: map<Endpoint, real>, order: seq<Endpoint>)
    requires Ascending(z, order)
    ensures Ascending(z, EligibleOf(s, q, order))
  {
    if order == [] {
    } else {
      var rest := EligibleOf(s, q, order[1..]);
      EligibleOfIsSorted(s, q, z, order[1..]);
      forall e | e in rest ensures z[order[0]] <= z[e] {
        var i :| 0 <= i < |order[1..]| && order[1..][i] == e;
        assert order[i + 1] == e;
      }
      AscendingCons(z, order[0], rest);
    }
  }

  lemma NotTakenIsLater(z: map<Endpoint, real>, r: seq<Endpoint>, n: nat, k: nat, e: Endpoint)
    requires Ascending(z, r) && k < n <= |r| && e in r && e !in r[..n]
    ensures z[r[k]] <= z[e]
  {
    var j :| 0 <= j < |r| && r[j] == e;
    assert forall i :: 0 <= i < n ==> r[i] in r[..n];
    assert k < j;
  }

  /** With fresh tokens, what is taken is the first of the eligible. */
  lemma TakenAreFirst(cfg: Config, s: State, q: Query, tokens: seq<Token>, order: seq<Endpoint>, taken: seq<Endpoint>)
    requires Inv(cfg, s, q.now) && IsLaterThan(s.expiry, q.now, order)
    requires FreshTokens(s, tokens) && |tokens| == q.count
    requires taken == EndpointsOf(SelectFrom(s, q, tokens, order, []).1)
    ensures |taken| == Min(q.count, |EligibleOf(s, q, order)|) && taken == EligibleOf(s, q, order)[..|taken|]
  {
    WalkIsExact(s, q, tokens, order, []);
    assert EndpointsOf([]) == [];
  }

  lemma FirstAreSoonest(z: map<Endpoint, real>, r: seq<Endpoint>, taken: seq<Endpoint>, k: nat, e: Endpoint)
    requires Ascending(z, r) && |taken| <= |r| && taken == r[..|taken|] && k < |taken| && e in r && e !in taken
    ensures taken[k] in z && e in z && z[taken[k]] <= z[e]
  {
    NotTakenIsLater(z, r, |taken|, k, e);
    assert taken[k] == r[k] && r[k] in r;
  }

  /** With fresh tokens, a selection returns exactly min(count, eligible) proxies, and they
      are the ones that expire soonest. */
  lemma SelectionIsExact(cfg: Config, s: State, q: Query, tokens: seq<Token>, order: seq<Endpoint>,
                         taken: seq<Endpoint>)
    requires Inv(cfg, s, q.now) && IsLaterThan(s.expiry, q.now, order)
    requires FreshTokens(s, tokens) && |tokens| == q.count
    requires taken == EndpointsOf(SelectFrom(s, q, tokens, order, []).1)
    ensures |taken| == Min(q.count, |EligibleSet(s, q)|)
    ensures forall e :: e in taken ==> e in EligibleSet(s, q)
    ensures forall k, e :: 0 <= k < |taken| && e in EligibleSet(s, q) && e !in taken ==>
              taken[k] in s.expiry && s.expiry[taken[k]] <= s.expiry[e]
  {
    var eligible := EligibleOf(s, q, order);
    TakenAreFirst(cfg, s, q, tokens, order, taken);
    EligibleAreInOrder(cfg, s, q, order);
    EligibleOfIsSorted(s, q, s.expiry, order);
    assert forall e :: e in taken ==> e in eligible;
    forall k, e | 0 <= k < |taken| && e in EligibleSet(s, q) && e !in taken
      ensures taken[k] in s.expiry && s.expiry[taken[k]] <= s.expiry[e]
    {
      FirstAreSoonest(s.expiry, eligible, taken, k, e);
    }
  }

  lemma {:induction false} CountWalk(s: State, q: Query, order: seq<Endpoint>, n: nat)
    requires n <= q.count
    ensures CountFrom(s, q, order, n) == Min(q.count, n + |EligibleOf(s, q, order)|)
    decreases |order|
  {
    if order == [] || n >= q.count {
    } else {
      CountWalk(s, q, order[1..], if Eligible(s, q, order[0]) then n + 1 else n);
    }
  }

  /** Counting predicts selecting: it is the number of proxies that a request for 20 with no
      exclusions and fresh tokens would be given now. */
  lemma CountPredictsSelection(cfg: Config, s: State, request: Policy, now: real, order: seq<Endpoint>,
                               tokens: seq<Token>, principal: string)
    requires Inv(cfg, s, now) && IsLaterThan(s.expiry, now, order) && FreshTokens(s, tokens) && |tokens| == 20
    ensures var counted := Count(cfg, s, request, now, order);
            var found := Select(cfg, s, request, 20, [], principal, now, tokens, order).1;
            && counted.Some? == found.Some?
            && (counted.Some? ==> counted.value == |found.value|)
  {
    if QueryFor(cfg, request, 20, [], principal, now).Some? {
      var q := QueryFor(cfg, request, 20, [], principal, now).value;
      var q1 := QueryFor(cfg, request, 20, [], "", now).value;
      CountWalk(s, q1, order, 0);
      EligibleIgnoresPrincipal(s, q, q1, order);
      WalkIsExact(s, q, tokens, order, []);
      assert |EndpointsOf(SelectFrom(s, q, tokens, order, []).1)| == Min(20, |EligibleOf(s, q, order)|);
    }
  }

  lemma {:induction false} EligibleIgnoresPrincipal(s: State, q: Query, q1: Query, order: seq<Endpoint>)
    requires q1 == q.(principal := q1.principal)
    ensures EligibleOf(s, q1, order) == EligibleOf(s, q, order)
  {
    if order == [] {
    } else {
      EligibleIgnoresPrincipal(s, q, q1, order[1..]);
    }
  }
}
