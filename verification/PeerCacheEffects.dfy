/** What each script of the peer cache does, said in terms of policies, times and the state
    before it, and what that means over runs. */
module PeerCacheEffects {
  import opened SortedSets
  import opened PeerPolicy
  import opened PeerCache
  import opened PeerCacheRuns
  import opened PeerCacheSelection
  import opened PeerCacheSync

  // ---------- Reports ----------

  /** A report is applied exactly if its receipt is there and is its first. Then the endpoint
      leaves the cache and is suppressed until the cooldown is over, on record for 605 s
      longer than both the cooldown and the greatest age of an observation; the receipt is
      used up, and the evictions keep this one and those of the last 600 s. Otherwise
      nothing changes. */
  lemma ReportIsAppliedExactly(cfg: Config, s: State, digest: Digest, now: real)
    ensures var (t, r) := Invalidate(cfg, s, digest, now);
            && (r == Expired <==> digest !in s.receipts)
            && (r == Applied <==> digest in s.receipts && !s.receipts[digest].failureApplied)
            && (r != Applied ==> t == s)
            && (r == Applied ==>
                  var receipt := s.receipts[digest];
                  && receipt.endpoint !in t.records && receipt.endpoint !in t.expiry
                  && t.suppression == s.suppression[receipt.endpoint :=
                       Failure(now, receipt.sourceCheckedAt, now + cfg.cooldown)]
                  && t.suppressionExpiry == s.suppressionExpiry[receipt.endpoint :=
                       now + MaxReal(cfg.cooldown, cfg.policy.maxAge as real) + 605.0]
                  && t.receipts == s.receipts[digest := receipt.(failureApplied := true)]
                  && (t.generation, t.lock, t.formal) == (s.generation, s.lock, s.formal))
    ensures Invalidate(cfg, s, digest, now).1 == Applied ==>
              var t, gone := Invalidate(cfg, s, digest, now).0, s.receipts[digest].endpoint;
              && (forall e :: e != gone ==>
                    (e in t.records <==> e in s.records) && (e in t.records ==> t.records[e] == s.records[e])
                    && (e in t.expiry <==> e in s.expiry) && (e in t.expiry ==> t.expiry[e] == s.expiry[e]))
              && (digest in t.evictions && t.evictions[digest] == now)
              && (forall d :: d != digest ==>
                    (d in t.evictions <==> d in s.evictions && s.evictions[d] >= now - 600.0)
                    && (d in t.evictions ==> t.evictions[d] == s.evictions[d]))
  {
  }

  /** Event i handed out the k-th of its choices. */
  predicate HandsOut(run: Run, i: int, k: int) {
    && 0 <= i < |run.events| && i < |run.replies| && run.events[i].Pick?
    && run.replies[i].Picked? && run.replies[i].chosen.Some? && 0 <= k < |run.replies[i].chosen.value|
  }

  function Choice(run: Run, i: int, k: int): Selected
    requires HandsOut(run, i, k)
  {
    run.replies[i].chosen.value[k]
  }

  /** Event n reports on the token or lets its receipt run out. */
  predicate UsesUp(run: Run, n: int, token: Token) {
    && 0 <= n < |run.events|
    && (run.events[n] == Fail(Digest(token)) || run.events[n] == ReceiptRunsOut(Digest(token)))
  }

  lemma ReceiptIssued(cfg: Config, run: Run, i: nat, k: nat)
    requires Legal(cfg, run) && HandsOut(run, i, k)
    ensures var c, d, t := Choice(run, i, k), Digest(Choice(run, i, k).token), run.states[i + 1];
            d in t.receipts && t.receipts[d] == Receipt(run.events[i].principal, c.entry.item.endpoint, c.entry,
                                                        c.entry.item.checkedAt, run.times[i], false)
  {
    assert StepOk(cfg, run, i);
    ReachableIsGood(cfg, run, i, run.times[i]);
    var s, e := run.states[i], run.events[i];
    SelectionIsSafe(cfg, s, e.request, e.count, e.exclusions, e.principal, run.times[i], e.tokens, e.order);
  }

  lemma ReceiptKept(cfg: Config, run: Run, n: nat, d: Digest)
    requires Legal(cfg, run) && n < |run.events| && d in run.states[n].receipts && !UsesUp(run, n, d.token)
    ensures d in run.states[n + 1].receipts && run.states[n + 1].receipts[d] == run.states[n].receipts[d]
  {
    assert StepOk(cfg, run, n);
    var s, e := run.states[n], run.events[n];
    match e
    case Pick(request, count, exclusions, principal, tokens, order) =>
      match QueryFor(cfg, request, count, exclusions, principal, run.times[n]) {
        case None =>
        case Some(q) => WalkShape(s, q, tokens, order, []);
      }
    case _ =>
  }

  /** Until it is used up, a token stands for the observation it was handed out with. */
  lemma {:induction false} ReceiptStands(cfg: Config, run: Run, i: nat, k: nat, n: nat)
    requires Legal(cfg, run) && HandsOut(run, i, k) && i < n <= |run.events|
    requires forall j :: i < j < n ==> !UsesUp(run, j, Choice(run, i, k).token)
    ensures var c, d, t := Choice(run, i, k), Digest(Choice(run, i, k).token), run.states[n];
            d in t.receipts && t.receipts[d] == Receipt(run.events[i].principal, c.entry.item.endpoint, c.entry,
                                                        c.entry.item.checkedAt, run.times[i], false)
  {
    if n == i + 1 {
      ReceiptIssued(cfg, run, i, k);
    } else {
      ReceiptStands(cfg, run, i, k, n - 1);
      ReceiptKept(cfg, run, n - 1, Digest(Choice(run, i, k).token));
    }
  }

  /** The first report on a token that was handed out, made before its receipt runs out, is
      applied, to the observation that it was handed out with. */
  lemma FirstReportIsApplied(cfg: Config, run: Run, i: nat, k: nat, j: nat)
    requires Legal(cfg, run) && HandsOut(run, i, k) && i < j < |run.events|
    requires run.events[j] == Fail(Digest(Choice(run, i, k).token))
    requires forall n :: i < n < j ==> !UsesUp(run, n, Choice(run, i, k).token)
    ensures run.replies[j] == Failed(Applied)
    ensures var item := Choice(run, i, k).entry.item;
            ReportedAt(cfg, run, j, Report(item.endpoint, item.checkedAt, run.times[j]))
  {
    assert StepOk(cfg, run, j);
    ReceiptStands(cfg, run, i, k, j);
  }

  /** The whole way of a bad proxy: it was handed out, its first report came in before its
      receipt ran out, and from then on no selection returns its endpoint on that
      observation, on one from before the report or 5 s after it, or within the cooldown. */
  lemma ReportedIsNeverServedAgain(cfg: Config, run: Run, i: nat, k: nat, j: nat, l: nat, m: nat)
    requires Legal(cfg, run) && HandsOut(run, i, k) && HandsOut(run, l, m) && i < j < l
    requires run.events[j] == Fail(Digest(Choice(run, i, k).token))
    requires forall n :: i < n < j ==> !UsesUp(run, n, Choice(run, i, k).token)
    requires Choice(run, l, m).entry.item.endpoint == Choice(run, i, k).entry.item.endpoint
    ensures Choice(run, l, m).entry.item.checkedAt > Choice(run, i, k).entry.item.checkedAt
    ensures Choice(run, l, m).entry.item.checkedAt > run.times[j] + 5.0
    ensures run.times[l] >= run.times[j] + cfg.cooldown >= run.times[j] + 600.0
  {
    var item := Choice(run, i, k).entry.item;
    FirstReportIsApplied(cfg, run, i, k, j);
    FailedIsNeverServedAgain(cfg, run, j, l, Report(item.endpoint, item.checkedAt, run.times[j]), m);
  }

  // ---------- Selections ----------

  /** No failure on record speaks against the observation: none, or one whose cooldown is over,
      on an older observation, reported more than 5 s before this one. */
  predicate IsClear(s: State, e: Endpoint, checkedAt: real, now: real) {
    e in s.suppression ==>
      && s.suppression[e].blockedUntil <= now
      && s.suppression[e].sourceCheckedAt < checkedAt && s.suppression[e].failedAt + 5.0 < checkedAt
  }

  /** A cached proxy may be chosen exactly if all policies and the hard bounds accept it, no
      matter where its score, latency or successes stand on their bounds, it is neither
      excluded nor the pool's own, no failure speaks against it, and it can be used after
      now: it has not expired and stays more than 5 s below every greatest age. */
  lemma EligibleExactly(cfg: Config, s: State, request: Policy, count: int, exclusions: seq<Endpoint>,
                        principal: string, now: real, q: Query, e: Endpoint)
    requires Inv(cfg, s, now) && QueryFor(cfg, request, count, exclusions, principal, now) == Some(q)
    requires e in s.records
    ensures Eligible(s, q, e) <==>
              var entry := s.records[e];
              var found := EvidenceOf(entry.item);
              && Accepts(found, request, now) && Accepts(found, cfg.policy, now)
              && Accepts(found, HardBounds(cfg.domain), now)
              && e !in exclusions && e !in s.formal && IsClear(s, e, entry.item.checkedAt, now)
              && now < entry.expires
              && now < entry.item.checkedAt + request.maxAge as real - 5.0
              && now < entry.item.checkedAt + cfg.policy.maxAge as real - 5.0
              && now < entry.item.checkedAt + 595.0
  {
    var entry := s.records[e];
    AcceptsByParts(cfg, s, q, e);
    EffectiveIsTheMeet(request, cfg.policy, cfg.policy, EvidenceOf(entry.item), now);
    MeetOfAges(cfg, request, count, exclusions, principal, now, q);
  }

  lemma MeetOfAges(cfg: Config, request: Policy, count: int, exclusions: seq<Endpoint>, principal: string, now: real,
                   q: Query)
    requires QueryFor(cfg, request, count, exclusions, principal, now) == Some(q)
    ensures q.policy.domain == cfg.domain == request.domain && q.now == now
    ensures q.policy.maxAge as real
            == MinReal(request.maxAge as real, MinReal(cfg.policy.maxAge as real, 600.0))
  {
  }

  /** The script's tests are the policy's, on a cached entry. */
  lemma AcceptsByParts(cfg: Config, s: State, q: Query, e: Endpoint)
    requires Inv(cfg, s, q.now) && e in s.records && q.policy.domain == cfg.domain
    ensures Eligible(s, q, e) <==>
              && Accepts(EvidenceOf(s.records[e].item), q.policy, q.now)
              && e !in q.excluded && e !in s.formal && IsClear(s, e, s.records[e].item.checkedAt, q.now)
              && q.now < s.records[e].expires
              && q.now < s.records[e].item.checkedAt + q.policy.maxAge as real - 5.0
  {
  }

  /** A choice may be used as long as all of this lasts, and no longer: 600 s from now, the
      entry's own expiry, and 5 s less than each greatest age. */
  lemma UsableExactly(cfg: Config, request: Policy, count: int, exclusions: seq<Endpoint>, principal: string,
                      now: real, q: Query, entry: Entry, u: real)
    requires QueryFor(cfg, request, count, exclusions, principal, now) == Some(q)
    ensures u <= UsableUntil(q, entry) <==>
              && u <= now + 600.0 && u <= entry.expires
              && u <= entry.item.checkedAt + request.maxAge as real - 5.0
              && u <= entry.item.checkedAt + cfg.policy.maxAge as real - 5.0
              && u <= entry.item.checkedAt + 595.0
  {
    MeetOfAges(cfg, request, count, exclusions, principal, now, q);
  }

  /** A request is answered exactly if it is for this domain, which is also that of the cache's
      policy, and for 1 to 20 proxies. */
  lemma RequestsAnswered(cfg: Config, s: State, request: Policy, count: int, exclusions: seq<Endpoint>,
                         principal: string, now: real, tokens: seq<Token>, order: seq<Endpoint>)
    ensures Select(cfg, s, request, count, exclusions, principal, now, tokens, order).1.Some?
            <==> request.domain == cfg.domain == cfg.policy.domain && 1 <= count <= 20
  {
  }

  // ---------- Snapshots ----------

  /** Why the store itself leaves an item of a snapshot out ... */
  predicate IsSpent(cfg: Config, item: Item, now: real) {
    || !Accepts(EvidenceOf(item), cfg.policy, now)
    || item.expiresAt <= now
    || item.syncedAt + cfg.cacheTtl <= now
    || item.checkedAt + cfg.policy.maxAge as real - 5.0 <= now
  }

  /** ... and why it is left out before failures are looked at. */
  predicate IsUnfit(cfg: Config, s: State, item: Item, now: real) {
    IsSpent(cfg, item, now) || item.endpoint in s.formal
  }

  lemma FateExactly(cfg: Config, s: State, item: Item, now: real)
    ensures FateOf(cfg, s, item, now)
            == if IsUnfit(cfg, s, item, now) then Filtered
               else if !IsClear(s, item.endpoint, item.checkedAt, now) then Suppressed else Accepted
  {
  }

  function Fates(cfg: Config, s: State, snapshot: seq<Item>, now: real): (r: seq<Fate>)
    ensures |r| == |snapshot|
  {
    seq(|snapshot|, i requires 0 <= i < |snapshot| => FateOf(cfg, s, snapshot[i], now))
  }

  function Places(fates: seq<Fate>, n: nat, fate: Fate): set<int>
    requires n <= |fates|
  {
    set i | 0 <= i < n && fates[i] == fate
  }

  function Occurrences(fates: seq<Fate>, n: nat, fate: Fate): nat
    requires n <= |fates|
  {
    if n == 0 then 0 else Occurrences(fates, n - 1, fate) + if fates[n - 1] == fate then 1 else 0
  }

  lemma {:induction false} OccurrencesAreCounted(fates: seq<Fate>, n: nat, fate: Fate)
    requires n <= |fates|
    ensures Occurrences(fates, n, fate) == |Places(fates, n, fate)|
  {
    if n == 0 {
      assert Places(fates, n, fate) == {};
    } else {
      OccurrencesAreCounted(fates, n - 1, fate);
      var earlier := Places(fates, n - 1, fate);
      assert n - 1 !in earlier;
      if fates[n - 1] == fate {
        assert Places(fates, n, fate) == earlier + {n - 1};
      } else {
        assert Places(fates, n, fate) == earlier;
      }
    }
  }

  lemma {:induction false} CountIsOccurrences(cfg: Config, s: State, snapshot: seq<Item>, now: real, fate: Fate, n: nat)
    requires n <= |snapshot|
    ensures CountFate(cfg, s, snapshot[..n], now, fate) == Occurrences(Fates(cfg, s, snapshot, now), n, fate)
  {
    if n == 0 {
    } else {
      CountIsOccurrences(cfg, s, snapshot, now, fate, n - 1);
      assert snapshot[..n][..n - 1] == snapshot[..n - 1];
    }
  }

  /** A committed snapshot, item by item: kept exactly if the cache's policy accepts it, its own
      expiry, the cache's time to live and its greatest age all lie after now, it is not the
      pool's own, and no failure speaks against it. It expires at the least of the three
      times, so never later than 180 s after it was synced. The counts are the numbers of
      items so kept, left out and suppressed. */
  lemma SnapshotExactly(cfg: Config, s: State, clock: real, snapshot: seq<Item>, generation: Option<int>, owner: Owner,
                        now: real, i: nat, u: real)
    requires IsConfig(cfg) && Inv(cfg, s, clock) && i < |snapshot|
    requires Replace(cfg, s, snapshot, generation, owner, now).1.Committed?
    ensures var (t, item) := (Replace(cfg, s, snapshot, generation, owner, now).0, snapshot[i]);
            && (item.endpoint in t.records <==>
                  !IsUnfit(cfg, s, item, now) && IsClear(s, item.endpoint, item.checkedAt, now))
            && (item.endpoint in t.records ==>
                  && t.records[item.endpoint].item == item
                  && (u <= t.records[item.endpoint].expires <==>
                        u <= item.expiresAt && u <= item.syncedAt + cfg.cacheTtl
                        && u <= item.checkedAt + cfg.policy.maxAge as real - 5.0)
                  && t.records[item.endpoint].expires <= item.syncedAt + 180.0)
  {
    CommitIsComplete(cfg, s, clock, snapshot, generation, owner, now);
    FateExactly(cfg, s, snapshot[i], now);
    var t := Replace(cfg, s, snapshot, generation, owner, now).0;
    assert AsJudged(cfg, s, t.records, snapshot[i], now);
  }

  lemma SnapshotCounts(cfg: Config, s: State, clock: real, snapshot: seq<Item>, generation: Option<int>, owner: Owner,
                       now: real)
    requires IsConfig(cfg) && Inv(cfg, s, clock)
    requires Replace(cfg, s, snapshot, generation, owner, now).1.Committed?
    ensures var r := Replace(cfg, s, snapshot, generation, owner, now).1;
            && r.filtered == |set i | 0 <= i < |snapshot| && IsUnfit(cfg, s, snapshot[i], now)|
            && r.suppressed == |set i | 0 <= i < |snapshot| && !IsUnfit(cfg, s, snapshot[i], now)
                                        && !IsClear(s, snapshot[i].endpoint, snapshot[i].checkedAt, now)|
  {
    var s1 := Collected(s, now);
    var fates := Fates(cfg, s1, snapshot, now);
    assert snapshot[..|snapshot|] == snapshot;
    CountIsOccurrences(cfg, s1, snapshot, now, Filtered, |snapshot|);
    CountIsOccurrences(cfg, s1, snapshot, now, Suppressed, |snapshot|);
    OccurrencesAreCounted(fates, |fates|, Filtered);
    OccurrencesAreCounted(fates, |fates|, Suppressed);
    forall i | 0 <= i < |snapshot|
      ensures fates[i] == if IsUnfit(cfg, s, snapshot[i], now) then Filtered
                          else if !IsClear(s, snapshot[i].endpoint, snapshot[i].checkedAt, now) then Suppressed
                          else Accepted
    {
      CollectionIsInvisible(cfg, s, clock, snapshot[i], now);
      FateExactly(cfg, s, snapshot[i], now);
    }
    assert Places(fates, |fates|, Filtered)
        == (set i | 0 <= i < |snapshot| && IsUnfit(cfg, s, snapshot[i], now));
    assert Places(fates, |fates|, Suppressed)
        == (set i | 0 <= i < |snapshot| && !IsUnfit(cfg, s, snapshot[i], now)
                    && !IsClear(s, snapshot[i].endpoint, snapshot[i].checkedAt, now));
  }

  function SpentAmong(cfg: Config, snapshot: seq<Item>, now: real): set<int> {
    set i | 0 <= i < |snapshot| && IsSpent(cfg, snapshot[i], now)
  }

  lemma SpentDoesNotPass(cfg: Config, item: Item, now: real)
    ensures Passes(cfg, item, now) <==> !IsSpent(cfg, item, now)
  {
  }

  lemma SpentAmongLast(cfg: Config, snapshot: seq<Item>, now: real)
    requires snapshot != []
    ensures var n := |snapshot| - 1;
            |SpentAmong(cfg, snapshot, now)|
            == |SpentAmong(cfg, snapshot[..n], now)| + if IsSpent(cfg, snapshot[n], now) then 1 else 0
  {
    var n := |snapshot| - 1;
    var earlier := SpentAmong(cfg, snapshot[..n], now);
    assert n !in earlier;
    if IsSpent(cfg, snapshot[n], now) {
      assert SpentAmong(cfg, snapshot, now) == earlier + {n};
    } else {
      assert SpentAmong(cfg, snapshot, now) == earlier;
    }
  }

  lemma {:induction false} PrefilterDrops(cfg: Config, snapshot: seq<Item>, now: real)
    ensures |snapshot| - |Prefiltered(cfg, snapshot, now)| == |SpentAmong(cfg, snapshot, now)|
  {
    if snapshot == [] {
      assert SpentAmong(cfg, snapshot, now) == {};
    } else {
      var n := |snapshot| - 1;
      PrefilterDrops(cfg, snapshot[..n], now);
      SpentDoesNotPass(cfg, snapshot[n], now);
      SpentAmongLast(cfg, snapshot, now);
    }
  }

  /** A valid replacement without the lock of its generation changes nothing and reports as
      filtered what the store left out itself. */
  lemma StaleChangesNothing(cfg: Config, s: State, snapshot: seq<Item>, generation: Option<int>, owner: Owner,
                            now: real)
    ensures var (t, r) := Replace(cfg, s, snapshot, generation, owner, now);
            r.Stale? ==>
              && t == s && r.filtered == |SpentAmong(cfg, snapshot, now)|
              && (s.lock.None? || s.generation != generation.value || s.lock.value.owner != owner
                  || s.lock.value.generation != s.generation)
  {
    PrefilterDrops(cfg, snapshot, now);
  }

  /** A commit forgets exactly the failures whose time on record is over by now, and keeps the
      others as they are. */
  lemma CommitForgetsExactly(cfg: Config, s: State, clock: real, snapshot: seq<Item>, generation: Option<int>,
                             owner: Owner, now: real, e: Endpoint)
    requires Inv(cfg, s, clock) && Replace(cfg, s, snapshot, generation, owner, now).1.Committed?
    ensures var t := Replace(cfg, s, snapshot, generation, owner, now).0;
            && (e in t.suppression <==> e in s.suppression && s.suppressionExpiry[e] > now)
            && (e in t.suppression ==> t.suppression[e] == s.suppression[e])
            && (e in t.suppressionExpiry <==> e in t.suppression)
            && (e in t.suppression ==> t.suppressionExpiry[e] == s.suppressionExpiry[e])
  {
  }

  /** A replacement is refused exactly for a missing generation or owner, more than 20 items,
      two items of one endpoint, or an item of another domain, peer or node or synced more
      than 5 s ahead. */
  lemma RefusedExactly(cfg: Config, s: State, snapshot: seq<Item>, generation: Option<int>, owner: Owner, now: real)
    ensures Replace(cfg, s, snapshot, generation, owner, now).1.Invalid? <==>
              || generation.None? || generation.value <= 0 || owner == "" || |snapshot| > 20
              || (exists i, j :: 0 <= i < j < |snapshot| && snapshot[i].endpoint == snapshot[j].endpoint)
              || (exists i :: 0 <= i < |snapshot|
                              && (snapshot[i].domain != cfg.domain || snapshot[i].peerName != cfg.peerName
                                  || (cfg.originNode.Some? && snapshot[i].originNode != cfg.originNode.value)
                                  || snapshot[i].syncedAt > now + 5.0))
  {
    if i :| 0 <= i < |snapshot| && !Belongs(cfg, snapshot[i], now) {
    }
  }

  // ---------- The lock ----------

  /** A free lock goes to whoever asks, with the next generation; a held one to nobody; and only
      its holder gives it up. */
  lemma LockExactly(s: State, owner: Owner, claimed: nat)
    ensures var (t, begun) := BeginSync(s, owner);
            && (begun.Some? <==> s.lock.None?)
            && (begun.Some? ==> begun.value == t.generation == s.generation + 1
                                && t.lock == Some(Lock(owner, s.generation + 1)))
            && t == s.(generation := t.generation, lock := t.lock) && (begun.None? ==> t == s)
    ensures var t := AbortSync(s, owner, claimed);
            && t == s.(lock := t.lock) && (t.lock == s.lock || t.lock == None)
            && (s.lock.Some? ==> (t.lock.None? <==> s.lock.value.owner == owner && s.lock.value.generation == claimed))
  {
  }
}
