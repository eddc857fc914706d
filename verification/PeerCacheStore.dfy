/** The peer cache run step by step over its keys. */
module PeerCacheStore {
  import opened SortedSets
  import opened PeerPolicy
  import opened PeerCache

  // ---------- The replacement script on its own ----------

  /** What the script decides on one entry that the store has sent it. */
  function Judge(s: State, entry: Entry, now: real): Fate {
    if entry.expires <= now || entry.item.endpoint in s.formal then Filtered
    else if Blocked(s.suppression, entry.item.endpoint, entry.item.checkedAt, now) then Suppressed
    else Accepted
  }

  function CountJudged(s: State, entries: seq<Entry>, now: real, fate: Fate): nat {
    if entries == [] then 0
    else CountJudged(s, entries[..|entries| - 1], now, fate)
         + if Judge(s, entries[|entries| - 1], now) == fate then 1 else 0
  }

  function Kept(s: State, entries: seq<Entry>, now: real): map<Endpoint, Entry> {
    if entries == [] then map[]
    else
      var entry := entries[|entries| - 1];
      var rest := Kept(s, entries[..|entries| - 1], now);
      if Judge(s, entry, now) == Accepted then rest[entry.item.endpoint := entry] else rest
  }

  /** The store's filter and the script together do to a snapshot what one pass with the
      whole test does, and their counts add up to its counts. */
  lemma {:induction false} TwoPassesAreOne(cfg: Config, s: State, snapshot: seq<Item>, now: real)
    ensures var sent := Prefiltered(cfg, snapshot, now);
            && Kept(s, sent, now) == AcceptedEntries(cfg, s, snapshot, now)
            && CountJudged(s, sent, now, Accepted) == CountFate(cfg, s, snapshot, now, Accepted)
            && CountJudged(s, sent, now, Suppressed) == CountFate(cfg, s, snapshot, now, Suppressed)
            && |snapshot| - |sent| + CountJudged(s, sent, now, Filtered) == CountFate(cfg, s, snapshot, now, Filtered)
  {
    if snapshot == [] {
    } else {
      var init, item := snapshot[..|snapshot| - 1], snapshot[|snapshot| - 1];
      TwoPassesAreOne(cfg, s, init, now);
      var before, sent := Prefiltered(cfg, init, now), Prefiltered(cfg, snapshot, now);
      if Passes(cfg, item, now) {
        assert sent[..|sent| - 1] == before && sent[|sent| - 1] == Entry(item, ExpiryOf(cfg, item));
        assert Judge(s, sent[|sent| - 1], now) == FateOf(cfg, s, item, now);
      } else {
        assert sent == before;
      }
    }
  }

  class Store {
    const cfg: Config
    var records: map<Endpoint, Entry>
    var expiry: map<Endpoint, real>
    var suppression: map<Endpoint, Failure>
    var suppressionExpiry: map<Endpoint, real>
    var generation: nat
    var lock: Option<Lock>
    var formal: set<Endpoint>
    var receipts: map<Digest, Receipt>
    var evictions: map<Digest, real>

    ghost function View(): State
      reads this
    {
      State(records, expiry, suppression, suppressionExpiry, generation, lock, formal, receipts, evictions)
    }

    constructor (cfg: Config)
      ensures View() == EMPTY && this.cfg == cfg
    {
      this.cfg := cfg;
      records, expiry, suppression, suppressionExpiry := map[], map[], map[], map[];
      generation, lock, formal, receipts, evictions := 0, None, {}, map[], map[];
    }

    method BeginSync(owner: Owner) returns (begun: Option<nat>)
      modifies this`generation, this`lock
      ensures (View(), begun) == PeerCache.BeginSync(old(View()), owner)
    {
      if lock.Some? {
        return None;
      }
      generation := generation + 1;
      lock := Some(Lock(owner, generation));
      begun := Some(generation);
    }

    method AbortSync(owner: Owner, claimed: nat)
      modifies this`lock
      ensures View() == PeerCache.AbortSync(old(View()), owner, claimed)
    {
      if lock == Some(Lock(owner, claimed)) {
        lock := None;
      }
    }

    /** Drop every failure whose time is over, one after the other. */
    method Collect(now: real)
      modifies this`suppression, this`suppressionExpiry
      ensures View() == Collected(old(View()), now)
    {
      var over := set e | e in suppressionExpiry && suppressionExpiry[e] <= now;
      var rest := over;
      while rest != {}
        invariant rest <= over
        invariant suppression == old(suppression) - (over - rest)
        invariant suppressionExpiry == old(suppressionExpiry) - (over - rest)
        decreases rest
      {
        var e :| e in rest;
        suppression := suppression - {e};
        suppressionExpiry := suppressionExpiry - {e};
        rest := rest - {e};
      }
      assert over - rest == over;
    }

    /** The script: refill the cache from the entries it was sent. */
    method Refill(sent: seq<Entry>, now: real) returns (accepted: nat, filtered: nat, suppressed: nat)
      modifies this
      ensures var s := Collected(old(View()), now);
              && records == Kept(s, sent, now)
              && View() == s.(records := records, expiry := ExpiryTimes(records), lock := None)
              && accepted == CountJudged(s, sent, now, Accepted)
              && filtered == CountJudged(s, sent, now, Filtered)
              && suppressed == CountJudged(s, sent, now, Suppressed)
    {
      Collect(now);
      ghost var s := View();
      records, expiry := map[], map[];
      accepted, filtered, suppressed := 0, 0, 0;
      for i := 0 to |sent|
        invariant View() == s.(records := records, expiry := expiry)
        invariant records == Kept(s, sent[..i], now) && expiry == ExpiryTimes(records)
        invariant accepted == CountJudged(s, sent[..i], now, Accepted)
        invariant filtered == CountJudged(s, sent[..i], now, Filtered)
        invariant suppressed == CountJudged(s, sent[..i], now, Suppressed)
      {
        assert sent[..i + 1][..i] == sent[..i] && sent[..i + 1][i] == sent[i];
        var e := sent[i].item.endpoint;
        if sent[i].expires <= now || e in formal {
          filtered := filtered + 1;
        } else if e in suppression && Blocks(suppression[e], sent[i].item.checkedAt, now) {
          suppressed := suppressed + 1;
        } else {
          records := records[e := sent[i]];
          expiry := expiry[e := sent[i].expires];
          accepted := accepted + 1;
        }
      }
      assert sent[..|sent|] == sent;
      lock := None;
    }

    /** The store's own filter, which refuses a snapshot that is not this peer's. */
    method Prefilter(snapshot: seq<Item>, now: real) returns (belongs: bool, sent: seq<Entry>, filtered: nat)
      ensures belongs <==> forall k :: 0 <= k < |snapshot| ==> Belongs(cfg, snapshot[k], now)
      ensures belongs ==> sent == Prefiltered(cfg, snapshot, now) && filtered == |snapshot| - |sent|
    {
      sent, filtered := [], 0;
      for i := 0 to |snapshot|
        invariant forall k :: 0 <= k < i ==> Belongs(cfg, snapshot[k], now)
        invariant sent == Prefiltered(cfg, snapshot[..i], now) && filtered == i - |sent|
      {
        var item := snapshot[i];
        assert snapshot[..i + 1][..i] == snapshot[..i];
        if item.domain != cfg.domain || item.peerName != cfg.peerName
           || (cfg.originNode.Some? && item.originNode != cfg.originNode.value)
        {
          return false, sent, filtered;
        }
        if item.syncedAt - now > SKEW {
          return false, sent, filtered;
        }
        if !Accepts(EvidenceOf(item), cfg.policy, now) {
          filtered := filtered + 1;
          continue;
        }
        var expires := ExpiryOf(cfg, item);
        if expires <= now {
          filtered := filtered + 1;
          continue;
        }
        sent := sent + [Entry(item, expires)];
      }
      assert snapshot[..|snapshot|] == snapshot;
      belongs := true;
    }

    method Replace(snapshot: seq<Item>, claimed: Option<int>, owner: Owner, now: real) returns (r: Replaced)
      modifies this
      ensures (View(), r) == PeerCache.Replace(cfg, old(View()), snapshot, claimed, owner, now)
    {
      if claimed.None? || claimed.value <= 0 || owner == "" || |snapshot| > 20 || !DistinctEndpoints(snapshot) {
        return Invalid;
      }
      var belongs, sent, filtered := Prefilter(snapshot, now);
      if !belongs {
        return Invalid;
      }
      if generation != claimed.value || lock != Some(Lock(owner, generation)) {
        return Stale(filtered);
      }
      TwoPassesAreOne(cfg, Collected(View(), now), snapshot, now);
      var accepted, unfit, suppressed := Refill(sent, now);
      r := Committed(accepted, filtered + unfit, suppressed);
    }

    /** The script: walk the endpoints that expire later, soonest first, issuing receipts. */
    method Select(request: Policy, count: int, exclusions: seq<Endpoint>, principal: string, now: real,
                  tokens: seq<Token>, order: seq<Endpoint>)
      returns (r: Option<seq<Selected>>)
      requires |tokens| == count && IsLaterThan(expiry, now, order)
      modifies this`receipts
      ensures (View(), r) ==
              PeerCache.Select(cfg, old(View()), request, count, exclusions, principal, now, tokens, order)
    {
      var query := QueryFor(cfg, request, count, exclusions, principal, now);
      if query.None? {
        return None;
      }
      var q := query.value;
      var chosen: seq<Selected> := [];
      var i := 0;
      while i < |order|
        invariant i <= |order| && |chosen| <= q.count && (i < |order| || |chosen| <= q.count)
        invariant View() == old(View()).(receipts := receipts)
        invariant SelectFrom(View(), q, tokens, order[i..], chosen)
                  == SelectFrom(old(View()), q, tokens, order, [])
      {
        assert order[i..][1..] == order[i + 1..];
        if |chosen| >= q.count {
          break;
        }
        var e := order[i];
        if e !in q.excluded && e !in formal && e in records {
          var entry := records[e];
          var age := now - entry.item.checkedAt;
          if entry.item.domain == cfg.domain && entry.item.score >= q.policy.minScore
             && entry.item.latency <= q.policy.maxLatency && entry.item.successes >= q.policy.minSuccesses
             && age >= -SKEW && age < q.policy.maxAge as real && entry.expires > now
          {
            var blocked := e in suppression && Blocks(suppression[e], entry.item.checkedAt, now);
            var usableUntil := UsableUntil(q, entry);
            if !blocked && usableUntil > now {
              var token := tokens[|chosen|];
              if Digest(token) !in receipts {
                receipts := receipts[Digest(token) := ReceiptFor(q, e, entry)];
                chosen := chosen + [Selected(entry, token, usableUntil)];
              }
            }
          }
        }
        i := i + 1;
      }
      r := Some(chosen);
    }

    /** The same script in counting mode. */
    method Count(request: Policy, now: real, order: seq<Endpoint>) returns (r: Option<nat>)
      requires IsLaterThan(expiry, now, order)
      ensures r == PeerCache.Count(cfg, View(), request, now, order)
    {
      var query := QueryFor(cfg, request, 20, [], "", now);
      if query.None? {
        return None;
      }
      var q := query.value;
      var n: nat := 0;
      for i := 0 to |order|
        invariant n < 20
        invariant CountFrom(View(), q, order[i..], n) == CountFrom(View(), q, order, 0)
      {
        assert order[i..][1..] == order[i + 1..];
        var e := order[i];
        if e !in formal && e in records {
          var entry := records[e];
          var age := now - entry.item.checkedAt;
          if entry.item.domain == cfg.domain && entry.item.score >= q.policy.minScore
             && entry.item.latency <= q.policy.maxLatency && entry.item.successes >= q.policy.minSuccesses
             && age >= -SKEW && age < q.policy.maxAge as real && entry.expires > now
             && !(e in suppression && Blocks(suppression[e], entry.item.checkedAt, now))
             && UsableUntil(q, entry) > now
          {
            n := n + 1;
            if n >= 20 {
              return Some(n);
            }
          }
        }
      }
      r := Some(n);
    }

    method Invalidate(digest: Digest, now: real) returns (r: Invalidation)
      modifies this
      ensures (View(), r) == PeerCache.Invalidate(cfg, old(View()), digest, now)
    {
      if digest !in receipts {
        return Expired;
      }
      var receipt := receipts[digest];
      if receipt.failureApplied {
        return AlreadyApplied;
      }
      receipts := receipts[digest := receipt.(failureApplied := true)];
      suppression := suppression[receipt.endpoint := Failure(now, receipt.sourceCheckedAt, now + cfg.cooldown)];
      suppressionExpiry := suppressionExpiry[receipt.endpoint := now + Lifetime(cfg)];
      evictions := evictions[digest := now];
      evictions := Recent(evictions, now);
      records := records - {receipt.endpoint};
      expiry := expiry - {receipt.endpoint};
      r := Applied;
    }
  }
}
