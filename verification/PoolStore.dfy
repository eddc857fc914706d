/** The pool's operations run step by step over its keys. */
module PoolStore {
  import opened SortedSets
  import opened Pool
  import opened Eviction
  import opened Scans
  import Selection
  import PoolRuns
  import Rebuild

  lemma EvictNothing(s: State)
    ensures Evict(s, []) == s
  {
    assert s.records - {} == s.records && s.quality - {} == s.quality && s.due - {} == s.due
           && s.latency - {} == s.latency;
  }

  lemma MinusTwice<V>(m: map<Endpoint, V>, a: set<Endpoint>, b: set<Endpoint>)
    ensures m - a - b == m - (a + b)
  {
  }

  lemma EvictInChunks(s: State, a: seq<Endpoint>, b: seq<Endpoint>)
    ensures Evict(Evict(s, a), b) == Evict(s, a + b)
  {
    var first, second := set e | e in a, set e | e in b;
    assert (set e | e in a + b) == first + second;
    MinusTwice(s.records, first, second);
    MinusTwice(s.quality, first, second);
    MinusTwice(s.due, first, second);
    MinusTwice(s.latency, first, second);
  }

  /** The candidates kept after the first i batches of a scan. */
  ghost function KeptOf(s: State, batches: seq<seq<Endpoint>>, i: nat, excess: nat): seq<Rank>
    requires IsScan(s.records, batches) && i <= |batches|
  {
    JoinedPrefix(batches, i);
    KeptAfter(s, Joined(batches[..i]), excess)
  }

  lemma ScanStep(s: State, batches: seq<seq<Endpoint>>, i: nat, excess: nat)
    requires IsScan(s.records, batches) && i < |batches|
    ensures forall e :: e in batches[i] ==> e in s.records
    ensures First(Sorted(KeptOf(s, batches, i, excess) + RanksOf(s, batches[i])), excess)
            == KeptOf(s, batches, i + 1, excess)
  {
    var names := Joined(batches[..i]);
    assert batches[..i + 1][..i] == batches[..i];
    assert Joined(batches[..i + 1]) == names + batches[i];
    JoinedPrefix(batches, i + 1);
    KeptAfterBatch(s, names, batches[i], excess);
  }

  class Store {
    const maxLatency: real
    var records: map<Endpoint, Record>
    var quality: map<Endpoint, int>
    var due: map<Endpoint, int>
    var leased: map<Endpoint, int>
    var owners: map<Endpoint, Token>
    var latency: map<Endpoint, real>
    var priority: map<Endpoint, int>

    ghost function View(): State
      reads this
    {
      State(records, quality, due, leased, owners, latency, priority)
    }

    /** The latency up to which a proxy is fast is a parameter of the store. */
    constructor (maxLatency: real)
      ensures View() == EMPTY && this.maxLatency == maxLatency
    {
      this.maxLatency := maxLatency;
      records, quality, due, leased, owners, latency, priority := map[], map[], map[], map[], map[], map[], map[];
    }

    /** Put an endpoint into the two selection indexes, or take it out, as its record says. */
    method Index(e: Endpoint, r: Record)
      modifies this`latency, this`priority
      ensures latency == Placed(old(latency), e, LatencyScore(r))
      ensures priority == Placed(old(priority), e, PriorityScore(r, maxLatency))
    {
      var score := LatencyScore(r);
      if score.None? {
        latency := latency - {e};
      } else {
        latency := latency[e := score.value];
      }
      var dueAt := PriorityScore(r, maxLatency);
      if dueAt.None? {
        priority := priority - {e};
      } else {
        priority := priority[e := dueAt.value];
      }
    }

    method UpsertCandidate(r: Record)
      modifies this
      ensures View() == Pool.UpsertCandidate(old(View()), maxLatency, r)
    {
      var e := r.endpoint;
      if e !in records {
        records := records[e := r.(health := Candidate)];
        quality := quality[e := r.score];
        due := due[e := r.nextCheckAt];
        latency := latency - {e};
        priority := priority - {e};
        return;
      }
      var merged := Merged(records[e], r);
      records := records[e := merged];
      Index(e, merged);
    }

    method SaveRecord(r: Record)
      modifies this
      ensures View() == Pool.SaveRecord(old(View()), maxLatency, r)
    {
      var e := r.endpoint;
      records := records[e := r];
      quality := quality[e := r.score];
      due := due[e := r.nextCheckAt];
      Index(e, r);
    }

    /** Lease the members of one read that are not leased yet. */
    method TakeAll(batch: seq<Endpoint>, expires: int, token: Token) returns (taken: seq<Endpoint>)
      modifies this`due, this`leased, this`owners
      ensures (View(), taken) == LeaseFree(old(View()), batch, expires, token)
    {
      taken := [];
      for i := 0 to |batch|
        invariant (View(), taken) == LeaseFree(old(View()), batch[..i], expires, token)
      {
        assert batch[..i + 1][..i] == batch[..i];
        var e := batch[i];
        if e !in leased {
          due := due - {e};
          leased := leased[e := expires];
          owners := owners[e := token];
          taken := taken + [e];
        }
      }
      assert batch[..|batch|] == batch;
    }

    /** The reads are the store's own; `fast` and `general` only name them. */
    method ClaimDue(c: Claim)
      returns (claimed: Option<seq<Endpoint>>, ghost fast: seq<Endpoint>, ghost general: seq<Endpoint>)
      modifies this
      ensures ClaimReads(old(View()), c, fast, general)
      ensures (View(), claimed) == Pool.ClaimDue(old(View()), c, fast, general)
    {
      fast, general := [], [];
      if !(1 <= c.limit <= 1000) || c.worker == "" || c.leaseTime <= 0 {
        return None, fast, general;
      }
      var expires := c.now + c.leaseTime;
      var priorityLimit := PriorityLimit(c.limit);
      var members := RangeByScore(priority, c.now, priorityLimit);
      fast := members;
      var first := TakeAll(members, expires, c.token);
      var remaining := c.limit - |first|;
      if remaining <= 0 {
        return Some(first), fast, general;
      }
      members := RangeByScore(due, c.now, remaining);
      general := members;
      var second := TakeAll(members, expires, c.token);
      claimed := Some(first + second);
    }

    method Complete(e: Endpoint, token: Token, r: Record) returns (answer: Answer)
      modifies this
      ensures (View(), answer) == Pool.Complete(old(View()), maxLatency, e, token, r)
    {
      if r.endpoint != e {
        return Rejected;
      }
      if !(e in owners && owners[e] == token) {
        return Lost;
      }
      records := records[e := r];
      quality := quality[e := r.score];
      due := due[e := r.nextCheckAt];
      Index(e, r);
      leased := leased - {e};
      owners := owners - {e};
      answer := Done;
    }

    method Release(e: Endpoint, token: Token, dueAt: int) returns (answer: Answer)
      modifies this
      ensures (View(), answer) == Pool.Release(old(View()), e, token, dueAt)
    {
      if !(e in owners && owners[e] == token) {
        return Lost;
      }
      due := due[e := dueAt];
      if e in priority {
        priority := priority[e := dueAt];
      }
      leased := leased - {e};
      owners := owners - {e};
      answer := Done;
    }

    method DeleteLeased(e: Endpoint, token: Token) returns (answer: Answer)
      modifies this
      ensures (View(), answer) == Pool.DeleteLeased(old(View()), e, token)
    {
      if !(e in owners && owners[e] == token) {
        return Lost;
      }
      records, quality, due, leased := records - {e}, quality - {e}, due - {e}, leased - {e};
      owners, latency, priority := owners - {e}, latency - {e}, priority - {e};
      answer := Done;
    }

    method ReclaimExpired(now: int, limit: int) returns (back: Option<seq<Endpoint>>, ghost batch: seq<Endpoint>)
      modifies this
      ensures 1 <= limit <= 1000 ==> IsRange(old(leased), now, limit, batch)
      ensures (View(), back) == Pool.ReclaimExpired(old(View()), now, limit, batch)
    {
      batch := [];
      if !(1 <= limit <= 1000) {
        return None, batch;
      }
      var members := RangeByScore(leased, now, limit);
      batch := members;
      for i := 0 to |members|
        invariant View() == GivenBack(old(View()), now, members[..i])
      {
        assert members[..i + 1][..i] == members[..i];
        var e := members[i];
        leased := leased - {e};
        due := due[e := now];
        owners := owners - {e};
      }
      assert members[..|members|] == members;
      back := Some(members);
    }

    /** One HSCAN batch ranked, without what is leased. */
    method RankBatch(names: seq<Endpoint>) returns (batch: seq<Rank>)
      requires forall e :: e in names ==> e in records
      ensures batch == RanksOf(View(), names)
    {
      batch := [];
      for i := 0 to |names|
        invariant batch == RanksOf(View(), names[..i])
      {
        assert names[..i + 1][..i] == names[..i];
        var e := names[i];
        if e in leased {
          continue;
        }
        batch := batch + [RankOf(records[e], e)];
      }
      assert names[..|names|] == names;
    }

    /** Keep the lowest-ranked candidates of a whole scan, batch by batch. */
    method LowestOfScan(batches: seq<seq<Endpoint>>, excess: nat) returns (kept: seq<Rank>)
      requires IsScan(records, batches)
      ensures IsLowest(View(), excess, EndpointsOf(kept))
    {
      kept := [];
      ghost var s := View();
      for i := 0 to |batches|
        invariant kept == KeptOf(s, batches, i, excess)
      {
        ScanStep(s, batches, i, excess);
        var batch := RankBatch(batches[i]);
        kept := First(Sorted(kept + batch), excess);
      }
      assert batches[..|batches|] == batches;
      ScanRanksAll(s, Joined(batches));
      FirstIsLowest(s, RanksOf(s, Joined(batches)), excess, EndpointsOf(kept));
    }

    /** Remove the given endpoints in chunks of 500. */
    method Remove(names: seq<Endpoint>)
      modifies this
      ensures View() == Evict(old(View()), names)
    {
      ghost var s := View();
      EvictNothing(s);
      var start := 0;
      while start < |names|
        invariant start <= |names|
        invariant View() == Evict(s, names[..start])
      {
        var end := Min(start + 500, |names|);
        EvictInChunks(s, names[..start], names[start..end]);
        assert names[..end] == names[..start] + names[start..end];
        RemoveChunk(names[start..end]);
        start := end;
      }
      assert names[..|names|] == names;
    }

    method RemoveChunk(names: seq<Endpoint>)
      modifies this
      ensures View() == Evict(old(View()), names)
    {
      var chunk := set e | e in names;
      records := records - chunk;
      quality := quality - chunk;
      due := due - chunk;
      latency := latency - chunk;
    }

    /** Remove the records beyond the maximum, lowest-ranked first. */
    method EnforceCapacity(maximum: int, batches: seq<seq<Endpoint>>)
      returns (removed: Option<nat>, ghost gone: seq<Endpoint>)
      requires IsScan(records, batches)
      modifies this
      ensures removed == if maximum >= 1 then Some(|gone|) else None
      ensures maximum < 1 || |old(records)| <= maximum ==> gone == []
      ensures maximum >= 1 && |old(records)| > maximum ==> IsLowest(old(View()), |old(records)| - maximum, gone)
      ensures View() == Evict(old(View()), gone)
    {
      gone := [];
      EvictNothing(View());
      if maximum < 1 {
        return None, gone;
      }
      var excess := |records| - maximum;
      if excess <= 0 {
        return Some(0), gone;
      }
      var kept := LowestOfScan(batches, excess);
      var names := EndpointsOf(kept);
      Remove(names);
      gone := names;
      removed := Some(|names|);
    }

    /** Rebuild the selection indexes from the records, for any scan of them. Whatever was in
        the indexes before, afterwards they agree with the records, and no priority entry
        lacks a record. */
    method RebuildIndexes(batches: seq<seq<Endpoint>>)
      requires PoolRuns.AgreesButSelection(View()) && IsScan(records, batches)
      modifies this`latency, this`priority
      ensures View() == Rebuilt(old(View()), maxLatency)
      ensures PoolRuns.Inv(View(), maxLatency) && forall e :: e in priority ==> e in records
    {
      ghost var s := View();
      var stored := map e | e in records :: Selection.Encoded(records[e]);
      assert stored == Selection.DataOf(s).stored;
      var indexes := new Rebuild.Indexes();
      var summary := indexes.Rebuild(stored, maxLatency, batches, false);
      latency, priority := indexes.latency, indexes.priority;
      Rebuild.RebuildOfPool(s, maxLatency);
      PoolRuns.RebuildRestores(s, maxLatency);
    }
  }
}
