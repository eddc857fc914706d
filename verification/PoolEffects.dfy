/** What each operation of the pool writes, said in terms of the record and the state before
    it, and how long an endpoint that is given back stays away. */
module PoolEffects {
  import opened SortedSets
  import opened Pool
  import opened PoolRuns
  import opened PoolLeases

  // ---------- Records ----------

  /** An available proxy with a measured latency. */
  predicate IsMeasured(r: Record) {
    r.health == Available && r.latency.Some? && r.latency.value >= 0.0
  }

  predicate IsFast(r: Record, maxLatency: real) {
    IsMeasured(r) && r.latency.value <= maxLatency
  }

  predicate SameAt<V(==)>(a: map<Endpoint, V>, b: map<Endpoint, V>, x: Endpoint) {
    (x in a <==> x in b) && (x in a ==> a[x] == b[x])
  }

  /** Nothing but what is kept about e has changed. */
  ghost predicate OnlyTouches(s: State, t: State, e: Endpoint) {
    forall x :: x != e ==>
      && SameAt(s.records, t.records, x) && SameAt(s.quality, t.quality, x) && SameAt(s.due, t.due, x)
      && SameAt(s.leased, t.leased, x) && SameAt(s.owners, t.owners, x)
      && SameAt(s.latency, t.latency, x) && SameAt(s.priority, t.priority, x)
  }

  /** The record is stored under its score, due at its next check, indexed by its latency if it
      has one to select by, and by its next check once more if that latency is low enough. */
  predicate IsStored(t: State, maxLatency: real, r: Record) {
    var e := r.endpoint;
    && e in t.records && t.records[e] == r
    && e in t.quality && t.quality[e] == r.score
    && e in t.due && t.due[e] == r.nextCheckAt
    && (e in t.latency <==> IsMeasured(r)) && (e in t.latency ==> t.latency[e] == r.latency.value)
    && (e in t.priority <==> IsFast(r, maxLatency)) && (e in t.priority ==> t.priority[e] == r.nextCheckAt)
  }

  lemma SavedExactly(s: State, maxLatency: real, r: Record)
    ensures var t := SaveRecord(s, maxLatency, r);
            && IsStored(t, maxLatency, r) && OnlyTouches(s, t, r.endpoint)
            && t.leased == s.leased && t.owners == s.owners
  {
  }

  /** A completion under the owner's token stores the record it brings and ends the lease. A
      record of another endpoint is rejected, and without the lease nothing happens. */
  lemma CompletedExactly(s: State, maxLatency: real, e: Endpoint, token: Token, r: Record)
    ensures var (t, answer) := Complete(s, maxLatency, e, token, r);
            && (answer == Rejected <==> r.endpoint != e)
            && (answer == Done <==> r.endpoint == e && e in s.owners && s.owners[e] == token)
            && (answer != Done ==> t == s)
            && (answer == Done ==>
                  IsStored(t, maxLatency, r) && e !in t.leased && e !in t.owners && OnlyTouches(s, t, e))
  {
    SavedExactly(s, maxLatency, r);
  }

  /** A release makes the endpoint due at the given time, in the priority index too if it is
      there, leaves its record and scores as they are, and ends the lease. */
  lemma ReleasedExactly(s: State, e: Endpoint, token: Token, dueAt: int)
    ensures var (t, answer) := Release(s, e, token, dueAt);
            && (answer == Done <==> e in s.owners && s.owners[e] == token)
            && (answer != Done ==> t == s)
            && (answer == Done ==>
                  && e in t.due && t.due[e] == dueAt
                  && (e in t.priority <==> e in s.priority) && (e in t.priority ==> t.priority[e] == dueAt)
                  && e !in t.leased && e !in t.owners
                  && t.records == s.records && t.quality == s.quality && t.latency == s.latency
                  && OnlyTouches(s, t, e))
  {
  }

  /** A deletion leaves no trace of the endpoint in any key. */
  lemma DeletedExactly(s: State, e: Endpoint, token: Token)
    ensures var (t, answer) := DeleteLeased(s, e, token);
            && (answer == Done <==> e in s.owners && s.owners[e] == token)
            && (answer != Done ==> t == s)
            && (answer == Done ==>
                  && e !in t.records && e !in t.quality && e !in t.due && e !in t.leased && e !in t.owners
                  && e !in t.latency && e !in t.priority && OnlyTouches(s, t, e))
  {
  }

  /** An eviction removes its endpoints from the records and all indexes but the priority one,
      and touches nothing else. */
  lemma EvictedExactly(s: State, gone: seq<Endpoint>, x: Endpoint)
    ensures var t := Evict(s, gone);
            && (t.leased, t.owners, t.priority) == (s.leased, s.owners, s.priority)
            && if x in gone then x !in t.records && x !in t.quality && x !in t.due && x !in t.latency
               else SameAt(s.records, t.records, x) && SameAt(s.quality, t.quality, x)
                    && SameAt(s.due, t.due, x) && SameAt(s.latency, t.latency, x)
  {
  }

  /** A clean-up takes the suspects out of the latency index and does nothing else. */
  lemma ClearedExactly(s: State, suspects: set<Endpoint>, x: Endpoint)
    ensures var t := Cleared(s, suspects);
            && (x in t.latency <==> x in s.latency && x !in suspects)
            && (x in t.latency ==> t.latency[x] == s.latency[x])
            && (t.records, t.quality, t.due) == (s.records, s.quality, s.due)
            && (t.leased, t.owners, t.priority) == (s.leased, s.owners, s.priority)
  {
  }

  /** A claim is refused exactly for a limit outside 1..1000, a worker without a name or a lease
      that does not last, a reclaim for such a limit; and a refusal changes nothing. */
  lemma RequestsRefusedExactly(s: State, c: Claim, fast: seq<Endpoint>, general: seq<Endpoint>, limit: int,
                               batch: seq<Endpoint>)
    ensures var (t, taken) := ClaimDue(s, c, fast, general);
            && (taken.None? <==> c.limit < 1 || c.limit > 1000 || c.worker == "" || c.leaseTime <= 0)
            && (taken.None? ==> t == s)
    ensures var (t, back) := ReclaimExpired(s, c.now, limit, batch);
            && (back.None? <==> limit < 1 || limit > 1000)
            && (back.None? ==> t == s)
  {
  }

  /** A sighting of a new endpoint stores it as a candidate that is due at its next check. */
  lemma EnteredExactly(s: State, maxLatency: real, r: Record)
    requires r.endpoint !in s.records
    ensures var t := UpsertCandidate(s, maxLatency, r);
            && t.records == s.records[r.endpoint := r.(health := Candidate)]
            && IsStored(t, maxLatency, r.(health := Candidate)) && OnlyTouches(s, t, r.endpoint)
            && t.leased == s.leased && t.owners == s.owners
  {
  }

  /** A sighting of a known one adds its sources and widens the time it was seen in, and keeps
      everything that checks have found out: health, score, successes, latency and times.
      It keeps its due time, but takes its next check as its time in the priority index. */
  lemma SeenAgainExactly(s: State, maxLatency: real, r: Record)
    requires r.endpoint in s.records && s.records[r.endpoint].endpoint == r.endpoint
    ensures var t, known := UpsertCandidate(s, maxLatency, r), s.records[r.endpoint];
            && r.endpoint in t.records
            && var merged := t.records[r.endpoint];
            && merged == known.(sources := merged.sources, firstSeenAt := merged.firstSeenAt,
                                lastSeenAt := merged.lastSeenAt)
            && (forall x :: x in merged.sources <==> x in known.sources || x in r.sources)
            && merged.firstSeenAt <= known.firstSeenAt && merged.firstSeenAt <= r.firstSeenAt
            && (merged.firstSeenAt == known.firstSeenAt || merged.firstSeenAt == r.firstSeenAt)
            && merged.lastSeenAt >= known.lastSeenAt && merged.lastSeenAt >= r.lastSeenAt
            && (merged.lastSeenAt == known.lastSeenAt || merged.lastSeenAt == r.lastSeenAt)
            && (t.due, t.quality, t.leased, t.owners) == (s.due, s.quality, s.leased, s.owners)
            && (r.endpoint in t.priority <==> IsFast(known, maxLatency))
            && (r.endpoint in t.priority ==> t.priority[r.endpoint] == known.nextCheckAt)
            && OnlyTouches(s, t, r.endpoint)
  {
  }

  /** The priority index may take four fifths of a claim's places, rounded down, which of two or
      more always leaves one; of one it may take that one. */
  lemma PriorityShare(limit: int)
    requires limit >= 1
    ensures limit == 1 ==> PriorityLimit(limit) == 1
    ensures limit >= 2 ==> 5 * PriorityLimit(limit) <= 4 * limit < 5 * PriorityLimit(limit) + 5
    ensures limit >= 2 ==> 1 <= PriorityLimit(limit) < limit
  {
  }

  // ---------- How long an endpoint stays away ----------

  /** Neither index offers the endpoint before the given time, and neither will a rebuild or
      another sighting. */
  predicate IsHeldOff(s: State, maxLatency: real, e: Endpoint, until: int) {
    && e !in s.leased && e !in s.owners
    && (e in s.due ==> s.due[e] >= until)
    && (e in s.priority ==> s.priority[e] >= until)
    && (e in s.records ==>
          && s.records[e].endpoint == e
          && (IsFast(s.records[e], maxLatency) ==> s.records[e].nextCheckAt >= until))
  }

  /** Event k stores a new record for the endpoint. */
  predicate IsWritten(run: Run, k: int, e: Endpoint)
    requires |run.states| == |run.events| + 1
  {
    && 0 <= k < |run.events|
    && ((run.events[k].Save? && run.events[k].saved.endpoint == e)
        || (run.events[k].Upsert? && run.events[k].seen.endpoint == e && e !in run.states[k].records))
  }

  lemma HeldOffElsewhere(s: State, t: State, maxLatency: real, x: Endpoint, e: Endpoint, until: int)
    requires IsHeldOff(s, maxLatency, e, until) && OnlyTouches(s, t, x) && x != e
    ensures IsHeldOff(t, maxLatency, e, until)
  {
    assert SameAt(s.records, t.records, e) && SameAt(s.due, t.due, e) && SameAt(s.priority, t.priority, e);
    assert SameAt(s.leased, t.leased, e) && SameAt(s.owners, t.owners, e);
  }

  lemma RefreshedTouches(s: State, maxLatency: real, x: Endpoint, merged: Record)
    ensures OnlyTouches(s, Refreshed(s, maxLatency, x, merged), x)
  {
  }

  lemma HeldOffOnUpsert(s: State, maxLatency: real, r: Record, e: Endpoint, until: int)
    requires IsHeldOff(s, maxLatency, e, until) && (r.endpoint == e ==> e in s.records)
    ensures IsHeldOff(UpsertCandidate(s, maxLatency, r), maxLatency, e, until)
  {
    var t := UpsertCandidate(s, maxLatency, r);
    if r.endpoint == e {
      SeenAgainExactly(s, maxLatency, r);
    } else {
      if r.endpoint in s.records {
        RefreshedTouches(s, maxLatency, r.endpoint, Merged(s.records[r.endpoint], r));
      } else {
        EnteredExactly(s, maxLatency, r);
      }
      HeldOffElsewhere(s, t, maxLatency, r.endpoint, e, until);
    }
  }

  lemma HeldOffOnFinish(s: State, maxLatency: real, x: Endpoint, token: Token, ending: Ending, e: Endpoint, until: int)
    requires IsHeldOff(s, maxLatency, e, until)
    ensures IsHeldOff(PerformFinish(s, maxLatency, x, token, ending).0, maxLatency, e, until)
  {
    var t := PerformFinish(s, maxLatency, x, token, ending).0;
    if x != e {
      match ending {
        case WithRecord(r) => CompletedExactly(s, maxLatency, x, token, r);
        case BackAt(dueAt) => ReleasedExactly(s, x, token, dueAt);
        case Removed => DeletedExactly(s, x, token);
      }
      HeldOffElsewhere(s, t, maxLatency, x, e, until);
    } else {
      assert t == s;
    }
  }

  lemma HeldOffOnClaim(s: State, maxLatency: real, c: Claim, fast: seq<Endpoint>, general: seq<Endpoint>, e: Endpoint,
                       until: int)
    requires IsHeldOff(s, maxLatency, e, until) && ClaimReads(s, c, fast, general)
    ensures var (t, r) := ClaimDue(s, c, fast, general);
            if r.Some? && e in r.value then c.now >= until else IsHeldOff(t, maxLatency, e, until)
  {
    if ValidClaim(c) {
      ClaimOn(s, c, fast, general, e);
    }
  }

  lemma HeldOffOnStep(maxLatency: real, run: Run, k: nat, e: Endpoint, until: int)
    requires IsRun(maxLatency, run) && k < |run.events| && IsHeldOff(run.states[k], maxLatency, e, until)
    requires !IsWritten(run, k, e)
    ensures if GivesOut(run, k, e) then run.events[k].claim.now >= until
            else IsHeldOff(run.states[k + 1], maxLatency, e, until)
  {
    assert StepOk(maxLatency, run, k);
    var s := run.states[k];
    match run.events[k]
    case Upsert(seen) => HeldOffOnUpsert(s, maxLatency, seen, e, until);
    case Save(saved) => SavedExactly(s, maxLatency, saved);
    case Take(c, fast, general) => HeldOffOnClaim(s, maxLatency, c, fast, general, e, until);
    case Finish(x, token, ending) => HeldOffOnFinish(s, maxLatency, x, token, ending, e, until);
    case Reclaim(now, limit, batch) => GivenBackOn(s, now, batch, e);
    case _ =>
  }

  /** Over any run: once held off, and as long as no new record is stored for it, the endpoint
      is not given out before the time, whatever is claimed, rebuilt, seen again, evicted or
      given back meanwhile. */
  lemma {:induction false} HeldOffUntil(maxLatency: real, run: Run, i: nat, j: nat, e: Endpoint, until: int)
    requires IsRun(maxLatency, run) && i <= j < |run.events| && IsHeldOff(run.states[i], maxLatency, e, until)
    requires forall k :: i <= k < j ==> !IsWritten(run, k, e) && !GivesOut(run, k, e)
    requires GivesOut(run, j, e)
    ensures run.events[j].claim.now >= until
    decreases j - i
  {
    HeldOffOnStep(maxLatency, run, i, e, until);
    if i == j {
    } else {
      HeldOffUntil(maxLatency, run, i + 1, j, e, until);
    }
  }

  /** After a completion the endpoint is not given out again before the next check of the record
      it brought. */
  lemma CompletionHoldsOff(maxLatency: real, run: Run, i: nat, j: nat, e: Endpoint, r: Record)
    requires IsRun(maxLatency, run) && i < j < |run.events|
    requires run.events[i].Finish? && run.events[i].endpoint == e && run.events[i].ending == WithRecord(r)
    requires run.replies[i] == Finished(Done)
    requires forall k :: i < k < j ==> !IsWritten(run, k, e) && !GivesOut(run, k, e)
    requires GivesOut(run, j, e)
    ensures run.events[j].claim.now >= r.nextCheckAt
  {
    assert StepOk(maxLatency, run, i);
    CompletedExactly(run.states[i], maxLatency, e, run.events[i].token, r);
    HeldOffUntil(maxLatency, run, i + 1, j, e, r.nextCheckAt);
  }

  /** A release in an agreeing state holds the endpoint off until the time it names exactly if
      the endpoint is not a fast proxy whose next check comes before that time. */
  lemma ReleaseHoldsOffExactly(s: State, maxLatency: real, e: Endpoint, token: Token, dueAt: int)
    requires Inv(s, maxLatency) && Owns(s, e, token)
    ensures IsHeldOff(Release(s, e, token, dueAt).0, maxLatency, e, dueAt)
            <==> !(e in s.records && IsFast(s.records[e], maxLatency) && s.records[e].nextCheckAt < dueAt)
  {
    ReleasedExactly(s, e, token, dueAt);
    assert Agrees(s, maxLatency, e);
  }

  /** Then it is not given out before that time, as long as no new record is stored for it ... */
  lemma ReleaseHoldsOff(maxLatency: real, run: Run, i: nat, j: nat, e: Endpoint, dueAt: int)
    requires IsRun(maxLatency, run) && i < j < |run.events| && Inv(run.states[i], maxLatency)
    requires run.events[i].Finish? && run.events[i].endpoint == e && run.events[i].ending == BackAt(dueAt)
    requires run.replies[i] == Finished(Done)
    requires var s := run.states[i];
             !(e in s.records && IsFast(s.records[e], maxLatency) && s.records[e].nextCheckAt < dueAt)
    requires forall k :: i < k < j ==> !IsWritten(run, k, e) && !GivesOut(run, k, e)
    requires GivesOut(run, j, e)
    ensures run.events[j].claim.now >= dueAt
  {
    assert StepOk(maxLatency, run, i);
    ReleaseHoldsOffExactly(run.states[i], maxLatency, e, run.events[i].token, dueAt);
    HeldOffUntil(maxLatency, run, i + 1, j, e, dueAt);
  }

  /** ... and if it is such a proxy, the next sighting of it, or a rebuild, makes it due again
      from its next check on, before the time that the release named. */
  lemma SightingForgetsRelease(s: State, maxLatency: real, e: Endpoint, token: Token, dueAt: int, seen: Record)
    requires Inv(s, maxLatency) && Owns(s, e, token) && e in s.records && seen.endpoint == e
    requires IsFast(s.records[e], maxLatency) && s.records[e].nextCheckAt < dueAt
    ensures var t := Release(s, e, token, dueAt).0;
            && !IsDue(t, s.records[e].nextCheckAt, e)
            && IsDue(UpsertCandidate(t, maxLatency, seen), s.records[e].nextCheckAt, e)
            && IsDue(Rebuilt(t, maxLatency), s.records[e].nextCheckAt, e)
            && e !in t.leased
  {
    ReleasedExactly(s, e, token, dueAt);
    assert Agrees(s, maxLatency, e);
    SeenAgainExactly(Release(s, e, token, dueAt).0, maxLatency, seen);
  }
}
