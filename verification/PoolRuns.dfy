/** Whole runs of the pool: any number of workers and maintenance jobs calling the
    operations in any order, under lease tokens that are never reused. */
module PoolRuns {
  import opened SortedSets
  import opened Pool
  import Eviction

  /** How a worker gives back a lease. */
  datatype Ending = WithRecord(r: Record) | BackAt(dueAt: int) | Removed

  datatype Event =
    | Upsert(seen: Record)
    | Save(saved: Record)
    | Take(claim: Claim, fast: seq<Endpoint>, general: seq<Endpoint>)
    | Finish(endpoint: Endpoint, token: Token, ending: Ending)
    | Reclaim(now: int, limit: int, batch: seq<Endpoint>)
    | Enforce(maximum: nat, gone: seq<Endpoint>)
    | Rebuild
    | Clear(suspects: set<Endpoint>, bound: Option<real>)

  datatype Reply = Silent | Taken(endpoints: Option<seq<Endpoint>>) | Finished(answer: Answer)

  function PerformFinish(s: State, maxLatency: real, e: Endpoint, token: Token, ending: Ending): (State, Answer) {
    match ending
    case WithRecord(r) => Complete(s, maxLatency, e, token, r)
    case BackAt(dueAt) => Release(s, e, token, dueAt)
    case Removed => DeleteLeased(s, e, token)
  }

  function Perform(s: State, maxLatency: real, event: Event): (State, Reply) {
    match event
    case Upsert(seen) => (UpsertCandidate(s, maxLatency, seen), Silent)
    case Save(saved) => (SaveRecord(s, maxLatency, saved), Silent)
    case Take(c, fast, general) => var r := ClaimDue(s, c, fast, general); (r.0, Taken(r.1))
    case Finish(e, token, ending) => var r := PerformFinish(s, maxLatency, e, token, ending); (r.0, Finished(r.1))
    case Reclaim(now, limit, batch) => var r := ReclaimExpired(s, now, limit, batch); (r.0, Taken(r.1))
    case Enforce(_, gone) => (Evict(s, gone), Silent)
    case Rebuild => (Rebuilt(s, maxLatency), Silent)
    case Clear(suspects, _) => (Cleared(s, suspects), Silent)
  }

  /** What was read is what Redis would have answered, and an eviction was of the
      lowest-ranked records beyond the maximum. */
  ghost predicate Enabled(s: State, event: Event) {
    match event
    case Take(c, fast, general) => ClaimReads(s, c, fast, general)
    case Reclaim(now, limit, batch) => 1 <= limit <= 1000 ==> IsRange(s.leased, now, limit, batch)
    case Enforce(maximum, gone) =>
      if |s.records| <= maximum then gone == [] else Eviction.IsLowest(s, |s.records| - maximum, gone)
    case Clear(suspects, bound) =>
      forall e :: e in suspects ==>
        e in s.latency && (bound.Some? ==> s.latency[e] <= bound.value) && Inconsistent(s, bound, e)
    case _ => true
  }

  /** Event i was made in states[i], answered replies[i] and led to states[i + 1]. */
  datatype Run = Run(events: seq<Event>, states: seq<State>, replies: seq<Reply>)

  ghost predicate StepOk(maxLatency: real, run: Run, i: int)
    requires |run.states| == |run.events| + 1 && |run.replies| == |run.events|
    requires 0 <= i < |run.events|
  {
    && Enabled(run.states[i], run.events[i])
    && (run.states[i + 1], run.replies[i]) == Perform(run.states[i], maxLatency, run.events[i])
  }

  predicate DistinctTokens(events: seq<Event>) {
    forall i, j :: 0 <= i < j < |events| && events[i].Take? && events[j].Take? ==>
      events[i].claim.token != events[j].claim.token
  }

  /** A stretch of events from any state, under tokens of their own. */
  ghost predicate IsRun(maxLatency: real, run: Run) {
    && |run.states| == |run.events| + 1 && |run.replies| == |run.events|
    && DistinctTokens(run.events)
    && forall i {:trigger StepOk(maxLatency, run, i)} :: 0 <= i < |run.events| ==> StepOk(maxLatency, run, i)
  }

  /** A run from the empty pool. */
  ghost predicate Legal(maxLatency: real, run: Run) {
    IsRun(maxLatency, run) && run.states[0] == EMPTY
  }

  // ---------- Index agreement ----------

  /** All that the indexes and the lease tables must say of one endpoint. */
  predicate Agrees(s: State, maxLatency: real, e: Endpoint) {
    && (e in s.quality <==> e in s.records)
    && (e in s.leased <==> e in s.owners)
    && (e in s.latency <==> e in s.records && LatencyScore(s.records[e]).Some?)
    && (e in s.records ==>
          && s.records[e].endpoint == e
          && s.quality[e] == s.records[e].score
          && (e in s.latency ==> s.latency[e] == LatencyScore(s.records[e]).value)
          && (e in s.priority <==> PriorityScore(s.records[e], maxLatency).Some?)
          && (e in s.due || e in s.leased))
  }

  ghost predicate Inv(s: State, maxLatency: real) {
    forall e :: Agrees(s, maxLatency, e)
  }

  /** What Take does to one endpoint. */
  lemma {:induction false} TakeOn(s: State, batch: seq<Endpoint>, expires: int, token: Token, e: Endpoint)
    ensures var (t, taken) := LeaseFree(s, batch, expires, token);
            && t == s.(due := t.due, leased := t.leased, owners := t.owners)
            && (e in taken <==> e in batch && e !in s.leased)
            && (if e in taken
                then e !in t.due && e in t.leased && t.leased[e] == expires && Owns(t, e, token)
                else (e in t.due <==> e in s.due) && (e in t.due ==> t.due[e] == s.due[e])
                     && (e in t.leased <==> e in s.leased) && (e in t.leased ==> t.leased[e] == s.leased[e])
                     && (e in t.owners <==> e in s.owners) && (e in t.owners ==> t.owners[e] == s.owners[e]))
    decreases |batch|
  {
    if batch == [] {
    } else {
      var init, last := batch[..|batch| - 1], batch[|batch| - 1];
      TakeOn(s, init, expires, token, e);
      TakeOn(s, init, expires, token, last);
      assert e in batch <==> e in init || e == last;
    }
  }

  lemma TakeKeeps(s: State, maxLatency: real, batch: seq<Endpoint>, expires: int, token: Token)
    requires Inv(s, maxLatency)
    ensures Inv(LeaseFree(s, batch, expires, token).0, maxLatency)
  {
    forall e ensures Agrees(LeaseFree(s, batch, expires, token).0, maxLatency, e) {
      TakeOn(s, batch, expires, token, e);
      assert Agrees(s, maxLatency, e);
    }
  }

  lemma ClaimKeeps(s: State, maxLatency: real, c: Claim, fast: seq<Endpoint>, general: seq<Endpoint>)
    requires Inv(s, maxLatency)
    ensures Inv(ClaimDue(s, c, fast, general).0, maxLatency)
  {
    var expires := c.now + c.leaseTime;
    TakeKeeps(s, maxLatency, fast, expires, c.token);
    TakeKeeps(LeaseFree(s, fast, expires, c.token).0, maxLatency, general, expires, c.token);
  }

  lemma FinishKeeps(s: State, maxLatency: real, e: Endpoint, token: Token, ending: Ending)
    requires Inv(s, maxLatency)
    ensures Inv(PerformFinish(s, maxLatency, e, token, ending).0, maxLatency)
  {
    var t := PerformFinish(s, maxLatency, e, token, ending).0;
    forall x ensures Agrees(t, maxLatency, x) {
      assert Agrees(s, maxLatency, x);
    }
  }

  /** Clearing stale members of the latency index is a no-op: there are none. */
  lemma NothingIsInconsistent(s: State, maxLatency: real, bound: Option<real>, e: Endpoint)
    requires Inv(s, maxLatency) && e in s.latency && (bound.Some? ==> s.latency[e] <= bound.value)
    ensures !Inconsistent(s, bound, e)
  {
    assert Agrees(s, maxLatency, e);
  }

  lemma EnteredKeeps(s: State, maxLatency: real, r: Record)
    requires Inv(s, maxLatency) && r.endpoint !in s.records
    ensures Inv(Entered(s, r), maxLatency)
  {
    var t := Entered(s, r);
    forall e ensures Agrees(t, maxLatency, e) {
      assert Agrees(s, maxLatency, e);
    }
  }

  lemma RefreshedKeeps(s: State, maxLatency: real, e: Endpoint, merged: Record)
    requires Inv(s, maxLatency) && e in s.records
    requires merged.endpoint == e && merged.score == s.records[e].score
    ensures Inv(Refreshed(s, maxLatency, e, merged), maxLatency)
  {
    var t := Refreshed(s, maxLatency, e, merged);
    forall x ensures Agrees(t, maxLatency, x) {
      assert Agrees(s, maxLatency, x);
    }
  }

  lemma UpsertKeeps(s: State, maxLatency: real, r: Record)
    requires Inv(s, maxLatency)
    ensures Inv(UpsertCandidate(s, maxLatency, r), maxLatency)
  {
    assert Agrees(s, maxLatency, r.endpoint);
    if r.endpoint !in s.records {
      EnteredKeeps(s, maxLatency, r);
    } else {
      RefreshedKeeps(s, maxLatency, r.endpoint, Merged(s.records[r.endpoint], r));
    }
  }

  lemma SaveKeeps(s: State, maxLatency: real, r: Record)
    requires Inv(s, maxLatency)
    ensures Inv(SaveRecord(s, maxLatency, r), maxLatency)
  {
    var t := SaveRecord(s, maxLatency, r);
    forall e ensures Agrees(t, maxLatency, e) {
      assert Agrees(s, maxLatency, e);
    }
  }

  /** What a reclaim does to one endpoint. */
  lemma {:induction false} GivenBackOn(s: State, now: int, batch: seq<Endpoint>, e: Endpoint)
    ensures var t := GivenBack(s, now, batch);
            && t == s.(due := t.due, leased := t.leased, owners := t.owners)
            && if e in batch then e in t.due && t.due[e] == now && e !in t.leased && e !in t.owners
               else (e in t.due <==> e in s.due) && (e in t.due ==> t.due[e] == s.due[e])
                    && (e in t.leased <==> e in s.leased) && (e in t.leased ==> t.leased[e] == s.leased[e])
                    && (e in t.owners <==> e in s.owners) && (e in t.owners ==> t.owners[e] == s.owners[e])
    decreases |batch|
  {
    if batch == [] {
    } else {
      GivenBackOn(s, now, batch[..|batch| - 1], e);
    }
  }

  lemma ReclaimKeeps(s: State, maxLatency: real, now: int, limit: int, batch: seq<Endpoint>)
    requires Inv(s, maxLatency)
    ensures Inv(ReclaimExpired(s, now, limit, batch).0, maxLatency)
  {
    var t := ReclaimExpired(s, now, limit, batch).0;
    forall e ensures Agrees(t, maxLatency, e) {
      GivenBackOn(s, now, batch, e);
      assert Agrees(s, maxLatency, e);
    }
  }

  lemma EvictKeeps(s: State, maxLatency: real, gone: seq<Endpoint>)
    requires Inv(s, maxLatency)
    ensures Inv(Evict(s, gone), maxLatency)
  {
    var t := Evict(s, gone);
    forall e ensures Agrees(t, maxLatency, e) {
      assert Agrees(s, maxLatency, e);
    }
  }

  lemma RebuildKeeps(s: State, maxLatency: real)
    requires Inv(s, maxLatency)
    ensures Inv(Rebuilt(s, maxLatency), maxLatency)
  {
    var t := Rebuilt(s, maxLatency);
    forall e ensures Agrees(t, maxLatency, e) {
      assert Agrees(s, maxLatency, e);
    }
  }

  lemma ClearKeeps(s: State, maxLatency: real, suspects: set<Endpoint>, bound: Option<real>)
    requires Inv(s, maxLatency) && Enabled(s, Clear(suspects, bound))
    ensures Cleared(s, suspects) == s
  {
    if suspects != {} {
      var e :| e in suspects;
      NothingIsInconsistent(s, maxLatency, bound, e);
    } else {
      assert s.latency - suspects == s.latency;
    }
  }

  lemma PerformKeeps(s: State, maxLatency: real, event: Event)
    requires Inv(s, maxLatency) && Enabled(s, event)
    ensures Inv(Perform(s, maxLatency, event).0, maxLatency)
  {
    if event.Clear? {
      ClearKeeps(s, maxLatency, event.suspects, event.bound);
    } else {
      OperationsKeep(s, maxLatency, event);
    }
  }

  /** Agreement does not depend on what the reads of a claim or a reclaim answered. */
  lemma OperationsKeep(s: State, maxLatency: real, event: Event)
    requires Inv(s, maxLatency) && !event.Clear?
    ensures Inv(Perform(s, maxLatency, event).0, maxLatency)
  {
    match event
    case Upsert(seen) => UpsertKeeps(s, maxLatency, seen);
    case Save(saved) => SaveKeeps(s, maxLatency, saved);
    case Take(c, fast, general) => ClaimKeeps(s, maxLatency, c, fast, general);
    case Finish(e, token, ending) => FinishKeeps(s, maxLatency, e, token, ending);
    case Reclaim(now, limit, batch) => ReclaimKeeps(s, maxLatency, now, limit, batch);
    case Enforce(_, gone) => EvictKeeps(s, maxLatency, gone);
    case Rebuild => RebuildKeeps(s, maxLatency);
  }

  /** From an agreeing state on, every later state agrees. */
  lemma {:induction false} AgreementLasts(maxLatency: real, run: Run, m: nat, n: nat)
    requires IsRun(maxLatency, run) && m <= n <= |run.events| && Inv(run.states[m], maxLatency)
    ensures Inv(run.states[n], maxLatency)
  {
    if m == n {
    } else {
      AgreementLasts(maxLatency, run, m, n - 1);
      assert StepOk(maxLatency, run, n - 1);
      PerformKeeps(run.states[n - 1], maxLatency, run.events[n - 1]);
    }
  }

  /** In every state of every run the quality and latency indexes are exactly what the
      records say, a stored endpoint is in the priority index exactly if it qualifies, the
      lease tables agree, and no stored endpoint is lost: it is due or leased. */
  lemma ReachableAgrees(maxLatency: real, run: Run, n: nat)
    requires Legal(maxLatency, run) && n <= |run.events|
    ensures Inv(run.states[n], maxLatency)
  {
    AgreementLasts(maxLatency, run, 0, n);
  }

  // ---------- Upgraded pools ----------

  /** What an upgrade finds: everything agrees but the selection indexes, which may hold
      anything. */
  ghost predicate AgreesButSelection(s: State) {
    forall e :: RestAgrees(s, e)
  }

  predicate RestAgrees(s: State, e: Endpoint) {
    && (e in s.quality <==> e in s.records) && (e in s.leased <==> e in s.owners)
    && (e in s.records ==>
          s.records[e].endpoint == e && s.quality[e] == s.records[e].score && (e in s.due || e in s.leased))
  }

  /** Only the selection indexes may differ. */
  predicate SameButSelection(s: State, t: State) {
    t == s.(latency := t.latency, priority := t.priority)
  }

  /** A rebuild repairs any selection indexes ... */
  lemma RebuildRestores(s: State, maxLatency: real)
    requires AgreesButSelection(s)
    ensures Inv(Rebuilt(s, maxLatency), maxLatency)
  {
    var t := Rebuilt(s, maxLatency);
    forall e ensures Agrees(t, maxLatency, e) {
      assert RestAgrees(s, e);
    }
  }

  lemma {:induction false} LeaseFreeIgnoresSelection(s: State, t: State, batch: seq<Endpoint>, expires: int,
                                                     token: Token)
    requires SameButSelection(s, t)
    ensures SameButSelection(LeaseFree(s, batch, expires, token).0, LeaseFree(t, batch, expires, token).0)
    ensures LeaseFree(s, batch, expires, token).1 == LeaseFree(t, batch, expires, token).1
    decreases |batch|
  {
    if batch == [] {
    } else {
      LeaseFreeIgnoresSelection(s, t, batch[..|batch| - 1], expires, token);
    }
  }

  lemma {:induction false} GivenBackIgnoresSelection(s: State, t: State, now: int, batch: seq<Endpoint>)
    requires SameButSelection(s, t)
    ensures SameButSelection(GivenBack(s, now, batch), GivenBack(t, now, batch))
    decreases |batch|
  {
    if batch == [] {
    } else {
      GivenBackIgnoresSelection(s, t, now, batch[..|batch| - 1]);
    }
  }

  lemma WritesIgnoreSelection(s: State, t: State, maxLatency: real, r: Record)
    requires SameButSelection(s, t)
    ensures SameButSelection(UpsertCandidate(s, maxLatency, r), UpsertCandidate(t, maxLatency, r))
    ensures SameButSelection(SaveRecord(s, maxLatency, r), SaveRecord(t, maxLatency, r))
  {
  }

  lemma FinishIgnoresSelection(s: State, t: State, maxLatency: real, e: Endpoint, token: Token, ending: Ending)
    requires SameButSelection(s, t)
    ensures SameButSelection(PerformFinish(s, maxLatency, e, token, ending).0,
                             PerformFinish(t, maxLatency, e, token, ending).0)
  {
    if ending.WithRecord? {
      WritesIgnoreSelection(s, t, maxLatency, ending.r);
    }
  }

  lemma ClaimIgnoresSelection(s: State, t: State, c: Claim, fast: seq<Endpoint>, general: seq<Endpoint>)
    requires SameButSelection(s, t)
    ensures SameButSelection(ClaimDue(s, c, fast, general).0, ClaimDue(t, c, fast, general).0)
  {
    var expires := c.now + c.leaseTime;
    LeaseFreeIgnoresSelection(s, t, fast, expires, c.token);
    LeaseFreeIgnoresSelection(LeaseFree(s, fast, expires, c.token).0, LeaseFree(t, fast, expires, c.token).0,
                              general, expires, c.token);
  }

  /** ... no operation reads them to decide on anything else ... */
  lemma PerformIgnoresSelection(s: State, t: State, maxLatency: real, event: Event)
    requires SameButSelection(s, t)
    ensures SameButSelection(Perform(s, maxLatency, event).0, Perform(t, maxLatency, event).0)
  {
    match event
    case Upsert(seen) => WritesIgnoreSelection(s, t, maxLatency, seen);
    case Save(saved) => WritesIgnoreSelection(s, t, maxLatency, saved);
    case Take(c, fast, general) => ClaimIgnoresSelection(s, t, c, fast, general);
    case Finish(e, token, ending) => FinishIgnoresSelection(s, t, maxLatency, e, token, ending);
    case Reclaim(now, _, batch) => GivenBackIgnoresSelection(s, t, now, batch);
    case _ =>
  }

  lemma TheRestOfAgreement(s: State, t: State, maxLatency: real)
    requires Inv(s, maxLatency) && SameButSelection(s, t)
    ensures AgreesButSelection(t)
  {
    forall e ensures RestAgrees(t, e) {
      assert Agrees(s, maxLatency, e);
    }
  }

  lemma PerformKeepsTheRest(s: State, maxLatency: real, event: Event)
    requires AgreesButSelection(s)
    ensures AgreesButSelection(Perform(s, maxLatency, event).0)
  {
    if !event.Clear? {
      var t := Rebuilt(s, maxLatency);
      RebuildRestores(s, maxLatency);
      OperationsKeep(t, maxLatency, event);
      PerformIgnoresSelection(t, s, maxLatency, event);
      TheRestOfAgreement(Perform(t, maxLatency, event).0, Perform(s, maxLatency, event).0, maxLatency);
    } else {
      forall e ensures RestAgrees(Perform(s, maxLatency, event).0, e) {
        assert RestAgrees(s, e);
      }
    }
  }

  lemma {:induction false} TheRestAgrees(maxLatency: real, run: Run, n: nat)
    requires IsRun(maxLatency, run) && n <= |run.events| && AgreesButSelection(run.states[0])
    ensures AgreesButSelection(run.states[n])
  {
    if n == 0 {
    } else {
      TheRestAgrees(maxLatency, run, n - 1);
      assert StepOk(maxLatency, run, n - 1);
      PerformKeepsTheRest(run.states[n - 1], maxLatency, run.events[n - 1]);
    }
  }

  /** ... so a pool that is upgraded with any selection indexes, and used in any way before
      and after its first rebuild, agrees in every state from that rebuild on. */
  lemma UpgradedPoolAgrees(maxLatency: real, run: Run, m: nat, n: nat)
    requires IsRun(maxLatency, run) && AgreesButSelection(run.states[0])
    requires m < n <= |run.events| && run.events[m].Rebuild?
    ensures Inv(run.states[n], maxLatency)
  {
    TheRestAgrees(maxLatency, run, m);
    assert StepOk(maxLatency, run, m);
    RebuildRestores(run.states[m], maxLatency);
    AgreementLasts(maxLatency, run, m + 1, n);
  }
}
