/** A driven pool: its keys are the last state of a run, so they always agree. */
module PoolServer {
  import opened SortedSets
  import opened Scans
  import opened Pool
  import opened PoolRuns
  import PoolStore

  function Last(run: Run): State
    requires |run.states| == |run.events| + 1
  {
    run.states[|run.events|]
  }

  /** The run after one more event. */
  function Longer(maxLatency: real, run: Run, e: Event): Run
    requires |run.states| == |run.events| + 1
  {
    var (t, reply) := Perform(Last(run), maxLatency, e);
    Run(run.events + [e], run.states + [t], run.replies + [reply])
  }

  /** No claim so far had this token. */
  predicate IsUnused(run: Run, token: Token) {
    forall i :: 0 <= i < |run.events| && run.events[i].Take? ==> run.events[i].claim.token != token
  }

  lemma TokensStayDistinct(events: seq<Event>, e: Event)
    requires DistinctTokens(events)
    requires e.Take? ==> forall i :: 0 <= i < |events| && events[i].Take? ==> events[i].claim.token != e.claim.token
    ensures DistinctTokens(events + [e])
  {
  }

  lemma RunGoesOn(maxLatency: real, run: Run, e: Event)
    requires Legal(maxLatency, run) && Enabled(Last(run), e) && (e.Take? ==> IsUnused(run, e.claim.token))
    ensures Legal(maxLatency, Longer(maxLatency, run, e))
  {
    var n, longer := |run.events|, Longer(maxLatency, run, e);
    TokensStayDistinct(run.events, e);
    forall i | 0 <= i <= n ensures StepOk(maxLatency, longer, i) {
      if i < n {
        assert StepOk(maxLatency, run, i);
      }
    }
  }

  class Server {
    const store: PoolStore.Store
    ghost var history: Run

    ghost predicate Valid()
      reads this, store
    {
      Legal(store.maxLatency, history) && Last(history) == store.View()
    }

    constructor (maxLatency: real)
      ensures Valid() && fresh(store) && history.events == [] && store.maxLatency == maxLatency
    {
      store := new PoolStore.Store(maxLatency);
      history := Run([], [EMPTY], []);
    }

    method Upsert(r: Record)
      requires Valid()
      modifies this, store
      ensures Valid() && history == Longer(store.maxLatency, old(history), Event.Upsert(r))
    {
      ghost var e := Event.Upsert(r);
      RunGoesOn(store.maxLatency, history, e);
      store.UpsertCandidate(r);
      history := Longer(store.maxLatency, history, e);
    }

    method Save(r: Record)
      requires Valid()
      modifies this, store
      ensures Valid() && history == Longer(store.maxLatency, old(history), Event.Save(r))
    {
      ghost var e := Event.Save(r);
      RunGoesOn(store.maxLatency, history, e);
      store.SaveRecord(r);
      history := Longer(store.maxLatency, history, e);
    }

    method Claim(c: Claim) returns (claimed: Option<seq<Endpoint>>, ghost e: Event)
      requires Valid() && IsUnused(history, c.token)
      modifies this, store
      ensures Valid() && history == Longer(store.maxLatency, old(history), e) && e.Take? && e.claim == c
      ensures Taken(claimed) == Perform(Last(old(history)), store.maxLatency, e).1
    {
      ghost var fast, general;
      claimed, fast, general := store.ClaimDue(c);
      e := Take(c, fast, general);
      RunGoesOn(store.maxLatency, history, e);
      history := Longer(store.maxLatency, history, e);
    }

    /** Give back a lease in any of the three ways. */
    method Finish(endpoint: Endpoint, token: Token, ending: Ending) returns (answer: Answer)
      requires Valid()
      modifies this, store
      ensures Valid() && history == Longer(store.maxLatency, old(history), Event.Finish(endpoint, token, ending))
      ensures answer == PerformFinish(Last(old(history)), store.maxLatency, endpoint, token, ending).1
    {
      ghost var e := Event.Finish(endpoint, token, ending);
      RunGoesOn(store.maxLatency, history, e);
      match ending {
        case WithRecord(r) => answer := store.Complete(endpoint, token, r);
        case BackAt(dueAt) => answer := store.Release(endpoint, token, dueAt);
        case Removed => answer := store.DeleteLeased(endpoint, token);
      }
      history := Longer(store.maxLatency, history, e);
    }

    method Reclaim(now: int, limit: int) returns (back: Option<seq<Endpoint>>, ghost e: Event)
      requires Valid()
      modifies this, store
      ensures Valid() && history == Longer(store.maxLatency, old(history), e)
      ensures e.Reclaim? && e.now == now && e.limit == limit
    {
      ghost var batch;
      back, batch := store.ReclaimExpired(now, limit);
      e := Event.Reclaim(now, limit, batch);
      RunGoesOn(store.maxLatency, history, e);
      history := Longer(store.maxLatency, history, e);
    }

    method Enforce(maximum: nat, batches: seq<seq<Endpoint>>) returns (removed: Option<nat>, ghost e: Event)
      requires Valid() && IsScan(store.records, batches) && maximum >= 1
      modifies this, store
      ensures Valid() && history == Longer(store.maxLatency, old(history), e) && e.Enforce? && e.maximum == maximum
    {
      ghost var gone;
      removed, gone := store.EnforceCapacity(maximum, batches);
      e := Event.Enforce(maximum, gone);
      RunGoesOn(store.maxLatency, history, e);
      history := Longer(store.maxLatency, history, e);
    }

    method Rebuild(batches: seq<seq<Endpoint>>)
      requires Valid() && IsScan(store.records, batches)
      modifies this, store
      ensures Valid() && history == Longer(store.maxLatency, old(history), Event.Rebuild)
    {
      ghost var e := Event.Rebuild;
      RunGoesOn(store.maxLatency, history, e);
      ReachableAgrees(store.maxLatency, history, |history.events|);
      TheRestOfAgreement(store.View(), store.View(), store.maxLatency);
      store.RebuildIndexes(batches);
      history := Longer(store.maxLatency, history, e);
    }
  }
}
