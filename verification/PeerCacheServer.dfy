/** A driven peer cache: its keys are the last state of a run. */
module PeerCacheServer {
  import opened SortedSets
  import opened PeerPolicy
  import opened PeerCache
  import opened PeerCacheRuns
  import PeerCacheStore

  function Last(run: Run): State
    requires |run.states| == |run.events| + 1
  {
    run.states[|run.events|]
  }

  /** The run after one more event. */
  function Longer(cfg: Config, run: Run, e: Event, now: real): Run
    requires |run.states| == |run.events| + 1
  {
    var (t, reply) := Perform(cfg, Last(run), e, now);
    Run(run.events + [e], run.times + [now], run.states + [t], run.replies + [reply])
  }

  lemma RunGoesOn(cfg: Config, run: Run, e: Event, now: real)
    requires Legal(cfg, run)
    requires e.Pick? ==> IsLaterThan(Last(run).expiry, now, e.order)
    requires ReadsTheClock(e) ==> IsAfter(run, |run.times|, now)
    ensures Legal(cfg, Longer(cfg, run, e, now))
  {
    var n, longer := |run.events|, Longer(cfg, run, e, now);
    forall i | 0 <= i <= n ensures StepOk(cfg, longer, i) {
      if i < n {
        assert StepOk(cfg, run, i);
      }
    }
    forall k | 0 <= k < |longer.events| && ReadsTheClock(longer.events[k])
      ensures IsAfter(longer, k, longer.times[k])
    {
      if k < n {
        assert IsAfter(run, k, run.times[k]);
      }
    }
  }

  class Server {
    const store: PeerCacheStore.Store
    ghost var history: Run

    ghost predicate Valid()
      reads this, store
    {
      Legal(store.cfg, history) && Last(history) == store.View()
    }

    /** The settings are those of a valid policy and positive times. */
    constructor (domain: string, peerName: string, originNode: Option<string>, policy: Policy,
                 cacheTtl: real, cooldown: real)
      requires WellFormed(policy) && cacheTtl > 0.0 && cooldown > 0.0
      ensures Valid() && fresh(store) && history.events == []
    {
      ConfiguredIsConfig(domain, peerName, originNode, policy, cacheTtl, cooldown);
      store := new PeerCacheStore.Store(Configured(domain, peerName, originNode, policy, cacheTtl, cooldown).value);
      history := Run([], [], [EMPTY], []);
    }

    /** Let one event happen: a script, a key that runs out, or a change of the pool's own
        records. */
    method Serve(e: Event, now: real) returns (reply: Reply)
      requires Valid() && (ReadsTheClock(e) ==> IsAfter(history, |history.times|, now))
      requires e.Pick? ==> |e.tokens| == e.count && IsLaterThan(store.expiry, now, e.order)
      modifies this, store
      ensures Valid() && history == Longer(store.cfg, old(history), e, now)
      ensures reply == Perform(store.cfg, Last(old(history)), e, now).1
    {
      ghost var run := history;
      RunGoesOn(store.cfg, run, e, now);
      reply := Dispatch(e, now);
      history := Longer(store.cfg, run, e, now);
    }

    method Dispatch(e: Event, now: real) returns (reply: Reply)
      requires e.Pick? ==> |e.tokens| == e.count && IsLaterThan(store.expiry, now, e.order)
      modifies store
      ensures (store.View(), reply) == Perform(store.cfg, old(store.View()), e, now)
    {
      match e
      case Begin(owner) =>
        var given := store.BeginSync(owner);
        reply := Begun(given);
      case Abort(owner, claimed) =>
        store.AbortSync(owner, claimed);
        reply := Silent;
      case Commit(snapshot, generation, holder) =>
        var replaced := store.Replace(snapshot, generation, holder, now);
        reply := Replies(replaced);
      case Pick(request, count, exclusions, principal, tokens, order) =>
        var chosen := store.Select(request, count, exclusions, principal, now, tokens, order);
        reply := Picked(chosen);
      case Fail(digest) =>
        var invalidation := store.Invalidate(digest, now);
        reply := Failed(invalidation);
      case LockRunsOut =>
        store.lock := None;
        reply := Silent;
      case ReceiptRunsOut(lost) =>
        store.receipts := store.receipts - {lost};
        reply := Silent;
      case PoolChanges(endpoints) =>
        store.formal := endpoints;
        reply := Silent;
    }
  }
}
