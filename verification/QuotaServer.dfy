/** A driven quota store: its keys are those after a legal run of requests and restarts. */
module QuotaServer {
  import opened Quota
  import QuotaStore

  class Server {
    const store: QuotaStore.Store
    ghost var history: seq<Event>

    ghost predicate Valid()
      reads this, store
    {
      && Legal(store.minUptime, history)
      && After(store.minUptime, history).keys == store.View()
    }

    constructor (minUptime: int := 65)
      ensures Valid() && fresh(store) && history == [] && store.minUptime == minUptime
    {
      store := new QuotaStore.Store(0, minUptime);
      history := [];
    }

    method Acquire(now: int, attempt: Attempt) returns (decision: Decision, ghost oldest: int)
      requires Valid() && After(store.minUptime, history).clock <= now
      modifies this, store
      ensures Valid() && history == old(history) + [Request(now, attempt, oldest)]
      ensures decision
              == Quota.Acquire(After(store.minUptime, old(history)).keys, store.minUptime, now, attempt,
                               oldest).decision
    {
      decision, oldest := store.Acquire(now, attempt);
      ghost var longer := history + [Request(now, attempt, oldest)];
      assert longer[..|longer| - 1] == history;
      history := longer;
    }

    method Restart(now: int)
      requires Valid() && After(store.minUptime, history).clock <= now
      modifies this, store
      ensures Valid() && history == old(history) + [Event.Restart(now)]
    {
      store.Restart(now);
      ghost var longer := history + [Event.Restart(now)];
      assert longer[..|longer| - 1] == history;
      history := longer;
    }
  }
}
