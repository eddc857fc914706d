/** The quota script run step by step over its two kinds of keys. */
module QuotaStore {
  import opened SortedSets
  import opened Quota

  class Store {
    const minUptime: int
    var window: map<Attempt, int>
    var windowExpiresAt: int
    var attempts: map<Attempt, int>
    var startedAt: int

    ghost function View(): Keys
      reads this
    {
      Keys(window, windowExpiresAt, attempts, startedAt)
    }

    /** The uptime guard is a parameter of the store; 65 s unless it is given. */
    constructor (now: int, minUptime: int := 65)
      ensures View() == Restarted(now) && this.minUptime == minUptime
    {
      this.minUptime := minUptime;
      window, windowExpiresAt, attempts, startedAt := map[], now, map[], now;
    }

    /** Redis comes up again with nothing but its clock. */
    method Restart(now: int)
      modifies this
      ensures View() == Restarted(now)
    {
      window, windowExpiresAt, attempts, startedAt := map[], now, map[], now;
    }

    /** ZRANGE 0 0 of a set that is not empty. */
    method Oldest(z: map<Attempt, int>) returns (t: int)
      requires z != map[]
      ensures IsOldest(z, t)
    {
      assert z.Keys != {};
      var a := LowestOf(z, z.Keys);
      t := z[a];
    }

    /** ZREMRANGEBYSCORE of everything 60 s old, on what is left of the window key. */
    method Purge(now: int)
      modifies this`window
      ensures window == Purged(Live(old(View()), now), now)
    {
      if now > windowExpiresAt {
        window := map[];
      }
      window := map a | a in window && window[a] > now - WINDOW_MS :: window[a];
    }

    method Acquire(now: int, attempt: Attempt) returns (decision: Decision, ghost oldest: int)
      modifies this
      ensures decision.Denied? ==> IsOldest(Purged(Live(old(View()), now), now), oldest)
      ensures var out := Quota.Acquire(old(View()), minUptime, now, attempt, oldest);
              View() == out.keys && decision == out.decision
    {
      oldest := 0;
      if now / 1000 - startedAt / 1000 < minUptime {
        return Unavailable, oldest;
      }
      Purge(now);
      var count := |window|;
      if attempt in attempts && now <= attempts[attempt] {
        return Granted(LIMIT - count), oldest;
      }
      if count < LIMIT {
        window := window[attempt := now];
        windowExpiresAt := now + WINDOW_TTL_MS;
        attempts := attempts[attempt := now + ATTEMPT_TTL_MS];
        return Granted(LIMIT - 1 - count), oldest;
      }
      assert window != map[];
      var first := Oldest(window);
      var retry := first + WINDOW_MS - now;
      if retry < 1 {
        retry := 1;
      }
      return Denied(retry), first;
    }
  }
}
