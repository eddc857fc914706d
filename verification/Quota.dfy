/** The reclaim quota: at most five grants in any 60 s, decided by one atomic script over a
    sorted set of recent grants and one key per attempt. The server may be restarted at
    any time and then has lost every key; a minimum uptime guards against that. Times are
    milliseconds of the server clock, which never goes back. */
module Quota {
  import opened SortedSets

  type Attempt = string

  const LIMIT := 5
  const WINDOW_MS := 60000
  const WINDOW_TTL_MS := 120000
  const ATTEMPT_TTL_MS := 600000

  /** `attempts` maps an attempt to the time its key expires, `startedAt` is the time of the
      last restart. An expired key is one whose time has passed. */
  datatype Keys = Keys(window: map<Attempt, int>, windowExpiresAt: int, attempts: map<Attempt, int>, startedAt: int)

  datatype Decision = Unavailable | Granted(remaining: int) | Denied(retryAfter: int)

  datatype Outcome = Outcome(keys: Keys, decision: Decision, counts: bool)

  /** The whole seconds that INFO reports. */
  function Uptime(k: Keys, now: int): int {
    now / 1000 - k.startedAt / 1000
  }

  function Live(k: Keys, now: int): map<Attempt, int> {
    if now > k.windowExpiresAt then map[] else k.window
  }

  function Purged(window: map<Attempt, int>, now: int): map<Attempt, int> {
    map a | a in window && window[a] > now - WINDOW_MS :: window[a]
  }

  predicate Seen(k: Keys, attempt: Attempt, now: int) {
    attempt in k.attempts && now <= k.attempts[attempt]
  }

  /** The least time of a grant in the window, as ZRANGE 0 0 reads it. */
  predicate IsOldest(window: map<Attempt, int>, t: int) {
    && (exists a :: a in window && window[a] == t)
    && (forall a :: a in window ==> t <= window[a])
  }

  /** ACQUIRE; `oldest` is what ZRANGE answered, which matters on denial only. */
  function Acquire(k: Keys, minUptime: int, now: int, attempt: Attempt, oldest: int): Outcome {
    if Uptime(k, now) < minUptime then Outcome(k, Unavailable, false)
    else
      var window := Purged(Live(k, now), now);
      var k' := k.(window := window);
      if Seen(k, attempt, now) then Outcome(k', Granted(LIMIT - |window|), false)
      else if |window| < LIMIT then
        Outcome(k'.(window := window[attempt := now], windowExpiresAt := now + WINDOW_TTL_MS,
                    attempts := k.attempts[attempt := now + ATTEMPT_TTL_MS]),
                Granted(LIMIT - 1 - |window|), true)
      else Outcome(k', Denied(if oldest + WINDOW_MS - now >= 1 then oldest + WINDOW_MS - now else 1), false)
  }

  /** Everything is lost but the clock. */
  function Restarted(now: int): Keys {
    Keys(map[], now, map[], now)
  }

  // ---------- Runs ----------

  datatype Event = Request(now: int, attempt: Attempt, oldest: int) | Restart(now: int)

  /** A fresh grant: one that used up a place in the window. */
  datatype Grant = Grant(attempt: Attempt, at: int)

  /** The keys, the clock, every fresh grant so far, and how many came before the restart. */
  datatype World = World(keys: Keys, clock: int, grants: seq<Grant>, lost: nat)

  const ORIGIN: World := World(Restarted(0), 0, [], 0)

  function Next(w: World, minUptime: int, e: Event): World {
    match e
    case Restart(now) => World(Restarted(now), now, w.grants, |w.grants|)
    case Request(now, attempt, oldest) =>
      var out := Acquire(w.keys, minUptime, now, attempt, oldest);
      World(out.keys, now, if out.counts then w.grants + [Grant(attempt, now)] else w.grants, w.lost)
  }

  function After(minUptime: int, events: seq<Event>): World {
    if events == [] then ORIGIN
    else Next(After(minUptime, events[..|events| - 1]), minUptime, events[|events| - 1])
  }

  predicate Denies(k: Keys, minUptime: int, e: Event) {
    e.Request? && Acquire(k, minUptime, e.now, e.attempt, e.oldest).decision.Denied?
  }

  /** Time has not gone back, and a denial was given the true oldest grant. */
  predicate Enabled(w: World, minUptime: int, e: Event) {
    && w.clock <= e.now
    && (Denies(w.keys, minUptime, e) ==> IsOldest(Purged(Live(w.keys, e.now), e.now), e.oldest))
  }

  predicate Legal(minUptime: int, events: seq<Event>) {
    events == [] ||
    (Legal(minUptime, events[..|events| - 1])
     && Enabled(After(minUptime, events[..|events| - 1]), minUptime, events[|events| - 1]))
  }

  /** Any six fresh grants in a row span at least 60 s. */
  predicate Spaced(grants: seq<Grant>) {
    forall i :: 0 <= i < |grants| - LIMIT ==> grants[i + LIMIT].at - grants[i].at >= WINDOW_MS
  }

  /** The number of fresh grants in a window of 60 s that starts at `from`. */
  function GrantsWithin(grants: seq<Grant>, from: int): set<int> {
    set i | 0 <= i < |grants| && from <= grants[i].at < from + WINDOW_MS
  }

  predicate InOrder(grants: seq<Grant>) {
    forall i, j :: 0 <= i <= j < |grants| ==> grants[i].at <= grants[j].at
  }

  // ---------- The invariant ----------

  // What holds of the grants made since the restart.

  /** The recent ones are in the window ... */
  ghost predicate RecentInWindow(w: World) {
    forall i :: w.lost <= i < |w.grants| && w.grants[i].at > w.clock - WINDOW_MS ==>
      w.grants[i].attempt in w.keys.window && w.keys.window[w.grants[i].attempt] == w.grants[i].at
  }

  /** ... whose every entry is one of them ... */
  ghost predicate WindowFromGrants(w: World) {
    forall a :: a in w.keys.window ==>
      exists i :: w.lost <= i < |w.grants| && w.grants[i] == Grant(a, w.keys.window[a])
  }

  /** ... and whose key outlives them by a minute. */
  ghost predicate WindowKept(w: World) {
    forall i :: w.lost <= i < |w.grants| ==> w.grants[i].at + WINDOW_TTL_MS <= w.keys.windowExpiresAt
  }

  /** An attempt is remembered for ten minutes after its grant ... */
  ghost predicate AttemptsKept(w: World) {
    forall i :: w.lost <= i < |w.grants| && w.grants[i].at >= w.clock - ATTEMPT_TTL_MS ==>
      w.grants[i].attempt in w.keys.attempts
      && w.keys.attempts[w.grants[i].attempt] == w.grants[i].at + ATTEMPT_TTL_MS
  }

  /** ... and is not granted afresh in that time. */
  ghost predicate AttemptsDistinct(w: World) {
    forall i, j :: w.lost <= i < j < |w.grants| && w.grants[i].at >= w.clock - ATTEMPT_TTL_MS ==>
      w.grants[i].attempt != w.grants[j].attempt
  }

  ghost predicate Tracked(w: World) {
    && w.lost <= |w.grants|
    && RecentInWindow(w) && WindowFromGrants(w) && WindowKept(w)
    && AttemptsKept(w) && AttemptsDistinct(w)
  }

  ghost predicate Inv(w: World) {
    && InOrder(w.grants)
    && (forall i :: 0 <= i < |w.grants| ==> w.grants[i].at <= w.clock)
    && (forall i :: 0 <= i < w.lost && i < |w.grants| ==> w.grants[i].at <= w.keys.startedAt)
    && w.keys.startedAt <= w.clock
    && Tracked(w)
  }

  /** The 120 s expiry of the window key never shows: whatever it would drop is too old. */
  lemma ExpiryIsInvisible(w: World, now: int)
    requires Inv(w) && w.clock <= now
    ensures Purged(Live(w.keys, now), now) == Purged(w.keys.window, now)
  {
    if now > w.keys.windowExpiresAt {
      forall a | a in w.keys.window ensures w.keys.window[a] <= now - WINDOW_MS {
        var i :| w.lost <= i < |w.grants| && w.grants[i] == Grant(a, w.keys.window[a]);
      }
      assert Purged(w.keys.window, now) == map[];
    }
  }

  /** The attempts of the grants made since the restart and within the last 60 s. */
  predicate IsRecent(w: World, now: int, i: int) {
    w.lost <= i < |w.grants| && w.grants[i].at > now - WINDOW_MS
  }

  /** The window holds exactly the recent grants. */
  lemma WindowIsRecentGrants(w: World, now: int, a: Attempt, t: int)
    requires Inv(w) && w.clock <= now
    ensures a in Purged(Live(w.keys, now), now) && Purged(Live(w.keys, now), now)[a] == t
            <==> exists i :: IsRecent(w, now, i) && w.grants[i] == Grant(a, t)
  {
    ExpiryIsInvisible(w, now);
    var window := Purged(w.keys.window, now);
    if a in window && window[a] == t {
      var i :| w.lost <= i < |w.grants| && w.grants[i] == Grant(a, w.keys.window[a]);
      assert IsRecent(w, now, i);
    }
  }

  lemma SameGrantsKeep(w: World, k: Keys, now: int)
    requires Inv(w) && w.clock <= now
    requires k == w.keys || k == w.keys.(window := Purged(Live(w.keys, now), now))
    ensures Inv(w.(keys := k, clock := now))
  {
    ExpiryIsInvisible(w, now);
  }

  /** The world after a fresh grant, with the window left as it was read. */
  function Grown(w: World, now: int, attempt: Attempt): World {
    w.(keys := w.keys.(window := Purged(w.keys.window, now)[attempt := now],
                       windowExpiresAt := now + WINDOW_TTL_MS,
                       attempts := w.keys.attempts[attempt := now + ATTEMPT_TTL_MS]),
       clock := now,
       grants := w.grants + [Grant(attempt, now)])
  }

  lemma GrownWindow(w: World, now: int, attempt: Attempt)
    requires Inv(w) && w.clock <= now && !Seen(w.keys, attempt, now)
    ensures RecentInWindow(Grown(w, now, attempt)) && WindowFromGrants(Grown(w, now, attempt))
  {
    var w' := Grown(w, now, attempt);
    forall a | a in w'.keys.window
      ensures exists i :: w.lost <= i < |w'.grants| && w'.grants[i] == Grant(a, w'.keys.window[a])
    {
      if a == attempt {
        assert w'.grants[|w.grants|] == Grant(a, w'.keys.window[a]);
      } else {
        var i :| w.lost <= i < |w.grants| && w.grants[i] == Grant(a, w.keys.window[a]);
        assert w'.grants[i] == Grant(a, w'.keys.window[a]);
      }
    }
  }

  lemma GrownAttempts(w: World, now: int, attempt: Attempt)
    requires Inv(w) && w.clock <= now && !Seen(w.keys, attempt, now)
    ensures AttemptsKept(Grown(w, now, attempt)) && AttemptsDistinct(Grown(w, now, attempt))
  {
  }

  lemma GrownOrder(w: World, now: int, attempt: Attempt)
    requires Inv(w) && w.clock <= now
    ensures var w' := Grown(w, now, attempt);
            && InOrder(w'.grants) && WindowKept(w')
            && (forall i :: 0 <= i < |w'.grants| ==> w'.grants[i].at <= now)
            && (forall i :: 0 <= i < w.lost && i < |w'.grants| ==> w'.grants[i].at <= w.keys.startedAt)
  {
  }

  lemma FreshGrantKeeps(w: World, minUptime: int, now: int, attempt: Attempt, oldest: int)
    requires Inv(w) && w.clock <= now
    requires Acquire(w.keys, minUptime, now, attempt, oldest).counts
    ensures Inv(Next(w, minUptime, Request(now, attempt, oldest)))
  {
    ExpiryIsInvisible(w, now);
    assert Next(w, minUptime, Request(now, attempt, oldest)) == Grown(w, now, attempt);
    GrownWindow(w, now, attempt);
    GrownAttempts(w, now, attempt);
    GrownOrder(w, now, attempt);
  }

  lemma NextKeeps(w: World, minUptime: int, e: Event)
    requires Inv(w) && Enabled(w, minUptime, e)
    ensures Inv(Next(w, minUptime, e))
  {
    if e.Request? {
      var out := Acquire(w.keys, minUptime, e.now, e.attempt, e.oldest);
      if out.counts {
        FreshGrantKeeps(w, minUptime, e.now, e.attempt, e.oldest);
      } else {
        SameGrantsKeep(w, out.keys, e.now);
      }
    }
  }

  lemma {:induction false} ReachableIsGood(minUptime: int, events: seq<Event>)
    requires Legal(minUptime, events)
    ensures Inv(After(minUptime, events))
  {
    if events == [] {
    } else {
      ReachableIsGood(minUptime, events[..|events| - 1]);
      NextKeeps(After(minUptime, events[..|events| - 1]), minUptime, events[|events| - 1]);
    }
  }

  // ---------- At most five in any 60 s ----------

  /** Five recent grants fill the window, so the script denies. */
  lemma FiveRecentFillTheWindow(w: World, now: int)
    requires Inv(w) && w.clock <= now
    requires |w.grants| >= LIMIT && IsRecent(w, now, |w.grants| - LIMIT)
    ensures |Purged(Live(w.keys, now), now)| >= LIMIT
  {
    var n := |w.grants|;
    var last := seq(LIMIT, i requires 0 <= i < LIMIT => w.grants[n - LIMIT + i].attempt);
    var window := Purged(Live(w.keys, now), now);
    DistinctLength(last);
    var names := set a | a in last;
    forall a | a in names ensures a in window {
      var i :| 0 <= i < LIMIT && last[i] == a;
      assert IsRecent(w, now, n - LIMIT + i);
      WindowIsRecentGrants(w, now, a, w.grants[n - LIMIT + i].at);
    }
    SubsetSize(names, window.Keys);
  }

  lemma SpacingStep(w: World, minUptime: int, e: Event)
    requires Inv(w) && Spaced(w.grants) && Enabled(w, minUptime, e) && minUptime >= 61
    ensures Spaced(Next(w, minUptime, e).grants)
  {
    if e.Request? && Acquire(w.keys, minUptime, e.now, e.attempt, e.oldest).counts && |w.grants| >= LIMIT {
      var i := |w.grants| - LIMIT;
      assert e.now - w.keys.startedAt > 60000;
      if w.grants[i].at > e.now - WINDOW_MS {
        FiveRecentFillTheWindow(w, e.now);
      }
    }
  }

  /** With a minimum uptime of at least 61 s, any six fresh grants of any run span at least
      60 s, however often the server is restarted and loses everything. */
  lemma {:induction false} GrantsAreSpaced(minUptime: int, events: seq<Event>)
    requires Legal(minUptime, events) && minUptime >= 61
    ensures Spaced(After(minUptime, events).grants)
  {
    if events == [] {
    } else {
      var before := events[..|events| - 1];
      ReachableIsGood(minUptime, before);
      GrantsAreSpaced(minUptime, before);
      SpacingStep(After(minUptime, before), minUptime, events[|events| - 1]);
    }
  }

  function Indices(lo: int, hi: int): (r: set<int>)
    ensures forall i :: i in r <==> lo <= i < hi
    ensures lo <= hi ==> |r| == hi - lo
    decreases hi - lo
  {
    if lo < hi then Indices(lo, hi - 1) + {hi - 1} else {}
  }

  lemma SpacedApart(grants: seq<Grant>, i: int, j: int)
    requires InOrder(grants) && Spaced(grants) && 0 <= i && i + LIMIT <= j < |grants|
    ensures grants[j].at - grants[i].at >= WINDOW_MS
  {
    assert grants[i + LIMIT].at - grants[i].at >= WINDOW_MS;
  }

  /** Spaced grants are at most five in every window of 60 s, wherever it starts; and grants
      that are at most five in every such window are spaced. */
  lemma SpacedMeansFivePerWindow(grants: seq<Grant>)
    requires InOrder(grants)
    ensures Spaced(grants) <==> forall from :: |GrantsWithin(grants, from)| <= LIMIT
  {
    if Spaced(grants) {
      forall from ensures |GrantsWithin(grants, from)| <= LIMIT {
        var inside := GrantsWithin(grants, from);
        if inside != {} {
          var low := LowestIn(inside);
          forall i | i in inside ensures i in Indices(low, low + LIMIT) {
            if i >= low + LIMIT {
              SpacedApart(grants, low, i);
            }
          }
          SubsetSize(inside, Indices(low, low + LIMIT));
        }
      }
    } else {
      var i :| 0 <= i < |grants| - LIMIT && grants[i + LIMIT].at - grants[i].at < WINDOW_MS;
      var from := grants[i].at;
      forall k | k in Indices(i, i + LIMIT + 1) ensures k in GrantsWithin(grants, from) {
      }
      SubsetSize(Indices(i, i + LIMIT + 1), GrantsWithin(grants, from));
      assert |GrantsWithin(grants, from)| > LIMIT;
    }
  }

  lemma LowestIn(s: set<int>) returns (low: int)
    requires s != {}
    ensures low in s && forall i :: i in s ==> low <= i
    decreases |s|
  {
    var some :| some in s;
    low := some;
    var below := set i | i in s && i < some;
    if below != {} {
      SubsetSize(below, s - {some});
      low := LowestIn(below);
      assert forall i :: i in s ==> i in below || some <= i;
    } else {
      assert forall i :: i in s && i < some ==> i in below;
    }
  }

  // ---------- Exactly which minimum uptime makes the quota safe ----------

  /** In every run, however the server is restarted, any 60 s hold at most five fresh grants. */
  ghost predicate SafeInEveryRun(minUptime: int) {
    forall events, from :: Legal(minUptime, events) ==> |GrantsWithin(After(minUptime, events).grants, from)| <= LIMIT
  }

  const FIVE: seq<Attempt> := ["a", "b", "c", "d", "e"]

  /** Five grants just before a restart, and one as soon as 60 whole seconds are reported. */
  const SIX_IN_A_MINUTE: seq<Event> := [
    Request(60999, "a", 60999), Request(60999, "b", 60999), Request(60999, "c", 60999),
    Request(60999, "d", 60999), Request(60999, "e", 60999), Restart(60999), Request(120000, "f", 60999)]

  /** The world after the first n requests of that run, all granted. */
  function Filled(n: nat): World
    requires n <= 5
  {
    World(Keys(map a | a in FIVE[..n] :: 60999, if n == 0 then 0 else 180999, map a | a in FIVE[..n] :: 660999, 0),
          if n == 0 then 0 else 60999,
          seq(n, i requires 0 <= i < n => Grant(FIVE[i], 60999)), 0)
  }

  lemma FilledKeys(n: nat)
    requires n < 5
    ensures FIVE[n] !in Filled(n).keys.attempts && |Filled(n).keys.window| == n
    ensures Filled(n + 1).keys.window == Filled(n).keys.window[FIVE[n] := 60999]
    ensures Filled(n + 1).keys.attempts == Filled(n).keys.attempts[FIVE[n] := 660999]
  {
    DistinctLength(FIVE[..n]);
    assert Filled(n).keys.window.Keys == set a | a in FIVE[..n];
    assert FIVE[..n + 1] == FIVE[..n] + [FIVE[n]];
  }

  lemma FillOne(minUptime: int, n: nat)
    requires minUptime <= 60 && n < 5
    ensures Enabled(Filled(n), minUptime, SIX_IN_A_MINUTE[n])
    ensures Next(Filled(n), minUptime, SIX_IN_A_MINUTE[n]) == Filled(n + 1)
  {
    var w, w' := Filled(n), Filled(n + 1);
    var window := Purged(Live(w.keys, 60999), 60999);
    FilledKeys(n);
    assert window == w.keys.window;
    assert SIX_IN_A_MINUTE[n] == Request(60999, FIVE[n], 60999);
    assert w'.grants == w.grants + [Grant(FIVE[n], 60999)];
  }

  lemma {:induction false} FillMany(minUptime: int, n: nat)
    requires minUptime <= 60 && n <= 5
    ensures Legal(minUptime, SIX_IN_A_MINUTE[..n])
    ensures After(minUptime, SIX_IN_A_MINUTE[..n]) == Filled(n)
  {
    if n == 0 {
      assert Filled(0) == ORIGIN;
    } else {
      FillMany(minUptime, n - 1);
      FillOne(minUptime, n - 1);
      assert SIX_IN_A_MINUTE[..n][..n - 1] == SIX_IN_A_MINUTE[..n - 1];
    }
  }

  lemma SixInAMinute(minUptime: int)
    requires minUptime <= 60
    ensures Legal(minUptime, SIX_IN_A_MINUTE)
    ensures |After(minUptime, SIX_IN_A_MINUTE).grants| == 6
    ensures After(minUptime, SIX_IN_A_MINUTE).grants[0].at == 60999
    ensures After(minUptime, SIX_IN_A_MINUTE).grants[5].at == 120000
  {
    FillMany(minUptime, 5);
    var e := SIX_IN_A_MINUTE;
    assert e[..6][..5] == e[..5] && e[..6][5] == Restart(60999);
    assert After(minUptime, e[..6]) == Next(Filled(5), minUptime, Restart(60999));
    var w := After(minUptime, e[..6]);
    assert w.keys == Restarted(60999);
    assert Purged(Live(w.keys, 120000), 120000) == map[];
    assert e[..|e| - 1] == e[..6] && e[|e| - 1] == Request(120000, "f", 60999);
    assert Legal(minUptime, e[..6]);
    assert After(minUptime, e) == Next(w, minUptime, Request(120000, "f", 60999));
  }

  /** The quota is safe in every run exactly when the minimum uptime is at least 61 s: the
      65 s the store is given are enough, and 60 s would not be. */
  lemma SafeExactlyFrom61Seconds(minUptime: int)
    ensures SafeInEveryRun(minUptime) <==> minUptime >= 61
  {
    if minUptime >= 61 {
      forall events, from | Legal(minUptime, events)
        ensures |GrantsWithin(After(minUptime, events).grants, from)| <= LIMIT
      {
        ReachableIsGood(minUptime, events);
        GrantsAreSpaced(minUptime, events);
        SpacedMeansFivePerWindow(After(minUptime, events).grants);
      }
    } else {
      SixInAMinute(minUptime);
      ReachableIsGood(minUptime, SIX_IN_A_MINUTE);
      var grants := After(minUptime, SIX_IN_A_MINUTE).grants;
      assert !Spaced(grants) by {
        assert grants[0 + LIMIT].at - grants[0].at < WINDOW_MS;
      }
      SpacedMeansFivePerWindow(grants);
    }
  }

  // ---------- What a caller is told ----------

  /** The window never holds more than five grants, and five when the script denies. */
  lemma WindowSize(w: World, now: int)
    requires Inv(w) && Spaced(w.grants) && w.clock <= now
    ensures |Purged(Live(w.keys, now), now)| <= LIMIT
  {
    var n := |w.grants|;
    var window := Purged(Live(w.keys, now), now);
    var from := if n > LIMIT then n - LIMIT else 0;
    var names := set i | from <= i < n :: w.grants[i].attempt;
    forall a | a in window ensures a in names {
      WindowIsRecentGrants(w, now, a, window[a]);
      var i :| IsRecent(w, now, i) && w.grants[i] == Grant(a, window[a]);
      if i < n - LIMIT {
        SpacedApart(w.grants, i, n - 1);
      }
    }
    SubsetSize(window.Keys, names);
    ImageSize(w.grants, from, n);
  }

  lemma {:induction false} ImageSize(grants: seq<Grant>, lo: nat, hi: nat)
    requires lo <= hi <= |grants|
    ensures |set i | lo <= i < hi :: grants[i].attempt| <= hi - lo
  {
    var names := set i | lo <= i < hi :: grants[i].attempt;
    if lo == hi {
      assert names == {};
    } else {
      ImageSize(grants, lo, hi - 1);
      assert names == (set i | lo <= i < hi - 1 :: grants[i].attempt) + {grants[hi - 1].attempt};
    }
  }

  /** A denied request leaves five grants in the window, the oldest at `oldest`. */
  lemma DenialLeavesFive(w: World, minUptime: int, now: int, attempt: Attempt, oldest: int, k: Keys, retryAfter: int)
    requires Inv(w) && Spaced(w.grants) && w.clock <= now
    requires IsOldest(Purged(Live(w.keys, now), now), oldest)
    requires Acquire(w.keys, minUptime, now, attempt, oldest) == Outcome(k, Denied(retryAfter), false)
    ensures k == w.keys.(window := Purged(Live(w.keys, now), now))
    ensures |k.window| == LIMIT && retryAfter == oldest + WINDOW_MS - now
    ensures Uptime(k, now) >= minUptime
  {
    WindowSize(w, now);
  }

  /** A full window denies a new attempt until its oldest grant is 60 s old. */
  lemma FullWindowGrantsWhenOldestLeaves(w: World, minUptime: int, later: int, attempt: Attempt, oldest: int, next: int)
    requires Inv(w) && w.clock <= later && !Seen(w.keys, attempt, later)
    requires |w.keys.window| == LIMIT && IsOldest(w.keys.window, oldest)
    requires Uptime(w.keys, w.clock) >= minUptime
    ensures Acquire(w.keys, minUptime, later, attempt, next).decision.Granted? <==> later >= oldest + WINDOW_MS
  {
    ExpiryIsInvisible(w, later);
    AfterWaiting(w.keys.window, oldest, later);
  }

  /** A denial names exactly the least wait: an attempt not seen before that comes alone is
      granted later if and only if at least that long has passed. */
  lemma RetryAfterIsExact(w: World, minUptime: int, now: int, attempt: Attempt, oldest: int,
                          later: int, other: Attempt, next: int, k: Keys, retryAfter: int)
    requires Inv(w) && Spaced(w.grants) && w.clock <= now
    requires IsOldest(Purged(Live(w.keys, now), now), oldest)
    requires Acquire(w.keys, minUptime, now, attempt, oldest) == Outcome(k, Denied(retryAfter), false)
    requires now <= later && !Seen(k, other, later)
    ensures Acquire(k, minUptime, later, other, next).decision.Granted? <==> later >= now + retryAfter
  {
    DenialLeavesFive(w, minUptime, now, attempt, oldest, k, retryAfter);
    SameGrantsKeep(w, k, now);
    var w1 := World(k, now, w.grants, w.lost);
    assert w1 == w.(keys := k, clock := now);
    FullWindowGrantsWhenOldestLeaves(w1, minUptime, later, other, oldest, next);
  }

  /** The window frees a place exactly when its oldest grant is 60 s old. */
  lemma AfterWaiting(window: map<Attempt, int>, oldest: int, later: int)
    requires IsOldest(window, oldest)
    ensures |Purged(window, later)| <= |window|
    ensures |Purged(window, later)| < |window| <==> later >= oldest + WINDOW_MS
  {
    var window' := Purged(window, later);
    if later >= oldest + WINDOW_MS {
      var first :| first in window && window[first] == oldest;
      SubsetSize(window'.Keys, window.Keys - {first});
    } else {
      assert window' == window;
    }
  }

  /** An attempt that has been granted is answered `granted` for ten minutes, and takes up
      no further place. */
  lemma RepeatedAttemptIsFree(w: World, minUptime: int, now: int, i: nat, oldest: int)
    requires Inv(w) && w.clock <= now && w.lost <= i < |w.grants|
    requires w.grants[i].at >= now - ATTEMPT_TTL_MS
    requires Uptime(w.keys, now) >= minUptime
    ensures var out := Acquire(w.keys, minUptime, now, w.grants[i].attempt, oldest);
            out.decision.Granted? && !out.counts
  {
  }

  /** A fresh grant never overwrites an entry of the window. */
  lemma FreshGrantIsANewMember(w: World, minUptime: int, now: int, attempt: Attempt, oldest: int)
    requires Inv(w) && w.clock <= now
    requires Acquire(w.keys, minUptime, now, attempt, oldest).counts
    ensures attempt !in Purged(Live(w.keys, now), now)
  {
    var window := Purged(Live(w.keys, now), now);
    if attempt in window {
      WindowIsRecentGrants(w, now, attempt, window[attempt]);
    }
  }

  /** `remaining` is how many fresh grants are left in the window that ends now. */
  lemma RemainingIsWhatIsLeft(w: World, minUptime: int, now: int, attempt: Attempt, oldest: int)
    requires Inv(w) && Spaced(w.grants) && Enabled(w, minUptime, Request(now, attempt, oldest)) && minUptime >= 61
    ensures var out := Acquire(w.keys, minUptime, now, attempt, oldest);
            var w' := Next(w, minUptime, Request(now, attempt, oldest));
            out.decision.Granted? ==>
              0 <= out.decision.remaining == LIMIT - |Purged(Live(w'.keys, now), now)|
  {
    WindowSize(w, now);
    var out := Acquire(w.keys, minUptime, now, attempt, oldest);
    ExpiryIsInvisible(w, now);
    if out.decision.Granted? {
      var w' := Next(w, minUptime, Request(now, attempt, oldest));
      var window := Purged(Live(w.keys, now), now);
      if out.counts {
        FreshGrantIsANewMember(w, minUptime, now, attempt, oldest);
        assert Purged(w'.keys.window, now) == window[attempt := now];
      } else {
        assert Purged(window, now) == window;
      }
    }
  }
}
