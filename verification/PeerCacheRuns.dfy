/** Whole runs of the peer cache: any number of synchronizers and selectors calling the
    scripts in any order, locks and receipts running out at any time, the pool's own
    records changing at any time, and a clock that never goes back. */
module PeerCacheRuns {
  import opened SortedSets
  import opened PeerPolicy
  import opened PeerCache

  datatype Event =
    | Begin(owner: Owner)
    | Abort(owner: Owner, claimed: nat)
    | Commit(snapshot: seq<Item>, generation: Option<int>, holder: Owner)
    | Pick(request: Policy, count: int, exclusions: seq<Endpoint>, principal: string, tokens: seq<Token>,
           order: seq<Endpoint>)
    | Fail(digest: Digest)
    | LockRunsOut
    | ReceiptRunsOut(lost: Digest)
    | PoolChanges(endpoints: set<Endpoint>)

  datatype Reply =
    | Silent
    | Begun(given: Option<nat>)
    | Replies(replaced: Replaced)
    | Picked(chosen: Option<seq<Selected>>)
    | Failed(invalidation: Invalidation)

  function Perform(cfg: Config, s: State, e: Event, now: real): (State, Reply) {
    match e
    case Begin(owner) => var r := BeginSync(s, owner); (r.0, Begun(r.1))
    case Abort(owner, claimed) => (AbortSync(s, owner, claimed), Silent)
    case Commit(snapshot, generation, holder) =>
      var r := Replace(cfg, s, snapshot, generation, holder, now); (r.0, Replies(r.1))
    case Pick(request, count, exclusions, principal, tokens, order) =>
      var r := Select(cfg, s, request, count, exclusions, principal, now, tokens, order); (r.0, Picked(r.1))
    case Fail(digest) => var r := Invalidate(cfg, s, digest, now); (r.0, Failed(r.1))
    case LockRunsOut => (s.(lock := None), Silent)
    case ReceiptRunsOut(lost) => (s.(receipts := s.receipts - {lost}), Silent)
    case PoolChanges(endpoints) => (s.(formal := endpoints), Silent)
  }

  /** Event i happened at times[i] in states[i], was answered replies[i] and led to
      states[i + 1]. */
  datatype Run = Run(events: seq<Event>, times: seq<real>, states: seq<State>, replies: seq<Reply>)

  ghost predicate StepOk(cfg: Config, run: Run, i: int)
    requires |run.times| == |run.replies| == |run.events| && |run.states| == |run.events| + 1
    requires 0 <= i < |run.events|
  {
    && (run.states[i + 1], run.replies[i]) == Perform(cfg, run.states[i], run.events[i], run.times[i])
    && (run.events[i].Pick? ==> IsLaterThan(run.states[i].expiry, run.times[i], run.events[i].order))
  }

  /** The events whose time is read when they happen. A replacement brings along a time from
      before its snapshot was fetched, and the other events take none. */
  predicate ReadsTheClock(e: Event) {
    e.Pick? || e.Fail?
  }

  /** No time so far is later than this. */
  ghost predicate IsAfter(run: Run, n: nat, now: real)
    requires n <= |run.times|
  {
    forall i :: 0 <= i < n ==> run.times[i] <= now
  }

  /** A clock that is read is never behind any time that was used before. */
  ghost predicate Legal(cfg: Config, run: Run) {
    && IsConfig(cfg)
    && |run.times| == |run.replies| == |run.events| && |run.states| == |run.events| + 1
    && run.states[0] == EMPTY
    && (forall n :: 0 <= n < |run.events| && ReadsTheClock(run.events[n]) ==> IsAfter(run, n, run.times[n]))
    && forall i {:trigger StepOk(cfg, run, i)} :: 0 <= i < |run.events| ==> StepOk(cfg, run, i)
  }

  // ---------- The invariant ----------

  /** A cached entry was accepted under the cache's policy and expires when that says. */
  predicate EntryGood(cfg: Config, e: Endpoint, entry: Entry) {
    && entry.item.endpoint == e && entry.item.domain == cfg.domain && entry.item.peerName == cfg.peerName
    && (cfg.originNode.Some? ==> entry.item.originNode == cfg.originNode.value)
    && entry.item.latency >= 0.0
    && entry.expires == ExpiryOf(cfg, entry.item)
  }

  ghost predicate RecordsGood(cfg: Config, s: State) {
    forall e :: e in s.records ==> EntryGood(cfg, e, s.records[e])
  }

  /** The expiry set holds exactly the cached endpoints, each at its own time. */
  ghost predicate ExpiryMatches(s: State) {
    && (forall e :: e in s.expiry <==> e in s.records)
    && (forall e :: e in s.records ==> s.expiry[e] == s.records[e].expires)
  }

  ghost predicate SuppressionGood(cfg: Config, s: State, now: real) {
    && (forall e :: e in s.suppression <==> e in s.suppressionExpiry)
    && (forall e :: e in s.suppression ==>
          && s.suppression[e].failedAt <= now
          && s.suppression[e].sourceCheckedAt <= s.suppression[e].failedAt + SKEW
          && s.suppression[e].blockedUntil == s.suppression[e].failedAt + cfg.cooldown
          && s.suppressionExpiry[e] == s.suppression[e].failedAt + Lifetime(cfg))
  }

  /** A receipt is for an observation no more than 5 s ahead of the time it was issued. */
  ghost predicate ReceiptsGood(cfg: Config, s: State, now: real) {
    forall d :: d in s.receipts ==>
      && s.receipts[d].sourceCheckedAt <= s.receipts[d].issuedAt + SKEW
      && s.receipts[d].issuedAt <= now
      && s.receipts[d].snapshot.item.endpoint == s.receipts[d].endpoint
      && s.receipts[d].snapshot.item.checkedAt == s.receipts[d].sourceCheckedAt
      && s.receipts[d].snapshot.item.peerName == cfg.peerName
  }

  /** The lock was given out with a generation that has been counted. */
  predicate LockGood(s: State) {
    s.lock.Some? ==> 0 < s.lock.value.generation <= s.generation
  }

  ghost predicate Inv(cfg: Config, s: State, now: real) {
    && RecordsGood(cfg, s) && ExpiryMatches(s) && SuppressionGood(cfg, s, now)
    && ReceiptsGood(cfg, s, now) && LockGood(s)
  }

  // ---------- One lemma per script ----------

  lemma {:induction false} AcceptedAreGood(cfg: Config, s: State, snapshot: seq<Item>, now: real)
    requires forall i :: 0 <= i < |snapshot| ==> Belongs(cfg, snapshot[i], now)
    ensures forall e :: e in AcceptedEntries(cfg, s, snapshot, now) ==>
              EntryGood(cfg, e, AcceptedEntries(cfg, s, snapshot, now)[e])
  {
    if snapshot == [] {
    } else {
      AcceptedAreGood(cfg, s, snapshot[..|snapshot| - 1], now);
    }
  }

  /** A replacement may come with any time. */
  lemma ReplaceKeeps(cfg: Config, s: State, snapshot: seq<Item>, generation: Option<int>, owner: Owner, now: real,
                     clock: real)
    requires Inv(cfg, s, clock)
    ensures Inv(cfg, Replace(cfg, s, snapshot, generation, owner, now).0, clock)
  {
    if ValidRequest(cfg, snapshot, generation, owner, now) {
      AcceptedAreGood(cfg, Collected(s, now), snapshot, now);
    }
  }

  lemma {:induction false} SelectFromKeeps(cfg: Config, s: State, q: Query, tokens: seq<Token>, order: seq<Endpoint>,
                                           chosen: seq<Selected>)
    requires Inv(cfg, s, q.now)
    ensures var t := SelectFrom(s, q, tokens, order, chosen).0;
            Inv(cfg, t, q.now) && t == s.(receipts := t.receipts)
    decreases |order|
  {
    if order == [] || |chosen| >= q.count || |chosen| >= |tokens| {
    } else if !Eligible(s, q, order[0]) || Digest(tokens[|chosen|]) in s.receipts {
      SelectFromKeeps(cfg, s, q, tokens, order[1..], chosen);
    } else {
      var token := tokens[|chosen|];
      var entry := s.records[order[0]];
      var s1 := s.(receipts := s.receipts[Digest(token) := ReceiptFor(q, order[0], entry)]);
      SelectFromKeeps(cfg, s1, q, tokens, order[1..], chosen + [Selected(entry, token, UsableUntil(q, entry))]);
    }
  }

  lemma InvalidateKeeps(cfg: Config, s: State, digest: Digest, now: real)
    requires Inv(cfg, s, now)
    ensures Inv(cfg, Invalidate(cfg, s, digest, now).0, now)
  {
  }

  lemma SelectKeeps(cfg: Config, s: State, request: Policy, count: int, exclusions: seq<Endpoint>, principal: string,
                    now: real, tokens: seq<Token>, order: seq<Endpoint>)
    requires Inv(cfg, s, now)
    ensures var t := Select(cfg, s, request, count, exclusions, principal, now, tokens, order).0;
            Inv(cfg, t, now) && t == s.(receipts := t.receipts)
  {
    match QueryFor(cfg, request, count, exclusions, principal, now)
    case None =>
    case Some(q) => SelectFromKeeps(cfg, s, q, tokens, order, []);
  }

  lemma LockKeeps(cfg: Config, s: State, owner: Owner, claimed: nat, now: real)
    requires Inv(cfg, s, now)
    ensures Inv(cfg, BeginSync(s, owner).0, now) && Inv(cfg, AbortSync(s, owner, claimed), now)
  {
  }

  /** `clock` is the latest time so far, which is that of the event if it reads the clock. */
  lemma PerformKeeps(cfg: Config, s: State, e: Event, now: real, clock: real)
    requires Inv(cfg, s, clock) && (ReadsTheClock(e) ==> now == clock)
    ensures Inv(cfg, Perform(cfg, s, e, now).0, clock)
  {
    match e
    case Begin(owner) => LockKeeps(cfg, s, owner, 0, clock);
    case Abort(owner, claimed) => LockKeeps(cfg, s, owner, claimed, clock);
    case Commit(snapshot, generation, holder) => ReplaceKeeps(cfg, s, snapshot, generation, holder, now, clock);
    case Pick(request, count, exclusions, principal, tokens, order) =>
      SelectKeeps(cfg, s, request, count, exclusions, principal, now, tokens, order);
    case Fail(digest) => InvalidateKeeps(cfg, s, digest, now);
    case _ =>
  }

  lemma InvLater(cfg: Config, s: State, now: real, later: real)
    requires Inv(cfg, s, now) && now <= later
    ensures Inv(cfg, s, later)
  {
  }

  /** In every state of every run, seen from any time that is not before one used so far:
      what is cached was accepted, the expiry set agrees with it, and failures, receipts and
      the lock are as their scripts made them. */
  lemma {:induction false} ReachableIsGood(cfg: Config, run: Run, n: nat, clock: real)
    requires Legal(cfg, run) && n <= |run.events| && IsAfter(run, n, clock)
    ensures Inv(cfg, run.states[n], clock)
  {
    if n == 0 {
    } else {
      var e, now := run.events[n - 1], run.times[n - 1];
      assert StepOk(cfg, run, n - 1);
      if ReadsTheClock(e) {
        ReachableIsGood(cfg, run, n - 1, now);
        PerformKeeps(cfg, run.states[n - 1], e, now, now);
        InvLater(cfg, run.states[n], now, clock);
      } else {
        ReachableIsGood(cfg, run, n - 1, clock);
        PerformKeeps(cfg, run.states[n - 1], e, now, clock);
      }
    }
  }

  // ---------- Failures: what was reported is never handed out again ----------

  /** An observation of an endpoint, made at `source` and reported as failed at `at`. */
  datatype Report = Report(endpoint: Endpoint, source: real, at: real)

  /** The failure is still on record, or a later one is, or everything as old as the
      observation has aged out. */
  predicate Remembered(cfg: Config, s: State, now: real, f: Report) {
    && f.source <= f.at + SKEW && f.at <= now
    && ((f.endpoint in s.suppression && f.at <= s.suppression[f.endpoint].failedAt) || f.at + Lifetime(cfg) <= now)
  }

  lemma RememberedIsKept(cfg: Config, s: State, e: Event, now: real, clock: real, f: Report)
    requires Inv(cfg, s, clock) && Remembered(cfg, s, clock, f)
    requires now <= clock && (ReadsTheClock(e) ==> now == clock)
    ensures Remembered(cfg, Perform(cfg, s, e, now).0, clock, f)
  {
    match e
    case Pick(request, count, exclusions, principal, tokens, order) =>
      SelectKeeps(cfg, s, request, count, exclusions, principal, now, tokens, order);
    case _ =>
  }

  /** Event i reported a failure and was the first to do so for its receipt. */
  ghost predicate ReportedAt(cfg: Config, run: Run, i: int, f: Report)
    requires Legal(cfg, run)
  {
    && 0 <= i < |run.events| && run.events[i].Fail? && run.replies[i] == Failed(Applied)
    && run.events[i].digest in run.states[i].receipts
    && var r := run.states[i].receipts[run.events[i].digest];
       f == Report(r.endpoint, r.sourceCheckedAt, run.times[i])
  }

  lemma {:induction false} ReportsAreRemembered(cfg: Config, run: Run, i: nat, n: nat, clock: real, f: Report)
    requires Legal(cfg, run) && ReportedAt(cfg, run, i, f) && i < n <= |run.events| && IsAfter(run, n, clock)
    ensures Remembered(cfg, run.states[n], clock, f)
  {
    var e, now := run.events[n - 1], run.times[n - 1];
    assert StepOk(cfg, run, n - 1);
    if i == n - 1 {
      ReachableIsGood(cfg, run, n - 1, now);
    } else {
      var latest := if ReadsTheClock(e) then now else clock;
      ReachableIsGood(cfg, run, n - 1, latest);
      ReportsAreRemembered(cfg, run, i, n - 1, latest, f);
      RememberedIsKept(cfg, run.states[n - 1], e, now, latest, f);
    }
  }

  /** What is remembered speaks against every observation that is not newer, on record or not. */
  lemma RememberedIsNotEligible(cfg: Config, s: State, now: real, q: Query, f: Report)
    requires IsConfig(cfg) && Inv(cfg, s, q.now) && Remembered(cfg, s, now, f) && now <= q.now
    requires q.policy.maxAge <= cfg.policy.maxAge
    requires Eligible(s, q, f.endpoint)
    ensures s.records[f.endpoint].item.checkedAt > f.source
    ensures s.records[f.endpoint].item.checkedAt > f.at + SKEW
    ensures q.now >= f.at + cfg.cooldown
  {
  }
}
