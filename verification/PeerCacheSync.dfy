/** Snapshot replacement: which synchronizer may commit, and what a commit leaves. */
module PeerCacheSync {
  import opened SortedSets
  import opened PeerPolicy
  import opened PeerCache
  import opened PeerCacheRuns

  // ---------- The fence ----------

  /** A generation that can never be committed (again). */
  predicate Spent(s: State, g: nat) {
    g <= s.generation && (s.lock.Some? ==> g < s.lock.value.generation)
  }

  lemma LockStepKeeps(cfg: Config, s: State, e: Event, now: real, g: nat)
    requires LockGood(s)
    ensures var t := Perform(cfg, s, e, now).0; LockGood(t) && (Spent(s, g) ==> Spent(t, g))
  {
    match e
    case Pick(request, count, exclusions, principal, tokens, order) =>
      match QueryFor(cfg, request, count, exclusions, principal, now) {
        case None =>
        case Some(q) => OnlyReceiptsChange(s, q, tokens, order, []);
      }
    case _ =>
  }

  lemma {:induction false} LockIsGood(cfg: Config, run: Run, n: nat)
    requires Legal(cfg, run) && n <= |run.events|
    ensures LockGood(run.states[n])
  {
    if n == 0 {
    } else {
      LockIsGood(cfg, run, n - 1);
      assert StepOk(cfg, run, n - 1);
      LockStepKeeps(cfg, run.states[n - 1], run.events[n - 1], run.times[n - 1], 0);
    }
  }

  predicate Commits(run: Run, i: int) {
    && 0 <= i < |run.events| && i < |run.replies| && run.events[i].Commit?
    && run.replies[i].Replies? && run.replies[i].replaced.Committed?
  }

  lemma {:induction false} CommittedIsSpent(cfg: Config, run: Run, i: nat, n: nat)
    requires Legal(cfg, run) && Commits(run, i) && i < n <= |run.events|
    ensures run.events[i].generation.Some? && run.events[i].generation.value > 0
    ensures Spent(run.states[n], run.events[i].generation.value)
  {
    assert StepOk(cfg, run, i);
    if n == i + 1 {
    } else {
      CommittedIsSpent(cfg, run, i, n - 1);
      assert StepOk(cfg, run, n - 1);
      LockIsGood(cfg, run, n - 1);
      LockStepKeeps(cfg, run.states[n - 1], run.events[n - 1], run.times[n - 1], run.events[i].generation.value);
    }
  }

  /** The generations that commit a snapshot strictly increase, whatever locks run out and
      however begins, aborts and replacements interleave. */
  lemma CommitsIncrease(cfg: Config, run: Run, i: nat, j: nat)
    requires Legal(cfg, run) && Commits(run, i) && Commits(run, j) && i < j
    ensures run.events[i].generation.Some? && run.events[j].generation.Some?
    ensures run.events[i].generation.value < run.events[j].generation.value
  {
    CommittedIsSpent(cfg, run, i, j);
    assert StepOk(cfg, run, j);
  }

  /** Event i gave the generation to the owner. */
  predicate BegunAt(run: Run, i: int, owner: Owner, g: nat) {
    && 0 <= i < |run.events| && i < |run.replies|
    && run.events[i] == Begin(owner) && run.replies[i] == Begun(Some(g))
  }

  lemma {:induction false} LockHasItsBegin(cfg: Config, run: Run, n: nat) returns (i: nat)
    requires Legal(cfg, run) && n <= |run.events| && run.states[n].lock.Some?
    ensures i < n && BegunAt(run, i, run.states[n].lock.value.owner, run.states[n].lock.value.generation)
    ensures forall k :: i < k <= n ==> run.states[k].lock == run.states[n].lock
  {
    assert StepOk(cfg, run, n - 1);
    var s, t := run.states[n - 1], run.states[n];
    if run.events[n - 1].Begin? && s.lock.None? {
      i := n - 1;
    } else {
      LockOnlyGoes(cfg, s, run.events[n - 1], run.times[n - 1]);
      i := LockHasItsBegin(cfg, run, n - 1);
    }
  }

  lemma LockOnlyGoes(cfg: Config, s: State, e: Event, now: real)
    requires !(e.Begin? && s.lock.None?)
    ensures var t := Perform(cfg, s, e, now).0; t.lock == s.lock || t.lock == None
  {
    match e
    case Pick(request, count, exclusions, principal, tokens, order) =>
      match QueryFor(cfg, request, count, exclusions, principal, now) {
        case None =>
        case Some(q) => OnlyReceiptsChange(s, q, tokens, order, []);
      }
    case _ =>
  }

  lemma {:induction false} OnlyReceiptsChange(s: State, q: Query, tokens: seq<Token>, order: seq<Endpoint>,
                                              chosen: seq<Selected>)
    ensures var t := SelectFrom(s, q, tokens, order, chosen).0; t == s.(receipts := t.receipts)
    decreases |order|
  {
    if order == [] || |chosen| >= q.count || |chosen| >= |tokens| {
    } else if !Eligible(s, q, order[0]) || Digest(tokens[|chosen|]) in s.receipts {
      OnlyReceiptsChange(s, q, tokens, order[1..], chosen);
    } else {
      var entry := s.records[order[0]];
      OnlyReceiptsChange(s.(receipts := s.receipts[Digest(tokens[|chosen|]) := ReceiptFor(q, order[0], entry)]),
                         q, tokens, order[1..],
                         chosen + [Selected(entry, tokens[|chosen|], UsableUntil(q, entry))]);
    }
  }

  /** A commit is made by the owner that was given its generation, who has held the lock from
      then until now. */
  lemma CommitHasItsBegin(cfg: Config, run: Run, j: nat) returns (i: nat)
    requires Legal(cfg, run) && Commits(run, j)
    ensures run.events[j].generation.Some? && run.events[j].generation.value > 0
    ensures i < j && BegunAt(run, i, run.events[j].holder, run.events[j].generation.value)
    ensures forall k :: i < k <= j ==>
              run.states[k].lock == Some(Lock(run.events[j].holder, run.events[j].generation.value))
  {
    assert StepOk(cfg, run, j);
    i := LockHasItsBegin(cfg, run, j);
  }

  // ---------- What a commit leaves ----------

  /** Forgetting the failures whose time is over never changes the fate of an item. */
  lemma CollectionIsInvisible(cfg: Config, s: State, clock: real, item: Item, now: real)
    requires IsConfig(cfg) && Inv(cfg, s, clock)
    ensures FateOf(cfg, Collected(s, now), item, now) == FateOf(cfg, s, item, now)
  {
  }

  lemma {:induction false} FatesAddUp(cfg: Config, s: State, snapshot: seq<Item>, now: real)
    ensures CountFate(cfg, s, snapshot, now, Accepted) + CountFate(cfg, s, snapshot, now, Filtered)
            + CountFate(cfg, s, snapshot, now, Suppressed) == |snapshot|
  {
    if snapshot == [] {
    } else {
      FatesAddUp(cfg, s, snapshot[..|snapshot| - 1], now);
    }
  }

  lemma {:induction false} AcceptedComeFrom(cfg: Config, s: State, snapshot: seq<Item>, now: real)
    ensures forall e :: e in AcceptedEntries(cfg, s, snapshot, now) ==>
              exists i :: 0 <= i < |snapshot| && snapshot[i].endpoint == e
  {
    if snapshot == [] {
    } else {
      var init := snapshot[..|snapshot| - 1];
      AcceptedComeFrom(cfg, s, init, now);
      forall e | e in AcceptedEntries(cfg, s, snapshot, now)
        ensures exists i :: 0 <= i < |snapshot| && snapshot[i].endpoint == e
      {
        if e in AcceptedEntries(cfg, s, init, now) {
          var i :| 0 <= i < |init| && init[i].endpoint == e;
          assert snapshot[i].endpoint == e;
        }
      }
    }
  }

  /** The accepted entry of an item is the one it made itself. */
  predicate AsJudged(cfg: Config, s: State, records: map<Endpoint, Entry>, item: Item, now: real) {
    && (item.endpoint in records <==> FateOf(cfg, s, item, now) == Accepted)
    && (item.endpoint in records ==> records[item.endpoint] == Entry(item, ExpiryOf(cfg, item)))
  }

  /** What an item with a new endpoint adds. */
  lemma OneMoreItem(cfg: Config, s: State, before: map<Endpoint, Entry>, item: Item, now: real)
    requires item.endpoint !in before
    ensures var records := if FateOf(cfg, s, item, now) == Accepted
                           then before[item.endpoint := Entry(item, ExpiryOf(cfg, item))] else before;
            && AsJudged(cfg, s, records, item, now)
            && |records| == |before| + (if FateOf(cfg, s, item, now) == Accepted then 1 else 0)
            && forall other: Item :: other.endpoint != item.endpoint && AsJudged(cfg, s, before, other, now) ==>
                 AsJudged(cfg, s, records, other, now)
  {
  }

  lemma {:induction false} AcceptedExactly(cfg: Config, s: State, snapshot: seq<Item>, now: real)
    requires DistinctEndpoints(snapshot)
    ensures var records := AcceptedEntries(cfg, s, snapshot, now);
            && |records| == CountFate(cfg, s, snapshot, now, Accepted)
            && forall i :: 0 <= i < |snapshot| ==> AsJudged(cfg, s, records, snapshot[i], now)
  {
    if snapshot == [] {
    } else {
      var init, item := snapshot[..|snapshot| - 1], snapshot[|snapshot| - 1];
      AcceptedExactly(cfg, s, init, now);
      AcceptedComeFrom(cfg, s, init, now);
      var before := AcceptedEntries(cfg, s, init, now);
      assert forall i :: 0 <= i < |init| ==> init[i].endpoint != item.endpoint;
      assert item.endpoint !in before;
      OneMoreItem(cfg, s, before, item, now);
      forall i | 0 <= i < |snapshot|
        ensures AsJudged(cfg, s, AcceptedEntries(cfg, s, snapshot, now), snapshot[i], now)
      {
        if i < |init| {
          assert snapshot[i] == init[i] && AsJudged(cfg, s, before, init[i], now);
        }
      }
    }
  }

  /** Whatever its time, a replacement commits exactly if it is well formed and its caller holds the lock under
      the current generation. Then the cache holds exactly the snapshot's items that pass,
      are not the pool's own and are not suppressed by the failures on record before it,
      and the three counts add up to the snapshot. Otherwise nothing changes. */
  lemma CommitIsComplete(cfg: Config, s: State, clock: real, snapshot: seq<Item>, generation: Option<int>,
                         owner: Owner, now: real)
    requires IsConfig(cfg) && Inv(cfg, s, clock)
    ensures var (t, r) := Replace(cfg, s, snapshot, generation, owner, now);
            && (r.Committed? <==> ValidRequest(cfg, snapshot, generation, owner, now)
                                  && s.lock == Some(Lock(owner, s.generation)) && s.generation == generation.value)
            && (!r.Committed? ==> t == s)
            && (r.Committed? ==>
                  && r.accepted + r.filtered + r.suppressed == |snapshot|
                  && r.accepted == |t.records| && t.lock == None
                  && t.formal == s.formal && t.receipts == s.receipts && t.generation == s.generation
                  && (forall i :: 0 <= i < |snapshot| ==> AsJudged(cfg, s, t.records, snapshot[i], now))
                  && (forall e :: e in t.records ==> exists i :: 0 <= i < |snapshot| && snapshot[i].endpoint == e))
  {
    var s1 := Collected(s, now);
    if ValidRequest(cfg, snapshot, generation, owner, now) {
      FatesAddUp(cfg, s1, snapshot, now);
      AcceptedExactly(cfg, s1, snapshot, now);
      AcceptedComeFrom(cfg, s1, snapshot, now);
      var records := AcceptedEntries(cfg, s1, snapshot, now);
      forall i | 0 <= i < |snapshot| ensures AsJudged(cfg, s, records, snapshot[i], now) {
        assert AsJudged(cfg, s1, records, snapshot[i], now);
        CollectionIsInvisible(cfg, s, clock, snapshot[i], now);
      }
    }
  }
}
