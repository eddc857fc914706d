/** Leases over whole runs: exclusive, finished once, and taken back only when they have
    run out. */
module PoolLeases {
  import opened SortedSets
  import opened Pool
  import opened PoolRuns

  // ---------- One claim ----------

  lemma {:induction false} TakeSize(s: State, batch: seq<Endpoint>, expires: int, token: Token)
    ensures var taken := LeaseFree(s, batch, expires, token).1; NoDuplicates(taken) && |taken| <= |batch|
    decreases |batch|
  {
    if batch == [] {
    } else {
      var init, last := batch[..|batch| - 1], batch[|batch| - 1];
      TakeSize(s, init, expires, token);
      TakeOn(s, init, expires, token, last);
    }
  }

  /** The two halves of a claim. */
  function FastHalf(s: State, c: Claim, fast: seq<Endpoint>): (State, seq<Endpoint>) {
    LeaseFree(s, fast, c.now + c.leaseTime, c.token)
  }

  function SlowHalf(s: State, c: Claim, fast: seq<Endpoint>, general: seq<Endpoint>): (State, seq<Endpoint>) {
    if c.limit - |FastHalf(s, c, fast).1| > 0
    then LeaseFree(FastHalf(s, c, fast).0, general, c.now + c.leaseTime, c.token)
    else (FastHalf(s, c, fast).0, [])
  }

  predicate IsDue(s: State, now: int, e: Endpoint) {
    (e in s.priority && s.priority[e] <= now) || (e in s.due && s.due[e] <= now)
  }

  /** What a claim does to one endpoint: it leases exactly those that it returns, which were
      due and free, and leaves the others alone. */
  lemma ClaimOn(s: State, c: Claim, fast: seq<Endpoint>, general: seq<Endpoint>, e: Endpoint)
    requires ValidClaim(c) && ClaimReads(s, c, fast, general)
    ensures var (t, r) := ClaimDue(s, c, fast, general);
            && t == s.(due := t.due, leased := t.leased, owners := t.owners)
            && r.Some?
            && if e in r.value
               then IsDue(s, c.now, e) && e !in s.leased && e !in t.due
                    && e in t.leased && t.leased[e] == c.now + c.leaseTime && Owns(t, e, c.token)
               else (e in t.due <==> e in s.due) && (e in t.due ==> t.due[e] == s.due[e])
                    && (e in t.leased <==> e in s.leased) && (e in t.leased ==> t.leased[e] == s.leased[e])
                    && (e in t.owners <==> e in s.owners) && (e in t.owners ==> t.owners[e] == s.owners[e])
  {
    var expires := c.now + c.leaseTime;
    var (s1, first) := FastHalf(s, c, fast);
    TakeOn(s, fast, expires, c.token, e);
    if c.limit - |first| > 0 {
      TakeOn(s1, general, expires, c.token, e);
    }
  }

  /** A claim returns distinct endpoints, no more than its limit, and of a limit of two or
      more the priority index never takes the last place. */
  lemma ClaimIsBounded(s: State, c: Claim, fast: seq<Endpoint>, general: seq<Endpoint>)
    requires ValidClaim(c) && ClaimReads(s, c, fast, general)
    ensures var r := ClaimDue(s, c, fast, general).1.value;
            && r == FastHalf(s, c, fast).1 + SlowHalf(s, c, fast, general).1
            && NoDuplicates(r) && |r| <= c.limit
            && (c.limit >= 2 ==> |FastHalf(s, c, fast).1| < c.limit)
  {
    var expires := c.now + c.leaseTime;
    var (s1, first) := FastHalf(s, c, fast);
    TakeSize(s, fast, expires, c.token);
    if c.limit - |first| > 0 {
      var second := LeaseFree(s1, general, expires, c.token).1;
      TakeSize(s1, general, expires, c.token);
      forall i, j | 0 <= i < |first| && 0 <= j < |second| ensures first[i] != second[j] {
        TakeOn(s, fast, expires, c.token, first[i]);
        TakeOn(s1, general, expires, c.token, first[i]);
      }
    }
  }

  lemma {:induction false} TakeAll(s: State, batch: seq<Endpoint>, expires: int, token: Token)
    requires NoDuplicates(batch) && forall x :: x in batch ==> x !in s.leased
    ensures LeaseFree(s, batch, expires, token).1 == batch
    decreases |batch|
  {
    if batch == [] {
    } else {
      var init, last := batch[..|batch| - 1], batch[|batch| - 1];
      TakeAll(s, init, expires, token);
      TakeOn(s, init, expires, token, last);
      assert batch == init + [last];
    }
  }

  /** No endpoint is both due and leased. */
  ghost predicate Apart(s: State) {
    forall e :: e in s.due ==> e !in s.leased
  }

  lemma TakeKeepsApart(s: State, batch: seq<Endpoint>, expires: int, token: Token)
    requires Apart(s)
    ensures Apart(LeaseFree(s, batch, expires, token).0)
  {
    forall e | e in LeaseFree(s, batch, expires, token).0.due
      ensures e !in LeaseFree(s, batch, expires, token).0.leased
    {
      TakeOn(s, batch, expires, token, e);
    }
  }

  /** A read of free endpoints that leaves room was a read of everything due. */
  lemma ShortReadTakesAll(s: State, now: int, limit: nat, batch: seq<Endpoint>, expires: int, token: Token, e: Endpoint)
    requires Apart(s) && IsRange(s.due, now, limit, batch) && e in s.due && s.due[e] <= now
    requires |LeaseFree(s, batch, expires, token).1| < limit
    ensures e in LeaseFree(s, batch, expires, token).1
  {
    TakeAll(s, batch, expires, token);
  }

  /** If no endpoint is both due and leased, a claim that comes back short has taken all
      there was. */
  lemma ClaimIsExhaustive(s: State, c: Claim, fast: seq<Endpoint>, general: seq<Endpoint>, e: Endpoint)
    requires ValidClaim(c) && ClaimReads(s, c, fast, general) && Apart(s)
    requires e in s.due && s.due[e] <= c.now && |ClaimDue(s, c, fast, general).1.value| < c.limit
    ensures e in ClaimDue(s, c, fast, general).1.value
  {
    var expires := c.now + c.leaseTime;
    var (s1, first) := FastHalf(s, c, fast);
    TakeKeepsApart(s, fast, expires, c.token);
    TakeOn(s, fast, expires, c.token, e);
    assert ClaimDue(s, c, fast, general).1 == Some(first + LeaseFree(s1, general, expires, c.token).1);
    if e !in first {
      ShortReadTakesAll(s1, c.now, c.limit - |first|, general, expires, c.token, e);
    }
  }

  lemma {:induction false} TakeShrinks(s: State, batch: seq<Endpoint>, expires: int, token: Token, x: Endpoint)
    requires x in batch && x in s.leased
    ensures |LeaseFree(s, batch, expires, token).1| < |batch|
    decreases |batch|
  {
    var init, last := batch[..|batch| - 1], batch[|batch| - 1];
    TakeSize(s, init, expires, token);
    TakeOn(s, init, expires, token, last);
    if x in init {
      TakeShrinks(s, init, expires, token, x);
    }
  }

  predicate IsFreeWork(s: State, now: int, e: Endpoint) {
    e in s.due && s.due[e] <= now && e !in s.leased
  }

  /** A claim comes back short although it leaves work that is due and free. */
  ghost predicate MissesWork(s: State, c: Claim, claimed: seq<Endpoint>) {
    |claimed| < c.limit && exists e :: IsFreeWork(s, c.now, e) && e !in claimed
  }

  /** Everything due by now, in an order in which Redis may list it. */
  ghost predicate IsDueOrder(z: map<Endpoint, int>, now: int, order: seq<Endpoint>) {
    && NoDuplicates(order)
    && (forall e :: e in order <==> e in z && z[e] <= now)
    && (forall i, j :: 0 <= i < j < |order| ==> z[order[i]] <= z[order[j]])
  }

  lemma {:induction false} LowestExists(z: map<Endpoint, int>, keys: set<Endpoint>) returns (low: Endpoint)
    requires keys != {} && keys <= z.Keys
    ensures low in keys && forall k :: k in keys ==> z[low] <= z[k]
    decreases |keys|
  {
    low :| low in keys;
    var rest := keys - {low};
    if rest == {} {
      assert keys == {low};
    } else {
      var next := LowestExists(z, rest);
      assert forall k :: k in keys ==> k == low || k in rest;
      low := if z[low] <= z[next] then low else next;
    }
  }

  /** Every read is the beginning of such an order. */
  lemma ReadHasOrder(z: map<Endpoint, int>, now: int, room: nat, read: seq<Endpoint>) returns (order: seq<Endpoint>)
    requires IsRange(z, now, room, read)
    ensures IsDueOrder(z, now, order) && read == order[..Min(room, |order|)]
  {
    order := read;
    var rest := set k | k in z && z[k] <= now && k !in read;
    while rest != {}
      invariant read <= order && (|read| < room ==> rest == {} && order == read)
      invariant NoDuplicates(order)
      invariant forall k :: k in order ==> k in z && z[k] <= now && k !in rest
      invariant forall k :: k in rest <==> k in z && z[k] <= now && k !in order
      invariant forall i, j :: 0 <= i < j < |order| ==> z[order[i]] <= z[order[j]]
      invariant forall i, k :: 0 <= i < |order| && k in rest ==> z[order[i]] <= z[k]
      decreases rest
    {
      var low := LowestExists(z, rest);
      order := order + [low];
      rest := rest - {low};
    }
  }

  /** A leased endpoint stands among the first `room` of the order, and a free one after them. */
  ghost predicate IsBlocked(s: State, room: nat, order: seq<Endpoint>) {
    exists i, j :: 0 <= i < room <= j < |order| && order[i] in s.leased && order[j] !in s.leased
  }

  /** What the claim may still take after its fast half. */
  function Room(s: State, c: Claim, fast: seq<Endpoint>): nat {
    Max(0, c.limit - |FastHalf(s, c, fast).1|)
  }

  lemma BlockedMisses(s: State, c: Claim, fast: seq<Endpoint>, general: seq<Endpoint>, order: seq<Endpoint>, i: nat,
                      j: nat)
    requires ValidClaim(c) && ClaimReads(s, c, fast, general)
    requires IsDueOrder(FastHalf(s, c, fast).0.due, c.now, order)
    requires general == order[..Min(Room(s, c, fast), |order|)]
    requires i < Room(s, c, fast) <= j < |order| && order[i] in s.leased && order[j] !in s.leased
    ensures MissesWork(s, c, ClaimDue(s, c, fast, general).1.value)
  {
    var expires := c.now + c.leaseTime;
    var (s1, first) := FastHalf(s, c, fast);
    var x, e := order[i], order[j];
    assert x == general[i] && x in general && e in order;
    assert forall k :: 0 <= k < |general| ==> general[k] == order[k] && order[k] != e;
    TakeOn(s, fast, expires, c.token, x);
    TakeOn(s, fast, expires, c.token, e);
    ShortOf(s, c, fast, general, x, e);
  }

  lemma ShortOf(s: State, c: Claim, fast: seq<Endpoint>, general: seq<Endpoint>, x: Endpoint, e: Endpoint)
    requires ValidClaim(c) && |general| <= Room(s, c, fast)
    requires x in general && x in FastHalf(s, c, fast).0.leased
    requires IsFreeWork(s, c.now, e) && e !in FastHalf(s, c, fast).1 && e !in general
    ensures MissesWork(s, c, ClaimDue(s, c, fast, general).1.value)
  {
    var expires := c.now + c.leaseTime;
    var (s1, first) := FastHalf(s, c, fast);
    var second := LeaseFree(s1, general, expires, c.token).1;
    TakeShrinks(s1, general, expires, c.token, x);
    TakeOn(s1, general, expires, c.token, e);
    assert ClaimDue(s, c, fast, general).1 == Some(first + second);
    assert e !in first + second;
  }

  lemma UnreadWork(s: State, c: Claim, fast: seq<Endpoint>, general: seq<Endpoint>) returns (e: Endpoint)
    requires ValidClaim(c) && ClaimReads(s, c, fast, general)
    requires MissesWork(s, c, ClaimDue(s, c, fast, general).1.value)
    ensures Room(s, c, fast) > 0 && IsFreeWork(s, c.now, e) && e !in general
    ensures var z := FastHalf(s, c, fast).0.due; e in z && z[e] <= c.now
  {
    var expires := c.now + c.leaseTime;
    var (s1, first) := FastHalf(s, c, fast);
    var second := LeaseFree(s1, general, expires, c.token).1;
    assert |first| < c.limit && ClaimDue(s, c, fast, general).1 == Some(first + second);
    e :| IsFreeWork(s, c.now, e) && e !in first + second;
    TakeOn(s, fast, expires, c.token, e);
    TakeOn(s1, general, expires, c.token, e);
  }

  lemma MissingIsBlocked(s: State, c: Claim, fast: seq<Endpoint>, general: seq<Endpoint>, order: seq<Endpoint>)
    requires ValidClaim(c) && ClaimReads(s, c, fast, general)
    requires IsDueOrder(FastHalf(s, c, fast).0.due, c.now, order)
    requires general == order[..Min(Room(s, c, fast), |order|)]
    requires MissesWork(s, c, ClaimDue(s, c, fast, general).1.value)
    ensures IsBlocked(s, Room(s, c, fast), order)
  {
    var e := UnreadWork(s, c, fast, general);
    var j :| 0 <= j < |order| && order[j] == e;
    assert forall k :: 0 <= k < |general| ==> order[k] == general[k] && general[k] in general;
    assert Room(s, c, fast) <= j;
    LeasedInRead(s, c, fast, general);
    var i :| 0 <= i < |general| && general[i] in s.leased;
    assert order[i] == general[i];
  }

  /** A full read that does not fill the claim met a leased endpoint. */
  lemma LeasedInRead(s: State, c: Claim, fast: seq<Endpoint>, general: seq<Endpoint>)
    requires ValidClaim(c) && ClaimReads(s, c, fast, general) && |general| == Room(s, c, fast) > 0
    requires |ClaimDue(s, c, fast, general).1.value| < c.limit
    ensures exists i :: 0 <= i < |general| && general[i] in s.leased
  {
    var expires := c.now + c.leaseTime;
    var (s1, first) := FastHalf(s, c, fast);
    if forall x :: x in general ==> x !in s1.leased {
      TakeAll(s1, general, expires, c.token);
    } else {
      var x :| x in general && x in s1.leased;
      TakeOn(s, fast, expires, c.token, x);
      var i :| 0 <= i < |general| && general[i] == x;
    }
  }

  /** A claim misses work exactly if, in the order of what is due after its fast half, a
      leased endpoint stands among those it has room for and a free one after them. */
  lemma MissesWorkExactlyIfBlocked(s: State, c: Claim, fast: seq<Endpoint>, general: seq<Endpoint>,
                                   order: seq<Endpoint>)
    requires ValidClaim(c) && ClaimReads(s, c, fast, general)
    requires IsDueOrder(FastHalf(s, c, fast).0.due, c.now, order)
    requires Room(s, c, fast) > 0 ==> general == order[..Min(Room(s, c, fast), |order|)]
    ensures MissesWork(s, c, ClaimDue(s, c, fast, general).1.value) <==> IsBlocked(s, Room(s, c, fast), order)
  {
    if Room(s, c, fast) > 0 {
      if IsBlocked(s, Room(s, c, fast), order) {
        var i, j :| 0 <= i < Room(s, c, fast) <= j < |order| && order[i] in s.leased && order[j] !in s.leased;
        BlockedMisses(s, c, fast, general, order, i, j);
      } else if MissesWork(s, c, ClaimDue(s, c, fast, general).1.value) {
        MissingIsBlocked(s, c, fast, general, order);
      }
    }
  }

  // ---------- Leases over a run ----------

  /** Event i leased the endpoint. */
  predicate GivesOut(run: Run, i: int, e: Endpoint) {
    && 0 <= i < |run.events| && i < |run.replies| && run.events[i].Take?
    && run.replies[i].Taken? && run.replies[i].endpoints.Some? && e in run.replies[i].endpoints.value
  }

  /** Event k ended whatever lease there was on the endpoint. */
  predicate Ends(run: Run, k: int, e: Endpoint) {
    && 0 <= k < |run.events| && k < |run.replies|
    && ((run.events[k].Finish? && run.events[k].endpoint == e && run.replies[k] == Finished(Done))
        || (run.events[k].Reclaim? && run.replies[k].Taken? && run.replies[k].endpoints.Some?
            && e in run.replies[k].endpoints.value))
  }

  /** The lease on e is as it was. */
  predicate SameLease(s: State, t: State, e: Endpoint) {
    && (e in t.leased <==> e in s.leased) && (e in t.leased ==> t.leased[e] == s.leased[e])
    && (e in t.owners <==> e in s.owners) && (e in t.owners ==> t.owners[e] == s.owners[e])
  }

  lemma FinishOnOther(s: State, maxLatency: real, x: Endpoint, token: Token, ending: Ending, e: Endpoint)
    requires x != e || PerformFinish(s, maxLatency, x, token, ending).1 != Done
    ensures SameLease(s, PerformFinish(s, maxLatency, x, token, ending).0, e)
  {
  }

  lemma ClaimOnLeased(s: State, c: Claim, fast: seq<Endpoint>, general: seq<Endpoint>, e: Endpoint)
    requires ClaimReads(s, c, fast, general) && e in s.leased
    ensures var (t, r) := ClaimDue(s, c, fast, general); SameLease(s, t, e) && (r.Some? ==> e !in r.value)
  {
    if ValidClaim(c) {
      ClaimOn(s, c, fast, general, e);
    }
  }

  /** A lease survives every step that does not end it. */
  lemma LeaseSurvives(maxLatency: real, run: Run, k: nat, e: Endpoint)
    requires IsRun(maxLatency, run) && k < |run.events| && !Ends(run, k, e)
    requires e in run.states[k].leased
    ensures SameLease(run.states[k], run.states[k + 1], e) && !GivesOut(run, k, e)
  {
    assert StepOk(maxLatency, run, k);
    match run.events[k]
    case Take(c, fast, general) => ClaimOnLeased(run.states[k], c, fast, general, e);
    case Finish(x, token, ending) => FinishOnOther(run.states[k], maxLatency, x, token, ending, e);
    case Reclaim(now, limit, batch) => GivenBackOn(run.states[k], now, batch, e);
    case _ =>
  }

  /** Only a claim under a token makes it an owner. */
  lemma OwnerFromClaim(maxLatency: real, run: Run, k: nat, e: Endpoint, token: Token)
    requires IsRun(maxLatency, run) && k < |run.events|
    requires !Owns(run.states[k], e, token) && Owns(run.states[k + 1], e, token)
    ensures GivesOut(run, k, e) && run.events[k].claim.token == token
  {
    assert StepOk(maxLatency, run, k);
    match run.events[k]
    case Take(c, fast, general) =>
      if ValidClaim(c) {
        ClaimOn(run.states[k], c, fast, general, e);
      }
    case Reclaim(now, limit, batch) => GivenBackOn(run.states[k], now, batch, e);
    case _ =>
  }

  /** From its claim until something ends it, a lease stands as it was given. */
  lemma {:induction false} LeaseStands(maxLatency: real, run: Run, i: nat, n: nat, e: Endpoint)
    requires IsRun(maxLatency, run) && GivesOut(run, i, e) && i < n <= |run.events|
    requires forall k :: i < k < n ==> !Ends(run, k, e)
    ensures var c := run.events[i].claim;
            && Owns(run.states[n], e, c.token)
            && e in run.states[n].leased && run.states[n].leased[e] == c.now + c.leaseTime
  {
    if n == i + 1 {
      assert StepOk(maxLatency, run, i);
      var c := run.events[i].claim;
      ClaimOn(run.states[i], c, run.events[i].fast, run.events[i].general, e);
    } else {
      LeaseStands(maxLatency, run, i, n - 1, e);
      LeaseSurvives(maxLatency, run, n - 1, e);
    }
  }

  /** While a lease stands, no other claim is given its endpoint. */
  lemma LeasesAreExclusive(maxLatency: real, run: Run, i: nat, j: nat, e: Endpoint)
    requires IsRun(maxLatency, run) && i < j && GivesOut(run, i, e) && GivesOut(run, j, e)
    ensures exists k :: i < k < j && Ends(run, k, e)
  {
    if forall k :: i < k < j ==> !Ends(run, k, e) {
      LeaseStands(maxLatency, run, i, j, e);
      LeaseSurvives(maxLatency, run, j, e);
    }
  }

  /** What ends a standing lease is its own worker or a reclaim after its time. */
  lemma LeaseEndsByOwnerOrTime(maxLatency: real, run: Run, i: nat, k: nat, e: Endpoint)
    requires IsRun(maxLatency, run) && GivesOut(run, i, e) && i < k && Ends(run, k, e)
    requires forall j :: i < j < k ==> !Ends(run, j, e)
    ensures var c := run.events[i].claim;
            || (run.events[k].Finish? && run.events[k].token == c.token)
            || (run.events[k].Reclaim? && c.now + c.leaseTime <= run.events[k].now)
    ensures !Owns(run.states[k + 1], e, run.events[i].claim.token)
  {
    LeaseStands(maxLatency, run, i, k, e);
    assert StepOk(maxLatency, run, k);
    if run.events[k].Reclaim? {
      GivenBackOn(run.states[k], run.events[k].now, run.events[k].batch, e);
    }
  }

  /** Once a token has lost an endpoint it never owns it again. */
  lemma {:induction false} LostForGood(maxLatency: real, run: Run, i: nat, k: nat, n: nat, e: Endpoint)
    requires IsRun(maxLatency, run) && GivesOut(run, i, e) && i < k <= n <= |run.events|
    requires !Owns(run.states[k], e, run.events[i].claim.token)
    ensures !Owns(run.states[n], e, run.events[i].claim.token)
  {
    if k == n {
    } else {
      LostForGood(maxLatency, run, i, k, n - 1, e);
      if Owns(run.states[n], e, run.events[i].claim.token) {
        OwnerFromClaim(maxLatency, run, n - 1, e, run.events[i].claim.token);
      }
    }
  }

  lemma {:induction false} FirstEnd(run: Run, i: nat, n: nat, e: Endpoint) returns (k: nat)
    requires exists j :: i < j < n && Ends(run, j, e)
    ensures i < k < n && Ends(run, k, e) && forall j :: i < j < k ==> !Ends(run, j, e)
    decreases n
  {
    k :| i < k < n && Ends(run, k, e);
    if j :| i < j < k && Ends(run, j, e) {
      k := FirstEnd(run, i, k, e);
    }
  }

  /** A worker that gives back a lease succeeds exactly if nothing has ended the lease since
      its claim: neither an earlier success of its own nor a reclaim. */
  lemma FinishSucceedsExactly(maxLatency: real, run: Run, i: nat, j: nat, e: Endpoint)
    requires IsRun(maxLatency, run) && GivesOut(run, i, e) && i < j < |run.events|
    requires run.events[j].Finish? && run.events[j].endpoint == e
    requires run.events[j].token == run.events[i].claim.token
    requires run.replies[j] != Finished(Rejected)
    ensures run.replies[j] == Finished(Done) <==> forall k :: i < k < j ==> !Ends(run, k, e)
  {
    assert StepOk(maxLatency, run, j);
    if forall k :: i < k < j ==> !Ends(run, k, e) {
      LeaseStands(maxLatency, run, i, j, e);
    } else {
      var k := FirstEnd(run, i, j, e);
      LeaseEndsByOwnerOrTime(maxLatency, run, i, k, e);
      LostForGood(maxLatency, run, i, k + 1, j, e);
    }
  }

  /** Whoever succeeds was given the endpoint by a claim of its own. */
  lemma {:induction false} OwnerHasItsClaim(maxLatency: real, run: Run, n: nat, e: Endpoint, token: Token)
    returns (i: nat)
    requires Legal(maxLatency, run) && n <= |run.events| && Owns(run.states[n], e, token)
    ensures i < n && GivesOut(run, i, e) && run.events[i].claim.token == token
  {
    if Owns(run.states[n - 1], e, token) {
      i := OwnerHasItsClaim(maxLatency, run, n - 1, e, token);
    } else {
      OwnerFromClaim(maxLatency, run, n - 1, e, token);
      i := n - 1;
    }
  }

  /** Complete, release and delete together succeed at most once per token and endpoint. */
  lemma FinishedOnce(maxLatency: real, run: Run, j: nat, k: nat)
    requires Legal(maxLatency, run) && j < k < |run.events| && run.events[j].Finish? && run.events[k].Finish?
    requires run.events[j].endpoint == run.events[k].endpoint && run.events[j].token == run.events[k].token
    requires run.replies[j] == Finished(Done)
    ensures run.replies[k] != Finished(Done)
  {
    var e, token := run.events[j].endpoint, run.events[j].token;
    assert StepOk(maxLatency, run, j) && StepOk(maxLatency, run, k);
    var i := OwnerHasItsClaim(maxLatency, run, j, e, token);
    assert Ends(run, j, e);
    if run.replies[k] != Finished(Rejected) {
      FinishSucceedsExactly(maxLatency, run, i, k, e);
    }
  }
}
