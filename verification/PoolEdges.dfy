/** Where the pool's guarantees end: what a capacity eviction leaves behind, and when a claim
    comes back empty although there is work. */
module PoolEdges {
  import opened SortedSets
  import opened Pool
  import opened PoolRuns
  import opened PoolLeases
  import opened Eviction

  // ---------- Capacity ----------

  lemma Less<T>(a: set<T>, b: set<T>)
    requires b <= a
    ensures |a - b| == |a| - |b|
  {
  }

  lemma Without(m: map<Endpoint, Record>, gone: seq<Endpoint>)
    requires NoDuplicates(gone) && forall e :: e in gone ==> e in m
    ensures |m - set e | e in gone| == |m| - |gone|
  {
    DistinctLength(gone);
    Less(m.Keys, set e | e in gone);
    assert (m - set e | e in gone).Keys == m.Keys - set e | e in gone;
  }

  function Held(s: State): set<Endpoint> {
    set e | e in s.records && e in s.leased
  }

  lemma UnleasedCount(s: State)
    ensures |Unleased(s)| == |s.records| - |Held(s)|
  {
    Less(s.records.Keys, Held(s));
    assert Unleased(s) == s.records.Keys - Held(s);
  }

  /** An eviction brings the pool down to its maximum, or to its leased records if those are
      more, and touches no lease. */
  lemma EvictionReachesCapacity(s: State, maximum: nat, gone: seq<Endpoint>)
    requires |s.records| > maximum && IsLowest(s, |s.records| - maximum, gone)
    ensures var t := Evict(s, gone);
            && |t.records| == Max(maximum, |Held(s)|)
            && t.leased == s.leased && t.owners == s.owners
            && forall e :: e in Held(s) ==> e in t.records && t.records[e] == s.records[e]
  {
    Without(s.records, gone);
    UnleasedCount(s);
  }

  // ---------- What an eviction leaves in the priority index ----------

  /** The unleased records that would be given up before this one. */
  function RankedBelow(s: State, e: Endpoint): set<Endpoint>
    requires e in s.records
  {
    set x | x in Unleased(s) && Before(RankIn(s, x), RankIn(s, e))
  }

  /** Whether a record survives can be told before the eviction: it does exactly if it is
      leased or enough others rank below it. */
  lemma GoneExactly(s: State, excess: nat, gone: seq<Endpoint>, e: Endpoint)
    requires IsLowest(s, excess, gone) && e in Unleased(s)
    ensures e in gone <==> |RankedBelow(s, e)| < excess
  {
    var out := set x | x in gone;
    var below := RankedBelow(s, e);
    DistinctLength(gone);
    if e in gone {
      forall x | x in below ensures x in out - {e} {
        RankOrder(RankIn(s, x), RankIn(s, e));
      }
      SubsetSize(below, out - {e});
    } else {
      assert out <= below;
      SubsetSize(out, below);
      SubsetSize(out, Unleased(s));
      assert e in Unleased(s) && e !in out;
    }
  }

  /** No entry of the priority index lacks a record. */
  ghost predicate NoOrphan(s: State) {
    forall e :: e in s.priority ==> e in s.records
  }

  /** An eviction of `excess` records orphans no priority entry exactly if, before it, every
      priority entry is leased or ranks above at least `excess` unleased records. */
  lemma EvictionOrphansExactly(s: State, excess: nat, gone: seq<Endpoint>)
    requires NoOrphan(s) && IsLowest(s, excess, gone)
    ensures NoOrphan(Evict(s, gone)) <==>
              forall e :: e in s.priority && e !in s.leased ==> |RankedBelow(s, e)| >= excess
  {
    var t := Evict(s, gone);
    forall e | e in s.priority ensures e in t.records <==> e in s.leased || |RankedBelow(s, e)| >= excess {
      if e !in s.leased {
        GoneExactly(s, excess, gone, e);
      }
    }
    assert forall e :: e in t.priority <==> e in s.priority;
  }

  /** What must hold before an eviction for it to leave no orphan. */
  ghost predicate SparesPriority(s: State, maximum: nat) {
    forall e :: e in s.priority && e in s.records && e !in s.leased ==>
      |RankedBelow(s, e)| >= |s.records| - maximum
  }

  lemma OthersMakeNoOrphan(s: State, maxLatency: real, event: Event)
    requires NoOrphan(s) && !event.Enforce?
    ensures NoOrphan(Perform(s, maxLatency, event).0)
  {
    match event
    case Take(c, fast, general) => ClaimLeavesTheRest(s, c, fast, general);
    case Finish(e, token, ending) => FinishMakesNoOrphan(s, maxLatency, e, token, ending);
    case Reclaim(now, _, batch) => GivenBackOn(s, now, batch, "");
    case _ =>
  }

  lemma ClaimLeavesTheRest(s: State, c: Claim, fast: seq<Endpoint>, general: seq<Endpoint>)
    ensures var t := ClaimDue(s, c, fast, general).0; t.records == s.records && t.priority == s.priority
  {
    var expires := c.now + c.leaseTime;
    TakeOn(s, fast, expires, c.token, "");
    TakeOn(LeaseFree(s, fast, expires, c.token).0, general, expires, c.token, "");
  }

  lemma FinishMakesNoOrphan(s: State, maxLatency: real, e: Endpoint, token: Token, ending: Ending)
    requires NoOrphan(s)
    ensures NoOrphan(PerformFinish(s, maxLatency, e, token, ending).0)
  {
  }

  /** Evictions are the only source of orphans: from a state without any, a run reaches none
      if each of its evictions meets the condition beforehand, and the first that does not
      makes one. */
  lemma {:induction false} OrphansComeFromEvictions(maxLatency: real, run: Run, m: nat, n: nat)
    requires IsRun(maxLatency, run) && m <= n <= |run.events| && NoOrphan(run.states[m])
    requires forall k :: m <= k < n - 1 && run.events[k].Enforce? ==>
                           SparesPriority(run.states[k], run.events[k].maximum)
    ensures n == m || !run.events[n - 1].Enforce? ==> NoOrphan(run.states[n])
    ensures n > m && run.events[n - 1].Enforce? ==>
              (NoOrphan(run.states[n]) <==> SparesPriority(run.states[n - 1], run.events[n - 1].maximum))
  {
    if n == m {
    } else {
      OrphansComeFromEvictions(maxLatency, run, m, n - 1);
      assert StepOk(maxLatency, run, n - 1);
      var s, event := run.states[n - 1], run.events[n - 1];
      if event.Enforce? {
        EnforcedOrphans(s, event.maximum, event.gone);
      } else {
        OthersMakeNoOrphan(s, maxLatency, event);
      }
    }
  }

  lemma EnforcedOrphans(s: State, maximum: nat, gone: seq<Endpoint>)
    requires NoOrphan(s) && Enabled(s, Enforce(maximum, gone))
    ensures NoOrphan(Evict(s, gone)) <==> SparesPriority(s, maximum)
  {
    if |s.records| <= maximum {
      assert (set e | e in gone) == {};
    } else {
      EvictionOrphansExactly(s, |s.records| - maximum, gone);
    }
  }

  function Fast(e: Endpoint, score: int, nextCheckAt: int): Record {
    Record(e, score, Available, {}, 0, 0, None, nextCheckAt, 2, Some(100.0))
  }

  lemma FastOn(s: State, e: Endpoint, score: int, nextCheckAt: int)
    ensures var t := SaveRecord(s, 1000.0, Fast(e, score, nextCheckAt));
            && t.records == s.records[e := Fast(e, score, nextCheckAt)]
            && t.priority == s.priority[e := nextCheckAt] && t.leased == s.leased
  {
  }

  /** A pool of two fast proxies that may keep one gives up the one of lower score. */
  lemma LowerScoreGoes(s: State, a: Endpoint, b: Endpoint)
    requires a != b && s.leased == map[]
    requires s.records == map[a := Fast(a, 80, 0), b := Fast(b, 90, 1)]
    ensures |s.records| == 2 && IsLowest(s, 1, [a])
  {
    assert s.records.Keys == {a, b};
    assert Unleased(s) == {a, b};
    assert |s.records| == |s.records.Keys|;
  }

  /** Four operations on an empty pool make an orphan, and two more hand it out and make it
      due: two fast proxies are saved, the maximum of one removes the first, a claim is given
      it although it has no record, and its release puts it back among the due. */
  lemma OrphanIsHandedOut(a: Endpoint, b: Endpoint)
    returns (s1: State, s2: State, s3: State, s4: State, s5: State)
    requires a != b
    ensures s1 == SaveRecord(EMPTY, 1000.0, Fast(a, 80, 0)) && s2 == SaveRecord(s1, 1000.0, Fast(b, 90, 1))
    ensures NoOrphan(s2) && |s2.records| == 2 && IsLowest(s2, |s2.records| - 1, [a]) && s3 == Evict(s2, [a])
    ensures a in s3.priority && a !in s3.records
    ensures ClaimReads(s3, ClaimOne(0, "1"), [a], []) && ClaimDue(s3, ClaimOne(0, "1"), [a], []) == (s4, Some([a]))
    ensures a !in s4.records
    ensures Release(s4, a, "1", 60) == (s5, Done) && a in s5.due && a !in s5.records
  {
    s1 := SaveRecord(EMPTY, 1000.0, Fast(a, 80, 0));
    s2 := SaveRecord(s1, 1000.0, Fast(b, 90, 1));
    FastOn(EMPTY, a, 80, 0);
    FastOn(s1, b, 90, 1);
    LowerScoreGoes(s2, a, b);
    s3 := Evict(s2, [a]);
    FastClaim(s3, a, b);
    s4 := LeaseFree(s3, [a], 60, "1").0;
    TakeOne(s3, a, 60, "1");
    s5 := Release(s4, a, "1", 60).0;
  }

  /** A claim for one at time 0 takes the one fast proxy that is due. */
  lemma FastClaim(s: State, a: Endpoint, b: Endpoint)
    requires a != b && s.priority == map[a := 0, b := 1] && s.leased == map[]
    ensures ClaimReads(s, ClaimOne(0, "1"), [a], [])
    ensures ClaimDue(s, ClaimOne(0, "1"), [a], []) == (LeaseFree(s, [a], 60, "1").0, Some([a]))
  {
    TakeOne(s, a, 60, "1");
  }

  // ---------- A claim that misses work ----------

  function Plain(e: Endpoint, nextCheckAt: int): Record {
    Record(e, 50, Candidate, {}, 0, 0, None, nextCheckAt, 0, None)
  }

  function ClaimOne(now: int, token: Token): Claim {
    Claim(now, 1, 60, "worker", token)
  }

  lemma TakeOne(s: State, e: Endpoint, expires: int, token: Token)
    ensures LeaseFree(s, [e], expires, token)
            == if e in s.leased then (s, [])
               else (s.(due := s.due - {e}, leased := s.leased[e := expires], owners := s.owners[e := token]), [e])
  {
    var none: seq<Endpoint> := [];
    assert [e][..0] == none && LeaseFree(s, none, expires, token) == (s, none);
    assert none + [e] == [e];
  }

  /** A claim for one that reads one endpoint and finds no fast one. */
  lemma ReadsOne(s: State, now: int, token: Token, e: Endpoint)
    requires s.priority == map[] && e in s.due && s.due[e] <= now
    requires forall x :: x in s.due ==> s.due[e] <= s.due[x]
    ensures ClaimReads(s, ClaimOne(now, token), [], [e])
    ensures ClaimDue(s, ClaimOne(now, token), [], [e])
            == (LeaseFree(s, [e], now + 60, token).0, Some(LeaseFree(s, [e], now + 60, token).1))
  {
    var none: seq<Endpoint> := [];
    var (t, second) := LeaseFree(s, [e], now + 60, token);
    assert LeaseFree(s, none, now + 60, token) == (s, none);
    assert none + second == second;
    assert ClaimDue(s, ClaimOne(now, token), [], [e]) == (t, Some(none + second));
  }

  lemma PlainOn(s: State, e: Endpoint, nextCheckAt: int)
    requires s.priority == map[]
    ensures var t := SaveRecord(s, 1000.0, Plain(e, nextCheckAt));
            t.priority == map[] && t.due == s.due[e := nextCheckAt] && t.leased == s.leased
  {
    assert s.priority - {e} == map[];
  }

  /** Saving a record while it is leased makes it due as well, and a due endpoint that is
      leased uses up a place of the read. So five operations on an empty pool lead to this:
      "a" saved, claimed and saved again, "b" saved, and then a claim for one that comes back
      empty and changes nothing although "b" is due and free. */
  lemma LeasedAndDueHidesOthers(a: Endpoint, b: Endpoint) returns (s1: State, s2: State, s3: State, s4: State)
    requires a != b
    ensures s1 == SaveRecord(EMPTY, 1000.0, Plain(a, 0))
    ensures ClaimReads(s1, ClaimOne(0, "1"), [], [a]) && ClaimDue(s1, ClaimOne(0, "1"), [], [a]) == (s2, Some([a]))
    ensures s3 == SaveRecord(s2, 1000.0, Plain(a, 0)) && s4 == SaveRecord(s3, 1000.0, Plain(b, 1))
    ensures ClaimReads(s4, ClaimOne(5, "2"), [], [a]) && ClaimDue(s4, ClaimOne(5, "2"), [], [a]) == (s4, Some([]))
    ensures b in s4.due && s4.due[b] <= 5 && b !in s4.leased
  {
    s1 := SaveRecord(EMPTY, 1000.0, Plain(a, 0));
    PlainOn(EMPTY, a, 0);
    ReadsOne(s1, 0, "1", a);
    TakeOne(s1, a, 60, "1");
    s2 := LeaseFree(s1, [a], 60, "1").0;
    s3 := SaveRecord(s2, 1000.0, Plain(a, 0));
    PlainOn(s2, a, 0);
    s4 := SaveRecord(s3, 1000.0, Plain(b, 1));
    PlainOn(s3, b, 1);
    ReadsOne(s4, 5, "2", a);
    TakeOne(s4, a, 65, "2");
  }
}
