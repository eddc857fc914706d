/** Further facts about whole runs of the ownership protocol: progress, verdicts,
    idempotence, late corrections and deadlines. */
module OwnershipTheorems {
  import opened SortedSets
  import opened OwnershipProtocol
  import opened OwnershipInvariant
  import opened OwnershipRuns

  // ---------- Progress: a case takes at most two answers per member ----------

  predicate IsAnswerFor(run: Run, k: int, id: CaseId) {
    && 0 <= k < |run.steps| && k < |run.replies|
    && run.steps[k].Submit? && run.steps[k].caseId == id
    && (run.replies[k].FoundInternal? || run.replies[k].Recorded?)
  }

  /** How many answers to the case were accepted before step n. */
  function AnswerCount(run: Run, n: nat, id: CaseId): nat {
    if n == 0 then 0
    else AnswerCount(run, n - 1, id) + if IsAnswerFor(run, n - 1, id) then 1 else 0
  }

  function AnsweredSlots(s: State, id: CaseId): set<Slot> {
    set x | x in s.results && x.caseId == id
  }

  lemma AnswerAddsItsSlot(run: Run, n: nat, id: CaseId)
    requires Legal(run) && IsAnswerFor(run, n, id)
    ensures exists x: Slot :: x !in AnsweredSlots(run.worlds[n].state, id)
                              && AnsweredSlots(run.worlds[n + 1].state, id)
                                 == AnsweredSlots(run.worlds[n].state, id) + {x}
  {
    var s, t, e := run.worlds[n].state, run.worlds[n + 1].state, run.steps[n];
    assert StepOk(run, n);
    SubmitOnState(run.worlds[n], e);
    var x := Slot(id, ParseRound(e.roundNo).value, e.member);
    assert x !in AnsweredSlots(s, id) && AnsweredSlots(t, id) == AnsweredSlots(s, id) + {x};
  }

  lemma StepOnAnswers(run: Run, n: nat, id: CaseId)
    requires Legal(run) && n < |run.steps|
    ensures |AnsweredSlots(run.worlds[n + 1].state, id)|
            == |AnsweredSlots(run.worlds[n].state, id)| + if IsAnswerFor(run, n, id) then 1 else 0
  {
    var s, t := run.worlds[n].state, run.worlds[n + 1].state;
    if IsAnswerFor(run, n, id) {
      AnswerAddsItsSlot(run, n, id);
    } else {
      forall x: Slot | x.caseId == id ensures x in s.results <==> x in t.results {
        StepOnResult(run, n, x);
      }
      assert AnsweredSlots(t, id) == AnsweredSlots(s, id);
    }
  }

  lemma {:induction false} AnswersAreResults(run: Run, n: nat, id: CaseId)
    requires Legal(run) && n <= |run.steps|
    ensures AnswerCount(run, n, id) == |AnsweredSlots(run.worlds[n].state, id)|
  {
    if n == 0 {
      assert AnsweredSlots(run.worlds[0].state, id) == {};
    } else {
      AnswersAreResults(run, n - 1, id);
      StepOnAnswers(run, n - 1, id);
    }
  }

  lemma {:induction false} SlotCount(id: CaseId, round: Round, members: seq<Member>)
    ensures |Slots(id, round, members)| <= |members|
  {
    if members == [] {
      assert Slots(id, round, members) == {};
    } else {
      var rest := members[1..];
      SlotCount(id, round, rest);
      assert Slots(id, round, members) == Slots(id, round, rest) + {Slot(id, round, members[0])};
    }
  }

  /** A case resolves after at most 2·|members| accepted answers: that many are never
      exceeded, and a case that is still pending has had fewer. */
  lemma AnswersAreBounded(run: Run, n: nat, id: CaseId)
    requires Legal(run) && n <= |run.steps| && id in run.worlds[n].state.cases
    ensures var c := run.worlds[n].state.cases[id];
            && AnswerCount(run, n, id) <= 2 * |c.members|
            && (c.status == Pending ==> AnswerCount(run, n, id) < 2 * |c.members|)
  {
    var w := run.worlds[n];
    var s, members := w.state, w.state.cases[id].members;
    ReachableIsGood(run, n);
    AnswersAreResults(run, n, id);
    forall x | x in AnsweredSlots(s, id) ensures x in AllSlots(id, members) {
      assert SlotGood(w, x);
      AllSlotsHas(id, members, x);
    }
    SlotCount(id, One, members);
    SlotCount(id, Two, members);
    SubsetSize(AnsweredSlots(s, id), AllSlots(id, members));
    if s.cases[id].status == Pending {
      PendingExactlyWhenQueued(run, n, id);
      var x :| x in s.jobs && x.caseId == id;
      QueuedExactlyWhenWanted(run, n, x);
      AllSlotsHas(id, members, x);
      assert x in AllSlots(id, members) && x !in AnsweredSlots(s, id);
    }
  }

  // ---------- Verdicts ----------

  /** Whether step k gave the case a verdict, at its birth or later. */
  predicate GaveVerdict(run: Run, k: nat, id: CaseId)
    requires |run.worlds| == |run.steps| + 1 && k < |run.steps|
  {
    var s, t := run.worlds[k].state, run.worlds[k + 1].state;
    && id in t.cases
    && (if id in s.cases then t.cases[id].status != s.cases[id].status else t.cases[id].status != Pending)
  }

  function VerdictCount(run: Run, n: nat, id: CaseId): nat
    requires |run.worlds| == |run.steps| + 1 && n <= |run.steps|
  {
    if n == 0 then 0
    else VerdictCount(run, n - 1, id) + if GaveVerdict(run, n - 1, id) then 1 else 0
  }

  /** The revision of a case is the number of verdicts it has been given, at most two. */
  lemma {:induction false} RevisionCountsVerdicts(run: Run, n: nat, id: CaseId)
    requires Legal(run) && n <= |run.steps|
    ensures if id in run.worlds[n].state.cases
            then run.worlds[n].state.cases[id].revision == VerdictCount(run, n, id) <= 2
            else VerdictCount(run, n, id) == 0
  {
    if n == 0 {
    } else {
      RevisionCountsVerdicts(run, n - 1, id);
      StepOnCase(run, n - 1, id);
      ReachableIsGood(run, n);
      assert CaseGood(run.worlds[n], id);
    }
  }

  /** Between any two moments of a run a case keeps its members, cycle and opening time;
      pending may become anything, external and unconfirmed only internal, and internal
      stays. */
  lemma {:induction false} VerdictsMoveForward(run: Run, m: nat, n: nat, id: CaseId)
    requires Legal(run) && m <= n <= |run.steps| && id in run.worlds[m].state.cases
    ensures id in run.worlds[n].state.cases
    ensures var c, c' := run.worlds[m].state.cases[id], run.worlds[n].state.cases[id];
            && c'.cycle == c.cycle && c'.members == c.members && c'.createdAt == c.createdAt
            && (c.status == Pending || c'.status == c.status || c'.status == Internal)
            && c'.revision >= c.revision
            && (c.status == Internal ==> c'.revision == c.revision)
  {
    if m == n {
    } else {
      VerdictsMoveForward(run, m, n - 1, id);
      StepOnCase(run, n - 1, id);
    }
  }

  // ---------- Idempotence ----------

  lemma StepOnMarkers(run: Run, n: nat)
    requires Legal(run) && n < |run.steps|
    ensures var s, t, e := run.worlds[n].state, run.worlds[n + 1].state, run.steps[n];
            if e.Submit? && Accepted(run.replies[n])
            then && ParseRound(e.roundNo).Some? && ParseVerdict(e.verdict).Some? && e.resultId !in s.markers
                 && t.markers
                     == s.markers[e.resultId := Signature(Slot(e.caseId, ParseRound(e.roundNo).value, e.member),
                                                                   ParseVerdict(e.verdict).value)]
            else t.markers == s.markers
  {
    var w, e := run.worlds[n], run.steps[n];
    assert StepOk(run, n);
    ReachableIsGood(run, n);
    if e.Claim? {
      ClaimOnState(w, e.now, e.member, e.token, e.batch);
    } else if e.Submit? {
      SubmitOnState(w, e);
    }
  }

  lemma {:induction false} MarkerStays(run: Run, m: nat, n: nat, resultId: ResultId)
    requires Legal(run) && m <= n <= |run.steps| && resultId in run.worlds[m].state.markers
    ensures SameAt(run.worlds[m].state.markers, run.worlds[n].state.markers, resultId)
  {
    if m == n {
    } else {
      MarkerStays(run, m, n - 1, resultId);
      StepOnMarkers(run, n - 1);
    }
  }

  /** A result ID is used for at most one accepted submission in a run. */
  lemma ResultIdsAreUsedOnce(run: Run, j: nat, k: nat)
    requires Legal(run) && j < |run.steps| && k < |run.steps|
    requires run.steps[j].Submit? && Accepted(run.replies[j])
    requires run.steps[k].Submit? && Accepted(run.replies[k])
    requires run.steps[j].resultId == run.steps[k].resultId
    ensures j == k
  {
    StepOnMarkers(run, j);
    StepOnMarkers(run, k);
    if j < k {
      MarkerStays(run, j + 1, k, run.steps[j].resultId);
    } else if k < j {
      MarkerStays(run, k + 1, j, run.steps[j].resultId);
    }
  }

  /** Repeating an accepted submission at any later moment, under any token, changes
      nothing and is acknowledged. */
  lemma ReplayChangesNothing(run: Run, j: nat, n: nat, now: int, token: Token)
    requires Legal(run) && j < n <= |run.steps|
    requires run.steps[j].Submit? && Accepted(run.replies[j])
    ensures var e, s := run.steps[j], run.worlds[n].state;
            SubmitResult(s, now, e.caseId, e.member, e.roundNo, e.verdict, e.resultId, token) == Outcome(s, Replayed)
  {
    var e := run.steps[j];
    assert StepOk(run, j);
    AcceptedExactlyUnderLiveLease(run.worlds[j].state, e.now, e.caseId, e.member, e.roundNo, e.verdict, e.resultId,
                                  e.token);
    StepOnMarkers(run, j);
    MarkerStays(run, j + 1, n, e.resultId);
    VerdictsMoveForward(run, j, n, e.caseId);
  }

  /** Repeating a registered success at any later moment changes nothing. */
  lemma RepeatedSuccessChangesNothing(run: Run, n: nat, now: int, cycle: Cycle, eventId: EventId, member: Member)
    requires Legal(run) && n <= |run.steps|
    requires eventId in run.worlds[n].state.events
    ensures RegisterSuccess(run.worlds[n].state, now, cycle, eventId, member).state == run.worlds[n].state
  {
    ReachableIsGood(run, n);
    if run.worlds[n].state.events[eventId].identity == IdentityOf(cycle) {
      KnownReceiptChangesNothing(run.worlds[n], cycle, eventId);
    }
  }

  // ---------- Late corrections ----------

  /** In every reachable state: once a cycle has a receipt from after its entry time, every
      case of the cycle opened since the entry time is internal, whichever came first and
      whatever the case had been before. */
  lemma OverriddenCasesAreInternal(run: Run, n: nat, d: Digest, id: CaseId)
    requires Legal(run) && n <= |run.steps|
    requires OfCycle(d) in run.worlds[n].state.receipts && id in run.worlds[n].state.cases
    requires DigestOf(run.worlds[n].state.cases[id].cycle) == Some(d)
    requires 0 < EntryMs(d) <= run.worlds[n].state.receipts[OfCycle(d)].serverTime
    requires EntryMs(d) <= run.worlds[n].state.cases[id].createdAt
    ensures run.worlds[n].state.cases[id].status == Internal
  {
    ReachableIsGood(run, n);
    assert Overrides(run.worlds[n].state.receipts[OfCycle(d)], d, run.worlds[n].state.cases[id]);
  }

  /** Opening a new case and registering the first success of its cycle. */
  function OpenThenSuccess(s: State, now: int, id: CaseId, cycle: Cycle, members: seq<Member>,
                           creator: Option<Member>, eventId: EventId, member: Member): State
  {
    RegisterSuccess(OpenCase(s, now, id, cycle, members, creator).state, now, cycle, eventId, member).state
  }

  function SuccessThenOpen(s: State, now: int, id: CaseId, cycle: Cycle, members: seq<Member>,
                           creator: Option<Member>, eventId: EventId, member: Member): State
  {
    OpenCase(RegisterSuccess(s, now, cycle, eventId, member).state, now, id, cycle, members, creator).state
  }

  /** The case is new, the success is the first of its cycle, and both are well formed. */
  ghost predicate BothAreNew(s: State, id: CaseId, cycle: Cycle, members: seq<Member>,
                             creator: Option<Member>, eventId: EventId, member: Member)
  {
    && ValidOpening(id, members, creator) && id !in s.cases
    && eventId != "" && member != "" && eventId !in s.events
    && DigestOf(cycle).Some? && OfCycle(DigestOf(cycle).value) !in s.receipts
  }

  lemma OpenFirst(w: World, now: int, id: CaseId, cycle: Cycle, members: seq<Member>,
                  creator: Option<Member>, eventId: EventId, member: Member)
    requires Inv(w) && BothAreNew(w.state, id, cycle, members, creator, eventId, member)
    ensures OpenThenSuccess(w.state, now, id, cycle, members, creator, eventId, member)
            == ApplyReceipt(WithReceipt(OpenPending(w.state, now, id, cycle, members, creator), now, cycle, eventId,
                                        member),
                            cycle, Receipt(member, eventId, now, now + SUCCESS_TTL_MS))
  {
  }

  lemma SuccessFirst(w: World, now: int, id: CaseId, cycle: Cycle, members: seq<Member>,
                     creator: Option<Member>, eventId: EventId, member: Member)
    requires Inv(w) && BothAreNew(w.state, id, cycle, members, creator, eventId, member)
    ensures var t := ApplyReceipt(WithReceipt(w.state, now, cycle, eventId, member),
                                  cycle, Receipt(member, eventId, now, now + SUCCESS_TTL_MS));
            SuccessThenOpen(w.state, now, id, cycle, members, creator, eventId, member)
            == if EntryMs(DigestOf(cycle).value) <= now then OpenInternal(t, now, id, cycle, members, creator)
               else OpenPending(t, now, id, cycle, members, creator)
  {
    var s1 := WithReceipt(w.state, now, cycle, eventId, member);
    ApplyReceiptFields(s1, cycle, Receipt(member, eventId, now, now + SUCCESS_TTL_MS));
  }

  lemma SameMaps<K, V>(a: map<K, V>, b: map<K, V>)
    requires forall k {:trigger SameAt(a, b, k)} :: SameAt(a, b, k)
    ensures a == b
  {
    forall k ensures k in a <==> k in b {
      assert SameAt(a, b, k);
    }
    forall k | k in a ensures a[k] == b[k] {
      assert SameAt(a, b, k);
    }
  }

  lemma CorrectedJobs(jobs: map<Slot, int>, cases: map<CaseId, Case>, hit: set<CaseId>, id: CaseId, c: Case, now: int,
                      x: Slot)
    requires id !in cases && hit <= cases.Keys
    requires x.caseId == id ==> x !in jobs
    ensures SameAt(JobsWithout(jobs + QueuedAt(Slots(id, One, c.members), now), cases[id := c], hit + {id}),
                   JobsWithout(jobs, cases, hit), x)
  {
    assert x in Slots(id, One, c.members) ==> x.caseId == id && x.member in c.members;
  }

  lemma CorrectedCaseMap(s: State, now: int, id: CaseId, cycle: Cycle, members: seq<Member>,
                         creator: Option<Member>, hit: set<CaseId>)
    requires id !in s.cases && hit <= s.cases.Keys
    ensures CorrectCases(OpenPending(s, now, id, cycle, members, creator), hit + {id}).cases
            == OpenInternal(CorrectCases(s, hit), now, id, cycle, members, creator).cases
  {
  }

  lemma CorrectedDeadlines(w: World, now: int, id: CaseId, hit: set<CaseId>)
    requires Inv(w) && id !in w.state.cases
    ensures w.state.deadlines[id := now + DEADLINE_MS] - (hit + {id}) == w.state.deadlines - hit
  {
    assert CaseGood(w, id);
  }

  /** The corrected case ends as if it had been born internal. */
  lemma CorrectedLikeBornInternal(w: World, now: int, id: CaseId, cycle: Cycle, members: seq<Member>,
                                  creator: Option<Member>, hit: set<CaseId>)
    requires Inv(w) && id !in w.state.cases && hit <= w.state.cases.Keys
    ensures CorrectCases(OpenPending(w.state, now, id, cycle, members, creator), hit + {id})
            == OpenInternal(CorrectCases(w.state, hit), now, id, cycle, members, creator)
  {
    var a := CorrectCases(OpenPending(w.state, now, id, cycle, members, creator), hit + {id});
    var b := OpenInternal(CorrectCases(w.state, hit), now, id, cycle, members, creator);
    CorrectedCaseMap(w.state, now, id, cycle, members, creator, hit);
    CorrectedDeadlines(w, now, id, hit);
    var p := OpenPending(w.state, now, id, cycle, members, creator);
    forall x: Slot ensures SameAt(a.jobs, b.jobs, x) {
      if x.caseId == id {
        FreshCaseIsBlank(w, id, x);
      }
      CorrectedJobs(w.state.jobs, w.state.cases, hit, id, p.cases[id], now, x);
    }
    SameMaps(a.jobs, b.jobs);
  }

  lemma NewReceiptOnOpened(s: State, now: int, id: CaseId, cycle: Cycle, members: seq<Member>,
                           creator: Option<Member>, eventId: EventId, member: Member, hit: set<CaseId>)
    requires id !in s.cases && hit <= s.cases.Keys
    ensures CorrectCases(WithReceipt(OpenPending(s, now, id, cycle, members, creator), now, cycle, eventId, member),
                         hit + {id})
            == WithReceipt(CorrectCases(OpenPending(s, now, id, cycle, members, creator), hit + {id}), now, cycle,
                           eventId, member)
    ensures WithReceipt(OpenInternal(CorrectCases(s, hit), now, id, cycle, members, creator), now, cycle, eventId,
                        member)
            == OpenInternal(CorrectCases(WithReceipt(s, now, cycle, eventId, member), hit), now, id, cycle, members,
                            creator)
  {
  }

  lemma CorrigibleAfterOpening(s: State, now: int, id: CaseId, cycle: Cycle, members: seq<Member>,
                               creator: Option<Member>, eventId: EventId, member: Member, d: Digest)
    requires id !in s.cases && CyclesGood(s) && DigestOf(cycle) == Some(d) && EntryMs(d) <= now
    ensures Corrigible(WithReceipt(OpenPending(s, now, id, cycle, members, creator), now, cycle, eventId, member), d)
            == Corrigible(WithReceipt(s, now, cycle, eventId, member), d) + {id}
  {
  }

  /** A case opened together with the first success of its cycle ends in the same state
      whichever is served first, exactly when the entry time lies after 1970 or has not
      come yet. Otherwise the case stays pending if it is opened first and is internal if
      the success comes first. */
  lemma OpenAndSuccessCommute(w: World, now: int, id: CaseId, cycle: Cycle, members: seq<Member>,
                              creator: Option<Member>, eventId: EventId, member: Member)
    requires Inv(w) && BothAreNew(w.state, id, cycle, members, creator, eventId, member)
    ensures var entry := EntryMs(DigestOf(cycle).value);
            OpenThenSuccess(w.state, now, id, cycle, members, creator, eventId, member)
            == SuccessThenOpen(w.state, now, id, cycle, members, creator, eventId, member)
            <==> entry > 0 || now < entry
  {
    var d := DigestOf(cycle).value;
    OpenFirst(w, now, id, cycle, members, creator, eventId, member);
    SuccessFirst(w, now, id, cycle, members, creator, eventId, member);
    var p := WithReceipt(OpenPending(w.state, now, id, cycle, members, creator), now, cycle, eventId, member);
    var s1 := WithReceipt(w.state, now, cycle, eventId, member);
    if 0 < EntryMs(d) <= now {
      var hit := Corrigible(s1, d);
      CorrigibleAfterOpening(w.state, now, id, cycle, members, creator, eventId, member, d);
      NewReceiptOnOpened(w.state, now, id, cycle, members, creator, eventId, member, hit);
      CorrectedLikeBornInternal(w, now, id, cycle, members, creator, hit);
    } else if EntryMs(d) <= now {
      assert p.cases[id].status == Pending;
      assert OpenInternal(s1, now, id, cycle, members, creator).cases[id].status == Internal;
    } else {
      assert p == OpenPending(s1, now, id, cycle, members, creator);
    }
  }

  /** A lead that entered the public pool at the very start of 1970: the two orders differ. */
  lemma EpochEntryBreaksTheOrder()
    ensures var cycle := Cycle("L-42", 42, "1970-01-01T00:00:00Z",
                               Some(EntryTime("1970-01-01T00:00:00.000000+00:00", 0)));
            OpenThenSuccess(EMPTY, 1800000000000, "case", cycle, ["one:a"], None, "event", "one:a")
            != SuccessThenOpen(EMPTY, 1800000000000, "case", cycle, ["one:a"], None, "event", "one:a")
  {
    var cycle := Cycle("L-42", 42, "1970-01-01T00:00:00Z",
                       Some(EntryTime("1970-01-01T00:00:00.000000+00:00", 0)));
    OriginIsGood();
    OpenAndSuccessCommute(ORIGIN, 1800000000000, "case", cycle, ["one:a"], None, "event", "one:a");
  }

  // ---------- Deadlines ----------

  /** The deadlines hold exactly the pending cases, so their number is the true count of
      pending cases that the metrics report. */
  lemma DeadlinesArePendingCases(run: Run, n: nat)
    requires Legal(run) && n <= |run.steps|
    ensures var s := run.worlds[n].state;
            && s.deadlines.Keys == (set id | id in s.cases && s.cases[id].status == Pending)
            && forall id :: id in s.deadlines ==> s.deadlines[id] == s.cases[id].createdAt + DEADLINE_MS
  {
    var s := run.worlds[n].state;
    ReachableIsGood(run, n);
    forall id ensures (id in s.deadlines <==> IsPending(s, id))
                      && (id in s.deadlines ==> s.deadlines[id] == s.cases[id].createdAt + DEADLINE_MS) {
      assert CaseGood(run.worlds[n], id);
    }
  }

  /** The pending cases whose deadline has come. */
  function Expired(s: State, now: int): set<CaseId> {
    set id | id in s.deadlines && s.deadlines[id] <= now
  }

  lemma {:induction false} ReapingPendingCases(s: State, batch: seq<CaseId>)
    requires NoDuplicates(batch)
    requires forall id :: id in batch ==> IsPending(s, id)
    ensures ReapCases(s, batch).1 == |batch|
    ensures ReapCases(s, batch).0.deadlines == s.deadlines - (set id | id in batch)
    decreases |batch|
  {
    if batch == [] {
    } else {
      var rest := batch[1..];
      assert batch[0] in batch;
      var s1 := ReapCase(s, batch[0]);
      forall id | id in rest ensures id in batch && IsPending(s1, id) {
        ReapOneOnCase(s, batch[0], id);
      }
      ReapingPendingCases(s1, rest);
      assert (set id | id in batch) == {batch[0]} + set id | id in rest;
    }
  }

  /** One reap settles the oldest expired cases, a hundred at most, and counts them. */
  lemma ReapSettlesExpired(run: Run, n: nat)
    requires Legal(run) && n < |run.steps| && run.steps[n].Reap?
    ensures var now := run.steps[n].now;
            var before := Expired(run.worlds[n].state, now);
            && run.replies[n] == Reaped(Min(100, |before|))
            && |Expired(run.worlds[n + 1].state, now)| == |before| - Min(100, |before|)
            && Expired(run.worlds[n + 1].state, now) <= before
  {
    var s, e := run.worlds[n].state, run.steps[n];
    var t := run.worlds[n + 1].state;
    assert StepOk(run, n);
    DeadlinesArePendingCases(run, n);
    ReapingPendingCases(s, e.dueCases);
    RangeSize(s.deadlines, e.now, BATCH, e.dueCases);
    var taken := set id | id in e.dueCases;
    DistinctLength(e.dueCases);
    assert Expired(t, e.now) == Expired(s, e.now) - taken;
  }

  /** Repeated reaps at one time drain n expired cases in ceil(n/100) steps. */
  lemma {:induction false} ReapsDrainExpired(run: Run, n: nat, k: nat, now: int)
    requires Legal(run) && n + k <= |run.steps|
    requires forall i :: n <= i < n + k ==> run.steps[i].Reap? && run.steps[i].now == now
    ensures |Expired(run.worlds[n + k].state, now)|
            == Max(0, |Expired(run.worlds[n].state, now)| - 100 * k)
  {
    if k == 0 {
    } else {
      ReapsDrainExpired(run, n, k - 1, now);
      ReapSettlesExpired(run, n + k - 1);
    }
  }
}
