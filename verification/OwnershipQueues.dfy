/** What the ownership protocol's scripts answer and queue: how a case is opened, when every
    job is due, whom a job is kept from, and how failed checks are counted. */
module OwnershipQueues {
  import opened SortedSets
  import opened OwnershipProtocol
  import opened OwnershipInvariant
  import opened OwnershipRuns
  import opened OwnershipVerdicts

  // ---------- Opening ----------

  predicate IsOpening(e: Step) {
    && e.Open? && e.caseId != "" && e.members != [] && NoDuplicates(e.members)
    && (e.creator.Some? ==> e.creator.value in e.members)
  }

  /** A well-formed opening of a new case writes the case as given, with a deadline in 24 h
      and one first-round job per member due at once, unless it is born internal; then it
      has neither. Opening it again with the same cycle and members changes nothing, and
      with others is refused. */
  lemma OpeningAnswersExactly(run: Run, n: nat)
    requires Legal(run) && n < |run.steps| && run.steps[n].Open?
    ensures var e, s, t := run.steps[n], run.worlds[n].state, run.worlds[n + 1].state;
            var born := BornLate(run, n, e.caseId);
            if !IsOpening(e) then run.replies[n] == Refused(BadRequest) && t == s
            else if e.caseId in s.cases then
              && t == s
              && run.replies[n] == if s.cases[e.caseId].cycle == e.cycle && s.cases[e.caseId].members == e.members
                                   then AlreadyOpen else Refused(CaseConflict)
            else
              && run.replies[n] == Opened && e.caseId in t.cases
              && t.cases[e.caseId] == Case(e.cycle, e.members, e.creator, e.now,
                                           if born then Internal else Pending, if born then 1 else 0, 0, None)
              && t.deadlines == (if born then s.deadlines else s.deadlines[e.caseId := e.now + 86400000])
              && (forall m :: m in e.members ==>
                    (Slot(e.caseId, One, m) in t.jobs <==> !born)
                    && (!born ==> t.jobs[Slot(e.caseId, One, m)] == e.now))
  {
    assert StepOk(run, n);
    ReachableIsGood(run, n);
    var e, w := run.steps[n], run.worlds[n];
    var s := w.state;
    if IsOpening(e) && e.caseId !in s.cases {
      forall m | m in e.members ensures Slot(e.caseId, One, m) !in s.jobs {
        assert SlotGood(w, Slot(e.caseId, One, m));
      }
      if BornInternal(s, e.cycle, e.now) {
        assert run.worlds[n + 1].state == OpenInternal(s, e.now, e.caseId, e.cycle, e.members, e.creator);
      } else {
        assert run.worlds[n + 1].state == OpenPending(s, e.now, e.caseId, e.cycle, e.members, e.creator);
      }
      ReceiptsAreNotAhead(w, e.cycle, e.now);
    }
  }

  lemma ReceiptsAreNotAhead(w: World, cycle: Cycle, now: int)
    requires Inv(w) && w.clock <= now
    ensures BornInternal(w.state, cycle, now) <==> HasReceiptSince(w.state, cycle)
  {
  }

  // ---------- When jobs are due ----------

  /** Step n was an accepted `error` for the slot. */
  predicate FailedCheck(run: Run, n: int, x: Slot) {
    TookIn(run, n, x) && run.steps[n].verdict == "error"
  }

  /** When a job of the case is due that step n queued. */
  function NewlyDue(run: Run, n: nat, x: Slot): int
    requires |run.worlds| == |run.steps| + 1 && n < |run.steps| && x.caseId in run.worlds[n + 1].state.cases
  {
    if x.round.One? then run.steps[n].now
    else Max(run.steps[n].now + 15000, run.worlds[n + 1].state.cases[x.caseId].createdAt + 30000)
  }

  lemma ErrorJobs(s: State, now: int, x: Slot, resultId: ResultId, y: Slot)
    requires x.caseId in s.cases
    ensures var t := AcceptResult(s, now, x, CheckFailed, resultId).state;
            y in t.jobs ==> if y == x then t.jobs[y] == now + 30000 else y in s.jobs && t.jobs[y] == s.jobs[y]
  {
  }

  lemma SlotsHas(id: CaseId, round: Round, members: seq<Member>, y: Slot)
    ensures y in Slots(id, round, members) <==> y.caseId == id && y.round == round && y.member in members
  {
    assert y.caseId == id && y.round == round ==> y == Slot(id, round, y.member);
  }

  lemma Overlaid(jobs: map<Slot, int>, slots: set<Slot>, due: int, y: Slot)
    ensures y in jobs + QueuedAt(slots, due) <==> y in jobs || y in slots
    ensures y in slots ==> (jobs + QueuedAt(slots, due))[y] == due
    ensures y in jobs && y !in slots ==> (jobs + QueuedAt(slots, due))[y] == jobs[y]
  {
  }

  lemma FinishOneJobs(s: State, now: int, id: CaseId, y: Slot)
    requires id in s.cases
    ensures var t := FinishRoundOne(s, now, id);
            y in t.jobs ==>
              if y.round.Two? && y.caseId == id && y.member in s.cases[id].members
              then t.jobs[y] == Max(now + 15000, s.cases[id].createdAt + 30000)
              else y in s.jobs && t.jobs[y] == s.jobs[y]
  {
    var c := s.cases[id];
    SlotsHas(id, Two, c.members, y);
    Overlaid(s.jobs, Slots(id, Two, c.members), RoundTwoDue(c, now), y);
  }

  /** The state with the absence noted, before its round is looked at. */
  function Noted(s: State, x: Slot, resultId: ResultId): State {
    var marked := Marked(s, x, Absent, resultId);
    marked.(results := marked.results[x := Result(resultId, Absent)], jobs := marked.jobs - {x})
  }

  lemma AbsentSplits(s: State, now: int, x: Slot, resultId: ResultId)
    requires x.caseId in s.cases
    ensures var t, noted := RecordAbsent(Marked(s, x, Absent, resultId), now, x, resultId), Noted(s, x, resultId);
            t == if !RoundComplete(noted, x.caseId, x.round) then noted
                 else if x.round.One? then FinishRoundOne(noted, now, x.caseId) else FinishRoundTwo(noted, x.caseId)
  {
  }

  lemma NotedKeeps(s: State, x: Slot, resultId: ResultId)
    ensures var noted := Noted(s, x, resultId); noted.cases == s.cases && noted.jobs == s.jobs - {x}
  {
  }

  lemma AbsentJobsOn(s: State, noted: State, now: int, x: Slot, y: Slot, t: State)
    requires x.caseId in s.cases && noted.cases == s.cases && noted.jobs == s.jobs - {x}
    requires t == if !RoundComplete(noted, x.caseId, x.round) then noted
                  else if x.round.One? then FinishRoundOne(noted, now, x.caseId) else FinishRoundTwo(noted, x.caseId)
    requires x.round.One? && y.round.Two? && y.caseId == x.caseId ==> y !in s.jobs
    ensures y in t.jobs ==>
              if y in s.jobs then t.jobs[y] == s.jobs[y]
              else y.round.Two? && y.caseId == x.caseId
                   && t.jobs[y] == Max(now + 15000, s.cases[y.caseId].createdAt + 30000)
  {
    FinishOneJobs(noted, now, x.caseId, y);
  }

  lemma AbsentJobsIn(s: State, now: int, x: Slot, resultId: ResultId, y: Slot, t: State)
    requires x.caseId in s.cases
    requires t == RecordAbsent(Marked(s, x, Absent, resultId), now, x, resultId)
    requires x.round.One? && y.round.Two? && y.caseId == x.caseId ==> y !in s.jobs
    ensures y in t.jobs ==>
              if y in s.jobs then t.jobs[y] == s.jobs[y]
              else y.round.Two? && y.caseId == x.caseId
                   && t.jobs[y] == Max(now + 15000, s.cases[y.caseId].createdAt + 30000)
  {
    AbsentSplits(s, now, x, resultId);
    NotedKeeps(s, x, resultId);
    AbsentJobsOn(s, Noted(s, x, resultId), now, x, y, t);
  }

  lemma AbsentJobsDue(w: World, now: int, x: Slot, resultId: ResultId, y: Slot, t: State)
    requires Inv(w) && Acceptable(w.state, now, x, resultId)
    requires t == RecordAbsent(Marked(w.state, x, Absent, resultId), now, x, resultId)
    ensures y in t.jobs ==>
              if y in w.state.jobs then t.jobs[y] == w.state.jobs[y]
              else y.round.Two? && y.caseId == x.caseId
                   && t.jobs[y] == Max(now + 15000, w.state.cases[y.caseId].createdAt + 30000)
  {
    if x.round.One? && y.round.Two? && y.caseId == x.caseId {
      AbsentJobTwo(w, x, y);
    }
    AbsentJobsIn(w.state, now, x, resultId, y, t);
  }

  lemma FoundJobs(s: State, x: Slot, resultId: ResultId, y: Slot)
    requires x.caseId in s.cases
    ensures var t := RecordFound(Marked(s, x, Found, resultId), x, resultId);
            y in t.jobs ==> y in s.jobs && t.jobs[y] == s.jobs[y]
  {
  }

  /** While the first round is incomplete no second-round job is queued. */
  lemma AbsentJobTwo(w: World, x: Slot, y: Slot)
    requires Inv(w) && IsPending(w.state, x.caseId) && x.round.One? && y.round.Two? && y.caseId == x.caseId
    requires x !in w.state.results && x.member in w.state.cases[x.caseId].members
    ensures y !in w.state.jobs
  {
    assert SlotGood(w, y);
    assert !AbsentAt(w.state, Slot(x.caseId, One, x.member));
    assert !RoundComplete(w.state, x.caseId, One);
  }

  lemma OpenJobs(s: State, e: Step, y: Slot)
    requires e.Open? && y in Perform(s, e).state.jobs && y !in s.jobs
    ensures y.caseId == e.caseId && y.round.One? && Perform(s, e).state.jobs[y] == e.now
    ensures e.caseId in Perform(s, e).state.cases
  {
    if !BornInternal(s, e.cycle, e.now) {
      assert Perform(s, e).state == OpenPending(s, e.now, e.caseId, e.cycle, e.members, e.creator);
    }
  }

  lemma OldJobsOnOpen(w: World, e: Step, y: Slot)
    requires e.Open? && Inv(w) && y in w.state.jobs
    ensures y in Perform(w.state, e).state.jobs && Perform(w.state, e).state.jobs[y] == w.state.jobs[y]
  {
    assert SlotGood(w, y);
  }

  lemma {:induction false} ReapJobs(s: State, batch: seq<CaseId>, y: Slot)
    ensures y in ReapCases(s, batch).0.jobs ==> y in s.jobs && ReapCases(s, batch).0.jobs[y] == s.jobs[y]
    decreases |batch|
  {
    if batch == [] {
    } else {
      ReapJobs(ReapCase(s, batch[0]), batch[1..], y);
    }
  }

  lemma SuccessJobs(s: State, now: int, cycle: Cycle, eventId: EventId, member: Member, y: Slot)
    ensures var t := RegisterSuccess(s, now, cycle, eventId, member).state;
            y in t.jobs ==> y in s.jobs && t.jobs[y] == s.jobs[y]
  {
    var out := RegisterSuccess(s, now, cycle, eventId, member);
    if out.reply.Registered? {
      var s1 := if eventId in s.events then s else WithReceipt(s, now, cycle, eventId, member);
      assert out.state == ApplyReceipt(s1, cycle, out.reply.receipt);
    }
  }

  /** After every step of every run, a queued job is due 30 s after the step if the step was its
      failed check, when it was due before if it was queued, and else, a first-round job at
      once and a second-round job at the later of 15 s from now and 30 s from the opening. */
  lemma JobsAreDueExactly(run: Run, n: nat, x: Slot)
    requires Legal(run) && n < |run.steps| && x in run.worlds[n + 1].state.jobs
    ensures x.caseId in run.worlds[n + 1].state.cases
    ensures var s, t := run.worlds[n].state, run.worlds[n + 1].state;
            t.jobs[x] == if FailedCheck(run, n, x) then run.steps[n].now + 30000
                         else if x in s.jobs then s.jobs[x] else NewlyDue(run, n, x)
  {
    var w, e := run.worlds[n], run.steps[n];
    assert StepOk(run, n);
    ReachableIsGood(run, n);
    ReachableIsGood(run, n + 1);
    assert SlotGood(run.worlds[n + 1], x);
    match e
    case Open(_, _, _, _, _) =>
      if x in w.state.jobs {
        OldJobsOnOpen(w, e, x);
      } else {
        OpenJobs(w.state, e, x);
      }
    case Claim(now, member, token, batch) => ClaimOnState(w, now, member, token, batch);
    case Submit(_, _, _, _, _, _, _) => SubmitJobs(run, n, x);
    case Reap(_, dueCases) => ReapJobs(w.state, dueCases, x);
    case Success(now, cycle, eventId, member) => SuccessJobs(w.state, now, cycle, eventId, member, x);
  }

  lemma AcceptJobs(w: World, now: int, y: Slot, v: Verdict, resultId: ResultId, x: Slot, t: State)
    requires Inv(w) && Acceptable(w.state, now, y, resultId)
    requires t == AcceptResult(w.state, now, y, v, resultId).state
    ensures x in t.jobs ==>
              if x == y && v == CheckFailed then t.jobs[x] == now + 30000
              else if x in w.state.jobs then t.jobs[x] == w.state.jobs[x]
              else x.round.Two? && x.caseId == y.caseId
                   && t.jobs[x] == Max(now + 15000, w.state.cases[x.caseId].createdAt + 30000)
  {
    match v
    case CheckFailed => ErrorJobs(w.state, now, y, resultId, x);
    case Found => FoundJobs(w.state, y, resultId, x);
    case Absent => AbsentJobsDue(w, now, y, resultId, x, t);
  }

  lemma SubmitJobsAt(w: World, e: Step, x: Slot)
    requires Inv(w) && e.Submit? && x in Perform(w.state, e).state.jobs
    ensures var t, reply := Perform(w.state, e).state, Perform(w.state, e).reply;
            if Accepted(reply) && IsSubmissionFor(e, x) && e.verdict == "error" then t.jobs[x] == e.now + 30000
            else if x in w.state.jobs then t.jobs[x] == w.state.jobs[x]
            else x.round.Two? && x.caseId in w.state.cases
                 && t.jobs[x] == Max(e.now + 15000, w.state.cases[x.caseId].createdAt + 30000)
  {
    AcceptedExactlyUnderLiveLease(w.state, e.now, e.caseId, e.member, e.roundNo, e.verdict, e.resultId, e.token);
    if Accepted(Perform(w.state, e).reply) {
      var y := Slot(e.caseId, ParseRound(e.roundNo).value, e.member);
      AcceptJobs(w, e.now, y, ParseVerdict(e.verdict).value, e.resultId, x, Perform(w.state, e).state);
    }
  }

  lemma SubmitJobs(run: Run, n: nat, x: Slot)
    requires Legal(run) && n < |run.steps| && run.steps[n].Submit? && x in run.worlds[n + 1].state.jobs
    requires x.caseId in run.worlds[n + 1].state.cases
    ensures var s, t := run.worlds[n].state, run.worlds[n + 1].state;
            t.jobs[x] == if FailedCheck(run, n, x) then run.steps[n].now + 30000
                         else if x in s.jobs then s.jobs[x] else NewlyDue(run, n, x)
  {
    assert StepOk(run, n);
    ReachableIsGood(run, n);
    SubmitJobsAt(run.worlds[n], run.steps[n], x);
    StepOnCase(run, n, x.caseId);
  }

  // ---------- Whom a job is kept from ----------

  /** A job is kept from a claim exactly while its last claim is less than 30 s old and nothing
      has been accepted for it since. */
  lemma LeasedMeansHeld(run: Run, n: nat, x: Slot, now: int)
    requires Legal(run) && n <= |run.steps|
    ensures Leased(run.worlds[n].state, x, now)
            <==> exists i :: 0 <= i < |run.steps| && HeldSince(run, i, n, x) && now < run.steps[i].now + 30000
  {
    var s := run.worlds[n].state;
    if Leased(s, x, now) {
      var i := LeaseHasItsClaim(run, n, x);
    }
    if i :| 0 <= i < |run.steps| && HeldSince(run, i, n, x) && now < run.steps[i].now + 30000 {
      LeaseStands(run, i, n, x);
    }
  }

  /** The slot is held by a claim at the time of step n. */
  ghost predicate IsHeld(run: Run, n: nat, x: Slot)
    requires n < |run.steps|
  {
    exists i :: 0 <= i < |run.steps| && HeldSince(run, i, n, x) && run.steps[n].now < run.steps[i].now + 30000
  }

  /** A claim hands out the first of the jobs it read that nobody holds, with the cycle of its
      case, and comes back empty exactly if all are held. */
  lemma ClaimsAnswerExactly(run: Run, n: nat)
    requires Legal(run) && n < |run.steps| && run.steps[n].Claim?
    ensures var batch, s := run.steps[n].batch, run.worlds[n].state;
            || (run.replies[n] == NoJob && run.worlds[n + 1].state == s && forall x :: x in batch ==> IsHeld(run, n, x))
            || exists k :: 0 <= k < |batch| && batch[k].caseId in s.cases
                           && run.replies[n] == Job(batch[k], s.cases[batch[k].caseId].cycle)
                           && !IsHeld(run, n, batch[k]) && forall j :: 0 <= j < k ==> IsHeld(run, n, batch[j])
  {
    var w, e := run.worlds[n], run.steps[n];
    assert StepOk(run, n);
    ReachableIsGood(run, n);
    forall x | x in e.batch ensures !DeadJob(w.state, x) {
      assert x in JobsOf(w.state.jobs, e.member);
      QueuedJobsAreAlive(w, x);
    }
    forall x | x in e.batch ensures Leased(w.state, x, e.now) <==> IsHeld(run, n, x) {
      LeasedMeansHeld(run, n, x, e.now);
    }
    ClaimTakesFirstFree(w.state, e.now, e.token, e.batch);
    if run.replies[n] != NoJob {
      var k :| GivesOut(w.state, e.now, e.token, e.batch, k, ClaimJob(w.state, e.now, e.token, e.batch));
      assert e.batch[k] in e.batch && forall j :: 0 <= j < k ==> e.batch[j] in e.batch;
    }
  }

  /** The member asked for, at the time of a claim, has this job due. */
  predicate IsDueFor(s: State, e: Step, x: Slot)
    requires e.Claim?
  {
    x in s.jobs && x.member == e.member && s.jobs[x] <= e.now
  }

  /** So a claim serves the earliest: the job it hands out is due, of the member and held by
      nobody, and every one of the member's that is due before it is held. */
  lemma ClaimServesTheEarliest(run: Run, n: nat, x: Slot)
    requires Legal(run) && n < |run.steps| && run.steps[n].Claim? && run.replies[n].Job?
    ensures var e, s, y := run.steps[n], run.worlds[n].state, run.replies[n].slot;
            && IsDueFor(s, e, y) && !IsHeld(run, n, y)
            && (IsDueFor(s, e, x) && s.jobs[x] < s.jobs[y] ==> IsHeld(run, n, x))
  {
    assert StepOk(run, n);
    var e, s := run.steps[n], run.worlds[n].state;
    ClaimsAnswerExactly(run, n);
    var k :| 0 <= k < |e.batch| && e.batch[k] == run.replies[n].slot && !IsHeld(run, n, e.batch[k])
             && forall j :: 0 <= j < k ==> IsHeld(run, n, e.batch[j]);
    BatchIsDue(s, e, k);
    if IsDueFor(s, e, x) && s.jobs[x] < s.jobs[e.batch[k]] {
      var j := EarlierInBatch(s, e, k, x);
    }
  }

  /** It comes back empty only if all jobs of the member that are due are held, or a hundred. */
  lemma EmptyClaimFoundAllHeld(run: Run, n: nat, x: Slot)
    requires Legal(run) && n < |run.steps| && run.steps[n].Claim? && run.replies[n] == NoJob
    ensures var e, s := run.steps[n], run.worlds[n].state;
            IsDueFor(s, e, x) && !IsHeld(run, n, x) ==>
              |e.batch| == 100 && NoDuplicates(e.batch) && forall y :: y in e.batch ==> IsHeld(run, n, y)
  {
    assert StepOk(run, n);
    var e, s := run.steps[n], run.worlds[n].state;
    ClaimsAnswerExactly(run, n);
    if IsDueFor(s, e, x) {
      assert x in JobsOf(s.jobs, e.member);
    }
  }

  lemma BatchIsDue(s: State, e: Step, k: nat)
    requires e.Claim? && IsRange(JobsOf(s.jobs, e.member), e.now, BATCH, e.batch) && k < |e.batch|
    ensures IsDueFor(s, e, e.batch[k])
  {
  }

  /** What is due before a job that was read was read before it. */
  lemma EarlierInBatch(s: State, e: Step, k: nat, x: Slot) returns (j: nat)
    requires e.Claim? && IsRange(JobsOf(s.jobs, e.member), e.now, BATCH, e.batch) && k < |e.batch|
    requires IsDueFor(s, e, x) && e.batch[k] in s.jobs && s.jobs[x] < s.jobs[e.batch[k]]
    ensures j < k && e.batch[j] == x
  {
    var z := JobsOf(s.jobs, e.member);
    assert x in z && z[x] < z[e.batch[k]];
    j :| 0 <= j < |e.batch| && e.batch[j] == x;
  }

  // ---------- Failed checks are counted ----------

  /** How many failed checks of the case, or of all cases, were accepted before step n. */
  function ErrorCount(run: Run, n: nat, id: Option<CaseId>): nat {
    if n == 0 then 0
    else ErrorCount(run, n - 1, id) + if IsErrorOf(run, n - 1, id) then 1 else 0
  }

  predicate IsErrorOf(run: Run, n: int, id: Option<CaseId>) {
    && 0 <= n < |run.steps| && n < |run.replies| && run.steps[n].Submit? && run.steps[n].verdict == "error"
    && Accepted(run.replies[n]) && (id.Some? ==> run.steps[n].caseId == id.value)
  }

  lemma SuccessErrors(s: State, now: int, cycle: Cycle, eventId: EventId, member: Member, id: CaseId)
    ensures var t := RegisterSuccess(s, now, cycle, eventId, member).state;
            t.checkErrors == s.checkErrors
            && (id in s.cases ==> id in t.cases && t.cases[id].checkErrors == s.cases[id].checkErrors)
  {
    var out := RegisterSuccess(s, now, cycle, eventId, member);
    if out.reply.Registered? {
      var s1 := if eventId in s.events then s else WithReceipt(s, now, cycle, eventId, member);
      assert out.state == ApplyReceipt(s1, cycle, out.reply.receipt);
    }
  }

  lemma ErrorsOnAccept(s: State, now: int, x: Slot, verdict: Verdict, resultId: ResultId, id: CaseId)
    requires IsPending(s, x.caseId)
    ensures var t := AcceptResult(s, now, x, verdict, resultId).state;
            && t.checkErrors == s.checkErrors + (if verdict == CheckFailed then 1 else 0)
            && (id in s.cases ==>
                  id in t.cases
                  && t.cases[id].checkErrors
                     == s.cases[id].checkErrors + if verdict == CheckFailed && id == x.caseId then 1 else 0)
  {
    var marked := Marked(s, x, verdict, resultId);
    if verdict == Absent {
      AbsentOnCase(marked, now, x, resultId, id);
    }
  }

  /** The counters of an accepted submission and of every other step. */
  predicate ErrorsStep(run: Run, n: nat, id: CaseId)
    requires |run.worlds| == |run.steps| + 1 && n < |run.steps|
  {
    var s, t := run.worlds[n].state, run.worlds[n + 1].state;
    && t.checkErrors == s.checkErrors + (if IsErrorOf(run, n, None) then 1 else 0)
    && (id in s.cases ==>
          id in t.cases
          && t.cases[id].checkErrors == s.cases[id].checkErrors + if IsErrorOf(run, n, Some(id)) then 1 else 0)
  }

  lemma ErrorsOnSubmit(run: Run, n: nat, id: CaseId)
    requires Legal(run) && n < |run.steps| && run.steps[n].Submit?
    ensures ErrorsStep(run, n, id) && (id !in run.worlds[n].state.cases ==> !IsErrorOf(run, n, Some(id)))
  {
    assert StepOk(run, n);
    var w, e := run.worlds[n], run.steps[n];
    AcceptedExactlyUnderLiveLease(w.state, e.now, e.caseId, e.member, e.roundNo, e.verdict, e.resultId, e.token);
    if Accepted(run.replies[n]) {
      ErrorsOnAccept(w.state, e.now, Slot(e.caseId, ParseRound(e.roundNo).value, e.member),
                     ParseVerdict(e.verdict).value, e.resultId, id);
    }
  }

  lemma StepOnErrors(run: Run, n: nat, id: CaseId)
    requires Legal(run) && n < |run.steps|
    ensures ErrorsStep(run, n, id) && (id !in run.worlds[n].state.cases ==> !IsErrorOf(run, n, Some(id)))
  {
    var w, e := run.worlds[n], run.steps[n];
    assert StepOk(run, n);
    ReachableIsGood(run, n);
    match e
    case Open(_, _, _, _, _) => OpenOnCase(w.state, e, id);
    case Claim(now, member, token, batch) => ClaimOnState(w, now, member, token, batch);
    case Submit(_, _, _, _, _, _, _) => ErrorsOnSubmit(run, n, id);
    case Reap(_, dueCases) => ReapOnCase(w.state, dueCases, id);
    case Success(now, cycle, eventId, member) => SuccessErrors(w.state, now, cycle, eventId, member, id);
  }

  /** The error counters are the numbers of failed checks accepted so far. */
  lemma {:induction false} ErrorsAreCounted(run: Run, n: nat, id: CaseId)
    requires Legal(run) && n <= |run.steps|
    ensures run.worlds[n].state.checkErrors == ErrorCount(run, n, None)
    ensures if id in run.worlds[n].state.cases
            then run.worlds[n].state.cases[id].checkErrors == ErrorCount(run, n, Some(id))
            else ErrorCount(run, n, Some(id)) == 0
  {
    if n == 0 {
    } else {
      ErrorsAreCounted(run, n - 1, id);
      StepOnErrors(run, n - 1, id);
      StepOnCase(run, n - 1, id);
    }
  }
}
