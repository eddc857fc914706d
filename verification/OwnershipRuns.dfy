/** Whole runs of the ownership protocol: any number of clients calling the five scripts
    in any order, with time never going back and lease tokens never reused. */
module OwnershipRuns {
  import opened SortedSets
  import opened OwnershipProtocol
  import opened OwnershipInvariant

  /** One script call. A batch is what the script read from a sorted set. */
  datatype Step =
    | Open(now: int, caseId: CaseId, cycle: Cycle, members: seq<Member>, creator: Option<Member>)
    | Claim(now: int, member: Member, token: Token, batch: seq<Slot>)
    | Submit(now: int, caseId: CaseId, member: Member, roundNo: int, verdict: string, resultId: ResultId, token: Token)
    | Reap(now: int, dueCases: seq<CaseId>)
    | Success(now: int, cycle: Cycle, eventId: EventId, member: Member)

  function Perform(s: State, step: Step): Outcome {
    match step
    case Open(now, caseId, cycle, members, creator) => OpenCase(s, now, caseId, cycle, members, creator)
    case Claim(now, _, token, batch) => ClaimJob(s, now, token, batch)
    case Submit(now, caseId, member, roundNo, verdict, resultId, token) =>
      SubmitResult(s, now, caseId, member, roundNo, verdict, resultId, token)
    case Reap(_, dueCases) => ReapExpired(s, dueCases)
    case Success(now, cycle, eventId, member) => RegisterSuccess(s, now, cycle, eventId, member)
  }

  function Next(w: World, step: Step): World {
    if step.Submit? then
      NextSubmit(w, step.now, step.caseId, step.member, step.roundNo, step.verdict, step.resultId, step.token)
    else World(Perform(w.state, step).state, step.now, w.audit)
  }

  /** Step i was made in worlds[i], answered replies[i] and led to worlds[i + 1]. */
  datatype Run = Run(steps: seq<Step>, worlds: seq<World>, replies: seq<Reply>)

  /** Time has not gone back and a batch is what Redis would have returned. */
  ghost predicate Enabled(w: World, step: Step) {
    && w.clock <= step.now
    && (step.Claim? ==> IsRange(JobsOf(w.state.jobs, step.member), step.now, BATCH, step.batch))
    && (step.Reap? ==> IsRange(w.state.deadlines, step.now, BATCH, step.dueCases))
  }

  ghost predicate StepOk(run: Run, i: int)
    requires |run.worlds| == |run.steps| + 1 && |run.replies| == |run.steps|
    requires 0 <= i < |run.steps|
  {
    && Enabled(run.worlds[i], run.steps[i])
    && run.worlds[i + 1] == Next(run.worlds[i], run.steps[i])
    && run.replies[i] == Perform(run.worlds[i].state, run.steps[i]).reply
  }

  ghost predicate FreshTokens(steps: seq<Step>) {
    forall i, j :: 0 <= i < j < |steps| && steps[i].Claim? && steps[j].Claim? ==> steps[i].token != steps[j].token
  }

  ghost predicate Legal(run: Run) {
    && |run.worlds| == |run.steps| + 1 && |run.replies| == |run.steps|
    && run.worlds[0] == ORIGIN
    && FreshTokens(run.steps)
    && forall i {:trigger StepOk(run, i)} :: 0 <= i < |run.steps| ==> StepOk(run, i)
  }

  // ---------- The invariant holds throughout ----------

  lemma OriginIsGood()
    ensures Inv(ORIGIN)
  {
    forall id ensures CaseGood(ORIGIN, id) {
    }
    forall x ensures SlotGood(ORIGIN, x) {
    }
  }

  lemma NextKeeps(w: World, step: Step)
    requires Inv(w) && Enabled(w, step)
    ensures Inv(Next(w, step))
  {
    match step
    case Open(now, caseId, cycle, members, creator) => OpenCaseKeeps(w, now, caseId, cycle, members, creator);
    case Claim(now, member, token, batch) => ClaimJobKeeps(w, now, member, token, batch);
    case Submit(now, caseId, member, roundNo, verdict, resultId, token) =>
      SubmitResultKeeps(w, now, caseId, member, roundNo, verdict, resultId, token);
    case Reap(now, dueCases) => ReapCasesKeeps(w, now, dueCases);
    case Success(now, cycle, eventId, member) => RegisterSuccessKeeps(w, now, cycle, eventId, member);
  }

  /** Every state that any run reaches satisfies the invariant. */
  lemma {:induction false} ReachableIsGood(run: Run, n: nat)
    requires Legal(run) && n <= |run.steps|
    ensures Inv(run.worlds[n])
  {
    if n == 0 {
      OriginIsGood();
    } else {
      ReachableIsGood(run, n - 1);
      assert StepOk(run, n - 1);
      NextKeeps(run.worlds[n - 1], run.steps[n - 1]);
    }
  }

  lemma {:induction false} TimeNeverGoesBack(run: Run, i: nat, j: nat)
    requires Legal(run) && i <= j < |run.steps|
    ensures run.steps[i].now <= run.steps[j].now == run.worlds[j + 1].clock
  {
    assert StepOk(run, j);
    if i == j {
    } else {
      TimeNeverGoesBack(run, i, j - 1);
    }
  }

  // ---------- Leases: every result comes from the latest claim ----------

  /** Step i gave the slot out. */
  predicate GaveOut(run: Run, i: int, x: Slot) {
    0 <= i < |run.steps| && i < |run.replies| && run.steps[i].Claim?
    && run.replies[i].Job? && run.replies[i].slot == x
  }

  predicate IsSubmissionFor(step: Step, x: Slot) {
    step.Submit? && step.caseId == x.caseId && step.member == x.member && ParseRound(step.roundNo) == Some(x.round)
  }

  /** Step j was an accepted submission for the slot. */
  predicate TookIn(run: Run, j: int, x: Slot) {
    0 <= j < |run.steps| && j < |run.replies| && IsSubmissionFor(run.steps[j], x) && Accepted(run.replies[j])
  }

  /** Step i gave the slot out, and nothing was done to it from then until step n. */
  ghost predicate HeldSince(run: Run, i: int, n: int, x: Slot) {
    && GaveOut(run, i, x) && i < n
    && forall k :: i < k < n ==> !TookIn(run, k, x) && !GaveOut(run, k, x)
  }

  lemma ClaimOnState(w: World, now: int, member: Member, token: Token, batch: seq<Slot>)
    requires Inv(w) && IsRange(JobsOf(w.state.jobs, member), now, BATCH, batch)
    ensures var out := ClaimJob(w.state, now, token, batch);
            if out.reply.Job?
            then out.reply.slot in w.state.jobs
                 && out.state == w.state.(leases := w.state.leases[out.reply.slot := Lease(token, now + LEASE_MS)])
            else out.state == w.state
  {
    forall y | y in batch ensures y in w.state.jobs && !DeadJob(w.state, y) {
      assert y in JobsOf(w.state.jobs, member);
      QueuedJobsAreAlive(w, y);
    }
    ClaimTakesFirstFree(w.state, now, token, batch);
  }

  lemma AcceptOnState(s: State, now: int, slot: Slot, verdict: Verdict, resultId: ResultId)
    requires slot.caseId in s.cases
    ensures var t := AcceptResult(s, now, slot, verdict, resultId).state;
            && t.leases == s.leases - {slot}
            && t.results == (if verdict.CheckFailed? then s.results else s.results[slot := Result(resultId, verdict)])
            && t.markers == s.markers[resultId := Signature(slot, verdict)]
  {
  }

  /** The facts of one submission, for the slot it names. */
  lemma SubmitOnState(w: World, e: Step)
    requires e.Submit?
    ensures var reply, w' := Perform(w.state, e).reply, Next(w, e);
            if Accepted(reply)
            then ParseRound(e.roundNo).Some? && ParseVerdict(e.verdict).Some? &&
                 var x, v := Slot(e.caseId, ParseRound(e.roundNo).value, e.member), ParseVerdict(e.verdict).value;
                 && (reply.Requeued? <==> v == CheckFailed)
                 && x in w.state.leases && x !in w.state.results && e.resultId !in w.state.markers
                 && w.state.leases[x].token == e.token && e.now < w.state.leases[x].expiresAt
                 && w'.state.leases == w.state.leases - {x}
                 && w'.state.results == (if v == CheckFailed then w.state.results
                                         else w.state.results[x := Result(e.resultId, v)])
                 && w'.state.markers == w.state.markers[e.resultId := Signature(x, v)]
                 && w'.audit == (if v == CheckFailed then w.audit
                                 else w.audit[x := Audit(e.token, w.state.leases[x].expiresAt - LEASE_MS, e.now)])
            else w'.state == w.state && w'.audit == w.audit
  {
    AcceptedExactlyUnderLiveLease(w.state, e.now, e.caseId, e.member, e.roundNo, e.verdict, e.resultId, e.token);
    if Accepted(Perform(w.state, e).reply) {
      var slot := Slot(e.caseId, ParseRound(e.roundNo).value, e.member);
      AcceptReply(w.state, e.now, slot, ParseVerdict(e.verdict).value, e.resultId);
      AcceptOnState(w.state, e.now, slot, ParseVerdict(e.verdict).value, e.resultId);
    }
  }

  /** A lease changes only when its slot is given out or taken in. */
  lemma StepOnLease(run: Run, n: nat, x: Slot)
    requires Legal(run) && n < |run.steps|
    ensures var s, t, e := run.worlds[n].state, run.worlds[n + 1].state, run.steps[n];
            if GaveOut(run, n, x) then x in t.leases && t.leases[x] == Lease(e.token, e.now + LEASE_MS)
            else if TookIn(run, n, x) then x !in t.leases
            else SameAt(s.leases, t.leases, x)
  {
    var w, e := run.worlds[n], run.steps[n];
    assert StepOk(run, n);
    ReachableIsGood(run, n);
    if e.Claim? {
      ClaimOnState(w, e.now, e.member, e.token, e.batch);
    } else if e.Submit? {
      SubmitOnState(w, e);
    }
  }

  /** Every lease on record was given out by the latest claim of its slot, and nothing has
      been accepted for the slot since. */
  lemma {:induction false} LeaseHasItsClaim(run: Run, n: nat, x: Slot) returns (i: nat)
    requires Legal(run) && n <= |run.steps| && x in run.worlds[n].state.leases
    ensures HeldSince(run, i, n, x)
    ensures run.worlds[n].state.leases[x] == Lease(run.steps[i].token, run.steps[i].now + LEASE_MS)
  {
    StepOnLease(run, n - 1, x);
    if GaveOut(run, n - 1, x) {
      i := n - 1;
    } else {
      i := LeaseHasItsClaim(run, n - 1, x);
    }
  }

  /** Fencing: a submission is accepted only under the token of the latest claim of its
      slot, less than 30 s after that claim, and only once per claim. */
  lemma AcceptedSubmissionsAreFenced(run: Run, j: nat, x: Slot) returns (i: nat)
    requires Legal(run) && TookIn(run, j, x)
    ensures HeldSince(run, i, j, x)
    ensures run.steps[i].token == run.steps[j].token
    ensures run.steps[i].now <= run.steps[j].now < run.steps[i].now + LEASE_MS
  {
    assert StepOk(run, j);
    SubmitOnState(run.worlds[j], run.steps[j]);
    i := LeaseHasItsClaim(run, j, x);
    TimeNeverGoesBack(run, i, j);
  }

  /** Until its slot is given out again or taken in, a lease stands as it was given. */
  lemma {:induction false} LeaseStands(run: Run, i: nat, n: nat, x: Slot)
    requires Legal(run) && n <= |run.steps| && HeldSince(run, i, n, x)
    ensures x in run.worlds[n].state.leases
    ensures run.worlds[n].state.leases[x] == Lease(run.steps[i].token, run.steps[i].now + LEASE_MS)
  {
    StepOnLease(run, n - 1, x);
    if n == i + 1 {
    } else {
      LeaseStands(run, i, n - 1, x);
    }
  }

  /** The slot is open to the submission, whatever its token. */
  predicate IsOpenTo(s: State, e: Step, x: Slot)
    requires e.Submit?
  {
    && x.caseId in s.cases && x.member in s.cases[x.caseId].members && ParseVerdict(e.verdict).Some?
    && e.resultId !in s.markers && s.cases[x.caseId].status == Pending && x !in s.results
  }

  /** A worker that submits for an open slot under the token of its claim is accepted exactly
      if it comes within 30 s and the slot has been neither given out again nor taken in
      since. Under a token that is superseded, used or too old it is refused as stale. */
  lemma ClaimIsHonouredExactly(run: Run, i: nat, j: nat, x: Slot)
    requires Legal(run) && GaveOut(run, i, x) && i < j < |run.steps|
    requires IsSubmissionFor(run.steps[j], x) && run.steps[j].token == run.steps[i].token
    requires IsOpenTo(run.worlds[j].state, run.steps[j], x)
    ensures Accepted(run.replies[j]) <==>
              HeldSince(run, i, j, x) && run.steps[j].now < run.steps[i].now + LEASE_MS
    ensures !Accepted(run.replies[j]) ==>
              run.replies[j] == Refused(StaleLease) && run.worlds[j + 1].state == run.worlds[j].state
  {
    assert StepOk(run, j);
    SubmitOnState(run.worlds[j], run.steps[j]);
    if HeldSince(run, i, j, x) {
      LeaseStands(run, i, j, x);
    }
    AcceptedReplies(run.worlds[j].state, run.steps[j], x);
    if Accepted(run.replies[j]) {
      var k := AcceptedSubmissionsAreFenced(run, j, x);
    }
  }

  /** An open slot answers by its lease alone. */
  lemma AcceptedReplies(s: State, e: Step, x: Slot)
    requires e.Submit? && IsSubmissionFor(e, x) && IsOpenTo(s, e, x)
    ensures var reply := Perform(s, e).reply;
            if x in s.leases && s.leases[x].token == e.token && e.now < s.leases[x].expiresAt
            then Accepted(reply) else reply == Refused(StaleLease)
  {
    AcceptReply(s, e.now, x, ParseVerdict(e.verdict).value, e.resultId);
  }

  // ---------- Results: written once, each by one accepted answer ----------

  /** Step j answered the slot, with `found` or `absent`. */
  predicate Answered(run: Run, j: int, x: Slot) {
    TookIn(run, j, x) && !run.replies[j].Requeued?
  }

  /** The result of a slot is written by its one answer and never changes again. */
  lemma StepOnResult(run: Run, n: nat, x: Slot)
    requires Legal(run) && n < |run.steps|
    ensures var w, w', e := run.worlds[n], run.worlds[n + 1], run.steps[n];
            if Answered(run, n, x)
            then && x !in w.state.results && x in w.state.leases
                 && ParseVerdict(e.verdict).Some? && x in w'.state.results && x in w'.audit
                 && w'.state.results[x] == Result(e.resultId, ParseVerdict(e.verdict).value)
                 && w'.audit[x] == Audit(e.token, w.state.leases[x].expiresAt - LEASE_MS, e.now)
            else SameAt(w.state.results, w'.state.results, x) && SameAt(w.audit, w'.audit, x)
  {
    var w, e := run.worlds[n], run.steps[n];
    assert StepOk(run, n);
    ReachableIsGood(run, n);
    if e.Claim? {
      ClaimOnState(w, e.now, e.member, e.token, e.batch);
    } else if e.Submit? {
      SubmitOnState(w, e);
    }
  }

  /** Every result on record was answered by one step j, under the claim made at step i
      that still held, and the history gives the times of both. */
  lemma {:induction false} ResultHasItsAnswer(run: Run, n: nat, x: Slot) returns (i: nat, j: nat)
    requires Legal(run) && n <= |run.steps| && x in run.worlds[n].state.results
    ensures j < n && Answered(run, j, x) && HeldSince(run, i, j, x)
    ensures x in run.worlds[n].audit
    ensures run.worlds[n].audit[x] == Audit(run.steps[i].token, run.steps[i].now, run.steps[j].now)
    ensures ParseVerdict(run.steps[j].verdict) == Some(run.worlds[n].state.results[x].verdict)
  {
    StepOnResult(run, n - 1, x);
    if Answered(run, n - 1, x) {
      j := n - 1;
      i := AcceptedSubmissionsAreFenced(run, j, x);
      var k := LeaseHasItsClaim(run, j, x);
      assert i == k;
    } else {
      i, j := ResultHasItsAnswer(run, n - 1, x);
    }
  }

  lemma {:induction false} ResultStays(run: Run, m: nat, n: nat, x: Slot)
    requires Legal(run) && m <= n <= |run.steps| && x in run.worlds[m].state.results
    ensures SameAt(run.worlds[m].state.results, run.worlds[n].state.results, x)
  {
    if m == n {
    } else {
      ResultStays(run, m, n - 1, x);
      StepOnResult(run, n - 1, x);
    }
  }

  /** No slot is answered twice in a run. */
  lemma AnsweredOnce(run: Run, j: nat, k: nat, x: Slot)
    requires Legal(run) && Answered(run, j, x) && Answered(run, k, x)
    ensures j == k
  {
    StepOnResult(run, j, x);
    StepOnResult(run, k, x);
    if j < k {
      ResultStays(run, j + 1, k, x);
    } else if k < j {
      ResultStays(run, k + 1, j, x);
    }
  }

  // ---------- Verdicts: how a case moves ----------

  lemma AbsentOnCase(s: State, now: int, slot: Slot, resultId: ResultId, id: CaseId)
    requires IsPending(s, slot.caseId)
    ensures var t := RecordAbsent(s, now, slot, resultId);
            && (id in t.cases <==> id in s.cases)
            && (id in s.cases ==> Moves(s.cases[id], t.cases[id]))
  {
    var noted := s.(results := s.results[slot := Result(resultId, Absent)], jobs := s.jobs - {slot});
    if RoundComplete(noted, slot.caseId, slot.round) {
      var t1, t2 := FinishRoundOne(noted, now, slot.caseId), FinishRoundTwo(noted, slot.caseId);
      assert id in s.cases ==> Moves(s.cases[id], t1.cases[id]) && Moves(s.cases[id], t2.cases[id]);
    }
  }

  lemma FoundOnCase(s: State, slot: Slot, resultId: ResultId, id: CaseId)
    requires IsPending(s, slot.caseId)
    ensures var t := RecordFound(s, slot, resultId);
            && (id in t.cases <==> id in s.cases)
            && (id in s.cases ==> Moves(s.cases[id], t.cases[id]))
  {
  }

  lemma AcceptOnCase(s: State, now: int, slot: Slot, verdict: Verdict, resultId: ResultId, id: CaseId)
    requires IsPending(s, slot.caseId)
    ensures var t := AcceptResult(s, now, slot, verdict, resultId).state;
            && (id in t.cases <==> id in s.cases)
            && (id in s.cases ==> Moves(s.cases[id], t.cases[id]))
  {
    var marked := Marked(s, slot, verdict, resultId);
    match verdict
    case CheckFailed =>
    case Found => FoundOnCase(marked, slot, resultId, id);
    case Absent => AbsentOnCase(marked, now, slot, resultId, id);
  }

  predicate ReapedOrSame(s: State, t: State, id: CaseId) {
    && (id in t.cases <==> id in s.cases)
    && (id in s.cases && t.cases[id] != s.cases[id] ==>
          s.cases[id].status == Pending && t.cases[id] == Settled(s.cases[id], Unconfirmed))
  }

  lemma ReapOneOnCase(s: State, one: CaseId, id: CaseId)
    ensures ReapedOrSame(s, ReapCase(s, one), id)
  {
    if IsPending(s, one) {
      var t := SettleCase(s, one, Unconfirmed);
      assert ReapCase(s, one) == t;
      if id == one {
        assert t.cases[id] == Settled(s.cases[id], Unconfirmed);
      } else {
        assert id in t.cases <==> id in s.cases;
        assert id in s.cases ==> t.cases[id] == s.cases[id];
      }
    }
  }

  lemma {:induction false} ReapOnCase(s: State, batch: seq<CaseId>, id: CaseId)
    ensures ReapedOrSame(s, ReapCases(s, batch).0, id)
    decreases |batch|
  {
    if batch == [] {
    } else {
      ReapOneOnCase(s, batch[0], id);
      ReapOnCase(ReapCase(s, batch[0]), batch[1..], id);
    }
  }

  lemma SuccessOnCase(s: State, now: int, cycle: Cycle, eventId: EventId, member: Member, id: CaseId)
    ensures var t := RegisterSuccess(s, now, cycle, eventId, member).state;
            && (id in t.cases <==> id in s.cases)
            && (id in s.cases ==> Moves(s.cases[id], t.cases[id]))
  {
    var out := RegisterSuccess(s, now, cycle, eventId, member);
    if out.reply.Registered? {
      var s1 := if eventId in s.events then s else WithReceipt(s, now, cycle, eventId, member);
      assert out.state == ApplyReceipt(s1, cycle, out.reply.receipt);
      ApplyReceiptFields(s1, cycle, out.reply.receipt);
      if id in s.cases {
        ApplyReceiptMoves(s1, cycle, out.reply.receipt, id);
      }
    }
  }

  predicate OpenedOrSame(s: State, t: State, e: Step, id: CaseId)
    requires e.Open?
  {
    && (id in s.cases ==> id in t.cases && t.cases[id] == s.cases[id])
    && (id in t.cases && id !in s.cases ==> id == e.caseId && IsFirstVersion(e, t.cases[id]))
  }

  /** The case as OPEN_CASE writes it. */
  predicate IsFirstVersion(e: Step, c: Case)
    requires e.Open?
  {
    || c == Case(e.cycle, e.members, e.creator, e.now, Pending, 0, 0, None)
    || c == Case(e.cycle, e.members, e.creator, e.now, Internal, 1, 0, None)
  }

  lemma OpenInternalOnCase(s: State, e: Step, id: CaseId)
    requires e.Open? && e.caseId !in s.cases
    ensures OpenedOrSame(s, OpenInternal(s, e.now, e.caseId, e.cycle, e.members, e.creator), e, id)
  {
  }

  lemma OpenPendingOnCase(s: State, e: Step, id: CaseId)
    requires e.Open? && e.caseId !in s.cases
    ensures OpenedOrSame(s, OpenPending(s, e.now, e.caseId, e.cycle, e.members, e.creator), e, id)
  {
  }

  lemma OpenOnCase(s: State, e: Step, id: CaseId)
    requires e.Open?
    ensures OpenedOrSame(s, Perform(s, e).state, e, id)
  {
    if e.caseId !in s.cases {
      OpenInternalOnCase(s, e, id);
      OpenPendingOnCase(s, e, id);
    }
  }

  /** A case appears only by being opened, never disappears, keeps its members, cycle and
      opening time, and its verdict moves only forward. */
  lemma StepOnCase(run: Run, n: nat, id: CaseId)
    requires Legal(run) && n < |run.steps|
    ensures var s, t, e := run.worlds[n].state, run.worlds[n + 1].state, run.steps[n];
            && (id in s.cases ==> id in t.cases && Moves(s.cases[id], t.cases[id]))
            && (id in t.cases && id !in s.cases ==> e.Open? && e.caseId == id && IsFirstVersion(e, t.cases[id]))
  {
    var w, e := run.worlds[n], run.steps[n];
    assert StepOk(run, n);
    ReachableIsGood(run, n);
    match e
    case Open(_, _, _, _, _) => OpenOnCase(w.state, e, id);
    case Claim(now, member, token, batch) => ClaimOnState(w, now, member, token, batch);
    case Submit(now, caseId, member, roundNo, verdict, resultId, token) =>
      AcceptedExactlyUnderLiveLease(w.state, now, caseId, member, roundNo, verdict, resultId, token);
      if Accepted(run.replies[n]) {
        AcceptOnCase(w.state, now, Slot(caseId, ParseRound(roundNo).value, member), ParseVerdict(verdict).value,
                     resultId, id);
      }
    case Reap(_, dueCases) => ReapOnCase(w.state, dueCases, id);
    case Success(now, cycle, eventId, member) => SuccessOnCase(w.state, now, cycle, eventId, member, id);
  }

  /** Every case was opened by one step, which gave it its members, cycle and opening time. */
  lemma {:induction false} CaseWasOpened(run: Run, n: nat, id: CaseId) returns (k: nat)
    requires Legal(run) && n <= |run.steps| && id in run.worlds[n].state.cases
    ensures k < n && run.steps[k].Open? && run.steps[k].caseId == id
    ensures id !in run.worlds[k].state.cases
    ensures var c := run.worlds[n].state.cases[id];
            c.cycle == run.steps[k].cycle && c.members == run.steps[k].members && c.createdAt == run.steps[k].now
  {
    StepOnCase(run, n - 1, id);
    if id in run.worlds[n - 1].state.cases {
      k := CaseWasOpened(run, n - 1, id);
    } else {
      k := n - 1;
    }
  }

  /** Safety of `external`. When a case stands at external, every member answered `absent`
      in both rounds, each under a claim that still held; and every second-round claim was
      made at least 15 s after every first-round answer and 30 s after the opening. */
  lemma ExternalNeedsTwoFullRounds(run: Run, n: nat, id: CaseId, m1: Member, m2: Member)
    returns (k: nat, i1: nat, j1: nat, i2: nat, j2: nat)
    requires Legal(run) && n <= |run.steps|
    requires id in run.worlds[n].state.cases && run.worlds[n].state.cases[id].status == External
    requires m1 in run.worlds[n].state.cases[id].members && m2 in run.worlds[n].state.cases[id].members
    ensures k < n && run.steps[k].Open? && run.steps[k].caseId == id
    ensures HeldSince(run, i1, j1, Slot(id, One, m1)) && Answered(run, j1, Slot(id, One, m1))
    ensures HeldSince(run, i2, j2, Slot(id, Two, m2)) && Answered(run, j2, Slot(id, Two, m2))
    ensures run.steps[j1].verdict == "absent" && run.steps[j2].verdict == "absent"
    ensures i1 < j1 < i2 < j2 < n
    ensures run.steps[i2].now >= run.steps[j1].now + ROUND_GAP_MS
    ensures run.steps[i2].now >= run.steps[k].now + ROUND_TWO_DELAY_MS
  {
    var w := run.worlds[n];
    var x1, x2 := Slot(id, One, m1), Slot(id, Two, m2);
    ReachableIsGood(run, n);
    assert CaseGood(w, id) && SlotGood(w, x1) && SlotGood(w, x2);
    assert AbsentAt(w.state, x1) && AbsentAt(w.state, x2);
    k := CaseWasOpened(run, n, id);
    i1, j1 := ResultHasItsAnswer(run, n, x1);
    i2, j2 := ResultHasItsAnswer(run, n, x2);
    if i2 <= j1 {
      TimeNeverGoesBack(run, i2, j1);
    }
  }

  /** No pending case is stuck: somebody's job is queued. A resolved case has no jobs. */
  lemma PendingExactlyWhenQueued(run: Run, n: nat, id: CaseId)
    requires Legal(run) && n <= |run.steps| && id in run.worlds[n].state.cases
    ensures run.worlds[n].state.cases[id].status == Pending
            <==> exists x :: x in run.worlds[n].state.jobs && x.caseId == id
  {
    var w := run.worlds[n];
    ReachableIsGood(run, n);
    assert CaseGood(w, id);
    if IsPending(w.state, id) {
      var round := if RoundComplete(w.state, id, One) then Two else One;
      assert !RoundComplete(w.state, id, round);
      var m :| m in w.state.cases[id].members && !AbsentAt(w.state, Slot(id, round, m));
      assert SlotGood(w, Slot(id, round, m));
      assert Slot(id, round, m) in w.state.jobs;
    }
    forall x | x in w.state.jobs && x.caseId == id ensures IsPending(w.state, id) {
      assert SlotGood(w, x);
    }
  }

  /** The queues hold exactly the work still to be done. */
  lemma QueuedExactlyWhenWanted(run: Run, n: nat, x: Slot)
    requires Legal(run) && n <= |run.steps|
    ensures x in run.worlds[n].state.jobs <==> Wanted(run.worlds[n].state, x)
  {
    ReachableIsGood(run, n);
    assert SlotGood(run.worlds[n], x);
  }
}
