/** Why the cases of the ownership protocol stand where they do: every change of a status has
    its cause, every cause has its effect, and every queued job its time. */
module OwnershipVerdicts {
  import opened SortedSets
  import opened OwnershipProtocol
  import opened OwnershipInvariant
  import opened OwnershipRuns

  // ---------- The four causes ----------

  /** Step n was an accepted submission for the case. */
  predicate TookAnswer(run: Run, n: int, id: CaseId, verdict: string) {
    && 0 <= n < |run.steps| && n < |run.replies| && run.steps[n].Submit? && run.steps[n].caseId == id
    && run.steps[n].verdict == verdict && Accepted(run.replies[n])
  }

  /** Every member of the case has answered `absent` in the second round. */
  predicate AllAbsentInTwo(s: State, id: CaseId) {
    && id in s.cases
    && forall m :: m in s.cases[id].members ==>
         Slot(id, Two, m) in s.results && s.results[Slot(id, Two, m)].verdict == Absent
  }

  /** Step n was the `absent` that completed the second round. */
  predicate CompletedTwo(run: Run, n: int, id: CaseId)
    requires |run.worlds| == |run.steps| + 1
  {
    TookAnswer(run, n, id, "absent") && run.steps[n].roundNo == 2 && AllAbsentInTwo(run.worlds[n + 1].state, id)
  }

  /** Step n reaped the case while it was pending. */
  predicate ReapedPending(run: Run, n: int, id: CaseId)
    requires |run.worlds| == |run.steps| + 1
  {
    && 0 <= n < |run.steps| && run.steps[n].Reap? && id in run.steps[n].dueCases
    && id in run.worlds[n].state.cases && run.worlds[n].state.cases[id].status == Pending
  }

  /** Step n registered a success of the case's cycle that came, like the case, at or after
      an entry time later than 1970. */
  predicate CorrectedBy(run: Run, n: int, id: CaseId)
    requires |run.worlds| == |run.steps| + 1
  {
    && 0 <= n < |run.steps| && n < |run.replies| && run.steps[n].Success? && run.replies[n].Registered?
    && id in run.worlds[n].state.cases
    && var c := run.worlds[n].state.cases[id];
    && c.cycle.entry.Some? && DigestOf(run.steps[n].cycle) == DigestOf(c.cycle)
    && 0 < c.cycle.entry.value.epochMs <= run.replies[n].receipt.serverTime
    && c.cycle.entry.value.epochMs <= c.createdAt
  }

  /** Step n opened the case although its cycle already had a receipt from after its entry time. */
  predicate BornLate(run: Run, n: int, id: CaseId)
    requires |run.worlds| == |run.steps| + 1
  {
    && 0 <= n < |run.steps| && run.steps[n].Open? && run.steps[n].caseId == id
    && id !in run.worlds[n].state.cases && HasReceiptSince(run.worlds[n].state, run.steps[n].cycle)
  }

  /** The cycle has a reliable entry time and a receipt from then or later. */
  predicate HasReceiptSince(s: State, cycle: Cycle) {
    && DigestOf(cycle).Some? && OfCycle(DigestOf(cycle).value) in s.receipts
    && var entry := cycle.entry.value.epochMs;
       (if entry == 0 then -1 else entry) <= s.receipts[OfCycle(DigestOf(cycle).value)].serverTime
  }

  // ---------- One script on one status ----------

  lemma AbsentStatus(s: State, now: int, x: Slot, resultId: ResultId, id: CaseId)
    requires IsPending(s, x.caseId) && id in s.cases
    ensures var t := RecordAbsent(s, now, x, resultId);
            && id in t.cases && t.cases[id].members == s.cases[id].members
            && t.cases[id].status
               == if id == x.caseId && x.round.Two? && AllAbsentInTwo(t, id) then External else s.cases[id].status
  {
    var noted := s.(results := s.results[x := Result(resultId, Absent)], jobs := s.jobs - {x});
    var t := RecordAbsent(s, now, x, resultId);
    if RoundComplete(noted, x.caseId, x.round) {
      if x.round.One? {
        assert t == FinishRoundOne(noted, now, x.caseId);
      } else {
        assert t == FinishRoundTwo(noted, x.caseId);
        forall m | m in noted.cases[x.caseId].members ensures AbsentAt(noted, Slot(x.caseId, Two, m)) {
        }
      }
    } else {
      assert t == noted;
      var m :| m in noted.cases[x.caseId].members && !AbsentAt(noted, Slot(x.caseId, x.round, m));
    }
  }

  lemma AcceptStatus(s: State, now: int, x: Slot, verdict: Verdict, resultId: ResultId, id: CaseId)
    requires IsPending(s, x.caseId) && id in s.cases
    ensures var t := AcceptResult(s, now, x, verdict, resultId).state;
            && id in t.cases
            && t.cases[id].status
               == if id == x.caseId && verdict == Found then Internal
                  else if id == x.caseId && verdict == Absent && x.round.Two? && AllAbsentInTwo(t, id) then External
                  else s.cases[id].status
  {
    var marked := Marked(s, x, verdict, resultId);
    match verdict
    case CheckFailed =>
    case Found =>
    case Absent => AbsentStatus(marked, now, x, resultId, id);
  }

  lemma {:induction false} ReapStatus(s: State, batch: seq<CaseId>, id: CaseId)
    requires id in s.cases
    ensures var t := ReapCases(s, batch).0;
            && id in t.cases
            && t.cases[id].status
               == if id in batch && s.cases[id].status == Pending then Unconfirmed else s.cases[id].status
    decreases |batch|
  {
    if batch == [] {
    } else {
      var s1 := ReapCase(s, batch[0]);
      ReapOneOnCase(s, batch[0], id);
      ReapStatus(s1, batch[1..], id);
      assert id in batch <==> id == batch[0] || id in batch[1..];
    }
  }

  lemma ReceiptStatus(s: State, cycle: Cycle, receipt: Receipt, id: CaseId)
    requires CyclesGood(s) && id in s.cases
    ensures var t, c := ApplyReceipt(s, cycle, receipt), s.cases[id];
            && id in t.cases
            && t.cases[id].status
               == if c.cycle.entry.Some? && DigestOf(cycle) == DigestOf(c.cycle)
                     && 0 < c.cycle.entry.value.epochMs <= receipt.serverTime
                     && c.cycle.entry.value.epochMs <= c.createdAt
                  then Internal else c.status
  {
    if DigestOf(cycle).Some? {
      var d := DigestOf(cycle).value;
      assert id in CasesOf(s, d) <==> DigestOf(s.cases[id].cycle) == Some(d);
    }
  }

  lemma SuccessStatus(w: World, now: int, cycle: Cycle, eventId: EventId, member: Member, id: CaseId)
    requires Inv(w) && id in w.state.cases
    ensures var out, c := RegisterSuccess(w.state, now, cycle, eventId, member), w.state.cases[id];
            && id in out.state.cases
            && out.state.cases[id].status
               == if out.reply.Registered? && c.cycle.entry.Some? && DigestOf(cycle) == DigestOf(c.cycle)
                     && 0 < c.cycle.entry.value.epochMs <= out.reply.receipt.serverTime
                     && c.cycle.entry.value.epochMs <= c.createdAt
                  then Internal else c.status
  {
    var s, out := w.state, RegisterSuccess(w.state, now, cycle, eventId, member);
    if out.reply.Registered? {
      var s1 := if eventId in s.events then s else WithReceipt(s, now, cycle, eventId, member);
      assert out.state == ApplyReceipt(s1, cycle, out.reply.receipt);
      NewReceiptIndexes(s, now, cycle, eventId, member);
      ReceiptStatus(s1, cycle, out.reply.receipt, id);
    }
  }

  // ---------- Causes and effects over runs ----------

  /** After every step of every run, a case stands at internal if the step took a `found` or a
      success that corrects it, at external if it completed the second round, at
      unconfirmed if it reaped the case while pending, and else where it stood before. */
  lemma StatusFollowsItsCause(run: Run, n: nat, id: CaseId)
    requires Legal(run) && n < |run.steps| && id in run.worlds[n].state.cases
    ensures var s, t := run.worlds[n].state, run.worlds[n + 1].state;
            && id in t.cases
            && t.cases[id].status
               == if TookAnswer(run, n, id, "found") || CorrectedBy(run, n, id) then Internal
                  else if CompletedTwo(run, n, id) then External
                  else if ReapedPending(run, n, id) then Unconfirmed
                  else s.cases[id].status
  {
    var w, e := run.worlds[n], run.steps[n];
    assert StepOk(run, n);
    ReachableIsGood(run, n);
    match e
    case Open(_, _, _, _, _) => OpenOnCase(w.state, e, id);
    case Claim(now, member, token, batch) => ClaimOnState(w, now, member, token, batch);
    case Submit(now, caseId, member, roundNo, verdict, resultId, token) =>
      AcceptedExactlyUnderLiveLease(w.state, now, caseId, member, roundNo, verdict, resultId, token);
      if Accepted(run.replies[n]) {
        AcceptStatus(w.state, now, Slot(caseId, ParseRound(roundNo).value, member), ParseVerdict(verdict).value,
                     resultId, id);
      }
    case Reap(_, dueCases) => ReapStatus(w.state, dueCases, id);
    case Success(now, cycle, eventId, member) => SuccessStatus(w, now, cycle, eventId, member, id);
  }

  /** A case is born internal exactly if its cycle has a reliable entry time and a receipt from
      then or later, and pending otherwise. */
  lemma BirthFollowsItsCause(run: Run, n: nat, id: CaseId)
    requires Legal(run) && n < |run.steps|
    requires id !in run.worlds[n].state.cases && id in run.worlds[n + 1].state.cases
    ensures run.steps[n].Open? && run.steps[n].caseId == id
    ensures run.worlds[n + 1].state.cases[id].status == if BornLate(run, n, id) then Internal else Pending
  {
    assert StepOk(run, n);
    StepOnCase(run, n, id);
    ReachableIsGood(run, n);
    var s, e := run.worlds[n].state, run.steps[n];
    if BornInternal(s, e.cycle, e.now) {
      assert run.worlds[n + 1].state == OpenInternal(s, e.now, e.caseId, e.cycle, e.members, e.creator);
    } else {
      assert run.worlds[n + 1].state == OpenPending(s, e.now, e.caseId, e.cycle, e.members, e.creator);
    }
  }

  /** Whatever verdict a case has, one earlier step gave it that very verdict for its cause,
      and it has stood since. */
  lemma {:induction false} VerdictHasItsCause(run: Run, n: nat, id: CaseId) returns (k: nat)
    requires Legal(run) && n <= |run.steps|
    requires id in run.worlds[n].state.cases && run.worlds[n].state.cases[id].status != Pending
    ensures k < n
    ensures match run.worlds[n].state.cases[id].status
            case External => CompletedTwo(run, k, id)
            case Unconfirmed => ReapedPending(run, k, id)
            case Internal => TookAnswer(run, k, id, "found") || CorrectedBy(run, k, id) || BornLate(run, k, id)
            case Pending => false
    ensures forall i :: k < i <= n ==>
              id in run.worlds[i].state.cases
              && run.worlds[i].state.cases[id].status == run.worlds[n].state.cases[id].status
  {
    if id !in run.worlds[n - 1].state.cases {
      BirthFollowsItsCause(run, n - 1, id);
      k := n - 1;
    } else {
      StatusFollowsItsCause(run, n - 1, id);
      if run.worlds[n - 1].state.cases[id].status == run.worlds[n].state.cases[id].status {
        k := VerdictHasItsCause(run, n - 1, id);
      } else {
        k := n - 1;
      }
    }
  }

  // ---------- Receipts ----------

  /** Whom a success is registered for: its cycle if the entry time is reliable, else its event. */
  function KeyFor(cycle: Cycle, eventId: EventId): ReceiptKey {
    if cycle.entry.Some? then OfCycle(Digest(cycle.leadCode, cycle.recordId, cycle.entry.value)) else OfEvent(eventId)
  }

  /** Two cycles have one identity exactly if they are of one record and either have one
      reliable entry time or have none and were given the same text. */
  lemma SameIdentityExactly(a: Cycle, b: Cycle)
    ensures IdentityOf(a) == IdentityOf(b) <==>
              && a.leadCode == b.leadCode && a.recordId == b.recordId
              && (a.entry.Some? || b.entry.Some? ==> a.entry == b.entry)
              && (a.entry.None? && b.entry.None? ==> a.entered == b.entered)
    ensures DigestOf(a) == DigestOf(b) <==>
              a.entry == b.entry && (a.entry.Some? ==> a.leadCode == b.leadCode && a.recordId == b.recordId)
  {
  }

  /** A success is registered exactly if it names an event and a member and is either the
      first for its key, by an event not seen before, or the repetition of a registered one
      with the same identity and member. The first leaves a receipt with its own member,
      event and time, and a repetition is answered with the receipt of the first. */
  lemma SuccessRegistersExactly(run: Run, n: nat)
    requires Legal(run) && n < |run.steps| && run.steps[n].Success?
    ensures var e, s, t := run.steps[n], run.worlds[n].state, run.worlds[n + 1].state;
            var key := KeyFor(e.cycle, e.eventId);
            var isFirst := e.eventId !in s.events && key !in s.receipts;
            var isRepeated := e.eventId in s.events && s.events[e.eventId].identity == IdentityOf(e.cycle)
                              && s.events[e.eventId].member == e.member;
            var receipt := Receipt(e.member, e.eventId, e.now, e.now + 172800000);
            && (run.replies[n].Registered? <==> e.eventId != "" && e.member != "" && (isFirst || isRepeated))
            && (run.replies[n].Registered? && isFirst ==>
                  && run.replies[n].receipt == receipt && t.receipts == s.receipts[key := receipt]
                  && t.events == s.events[e.eventId := EventMark(IdentityOf(e.cycle), e.member, key)])
            && (!(run.replies[n].Registered? && isFirst) ==> t.receipts == s.receipts && t.events == s.events)
            && (run.replies[n].Registered? && isRepeated ==>
                  key in s.receipts && run.replies[n].receipt == s.receipts[key]
                  && s.receipts[key].member == e.member && s.receipts[key].eventId == e.eventId)
            && (!run.replies[n].Registered? ==>
                  t == s && run.replies[n] == Refused(if e.eventId == "" || e.member == "" then EmptyEvent
                                                      else SuccessConflict))
  {
    assert StepOk(run, n);
    ReachableIsGood(run, n);
    var e, s := run.steps[n], run.worlds[n].state;
    var out := RegisterSuccess(s, e.now, e.cycle, e.eventId, e.member);
    if out.reply.Registered? {
      var s1 := if e.eventId in s.events then s else WithReceipt(s, e.now, e.cycle, e.eventId, e.member);
      assert out.state == ApplyReceipt(s1, e.cycle, out.reply.receipt);
      ApplyReceiptFields(s1, e.cycle, out.reply.receipt);
    }
  }

  lemma StepOnReceipts(run: Run, n: nat, key: ReceiptKey)
    requires Legal(run) && n < |run.steps| && key in run.worlds[n].state.receipts
    ensures SameAt(run.worlds[n].state.receipts, run.worlds[n + 1].state.receipts, key)
  {
    assert StepOk(run, n);
    ReachableIsGood(run, n);
    var w, e := run.worlds[n], run.steps[n];
    match e
    case Claim(now, member, token, batch) => ClaimOnState(w, now, member, token, batch);
    case Success(_, _, _, _) => SuccessRegistersExactly(run, n);
    case Submit(now, caseId, member, roundNo, verdict, resultId, token) =>
      AcceptedExactlyUnderLiveLease(w.state, now, caseId, member, roundNo, verdict, resultId, token);
    case _ =>
  }

  /** A receipt never changes once it is there. */
  lemma {:induction false} ReceiptStays(run: Run, m: nat, n: nat, key: ReceiptKey)
    requires Legal(run) && m <= n <= |run.steps| && key in run.worlds[m].state.receipts
    ensures SameAt(run.worlds[m].state.receipts, run.worlds[n].state.receipts, key)
  {
    if m == n {
    } else {
      ReceiptStays(run, m, n - 1, key);
      StepOnReceipts(run, n - 1, key);
    }
  }

  /** Internal needs a reason: in every reachable state an internal case has a `found` of its
      own on record, or its cycle has a reliable entry time and a receipt from then or later. */
  lemma InternalHasAReason(run: Run, n: nat, id: CaseId)
    requires Legal(run) && n <= |run.steps|
    requires id in run.worlds[n].state.cases && run.worlds[n].state.cases[id].status == Internal
    ensures var s := run.worlds[n].state;
            || (exists x :: x in s.results && x.caseId == id && s.results[x].verdict == Found)
            || HasReceiptSince(s, s.cases[id].cycle)
  {
    var k := VerdictHasItsCause(run, n, id);
    assert StepOk(run, k);
    if TookAnswer(run, k, id, "found") {
      var e := run.steps[k];
      SubmitOnState(run.worlds[k], e);
      var x := Slot(id, ParseRound(e.roundNo).value, e.member);
      assert run.worlds[k + 1].state.results[x].verdict == Found;
      ResultStays(run, k + 1, n, x);
    } else {
      CycleStays(run, k + 1, n, id);
      if CorrectedBy(run, k, id) {
        SuccessRegistersExactly(run, k);
        StatusFollowsItsCause(run, k, id);
        StepOnCase(run, k, id);
      } else {
        StepOnCase(run, k, id);
        BornReceipts(run, k, id);
      }
      ReceiptStays(run, k + 1, n, OfCycle(DigestOf(run.worlds[n].state.cases[id].cycle).value));
    }
  }

  lemma BornReceipts(run: Run, k: nat, id: CaseId)
    requires Legal(run) && k < |run.steps| && BornLate(run, k, id)
    ensures run.worlds[k + 1].state.receipts == run.worlds[k].state.receipts
  {
    assert StepOk(run, k);
  }

  lemma {:induction false} CycleStays(run: Run, m: nat, n: nat, id: CaseId)
    requires Legal(run) && m <= n <= |run.steps| && id in run.worlds[m].state.cases
    ensures id in run.worlds[n].state.cases
    ensures run.worlds[n].state.cases[id].cycle == run.worlds[m].state.cases[id].cycle
  {
    if m == n {
    } else {
      CycleStays(run, m, n - 1, id);
      StepOnCase(run, n - 1, id);
    }
  }
}
