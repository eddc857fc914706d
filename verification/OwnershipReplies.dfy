/** What a submission of the ownership protocol is answered, told from the history alone:
    every refusal in its order, the replays, and what is accepted. */
module OwnershipReplies {
  import opened SortedSets
  import opened OwnershipProtocol
  import opened OwnershipInvariant
  import opened OwnershipRuns
  import opened OwnershipTheorems

  /** Step k was an accepted submission under the result ID. */
  predicate Used(run: Run, k: int, resultId: ResultId) {
    && 0 <= k < |run.steps| && k < |run.replies|
    && run.steps[k].Submit? && run.steps[k].resultId == resultId && Accepted(run.replies[k])
  }

  /** Step k gave the same answer for the same share of the same case. */
  predicate IsSameAnswer(run: Run, k: nat, e: Step)
    requires k < |run.steps| && run.steps[k].Submit? && e.Submit?
  {
    && run.steps[k].caseId == e.caseId && run.steps[k].member == e.member
    && run.steps[k].roundNo == e.roundNo && run.steps[k].verdict == e.verdict
  }

  function SlotOf(e: Step): Slot
    requires e.Submit?
  {
    Slot(e.caseId, if e.roundNo == 1 then One else Two, e.member)
  }

  /** The token is that of the claim that holds the share, and that claim is less than 30 s old. */
  ghost predicate HoldsIt(run: Run, n: nat, e: Step)
    requires e.Submit?
  {
    exists i :: 0 <= i < |run.steps| && HeldSince(run, i, n, SlotOf(e))
                && run.steps[i].token == e.token && e.now < run.steps[i].now + 30000
  }

  predicate IsReadable(s: State, e: Step)
    requires e.Submit?
  {
    && e.caseId in s.cases && e.member in s.cases[e.caseId].members
    && (e.roundNo == 1 || e.roundNo == 2) && e.verdict in ["found", "absent", "error"]
  }

  lemma {:induction false} MarkerHasItsUse(run: Run, n: nat, resultId: ResultId) returns (k: nat)
    requires Legal(run) && n <= |run.steps| && resultId in run.worlds[n].state.markers
    ensures k < n && Used(run, k, resultId) && ParseVerdict(run.steps[k].verdict).Some?
    ensures run.steps[k].roundNo == 1 || run.steps[k].roundNo == 2
    ensures run.worlds[n].state.markers[resultId]
            == Signature(SlotOf(run.steps[k]), ParseVerdict(run.steps[k].verdict).value)
  {
    StepOnMarkers(run, n - 1);
    if Used(run, n - 1, resultId) {
      k := n - 1;
    } else {
      k := MarkerHasItsUse(run, n - 1, resultId);
    }
  }

  lemma UseLeavesItsMarker(run: Run, n: nat, k: nat, resultId: ResultId)
    requires Legal(run) && n <= |run.steps| && k < n && Used(run, k, resultId)
    ensures resultId in run.worlds[n].state.markers
  {
    StepOnMarkers(run, k);
    MarkerStays(run, k + 1, n, resultId);
  }

  /** The live lease of a share under a token is the claim that holds it. */
  lemma LeaseMeansHolding(run: Run, n: nat, e: Step)
    requires Legal(run) && n <= |run.steps| && e.Submit?
    ensures var s, x := run.worlds[n].state, SlotOf(e);
            (x in s.leases && s.leases[x].token == e.token && e.now < s.leases[x].expiresAt) <==> HoldsIt(run, n, e)
  {
    var s, x := run.worlds[n].state, SlotOf(e);
    if x in s.leases && s.leases[x].token == e.token && e.now < s.leases[x].expiresAt {
      var i := LeaseHasItsClaim(run, n, x);
    }
    if i :| 0 <= i < |run.steps| && HeldSince(run, i, n, x)
            && run.steps[i].token == e.token && e.now < run.steps[i].now + 30000 {
      LeaseStands(run, i, n, x);
    }
  }

  /** A submission that cannot be read names the first thing wrong with it and changes nothing. */
  lemma UnreadableIsRefused(run: Run, n: nat)
    requires Legal(run) && n < |run.steps| && run.steps[n].Submit?
    ensures var e, s := run.steps[n], run.worlds[n].state;
            !IsReadable(s, e) ==>
              && run.worlds[n + 1].state == s
              && run.replies[n] == Refused(if e.caseId !in s.cases then UnknownCase
                                           else if e.member !in s.cases[e.caseId].members then NotAMember
                                           else if e.roundNo < 1 || e.roundNo > 2 then InvalidRound
                                           else InvalidVerdict)
  {
    assert StepOk(run, n);
  }

  /** One whose result ID was used before is acknowledged if it repeats the answer given under
      that ID, and refused if it does not; either way nothing changes. */
  lemma UsedIdIsAnsweredExactly(run: Run, n: nat, k: nat)
    requires Legal(run) && n < |run.steps| && run.steps[n].Submit? && IsReadable(run.worlds[n].state, run.steps[n])
    requires k < n && Used(run, k, run.steps[n].resultId)
    ensures run.worlds[n + 1].state == run.worlds[n].state
    ensures run.replies[n] == if IsSameAnswer(run, k, run.steps[n]) then Replayed else Refused(ResultIdConflict)
  {
    assert StepOk(run, n);
    var e := run.steps[n];
    UseLeavesItsMarker(run, n, k, e.resultId);
    var j := MarkerHasItsUse(run, n, e.resultId);
    ResultIdsAreUsedOnce(run, j, k);
    var first := run.steps[k];
    assert SlotOf(first) == SlotOf(e) && ParseVerdict(first.verdict) == ParseVerdict(e.verdict)
           <==> IsSameAnswer(run, k, e);
  }

  /** One under a new ID is refused for a settled case, for a share that is answered, and for a
      token other than that of the claim that holds the share for less than 30 s, in this
      order, and nothing changes; otherwise it is accepted. */
  lemma NewIdIsAnsweredExactly(run: Run, n: nat)
    requires Legal(run) && n < |run.steps| && run.steps[n].Submit? && IsReadable(run.worlds[n].state, run.steps[n])
    requires forall k :: 0 <= k < n ==> !Used(run, k, run.steps[n].resultId)
    ensures var e, s, reply := run.steps[n], run.worlds[n].state, run.replies[n];
            && reply == (if s.cases[e.caseId].status != Pending then Refused(AlreadyResolved)
                         else if SlotOf(e) in s.results then Refused(ResultConflict)
                         else if !HoldsIt(run, n, e) then Refused(StaleLease)
                         else if e.verdict == "error" then Requeued
                         else if e.verdict == "found" then FoundInternal
                         else Recorded)
            && (reply.Refused? ==> run.worlds[n + 1].state == s)
  {
    assert StepOk(run, n);
    var e, s := run.steps[n], run.worlds[n].state;
    if e.resultId in s.markers {
      var k := MarkerHasItsUse(run, n, e.resultId);
    }
    LeaseMeansHolding(run, n, e);
    SubmissionReply(s, e);
  }

  lemma SubmissionReply(s: State, e: Step)
    requires e.Submit? && IsReadable(s, e) && e.resultId !in s.markers
    ensures var x, out := SlotOf(e), Perform(s, e);
            && out.reply == (if s.cases[e.caseId].status != Pending then Refused(AlreadyResolved)
                             else if x in s.results then Refused(ResultConflict)
                             else if !(x in s.leases && s.leases[x].token == e.token && e.now < s.leases[x].expiresAt)
                             then Refused(StaleLease)
                             else if e.verdict == "error" then Requeued
                             else if e.verdict == "found" then FoundInternal
                             else Recorded)
            && (out.reply.Refused? ==> out.state == s)
  {
    AcceptReply(s, e.now, SlotOf(e), ParseVerdict(e.verdict).value, e.resultId);
  }
}
