/** The ownership store: the five scripts run step by step over the Redis keys they touch,
    each proved to compute the function that OwnershipProtocol gives for it. What those
    functions keep, over any run, is in the other Ownership modules. */
module OwnershipStore {
  import opened SortedSets
  import opened OwnershipProtocol
  import OwnershipInvariant

  class Store {
    var cases: map<CaseId, Case>
    var jobs: map<Slot, int>
    var leases: map<Slot, Lease>
    var results: map<Slot, Result>
    var markers: map<ResultId, Signature>
    var deadlines: map<CaseId, int>
    var byCycle: map<Digest, set<CaseId>>
    var receipts: map<ReceiptKey, Receipt>
    var events: map<EventId, EventMark>
    var checkErrors: nat

    ghost function View(): State
      reads this
    {
      State(cases, jobs, leases, results, markers, deadlines, byCycle, receipts, events, checkErrors)
    }

    constructor ()
      ensures View() == EMPTY
    {
      cases, jobs, leases, results, markers := map[], map[], map[], map[], map[];
      deadlines, byCycle, receipts, events, checkErrors := map[], map[], map[], map[], 0;
    }

    /** Queue one round of a case for every member. */
    method Enqueue(caseId: CaseId, round: Round, members: seq<Member>, due: int)
      modifies this`jobs
      ensures jobs == old(jobs) + QueuedAt(Slots(caseId, round, members), due)
    {
      for i := 0 to |members|
        invariant jobs == old(jobs) + QueuedAt(Slots(caseId, round, members[..i]), due)
      {
        jobs := jobs[Slot(caseId, round, members[i]) := due];
        assert members[..i + 1] == members[..i] + [members[i]];
        assert Slots(caseId, round, members[..i + 1])
            == Slots(caseId, round, members[..i]) + {Slot(caseId, round, members[i])};
      }
      assert members[..|members|] == members;
    }

    /** Take both rounds of a case out of every member's queue. */
    method Dequeue(caseId: CaseId, members: seq<Member>)
      modifies this`jobs
      ensures jobs == old(jobs) - AllSlots(caseId, members)
    {
      for i := 0 to |members|
        invariant jobs == old(jobs) - AllSlots(caseId, members[..i])
      {
        var both := {Slot(caseId, One, members[i]), Slot(caseId, Two, members[i])};
        jobs := jobs - both;
        assert members[..i + 1] == members[..i] + [members[i]];
        assert AllSlots(caseId, members[..i + 1]) == AllSlots(caseId, members[..i]) + both;
      }
      assert members[..|members|] == members;
    }

    method OpenCase(now: int, caseId: CaseId, cycle: Cycle, members: seq<Member>, creator: Option<Member>)
      returns (reply: Reply)
      modifies this
      ensures Outcome(View(), reply) == OwnershipProtocol.OpenCase(old(View()), now, caseId, cycle, members, creator)
    {
      if !ValidOpening(caseId, members, creator) {
        return Refused(BadRequest);
      }
      if caseId in cases {
        if cases[caseId].cycle != cycle || cases[caseId].members != members {
          return Refused(CaseConflict);
        }
        return AlreadyOpen;
      }
      WriteCase(now, caseId, cycle, members, creator);
      return Opened;
    }

    method HasTimelySuccess(now: int, cycle: Cycle) returns (born: bool)
      ensures born == BornInternal(View(), cycle, now)
    {
      born := false;
      var digest := DigestOf(cycle);
      if digest.Some? && OfCycle(digest.value) in receipts {
        var received := receipts[OfCycle(digest.value)].serverTime;
        born := received >= EntryMs(digest.value) && received <= now;
      }
    }

    method WriteCase(now: int, caseId: CaseId, cycle: Cycle, members: seq<Member>, creator: Option<Member>)
      modifies this
      ensures View() == if BornInternal(old(View()), cycle, now)
                        then OpenInternal(old(View()), now, caseId, cycle, members, creator)
                        else OpenPending(old(View()), now, caseId, cycle, members, creator)
    {
      var born := HasTimelySuccess(now, cycle);
      cases := cases[caseId := Case(cycle, members, creator, now, if born then Internal else Pending,
                                    if born then 1 else 0, 0, None)];
      var digest := DigestOf(cycle);
      if digest.Some? {
        var listed := if digest.value in byCycle then byCycle[digest.value] else {};
        byCycle := byCycle[digest.value := listed + {caseId}];
      }
      if !born {
        deadlines := deadlines[caseId := now + DEADLINE_MS];
        Enqueue(caseId, One, members, now);
      }
    }

    /** Look at one queued job: drop it if it is dead, leave it if it is leased, lease it
        otherwise. */
    method TryJob(now: int, slot: Slot, token: Token) returns (taken: bool)
      modifies this`jobs, this`leases
      ensures taken == !(DeadJob(old(View()), slot) || Leased(old(View()), slot, now))
      ensures View() == if taken then old(View()).(leases := old(leases)[slot := Lease(token, now + LEASE_MS)])
                        else if DeadJob(old(View()), slot) then old(View()).(jobs := old(jobs) - {slot})
                        else old(View())
    {
      taken := false;
      if slot.caseId !in cases || cases[slot.caseId].status != Pending || slot in results {
        jobs := jobs - {slot};
      } else if slot !in leases || leases[slot].expiresAt <= now {
        leases := leases[slot := Lease(token, now + LEASE_MS)];
        taken := true;
      }
    }

    method ClaimJob(now: int, member: Member, token: Token) returns (reply: Reply, ghost batch: seq<Slot>)
      modifies this`jobs, this`leases
      ensures IsRange(JobsOf(old(jobs), member), now, BATCH, batch)
      ensures Outcome(View(), reply) == OwnershipProtocol.ClaimJob(old(View()), now, token, batch)
    {
      ghost var before := View();
      var read := RangeByScore(JobsOf(jobs, member), now, BATCH);
      batch := read;
      for i := 0 to |read|
        invariant OwnershipProtocol.ClaimJob(View(), now, token, read[i..])
                  == OwnershipProtocol.ClaimJob(before, now, token, read)
      {
        assert read[i..][0] == read[i] && read[i..][1..] == read[i + 1..];
        var taken := TryJob(now, read[i], token);
        if taken {
          return Job(read[i], cases[read[i].caseId].cycle), batch;
        }
      }
      return NoJob, batch;
    }

    /** The script's own count of one round: has every member answered `absent`? */
    method AllAbsent(caseId: CaseId, round: Round, members: seq<Member>) returns (complete: bool)
      ensures complete <==> forall m :: m in members ==> AbsentAt(View(), Slot(caseId, round, m))
    {
      complete := true;
      for i := 0 to |members|
        invariant complete <==> forall m :: m in members[..i] ==> AbsentAt(View(), Slot(caseId, round, m))
      {
        var slot := Slot(caseId, round, members[i]);
        if slot !in results || results[slot].verdict != Absent {
          complete := false;
        }
        assert members[..i + 1] == members[..i] + [members[i]];
        assert members[i] in members[..i + 1];
      }
      assert members[..|members|] == members;
    }

    method SubmitResult(now: int, caseId: CaseId, member: Member, roundNo: int, verdict: string,
                        resultId: ResultId, token: Token) returns (reply: Reply)
      modifies this
      ensures Outcome(View(), reply)
              == OwnershipProtocol.SubmitResult(old(View()), now, caseId, member, roundNo, verdict, resultId, token)
    {
      if caseId !in cases {
        return Refused(UnknownCase);
      }
      if member !in cases[caseId].members {
        return Refused(NotAMember);
      }
      if roundNo != 1 && roundNo != 2 {
        return Refused(InvalidRound);
      }
      if verdict != "found" && verdict != "absent" && verdict != "error" {
        return Refused(InvalidVerdict);
      }
      var slot := Slot(caseId, if roundNo == 1 then One else Two, member);
      var v := if verdict == "found" then Found else if verdict == "absent" then Absent else CheckFailed;
      assert ParseRound(roundNo) == Some(slot.round) && ParseVerdict(verdict) == Some(v);
      reply := SubmitChecked(now, slot, v, resultId, token);
    }

    method SubmitChecked(now: int, slot: Slot, verdict: Verdict, resultId: ResultId, token: Token)
      returns (reply: Reply)
      requires slot.caseId in cases && slot.member in cases[slot.caseId].members
      modifies this
      ensures Outcome(View(), reply) == SubmitTo(old(View()), now, slot, verdict, resultId, token)
    {
      if resultId in markers {
        if markers[resultId] == Signature(slot, verdict) {
          return Replayed;
        }
        return Refused(ResultIdConflict);
      }
      if cases[slot.caseId].status != Pending {
        return Refused(AlreadyResolved);
      }
      if slot in results {
        return Refused(ResultConflict);
      }
      if slot !in leases || leases[slot].token != token || leases[slot].expiresAt <= now {
        return Refused(StaleLease);
      }
      markers := markers[resultId := Signature(slot, verdict)];
      leases := leases - {slot};
      assert View() == Marked(old(View()), slot, verdict, resultId);
      if verdict == CheckFailed {
        AcceptError(now, slot);
        return Requeued;
      }
      if verdict == Found {
        AcceptFound(slot, resultId);
        return FoundInternal;
      }
      AcceptAbsent(now, slot, resultId);
      return Recorded;
    }

    method AcceptError(now: int, slot: Slot)
      requires slot.caseId in cases
      modifies this`cases, this`checkErrors, this`jobs
      ensures View() == RecordError(old(View()), now, slot)
    {
      var c := cases[slot.caseId];
      cases := cases[slot.caseId := c.(checkErrors := c.checkErrors + 1)];
      checkErrors := checkErrors + 1;
      jobs := jobs[slot := now + RETRY_MS];
    }

    method AcceptFound(slot: Slot, resultId: ResultId)
      requires slot.caseId in cases && slot.member in cases[slot.caseId].members
      modifies this
      ensures View() == RecordFound(old(View()), slot, resultId)
    {
      results := results[slot := Result(resultId, Found)];
      jobs := jobs - {slot};
      var c := cases[slot.caseId];
      cases := cases[slot.caseId := c.(status := Internal, revision := c.revision + 1)];
      deadlines := deadlines - {slot.caseId};
      Dequeue(slot.caseId, c.members);
      AllSlotsHas(slot.caseId, c.members, slot);
      assert old(jobs) - {slot} - AllSlots(slot.caseId, c.members) == old(jobs) - AllSlots(slot.caseId, c.members);
    }

    method AcceptAbsent(now: int, slot: Slot, resultId: ResultId)
      requires slot.caseId in cases
      modifies this
      ensures View() == RecordAbsent(old(View()), now, slot, resultId)
    {
      results := results[slot := Result(resultId, Absent)];
      jobs := jobs - {slot};
      var c := cases[slot.caseId];
      var complete := AllAbsent(slot.caseId, slot.round, c.members);
      if complete {
        if slot.round == One {
          var due := if now + ROUND_GAP_MS >= c.createdAt + ROUND_TWO_DELAY_MS
                     then now + ROUND_GAP_MS else c.createdAt + ROUND_TWO_DELAY_MS;
          cases := cases[slot.caseId := c.(firstRoundAt := Some(now))];
          Enqueue(slot.caseId, Two, c.members, due);
        } else {
          cases := cases[slot.caseId := c.(status := External, revision := c.revision + 1)];
          deadlines := deadlines - {slot.caseId};
        }
      }
    }

    /** Settle a case, clear its deadline and empty the queues of it. */
    method Settle(caseId: CaseId, status: Status)
      requires caseId in cases
      modifies this`cases, this`deadlines, this`jobs
      ensures View() == SettleCase(old(View()), caseId, status)
    {
      var c := cases[caseId];
      cases := cases[caseId := c.(status := status, revision := c.revision + 1)];
      deadlines := deadlines - {caseId};
      Dequeue(caseId, c.members);
    }

    method ReapOne(caseId: CaseId) returns (settled: bool)
      modifies this`cases, this`deadlines, this`jobs
      ensures settled == IsPending(old(View()), caseId)
      ensures View() == ReapCase(old(View()), caseId)
    {
      settled := caseId in cases && cases[caseId].status == Pending;
      if settled {
        Settle(caseId, Unconfirmed);
      }
      deadlines := deadlines - {caseId};
      assert old(deadlines) - {caseId} - {caseId} == old(deadlines) - {caseId};
    }

    method ReapExpired(now: int) returns (reply: Reply, ghost batch: seq<CaseId>)
      modifies this`cases, this`deadlines, this`jobs
      ensures IsRange(old(deadlines), now, BATCH, batch)
      ensures Outcome(View(), reply) == OwnershipProtocol.ReapExpired(old(View()), batch)
    {
      ghost var before := View();
      var read := RangeByScore(deadlines, now, BATCH);
      batch := read;
      var count := 0;
      for i := 0 to |read|
        invariant ReapCases(before, read).0 == ReapCases(View(), read[i..]).0
        invariant ReapCases(before, read).1 == count + ReapCases(View(), read[i..]).1
      {
        assert read[i..][0] == read[i] && read[i..][1..] == read[i + 1..];
        var settled := ReapOne(read[i]);
        count := count + if settled then 1 else 0;
      }
      return Reaped(count), batch;
    }

    method RegisterSuccess(now: int, cycle: Cycle, eventId: EventId, member: Member) returns (reply: Reply)
      modifies this
      ensures Outcome(View(), reply) == OwnershipProtocol.RegisterSuccess(old(View()), now, cycle, eventId, member)
    {
      if eventId == "" || member == "" {
        return Refused(EmptyEvent);
      }
      var receiptKey := ReceiptKeyOf(cycle, eventId);
      if eventId in events {
        var mark := events[eventId];
        if mark.identity != IdentityOf(cycle) || mark.member != member || mark.receiptKey !in receipts {
          return Refused(SuccessConflict);
        }
        receiptKey := mark.receiptKey;
      } else {
        if receiptKey in receipts {
          return Refused(SuccessConflict);
        }
        receipts := receipts[receiptKey := Receipt(member, eventId, now, now + SUCCESS_TTL_MS)];
        events := events[eventId := EventMark(IdentityOf(cycle), member, receiptKey)];
      }
      CorrectLate(cycle, receipts[receiptKey]);
      return Registered(receipts[receiptKey]);
    }

    /** Walk the cases of the cycle, in any order, and make the overridden ones internal. */
    method CorrectLate(cycle: Cycle, receipt: Receipt)
      modifies this`cases, this`deadlines, this`jobs
      ensures View() == ApplyReceipt(old(View()), cycle, receipt)
    {
      var digest := DigestOf(cycle);
      if digest.None? || EntryMs(digest.value) <= 0 || receipt.serverTime < EntryMs(digest.value) {
        return;
      }
      var d := digest.value;
      ghost var before := View();
      ghost var hit := Corrigible(before, d);
      var rest := if d in byCycle then byCycle[d] else {};
      assert hit * rest == hit;
      while rest != {}
        invariant cases.Keys == before.cases.Keys
        invariant forall id :: id in rest && id in before.cases ==> cases[id] == before.cases[id]
        invariant CorrectCases(View(), hit * rest) == CorrectCases(before, hit)
        decreases rest
      {
        var id :| id in rest;
        if id in cases && cases[id].createdAt >= EntryMs(d) && cases[id].status != Internal {
          OwnershipInvariant.CorrectOneOf(View(), hit * rest, id);
          Settle(id, Internal);
          assert hit * (rest - {id}) == hit * rest - {id};
        } else {
          assert hit * (rest - {id}) == hit * rest;
        }
        rest := rest - {id};
      }
      assert hit * rest == {};
      OwnershipInvariant.CorrectNone(View());
    }
  }
}
