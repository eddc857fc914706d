/** What every reachable state of the ownership protocol satisfies, and the proof that
    each script keeps it. The invariant is stated case by case, so a script that works on
    one case leaves the others alone (Frame). */
module OwnershipInvariant {
  import opened SortedSets
  import opened OwnershipProtocol

  /** A history variable: how the result in a slot came about. */
  datatype Audit = Audit(token: Token, claimedAt: int, acceptedAt: int)

  /** A state with the time of the last step and the history of its results. */
  datatype World = World(state: State, clock: int, audit: map<Slot, Audit>)

  const ORIGIN: World := World(EMPTY, 0, map[])

  // ---------- The invariant of one case ----------

  /** `t` is late enough for round two: round one is complete, at least 15 s have passed
      since its last answer and at least 30 s since the case was opened. */
  predicate LateEnough(c: Case, t: int) {
    && c.firstRoundAt.Some?
    && c.firstRoundAt.value + ROUND_GAP_MS <= t
    && c.createdAt + ROUND_TWO_DELAY_MS <= t
  }

  /** The revision counts the verdicts given so far. */
  predicate RevisionFits(c: Case) {
    match c.status
    case Pending => c.revision == 0
    case External => c.revision == 1
    case Unconfirmed => c.revision == 1
    case Internal => 1 <= c.revision <= 2
  }

  predicate InSnapshot(s: State, slot: Slot) {
    slot.caseId in s.cases && slot.member in s.cases[slot.caseId].members
  }

  predicate RecordGood(w: World, id: CaseId)
    requires id in w.state.cases
  {
    var c := w.state.cases[id];
    && c.members != [] && NoDuplicates(c.members)
    && c.createdAt <= w.clock
    && RevisionFits(c)
    && (c.firstRoundAt.Some? ==> c.firstRoundAt.value <= w.clock)
  }

  predicate RoundsGood(s: State, id: CaseId)
    requires id in s.cases
  {
    var c := s.cases[id];
    && (c.firstRoundAt.Some? <==> RoundComplete(s, id, One))
    && (c.status == External ==> RoundComplete(s, id, Two))
    && (RoundComplete(s, id, Two) ==> RoundComplete(s, id, One) && c.status != Pending)
  }

  /** The deadlines hold exactly the pending cases, 24 h after they were opened. */
  predicate DeadlineGood(s: State, id: CaseId) {
    && (id in s.deadlines <==> IsPending(s, id))
    && (id in s.deadlines ==> s.deadlines[id] == s.cases[id].createdAt + DEADLINE_MS)
  }

  /** The work that is still to be done. */
  predicate Wanted(s: State, slot: Slot) {
    && IsPending(s, slot.caseId)
    && slot.member in s.cases[slot.caseId].members
    && slot !in s.results
    && (slot.round.Two? ==> RoundComplete(s, slot.caseId, One))
  }

  predicate JobGood(s: State, x: Slot) {
    && (x in s.jobs <==> Wanted(s, x))
    && (x in s.jobs && x.round.Two? ==> LateEnough(s.cases[x.caseId], s.jobs[x]))
  }

  predicate LeaseGood(s: State, clock: int, x: Slot) {
    x in s.leases ==>
      && InSnapshot(s, x)
      && x !in s.results
      && s.leases[x].expiresAt - LEASE_MS <= clock
      && (x.round.Two? ==> LateEnough(s.cases[x.caseId], s.leases[x].expiresAt - LEASE_MS))
  }

  predicate ResultGood(w: World, x: Slot) {
    var s := w.state;
    && (x in w.audit <==> x in s.results)
    && (x in s.results ==>
          && InSnapshot(s, x)
          && s.results[x].resultId in s.markers
          && s.markers[s.results[x].resultId] == Signature(x, s.results[x].verdict)
          && (s.results[x].verdict == Absent
              || (s.results[x].verdict == Found && s.cases[x.caseId].status == Internal))
          && w.audit[x].claimedAt <= w.audit[x].acceptedAt < w.audit[x].claimedAt + LEASE_MS
          && w.audit[x].acceptedAt <= w.clock
          && (x.round.One? && s.cases[x.caseId].firstRoundAt.Some? ==>
                w.audit[x].acceptedAt <= s.cases[x.caseId].firstRoundAt.value)
          && (x.round.Two? ==> LateEnough(s.cases[x.caseId], w.audit[x].claimedAt)))
  }

  /** Everything about one case but its slots. */
  predicate CaseGood(w: World, id: CaseId) {
    && (id in w.state.cases ==> RecordGood(w, id) && RoundsGood(w.state, id))
    && DeadlineGood(w.state, id)
  }

  /** Everything about one slot. */
  predicate SlotGood(w: World, x: Slot) {
    JobGood(w.state, x) && LeaseGood(w.state, w.clock, x) && ResultGood(w, x)
  }

  // ---------- The invariant between cases ----------

  ghost predicate MarkersGood(s: State) {
    forall i :: i in s.markers ==> InSnapshot(s, s.markers[i].slot)
  }

  /** The index of a cycle lists exactly its cases. */
  ghost predicate CyclesGood(s: State) {
    forall d, id :: id in CasesOf(s, d) <==> id in s.cases && DigestOf(s.cases[id].cycle) == Some(d)
  }

  ghost predicate EventsGood(s: State, clock: int) {
    && (forall k :: k in s.receipts ==>
          && s.receipts[k].serverTime <= clock
          && s.receipts[k].eventId in s.events
          && s.events[s.receipts[k].eventId].receiptKey == k)
    && (forall e :: e in s.events ==>
          && s.events[e].receiptKey in s.receipts
          && s.receipts[s.events[e].receiptKey].eventId == e
          && s.receipts[s.events[e].receiptKey].member == s.events[e].member
          && s.events[e].receiptKey == KeyOfIdentity(s.events[e].identity, e))
  }

  function KeyOfIdentity(identity: Identity, eventId: EventId): ReceiptKey {
    match identity.time
    case Normalised(time) => OfCycle(Digest(identity.leadCode, identity.recordId, time))
    case AsGiven(_) => OfEvent(eventId)
  }

  /** The case belongs to the cycle of the receipt, and both came at or after its entry
      time. An entry time at or before 1970 never counts. */
  predicate Overrides(receipt: Receipt, d: Digest, c: Case) {
    && DigestOf(c.cycle) == Some(d)
    && EntryMs(d) > 0
    && receipt.serverTime >= EntryMs(d)
    && c.createdAt >= EntryMs(d)
  }

  ghost predicate OverridesGood(s: State) {
    forall d, id :: OfCycle(d) in s.receipts && id in s.cases
                    && Overrides(s.receipts[OfCycle(d)], d, s.cases[id]) ==>
      s.cases[id].status == Internal
  }

  /** Everything but the override of cases by receipts. */
  ghost predicate Core(w: World) {
    && (forall id :: CaseGood(w, id))
    && (forall x :: SlotGood(w, x))
    && MarkersGood(w.state)
    && CyclesGood(w.state)
    && EventsGood(w.state, w.clock)
  }

  ghost predicate Inv(w: World) {
    Core(w) && OverridesGood(w.state)
  }

  // ---------- Framing ----------

  predicate SameAt<K(==), V(==)>(m: map<K, V>, m': map<K, V>, k: K) {
    (k in m <==> k in m') && (k in m ==> m[k] == m'[k])
  }

  /** A step from w to w' that leaves the case alone. */
  ghost predicate LeavesAlone(w: World, w': World, id: CaseId) {
    && w.clock <= w'.clock
    && SameAt(w.state.cases, w'.state.cases, id)
    && SameAt(w.state.deadlines, w'.state.deadlines, id)
    && (forall x: Slot {:trigger SameSlot(w, w', x)} :: x.caseId == id ==> SameSlot(w, w', x))
    && (forall i :: i in w.state.markers ==> SameAt(w.state.markers, w'.state.markers, i))
  }

  predicate SameSlot(w: World, w': World, x: Slot) {
    && SameAt(w.state.jobs, w'.state.jobs, x)
    && SameAt(w.state.leases, w'.state.leases, x)
    && SameAt(w.state.results, w'.state.results, x)
    && SameAt(w.audit, w'.audit, x)
  }

  lemma SameRounds(w: World, w': World, id: CaseId)
    requires LeavesAlone(w, w', id)
    ensures forall r :: RoundComplete(w'.state, id, r) == RoundComplete(w.state, id, r)
  {
    forall r ensures RoundComplete(w'.state, id, r) == RoundComplete(w.state, id, r) {
      if id in w.state.cases {
        forall m | m in w.state.cases[id].members
          ensures AbsentAt(w'.state, Slot(id, r, m)) == AbsentAt(w.state, Slot(id, r, m))
        {
          assert SameSlot(w, w', Slot(id, r, m));
        }
      }
    }
  }

  lemma FrameCase(w: World, w': World, id: CaseId)
    requires CaseGood(w, id) && LeavesAlone(w, w', id)
    ensures CaseGood(w', id)
  {
    SameRounds(w, w', id);
  }

  lemma FrameSlot(w: World, w': World, x: Slot)
    requires SlotGood(w, x) && LeavesAlone(w, w', x.caseId)
    ensures SlotGood(w', x)
  {
    SameRounds(w, w', x.caseId);
    assert SameSlot(w, w', x);
  }

  // ---------- How a case may change ----------

  /** The identity of a case is fixed; its verdict only moves from pending to anything,
      or from external or unconfirmed to internal; its revision counts the moves. */
  predicate Moves(c: Case, c': Case) {
    && c'.cycle == c.cycle && c'.members == c.members
    && c'.creator == c.creator && c'.createdAt == c.createdAt
    && (c'.status == c.status || c.status == Pending || (c.status != Internal && c'.status == Internal))
    && c'.revision == c.revision + (if c'.status == c.status then 0 else 1)
  }

  ghost predicate Advances(s: State, t: State) {
    && t.cases.Keys == s.cases.Keys
    && (forall id :: id in s.cases ==> Moves(s.cases[id], t.cases[id]))
    && t.byCycle == s.byCycle && t.receipts == s.receipts && t.events == s.events
  }

  lemma AdvancingKeepsIndexes(s: State, t: State, clock: int, clock': int)
    requires Advances(s, t) && clock <= clock'
    requires CyclesGood(s) && EventsGood(s, clock)
    ensures CyclesGood(t) && EventsGood(t, clock')
  {
    forall d, id ensures id in CasesOf(t, d) <==> id in t.cases && DigestOf(t.cases[id].cycle) == Some(d) {
      assert id in CasesOf(s, d) <==> id in s.cases && DigestOf(s.cases[id].cycle) == Some(d);
    }
  }

  lemma AdvancingKeepsOverrides(s: State, t: State)
    requires Advances(s, t) && OverridesGood(s)
    ensures OverridesGood(t)
  {
    forall d, id | OfCycle(d) in t.receipts && id in t.cases && Overrides(t.receipts[OfCycle(d)], d, t.cases[id])
      ensures t.cases[id].status == Internal
    {
      assert Moves(s.cases[id], t.cases[id]);
      assert Overrides(s.receipts[OfCycle(d)], d, s.cases[id]);
    }
  }

  /** A step that touches one existing case only. */
  ghost predicate StaysWithin(w: World, w': World, caseId: CaseId) {
    && w.clock <= w'.clock
    && Advances(w.state, w'.state)
    && (forall id :: id != caseId ==> LeavesAlone(w, w', id))
    && MarkersGood(w'.state)
  }

  /** Such a step keeps the invariant if it leaves that case good. */
  lemma OneCaseStep(w: World, w': World, caseId: CaseId)
    requires Core(w) && StaysWithin(w, w', caseId)
    requires CaseGood(w', caseId)
    requires forall x: Slot {:trigger SlotGood(w', x)} :: x.caseId == caseId ==> SlotGood(w', x)
    ensures Core(w')
    ensures OverridesGood(w.state) ==> OverridesGood(w'.state)
  {
    AdvancingKeepsIndexes(w.state, w'.state, w.clock, w'.clock);
    if OverridesGood(w.state) {
      AdvancingKeepsOverrides(w.state, w'.state);
    }
    forall id ensures CaseGood(w', id) {
      if id != caseId {
        FrameCase(w, w', id);
      }
    }
    forall x: Slot ensures SlotGood(w', x) {
      if x.caseId != caseId {
        FrameSlot(w, w', x);
      }
    }
  }

  // ---------- OPEN_CASE ----------

  lemma FreshCaseIsBlank(w: World, caseId: CaseId, x: Slot)
    requires Inv(w) && caseId !in w.state.cases && x.caseId == caseId
    ensures caseId !in w.state.deadlines
    ensures x !in w.state.jobs && x !in w.state.leases && x !in w.state.results && x !in w.audit
  {
    assert CaseGood(w, caseId) && SlotGood(w, x);
  }

  lemma OpenPendingSlot(w: World, now: int, caseId: CaseId, cycle: Cycle, members: seq<Member>,
                        creator: Option<Member>, x: Slot)
    requires Inv(w) && w.clock <= now && caseId !in w.state.cases && x.caseId == caseId
    requires ValidOpening(caseId, members, creator)
    ensures SlotGood(World(OpenPending(w.state, now, caseId, cycle, members, creator), now, w.audit), x)
  {
    var t := OpenPending(w.state, now, caseId, cycle, members, creator);
    FreshCaseIsBlank(w, caseId, x);
    var first := Slot(caseId, One, members[0]);
    FreshCaseIsBlank(w, caseId, first);
    assert members[0] in members && !AbsentAt(t, first);
    assert x in Slots(caseId, One, members) <==> x.round == One && x.member in members;
  }

  lemma OpenPendingRecord(w: World, now: int, caseId: CaseId, cycle: Cycle, members: seq<Member>,
                          creator: Option<Member>)
    requires Inv(w) && w.clock <= now && caseId !in w.state.cases
    requires ValidOpening(caseId, members, creator)
    ensures CaseGood(World(OpenPending(w.state, now, caseId, cycle, members, creator), now, w.audit), caseId)
  {
    var t := OpenPending(w.state, now, caseId, cycle, members, creator);
    assert members[0] in members;
    FreshCaseIsBlank(w, caseId, Slot(caseId, One, members[0]));
    FreshCaseIsBlank(w, caseId, Slot(caseId, Two, members[0]));
    assert !AbsentAt(t, Slot(caseId, One, members[0])) && !AbsentAt(t, Slot(caseId, Two, members[0]));
  }

  lemma OpenPendingAlone(w: World, now: int, caseId: CaseId, cycle: Cycle, members: seq<Member>,
                         creator: Option<Member>, id: CaseId)
    requires w.clock <= now && id != caseId
    ensures LeavesAlone(w, World(OpenPending(w.state, now, caseId, cycle, members, creator), now, w.audit), id)
  {
  }

  lemma IndexedGood(s: State, t: State, caseId: CaseId, c: Case)
    requires CyclesGood(s) && caseId !in s.cases
    requires t.cases == s.cases[caseId := c] && t.byCycle == Indexed(s, c.cycle, caseId)
    ensures CyclesGood(t)
  {
    forall d, id ensures id in CasesOf(t, d) <==> id in t.cases && DigestOf(t.cases[id].cycle) == Some(d) {
      assert id in CasesOf(s, d) <==> id in s.cases && DigestOf(s.cases[id].cycle) == Some(d);
    }
  }

  lemma NewCaseStep(w: World, w': World, caseId: CaseId)
    requires Inv(w) && w.clock <= w'.clock && caseId !in w.state.cases
    requires caseId in w'.state.cases
    requires w'.state.cases == w.state.cases[caseId := w'.state.cases[caseId]]
    requires w'.state.byCycle == Indexed(w.state, w'.state.cases[caseId].cycle, caseId)
    requires w'.state.receipts == w.state.receipts && w'.state.events == w.state.events
    requires w'.state.markers == w.state.markers
    requires forall id :: id != caseId ==> LeavesAlone(w, w', id)
    requires CaseGood(w', caseId)
    requires forall x: Slot {:trigger SlotGood(w', x)} :: x.caseId == caseId ==> SlotGood(w', x)
    requires forall d :: OfCycle(d) in w.state.receipts
                         && Overrides(w.state.receipts[OfCycle(d)], d, w'.state.cases[caseId]) ==>
               w'.state.cases[caseId].status == Internal
    ensures Inv(w')
  {
    forall id ensures CaseGood(w', id) {
      if id != caseId {
        FrameCase(w, w', id);
      }
    }
    forall x: Slot ensures SlotGood(w', x) {
      if x.caseId != caseId {
        FrameSlot(w, w', x);
      }
    }
    IndexedGood(w.state, w'.state, caseId, w'.state.cases[caseId]);
  }

  lemma OpenPendingKeeps(w: World, now: int, caseId: CaseId, cycle: Cycle, members: seq<Member>,
                         creator: Option<Member>)
    requires Inv(w) && w.clock <= now && caseId !in w.state.cases
    requires ValidOpening(caseId, members, creator) && !BornInternal(w.state, cycle, now)
    ensures Inv(World(OpenPending(w.state, now, caseId, cycle, members, creator), now, w.audit))
  {
    var w' := World(OpenPending(w.state, now, caseId, cycle, members, creator), now, w.audit);
    forall id | id != caseId ensures LeavesAlone(w, w', id) {
      OpenPendingAlone(w, now, caseId, cycle, members, creator, id);
    }
    OpenPendingRecord(w, now, caseId, cycle, members, creator);
    forall x: Slot | x.caseId == caseId ensures SlotGood(w', x) {
      OpenPendingSlot(w, now, caseId, cycle, members, creator, x);
    }
    NewCaseStep(w, w', caseId);
  }

  lemma OpenInternalGood(w: World, now: int, caseId: CaseId, cycle: Cycle, members: seq<Member>,
                         creator: Option<Member>, x: Slot)
    requires Inv(w) && w.clock <= now && caseId !in w.state.cases && x.caseId == caseId
    requires ValidOpening(caseId, members, creator)
    ensures CaseGood(World(OpenInternal(w.state, now, caseId, cycle, members, creator), now, w.audit), caseId)
    ensures SlotGood(World(OpenInternal(w.state, now, caseId, cycle, members, creator), now, w.audit), x)
  {
    var t := OpenInternal(w.state, now, caseId, cycle, members, creator);
    FreshCaseIsBlank(w, caseId, x);
    assert members[0] in members;
    FreshCaseIsBlank(w, caseId, Slot(caseId, One, members[0]));
    FreshCaseIsBlank(w, caseId, Slot(caseId, Two, members[0]));
    assert !AbsentAt(t, Slot(caseId, One, members[0])) && !AbsentAt(t, Slot(caseId, Two, members[0]));
  }

  lemma OpenInternalKeeps(w: World, now: int, caseId: CaseId, cycle: Cycle, members: seq<Member>,
                          creator: Option<Member>)
    requires Inv(w) && w.clock <= now && caseId !in w.state.cases
    requires ValidOpening(caseId, members, creator)
    ensures Inv(World(OpenInternal(w.state, now, caseId, cycle, members, creator), now, w.audit))
  {
    var w' := World(OpenInternal(w.state, now, caseId, cycle, members, creator), now, w.audit);
    forall x: Slot | x.caseId == caseId ensures SlotGood(w', x) {
      OpenInternalGood(w, now, caseId, cycle, members, creator, x);
    }
    OpenInternalGood(w, now, caseId, cycle, members, creator, Slot(caseId, One, members[0]));
    NewCaseStep(w, w', caseId);
  }

  lemma LaterClock(w: World, now: int)
    requires Core(w) && w.clock <= now
    ensures Core(w.(clock := now))
  {
    var w' := w.(clock := now);
    forall id ensures LeavesAlone(w, w', id) {
    }
    forall id ensures CaseGood(w', id) {
      FrameCase(w, w', id);
    }
    forall x: Slot ensures SlotGood(w', x) {
      FrameSlot(w, w', x);
    }
  }

  lemma OpenCaseKeeps(w: World, now: int, caseId: CaseId, cycle: Cycle, members: seq<Member>, creator: Option<Member>)
    requires Inv(w) && w.clock <= now
    ensures Inv(World(OpenCase(w.state, now, caseId, cycle, members, creator).state, now, w.audit))
  {
    if ValidOpening(caseId, members, creator) && caseId !in w.state.cases {
      if BornInternal(w.state, cycle, now) {
        OpenInternalKeeps(w, now, caseId, cycle, members, creator);
      } else {
        OpenPendingKeeps(w, now, caseId, cycle, members, creator);
      }
    } else {
      LaterClock(w, now);
    }
  }

  // ---------- CLAIM_JOB ----------

  /** The script gave out job number i of the batch, every earlier one being leased. */
  predicate GivesOut(s: State, now: int, token: Token, batch: seq<Slot>, i: int, out: Outcome) {
    && 0 <= i < |batch| && batch[i].caseId in s.cases
    && !Leased(s, batch[i], now)
    && (forall j :: 0 <= j < i ==> Leased(s, batch[j], now))
    && out.state == s.(leases := s.leases[batch[i] := Lease(token, now + LEASE_MS)])
    && out.reply == Job(batch[i], s.cases[batch[i].caseId].cycle)
  }

  /** When no job in the batch is dead, the script leases the first one that nobody holds,
      and otherwise changes nothing. */
  lemma {:induction false} ClaimTakesFirstFree(s: State, now: int, token: Token, batch: seq<Slot>)
    requires forall x :: x in batch ==> !DeadJob(s, x)
    ensures var out := ClaimJob(s, now, token, batch);
      || (out == Outcome(s, NoJob) && forall x :: x in batch ==> Leased(s, x, now))
      || exists i :: GivesOut(s, now, token, batch, i, out)
  {
    if batch == [] {
    } else {
      var out := ClaimJob(s, now, token, batch);
      assert !DeadJob(s, batch[0]);
      if Leased(s, batch[0], now) {
        var rest := batch[1..];
        ClaimTakesFirstFree(s, now, token, rest);
        if out != Outcome(s, NoJob) {
          var i :| GivesOut(s, now, token, rest, i, out);
          forall j | 0 <= j < i + 1 ensures Leased(s, batch[j], now) {
            assert j > 0 ==> batch[j] == rest[j - 1];
          }
          assert GivesOut(s, now, token, batch, i + 1, out);
        }
      } else {
        assert GivesOut(s, now, token, batch, 0, out);
      }
    }
  }

  /** A queue never holds a dead job, so CLAIM_JOB never has one to drop. */
  lemma QueuedJobsAreAlive(w: World, x: Slot)
    requires Inv(w) && x in w.state.jobs
    ensures !DeadJob(w.state, x)
  {
    assert SlotGood(w, x);
  }

  function WithLease(w: World, now: int, token: Token, x: Slot): World {
    World(w.state.(leases := w.state.leases[x := Lease(token, now + LEASE_MS)]), now, w.audit)
  }

  lemma LeaseRounds(w: World, now: int, token: Token, x: Slot, id: CaseId)
    ensures forall r :: RoundComplete(WithLease(w, now, token, x).state, id, r) == RoundComplete(w.state, id, r)
  {
  }

  lemma LeaseSlot(w: World, now: int, token: Token, x: Slot, y: Slot)
    requires w.clock <= now && SlotGood(w, x) && SlotGood(w, y)
    requires x in w.state.jobs && w.state.jobs[x] <= now
    ensures SlotGood(WithLease(w, now, token, x), y)
  {
    LeaseRounds(w, now, token, x, y.caseId);
    LeaseRounds(w, now, token, x, x.caseId);
  }

  lemma LeaseWithin(w: World, now: int, token: Token, x: Slot)
    requires w.clock <= now && MarkersGood(w.state)
    ensures StaysWithin(w, WithLease(w, now, token, x), x.caseId)
  {
  }

  lemma LeaseKeeps(w: World, now: int, token: Token, x: Slot)
    requires Inv(w) && w.clock <= now
    requires x in w.state.jobs && w.state.jobs[x] <= now
    ensures Inv(WithLease(w, now, token, x))
  {
    var w' := WithLease(w, now, token, x);
    LeaseWithin(w, now, token, x);
    assert CaseGood(w', x.caseId) by {
      assert CaseGood(w, x.caseId) && SlotGood(w, x);
      LeaseRounds(w, now, token, x, x.caseId);
    }
    forall y: Slot | y.caseId == x.caseId ensures SlotGood(w', y) {
      assert SlotGood(w, x) && SlotGood(w, y);
      LeaseSlot(w, now, token, x, y);
    }
    OneCaseStep(w, w', x.caseId);
  }

  lemma ClaimJobKeeps(w: World, now: int, member: Member, token: Token, batch: seq<Slot>)
    requires Inv(w) && w.clock <= now
    requires IsRange(JobsOf(w.state.jobs, member), now, BATCH, batch)
    ensures Inv(World(ClaimJob(w.state, now, token, batch).state, now, w.audit))
  {
    forall x | x in batch ensures x in w.state.jobs && w.state.jobs[x] <= now && !DeadJob(w.state, x) {
      assert x in JobsOf(w.state.jobs, member);
      QueuedJobsAreAlive(w, x);
    }
    ClaimTakesFirstFree(w.state, now, token, batch);
    var out := ClaimJob(w.state, now, token, batch);
    if out.reply.Job? {
      LeaseKeeps(w, now, token, out.reply.slot);
    } else {
      LaterClock(w, now);
    }
  }

  // ---------- SUBMIT_RESULT ----------

  /** The checks a submission passes before it is accepted. */
  predicate Acceptable(s: State, now: int, slot: Slot, resultId: ResultId) {
    && InSnapshot(s, slot) && IsPending(s, slot.caseId)
    && resultId !in s.markers && slot !in s.results
    && slot in s.leases && s.leases[slot].expiresAt > now
  }

  /** The history gains one entry per stored result. */
  function Audited(w: World, now: int, slot: Slot): map<Slot, Audit>
    requires slot in w.state.leases
  {
    w.audit[slot := Audit(w.state.leases[slot].token, w.state.leases[slot].expiresAt - LEASE_MS, now)]
  }

  function AfterError(w: World, now: int, slot: Slot, resultId: ResultId): World
    requires slot.caseId in w.state.cases
  {
    World(RecordError(Marked(w.state, slot, CheckFailed, resultId), now, slot), now, w.audit)
  }

  lemma ErrorRounds(w: World, now: int, slot: Slot, resultId: ResultId, id: CaseId)
    requires slot.caseId in w.state.cases
    ensures forall r :: RoundComplete(AfterError(w, now, slot, resultId).state, id, r) == RoundComplete(w.state, id, r)
  {
  }

  lemma ErrorAlone(w: World, now: int, slot: Slot, resultId: ResultId, id: CaseId)
    requires w.clock <= now && Acceptable(w.state, now, slot, resultId) && id != slot.caseId
    ensures LeavesAlone(w, AfterError(w, now, slot, resultId), id)
  {
  }

  lemma ErrorWithin(w: World, now: int, slot: Slot, resultId: ResultId)
    requires w.clock <= now && MarkersGood(w.state) && Acceptable(w.state, now, slot, resultId)
    ensures StaysWithin(w, AfterError(w, now, slot, resultId), slot.caseId)
  {
    var w' := AfterError(w, now, slot, resultId);
    forall id | id != slot.caseId ensures LeavesAlone(w, w', id) {
      ErrorAlone(w, now, slot, resultId, id);
    }
  }

  lemma ErrorCase(w: World, now: int, slot: Slot, resultId: ResultId)
    requires w.clock <= now && CaseGood(w, slot.caseId)
    requires Acceptable(w.state, now, slot, resultId)
    ensures CaseGood(AfterError(w, now, slot, resultId), slot.caseId)
  {
    ErrorRounds(w, now, slot, resultId, slot.caseId);
  }

  lemma ErrorSlot(w: World, now: int, slot: Slot, resultId: ResultId, x: Slot)
    requires w.clock <= now && SlotGood(w, x) && SlotGood(w, slot) && CaseGood(w, slot.caseId)
    requires Acceptable(w.state, now, slot, resultId) && x.caseId == slot.caseId
    ensures SlotGood(AfterError(w, now, slot, resultId), x)
  {
    ErrorRounds(w, now, slot, resultId, x.caseId);
  }

  lemma ErrorKeeps(w: World, now: int, slot: Slot, resultId: ResultId)
    requires Inv(w) && w.clock <= now
    requires Acceptable(w.state, now, slot, resultId)
    ensures Inv(AfterError(w, now, slot, resultId))
  {
    var w' := AfterError(w, now, slot, resultId);
    assert CaseGood(w, slot.caseId) && SlotGood(w, slot);
    ErrorWithin(w, now, slot, resultId);
    ErrorCase(w, now, slot, resultId);
    forall x: Slot | x.caseId == slot.caseId ensures SlotGood(w', x) {
      assert SlotGood(w, x);
      ErrorSlot(w, now, slot, resultId, x);
    }
    OneCaseStep(w, w', slot.caseId);
  }

  function AfterFound(w: World, now: int, slot: Slot, resultId: ResultId): World
    requires slot.caseId in w.state.cases && slot in w.state.leases
  {
    World(RecordFound(Marked(w.state, slot, Found, resultId), slot, resultId), now, Audited(w, now, slot))
  }

  lemma FoundRounds(w: World, now: int, slot: Slot, resultId: ResultId)
    requires Acceptable(w.state, now, slot, resultId)
    ensures forall r :: RoundComplete(AfterFound(w, now, slot, resultId).state, slot.caseId, r)
                        == RoundComplete(w.state, slot.caseId, r)
  {
    var t := AfterFound(w, now, slot, resultId).state;
    assert !AbsentAt(w.state, slot) && !AbsentAt(t, slot);
    forall r ensures RoundComplete(t, slot.caseId, r) == RoundComplete(w.state, slot.caseId, r) {
      forall m | m in w.state.cases[slot.caseId].members
        ensures AbsentAt(t, Slot(slot.caseId, r, m)) == AbsentAt(w.state, Slot(slot.caseId, r, m))
      {
      }
    }
  }

  lemma FoundAlone(w: World, now: int, slot: Slot, resultId: ResultId, id: CaseId)
    requires w.clock <= now && Acceptable(w.state, now, slot, resultId) && id != slot.caseId
    ensures LeavesAlone(w, AfterFound(w, now, slot, resultId), id)
  {
  }

  lemma FoundWithin(w: World, now: int, slot: Slot, resultId: ResultId)
    requires w.clock <= now && MarkersGood(w.state) && Acceptable(w.state, now, slot, resultId)
    ensures StaysWithin(w, AfterFound(w, now, slot, resultId), slot.caseId)
  {
    var w' := AfterFound(w, now, slot, resultId);
    forall id | id != slot.caseId ensures LeavesAlone(w, w', id) {
      FoundAlone(w, now, slot, resultId, id);
    }
  }

  lemma FoundCase(w: World, now: int, slot: Slot, resultId: ResultId)
    requires w.clock <= now && CaseGood(w, slot.caseId)
    requires Acceptable(w.state, now, slot, resultId)
    ensures CaseGood(AfterFound(w, now, slot, resultId), slot.caseId)
  {
    FoundRounds(w, now, slot, resultId);
  }

  lemma FoundSlot(w: World, now: int, slot: Slot, resultId: ResultId, x: Slot)
    requires w.clock <= now && SlotGood(w, x) && SlotGood(w, slot) && CaseGood(w, slot.caseId)
    requires Acceptable(w.state, now, slot, resultId) && x.caseId == slot.caseId
    ensures SlotGood(AfterFound(w, now, slot, resultId), x)
  {
    FoundRounds(w, now, slot, resultId);
    var c := w.state.cases[slot.caseId];
    AllSlotsHas(slot.caseId, c.members, x);
  }

  lemma FoundKeeps(w: World, now: int, slot: Slot, resultId: ResultId)
    requires Inv(w) && w.clock <= now
    requires Acceptable(w.state, now, slot, resultId)
    ensures Inv(AfterFound(w, now, slot, resultId))
  {
    var w' := AfterFound(w, now, slot, resultId);
    assert CaseGood(w, slot.caseId) && SlotGood(w, slot);
    FoundWithin(w, now, slot, resultId);
    FoundCase(w, now, slot, resultId);
    forall x: Slot | x.caseId == slot.caseId ensures SlotGood(w', x) {
      assert SlotGood(w, x);
      FoundSlot(w, now, slot, resultId, x);
    }
    OneCaseStep(w, w', slot.caseId);
  }

  function AfterAbsent(w: World, now: int, slot: Slot, resultId: ResultId): World
    requires slot.caseId in w.state.cases && slot in w.state.leases
  {
    World(RecordAbsent(Marked(w.state, slot, Absent, resultId), now, slot, resultId), now, Audited(w, now, slot))
  }

  /** Only the round of the answer can become complete, and it was not complete before. */
  lemma AbsentRounds(w: World, now: int, slot: Slot, resultId: ResultId)
    requires Acceptable(w.state, now, slot, resultId)
    ensures !RoundComplete(w.state, slot.caseId, slot.round)
    ensures forall r :: r != slot.round ==>
              RoundComplete(AfterAbsent(w, now, slot, resultId).state, slot.caseId, r)
              == RoundComplete(w.state, slot.caseId, r)
  {
    var t := AfterAbsent(w, now, slot, resultId).state;
    assert !AbsentAt(w.state, slot);
    forall r | r != slot.round
      ensures RoundComplete(t, slot.caseId, r) == RoundComplete(w.state, slot.caseId, r)
    {
      forall m | m in w.state.cases[slot.caseId].members
        ensures AbsentAt(t, Slot(slot.caseId, r, m)) == AbsentAt(w.state, Slot(slot.caseId, r, m))
      {
      }
    }
  }

  predicate CompletesRound(w: World, now: int, slot: Slot, resultId: ResultId)
    requires slot.caseId in w.state.cases && slot in w.state.leases
  {
    RoundComplete(AfterAbsent(w, now, slot, resultId).state, slot.caseId, slot.round)
  }

  /** The script's own test of completeness, made before it writes the case. */
  lemma CompletesRoundEarly(w: World, now: int, slot: Slot, resultId: ResultId)
    requires Acceptable(w.state, now, slot, resultId)
    ensures CompletesRound(w, now, slot, resultId) <==>
            RoundComplete(w.state.(results := w.state.results[slot := Result(resultId, Absent)]), slot.caseId,
                          slot.round)
  {
    var noted := w.state.(results := w.state.results[slot := Result(resultId, Absent)]);
    var t := AfterAbsent(w, now, slot, resultId).state;
    forall m | m in w.state.cases[slot.caseId].members
      ensures AbsentAt(t, Slot(slot.caseId, slot.round, m)) == AbsentAt(noted, Slot(slot.caseId, slot.round, m))
    {
    }
  }

  lemma AbsentJobs(w: World, now: int, slot: Slot, resultId: ResultId, x: Slot)
    requires Acceptable(w.state, now, slot, resultId) && x.caseId != slot.caseId
    ensures SameAt(w.state.jobs, AfterAbsent(w, now, slot, resultId).state.jobs, x)
  {
  }

  lemma AbsentMoves(w: World, now: int, slot: Slot, resultId: ResultId)
    requires Acceptable(w.state, now, slot, resultId)
    ensures var t := AfterAbsent(w, now, slot, resultId).state;
            Moves(w.state.cases[slot.caseId], t.cases[slot.caseId])
  {
  }

  lemma AbsentElsewhere(w: World, now: int, slot: Slot, resultId: ResultId, id: CaseId)
    requires Acceptable(w.state, now, slot, resultId) && id != slot.caseId
    ensures SameAt(w.state.cases, AfterAbsent(w, now, slot, resultId).state.cases, id)
    ensures SameAt(w.state.deadlines, AfterAbsent(w, now, slot, resultId).state.deadlines, id)
  {
  }

  lemma AbsentAlone(w: World, w': World, now: int, slot: Slot, resultId: ResultId, id: CaseId)
    requires w.clock <= now && Acceptable(w.state, now, slot, resultId) && id != slot.caseId
    requires w' == AfterAbsent(w, now, slot, resultId)
    ensures LeavesAlone(w, w', id)
  {
    AbsentElsewhere(w, now, slot, resultId, id);
    forall x: Slot | x.caseId == id ensures SameSlot(w, w', x) {
      AbsentJobs(w, now, slot, resultId, x);
    }
  }

  lemma AbsentWithin(w: World, now: int, slot: Slot, resultId: ResultId)
    requires w.clock <= now && MarkersGood(w.state) && Acceptable(w.state, now, slot, resultId)
    ensures StaysWithin(w, AfterAbsent(w, now, slot, resultId), slot.caseId)
  {
    var w' := AfterAbsent(w, now, slot, resultId);
    forall id | id != slot.caseId ensures LeavesAlone(w, w', id) {
      AbsentAlone(w, w', now, slot, resultId, id);
    }
    AbsentMoves(w, now, slot, resultId);
    forall id ensures id in w.state.cases <==> id in w'.state.cases {
      if id != slot.caseId {
        AbsentElsewhere(w, now, slot, resultId, id);
      }
    }
    assert w'.state.cases.Keys == w.state.cases.Keys;
    forall id | id in w.state.cases ensures Moves(w.state.cases[id], w'.state.cases[id]) {
      if id != slot.caseId {
        AbsentElsewhere(w, now, slot, resultId, id);
      }
    }
    forall i | i in w'.state.markers ensures InSnapshot(w'.state, w'.state.markers[i].slot) {
      if i != resultId {
        var id := w.state.markers[i].slot.caseId;
        assert Moves(w.state.cases[id], w'.state.cases[id]);
      }
    }
  }

  lemma AbsentCase(w: World, now: int, slot: Slot, resultId: ResultId)
    requires w.clock <= now && CaseGood(w, slot.caseId) && SlotGood(w, slot)
    requires Acceptable(w.state, now, slot, resultId)
    ensures CaseGood(AfterAbsent(w, now, slot, resultId), slot.caseId)
  {
    AbsentRounds(w, now, slot, resultId);
    CompletesRoundEarly(w, now, slot, resultId);
  }

  lemma AbsentJob(w: World, now: int, slot: Slot, resultId: ResultId, x: Slot)
    requires w.clock <= now && SlotGood(w, x) && SlotGood(w, slot) && CaseGood(w, slot.caseId)
    requires Acceptable(w.state, now, slot, resultId) && x.caseId == slot.caseId
    ensures JobGood(AfterAbsent(w, now, slot, resultId).state, x)
  {
    AbsentRounds(w, now, slot, resultId);
    CompletesRoundEarly(w, now, slot, resultId);
    var c := w.state.cases[slot.caseId];
    assert x in Slots(slot.caseId, Two, c.members) <==> x.round == Two && x.member in c.members;
  }

  lemma AbsentSlot(w: World, now: int, slot: Slot, resultId: ResultId, x: Slot)
    requires w.clock <= now && SlotGood(w, x) && SlotGood(w, slot) && CaseGood(w, slot.caseId)
    requires Acceptable(w.state, now, slot, resultId) && x.caseId == slot.caseId
    ensures SlotGood(AfterAbsent(w, now, slot, resultId), x)
  {
    AbsentJob(w, now, slot, resultId, x);
    AbsentRounds(w, now, slot, resultId);
    CompletesRoundEarly(w, now, slot, resultId);
  }

  lemma AbsentKeeps(w: World, now: int, slot: Slot, resultId: ResultId)
    requires Inv(w) && w.clock <= now
    requires Acceptable(w.state, now, slot, resultId)
    ensures Inv(AfterAbsent(w, now, slot, resultId))
  {
    var w' := AfterAbsent(w, now, slot, resultId);
    assert CaseGood(w, slot.caseId) && SlotGood(w, slot);
    AbsentWithin(w, now, slot, resultId);
    AbsentCase(w, now, slot, resultId);
    forall x: Slot | x.caseId == slot.caseId ensures SlotGood(w', x) {
      assert SlotGood(w, x);
      AbsentSlot(w, now, slot, resultId, x);
    }
    OneCaseStep(w, w', slot.caseId);
  }

  lemma AcceptResultKeeps(w: World, now: int, slot: Slot, verdict: Verdict, resultId: ResultId)
    requires Inv(w) && w.clock <= now
    requires Acceptable(w.state, now, slot, resultId)
    ensures Inv(World(AcceptResult(w.state, now, slot, verdict, resultId).state, now,
                      if verdict.CheckFailed? then w.audit else Audited(w, now, slot)))
  {
    match verdict
    case CheckFailed => ErrorKeeps(w, now, slot, resultId);
    case Found => FoundKeeps(w, now, slot, resultId);
    case Absent => AbsentKeeps(w, now, slot, resultId);
  }

  // ---------- Settling one case: REAP_EXPIRED and REGISTER_SUCCESS ----------

  function AfterSettling(w: World, now: int, id: CaseId, status: Status): World
    requires id in w.state.cases
  {
    World(SettleCase(w.state, id, status), now, w.audit)
  }

  /** The verdicts these two scripts give. */
  predicate MaySettle(c: Case, status: Status) {
    (status == Unconfirmed && c.status == Pending) || (status == Internal && c.status != Internal)
  }

  lemma SettledCase(w: World, now: int, id: CaseId, status: Status)
    requires id in w.state.cases && CaseGood(w, id) && w.clock <= now
    requires MaySettle(w.state.cases[id], status)
    ensures CaseGood(AfterSettling(w, now, id, status), id)
    ensures forall r :: RoundComplete(AfterSettling(w, now, id, status).state, id, r) == RoundComplete(w.state, id, r)
  {
  }

  lemma SettledSlot(w: World, now: int, id: CaseId, status: Status, x: Slot)
    requires id in w.state.cases && CaseGood(w, id) && SlotGood(w, x) && w.clock <= now
    requires MaySettle(w.state.cases[id], status) && x.caseId == id
    ensures SlotGood(AfterSettling(w, now, id, status), x)
  {
    SettledCase(w, now, id, status);
    AllSlotsHas(id, w.state.cases[id].members, x);
  }

  lemma SettledAlone(w: World, now: int, id: CaseId, status: Status, other: CaseId)
    requires id in w.state.cases && w.clock <= now && other != id
    ensures LeavesAlone(w, AfterSettling(w, now, id, status), other)
  {
  }

  lemma SettledWithin(w: World, now: int, id: CaseId, status: Status)
    requires id in w.state.cases && w.clock <= now && MarkersGood(w.state)
    requires MaySettle(w.state.cases[id], status)
    ensures StaysWithin(w, AfterSettling(w, now, id, status), id)
  {
    var w' := AfterSettling(w, now, id, status);
    forall other | other != id ensures LeavesAlone(w, w', other) {
      SettledAlone(w, now, id, status, other);
    }
  }

  lemma SettlingKeeps(w: World, now: int, id: CaseId, status: Status)
    requires Core(w) && w.clock <= now && id in w.state.cases
    requires MaySettle(w.state.cases[id], status)
    ensures Core(AfterSettling(w, now, id, status))
    ensures OverridesGood(w.state) ==> OverridesGood(AfterSettling(w, now, id, status).state)
  {
    var w' := AfterSettling(w, now, id, status);
    assert CaseGood(w, id);
    SettledCase(w, now, id, status);
    SettledWithin(w, now, id, status);
    forall x: Slot | x.caseId == id ensures SlotGood(w', x) {
      assert SlotGood(w, x);
      SettledSlot(w, now, id, status, x);
    }
    OneCaseStep(w, w', id);
  }

  // ---------- REAP_EXPIRED ----------

  lemma {:induction false} ReapCasesKeeps(w: World, now: int, batch: seq<CaseId>)
    requires Inv(w) && w.clock <= now
    ensures Inv(World(ReapCases(w.state, batch).0, now, w.audit))
    decreases |batch|
  {
    if batch == [] {
      LaterClock(w, now);
    } else {
      var id := batch[0];
      assert CaseGood(w, id);
      if IsPending(w.state, id) {
        SettlingKeeps(w, now, id, Unconfirmed);
        ReapCasesKeeps(AfterSettling(w, now, id, Unconfirmed), now, batch[1..]);
      } else {
        assert w.state.deadlines - {id} == w.state.deadlines;
        assert ReapCase(w.state, id) == w.state;
        ReapCasesKeeps(w, now, batch[1..]);
      }
    }
  }

  // ---------- REGISTER_SUCCESS ----------

  lemma CorrectNone(s: State)
    ensures CorrectCases(s, {}) == s
  {
    var t := CorrectCases(s, {});
    assert t.cases == s.cases && t.deadlines == s.deadlines && t.jobs == s.jobs;
  }

  /** Correcting a set of cases at once is settling them one by one, in any order. */
  lemma CorrectOneOf(s: State, hit: set<CaseId>, id: CaseId)
    requires hit <= s.cases.Keys && id in hit
    ensures CorrectCases(SettleCase(s, id, Internal), hit - {id}) == CorrectCases(s, hit)
  {
    var s1 := SettleCase(s, id, Internal);
    var t1, t := CorrectCases(s1, hit - {id}), CorrectCases(s, hit);
    assert t1.cases == t.cases;
    assert t1.deadlines == t.deadlines;
    forall x ensures x in t1.jobs <==> x in t.jobs {
      AllSlotsHas(id, s.cases[id].members, x);
    }
    assert t1.jobs == t.jobs;
  }

  lemma {:induction false} CorrectingKeeps(w: World, now: int, hit: set<CaseId>)
    requires Core(w) && w.clock <= now && hit <= w.state.cases.Keys
    requires forall id :: id in hit ==> w.state.cases[id].status != Internal
    ensures Core(World(CorrectCases(w.state, hit), now, w.audit))
    ensures OverridesGood(w.state) ==> OverridesGood(CorrectCases(w.state, hit))
    decreases |hit|
  {
    if hit == {} {
      CorrectNone(w.state);
      LaterClock(w, now);
    } else {
      var id :| id in hit;
      CorrectOneOf(w.state, hit, id);
      SettlingKeeps(w, now, id, Internal);
      CorrectingKeeps(AfterSettling(w, now, id, Internal), now, hit - {id});
    }
  }

  /** The state with a new receipt and its event, before any case is corrected. */
  function WithReceipt(s: State, now: int, cycle: Cycle, eventId: EventId, member: Member): State {
    var key := ReceiptKeyOf(cycle, eventId);
    s.(receipts := s.receipts[key := Receipt(member, eventId, now, now + SUCCESS_TTL_MS)],
       events := s.events[eventId := EventMark(IdentityOf(cycle), member, key)])
  }

  lemma NewReceiptAlone(w: World, now: int, cycle: Cycle, eventId: EventId, member: Member, id: CaseId)
    requires w.clock <= now
    ensures LeavesAlone(w, World(WithReceipt(w.state, now, cycle, eventId, member), now, w.audit), id)
  {
  }

  lemma NewReceiptIndexes(s: State, now: int, cycle: Cycle, eventId: EventId, member: Member)
    requires CyclesGood(s) && MarkersGood(s)
    ensures CyclesGood(WithReceipt(s, now, cycle, eventId, member))
    ensures MarkersGood(WithReceipt(s, now, cycle, eventId, member))
  {
    forall d ensures CasesOf(WithReceipt(s, now, cycle, eventId, member), d) == CasesOf(s, d) {
    }
  }

  lemma NewReceiptKeepsCore(w: World, now: int, cycle: Cycle, eventId: EventId, member: Member)
    requires Inv(w) && w.clock <= now
    requires eventId !in w.state.events && ReceiptKeyOf(cycle, eventId) !in w.state.receipts
    ensures Core(World(WithReceipt(w.state, now, cycle, eventId, member), now, w.audit))
  {
    var w' := World(WithReceipt(w.state, now, cycle, eventId, member), now, w.audit);
    forall id ensures CaseGood(w', id) {
      NewReceiptAlone(w, now, cycle, eventId, member, id);
      FrameCase(w, w', id);
    }
    forall x: Slot ensures SlotGood(w', x) {
      NewReceiptAlone(w, now, cycle, eventId, member, x.caseId);
      FrameSlot(w, w', x);
    }
    NewReceiptIndexes(w.state, now, cycle, eventId, member);
    NewReceiptEvents(w.state, w.clock, now, cycle, eventId, member);
  }

  lemma NewReceiptEvents(s: State, clock: int, now: int, cycle: Cycle, eventId: EventId, member: Member)
    requires EventsGood(s, clock) && clock <= now
    requires eventId !in s.events && ReceiptKeyOf(cycle, eventId) !in s.receipts
    ensures EventsGood(WithReceipt(s, now, cycle, eventId, member), now)
  {
  }

  lemma CorrectedMoves(s: State, hit: set<CaseId>, id: CaseId)
    requires hit <= s.cases.Keys && id in s.cases && (id in hit ==> s.cases[id].status != Internal)
    ensures Moves(s.cases[id], CorrectCases(s, hit).cases[id])
  {
  }

  lemma ApplyReceiptMoves(s: State, cycle: Cycle, receipt: Receipt, id: CaseId)
    requires id in s.cases
    ensures var t := ApplyReceipt(s, cycle, receipt);
            id in t.cases && Moves(s.cases[id], t.cases[id])
  {
    var t := ApplyReceipt(s, cycle, receipt);
    if t != s {
      CorrectedMoves(s, Corrigible(s, DigestOf(cycle).value), id);
    }
  }

  /** Applying a receipt makes every case it overrides internal and only moves verdicts forward. */
  lemma ApplyReceiptTo(s: State, cycle: Cycle, receipt: Receipt, id: CaseId)
    requires CyclesGood(s) && id in s.cases
    ensures var t := ApplyReceipt(s, cycle, receipt);
            && id in t.cases && Moves(s.cases[id], t.cases[id])
            && (forall d :: DigestOf(cycle) == Some(d) && Overrides(receipt, d, s.cases[id]) ==>
                  t.cases[id].status == Internal)
  {
    ApplyReceiptMoves(s, cycle, receipt, id);
    if DigestOf(cycle).Some? && Overrides(receipt, DigestOf(cycle).value, s.cases[id]) {
      assert id in CasesOf(s, DigestOf(cycle).value);
      assert id in Corrigible(s, DigestOf(cycle).value) <==> s.cases[id].status != Internal;
    }
  }

  lemma ApplyReceiptFields(s: State, cycle: Cycle, receipt: Receipt)
    ensures var t := ApplyReceipt(s, cycle, receipt);
            t.cases.Keys == s.cases.Keys && t.receipts == s.receipts && t.events == s.events && t.byCycle == s.byCycle
  {
  }

  lemma NewReceiptOverrides(s: State, now: int, cycle: Cycle, eventId: EventId, member: Member, t: State)
    requires CyclesGood(s) && MarkersGood(s) && OverridesGood(s) && ReceiptKeyOf(cycle, eventId) !in s.receipts
    requires var s1 := WithReceipt(s, now, cycle, eventId, member);
             t == ApplyReceipt(s1, cycle, s1.receipts[ReceiptKeyOf(cycle, eventId)])
    ensures OverridesGood(t)
  {
    var s1 := WithReceipt(s, now, cycle, eventId, member);
    var receipt := s1.receipts[ReceiptKeyOf(cycle, eventId)];
    NewReceiptIndexes(s, now, cycle, eventId, member);
    ApplyReceiptFields(s1, cycle, receipt);
    forall d, id | OfCycle(d) in t.receipts && id in t.cases && Overrides(t.receipts[OfCycle(d)], d, t.cases[id])
      ensures t.cases[id].status == Internal
    {
      ApplyReceiptTo(s1, cycle, receipt, id);
      assert Overrides(t.receipts[OfCycle(d)], d, s.cases[id]);
      if OfCycle(d) in s.receipts {
        assert Overrides(s.receipts[OfCycle(d)], d, s.cases[id]);
      }
    }
  }

  lemma NewReceiptKeeps(w: World, now: int, cycle: Cycle, eventId: EventId, member: Member)
    requires Inv(w) && w.clock <= now
    requires eventId !in w.state.events && ReceiptKeyOf(cycle, eventId) !in w.state.receipts
    ensures var s1 := WithReceipt(w.state, now, cycle, eventId, member);
            Inv(World(ApplyReceipt(s1, cycle, s1.receipts[ReceiptKeyOf(cycle, eventId)]), now, w.audit))
  {
    var s1 := WithReceipt(w.state, now, cycle, eventId, member);
    var receipt := s1.receipts[ReceiptKeyOf(cycle, eventId)];
    var t := ApplyReceipt(s1, cycle, receipt);
    var w1 := World(s1, now, w.audit);
    NewReceiptKeepsCore(w, now, cycle, eventId, member);
    if t != s1 {
      CorrectingKeeps(w1, now, Corrigible(s1, DigestOf(cycle).value));
    }
    NewReceiptOverrides(w.state, now, cycle, eventId, member, t);
  }

  /** A repeated success finds nothing left to correct. */
  lemma KnownReceiptChangesNothing(w: World, cycle: Cycle, eventId: EventId)
    requires Inv(w) && eventId in w.state.events && w.state.events[eventId].identity == IdentityOf(cycle)
    ensures w.state.events[eventId].receiptKey in w.state.receipts
    ensures ApplyReceipt(w.state, cycle, w.state.receipts[w.state.events[eventId].receiptKey]) == w.state
  {
    var s := w.state;
    var receipt := s.receipts[s.events[eventId].receiptKey];
    if DigestOf(cycle).Some? {
      var d := DigestOf(cycle).value;
      assert s.events[eventId].receiptKey == OfCycle(d);
      if EntryMs(d) > 0 && receipt.serverTime >= EntryMs(d) {
        forall id | id in Corrigible(s, d) ensures false {
          assert id in CasesOf(s, d);
          assert Overrides(s.receipts[OfCycle(d)], d, s.cases[id]);
        }
        assert Corrigible(s, d) == {};
        CorrectNone(s);
      }
    }
  }

  lemma RegisterSuccessKeeps(w: World, now: int, cycle: Cycle, eventId: EventId, member: Member)
    requires Inv(w) && w.clock <= now
    ensures Inv(World(RegisterSuccess(w.state, now, cycle, eventId, member).state, now, w.audit))
  {
    var out := RegisterSuccess(w.state, now, cycle, eventId, member);
    if out.reply.Refused? {
      LaterClock(w, now);
    } else if eventId in w.state.events {
      KnownReceiptChangesNothing(w, cycle, eventId);
      LaterClock(w, now);
    } else {
      NewReceiptKeeps(w, now, cycle, eventId, member);
    }
  }

  // ---------- SUBMIT_RESULT, all branches ----------

  predicate Accepted(reply: Reply) {
    reply.Requeued? || reply.FoundInternal? || reply.Recorded?
  }

  /** A submission is accepted exactly when it names a member's slot of a pending case, its
      result ID is new, the slot has no result yet and the token is that of the slot's
      unexpired lease. Otherwise it changes nothing. */
  lemma AcceptedExactlyUnderLiveLease(s: State, now: int, caseId: CaseId, member: Member, roundNo: int,
                                      verdict: string, resultId: ResultId, token: Token)
    ensures var out := SubmitResult(s, now, caseId, member, roundNo, verdict, resultId, token);
            && (Accepted(out.reply) <==>
                  && ParseRound(roundNo).Some? && ParseVerdict(verdict).Some?
                  && Acceptable(s, now, Slot(caseId, ParseRound(roundNo).value, member), resultId)
                  && s.leases[Slot(caseId, ParseRound(roundNo).value, member)].token == token)
            && (Accepted(out.reply) ==>
                  out == AcceptResult(s, now, Slot(caseId, ParseRound(roundNo).value, member),
                                      ParseVerdict(verdict).value, resultId))
            && (!Accepted(out.reply) ==> out.state == s)
  {
    if caseId in s.cases && ParseRound(roundNo).Some? && ParseVerdict(verdict).Some? {
      AcceptReply(s, now, Slot(caseId, ParseRound(roundNo).value, member), ParseVerdict(verdict).value, resultId);
    }
  }

  lemma AcceptReply(s: State, now: int, slot: Slot, verdict: Verdict, resultId: ResultId)
    requires slot.caseId in s.cases
    ensures var reply := AcceptResult(s, now, slot, verdict, resultId).reply;
            reply == (match verdict case CheckFailed => Requeued case Found => FoundInternal case Absent => Recorded)
  {
  }

  /** A submission with its entry in the history. */
  function NextSubmit(w: World, now: int, caseId: CaseId, member: Member, roundNo: int,
                      verdict: string, resultId: ResultId, token: Token): World
  {
    var out := SubmitResult(w.state, now, caseId, member, roundNo, verdict, resultId, token);
    var slot := Slot(caseId, if roundNo == 1 then One else Two, member);
    World(out.state, now,
          if (out.reply.FoundInternal? || out.reply.Recorded?) && slot in w.state.leases
          then Audited(w, now, slot) else w.audit)
  }

  lemma SubmitResultKeeps(w: World, now: int, caseId: CaseId, member: Member, roundNo: int,
                          verdict: string, resultId: ResultId, token: Token)
    requires Inv(w) && w.clock <= now
    ensures Inv(NextSubmit(w, now, caseId, member, roundNo, verdict, resultId, token))
  {
    var out := SubmitResult(w.state, now, caseId, member, roundNo, verdict, resultId, token);
    AcceptedExactlyUnderLiveLease(w.state, now, caseId, member, roundNo, verdict, resultId, token);
    if Accepted(out.reply) {
      var slot := Slot(caseId, ParseRound(roundNo).value, member);
      AcceptReply(w.state, now, slot, ParseVerdict(verdict).value, resultId);
      AcceptResultKeeps(w, now, slot, ParseVerdict(verdict).value, resultId);
    } else {
      LaterClock(w, now);
    }
  }
}
