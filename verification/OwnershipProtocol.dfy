/** The reclaim-ownership protocol: five atomic Redis scripts acting on cases, job
    queues, leases, results and success receipts. Each script is given here as one
    function of the whole key space; OwnershipStore runs the scripts step by step and
    is proved to compute these functions. Times are milliseconds. */
module OwnershipProtocol {
  import opened SortedSets

  type CaseId = string
  type Member = string
  type Token = string
  type ResultId = string
  type EventId = string

  const DEADLINE_MS := 86400000
  const LEASE_MS := 30000
  const RETRY_MS := 30000
  const ROUND_GAP_MS := 15000
  const ROUND_TWO_DELAY_MS := 30000
  const SUCCESS_TTL_MS := 172800000
  const BATCH := 100

  // ---------- Entities ----------

  /** A reliable entry time: its normalised text and the epoch milliseconds it denotes. */
  datatype EntryTime = EntryTime(text: string, epochMs: int)

  /** `entered` is the text a client sent, `entry` what it parses to if it is reliable. */
  datatype Cycle = Cycle(leadCode: string, recordId: nat, entered: string, entry: Option<EntryTime>)

  /** The hash of a cycle, kept as the fields that are hashed. */
  datatype Digest = Digest(leadCode: string, recordId: nat, entry: EntryTime)

  datatype IdentityTime = Normalised(time: EntryTime) | AsGiven(text: string)

  datatype Identity = Identity(leadCode: string, recordId: nat, time: IdentityTime)

  datatype Round = One | Two

  datatype Verdict = Found | Absent | CheckFailed

  datatype Status = Pending | Internal | External | Unconfirmed

  /** One member's share of one round of one case: a queued job, a lease and a result
      are all keyed by it. */
  datatype Slot = Slot(caseId: CaseId, round: Round, member: Member)

  datatype Case = Case(
    cycle: Cycle,
    members: seq<Member>,
    creator: Option<Member>,
    createdAt: int,
    status: Status,
    revision: nat,
    checkErrors: nat,
    firstRoundAt: Option<int>)

  datatype Lease = Lease(token: Token, expiresAt: int)

  datatype Result = Result(resultId: ResultId, verdict: Verdict)

  /** What a result ID is bound to. */
  datatype Signature = Signature(slot: Slot, verdict: Verdict)

  datatype ReceiptKey = OfCycle(digest: Digest) | OfEvent(eventId: EventId)

  datatype Receipt = Receipt(member: Member, eventId: EventId, serverTime: int, expiresAt: int)

  datatype EventMark = EventMark(identity: Identity, member: Member, receiptKey: ReceiptKey)

  /** The whole key space of the protocol. */
  datatype State = State(
    cases: map<CaseId, Case>,
    jobs: map<Slot, int>,
    leases: map<Slot, Lease>,
    results: map<Slot, Result>,
    markers: map<ResultId, Signature>,
    deadlines: map<CaseId, int>,
    byCycle: map<Digest, set<CaseId>>,
    receipts: map<ReceiptKey, Receipt>,
    events: map<EventId, EventMark>,
    checkErrors: nat)

  const EMPTY: State := State(map[], map[], map[], map[], map[], map[], map[], map[], map[], 0)

  datatype Refusal =
    | BadRequest | CaseConflict
    | UnknownCase | NotAMember | InvalidRound | InvalidVerdict
    | ResultIdConflict | AlreadyResolved | ResultConflict | StaleLease
    | EmptyEvent | SuccessConflict

  datatype Reply =
    | Opened
    | AlreadyOpen
    | Job(slot: Slot, cycle: Cycle)
    | NoJob
    | Replayed
    | Requeued
    | FoundInternal
    | Recorded
    | Reaped(count: nat)
    | Registered(receipt: Receipt)
    | Refused(reason: Refusal)

  datatype Outcome = Outcome(state: State, reply: Reply)

  // ---------- Names for parts of the key space ----------

  function DigestOf(cycle: Cycle): Option<Digest> {
    if cycle.entry.None? then None
    else Some(Digest(cycle.leadCode, cycle.recordId, cycle.entry.value))
  }

  function IdentityOf(cycle: Cycle): Identity {
    Identity(cycle.leadCode, cycle.recordId,
             if cycle.entry.Some? then Normalised(cycle.entry.value) else AsGiven(cycle.entered))
  }

  /** The entry time the scripts are given: an epoch of exactly zero is sent as -1. */
  function EntryMs(d: Digest): int {
    if d.entry.epochMs == 0 then -1 else d.entry.epochMs
  }

  function Slots(caseId: CaseId, round: Round, members: seq<Member>): set<Slot> {
    set m | m in members :: Slot(caseId, round, m)
  }

  function AllSlots(caseId: CaseId, members: seq<Member>): set<Slot> {
    Slots(caseId, One, members) + Slots(caseId, Two, members)
  }

  lemma AllSlotsHas(caseId: CaseId, members: seq<Member>, x: Slot)
    ensures x in AllSlots(caseId, members) <==> x.caseId == caseId && x.member in members
  {
    match x.round
    case One => assert x == Slot(caseId, One, x.member) || x.caseId != caseId;
    case Two => assert x == Slot(caseId, Two, x.member) || x.caseId != caseId;
  }

  function QueuedAt(slots: set<Slot>, due: int): map<Slot, int> {
    map x | x in slots :: due
  }

  /** The job queue of one member. */
  function JobsOf(jobs: map<Slot, int>, member: Member): map<Slot, int> {
    map x | x in jobs && x.member == member :: jobs[x]
  }

  predicate IsPending(s: State, caseId: CaseId) {
    caseId in s.cases && s.cases[caseId].status == Pending
  }

  predicate AbsentAt(s: State, slot: Slot) {
    slot in s.results && s.results[slot].verdict == Absent
  }

  /** Every member has answered `absent` in the given round. */
  predicate RoundComplete(s: State, caseId: CaseId, round: Round) {
    && caseId in s.cases
    && forall m :: m in s.cases[caseId].members ==> AbsentAt(s, Slot(caseId, round, m))
  }

  /** A pending or settled case given a verdict. */
  function Settled(c: Case, status: Status): Case {
    c.(status := status, revision := c.revision + 1)
  }

  /** Settle a case and take it out of the deadlines and of every job queue. */
  function SettleCase(s: State, caseId: CaseId, status: Status): State
    requires caseId in s.cases
  {
    s.(cases := s.cases[caseId := Settled(s.cases[caseId], status)],
       deadlines := s.deadlines - {caseId},
       jobs := s.jobs - AllSlots(caseId, s.cases[caseId].members))
  }

  // ---------- OPEN_CASE ----------

  predicate BornInternal(s: State, cycle: Cycle, now: int) {
    match DigestOf(cycle)
    case None => false
    case Some(d) =>
      OfCycle(d) in s.receipts && EntryMs(d) <= s.receipts[OfCycle(d)].serverTime <= now
  }

  function CasesOf(s: State, d: Digest): set<CaseId> {
    if d in s.byCycle then s.byCycle[d] else {}
  }

  function Indexed(s: State, cycle: Cycle, caseId: CaseId): map<Digest, set<CaseId>> {
    match DigestOf(cycle)
    case None => s.byCycle
    case Some(d) => s.byCycle[d := CasesOf(s, d) + {caseId}]
  }

  predicate ValidOpening(caseId: CaseId, members: seq<Member>, creator: Option<Member>) {
    && caseId != "" && members != [] && NoDuplicates(members)
    && (creator.Some? ==> creator.value in members)
  }

  /** A case whose cycle already has a receipt is born internal and gets no jobs. */
  function OpenInternal(s: State, now: int, caseId: CaseId, cycle: Cycle,
                        members: seq<Member>, creator: Option<Member>): State
  {
    s.(cases := s.cases[caseId := Case(cycle, members, creator, now, Internal, 1, 0, None)],
       byCycle := Indexed(s, cycle, caseId))
  }

  /** Any other case starts pending, with a deadline and a first-round job per member. */
  function OpenPending(s: State, now: int, caseId: CaseId, cycle: Cycle,
                       members: seq<Member>, creator: Option<Member>): State
  {
    s.(cases := s.cases[caseId := Case(cycle, members, creator, now, Pending, 0, 0, None)],
       byCycle := Indexed(s, cycle, caseId),
       deadlines := s.deadlines[caseId := now + DEADLINE_MS],
       jobs := s.jobs + QueuedAt(Slots(caseId, One, members), now))
  }

  function OpenCase(s: State, now: int, caseId: CaseId, cycle: Cycle,
                    members: seq<Member>, creator: Option<Member>): (out: Outcome)
    ensures var t := out.state;
            t == s.(cases := t.cases, byCycle := t.byCycle, deadlines := t.deadlines, jobs := t.jobs)
  {
    if !ValidOpening(caseId, members, creator) then Outcome(s, Refused(BadRequest))
    else if caseId in s.cases then
      if s.cases[caseId].cycle == cycle && s.cases[caseId].members == members
      then Outcome(s, AlreadyOpen)
      else Outcome(s, Refused(CaseConflict))
    else if BornInternal(s, cycle, now) then
      Outcome(OpenInternal(s, now, caseId, cycle, members, creator), Opened)
    else
      Outcome(OpenPending(s, now, caseId, cycle, members, creator), Opened)
  }

  // ---------- CLAIM_JOB ----------

  predicate DeadJob(s: State, slot: Slot) {
    !IsPending(s, slot.caseId) || slot in s.results
  }

  predicate Leased(s: State, slot: Slot, now: int) {
    slot in s.leases && s.leases[slot].expiresAt > now
  }

  /** Work through the jobs read from the member's queue: drop dead ones, skip leased
      ones, lease the first free one. */
  function ClaimJob(s: State, now: int, token: Token, batch: seq<Slot>): Outcome
    decreases |batch|
  {
    if batch == [] then Outcome(s, NoJob)
    else if DeadJob(s, batch[0]) then
      ClaimJob(s.(jobs := s.jobs - {batch[0]}), now, token, batch[1..])
    else if Leased(s, batch[0], now) then
      ClaimJob(s, now, token, batch[1..])
    else
      Outcome(s.(leases := s.leases[batch[0] := Lease(token, now + LEASE_MS)]),
              Job(batch[0], s.cases[batch[0].caseId].cycle))
  }

  // ---------- SUBMIT_RESULT ----------

  function ParseRound(roundNo: int): Option<Round> {
    if roundNo == 1 then Some(One) else if roundNo == 2 then Some(Two) else None
  }

  function ParseVerdict(text: string): Option<Verdict> {
    if text == "found" then Some(Found)
    else if text == "absent" then Some(Absent)
    else if text == "error" then Some(CheckFailed)
    else None
  }

  function RoundTwoDue(c: Case, now: int): int {
    Max(now + ROUND_GAP_MS, c.createdAt + ROUND_TWO_DELAY_MS)
  }

  /** Round one is complete: note when, and queue a round-two job per member. */
  function FinishRoundOne(s: State, now: int, caseId: CaseId): State
    requires caseId in s.cases
  {
    var c := s.cases[caseId];
    s.(cases := s.cases[caseId := c.(firstRoundAt := Some(now))],
       jobs := s.jobs + QueuedAt(Slots(caseId, Two, c.members), RoundTwoDue(c, now)))
  }

  /** Round two is complete: nobody owns the lead. */
  function FinishRoundTwo(s: State, caseId: CaseId): State
    requires caseId in s.cases
  {
    s.(cases := s.cases[caseId := Settled(s.cases[caseId], External)],
       deadlines := s.deadlines - {caseId})
  }

  /** An absence completes its round or just adds to it. The frame is part of the contract
      because every proof about an absence starts from it. */
  function RecordAbsent(s: State, now: int, slot: Slot, resultId: ResultId): (t: State)
    requires slot.caseId in s.cases
    ensures t == s.(cases := t.cases, deadlines := t.deadlines, jobs := t.jobs,
                    results := s.results[slot := Result(resultId, Absent)])
    ensures slot.caseId in t.cases
  {
    var noted := s.(results := s.results[slot := Result(resultId, Absent)], jobs := s.jobs - {slot});
    if !RoundComplete(noted, slot.caseId, slot.round) then noted
    else if slot.round.One? then FinishRoundOne(noted, now, slot.caseId)
    else FinishRoundTwo(noted, slot.caseId)
  }

  /** An accepted submission uses up its result ID and its lease. */
  function Marked(s: State, slot: Slot, verdict: Verdict, resultId: ResultId): State {
    s.(markers := s.markers[resultId := Signature(slot, verdict)], leases := s.leases - {slot})
  }

  /** A failed check is counted and queued again. */
  function RecordError(s: State, now: int, slot: Slot): State
    requires slot.caseId in s.cases
  {
    var c := s.cases[slot.caseId];
    s.(cases := s.cases[slot.caseId := c.(checkErrors := c.checkErrors + 1)],
       checkErrors := s.checkErrors + 1,
       jobs := s.jobs[slot := now + RETRY_MS])
  }

  /** One `found` settles the case. */
  function RecordFound(s: State, slot: Slot, resultId: ResultId): State
    requires slot.caseId in s.cases
  {
    SettleCase(s.(results := s.results[slot := Result(resultId, Found)]), slot.caseId, Internal)
  }

  function AcceptResult(s: State, now: int, slot: Slot, verdict: Verdict, resultId: ResultId): Outcome
    requires slot.caseId in s.cases
  {
    var marked := Marked(s, slot, verdict, resultId);
    match verdict
    case CheckFailed => Outcome(RecordError(marked, now, slot), Requeued)
    case Found => Outcome(RecordFound(marked, slot, resultId), FoundInternal)
    case Absent => Outcome(RecordAbsent(marked, now, slot, resultId), Recorded)
  }

  /** The checks of SUBMIT_RESULT that come after its arguments were read. */
  function SubmitTo(s: State, now: int, slot: Slot, verdict: Verdict, resultId: ResultId, token: Token): Outcome
    requires slot.caseId in s.cases
  {
    if resultId in s.markers then
      if s.markers[resultId] == Signature(slot, verdict) then Outcome(s, Replayed)
      else Outcome(s, Refused(ResultIdConflict))
    else if s.cases[slot.caseId].status != Pending then Outcome(s, Refused(AlreadyResolved))
    else if slot in s.results then Outcome(s, Refused(ResultConflict))
    else if slot !in s.leases || s.leases[slot].token != token || s.leases[slot].expiresAt <= now then
      Outcome(s, Refused(StaleLease))
    else AcceptResult(s, now, slot, verdict, resultId)
  }

  function SubmitResult(s: State, now: int, caseId: CaseId, member: Member, roundNo: int,
                        verdict: string, resultId: ResultId, token: Token): Outcome
  {
    if caseId !in s.cases then Outcome(s, Refused(UnknownCase))
    else if member !in s.cases[caseId].members then Outcome(s, Refused(NotAMember))
    else if ParseRound(roundNo).None? then Outcome(s, Refused(InvalidRound))
    else if ParseVerdict(verdict).None? then Outcome(s, Refused(InvalidVerdict))
    else SubmitTo(s, now, Slot(caseId, ParseRound(roundNo).value, member),
                  ParseVerdict(verdict).value, resultId, token)
  }

  // ---------- REAP_EXPIRED ----------

  function ReapCase(s: State, caseId: CaseId): State {
    if IsPending(s, caseId) then SettleCase(s, caseId, Unconfirmed)
    else s.(deadlines := s.deadlines - {caseId})
  }

  function ReapCases(s: State, batch: seq<CaseId>): (out: (State, nat))
    ensures var t := out.0;
            t == s.(cases := t.cases, deadlines := t.deadlines, jobs := t.jobs)
    decreases |batch|
  {
    if batch == [] then (s, 0)
    else
      var (rest, count) := ReapCases(ReapCase(s, batch[0]), batch[1..]);
      (rest, count + if IsPending(s, batch[0]) then 1 else 0)
  }

  function ReapExpired(s: State, batch: seq<CaseId>): Outcome {
    var (state, count) := ReapCases(s, batch);
    Outcome(state, Reaped(count))
  }

  // ---------- REGISTER_SUCCESS ----------

  /** The cases a receipt corrects: those of its cycle opened since the entry time whose
      verdict is not yet internal. */
  function Corrigible(s: State, d: Digest): set<CaseId> {
    set c | c in CasesOf(s, d) && c in s.cases
            && s.cases[c].createdAt >= EntryMs(d) && s.cases[c].status != Internal
  }

  /** The queued jobs without those of the given cases. */
  function JobsWithout(jobs: map<Slot, int>, cases: map<CaseId, Case>, hit: set<CaseId>): map<Slot, int>
    requires hit <= cases.Keys
  {
    map x | x in jobs && !(x.caseId in hit && x.member in cases[x.caseId].members) :: jobs[x]
  }

  /** Make the given cases internal, all at once. */
  function CorrectCases(s: State, hit: set<CaseId>): State
    requires hit <= s.cases.Keys
  {
    s.(cases := map c | c in s.cases :: if c in hit then Settled(s.cases[c], Internal) else s.cases[c],
       deadlines := s.deadlines - hit,
       jobs := JobsWithout(s.jobs, s.cases, hit))
  }

  function ApplyReceipt(s: State, cycle: Cycle, receipt: Receipt): State {
    match DigestOf(cycle)
    case None => s
    case Some(d) =>
      if EntryMs(d) > 0 && receipt.serverTime >= EntryMs(d)
      then CorrectCases(s, Corrigible(s, d))
      else s
  }

  function ReceiptKeyOf(cycle: Cycle, eventId: EventId): ReceiptKey {
    match DigestOf(cycle)
    case Some(d) => OfCycle(d)
    case None => OfEvent(eventId)
  }

  function RegisterSuccess(s: State, now: int, cycle: Cycle, eventId: EventId, member: Member): (out: Outcome)
    ensures var t := out.state;
            t == s.(cases := t.cases, deadlines := t.deadlines, jobs := t.jobs,
                    receipts := t.receipts, events := t.events)
  {
    if eventId == "" || member == "" then Outcome(s, Refused(EmptyEvent))
    else if eventId in s.events then
      var mark := s.events[eventId];
      if mark.identity != IdentityOf(cycle) || mark.member != member || mark.receiptKey !in s.receipts
      then Outcome(s, Refused(SuccessConflict))
      else
        var receipt := s.receipts[mark.receiptKey];
        Outcome(ApplyReceipt(s, cycle, receipt), Registered(receipt))
    else
      var key := ReceiptKeyOf(cycle, eventId);
      if key in s.receipts then Outcome(s, Refused(SuccessConflict))
      else
        var receipt := Receipt(member, eventId, now, now + SUCCESS_TTL_MS);
        Outcome(ApplyReceipt(s.(receipts := s.receipts[key := receipt],
                                events := s.events[eventId := EventMark(IdentityOf(cycle), member, key)]),
                             cycle, receipt),
                Registered(receipt))
  }
}
