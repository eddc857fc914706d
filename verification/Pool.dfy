/** The pool of one domain as Redis keeps it: a hash of records, sorted sets that index it,
    and leases under owner tokens. Every script and every pipeline is one function of the
    key space; PoolStore runs them step by step. Times are ticks of a clock. */
module Pool {
  import opened SortedSets

  type Endpoint = string
  type Token = string

  // ---------- Entities ----------

  datatype Health = Candidate | Available | Degraded | Quarantined

  datatype Record = Record(
    endpoint: Endpoint,
    score: int,
    health: Health,
    sources: set<string>,
    firstSeenAt: int,
    lastSeenAt: int,
    lastCheckedAt: Option<int>,
    nextCheckAt: int,
    successes: nat,
    latency: Option<real>)

  /** The key space: scores by quality, next checks and leases by time, the available
      proxies by latency, and the fast ones among them by next check once more. */
  datatype State = State(
    records: map<Endpoint, Record>,
    quality: map<Endpoint, int>,
    due: map<Endpoint, int>,
    leased: map<Endpoint, int>,
    owners: map<Endpoint, Token>,
    latency: map<Endpoint, real>,
    priority: map<Endpoint, int>)

  const EMPTY: State := State(map[], map[], map[], map[], map[], map[], map[])

  /** Where a record belongs in the latency index, if anywhere. */
  function LatencyScore(r: Record): Option<real> {
    if r.health == Available && r.latency.Some? && r.latency.value >= 0.0 then r.latency else None
  }

  /** Where it belongs in the priority index. */
  function PriorityScore(r: Record, maxLatency: real): Option<int> {
    if LatencyScore(r).Some? && LatencyScore(r).value <= maxLatency then Some(r.nextCheckAt) else None
  }

  /** ZADD if there is a score, ZREM if not. */
  function Placed<V>(z: map<Endpoint, V>, e: Endpoint, score: Option<V>): map<Endpoint, V> {
    match score
    case None => z - {e}
    case Some(v) => z[e := v]
  }

  // ---------- Records ----------

  function Merged(known: Record, seen: Record): Record {
    known.(sources := known.sources + seen.sources,
          firstSeenAt := Min(known.firstSeenAt, seen.firstSeenAt),
          lastSeenAt := Max(known.lastSeenAt, seen.lastSeenAt))
  }

  function Entered(s: State, r: Record): State {
    var e := r.endpoint;
    s.(records := s.records[e := r.(health := Candidate)], quality := s.quality[e := r.score],
       due := s.due[e := r.nextCheckAt], latency := s.latency - {e}, priority := s.priority - {e})
  }

  function Refreshed(s: State, maxLatency: real, e: Endpoint, merged: Record): State {
    s.(records := s.records[e := merged],
       latency := Placed(s.latency, e, LatencyScore(merged)),
       priority := Placed(s.priority, e, PriorityScore(merged, maxLatency)))
  }

  /** A new endpoint enters as a candidate; a known one keeps its health and its next check. */
  function UpsertCandidate(s: State, maxLatency: real, r: Record): State {
    if r.endpoint !in s.records then Entered(s, r)
    else Refreshed(s, maxLatency, r.endpoint, Merged(s.records[r.endpoint], r))
  }

  function SaveRecord(s: State, maxLatency: real, r: Record): State {
    var e := r.endpoint;
    s.(records := s.records[e := r], quality := s.quality[e := r.score], due := s.due[e := r.nextCheckAt],
       latency := Placed(s.latency, e, LatencyScore(r)),
       priority := Placed(s.priority, e, PriorityScore(r, maxLatency)))
  }

  // ---------- Leases ----------

  /** Lease every endpoint of the batch that is not leased yet; the endpoints taken. */
  function LeaseFree(s: State, batch: seq<Endpoint>, expires: int, token: Token): (State, seq<Endpoint>)
    decreases |batch|
  {
    if batch == [] then (s, [])
    else
      var e := batch[|batch| - 1];
      var (t, taken) := LeaseFree(s, batch[..|batch| - 1], expires, token);
      if e in t.leased then (t, taken)
      else (t.(due := t.due - {e}, leased := t.leased[e := expires], owners := t.owners[e := token]), taken + [e])
  }

  function PriorityLimit(limit: int): int {
    if limit == 1 then 1 else Min(limit - 1, Max(1, limit * 4 / 5))
  }

  datatype Claim = Claim(now: int, limit: int, leaseTime: int, worker: string, token: Token)

  predicate ValidClaim(c: Claim) {
    1 <= c.limit <= 1000 && c.worker != "" && c.leaseTime > 0
  }

  /** CLAIM_PRIORITY_DUE: `fast` is what was read from the priority index, `general` what was
      read from the due index after the fast ones had been taken, if anything was. */
  function ClaimDue(s: State, c: Claim, fast: seq<Endpoint>, general: seq<Endpoint>): (State, Option<seq<Endpoint>>) {
    if !ValidClaim(c) then (s, None)
    else
      var (s1, first) := LeaseFree(s, fast, c.now + c.leaseTime, c.token);
      if c.limit - |first| > 0 then
        var (s2, second) := LeaseFree(s1, general, c.now + c.leaseTime, c.token);
        (s2, Some(first + second))
      else (s1, Some(first))
  }

  /** What Redis may have answered to the reads of a claim. */
  ghost predicate ClaimReads(s: State, c: Claim, fast: seq<Endpoint>, general: seq<Endpoint>) {
    ValidClaim(c) ==>
      && IsRange(s.priority, c.now, PriorityLimit(c.limit) as nat, fast)
      && var (s1, first) := LeaseFree(s, fast, c.now + c.leaseTime, c.token);
         (c.limit - |first| > 0 ==> IsRange(s1.due, c.now, c.limit - |first|, general))
  }

  predicate Owns(s: State, e: Endpoint, token: Token) {
    e in s.owners && s.owners[e] == token
  }

  datatype Answer = Rejected | Lost | Done

  function Complete(s: State, maxLatency: real, e: Endpoint, token: Token, r: Record): (State, Answer) {
    if r.endpoint != e then (s, Rejected)
    else if !Owns(s, e, token) then (s, Lost)
    else
      (SaveRecord(s, maxLatency, r).(leased := s.leased - {e}, owners := s.owners - {e}), Done)
  }

  function Release(s: State, e: Endpoint, token: Token, dueAt: int): (State, Answer) {
    if !Owns(s, e, token) then (s, Lost)
    else
      (s.(due := s.due[e := dueAt], priority := if e in s.priority then s.priority[e := dueAt] else s.priority,
          leased := s.leased - {e}, owners := s.owners - {e}), Done)
  }

  function DeleteLeased(s: State, e: Endpoint, token: Token): (State, Answer) {
    if !Owns(s, e, token) then (s, Lost)
    else
      (State(s.records - {e}, s.quality - {e}, s.due - {e}, s.leased - {e}, s.owners - {e}, s.latency - {e},
             s.priority - {e}), Done)
  }

  /** Leases that have run out go back to the due index, due at once. */
  function GivenBack(s: State, now: int, batch: seq<Endpoint>): State
    decreases |batch|
  {
    if batch == [] then s
    else
      var e := batch[|batch| - 1];
      var t := GivenBack(s, now, batch[..|batch| - 1]);
      t.(leased := t.leased - {e}, due := t.due[e := now], owners := t.owners - {e})
  }

  function ReclaimExpired(s: State, now: int, limit: int, batch: seq<Endpoint>): (State, Option<seq<Endpoint>>) {
    if !(1 <= limit <= 1000) then (s, None) else (GivenBack(s, now, batch), Some(batch))
  }

  // ---------- Whole-pool operations ----------

  /** Capacity eviction of the given endpoints. The priority index is left alone. */
  function Evict(s: State, gone: seq<Endpoint>): State {
    var out := set e | e in gone;
    s.(records := s.records - out, quality := s.quality - out, due := s.due - out, latency := s.latency - out)
  }

  predicate IsClose(a: real, b: real) {
    -0.001 <= a - b <= 0.001
  }

  /** A record that does not belong in the latency index, or not at this score, or not below
      the bound that it was read under. */
  predicate IsMisplaced(r: Record, indexed: real, bound: Option<real>) {
    || LatencyScore(r).None?
    || !IsClose(LatencyScore(r).value, indexed)
    || (bound.Some? && LatencyScore(r).value > bound.value)
  }

  /** What selection counts as inconsistent and clears from the latency index. */
  predicate Inconsistent(s: State, bound: Option<real>, e: Endpoint)
    requires e in s.latency
  {
    e !in s.records || IsMisplaced(s.records[e], s.latency[e], bound)
  }

  function Cleared(s: State, suspects: set<Endpoint>): State {
    s.(latency := s.latency - suspects)
  }

  function ExactLatency(records: map<Endpoint, Record>): map<Endpoint, real> {
    map e | e in records && LatencyScore(records[e]).Some? :: LatencyScore(records[e]).value
  }

  function ExactPriority(records: map<Endpoint, Record>, maxLatency: real): map<Endpoint, int> {
    map e | e in records && PriorityScore(records[e], maxLatency).Some? :: PriorityScore(records[e], maxLatency).value
  }

  /** What a rebuild swaps in. */
  function Rebuilt(s: State, maxLatency: real): State {
    s.(latency := ExactLatency(s.records), priority := ExactPriority(s.records, maxLatency))
  }
}
