/** The cache of proxies borrowed from one peer: snapshots replaced under a generation
    fence, failures suppressed for a time, and selections that hand out receipts. Every
    script is one function of the key space; PeerCacheStore runs them step by step. Times
    are seconds. */
module PeerCache {
  import opened SortedSets
  import opened PeerPolicy

  type Endpoint = string
  type Owner = string
  type Token = string

  const HARD_TTL := 180.0
  const HARD_COOLDOWN := 600.0
  const RECEIPT_TTL := 600.0
  const SKEW := 5.0

  // ---------- Entities ----------

  /** The settings of one cache, after the constructor has bounded them. */
  datatype Config = Config(domain: string, peerName: string, originNode: Option<string>, policy: Policy,
                           cacheTtl: real, cooldown: real)

  /** One proxy as the peer exported it. */
  datatype Item = Item(endpoint: Endpoint, domain: string, score: int, latency: real, checkedAt: real,
                       successes: int, peerName: string, originNode: string, syncedAt: real, expiresAt: real)

  /** A cached proxy with the time until which it may be used. */
  datatype Entry = Entry(item: Item, expires: real)

  datatype Failure = Failure(failedAt: real, sourceCheckedAt: real, blockedUntil: real)

  /** A token is stored only as its hash. */
  datatype Digest = Digest(token: Token)

  datatype Receipt = Receipt(principal: string, endpoint: Endpoint, snapshot: Entry, sourceCheckedAt: real,
                             issuedAt: real, failureApplied: bool)

  datatype Lock = Lock(owner: Owner, generation: nat)

  /** The key space; `formal` are the endpoints of the pool's own records. */
  datatype State = State(
    records: map<Endpoint, Entry>,
    expiry: map<Endpoint, real>,
    suppression: map<Endpoint, Failure>,
    suppressionExpiry: map<Endpoint, real>,
    generation: nat,
    lock: Option<Lock>,
    formal: set<Endpoint>,
    receipts: map<Digest, Receipt>,
    evictions: map<Digest, real>)

  const EMPTY: State := State(map[], map[], map[], map[], 0, None, {}, map[], map[])

  function Lifetime(cfg: Config): real {
    var maxAge := cfg.policy.maxAge as real;
    (if cfg.cooldown >= maxAge then cfg.cooldown else maxAge) + 605.0
  }

  /** What the constructor makes of the settings it is given. */
  function Configured(domain: string, peerName: string, originNode: Option<string>, policy: Policy,
                      cacheTtl: real, cooldown: real): Option<Config>
  {
    if cacheTtl <= 0.0 || cooldown <= 0.0 || Effective(policy, policy, policy).None? then None
    else Some(Config(domain, peerName, originNode, Effective(policy, policy, policy).value,
                     MinReal(cacheTtl, HARD_TTL), if cooldown >= HARD_COOLDOWN then cooldown else HARD_COOLDOWN))
  }

  predicate IsConfig(cfg: Config) {
    && WellFormed(cfg.policy) && cfg.policy.maxAge <= 600
    && 0.0 < cfg.cacheTtl <= HARD_TTL && HARD_COOLDOWN <= cfg.cooldown
  }

  /** From a valid policy the constructor makes settings within all bounds: the lesser of the
      given time to live and 180 s, and the greater of the given cooldown and 600 s. */
  lemma ConfiguredIsConfig(domain: string, peerName: string, originNode: Option<string>, policy: Policy,
                           cacheTtl: real, cooldown: real)
    requires WellFormed(policy)
    ensures var made := Configured(domain, peerName, originNode, policy, cacheTtl, cooldown);
            && (made.Some? <==> cacheTtl > 0.0 && cooldown > 0.0)
            && (made.Some? ==>
                  var cfg := made.value;
                  && IsConfig(cfg)
                  && cfg.domain == domain && cfg.peerName == peerName && cfg.originNode == originNode
                  && cfg.cacheTtl <= 180.0 && cfg.cacheTtl <= cacheTtl
                  && (cfg.cacheTtl == 180.0 || cfg.cacheTtl == cacheTtl)
                  && cfg.cooldown >= 600.0 && cfg.cooldown >= cooldown
                  && (cfg.cooldown == 600.0 || cfg.cooldown == cooldown))
  {
  }

  /** Its policy accepts what both the given one and the hard bounds accept. */
  lemma ConfiguredAccepts(domain: string, peerName: string, originNode: Option<string>, policy: Policy,
                          cacheTtl: real, cooldown: real, r: Evidence, now: real)
    requires Configured(domain, peerName, originNode, policy, cacheTtl, cooldown).Some?
    ensures Accepts(r, Configured(domain, peerName, originNode, policy, cacheTtl, cooldown).value.policy, now) <==>
              Accepts(r, policy, now) && Accepts(r, HardBounds(policy.domain), now)
  {
    EffectiveIsTheMeet(policy, policy, policy, r, now);
  }

  function EvidenceOf(item: Item): Evidence {
    Evidence(item.domain, item.score, Some(item.latency), Some(item.checkedAt), item.successes, Some(item.expiresAt))
  }

  // ---------- BEGIN_SYNC and ABORT_SYNC ----------

  /** No lock, a new generation; a lock, no generation. */
  function BeginSync(s: State, owner: Owner): (State, Option<nat>) {
    if s.lock.Some? then (s, None)
    else (s.(generation := s.generation + 1, lock := Some(Lock(owner, s.generation + 1))), Some(s.generation + 1))
  }

  function AbortSync(s: State, owner: Owner, generation: nat): State {
    if s.lock == Some(Lock(owner, generation)) then s.(lock := None) else s
  }

  // ---------- REPLACE ----------

  datatype Replaced =
    | Invalid
    | Stale(filtered: nat)
    | Committed(accepted: nat, filtered: nat, suppressed: nat)

  predicate DistinctEndpoints(snapshot: seq<Item>) {
    forall i, j :: 0 <= i < j < |snapshot| ==> snapshot[i].endpoint != snapshot[j].endpoint
  }

  /** The snapshot is from the right peer and not from the future. */
  predicate Belongs(cfg: Config, item: Item, now: real) {
    && item.domain == cfg.domain && item.peerName == cfg.peerName
    && (cfg.originNode.Some? ==> item.originNode == cfg.originNode.value)
    && item.syncedAt - now <= SKEW
  }

  predicate ValidRequest(cfg: Config, snapshot: seq<Item>, generation: Option<int>, owner: Owner, now: real) {
    && generation.Some? && generation.value > 0 && owner != ""
    && |snapshot| <= 20 && DistinctEndpoints(snapshot)
    && forall i :: 0 <= i < |snapshot| ==> Belongs(cfg, snapshot[i], now)
  }

  function ExpiryOf(cfg: Config, item: Item): real {
    MinReal(item.expiresAt, MinReal(item.syncedAt + cfg.cacheTtl, item.checkedAt + cfg.policy.maxAge as real - SKEW))
  }

  /** Whether the item passes the store's own filter. */
  predicate Passes(cfg: Config, item: Item, now: real) {
    Accepts(EvidenceOf(item), cfg.policy, now) && ExpiryOf(cfg, item) > now
  }

  /** A failure on record speaks against an observation made at `checkedAt`. */
  predicate Blocks(f: Failure, checkedAt: real, now: real) {
    now < f.blockedUntil || checkedAt <= f.sourceCheckedAt || checkedAt <= f.failedAt + SKEW
  }

  predicate Blocked(suppression: map<Endpoint, Failure>, e: Endpoint, checkedAt: real, now: real) {
    e in suppression && Blocks(suppression[e], checkedAt, now)
  }

  datatype Fate = Accepted | Filtered | Suppressed

  /** What becomes of one item of a snapshot. */
  function FateOf(cfg: Config, s: State, item: Item, now: real): Fate {
    if !Passes(cfg, item, now) || item.endpoint in s.formal then Filtered
    else if Blocked(s.suppression, item.endpoint, item.checkedAt, now) then Suppressed
    else Accepted
  }

  function CountFate(cfg: Config, s: State, snapshot: seq<Item>, now: real, fate: Fate): nat {
    if snapshot == [] then 0
    else CountFate(cfg, s, snapshot[..|snapshot| - 1], now, fate)
         + if FateOf(cfg, s, snapshot[|snapshot| - 1], now) == fate then 1 else 0
  }

  /** Forget the failures whose time is over. */
  function Collected(s: State, now: real): State {
    var over := set e | e in s.suppressionExpiry && s.suppressionExpiry[e] <= now;
    s.(suppression := s.suppression - over, suppressionExpiry := s.suppressionExpiry - over)
  }

  /** The accepted items of a snapshot, by endpoint. */
  function AcceptedEntries(cfg: Config, s: State, snapshot: seq<Item>, now: real): map<Endpoint, Entry> {
    if snapshot == [] then map[]
    else
      var item := snapshot[|snapshot| - 1];
      var rest := AcceptedEntries(cfg, s, snapshot[..|snapshot| - 1], now);
      if FateOf(cfg, s, item, now) == Accepted then rest[item.endpoint := Entry(item, ExpiryOf(cfg, item))] else rest
  }

  function ExpiryTimes(records: map<Endpoint, Entry>): map<Endpoint, real> {
    map e | e in records :: records[e].expires
  }

  predicate HoldsLock(s: State, generation: int, owner: Owner) {
    s.generation == generation && s.lock.Some? && s.lock.value == Lock(owner, s.generation)
  }

  function Replace(cfg: Config, s: State, snapshot: seq<Item>, generation: Option<int>, owner: Owner, now: real):
    (State, Replaced)
  {
    if !ValidRequest(cfg, snapshot, generation, owner, now) then (s, Invalid)
    else if !HoldsLock(s, generation.value, owner) then
      (s, Stale(|snapshot| - |Prefiltered(cfg, snapshot, now)|))
    else
      var s1 := Collected(s, now);
      var records := AcceptedEntries(cfg, s1, snapshot, now);
      (s1.(records := records, expiry := ExpiryTimes(records), lock := None),
       Committed(CountFate(cfg, s1, snapshot, now, Accepted),
                 CountFate(cfg, s1, snapshot, now, Filtered),
                 CountFate(cfg, s1, snapshot, now, Suppressed)))
  }

  /** The entries that the store sends on to the script. */
  function Prefiltered(cfg: Config, snapshot: seq<Item>, now: real): (r: seq<Entry>)
    ensures |r| <= |snapshot|
  {
    if snapshot == [] then []
    else
      var item := snapshot[|snapshot| - 1];
      Prefiltered(cfg, snapshot[..|snapshot| - 1], now)
      + if Passes(cfg, item, now) then [Entry(item, ExpiryOf(cfg, item))] else []
  }

  // ---------- SELECT ----------

  datatype Query = Query(policy: Policy, count: nat, principal: string, excluded: set<Endpoint>, now: real)

  datatype Selected = Selected(entry: Entry, token: Token, usableUntil: real)

  function UsableUntil(q: Query, entry: Entry): real {
    MinReal(q.now + RECEIPT_TTL, MinReal(entry.expires, entry.item.checkedAt + q.policy.maxAge as real - SKEW))
  }

  /** The script's test of one endpoint. */
  predicate Eligible(s: State, q: Query, e: Endpoint) {
    && e !in q.excluded && e !in s.formal && e in s.records
    && var entry := s.records[e];
    && entry.item.domain == q.policy.domain && entry.item.score >= q.policy.minScore
    && entry.item.latency <= q.policy.maxLatency && entry.item.successes >= q.policy.minSuccesses
    && -SKEW <= q.now - entry.item.checkedAt < q.policy.maxAge as real
    && entry.expires > q.now
    && !Blocked(s.suppression, e, entry.item.checkedAt, q.now)
    && UsableUntil(q, entry) > q.now
  }

  /** What ZRANGEBYSCORE (now +inf may answer: everything that expires later, soonest first. */
  ghost predicate IsLaterThan(z: map<Endpoint, real>, now: real, order: seq<Endpoint>) {
    && NoDuplicates(order)
    && (forall e :: e in order <==> e in z && z[e] > now)
    && (forall i, j :: 0 <= i < j < |order| ==> z[order[i]] <= z[order[j]])
  }

  function ReceiptFor(q: Query, e: Endpoint, entry: Entry): Receipt {
    Receipt(q.principal, e, entry, entry.item.checkedAt, q.now, false)
  }

  /** Walk the endpoints in order, issuing one token after the other. */
  function SelectFrom(s: State, q: Query, tokens: seq<Token>, order: seq<Endpoint>, chosen: seq<Selected>):
    (State, seq<Selected>)
    decreases |order|
  {
    if order == [] || |chosen| >= q.count || |chosen| >= |tokens| then (s, chosen)
    else if !Eligible(s, q, order[0]) then SelectFrom(s, q, tokens, order[1..], chosen)
    else
      var token := tokens[|chosen|];
      if Digest(token) in s.receipts then SelectFrom(s, q, tokens, order[1..], chosen)
      else
        var entry := s.records[order[0]];
        SelectFrom(s.(receipts := s.receipts[Digest(token) := ReceiptFor(q, order[0], entry)]),
                   q, tokens, order[1..], chosen + [Selected(entry, token, UsableUntil(q, entry))])
  }

  /** A request is refused for the wrong domain or count; otherwise its policy is tightened
      by the cache's own. */
  function QueryFor(cfg: Config, request: Policy, count: int, exclusions: seq<Endpoint>, principal: string, now: real):
    Option<Query>
  {
    if request.domain != cfg.domain || !(1 <= count <= 20) then None
    else
      match Effective(request, cfg.policy, cfg.policy)
      case None => None
      case Some(policy) => Some(Query(policy, count, principal, (set e | e in exclusions), now))
  }

  function Select(cfg: Config, s: State, request: Policy, count: int, exclusions: seq<Endpoint>, principal: string,
                  now: real, tokens: seq<Token>, order: seq<Endpoint>): (State, Option<seq<Selected>>)
  {
    match QueryFor(cfg, request, count, exclusions, principal, now)
    case None => (s, None)
    case Some(q) =>
      var (t, chosen) := SelectFrom(s, q, tokens, order, []);
      (t, Some(chosen))
  }

  /** The same walk in counting mode issues nothing and stops at q.count. */
  function CountFrom(s: State, q: Query, order: seq<Endpoint>, n: nat): nat
    decreases |order|
  {
    if order == [] || n >= q.count then n
    else CountFrom(s, q, order[1..], if Eligible(s, q, order[0]) then n + 1 else n)
  }

  function Count(cfg: Config, s: State, request: Policy, now: real, order: seq<Endpoint>): Option<nat> {
    match QueryFor(cfg, request, 20, [], "", now)
    case None => None
    case Some(q) => Some(CountFrom(s, q, order, 0))
  }

  // ---------- INVALIDATE ----------

  datatype Invalidation = Expired | AlreadyApplied | Applied

  function Recent(evictions: map<Digest, real>, now: real): map<Digest, real> {
    map d | d in evictions && evictions[d] >= now - RECEIPT_TTL :: evictions[d]
  }

  function Invalidate(cfg: Config, s: State, digest: Digest, now: real): (State, Invalidation) {
    if digest !in s.receipts then (s, Expired)
    else if s.receipts[digest].failureApplied then (s, AlreadyApplied)
    else
      var r := s.receipts[digest];
      (s.(receipts := s.receipts[digest := r.(failureApplied := true)],
          suppression := s.suppression[r.endpoint := Failure(now, r.sourceCheckedAt, now + cfg.cooldown)],
          suppressionExpiry := s.suppressionExpiry[r.endpoint := now + Lifetime(cfg)],
          evictions := Recent(s.evictions[digest := now], now),
          records := s.records - {r.endpoint},
          expiry := s.expiry - {r.endpoint}), Applied)
  }
}
