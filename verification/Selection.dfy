/** Selection of random proxies through the latency index, against the naive scan of all
    records. Nothing else writes meanwhile. */
module Selection {
  import opened SortedSets
  import opened Pool
  import PoolRuns

  /** A stored record may fail to decode. */
  datatype Payload = Encoded(record: Record) | Corrupt

  datatype Data = Data(stored: map<Endpoint, Payload>, index: map<Endpoint, real>)

  datatype Query = Query(
    minScore: int,
    count: int,
    maxLatency: Option<real>,
    maxAge: Option<int>,
    minSuccesses: int,
    now: int)

  predicate ValidQuery(q: Query) {
    && q.count > 0 && 0 <= q.minScore <= 100 && q.minSuccesses > 0
    && (q.maxLatency.Some? ==> q.maxLatency.value >= 0.0)
    && (q.maxAge.Some? ==> q.maxAge.value > 0)
  }

  predicate IsFresh(q: Query, r: Record) {
    q.maxAge.Some? ==> r.lastCheckedAt.Some? && r.lastCheckedAt.value >= q.now - q.maxAge.value
  }

  // ---------- One member of the index ----------

  datatype Verdict = Chosen | Inconsistent | LowScore | FewSuccesses | Old

  function VerdictOn(r: Record, indexed: real, q: Query): Verdict {
    if IsMisplaced(r, indexed, q.maxLatency) then Verdict.Inconsistent
    else if r.score < q.minScore then LowScore
    else if r.successes < q.minSuccesses then FewSuccesses
    else if !IsFresh(q, r) then Old
    else Chosen
  }

  function Judge(d: Data, q: Query, e: Endpoint): Verdict
    requires e in d.index
  {
    if e !in d.stored || d.stored[e].Corrupt? then Inconsistent else VerdictOn(d.stored[e].record, d.index[e], q)
  }

  /** What a returned proxy must be like, on its record alone: available, with a latency
      within the bound, a score and a run of successes that suffice, and a check no longer
      ago than the age asked for. */
  predicate Qualifies(r: Record, q: Query) {
    && r.health == Available && r.latency.Some? && 0.0 <= r.latency.value
    && (q.maxLatency.Some? ==> r.latency.value <= q.maxLatency.value)
    && r.score >= q.minScore && r.successes >= q.minSuccesses
    && (q.maxAge.Some? ==> r.lastCheckedAt.Some? && q.now - r.lastCheckedAt.value <= q.maxAge.value)
  }

  /** The verdicts in plain terms. A member is inconsistent exactly if it has no readable
      record, or the record is not that of an available proxy whose latency is within the
      bound and 0.001 of the index; it is chosen exactly if it is not inconsistent and its
      record qualifies; and of the three other verdicts the first that fits is given. */
  lemma JudgedExactly(d: Data, q: Query, e: Endpoint)
    requires e in d.index
    ensures Judge(d, q, e).Inconsistent? <==>
              || e !in d.stored || d.stored[e].Corrupt?
              || d.stored[e].record.health != Available || d.stored[e].record.latency.None?
              || d.stored[e].record.latency.value < 0.0
              || d.stored[e].record.latency.value > d.index[e] + 0.001
              || d.stored[e].record.latency.value < d.index[e] - 0.001
              || (q.maxLatency.Some? && d.stored[e].record.latency.value > q.maxLatency.value)
    ensures !Judge(d, q, e).Inconsistent? ==>
              var r := d.stored[e].record;
              && (Judge(d, q, e).LowScore? <==> r.score < q.minScore)
              && (Judge(d, q, e).FewSuccesses? <==> r.score >= q.minScore && r.successes < q.minSuccesses)
              && (Judge(d, q, e).Old? <==>
                    && r.score >= q.minScore && r.successes >= q.minSuccesses && q.maxAge.Some?
                    && (r.lastCheckedAt.None? || q.now - r.lastCheckedAt.value > q.maxAge.value))
              && (Judge(d, q, e).Chosen? <==> Qualifies(r, q))
  {
    if e in d.stored && d.stored[e].Encoded? {
      var r := d.stored[e].record;
      assert LatencyScore(r).Some? <==> r.health == Available && r.latency.Some? && 0.0 <= r.latency.value;
    }
  }

  /** What ZRANGEBYSCORE 0 maximum lists, of which every read is a slice. */
  ghost predicate IsRanking(index: map<Endpoint, real>, bound: Option<real>, ranking: seq<Endpoint>) {
    && NoDuplicates(ranking)
    && (forall e :: e in ranking <==> e in index && 0.0 <= index[e] && (bound.Some? ==> index[e] <= bound.value))
    && (forall i, j :: 0 <= i < j < |ranking| ==> index[ranking[i]] <= index[ranking[j]])
  }

  // ---------- What has been seen ----------

  datatype Tally = Tally(selected: seq<Endpoint>, stale: seq<Endpoint>, score: nat, successes: nat, freshness: nat,
                         inconsistent: nat)

  const NOTHING: Tally := Tally([], [], 0, 0, 0, 0)

  function Seen(d: Data, q: Query, t: Tally, e: Endpoint): Tally
    requires e in d.index
  {
    match Judge(d, q, e)
    case Inconsistent => t.(stale := t.stale + [e], inconsistent := t.inconsistent + 1)
    case LowScore => t.(score := t.score + 1)
    case FewSuccesses => t.(successes := t.successes + 1)
    case Old => t.(freshness := t.freshness + 1)
    case Chosen => t.(selected := t.selected + [e])
  }

  function TallyOf(d: Data, q: Query, names: seq<Endpoint>): Tally
    requires forall e :: e in names ==> e in d.index
  {
    if names == [] then NOTHING
    else Seen(d, q, TallyOf(d, q, names[..|names| - 1]), names[|names| - 1])
  }

  /** The inspected members on which the verdict was this one. */
  function JudgedIn(d: Data, q: Query, names: seq<Endpoint>, v: Verdict): set<Endpoint>
    requires forall e :: e in names ==> e in d.index
  {
    set e | e in names && Judge(d, q, e) == v
  }

  lemma JudgedLast(d: Data, q: Query, names: seq<Endpoint>, v: Verdict)
    requires (forall e :: e in names ==> e in d.index) && NoDuplicates(names) && names != []
    ensures var init, last := names[..|names| - 1], names[|names| - 1];
            |JudgedIn(d, q, names, v)| == |JudgedIn(d, q, init, v)| + if Judge(d, q, last) == v then 1 else 0
  {
    var init, last := names[..|names| - 1], names[|names| - 1];
    assert names == init + [last];
    if Judge(d, q, last) == v {
      assert JudgedIn(d, q, names, v) == JudgedIn(d, q, init, v) + {last};
    } else {
      assert JudgedIn(d, q, names, v) == JudgedIn(d, q, init, v);
    }
  }

  lemma {:induction false} TallyCounts(d: Data, q: Query, names: seq<Endpoint>)
    requires (forall e :: e in names ==> e in d.index) && NoDuplicates(names)
    ensures var t := TallyOf(d, q, names);
            && |t.selected| + t.score + t.successes + t.freshness + t.inconsistent == |names|
            && t.inconsistent == |t.stale| && CountsFit(d, q, names, t)
  {
    if names == [] {
    } else {
      TallyCounts(d, q, names[..|names| - 1]);
      JudgedLast(d, q, names, LowScore);
      JudgedLast(d, q, names, FewSuccesses);
      JudgedLast(d, q, names, Old);
      JudgedLast(d, q, names, Chosen);
      JudgedLast(d, q, names, Verdict.Inconsistent);
    }
  }

  /** Each counter counts the members on which its own verdict was given. */
  predicate CountsFit(d: Data, q: Query, names: seq<Endpoint>, t: Tally)
    requires forall e :: e in names ==> e in d.index
  {
    && t.score == |JudgedIn(d, q, names, LowScore)| && t.successes == |JudgedIn(d, q, names, FewSuccesses)|
    && t.freshness == |JudgedIn(d, q, names, Old)| && |t.selected| == |JudgedIn(d, q, names, Chosen)|
    && t.inconsistent == |JudgedIn(d, q, names, Verdict.Inconsistent)|
  }

  lemma {:induction false} TallyMembers(d: Data, q: Query, names: seq<Endpoint>, e: Endpoint)
    requires forall x :: x in names ==> x in d.index
    ensures e in TallyOf(d, q, names).selected <==> e in names && Judge(d, q, e) == Chosen
    ensures e in TallyOf(d, q, names).stale <==> e in names && Judge(d, q, e) == Inconsistent
  {
    if names == [] {
    } else {
      var init, last := names[..|names| - 1], names[|names| - 1];
      TallyMembers(d, q, init, e);
      assert e in names <==> e in init || e == last;
    }
  }

  lemma {:induction false} TallyIsDistinct(d: Data, q: Query, names: seq<Endpoint>)
    requires (forall e :: e in names ==> e in d.index) && NoDuplicates(names)
    ensures NoDuplicates(TallyOf(d, q, names).selected) && NoDuplicates(TallyOf(d, q, names).stale)
  {
    if names == [] {
    } else {
      var init, last := names[..|names| - 1], names[|names| - 1];
      TallyIsDistinct(d, q, init);
      TallyMembers(d, q, init, last);
    }
  }

  /** Every inspected member is selected or counted by exactly one counter, that of its own
      verdict, and the selected and the stale ones are exactly those judged so, once each. */
  lemma TallyIsExact(d: Data, q: Query, names: seq<Endpoint>)
    requires (forall e :: e in names ==> e in d.index) && NoDuplicates(names)
    ensures var t := TallyOf(d, q, names);
            && |t.selected| + t.score + t.successes + t.freshness + t.inconsistent == |names|
            && t.inconsistent == |t.stale| && CountsFit(d, q, names, t)
            && NoDuplicates(t.selected) && NoDuplicates(t.stale)
            && (forall e :: e in t.selected <==> e in names && Judge(d, q, e) == Chosen)
            && (forall e :: e in t.stale <==> e in names && Judge(d, q, e) == Inconsistent)
  {
    TallyCounts(d, q, names);
    TallyIsDistinct(d, q, names);
    forall e
      ensures e in TallyOf(d, q, names).selected <==> e in names && Judge(d, q, e) == Chosen
      ensures e in TallyOf(d, q, names).stale <==> e in names && Judge(d, q, e) == Inconsistent
    {
      TallyMembers(d, q, names, e);
    }
  }

  /** The members of the index that a selection may return. */
  function Eligible(d: Data, q: Query, ranking: seq<Endpoint>): set<Endpoint>
    requires forall e :: e in ranking ==> e in d.index
  {
    JudgedIn(d, q, ranking, Chosen)
  }

  lemma SelectedSize(d: Data, q: Query, ranking: seq<Endpoint>, names: seq<Endpoint>)
    requires (forall e :: e in ranking ==> e in d.index) && NoDuplicates(names)
    requires forall e :: e in names ==> e in ranking
    ensures |TallyOf(d, q, names).selected| <= |Eligible(d, q, ranking)|
    ensures (forall e :: e in ranking ==> e in names) ==>
              |TallyOf(d, q, names).selected| == |Eligible(d, q, ranking)|
  {
    TallyIsExact(d, q, names);
    var selected := TallyOf(d, q, names).selected;
    DistinctLength(selected);
    var found := set e | e in selected;
    SubsetSize(found, Eligible(d, q, ranking));
    if forall e :: e in ranking ==> e in names {
      assert found == Eligible(d, q, ranking);
    }
  }

  // ---------- The walk ----------

  datatype Answer =
    | Refused
    | NotReady
    | Selection(records: seq<Endpoint>, indexMembers: nat, candidates: nat, inspected: nat,
                score: nat, freshness: nat, successes: nat, inconsistent: nat)

  function Rotated(ranking: seq<Endpoint>, start: nat): (r: seq<Endpoint>)
    requires start <= |ranking|
    ensures |r| == |ranking|
  {
    ranking[start..] + ranking[..start]
  }

  lemma RotatedIsAll(ranking: seq<Endpoint>, start: nat)
    requires start <= |ranking| && NoDuplicates(ranking)
    ensures NoDuplicates(Rotated(ranking, start))
    ensures forall e :: e in Rotated(ranking, start) <==> e in ranking
  {
    var r := Rotated(ranking, start);
    assert forall i :: 0 <= i < |r| ==>
        r[i] == if i < |ranking| - start then ranking[i + start] else ranking[i - (|ranking| - start)];
    forall e | e in ranking ensures e in r {
      var i :| 0 <= i < |ranking| && ranking[i] == e;
      assert r[if i >= start then i - start else i + (|ranking| - start)] == e;
    }
  }

  method InspectBatch(d: Data, q: Query, ghost before: seq<Endpoint>, batch: seq<Endpoint>, t0: Tally)
    returns (t: Tally)
    requires (forall e :: e in before ==> e in d.index) && (forall e :: e in batch ==> e in d.index)
    requires t0 == TallyOf(d, q, before)
    ensures (forall e :: e in before + batch ==> e in d.index) && t == TallyOf(d, q, before + batch)
  {
    t := t0;
    ghost var seen := before;
    for i := 0 to |batch|
      invariant seen == before + batch[..i]
      invariant forall e :: e in seen ==> e in d.index
      invariant t == TallyOf(d, q, seen)
    {
      var e := batch[i];
      assert (seen + [e])[..|seen|] == seen;
      seen := seen + [e];
      if e !in d.stored || d.stored[e].Corrupt? {
        t := t.(stale := t.stale + [e], inconsistent := t.inconsistent + 1);
        continue;
      }
      match VerdictOn(d.stored[e].record, d.index[e], q)
      case Inconsistent => t := t.(stale := t.stale + [e], inconsistent := t.inconsistent + 1);
      case LowScore => t := t.(score := t.score + 1);
      case FewSuccesses => t := t.(successes := t.successes + 1);
      case Old => t := t.(freshness := t.freshness + 1);
      case Chosen => t := t.(selected := t.selected + [e]);
    }
    assert batch[..|batch|] == batch;
  }

  lemma NextStretch(before: seq<Endpoint>, segment: seq<Endpoint>, consumed: nat, length: nat)
    requires consumed + length <= |segment|
    ensures before + segment[..consumed + length]
            == (before + segment[..consumed]) + segment[consumed..consumed + length]
  {
  }

  /** One segment of the ranking, in batches, until enough are found. */
  method WalkSegment(d: Data, q: Query, ghost before: seq<Endpoint>, segment: seq<Endpoint>, batchSize: nat,
                     requested: nat, t0: Tally)
    returns (t: Tally, consumed: nat)
    requires batchSize > 0 && (forall e :: e in before ==> e in d.index) && (forall e :: e in segment ==> e in d.index)
    requires t0 == TallyOf(d, q, before)
    ensures consumed <= |segment|
    ensures (forall e :: e in before + segment[..consumed] ==> e in d.index)
    ensures t == TallyOf(d, q, before + segment[..consumed])
    ensures |t.selected| >= requested || consumed == |segment|
  {
    t, consumed := t0, 0;
    assert before + segment[..0] == before;
    ghost var seen := before;
    while consumed < |segment|
      invariant consumed <= |segment| && seen == before + segment[..consumed]
      invariant forall e :: e in seen ==> e in d.index
      invariant t == TallyOf(d, q, seen)
    {
      var length := Min(batchSize, |segment| - consumed);
      var batch := segment[consumed..consumed + length];
      NextStretch(before, segment, consumed, length);
      t := InspectBatch(d, q, seen, batch, t);
      seen := seen + batch;
      consumed := consumed + length;
      if |t.selected| >= requested {
        return;
      }
    }
  }

  /** Inspect the ranking from a random start around, in batches, until enough are found. */
  method Walk(d: Data, q: Query, ranking: seq<Endpoint>, start: nat, batchSize: nat, requested: nat)
    returns (t: Tally, inspected: nat)
    requires start < |ranking| && batchSize > 0 && requested > 0
    requires forall e :: e in Rotated(ranking, start) ==> e in d.index
    ensures inspected <= |ranking|
    ensures t == TallyOf(d, q, Rotated(ranking, start)[..inspected])
    ensures |t.selected| >= requested || inspected == |ranking|
  {
    ghost var around := Rotated(ranking, start);
    var first, second := ranking[start..], ranking[..start];
    assert (forall e :: e in first ==> e in around) && (forall e :: e in second ==> e in around);
    t, inspected := WalkSegment(d, q, [], first, batchSize, requested, NOTHING);
    assert [] + first[..inspected] == around[..inspected];
    if |t.selected| >= requested {
      return;
    }
    assert around[..inspected] == first;
    var more;
    t, more := WalkSegment(d, q, first, second, batchSize, requested, t);
    inspected := inspected + more;
    assert first + second[..more] == around[..inspected];
  }

  /** A uniform shuffle, with every random pick left open. */
  method Shuffle(s: seq<Endpoint>) returns (r: seq<Endpoint>)
    ensures multiset(r) == multiset(s) && |r| == |s|
  {
    r := s;
    var i := |r|;
    while i > 1
      invariant i <= |r| == |s|
      invariant multiset(r) == multiset(s)
    {
      i := i - 1;
      var j :| 0 <= j <= i;
      r := r[i := r[j]][j := r[i]];
    }
  }

  lemma ShuffledIsDistinct(s: seq<Endpoint>, r: seq<Endpoint>)
    requires NoDuplicates(s) && multiset(r) == multiset(s) && |r| == |s|
    ensures NoDuplicates(r) && forall e :: e in r <==> e in s
  {
    assert forall e :: e in r <==> e in multiset(r);
    assert forall e :: e in s <==> e in multiset(s);
    DistinctLength(s);
    assert (set e | e in s) == (set e | e in r);
    LengthDistinct(r);
  }

  lemma {:induction false} LengthDistinct(r: seq<Endpoint>)
    ensures |set e | e in r| <= |r|
    ensures |set e | e in r| == |r| ==> NoDuplicates(r)
  {
    if r == [] {
    } else {
      var init, last := r[..|r| - 1], r[|r| - 1];
      LengthDistinct(init);
      var names := set e | e in init;
      assert (set e | e in r) == names + {last};
      if last in names {
        assert names + {last} == names;
      }
    }
  }

  // ---------- The operations ----------

  function StaleIn(d: Data, q: Query, seen: seq<Endpoint>): set<Endpoint>
    requires forall e :: e in seen ==> e in d.index
  {
    JudgedIn(d, q, seen, Verdict.Inconsistent)
  }

  lemma StaleMembers(d: Data, q: Query, seen: seq<Endpoint>)
    requires (forall e :: e in seen ==> e in d.index) && NoDuplicates(seen)
    ensures (set e | e in TallyOf(d, q, seen).stale) == StaleIn(d, q, seen)
  {
    TallyIsExact(d, q, seen);
    assert (set e | e in TallyOf(d, q, seen).stale) == StaleIn(d, q, seen);
  }

  /** Inspect until enough are found; `seen` names the members inspected, in order. */
  method Search(d: Data, q: Query, ranking: seq<Endpoint>, start: nat, requested: nat)
    returns (t: Tally, inspected: nat, ghost seen: seq<Endpoint>)
    requires IsRanking(d.index, q.maxLatency, ranking) && start < |ranking| && requested > 0
    ensures NoDuplicates(seen) && (forall e :: e in seen ==> e in ranking) && inspected == |seen|
    ensures t == TallyOf(d, q, seen)
    ensures Min(requested, |t.selected|) == Min(requested, |Eligible(d, q, ranking)|)
  {
    RotatedIsAll(ranking, start);
    t, inspected := Walk(d, q, ranking, start, 200, requested);
    ghost var around := Rotated(ranking, start);
    seen := around[..inspected];
    assert forall e :: e in seen ==> e in around;
    SelectedSize(d, q, ranking, seen);
    if inspected == |ranking| {
      assert seen == around;
    }
  }

  /** What is returned of the selected members: so many of them, in random order. */
  method Drawn(selected: seq<Endpoint>, requested: nat) returns (records: seq<Endpoint>)
    requires NoDuplicates(selected)
    ensures |records| == Min(requested, |selected|) && NoDuplicates(records)
    ensures forall e :: e in records ==> e in selected
  {
    var shuffled := Shuffle(selected);
    ShuffledIsDistinct(selected, shuffled);
    records := shuffled[..Min(requested, |shuffled|)];
    assert forall e :: e in records ==> e in shuffled;
  }

  /** The counters of an answer: of the inspected members, those on which each verdict was given. */
  predicate Reports(d: Data, q: Query, seen: seq<Endpoint>, answer: Answer)
    requires answer.Selection? && forall e :: e in seen ==> e in d.index
  {
    && answer.inspected == |seen|
    && answer.inspected == |JudgedIn(d, q, seen, Chosen)| + answer.score + answer.freshness
                           + answer.successes + answer.inconsistent
    && answer.score == |JudgedIn(d, q, seen, LowScore)| && answer.freshness == |JudgedIn(d, q, seen, Old)|
    && answer.successes == |JudgedIn(d, q, seen, FewSuccesses)| && answer.inconsistent == |StaleIn(d, q, seen)|
  }

  lemma EligibleQualify(d: Data, q: Query, ranking: seq<Endpoint>, records: seq<Endpoint>)
    requires forall e :: e in ranking ==> e in d.index
    requires forall e :: e in records ==> e in Eligible(d, q, ranking)
    ensures forall e :: e in records ==>
              e in d.stored && d.stored[e].Encoded? && Qualifies(d.stored[e].record, q)
  {
    forall e | e in records ensures e in d.stored && d.stored[e].Encoded? && Qualifies(d.stored[e].record, q) {
      JudgedExactly(d, q, e);
    }
  }

  /** Select up to min(count, 20) proxies at random; the random start is a parameter. */
  method SelectRandomProxies(d: Data, q: Query, ready: bool, ranking: seq<Endpoint>, start: nat, cleanup: bool)
    returns (answer: Answer, index: map<Endpoint, real>, ghost seen: seq<Endpoint>)
    requires IsRanking(d.index, q.maxLatency, ranking) && (ranking != [] ==> start < |ranking|)
    ensures answer.Refused? <==>
              || q.count <= 0 || q.minScore < 0 || q.minScore > 100 || q.minSuccesses <= 0
              || (q.maxLatency.Some? && q.maxLatency.value < 0.0) || (q.maxAge.Some? && q.maxAge.value <= 0)
    ensures answer.NotReady? <==> !answer.Refused? && !ready
    ensures NoDuplicates(seen) && forall e :: e in seen ==> e in ranking
    ensures answer.Selection? ==>
              && |answer.records| == Min(Min(q.count, 20), |Eligible(d, q, ranking)|)
              && NoDuplicates(answer.records) && (forall e :: e in answer.records ==> e in Eligible(d, q, ranking))
    ensures answer.Selection? ==> forall e :: e in answer.records ==>
              e in d.stored && d.stored[e].Encoded? && Qualifies(d.stored[e].record, q)
    ensures answer.Selection? ==>
              && answer.indexMembers == |d.index| && answer.candidates == |ranking| && Reports(d, q, seen, answer)
    ensures index == if answer.Selection? && cleanup then d.index - StaleIn(d, q, seen) else d.index
  {
    index, seen := d.index, [];
    if !ValidQuery(q) {
      return Refused, index, seen;
    }
    if !ready {
      return NotReady, index, seen;
    }
    if ranking == [] {
      assert d.index - {} == d.index;
      answer := Selection([], |d.index|, 0, 0, 0, 0, 0, 0);
      return;
    }
    var requested := Min(q.count, 20);
    var t, inspected;
    t, inspected, seen := Search(d, q, ranking, start, requested);
    TallyIsExact(d, q, seen);
    StaleMembers(d, q, seen);
    if cleanup {
      index := index - set e | e in t.stale;
    }
    var records := Drawn(t.selected, requested);
    EligibleQualify(d, q, ranking, records);
    answer := Selection(records, |d.index|, |ranking|, inspected, t.score, t.freshness, t.successes, t.inconsistent);
  }

  method InspectAll(d: Data, q: Query, ranking: seq<Endpoint>) returns (t: Tally)
    requires forall e :: e in ranking ==> e in d.index
    ensures t == TallyOf(d, q, ranking)
  {
    t := NOTHING;
    var offset := 0;
    ghost var seen: seq<Endpoint> := [];
    while offset < |ranking|
      invariant offset <= |ranking| && seen == ranking[..offset]
      invariant forall e :: e in seen ==> e in d.index
      invariant t == TallyOf(d, q, seen)
    {
      var length := Min(500, |ranking| - offset);
      var batch := ranking[offset..offset + length];
      t := InspectBatch(d, q, seen, batch, t);
      seen := seen + batch;
      offset := offset + length;
    }
    assert ranking[..|ranking|] == ranking;
  }

  /** Count what a selection could return: every candidate is inspected, in batches of 500. */
  method SelectionCounts(d: Data, q: Query, ready: bool, ranking: seq<Endpoint>)
    returns (counts: Option<(nat, nat, nat)>, index: map<Endpoint, real>)
    requires IsRanking(d.index, q.maxLatency, ranking)
    ensures counts == if ready then Some((|d.index|, |ranking|, |Eligible(d, q, ranking)|)) else None
    ensures index == if ready then d.index - StaleIn(d, q, ranking) else d.index
  {
    index := d.index;
    if !ready {
      return None, index;
    }
    var t := InspectAll(d, q, ranking);
    SelectedSize(d, q, ranking, ranking);
    StaleMembers(d, q, ranking);
    index := index - set e | e in t.stale;
    counts := Some((|d.index|, |ranking|, |t.selected|));
  }

  // ---------- The naive scan ----------

  function NaiveScan(s: State, q: Query): set<Endpoint> {
    set e | e in s.records && Qualifies(s.records[e], q)
  }

  function DataOf(s: State): Data {
    Data(map e | e in s.records :: Encoded(s.records[e]), s.latency)
  }

  /** What a selection judges inconsistent is what the pool calls so. */
  lemma SameInconsistency(s: State, q: Query, e: Endpoint)
    requires e in s.latency
    ensures Judge(DataOf(s), q, e) == Verdict.Inconsistent <==> Pool.Inconsistent(s, q.maxLatency, e)
  {
  }

  /** In every state that the pool reaches, going through the index finds exactly the records
      that a scan of all records would, and nothing in the index is inconsistent, so that
      the cleanup never removes anything. */
  lemma IndexFindsTheScan(s: State, fastBelow: real, q: Query, ranking: seq<Endpoint>)
    requires PoolRuns.Inv(s, fastBelow) && IsRanking(s.latency, q.maxLatency, ranking)
    ensures Eligible(DataOf(s), q, ranking) == NaiveScan(s, q)
    ensures forall e :: e in ranking ==> Judge(DataOf(s), q, e) != Inconsistent
  {
    var d := DataOf(s);
    forall e ensures e in Eligible(d, q, ranking) <==> e in NaiveScan(s, q) {
      assert PoolRuns.Agrees(s, fastBelow, e);
    }
    forall e | e in ranking ensures Judge(d, q, e) != Verdict.Inconsistent {
      SameInconsistency(s, q, e);
      PoolRuns.NothingIsInconsistent(s, fastBelow, q.maxLatency, e);
    }
  }
}
