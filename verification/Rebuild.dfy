/** The rebuild of the two selection indexes: a scan of all records in batches into temporary
    sets, and one swap at the end. Nothing else writes meanwhile. */
module Rebuild {
  import opened SortedSets
  import opened Pool
  import opened Selection
  import opened Scans

  /** The score of an endpoint in the latency index; what cannot be decoded has none. */
  function LatencyIn(stored: map<Endpoint, Payload>, e: Endpoint): Option<real> {
    if e in stored && stored[e].Encoded? then LatencyScore(stored[e].record) else None
  }

  function PriorityIn(stored: map<Endpoint, Payload>, fastBelow: real, e: Endpoint): Option<int> {
    if e in stored && stored[e].Encoded? then PriorityScore(stored[e].record, fastBelow) else None
  }

  /** The two indexes that the records call for. */
  function LatencyIndex(stored: map<Endpoint, Payload>): map<Endpoint, real> {
    map e | e in stored && LatencyIn(stored, e).Some? :: LatencyIn(stored, e).value
  }

  function PriorityIndex(stored: map<Endpoint, Payload>, fastBelow: real): map<Endpoint, int> {
    map e | e in stored && PriorityIn(stored, fastBelow, e).Some? :: PriorityIn(stored, fastBelow, e).value
  }

  /** The part of an index that belongs to the given endpoints. */
  function Among<V>(x: map<Endpoint, V>, names: seq<Endpoint>): map<Endpoint, V> {
    if names == [] then map[]
    else
      var n := |names| - 1;
      var rest := Among(x, names[..n]);
      if names[n] in x then rest[names[n] := x[names[n]]] else rest
  }

  datatype Summary =
    | Mismatch
    | Summary(scanned: nat, indexed: nat, priorityIndexed: nat, ignored: nat, dryRun: bool)

  lemma PlusNothing<V>(m: map<Endpoint, V>)
    ensures m + map[] == m
  {
  }

  lemma Disjoint<V>(a: map<Endpoint, V>, b: map<Endpoint, V>)
    requires a.Keys !! b.Keys
    ensures |a + b| == |a| + |b|
  {
    assert (a + b).Keys == a.Keys + b.Keys;
  }

  lemma {:induction false} AmongOn<V>(x: map<Endpoint, V>, names: seq<Endpoint>, e: Endpoint)
    ensures e in Among(x, names) <==> e in names && e in x
    ensures e in Among(x, names) ==> Among(x, names)[e] == x[e]
  {
    if names == [] {
    } else {
      var n := |names| - 1;
      AmongOn(x, names[..n], e);
      assert e in names <==> e in names[..n] || e == names[n];
    }
  }

  lemma {:induction false} AmongAppend<V>(x: map<Endpoint, V>, a: seq<Endpoint>, b: seq<Endpoint>)
    ensures Among(x, a + b) == Among(x, a) + Among(x, b)
    decreases |b|
  {
    if b == [] {
      assert a + b == a;
    } else {
      var n := |b| - 1;
      AmongAppend(x, a, b[..n]);
      assert (a + b)[..|a| + n] == a + b[..n];
    }
  }

  /** Two batches without a common endpoint add up. */
  lemma AmongSize<V>(x: map<Endpoint, V>, a: seq<Endpoint>, b: seq<Endpoint>)
    requires NoDuplicates(a + b)
    ensures Among(x, a + b) == Among(x, a) + Among(x, b)
    ensures |Among(x, a + b)| == |Among(x, a)| + |Among(x, b)|
  {
    AmongAppend(x, a, b);
    forall e | e in Among(x, a) ensures e !in Among(x, b) {
      AmongOn(x, a, e);
      AmongOn(x, b, e);
      var i :| 0 <= i < |a| && a[i] == e;
      assert (a + b)[i] == e;
      assert forall j :: 0 <= j < |b| ==> b[j] == (a + b)[|a| + j];
    }
    Disjoint(Among(x, a), Among(x, b));
  }

  lemma AmongAll<V>(x: map<Endpoint, V>, names: seq<Endpoint>)
    requires forall e :: e in x ==> e in names
    ensures Among(x, names) == x
  {
    forall e ensures e in Among(x, names) <==> e in x
      ensures e in Among(x, names) ==> Among(x, names)[e] == x[e]
    {
      AmongOn(x, names, e);
    }
  }

  lemma ScanSize(stored: map<Endpoint, Payload>, names: seq<Endpoint>)
    requires NoDuplicates(names) && forall e :: e in names <==> e in stored
    ensures |names| == |stored|
  {
    DistinctLength(names);
    assert (set e | e in names) == stored.Keys;
  }

  /** What one batch of the scan contributes. */
  method RankBatch(stored: map<Endpoint, Payload>, fastBelow: real, batch: seq<Endpoint>)
    returns (eligible: map<Endpoint, real>, fast: map<Endpoint, int>, ignored: nat)
    requires NoDuplicates(batch) && forall e :: e in batch ==> e in stored
    ensures eligible == Among(LatencyIndex(stored), batch)
    ensures fast == Among(PriorityIndex(stored, fastBelow), batch)
    ensures ignored + |eligible| == |batch|
  {
    eligible, fast, ignored := map[], map[], 0;
    ghost var x, y := LatencyIndex(stored), PriorityIndex(stored, fastBelow);
    for i := 0 to |batch|
      invariant eligible == Among(x, batch[..i]) && fast == Among(y, batch[..i])
      invariant ignored + |eligible| == i
    {
      var e := batch[i];
      assert batch[..i + 1][..i] == batch[..i];
      AmongOn(x, batch[..i], e);
      if stored[e].Corrupt? {
        ignored := ignored + 1;
        continue;
      }
      var score := LatencyScore(stored[e].record);
      if score.None? {
        ignored := ignored + 1;
        continue;
      }
      eligible := eligible[e := score.value];
      var dueAt := PriorityScore(stored[e].record, fastBelow);
      if dueAt.Some? {
        fast := fast[e := dueAt.value];
      }
    }
    assert batch[..|batch|] == batch;
  }

  class Indexes {
    var latency: map<Endpoint, real>
    var priority: map<Endpoint, int>
    var temporary: map<Endpoint, real>
    var priorityTemporary: map<Endpoint, int>
    var ready: bool

    constructor ()
      ensures latency == map[] && priority == map[] && temporary == map[] && priorityTemporary == map[] && !ready
    {
      latency, priority, temporary, priorityTemporary, ready := map[], map[], map[], map[], false;
    }

    /** REPLACE_SELECTION_INDEXES: both temporary sets take the place of the indexes at once. */
    method Replace() returns (written: nat, priorityWritten: nat)
      modifies this
      ensures latency == old(temporary) && priority == old(priorityTemporary) && ready
      ensures written == |latency| && priorityWritten == |priority|
    {
      latency, temporary := temporary, map[];
      priority, priorityTemporary := priorityTemporary, map[];
      ready := true;
      written, priorityWritten := |latency|, |priority|;
    }

    /** Write one batch into the temporary sets, unless there is nothing to write. */
    method Write(eligible: map<Endpoint, real>, fast: map<Endpoint, int>)
      modifies this`temporary, this`priorityTemporary
      ensures temporary == old(temporary) + eligible && priorityTemporary == old(priorityTemporary) + fast
    {
      if eligible != map[] {
        temporary := temporary + eligible;
      } else {
        PlusNothing(temporary);
      }
      if fast != map[] {
        priorityTemporary := priorityTemporary + fast;
      } else {
        PlusNothing(priorityTemporary);
      }
    }

    /** Scan everything into the temporary sets. */
    method Scan(stored: map<Endpoint, Payload>, fastBelow: real, batches: seq<seq<Endpoint>>, dryRun: bool)
      returns (scanned: nat, indexed: nat, priorityIndexed: nat, ignored: nat)
      requires IsScan(stored, batches) && temporary == map[] && priorityTemporary == map[]
      modifies this`temporary, this`priorityTemporary
      ensures scanned == |stored| && ignored + indexed == scanned
      ensures indexed == |LatencyIndex(stored)| && priorityIndexed == |PriorityIndex(stored, fastBelow)|
      ensures temporary == if dryRun then map[] else LatencyIndex(stored)
      ensures priorityTemporary == if dryRun then map[] else PriorityIndex(stored, fastBelow)
    {
      scanned, indexed, priorityIndexed, ignored := 0, 0, 0, 0;
      ghost var x, y := LatencyIndex(stored), PriorityIndex(stored, fastBelow);
      ghost var seen: seq<Endpoint> := [];
      for i := 0 to |batches|
        invariant seen == Joined(batches[..i])
        invariant scanned == |seen| && ignored + indexed == scanned
        invariant indexed == |Among(x, seen)| && priorityIndexed == |Among(y, seen)|
        invariant temporary == if dryRun then map[] else Among(x, seen)
        invariant priorityTemporary == if dryRun then map[] else Among(y, seen)
      {
        ghost var next := NextBatch(batches, i, seen);
        var eligible, fast, unfit := RankBatch(stored, fastBelow, batches[i]);
        AmongSize(x, seen, batches[i]);
        AmongSize(y, seen, batches[i]);
        scanned := scanned + |batches[i]|;
        ignored := ignored + unfit;
        indexed := indexed + |eligible|;
        priorityIndexed := priorityIndexed + |fast|;
        if !dryRun {
          Write(eligible, fast);
        }
        seen := next;
      }
      assert batches[..|batches|] == batches;
      AmongAll(x, seen);
      AmongAll(y, seen);
      ScanSize(stored, seen);
    }

    /** A rebuild leaves exactly what the records say, in both indexes and in its counts, and
        the check of its own writes never fails. A dry run counts the same and writes nothing. */
    method Rebuild(stored: map<Endpoint, Payload>, fastBelow: real, batches: seq<seq<Endpoint>>, dryRun: bool)
      returns (summary: Summary)
      requires IsScan(stored, batches) && temporary == map[] && priorityTemporary == map[]
      modifies this
      ensures summary.Summary? && summary.scanned == |stored| && summary.dryRun == dryRun
      ensures summary.indexed == |LatencyIndex(stored)| && summary.indexed + summary.ignored == |stored|
      ensures summary.priorityIndexed == |PriorityIndex(stored, fastBelow)|
      ensures temporary == map[] && priorityTemporary == map[]
      ensures if dryRun then latency == old(latency) && priority == old(priority) && ready == old(ready)
              else latency == LatencyIndex(stored)
                   && priority == PriorityIndex(stored, fastBelow) && ready
    {
      var scanned, indexed, priorityIndexed, ignored := Scan(stored, fastBelow, batches, dryRun);
      if !dryRun {
        var written, priorityWritten := Replace();
        if written != indexed || priorityWritten != priorityIndexed {
          return Mismatch;
        }
      }
      temporary, priorityTemporary := map[], map[];
      summary := Summary(scanned, indexed, priorityIndexed, ignored, dryRun);
    }
  }

  lemma NextBatch(batches: seq<seq<Endpoint>>, i: nat, seen: seq<Endpoint>) returns (next: seq<Endpoint>)
    requires i < |batches| && seen == Joined(batches[..i]) && NoDuplicates(Joined(batches))
    ensures next == seen + batches[i] == Joined(batches[..i + 1]) && NoDuplicates(next)
    ensures NoDuplicates(batches[i]) && forall e :: e in batches[i] ==> e in Joined(batches)
  {
    next := seen + batches[i];
    assert batches[..i + 1][..i] == batches[..i];
    JoinedPrefix(batches, i + 1);
    var all := Joined(batches);
    assert forall k :: 0 <= k < |next| ==> next[k] == all[k];
    assert forall k :: 0 <= k < |batches[i]| ==> batches[i][k] == next[|seen| + k];
  }

  /** The pool's own records all decode. */
  lemma RebuildOfPool(s: State, fastBelow: real)
    ensures var stored := DataOf(s).stored;
            Rebuilt(s, fastBelow)
            == s.(latency := LatencyIndex(stored), priority := PriorityIndex(stored, fastBelow))
  {
    var stored := DataOf(s).stored;
    assert LatencyIndex(stored) == ExactLatency(s.records);
    assert PriorityIndex(stored, fastBelow) == ExactPriority(s.records, fastBelow);
  }
}
