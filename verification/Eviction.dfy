/** Which records a full pool gives up: the lowest-ranked ones that are not leased, found by
    keeping the best candidates of a scan batch by batch. */
module Eviction {
  import opened SortedSets
  import opened Pool

  // ---------- The ranking ----------

  /** Code points decide, and a proper prefix comes first. */
  predicate TextBefore(a: string, b: string) {
    if b == "" then false
    else if a == "" then true
    else if a[0] != b[0] then a[0] < b[0]
    else TextBefore(a[1..], b[1..])
  }

  datatype Rank = Rank(health: int, score: int, age: int, endpoint: Endpoint)

  /** Quarantined records go first, those checked longest ago before the others; the rest by
      score and by when they were last seen. */
  function RankOf(r: Record, e: Endpoint): Rank {
    if r.health == Quarantined
    then Rank(0, r.score, if r.lastCheckedAt.Some? then r.lastCheckedAt.value else r.firstSeenAt, e)
    else Rank(1, r.score, r.lastSeenAt, e)
  }

  predicate Before(a: Rank, b: Rank) {
    if a.health != b.health then a.health < b.health
    else if a.score != b.score then a.score < b.score
    else if a.age != b.age then a.age < b.age
    else TextBefore(a.endpoint, b.endpoint)
  }

  lemma {:induction false} TextOrder(a: string, b: string)
    ensures a != b <==> TextBefore(a, b) || TextBefore(b, a)
    ensures !(TextBefore(a, b) && TextBefore(b, a))
  {
    if a == "" || b == "" || a[0] != b[0] {
    } else {
      TextOrder(a[1..], b[1..]);
      assert a == [a[0]] + a[1..] && b == [b[0]] + b[1..];
    }
  }

  lemma {:induction false} TextTransitive(a: string, b: string, c: string)
    requires TextBefore(a, b) && TextBefore(b, c)
    ensures TextBefore(a, c)
  {
    if a != "" && a[0] == b[0] == c[0] {
      TextTransitive(a[1..], b[1..], c[1..]);
    }
  }

  /** Two texts agree up to k and there the first ends or has the smaller character. */
  predicate DepartsAt(a: string, b: string, k: nat) {
    && k <= |a| && k <= |b| && a[..k] == b[..k]
    && ((k == |a| && k < |b|) || (k < |a| && k < |b| && a[k] < b[k]))
  }

  /** The recursive order is the lexicographic one. */
  lemma {:induction false} TextBeforeExactly(a: string, b: string)
    ensures TextBefore(a, b) <==> exists k: nat :: DepartsAt(a, b, k)
  {
    if a == "" || b == "" || a[0] != b[0] {
      assert DepartsAt(a, b, 0) <==> TextBefore(a, b);
      forall k: nat | k > 0 ensures !DepartsAt(a, b, k) {
        if k <= |a| && k <= |b| && a != "" && b != "" {
          assert a[..k][0] == a[0] && b[..k][0] == b[0];
        }
      }
    } else {
      TextBeforeExactly(a[1..], b[1..]);
      forall k: nat | k > 0 ensures DepartsAt(a, b, k) <==> DepartsAt(a[1..], b[1..], k - 1) {
        if k <= |a| && k <= |b| {
          assert a[..k] == [a[0]] + a[1..][..k - 1] && b[..k] == [b[0]] + b[1..][..k - 1];
        }
      }
      assert !DepartsAt(a, b, 0);
      if TextBefore(a, b) {
        var j: nat :| DepartsAt(a[1..], b[1..], j);
        assert DepartsAt(a, b, j + 1);
      }
    }
  }

  lemma RankOrder(a: Rank, b: Rank)
    ensures a != b <==> Before(a, b) || Before(b, a)
    ensures !(Before(a, b) && Before(b, a))
  {
    TextOrder(a.endpoint, b.endpoint);
  }

  lemma RankTransitive(a: Rank, b: Rank, c: Rank)
    requires Before(a, b) && Before(b, c)
    ensures Before(a, c)
  {
    if a.endpoint != b.endpoint && TextBefore(a.endpoint, b.endpoint) && TextBefore(b.endpoint, c.endpoint) {
      TextTransitive(a.endpoint, b.endpoint, c.endpoint);
    }
  }

  // ---------- Sorting ----------

  function Insert(x: Rank, s: seq<Rank>): seq<Rank> {
    if s == [] then [x]
    else if Before(x, s[0]) then [x] + s
    else [s[0]] + Insert(x, s[1..])
  }

  lemma {:induction false} InsertContents(x: Rank, s: seq<Rank>)
    ensures multiset(Insert(x, s)) == multiset(s) + multiset{x}
  {
    if s == [] || Before(x, s[0]) {
    } else {
      InsertContents(x, s[1..]);
      assert s == [s[0]] + s[1..];
    }
  }

  /** Insert all of `b` into `s`, one after the other. */
  function SortInto(s: seq<Rank>, b: seq<Rank>): seq<Rank>
    decreases |b|
  {
    if b == [] then s else SortInto(Insert(b[0], s), b[1..])
  }

  /** Python's sorted(), on ranks that are all different. */
  function Sorted(b: seq<Rank>): seq<Rank> {
    SortInto([], b)
  }

  lemma {:induction false} SortIntoContents(s: seq<Rank>, b: seq<Rank>)
    ensures multiset(SortInto(s, b)) == multiset(s) + multiset(b)
    decreases |b|
  {
    if b == [] {
    } else {
      InsertContents(b[0], s);
      SortIntoContents(Insert(b[0], s), b[1..]);
      assert b == [b[0]] + b[1..];
    }
  }

  predicate Ascending(s: seq<Rank>) {
    forall i, j :: 0 <= i < j < |s| ==> Before(s[i], s[j])
  }

  function First(s: seq<Rank>, n: nat): seq<Rank> {
    if n <= |s| then s[..n] else s
  }

  lemma {:induction false} InsertAscends(x: Rank, s: seq<Rank>)
    requires Ascending(s) && x !in s
    ensures Ascending(Insert(x, s))
  {
    if s == [] {
    } else if Before(x, s[0]) {
      forall j | 0 <= j < |s| ensures Before(x, s[j]) {
        if j > 0 {
          RankTransitive(x, s[0], s[j]);
        }
      }
    } else {
      RankOrder(x, s[0]);
      InsertAscends(x, s[1..]);
      InsertContents(x, s[1..]);
      var r := Insert(x, s[1..]);
      forall j | 0 <= j < |r| ensures Before(s[0], r[j]) {
        assert r[j] in multiset(r);
        assert r[j] == x || r[j] in s[1..];
      }
    }
  }

  lemma {:induction false} SortIntoAscends(s: seq<Rank>, b: seq<Rank>)
    requires Ascending(s) && NoDuplicates(b) && forall x :: x in b ==> x !in s
    ensures Ascending(SortInto(s, b))
    decreases |b|
  {
    if b == [] {
    } else {
      InsertAscends(b[0], s);
      InsertContents(b[0], s);
      var s1 := Insert(b[0], s);
      forall x | x in b[1..] ensures x !in s1 {
        var k :| 0 <= k < |b[1..]| && b[1..][k] == x;
        assert b[k + 1] == x && x in b;
        assert x in s1 ==> x in multiset(s1);
      }
      SortIntoAscends(s1, b[1..]);
    }
  }

  /** A sorted sequence is its own sorting. */
  lemma {:induction false} SortedIsStable(done: seq<Rank>, s: seq<Rank>)
    requires Ascending(done + s)
    ensures SortInto(done, s) == done + s
    decreases |s|
  {
    if s != [] {
      var all := done + s;
      assert forall i :: 0 <= i < |done| ==> all[i] == done[i];
      assert all[|done|] == s[0];
      InsertLast(s[0], done);
      assert all == (done + [s[0]]) + s[1..];
      SortedIsStable(done + [s[0]], s[1..]);
    } else {
      assert done + s == done;
    }
  }

  lemma {:induction false} InsertLast(x: Rank, s: seq<Rank>)
    requires forall i :: 0 <= i < |s| ==> Before(s[i], x)
    ensures Insert(x, s) == s + [x]
  {
    if s == [] {
    } else {
      RankOrder(x, s[0]);
      InsertLast(x, s[1..]);
      assert s == [s[0]] + s[1..];
    }
  }

  // ---------- Keeping the first n, batch by batch ----------

  lemma {:induction false} InsertKeepsFirst(x: Rank, s: seq<Rank>, n: nat)
    ensures First(Insert(x, First(s, n)), n) == First(Insert(x, s), n)
  {
    if n == 0 {
      assert First(Insert(x, First(s, n)), n) == [] == First(Insert(x, s), n);
    } else if n < |s| {
      var kept := First(s, n);
      assert kept[0] == s[0] && kept[1..] == First(s[1..], n - 1);
      if Before(x, s[0]) {
        assert First([x] + kept, n) == First([x] + s, n);
      } else {
        InsertKeepsFirst(x, s[1..], n - 1);
        FirstCons(s[0], Insert(x, s[1..]), n);
        FirstCons(s[0], Insert(x, kept[1..]), n);
      }
    } else {
      assert First(s, n) == s;
    }
  }

  lemma FirstCons(x: Rank, s: seq<Rank>, n: nat)
    requires n > 0
    ensures First([x] + s, n) == [x] + First(s, n - 1)
  {
  }

  lemma {:induction false} SortIntoKeepsFirst(s: seq<Rank>, b: seq<Rank>, n: nat)
    ensures First(SortInto(First(s, n), b), n) == First(SortInto(s, b), n)
    decreases |b|
  {
    if b == [] {
      assert First(First(s, n), n) == First(s, n);
    } else {
      InsertKeepsFirst(b[0], s, n);
      SortIntoKeepsFirst(Insert(b[0], First(s, n)), b[1..], n);
      SortIntoKeepsFirst(Insert(b[0], s), b[1..], n);
    }
  }

  lemma {:induction false} SortIntoAppend(s: seq<Rank>, a: seq<Rank>, b: seq<Rank>)
    ensures SortInto(s, a + b) == SortInto(SortInto(s, a), b)
    decreases |a|
  {
    if a == [] {
      assert a + b == b;
    } else {
      SortIntoAppend(Insert(a[0], s), a[1..], b);
      assert (a + b)[1..] == a[1..] + b;
    }
  }

  /** Sorting a sorted sequence and a batch is sorting the batch into it. */
  lemma SortedAppend(kept: seq<Rank>, batch: seq<Rank>)
    requires Ascending(kept)
    ensures Sorted(kept + batch) == SortInto(kept, batch)
  {
    assert [] + kept == kept;
    SortedIsStable([], kept);
    SortIntoAppend([], kept, batch);
  }

  lemma FirstAscends(s: seq<Rank>, n: nat)
    requires Ascending(s)
    ensures Ascending(First(s, n))
  {
  }

  /** One batch of the scan: what the kept candidates and the batch leave is what all
      candidates so far and the batch leave. */
  lemma BatchKeepsFirst(all: seq<Rank>, sorted: seq<Rank>, batch: seq<Rank>, n: nat)
    requires sorted == Sorted(all) && NoDuplicates(all)
    ensures First(Sorted(First(sorted, n) + batch), n) == First(Sorted(all + batch), n)
  {
    SortIntoAscends([], all);
    FirstAscends(sorted, n);
    SortedAppend(First(sorted, n), batch);
    SortIntoKeepsFirst(sorted, batch, n);
    SortIntoAppend([], all, batch);
  }

  // ---------- What is kept in the end ----------

  function Unleased(s: State): set<Endpoint> {
    set e | e in s.records && e !in s.leased
  }

  function RankIn(s: State, e: Endpoint): Rank
    requires e in s.records
  {
    RankOf(s.records[e], e)
  }

  /** `gone` are the `excess` lowest-ranked endpoints that are not leased. */
  ghost predicate IsLowest(s: State, excess: nat, gone: seq<Endpoint>) {
    && NoDuplicates(gone)
    && (forall e :: e in gone ==> e in Unleased(s))
    && |gone| == Min(excess, |Unleased(s)|)
    && forall e, kept :: e in gone && kept in Unleased(s) && kept !in gone ==> Before(RankIn(s, e), RankIn(s, kept))
  }

  /** What is given up goes before what is kept: quarantined records before all others; among
      quarantined ones and among the others the lower score first; at equal score the one
      checked (or, if it never was, first seen) longest ago among quarantined ones, the one
      last seen longest ago among the others; and at last the endpoint that comes first. */
  lemma GoneBeforeKept(s: State, excess: nat, gone: seq<Endpoint>, e: Endpoint, kept: Endpoint)
    requires IsLowest(s, excess, gone) && e in gone && kept in Unleased(s) && kept !in gone
    ensures var a, b := s.records[e], s.records[kept];
            var ageA := match a.lastCheckedAt case Some(at) => at case None => a.firstSeenAt;
            var ageB := match b.lastCheckedAt case Some(at) => at case None => b.firstSeenAt;
            if a.health == Quarantined && b.health == Quarantined then
              || a.score < b.score
              || (a.score == b.score && ageA < ageB)
              || (a.score == b.score && ageA == ageB && exists k: nat :: DepartsAt(e, kept, k))
            else if a.health != Quarantined && b.health != Quarantined then
              || a.score < b.score
              || (a.score == b.score && a.lastSeenAt < b.lastSeenAt)
              || (a.score == b.score && a.lastSeenAt == b.lastSeenAt && exists k: nat :: DepartsAt(e, kept, k))
            else
              a.health == Quarantined
  {
    assert Before(RankIn(s, e), RankIn(s, kept));
    TextBeforeExactly(e, kept);
  }

  function EndpointsOf(ranks: seq<Rank>): (r: seq<Endpoint>)
    ensures |r| == |ranks|
  {
    seq(|ranks|, i requires 0 <= i < |ranks| => ranks[i].endpoint)
  }

  /** `all` ranks every endpoint that is not leased, once. */
  ghost predicate RanksAll(s: State, all: seq<Rank>) {
    && NoDuplicates(all)
    && (forall r :: r in all ==> r.endpoint in Unleased(s) && r == RankIn(s, r.endpoint))
    && (forall e :: e in Unleased(s) ==> RankIn(s, e) in all)
  }

  lemma SortedRanksAll(s: State, all: seq<Rank>)
    requires RanksAll(s, all)
    ensures Ascending(Sorted(all)) && RanksAll(s, Sorted(all)) && |Sorted(all)| == |Unleased(s)|
  {
    var sorted := Sorted(all);
    SortIntoAscends([], all);
    SortIntoContents([], all);
    assert forall r :: r in sorted <==> r in multiset(sorted);
    assert forall r :: r in all <==> r in multiset(all);
    forall i, j | 0 <= i < j < |sorted| ensures sorted[i] != sorted[j] {
      RankOrder(sorted[i], sorted[j]);
    }
    RanksAllSize(s, sorted);
  }

  lemma RanksAllSize(s: State, all: seq<Rank>)
    requires RanksAll(s, all)
    ensures |all| == |Unleased(s)| && NoDuplicates(EndpointsOf(all))
  {
    var names := EndpointsOf(all);
    forall i, j | 0 <= i < j < |names| ensures names[i] != names[j] {
      assert all[i] in all && all[j] in all;
    }
    DistinctLength(names);
    assert (set e | e in names) == Unleased(s) by {
      forall e | e in Unleased(s) ensures e in names {
        var i :| 0 <= i < |all| && all[i] == RankIn(s, e);
        assert names[i] == e;
      }
    }
  }

  /** Everything behind the first n of an order ranks above them. */
  lemma BehindIsAbove(s: State, sorted: seq<Rank>, n: nat, i: nat, kept: Endpoint)
    requires Ascending(sorted) && RanksAll(s, sorted) && i < n <= |sorted|
    requires kept in Unleased(s) && kept !in EndpointsOf(sorted[..n])
    ensures Before(sorted[i], RankIn(s, kept))
  {
    var names := EndpointsOf(sorted[..n]);
    assert forall k :: 0 <= k < n ==> names[k] == sorted[k].endpoint && names[k] in names;
    assert RankIn(s, kept).endpoint == kept;
    var j :| 0 <= j < |sorted| && sorted[j] == RankIn(s, kept);
    assert n <= j;
  }

  /** The first `excess` of all ranks in order are the lowest-ranked endpoints. */
  lemma FirstIsLowest(s: State, all: seq<Rank>, excess: nat, gone: seq<Endpoint>)
    requires RanksAll(s, all) && gone == EndpointsOf(First(Sorted(all), excess))
    ensures IsLowest(s, excess, gone)
  {
    var sorted, n := Sorted(all), |gone|;
    SortedRanksAll(s, all);
    RanksAllSize(s, sorted);
    assert First(sorted, excess) == sorted[..n];
    assert forall i :: 0 <= i < n ==> gone[i] == EndpointsOf(sorted)[i] && sorted[i] in sorted;
    forall e, kept | e in gone && kept in Unleased(s) && kept !in gone
      ensures Before(RankIn(s, e), RankIn(s, kept))
    {
      var i :| 0 <= i < n && gone[i] == e;
      BehindIsAbove(s, sorted, n, i, kept);
    }
  }

  lemma SameSize<T>(a: set<T>, b: set<T>)
    requires |a| == |b| && a - b != {}
    ensures b - a != {}
  {
    assert a == (a - b) + a * b && b == (b - a) + a * b;
  }

  /** Every scan in every order and split leads to the same endpoints. */
  lemma LowestIsUnique(s: State, excess: nat, a: seq<Endpoint>, b: seq<Endpoint>)
    requires IsLowest(s, excess, a) && IsLowest(s, excess, b)
    ensures (set e | e in a) == (set e | e in b)
  {
    var left, right := set e | e in a, set e | e in b;
    DistinctLength(a);
    DistinctLength(b);
    if left - right != {} {
      SameSize(left, right);
      var x :| x in left - right;
      var y :| y in right - left;
      RankOrder(RankIn(s, x), RankIn(s, y));
    } else if right - left != {} {
      SameSize(right, left);
    }
  }

  // ---------- The scan ----------

  /** The ranks of the endpoints that are not leased. */
  function RanksOf(s: State, names: seq<Endpoint>): seq<Rank>
    requires forall e :: e in names ==> e in s.records
  {
    if names == [] then []
    else
      var n := |names| - 1;
      RanksOf(s, names[..n]) + if names[n] in s.leased then [] else [RankIn(s, names[n])]
  }

  lemma {:induction false} RanksOfMembers(s: State, names: seq<Endpoint>)
    requires forall e :: e in names ==> e in s.records
    ensures var r := RanksOf(s, names);
            && (forall x :: x in r ==> x.endpoint in names && x.endpoint !in s.leased && x == RankIn(s, x.endpoint))
            && (forall e :: e in names && e !in s.leased ==> RankIn(s, e) in r)
  {
    if names == [] {
    } else {
      RanksOfMembers(s, names[..|names| - 1]);
    }
  }

  lemma {:induction false} RanksOfDistinct(s: State, names: seq<Endpoint>)
    requires (forall e :: e in names ==> e in s.records) && NoDuplicates(names)
    ensures NoDuplicates(RanksOf(s, names))
  {
    if names == [] {
    } else {
      var n := |names| - 1;
      RanksOfDistinct(s, names[..n]);
      RanksOfMembers(s, names[..n]);
      var rest := RanksOf(s, names[..n]);
      forall i | 0 <= i < |rest| ensures rest[i] != RankIn(s, names[n]) {
        assert rest[i] in rest && rest[i].endpoint in names[..n];
      }
    }
  }

  lemma ScanRanksAll(s: State, names: seq<Endpoint>)
    requires (forall e :: e in names <==> e in s.records) && NoDuplicates(names)
    ensures RanksAll(s, RanksOf(s, names))
  {
    RanksOfDistinct(s, names);
    RanksOfMembers(s, names);
  }

  lemma {:induction false} RanksOfAppend(s: State, a: seq<Endpoint>, b: seq<Endpoint>)
    requires forall e :: e in a + b ==> e in s.records
    ensures (forall e :: e in a ==> e in s.records) && (forall e :: e in b ==> e in s.records)
    ensures RanksOf(s, a + b) == RanksOf(s, a) + RanksOf(s, b)
    decreases |b|
  {
    assert forall e :: e in a ==> e in a + b;
    assert forall e :: e in b ==> e in a + b;
    if b == [] {
      assert a + b == a;
    } else {
      var n := |b| - 1;
      assert (a + b)[..|a + b| - 1] == a + b[..n];
      RanksOfAppend(s, a, b[..n]);
    }
  }

  /** The candidates kept after some batches of the scan. */
  function KeptAfter(s: State, names: seq<Endpoint>, excess: nat): seq<Rank>
    requires forall e :: e in names ==> e in s.records
  {
    First(Sorted(RanksOf(s, names)), excess)
  }

  lemma KeptAfterBatch(s: State, names: seq<Endpoint>, batch: seq<Endpoint>, excess: nat)
    requires (forall e :: e in names + batch ==> e in s.records) && NoDuplicates(names + batch)
    ensures (forall e :: e in names ==> e in s.records) && (forall e :: e in batch ==> e in s.records)
    ensures First(Sorted(KeptAfter(s, names, excess) + RanksOf(s, batch)), excess)
        == KeptAfter(s, names + batch, excess)
  {
    RanksOfAppend(s, names, batch);
    assert forall i :: 0 <= i < |names| ==> (names + batch)[i] == names[i];
    RanksOfDistinct(s, names);
    BatchKeepsFirst(RanksOf(s, names), Sorted(RanksOf(s, names)), RanksOf(s, batch), excess);
  }
}
