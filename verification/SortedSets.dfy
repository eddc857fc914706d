/** The values shared by the other modules: optional values, and the one Redis
    sorted-set read that decides what a script works on. */
module SortedSets {

  datatype Option<+T> = None | Some(value: T)

  predicate NoDuplicates<K(==)>(s: seq<K>) {
    forall i, j :: 0 <= i < j < |s| ==> s[i] != s[j]
  }

  /** What ZRANGEBYSCORE key -inf max LIMIT 0 limit may answer: the `limit` entries of
      lowest score among those not above `max`, in order of score. Entries of equal
      score may come in any order, which covers the byte order Redis uses. */
  ghost predicate IsRange<K>(z: map<K, int>, max: int, limit: nat, r: seq<K>) {
    && |r| <= limit
    && NoDuplicates(r)
    && (forall i :: 0 <= i < |r| ==> r[i] in z && z[r[i]] <= max)
    && (forall i, j :: 0 <= i < j < |r| ==> z[r[i]] <= z[r[j]])
    && (forall k :: k in z && z[k] <= max && k !in r ==>
          |r| == limit && forall i :: 0 <= i < |r| ==> z[r[i]] <= z[k])
  }

  method LowestOf<K(==)>(z: map<K, int>, keys: set<K>) returns (low: K)
    requires keys != {} && keys <= z.Keys
    ensures low in keys
    ensures forall k :: k in keys ==> z[low] <= z[k]
  {
    low :| low in keys;
    var rest := keys - {low};
    while rest != {}
      invariant low in keys && rest <= keys
      invariant forall k :: k in keys && k !in rest ==> z[low] <= z[k]
      decreases rest
    {
      var k :| k in rest;
      if z[k] < z[low] {
        low := k;
      }
      rest := rest - {k};
    }
  }

  method RangeByScore<K(==)>(z: map<K, int>, max: int, limit: nat) returns (r: seq<K>)
    ensures IsRange(z, max, limit, r)
  {
    r := [];
    var rest := set k | k in z && z[k] <= max;
    while |r| < limit && rest != {}
      invariant |r| <= limit
      invariant NoDuplicates(r)
      invariant forall i :: 0 <= i < |r| ==> r[i] in z && z[r[i]] <= max && r[i] !in rest
      invariant forall k :: k in rest <==> k in z && z[k] <= max && k !in r
      invariant forall i, j :: 0 <= i < j < |r| ==> z[r[i]] <= z[r[j]]
      invariant forall i, k :: 0 <= i < |r| && k in rest ==> z[r[i]] <= z[k]
      decreases rest
    {
      var low := LowestOf(z, rest);
      r := r + [low];
      rest := rest - {low};
    }
  }

  /** A sequence without duplicates is as long as the set of its elements. */
  lemma {:induction false} DistinctLength<K>(s: seq<K>)
    requires NoDuplicates(s)
    ensures |set k | k in s| == |s|
  {
    if s == [] {
    } else {
      var n := |s| - 1;
      DistinctLength(s[..n]);
      assert (set k | k in s) == (set k | k in s[..n]) + {s[n]};
    }
  }

  function Min(a: int, b: int): int {
    if a <= b then a else b
  }

  function Max(a: int, b: int): int {
    if a >= b then a else b
  }

  function MinReal(a: real, b: real): real {
    if a <= b then a else b
  }

  function MaxReal(a: real, b: real): real {
    if a >= b then a else b
  }

  lemma SubsetSize<T>(a: set<T>, b: set<T>)
    requires a <= b
    ensures |a| <= |b|
    ensures |a| == |b| ==> a == b
  {
    assert b == a + (b - a);
    assert |b - a| == 0 ==> b - a == {};
  }

  /** A bounded read returns `limit` entries, or all there are if fewer. */
  lemma RangeSize<K>(z: map<K, int>, max: int, limit: nat, r: seq<K>)
    requires IsRange(z, max, limit, r)
    ensures |r| == Min(limit, |set k | k in z && z[k] <= max|)
    ensures (set k | k in r) <= (set k | k in z && z[k] <= max)
  {
    var due := set k | k in z && z[k] <= max;
    var read := set k | k in r;
    DistinctLength(r);
    assert read <= due;
    SubsetSize(read, due);
    if |r| < limit {
      assert read == due;
    }
  }
}
