/** Scans of a hash, field by field in batches. */
module Scans {
  import opened SortedSets

  function Joined<K>(batches: seq<seq<K>>): seq<K> {
    if batches == [] then [] else Joined(batches[..|batches| - 1]) + batches[|batches| - 1]
  }

  lemma {:induction false} JoinedPrefix<K>(batches: seq<seq<K>>, n: nat)
    requires n <= |batches|
    ensures Joined(batches[..n]) <= Joined(batches)
    decreases |batches|
  {
    if n == |batches| {
      assert batches[..n] == batches;
    } else {
      var init := batches[..|batches| - 1];
      assert init[..n] == batches[..n];
      JoinedPrefix(init, n);
    }
  }

  /** What HSCAN may answer while nothing else writes: every field once, in any order and in
      batches of any size. */
  ghost predicate IsScan<K(!new), V>(hash: map<K, V>, batches: seq<seq<K>>) {
    && NoDuplicates(Joined(batches))
    && forall k :: k in Joined(batches) <==> k in hash
  }
}
