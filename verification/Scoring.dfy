/** How the outcome of a probe changes the health record of a proxy, and what that makes of
    any history of probes. */
module Scoring {
  import opened SortedSets

  datatype ProxyState = Candidate | Available | Degraded | Quarantined

  datatype Category = Success | ProxyError | SystemError | Cancelled

  datatype Probe = Probe(category: Category, latency: Option<real>, at: int)

  /** The fields of a record that probes change. */
  datatype Health = Health(
    score: int,
    state: ProxyState,
    lastCheckedAt: Option<int>,
    successes: nat,
    failures: nat,
    successCount: nat,
    failureCount: nat,
    latency: Option<real>)

  /** Seven parts of the old average and three of the new observation. */
  function Averaged(known: Option<real>, observed: Option<real>): Option<real> {
    if observed.None? then known
    else if known.None? then observed
    else Some(known.value * 0.7 + observed.value * 0.3)
  }

  function AfterSuccess(h: Health, p: Probe): Health {
    var successes := h.successes + 1;
    var confirmed := h.state == Available || successes >= 2;
    h.(score := Min(100, Max(if confirmed then 80 else 70, h.score) + 5),
       state := if confirmed then Available else Candidate,
       lastCheckedAt := Some(p.at),
       successes := successes,
       failures := 0,
       successCount := h.successCount + 1,
       latency := Averaged(h.latency, p.latency))
  }

  function Penalty(failures: nat): int {
    if failures >= 3 then 35 else if failures == 1 then 15 else 25
  }

  function AfterFailure(h: Health, p: Probe): Health {
    var failures := h.failures + 1;
    var score := Max(0, h.score - Penalty(failures));
    h.(score := score,
       state := if failures >= 3 || score == 0 then Quarantined
                else if score < 50 then Degraded
                else h.state,
       lastCheckedAt := Some(p.at),
       successes := 0,
       failures := failures,
       failureCount := h.failureCount + 1)
  }

  /** A failure of the checker itself proves nothing about the proxy. */
  predicate Proves(p: Probe) {
    p.category == Success || p.category == ProxyError
  }

  function Apply(h: Health, p: Probe): Health {
    if !Proves(p) then h
    else if p.category == Success then AfterSuccess(h, p)
    else AfterFailure(h, p)
  }

  // ---------- Histories ----------

  function Replay(h: Health, history: seq<Probe>): Health {
    if history == [] then h else Apply(Replay(h, history[..|history| - 1]), history[|history| - 1])
  }

  /** The probes that prove something, in order. */
  function Proven(history: seq<Probe>): seq<Probe> {
    if history == [] then []
    else
      var last := history[|history| - 1];
      Proven(history[..|history| - 1]) + if Proves(last) then [last] else []
  }

  /** A record that has never been probed. */
  predicate IsFresh(h: Health) {
    && 0 <= h.score <= 100 && h.state == Candidate
    && h.successes == 0 && h.failures == 0 && h.successCount == 0 && h.failureCount == 0
    && h.latency == None
  }

  /** The probes end in exactly n of the category. */
  predicate EndsInRun(s: seq<Probe>, c: Category, n: nat) {
    && n <= |s|
    && (forall i :: |s| - n <= i < |s| ==> s[i].category == c)
    && (n < |s| ==> s[|s| - n - 1].category != c)
  }

  predicate TwoInARow(s: seq<Probe>) {
    exists i :: 0 <= i < |s| - 1 && s[i].category == Success && s[i + 1].category == Success
  }

  function Count(s: seq<Probe>, c: Category): nat {
    if s == [] then 0 else Count(s[..|s| - 1], c) + if s[|s| - 1].category == c then 1 else 0
  }

  /** The record agrees with the proven probes. */
  predicate Reflects(h: Health, s: seq<Probe>) {
    && EndsInRun(s, Success, h.successes) && EndsInRun(s, ProxyError, h.failures)
    && h.successCount == Count(s, Success) && h.failureCount == Count(s, ProxyError)
    && 0 <= h.score <= 100
    && (h.state == Available ==> TwoInARow(s) && h.score >= 50 && h.failures < 3)
    && (h.successes >= 2 ==> h.state == Available && h.score >= 85)
    && (h.failures >= 3 ==> h.state == Quarantined)
    && (h.state == Degraded ==> h.score < 50 && h.failures > 0)
  }

  lemma SuccessReflects(h: Health, s: seq<Probe>, p: Probe)
    requires Reflects(h, s) && p.category == Success
    requires forall i :: 0 <= i < |s| ==> Proves(s[i])
    ensures Reflects(AfterSuccess(h, p), s + [p])
  {
    var t := s + [p];
    assert t[..|t| - 1] == s;
    if h.state == Available {
      var i :| 0 <= i < |s| - 1 && s[i].category == Success && s[i + 1].category == Success;
      assert t[i].category == Success && t[i + 1].category == Success;
    } else if h.successes >= 1 {
      assert t[|t| - 2].category == Success && t[|t| - 2 + 1].category == Success;
    }
  }

  lemma FailureReflects(h: Health, s: seq<Probe>, p: Probe)
    requires Reflects(h, s) && p.category == ProxyError
    requires forall i :: 0 <= i < |s| ==> Proves(s[i])
    ensures Reflects(AfterFailure(h, p), s + [p])
  {
    var t := s + [p];
    assert t[..|t| - 1] == s;
    if h.state == Available {
      var i :| 0 <= i < |s| - 1 && s[i].category == Success && s[i + 1].category == Success;
      assert t[i].category == Success && t[i + 1].category == Success;
    }
  }

  /** After any history from a fresh candidate the two run counters are the lengths of the
      trailing runs of proven probes, the totals count them, the score stays in 0..100, and
      a proxy is available only after two successes in a row, with a score of at least 50
      and fewer than three failures since. */
  lemma {:induction false} HealthReflectsHistory(h: Health, history: seq<Probe>)
    requires IsFresh(h)
    ensures Reflects(Replay(h, history), Proven(history))
    ensures forall i :: 0 <= i < |Proven(history)| ==> Proves(Proven(history)[i])
  {
    if history == [] {
    } else {
      var before, p := history[..|history| - 1], history[|history| - 1];
      HealthReflectsHistory(h, before);
      assert Proven(before) + [] == Proven(before);
      if p.category == Success {
        SuccessReflects(Replay(h, before), Proven(before), p);
      } else if p.category == ProxyError {
        FailureReflects(Replay(h, before), Proven(before), p);
      }
    }
  }

  /** The time of the last check is that of the last probe that proved something. */
  lemma {:induction false} CheckedAtLastProof(h: Health, history: seq<Probe>)
    ensures Replay(h, history).lastCheckedAt
            == if Proven(history) == [] then h.lastCheckedAt else Some(Proven(history)[|Proven(history)| - 1].at)
  {
    if history == [] {
    } else {
      CheckedAtLastProof(h, history[..|history| - 1]);
      assert Proven(history[..|history| - 1]) + [] == Proven(history[..|history| - 1]);
    }
  }

  /** The latencies that successful probes observed. */
  predicate Observed(history: seq<Probe>, i: int) {
    0 <= i < |history| && history[i].category == Success && history[i].latency.Some?
  }

  /** The average exists as soon as one latency was observed, and lies between any bounds
      that all observed latencies keep, so between their least and their greatest. */
  lemma {:induction false} AverageWithinObserved(h: Health, history: seq<Probe>, lo: real, hi: real)
    requires IsFresh(h)
    requires forall i :: Observed(history, i) ==> lo <= history[i].latency.value <= hi
    ensures var latency := Replay(h, history).latency;
            && (latency.Some? <==> exists i :: Observed(history, i))
            && (latency.Some? ==> lo <= latency.value <= hi)
  {
    if history == [] {
    } else {
      var n := |history| - 1;
      var before := history[..n];
      forall i | Observed(before, i) ensures lo <= before[i].latency.value <= hi {
        assert Observed(history, i);
      }
      AverageWithinObserved(h, before, lo, hi);
      if Replay(h, before).latency.Some? {
        var i :| Observed(before, i);
        assert Observed(history, i);
      }
      if Observed(history, n) {
        AverageIsBetween(Replay(h, before).latency, history[n].latency, lo, hi);
      } else {
        assert forall i :: Observed(history, i) ==> Observed(before, i);
      }
    }
  }

  lemma AverageIsBetween(known: Option<real>, observed: Option<real>, lo: real, hi: real)
    requires known.Some? ==> lo <= known.value <= hi
    requires observed.Some? && lo <= observed.value <= hi
    ensures Averaged(known, observed).Some? && lo <= Averaged(known, observed).value <= hi
  {
    if known.Some? {
      var a, b := known.value, observed.value;
      assert lo * 0.7 <= a * 0.7 <= hi * 0.7;
      assert lo * 0.3 <= b * 0.3 <= hi * 0.3;
    }
  }

  // ---------- Runs of one outcome ----------

  /** What the first k failures in a row take off: 15, then 25, then 35 each. */
  function Cost(k: nat): nat {
    if k == 0 then 0 else if k == 1 then 15 else 40 + 35 * (k - 2)
  }

  /** Without a success, k proven failures leave the score less their cost, but no less than 0;
      the third, or a score of 0, quarantines, and a score below 50 degrades. Failures of the
      checker between them change nothing. */
  lemma {:induction false} FailuresCost(h: Health, history: seq<Probe>)
    requires 0 <= h.score <= 100 && h.failures == 0
    requires forall i :: 0 <= i < |history| ==> history[i].category != Success
    ensures var k, after := Count(history, ProxyError), Replay(h, history);
            && after.failures == k && after.score == Max(0, h.score - Cost(k))
            && after.state == (if k == 0 then h.state
                               else if k >= 3 || h.score <= Cost(k) then Quarantined
                               else if h.score - Cost(k) < 50 then Degraded
                               else h.state)
            && after.latency == h.latency && after.successCount == h.successCount
  {
    if history == [] {
    } else {
      FailuresCost(h, history[..|history| - 1]);
    }
  }

  /** What k successes in a row make of a score: at least 75 and then 85, 90, 95 and 100 for a
      proxy that was not available, at least 85, 90, 95 and 100 for one that was; and always
      five points each. */
  function Earned(available: bool, score: int, k: nat): int {
    if k == 0 then score
    else if available then Min(100, Max(80, score) + 5 * k)
    else if k == 1 then Min(100, Max(70, score) + 5)
    else Min(100, Max(75, score) + 5 * k)
  }

  /** Without a proven failure, k successes give that score, and make a proxy available that
      was or that has two of them in a row. */
  lemma {:induction false} SuccessesEarn(h: Health, history: seq<Probe>)
    requires 0 <= h.score <= 100 && h.successes == 0
    requires forall i :: 0 <= i < |history| ==> history[i].category != ProxyError
    ensures var k, after := Count(history, Success), Replay(h, history);
            && after.successes == k && after.score == Earned(h.state == Available, h.score, k)
            && after.state == (if k == 0 then h.state
                               else if h.state == Available || k >= 2 then Available
                               else Candidate)
            && (k > 0 ==> after.failures == 0) && after.failureCount == h.failureCount
  {
    if history == [] {
    } else {
      SuccessesEarn(h, history[..|history| - 1]);
    }
  }

  /** What is left of a distance of which three tenths are closed k times. */
  function Remaining(distance: real, k: nat): real {
    if k == 0 then distance else Remaining(distance, k - 1) * 0.7
  }

  /** While every success observes one latency, the average closes three tenths of its distance
      to it each time; failures and observations without a latency leave it. */
  lemma {:induction false} AverageClosesIn(h: Health, history: seq<Probe>, observed: real)
    requires h.latency.Some?
    requires forall i :: Observed(history, i) ==> history[i].latency.value == observed
    ensures var k := |set i | 0 <= i < |history| && Observed(history, i)|;
            && Replay(h, history).latency.Some?
            && Replay(h, history).latency.value - observed == Remaining(h.latency.value - observed, k)
  {
    var at := set i | 0 <= i < |history| && Observed(history, i);
    if history == [] {
      assert at == {};
    } else {
      var n := |history| - 1;
      var before := history[..n];
      forall i | 0 <= i < n ensures Observed(before, i) <==> Observed(history, i) {
      }
      AverageClosesIn(h, before, observed);
      var earlier := set i | 0 <= i < |before| && Observed(before, i);
      assert at == if Observed(history, n) then earlier + {n} else earlier;
    }
  }
}
