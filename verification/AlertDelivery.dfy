/** When an alert reaches the webhook: the exact conditions, and the waits after a refusal. */
module AlertDelivery {
  import opened SortedSets
  import opened AlertMonitor

  /** The time of the last failure alert, or 0. */
  function LastFailureAt(sent: seq<Alert>): real {
    if sent == [] then 0.0
    else if sent[|sent| - 1].status == Failure then sent[|sent| - 1].at
    else LastFailureAt(sent[..|sent| - 1])
  }

  lemma TickKeepsSendTimes(kind: Kind, e: Event, t: Tick)
    ensures var (next, alert) := Transition(kind, e, t);
            && next.lastFailureSentAt
               == (if alert.Some? && alert.value.status == Failure then alert.value.at else e.lastFailureSentAt)
            && next.lastSentAt == if alert.Some? then alert.value.at else e.lastSentAt
  {
  }

  function LastSentAt(sent: seq<Alert>): real {
    if sent == [] then 0.0 else sent[|sent| - 1].at
  }

  lemma LastTimesWith(sent: seq<Alert>, alert: Option<Alert>)
    ensures var all := sent + if alert.Some? then [alert.value] else [];
            && LastFailureAt(all)
               == (if alert.Some? && alert.value.status == Failure then alert.value.at else LastFailureAt(sent))
            && LastSentAt(all) == if alert.Some? then alert.value.at else LastSentAt(sent)
  {
    if alert.Some? {
      assert (sent + [alert.value])[..|sent|] == sent;
    } else {
      assert sent + [] == sent;
    }
  }

  /** The two times an event keeps are those of the last alert and of the last failure that
      were delivered. */
  lemma {:induction false} SendTimesAreKept(kind: Kind, ticks: seq<Tick>)
    ensures var e, sent := After(kind, ticks), Delivered(kind, ticks);
            && e.lastFailureSentAt == LastFailureAt(sent)
            && e.lastSentAt == LastSentAt(sent)
  {
    if ticks == [] {
    } else {
      var earlier, t := ticks[..|ticks| - 1], ticks[|ticks| - 1];
      SendTimesAreKept(kind, earlier);
      TickKeepsSendTimes(kind, After(kind, earlier), t);
      LastTimesWith(Delivered(kind, earlier), Transition(kind, After(kind, earlier), t).1);
    }
  }

  // ---------- What one tick does ----------

  /** The condition is over for an alert type once the cache was refreshed after the onset and,
      for the two types about its size, at least five proxies are valid. */
  predicate IsOver(kind: Kind, onset: real, t: Tick) {
    && !t.active
    && (kind != CacheStoreError ==> t.lastSuccess > onset)
    && (kind == CacheLow || kind == CacheEvictions ==> t.validCount.Some? && t.validCount.value >= 5)
  }

  /** The onset of a failure is remembered with the identifier that its tick brought, and lasts
      until a tick says it is over. A failure that comes back before its recovery was delivered
      is not a new one. */
  lemma OnsetIsRemembered(kind: Kind, e: Event, t: Tick)
    ensures var next := Transition(kind, e, t).0;
            && (next.active <==> t.active || (e.active && !IsOver(kind, e.startedAt, t)))
            && ((next.eventId, next.startedAt)
                == if t.active && !e.active && !e.notified then (t.newId, t.epoch) else (e.eventId, e.startedAt))
  {
  }

  lemma FailureOn(kind: Kind, e: Event, t: Tick)
    requires e.pending == Owed(e.active, e.notified)
    ensures var alert := Transition(kind, e, t).1;
            && (alert.Some? && alert.value.status == Failure <==>
                  && t.accepted && t.active && !e.notified
                  && (if e.active then t.epoch >= e.retryAt else t.epoch >= e.lastFailureSentAt + 1800.0))
            && (alert.Some? && alert.value.status == Failure ==>
                  alert.value == Alert(if e.active then e.eventId else t.newId, Failure, t.epoch))
  {
  }

  lemma RecoveryOn(kind: Kind, e: Event, t: Tick)
    requires e.pending == Owed(e.active, e.notified)
    ensures var alert := Transition(kind, e, t).1;
            && (alert.Some? && alert.value.status == Recovery <==>
                  && t.accepted && !t.active && e.notified
                  && (if e.active then IsOver(kind, e.startedAt, t) && t.epoch >= 0.0 else t.epoch >= e.retryAt))
            && (alert.Some? && alert.value.status == Recovery ==> alert.value == Alert(e.eventId, Recovery, t.epoch))
  {
  }

  lemma FlagsTellAlerts(e: Event, sent: seq<Alert>)
    requires Inv(e, sent)
    ensures e.notified <==> sent != [] && sent[|sent| - 1].status == Failure
    ensures e.notified ==> e.eventId == sent[|sent| - 1].eventId
  {
    if sent != [] {
      assert sent[|sent| - 1].status == if (|sent| - 1) % 2 == 0 then Failure else Recovery;
    }
  }

  /** What the flags of an event say about the alerts delivered so far. */
  lemma EventTellsAlerts(kind: Kind, ticks: seq<Tick>)
    ensures var e, sent := After(kind, ticks), Delivered(kind, ticks);
            && e.pending == Owed(e.active, e.notified)
            && (e.notified <==> sent != [] && sent[|sent| - 1].status == Failure)
            && (e.notified ==> e.eventId == sent[|sent| - 1].eventId)
  {
    DeliveredAlertsAlternate(kind, ticks);
    FlagsTellAlerts(After(kind, ticks), Delivered(kind, ticks));
  }

  /** In every reachable state a failure alert is delivered exactly if the webhook accepts it,
      the condition holds, the last alert delivered was no failure, and the wait is over: 1800 s
      after the last failure for a new one, the retry time for one that was refused. */
  lemma FailureIsDeliveredExactly(kind: Kind, ticks: seq<Tick>, t: Tick)
    ensures var e, sent := After(kind, ticks), Delivered(kind, ticks);
            var alert := Transition(kind, e, t).1;
            && (alert.Some? && alert.value.status == Failure <==>
                  && t.accepted && t.active && (sent == [] || sent[|sent| - 1].status == Recovery)
                  && (if e.active then t.epoch >= e.retryAt else t.epoch >= LastFailureAt(sent) + 1800.0))
            && (alert.Some? && alert.value.status == Failure ==>
                  alert.value == Alert(if e.active then e.eventId else t.newId, Failure, t.epoch))
  {
    EventTellsAlerts(kind, ticks);
    SendTimesAreKept(kind, ticks);
    FailureOn(kind, After(kind, ticks), t);
  }

  /** And a recovery is delivered exactly if the webhook accepts it, the last alert delivered
      was a failure, and the condition is over by now, or was before and the retry time is
      reached; it carries the identifier of that failure. */
  lemma RecoveryIsDeliveredExactly(kind: Kind, ticks: seq<Tick>, t: Tick)
    ensures var e, sent := After(kind, ticks), Delivered(kind, ticks);
            var alert := Transition(kind, e, t).1;
            && (alert.Some? && alert.value.status == Recovery <==>
                  && t.accepted && !t.active && sent != [] && sent[|sent| - 1].status == Failure
                  && (if e.active then IsOver(kind, e.startedAt, t) && t.epoch >= 0.0 else t.epoch >= e.retryAt))
            && (alert.Some? && alert.value.status == Recovery ==>
                  alert.value == Alert(sent[|sent| - 1].eventId, Recovery, t.epoch))
  {
    EventTellsAlerts(kind, ticks);
    RecoveryOn(kind, After(kind, ticks), t);
  }

  // ---------- After a refusal ----------

  /** An alert is offered at this tick: it would be delivered if the webhook accepted it. */
  predicate Offers(kind: Kind, e: Event, t: Tick) {
    Transition(kind, e, t.(accepted := true)).1.Some?
  }

  /** The refusals so far of the alert that a tick offers: none if the tick itself raised it. */
  function RefusedBefore(e: Event, t: Tick): nat {
    if e.active == t.active then e.attempts else 0
  }

  lemma RefusalOn(kind: Kind, ticks: seq<Tick>, u: Tick)
    requires Offers(kind, After(kind, ticks), u) && !u.accepted
    ensures var e, next := After(kind, ticks), Transition(kind, After(kind, ticks), u).0;
            && next.pending.Some? && next.active == u.active && next.attempts == RefusedBefore(e, u) + 1
            && next.retryAt
               == u.epoch + if next.attempts == 1 then 60.0 else if next.attempts == 2 then 120.0 else 300.0
  {
    EventTellsAlerts(kind, ticks);
  }

  /** While the condition stays as it is, an event that waits for its retry time does not move
      before that time and offers its alert at any time from then on. */
  lemma WaitingStays(kind: Kind, e: Event, t: Tick)
    requires e.pending.Some? && e.active == t.active
    ensures t.epoch < e.retryAt ==> Transition(kind, e, t).0 == e
    ensures Offers(kind, e, t) <==> t.epoch >= e.retryAt
  {
  }

  /** After a refused offer, while the condition stays as it is, the alert is offered again at
      the first tick that is 60 s later after its first refusal, 120 s after its second, and
      300 s after every further one, and until then nothing changes. */
  lemma {:induction false} RetriesFollowTheSchedule(kind: Kind, ticks: seq<Tick>, u: Tick, quiet: seq<Tick>, t: Tick,
                                                    wait: real)
    requires Offers(kind, After(kind, ticks), u) && !u.accepted
    requires var refused := RefusedBefore(After(kind, ticks), u) + 1;
             wait == if refused == 1 then 60.0 else if refused == 2 then 120.0 else 300.0
    requires forall q :: q in quiet ==> q.active == u.active && q.epoch < u.epoch + wait
    requires t.active == u.active
    ensures After(kind, ticks + [u] + quiet) == Transition(kind, After(kind, ticks), u).0
    ensures Offers(kind, After(kind, ticks + [u] + quiet), t) <==> t.epoch >= u.epoch + wait
    decreases |quiet|
  {
    RefusalOn(kind, ticks, u);
    var all := ticks + [u] + quiet;
    if quiet == [] {
      assert all == ticks + [u] && all[..|all| - 1] == ticks;
    } else {
      var n := |quiet| - 1;
      assert all[..|all| - 1] == ticks + [u] + quiet[..n] && all[|all| - 1] == quiet[n];
      RetriesFollowTheSchedule(kind, ticks, u, quiet[..n], t, wait);
      WaitingStays(kind, After(kind, ticks + [u] + quiet[..n]), quiet[n]);
    }
    WaitingStays(kind, After(kind, all), t);
  }
}
