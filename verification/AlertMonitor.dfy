/** The peer-cache alert monitor: one persisted event per alert type, moved at every tick by
    whether its condition holds and by whether the webhook accepted the alert. Times are
    seconds. */
module AlertMonitor {
  import opened SortedSets

  const COOLDOWN: real := 1800.0

  datatype Kind = SyncFailure | CacheLow | CacheEvictions | WorkerStale | CacheStoreError

  datatype Status = Failure | Recovery

  /** The persisted fields of one event. */
  datatype Event = Event(
    active: bool,
    notified: bool,
    pending: Option<Status>,
    eventId: string,
    startedAt: real,
    retryAt: real,
    attempts: nat,
    lastSentAt: real,
    lastFailureSentAt: real)

  const QUIET: Event := Event(false, false, None, "", 0.0, 0.0, 0, 0.0, 0.0)

  /** What one tick sees: whether the condition holds, the time, the evidence of recovery, a
      fresh identifier, and whether the webhook would accept an alert now. */
  datatype Tick = Tick(
    active: bool,
    epoch: real,
    lastSuccess: real,
    validCount: Option<int>,
    newId: string,
    accepted: bool)

  datatype Alert = Alert(eventId: string, status: Status, at: real)

  /** The evidence an alert type asks for before it counts as recovered. */
  predicate RecoveryAllowed(kind: Kind, e: Event, t: Tick) {
    match kind
    case SyncFailure => t.lastSuccess > e.startedAt
    case WorkerStale => t.lastSuccess > e.startedAt
    case CacheLow => t.lastSuccess > e.startedAt && t.validCount.Some? && t.validCount.value >= 5
    case CacheEvictions => t.lastSuccess > e.startedAt && t.validCount.Some? && t.validCount.value >= 5
    case CacheStoreError => true
  }

  /** The condition is gone but the evidence of recovery is missing: nothing moves. */
  predicate Stays(kind: Kind, e: Event, t: Tick) {
    !t.active && e.active && !RecoveryAllowed(kind, e, t)
  }

  /** The move a change of the condition causes. */
  function Observe(e: Event, t: Tick): Event {
    if t.active && !e.active && e.notified then
      e.(active := true, pending := None, retryAt := 0.0, attempts := 0)
    else if t.active && !e.active then
      e.(active := true, pending := Some(Failure), eventId := t.newId, startedAt := t.epoch,
         retryAt := MaxReal(t.epoch, e.lastFailureSentAt + COOLDOWN), attempts := 0)
    else if !t.active && e.active then
      e.(active := false, pending := if e.notified then Some(Recovery) else None, retryAt := 0.0, attempts := 0)
    else e
  }

  function Backoff(attempts: nat): real {
    if attempts <= 1 then 60.0 else if attempts == 2 then 120.0 else 300.0
  }

  predicate Sends(e: Event, t: Tick) {
    e.pending.Some? && t.epoch >= e.retryAt
  }

  /** The event after its pending alert was offered to the webhook. */
  function Offer(e: Event, t: Tick): Event
    requires e.pending.Some?
  {
    if t.accepted then
      e.(lastFailureSentAt := if e.pending == Some(Failure) then t.epoch else e.lastFailureSentAt,
         notified := e.pending == Some(Failure),
         pending := None, lastSentAt := t.epoch, attempts := 0)
    else e.(attempts := e.attempts + 1, retryAt := t.epoch + Backoff(e.attempts + 1))
  }

  /** One tick: the new event, and the alert that was delivered, if any. */
  function Transition(kind: Kind, e: Event, t: Tick): (Event, Option<Alert>) {
    if Stays(kind, e, t) then (e, None)
    else
      var seen := Observe(e, t);
      if !Sends(seen, t) then (seen, None)
      else (Offer(seen, t), if t.accepted then Some(Alert(seen.eventId, seen.pending.value, t.epoch)) else None)
  }

  // ---------- Runs ----------

  function After(kind: Kind, ticks: seq<Tick>): Event {
    if ticks == [] then QUIET
    else Transition(kind, After(kind, ticks[..|ticks| - 1]), ticks[|ticks| - 1]).0
  }

  /** Every alert delivered in the run, in order. */
  function Delivered(kind: Kind, ticks: seq<Tick>): seq<Alert> {
    if ticks == [] then []
    else
      var earlier := ticks[..|ticks| - 1];
      var sent := Transition(kind, After(kind, earlier), ticks[|ticks| - 1]).1;
      Delivered(kind, earlier) + if sent.Some? then [sent.value] else []
  }

  predicate FreshIds(ticks: seq<Tick>) {
    forall i, j :: 0 <= i < j < |ticks| ==> ticks[i].newId != ticks[j].newId
  }

  // ---------- The invariant ----------

  /** What is waiting to be sent follows from the two flags. */
  function Owed(active: bool, notified: bool): Option<Status> {
    if active && !notified then Some(Failure)
    else if !active && notified then Some(Recovery)
    else None
  }

  predicate Alternate(sent: seq<Alert>) {
    forall i :: 0 <= i < |sent| ==> sent[i].status == if i % 2 == 0 then Failure else Recovery
  }

  /** Every recovery names the failure just before it. */
  predicate Paired(sent: seq<Alert>) {
    forall i :: 0 <= i < |sent| - 1 && sent[i].status == Failure ==> sent[i + 1].eventId == sent[i].eventId
  }

  predicate FailuresApart(sent: seq<Alert>) {
    forall i, j :: 0 <= i < j < |sent| && sent[i].status == Failure && sent[j].status == Failure ==>
      sent[j].at - sent[i].at >= COOLDOWN
  }

  predicate Inv(e: Event, sent: seq<Alert>) {
    && e.pending == Owed(e.active, e.notified)
    && Alternate(sent) && Paired(sent) && FailuresApart(sent)
    && (e.notified <==> |sent| % 2 == 1)
    && (e.notified ==> e.eventId == sent[|sent| - 1].eventId)
    && (forall i :: 0 <= i < |sent| && sent[i].status == Failure ==> sent[i].at <= e.lastFailureSentAt)
    && (e.pending == Some(Failure) ==> e.retryAt >= e.lastFailureSentAt + COOLDOWN)
  }

  lemma ObserveKeeps(kind: Kind, e: Event, t: Tick, sent: seq<Alert>)
    requires Inv(e, sent) && !Stays(kind, e, t)
    ensures Inv(Observe(e, t), sent)
  {
  }

  lemma OfferKeeps(e: Event, t: Tick, sent: seq<Alert>)
    requires Inv(e, sent) && Sends(e, t)
    ensures Inv(Offer(e, t), if t.accepted then sent + [Alert(e.eventId, e.pending.value, t.epoch)] else sent)
  {
  }

  /** Over every run, with any sends failing: delivered alerts of one type are failure,
      recovery, failure, and so on; each recovery names the failure it ends; any two
      failures are at least 1800 s apart; and what is pending follows from the two flags. */
  lemma {:induction false} DeliveredAlertsAlternate(kind: Kind, ticks: seq<Tick>)
    ensures Inv(After(kind, ticks), Delivered(kind, ticks))
  {
    if ticks == [] {
    } else {
      var earlier, t := ticks[..|ticks| - 1], ticks[|ticks| - 1];
      DeliveredAlertsAlternate(kind, earlier);
      var e, sent := After(kind, earlier), Delivered(kind, earlier);
      if !Stays(kind, e, t) {
        ObserveKeeps(kind, e, t, sent);
        if Sends(Observe(e, t), t) {
          OfferKeeps(Observe(e, t), t, sent);
        }
      }
      assert sent + [] == sent;
    }
  }

  /** An alert that stays pending over a tick keeps its identifier, so a retry repeats the
      alert that failed. */
  lemma RetriesKeepTheirId(kind: Kind, ticks: seq<Tick>, t: Tick)
    ensures var e := After(kind, ticks);
            var e' := Transition(kind, e, t).0;
            e.pending.Some? && e'.pending == e.pending ==> e'.eventId == e.eventId && e'.startedAt == e.startedAt
  {
    DeliveredAlertsAlternate(kind, ticks);
  }

  /** The identifiers the ticks have brought so far. */
  function Ids(ticks: seq<Tick>): set<string> {
    set t | t in ticks :: t.newId
  }

  /** Every identifier in use was brought by a tick, no two failures share one, and a
      failure still to be sent has one that nobody has seen. */
  predicate IdsGood(e: Event, sent: seq<Alert>, ids: set<string>) {
    && (e.active || e.notified ==> e.eventId in ids)
    && (forall i :: 0 <= i < |sent| ==> sent[i].eventId in ids)
    && (forall i, j :: 0 <= i < j < |sent| && sent[i].status == Failure && sent[j].status == Failure ==>
          sent[i].eventId != sent[j].eventId)
    && (e.pending == Some(Failure) ==> forall i :: 0 <= i < |sent| ==> sent[i].eventId != e.eventId)
  }

  lemma ObserveKeepsIds(kind: Kind, e: Event, t: Tick, sent: seq<Alert>, ids: set<string>)
    requires Inv(e, sent) && IdsGood(e, sent, ids) && !Stays(kind, e, t) && t.newId !in ids
    ensures IdsGood(Observe(e, t), sent, ids + {t.newId})
  {
  }

  lemma OfferKeepsIds(e: Event, t: Tick, sent: seq<Alert>, ids: set<string>)
    requires Inv(e, sent) && IdsGood(e, sent, ids) && Sends(e, t)
    ensures IdsGood(Offer(e, t), if t.accepted then sent + [Alert(e.eventId, e.pending.value, t.epoch)] else sent, ids)
  {
  }

  lemma TransitionKeepsIds(kind: Kind, e: Event, t: Tick, sent: seq<Alert>, ids: set<string>)
    requires Inv(e, sent) && IdsGood(e, sent, ids) && t.newId !in ids
    ensures var (next, alert) := Transition(kind, e, t);
            IdsGood(next, sent + (if alert.Some? then [alert.value] else []), ids + {t.newId})
  {
    assert sent + [] == sent;
    if !Stays(kind, e, t) {
      ObserveKeeps(kind, e, t, sent);
      ObserveKeepsIds(kind, e, t, sent, ids);
      if Sends(Observe(e, t), t) {
        OfferKeepsIds(Observe(e, t), t, sent, ids + {t.newId});
      }
    }
  }

  /** With fresh identifiers no two delivered failures share one. */
  lemma {:induction false} FailuresAreDistinct(kind: Kind, ticks: seq<Tick>)
    requires FreshIds(ticks)
    ensures IdsGood(After(kind, ticks), Delivered(kind, ticks), Ids(ticks))
  {
    if ticks == [] {
    } else {
      var earlier, t := ticks[..|ticks| - 1], ticks[|ticks| - 1];
      FailuresAreDistinct(kind, earlier);
      DeliveredAlertsAlternate(kind, earlier);
      assert ticks == earlier + [t];
      assert Ids(ticks) == Ids(earlier) + {t.newId};
      assert t.newId !in Ids(earlier);
      TransitionKeepsIds(kind, After(kind, earlier), t, Delivered(kind, earlier), Ids(earlier));
    }
  }

  // ---------- The event object ----------

  /** The persisted event as the object that one tick updates field by field. */
  class EventState {
    var active: bool
    var notified: bool
    var pending: Option<Status>
    var eventId: string
    var startedAt: real
    var retryAt: real
    var attempts: nat
    var lastSentAt: real
    var lastFailureSentAt: real

    function View(): Event
      reads this
    {
      Event(active, notified, pending, eventId, startedAt, retryAt, attempts, lastSentAt, lastFailureSentAt)
    }

    constructor ()
      ensures View() == QUIET
    {
      active, notified, pending, eventId := false, false, None, "";
      startedAt, retryAt, attempts, lastSentAt, lastFailureSentAt := 0.0, 0.0, 0, 0.0, 0.0;
    }

    method OnCondition(t: Tick)
      modifies this
      ensures View() == Observe(old(View()), t)
    {
      if t.active && !active && notified {
        active, pending := true, None;
        retryAt, attempts := 0.0, 0;
      } else if t.active && !active {
        active, pending := true, Some(Failure);
        eventId, startedAt := t.newId, t.epoch;
        retryAt := if t.epoch >= lastFailureSentAt + COOLDOWN then t.epoch else lastFailureSentAt + COOLDOWN;
        attempts := 0;
      } else if !t.active && active {
        active := false;
        pending := if notified then Some(Recovery) else None;
        retryAt, attempts := 0.0, 0;
      }
    }

    method OnSent(t: Tick)
      requires pending.Some?
      modifies this
      ensures View() == Offer(old(View()), t)
    {
      if t.accepted {
        if pending.value == Failure {
          lastFailureSentAt := t.epoch;
        }
        notified := pending.value == Failure;
        pending, lastSentAt, attempts := None, t.epoch, 0;
      } else {
        attempts := attempts + 1;
        retryAt := t.epoch + (if attempts == 1 then 60.0 else if attempts == 2 then 120.0 else 300.0);
      }
    }

    method Step(kind: Kind, t: Tick) returns (sent: Option<Alert>)
      modifies this
      ensures (View(), sent) == Transition(kind, old(View()), t)
    {
      sent := None;
      if !t.active && active && !RecoveryAllowed(kind, View(), t) {
        return;
      }
      OnCondition(t);
      if pending.Some? && t.epoch >= retryAt {
        if t.accepted {
          sent := Some(Alert(eventId, pending.value, t.epoch));
        }
        OnSent(t);
      }
    }
  }
}
