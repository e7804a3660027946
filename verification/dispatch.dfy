/**
  Push-on-ingest alert dispatch: select the owner's active alerts a reading concerns,
  claim the grace slot of each triggered one, and enqueue its channels. Two programs do
  this, the Django engine and its SQLAlchemy port; both are modelled over one table.
 */
module Dispatch {
  import opened Stamps
  import C = Calibration
  import Throttle

  const DEFAULT_GRACE_SECONDS: nat := 1800

  datatype Assignment = Assignment(notificationZone: int, sensorKey: string, sourceZone: Option<int>)

  datatype Alert = Alert(
    id: int,
    userId: int,
    name: string,
    sensorKey: string,
    zone: Option<int>,
    notificationZone: Option<int>,
    active: bool,
    condition: char,
    threshold: real,
    email: bool,
    whatsapp: bool,
    sms: bool,
    graceOverride: Option<nat>,   // seconds
    lastEmailed: Stamp,
    lastTriggered: Stamp)

  datatype Reading = Reading(
    sensorKey: string,
    zone: Option<int>,
    userId: int,
    value: Option<real>,
    timestamp: int,
    device: Option<int>)

  datatype Task =
    | Email(alertId: int, value: real, timestamp: int)
    | Digest(alertIds: seq<int>, value: real, timestamp: int)
    | Whatsapp(alertId: int, value: real, timestamp: int)
    | Sms(alertId: int, value: real, timestamp: int)

  /** One row of the alert history: the rule as it stood when it fired. */
  datatype Event = Event(
    triggeredAt: int,
    alertId: int,
    userId: int,
    zone: Option<int>,
    notificationZone: Option<int>,
    device: Option<int>,
    sensorKey: string,
    alertName: string,
    condition: char,
    threshold: real,
    observed: real,
    readingAt: int,
    unit: string,
    channels: seq<string>,
    graceSeconds: nat)

  /**
    The configuration: registry keys with their native unit, the grace table in seconds,
    agri-core's threshold predicate (condition, threshold, value), and the calibrations.
   */
  datatype Config = Config(
    registry: map<string, string>,
    graces: map<string, nat>,
    evaluate: (char, real, real) -> bool,
    calibrations: seq<C.Row>,
    calibrationAvailable: bool,
    units: C.UnitTable)

  // ---------------------------------------------------------------- matching

  /** An assignment feeding this key from this zone; a null source zone means any. */
  predicate Feeds(a: Assignment, r: Reading) {
    a.sensorKey == r.sensorKey && (a.sourceZone.None? || (r.zone.Some? && a.sourceZone == r.zone))
  }

  /** The notification zones of the matching assignments, as the code collects them. */
  function MatchingZones(assignments: seq<Assignment>, r: Reading): seq<int> {
    Map(Filter(assignments, (a: Assignment) => Feeds(a, r)), (a: Assignment) => a.notificationZone)
  }

  /** The three-way OR over the collected ids, with SQL's null never equal to anything. */
  predicate MatchesByIndex(alert: Alert, r: Reading, zones: seq<int>) {
    || (alert.zone.None? && alert.notificationZone.None?)
    || (r.zone.Some? && alert.zone == r.zone && alert.notificationZone.None?)
    || (zones != [] && alert.notificationZone.Some? && alert.notificationZone.value in zones)
  }

  /** What a rule is meant to cover: user-wide, its own farm zone, or its notification zone. */
  ghost predicate Concerns(alert: Alert, r: Reading, assignments: seq<Assignment>) {
    if alert.notificationZone.Some? then
      exists a :: && a in assignments && a.notificationZone == alert.notificationZone.value
                  && a.sensorKey == r.sensorKey && (a.sourceZone == None || a.sourceZone == r.zone)
    else
      alert.zone.None? || (r.zone.Some? && alert.zone.value == r.zone.value)
  }

  /** Selecting through the collected ids is exactly the per-alert definition. */
  lemma IndexMatchesConcern(alert: Alert, r: Reading, assignments: seq<Assignment>)
    ensures MatchesByIndex(alert, r, MatchingZones(assignments, r)) <==> Concerns(alert, r, assignments)
  {
    var feeding := Filter(assignments, (a: Assignment) => Feeds(a, r));
    var zones := MatchingZones(assignments, r);
    if alert.notificationZone.Some? {
      var z := alert.notificationZone.value;
      if z in zones {
        var i :| 0 <= i < |zones| && zones[i] == z;
        assert feeding[i] in feeding;
      }
      if exists a :: a in assignments && a.notificationZone == z && Feeds(a, r) {
        var a :| a in assignments && a.notificationZone == z && Feeds(a, r);
        assert a in feeding;
        var i :| 0 <= i < |feeding| && feeding[i] == a;
        assert zones[i] == z;
      }
    }
  }

  predicate Candidate(alert: Alert, r: Reading, zones: seq<int>) {
    alert.userId == r.userId && alert.sensorKey == r.sensorKey && alert.active && MatchesByIndex(alert, r, zones)
  }

  // ---------------------------------------------------------------- winning

  predicate HasChannel(alert: Alert) { alert.email || alert.whatsapp || alert.sms }

  function GraceSeconds(alert: Alert, config: Config): nat {
    if alert.graceOverride.Some? then alert.graceOverride.value
    else if alert.sensorKey in config.graces then config.graces[alert.sensorKey]
    else DEFAULT_GRACE_SECONDS
  }

  /** The claim this alert would make at `now`. */
  function AttemptOf(alert: Alert, config: Config, now: int): Throttle.Attempt {
    Throttle.Attempt(now, GraceSeconds(alert, config) * SECOND)
  }

  predicate Triggered(alert: Alert, value: real, config: Config) {
    config.evaluate(alert.condition, alert.threshold, value) && HasChannel(alert)
  }

  predicate Wins(alert: Alert, value: real, config: Config, now: int) {
    Triggered(alert, value, config) && Throttle.Wins(alert.lastEmailed, AttemptOf(alert, config, now))
  }

  function Stamped(alert: Alert, now: int): Alert {
    alert.(lastEmailed := Some(now), lastTriggered := Some(now))
  }

  /** The registry's unit of the reading's key, blank when the key is not registered. */
  function NativeUnit(r: Reading, config: Config): string {
    if r.sensorKey in config.registry then config.registry[r.sensorKey] else ""
  }

  /** The value a reading is judged by: its own device's calibration, loaded as a batch of one. */
  function JudgedValue(r: Reading, config: Config): Option<real> {
    if r.device.None? then r.value
    else
      var key := (r.device.value, r.sensorKey);
      var loaded := C.LoadCalibrations(config.calibrations, config.calibrationAvailable, [(r.device, r.sensorKey)]);
      C.CorrectedValue(r.value, if key in loaded then Some(loaded[key]) else None, r.sensorKey,
                       NativeUnit(r, config), config.units)
  }

  predicate Dispatches(r: Reading, config: Config) {
    r.value.Some? && r.sensorKey in config.registry
  }

  /** The alerts that win on a reading, in the order their rows were fetched. */
  function Winners(fetched: seq<Alert>, value: real, config: Config, now: int): seq<Alert> {
    Filter(fetched, (a: Alert) => Wins(a, value, config, now))
  }

  // ---------------------------------------------------------------- messages

  function ChannelTasks(a: Alert, value: real, timestamp: int): seq<Task> {
    (if a.whatsapp then [Whatsapp(a.id, value, timestamp)] else [])
    + (if a.sms then [Sms(a.id, value, timestamp)] else [])
  }

  function AllChannelTasks(won: seq<Alert>, value: real, timestamp: int): seq<Task> {
    if won == [] then [] else ChannelTasks(won[0], value, timestamp) + AllChannelTasks(won[1..], value, timestamp)
  }

  function EmailIds(won: seq<Alert>): seq<int> {
    if won == [] then [] else (if won[0].email then [won[0].id] else []) + EmailIds(won[1..])
  }

  /** No email alert, no task; one keeps its own email; several share one digest. */
  function EmailTasks(ids: seq<int>, value: real, timestamp: int): seq<Task> {
    if ids == [] then []
    else if |ids| == 1 then [Email(ids[0], value, timestamp)]
    else [Digest(ids, value, timestamp)]
  }

  function Messages(won: seq<Alert>, value: real, timestamp: int): seq<Task> {
    AllChannelTasks(won, value, timestamp) + EmailTasks(EmailIds(won), value, timestamp)
  }

  /** Python's `alert.zone_id or zone_id`: a rule's own zone, unless null or zero. */
  function EventZone(alert: Alert, r: Reading): Option<int> {
    if alert.zone.Some? && alert.zone.value != 0 then alert.zone else r.zone
  }

  function EventOf(a: Alert, r: Reading, value: real, config: Config, now: int): Event {
    Event(now, a.id, r.userId, EventZone(a, r), a.notificationZone, r.device, r.sensorKey, a.name, a.condition,
          a.threshold, value, r.timestamp, NativeUnit(r, config),
          (if a.email then ["email"] else []) + (if a.whatsapp then ["whatsapp"] else []) + (if a.sms then ["sms"] else []),
          GraceSeconds(a, config))
  }

  /** History rows of the winners whose guarded insert succeeded. */
  function Events(won: seq<Alert>, r: Reading, value: real, config: Config, now: int, recordable: set<int>): seq<Event> {
    if won == [] then []
    else (if won[0].id in recordable then [EventOf(won[0], r, value, config, now)] else [])
         + Events(won[1..], r, value, config, now, recordable)
  }

  lemma {:induction false} ChannelTasksConcat(a: seq<Alert>, b: seq<Alert>, value: real, timestamp: int)
    ensures AllChannelTasks(a + b, value, timestamp) == AllChannelTasks(a, value, timestamp) + AllChannelTasks(b, value, timestamp)
  {
    if a == [] {
      assert a + b == b;
    } else {
      assert (a + b)[1..] == a[1..] + b;
      ChannelTasksConcat(a[1..], b, value, timestamp);
      ConcatAssociates(ChannelTasks(a[0], value, timestamp), AllChannelTasks(a[1..], value, timestamp),
                       AllChannelTasks(b, value, timestamp));
    }
  }

  lemma {:induction false} EmailIdsConcat(a: seq<Alert>, b: seq<Alert>)
    ensures EmailIds(a + b) == EmailIds(a) + EmailIds(b)
  {
    if a == [] {
      assert a + b == b;
    } else {
      assert (a + b)[1..] == a[1..] + b;
      EmailIdsConcat(a[1..], b);
      ConcatAssociates(if a[0].email then [a[0].id] else [], EmailIds(a[1..]), EmailIds(b));
    }
  }

  lemma {:induction false} EventsConcat(a: seq<Alert>, b: seq<Alert>, r: Reading, value: real, config: Config, now: int, recordable: set<int>)
    ensures Events(a + b, r, value, config, now, recordable)
            == Events(a, r, value, config, now, recordable) + Events(b, r, value, config, now, recordable)
  {
    if a == [] {
      assert a + b == b;
    } else {
      assert (a + b)[1..] == a[1..] + b;
      EventsConcat(a[1..], b, r, value, config, now, recordable);
      ConcatAssociates(if a[0].id in recordable then [EventOf(a[0], r, value, config, now)] else [],
                       Events(a[1..], r, value, config, now, recordable), Events(b, r, value, config, now, recordable));
    }
  }

  lemma IdsConcat(a: seq<Alert>, b: seq<Alert>)
    ensures Ids(a + b) == Ids(a) + Ids(b)
  {
    assert forall x :: x in a + b <==> x in a || x in b;
  }

  /** Everything one alert adds, when it is the only row. */
  lemma LoneAlert(a: Alert, r: Reading, value: real, config: Config, now: int, recordable: set<int>)
    ensures Winners([a], value, config, now) == if Wins(a, value, config, now) then [a] else []
    ensures Ids([a]) == {a.id} && Ids([]) == {}
    ensures EmailIds([a]) == if a.email then [a.id] else []
    ensures AllChannelTasks([a], value, r.timestamp) == ChannelTasks(a, value, r.timestamp)
    ensures Events([a], r, value, config, now, recordable)
            == if a.id in recordable then [EventOf(a, r, value, config, now)] else []
  {
    assert [a][1..] == [];
    FilterOne(a, (x: Alert) => Wins(x, value, config, now));
  }

  /** A reading nothing wins on changes nothing. */
  lemma NothingWon(alerts: seq<Alert>, now: int, value: real, timestamp: int)
    ensures StampRows(alerts, Ids([]), now) == alerts
    ensures Messages([], value, timestamp) == []
  {
    assert Ids([]) == {};
  }

  // ---------------------------------------------------------------- the table

  ghost predicate InIdOrder(alerts: seq<Alert>) {
    forall i, j | 0 <= i < j < |alerts| :: alerts[i].id < alerts[j].id
  }

  /** The table once exactly the rows with these ids have been stamped. */
  function StampRows(alerts: seq<Alert>, ids: set<int>, now: int): (r: seq<Alert>)
    ensures |r| == |alerts|
    ensures forall i | 0 <= i < |r| :: r[i] == if alerts[i].id in ids then Stamped(alerts[i], now) else alerts[i]
  {
    seq(|alerts|, i requires 0 <= i < |alerts| => if alerts[i].id in ids then Stamped(alerts[i], now) else alerts[i])
  }

  function Ids(alerts: seq<Alert>): set<int> {
    set a | a in alerts :: a.id
  }

  /** The store as a dispatch found it. */
  datatype Before = Before(alerts: seq<Alert>, outbox: seq<Task>, events: seq<Event>)

  lemma {:induction false} NoEvents(won: seq<Alert>, r: Reading, value: real, config: Config, now: int)
    ensures Events(won, r, value, config, now, {}) == []
  {
    if won == [] {
    } else {
      NoEvents(won[1..], r, value, config, now);
    }
  }

  class AlertStore {
    var alerts: seq<Alert>            // in id order
    var assignments: seq<Assignment>
    var outbox: seq<Task>             // the broker queue
    var events: seq<Event>            // the alert history

    /**
      UPDATE ... SET last_emailed_at = now, last_triggered_at = now
      WHERE id = alertId AND (last_emailed_at IS NULL OR last_emailed_at < cutoff).
     */
    method Claim(alertId: int, cutoff: int, now: int) returns (won: bool)
      requires InIdOrder(alerts)
      modifies this`alerts
      ensures won <==> exists i :: 0 <= i < |old(alerts)| && old(alerts)[i].id == alertId
                                   && OlderThan(old(alerts)[i].lastEmailed, cutoff)
      ensures alerts == if won then StampRows(old(alerts), {alertId}, now) else old(alerts)
    {
      var i := 0;
      while i < |alerts| && alerts[i].id != alertId
        invariant i <= |alerts| && alerts == old(alerts)
        invariant forall k | 0 <= k < i :: alerts[k].id != alertId
      {
        i := i + 1;
      }
      won := i < |alerts| && (alerts[i].lastEmailed.None? || alerts[i].lastEmailed.value < cutoff);
      if won {
        alerts := alerts[i := Stamped(alerts[i], now)];
        assert alerts == StampRows(old(alerts), {alertId}, now);
      }
    }

    /** One fetched alert: evaluate, check its channels, claim; nothing moves unless it wins. */
    method ClaimAlert(alert: Alert, value: real, config: Config, now: int, ghost before: seq<Alert>, ghost done: set<int>)
      returns (won: bool)
      requires InIdOrder(before) && alert in before && alert.id !in done
      requires alerts == StampRows(before, done, now)
      modifies this`alerts
      ensures won <==> Wins(alert, value, config, now)
      ensures alerts == StampRows(before, if won then done + {alert.id} else done, now)
    {
      if !config.evaluate(alert.condition, alert.threshold, value) {
        return false;
      }
      if !(alert.email || alert.whatsapp || alert.sms) {
        return false;
      }
      var graceSeconds := GraceSeconds(alert, config);
      ghost var i :| 0 <= i < |before| && before[i] == alert;
      assert alerts[i] == alert;
      won := Claim(alert.id, now - graceSeconds * SECOND, now);
    }

    /** The per-alert tasks; email is collected and sent once at the end. */
    method EnqueueChannels(alert: Alert, value: real, timestamp: int)
      modifies this`outbox
      ensures outbox == old(outbox) + ChannelTasks(alert, value, timestamp)
    {
      if alert.whatsapp {
        outbox := outbox + [Whatsapp(alert.id, value, timestamp)];
      }
      if alert.sms {
        outbox := outbox + [Sms(alert.id, value, timestamp)];
      }
    }

    /** The port's loop body: claim, record the firing, collect or enqueue each channel. */
    method PortOne(alert: Alert, r: Reading, value: real, config: Config, now: int, recordable: set<int>, emailIds: seq<int>,
                   ghost before: seq<Alert>, ghost done: set<int>)
      returns (won: bool, emailIds': seq<int>)
      requires InIdOrder(before) && alert in before && alert.id !in done
      requires alerts == StampRows(before, done, now)
      modifies this`alerts, this`outbox, this`events
      ensures var w := Winners([alert], value, config, now);
              && won == (w != [])
              && alerts == StampRows(before, done + Ids(w), now)
              && outbox == old(outbox) + AllChannelTasks(w, value, r.timestamp)
              && emailIds' == emailIds + EmailIds(w)
              && events == old(events) + Events(w, r, value, config, now, recordable)
    {
      emailIds' := emailIds;
      LoneAlert(alert, r, value, config, now, recordable);
      won := ClaimAlert(alert, value, config, now, before, done);
      if !won {
        return;
      }
      if alert.id in recordable {
        events := events + [EventOf(alert, r, value, config, now)];
      }
      if alert.email {
        emailIds' := emailIds' + [alert.id];
      }
      EnqueueChannels(alert, value, r.timestamp);
    }

    /** The table, the queue, the history and the locals after the first `i` fetched rows. */
    ghost predicate Progress(fetched: seq<Alert>, i: nat, r: Reading, value: real, config: Config, now: int,
                             recordable: set<int>, was: Before, enqueued: nat, emailIds: seq<int>)
      reads this
    {
      && i <= |fetched|
      && var won := Winners(fetched[..i], value, config, now);
         && enqueued == |won|
         && emailIds == EmailIds(won)
         && alerts == StampRows(was.alerts, Ids(won), now)
         && outbox == was.outbox + AllChannelTasks(won, value, r.timestamp)
         && events == was.events + Events(won, r, value, config, now, recordable)
    }

    /** One turn of the port's loop. */
    method PortTurn(fetched: seq<Alert>, i: nat, r: Reading, value: real, config: Config, now: int,
                    recordable: set<int>, ghost was: Before, enqueued: nat, emailIds: seq<int>)
      returns (enqueued': nat, emailIds': seq<int>)
      requires InIdOrder(was.alerts) && Distinct(fetched) && i < |fetched| && fetched[i] in was.alerts
      requires Progress(fetched, i, r, value, config, now, recordable, was, enqueued, emailIds)
      modifies this`alerts, this`outbox, this`events
      ensures Progress(fetched, i + 1, r, value, config, now, recordable, was, enqueued', emailIds')
    {
      WinnersSnoc(fetched, i, r, value, config, now, recordable);
      var won;
      won, emailIds' := PortOne(fetched[i], r, value, config, now, recordable, emailIds, was.alerts,
                                Ids(Winners(fetched[..i], value, config, now)));
      enqueued' := if won then enqueued + 1 else enqueued;
    }

    /** The port's loop over the fetched rows. */
    method PortLoop(fetched: seq<Alert>, r: Reading, value: real, config: Config, now: int, recordable: set<int>)
      returns (enqueued: nat, emailIds: seq<int>)
      requires InIdOrder(alerts) && Distinct(fetched) && forall a | a in fetched :: a in alerts
      modifies this`alerts, this`outbox, this`events
      ensures var won := Winners(fetched, value, config, now);
              && enqueued == |won|
              && emailIds == EmailIds(won)
              && alerts == StampRows(old(alerts), Ids(won), now)
              && outbox == old(outbox) + AllChannelTasks(won, value, r.timestamp)
              && events == old(events) + Events(won, r, value, config, now, recordable)
    {
      enqueued, emailIds := 0, [];
      ghost var was := Before(alerts, outbox, events);
      NothingWon(alerts, now, value, r.timestamp);
      var i := 0;
      while i < |fetched|
        invariant Progress(fetched, i, r, value, config, now, recordable, was, enqueued, emailIds)
      {
        enqueued, emailIds := PortTurn(fetched, i, r, value, config, now, recordable, was, enqueued, emailIds);
        i := i + 1;
      }
      assert fetched[..i] == fetched;
    }

    /**
      The SQLAlchemy port. Candidates come in id order and the value is calibrated once;
      `recordable` are the alerts whose guarded history insert succeeds. The result is
      the number of claims won; exactly the winners are stamped, announced and recorded.
     */
    method DispatchPort(r: Reading, config: Config, now: int, recordable: set<int>) returns (enqueued: nat)
      requires InIdOrder(alerts)
      modifies this`alerts, this`outbox, this`events
      ensures var won := PortWinners(old(alerts), assignments, r, config, now);
              && enqueued == |won|
              && alerts == StampRows(old(alerts), Ids(won), now)
              && outbox == old(outbox) + Messages(won, Judged(r, config), r.timestamp)
              && events == old(events) + Events(won, r, Judged(r, config), config, now, recordable)
    {
      enqueued := 0;
      NothingWon(alerts, now, Judged(r, config), r.timestamp);
      if r.value.None? || r.sensorKey !in config.registry {
        return;
      }
      var zones := MatchingZones(assignments, r);
      var fetched := Candidates(alerts, r, zones);
      var judged := JudgedValue(r, config);
      if fetched == [] || judged.None? {
        JudgedIsPresent(r, config);
        return;
      }
      var value := judged.value;
      CandidatesInOrder(alerts, r, zones);
      var emailIds;
      enqueued, emailIds := PortLoop(fetched, r, value, config, now, recordable);
      outbox := outbox + EmailTasks(emailIds, value, r.timestamp);
      ConcatAssociates(old(outbox), AllChannelTasks(Winners(fetched, value, config, now), value, r.timestamp),
                       EmailTasks(emailIds, value, r.timestamp));
    }

    /** The Django loop body: the same claim, with no history and the raw value. */
    method DjangoOne(alert: Alert, r: Reading, value: real, config: Config, now: int, emailIds: seq<int>,
                     ghost before: seq<Alert>, ghost done: set<int>)
      returns (won: bool, emailIds': seq<int>)
      requires InIdOrder(before) && alert in before && alert.id !in done
      requires alerts == StampRows(before, done, now)
      modifies this`alerts, this`outbox
      ensures var w := Winners([alert], value, config, now);
              && won == (w != [])
              && alerts == StampRows(before, done + Ids(w), now)
              && outbox == old(outbox) + AllChannelTasks(w, value, r.timestamp)
              && emailIds' == emailIds + EmailIds(w)
    {
      emailIds' := emailIds;
      LoneAlert(alert, r, value, config, now, {});
      won := ClaimAlert(alert, value, config, now, before, done);
      if won {
        if alert.email {
          emailIds' := emailIds' + [alert.id];
        }
        EnqueueChannels(alert, value, r.timestamp);
      }
    }

    /** One turn of the Django loop. */
    method DjangoTurn(fetched: seq<Alert>, i: nat, r: Reading, value: real, config: Config, now: int,
                      ghost was: Before, enqueued: nat, emailIds: seq<int>)
      returns (enqueued': nat, emailIds': seq<int>)
      requires InIdOrder(was.alerts) && Distinct(fetched) && i < |fetched| && fetched[i] in was.alerts
      requires Progress(fetched, i, r, value, config, now, {}, was, enqueued, emailIds)
      modifies this`alerts, this`outbox
      ensures Progress(fetched, i + 1, r, value, config, now, {}, was, enqueued', emailIds')
    {
      WinnersSnoc(fetched, i, r, value, config, now, {});
      NoEvents(Winners([fetched[i]], value, config, now), r, value, config, now);
      var won;
      won, emailIds' := DjangoOne(fetched[i], r, value, config, now, emailIds, was.alerts,
                                  Ids(Winners(fetched[..i], value, config, now)));
      enqueued' := if won then enqueued + 1 else enqueued;
    }

    /** The Django loop over its queryset. */
    method DjangoLoop(fetched: seq<Alert>, r: Reading, value: real, config: Config, now: int)
      returns (enqueued: nat, emailIds: seq<int>)
      requires InIdOrder(alerts) && Distinct(fetched) && forall a | a in fetched :: a in alerts
      modifies this`alerts, this`outbox
      ensures var won := Winners(fetched, value, config, now);
              && enqueued == |won|
              && emailIds == EmailIds(won)
              && alerts == StampRows(old(alerts), Ids(won), now)
              && outbox == old(outbox) + AllChannelTasks(won, value, r.timestamp)
    {
      enqueued, emailIds := 0, [];
      ghost var was := Before(alerts, outbox, events);
      NothingWon(alerts, now, value, r.timestamp);
      var i := 0;
      while i < |fetched|
        invariant Progress(fetched, i, r, value, config, now, {}, was, enqueued, emailIds)
      {
        enqueued, emailIds := DjangoTurn(fetched, i, r, value, config, now, was, enqueued, emailIds);
        i := i + 1;
      }
      assert fetched[..i] == fetched;
    }

    /**
      The Django original. Its query names no order, so `fetched` is any arrangement of
      the candidate rows.
     */
    method DispatchDjango(r: Reading, config: Config, now: int, fetched: seq<Alert>) returns (enqueued: nat)
      requires InIdOrder(alerts)
      requires multiset(fetched) == multiset(Candidates(alerts, r, MatchingZones(assignments, r)))
      modifies this`alerts, this`outbox
      ensures var won := DjangoWinners(fetched, r, config, now);
              && enqueued == |won|
              && alerts == StampRows(old(alerts), Ids(won), now)
              && outbox == old(outbox) + Messages(won, if r.value.Some? then r.value.value else 0.0, r.timestamp)
    {
      enqueued := 0;
      NothingWon(alerts, now, if r.value.Some? then r.value.value else 0.0, r.timestamp);
      if r.value.None? || r.sensorKey !in config.registry {
        return;
      }
      var value := r.value.value;
      ArrangementHasNoRepeats(alerts, r, MatchingZones(assignments, r), fetched);
      var emailIds;
      enqueued, emailIds := DjangoLoop(fetched, r, value, config, now);
      outbox := outbox + EmailTasks(emailIds, value, r.timestamp);
      ConcatAssociates(old(outbox), AllChannelTasks(Winners(fetched, value, config, now), value, r.timestamp),
                       EmailTasks(emailIds, value, r.timestamp));
    }
  }

  /** The alerts the Django engine wins on a reading, given its arrangement of the rows. */
  function DjangoWinners(fetched: seq<Alert>, r: Reading, config: Config, now: int): seq<Alert> {
    if !Dispatches(r, config) then [] else Winners(fetched, r.value.value, config, now)
  }

  ghost predicate Distinct(fetched: seq<Alert>) {
    forall i, j | 0 <= i < j < |fetched| :: fetched[i].id != fetched[j].id
  }

  /** What one more fetched row adds to everything the loops accumulate. */
  lemma WinnersSnoc(fetched: seq<Alert>, i: nat, r: Reading, value: real, config: Config, now: int, recordable: set<int>)
    requires i < |fetched| && Distinct(fetched)
    ensures var won, w := Winners(fetched[..i], value, config, now), Winners([fetched[i]], value, config, now);
            && Winners(fetched[..i + 1], value, config, now) == won + w
            && |w| == (if w != [] then 1 else 0)
            && fetched[i].id !in Ids(won)
            && Ids(won + w) == Ids(won) + Ids(w)
            && EmailIds(won + w) == EmailIds(won) + EmailIds(w)
            && AllChannelTasks(won + w, value, r.timestamp)
               == AllChannelTasks(won, value, r.timestamp) + AllChannelTasks(w, value, r.timestamp)
            && Events(won + w, r, value, config, now, recordable)
               == Events(won, r, value, config, now, recordable) + Events(w, r, value, config, now, recordable)
  {
    var won, w := Winners(fetched[..i], value, config, now), Winners([fetched[i]], value, config, now);
    assert fetched[..i + 1] == fetched[..i] + [fetched[i]];
    FilterConcat(fetched[..i], [fetched[i]], (a: Alert) => Wins(a, value, config, now));
    forall a | a in won ensures a.id != fetched[i].id {
      var k :| 0 <= k < |fetched[..i]| && fetched[..i][k] == a;
      assert fetched[k] == a;
    }
    LoneAlert(fetched[i], r, value, config, now, recordable);
    IdsConcat(won, w);
    EmailIdsConcat(won, w);
    ChannelTasksConcat(won, w, value, r.timestamp);
    EventsConcat(won, w, r, value, config, now, recordable);
  }

  function Candidates(alerts: seq<Alert>, r: Reading, zones: seq<int>): seq<Alert> {
    Filter(alerts, (a: Alert) => Candidate(a, r, zones))
  }

  /** The value a present reading is judged by. */
  function Judged(r: Reading, config: Config): real {
    var v := JudgedValue(r, config);
    if v.Some? then v.value else 0.0
  }

  lemma JudgedIsPresent(r: Reading, config: Config)
    ensures JudgedValue(r, config).Some? <==> r.value.Some?
  {
    if r.device.Some? {
      var key := (r.device.value, r.sensorKey);
      var loaded := C.LoadCalibrations(config.calibrations, config.calibrationAvailable, [(r.device, r.sensorKey)]);
      C.CorrectionIsAffine(r.value, if key in loaded then Some(loaded[key]) else None, r.sensorKey,
                           NativeUnit(r, config), config.units);
    }
  }

  /** The alerts the port wins on a reading. */
  function PortWinners(alerts: seq<Alert>, assignments: seq<Assignment>, r: Reading, config: Config, now: int): seq<Alert> {
    if !Dispatches(r, config) then []
    else Winners(Candidates(alerts, r, MatchingZones(assignments, r)), Judged(r, config), config, now)
  }

  lemma {:induction false} FilterInOrder(alerts: seq<Alert>, p: Alert -> bool)
    requires InIdOrder(alerts)
    ensures InIdOrder(Filter(alerts, p))
  {
    if alerts == [] {
    } else {
      FilterInOrder(alerts[1..], p);
      var rest := Filter(alerts[1..], p);
      forall x | x in rest ensures alerts[0].id < x.id {
        var k :| 0 <= k < |alerts[1..]| && alerts[1..][k] == x;
        assert x == alerts[k + 1];
      }
      OrderCons(alerts[0], rest);
    }
  }

  lemma OrderCons(a: Alert, rest: seq<Alert>)
    requires InIdOrder(rest) && forall x | x in rest :: a.id < x.id
    ensures InIdOrder([a] + rest)
  {
    var all := [a] + rest;
    forall i, j | 0 <= i < j < |all| ensures all[i].id < all[j].id {
      assert all[j] == rest[j - 1] && rest[j - 1] in rest;
      assert i > 0 ==> all[i] == rest[i - 1];
    }
  }

  lemma CandidatesInOrder(alerts: seq<Alert>, r: Reading, zones: seq<int>)
    requires InIdOrder(alerts)
    ensures InIdOrder(Candidates(alerts, r, zones))
    ensures forall a | a in Candidates(alerts, r, zones) :: a in alerts
  {
    FilterInOrder(alerts, (a: Alert) => Candidate(a, r, zones));
  }

  /** Rows of one table, in any arrangement, still have distinct ids. */
  lemma ArrangementHasNoRepeats(alerts: seq<Alert>, r: Reading, zones: seq<int>, fetched: seq<Alert>)
    requires InIdOrder(alerts) && multiset(fetched) == multiset(Candidates(alerts, r, zones))
    ensures forall a | a in fetched :: a in alerts
    ensures Distinct(fetched)
  {
    var ordered := Candidates(alerts, r, zones);
    CandidatesInOrder(alerts, r, zones);
    forall a | a in fetched ensures a in ordered { assert a in multiset(fetched); }
    forall i, j | 0 <= i < j < |fetched| ensures fetched[i].id != fetched[j].id {
      OnceInOrdered(ordered, fetched[i]);
      RepeatCounts(fetched, i, j);
      assert fetched[i] in ordered && fetched[j] in ordered;
    }
  }

  lemma RepeatCounts(s: seq<Alert>, i: nat, j: nat)
    requires i < j < |s|
    ensures s[i] == s[j] ==> multiset(s)[s[i]] >= 2
  {
    assert s == s[..j] + s[j..];
    assert s[i] in s[..j] && s[j] in s[j..];
  }

  lemma {:induction false} OnceInOrdered(ordered: seq<Alert>, a: Alert)
    requires InIdOrder(ordered)
    ensures multiset(ordered)[a] <= 1
  {
    if ordered == [] {
    } else {
      assert ordered == [ordered[0]] + ordered[1..];
      OnceInOrdered(ordered[1..], a);
    }
  }

  // ---------------------------------------------------------------- conservation

  /** The rule fires on this reading if its grace allows it. */
  ghost predicate Eligible(a: Alert, assignments: seq<Assignment>, r: Reading, config: Config) {
    && Dispatches(r, config)
    && a.userId == r.userId && a.sensorKey == r.sensorKey && a.active
    && Concerns(a, r, assignments)
    && Triggered(a, Judged(r, config), config)
  }

  /** A row is stamped exactly when its rule is eligible and older than its grace. */
  lemma StampedExactlyWhenEligible(alerts: seq<Alert>, assignments: seq<Assignment>, r: Reading, config: Config, now: int, i: nat)
    requires InIdOrder(alerts) && i < |alerts|
    ensures var won := PortWinners(alerts, assignments, r, config, now);
            var wins := && Eligible(alerts[i], assignments, r, config)
                        && Throttle.Wins(alerts[i].lastEmailed, AttemptOf(alerts[i], config, now));
            && (alerts[i] in won <==> wins)
            && StampRows(alerts, Ids(won), now)[i] == if wins then Stamped(alerts[i], now) else alerts[i]
  {
    var won := PortWinners(alerts, assignments, r, config, now);
    IndexMatchesConcern(alerts[i], r, assignments);
    if Dispatches(r, config) {
      CandidatesInOrder(alerts, r, MatchingZones(assignments, r));
      assert alerts[i] in Candidates(alerts, r, MatchingZones(assignments, r))
        <==> Candidate(alerts[i], r, MatchingZones(assignments, r));
    }
    if alerts[i].id in Ids(won) {
      var a :| a in won && a.id == alerts[i].id;
      var k :| 0 <= k < |alerts| && alerts[k] == a;
      assert k == i;
    }
  }

  // ---------------------------------------------------------------- what a firing is made of

  /**
    A reading is judged by its raw value when no device produced it, and otherwise by the
    value its device's own stored calibration makes of it in the registry's unit.
   */
  lemma JudgedByOwnCalibration(r: Reading, config: Config)
    requires r.value.Some?
    ensures r.device.None? ==> Judged(r, config) == r.value.value
    ensures r.device.Some? && r.sensorKey in config.registry && r.sensorKey != "" ==>
              var stored := if config.calibrationAvailable
                            then C.Lookup(config.calibrations, (r.device.value, r.sensorKey)) else None;
              Judged(r, config)
              == C.Effective(stored, r.sensorKey, config.registry[r.sensorKey], config.units).At(r.value.value)
  {
    if r.device.Some? {
      var key := (r.device.value, r.sensorKey);
      var pairs := [(r.device, r.sensorKey)];
      var loaded := C.LoadCalibrations(config.calibrations, config.calibrationAvailable, pairs);
      C.BatchLoadIsLookup(config.calibrations, config.calibrationAvailable, pairs, key);
      C.CorrectionIsAffine(r.value, if key in loaded then Some(loaded[key]) else None, r.sensorKey,
                           NativeUnit(r, config), config.units);
    }
  }

  /** The grace of a rule, in seconds: its override, else its key's, else half an hour. */
  ghost predicate HasGrace(a: Alert, config: Config, seconds: nat) {
    || a.graceOverride == Some(seconds)
    || (a.graceOverride == None && a.sensorKey in config.graces && config.graces[a.sensorKey] == seconds)
    || (a.graceOverride == None && a.sensorKey !in config.graces && seconds == 1800)
  }

  /**
    When a rule fires, in full: the reading has a value and a registered key, the rule is
    its owner's, of its key, active and concerned, has a channel, its threshold is crossed
    by the judged value, and it last fired more than its grace ago. Its two stamps then
    take the reference, and no other row changes.
   */
  lemma FiresExactly(alerts: seq<Alert>, assignments: seq<Assignment>, r: Reading, config: Config, now: int, i: nat, seconds: nat)
    requires InIdOrder(alerts) && i < |alerts| && HasGrace(alerts[i], config, seconds)
    ensures var won := PortWinners(alerts, assignments, r, config, now);
            var a, row := alerts[i], StampRows(alerts, Ids(won), now)[i];
            var fires := && r.value != None && r.sensorKey in config.registry
                         && a.userId == r.userId && a.sensorKey == r.sensorKey && a.active && Concerns(a, r, assignments)
                         && (a.email || a.whatsapp || a.sms)
                         && config.evaluate(a.condition, a.threshold, Judged(r, config))
                         && (a.lastEmailed == None || now - a.lastEmailed.value > seconds * 1_000_000);
            && (a in won <==> fires)
            && row == if fires then a.(lastEmailed := Some(now), lastTriggered := Some(now)) else a
  {
    StampedExactlyWhenEligible(alerts, assignments, r, config, now, i);
  }

  /** The rule has this channel switched on. */
  predicate Opted(a: Alert, channel: string) {
    (channel == "email" && a.email) || (channel == "whatsapp" && a.whatsapp) || (channel == "sms" && a.sms)
  }

  /** The history row of a firing: the rule as it stood, the reading, and the channels used. */
  ghost predicate Snapshot(e: Event, a: Alert, r: Reading, value: real, config: Config, now: int) {
    && e.triggeredAt == now && e.readingAt == r.timestamp && e.observed == value
    && e.alertId == a.id && e.alertName == a.name && e.condition == a.condition && e.threshold == a.threshold
    && e.notificationZone == a.notificationZone
    && e.userId == r.userId && e.device == r.device && e.sensorKey == r.sensorKey
    && (r.sensorKey in config.registry ==> e.unit == config.registry[r.sensorKey])
    && (a.zone == None || a.zone == Some(0) ==> e.zone == r.zone)
    && (a.zone != None && a.zone != Some(0) ==> e.zone == a.zone)
    && e.channels == Filter(["email", "whatsapp", "sms"], (c: string) => Opted(a, c))
    && HasGrace(a, config, e.graceSeconds)
  }

  /** One history row per winner whose insert succeeded, in order, each its snapshot. */
  lemma {:induction false} EventsAreSnapshots(won: seq<Alert>, r: Reading, value: real, config: Config, now: int, recordable: set<int>)
    ensures var recorded := Filter(won, (a: Alert) => a.id in recordable);
            var rows := Events(won, r, value, config, now, recordable);
            && |rows| == |recorded|
            && forall i | 0 <= i < |rows| :: Snapshot(rows[i], recorded[i], r, value, config, now)
  {
    if won == [] {
    } else {
      EventsAreSnapshots(won[1..], r, value, config, now, recordable);
      SnapshotOf(won[0], r, value, config, now);
    }
  }

  lemma OptedChannels(a: Alert)
    ensures Filter(["email", "whatsapp", "sms"], (c: string) => Opted(a, c))
            == (if a.email then ["email"] else []) + (if a.whatsapp then ["whatsapp"] else []) + (if a.sms then ["sms"] else [])
  {
    assert |"email"| == 5 && |"whatsapp"| == 8 && |"sms"| == 3;
    FilterThree("email", "whatsapp", "sms", (c: string) => Opted(a, c));
  }

  lemma SnapshotOf(a: Alert, r: Reading, value: real, config: Config, now: int)
    ensures Snapshot(EventOf(a, r, value, config, now), a, r, value, config, now)
  {
    OptedChannels(a);
  }

  predicate IsWhatsapp(t: Task) { t.Whatsapp? }
  predicate IsSms(t: Task) { t.Sms? }
  predicate IsMail(t: Task) { t.Email? || t.Digest? }

  predicate OptsWhatsapp(a: Alert) { a.whatsapp }
  predicate OptsSms(a: Alert) { a.sms }

  /** The tasks the winners opting into a channel are owed, one each. */
  function Owed(won: seq<Alert>, opts: Alert -> bool, task: Alert -> Task): seq<Task> {
    Map(Filter(won, opts), task)
  }

  lemma OwedCons(won: seq<Alert>, opts: Alert -> bool, task: Alert -> Task)
    requires won != []
    ensures Owed(won, opts, task) == (if opts(won[0]) then [task(won[0])] else []) + Owed(won[1..], opts, task)
  {
    var rest := Filter(won[1..], opts);
    if opts(won[0]) {
      assert Filter(won, opts) == [won[0]] + rest;
      MapConcat([won[0]], rest, task);
      assert Map([won[0]], task) == [task(won[0])];
    } else {
      assert Filter(won, opts) == rest;
      assert [] + Owed(won[1..], opts, task) == Owed(won[1..], opts, task);
    }
  }

  function ToWhatsapp(value: real, timestamp: int): Alert -> Task {
    (a: Alert) => Whatsapp(a.id, value, timestamp)
  }

  function ToSms(value: real, timestamp: int): Alert -> Task {
    (a: Alert) => Sms(a.id, value, timestamp)
  }

  /** WhatsApp and SMS messages correspond one to one, in order, to the winners opting in. */
  lemma {:induction false} ChannelsBiject(won: seq<Alert>, value: real, timestamp: int)
    ensures Filter(AllChannelTasks(won, value, timestamp), IsWhatsapp) == Owed(won, OptsWhatsapp, ToWhatsapp(value, timestamp))
    ensures Filter(AllChannelTasks(won, value, timestamp), IsSms) == Owed(won, OptsSms, ToSms(value, timestamp))
    ensures Filter(AllChannelTasks(won, value, timestamp), IsMail) == []
  {
    if won == [] {
    } else {
      var head := ChannelTasks(won[0], value, timestamp);
      var rest := AllChannelTasks(won[1..], value, timestamp);
      assert AllChannelTasks(won, value, timestamp) == head + rest;
      ChannelsBiject(won[1..], value, timestamp);
      OwedCons(won, OptsWhatsapp, ToWhatsapp(value, timestamp));
      OwedCons(won, OptsSms, ToSms(value, timestamp));
      HeadChannels(won[0], value, timestamp);
      FilterConcat(head, rest, IsWhatsapp);
      FilterConcat(head, rest, IsSms);
      FilterConcat(head, rest, IsMail);
    }
  }

  lemma HeadChannels(a: Alert, value: real, timestamp: int)
    ensures var head := ChannelTasks(a, value, timestamp);
            && Filter(head, IsWhatsapp) == (if a.whatsapp then [Whatsapp(a.id, value, timestamp)] else [])
            && Filter(head, IsSms) == (if a.sms then [Sms(a.id, value, timestamp)] else [])
            && Filter(head, IsMail) == []
  {
    var w, s := Whatsapp(a.id, value, timestamp), Sms(a.id, value, timestamp);
    FilterPair(w, a.whatsapp, s, a.sms, IsWhatsapp);
    FilterPair(w, a.whatsapp, s, a.sms, IsSms);
    FilterPair(w, a.whatsapp, s, a.sms, IsMail);
  }

  /** The alerts an email task announces. */
  function Announced(tasks: seq<Task>): seq<int> {
    if tasks == [] then []
    else
      (match tasks[0]
       case Email(id, _, _) => [id]
       case Digest(ids, _, _) => ids
       case _ => [])
      + Announced(tasks[1..])
  }

  /**
    Of everything a reading enqueues at most one task is mail, and it announces exactly
    the winners that opted into email, in id order.
   */
  lemma OneMailForTheWinners(alerts: seq<Alert>, assignments: seq<Assignment>, r: Reading, config: Config, now: int)
    requires InIdOrder(alerts)
    ensures var won := PortWinners(alerts, assignments, r, config, now);
            var mail := Filter(Messages(won, Judged(r, config), r.timestamp), IsMail);
            && |mail| <= 1
            && Announced(mail) == Map(Filter(won, (a: Alert) => a.email), (a: Alert) => a.id)
            && (forall t | t in mail :: t.value == Judged(r, config) && t.timestamp == r.timestamp)
            && (forall t | t in mail :: t.Email? <==> |Announced(mail)| == 1)
            && InIdOrder(won)
  {
    MailOf(PortWinners(alerts, assignments, r, config, now), Judged(r, config), r.timestamp);
    EmailIdsAreOptedIn(PortWinners(alerts, assignments, r, config, now));
    if Dispatches(r, config) {
      CandidatesInOrder(alerts, r, MatchingZones(assignments, r));
      FilterInOrder(Candidates(alerts, r, MatchingZones(assignments, r)),
                    (a: Alert) => Wins(a, Judged(r, config), config, now));
    }
  }

  lemma MailOf(won: seq<Alert>, value: real, timestamp: int)
    ensures var mail := Filter(Messages(won, value, timestamp), IsMail);
            && |mail| <= 1
            && Announced(mail) == EmailIds(won)
            && forall t | t in mail :: t.value == value && t.timestamp == timestamp && (t.Email? <==> |EmailIds(won)| == 1)
  {
    var channels, tasks := AllChannelTasks(won, value, timestamp), EmailTasks(EmailIds(won), value, timestamp);
    FilterConcat(channels, tasks, IsMail);
    ChannelsBiject(won, value, timestamp);
    EmailTasksAnnounce(EmailIds(won), value, timestamp);
    assert [] + tasks == tasks;
  }

  lemma EmailTasksAnnounce(ids: seq<int>, value: real, timestamp: int)
    ensures var tasks := EmailTasks(ids, value, timestamp);
            && Filter(tasks, IsMail) == tasks && |tasks| <= 1
            && Announced(tasks) == ids
            && forall t | t in tasks :: t.value == value && t.timestamp == timestamp && (t.Email? <==> |ids| == 1)
  {
    var tasks := EmailTasks(ids, value, timestamp);
    if tasks != [] {
      FilterOne(tasks[0], IsMail);
      assert tasks == [tasks[0]] && tasks[1..] == [];
    }
  }

  lemma {:induction false} EmailIdsAreOptedIn(won: seq<Alert>)
    ensures EmailIds(won) == Map(Filter(won, (a: Alert) => a.email), (a: Alert) => a.id)
  {
    if won == [] {
    } else {
      EmailIdsAreOptedIn(won[1..]);
    }
  }

  // ---------------------------------------------------------------- the two programs agree

  lemma {:induction false} FilterCounts(s: seq<Alert>, p: Alert -> bool, x: Alert)
    ensures multiset(Filter(s, p))[x] == if p(x) then multiset(s)[x] else 0
  {
    if s == [] {
    } else {
      FilterCounts(s[1..], p, x);
      assert s == [s[0]] + s[1..];
    }
  }

  lemma FilterOfArrangement(a: seq<Alert>, b: seq<Alert>, p: Alert -> bool)
    requires multiset(a) == multiset(b)
    ensures multiset(Filter(a, p)) == multiset(Filter(b, p))
  {
    forall x ensures multiset(Filter(a, p))[x] == multiset(Filter(b, p))[x] {
      FilterCounts(a, p, x);
      FilterCounts(b, p, x);
    }
  }

  function Without(s: seq<Alert>, k: nat): (r: seq<Alert>)
    requires k < |s|
    ensures |r| == |s| - 1
    ensures multiset(s) == multiset{s[k]} + multiset(r)
  {
    assert s == s[..k] + ([s[k]] + s[k + 1..]);
    s[..k] + s[k + 1..]
  }

  lemma MiddleOut<T>(x: seq<T>, y: seq<T>, z: seq<T>)
    ensures multiset(x + (y + z)) == multiset(y) + multiset(x + z)
  {
  }

  lemma ChannelTasksMiddle(before: seq<Alert>, one: seq<Alert>, after: seq<Alert>, value: real, timestamp: int)
    ensures multiset(AllChannelTasks(before + (one + after), value, timestamp))
            == multiset(AllChannelTasks(one, value, timestamp)) + multiset(AllChannelTasks(before + after, value, timestamp))
  {
    ChannelTasksConcat(before, after, value, timestamp);
    ChannelTasksConcat(one, after, value, timestamp);
    ChannelTasksConcat(before, one + after, value, timestamp);
    MiddleOut(AllChannelTasks(before, value, timestamp), AllChannelTasks(one, value, timestamp),
              AllChannelTasks(after, value, timestamp));
  }

  lemma EmailIdsMiddle(before: seq<Alert>, one: seq<Alert>, after: seq<Alert>)
    ensures multiset(EmailIds(before + (one + after))) == multiset(EmailIds(one)) + multiset(EmailIds(before + after))
  {
    EmailIdsConcat(before, after);
    EmailIdsConcat(one, after);
    EmailIdsConcat(before, one + after);
    MiddleOut(EmailIds(before), EmailIds(one), EmailIds(after));
  }

  /** Taking one winner out of the middle takes exactly its own messages out. */
  lemma MessagesWithout(s: seq<Alert>, k: nat, value: real, timestamp: int)
    requires k < |s|
    ensures multiset(AllChannelTasks(s, value, timestamp))
            == multiset(AllChannelTasks([s[k]], value, timestamp)) + multiset(AllChannelTasks(Without(s, k), value, timestamp))
    ensures multiset(EmailIds(s)) == multiset(EmailIds([s[k]])) + multiset(EmailIds(Without(s, k)))
  {
    assert s == s[..k] + ([s[k]] + s[k + 1..]);
    ChannelTasksMiddle(s[..k], [s[k]], s[k + 1..], value, timestamp);
    EmailIdsMiddle(s[..k], [s[k]], s[k + 1..]);
  }

  /** Winners in another arrangement amount to the same messages. */
  lemma {:induction false} MessagesOfArrangement(a: seq<Alert>, b: seq<Alert>, value: real, timestamp: int)
    requires multiset(a) == multiset(b)
    ensures |a| == |b|
    ensures multiset(AllChannelTasks(a, value, timestamp)) == multiset(AllChannelTasks(b, value, timestamp))
    ensures multiset(EmailIds(a)) == multiset(EmailIds(b))
  {
    if a == [] {
      assert |multiset(b)| == |b|;
    } else {
      assert a[0] in multiset(b);
      var k :| 0 <= k < |b| && b[k] == a[0];
      assert multiset(Without(a, 0)) == multiset(a) - multiset{a[0]};
      assert multiset(Without(b, k)) == multiset(b) - multiset{a[0]};
      MessagesOfArrangement(Without(a, 0), Without(b, k), value, timestamp);
      MessagesWithout(a, 0, value, timestamp);
      MessagesWithout(b, k, value, timestamp);
    }
  }

  /** The same mail up to the order of the ids a digest lists. */
  ghost predicate SameMail(a: seq<Task>, b: seq<Task>) {
    || (a == [] && b == [])
    || (|a| == |b| == 1 && a[0].Email? && a[0] == b[0])
    || (|a| == |b| == 1 && a[0].Digest? && b[0].Digest?
        && multiset(a[0].alertIds) == multiset(b[0].alertIds)
        && a[0].value == b[0].value && a[0].timestamp == b[0].timestamp)
  }

  lemma SameIdsSameMail(a: seq<int>, b: seq<int>, value: real, timestamp: int)
    requires multiset(a) == multiset(b)
    ensures SameMail(EmailTasks(a, value, timestamp), EmailTasks(b, value, timestamp))
  {
    assert |multiset(a)| == |a| && |multiset(b)| == |b|;
    if |a| == 1 {
      assert a[0] in multiset(b);
    }
  }

  /**
    The Django engine and its port agree: on a reading without a device, whatever order
    Django's rows come in, both win the same alerts, leave the same table, return the
    same count and enqueue the same messages up to order.
   */
  lemma DjangoAgreesWithPort(alerts: seq<Alert>, assignments: seq<Assignment>, r: Reading, config: Config, now: int, fetched: seq<Alert>)
    requires r.device.None?
    requires multiset(fetched) == multiset(Candidates(alerts, r, MatchingZones(assignments, r)))
    ensures var port, django := PortWinners(alerts, assignments, r, config, now), DjangoWinners(fetched, r, config, now);
            var value := if r.value.Some? then r.value.value else 0.0;
            && |port| == |django|
            && StampRows(alerts, Ids(port), now) == StampRows(alerts, Ids(django), now)
            && multiset(AllChannelTasks(port, Judged(r, config), r.timestamp)) == multiset(AllChannelTasks(django, value, r.timestamp))
            && SameMail(EmailTasks(EmailIds(port), Judged(r, config), r.timestamp), EmailTasks(EmailIds(django), value, r.timestamp))
  {
    var port, django := PortWinners(alerts, assignments, r, config, now), DjangoWinners(fetched, r, config, now);
    SameWinners(alerts, assignments, r, config, now, fetched);
    MessagesOfArrangement(port, django, Judged(r, config), r.timestamp);
    SameIdsSameMail(EmailIds(port), EmailIds(django), Judged(r, config), r.timestamp);
    SameIds(port, django);
  }

  lemma SameWinners(alerts: seq<Alert>, assignments: seq<Assignment>, r: Reading, config: Config, now: int, fetched: seq<Alert>)
    requires r.device.None?
    requires multiset(fetched) == multiset(Candidates(alerts, r, MatchingZones(assignments, r)))
    ensures Judged(r, config) == if r.value.Some? then r.value.value else 0.0
    ensures multiset(PortWinners(alerts, assignments, r, config, now)) == multiset(DjangoWinners(fetched, r, config, now))
  {
    if Dispatches(r, config) {
      FilterOfArrangement(Candidates(alerts, r, MatchingZones(assignments, r)), fetched,
                          (a: Alert) => Wins(a, r.value.value, config, now));
    }
  }

  lemma SameIds(a: seq<Alert>, b: seq<Alert>)
    requires multiset(a) == multiset(b)
    ensures Ids(a) == Ids(b)
  {
    assert forall x :: x in a <==> x in multiset(a);
    assert forall x :: x in b <==> x in multiset(b);
  }

  // ---------------------------------------------------------------- runs of readings

  datatype Arrival = Arrival(reading: Reading, now: int)

  /** The table after a run of readings pushed through the port. */
  function AfterArrivals(alerts: seq<Alert>, assignments: seq<Assignment>, config: Config, run: seq<Arrival>): seq<Alert>
    decreases |run|
  {
    if run == [] then alerts
    else
      var won := PortWinners(alerts, assignments, run[0].reading, config, run[0].now);
      AfterArrivals(StampRows(alerts, Ids(won), run[0].now), assignments, config, run[1..])
  }

  /** The instants at which row `i` wins over a run. */
  function FiringTimes(alerts: seq<Alert>, assignments: seq<Assignment>, config: Config, run: seq<Arrival>, i: nat): seq<int>
    requires i < |alerts|
    decreases |run|
  {
    if run == [] then []
    else
      var won := PortWinners(alerts, assignments, run[0].reading, config, run[0].now);
      (if alerts[i] in won then [run[0].now] else [])
      + FiringTimes(StampRows(alerts, Ids(won), run[0].now), assignments, config, run[1..], i)
  }

  /** The instants of the readings a rule is eligible on. */
  ghost function EligibleTimes(a: Alert, assignments: seq<Assignment>, config: Config, run: seq<Arrival>): seq<int> {
    if run == [] then []
    else (if Eligible(a, assignments, run[0].reading, config) then [run[0].now] else [])
         + EligibleTimes(a, assignments, config, run[1..])
  }

  lemma {:induction false} EligibilityIgnoresStamps(a: Alert, b: Alert, assignments: seq<Assignment>, config: Config, run: seq<Arrival>)
    requires b == a.(lastEmailed := b.lastEmailed, lastTriggered := b.lastTriggered)
    ensures EligibleTimes(a, assignments, config, run) == EligibleTimes(b, assignments, config, run)
  {
    if run == [] {
    } else {
      EligibilityIgnoresStamps(a, b, assignments, config, run[1..]);
    }
  }

  /** The first reading of a run: whether row `i` fires on it, and the row it leaves. */
  lemma FiringStep(alerts: seq<Alert>, assignments: seq<Assignment>, config: Config, run: seq<Arrival>, i: nat)
    requires InIdOrder(alerts) && i < |alerts| && run != []
    ensures var a, now := alerts[i], run[0].now;
            var next := StampRows(alerts, Ids(PortWinners(alerts, assignments, run[0].reading, config, now)), now);
            var fires := && Eligible(a, assignments, run[0].reading, config)
                         && OlderThan(a.lastEmailed, now - GraceSeconds(a, config) * SECOND);
            && InIdOrder(next) && |next| == |alerts|
            && next[i] == (if fires then Stamped(a, now) else a)
            && FiringTimes(alerts, assignments, config, run, i)
               == (if fires then [now] else []) + FiringTimes(next, assignments, config, run[1..], i)
  {
    StampedExactlyWhenEligible(alerts, assignments, run[0].reading, config, run[0].now, i);
  }

  /**
    Over any run of readings, a rule fires exactly when the grace throttle lets its
    eligible readings through: other rules, owners and keys never interfere.
   */
  lemma {:induction false} RunIsThrottled(alerts: seq<Alert>, assignments: seq<Assignment>, config: Config, run: seq<Arrival>, i: nat)
    requires InIdOrder(alerts) && i < |alerts|
    ensures FiringTimes(alerts, assignments, config, run, i)
            == Throttle.WinningTimes(alerts[i].lastEmailed, EligibleTimes(alerts[i], assignments, config, run),
                                     GraceSeconds(alerts[i], config) * SECOND)
    decreases |run|
  {
    if run == [] {
    } else {
      var a, now := alerts[i], run[0].now;
      var next := StampRows(alerts, Ids(PortWinners(alerts, assignments, run[0].reading, config, now)), now);
      var grace := GraceSeconds(a, config) * SECOND;
      var times, rest := EligibleTimes(a, assignments, config, run), EligibleTimes(a, assignments, config, run[1..]);
      FiringStep(alerts, assignments, config, run, i);
      RunIsThrottled(next, assignments, config, run[1..], i);
      EligibilityIgnoresStamps(a, next[i], assignments, config, run[1..]);
      assert GraceSeconds(next[i], config) * SECOND == grace;
      if Eligible(a, assignments, run[0].reading, config) {
        assert times[0] == now && times[1..] == rest;
        Throttle.WinningTimesStep(a.lastEmailed, times, grace);
      } else {
        assert times == rest;
      }
    }
  }

  /** So on readings in time order no history respecting the grace notifies more often. */
  lemma FiringIsOptimal(alerts: seq<Alert>, assignments: seq<Assignment>, config: Config, run: seq<Arrival>, i: nat, s: seq<int>)
    requires InIdOrder(alerts) && i < |alerts|
    requires Throttle.Ordered(EligibleTimes(alerts[i], assignments, config, run))
    requires Throttle.Subsequence(s, EligibleTimes(alerts[i], assignments, config, run))
    requires Throttle.Spaced(alerts[i].lastEmailed, s, GraceSeconds(alerts[i], config) * SECOND)
    ensures |s| <= |FiringTimes(alerts, assignments, config, run, i)|
  {
    RunIsThrottled(alerts, assignments, config, run, i);
    Throttle.ThrottleIsOptimal(alerts[i].lastEmailed, EligibleTimes(alerts[i], assignments, config, run),
                               GraceSeconds(alerts[i], config) * SECOND, s);
  }
}
