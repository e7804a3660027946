/**
  The device-health scan: for every active device that is offline or low on battery,
  claim its notification slot, email the owner, and put the old stamp back when the
  send fails so that a later scan can retry.
 */
module DeviceHealth {
  import opened Stamps
  import Throttle

  const COOLDOWN: nat := 24 * HOUR
  const OFFLINE_AFTER := 24 * HOUR
  const LOW_BATTERY_V := 3.4

  datatype Issue = Offline | LowBattery

  datatype Uplink = Uplink(devEui: string, receivedAt: int, battery: Option<real>)

  datatype Device = Device(id: int, serial: string, userId: Option<int>, active: bool, lastNotified: Stamp)

  datatype Delivery = Delivery(userId: int, recipient: string, sent: bool)

  /**
    What one scan meets besides the device table: its reference, the uplinks stored so
    far, the stripped email of each user, and the devices whose mail the provider refuses.
   */
  datatype Scene = Scene(reference: int, uplinks: seq<Uplink>, emails: map<int, string>, refused: set<int>)

  // ------------------------------------------------------- classification

  /** The pure health check: strictly more than a day silent, strictly under 3.4 V. */
  method ClassifyDeviceHealth(lastSeen: Stamp, battery: Option<real>, reference: int) returns (issues: seq<Issue>)
    ensures issues == Issues(lastSeen, battery, reference)
  {
    issues := [];
    if lastSeen.None? || reference - lastSeen.value > OFFLINE_AFTER {
      issues := issues + [Offline];
    }
    if battery.Some? && battery.value < LOW_BATTERY_V {
      issues := issues + [LowBattery];
    }
  }

  function Issues(lastSeen: Stamp, battery: Option<real>, reference: int): (r: seq<Issue>)
    ensures Offline in r <==> OlderThan(lastSeen, reference - OFFLINE_AFTER)
    ensures LowBattery in r <==> battery.Some? && battery.value < LOW_BATTERY_V
  {
    (if OlderThan(lastSeen, reference - OFFLINE_AFTER) then [Offline] else [])
    + (if battery.Some? && battery.value < LOW_BATTERY_V then [LowBattery] else [])
  }

  /** SELECT ... WHERE dev_eui = serial ORDER BY received_at DESC LIMIT 1. */
  function Latest(uplinks: seq<Uplink>, serial: string): (r: Option<Uplink>)
    ensures r.None? <==> forall u | u in uplinks :: u.devEui != serial
    ensures r.Some? ==> r.value in uplinks && r.value.devEui == serial
    ensures r.Some? ==> forall u | u in uplinks && u.devEui == serial :: u.receivedAt <= r.value.receivedAt
  {
    if uplinks == [] then None
    else
      var rest := Latest(uplinks[1..], serial);
      if uplinks[0].devEui == serial && (rest.None? || rest.value.receivedAt <= uplinks[0].receivedAt)
      then Some(uplinks[0]) else rest
  }

  predicate Unhealthy(d: Device, scene: Scene) {
    var u := Latest(scene.uplinks, d.serial);
    Issues(if u.Some? then Some(u.value.receivedAt) else None,
           if u.Some? then u.value.battery else None, scene.reference) != []
  }

  /** The owner's address; blank when the device has no owner, or the owner no address. */
  function Recipient(d: Device, scene: Scene): string {
    if d.userId.Some? && d.userId.value in scene.emails then scene.emails[d.userId.value] else ""
  }

  // ------------------------------------------------------- one device, one scan

  datatype Verdict = Healthy | NoRecipient | Throttled | Undelivered | Notified

  function Judge(d: Device, scene: Scene): Verdict {
    if !Unhealthy(d, scene) then Healthy
    else if Recipient(d, scene) == "" then NoRecipient
    else if !OlderThan(d.lastNotified, scene.reference - COOLDOWN) then Throttled
    else if d.id in scene.refused then Undelivered
    else Notified
  }

  /** Only a delivered email moves the stamp. */
  function Scanned(d: Device, scene: Scene): Device {
    if d.active && Judge(d, scene).Notified? then d.(lastNotified := Some(scene.reference)) else d
  }

  function Deliveries(d: Device, scene: Scene): seq<Delivery> {
    if !d.active || d.userId.None? then []
    else match Judge(d, scene)
      case Notified => [Delivery(d.userId.value, Recipient(d, scene), true)]
      case Undelivered => [Delivery(d.userId.value, Recipient(d, scene), false)]
      case _ => []
  }

  function AllDeliveries(ds: seq<Device>, scene: Scene): seq<Delivery> {
    if ds == [] then [] else Deliveries(ds[0], scene) + AllDeliveries(ds[1..], scene)
  }

  lemma {:induction false} AllDeliveriesSnoc(ds: seq<Device>, i: nat, scene: Scene)
    requires i < |ds|
    ensures AllDeliveries(ds[..i + 1], scene) == AllDeliveries(ds[..i], scene) + Deliveries(ds[i], scene)
  {
    if i == 0 {
    } else {
      assert ds[..i + 1][1..] == ds[1..][..i] && ds[..i][1..] == ds[1..][..i - 1];
      AllDeliveriesSnoc(ds[1..], i - 1, scene);
    }
  }

  /** An active device whose verdict is one of `vs`. */
  function Got(scene: Scene, vs: set<Verdict>): Device -> bool {
    (d: Device) => d.active && Judge(d, scene) in vs
  }

  function Tally(ds: seq<Device>, scene: Scene, vs: set<Verdict>): nat {
    |Filter(ds, Got(scene, vs))|
  }

  lemma TallySnoc(ds: seq<Device>, i: nat, scene: Scene, vs: set<Verdict>)
    requires i < |ds|
    ensures Tally(ds[..i + 1], scene, vs)
            == Tally(ds[..i], scene, vs) + if ds[i].active && Judge(ds[i], scene) in vs then 1 else 0
  {
    FilterSnoc(ds, i, Got(scene, vs));
  }

  const SKIPPED: set<Verdict> := {NoRecipient, Throttled, Undelivered}
  const ANY: set<Verdict> := SKIPPED + {Healthy, Notified}

  class Scanner {
    var devices: seq<Device>       // in id order
    var deliveries: seq<Delivery>  // the delivery log

    /**
      UPDATE ... SET last_health_notified = reference
      WHERE id = row AND (last_health_notified IS NULL OR last_health_notified < cutoff).
     */
    method Claim(row: nat, reference: int, cutoff: int) returns (claimed: bool)
      requires row < |devices|
      modifies this`devices
      ensures claimed == OlderThan(old(devices)[row].lastNotified, cutoff)
      ensures devices == if claimed then old(devices)[row := old(devices)[row].(lastNotified := Some(reference))]
                         else old(devices)
    {
      claimed := devices[row].lastNotified.None? || devices[row].lastNotified.value < cutoff;
      if claimed {
        devices := devices[row := devices[row].(lastNotified := Some(reference))];
      }
    }

    /** The loop body for one active device: classify, claim, send, and undo on failure. */
    method ScanDevice(row: nat, scene: Scene) returns (verdict: Verdict)
      requires row < |devices| && devices[row].active
      modifies this
      ensures verdict == Judge(old(devices)[row], scene)
      ensures devices == old(devices)[row := Scanned(old(devices)[row], scene)]
      ensures deliveries == old(deliveries) + Deliveries(old(devices)[row], scene)
    {
      var device := devices[row];
      var uplink := Latest(scene.uplinks, device.serial);
      var lastSeen: Stamp := if uplink.Some? then Some(uplink.value.receivedAt) else None;
      var battery := if uplink.Some? then uplink.value.battery else None;
      var issues := ClassifyDeviceHealth(lastSeen, battery, scene.reference);
      if issues == [] {
        return Healthy;
      }
      var recipient := Recipient(device, scene);
      if recipient == "" {
        return NoRecipient;
      }
      var prev := device.lastNotified;
      var claimed := Claim(row, scene.reference, scene.reference - COOLDOWN);
      if !claimed {
        return Throttled;
      }
      if device.id !in scene.refused {
        deliveries := deliveries + [Delivery(device.userId.value, recipient, true)];
        return Notified;
      }
      devices := devices[row := devices[row].(lastNotified := prev)];
      deliveries := deliveries + [Delivery(device.userId.value, recipient, false)];
      return Undelivered;
    }

    /**
      One scan. Every active device is counted once, as healthy, notified or skipped;
      exactly the notified ones get a new stamp; the log gains one row per send.
     */
    method ScanDeviceHealth(scene: Scene) returns (scanned: nat, notified: nat, healthy: nat, skipped: nat)
      modifies this
      ensures |devices| == |old(devices)|
      ensures forall k | 0 <= k < |devices| :: devices[k] == Scanned(old(devices)[k], scene)
      ensures deliveries == old(deliveries) + AllDeliveries(old(devices), scene)
      ensures healthy == Tally(old(devices), scene, {Healthy})
      ensures notified == Tally(old(devices), scene, {Notified})
      ensures skipped == Tally(old(devices), scene, SKIPPED)
      ensures scanned == healthy + notified + skipped == Tally(old(devices), scene, ANY)
    {
      scanned, notified, healthy, skipped := 0, 0, 0, 0;
      ghost var before := devices;
      ghost var logged := deliveries;
      var i := 0;
      while i < |devices|
        invariant Progress(before, logged, i, scene, scanned, notified, healthy, skipped)
      {
        scanned, notified, healthy, skipped := CountTurn(before, logged, i, scene, scanned, notified, healthy, skipped);
        i := i + 1;
      }
      assert before[..i] == before;
    }

    /** The table and the log once the first `i` devices are done. */
    ghost predicate Done(before: seq<Device>, logged: seq<Delivery>, i: nat, scene: Scene)
      reads this
    {
      && i <= |devices| == |before|
      && (forall k | 0 <= k < i :: devices[k] == Scanned(before[k], scene))
      && (forall k | i <= k < |before| :: devices[k] == before[k])
      && deliveries == logged + AllDeliveries(before[..i], scene)
    }

    ghost predicate Progress(before: seq<Device>, logged: seq<Delivery>, i: nat, scene: Scene,
                             scanned: nat, notified: nat, healthy: nat, skipped: nat)
      reads this
    {
      && Done(before, logged, i, scene)
      && healthy == Tally(before[..i], scene, {Healthy})
      && notified == Tally(before[..i], scene, {Notified})
      && skipped == Tally(before[..i], scene, SKIPPED)
      && scanned == healthy + notified + skipped == Tally(before[..i], scene, ANY)
    }

    /** One turn of the loop: scan an active device and count its verdict. */
    method CountTurn(ghost before: seq<Device>, ghost logged: seq<Delivery>, i: nat, scene: Scene,
                     scanned: nat, notified: nat, healthy: nat, skipped: nat)
      returns (scanned': nat, notified': nat, healthy': nat, skipped': nat)
      requires Progress(before, logged, i, scene, scanned, notified, healthy, skipped) && i < |devices|
      modifies this
      ensures Progress(before, logged, i + 1, scene, scanned', notified', healthy', skipped')
    {
      scanned', notified', healthy', skipped' := scanned, notified, healthy, skipped;
      TallySnoc(before, i, scene, {Healthy});
      TallySnoc(before, i, scene, {Notified});
      TallySnoc(before, i, scene, SKIPPED);
      TallySnoc(before, i, scene, ANY);
      if !devices[i].active {
        AllDeliveriesSnoc(before, i, scene);
        return;
      }
      scanned' := scanned + 1;
      var verdict := ScanTurn(before, logged, i, scene);
      match verdict {
        case Healthy => healthy' := healthy + 1;
        case Notified => notified' := notified + 1;
        case _ => skipped' := skipped + 1;
      }
    }

    method ScanTurn(ghost before: seq<Device>, ghost logged: seq<Delivery>, i: nat, scene: Scene) returns (verdict: Verdict)
      requires Done(before, logged, i, scene) && i < |devices| && devices[i].active
      modifies this
      ensures verdict == Judge(before[i], scene)
      ensures Done(before, logged, i + 1, scene)
    {
      AllDeliveriesSnoc(before, i, scene);
      verdict := ScanDevice(i, scene);
    }
  }

  // ------------------------------------------------------- what the scan decides

  /** Heard from within a day, and not reporting a low battery. */
  ghost predicate Well(d: Device, scene: Scene) {
    exists u :: && u in scene.uplinks && u.devEui == d.serial && Latest(scene.uplinks, d.serial) == Some(u)
                && scene.reference - u.receivedAt <= 24 * HOUR
                && (u.battery.Some? ==> u.battery.value >= 3.4)
  }

  /** The device has an owner with an address. */
  predicate Reachable(d: Device, scene: Scene) {
    d.userId.Some? && d.userId.value in scene.emails && scene.emails[d.userId.value] != ""
  }

  /** Each verdict, by what the scan meets. */
  lemma VerdictsMean(d: Device, scene: Scene)
    ensures var free := d.lastNotified.None? || scene.reference - d.lastNotified.value > 24 * HOUR;
            var v := Judge(d, scene);
            && (v == Healthy <==> Well(d, scene))
            && (v == NoRecipient <==> !Well(d, scene) && !Reachable(d, scene))
            && (v == Throttled <==> !Well(d, scene) && Reachable(d, scene) && !free)
            && (v == Undelivered <==> !Well(d, scene) && Reachable(d, scene) && free && d.id in scene.refused)
            && (v == Notified <==> !Well(d, scene) && Reachable(d, scene) && free && d.id !in scene.refused)
  {
    var latest := Latest(scene.uplinks, d.serial);
    var issues := Issues(if latest.Some? then Some(latest.value.receivedAt) else None,
                         if latest.Some? then latest.value.battery else None, scene.reference);
    assert issues == [] <==> Offline !in issues && LowBattery !in issues by {
      if issues != [] {
        assert issues[0] in issues;
      }
    }
    if latest.Some? {
      assert issues == [] ==> Well(d, scene);
    }
  }

  /** A log row is addressed to the device's owner and says whether the email went out. */
  lemma LogRowMeans(d: Device, scene: Scene)
    ensures |Deliveries(d, scene)| == if d.active && Judge(d, scene) in {Notified, Undelivered} then 1 else 0
    ensures forall row | row in Deliveries(d, scene) ::
              && d.userId == Some(row.userId) && row.userId in scene.emails
              && row.recipient == scene.emails[row.userId]
              && (row.sent <==> Judge(d, scene).Notified?)
  {
    VerdictsMean(d, scene);
  }

  /** Log rows by outcome. */
  function Logged(rows: seq<Delivery>, sent: bool): seq<Delivery> {
    Filter(rows, (row: Delivery) => row.sent == sent)
  }

  lemma LoggedOfOne(d: Device, scene: Scene, sent: bool)
    ensures |Logged(Deliveries(d, scene), sent)|
            == if d.active && Judge(d, scene) == (if sent then Notified else Undelivered) then 1 else 0
  {
    LogRowMeans(d, scene);
    var rows := Deliveries(d, scene);
    if rows != [] {
      assert rows == [rows[0]] && rows[0] in rows;
      FilterOne(rows[0], (row: Delivery) => row.sent == sent);
    }
  }

  /** The log agrees with the counters: one sent row per notification, one failed row per refusal. */
  lemma {:induction false} LogMatchesCounters(ds: seq<Device>, scene: Scene, sent: bool)
    ensures |Logged(AllDeliveries(ds, scene), sent)| == Tally(ds, scene, {if sent then Notified else Undelivered})
  {
    if ds == [] {
    } else {
      LogMatchesCounters(ds[1..], scene, sent);
      LoggedOfOne(ds[0], scene, sent);
      FilterConcat(Deliveries(ds[0], scene), AllDeliveries(ds[1..], scene), (row: Delivery) => row.sent == sent);
    }
  }

  // ------------------------------------------------------- runs of scans

  function AfterScans(d: Device, scenes: seq<Scene>): Device
    decreases |scenes|
  {
    if scenes == [] then d else AfterScans(Scanned(d, scenes[0]), scenes[1..])
  }

  /** References of the scans that delivered an email for the device. */
  function Emails(d: Device, scenes: seq<Scene>): seq<int>
    decreases |scenes|
  {
    if scenes == [] then []
    else
      (if d.active && Judge(d, scenes[0]).Notified? then [scenes[0].reference] else [])
      + Emails(Scanned(d, scenes[0]), scenes[1..])
  }

  /** The scan would email if the cooldown allowed it. */
  predicate Deliverable(d: Device, scene: Scene) {
    d.active && Unhealthy(d, scene) && Recipient(d, scene) != "" && d.id !in scene.refused
  }

  function DeliverableAt(d: Device, scenes: seq<Scene>): seq<int> {
    if scenes == [] then []
    else (if Deliverable(d, scenes[0]) then [scenes[0].reference] else []) + DeliverableAt(d, scenes[1..])
  }

  lemma {:induction false} DeliverableIgnoresStamp(d: Device, e: Device, scenes: seq<Scene>)
    requires e == d.(lastNotified := e.lastNotified)
    ensures DeliverableAt(d, scenes) == DeliverableAt(e, scenes)
  {
    if scenes == [] {
    } else {
      DeliverableIgnoresStamp(d, e, scenes[1..]);
      assert Unhealthy(d, scenes[0]) == Unhealthy(e, scenes[0]);
    }
  }

  /**
    Claim, send and roll back together are the plain throttle on the deliverable scans:
    over any run, failed sends leave no trace in the stamp or in what goes out later.
   */
  lemma {:induction false} EmailsAreThrottled(d: Device, scenes: seq<Scene>)
    ensures Emails(d, scenes) == Throttle.WinningTimes(d.lastNotified, DeliverableAt(d, scenes), COOLDOWN)
    decreases |scenes|
  {
    if scenes == [] {
    } else {
      var e := Scanned(d, scenes[0]);
      var at, rest := DeliverableAt(d, scenes), DeliverableAt(d, scenes[1..]);
      EmailsAreThrottled(e, scenes[1..]);
      DeliverableIgnoresStamp(d, e, scenes[1..]);
      NotifiedIffDeliverable(d, scenes[0]);
      if Deliverable(d, scenes[0]) {
        assert at[0] == scenes[0].reference && at[1..] == rest;
        Throttle.WinningTimesStep(d.lastNotified, at, COOLDOWN);
      } else {
        assert at == rest;
      }
    }
  }

  lemma NotifiedIffDeliverable(d: Device, scene: Scene)
    ensures d.active && Judge(d, scene).Notified?
            <==> Deliverable(d, scene) && OlderThan(d.lastNotified, scene.reference - COOLDOWN)
  {
  }

  /** After any run of scans the stamp is the reference of the last delivered email. */
  lemma {:induction false} StampIsLastEmail(d: Device, scenes: seq<Scene>)
    ensures var sent := Emails(d, scenes);
            AfterScans(d, scenes) == d.(lastNotified := if sent == [] then d.lastNotified else Some(sent[|sent| - 1]))
    decreases |scenes|
  {
    if scenes == [] {
    } else {
      StampIsLastEmail(Scanned(d, scenes[0]), scenes[1..]);
    }
  }

  /** The references of emails are more than the cooldown apart, in any order of scans. */
  lemma EmailsAreSpaced(d: Device, scenes: seq<Scene>, i: nat, j: nat)
    requires i < j < |Emails(d, scenes)|
    ensures Emails(d, scenes)[i] + COOLDOWN < Emails(d, scenes)[j]
  {
    EmailsAreThrottled(d, scenes);
    Throttle.WinningTimesAreLegal(d.lastNotified, DeliverableAt(d, scenes), COOLDOWN);
    Throttle.SpacedPairs(d.lastNotified, Emails(d, scenes), COOLDOWN, i, j);
  }

  /** Over scans in time order no schedule respecting the cooldown delivers more. */
  lemma EmailsAreMaximal(d: Device, scenes: seq<Scene>, s: seq<int>)
    requires Throttle.Ordered(DeliverableAt(d, scenes))
    requires Throttle.Subsequence(s, DeliverableAt(d, scenes))
    requires Throttle.Spaced(d.lastNotified, s, COOLDOWN)
    ensures |s| <= |Emails(d, scenes)|
  {
    EmailsAreThrottled(d, scenes);
    Throttle.ThrottleIsOptimal(d.lastNotified, DeliverableAt(d, scenes), COOLDOWN, s);
  }

  /** A device whose send failed is emailed by the next scan that can deliver. */
  lemma FailedSendIsRetriable(d: Device, failed: Scene, quiet: seq<Scene>, next: Scene)
    requires d.active && Judge(d, failed).Undelivered?
    requires forall s | s in quiet :: !Deliverable(d, s)
    requires Deliverable(d, next) && next.reference >= failed.reference
    ensures Emails(d, [failed] + quiet + [next]) == [next.reference]
  {
    var run := [failed] + quiet + [next];
    EmailsAreThrottled(d, run);
    OnlyLastDeliverable(d, [failed] + quiet, next);
    Throttle.WinningTimesStep(d.lastNotified, [next.reference], COOLDOWN);
  }

  lemma {:induction false} OnlyLastDeliverable(d: Device, quiet: seq<Scene>, next: Scene)
    requires forall s | s in quiet :: !Deliverable(d, s)
    requires Deliverable(d, next)
    ensures DeliverableAt(d, quiet + [next]) == [next.reference]
  {
    if quiet == [] {
      assert quiet + [next] == [next];
    } else {
      assert (quiet + [next])[1..] == quiet[1..] + [next];
      OnlyLastDeliverable(d, quiet[1..], next);
    }
  }
}
