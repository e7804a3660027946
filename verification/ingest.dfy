/**
  Device ingest: attributing a LoRa uplink to a lazily registered device, and routing a
  Bivocom uplink tag by tag through the device's sensor mappings.
 */
module Ingest {
  import opened Stamps

  datatype Device = Device(id: int, serial: string, active: bool, zone: Option<int>, user: Option<int>)

  datatype Mapping = Mapping(device: int, tag: string, sensorKey: string, zone: Option<int>, active: bool)

  datatype Reading = Reading(sensorKey: string, user: int, zone: int, device: Option<int>, value: real, timestamp: int)

  /** The shared placeholder zone and its owner, provisioned beforehand. */
  datatype CatchAll = CatchAll(user: int, zone: int)

  // ---------------------------------------------------------- the device registry

  function Find(devices: seq<Device>, serial: string): (r: Option<Device>)
    ensures r.Some? ==> r.value in devices && r.value.serial == serial
    ensures r.None? <==> forall d | d in devices :: d.serial != serial
  {
    if devices == [] then None
    else if devices[0].serial == serial then Some(devices[0])
    else Find(devices[1..], serial)
  }

  /** The serial is unique, as the table's constraint demands. */
  ghost predicate UniqueSerials(devices: seq<Device>) {
    forall i, j | 0 <= i < j < |devices| :: devices[i].serial != devices[j].serial
  }

  /** INSERT ... ON CONFLICT (serial) DO NOTHING. */
  function Registered(devices: seq<Device>, serial: string, id: int, lora: CatchAll): seq<Device> {
    if Find(devices, serial).Some? then devices
    else devices + [Device(id, serial, true, None, Some(lora.user))]
  }

  /** Whom an uplink is attributed to: the owner of an active, assigned device. */
  datatype Attribution = Attribution(device: Option<int>, user: Option<int>, zone: Option<int>)

  function Attribute(d: Option<Device>): Attribution {
    match d
    case None => Attribution(None, None, None)
    case Some(x) => if x.active && x.zone.Some? then Attribution(Some(x.id), x.user, x.zone)
                    else Attribution(Some(x.id), None, None)
  }

  /** What happens to the table: a registration, an admin edit, or a deletion. */
  datatype Change =
    | Register(serial: string, id: int)
    | Edit(serial: string, active: bool, zone: Option<int>, user: Option<int>)
    | Delete(serial: string)

  function Edited(devices: seq<Device>, c: Change): seq<Device>
    requires c.Edit?
  {
    if devices == [] then []
    else [if devices[0].serial == c.serial then devices[0].(active := c.active, zone := c.zone, user := c.user) else devices[0]]
         + Edited(devices[1..], c)
  }

  function Deleted(devices: seq<Device>, serial: string): seq<Device> {
    if devices == [] then []
    else (if devices[0].serial == serial then [] else [devices[0]]) + Deleted(devices[1..], serial)
  }

  function ApplyChange(devices: seq<Device>, c: Change, lora: CatchAll): seq<Device> {
    match c
    case Register(serial, id) => Registered(devices, serial, id, lora)
    case Edit(_, _, _, _) => Edited(devices, c)
    case Delete(serial) => Deleted(devices, serial)
  }

  function ChangeAll(devices: seq<Device>, cs: seq<Change>, lora: CatchAll): seq<Device>
    decreases |cs|
  {
    if cs == [] then devices else ChangeAll(ApplyChange(devices, cs[0], lora), cs[1..], lora)
  }

  function IdOf(devices: seq<Device>, serial: string): Option<int> {
    match Find(devices, serial)
    case Some(d) => Some(d.id)
    case None => None
  }

  lemma {:induction false} EditKeepsIds(devices: seq<Device>, c: Change, serial: string)
    requires c.Edit?
    ensures IdOf(Edited(devices, c), serial) == IdOf(devices, serial)
    ensures |Edited(devices, c)| == |devices|
    ensures forall i | 0 <= i < |devices| :: Edited(devices, c)[i].serial == devices[i].serial
  {
    if devices == [] {
    } else {
      EditKeepsIds(devices[1..], c, serial);
      assert Edited(devices, c)[1..] == Edited(devices[1..], c);
    }
  }

  lemma {:induction false} FindInConcat(a: seq<Device>, b: seq<Device>, serial: string)
    ensures Find(a + b, serial) == if Find(a, serial).Some? then Find(a, serial) else Find(b, serial)
  {
    if a == [] {
      assert a + b == b;
    } else {
      assert (a + b)[1..] == a[1..] + b;
      FindInConcat(a[1..], b, serial);
    }
  }

  lemma {:induction false} DeleteKeepsOthers(devices: seq<Device>, gone: string, serial: string)
    ensures Find(Deleted(devices, gone), serial) == if serial == gone then None else Find(devices, serial)
  {
    if devices == [] {
    } else {
      DeleteKeepsOthers(devices[1..], gone, serial);
      var rest := Deleted(devices[1..], gone);
      if devices[0].serial == gone {
        assert Deleted(devices, gone) == rest;
      } else {
        assert Deleted(devices, gone) == [devices[0]] + rest;
        assert Deleted(devices, gone)[1..] == rest;
      }
    }
  }

  lemma {:induction false} DeleteKeepsUnique(devices: seq<Device>, gone: string)
    requires UniqueSerials(devices)
    ensures UniqueSerials(Deleted(devices, gone))
    ensures forall d | d in Deleted(devices, gone) :: d in devices
  {
    if devices == [] {
    } else {
      DeleteKeepsUnique(devices[1..], gone);
      var rest := Deleted(devices[1..], gone);
      forall d | d in rest ensures d.serial != devices[0].serial {
        var k :| 0 <= k < |devices[1..]| && devices[1..][k] == d;
        assert d == devices[k + 1];
      }
      var all := [devices[0]] + rest;
      forall i, j | 0 <= i < j < |all| ensures all[i].serial != all[j].serial {
        assert all[j] == rest[j - 1] && rest[j - 1] in rest;
        assert i > 0 ==> all[i] == rest[i - 1];
      }
      assert Deleted(devices, gone) == if devices[0].serial == gone then rest else all;
    }
  }

  /** One change keeps serials unique and, unless it deletes it, a known device's id. */
  lemma ChangeKeepsIdentity(devices: seq<Device>, c: Change, lora: CatchAll, serial: string)
    requires UniqueSerials(devices)
    ensures UniqueSerials(ApplyChange(devices, c, lora))
    ensures IdOf(devices, serial).Some? && c != Delete(serial) ==>
              IdOf(ApplyChange(devices, c, lora), serial) == IdOf(devices, serial)
  {
    match c
    case Register(s, id) =>
      FindInConcat(devices, [Device(id, s, true, None, Some(lora.user))], serial);
    case Edit(_, _, _, _) =>
      EditKeepsIds(devices, c, serial);
    case Delete(s) =>
      DeleteKeepsOthers(devices, s, serial);
      DeleteKeepsUnique(devices, s);
  }

  /**
    Over any run of registrations by any number of workers and of admin edits, serials
    stay unique and a device that is not deleted keeps its id: it is never re-inserted,
    not even while inactive.
   */
  lemma {:induction false} IdentityIsStable(devices: seq<Device>, cs: seq<Change>, lora: CatchAll, serial: string)
    requires UniqueSerials(devices)
    ensures UniqueSerials(ChangeAll(devices, cs, lora))
    ensures IdOf(devices, serial).Some? && Delete(serial) !in cs ==>
              IdOf(ChangeAll(devices, cs, lora), serial) == IdOf(devices, serial)
    decreases |cs|
  {
    if cs == [] {
    } else {
      ChangeKeepsIdentity(devices, cs[0], lora, serial);
      IdentityIsStable(ApplyChange(devices, cs[0], lora), cs[1..], lora, serial);
    }
  }

  /**
    Two workers meet an unknown serial: whatever happens between either one's insert and
    its second look, both come away with the same device id, unless it is deleted.
   */
  lemma RacingRegistrationsAgree(devices: seq<Device>, serial: string, id1: int, between: seq<Change>, id2: int, later: seq<Change>, lora: CatchAll)
    requires UniqueSerials(devices) && Find(devices, serial).None?
    requires Delete(serial) !in between && Delete(serial) !in later
    ensures var first := ChangeAll(Registered(devices, serial, id1, lora), between, lora);
            var second := ChangeAll(Registered(first, serial, id2, lora), later, lora);
            IdOf(first, serial) == IdOf(second, serial) == Some(id1)
  {
    var inserted := Registered(devices, serial, id1, lora);
    ChangeKeepsIdentity(devices, Register(serial, id1), lora, serial);
    FindInConcat(devices, [Device(id1, serial, true, None, Some(lora.user))], serial);
    IdentityIsStable(inserted, between, lora, serial);
    var first := ChangeAll(inserted, between, lora);
    IdentityIsStable(Registered(first, serial, id2, lora), later, lora, serial);
  }

  /** The last edit of a device in a run of changes. */
  function LastEdit(cs: seq<Change>, serial: string): (r: Option<Change>)
    ensures r.Some? ==> r.value in cs && r.value.Edit? && r.value.serial == serial
    ensures r.None? ==> forall c | c in cs && c.Edit? :: c.serial != serial
  {
    if cs == [] then None
    else
      var later := LastEdit(cs[1..], serial);
      if later.Some? then later
      else if cs[0].Edit? && cs[0].serial == serial then Some(cs[0]) else None
  }

  lemma {:induction false} EditedDevice(devices: seq<Device>, c: Change, serial: string)
    requires c.Edit?
    ensures var was, now := Find(devices, serial), Find(Edited(devices, c), serial);
            && (now.Some? <==> was.Some?)
            && (was.Some? && c.serial != serial ==> now == was)
            && (was.Some? && c.serial == serial ==>
                  now.value.id == was.value.id && now.value.active == c.active && now.value.zone == c.zone && now.value.user == c.user)
  {
    if devices == [] {
    } else {
      EditedDevice(devices[1..], c, serial);
      assert Edited(devices, c)[1..] == Edited(devices[1..], c);
    }
  }

  lemma ChangedDevice(devices: seq<Device>, c: Change, lora: CatchAll, serial: string)
    requires c != Delete(serial) && Find(devices, serial).Some?
    ensures var was, now := Find(devices, serial), Find(ApplyChange(devices, c, lora), serial);
            if c.Edit? && c.serial == serial then
              && now.Some? && now.value.id == was.value.id
              && now.value.active == c.active && now.value.zone == c.zone && now.value.user == c.user
            else now == was
  {
    match c
    case Register(s, id) => FindInConcat(devices, [Device(id, s, true, None, Some(lora.user))], serial);
    case Edit(_, _, _, _) => EditedDevice(devices, c, serial);
    case Delete(s) => DeleteKeepsOthers(devices, s, serial);
  }

  /**
    Whom uplinks go to, over any run of registrations and edits: a known device keeps its
    id, and its owner and zone are those of its last edit when that left it active and in
    a zone, and nobody's otherwise, which is the catch-all.
   */
  lemma {:induction false} AttributionFollowsLastEdit(devices: seq<Device>, cs: seq<Change>, lora: CatchAll, serial: string)
    requires Find(devices, serial).Some? && Delete(serial) !in cs
    ensures var d := Find(devices, serial).value;
            var a := Attribute(Find(ChangeAll(devices, cs, lora), serial));
            && a.device == Some(d.id)
            && match LastEdit(cs, serial)
               case Some(e) =>
                 if e.active && e.zone != None then a.user == e.user && a.zone == e.zone else a.user == None && a.zone == None
               case None =>
                 if d.active && d.zone != None then a.user == d.user && a.zone == d.zone else a.user == None && a.zone == None
    decreases |cs|
  {
    if cs == [] {
    } else {
      ChangedDevice(devices, cs[0], lora, serial);
      AttributionFollowsLastEdit(ApplyChange(devices, cs[0], lora), cs[1..], lora, serial);
    }
  }

  /** The first uplink of an unknown serial registers it and goes to the catch-all. */
  lemma FirstUplinkIsUnassigned(devices: seq<Device>, serial: string, id: int, lora: CatchAll)
    requires Find(devices, serial) == None
    ensures var d := Find(Registered(devices, serial, id, lora), serial);
            && d.Some? && d.value.active && d.value.user == Some(lora.user)
            && Attribute(d) == Attribution(Some(id), None, None)
  {
    FindInConcat(devices, [Device(id, serial, true, None, Some(lora.user))], serial);
  }

  // ---------------------------------------------------------- Bivocom routing

  datatype Reason = Unmapped | UnknownSensorKey | NoZone | ZoneNotOwned

  datatype Routing = Skip(reason: Reason) | Route(sensorKey: string, zone: int)

  datatype Outcome = Accepted(device: int, inserted: nat, skipped: map<string, Reason>) | Rejected(status: int)

  /** An active mapping of this tag on this device. */
  predicate Maps(m: Mapping, device: int, tag: string) {
    m.device == device && m.active && m.tag == tag
  }

  /** {tag: mapping} over the device's active mappings; a later row replaces an earlier one. */
  function ActiveMapping(mappings: seq<Mapping>, device: int, tag: string): Option<Mapping> {
    if mappings == [] then None
    else
      var m := mappings[|mappings| - 1];
      if Maps(m, device, tag) then Some(m)
      else ActiveMapping(mappings[..|mappings| - 1], device, tag)
  }

  /** The zone a mapping targets: its own, else the device's. */
  function TargetZone(m: Mapping, d: Device): Option<int> {
    if m.zone.Some? then m.zone else d.zone
  }

  /** What becomes of one tag. */
  function RouteTag(tag: string, d: Device, mappings: seq<Mapping>, registry: set<string>, zoneOwners: map<int, int>): Routing {
    match ActiveMapping(mappings, d.id, tag)
    case None => Skip(Unmapped)
    case Some(m) =>
      if m.sensorKey !in registry then Skip(UnknownSensorKey)
      else
        match TargetZone(m, d)
        case None => Skip(NoZone)
        case Some(z) =>
          if z in zoneOwners && Some(zoneOwners[z]) == d.user then Route(m.sensorKey, z) else Skip(ZoneNotOwned)
  }

  type Tags = seq<(string, real)>

  /** A tag dict: no name twice. */
  ghost predicate Distinct(tags: Tags) {
    forall i, j | 0 <= i < j < |tags| :: tags[i].0 != tags[j].0
  }

  /** The reading one tag writes, if it is routed. */
  function WrittenFor(routing: Routing, d: Device, value: real, timestamp: int): seq<Reading> {
    if routing.Skip? || d.user.None? then []
    else [Reading(routing.sensorKey, d.user.value, routing.zone, Some(d.id), value, timestamp)]
  }

  /** The readings a run of tags writes, in tag order. */
  function Written(tags: Tags, d: Device, timestamp: int, mappings: seq<Mapping>, registry: set<string>, zoneOwners: map<int, int>): seq<Reading> {
    if tags == [] then []
    else
      WrittenFor(RouteTag(tags[0].0, d, mappings, registry, zoneOwners), d, tags[0].1, timestamp)
      + Written(tags[1..], d, timestamp, mappings, registry, zoneOwners)
  }

  class Gateway {
    var devices: seq<Device>      // in id order
    var nextId: int
    var mappings: seq<Mapping>
    var zoneOwners: map<int, int>
    var registry: set<string>
    var readings: seq<Reading>

    /**
      `resolve_device`: look the serial up, register it when it is new, look again. The
      id always comes back; owner and zone only for an active, assigned device.
     */
    method ResolveDevice(serial: string, lora: CatchAll) returns (a: Attribution)
      modifies this`devices, this`nextId
      ensures devices == Registered(old(devices), serial, old(nextId), lora)
      ensures a == Attribute(Find(devices, serial)) && a.device.Some?
      ensures nextId >= old(nextId)
    {
      var device := Find(devices, serial);
      if device.None? {
        devices := devices + [Device(nextId, serial, true, None, Some(lora.user))];
        nextId := nextId + 1;
        device := Find(devices, serial);
        FindInConcat(old(devices), [Device(old(nextId), serial, true, None, Some(lora.user))], serial);
      }
      if device.value.active && device.value.zone.Some? {
        return Attribution(Some(device.value.id), device.value.user, device.value.zone);
      }
      return Attribution(Some(device.value.id), None, None);
    }

    /**
      The reading half of `handle_chirpstack_uplink`: the frame's metrics go to the
      device's owner and zone, or to the catch-all, and always carry the device id.
     */
    method HandleUplink(serial: string, metrics: seq<(string, real)>, now: int, lora: CatchAll) returns (count: nat)
      modifies this`devices, this`nextId, this`readings
      ensures devices == Registered(old(devices), serial, old(nextId), lora)
      ensures count == |metrics| && |readings| == |old(readings)| + count && readings[..|old(readings)|] == old(readings)
      ensures var a := Attribute(Find(devices, serial));
              var owned := a.user.Some? && a.zone.Some?;
              forall i | 0 <= i < count ::
                readings[|old(readings)| + i]
                == Reading(metrics[i].0, if owned then a.user.value else lora.user, if owned then a.zone.value else lora.zone,
                           a.device, metrics[i].1, now)
    {
      var a := ResolveDevice(serial, lora);
      count := 0;
      var user, zone := lora.user, lora.zone;
      if a.user.Some? && a.zone.Some? {
        user, zone := a.user.value, a.zone.value;
      }
      while count < |metrics|
        invariant devices == Registered(old(devices), serial, old(nextId), lora)
        invariant count <= |metrics| && |readings| == |old(readings)| + count
        invariant readings[..|old(readings)|] == old(readings)
        invariant forall i | 0 <= i < count ::
                    readings[|old(readings)| + i] == Reading(metrics[i].0, user, zone, a.device, metrics[i].1, now)
      {
        readings := readings + [Reading(metrics[count].0, user, zone, a.device, metrics[count].1, now)];
        count := count + 1;
      }
    }

    /**
      `handle_bivocom_uplink`: 404 for an unknown serial, 422 for an inactive or ownerless
      device; otherwise each tag is written once or skipped with its reason.
     */
    method HandleBivocom(serial: string, timestamp: int, tags: Tags) returns (o: Outcome)
      requires Distinct(tags)
      modifies this`readings
      ensures o.Rejected? ==> readings == old(readings)
      ensures o == Rejected(404) <==> Find(devices, serial).None?
      ensures o.Rejected? <==> var d := Find(devices, serial); d.None? || !d.value.active || d.value.user.None?
      ensures o.Rejected? ==> o.status == if Find(devices, serial).None? then 404 else 422
      ensures o.Accepted? ==>
                var d := Find(devices, serial).value;
                && o.device == d.id
                && readings == old(readings) + Written(tags, d, timestamp, mappings, registry, zoneOwners)
                && o.inserted == |Written(tags, d, timestamp, mappings, registry, zoneOwners)|
                && o.inserted + |o.skipped| == |tags|
                && o.skipped == SkippedTags(tags, d, mappings, registry, zoneOwners)
    {
      var found := Find(devices, serial);
      if found.None? {
        return Rejected(404);
      }
      var device := found.value;
      if !device.active || device.user.None? {
        return Rejected(422);
      }
      var inserted, skipped := WriteTags(tags, device, timestamp);
      return Accepted(device.id, inserted, skipped);
    }

    /** The tag loop. */
    method WriteTags(tags: Tags, device: Device, timestamp: int) returns (inserted: nat, skipped: map<string, Reason>)
      requires Distinct(tags) && device.user.Some?
      modifies this`readings
      ensures readings == old(readings) + Written(tags, device, timestamp, mappings, registry, zoneOwners)
      ensures inserted == |Written(tags, device, timestamp, mappings, registry, zoneOwners)|
      ensures inserted + |skipped| == |tags|
      ensures skipped == SkippedTags(tags, device, mappings, registry, zoneOwners)
    {
      inserted, skipped := 0, map[];
      ghost var before := readings;
      var i := 0;
      while i < |tags|
        invariant Progress(tags, i, device, timestamp, before, inserted, skipped)
      {
        inserted, skipped := WriteTag(tags, i, device, timestamp, before, inserted, skipped);
        i := i + 1;
      }
      assert tags[..i] == tags;
    }

    /** The readings written and the tags skipped once the first `i` tags are done. */
    ghost predicate Progress(tags: Tags, i: nat, d: Device, timestamp: int, before: seq<Reading>, inserted: nat, skipped: map<string, Reason>)
      reads this
    {
      && i <= |tags|
      && readings == before + Written(tags[..i], d, timestamp, mappings, registry, zoneOwners)
      && inserted == |Written(tags[..i], d, timestamp, mappings, registry, zoneOwners)|
      && inserted + |skipped| == i
      && skipped == SkippedTags(tags[..i], d, mappings, registry, zoneOwners)
    }

    /** The loop body: the first reason that applies, or one reading. */
    method RouteAndWrite(tag: string, value: real, device: Device, timestamp: int) returns (reason: Option<Reason>)
      requires device.user.Some?
      modifies this`readings
      ensures var routing := RouteTag(tag, device, mappings, registry, zoneOwners);
              && reason == (if routing.Skip? then Some(routing.reason) else None)
              && readings == old(readings) + WrittenFor(routing, device, value, timestamp)
    {
      var mapping := ActiveMapping(mappings, device.id, tag);
      if mapping.None? {
        return Some(Unmapped);
      }
      if mapping.value.sensorKey !in registry {
        return Some(UnknownSensorKey);
      }
      var zone := if mapping.value.zone.Some? then mapping.value.zone else device.zone;
      if zone.None? {
        return Some(NoZone);
      }
      if zone.value !in zoneOwners || zoneOwners[zone.value] != device.user.value {
        return Some(ZoneNotOwned);
      }
      readings := readings + [Reading(mapping.value.sensorKey, device.user.value, zone.value, Some(device.id), value, timestamp)];
      return None;
    }

    /** One turn of the loop: count the row written, or note the reason. */
    method WriteTag(tags: Tags, i: nat, device: Device, timestamp: int, ghost before: seq<Reading>, inserted: nat,
                    skipped: map<string, Reason>)
      returns (inserted': nat, skipped': map<string, Reason>)
      requires Distinct(tags) && i < |tags| && device.user.Some?
      requires Progress(tags, i, device, timestamp, before, inserted, skipped)
      modifies this`readings
      ensures Progress(tags, i + 1, device, timestamp, before, inserted', skipped')
    {
      WrittenSnoc(tags, i, device, timestamp, mappings, registry, zoneOwners);
      SkippedSnoc(tags, i, device, mappings, registry, zoneOwners);
      var reason := RouteAndWrite(tags[i].0, tags[i].1, device, timestamp);
      inserted' := if reason.None? then inserted + 1 else inserted;
      skipped' := if reason.Some? then skipped[tags[i].0 := reason.value] else skipped;
    }
  }

  /** {tag: reason} over the tags that are not written. */
  function SkippedTags(tags: Tags, d: Device, mappings: seq<Mapping>, registry: set<string>, zoneOwners: map<int, int>): map<string, Reason> {
    if tags == [] then map[]
    else
      var last := |tags| - 1;
      var before := SkippedTags(tags[..last], d, mappings, registry, zoneOwners);
      match RouteTag(tags[last].0, d, mappings, registry, zoneOwners)
      case Skip(reason) => before[tags[last].0 := reason]
      case Route(_, _) => before
  }

  /** Exactly the unrouted tags are reported, each with its reason. */
  lemma {:induction false} SkippedExactlyUnrouted(tags: Tags, d: Device, mappings: seq<Mapping>, registry: set<string>, zoneOwners: map<int, int>, tag: string)
    ensures var skipped := SkippedTags(tags, d, mappings, registry, zoneOwners);
            var routing := RouteTag(tag, d, mappings, registry, zoneOwners);
            && (tag in skipped <==> routing.Skip? && exists i :: 0 <= i < |tags| && tags[i].0 == tag)
            && (tag in skipped ==> skipped[tag] == routing.reason)
  {
    if tags == [] {
    } else {
      var last := |tags| - 1;
      SkippedExactlyUnrouted(tags[..last], d, mappings, registry, zoneOwners, tag);
      assert forall i | 0 <= i < last :: tags[..last][i] == tags[i];
      assert tags[last].0 == tag ==> exists i :: 0 <= i < |tags| && tags[i].0 == tag;
    }
  }

  lemma SkippedSnoc(tags: Tags, i: nat, d: Device, mappings: seq<Mapping>, registry: set<string>, zoneOwners: map<int, int>)
    requires i < |tags| && Distinct(tags)
    ensures var before := SkippedTags(tags[..i], d, mappings, registry, zoneOwners);
            && tags[i].0 !in before
            && SkippedTags(tags[..i + 1], d, mappings, registry, zoneOwners)
               == match RouteTag(tags[i].0, d, mappings, registry, zoneOwners)
                  case Skip(reason) => before[tags[i].0 := reason]
                  case Route(_, _) => before
  {
    SkippedExactlyUnrouted(tags[..i], d, mappings, registry, zoneOwners, tags[i].0);
    assert tags[..i + 1][..i] == tags[..i];
    assert forall k | 0 <= k < i :: tags[..i][k].0 != tags[i].0;
  }

  lemma {:induction false} WrittenSnoc(tags: Tags, i: nat, d: Device, timestamp: int, mappings: seq<Mapping>, registry: set<string>, zoneOwners: map<int, int>)
    requires i < |tags|
    ensures Written(tags[..i + 1], d, timestamp, mappings, registry, zoneOwners)
            == Written(tags[..i], d, timestamp, mappings, registry, zoneOwners)
               + WrittenFor(RouteTag(tags[i].0, d, mappings, registry, zoneOwners), d, tags[i].1, timestamp)
  {
    if i == 0 {
    } else {
      assert tags[..i + 1][1..] == tags[1..][..i] && tags[..i][1..] == tags[1..][..i - 1];
      WrittenSnoc(tags[1..], i - 1, d, timestamp, mappings, registry, zoneOwners);
    }
  }

  /** A mapping is in force for a tag: active, of this device, and the last such row. */
  ghost predicate InForce(m: Mapping, mappings: seq<Mapping>, device: int, tag: string) {
    exists i :: && 0 <= i < |mappings| && mappings[i] == m && m.active && m.device == device && m.tag == tag
                && forall j | i < j < |mappings| ::
                     mappings[j].active && mappings[j].device == device ==> mappings[j].tag != tag
  }

  lemma {:induction false} ActiveMappingIsLast(mappings: seq<Mapping>, device: int, tag: string)
    ensures var m := ActiveMapping(mappings, device, tag);
            && (m.None? <==> forall x | x in mappings :: x.active && x.device == device ==> x.tag != tag)
            && (m.Some? ==> InForce(m.value, mappings, device, tag))
  {
    if mappings == [] {
    } else {
      var last := |mappings| - 1;
      ActiveMappingIsLast(mappings[..last], device, tag);
      assert mappings == mappings[..last] + [mappings[last]];
      if !Maps(mappings[last], device, tag) {
        OtherRowsDoNotCount(mappings, device, tag);
      }
    }
  }

  lemma OtherRowsDoNotCount(mappings: seq<Mapping>, device: int, tag: string)
    requires mappings != [] && !Maps(mappings[|mappings| - 1], device, tag)
    ensures forall m :: InForce(m, mappings[..|mappings| - 1], device, tag) ==> InForce(m, mappings, device, tag)
  {
    var before := mappings[..|mappings| - 1];
    forall m | InForce(m, before, device, tag) ensures InForce(m, mappings, device, tag) {
      var i :| && 0 <= i < |before| && before[i] == m && Maps(m, device, tag)
               && forall j | i < j < |before| :: !Maps(before[j], device, tag);
      assert mappings[i] == m;
      forall j | i < j < |mappings| ensures !Maps(mappings[j], device, tag) {
        assert j < |before| ==> before[j] == mappings[j];
      }
    }
  }

  /**
    Every row a Bivocom uplink writes carries the device's id and owner, a registered key,
    and a zone that owner holds, whether the zone came from the mapping or the device.
   */
  lemma {:induction false} WrittenRowsAreOwned(tags: Tags, d: Device, timestamp: int, mappings: seq<Mapping>, registry: set<string>, zoneOwners: map<int, int>)
    requires d.user.Some?
    ensures forall r | r in Written(tags, d, timestamp, mappings, registry, zoneOwners) ::
              && r.device == Some(d.id) && r.user == d.user.value && r.timestamp == timestamp
              && r.sensorKey in registry
              && r.zone in zoneOwners && zoneOwners[r.zone] == d.user.value
  {
    if tags == [] {
    } else {
      WrittenRowsAreOwned(tags[1..], d, timestamp, mappings, registry, zoneOwners);
    }
  }

  // ---------------------------------------------------------- what becomes of a tag

  lemma OneInForce(m: Mapping, n: Mapping, mappings: seq<Mapping>, device: int, tag: string)
    requires InForce(m, mappings, device, tag) && InForce(n, mappings, device, tag)
    ensures m == n
  {
    var i :| && 0 <= i < |mappings| && mappings[i] == m
             && forall j | i < j < |mappings| ::
                  mappings[j].active && mappings[j].device == device ==> mappings[j].tag != tag;
    var k :| && 0 <= k < |mappings| && mappings[k] == n
             && forall j | k < j < |mappings| ::
                  mappings[j].active && mappings[j].device == device ==> mappings[j].tag != tag;
    assert !(i < k) && !(k < i);
  }

  /** The zone a mapping writes to: its own when it names one, the device's otherwise. */
  ghost predicate Targets(m: Mapping, d: Device, zone: int) {
    m.zone == Some(zone) || (m.zone == None && d.zone == Some(zone))
  }

  ghost predicate OwnerHolds(d: Device, zone: int, zoneOwners: map<int, int>) {
    zone in zoneOwners && d.user == Some(zoneOwners[zone])
  }

  /** The reading a tag should leave: key and zone of the mapping in force, device, owner and value. */
  ghost predicate RowFor(r: Reading, tag: string, value: real, d: Device, timestamp: int,
                         mappings: seq<Mapping>, registry: set<string>, zoneOwners: map<int, int>) {
    && (exists m :: InForce(m, mappings, d.id, tag) && r.sensorKey == m.sensorKey && Targets(m, d, r.zone))
    && r.sensorKey in registry && OwnerHolds(d, r.zone, zoneOwners)
    && Some(r.user) == d.user && r.device == Some(d.id) && r.value == value && r.timestamp == timestamp
  }

  /** Why a tag is left out, tested in this order. */
  ghost predicate SkippedFor(reason: Reason, tag: string, d: Device, mappings: seq<Mapping>, registry: set<string>,
                             zoneOwners: map<int, int>) {
    match reason
    case Unmapped => !exists m :: InForce(m, mappings, d.id, tag)
    case UnknownSensorKey => exists m :: InForce(m, mappings, d.id, tag) && m.sensorKey !in registry
    case NoZone =>
      exists m :: InForce(m, mappings, d.id, tag) && m.sensorKey in registry && m.zone == None && d.zone == None
    case ZoneNotOwned =>
      exists m, z :: && InForce(m, mappings, d.id, tag) && m.sensorKey in registry
                     && Targets(m, d, z) && !OwnerHolds(d, z, zoneOwners)
  }

  /** The mapping the loop looks up is the one in force. */
  lemma ActiveIsInForce(tag: string, d: Device, mappings: seq<Mapping>)
    ensures var active := ActiveMapping(mappings, d.id, tag);
            && (forall m :: InForce(m, mappings, d.id, tag) <==> active == Some(m))
            && (active.Some? ==> forall z :: Targets(active.value, d, z) <==> TargetZone(active.value, d) == Some(z))
  {
    ActiveMappingIsLast(mappings, d.id, tag);
    var active := ActiveMapping(mappings, d.id, tag);
    forall m | InForce(m, mappings, d.id, tag) ensures active == Some(m) {
      assert active.Some?;
      OneInForce(m, active.value, mappings, d.id, tag);
    }
  }

  /** A tag is skipped exactly for the reason that holds of it. */
  lemma SkippedExactlyFor(tag: string, d: Device, mappings: seq<Mapping>, registry: set<string>, zoneOwners: map<int, int>)
    ensures forall reason :: RouteTag(tag, d, mappings, registry, zoneOwners) == Skip(reason)
                             <==> SkippedFor(reason, tag, d, mappings, registry, zoneOwners)
  {
    ActiveIsInForce(tag, d, mappings);
  }

  /** A tag that is not skipped leaves exactly its row. */
  lemma TagOutcome(tag: string, value: real, d: Device, timestamp: int, mappings: seq<Mapping>, registry: set<string>,
                   zoneOwners: map<int, int>)
    requires d.user.Some?
    ensures var routing := RouteTag(tag, d, mappings, registry, zoneOwners);
            var rows := WrittenFor(routing, d, value, timestamp);
            && (forall r :: RowFor(r, tag, value, d, timestamp, mappings, registry, zoneOwners) <==> rows == [r])
            && (routing.Skip? <==> rows == [])
  {
    ActiveIsInForce(tag, d, mappings);
    var rows := WrittenFor(RouteTag(tag, d, mappings, registry, zoneOwners), d, value, timestamp);
    forall r ensures RowFor(r, tag, value, d, timestamp, mappings, registry, zoneOwners) <==> rows == [r] {
    }
  }

  /** `rows` are the readings of the tags that leave one, one each, in tag order. */
  ghost predicate RowsOf(rows: seq<Reading>, tags: Tags, d: Device, timestamp: int,
                         mappings: seq<Mapping>, registry: set<string>, zoneOwners: map<int, int>)
    decreases |tags|
  {
    if tags == [] then rows == []
    else if exists reason :: SkippedFor(reason, tags[0].0, d, mappings, registry, zoneOwners) then
      RowsOf(rows, tags[1..], d, timestamp, mappings, registry, zoneOwners)
    else
      && rows != []
      && RowFor(rows[0], tags[0].0, tags[0].1, d, timestamp, mappings, registry, zoneOwners)
      && RowsOf(rows[1..], tags[1..], d, timestamp, mappings, registry, zoneOwners)
  }

  /** What an uplink writes: each tag with no reason to be skipped leaves its own row, in order. */
  lemma {:induction false} WrittenRowsOfTags(tags: Tags, d: Device, timestamp: int, mappings: seq<Mapping>, registry: set<string>, zoneOwners: map<int, int>)
    requires d.user.Some?
    ensures RowsOf(Written(tags, d, timestamp, mappings, registry, zoneOwners), tags, d, timestamp, mappings, registry, zoneOwners)
  {
    if tags == [] {
    } else {
      var rest := Written(tags[1..], d, timestamp, mappings, registry, zoneOwners);
      var rows := WrittenFor(RouteTag(tags[0].0, d, mappings, registry, zoneOwners), d, tags[0].1, timestamp);
      TagOutcome(tags[0].0, tags[0].1, d, timestamp, mappings, registry, zoneOwners);
      SkippedExactlyFor(tags[0].0, d, mappings, registry, zoneOwners);
      WrittenRowsOfTags(tags[1..], d, timestamp, mappings, registry, zoneOwners);
      if rows == [] {
        assert [] + rest == rest;
      } else {
        assert rows == [rows[0]] && ([rows[0]] + rest)[1..] == rest;
      }
    }
  }

  /** The skip report: a tag is in it exactly for a reason that holds, and that is the reason given. */
  lemma SkippedForTheReasonGiven(tags: Tags, d: Device, mappings: seq<Mapping>, registry: set<string>, zoneOwners: map<int, int>,
                                 tag: string, reason: Reason)
    requires d.user.Some?
    ensures var skipped := SkippedTags(tags, d, mappings, registry, zoneOwners);
            tag in skipped && skipped[tag] == reason
            <==> (exists i :: 0 <= i < |tags| && tags[i].0 == tag)
                 && SkippedFor(reason, tag, d, mappings, registry, zoneOwners)
  {
    SkippedExactlyUnrouted(tags, d, mappings, registry, zoneOwners, tag);
    SkippedExactlyFor(tag, d, mappings, registry, zoneOwners);
  }

  /** A tag is written exactly when a mapping in force gives it a registered key and an owned zone. */
  lemma RoutedIffMappedAndOwned(tag: string, d: Device, mappings: seq<Mapping>, registry: set<string>, zoneOwners: map<int, int>)
    requires d.user.Some?
    ensures RouteTag(tag, d, mappings, registry, zoneOwners).Route?
            <==> exists m, z :: && InForce(m, mappings, d.id, tag) && m.sensorKey in registry
                                && Targets(m, d, z) && OwnerHolds(d, z, zoneOwners)
  {
    var routing := RouteTag(tag, d, mappings, registry, zoneOwners);
    TagOutcome(tag, 0.0, d, 0, mappings, registry, zoneOwners);
    if routing.Route? {
      var r := Reading(routing.sensorKey, d.user.value, routing.zone, Some(d.id), 0.0, 0);
      assert RowFor(r, tag, 0.0, d, 0, mappings, registry, zoneOwners);
    }
    if m, z :| && InForce(m, mappings, d.id, tag) && m.sensorKey in registry
               && Targets(m, d, z) && OwnerHolds(d, z, zoneOwners) {
      var r := Reading(m.sensorKey, d.user.value, z, Some(d.id), 0.0, 0);
      assert RowFor(r, tag, 0.0, d, 0, mappings, registry, zoneOwners);
    }
  }
}
