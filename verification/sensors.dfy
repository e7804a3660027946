/**
  The read path. A reading is keyed by the device that produced it: it belongs to whoever
  owns that device now, and its own user and zone are only the fallback. The raw and the
  hourly surface select by the resolved owner, over half-open date bounds, and correct
  values through the same calibration helper.
 */
module Sensors {
  import opened Stamps
  import C = Calibration

  datatype Reading = Reading(
    id: int,
    user: Option<int>,
    zone: Option<int>,
    device: Option<int>,
    value: Option<real>,
    timestamp: int)

  datatype Owner = Owner(user: Option<int>, zone: Option<int>)

  type Devices = map<int, Owner>

  // ---------------------------------------------------------- ownership

  function Coalesce(a: Option<int>, b: Option<int>): Option<int> {
    if a.Some? then a else b
  }

  /** The owner of the reading's device; nothing for a device-less or unknown device. */
  function DeviceOwner(r: Reading, devices: Devices): Owner {
    if r.device.Some? && r.device.value in devices then devices[r.device.value] else Owner(None, None)
  }

  /** The SQL projection: COALESCE(device.user_id, row.user_id) over a left join. */
  function EffUser(r: Reading, devices: Devices): Option<int> {
    Coalesce(DeviceOwner(r, devices).user, r.user)
  }

  function EffZone(r: Reading, devices: Devices): Option<int> {
    Coalesce(DeviceOwner(r, devices).zone, r.zone)
  }

  /** The Python twin of the projection, branch by branch. */
  method EffectiveOwner(r: Reading, devices: Devices) returns (user: Option<int>, zone: Option<int>)
    ensures user == EffUser(r, devices) && zone == EffZone(r, devices)
  {
    if r.device.None? {
      return r.user, r.zone;
    }
    if r.device.value !in devices {
      return r.user, r.zone;
    }
    var device := devices[r.device.value];
    user := if device.user.Some? then device.user else r.user;
    zone := if device.zone.Some? then device.zone else r.zone;
  }

  /** A known device's owner and zone count; a missing one is made up for by the row's own. */
  lemma OwnerIsDeviceThenRow(r: Reading, devices: Devices)
    ensures var known := r.device != None && r.device.value in devices;
            && (known && devices[r.device.value].user != None ==> EffUser(r, devices) == devices[r.device.value].user)
            && (known && devices[r.device.value].zone != None ==> EffZone(r, devices) == devices[r.device.value].zone)
            && (!known || devices[r.device.value].user == None ==> EffUser(r, devices) == r.user)
            && (!known || devices[r.device.value].zone == None ==> EffZone(r, devices) == r.zone)
  {
  }

  // ---------------------------------------------------------- selection

  /** What a client asks for: whose readings, in which zone, between which dates. */
  datatype Query = Query(user: int, zone: Option<int>, start: Option<int>, end: Option<int>)

  /** 00:00 UTC of a date. */
  function Midnight(date: int): int { date * DAY }

  predicate Owned(r: Reading, q: Query, devices: Devices) {
    && EffUser(r, devices) == Some(q.user)
    && (q.zone.Some? ==> EffZone(r, devices) == q.zone)
  }

  /** The inclusive end date is compiled to "before the next midnight". */
  predicate InRange(r: Reading, q: Query) {
    && (q.start.Some? ==> r.timestamp >= Midnight(q.start.value))
    && (q.end.Some? ==> r.timestamp < Midnight(q.end.value + 1))
  }

  predicate Selects(r: Reading, q: Query, devices: Devices) {
    Owned(r, q, devices) && InRange(r, q)
  }

  /** ORDER BY timestamp; rows of equal timestamps keep their stored order. */
  function Insert(r: Reading, sorted: seq<Reading>): seq<Reading> {
    if sorted == [] || r.timestamp <= sorted[0].timestamp then [r] + sorted
    else [sorted[0]] + Insert(r, sorted[1..])
  }

  function SortByTime(rows: seq<Reading>): seq<Reading> {
    if rows == [] then [] else Insert(rows[0], SortByTime(rows[1..]))
  }

  function Selected(readings: seq<Reading>, q: Query, devices: Devices): seq<Reading> {
    Filter(readings, (r: Reading) => Selects(r, q, devices))
  }

  function SelectRaw(readings: seq<Reading>, q: Query, devices: Devices): seq<Reading> {
    SortByTime(Selected(readings, q, devices))
  }

  // ---------------------------------------------------------- one row on the wire

  /** What calibrates a stream: the store, its key and native unit, the unit table. */
  datatype Stream = Stream(
    rows: seq<C.Row>, available: bool, sensorKey: string, nativeUnit: string, units: C.UnitTable)

  datatype Point = Point(id: int, user: Option<int>, zone: Option<int>, value: Option<real>, timestamp: int)

  /** The calibration one reading is due, looked up on its own. */
  function CalibrationOf(r: Reading, s: Stream): Option<C.Row> {
    if r.device.None? || s.sensorKey == "" || !s.available then None
    else C.Lookup(s.rows, (r.device.value, s.sensorKey))
  }

  function ReadingMap(r: Reading, s: Stream): C.Affine {
    C.Effective(CalibrationOf(r, s), s.sensorKey, s.nativeUnit, s.units)
  }

  /** The row as it should leave: resolved owner, value under its own device's map. */
  function RawPoint(r: Reading, devices: Devices, s: Stream): Point {
    Point(r.id, EffUser(r, devices), EffZone(r, devices), C.ApplyTo(ReadingMap(r, s), r.value), r.timestamp)
  }

  function RawPoints(rows: seq<Reading>, devices: Devices, s: Stream): (points: seq<Point>)
    ensures |points| == |rows|
    ensures forall i | 0 <= i < |rows| :: points[i] == RawPoint(rows[i], devices, s)
  {
    seq(|rows|, i requires 0 <= i < |rows| => RawPoint(rows[i], devices, s))
  }

  /** A projected owner wins; a null one falls back to the row's own column. */
  function SerializeRaw(r: Reading, effUser: Option<int>, effZone: Option<int>): Point {
    Point(r.id, Coalesce(effUser, r.user), Coalesce(effZone, r.zone), r.value, r.timestamp)
  }

  function Get(m: map<(int, string), C.Row>, key: (int, string)): Option<C.Row> {
    if key in m then Some(m[key]) else None
  }

  function PairsOf(rows: seq<Reading>, sensorKey: string): (pairs: seq<C.Pair>)
    ensures |pairs| == |rows| && forall i | 0 <= i < |rows| :: pairs[i] == (rows[i].device, sensorKey)
  {
    seq(|rows|, i requires 0 <= i < |rows| => (rows[i].device, sensorKey))
  }

  /** The batch-loaded map serves each row exactly its own calibration. */
  lemma BatchServesRow(rows: seq<Reading>, s: Stream, i: nat)
    requires i < |rows|
    requires rows[i].device.Some? && s.sensorKey != ""
    ensures Get(C.LoadCalibrations(s.rows, s.available, PairsOf(rows, s.sensorKey)), (rows[i].device.value, s.sensorKey))
            == CalibrationOf(rows[i], s)
  {
    var pairs := PairsOf(rows, s.sensorKey);
    assert pairs[i] in pairs;
    C.BatchLoadIsLookup(s.rows, s.available, pairs, (rows[i].device.value, s.sensorKey));
  }

  /** Serializing a row and correcting it when it has a calibration gives its raw point. */
  lemma SerializedIsRawPoint(r: Reading, devices: Devices, s: Stream)
    ensures var c := CalibrationOf(r, s);
            var out := SerializeRaw(r, EffUser(r, devices), EffZone(r, devices));
            (if c.Some? then out.(value := C.CorrectedValue(out.value, c, s.sensorKey, s.nativeUnit, s.units)) else out)
            == RawPoint(r, devices, s)
  {
    C.CorrectionIsAffine(r.value, CalibrationOf(r, s), s.sensorKey, s.nativeUnit, s.units);
    assert r.value.Some? ==> C.IDENTITY.At(r.value.value) == r.value.value;
  }

  // ---------------------------------------------------------- hourly buckets

  function HourOf(instant: int): int { instant / HOUR }

  function InHour(rows: seq<Reading>, hour: int): seq<Reading> {
    Filter(rows, (r: Reading) => HourOf(r.timestamp) == hour)
  }

  function InsertHour(hour: int, hours: seq<int>): (r: seq<int>)
    requires Ascending(hours)
    ensures Ascending(r) && forall h :: h in r <==> h == hour || h in hours
  {
    if hours == [] || hour < hours[0] then [hour] + hours
    else if hour == hours[0] then hours
    else
      var rest := InsertHour(hour, hours[1..]);
      AscendingCons(hours[0], rest);
      [hours[0]] + rest
  }

  ghost predicate Ascending(hours: seq<int>) {
    forall i, j | 0 <= i < j < |hours| :: hours[i] < hours[j]
  }

  lemma AscendingCons(hour: int, rest: seq<int>)
    requires Ascending(rest) && forall h | h in rest :: hour < h
    ensures Ascending([hour] + rest)
  {
    var hours := [hour] + rest;
    forall i, j | 0 <= i < j < |hours| ensures hours[i] < hours[j] {
      assert hours[j] == rest[j - 1] && rest[j - 1] in rest;
      assert i > 0 ==> hours[i] == rest[i - 1];
    }
  }

  /** The clock hours with rows, each once, in order. */
  function Hours(rows: seq<Reading>): (r: seq<int>)
    ensures Ascending(r)
    ensures forall h :: h in r <==> InHour(rows, h) != []
  {
    if rows == [] then [] else InsertHour(HourOf(rows[0].timestamp), Hours(rows[1..]))
  }

  /** The row with the greatest id. */
  function LastRow(rows: seq<Reading>): (r: Reading)
    requires rows != []
    ensures r in rows && forall x | x in rows :: x.id <= r.id
  {
    if |rows| == 1 then rows[0]
    else
      var rest := LastRow(rows[1..]);
      if rows[0].id > rest.id then rows[0] else rest
  }

  function Values(rows: seq<Reading>): (r: seq<Option<real>>)
    ensures |r| == |rows| && forall i | 0 <= i < |rows| :: r[i] == rows[i].value
  {
    seq(|rows|, i requires 0 <= i < |rows| => rows[i].value)
  }

  /** agri-core's hourly aggregate, by contract: AVG over the hour, and its last id. */
  datatype Bucket = Bucket(hour: int, lastId: int, mean: Option<real>)

  function BucketOf(rows: seq<Reading>, hour: int): Bucket
    requires InHour(rows, hour) != []
  {
    Bucket(hour, LastRow(InHour(rows, hour)).id, C.Mean(Values(InHour(rows, hour))))
  }

  function HourlyAverages(rows: seq<Reading>): (r: seq<Bucket>)
    ensures |r| == |Hours(rows)|
    ensures forall i | 0 <= i < |r| :: Hours(rows)[i] in Hours(rows) && r[i] == BucketOf(rows, Hours(rows)[i])
  {
    seq(|Hours(rows)|, i requires 0 <= i < |Hours(rows)| => assert Hours(rows)[i] in Hours(rows); BucketOf(rows, Hours(rows)[i]))
  }

  /** One hour's point: the mean under the map of the device behind the hour's last row. */
  function HourlyPoint(rows: seq<Reading>, hour: int, q: Query, zone: Option<int>, s: Stream): Point
    requires InHour(rows, hour) != []
  {
    var b := BucketOf(rows, hour);
    Point(b.lastId, Some(q.user), zone,
          C.ApplyTo(ReadingMap(LastRow(InHour(rows, hour)), s), b.mean), hour * HOUR)
  }

  function HourlyPoints(rows: seq<Reading>, q: Query, zone: Option<int>, s: Stream): (r: seq<Point>)
    ensures |r| == |Hours(rows)|
    ensures forall i | 0 <= i < |r| :: Hours(rows)[i] in Hours(rows) && r[i] == HourlyPoint(rows, Hours(rows)[i], q, zone, s)
  {
    seq(|Hours(rows)|, i requires 0 <= i < |Hours(rows)| =>
      assert Hours(rows)[i] in Hours(rows); HourlyPoint(rows, Hours(rows)[i], q, zone, s))
  }

  /** SELECT device_id WHERE id = rowId. */
  function DeviceById(readings: seq<Reading>, rowId: int): Option<int> {
    if readings == [] then None
    else if readings[0].id == rowId then readings[0].device
    else DeviceById(readings[1..], rowId)
  }

  lemma {:induction false} DeviceByIdFinds(readings: seq<Reading>, r: Reading)
    requires r in readings && forall i, j | 0 <= i < j < |readings| :: readings[i].id < readings[j].id
    ensures DeviceById(readings, r.id) == r.device
  {
    if readings[0] == r {
    } else {
      assert readings[0].id < r.id;
      DeviceByIdFinds(readings[1..], r);
    }
  }

  function OwnedRows(readings: seq<Reading>, q: Query, devices: Devices): seq<Reading> {
    Filter(readings, (r: Reading) => Owned(r, q, devices))
  }

  /** The zone an hourly series is labelled with: the one asked for, else the first row's. */
  function LabelZone(readings: seq<Reading>, q: Query, devices: Devices): Option<int>
    requires OwnedRows(readings, q, devices) != []
  {
    if q.zone.Some? then q.zone else EffZone(OwnedRows(readings, q, devices)[0], devices)
  }

  function GetId(m: map<int, C.Row>, id: int): Option<C.Row> {
    if id in m then Some(m[id]) else None
  }

  /** The map gives each bucket the calibration of its own last row. */
  ghost predicate ServesBuckets(byLastId: map<int, C.Row>, rows: seq<Reading>, s: Stream) {
    forall h | h in Hours(rows) ::
      GetId(byLastId, LastRow(InHour(rows, h)).id) == CalibrationOf(LastRow(InHour(rows, h)), s)
  }

  function BucketPairs(readings: seq<Reading>, buckets: seq<Bucket>, sensorKey: string): (pairs: seq<C.Pair>)
    ensures |pairs| == |buckets|
    ensures forall i | 0 <= i < |pairs| :: pairs[i] == (DeviceById(readings, buckets[i].lastId), sensorKey)
  {
    seq(|buckets|, i requires 0 <= i < |buckets| => (DeviceById(readings, buckets[i].lastId), sensorKey))
  }

  /** {last_id: calibrations.get((device_id, key))} over the buckets whose row has a device. */
  function ByLastId(readings: seq<Reading>, buckets: seq<Bucket>, loaded: map<(int, string), C.Row>, sensorKey: string): map<int, C.Row> {
    if buckets == [] then map[]
    else
      var rest := ByLastId(readings, buckets[1..], loaded, sensorKey);
      var id := buckets[0].lastId;
      var device := DeviceById(readings, id);
      if device.Some? && (device.value, sensorKey) in loaded then rest[id := loaded[(device.value, sensorKey)]] else rest
  }

  lemma {:induction false} ByLastIdAt(readings: seq<Reading>, buckets: seq<Bucket>, loaded: map<(int, string), C.Row>, sensorKey: string, b: Bucket)
    requires b in buckets
    ensures var device := DeviceById(readings, b.lastId);
            GetId(ByLastId(readings, buckets, loaded, sensorKey), b.lastId)
            == if device.Some? then Get(loaded, (device.value, sensorKey)) else None
  {
    ByLastIdKeys(readings, buckets, loaded, sensorKey, b.lastId);
    if b != buckets[0] {
      ByLastIdAt(readings, buckets[1..], loaded, sensorKey, b);
    } else {
      ByLastIdKeys(readings, buckets[1..], loaded, sensorKey, b.lastId);
    }
  }

  /** Whatever an id is mapped to is its own device's calibration. */
  lemma {:induction false} ByLastIdKeys(readings: seq<Reading>, buckets: seq<Bucket>, loaded: map<(int, string), C.Row>, sensorKey: string, id: int)
    ensures var m := ByLastId(readings, buckets, loaded, sensorKey);
            var device := DeviceById(readings, id);
            id in m ==> device.Some? && Get(loaded, (device.value, sensorKey)) == Some(m[id])
  {
    if buckets == [] {
    } else {
      ByLastIdKeys(readings, buckets[1..], loaded, sensorKey, id);
    }
  }

  lemma BucketServed(readings: seq<Reading>, rows: seq<Reading>, s: Stream, hour: int)
    requires s.sensorKey != "" && hour in Hours(rows)
    requires forall i, j | 0 <= i < j < |readings| :: readings[i].id < readings[j].id
    requires forall r | r in rows :: r in readings
    ensures var last := LastRow(InHour(rows, hour));
            var loaded := C.LoadCalibrations(s.rows, s.available, BucketPairs(readings, HourlyAverages(rows), s.sensorKey));
            && DeviceById(readings, last.id) == last.device
            && BucketOf(rows, hour) in HourlyAverages(rows)
            && (last.device.Some? ==> Get(loaded, (last.device.value, s.sensorKey)) == CalibrationOf(last, s))
  {
    var last := LastRow(InHour(rows, hour));
    var pairs := BucketPairs(readings, HourlyAverages(rows), s.sensorKey);
    DeviceByIdFinds(readings, last);
    var i :| 0 <= i < |Hours(rows)| && Hours(rows)[i] == hour;
    assert HourlyAverages(rows)[i] == BucketOf(rows, hour);
    assert pairs[i] in pairs;
    if last.device.Some? {
      C.BatchLoadIsLookup(s.rows, s.available, pairs, (last.device.value, s.sensorKey));
    }
  }

  /** Correcting the bucket's mean by its device's calibration gives the hour's point. */
  lemma BucketCorrected(rows: seq<Reading>, hour: int, q: Query, zone: Option<int>, s: Stream)
    requires InHour(rows, hour) != []
    ensures var b := BucketOf(rows, hour);
            var c := CalibrationOf(LastRow(InHour(rows, hour)), s);
            Point(b.lastId, Some(q.user), zone,
                  C.CorrectedValue(b.mean, c, s.sensorKey, s.nativeUnit, s.units), hour * HOUR)
            == HourlyPoint(rows, hour, q, zone, s)
  {
    C.CorrectionIsAffine(BucketOf(rows, hour).mean, CalibrationOf(LastRow(InHour(rows, hour)), s),
                         s.sensorKey, s.nativeUnit, s.units);
  }

  // ---------------------------------------------------------- the tables

  class Store {
    var readings: seq<Reading>   // in id order
    var nextId: int
    var devices: Devices

    ghost predicate Valid()
      reads this
    {
      && (forall i, j | 0 <= i < j < |readings| :: readings[i].id < readings[j].id)
      && forall r | r in readings :: r.id < nextId
    }

    /** INSERT one reading under the next id; nothing stored is touched. */
    method WriteReading(user: int, zone: int, device: Option<int>, value: real, timestamp: int)
      requires Valid()
      modifies this`readings, this`nextId
      ensures Valid() && nextId > old(nextId)
      ensures var r := Reading(old(nextId), Some(user), Some(zone), device, Some(value), timestamp);
              Db(readings, devices) == Apply(Db(old(readings), devices), Write(r))
    {
      readings := readings + [Reading(nextId, Some(user), Some(zone), device, Some(value), timestamp)];
      nextId := nextId + 1;
    }

    /** UPDATE analytics_device SET user_id, zone_id WHERE id = device. No reading is rewritten. */
    method Assign(device: int, user: int, zone: int) returns (found: bool)
      modifies this`devices
      ensures found == (device in old(devices))
      ensures Db(readings, devices) == Apply(Db(readings, old(devices)), Transfer(device, user, zone))
    {
      found := device in devices;
      if found {
        devices := devices[device := Owner(Some(user), Some(zone))];
      }
    }

    /** The raw surface: select by owner and range, batch-load, correct row by row. */
    method RawReadings(q: Query, s: Stream) returns (points: seq<Point>)
      ensures points == RawPoints(SelectRaw(readings, q, devices), devices, s)
    {
      var rows := SelectRaw(readings, q, devices);
      var calibrations := C.LoadCalibrations(s.rows, s.available, PairsOf(rows, s.sensorKey));
      points := [];
      var i := 0;
      while i < |rows|
        invariant i <= |rows|
        invariant points == RawPoints(rows, devices, s)[..i]
      {
        var r := rows[i];
        var out := SerializeRaw(r, EffUser(r, devices), EffZone(r, devices));
        var calibration := None;
        if s.sensorKey != "" && r.device.Some? {
          calibration := Get(calibrations, (r.device.value, s.sensorKey));
          BatchServesRow(rows, s, i);
        }
        if calibration.Some? {
          out := out.(value := C.CorrectedValue(out.value, calibration, s.sensorKey, s.nativeUnit, s.units));
        }
        SerializedIsRawPoint(r, devices, s);
        points := points + [out];
        i := i + 1;
      }
    }

    /** {last_id: calibration}: the device behind each bucket, then one batch load. */
    method CalibrationsForBuckets(rows: seq<Reading>, s: Stream) returns (byLastId: map<int, C.Row>)
      requires Valid() && forall r | r in rows :: r in readings
      ensures ServesBuckets(byLastId, rows, s)
    {
      var buckets := HourlyAverages(rows);
      if s.sensorKey == "" || buckets == [] {
        byLastId := map[];
        return;
      }
      var pairs := BucketPairs(readings, buckets, s.sensorKey);
      var loaded := C.LoadCalibrations(s.rows, s.available, pairs);
      byLastId := ByLastId(readings, buckets, loaded, s.sensorKey);
      forall h | h in Hours(rows)
        ensures GetId(byLastId, LastRow(InHour(rows, h)).id) == CalibrationOf(LastRow(InHour(rows, h)), s)
      {
        BucketServed(readings, rows, s, h);
        ByLastIdAt(readings, buckets, loaded, s.sensorKey, BucketOf(rows, h));
      }
    }

    /** The hourly surface: one point per clock hour, nothing when the client owns no row. */
    method HourlyReadings(q: Query, s: Stream) returns (points: seq<Point>)
      requires Valid()
      ensures points == if OwnedRows(readings, q, devices) == [] then []
                        else HourlyPoints(SelectRaw(readings, q, devices), q, LabelZone(readings, q, devices), s)
    {
      if OwnedRows(readings, q, devices) == [] {
        return [];
      }
      var zone := LabelZone(readings, q, devices);
      var rows := SelectRaw(readings, q, devices);
      SelectedAreStored(readings, q, devices);
      var byLastId := CalibrationsForBuckets(rows, s);
      var buckets := HourlyAverages(rows);
      points := [];
      var i := 0;
      while i < |buckets|
        invariant i <= |buckets|
        invariant points == HourlyPoints(rows, q, zone, s)[..i]
      {
        var b := buckets[i];
        var calibration := GetId(byLastId, b.lastId);
        assert Hours(rows)[i] in Hours(rows);
        var value := C.CorrectedValue(b.mean, calibration, s.sensorKey, s.nativeUnit, s.units);
        BucketCorrected(rows, Hours(rows)[i], q, zone, s);
        points := points + [Point(b.lastId, Some(q.user), zone, value, b.hour * HOUR)];
        i := i + 1;
      }
    }
  }

  lemma {:induction false} InsertKeeps(r: Reading, sorted: seq<Reading>)
    ensures forall x :: x in Insert(r, sorted) <==> x == r || x in sorted
  {
    if sorted == [] || r.timestamp <= sorted[0].timestamp {
    } else {
      InsertKeeps(r, sorted[1..]);
    }
  }

  lemma {:induction false} SortKeeps(rows: seq<Reading>)
    ensures forall x :: x in SortByTime(rows) <==> x in rows
  {
    if rows == [] {
    } else {
      SortKeeps(rows[1..]);
      InsertKeeps(rows[0], SortByTime(rows[1..]));
    }
  }

  lemma SelectedAreStored(readings: seq<Reading>, q: Query, devices: Devices)
    ensures forall r :: r in SelectRaw(readings, q, devices) <==> r in readings && Selects(r, q, devices)
  {
    SortKeeps(Selected(readings, q, devices));
  }

  // ---------------------------------------------------------- the surfaces agree

  /** Every row of the hour came from one device (or from none). */
  ghost predicate OneDevice(rows: seq<Reading>) {
    forall a, b | a in rows && b in rows :: a.device == b.device
  }

  lemma {:induction false} RawPointsOfHour(rows: seq<Reading>, devices: Devices, s: Stream, hour: int)
    ensures Filter(RawPoints(rows, devices, s), (p: Point) => HourOf(p.timestamp) == hour)
            == RawPoints(InHour(rows, hour), devices, s)
  {
    if rows == [] {
    } else {
      var points := RawPoints(rows, devices, s);
      RawPointsOfHour(rows[1..], devices, s, hour);
      assert points[1..] == RawPoints(rows[1..], devices, s);
      if HourOf(rows[0].timestamp) == hour {
        assert RawPoints(InHour(rows, hour), devices, s) == [points[0]] + RawPoints(InHour(rows[1..], hour), devices, s);
      } else {
        assert InHour(rows, hour) == InHour(rows[1..], hour);
      }
    }
  }

  function PointValues(points: seq<Point>): (r: seq<Option<real>>)
    ensures |r| == |points| && forall i | 0 <= i < |points| :: r[i] == points[i].value
  {
    seq(|points|, i requires 0 <= i < |points| => points[i].value)
  }

  function MapsOf(rows: seq<Reading>, s: Stream): (r: seq<C.Affine>)
    ensures |r| == |rows| && forall i | 0 <= i < |rows| :: r[i] == ReadingMap(rows[i], s)
  {
    seq(|rows|, i requires 0 <= i < |rows| => ReadingMap(rows[i], s))
  }

  /**
    Raw and hourly agree: for an hour fed by one device, the hourly point is the mean of
    that hour's raw points, each corrected on its own, missing values skipped.
   */
  lemma HourlyIsMeanOfRaw(rows: seq<Reading>, devices: Devices, s: Stream, q: Query, zone: Option<int>, hour: int)
    requires InHour(rows, hour) != [] && OneDevice(InHour(rows, hour))
    ensures HourlyPoint(rows, hour, q, zone, s).value
            == C.Mean(PointValues(Filter(RawPoints(rows, devices, s), (p: Point) => HourOf(p.timestamp) == hour)))
  {
    var inHour := InHour(rows, hour);
    var m := ReadingMap(LastRow(inHour), s);
    RawPointsOfHour(rows, devices, s, hour);
    forall i | 0 <= i < |inHour| ensures MapsOf(inHour, s)[i] == m {
      assert inHour[i] in inHour;
    }
    C.MeanCommutes(m, MapsOf(inHour, s), Values(inHour));
    assert PointValues(RawPoints(inHour, devices, s)) == C.Corrected(MapsOf(inHour, s), Values(inHour));
  }

  /**
    With several devices in the hour the surfaces agree on every measurement exactly when
    all rows have the correction of the hour's last row.
   */
  lemma MixedHourAgreesIffSameMap(inHour: seq<Reading>, s: Stream)
    requires inHour != []
    ensures (forall xs: seq<Option<real>> | |xs| == |inHour| ::
               C.MeansAgree(ReadingMap(LastRow(inHour), s), MapsOf(inHour, s), xs))
            <==> forall r | r in inHour :: ReadingMap(r, s) == ReadingMap(LastRow(inHour), s)
  {
    var m := ReadingMap(LastRow(inHour), s);
    C.MeansAgreeIffOneMap(m, MapsOf(inHour, s));
    assert (forall r | r in inHour :: ReadingMap(r, s) == m)
      <==> (forall i | 0 <= i < |inHour| :: ReadingMap(inHour[i], s) == m);
  }

  // ---------------------------------------------------------- date ranges tile

  lemma {:induction false} InsertLeft(r: Reading, a: seq<Reading>, b: seq<Reading>, at: int)
    requires r.timestamp < at && forall x | x in b :: x.timestamp >= at
    ensures Insert(r, a + b) == Insert(r, a) + b
  {
    if a == [] {
      assert a + b == b;
    } else if r.timestamp > a[0].timestamp {
      assert (a + b)[1..] == a[1..] + b;
      InsertLeft(r, a[1..], b, at);
    }
  }

  lemma {:induction false} InsertRight(r: Reading, a: seq<Reading>, b: seq<Reading>, at: int)
    requires r.timestamp >= at && forall x | x in a :: x.timestamp < at
    ensures Insert(r, a + b) == a + Insert(r, b)
  {
    if a == [] {
      assert a + b == b;
    } else {
      assert (a + b)[1..] == a[1..] + b;
      InsertRight(r, a[1..], b, at);
    }
  }

  function Before(rows: seq<Reading>, at: int): seq<Reading> {
    Filter(rows, (r: Reading) => r.timestamp < at)
  }

  function From(rows: seq<Reading>, at: int): seq<Reading> {
    Filter(rows, (r: Reading) => r.timestamp >= at)
  }

  /** A stable sort splits at any instant into the sorts of what lies before and after. */
  lemma {:induction false} SortSplits(rows: seq<Reading>, at: int)
    ensures SortByTime(rows) == SortByTime(Before(rows, at)) + SortByTime(From(rows, at))
  {
    if rows == [] {
    } else {
      var before, after := Before(rows[1..], at), From(rows[1..], at);
      SortSplits(rows[1..], at);
      SortKeeps(before);
      SortKeeps(after);
      if rows[0].timestamp < at {
        InsertLeft(rows[0], SortByTime(before), SortByTime(after), at);
        assert Before(rows, at) == [rows[0]] + before && From(rows, at) == after;
      } else {
        InsertRight(rows[0], SortByTime(before), SortByTime(after), at);
        assert Before(rows, at) == before && From(rows, at) == [rows[0]] + after;
      }
    }
  }

  /** Cutting a selection at the midnight after `date` bounds its range there. */
  lemma {:induction false} CutBefore(readings: seq<Reading>, q: Query, devices: Devices, date: int)
    requires q.start.Some? ==> q.start.value <= date + 1
    requires q.end.Some? ==> date <= q.end.value
    ensures Before(Selected(readings, q, devices), Midnight(date + 1)) == Selected(readings, q.(end := Some(date)), devices)
  {
    if readings == [] {
    } else {
      var r := readings[0];
      var rest := Selected(readings[1..], q, devices);
      CutBefore(readings[1..], q, devices, date);
      assert Selects(r, q.(end := Some(date)), devices) <==> Selects(r, q, devices) && r.timestamp < Midnight(date + 1);
      if Selects(r, q, devices) {
        assert Selected(readings, q, devices) == [r] + rest;
        assert ([r] + rest)[1..] == rest;
      } else {
        assert Selected(readings, q, devices) == rest;
      }
    }
  }

  lemma {:induction false} CutFrom(readings: seq<Reading>, q: Query, devices: Devices, date: int)
    requires q.start.Some? ==> q.start.value <= date + 1
    requires q.end.Some? ==> date <= q.end.value
    ensures From(Selected(readings, q, devices), Midnight(date + 1)) == Selected(readings, q.(start := Some(date + 1)), devices)
  {
    if readings == [] {
    } else {
      var r := readings[0];
      var rest := Selected(readings[1..], q, devices);
      CutFrom(readings[1..], q, devices, date);
      assert Selects(r, q.(start := Some(date + 1)), devices) <==> Selects(r, q, devices) && r.timestamp >= Midnight(date + 1);
      if Selects(r, q, devices) {
        assert Selected(readings, q, devices) == [r] + rest;
        assert ([r] + rest)[1..] == rest;
      } else {
        assert Selected(readings, q, devices) == rest;
      }
    }
  }

  /**
    Date ranges tile: the rows up to a date followed by the rows from the next date on
    are the rows of the whole range, in order, none lost at midnight and none twice.
   */
  lemma RangesTile(readings: seq<Reading>, devices: Devices, q: Query, date: int)
    requires q.start.Some? ==> q.start.value <= date + 1
    requires q.end.Some? ==> date <= q.end.value
    ensures SelectRaw(readings, q.(end := Some(date)), devices) + SelectRaw(readings, q.(start := Some(date + 1)), devices)
            == SelectRaw(readings, q, devices)
  {
    CutBefore(readings, q, devices, date);
    CutFrom(readings, q, devices, date);
    SortSplits(Selected(readings, q, devices), Midnight(date + 1));
  }

  ghost predicate InTimeOrder(rows: seq<Reading>) {
    forall i, j | 0 <= i < j < |rows| :: rows[i].timestamp <= rows[j].timestamp
  }

  /** The rows of one instant, in order. */
  function At(rows: seq<Reading>, instant: int): seq<Reading> {
    Filter(rows, (r: Reading) => r.timestamp == instant)
  }

  lemma AtCons(r: Reading, rows: seq<Reading>, instant: int)
    ensures At([r] + rows, instant) == if r.timestamp == instant then [r] + At(rows, instant) else At(rows, instant)
  {
    var all := [r] + rows;
    assert all[1..] == rows;
    if r.timestamp != instant {
      assert [] + At(rows, instant) == At(rows, instant);
    }
  }

  lemma {:induction false} InsertIsStable(r: Reading, sorted: seq<Reading>, instant: int)
    ensures At(Insert(r, sorted), instant) == At([r] + sorted, instant)
  {
    if sorted == [] || r.timestamp <= sorted[0].timestamp {
    } else {
      var s, rest := sorted[0], sorted[1..];
      InsertIsStable(r, rest, instant);
      assert sorted == [s] + rest;
      AtCons(s, Insert(r, rest), instant);
      AtCons(s, rest, instant);
      AtCons(r, rest, instant);
      AtCons(r, sorted, instant);
      assert Insert(r, sorted) == [s] + Insert(r, rest);
    }
  }

  lemma {:induction false} SortIsStable(rows: seq<Reading>, instant: int)
    ensures At(SortByTime(rows), instant) == At(rows, instant)
  {
    if rows == [] {
    } else {
      var r, rest := rows[0], rows[1..];
      SortIsStable(rest, instant);
      InsertIsStable(r, SortByTime(rest), instant);
      AtCons(r, SortByTime(rest), instant);
      AtCons(r, rest, instant);
      assert rows == [r] + rest;
    }
  }

  lemma {:induction false} InsertKeepsCount(r: Reading, sorted: seq<Reading>)
    ensures multiset(Insert(r, sorted)) == multiset{r} + multiset(sorted)
  {
    if sorted == [] || r.timestamp <= sorted[0].timestamp {
    } else {
      InsertKeepsCount(r, sorted[1..]);
      assert sorted == [sorted[0]] + sorted[1..];
    }
  }

  /**
    The raw surface comes in time order, neither drops nor repeats a selected row, and
    keeps the stored order of rows of one instant.
   */
  lemma {:induction false} SelectionIsOrdered(rows: seq<Reading>)
    ensures InTimeOrder(SortByTime(rows))
    ensures multiset(SortByTime(rows)) == multiset(rows)
    ensures forall instant :: At(SortByTime(rows), instant) == At(rows, instant)
  {
    forall instant ensures At(SortByTime(rows), instant) == At(rows, instant) {
      SortIsStable(rows, instant);
    }
    if rows == [] {
    } else {
      SelectionIsOrdered(rows[1..]);
      InsertOrders(rows[0], SortByTime(rows[1..]));
      InsertKeepsCount(rows[0], SortByTime(rows[1..]));
      assert rows == [rows[0]] + rows[1..];
    }
  }

  lemma {:induction false} InsertOrders(r: Reading, sorted: seq<Reading>)
    requires InTimeOrder(sorted)
    ensures InTimeOrder(Insert(r, sorted))
  {
    if sorted == [] || r.timestamp <= sorted[0].timestamp {
    } else {
      var rest := Insert(r, sorted[1..]);
      InsertOrders(r, sorted[1..]);
      InsertKeeps(r, sorted[1..]);
      forall x | x in rest ensures sorted[0].timestamp <= x.timestamp {
        if x != r {
          var k :| 0 <= k < |sorted[1..]| && sorted[1..][k] == x;
          assert x == sorted[k + 1];
        }
      }
      var t := [sorted[0]] + rest;
      forall i, j | 0 <= i < j < |t| ensures t[i].timestamp <= t[j].timestamp {
        assert t[j] == rest[j - 1] && rest[j - 1] in rest;
        assert i > 0 ==> t[i] == rest[i - 1];
      }
    }
  }

  // ---------------------------------------------------------- ownership over runs

  datatype Op =
    | Write(reading: Reading)
    | Transfer(device: int, user: int, zone: int)

  datatype Db = Db(readings: seq<Reading>, devices: Devices)

  function Apply(db: Db, op: Op): Db {
    match op
    case Write(r) => db.(readings := db.readings + [r])
    case Transfer(d, u, z) =>
      if d in db.devices then db.(devices := db.devices[d := Owner(Some(u), Some(z))]) else db
  }

  function Run(db: Db, ops: seq<Op>): Db
    decreases |ops|
  {
    if ops == [] then db else Run(Apply(db, ops[0]), ops[1..])
  }

  function Written(ops: seq<Op>): seq<Reading> {
    if ops == [] then []
    else (if ops[0].Write? then [ops[0].reading] else []) + Written(ops[1..])
  }

  /** The last transfer of a device in a run. */
  function LastTransfer(ops: seq<Op>, device: int): (r: Option<Op>)
    ensures r.Some? ==> r.value in ops && r.value.Transfer? && r.value.device == device
    ensures r.None? ==> forall op | op in ops && op.Transfer? :: op.device != device
  {
    if ops == [] then None
    else
      var later := LastTransfer(ops[1..], device);
      if later.Some? then later
      else if ops[0].Transfer? && ops[0].device == device then Some(ops[0]) else None
  }

  /** A run only appends readings: none is rewritten or removed. */
  lemma {:induction false} RunAppendsReadings(db: Db, ops: seq<Op>)
    ensures Run(db, ops).readings == db.readings + Written(ops)
    decreases |ops|
  {
    if ops == [] {
    } else {
      var next, later := Apply(db, ops[0]), Written(ops[1..]);
      RunAppendsReadings(next, ops[1..]);
      if ops[0].Write? {
        assert Written(ops) == [ops[0].reading] + later;
        ConcatAssociates(db.readings, [ops[0].reading], later);
      } else {
        assert Written(ops) == later && next.readings == db.readings;
      }
    }
  }

  /** Each device ends where its last transfer put it. */
  lemma {:induction false} DeviceEndsAtLastTransfer(db: Db, ops: seq<Op>, device: int)
    requires device in db.devices
    ensures device in Run(db, ops).devices
    ensures Run(db, ops).devices[device] == match LastTransfer(ops, device)
                                            case Some(t) => Owner(Some(t.user), Some(t.zone))
                                            case None => db.devices[device]
    decreases |ops|
  {
    if ops == [] {
    } else {
      DeviceEndsAtLastTransfer(Apply(db, ops[0]), ops[1..], device);
    }
  }

  /**
    Ownership follows the device: after any run, every reading of a transferred device
    belongs to its last assignee, whether it was written before or after the transfer,
    and no reading was rewritten.
   */
  lemma OwnershipFollowsDevice(db: Db, ops: seq<Op>, r: Reading, device: int)
    requires r.device == Some(device) && device in db.devices
    requires r in db.readings + Written(ops)
    ensures r in Run(db, ops).readings
    ensures var last := LastTransfer(ops, device);
            last.Some? ==> && EffUser(r, Run(db, ops).devices) == Some(last.value.user)
                           && EffZone(r, Run(db, ops).devices) == Some(last.value.zone)
    ensures LastTransfer(ops, device).None? ==>
              && EffUser(r, Run(db, ops).devices) == EffUser(r, db.devices)
              && EffZone(r, Run(db, ops).devices) == EffZone(r, db.devices)
  {
    RunAppendsReadings(db, ops);
    DeviceEndsAtLastTransfer(db, ops, device);
  }

  /** Everything the client can see, in any zone and at any time. */
  function AllOf(user: int): Query { Query(user, None, None, None) }

  /** An owned reading is visible to exactly one client; an ownerless one to nobody. */
  lemma VisibleToExactlyOneUser(db: Db, r: Reading, user: int)
    requires r in db.readings
    ensures r in SelectRaw(db.readings, AllOf(user), db.devices) <==> EffUser(r, db.devices) == Some(user)
  {
    SelectedAreStored(db.readings, AllOf(user), db.devices);
  }

  /** A transfer moves exactly that device's readings, between exactly two clients. */
  lemma TransferMovesOnlyItsReadings(db: Db, device: int, user: int, zone: int, client: int, r: Reading)
    requires device in db.devices && r in db.readings
    ensures var after := Apply(db, Transfer(device, user, zone));
            var saw := r in SelectRaw(db.readings, AllOf(client), db.devices);
            var sees := r in SelectRaw(after.readings, AllOf(client), after.devices);
            && after.readings == db.readings
            && sees == if r.device == Some(device) then client == user else saw
  {
    var after := Apply(db, Transfer(device, user, zone));
    SelectedAreStored(db.readings, AllOf(client), db.devices);
    SelectedAreStored(after.readings, AllOf(client), after.devices);
  }

  /** Every row reports the client, and the zone when asked for, it was selected by. */
  lemma RowsReportTheirSelector(readings: seq<Reading>, devices: Devices, q: Query, s: Stream, i: nat)
    requires i < |SelectRaw(readings, q, devices)|
    ensures var r, p := SelectRaw(readings, q, devices)[i], RawPoints(SelectRaw(readings, q, devices), devices, s)[i];
            && p.user == Some(q.user) && (q.zone.Some? ==> p.zone == q.zone)
            && p.id == r.id && p.timestamp == r.timestamp
  {
    SelectedAreStored(readings, q, devices);
    assert SelectRaw(readings, q, devices)[i] in SelectRaw(readings, q, devices);
  }

  // ---------------------------------------------------------- what the client asked for

  /** From the date's midnight up to the next one, UTC. */
  predicate OnDate(instant: int, date: int) { date * DAY <= instant < (date + 1) * DAY }

  /** A row is served exactly when its resolved owner, its zone and its date were asked for. */
  lemma SelectedExactly(readings: seq<Reading>, devices: Devices, q: Query, r: Reading, date: int)
    requires OnDate(r.timestamp, date)
    ensures r in SelectRaw(readings, q, devices)
            <==> && r in readings && EffUser(r, devices) == Some(q.user)
                 && (q.zone.Some? ==> EffZone(r, devices) == q.zone)
                 && (q.start.Some? ==> q.start.value <= date)
                 && (q.end.Some? ==> date <= q.end.value)
  {
    SelectedAreStored(readings, q, devices);
  }

  /** The row was taken in the hour that starts at `start`. */
  predicate TakenIn(r: Reading, start: int) { start <= r.timestamp < start + HOUR }

  /** An hourly point stands at the start of a clock hour and carries the greatest row id of that hour. */
  lemma PointOfItsHour(rows: seq<Reading>, q: Query, zone: Option<int>, s: Stream, hour: int)
    requires hour in Hours(rows)
    ensures var p := HourlyPoint(rows, hour, q, zone, s);
            && p.timestamp == hour * HOUR && p.timestamp % HOUR == 0
            && (exists r :: r in rows && r.id == p.id && TakenIn(r, p.timestamp))
            && forall r | r in rows && TakenIn(r, p.timestamp) :: r.id <= p.id
  {
    var last := LastRow(InHour(rows, hour));
    HourHolds(last.timestamp, hour);
    assert last in rows && TakenIn(last, hour * HOUR);
    forall r | r in rows && TakenIn(r, hour * HOUR) ensures r.id <= last.id {
      HourHolds(r.timestamp, hour);
      assert r in InHour(rows, hour);
    }
  }

  /** Hour by hour: point `i` stands at a clock hour, with the greatest row id of that hour. */
  lemma HourlyPointsAreClockHours(rows: seq<Reading>, q: Query, zone: Option<int>, s: Stream, i: nat)
    requires i < |HourlyPoints(rows, q, zone, s)|
    ensures var p := HourlyPoints(rows, q, zone, s)[i];
            && p.timestamp % HOUR == 0
            && (exists r :: r in rows && r.id == p.id && TakenIn(r, p.timestamp))
            && forall r | r in rows && TakenIn(r, p.timestamp) :: r.id <= p.id
  {
    assert Hours(rows)[i] in Hours(rows);
    PointOfItsHour(rows, q, zone, s, Hours(rows)[i]);
  }

  lemma HourlyPointsAscend(rows: seq<Reading>, q: Query, zone: Option<int>, s: Stream, i: nat, j: nat)
    requires i < j < |HourlyPoints(rows, q, zone, s)|
    ensures HourlyPoints(rows, q, zone, s)[i].timestamp < HourlyPoints(rows, q, zone, s)[j].timestamp
  {
    PointStandsAt(rows, q, zone, s, i);
    PointStandsAt(rows, q, zone, s, j);
    HoursAscend(Hours(rows), i, j);
  }

  lemma PointStandsAt(rows: seq<Reading>, q: Query, zone: Option<int>, s: Stream, i: nat)
    requires i < |HourlyPoints(rows, q, zone, s)|
    ensures HourlyPoints(rows, q, zone, s)[i].timestamp == Hours(rows)[i] * HOUR
  {
    assert Hours(rows)[i] in Hours(rows);
  }

  lemma HoursAscend(hours: seq<int>, i: nat, j: nat)
    requires Ascending(hours) && i < j < |hours|
    ensures hours[i] * HOUR < hours[j] * HOUR
  {
  }

  /** Every selected row falls in the hour of a point. */
  lemma EveryRowHasItsHour(rows: seq<Reading>, q: Query, zone: Option<int>, s: Stream, r: Reading)
    requires r in rows
    ensures exists i :: 0 <= i < |HourlyPoints(rows, q, zone, s)| && TakenIn(r, HourlyPoints(rows, q, zone, s)[i].timestamp)
  {
    var hours := Hours(rows);
    assert r in InHour(rows, HourOf(r.timestamp));
    var i :| 0 <= i < |hours| && hours[i] == HourOf(r.timestamp);
    HourHolds(r.timestamp, hours[i]);
    assert TakenIn(r, HourlyPoints(rows, q, zone, s)[i].timestamp);
  }

  lemma HourHolds(instant: int, hour: int)
    ensures HourOf(instant) == hour <==> hour * HOUR <= instant < hour * HOUR + HOUR
    ensures hour * HOUR % HOUR == 0
  {
  }

  /** The row of lowest id among those the client owns in the zone asked for, of any date. */
  ghost predicate FirstOwned(f: Reading, readings: seq<Reading>, devices: Devices, q: Query) {
    && f in readings && EffUser(f, devices) == Some(q.user) && (q.zone.Some? ==> EffZone(f, devices) == q.zone)
    && forall x | x in readings && EffUser(x, devices) == Some(q.user) && (q.zone.Some? ==> EffZone(x, devices) == q.zone) ::
         f.id <= x.id
  }

  ghost predicate AscendingIds(readings: seq<Reading>) {
    forall i, j | 0 <= i < j < |readings| :: readings[i].id < readings[j].id
  }

  lemma {:induction false} FirstOfFilter(readings: seq<Reading>, p: Reading -> bool)
    requires AscendingIds(readings)
    ensures forall x | x in readings && p(x) :: Filter(readings, p) != [] && Filter(readings, p)[0].id <= x.id
  {
    if readings == [] {
    } else {
      FirstOfFilter(readings[1..], p);
      forall x | x in readings && p(x) ensures Filter(readings, p) != [] && Filter(readings, p)[0].id <= x.id {
        var k :| 0 <= k < |readings| && readings[k] == x;
        if !p(readings[0]) {
          assert readings[1..][k - 1] == x;
        }
      }
    }
  }

  lemma OneRowPerId(readings: seq<Reading>, a: Reading, b: Reading)
    requires AscendingIds(readings) && a in readings && b in readings && a.id == b.id
    ensures a == b
  {
    var i :| 0 <= i < |readings| && readings[i] == a;
    var j :| 0 <= j < |readings| && readings[j] == b;
  }

  /**
    Every hourly point reports the client, and the zone when one is asked for. Otherwise it
    reports the zone the first owned row's device is in now, the row's own zone serving
    only when it has no device or its device none.
   */
  lemma HourlyReportsTheirSelector(readings: seq<Reading>, devices: Devices, q: Query, s: Stream, f: Reading)
    requires AscendingIds(readings) && FirstOwned(f, readings, devices, q)
    ensures OwnedRows(readings, q, devices) != []
    ensures forall p | p in HourlyPoints(SelectRaw(readings, q, devices), q, LabelZone(readings, q, devices), s) ::
              && p.user == Some(q.user)
              && (q.zone.Some? ==> p.zone == q.zone)
              && (q.zone.None? ==>
                    if f.device.Some? && f.device.value in devices && devices[f.device.value].zone.Some?
                    then p.zone == devices[f.device.value].zone else p.zone == f.zone)
  {
    var owned := OwnedRows(readings, q, devices);
    FirstOfFilter(readings, (r: Reading) => Owned(r, q, devices));
    assert owned[0] in owned;
    OneRowPerId(readings, owned[0], f);
    var points := HourlyPoints(SelectRaw(readings, q, devices), q, LabelZone(readings, q, devices), s);
    forall p | p in points ensures p.user == Some(q.user) && p.zone == LabelZone(readings, q, devices) {
      var i :| 0 <= i < |points| && points[i] == p;
    }
  }

  /** After a device's last transfer, a series of the new owner that starts with it names its new zone. */
  lemma HourlyFollowsTransfer(db: Db, ops: seq<Op>, device: int, t: Op, q: Query, s: Stream, f: Reading)
    requires device in db.devices && LastTransfer(ops, device) == Some(t)
    requires q.user == t.user && q.zone.None?
    requires AscendingIds(Run(db, ops).readings) && FirstOwned(f, Run(db, ops).readings, Run(db, ops).devices, q)
    requires f.device == Some(device)
    ensures var after := Run(db, ops);
            && OwnedRows(after.readings, q, after.devices) != []
            && forall p | p in HourlyPoints(SelectRaw(after.readings, q, after.devices), q,
                                            LabelZone(after.readings, q, after.devices), s) ::
                 p.user == Some(t.user) && p.zone == Some(t.zone)
  {
    var after := Run(db, ops);
    DeviceEndsAtLastTransfer(db, ops, device);
    HourlyReportsTheirSelector(after.readings, after.devices, q, s, f);
  }
}
