/**
  Per-sensor calibration, applied on read: the batch load through two IN lists, the
  correction of one value, and why correcting an hourly mean equals averaging corrected
  values. The unit table and the affine step belong to agri-core and enter by contract.
 */
module Calibration {
  import opened Stamps

  /** `y = scale * x + offset`. */
  datatype Affine = Affine(scale: real, offset: real) {
    function At(x: real): real { scale * x + offset }

    /** First `this`, then `next`. */
    function Then(next: Affine): Affine { Affine(next.scale * scale, next.scale * offset + next.offset) }
  }

  const IDENTITY := Affine(1.0, 0.0)

  datatype Row = Row(device: int, sensorKey: string, factors: Affine, unit: string, active: bool) {
    function Key(): (int, string) { (device, sensorKey) }
  }

  // ------------------------------------------------------------ batch load

  type Pair = (Option<int>, string)   // a blank key stands for a missing one

  /** The pairs that can carry a calibration: a device and a key that is not blank. */
  function Wanted(pairs: seq<Pair>): set<(int, string)> {
    set p | p in pairs && p.0.Some? && p.1 != "" :: (p.0.value, p.1)
  }

  /** SELECT ... WHERE device_id IN (devices) AND sensor_key IN (keys). */
  function Fetch(rows: seq<Row>, devices: set<int>, keys: set<string>): seq<Row> {
    Filter(rows, (r: Row) => r.device in devices && r.sensorKey in keys)
  }

  /** A dict built from rows in order; a later row replaces an earlier one. */
  function ByKey(rows: seq<Row>): map<(int, string), Row> {
    if rows == [] then map[] else map[rows[0].Key() := rows[0]] + ByKey(rows[1..])
  }

  /** The batch load: one query over the cross product, filtered back to the wanted pairs. */
  function LoadCalibrations(rows: seq<Row>, available: bool, pairs: seq<Pair>): map<(int, string), Row> {
    var wanted := Wanted(pairs);
    if wanted == {} || !available then map[]
    else
      var fetched := Fetch(rows, set k | k in wanted :: k.0, set k | k in wanted :: k.1);
      ByKey(Filter(fetched, (r: Row) => r.Key() in wanted))
  }

  /**
    SELECT ... WHERE device_id = d AND sensor_key = k: the row of the key. The store keeps
    one row per key; were there several, the dict and this lookup both keep the last.
   */
  function Lookup(rows: seq<Row>, key: (int, string)): (r: Option<Row>)
    ensures r.Some? ==> r.value in rows && r.value.Key() == key
    ensures r.None? <==> forall x | x in rows :: x.Key() != key
  {
    if rows == [] then None
    else
      var later := Lookup(rows[1..], key);
      if later.Some? then later
      else if rows[0].Key() == key then Some(rows[0]) else None
  }

  lemma {:induction false} ByKeyIsLookup(rows: seq<Row>, key: (int, string))
    ensures (if key in ByKey(rows) then Some(ByKey(rows)[key]) else None) == Lookup(rows, key)
  {
    if rows == [] {
    } else {
      ByKeyIsLookup(rows[1..], key);
    }
  }

  /** Dropping rows of other keys does not change what a key finds. */
  lemma {:induction false} LookupFiltered(rows: seq<Row>, p: Row -> bool, key: (int, string))
    requires forall r | r in rows && r.Key() == key :: p(r)
    ensures Lookup(Filter(rows, p), key) == Lookup(rows, key)
  {
    if rows == [] {
    } else {
      LookupFiltered(rows[1..], p, key);
      var rest := Filter(rows[1..], p);
      if p(rows[0]) {
        assert Filter(rows, p) == [rows[0]] + rest;
        assert Filter(rows, p)[1..] == rest;
      } else {
        assert Filter(rows, p) == rest;
      }
    }
  }

  /**
    The batch load agrees with a lookup per key, for every key: over-fetching the cross
    product adds nothing, and what is absent from the map has no row or was not wanted.
   */
  lemma BatchLoadIsLookup(rows: seq<Row>, available: bool, pairs: seq<Pair>, key: (int, string))
    ensures var m := LoadCalibrations(rows, available, pairs);
            (if key in m then Some(m[key]) else None)
            == if available && key in Wanted(pairs) then Lookup(rows, key) else None
    ensures key in Wanted(pairs) <==> (Some(key.0), key.1) in pairs && key.1 != ""
  {
    var wanted := Wanted(pairs);
    if wanted != {} && available {
      var devices, keys := set k | k in wanted :: k.0, set k | k in wanted :: k.1;
      var fetched := Fetch(rows, devices, keys);
      var kept := Filter(fetched, (r: Row) => r.Key() in wanted);
      ByKeyIsLookup(kept, key);
      if key in wanted {
        assert key.0 in devices && key.1 in keys;
        LookupFiltered(rows, (r: Row) => r.device in devices && r.sensorKey in keys, key);
        LookupFiltered(fetched, (r: Row) => r.Key() in wanted, key);
      }
    }
  }

  // ------------------------------------------------------- one correction

  /** agri-core's unit table: an affine conversion, or none when units do not convert. */
  type UnitTable = (string, string, string) -> Option<Affine>

  /**
    agri-core's `calibrated_value`, by contract: the affine step, then a conversion only
    when the calibration names a unit other than the target; `None` is its error.
   */
  function CalibratedValue(raw: real, c: Row, sensorKey: string, target: string, units: UnitTable): Option<real> {
    var corrected := c.factors.At(raw);
    if target == "" || c.unit == "" || c.unit == target then Some(corrected)
    else
      match units(sensorKey, c.unit, target)
      case Some(conversion) => Some(conversion.At(corrected))
      case None => None
  }

  /** The reading a client sees. A missing reading stays missing. */
  function CorrectedValue(raw: Option<real>, c: Option<Row>, sensorKey: string, native: string, units: UnitTable): Option<real> {
    if raw.None? then None
    else if c.None? || !c.value.active then raw
    else
      match CalibratedValue(raw.value, c.value, sensorKey, native, units)
      case Some(v) => Some(v)
      case None => Some(c.value.factors.At(raw.value))
  }

  /** The one affine map a calibration amounts to on a stream, whatever branch is taken. */
  function Effective(c: Option<Row>, sensorKey: string, native: string, units: UnitTable): Affine {
    if c.None? || !c.value.active then IDENTITY
    else if native == "" || c.value.unit == "" || c.value.unit == native then c.value.factors
    else
      match units(sensorKey, c.value.unit, native)
      case Some(conversion) => c.value.factors.Then(conversion)
      case None => c.value.factors
  }

  function ApplyTo(m: Affine, x: Option<real>): Option<real> {
    if x.None? then None else Some(m.At(x.value))
  }

  /** Every branch of the correction is that affine map, with missing values kept missing. */
  lemma CorrectionIsAffine(raw: Option<real>, c: Option<Row>, sensorKey: string, native: string, units: UnitTable)
    ensures CorrectedValue(raw, c, sensorKey, native, units) == ApplyTo(Effective(c, sensorKey, native, units), raw)
  {
    if raw.Some? && c.Some? && native != "" && c.value.unit != "" && c.value.unit != native {
      var conversion := units(sensorKey, c.value.unit, native);
      if conversion.Some? {
        ThenComposes(c.value.factors, conversion.value, raw.value);
      }
    }
  }

  /**
    What a client sees: nothing for nothing, the raw value unless an active calibration is
    stored, and otherwise the affine step, then the conversion to the native unit when the
    units differ and the table can convert them.
   */
  lemma CorrectionMeans(x: real, c: Option<Row>, sensorKey: string, native: string, units: UnitTable)
    ensures CorrectedValue(None, c, sensorKey, native, units) == None
    ensures var seen := CorrectedValue(Some(x), c, sensorKey, native, units);
            && (c.None? || !c.value.active ==> seen == Some(x))
            && (c.Some? && c.value.active ==>
                  if native != "" && c.value.unit != "" && c.value.unit != native
                     && units(sensorKey, c.value.unit, native).Some?
                  then seen == Some(units(sensorKey, c.value.unit, native).value.At(c.value.factors.At(x)))
                  else seen == Some(c.value.factors.At(x)))
    ensures c.Some? ==> c.value.factors.At(x) == c.value.factors.scale * x + c.value.factors.offset
  {
  }

  lemma ThenComposes(m: Affine, next: Affine, x: real)
    ensures m.Then(next).At(x) == next.At(m.At(x))
  {
    assert next.scale * (m.scale * x + m.offset) == next.scale * m.scale * x + next.scale * m.offset;
  }

  // ------------------------------------------------------- means

  function Total(xs: seq<Option<real>>): real {
    if xs == [] then 0.0 else (if xs[0].Some? then xs[0].value else 0.0) + Total(xs[1..])
  }

  function Present(xs: seq<Option<real>>): nat {
    if xs == [] then 0 else (if xs[0].Some? then 1 else 0) + Present(xs[1..])
  }

  /** SQL AVG: nulls are skipped, and the mean of nothing is null. */
  function Mean(xs: seq<Option<real>>): Option<real> {
    if Present(xs) == 0 then None else Some(Total(xs) / Present(xs) as real)
  }

  /** Each value under its own row's map. */
  function Corrected(maps: seq<Affine>, xs: seq<Option<real>>): (r: seq<Option<real>>)
    requires |maps| == |xs|
    ensures |r| == |xs| && forall i | 0 <= i < |xs| :: r[i] == ApplyTo(maps[i], xs[i])
  {
    seq(|xs|, i requires 0 <= i < |xs| && |maps| == |xs| => ApplyTo(maps[i], xs[i]))
  }

  lemma {:induction false} CorrectedTotals(m: Affine, maps: seq<Affine>, xs: seq<Option<real>>)
    requires |maps| == |xs| && forall i | 0 <= i < |maps| :: maps[i] == m
    ensures Present(Corrected(maps, xs)) == Present(xs)
    ensures Total(Corrected(maps, xs)) == m.scale * Total(xs) + m.offset * Present(xs) as real
  {
    if xs == [] {
    } else {
      CorrectedTotals(m, maps[1..], xs[1..]);
      assert Corrected(maps, xs)[1..] == Corrected(maps[1..], xs[1..]);
      var head := if xs[0].Some? then xs[0].value else 0.0;
      assert m.scale * (head + Total(xs[1..])) == m.scale * head + m.scale * Total(xs[1..]);
      if xs[0].Some? {
        assert Present(xs) as real == 1.0 + Present(xs[1..]) as real;
        assert m.offset * (1.0 + Present(xs[1..]) as real) == m.offset + m.offset * Present(xs[1..]) as real;
      }
    }
  }

  lemma MeanOfAffine(m: Affine, total: real, n: real, sum: real)
    requires n > 0.0 && sum == m.scale * total + m.offset * n
    ensures sum / n == m.At(total / n)
  {
    var q := total / n;
    assert total == q * n;
    assert sum == (m.scale * q + m.offset) * n by {
      assert m.scale * (q * n) == (m.scale * q) * n;
    }
    assert sum / n == m.scale * q + m.offset;
  }

  lemma MeanCommutes(m: Affine, maps: seq<Affine>, xs: seq<Option<real>>)
    requires |maps| == |xs| && forall i | 0 <= i < |maps| :: maps[i] == m
    ensures Mean(Corrected(maps, xs)) == ApplyTo(m, Mean(xs))
  {
    CorrectedTotals(m, maps, xs);
    if Present(xs) > 0 {
      var n, total := Present(xs) as real, Total(xs);
      var ys := Corrected(maps, xs);
      MeanOfAffine(m, total, n, Total(ys));
    }
  }

  /** All rows missing but row `i`. */
  function Lone(n: nat, i: nat, x: real): (r: seq<Option<real>>)
    ensures |r| == n
  {
    seq(n, k => if k == i then Some(x) else None)
  }

  lemma {:induction false} LoneMean(xs: seq<Option<real>>, i: nat)
    requires i < |xs| && xs[i].Some? && forall k | 0 <= k < |xs| && k != i :: xs[k].None?
    ensures Present(xs) == 1 && Total(xs) == xs[i].value && Mean(xs) == xs[i]
  {
    if i == 0 {
      AllMissing(xs[1..]);
    } else {
      LoneMean(xs[1..], i - 1);
    }
  }

  lemma {:induction false} AllMissing(xs: seq<Option<real>>)
    requires forall k | 0 <= k < |xs| :: xs[k].None?
    ensures Present(xs) == 0 && Total(xs) == 0.0
  {
    if xs == [] {
    } else {
      AllMissing(xs[1..]);
    }
  }

  /** The hour's mean, corrected by `m`, is the mean of the rows corrected by `maps`. */
  ghost predicate MeansAgree(m: Affine, maps: seq<Affine>, xs: seq<Option<real>>)
    requires |maps| == |xs|
  {
    Mean(Corrected(maps, xs)) == ApplyTo(m, Mean(xs))
  }

  /** Agreement on an hour whose only present row is `i` already pins that row's map. */
  lemma LoneRowPinsItsMap(m: Affine, maps: seq<Affine>, i: nat)
    requires i < |maps|
    requires MeansAgree(m, maps, Lone(|maps|, i, 0.0)) && MeansAgree(m, maps, Lone(|maps|, i, 1.0))
    ensures maps[i] == m
  {
    LoneRowAgrees(m, maps, i, 0.0);
    LoneRowAgrees(m, maps, i, 1.0);
  }

  lemma LoneRowAgrees(m: Affine, maps: seq<Affine>, i: nat, x: real)
    requires i < |maps| && MeansAgree(m, maps, Lone(|maps|, i, x))
    ensures maps[i].scale * x + maps[i].offset == m.scale * x + m.offset
  {
    var xs := Lone(|maps|, i, x);
    LoneMean(xs, i);
    LoneMean(Corrected(maps, xs), i);
  }

  /**
    The exact condition for one hour's point to equal the mean of its corrected rows,
    whatever was measured and whatever is missing: every row's map is the one applied
    to the mean.
   */
  lemma MeansAgreeIffOneMap(m: Affine, maps: seq<Affine>)
    ensures (forall xs: seq<Option<real>> | |xs| == |maps| :: MeansAgree(m, maps, xs))
            <==> forall i | 0 <= i < |maps| :: maps[i] == m
  {
    if forall i | 0 <= i < |maps| :: maps[i] == m {
      forall xs: seq<Option<real>> | |xs| == |maps| ensures MeansAgree(m, maps, xs) {
        MeanCommutes(m, maps, xs);
      }
    }
    if forall xs: seq<Option<real>> | |xs| == |maps| :: MeansAgree(m, maps, xs) {
      forall i | 0 <= i < |maps| ensures maps[i] == m {
        LoneRowPinsItsMap(m, maps, i);
      }
    }
  }
}
