/**
  The alert path and the read path, side by side: what a reading is judged and recorded by,
  and what the raw surface serves for it.
 */
module Surfaces {
  import opened Stamps
  import C = Calibration
  import D = Dispatch
  import S = Sensors

  /** A reading as it is dispatched and as it is stored, with its key served as stream `s`. */
  ghost predicate SameReading(r: D.Reading, x: S.Reading, s: S.Stream) {
    r.device == x.device && r.value == x.value && r.timestamp == x.timestamp && r.sensorKey == s.sensorKey != ""
  }

  /** Both paths read the same calibrations and convert by the same unit table. */
  ghost predicate SameStore(config: D.Config, s: S.Stream) {
    s.rows == config.calibrations && s.available == config.calibrationAvailable && s.units == config.units
  }

  /** The calibration map the alert path applies to a reading. */
  function JudgingMap(r: D.Reading, config: D.Config): C.Affine
    requires r.sensorKey in config.registry
  {
    if r.device.None? || !config.calibrationAvailable then C.IDENTITY
    else C.Effective(C.Lookup(config.calibrations, (r.device.value, r.sensorKey)), r.sensorKey,
                     config.registry[r.sensorKey], config.units)
  }

  lemma JudgedUnderItsMap(r: D.Reading, config: D.Config)
    requires r.value.Some? && r.sensorKey in config.registry && r.sensorKey != ""
    ensures D.Judged(r, config) == JudgingMap(r, config).At(r.value.value)
  {
    D.JudgedByOwnCalibration(r, config);
  }

  /**
    The alert and the dashboard cannot disagree: where the stream's unit is the registry's,
    the value a reading is judged by is the value the raw surface serves for it.
   */
  lemma JudgedIsServed(r: D.Reading, x: S.Reading, config: D.Config, s: S.Stream, rows: seq<S.Reading>, devices: S.Devices, i: nat)
    requires SameReading(r, x, s) && SameStore(config, s)
    requires r.value.Some? && r.sensorKey in config.registry && s.nativeUnit == config.registry[r.sensorKey]
    requires i < |rows| && rows[i] == x
    ensures S.RawPoints(rows, devices, s)[i].value == Some(D.Judged(r, config))
  {
    JudgedUnderItsMap(r, config);
  }

  /** And where the units differ, they agree on every measurement exactly when both maps are one. */
  lemma AgreeIffOneMap(r: D.Reading, x: S.Reading, config: D.Config, s: S.Stream, devices: S.Devices)
    requires SameReading(r, x, s) && SameStore(config, s) && r.sensorKey in config.registry
    ensures (forall v: real ::
               S.RawPoint(x.(value := Some(v)), devices, s).value == Some(D.Judged(r.(value := Some(v)), config)))
            <==> S.ReadingMap(x, s) == JudgingMap(r, config)
  {
    var served, judging := S.ReadingMap(x, s), JudgingMap(r, config);
    forall v: real
      ensures S.RawPoint(x.(value := Some(v)), devices, s).value == Some(served.At(v))
      ensures D.Judged(r.(value := Some(v)), config) == judging.At(v)
    {
      JudgedUnderItsMap(r.(value := Some(v)), config);
    }
    if forall v: real ::
         S.RawPoint(x.(value := Some(v)), devices, s).value == Some(D.Judged(r.(value := Some(v)), config)) {
      assert served.At(0.0) == judging.At(0.0) && served.At(1.0) == judging.At(1.0);
      TwoPoints(served, judging);
    }
  }

  lemma TwoPoints(served: C.Affine, judging: C.Affine)
    requires served.At(0.0) == judging.At(0.0) && served.At(1.0) == judging.At(1.0)
    ensures served == judging
  {
  }
}
