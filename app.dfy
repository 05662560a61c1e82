/**
 * The dashboard's shared calculators (frontend/assets/app.js): the
 * online/warning/offline classification of a sensor by the age of its last
 * reading, the built-in reservoir table, and the distance to volume to
 * percentage chain with its clamps, rounding and gauge colour.
 * JavaScript numbers are reals; a distance is the result of `Number(...)`
 * on the reading, or nothing for `null`/`undefined`.
 */
module Dashboard {
  import opened Wrappers
  import opened Schema
  import Volume

  /** checkSensorStatus's default threshold, five minutes. */
  const DEFAULT_OFFLINE_MS := 5 * 60 * 1000
  /** The age from which a sensor that is not yet offline is flagged. */
  const WARNING_MS := 2 * 60 * 1000

  /**
   * The timestamp argument: a falsy one (`null`, `undefined`, `""`, `0`),
   * one `new Date` cannot parse, or an instant in milliseconds.
   */
  datatype Stamp = Missing | Unparseable | At(ms: int)

  /** `elapsedMs`: `Infinity`, `NaN` (an unparseable date) or a difference of instants. */
  datatype Elapsed = Infinite | NotANumber | Ms(ms: int)

  datatype SensorStatus = SensorStatus(isOffline: bool, isWarning: bool, elapsed: Elapsed)

  /**
   * checkSensorStatus at time `now`: a missing timestamp is offline with
   * infinite age; otherwise offline from the threshold on and warning from
   * two minutes up to the threshold. A NaN age fails both comparisons.
   */
  function CheckSensorStatus(ts: Stamp, now: int, thresholdMs: int): (s: SensorStatus)
    ensures ts.Missing? ==> s == SensorStatus(true, false, Infinite)
    ensures ts.Unparseable? ==> !s.isOffline && !s.isWarning && s.elapsed == NotANumber
    ensures ts.At? ==> s.elapsed == Ms(now - ts.ms)
    ensures ts.At? ==> (s.isOffline <==> now - ts.ms >= thresholdMs)
    ensures ts.At? ==> (s.isWarning <==> WARNING_MS <= now - ts.ms < thresholdMs)
    ensures !(s.isOffline && s.isWarning)
  {
    match ts
    case Missing => SensorStatus(true, false, Infinite)
    case Unparseable => SensorStatus(false, false, NotANumber)
    case At(ms) =>
      var e := now - ms;
      SensorStatus(e >= thresholdMs, e >= WARNING_MS && e < thresholdMs, Ms(e))
  }

  /**
   * With the default threshold a parsed reading is in exactly one of three
   * bands: fresh (under two minutes), warning, or offline (five minutes on).
   */
  lemma DefaultBands(ms: int, now: int)
    ensures var s := CheckSensorStatus(At(ms), now, DEFAULT_OFFLINE_MS);
      (now - ms < WARNING_MS ==> !s.isOffline && !s.isWarning) &&
      (WARNING_MS <= now - ms < DEFAULT_OFFLINE_MS ==> !s.isOffline && s.isWarning) &&
      (now - ms >= DEFAULT_OFFLINE_MS ==> s.isOffline && !s.isWarning)
  {
  }

  /** As time passes a sensor that has gone offline stays offline. */
  lemma OfflineStaysOffline(ts: Stamp, now1: int, now2: int, thresholdMs: int)
    requires now1 <= now2 && CheckSensorStatus(ts, now1, thresholdMs).isOffline
    ensures CheckSensorStatus(ts, now2, thresholdMs).isOffline
  {
  }

  /** A threshold at or below two minutes leaves no warning band. */
  lemma NoWarningBelowTwoMinutes(ts: Stamp, now: int, thresholdMs: int)
    requires thresholdMs <= WARNING_MS
    ensures !CheckSensorStatus(ts, now, thresholdMs).isWarning
  {
  }

  /** One row of getReservoirConfig's table. */
  datatype ReservoirConfig = ReservoirConfig(
    tipo: string, nivelMaxCm: real, volumeMaxM3: real, areaM2: real, offsetSensorCm: real)

  /** The three 450 cm, 80 m³ cylinders. */
  const CYLINDER := ReservoirConfig("cilindrico", 450.0, 80.0, 80.0 / 4.5, 20.0)
  /** The two 240 cm, 250 m³ rectangular tanks. */
  const RECTANGULAR := ReservoirConfig("retangular", 240.0, 250.0, 250.0 / 2.4, 20.0)

  /** The element ids the table knows. */
  const KNOWN_RESERVOIRS: set<string> := {"RCON", "RCAV", "RB03", "IE01", "IE02"}

  /**
   * getReservoirConfig: the table row, or nothing for an id it does not
   * list. Every row's base area is its full volume over its full height,
   * and every row has a 20 cm sensor offset.
   */
  function GetReservoirConfig(sensorId: string): (r: Option<ReservoirConfig>)
    ensures r.Some? <==> sensorId in KNOWN_RESERVOIRS
    ensures r.Some? ==> r.value.areaM2 * (r.value.nivelMaxCm / 100.0) == r.value.volumeMaxM3
    ensures r.Some? ==> r.value.offsetSensorCm == 20.0 && r.value.nivelMaxCm > 0.0 && r.value.volumeMaxM3 > 0.0
    ensures r.Some? ==> r.value.areaM2 > 0.0
  {
    if sensorId in {"RCON", "RCAV", "RB03"} then Some(CYLINDER)
    else if sensorId in {"IE01", "IE02"} then Some(RECTANGULAR)
    else None
  }

  /** `Number(distance_cm)` as calculateVolumeM3 accepts it: finite and not negative. */
  function AcceptedDistance(distance: Option<JsNumber>): (r: Option<real>)
    ensures r.Some? <==> distance.Some? && distance.value.Finite? && distance.value.r >= 0.0
    ensures r.Some? ==> r.value == distance.value.r
  {
    match distance
    case Some(Finite(d)) => if d < 0.0 then None else Some(d)
    case _ => None
  }

  /** `reservoir.offset_sensor_cm || 20.0`. */
  function OffsetOf(c: ReservoirConfig): real
  {
    if c.offsetSensorCm != 0.0 then c.offsetSensorCm else 20.0
  }

  /** The water level the sensor sees: full height less the distance, plus the offset. */
  function NivelCm(c: ReservoirConfig, distanceCm: real): real
  {
    c.nivelMaxCm - distanceCm + OffsetOf(c)
  }

  /**
   * calculateVolumeM3: nothing (0) for an unknown reservoir, a missing,
   * NaN or negative distance, or a level at or below zero; otherwise the
   * base area times the level in metres, capped at the full volume.
   * An infinite distance gives an infinite negative level, hence 0 too.
   */
  function CalculateVolumeM3(sensorId: string, distance: Option<JsNumber>): (r: real)
    ensures GetReservoirConfig(sensorId).None? || AcceptedDistance(distance).None? ==> r == 0.0
    ensures r >= 0.0
    ensures GetReservoirConfig(sensorId).Some? ==> r <= GetReservoirConfig(sensorId).value.volumeMaxM3
    ensures GetReservoirConfig(sensorId).Some? && AcceptedDistance(distance).Some? ==>
      var c, d := GetReservoirConfig(sensorId).value, AcceptedDistance(distance).value;
      (NivelCm(c, d) <= 0.0 ==> r == 0.0) &&
      (NivelCm(c, d) > 0.0 ==> r == Min(c.areaM2 * (NivelCm(c, d) / 100.0), c.volumeMaxM3))
  {
    match GetReservoirConfig(sensorId)
    case None => 0.0
    case Some(c) =>
      match AcceptedDistance(distance)
      case None => 0.0
      case Some(d) =>
        var nivel := NivelCm(c, d);
        if nivel <= 0.0 then 0.0
        else Max(0.0, Min(c.areaM2 * (nivel / 100.0), c.volumeMaxM3))
  }

  function Min(a: real, b: real): real { if a <= b then a else b }
  function Max(a: real, b: real): real { if a >= b then a else b }

  /**
   * A reading exactly at the sensor offset is a full reservoir: the level
   * is the full height and the volume the table's full volume.
   */
  lemma FullAtOffset(sensorId: string)
    requires sensorId in KNOWN_RESERVOIRS
    ensures CalculateVolumeM3(sensorId, Some(Finite(20.0))) == GetReservoirConfig(sensorId).value.volumeMaxM3
  {
    var c := GetReservoirConfig(sensorId).value;
    assert NivelCm(c, 20.0) == c.nivelMaxCm;
  }

  /** Any distance from full height plus offset on reads as empty. */
  lemma EmptyBeyondFullHeight(sensorId: string, d: real)
    requires sensorId in KNOWN_RESERVOIRS
    requires d >= GetReservoirConfig(sensorId).value.nivelMaxCm + 20.0
    ensures CalculateVolumeM3(sensorId, Some(Finite(d))) == 0.0
  {
  }

  /** The farther the water surface, the less water: volume never grows with distance. */
  lemma VolumeNonIncreasing(sensorId: string, d1: real, d2: real)
    requires 0.0 <= d1 <= d2
    ensures CalculateVolumeM3(sensorId, Some(Finite(d2))) <= CalculateVolumeM3(sensorId, Some(Finite(d1)))
  {
    if sensorId in KNOWN_RESERVOIRS {
      var c := GetReservoirConfig(sensorId).value;
      var n1, n2 := NivelCm(c, d1), NivelCm(c, d2);
      if n2 > 0.0 {
        assert n2 / 100.0 <= n1 / 100.0;
        assert c.areaM2 * (n2 / 100.0) <= c.areaM2 * (n1 / 100.0);
      }
    }
  }

  /** `Math.round(x * 100) / 100`: two decimals, halves rounded up. */
  function Round2(x: real): real
  {
    Volume.Nearest(x * 100.0) as real / 100.0
  }

  /** Rounding to two decimals keeps [0, 100] and moves a value by at most half a hundredth. */
  lemma Round2Bounds(x: real)
    requires 0.0 <= x <= 100.0
    ensures 0.0 <= Round2(x) <= 100.0
    ensures x - 0.005 <= Round2(x) <= x + 0.005
  {
    Volume.NearestMonotone(0.0, x * 100.0);
    Volume.NearestMonotone(x * 100.0, 10000.0);
    assert Volume.Nearest(0.0) == 0 && Volume.Nearest(10000.0) == 10000;
    Volume.NearestClose(x * 100.0);
    var n := Volume.Nearest(x * 100.0) as real;
    assert x * 100.0 - 0.5 <= n <= x * 100.0 + 0.5;
    assert n / 100.0 <= (x * 100.0 + 0.5) / 100.0;
    assert (x * 100.0 - 0.5) / 100.0 <= n / 100.0;
  }

  lemma Round2Monotone(x: real, y: real)
    requires x <= y
    ensures Round2(x) <= Round2(y)
  {
    Volume.NearestMonotone(x * 100.0, y * 100.0);
  }

  /** The percentage before rounding: the volume's share of the full volume, kept in [0, 100]. */
  function ClampedPercent(volume: real, total: real): (p: real)
    requires total > 0.0
    ensures 0.0 <= p <= 100.0
  {
    Max(0.0, Min(100.0, volume / total * 100.0))
  }

  /**
   * getVolumePercent: 0 for an unknown reservoir or a missing, NaN,
   * non-numeric or negative distance (whose volume is 0); otherwise calculateVolumeM3's share of the full volume, in [0, 100]
   * and within half a hundredth of the exact share.
   */
  function GetVolumePercent(sensorId: string, distance: Option<JsNumber>): (r: real)
    ensures GetReservoirConfig(sensorId).None? || AcceptedDistance(distance).None? ==> r == 0.0
    ensures 0.0 <= r <= 100.0
    ensures GetReservoirConfig(sensorId).Some? && distance.Some? ==>
      var p := CalculateVolumeM3(sensorId, distance) / GetReservoirConfig(sensorId).value.volumeMaxM3 * 100.0;
      p - 0.005 <= r <= p + 0.005
  {
    match GetReservoirConfig(sensorId)
    case None => 0.0
    case Some(c) =>
      if distance.None? then 0.0
      else
        var total := c.volumeMaxM3;
        if total <= 0.0 then 0.0
        else
          var v := CalculateVolumeM3(sensorId, distance);
          PercentOfVolume(v, total);
          assert Volume.Nearest(0.0) == 0;
          Round2(ClampedPercent(v, total))
  }

  /** A volume between empty and full is a share the clamp leaves alone. */
  lemma PercentOfVolume(v: real, total: real)
    requires total > 0.0 && 0.0 <= v <= total
    ensures ClampedPercent(v, total) == v / total * 100.0
    ensures 0.0 <= Round2(ClampedPercent(v, total)) <= 100.0
    ensures var p := v / total * 100.0; p - 0.005 <= Round2(ClampedPercent(v, total)) <= p + 0.005
  {
    var q := v / total;
    assert q * total == v;
    assert (1.0 - q) * total == total - v;
    assert 0.0 <= q <= 1.0;
    Round2Bounds(ClampedPercent(v, total));
  }

  /** A reading at the sensor offset shows 100 %. */
  lemma PercentFullAtOffset(sensorId: string)
    requires sensorId in KNOWN_RESERVOIRS
    ensures GetVolumePercent(sensorId, Some(Finite(20.0))) == 100.0
  {
    FullAtOffset(sensorId);
    var c := GetReservoirConfig(sensorId).value;
    assert ClampedPercent(c.volumeMaxM3, c.volumeMaxM3) == 100.0;
    assert Volume.Nearest(10000.0) == 10000;
  }

  /** The percentage, like the volume, never grows with distance. */
  lemma PercentNonIncreasing(sensorId: string, d1: real, d2: real)
    requires 0.0 <= d1 <= d2
    ensures GetVolumePercent(sensorId, Some(Finite(d2))) <= GetVolumePercent(sensorId, Some(Finite(d1)))
  {
    if sensorId in KNOWN_RESERVOIRS {
      var c := GetReservoirConfig(sensorId).value;
      var v1, v2 := CalculateVolumeM3(sensorId, Some(Finite(d1))), CalculateVolumeM3(sensorId, Some(Finite(d2)));
      VolumeNonIncreasing(sensorId, d1, d2);
      Volume.DivMonotone(v2, v1, c.volumeMaxM3);
      assert v2 / c.volumeMaxM3 * 100.0 <= v1 / c.volumeMaxM3 * 100.0;
      Round2Monotone(ClampedPercent(v2, c.volumeMaxM3), ClampedPercent(v1, c.volumeMaxM3));
    }
  }

  const RED := "#ef4444"
  const ORANGE := "#f59e0b"
  const GREEN := "#10b981"

  /** getGaugeColor: red up to 20 %, orange up to 50 %, green above. */
  function GetGaugeColor(percent: real): (color: string)
    ensures color == RED <==> percent <= 20.0
    ensures color == ORANGE <==> 20.0 < percent <= 50.0
    ensures color == GREEN <==> percent > 50.0
  {
    if percent <= 20.0 then RED
    else if percent <= 50.0 then ORANGE
    else GREEN
  }

  /** A full reservoir shows green and an empty one red. */
  lemma GaugeAtExtremes(sensorId: string, d: real)
    requires sensorId in KNOWN_RESERVOIRS
    requires d >= GetReservoirConfig(sensorId).value.nivelMaxCm + 20.0
    ensures GetGaugeColor(GetVolumePercent(sensorId, Some(Finite(20.0)))) == GREEN
    ensures GetGaugeColor(GetVolumePercent(sensorId, Some(Finite(d)))) == RED
  {
    PercentFullAtOffset(sensorId);
    EmptyBeyondFullHeight(sensorId, d);
    assert ClampedPercent(0.0, GetReservoirConfig(sensorId).value.volumeMaxM3) == 0.0;
    assert Volume.Nearest(0.0) == 0;
  }
}
