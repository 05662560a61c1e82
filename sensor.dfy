/**
 * The node's ultrasonic and digital sensors: an echo time becomes a
 * distance in cm×100, readings outside the sensor's range or timed out get
 * negative codes, and the filtered read takes the median of the valid
 * samples among eleven. The GPIO polling is hardware: what it observed is
 * given as an `Echo` per sample and as the three digital levels.
 */
module NodeSensor {
  import opened Wrappers
  import opened MachineInt
  import opened Esp
  import Sorting

  const SENSOR_MIN_DISTANCE_CM := 20
  const SENSOR_MAX_DISTANCE_CM := 450
  const SENSOR_VALUE_MULTIPLIER := 100
  const SENSOR_MEDIAN_SAMPLES := 11
  const MIN_VALID_SAMPLES := 5
  const SENSOR_TIMEOUT_US := 30000
  /** No response, or sensor not initialised. */
  const DIST_TIMEOUT := -1
  /** Outside 20–450 cm. */
  const DIST_OUT_OF_RANGE := -2

  /** What one trigger observed: no echo started, the echo lasted too long, or a pulse of some length. */
  datatype Echo = NoEchoStart | EchoTooLong | Pulse(durationUs: Uint32)

  /**
   * `(duration_us * 343) / 20000` in `uint32_t` arithmetic: half the
   * round trip at 343 m/s, in hundredths of a centimetre.
   */
  function DistanceX100(durationUs: Uint32): (d: nat)
    ensures d < 0x8000_0000
  {
    ((durationUs * 343) % U32) / 20000
  }

  /** Within the timeout the product cannot wrap, so the distance is exact. */
  lemma DistanceWithinTimeout(durationUs: Uint32)
    requires durationUs <= 12_000_000
    ensures DistanceX100(durationUs) == durationUs * 343 / 20000
  {
  }

  /** aguada_sensor_read_distance: -1 before init or on a timeout, -2 out of range, else the distance. */
  function ReadDistance(initialized: bool, echo: Echo): (r: Int32)
    ensures r == DIST_TIMEOUT <==> !initialized || !echo.Pulse?
    ensures r == DIST_OUT_OF_RANGE <==> (initialized && echo.Pulse? &&
      !(SENSOR_MIN_DISTANCE_CM * SENSOR_VALUE_MULTIPLIER <= DistanceX100(echo.durationUs) <=
        SENSOR_MAX_DISTANCE_CM * SENSOR_VALUE_MULTIPLIER))
    ensures r > 0 ==> r == DistanceX100(echo.durationUs)
    ensures r == DIST_TIMEOUT || r == DIST_OUT_OF_RANGE || 2000 <= r <= 45000
  {
    if !initialized then DIST_TIMEOUT
    else match echo
      case NoEchoStart => DIST_TIMEOUT
      case EchoTooLong => DIST_TIMEOUT
      case Pulse(duration) =>
        var d := DistanceX100(duration);
        if d < SENSOR_MIN_DISTANCE_CM * SENSOR_VALUE_MULTIPLIER || d > SENSOR_MAX_DISTANCE_CM * SENSOR_VALUE_MULTIPLIER
        then DIST_OUT_OF_RANGE
        else d
  }

  /** The readings of a sequence of triggers. */
  function Readings(initialized: bool, echoes: seq<Echo>): (r: seq<Int32>)
    ensures |r| == |echoes|
    ensures forall i :: 0 <= i < |r| ==> r[i] == ReadDistance(initialized, echoes[i])
  {
    if echoes == [] then [] else Readings(initialized, echoes[..|echoes| - 1]) + [ReadDistance(initialized, echoes[|echoes| - 1])]
  }

  /** The positive readings, in order. */
  function Positives(s: seq<int>): (r: seq<int>)
    ensures |r| <= |s|
  {
    if s == [] then []
    else if s[|s| - 1] > 0 then Positives(s[..|s| - 1]) + [s[|s| - 1]] else Positives(s[..|s| - 1])
  }

  /** The positives are exactly the values of `s` above zero. */
  lemma {:induction false} PositivesMembers(s: seq<int>)
    ensures forall x :: x in Positives(s) <==> x in s && x > 0
  {
    if s != [] {
      PositivesMembers(s[..|s| - 1]);
      assert s == s[..|s| - 1] + [s[|s| - 1]];
    }
  }

  /** One more reading is added to the positives when it is positive. */
  lemma PositivesStep(rs: seq<int>, i: nat)
    requires i < |rs|
    ensures Positives(rs[..i + 1]) == if rs[i] > 0 then Positives(rs[..i]) + [rs[i]] else Positives(rs[..i])
  {
    assert rs[..i + 1][..i] == rs[..i];
  }

  /** The filtered distance for the given valid samples: -1 for fewer than five, else the sorted middle. */
  function Filtered(valid: seq<int>): (r: int)
    ensures |valid| < MIN_VALID_SAMPLES ==> r == DIST_TIMEOUT
    ensures |valid| >= MIN_VALID_SAMPLES ==> r in valid
  {
    if |valid| < MIN_VALID_SAMPLES then DIST_TIMEOUT
    else
      var sorted := Sorting.SortBy(valid, Sorting.IntLe);
      assert sorted[|valid| / 2] in multiset(sorted);
      sorted[|valid| / 2]
  }

  /** The number of values in `s` below `v`, and above it. */
  function CountBelow(s: seq<int>, v: int): nat
  {
    if s == [] then 0 else (if s[0] < v then 1 else 0) + CountBelow(s[1..], v)
  }

  function CountAbove(s: seq<int>, v: int): nat
  {
    if s == [] then 0 else (if s[0] > v then 1 else 0) + CountAbove(s[1..], v)
  }

  /**
   * In an ascending sequence nothing before position `m` is above its
   * element and nothing after is below: at most `m` values are smaller and
   * at most `|s| - m - 1` larger.
   */
  lemma {:induction false} SortedRank(s: seq<int>, m: nat)
    requires m < |s| && Sorting.SortedBy(s, Sorting.IntLe)
    ensures CountBelow(s, s[m]) <= m
    ensures CountAbove(s, s[m]) <= |s| - m - 1
  {
    if m > 0 {
      assert Sorting.SortedBy(s[1..], Sorting.IntLe);
      assert s[1..][m - 1] == s[m];
      SortedRank(s[1..], m - 1);
    } else {
      NoneBelowHead(s);
    }
  }

  lemma {:induction false} NoneBelowHead(s: seq<int>)
    requires |s| > 0 && Sorting.SortedBy(s, Sorting.IntLe)
    ensures CountBelow(s, s[0]) == 0
    ensures CountAbove(s, s[0]) <= |s| - 1
  {
    var v := s[0];
    var t := s[1..];
    assert forall k :: 0 <= k < |t| ==> v <= t[k] by {
      forall k | 0 <= k < |t| ensures v <= t[k] {
        assert Sorting.IntLe(s[0], s[k + 1]);
      }
    }
    NotBelow(t, v);
    AtMostLength(t, v);
  }

  lemma {:induction false} NotBelow(t: seq<int>, v: int)
    requires forall k :: 0 <= k < |t| ==> v <= t[k]
    ensures CountBelow(t, v) == 0
  {
    if t != [] {
      NotBelow(t[1..], v);
    }
  }

  lemma {:induction false} AtMostLength(t: seq<int>, v: int)
    ensures CountAbove(t, v) <= |t|
  {
    if t != [] {
      AtMostLength(t[1..], v);
    }
  }

  /**
   * The filtered read is -1 exactly when fewer than five samples were
   * valid; otherwise it is one of the valid samples, in the sensor's
   * range, and the upper median of the sorted samples: no more than half
   * of them lie below it and no more than the rest above.
   */
  lemma FilteredIsUpperMedian(valid: seq<int>)
    requires forall k :: 0 <= k < |valid| ==> 2000 <= valid[k] <= 45000
    ensures Filtered(valid) == DIST_TIMEOUT <==> |valid| < MIN_VALID_SAMPLES
    ensures |valid| >= MIN_VALID_SAMPLES ==>
      var sorted := Sorting.SortBy(valid, Sorting.IntLe);
      Filtered(valid) in valid && 2000 <= Filtered(valid) <= 45000 &&
      Sorting.SortedBy(sorted, Sorting.IntLe) && multiset(sorted) == multiset(valid) &&
      CountBelow(sorted, Filtered(valid)) <= |valid| / 2 &&
      CountAbove(sorted, Filtered(valid)) <= |valid| - |valid| / 2 - 1
  {
    if |valid| >= MIN_VALID_SAMPLES {
      var sorted := Sorting.SortBy(valid, Sorting.IntLe);
      Sorting.IntLeTotalOrder();
      Sorting.SortBySorted(valid, Sorting.IntLe);
      assert sorted[|valid| / 2] in multiset(valid);
      SortedRank(sorted, |valid| / 2);
    }
  }

  /** qsort's comparator `*a - *b` cannot overflow on two valid samples, so it orders them as `<=` does. */
  lemma ComparatorExact(a: int, b: int)
    requires 2000 <= a <= 45000 && 2000 <= b <= 45000
    ensures -0x8000_0000 <= a - b < 0x8000_0000
    ensures a - b <= 0 <==> Sorting.IntLe(a, b)
  {
  }

  /** `samples[valid_count++] = dist` for a positive reading: the kept samples gain it at the end. */
  method Keep(samples: array<int>, validCount: nat, i: nat, dist: int, ghost kept: seq<int>) returns (newCount: nat)
    requires validCount <= i < samples.Length && samples[..validCount] == kept
    modifies samples
    ensures newCount <= i + 1
    ensures samples[..newCount] == if dist > 0 then kept + [dist] else kept
  {
    newCount := validCount;
    if dist > 0 {
      samples[validCount] := dist;
      newCount := validCount + 1;
      assert samples[..newCount] == kept + [dist];
    }
  }

  /** The sampling loop: the positive readings of the triggers, in order, at the front of `samples`. */
  method CollectSamples(initialized: bool, echoes: seq<Echo>, samples: array<int>) returns (validCount: nat)
    requires |echoes| == samples.Length
    modifies samples
    ensures validCount <= samples.Length
    ensures samples[..validCount] == Positives(Readings(initialized, echoes))
  {
    ghost var rs := Readings(initialized, echoes);
    validCount := 0;
    var i := 0;
    while i < samples.Length
      invariant 0 <= validCount <= i <= samples.Length
      invariant samples[..validCount] == Positives(rs[..i])
    {
      var dist := ReadDistance(initialized, echoes[i]);
      assert dist == rs[i];
      PositivesStep(rs, i);
      validCount := Keep(samples, validCount, i, dist, Positives(rs[..i]));
      i := i + 1;
    }
    assert rs[..samples.Length] == rs;
  }

  /**
   * aguada_sensor_read_distance_filtered: eleven reads, the positive ones
   * kept in a local array, then fewer than five gives -1 and otherwise the
   * array's valid prefix is sorted in place and its middle returned.
   */
  method ReadDistanceFiltered(initialized: bool, echoes: seq<Echo>) returns (median: int)
    requires |echoes| == SENSOR_MEDIAN_SAMPLES
    ensures median == Filtered(Positives(Readings(initialized, echoes)))
  {
    var samples := new int[SENSOR_MEDIAN_SAMPLES];
    var validCount := CollectSamples(initialized, echoes, samples);
    if validCount < MIN_VALID_SAMPLES {
      return DIST_TIMEOUT;
    }
    var sorted := Sorting.SortBy(samples[..validCount], Sorting.IntLe);
    forall k | 0 <= k < validCount {
      samples[k] := sorted[k];
    }
    assert samples[..validCount] == sorted;
    median := samples[validCount / 2];
  }

  /** The sampled readings are all in range, so the filtered read is -1 or a distance, never -2. */
  lemma FilteredNeverOutOfRange(initialized: bool, echoes: seq<Echo>)
    ensures var f := Filtered(Positives(Readings(initialized, echoes)));
      f == DIST_TIMEOUT || 2000 <= f <= 45000
  {
    var valid := Positives(Readings(initialized, echoes));
    PositivesMembers(Readings(initialized, echoes));
    forall k | 0 <= k < |valid|
      ensures 2000 <= valid[k] <= 45000
    {
      assert valid[k] in valid;
    }
    FilteredIsUpperMedian(valid);
  }

  /** aguada_sensor_read_digital: the pin's level, or 0 before the driver is initialised. */
  function ReadDigital(initialized: bool, level: bool): (r: Byte)
    ensures r == 1 <==> initialized && level
    ensures r <= 1
  {
    if initialized && level then 1 else 0
  }

  /** aguada_sensor_data_t */
  datatype SensorData = SensorData(distanceCmX100: Int32, valveIn: Byte, valveOut: Byte, soundIn: Byte, timestampUs: int)

  /** The digital levels and the clock the hardware shows during one read_all. */
  datatype Inputs = Inputs(echoes: seq<Echo>, valveIn: bool, valveOut: bool, soundIn: bool, timestampUs: int)

  /**
   * The record a successful read_all fills in: the filtered distance, which
   * is -1 or a distance in range and never the out-of-range code, and the
   * three digital levels as 0 or 1.
   */
  function Sampled(hw: Inputs): (d: SensorData)
    ensures d.distanceCmX100 == DIST_TIMEOUT || 2000 <= d.distanceCmX100 <= 45000
    ensures d.distanceCmX100 == Filtered(Positives(Readings(true, hw.echoes)))
    ensures d.valveIn <= 1 && d.valveOut <= 1 && d.soundIn <= 1
    ensures d.valveIn == 1 <==> hw.valveIn
    ensures d.timestampUs == hw.timestampUs
  {
    FilteredNeverOutOfRange(true, hw.echoes);
    SensorData(Filtered(Positives(Readings(true, hw.echoes))),
      ReadDigital(true, hw.valveIn), ReadDigital(true, hw.valveOut), ReadDigital(true, hw.soundIn), hw.timestampUs)
  }

  /**
   * aguada_sensor_read_all: a missing record is an invalid argument and an
   * uninitialised driver an invalid state, both leaving the record as it
   * was; otherwise every field is filled from the sensors.
   */
  method ReadAll(data: Option<SensorData>, initialized: bool, hw: Inputs) returns (err: EspErr, out: Option<SensorData>)
    requires |hw.echoes| == SENSOR_MEDIAN_SAMPLES
    ensures data.None? ==> err == InvalidArg && out == data
    ensures data.Some? && !initialized ==> err == InvalidState && out == data
    ensures data.Some? && initialized ==> err == Ok && out == Some(Sampled(hw))
  {
    if data.None? {
      return InvalidArg, data;
    }
    if !initialized {
      return InvalidState, data;
    }
    var distance := ReadDistanceFiltered(initialized, hw.echoes);
    FilteredNeverOutOfRange(true, hw.echoes);
    var valveIn := ReadDigital(initialized, hw.valveIn);
    var valveOut := ReadDigital(initialized, hw.valveOut);
    var soundIn := ReadDigital(initialized, hw.soundIn);
    return Ok, Some(SensorData(distance, valveIn, valveOut, soundIn, hw.timestampUs));
  }
}
