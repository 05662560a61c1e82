/**
 * The Arduino node `node_10`: valid ultrasonic distances go into an
 * 11-slot ring buffer, and every telemetry period the median of the
 * buffered readings is turned into a volume and a fill percentage for a
 * cylindrical reservoir. Floats are modelled as reals; the sensor driver,
 * WiFi, MQTT/HTTP and the JSON packet are not part of this model.
 */
module Node10 {
  import opened Wrappers
  import Sorting
  import Volume

  const MEDIAN_SAMPLES := 11
  /** The fewest readings sendTelemetry will work with before the buffer has wrapped. */
  const MIN_TELEMETRY_SAMPLES := 3
  /** Arduino's `PI`. */
  const PI: real := 3.1415926535897932384626433832795

  /** The reservoir constants of config_pins.h, in cm. */
  datatype Geometry = Geometry(offsetCm: real, heightCm: real, diameterCm: real)

  /** SENSOR_OFFSET_CM, RESERVOIR_HEIGHT_CM and RESERVOIR_DIAMETER_CM of the consumption reservoir. */
  const RES_CONS := Geometry(40.0, 400.0, 510.0)

  // calculateMedian

  predicate SortedBetween(a: seq<real>, lo: int, hi: int)
    requires 0 <= lo <= hi <= |a|
  {
    forall i, j :: lo <= i < j < hi ==> a[i] <= a[j]
  }

  /** Nothing before `k` is above anything from `k` on. */
  predicate SplitAt(a: seq<real>, k: int)
    requires 0 <= k <= |a|
  {
    forall i, j :: 0 <= i < k <= j < |a| ==> a[i] <= a[j]
  }

  /** One inner pass of the bubble sort: the largest of `a[..end + 1]` ends at `end`. */
  method BubblePass(a: array<real>, end: nat)
    requires end < a.Length
    modifies a
    ensures multiset(a[..]) == multiset(old(a[..]))
    ensures a[end + 1..] == old(a[end + 1..])
    ensures forall k :: 0 <= k <= end ==> a[k] <= a[end]
    ensures multiset(a[..end + 1]) == multiset(old(a[..end + 1]))
  {
    var j := 0;
    while j < end
      invariant 0 <= j <= end
      invariant multiset(a[..]) == multiset(old(a[..]))
      invariant a[end + 1..] == old(a[end + 1..])
      invariant forall k :: 0 <= k <= j ==> a[k] <= a[j]
    {
      if a[j] > a[j + 1] {
        ghost var before := a[..];
        a[j], a[j + 1] := a[j + 1], a[j];
        SwapKeepsSuffix(before, a[..], j, end + 1);
      }
      j := j + 1;
    }
    PrefixMultiset(old(a[..]), a[..], end + 1);
  }

  /** Swapping two neighbours inside the first `n` elements keeps the multiset and what follows `n`. */
  lemma SwapKeepsSuffix(before: seq<real>, after: seq<real>, j: nat, n: nat)
    requires j + 1 < n <= |before|
    requires after == before[j := before[j + 1]][j + 1 := before[j]]
    ensures multiset(after) == multiset(before)
    ensures after[n..] == before[n..]
  {
  }

  /** Equal multisets with equal suffixes have equal prefixes as multisets. */
  lemma PrefixMultiset(before: seq<real>, after: seq<real>, n: nat)
    requires n <= |before| == |after|
    requires multiset(after) == multiset(before) && after[n..] == before[n..]
    ensures multiset(after[..n]) == multiset(before[..n])
  {
    assert before == before[..n] + before[n..];
    assert after == after[..n] + after[n..];
    assert multiset(after[..n]) == multiset(after) - multiset(after[n..]);
    assert multiset(before[..n]) == multiset(before) - multiset(before[n..]);
  }

  /** The bubble sort of calculateMedian: ascending, and a permutation of what was there. */
  method BubbleSort(a: array<real>)
    modifies a
    ensures Sorting.SortedBy(a[..], Sorting.RealLe)
    ensures multiset(a[..]) == multiset(old(a[..]))
  {
    var n := a.Length;
    if n == 0 {
      return;
    }
    var i := 0;
    while i < n - 1
      invariant 0 <= i <= n - 1
      invariant multiset(a[..]) == multiset(old(a[..]))
      invariant SortedBetween(a[..], n - i, n) && SplitAt(a[..], n - i)
    {
      ghost var before := a[..];
      BubblePass(a, n - i - 1);
      PassExtends(before, a[..], n - i - 1);
      i := i + 1;
    }
  }

  /**
   * After a pass that brings the largest of the unsorted prefix to `end`,
   * the sorted suffix and the split both grow by one.
   */
  lemma PassExtends(before: seq<real>, after: seq<real>, end: nat)
    requires end < |before| == |after|
    requires SortedBetween(before, end + 1, |before|) && SplitAt(before, end + 1)
    requires after[end + 1..] == before[end + 1..]
    requires forall k :: 0 <= k <= end ==> after[k] <= after[end]
    requires multiset(after[..end + 1]) == multiset(before[..end + 1])
    ensures SortedBetween(after, end, |after|) && SplitAt(after, end)
  {
    forall k | end + 1 <= k < |after|
      ensures after[k] == before[k]
    {
      assert after[end + 1..][k - end - 1] == before[end + 1..][k - end - 1];
    }
    forall i, j | 0 <= i <= end < j < |after|
      ensures after[i] <= after[j]
    {
      assert after[i] in multiset(before[..end + 1]) by {
        assert after[i] in after[..end + 1];
      }
      var m :| 0 <= m <= end && before[..end + 1][m] == after[i];
      assert before[m] <= before[j];
    }
  }

  /**
   * calculateMedian: on a sorted copy of the first `size` values, the
   * middle one for an odd size and the mean of the two middle ones for an
   * even size, which is the median of those values. sendTelemetry never
   * calls it with no values.
   */
  method CalculateMedian(values: array<real>, size: nat) returns (m: real)
    requires 0 < size <= values.Length
    ensures m == Volume.Median(values[..size])
  {
    var sorted := new real[size];
    forall k | 0 <= k < size {
      sorted[k] := values[k];
    }
    assert sorted[..] == values[..size];
    BubbleSort(sorted);
    if size % 2 == 0 {
      m := (sorted[size / 2 - 1] + sorted[size / 2]) / 2.0;
    } else {
      m := sorted[size / 2];
    }
    Volume.MedianOrderIndependent(values[..size], sorted[..]);
    Volume.MedianOfSorted(sorted[..]);
  }

  // calculateVolume and calculatePercentual

  /** calculateVolume: m³ of a cylinder filled to the level less the sensor offset; 0 below the offset. */
  function CalculateVolume(g: Geometry, nivelCm: real): (r: real)
    ensures r >= 0.0
    ensures nivelCm < g.offsetCm ==> r == 0.0
  {
    var nivelReal := nivelCm - g.offsetCm;
    if nivelReal < 0.0 then 0.0
    else
      var raio := (g.diameterCm / 2.0) / 100.0;
      assert PI * raio * raio >= 0.0 by {
        assert raio * raio >= 0.0;
      }
      PI * raio * raio * (nivelReal / 100.0)
  }

  /** Arduino's constrain. */
  function Constrain(x: real, lo: real, hi: real): real
  {
    if x < lo then lo else if x > hi then hi else x
  }

  /** calculatePercentual: the part of the usable height filled, as a clamped percentage. */
  function CalculatePercentual(g: Geometry, nivelCm: real): (r: real)
    ensures 0.0 <= r <= 100.0
    ensures g.heightCm <= g.offsetCm ==> r == 0.0
    ensures g.heightCm > g.offsetCm && nivelCm >= g.heightCm ==> r == 100.0
  {
    var nivelReal := nivelCm - g.offsetCm;
    var alturaMaxima := g.heightCm - g.offsetCm;
    if alturaMaxima <= 0.0 then 0.0 else Constrain((nivelReal / alturaMaxima) * 100.0, 0.0, 100.0)
  }

  /**
   * The volume is never negative, is 0 up to the offset, and does not
   * shrink as the level rises.
   */
  lemma VolumeMonotone(g: Geometry, a: real, b: real)
    requires a <= b
    ensures 0.0 <= CalculateVolume(g, a) <= CalculateVolume(g, b)
    ensures a < g.offsetCm ==> CalculateVolume(g, a) == 0.0
  {
    var raio := (g.diameterCm / 2.0) / 100.0;
    var k := PI * raio * raio;
    assert k >= 0.0 by {
      assert raio * raio >= 0.0;
    }
    if a - g.offsetCm >= 0.0 {
      var x, y := (a - g.offsetCm) / 100.0, (b - g.offsetCm) / 100.0;
      assert CalculateVolume(g, a) == k * x && CalculateVolume(g, b) == k * y;
      assert k * y - k * x == k * (y - x);
      assert k * (y - x) >= 0.0 by {
        assert y - x >= 0.0;
      }
    }
  }

  lemma DivideByPositive(x: real, y: real, h: real)
    requires h > 0.0 && x <= y
    ensures x / h <= y / h
    ensures x / h <= 0.0 <==> x <= 0.0
    ensures x / h >= 1.0 <==> x >= h
  {
    var q := x / h;
    assert q * h == x;
    assert (y / h) * h == y;
    assert (y / h - q) * h == y - x;
    assert (q - 1.0) * h == x - h;
  }

  /**
   * The percentage stays within 0 and 100, does not fall as the level
   * rises, and for a reservoir taller than its offset is 0 exactly at or
   * below the offset and 100 exactly at or above the full height.
   */
  lemma PercentualShape(g: Geometry, a: real, b: real)
    requires a <= b
    ensures 0.0 <= CalculatePercentual(g, a) <= CalculatePercentual(g, b) <= 100.0
    ensures g.heightCm > g.offsetCm ==> (CalculatePercentual(g, a) == 0.0 <==> a <= g.offsetCm)
    ensures g.heightCm > g.offsetCm ==> (CalculatePercentual(g, b) == 100.0 <==> b >= g.heightCm)
  {
    var h := g.heightCm - g.offsetCm;
    if h > 0.0 {
      DivideByPositive(a - g.offsetCm, b - g.offsetCm, h);
      DivideByPositive(b - g.offsetCm, b - g.offsetCm, h);
    }
  }

  /**
   * Between the offset and the full height the two agree: the volume is
   * that percentage of the full volume.
   */
  lemma VolumeIsPercentOfFull(g: Geometry, nivelCm: real)
    requires g.offsetCm <= nivelCm <= g.heightCm && g.heightCm > g.offsetCm
    ensures CalculateVolume(g, nivelCm) == CalculatePercentual(g, nivelCm) / 100.0 * CalculateVolume(g, g.heightCm)
  {
    var raio := (g.diameterCm / 2.0) / 100.0;
    var k := PI * raio * raio;
    var h := g.heightCm - g.offsetCm;
    var x := nivelCm - g.offsetCm;
    assert 0.0 <= x / h * 100.0 <= 100.0;
    assert CalculatePercentual(g, nivelCm) == x / h * 100.0;
    calc {
      CalculatePercentual(g, nivelCm) / 100.0 * CalculateVolume(g, g.heightCm);
      (x / h * 100.0) / 100.0 * (k * (h / 100.0));
      { assert (x / h * 100.0) / 100.0 == x / h; }
      x / h * (k * (h / 100.0));
      { assert x / h * h == x; }
      k * (x / 100.0);
    }
  }

  /**
   * sendTelemetry feeds the median distance to calculateVolume, whose
   * argument is a level: the model follows the code, so the reported volume
   * grows as the water surface moves away from the sensor.
   */
  lemma VolumeGrowsWithDistance(near: real, far: real)
    requires 40.0 <= near < far
    ensures CalculateVolume(RES_CONS, near) < CalculateVolume(RES_CONS, far)
  {
    var k := PI * 2.55 * 2.55;
    assert k > 0.0;
    assert k * ((near - 40.0) / 100.0) < k * ((far - 40.0) / 100.0);
  }

  // The ring buffer and sendTelemetry

  /** The readings the buffer should hold: the last MEDIAN_SAMPLES, or all of them while fewer. */
  function Latest(h: seq<real>): (r: seq<real>)
    ensures |r| == if |h| < MEDIAN_SAMPLES then |h| else MEDIAN_SAMPLES
  {
    if |h| < MEDIAN_SAMPLES then h else h[|h| - MEDIAN_SAMPLES..]
  }

  /** The buffer's readings in arrival order: from the write index round, once it has wrapped. */
  function InOrder(b: seq<real>, index: nat, filled: bool): seq<real>
    requires index <= |b|
  {
    if filled then b[index..] + b[..index] else b[..index]
  }

  /** Writing at the index and moving it on drops the oldest reading of a full window and appends the new one. */
  lemma RotateStep(b: seq<real>, i: nat, d: real)
    requires |b| == MEDIAN_SAMPLES && i < MEDIAN_SAMPLES
    ensures var next := (i + 1) % MEDIAN_SAMPLES;
      InOrder(b[i := d], next, true) == InOrder(b, i, true)[1..] + [d]
  {
    var next := (i + 1) % MEDIAN_SAMPLES;
    if i + 1 < MEDIAN_SAMPLES {
      assert next == i + 1;
      RotateInside(b, i, d);
    } else {
      assert next == 0 && i == MEDIAN_SAMPLES - 1;
      RotateWrap(b, d);
    }
  }

  lemma RotateInside(b: seq<real>, i: nat, d: real)
    requires |b| == MEDIAN_SAMPLES && i + 1 < MEDIAN_SAMPLES
    ensures b[i := d][i + 1..] + b[i := d][..i + 1] == (b[i..] + b[..i])[1..] + [d]
  {
    var b' := b[i := d];
    assert b'[i + 1..] == b[i + 1..];
    assert b'[..i + 1] == b[..i] + [d];
    assert (b[i..] + b[..i])[1..] == b[i + 1..] + b[..i];
  }

  lemma RotateWrap(b: seq<real>, d: real)
    requires |b| == MEDIAN_SAMPLES
    ensures b[MEDIAN_SAMPLES - 1 := d][0..] + b[MEDIAN_SAMPLES - 1 := d][..0] ==
      (b[MEDIAN_SAMPLES - 1..] + b[..MEDIAN_SAMPLES - 1])[1..] + [d]
  {
    var i := MEDIAN_SAMPLES - 1;
    var b' := b[i := d];
    assert b'[0..] + b'[..0] == b[..i] + [d];
    assert (b[i..] + b[..i])[1..] == b[..i];
  }

  lemma LatestStep(h: seq<real>, d: real)
    ensures |h| >= MEDIAN_SAMPLES ==> Latest(h + [d]) == Latest(h)[1..] + [d]
    ensures |h| < MEDIAN_SAMPLES ==> Latest(h + [d]) == h + [d]
  {
    if |h| >= MEDIAN_SAMPLES {
      assert (h + [d])[|h| + 1 - MEDIAN_SAMPLES..] == h[|h| - MEDIAN_SAMPLES..][1..] + [d];
    }
  }

  /** One stored reading keeps the buffer holding the latest readings in arrival order. */
  lemma WindowStep(b: seq<real>, i: nat, filled: bool, h: seq<real>, d: real)
    requires |b| == MEDIAN_SAMPLES && i < MEDIAN_SAMPLES && i == |h| % MEDIAN_SAMPLES
    requires (filled <==> |h| >= MEDIAN_SAMPLES) && InOrder(b, i, filled) == Latest(h)
    ensures (i + 1) % MEDIAN_SAMPLES == (|h| + 1) % MEDIAN_SAMPLES
    ensures (filled || (i + 1) % MEDIAN_SAMPLES == 0) <==> |h| + 1 >= MEDIAN_SAMPLES
    ensures InOrder(b[i := d], (i + 1) % MEDIAN_SAMPLES, filled || (i + 1) % MEDIAN_SAMPLES == 0) == Latest(h + [d])
  {
    ModStep(|h|);
    LatestStep(h, d);
    if filled {
      RotateStep(b, i, d);
    } else {
      FillStep(b, i, h, d);
    }
  }

  lemma ModStep(n: nat)
    ensures (n % MEDIAN_SAMPLES + 1) % MEDIAN_SAMPLES == (n + 1) % MEDIAN_SAMPLES
  {
  }

  lemma FillStep(b: seq<real>, i: nat, h: seq<real>, d: real)
    requires |b| == MEDIAN_SAMPLES && i < MEDIAN_SAMPLES && i == |h| && b[..i] == h
    ensures b[i := d][..i + 1] == h + [d]
    ensures i + 1 == MEDIAN_SAMPLES ==> b[i := d][(i + 1) % MEDIAN_SAMPLES..] + b[i := d][..(i + 1) % MEDIAN_SAMPLES] == h + [d]
  {
    assert b[i := d][..i + 1] == b[..i] + [d];
  }

  /** What one telemetry period computes from the buffered median. */
  datatype Telemetry = Telemetry(medianCm: real, volumeM3: real, percent: real)

  class ReadingsBuffer {
    /** readingsBuffer */
    const buffer: array<real>
    /** readingsIndex, bufferFilled */
    var readingsIndex: nat
    var bufferFilled: bool
    /** The valid readings stored so far, oldest first. */
    ghost var history: seq<real>

    /**
     * The index is the count of stored readings modulo 11, the buffer is
     * flagged full once 11 have been stored, and in arrival order it holds
     * exactly the latest readings.
     */
    ghost predicate Valid()
      reads this, buffer
    {
      buffer.Length == MEDIAN_SAMPLES && readingsIndex < MEDIAN_SAMPLES &&
      readingsIndex == |history| % MEDIAN_SAMPLES &&
      (bufferFilled <==> |history| >= MEDIAN_SAMPLES) &&
      InOrder(buffer[..], readingsIndex, bufferFilled) == Latest(history)
    }

    /** The globals at boot: a zeroed buffer, index 0, not filled. */
    constructor ()
      ensures Valid() && history == [] && fresh(buffer)
    {
      buffer := new real[MEDIAN_SAMPLES](_ => 0.0);
      readingsIndex := 0;
      bufferFilled := false;
      history := [];
    }

    /**
     * readSensor: a positive distance is written at the index, which moves
     * on modulo 11, and the buffer is flagged full when the index wraps
     * (never cleared again); anything else leaves the buffer as it is.
     */
    method ReadSensor(distance: real)
      requires Valid()
      modifies this`readingsIndex, this`bufferFilled, this`history, buffer
      ensures Valid()
      ensures history == if distance > 0.0 then old(history) + [distance] else old(history)
      ensures old(bufferFilled) ==> bufferFilled
    {
      if distance > 0.0 {
        WindowStep(buffer[..], readingsIndex, bufferFilled, history, distance);
        buffer[readingsIndex] := distance;
        readingsIndex := (readingsIndex + 1) % MEDIAN_SAMPLES;
        if readingsIndex == 0 {
          bufferFilled := true;
        }
        history := history + [distance];
      }
    }

    /**
     * sendTelemetry's computation: nothing while fewer than three readings
     * were ever stored; otherwise the median of the latest readings, and
     * the volume and percentage calculateVolume and calculatePercentual
     * give for it.
     */
    method SendTelemetry(g: Geometry) returns (r: Option<Telemetry>)
      requires Valid()
      ensures r.None? <==> |history| < MIN_TELEMETRY_SAMPLES
      ensures r.Some? ==> var m := Volume.Median(Latest(history));
        r.value == Telemetry(m, CalculateVolume(g, m), CalculatePercentual(g, m))
    {
      if !bufferFilled && readingsIndex < MIN_TELEMETRY_SAMPLES {
        return None;
      }
      var sampleCount := if bufferFilled then MEDIAN_SAMPLES else readingsIndex;
      var median := CalculateMedian(buffer, sampleCount);
      if bufferFilled {
        assert buffer[..sampleCount] == buffer[..];
        assert buffer[..] == buffer[..readingsIndex] + buffer[readingsIndex..];
        Volume.MedianOrderIndependent(buffer[..sampleCount], Latest(history));
      }
      var volumeM3 := CalculateVolume(g, median);
      var percentual := CalculatePercentual(g, median);
      r := Some(Telemetry(median, volumeM3, percentual));
    }
  }
}
