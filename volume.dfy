/**
 * The backend volume calculator (backend/src/services/volume.service.js):
 * level and geometry to volume and fill percentage, the median of a window
 * and the population variance behind the standard deviation.
 * JavaScript numbers are reals; `Math.sqrt` is not modelled, so the standard
 * deviation is represented by its square (see StdDevExceeds).
 */
module Volume {
  import opened Wrappers
  import Sorting

  /** JavaScript's `Math.PI`. */
  const PI: real := 3.141592653589793

  /** `x || 0` on an optional numeric column. */
  function OrZero(x: Option<real>): real
  {
    match x
    case Some(v) => v
    case None => 0.0
  }

  /**
   * The keys of `elementos.parametros` the backend reads: the calculator's,
   * and `hsensor_cm`, read only by the manual level conversion.
   */
  datatype ElementoParametros = ElementoParametros(
    forma: string,
    altura_cm: Option<real>,
    diametro_cm: real,
    largura_cm: Option<real>,
    comprimento_cm: Option<real>,
    offset_cm: Option<real>,
    hsensor_cm: Option<real>)

  datatype VolumeData = VolumeData(volume_m3: real, percentual: real)

  const NoVolume := VolumeData(0.0, 0.0)

  /** The integer nearest to `y`, halves rounded up. */
  function Nearest(y: real): int
  {
    (y + 0.5).Floor
  }

  lemma NearestClose(y: real)
    ensures y - 0.5 < Nearest(y) as real <= y + 0.5
  {
  }

  lemma NearestMonotone(y: real, z: real)
    requires y <= z
    ensures Nearest(y) <= Nearest(z)
  {
    var u, v := y + 0.5, z + 0.5;
    assert u.Floor as real <= u <= v < v.Floor as real + 1.0;
    assert (u.Floor as real) < (v.Floor + 1) as real;
  }

  /**
   * `parseFloat(x.toFixed(d))` with scale = 10^d: toFixed rounds the
   * magnitude half up and keeps the sign.
   */
  function ToFixed(x: real, scale: real): real
    requires scale > 0.0
  {
    if x < 0.0 then -(Nearest(-x * scale) as real / scale)
    else Nearest(x * scale) as real / scale
  }

  lemma DivMonotone(a: real, b: real, c: real)
    requires a <= b && c > 0.0
    ensures a / c <= b / c
  {
    var q := (b - a) / c;
    assert q * c == b - a;
    if q < 0.0 {
      assert q * c < 0.0;
    }
  }

  /** Rounding moves a value by at most half a unit of the last kept digit. */
  lemma ToFixedClose(x: real, scale: real)
    requires scale > 0.0
    ensures -(0.5 / scale) <= ToFixed(x, scale) - x <= 0.5 / scale
  {
    if x < 0.0 {
      ScaledNearestClose(-x, scale);
    } else {
      ScaledNearestClose(x, scale);
    }
  }

  lemma ScaledNearestClose(y: real, scale: real)
    requires scale > 0.0
    ensures y - 0.5 / scale <= Nearest(y * scale) as real / scale <= y + 0.5 / scale
  {
    NearestClose(y * scale);
    var n := Nearest(y * scale) as real;
    DivMonotone(n, y * scale + 0.5, scale);
    DivMonotone(y * scale - 0.5, n, scale);
    assert (y * scale + 0.5) / scale == y + 0.5 / scale;
    assert (y * scale - 0.5) / scale == y - 0.5 / scale;
  }

  lemma ToFixedMonotone(x: real, y: real, scale: real)
    requires scale > 0.0 && 0.0 <= x <= y
    ensures ToFixed(x, scale) <= ToFixed(y, scale)
  {
    assert x * scale <= y * scale;
    NearestMonotone(x * scale, y * scale);
    DivMonotone(Nearest(x * scale) as real, Nearest(y * scale) as real, scale);
  }

  lemma ToFixedPercentBounds()
    ensures ToFixed(0.0, 100.0) == 0.0 && ToFixed(100.0, 100.0) == 100.0
  {
    assert Nearest(0.0) == 0;
    assert Nearest(10000.0) == 10000;
  }

  /** Level above the sensor offset, `nivelCm - (offset_cm || 0)`. */
  function NivelReal(nivelCm: real, p: ElementoParametros): real
  {
    nivelCm - OrZero(p.offset_cm)
  }

  /** Usable height, `(altura_cm || 0) - (offset_cm || 0)`. */
  function AlturaMaxima(p: ElementoParametros): real
  {
    OrZero(p.altura_cm) - OrZero(p.offset_cm)
  }

  predicate KnownForma(forma: string)
  {
    forma == "cilindrica" || forma == "retangular"
  }

  /** Geometric volume in m³ of a tank filled to `nivel` cm: a cylinder π r² h or a box l w h. */
  function GeometricVolume(nivel: real, p: ElementoParametros): real
  {
    if p.forma == "cilindrica" then
      var raio := (p.diametro_cm / 2.0) / 100.0;
      PI * (raio * raio) * (nivel / 100.0)
    else
      (OrZero(p.largura_cm) / 100.0) * (OrZero(p.comprimento_cm) / 100.0) * (nivel / 100.0)
  }

  /** Fill percentage of the usable height, before the cap at 100. */
  function RawPercent(nivel: real, p: ElementoParametros): real
  {
    if AlturaMaxima(p) > 0.0 then (nivel / AlturaMaxima(p)) * 100.0 else 0.0
  }

  function Min(a: real, b: real): real { if a <= b then a else b }

  /**
   * calculateVolume: nothing for a level below the offset or an unknown
   * shape; otherwise the geometric volume to 3 decimals and the fill
   * percentage, capped at 100, to 2 decimals.
   */
  function CalculateVolume(nivelCm: real, p: ElementoParametros): (r: VolumeData)
    ensures NivelReal(nivelCm, p) < 0.0 || !KnownForma(p.forma) ==> r == NoVolume
    ensures NivelReal(nivelCm, p) >= 0.0 && KnownForma(p.forma) ==>
      -0.0005 <= r.volume_m3 - GeometricVolume(NivelReal(nivelCm, p), p) <= 0.0005 &&
      -0.005 <= r.percentual - Min(RawPercent(NivelReal(nivelCm, p), p), 100.0) <= 0.005
    ensures 0.0 <= r.percentual <= 100.0
    ensures AlturaMaxima(p) <= 0.0 ==> r.percentual == 0.0
  {
    var nivelReal := NivelReal(nivelCm, p);
    if nivelReal < 0.0 || !KnownForma(p.forma) then NoVolume
    else
      var volume := GeometricVolume(nivelReal, p);
      var percent := Min(RawPercent(nivelReal, p), 100.0);
      assert percent >= 0.0 by {
        if AlturaMaxima(p) > 0.0 { assert nivelReal / AlturaMaxima(p) >= 0.0; }
      }
      ToFixedClose(volume, 1000.0);
      ToFixedClose(percent, 100.0);
      ToFixedMonotone(percent, 100.0, 100.0);
      ToFixedPercentBounds();
      ToFixedMonotone(0.0, percent, 100.0);
      VolumeData(ToFixed(volume, 1000.0), ToFixed(percent, 100.0))
  }

  /** A fuller tank never holds less water (dimensions non-negative). */
  lemma GeometricVolumeMonotone(n1: real, n2: real, p: ElementoParametros)
    requires 0.0 <= n1 <= n2
    requires OrZero(p.largura_cm) >= 0.0 && OrZero(p.comprimento_cm) >= 0.0
    ensures 0.0 <= GeometricVolume(n1, p) <= GeometricVolume(n2, p)
  {
    if p.forma == "cilindrica" {
      var raio := (p.diametro_cm / 2.0) / 100.0;
      var k := PI * (raio * raio);
      assert k >= 0.0;
      assert k * (n1 / 100.0) <= k * (n2 / 100.0);
    } else {
      var k := (OrZero(p.largura_cm) / 100.0) * (OrZero(p.comprimento_cm) / 100.0);
      assert k >= 0.0;
      assert k * (n1 / 100.0) <= k * (n2 / 100.0);
    }
  }

  /** The middle of a sorted sequence, or the mean of its two middles when its length is even. */
  function Middle(sorted: seq<real>): real
    requires |sorted| > 0
  {
    var mid := |sorted| / 2;
    if |sorted| % 2 == 0 then (sorted[mid - 1] + sorted[mid]) / 2.0 else sorted[mid]
  }

  /** calculateMedian: 0 for no values, else the middle of a sorted copy. */
  function Median(values: seq<real>): real
  {
    if |values| == 0 then 0.0 else Middle(Sorting.SortBy(values, Sorting.RealLe))
  }

  /** The median depends only on which values were given, not on their order. */
  lemma MedianOrderIndependent(a: seq<real>, b: seq<real>)
    requires multiset(a) == multiset(b)
    ensures Median(a) == Median(b)
  {
    Sorting.RealLeTotalOrder();
    Sorting.SortByPermutation(a, b, Sorting.RealLe);
    assert |a| == |multiset(a)| == |b|;
  }

  /** On already sorted input the median is read off directly. */
  lemma MedianOfSorted(values: seq<real>)
    requires |values| > 0 && Sorting.SortedBy(values, Sorting.RealLe)
    ensures var mid := |values| / 2;
      Median(values) == if |values| % 2 == 0 then (values[mid - 1] + values[mid]) / 2.0 else values[mid]
  {
    Sorting.RealLeTotalOrder();
    Sorting.SortByUnique(values, values, Sorting.RealLe);
  }

  /** The median lies between two of the values; for an odd count it is one of them. */
  lemma MedianWithinValues(values: seq<real>)
    requires |values| > 0
    ensures exists i, j :: 0 <= i < |values| && 0 <= j < |values| && values[i] <= Median(values) <= values[j]
    ensures |values| % 2 == 1 ==> Median(values) in values
  {
    var sorted := Sorting.SortBy(values, Sorting.RealLe);
    Sorting.SortedReals(values);
    var mid := |sorted| / 2;
    var lo := if |sorted| % 2 == 0 then mid - 1 else mid;
    assert sorted[lo] <= Median(values) <= sorted[mid];
    assert sorted[lo] in multiset(values) && sorted[mid] in multiset(values);
    var i :| 0 <= i < |values| && values[i] == sorted[lo];
    var j :| 0 <= j < |values| && values[j] == sorted[mid];
  }

  function Sum(values: seq<real>): real
  {
    if values == [] then 0.0 else values[0] + Sum(values[1..])
  }

  function Mean(values: seq<real>): real
  {
    if |values| == 0 then 0.0 else Sum(values) / |values| as real
  }

  function SumSquaredDeviations(values: seq<real>, mean: real): (r: real)
    ensures r >= 0.0
  {
    if values == [] then 0.0
    else
      var d := values[0] - mean;
      assert d * d >= 0.0 by { if d < 0.0 { assert d * d == (-d) * (-d); } }
      d * d + SumSquaredDeviations(values[1..], mean)
  }

  /** Population variance (divided by n), the square of calculateStdDev; 0 for no values. */
  function Variance(values: seq<real>): (v: real)
    ensures v >= 0.0
  {
    if |values| == 0 then 0.0
    else SumSquaredDeviations(values, Mean(values)) / |values| as real
  }

  /** `sd` is what `calculateStdDev(values)` returns: the non-negative square root of the variance. */
  ghost predicate IsStdDev(values: seq<real>, sd: real)
  {
    sd >= 0.0 && sd * sd == Variance(values)
  }

  /** `calculateStdDev(values) > threshold`, decided without a square root. */
  predicate StdDevExceeds(values: seq<real>, threshold: real)
  {
    Variance(values) > threshold * threshold
  }

  /** Comparing the variance with threshold² decides the same as comparing the deviation with the threshold. */
  lemma StdDevExceedsIff(values: seq<real>, sd: real, threshold: real)
    requires IsStdDev(values, sd) && threshold >= 0.0
    ensures StdDevExceeds(values, threshold) <==> sd > threshold
  {
    if sd > threshold {
      SquareBelow(threshold, sd);
    } else {
      SquareAtMost(sd, threshold);
    }
  }

  lemma SquareBelow(a: real, b: real)
    requires 0.0 <= a < b
    ensures a * a < b * b
  {
    var d := b - a;
    assert b * b == a * a + 2.0 * a * d + d * d;
    assert a * d >= 0.0 && d * d > 0.0;
  }

  lemma SquareAtMost(a: real, b: real)
    requires 0.0 <= a <= b
    ensures a * a <= b * b
  {
    var d := b - a;
    assert b * b == a * a + 2.0 * a * d + d * d;
    assert a * d >= 0.0 && d * d >= 0.0;
  }

  lemma {:induction false} SumSquaredOfConstant(values: seq<real>, c: real)
    requires forall i :: 0 <= i < |values| ==> values[i] == c
    ensures SumSquaredDeviations(values, c) == 0.0
    ensures Sum(values) == |values| as real * c
  {
    if values != [] {
      SumSquaredOfConstant(values[1..], c);
    }
  }

  /** A window of identical readings has zero deviation, so it always counts as stable. */
  lemma VarianceOfConstant(values: seq<real>, c: real)
    requires forall i :: 0 <= i < |values| ==> values[i] == c
    ensures Variance(values) == 0.0
  {
    SumSquaredOfConstant(values, c);
    if |values| > 0 {
      assert Mean(values) == c;
    }
  }
}
