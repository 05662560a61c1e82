/**
 * The React dashboard's calculators (frontend-react/src/utils/calculations.ts):
 * volume in litres from a level and the tank's shape, fill percentage,
 * indicator colour and the refilling flag. Numbers are reals.
 */
module ReactCalc {
  import Wrappers
  import Volume

  /** The shape fields of a `Reservoir`; an absent optional dimension is `None`. */
  datatype Reservoir = Reservoir(kind: string, diameterCm: Wrappers.Option<real>, lengthCm: Wrappers.Option<real>, widthCm: Wrappers.Option<real>)

  /** `x || 0` on an optional dimension. */
  function OrZero(x: Wrappers.Option<real>): real
  {
    match x
    case Some(v) => v
    case None => 0.0
  }

  /** The volume of one centimetre of water in cm³: the base area. */
  function BaseAreaCm2(r: Reservoir): real
  {
    if r.kind == "cylindrical" then
      var radius := OrZero(r.diameterCm) / 2.0;
      Volume.PI * radius * radius
    else OrZero(r.lengthCm) * OrZero(r.widthCm)
  }

  /**
   * calculateVolume: a cylinder's π r² h, anything else a box's l w h, in
   * cm³ over 1000 (litres). Nothing is clamped.
   */
  function CalculateVolume(nivelCm: real, r: Reservoir): (litres: real)
    ensures litres == BaseAreaCm2(r) * nivelCm / 1000.0
  {
    if r.kind == "cylindrical" then
      var radiusCm := OrZero(r.diameterCm) / 2.0;
      var volumeCm3 := Volume.PI * radiusCm * radiusCm * nivelCm;
      volumeCm3 / 1000.0
    else
      var volumeCm3 := OrZero(r.lengthCm) * OrZero(r.widthCm) * nivelCm;
      volumeCm3 / 1000.0
  }

  /** The volume is linear in the level: the sum of two levels holds the sum of their volumes. */
  lemma VolumeAdditive(a: real, b: real, r: Reservoir)
    ensures CalculateVolume(a + b, r) == CalculateVolume(a, r) + CalculateVolume(b, r)
  {
    var k := BaseAreaCm2(r);
    assert k * (a + b) == k * a + k * b;
  }

  /** With no dimensions the volume is 0 whatever the level. */
  lemma MissingDimensionsGiveZero(nivelCm: real, r: Reservoir)
    requires r.kind == "cylindrical" ==> OrZero(r.diameterCm) == 0.0
    requires r.kind != "cylindrical" ==> OrZero(r.lengthCm) == 0.0
    ensures CalculateVolume(nivelCm, r) == 0.0
  {
  }

  /** No clamp: a level below zero in a real tank gives a negative volume. */
  lemma NegativeLevelNegativeVolume(nivelCm: real, r: Reservoir)
    requires nivelCm < 0.0 && BaseAreaCm2(r) > 0.0
    ensures CalculateVolume(nivelCm, r) < 0.0
  {
    assert BaseAreaCm2(r) * nivelCm < 0.0;
  }

  /**
   * The litres agree with the backend calculator's cubic metres for the
   * same tank: a thousand litres per m³.
   */
  lemma AgreesWithBackend(nivelCm: real, r: Reservoir, p: Volume.ElementoParametros)
    requires r.kind == "cylindrical" <==> p.forma == "cilindrica"
    requires r.kind == "cylindrical" ==> p.diametro_cm == OrZero(r.diameterCm)
    requires r.kind != "cylindrical" ==> Volume.OrZero(p.comprimento_cm) == OrZero(r.lengthCm) &&
                                         Volume.OrZero(p.largura_cm) == OrZero(r.widthCm)
    ensures CalculateVolume(nivelCm, r) == 1000.0 * Volume.GeometricVolume(nivelCm, p)
  {
    if r.kind == "cylindrical" {
      var d := p.diametro_cm;
      var raio := (d / 2.0) / 100.0;
      assert raio * raio == (d / 2.0) * (d / 2.0) / 10000.0;
      assert Volume.PI * (raio * raio) * (nivelCm / 100.0) ==
        Volume.PI * (d / 2.0) * (d / 2.0) * nivelCm / 1000000.0;
    } else {
      var l, w := OrZero(r.lengthCm), OrZero(r.widthCm);
      assert (w / 100.0) * (l / 100.0) * (nivelCm / 100.0) == l * w * nivelCm / 1000000.0;
    }
  }

  function Min(a: real, b: real): real { if a <= b then a else b }
  function Max(a: real, b: real): real { if a >= b then a else b }

  /**
   * calculatePercentage: 0 for a zero height, otherwise the level's share
   * of the height in percent, kept in [0, 100].
   */
  function CalculatePercentage(nivelCm: real, alturaTotalCm: real): (p: real)
    ensures 0.0 <= p <= 100.0
    ensures alturaTotalCm == 0.0 ==> p == 0.0
  {
    if alturaTotalCm == 0.0 then 0.0
    else Max(0.0, Min(100.0, nivelCm / alturaTotalCm * 100.0))
  }

  /** A level within the height is its exact share; an overfull one reads 100. */
  lemma PercentageExactWithinHeight(nivelCm: real, alturaTotalCm: real)
    requires alturaTotalCm > 0.0
    ensures 0.0 <= nivelCm <= alturaTotalCm ==> CalculatePercentage(nivelCm, alturaTotalCm) == nivelCm / alturaTotalCm * 100.0
    ensures nivelCm >= alturaTotalCm ==> CalculatePercentage(nivelCm, alturaTotalCm) == 100.0
    ensures nivelCm <= 0.0 ==> CalculatePercentage(nivelCm, alturaTotalCm) == 0.0
  {
    var q := nivelCm / alturaTotalCm;
    assert q * alturaTotalCm == nivelCm;
    assert (1.0 - q) * alturaTotalCm == alturaTotalCm - nivelCm;
  }

  /** For a positive height the percentage never falls as the level rises. */
  lemma PercentageMonotone(n1: real, n2: real, alturaTotalCm: real)
    requires alturaTotalCm > 0.0 && n1 <= n2
    ensures CalculatePercentage(n1, alturaTotalCm) <= CalculatePercentage(n2, alturaTotalCm)
  {
    Volume.DivMonotone(n1, n2, alturaTotalCm);
  }

  datatype LevelColor = Success | Warning | Error | Info

  /** getLevelColor: under 10 % error, under 30 % warning, else success; never info. */
  function GetLevelColor(percentage: real): (c: LevelColor)
    ensures c != Info
    ensures c == Error <==> percentage < 10.0
    ensures c == Warning <==> 10.0 <= percentage < 30.0
    ensures c == Success <==> percentage >= 30.0
  {
    if percentage < 10.0 then Error
    else if percentage < 30.0 then Warning
    else Success
  }

  /** The colour's severity, 2 for error down to 0 for success. */
  function Severity(c: LevelColor): nat
  {
    match c
    case Error => 2
    case Warning => 1
    case _ => 0
  }

  /** A fuller tank never shows a more severe colour. */
  lemma LevelColorMonotone(p1: real, p2: real)
    requires p1 <= p2
    ensures Severity(GetLevelColor(p2)) <= Severity(GetLevelColor(p1))
  {
  }

  /** The trend argument; `None` when it is not given. */
  datatype Trend = Rising | Falling | Stable

  /** isRefilling: water is heard entering, or the level is rising. */
  function IsRefilling(soundDetected: bool, trend: Wrappers.Option<Trend>): (b: bool)
    ensures b <==> soundDetected || trend == Wrappers.Some(Rising)
  {
    soundDetected || (trend.Some? && trend.value.Rising?)
  }
}
