/**
 * The validation schemas of the ingestion API, as predicates over a typed
 * body: the aggregated telemetry packet, the manual reading and the
 * calibration. Optional fields are `Option`s; numbers are JavaScript
 * numbers, which may be NaN or infinite.
 */
module Schema {
  import opened Wrappers
  import Text

  /** A JavaScript number. */
  datatype JsNumber = Finite(r: real) | NaN | Infinity(positive: bool)

  /** `z.number()`: every number but NaN. */
  predicate IsNumber(n: JsNumber) { !n.NaN? }

  /** `x >= lo` on a JavaScript number. */
  predicate AtLeast(n: JsNumber, lo: real)
  {
    match n
    case Finite(r) => r >= lo
    case NaN => false
    case Infinity(positive) => positive
  }

  /** `x <= hi` on a JavaScript number. */
  predicate AtMost(n: JsNumber, hi: real)
  {
    match n
    case Finite(r) => r <= hi
    case NaN => false
    case Infinity(positive) => !positive
  }

  /**
   * A JavaScript string's `length`, which zod's `max` bounds: UTF-16 code
   * units, so a character above U+FFFF counts twice.
   */
  function Utf16Length(s: string): (n: nat)
    ensures |s| <= n <= 2 * |s|
  {
    if s == [] then 0 else (if s[0] as int > 0xFFFF then 2 else 1) + Utf16Length(s[1..])
  }

  /** On text of the Basic Multilingual Plane the two lengths agree. */
  lemma {:induction false} BmpUtf16Length(s: string)
    requires forall i :: 0 <= i < |s| ==> s[i] as int <= 0xFFFF
    ensures Utf16Length(s) == |s|
  {
    if s != [] {
      BmpUtf16Length(s[1..]);
    }
  }

  /** A character outside it, such as U+1F4A7, takes two units. */
  lemma AstralCharCountsTwice()
    ensures Utf16Length(['\U{1F4A7}']) == 2 && Utf16Length(['a', '\U{1F4A7}']) == 3
  {
  }

  // node_mac: `^([0-9A-Fa-f]{2}:){5}[0-9A-Fa-f]{2}$`.

  /** Six groups of two hexadecimal digits of either case, separated by ':'. */
  predicate ValidMac(s: string)
  {
    |s| == 17 &&
    forall i :: 0 <= i < 17 ==> if i % 3 == 2 then s[i] == ':' else Text.IsHexDigit(s[i])
  }

  function ByteAt(s: string, i: nat): (b: nat)
    requires ValidMac(s) && i < 6
    ensures b < 256
  {
    assert Text.IsHexDigit(s[3 * i]) && Text.IsHexDigit(s[3 * i + 1]);
    Text.HexValue(s[3 * i]).value * 16 + Text.HexValue(s[3 * i + 1]).value
  }

  /** The six bytes a valid MAC text spells. */
  function ParseMac(s: string): (r: Option<seq<nat>>)
    ensures r.Some? <==> ValidMac(s)
    ensures r.Some? ==> |r.value| == 6 && forall i :: 0 <= i < 6 ==> r.value[i] < 256
  {
    if ValidMac(s) then Some(seq(6, i requires 0 <= i < 6 => ByteAt(s, i))) else None
  }

  // datetime: `^\d{4}-\d{2}-\d{2}T\d{2}:\d{2}:\d{2}(\.\d{3})?Z?$`.

  predicate Digit(c: char) { '0' <= c <= '9' }

  /** `YYYY-MM-DDTHH:MM:SS` at the start of `s`: digits and separators only, no ranges. */
  predicate DateTimeHead(s: string)
    requires |s| >= 19
  {
    (forall i :: 0 <= i < 19 && i != 4 && i != 7 && i != 10 && i != 13 && i != 16 ==> Digit(s[i])) &&
    s[4] == '-' && s[7] == '-' && s[10] == 'T' && s[13] == ':' && s[16] == ':'
  }

  /** The timestamp shape: the head, optionally `.mmm`, optionally `Z`, nothing else. */
  predicate IsoShape(s: string)
  {
    |s| >= 19 && DateTimeHead(s) &&
    var rest := s[19..];
    rest == [] || rest == "Z" ||
    (|rest| >= 4 && rest[0] == '.' && Digit(rest[1]) && Digit(rest[2]) && Digit(rest[3]) &&
     (|rest| == 4 || rest[4..] == "Z"))
  }

  /** A shaped timestamp has 19, 20, 23 or 24 characters. */
  lemma IsoShapeLengths(s: string)
    requires IsoShape(s)
    ensures |s| == 19 || |s| == 20 || |s| == 23 || |s| == 24
  {
  }

  /** `n` written with exactly `width` digits, leading zeros kept. */
  function Padded(n: nat, width: nat): (r: string)
    ensures |r| == width && forall i :: 0 <= i < width ==> Digit(r[i])
  {
    if width == 0 then [] else Padded(n / 10, width - 1) + [Text.DigitChar(n % 10)]
  }

  /** `Date.prototype.toISOString` for a year from 0 to 9999. */
  function ToIsoString(year: nat, month: nat, day: nat, hour: nat, minute: nat, second: nat, ms: nat): (s: string)
    ensures |s| == 24
  {
    Padded(year, 4) + "-" + Padded(month, 2) + "-" + Padded(day, 2) + "T" +
    Padded(hour, 2) + ":" + Padded(minute, 2) + ":" + Padded(second, 2) + "." + Padded(ms, 3) + "Z"
  }

  /** What toISOString writes has the timestamp shape. */
  lemma ToIsoStringShape(year: nat, month: nat, day: nat, hour: nat, minute: nat, second: nat, ms: nat)
    ensures IsoShape(ToIsoString(year, month, day, hour, minute, second, ms))
  {
    var s := ToIsoString(year, month, day, hour, minute, second, ms);
    var y, mo, d := Padded(year, 4), Padded(month, 2), Padded(day, 2);
    var h, mi, se, m := Padded(hour, 2), Padded(minute, 2), Padded(second, 2), Padded(ms, 3);
    assert s == y + "-" + mo + "-" + d + "T" + h + ":" + mi + ":" + se + "." + m + "Z";
    assert s[..4] == y && s[5..7] == mo && s[8..10] == d && s[11..13] == h;
    assert s[14..16] == mi && s[17..19] == se && s[20..23] == m;
    assert s[19..] == "." + m + "Z";
    forall i | 0 <= i < 19 && i != 4 && i != 7 && i != 10 && i != 13 && i != 16
      ensures Digit(s[i])
    {
      if i < 4 { assert s[i] == y[i]; }
      else if i < 7 { assert s[i] == mo[i - 5]; }
      else if i < 10 { assert s[i] == d[i - 8]; }
      else if i < 13 { assert s[i] == h[i - 11]; }
      else if i < 16 { assert s[i] == mi[i - 14]; }
      else { assert s[i] == se[i - 17]; }
    }
  }

  /**
   * The datetime refinement: `new Date(val)` (None for an invalid date)
   * is less than one hour from the server clock, either way.
   */
  predicate WithinOneHour(parsed: Option<int>, now: int)
  {
    parsed.Some? && -3600000 < now - parsed.value < 3600000
  }

  // telemetrySchema.

  predicate TelemetryLabel(l: string)
  {
    l == "nivel_cm" || l == "pressao_bar" || l == "vazao_lpm" || l == "temperatura_c"
  }

  /** One reading of `data`; `name` is its `label`. */
  datatype DataItem = DataItem(name: string, value: JsNumber, unit: Option<string>)

  datatype Meta = Meta(battery: Option<JsNumber>, rssi: Option<JsNumber>, uptime: Option<JsNumber>,
                       firmwareVersion: Option<string>)

  /**
   * The aggregated packet: node_mac, datetime, and data. `parsedDatetime`
   * is what `new Date(datetime)` gives on the server.
   */
  datatype Telemetry = Telemetry(nodeMac: string, datetime: string, parsedDatetime: Option<int>,
                                 data: seq<DataItem>, meta: Option<Meta>)

  predicate ValidItem(d: DataItem)
  {
    TelemetryLabel(d.name) && d.value.Finite?
  }

  /** battery in [0, 5], rssi in [-120, 0], uptime at least 0, each when present. */
  predicate ValidMeta(m: Meta)
  {
    (m.battery.None? || (AtLeast(m.battery.value, 0.0) && AtMost(m.battery.value, 5.0))) &&
    (m.rssi.None? || (AtLeast(m.rssi.value, -120.0) && AtMost(m.rssi.value, 0.0))) &&
    (m.uptime.None? || AtLeast(m.uptime.value, 0.0))
  }

  predicate ValidTelemetry(t: Telemetry, now: int)
  {
    ValidMac(t.nodeMac) && IsoShape(t.datetime) && WithinOneHour(t.parsedDatetime, now) &&
    |t.data| >= 1 && (forall i :: 0 <= i < |t.data| ==> ValidItem(t.data[i])) &&
    (t.meta.None? || ValidMeta(t.meta.value))
  }

  /** An infinite uptime passes `nonnegative()`, an infinite battery never passes its bounds. */
  lemma InfinityAtBounds()
    ensures ValidMeta(Meta(None, None, Some(Infinity(true)), None))
    ensures !ValidMeta(Meta(Some(Infinity(true)), None, None, None))
    ensures !ValidMeta(Meta(Some(Infinity(false)), None, None, None))
  {
  }

  // manualReadingSchema.

  predicate ManualVariable(v: string)
  {
    v == "nivel_cm" || v == "pressao_bar" || v == "vazao_lpm"
  }

  /** Every manual variable is a telemetry label; temperature has no manual form. */
  lemma ManualVariablesAreLabels(v: string)
    ensures ManualVariable(v) ==> TelemetryLabel(v)
    ensures !ManualVariable("temperatura_c") && TelemetryLabel("temperatura_c")
  {
  }

  datatype ManualReading = ManualReading(sensorId: string, value: JsNumber, variable: string,
                                         datetime: Option<string>, usuario: string, observacao: Option<string>)

  /** The datetime, when given, is shaped but not checked against the clock. */
  predicate ValidManualReading(m: ManualReading)
  {
    |m.sensorId| >= 1 && IsNumber(m.value) && ManualVariable(m.variable) &&
    (m.datetime.None? || IsoShape(m.datetime.value)) &&
    |m.usuario| >= 1 && (m.observacao.None? || Utf16Length(m.observacao.value) <= 500)
  }

  // calibrationSchema.

  datatype CalibrationInput = CalibrationInput(sensorId: string, valorReferencia: JsNumber, valorSensor: JsNumber,
                                               responsavelUsuarioId: JsNumber, tipo: Option<string>,
                                               observacao: Option<string>)

  datatype Calibration = Calibration(sensorId: string, valorReferencia: JsNumber, valorSensor: JsNumber,
                                     responsavelUsuarioId: int, tipo: string, observacao: Option<string>)

  /** `z.number().int().positive()`. */
  predicate PositiveInt(n: JsNumber)
  {
    n.Finite? && n.r.Floor as real == n.r && n.r > 0.0
  }

  /**
   * validateCalibration: the parsed calibration, with `tipo` defaulting to
   * "manual", when every rule holds; infinite readings pass `z.number()`.
   */
  function ValidateCalibration(c: CalibrationInput): (r: Option<Calibration>)
    ensures r.Some? <==>
      |c.sensorId| >= 1 && !c.valorReferencia.NaN? && !c.valorSensor.NaN? && PositiveInt(c.responsavelUsuarioId) &&
      (c.tipo.None? || c.tipo.value == "manual" || c.tipo.value == "automatica") &&
      (c.observacao.None? || Utf16Length(c.observacao.value) <= 500)
    ensures r.Some? ==>
      (r.value.tipo == c.tipo.UnwrapOr("manual") && r.value.responsavelUsuarioId > 0 &&
      r.value.responsavelUsuarioId as real == c.responsavelUsuarioId.r &&
      r.value.valorReferencia == c.valorReferencia && r.value.valorSensor == c.valorSensor)
  {
    var tipo := c.tipo.UnwrapOr("manual");
    if |c.sensorId| >= 1 && IsNumber(c.valorReferencia) && IsNumber(c.valorSensor) &&
       PositiveInt(c.responsavelUsuarioId) && (tipo == "manual" || tipo == "automatica") &&
       (c.observacao.None? || Utf16Length(c.observacao.value) <= 500)
    then Some(Calibration(c.sensorId, c.valorReferencia, c.valorSensor, c.responsavelUsuarioId.r.Floor,
                          tipo, c.observacao))
    else None
  }

  /** The names telemetry.schema.js exports: the three schemas and their validators. */
  const EXPORTS: set<string> := {"telemetrySchema", "manualReadingSchema", "calibrationSchema",
                                 "validateTelemetry", "validateManualReading", "validateCalibration"}
}
