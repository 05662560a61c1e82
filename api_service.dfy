/**
 * The dashboard's API client helpers (frontend/assets/api-service.js): the
 * sensor id to element id mapping, the numeric fallback parser, the
 * normalisation of the latest-readings payload into one record per
 * element, and the freshness check on the local cache.
 * The payload is a sequence of (sensor id, sensor data) pairs in
 * `Object.entries` order; a number is what `Number(...)` makes of a field.
 */
module ApiService {
  import opened Wrappers
  import opened Schema
  import Text
  import Dashboard

  /** The direct sensor id to element id table of _mapSensorToElemento. */
  const SENSOR_TABLE: map<string, string> := map[
    "SEN_CON_01" := "RCON", "SEN_CAV_01" := "RCAV", "SEN_B03_01" := "RB03",
    "SEN_IE01_01" := "IE01", "SEN_IE02_01" := "IE02",
    "RCON_US01" := "RCON", "RCAV_US01" := "RCAV", "RB03_US01" := "RB03",
    "IE01_US01" := "IE01", "IE02_US01" := "IE02"]

  /** A character of the class `[A-Z0-9]`. */
  predicate IdChar(c: char)
  {
    'A' <= c <= 'Z' || '0' <= c <= '9'
  }

  /** Length of the longest prefix of `s` made of `[A-Z0-9]`. */
  function LeadingRun(s: string): (n: nat)
    ensures n <= |s|
    ensures forall i :: 0 <= i < n ==> IdChar(s[i])
    ensures n < |s| ==> !IdChar(s[n])
  {
    if s == [] || !IdChar(s[0]) then 0 else 1 + LeadingRun(s[1..])
  }

  /** `s` starts with `n` characters of `[A-Z0-9]`. */
  predicate IdPrefix(s: string, n: nat)
    requires n <= |s|
  {
    forall i :: 0 <= i < n ==> IdChar(s[i])
  }

  /**
   * The capture of `/^([A-Z0-9]+)_/`: the match exists exactly when some
   * non-empty `[A-Z0-9]` prefix is followed by `_`, and it is that prefix.
   */
  function PatternMatch(s: string): (r: Option<string>)
    ensures r.Some? ==> 0 < |r.value| < |s| && s[..|r.value|] == r.value && s[|r.value|] == '_'
    ensures r.Some? ==> IdPrefix(s, |r.value|)
    ensures r.None? ==> forall n :: 0 < n < |s| && s[n] == '_' ==> !IdPrefix(s, n)
  {
    var n := LeadingRun(s);
    if 0 < n < |s| && s[n] == '_' then Some(s[..n])
    else
      assert forall m :: 0 < m < |s| && s[m] == '_' ==> !IdPrefix(s, m) by {
        forall m | 0 < m < |s| && s[m] == '_' ensures !IdPrefix(s, m) {
          if m <= n { assert !IdChar(s[m]); } else { assert !IdChar(s[n]); }
        }
      }
      None
  }

  /**
   * _mapSensorToElemento: the table's element for a listed id, else the
   * pattern's capture, else the id itself.
   */
  function MapSensorToElemento(sensorId: string): (r: string)
    ensures sensorId in SENSOR_TABLE ==> r == SENSOR_TABLE[sensorId]
    ensures sensorId !in SENSOR_TABLE && PatternMatch(sensorId).Some? ==> r == PatternMatch(sensorId).value
    ensures sensorId !in SENSOR_TABLE && PatternMatch(sensorId).None? ==> r == sensorId
  {
    if sensorId !in SENSOR_TABLE && PatternMatch(sensorId).Some? then PatternMatch(sensorId).value
    else if sensorId in SENSOR_TABLE then SENSOR_TABLE[sensorId]
    else sensorId
  }

  /** Every listed sensor maps to a reservoir the dashboard's table knows. */
  lemma TableNamesKnownReservoirs(sensorId: string)
    requires sensorId in SENSOR_TABLE
    ensures MapSensorToElemento(sensorId) in Dashboard.KNOWN_RESERVOIRS
  {
  }

  /** The mapped id is either one of the table's elements or a prefix of the sensor id. */
  lemma MappedIsTableValueOrPrefix(sensorId: string)
    ensures var r := MapSensorToElemento(sensorId);
      r in SENSOR_TABLE.Values || Text.StartsWith(sensorId, r)
  {
  }

  /** Every id of the table has an underscore. */
  lemma TableIdsHaveUnderscore()
    ensures forall k :: k in SENSOR_TABLE ==> '_' in k
  {
  }

  /** A string of `[A-Z0-9]` only is left alone by the pattern and is not in the table. */
  lemma NoMatchWithoutUnderscore(s: string)
    requires IdPrefix(s, |s|)
    ensures PatternMatch(s).None? && s !in SENSOR_TABLE
  {
    TableIdsHaveUnderscore();
    assert !IdChar('_');
  }

  /** Mapping an already mapped id changes nothing. */
  lemma MapIdempotent(sensorId: string)
    ensures MapSensorToElemento(MapSensorToElemento(sensorId)) == MapSensorToElemento(sensorId)
  {
    var r := MapSensorToElemento(sensorId);
    if sensorId in SENSOR_TABLE {
      ElementIdsPlain(r);
      NoMatchWithoutUnderscore(r);
    } else if PatternMatch(sensorId).Some? {
      NoMatchWithoutUnderscore(r);
    }
  }

  /** The dashboard's element ids are plain `[A-Z0-9]` strings. */
  lemma ElementIdsPlain(e: string)
    requires e in Dashboard.KNOWN_RESERVOIRS
    ensures |e| > 0 && IdPrefix(e, |e|)
  {
  }

  /** An id `E_rest` with `E` made of `[A-Z0-9]` maps by the pattern to `E`. */
  lemma PatternCapturesElement(e: string, rest: string)
    requires |e| > 0 && IdPrefix(e, |e|)
    ensures PatternMatch(e + "_" + rest) == Some(e)
  {
    var s := e + "_" + rest;
    assert s[..|e|] == e && s[|e|] == '_';
    assert IdPrefix(s, |e|);
    assert !IdChar(s[|e|]);
    assert LeadingRun(s) == |e|;
  }

  /**
   * The new `<ELEMENT>_US01` ids need no table: the table entry and the
   * pattern name the same element.
   */
  lemma NewIdsFollowPattern(e: string)
    requires e in Dashboard.KNOWN_RESERVOIRS
    ensures e + "_US01" in SENSOR_TABLE && SENSOR_TABLE[e + "_US01"] == e
    ensures PatternMatch(e + "_US01") == Some(e)
  {
    ElementIdsPlain(e);
    PatternCapturesElement(e, "US01");
    assert e + "_" + "US01" == e + "_US01";
    NewIdsInTable(e);
  }

  lemma NewIdsInTable(e: string)
    requires e in Dashboard.KNOWN_RESERVOIRS
    ensures e + "_US01" in SENSOR_TABLE && SENSOR_TABLE[e + "_US01"] == e
  {
    if e == "RCON" {
      assert e + "_US01" == "RCON_US01";
    } else if e == "RCAV" {
      assert e + "_US01" == "RCAV_US01";
    } else if e == "RB03" {
      assert e + "_US01" == "RB03_US01";
    } else if e == "IE01" {
      assert e + "_US01" == "IE01_US01";
    } else {
      assert e + "_US01" == "IE02_US01";
    }
  }

  /** The legacy `SEN_...` ids do need the table: the pattern alone would name the element `SEN`. */
  lemma LegacyIdsNeedTable()
    ensures PatternMatch("SEN_CON_01") == Some("SEN") && MapSensorToElemento("SEN_CON_01") == "RCON"
  {
    assert IdPrefix("SEN", 3);
    PatternCapturesElement("SEN", "CON_01");
    assert "SEN" + "_" + "CON_01" == "SEN_CON_01";
  }

  /** The raw value of a field: `null`, `undefined`, or what `Number(value)` gives. */
  datatype Raw = Null | Undefined | Value(n: JsNumber)

  /**
   * _parseValue: the fallback for `null`, `undefined` or a NaN conversion,
   * else the converted number; with a numeric fallback never NaN.
   */
  function ParseValue(value: Raw, fallback: JsNumber): (r: JsNumber)
    ensures value.Value? && !value.n.NaN? ==> r == value.n
    ensures !(value.Value? && !value.n.NaN?) ==> r == fallback
    ensures !fallback.NaN? ==> !r.NaN?
  {
    match value
    case Value(n) => if n.NaN? then fallback else n
    case _ => fallback
  }

  /** A datetime field: its text and what `new Date(text)` parses it to (nothing for an invalid date). */
  datatype Stamp = Stamp(text: string, ms: Option<int>)

  /** `if (datetime)`: present and non-empty. */
  predicate Truthy(d: Option<Stamp>)
  {
    d.Some? && d.value.text != ""
  }

  /** `new Date(a) > new Date(b)`: an invalid date compares false. */
  predicate Later(a: Stamp, b: Stamp)
  {
    a.ms.Some? && b.ms.Some? && a.ms.value > b.ms.value
  }

  /** One variable of a sensor: `varData?.valor` and `varData?.datetime`. */
  datatype VarData = VarData(valor: Raw, datetime: Option<Stamp>)

  /** One sensor of the payload. */
  datatype SensorData = SensorData(elementoId: Option<string>, macAddress: Option<string>,
                                   variables: seq<(string, VarData)>)

  /** One normalised element record. */
  datatype Element = Element(
    sensorId: string, elementoId: string, macAddress: Option<string>,
    distanceCm: JsNumber, valveIn: JsNumber, valveOut: JsNumber, soundIn: JsNumber,
    battery: JsNumber, rssi: JsNumber, timestamp: Stamp)

  /** `sensorData.elemento_id || this._mapSensorToElemento(sensorId)`. */
  function ElementOf(sensorId: string, d: SensorData): string
  {
    if d.elementoId.Some? && d.elementoId.value != "" then d.elementoId.value else MapSensorToElemento(sensorId)
  }

  /** The record created on an element's first sight, stamped with the current time. */
  function Fresh(sensorId: string, elementoId: string, mac: Option<string>, now: Stamp): (e: Element)
    ensures e.battery == Finite(5000.0) && e.rssi == Finite(-50.0)
    ensures e.distanceCm == e.valveIn == e.valveOut == e.soundIn == Finite(0.0)
    ensures e.sensorId == sensorId && e.elementoId == elementoId && e.macAddress == mac && e.timestamp == now
  {
    Element(sensorId, elementoId, mac, Finite(0.0), Finite(0.0), Finite(0.0), Finite(0.0),
            Finite(5000.0), Finite(-50.0), now)
  }

  /** A variable name with one leading `IE01_` or `IE02_` removed. */
  function CleanName(name: string): (r: string)
    ensures (Text.StartsWith(name, "IE01_") || Text.StartsWith(name, "IE02_")) ==> r == name[5..]
    ensures !(Text.StartsWith(name, "IE01_") || Text.StartsWith(name, "IE02_")) ==> r == name
  {
    if Text.StartsWith(name, "IE01_") || Text.StartsWith(name, "IE02_") then name[5..] else name
  }

  /** The six names that carry a field. */
  const FIELD_NAMES: set<string> := {"distance_cm", "valve_in", "valve_out", "sound_in", "battery", "rssi"}

  /** The field a clean name updates. */
  function Field(e: Element, name: string): JsNumber
    requires name in FIELD_NAMES
  {
    if name == "distance_cm" then e.distanceCm
    else if name == "valve_in" then e.valveIn
    else if name == "valve_out" then e.valveOut
    else if name == "sound_in" then e.soundIn
    else if name == "battery" then e.battery
    else e.rssi
  }

  /** The switch on the clean name, including distance_cm's own timestamp. */
  function Switched(e: Element, clean: string, valor: JsNumber, datetime: Option<Stamp>): Element
  {
    if clean == "distance_cm" then
      e.(distanceCm := valor, timestamp := if Truthy(datetime) then datetime.value else e.timestamp)
    else if clean == "valve_in" then e.(valveIn := valor)
    else if clean == "valve_out" then e.(valveOut := valor)
    else if clean == "sound_in" then e.(soundIn := valor)
    else if clean == "battery" then e.(battery := valor)
    else if clean == "rssi" then e.(rssi := valor)
    else e
  }

  /** One iteration of the inner forEach. */
  function ApplyVar(e: Element, name: string, v: VarData): Element
  {
    var e1 := Switched(e, CleanName(name), ParseValue(v.valor, Finite(0.0)), v.datetime);
    if Truthy(v.datetime) && Later(v.datetime.value, e1.timestamp) then e1.(timestamp := v.datetime.value) else e1
  }

  /** The inner forEach over a sensor's variables, in order. */
  function ApplyVars(e: Element, vars: seq<(string, VarData)>): Element
    decreases |vars|
  {
    if vars == [] then e
    else ApplyVar(ApplyVars(e, vars[..|vars| - 1]), vars[|vars| - 1].0, vars[|vars| - 1].1)
  }

  /** One iteration of the outer forEach. */
  function AddSensor(acc: map<string, Element>, sensorId: string, d: SensorData, now: Stamp): map<string, Element>
  {
    var id := ElementOf(sensorId, d);
    var base := if id in acc then acc[id] else Fresh(sensorId, id, d.macAddress, now);
    acc[id := ApplyVars(base, d.variables)]
  }

  /** The outer forEach over the payload, in order. */
  function Normalized(entries: seq<(string, SensorData)>, now: Stamp): map<string, Element>
    decreases |entries|
  {
    if entries == [] then map[]
    else
      var n := |entries| - 1;
      AddSensor(Normalized(entries[..n], now), entries[n].0, entries[n].1, now)
  }

  /**
   * The inner forEach of _normalizeReadings: the element's record updated
   * by each variable in turn.
   */
  method UpdateElement(el: Element, variables: seq<(string, VarData)>) returns (r: Element)
    ensures r == ApplyVars(el, variables)
  {
    r := el;
    var j := 0;
    while j < |variables|
      invariant 0 <= j <= |variables|
      invariant r == ApplyVars(el, variables[..j])
    {
      var (varName, varData) := variables[j];
      var valor := ParseValue(varData.valor, Finite(0.0));
      var datetime := varData.datetime;
      var cleanVarName := CleanName(varName);
      r := Switched(r, cleanVarName, valor, datetime);
      if Truthy(datetime) && Later(datetime.value, r.timestamp) {
        r := r.(timestamp := datetime.value);
      }
      assert variables[..j + 1][..j] == variables[..j];
      j := j + 1;
    }
    assert variables[..j] == variables;
  }

  /**
   * _normalizeReadings without its cache write: `{}` for a missing
   * payload, otherwise the entries folded one sensor and one variable at
   * a time into the per-element records.
   */
  method NormalizeReadings(rawData: Option<seq<(string, SensorData)>>, now: Stamp)
    returns (normalized: map<string, Element>)
    ensures rawData.None? ==> normalized == map[]
    ensures rawData.Some? ==> normalized == Normalized(rawData.value, now)
  {
    normalized := map[];
    if rawData.None? {
      return;
    }
    var entries := rawData.value;
    var i := 0;
    while i < |entries|
      invariant 0 <= i <= |entries|
      invariant normalized == Normalized(entries[..i], now)
    {
      var (sensorId, sensorData) := entries[i];
      var elementoId := ElementOf(sensorId, sensorData);
      if elementoId !in normalized {
        normalized := normalized[elementoId := Fresh(sensorId, elementoId, sensorData.macAddress, now)];
      }
      var updated := UpdateElement(normalized[elementoId], sensorData.variables);
      normalized := normalized[elementoId := updated];
      assert entries[..i + 1][..i] == entries[..i];
      i := i + 1;
    }
    assert entries[..i] == entries;
  }

  /** There is one record per element id the payload names, and no other. */
  lemma {:induction false} NormalizedKeys(entries: seq<(string, SensorData)>, now: Stamp)
    ensures Normalized(entries, now).Keys == set i | 0 <= i < |entries| :: ElementOf(entries[i].0, entries[i].1)
    decreases |entries|
  {
    if entries != [] {
      var n := |entries| - 1;
      NormalizedKeys(entries[..n], now);
      var prefix := entries[..n];
      assert forall i :: 0 <= i < n ==> prefix[i] == entries[i];
      assert (set i | 0 <= i < |entries| :: ElementOf(entries[i].0, entries[i].1)) ==
             (set i | 0 <= i < n :: ElementOf(prefix[i].0, prefix[i].1)) + {ElementOf(entries[n].0, entries[n].1)};
    }
  }

  /** The variables never touch a record's identity: sensor id, element id and MAC. */
  lemma {:induction false} ApplyVarsKeepsIdentity(e: Element, vars: seq<(string, VarData)>)
    ensures var r := ApplyVars(e, vars);
      r.sensorId == e.sensorId && r.elementoId == e.elementoId && r.macAddress == e.macAddress
    decreases |vars|
  {
    if vars != [] {
      ApplyVarsKeepsIdentity(e, vars[..|vars| - 1]);
    }
  }

  /**
   * The record of an element keeps the sensor id and MAC of the first
   * sensor of the payload that maps to it.
   */
  lemma {:induction false} FirstSensorOwnsRecord(entries: seq<(string, SensorData)>, now: Stamp, i: nat)
    requires i < |entries|
    requires forall j :: 0 <= j < i ==> ElementOf(entries[j].0, entries[j].1) != ElementOf(entries[i].0, entries[i].1)
    ensures var id := ElementOf(entries[i].0, entries[i].1);
      id in Normalized(entries, now) &&
      Normalized(entries, now)[id].sensorId == entries[i].0 &&
      Normalized(entries, now)[id].elementoId == id &&
      Normalized(entries, now)[id].macAddress == entries[i].1.macAddress
    decreases |entries|
  {
    var id := ElementOf(entries[i].0, entries[i].1);
    var n := |entries| - 1;
    var prefix := entries[..n];
    if i == n {
      NormalizedKeys(prefix, now);
      assert id !in Normalized(prefix, now);
      ApplyVarsKeepsIdentity(Fresh(entries[i].0, id, entries[i].1.macAddress, now), entries[n].1.variables);
    } else {
      assert forall j :: 0 <= j <= i ==> prefix[j] == entries[j];
      FirstSensorOwnsRecord(prefix, now, i);
      var other := ElementOf(entries[n].0, entries[n].1);
      if other == id {
        ApplyVarsKeepsIdentity(Normalized(prefix, now)[id], entries[n].1.variables);
      }
    }
  }

  /** The value the last variable named `name` (after cleaning) carries, or `dflt` if none does. */
  function LastValue(vars: seq<(string, VarData)>, name: string, dflt: JsNumber): JsNumber
    decreases |vars|
  {
    if vars == [] then dflt
    else if CleanName(vars[|vars| - 1].0) == name then ParseValue(vars[|vars| - 1].1.valor, Finite(0.0))
    else LastValue(vars[..|vars| - 1], name, dflt)
  }

  /** One variable sets its own field and leaves the other five alone. */
  lemma ApplyVarField(e: Element, v: (string, VarData), name: string)
    requires name in FIELD_NAMES
    ensures Field(ApplyVar(e, v.0, v.1), name) ==
      if CleanName(v.0) == name then ParseValue(v.1.valor, Finite(0.0)) else Field(e, name)
  {
  }

  /** Each of the six fields ends with the last value given for it, or keeps its value. */
  lemma {:induction false} LastWriteWins(e: Element, vars: seq<(string, VarData)>, name: string)
    requires name in FIELD_NAMES
    ensures Field(ApplyVars(e, vars), name) == LastValue(vars, name, Field(e, name))
    decreases |vars|
  {
    if vars != [] {
      var n := |vars| - 1;
      LastWriteWins(e, vars[..n], name);
      ApplyVarField(ApplyVars(e, vars[..n]), vars[n], name);
    }
  }

  /** A variable whose clean name is not one of the six changes at most the timestamp. */
  lemma OtherNamesOnlyStamp(e: Element, name: string, v: VarData)
    requires CleanName(name) !in FIELD_NAMES
    ensures ApplyVar(e, name, v).(timestamp := e.timestamp) == e
  {
  }

  /**
   * The timestamp rule: distance_cm's datetime always replaces it; any
   * other datetime replaces it only when strictly later.
   */
  lemma TimestampRule(e: Element, name: string, v: VarData)
    ensures ApplyVar(e, name, v).timestamp ==
      if CleanName(name) == "distance_cm" && Truthy(v.datetime) then v.datetime.value
      else if Truthy(v.datetime) && Later(v.datetime.value, e.timestamp) then v.datetime.value
      else e.timestamp
  {
  }

  /** Without distance_cm the parsed timestamp never moves back. */
  lemma {:induction false} StampNeverMovesBack(e: Element, vars: seq<(string, VarData)>)
    requires e.timestamp.ms.Some?
    requires forall k :: 0 <= k < |vars| ==> CleanName(vars[k].0) != "distance_cm"
    ensures ApplyVars(e, vars).timestamp.ms.Some?
    ensures ApplyVars(e, vars).timestamp.ms.value >= e.timestamp.ms.value
    decreases |vars|
  {
    if vars != [] {
      var n := |vars| - 1;
      StampNeverMovesBack(e, vars[..n]);
      TimestampRule(ApplyVars(e, vars[..n]), vars[n].0, vars[n].1);
    }
  }

  /** A record nobody sends battery or rssi for keeps the defaults 5000 and -50. */
  lemma DefaultsSurvive(sensorId: string, id: string, mac: Option<string>, now: Stamp, vars: seq<(string, VarData)>)
    requires forall k :: 0 <= k < |vars| ==> CleanName(vars[k].0) != "battery" && CleanName(vars[k].0) != "rssi"
    ensures ApplyVars(Fresh(sensorId, id, mac, now), vars).battery == Finite(5000.0)
    ensures ApplyVars(Fresh(sensorId, id, mac, now), vars).rssi == Finite(-50.0)
  {
    var e := Fresh(sensorId, id, mac, now);
    LastWriteWins(e, vars, "battery");
    LastWriteWins(e, vars, "rssi");
    LastValueAbsent(vars, "battery", Finite(5000.0));
    LastValueAbsent(vars, "rssi", Finite(-50.0));
  }

  lemma {:induction false} LastValueAbsent(vars: seq<(string, VarData)>, name: string, dflt: JsNumber)
    requires forall k :: 0 <= k < |vars| ==> CleanName(vars[k].0) != name
    ensures LastValue(vars, name, dflt) == dflt
    decreases |vars|
  {
    if vars != [] {
      LastValueAbsent(vars[..|vars| - 1], name, dflt);
    }
  }

  /** The `aguada_readings_cache` entry: absent (or empty), unparseable, or data with its save time. */
  datatype Cached<T> = Absent | Malformed | Entry(data: T, timestamp: Option<int>)

  const CACHE_MAX_AGE_MS := 5 * 60 * 1000

  /** _setLocalCache: the readings stamped with the save time. */
  function SetLocalCache<T>(readings: T, now: int): (c: Cached<T>)
    ensures c.Entry? && c.data == readings && c.timestamp == Some(now)
  {
    Entry(readings, Some(now))
  }

  /**
   * _getLocalCache: the cached data unless there is none, it cannot be
   * parsed, or it is more than five minutes old. A missing save time is
   * NaN in the comparison and never expires.
   */
  function GetLocalCache<T>(cached: Cached<T>, now: int): (r: Option<T>)
    ensures r.Some? <==> cached.Entry? && !(cached.timestamp.Some? && now - cached.timestamp.value > CACHE_MAX_AGE_MS)
    ensures r.Some? ==> r.value == cached.data
  {
    match cached
    case Entry(data, Some(t)) => if now - t > CACHE_MAX_AGE_MS then None else Some(data)
    case Entry(data, None) => Some(data)
    case _ => None
  }

  /** Saved readings read back within five minutes are the same readings; later they are gone. */
  lemma CacheRoundTrip<T>(readings: T, saved: int, now: int)
    ensures now - saved <= CACHE_MAX_AGE_MS ==> GetLocalCache(SetLocalCache(readings, saved), now) == Some(readings)
    ensures now - saved > CACHE_MAX_AGE_MS ==> GetLocalCache(SetLocalCache(readings, saved), now).None?
  {
  }
}
