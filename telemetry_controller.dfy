/**
 * The ingestion endpoints: telemetry in the nodes' individual format or the
 * legacy aggregated format, manual readings and calibrations. A handler
 * validates, looks the sensor up, and then calls its collaborators in a
 * fixed order (duplicate filter, raw insert, queue, inline fallback);
 * `receiveTelemetry` wraps the two telemetry handlers with the metrics
 * bookkeeping.
 */
module TelemetryController {
  import opened Wrappers
  import Volume
  import Readings
  import Duplicate
  import Compression
  import Schema
  import Metrics

  /** A row of `aguada.sensores` with its element's `parametros`. */
  datatype SensorRow = SensorRow(sensor: Compression.Sensor, nodeMac: string, active: bool,
                                 params: Option<Volume.ElementoParametros>)

  /** identifySensorByMac: the first active row of this node and variable. */
  function Identify(rows: seq<SensorRow>, mac: string, variavel: string): (r: Option<SensorRow>)
    ensures r.None? <==> forall i :: 0 <= i < |rows| ==> !Matches(rows[i], mac, variavel)
    ensures r.Some? ==> r.value in rows && Matches(r.value, mac, variavel)
  {
    if rows == [] then None
    else if Matches(rows[0], mac, variavel) then Some(rows[0])
    else
      var r := Identify(rows[1..], mac, variavel);
      assert forall i :: 1 <= i < |rows| ==> rows[i] == rows[1..][i - 1];
      r
  }

  predicate Matches(row: SensorRow, mac: string, variavel: string)
  {
    row.active && row.nodeMac == mac && row.sensor.variavel == variavel
  }

  /** getSensorById: the row with this sensor id, active or not. */
  function ById(rows: seq<SensorRow>, sensorId: string): (r: Option<SensorRow>)
    ensures r.None? <==> forall i :: 0 <= i < |rows| ==> rows[i].sensor.sensor_id != sensorId
    ensures r.Some? ==> r.value in rows && r.value.sensor.sensor_id == sensorId
  {
    if rows == [] then None
    else if rows[0].sensor.sensor_id == sensorId then Some(rows[0])
    else
      var r := ById(rows[1..], sensorId);
      assert forall i :: 1 <= i < |rows| ==> rows[i] == rows[1..][i - 1];
      r
  }

  /**
   * The database calls of one request, numbered 0, 1, … in the order the
   * handler makes them: each sensor lookup, each insert and the offset
   * update is one call. `Some(n)` is the first call that throws (every
   * service function rethrows its query's error), None a request in which
   * none does; a call also throws when its store is down.
   */
  type Faults = Option<nat>

  predicate Throws(faults: Faults, call: nat)
  {
    faults == Some(call)
  }

  /** The job `enqueueReading` adds; `distance_cm` jobs get priority 1, all others 2. */
  datatype Job = Job(row: SensorRow, valorReal: real, datetime: int, kind: string, priority: nat)

  function NewJob(row: SensorRow, valorReal: real, datetime: int, kind: string): (j: Job)
    ensures j.priority == if kind == "distance_cm" then 1 else 2
  {
    Job(row, valorReal, datetime, kind, if kind == "distance_cm" then 1 else 2)
  }

  /**
   * Where readings go after the raw insert: the processing queue, or, when
   * adding to it fails, the inline compression call of the fallback.
   */
  class Dispatch {
    var queued: seq<Job>
    var inline: seq<Job>
    var queueAvailable: bool

    constructor (queueAvailable: bool)
      ensures queued == [] && inline == [] && this.queueAvailable == queueAvailable
    {
      queued, inline := [], [];
      this.queueAvailable := queueAvailable;
    }

    /**
     * enqueueReading and its `.catch`: the job is queued, or, when the
     * queue fails and `fallback` holds, handed to inline compression.
     */
    method Enqueue(job: Job, fallback: bool)
      modifies this`queued, this`inline
      ensures queueAvailable ==> queued == old(queued) + [job] && inline == old(inline)
      ensures !queueAvailable ==> queued == old(queued) && inline == old(inline) + (if fallback then [job] else [])
    {
      if queueAvailable {
        queued := queued + [job];
      } else if fallback {
        inline := inline + [job];
      }
    }
  }

  /** A handler's answer: its HTTP status and what the body reports. */
  datatype Response =
    | Invalid
    | UnknownSensor
    | DuplicateIgnored(sensorId: string)
    | Received(sensorId: string, kind: string, value: real)
    | Processed(count: nat)
    | ManualRecorded
    | CalibrationRecorded(calibracaoId: nat, ajuste: real)
    | ServerError

  function Status(r: Response): (code: int)
    ensures code < 400 <==> !(r.Invalid? || r.UnknownSensor? || r.ServerError?)
  {
    match r
    case Invalid => 400
    case UnknownSensor => 404
    case ServerError => 500
    case _ => 200
  }

  /** `'mac' in req.body && 'type' in req.body`. */
  predicate IsIndividualFormat(keys: set<string>)
  {
    "mac" in keys && "type" in keys
  }

  /** A packet with `mac` and `type` goes to the individual handler whatever else it holds. */
  lemma FormatDetection(keys: set<string>)
    ensures IsIndividualFormat(keys + {"mac", "type"})
    ensures "mac" !in keys ==> !IsIndividualFormat(keys)
    ensures "type" !in keys ==> !IsIndividualFormat(keys)
  {
  }

  /** A validated individual packet, as the nodes send it. */
  datatype Individual = Individual(mac: string, kind: string, value: real,
                                   battery: Option<real>, rssi: Option<real>, uptime: Option<real>)

  /**
   * The individual format's value conversion: `distance_cm` is sent in
   * hundredths and stored in cm; any other type is a state stored as is.
   */
  function Convert(kind: string, value: real): (r: (real, string))
    ensures kind == "distance_cm" ==> r.0 * 100.0 == value && r.1 == "cm"
    ensures kind != "distance_cm" ==> r.0 == value && r.1 == "boolean"
  {
    if kind == "distance_cm" then (value / 100.0, "cm") else (value, "boolean")
  }

  /** `{key: v}` when the value is present; JSON drops undefined members. */
  function Entry(key: string, v: Option<real>): Readings.Meta
  {
    if v.Some? then map[key := Readings.Num(v.value)] else map[]
  }

  function IndividualMeta(p: Individual): Readings.Meta
  {
    Entry("battery_mv", p.battery) + Entry("rssi_dbm", p.rssi) + Entry("uptime_sec", p.uptime) +
    map["node_mac" := Readings.Str(p.mac), "raw_value" := Readings.Num(p.value)]
  }

  function IndividualInput(row: SensorRow, p: Individual, now: int): Readings.RawInput
  {
    var (valor, unidade) := Convert(p.kind, p.value);
    Readings.RawInput(row.sensor.sensor_id, row.sensor.elemento_id, p.kind, valor, Some(unidade),
      Some(IndividualMeta(p)), "sensor", p.mac, Some("automatica"), None, Some(now))
  }

  /**
   * receiveIndividualTelemetry. `payload` is the validation verdict (None
   * when the packet is rejected). In order: 400; the sensor lookup (call
   * 0), whose error is rethrown (ServerError); 404 with nothing stored;
   * the duplicate check, which answers 200 with nothing inserted or queued;
   * the raw insert (call 1), whose failure is rethrown before anything is
   * queued; then the queue, whose failure sends only `distance_cm` readings
   * to inline compression.
   */
  method ReceiveIndividual(rows: seq<SensorRow>, dup: Duplicate.DuplicateStore, store: Readings.ReadingStore,
                           dispatch: Dispatch, payload: Option<Individual>, faults: Faults, now: int)
    returns (r: Response)
    requires store.Valid()
    modifies dup`expiry, store`raw, dispatch`queued, dispatch`inline
    ensures store.Valid() && store.processed == old(store.processed)
    ensures IndividualEffect(rows, dup, store, dispatch, payload, faults, now, r,
      old(dup.expiry), old(store.raw), old(dispatch.queued), old(dispatch.inline))
  {
    if payload.None? {
      return Invalid;
    }
    var p := payload.value;
    if Throws(faults, 0) {
      return ServerError;
    }
    var found := Identify(rows, p.mac, p.kind);
    if found.None? {
      return UnknownSensor;
    }
    var row := found.value;
    var (valor, unidade) := Convert(p.kind, p.value);
    var isDup := dup.IsDuplicate(row.sensor.sensor_id, now, valor, now);
    if isDup {
      return DuplicateIgnored(row.sensor.sensor_id);
    }
    if Throws(faults, 1) {
      return ServerError;
    }
    var inserted := store.InsertRawReading(IndividualInput(row, p, now), now);
    if inserted.Failure? {
      return ServerError;
    }
    dispatch.Enqueue(NewJob(row, valor, now, p.kind), p.kind == "distance_cm");
    r := Received(row.sensor.sensor_id, p.kind, valor);
  }

  /**
   * What receiveIndividualTelemetry answers and leaves in the duplicate
   * store, the raw table and the dispatch lists, which held `expiry0`,
   * `raw0`, `queued0` and `inline0` before the request.
   */
  ghost predicate IndividualEffect(rows: seq<SensorRow>, dup: Duplicate.DuplicateStore, store: Readings.ReadingStore,
                                   dispatch: Dispatch, payload: Option<Individual>, faults: Faults, now: int,
                                   r: Response, expiry0: map<Duplicate.DupKey, int>, raw0: seq<Readings.RawReading>,
                                   queued0: seq<Job>, inline0: seq<Job>)
    reads dup`expiry, dup`available, store`raw, store`available, dispatch`queued, dispatch`inline, dispatch`queueAvailable
  {
    (payload.None? ==> r == Invalid) &&
    (payload.Some? && Throws(faults, 0) ==> r == ServerError) &&
    (payload.Some? && !Throws(faults, 0) && Identify(rows, payload.value.mac, payload.value.kind).None? ==>
      r == UnknownSensor) &&
    (payload.None? || Throws(faults, 0) || Identify(rows, payload.value.mac, payload.value.kind).None? ==>
      dup.expiry == expiry0 && store.raw == raw0 && dispatch.queued == queued0 && dispatch.inline == inline0) &&
    (payload.Some? && !Throws(faults, 0) && Identify(rows, payload.value.mac, payload.value.kind).Some? ==>
      var p := payload.value;
      var row := Identify(rows, p.mac, p.kind).value;
      var valor := Convert(p.kind, p.value).0;
      var key := Duplicate.GenerateHash(row.sensor.sensor_id, now, valor);
      var isDup := dup.available && Duplicate.Live(expiry0, key, now);
      var inserts := store.available && !Throws(faults, 1);
      dup.expiry == (if !dup.available || isDup then expiry0 else expiry0[key := now + Duplicate.KEY_TTL_MS]) &&
      (isDup ==> r == DuplicateIgnored(row.sensor.sensor_id)) &&
      (!isDup && !inserts ==> r == ServerError) &&
      (!isDup && inserts ==>
        r == Received(row.sensor.sensor_id, p.kind, valor) &&
        store.raw == raw0 + [Readings.NewRawRow(IndividualInput(row, p, now), |raw0| + 1, now)]) &&
      (isDup || !inserts ==>
        store.raw == raw0 && dispatch.queued == queued0 && dispatch.inline == inline0) &&
      (!isDup && inserts ==> var job := NewJob(row, valor, now, p.kind);
        (dispatch.queueAvailable ==> dispatch.queued == queued0 + [job] && dispatch.inline == inline0) &&
        (!dispatch.queueAvailable ==> (dispatch.queued == queued0 &&
          dispatch.inline == inline0 + (if p.kind == "distance_cm" then [job] else [])))))
  }

  // The individual validator. The controller imports `validateIndividualTelemetry`
  // from telemetry.schema.js, which does not export it.

  /** The name the controller imports for the individual format. */
  const INDIVIDUAL_VALIDATOR := "validateIndividualTelemetry"

  /** An individual-format body as JSON parsing leaves it: any member may be missing. */
  datatype IndividualBody = IndividualBody(mac: Option<string>, kind: Option<string>, value: Option<Schema.JsNumber>,
                                           battery: Option<Schema.JsNumber>, rssi: Option<Schema.JsNumber>,
                                           uptime: Option<Schema.JsNumber>)

  /** An optional member that, when present, is a finite number. */
  predicate OptionalFinite(n: Option<Schema.JsNumber>)
  {
    n.None? || n.value.Finite?
  }

  /**
   * The validator the handler evidently expects: `{ mac, type, value }` are
   * required, `battery`, `rssi` and `uptime` optional, and every number
   * present is finite (a JSON body carries no NaN or infinity).
   */
  function ValidateIndividual(b: IndividualBody): (r: Option<Individual>)
    ensures r.Some? <==>
      b.mac.Some? && b.kind.Some? && b.value.Some? && b.value.value.Finite? &&
      OptionalFinite(b.battery) && OptionalFinite(b.rssi) && OptionalFinite(b.uptime)
    ensures r.Some? ==>
      Some(r.value.mac) == b.mac && Some(r.value.kind) == b.kind && Some(Schema.Finite(r.value.value)) == b.value &&
      (r.value.battery.Some? <==> b.battery.Some?) && (r.value.rssi.Some? <==> b.rssi.Some?) &&
      (r.value.uptime.Some? <==> b.uptime.Some?) &&
      (r.value.battery.Some? ==> b.battery == Some(Schema.Finite(r.value.battery.value))) &&
      (r.value.rssi.Some? ==> b.rssi == Some(Schema.Finite(r.value.rssi.value))) &&
      (r.value.uptime.Some? ==> b.uptime == Some(Schema.Finite(r.value.uptime.value)))
  {
    if b.mac.Some? && b.kind.Some? && b.value.Some? && b.value.value.Finite? &&
       OptionalFinite(b.battery) && OptionalFinite(b.rssi) && OptionalFinite(b.uptime)
    then Some(Individual(b.mac.value, b.kind.value, b.value.value.r, FiniteValue(b.battery),
                         FiniteValue(b.rssi), FiniteValue(b.uptime)))
    else None
  }

  function FiniteValue(n: Option<Schema.JsNumber>): Option<real>
  {
    if n.Some? && n.value.Finite? then Some(n.value.r) else None
  }

  /**
   * receiveIndividualTelemetry as written, given the names the schema module
   * `exports`. Without the validator the call at its first line throws, the
   * handler rethrows, and the request ends in a server error with nothing
   * stored; with it, the handler behaves as ReceiveIndividual on the
   * validator's verdict.
   */
  method ReceiveIndividualLinked(exports: set<string>, rows: seq<SensorRow>, dup: Duplicate.DuplicateStore,
                                 store: Readings.ReadingStore, dispatch: Dispatch, body: IndividualBody,
                                 faults: Faults, now: int)
    returns (r: Response)
    requires store.Valid()
    modifies dup`expiry, store`raw, dispatch`queued, dispatch`inline
    ensures store.Valid() && store.processed == old(store.processed)
    ensures INDIVIDUAL_VALIDATOR !in exports ==>
      (r == ServerError && dup.expiry == old(dup.expiry) && store.raw == old(store.raw) &&
      dispatch.queued == old(dispatch.queued) && dispatch.inline == old(dispatch.inline))
    ensures INDIVIDUAL_VALIDATOR in exports ==>
      IndividualEffect(rows, dup, store, dispatch, ValidateIndividual(body), faults, now, r,
        old(dup.expiry), old(store.raw), old(dispatch.queued), old(dispatch.inline))
  {
    if INDIVIDUAL_VALIDATOR !in exports {
      return ServerError;
    }
    r := ReceiveIndividual(rows, dup, store, dispatch, ValidateIndividual(body), faults, now);
  }

  /**
   * As written, the schema module lacks the validator, so the individual
   * path answers 500 to every request, valid or not, and never 200 or 201.
   */
  lemma IndividualValidatorMissing()
    ensures INDIVIDUAL_VALIDATOR !in Schema.EXPORTS
    ensures Status(ServerError) == 500
  {
  }

  /** `{...meta, node_mac}`: the packet's meta members (finite numbers only) and the node's MAC. */
  function AggregatedMeta(meta: Option<Schema.Meta>, nodeMac: string): Readings.Meta
  {
    var m := if meta.Some? then
      NumEntry("battery", meta.value.battery) + NumEntry("rssi", meta.value.rssi) +
      NumEntry("uptime", meta.value.uptime) +
      (if meta.value.firmwareVersion.Some? then map["firmware_version" := Readings.Str(meta.value.firmwareVersion.value)] else map[])
      else map[];
    m + map["node_mac" := Readings.Str(nodeMac)]
  }

  function NumEntry(key: string, v: Option<Schema.JsNumber>): Readings.Meta
  {
    if v.Some? && v.value.Finite? then map[key := Readings.Num(v.value.r)] else map[]
  }

  /** One reading of an aggregated packet whose sensor is known. */
  datatype Known = Known(row: SensorRow, item: Schema.DataItem)

  /** The packet's readings with a known sensor, in packet order; unknown ones are skipped. */
  function KnownItems(rows: seq<SensorRow>, nodeMac: string, data: seq<Schema.DataItem>): (r: seq<Known>)
    ensures |r| <= |data|
  {
    if data == [] then []
    else
      var rest := KnownItems(rows, nodeMac, data[1..]);
      match Identify(rows, nodeMac, data[0].name)
      case None => rest
      case Some(row) => [Known(row, data[0])] + rest
  }

  /** Every known reading comes from the packet and carries the row its sensor matched. */
  lemma {:induction false} KnownItemsSound(rows: seq<SensorRow>, nodeMac: string, data: seq<Schema.DataItem>)
    ensures forall k :: 0 <= k < |KnownItems(rows, nodeMac, data)| ==>
      KnownItems(rows, nodeMac, data)[k].item in data &&
      Identify(rows, nodeMac, KnownItems(rows, nodeMac, data)[k].item.name) == Some(KnownItems(rows, nodeMac, data)[k].row)
  {
    if data != [] {
      var rest := KnownItems(rows, nodeMac, data[1..]);
      var r := KnownItems(rows, nodeMac, data);
      KnownItemsSound(rows, nodeMac, data[1..]);
      assert forall x :: x in data[1..] ==> x in data;
      forall k | 0 <= k < |r|
        ensures r[k].item in data && Identify(rows, nodeMac, r[k].item.name) == Some(r[k].row)
      {
        var found := Identify(rows, nodeMac, data[0].name);
        if found.None? {
          assert r == rest;
          assert rest[k].item in data[1..];
        } else {
          assert r == [Known(found.value, data[0])] + rest;
          if k > 0 {
            assert r[k] == rest[k - 1];
            assert rest[k - 1].item in data[1..];
          }
        }
      }
    }
  }

  function KnownOne(rows: seq<SensorRow>, nodeMac: string, x: Schema.DataItem): seq<Known>
  {
    match Identify(rows, nodeMac, x.name) case None => [] case Some(row) => [Known(row, x)]
  }

  lemma KnownItemsAppend(rows: seq<SensorRow>, nodeMac: string, data: seq<Schema.DataItem>, i: nat)
    requires i < |data|
    ensures KnownItems(rows, nodeMac, data[..i + 1]) == KnownItems(rows, nodeMac, data[..i]) + KnownOne(rows, nodeMac, data[i])
  {
    KnownItemsSnoc(rows, nodeMac, data[..i], data[i]);
    assert data[..i + 1] == data[..i] + [data[i]];
  }

  lemma {:induction false} KnownItemsSnoc(rows: seq<SensorRow>, nodeMac: string, data: seq<Schema.DataItem>, x: Schema.DataItem)
    ensures KnownItems(rows, nodeMac, data + [x]) == KnownItems(rows, nodeMac, data) + KnownOne(rows, nodeMac, x)
  {
    if data == [] {
      assert data + [x] == [x];
      assert [x][1..] == [];
    } else {
      assert (data + [x])[1..] == data[1..] + [x];
      assert (data + [x])[0] == data[0];
      KnownItemsSnoc(rows, nodeMac, data[1..], x);
    }
  }

  /** The value of a reading; the schema admits only finite ones, so the 0 is never taken. */
  function Reading(d: Schema.DataItem): real
  {
    if d.value.Finite? then d.value.r else 0.0
  }

  function AggregatedInput(k: Known, t: Schema.Telemetry, datetime: int): Readings.RawInput
  {
    Readings.RawInput(k.row.sensor.sensor_id, k.row.sensor.elemento_id, k.item.name, Reading(k.item),
      Some(if k.item.unit.Some? && k.item.unit.value != "" then k.item.unit.value else "cm"),
      Some(AggregatedMeta(t.meta, t.nodeMac)), "sensor", t.nodeMac, Some("automatica"), None, Some(datetime))
  }

  /** The raw rows an aggregated packet inserts, numbered from `firstId`. */
  function AggregatedRows(ks: seq<Known>, t: Schema.Telemetry, datetime: int, firstId: nat, now: int): (r: seq<Readings.RawReading>)
    ensures |r| == |ks|
    ensures forall k :: 0 <= k < |ks| ==> r[k] == Readings.NewRawRow(AggregatedInput(ks[k], t, datetime), firstId + k, now)
  {
    seq(|ks|, k requires 0 <= k < |ks| => Readings.NewRawRow(AggregatedInput(ks[k], t, datetime), firstId + k, now))
  }

  /** The jobs an aggregated packet hands on, one per known reading. */
  function AggregatedJobs(ks: seq<Known>, datetime: int): (r: seq<Job>)
    ensures |r| == |ks|
    ensures forall k :: 0 <= k < |ks| ==> r[k] == NewJob(ks[k].row, Reading(ks[k].item), datetime, ks[k].item.name)
  {
    seq(|ks|, k requires 0 <= k < |ks| => NewJob(ks[k].row, Reading(ks[k].item), datetime, ks[k].item.name))
  }

  /**
   * How far receiveAggregatedTelemetry's loop gets through `data`, whose
   * first reading makes database call `call`: a reading's sensor lookup is
   * one call and, for a known sensor, its insert the next (which also throws
   * when the store is `up` no more). The result is the known readings stored
   * before the first call that throws, in packet order, and whether one threw.
   */
  function AggregatedRun(rows: seq<SensorRow>, nodeMac: string, data: seq<Schema.DataItem>, faults: Faults,
                         up: bool, call: nat): (r: (seq<Known>, bool))
    ensures |r.0| <= |data|
    decreases |data|
  {
    if data == [] then ([], false)
    else if Throws(faults, call) then ([], true)
    else match Identify(rows, nodeMac, data[0].name)
      case None => AggregatedRun(rows, nodeMac, data[1..], faults, up, call + 1)
      case Some(row) =>
        if !up || Throws(faults, call + 1) then ([], true)
        else
          var rest := AggregatedRun(rows, nodeMac, data[1..], faults, up, call + 2);
          ([Known(row, data[0])] + rest.0, rest.1)
  }

  /** AggregatedRun from the reading at index `i` on, as the loop walks it. */
  function RunFrom(rows: seq<SensorRow>, nodeMac: string, data: seq<Schema.DataItem>, i: nat, faults: Faults,
                   up: bool, call: nat): (seq<Known>, bool)
    requires i <= |data|
    decreases |data| - i
  {
    if i == |data| then ([], false)
    else if Throws(faults, call) then ([], true)
    else match Identify(rows, nodeMac, data[i].name)
      case None => RunFrom(rows, nodeMac, data, i + 1, faults, up, call + 1)
      case Some(row) =>
        if !up || Throws(faults, call + 1) then ([], true)
        else
          var rest := RunFrom(rows, nodeMac, data, i + 1, faults, up, call + 2);
          ([Known(row, data[i])] + rest.0, rest.1)
  }

  lemma {:induction false} RunFromSuffix(rows: seq<SensorRow>, nodeMac: string, data: seq<Schema.DataItem>, i: nat,
                                         faults: Faults, up: bool, call: nat)
    requires i <= |data|
    ensures RunFrom(rows, nodeMac, data, i, faults, up, call) == AggregatedRun(rows, nodeMac, data[i..], faults, up, call)
    decreases |data| - i
  {
    if i < |data| {
      assert data[i..][0] == data[i] && data[i..][1..] == data[i + 1..];
      RunFromSuffix(rows, nodeMac, data, i + 1, faults, up, call + 1);
      RunFromSuffix(rows, nodeMac, data, i + 1, faults, up, call + 2);
    }
  }

  lemma RunFromStart(rows: seq<SensorRow>, nodeMac: string, data: seq<Schema.DataItem>, faults: Faults, up: bool)
    ensures RunFrom(rows, nodeMac, data, 0, faults, up, 0) == AggregatedRun(rows, nodeMac, data, faults, up, 0)
  {
    RunFromSuffix(rows, nodeMac, data, 0, faults, up, 0);
    assert data[0..] == data;
  }

  /** With no failing call the loop stores every known reading and answers normally. */
  lemma {:induction false} RunWithoutFaults(rows: seq<SensorRow>, nodeMac: string, data: seq<Schema.DataItem>, call: nat)
    ensures AggregatedRun(rows, nodeMac, data, None, true, call) == (KnownItems(rows, nodeMac, data), false)
    decreases |data|
  {
    if data != [] {
      match Identify(rows, nodeMac, data[0].name)
      case None => RunWithoutFaults(rows, nodeMac, data[1..], call + 1);
      case Some(row) => RunWithoutFaults(rows, nodeMac, data[1..], call + 2);
    }
  }

  /**
   * Whatever fails, the stored readings are a prefix of the known ones, all
   * of them when nothing threw; and on a store that is down throughout,
   * nothing is stored and the loop fails exactly when some sensor is known.
   */
  lemma {:induction false} RunIsKnownPrefix(rows: seq<SensorRow>, nodeMac: string, data: seq<Schema.DataItem>,
                                            faults: Faults, up: bool, call: nat)
    ensures var run := AggregatedRun(rows, nodeMac, data, faults, up, call);
      var ks := KnownItems(rows, nodeMac, data);
      |run.0| <= |ks| && run.0 == ks[..|run.0|] && (!run.1 ==> run.0 == ks)
    ensures !up && faults.None? ==>
      AggregatedRun(rows, nodeMac, data, faults, up, call) == ([], |KnownItems(rows, nodeMac, data)| > 0)
    decreases |data|
  {
    if data != [] {
      var ks := KnownItems(rows, nodeMac, data);
      match Identify(rows, nodeMac, data[0].name)
      case None =>
        RunIsKnownPrefix(rows, nodeMac, data[1..], faults, up, call + 1);
      case Some(row) =>
        RunIsKnownPrefix(rows, nodeMac, data[1..], faults, up, call + 2);
        var rest := AggregatedRun(rows, nodeMac, data[1..], faults, up, call + 2);
        assert ks == [Known(row, data[0])] + KnownItems(rows, nodeMac, data[1..]);
        if up && !Throws(faults, call + 1) {
          assert ([Known(row, data[0])] + rest.0)[1..] == rest.0;
        }
    }
  }

  /**
   * When the insert of the second of two known readings throws (call 3),
   * the first reading stays stored and the request fails.
   */
  lemma SecondInsertFails(rows: seq<SensorRow>, nodeMac: string, data: seq<Schema.DataItem>, r0: SensorRow, r1: SensorRow)
    requires |data| == 2
    requires Identify(rows, nodeMac, data[0].name) == Some(r0) && Identify(rows, nodeMac, data[1].name) == Some(r1)
    ensures AggregatedRun(rows, nodeMac, data, Some(3), true, 0) == ([Known(r0, data[0])], true)
  {
    assert data[1..][0] == data[1];
    assert AggregatedRun(rows, nodeMac, data[1..], Some(3), true, 2) == ([], true);
    assert [Known(r0, data[0])] + [] == [Known(r0, data[0])];
  }

  /**
   * A node that resends a packet after a partial failure gets every known
   * reading stored, the ones the failed attempt kept first of all: with no
   * duplicate filter on this path, that prefix is stored twice.
   */
  lemma ResendStoresPrefixAgain(rows: seq<SensorRow>, nodeMac: string, data: seq<Schema.DataItem>, faults: Faults)
    ensures var first := AggregatedRun(rows, nodeMac, data, faults, true, 0);
      var second := AggregatedRun(rows, nodeMac, data, None, true, 0);
      !second.1 && |first.0| <= |second.0| && second.0[..|first.0|] == first.0
  {
    RunWithoutFaults(rows, nodeMac, data, 0);
    RunIsKnownPrefix(rows, nodeMac, data, faults, true, 0);
  }

  /**
   * The stores after the known readings `ks` of packet `t` went through,
   * starting from `raw0`, `queued0` and `inline0`: their rows are appended
   * and their jobs queued or, with the queue down, handed to inline
   * compression.
   */
  ghost predicate Handed(store: Readings.ReadingStore, dispatch: Dispatch, ks: seq<Known>, t: Schema.Telemetry,
                         datetime: int, now: int, raw0: seq<Readings.RawReading>, queued0: seq<Job>, inline0: seq<Job>)
    reads store`raw, dispatch`queued, dispatch`inline, dispatch`queueAvailable
  {
    store.raw == raw0 + AggregatedRows(ks, t, datetime, |raw0| + 1, now) &&
    dispatch.queued == queued0 + (if dispatch.queueAvailable then AggregatedJobs(ks, datetime) else []) &&
    dispatch.inline == inline0 + (if dispatch.queueAvailable then [] else AggregatedJobs(ks, datetime))
  }

  /**
   * What receiveAggregatedTelemetry answers and leaves in the raw table and
   * the dispatch lists, which held `raw0`, `queued0` and `inline0` before:
   * the rows and jobs of AggregatedRun's readings are kept, and the answer
   * is 500 exactly when one of its calls threw.
   */
  ghost predicate AggregatedEffect(rows: seq<SensorRow>, store: Readings.ReadingStore, dispatch: Dispatch,
                                   body: Option<Schema.Telemetry>, faults: Faults, now: int, r: Response,
                                   raw0: seq<Readings.RawReading>, queued0: seq<Job>, inline0: seq<Job>)
    reads store`raw, store`available, dispatch`queued, dispatch`inline, dispatch`queueAvailable
  {
    (!(body.Some? && Schema.ValidTelemetry(body.value, now)) ==>
      r == Invalid && store.raw == raw0 && dispatch.queued == queued0 && dispatch.inline == inline0) &&
    (body.Some? && Schema.ValidTelemetry(body.value, now) ==>
      var t := body.value;
      var run := AggregatedRun(rows, t.nodeMac, t.data, faults, store.available, 0);
      (r == ServerError <==> run.1) &&
      (r != ServerError ==> r == Processed(|run.0|)) &&
      Handed(store, dispatch, run.0, t, t.parsedDatetime.value, now, raw0, queued0, inline0))
  }

  /**
   * receiveAggregatedTelemetry. `body` is the typed packet (None when its
   * fields have the wrong JSON types). A packet the schema rejects gets 400;
   * otherwise each reading with a known sensor is inserted and handed on,
   * in packet order, and the answer counts them. There is no duplicate
   * check on this path, and a failed queue sends every reading to inline
   * compression. A throwing lookup or insert ends the handler with 500,
   * keeping the rows and jobs of the readings before it.
   */
  method ReceiveAggregated(rows: seq<SensorRow>, store: Readings.ReadingStore, dispatch: Dispatch,
                           body: Option<Schema.Telemetry>, faults: Faults, now: int)
    returns (r: Response)
    requires store.Valid()
    modifies store`raw, dispatch`queued, dispatch`inline
    ensures store.Valid() && store.processed == old(store.processed)
    ensures AggregatedEffect(rows, store, dispatch, body, faults, now, r,
      old(store.raw), old(dispatch.queued), old(dispatch.inline))
  {
    if !(body.Some? && Schema.ValidTelemetry(body.value, now)) {
      return Invalid;
    }
    var t := body.value;
    var ok, count := StoreKnown(rows, store, dispatch, t, t.parsedDatetime.value, faults, now);
    r := if ok then Processed(count) else ServerError;
  }

  /**
   * The loop of receiveAggregatedTelemetry over a validated packet: it
   * stores AggregatedRun's readings and reports false when a call threw.
   */
  method StoreKnown(rows: seq<SensorRow>, store: Readings.ReadingStore, dispatch: Dispatch,
                    t: Schema.Telemetry, datetime: int, faults: Faults, now: int)
    returns (ok: bool, count: nat)
    requires store.Valid()
    modifies store`raw, dispatch`queued, dispatch`inline
    ensures store.Valid() && store.processed == old(store.processed)
    ensures var run := AggregatedRun(rows, t.nodeMac, t.data, faults, store.available, 0);
      ok == !run.1 && count == |run.0| &&
      Handed(store, dispatch, run.0, t, datetime, now, old(store.raw), old(dispatch.queued), old(dispatch.inline))
  {
    var data := t.data;
    ghost var raw0, queued0, inline0 := store.raw, dispatch.queued, dispatch.inline;
    ghost var up := store.available;
    ghost var full := RunFrom(rows, t.nodeMac, data, 0, faults, up, 0);
    RunFromStart(rows, t.nodeMac, data, faults, up);
    ghost var ks: seq<Known> := [];
    ghost var rest := full;
    assert ks + full.0 == full.0;
    count, ok := 0, true;
    var i, call := 0, 0;
    while ok && i < |data|
      invariant 0 <= i <= |data|
      decreases |data| - i, if ok then 1 else 0
      invariant !ok ==> rest == ([], true)
      invariant store.Valid() && store.processed == old(store.processed)
      invariant count == |ks|
      invariant store.available == up
      invariant rest == RunFrom(rows, t.nodeMac, data, i, faults, up, call)
      invariant full.0 == ks + rest.0 && full.1 == rest.1
      invariant Handed(store, dispatch, ks, t, datetime, now, raw0, queued0, inline0)
    {
      var stored, added, next;
      ghost var step, after;
      stored, added, next, step, after := StoreOne(rows, store, dispatch, t, datetime, faults, now, data, i, call,
                                                   rest, ks, raw0, queued0, inline0);
      if stored {
        Assoc(ks, step, after.0);
        ks, rest := ks + step, after;
        count := count + (if added then 1 else 0);
        i, call := i + 1, next;
      } else {
        ok := false;
      }
    }
    assert rest.0 == [] && ks + [] == ks;
  }

  /**
   * One turn of StoreKnown's loop, over the reading at index `i`, whose
   * lookup is call `call`: it fails when AggregatedRun from here stops at
   * once, changing nothing; otherwise it stores `step` (the reading, when
   * its sensor is known) and the run goes on from the next reading.
   */
  method StoreOne(rows: seq<SensorRow>, store: Readings.ReadingStore, dispatch: Dispatch, t: Schema.Telemetry,
                  datetime: int, faults: Faults, now: int, data: seq<Schema.DataItem>, i: nat, call: nat,
                  ghost here: (seq<Known>, bool), ghost ks: seq<Known>, ghost raw0: seq<Readings.RawReading>, ghost queued0: seq<Job>,
                  ghost inline0: seq<Job>)
    returns (ok: bool, added: bool, next: nat, ghost step: seq<Known>, ghost after: (seq<Known>, bool))
    requires i < |data| && store.Valid()
    requires here == RunFrom(rows, t.nodeMac, data, i, faults, store.available, call)
    requires Handed(store, dispatch, ks, t, datetime, now, raw0, queued0, inline0)
    modifies store`raw, dispatch`queued, dispatch`inline
    ensures store.Valid() && store.processed == old(store.processed)
    ensures !ok ==> here == ([], true)
    ensures !ok ==> (store.raw == old(store.raw) && dispatch.queued == old(dispatch.queued) &&
      dispatch.inline == old(dispatch.inline))
    ensures ok ==> after == RunFrom(rows, t.nodeMac, data, i + 1, faults, store.available, next)
    ensures ok ==> here == (step + after.0, after.1)
    ensures ok ==> (|step| == (if added then 1 else 0) &&
      Handed(store, dispatch, ks + step, t, datetime, now, raw0, queued0, inline0))
  {
    step, next := [], call;
    after := RunFrom(rows, t.nodeMac, data, i + 1, faults, store.available, call + 1);
    if Throws(faults, call) {
      return false, false, next, step, after;
    }
    var found := Identify(rows, t.nodeMac, data[i].name);
    if found.None? {
      assert ks + [] == ks && [] + after.0 == after.0;
      return true, false, call + 1, step, after;
    }
    var k := Known(found.value, data[i]);
    if Throws(faults, call + 1) {
      return false, false, next, step, after;
    }
    var inserted := store.InsertRawReading(AggregatedInput(k, t, datetime), now);
    if inserted.Failure? {
      return false, false, next, step, after;
    }
    after := RunFrom(rows, t.nodeMac, data, i + 1, faults, store.available, call + 2);
    var job := NewJob(k.row, Reading(data[i]), datetime, data[i].name);
    HandedGrow(store, dispatch, ks, k, t, datetime, now, raw0, queued0, inline0, inserted.value, job);
    dispatch.Enqueue(job, true);
    ok, added, next, step := true, true, call + 2, [k];
  }

  lemma Assoc<T>(a: seq<T>, b: seq<T>, c: seq<T>)
    ensures a + (b + c) == (a + b) + c
  {
  }

  lemma Snoc<T>(a: seq<T>, b: seq<T>, x: T)
    ensures a + b + [x] == a + (b + [x])
  {
  }

  /** Handed for `ks` before one insert and one enqueue is Handed for `ks + [k]` after them. */
  lemma HandedGrow(store: Readings.ReadingStore, dispatch: Dispatch, ks: seq<Known>, k: Known, t: Schema.Telemetry,
                   datetime: int, now: int, raw0: seq<Readings.RawReading>, queued0: seq<Job>, inline0: seq<Job>,
                   row: Readings.RawReading, job: Job)
    requires store.raw == raw0 + AggregatedRows(ks, t, datetime, |raw0| + 1, now) + [row]
    requires row == Readings.NewRawRow(AggregatedInput(k, t, datetime), |raw0| + 1 + |ks|, now)
    requires job == NewJob(k.row, Reading(k.item), datetime, k.item.name)
    requires dispatch.queued == queued0 + (if dispatch.queueAvailable then AggregatedJobs(ks, datetime) else [])
    requires dispatch.inline == inline0 + (if dispatch.queueAvailable then [] else AggregatedJobs(ks, datetime))
    ensures store.raw == raw0 + AggregatedRows(ks + [k], t, datetime, |raw0| + 1, now)
    ensures dispatch.queueAvailable ==> dispatch.queued + [job] == queued0 + AggregatedJobs(ks + [k], datetime)
    ensures !dispatch.queueAvailable ==> dispatch.inline + [job] == inline0 + AggregatedJobs(ks + [k], datetime)
  {
    HandedStep(ks, k, t, datetime, |raw0| + 1, now);
    Snoc(raw0, AggregatedRows(ks, t, datetime, |raw0| + 1, now), row);
    if dispatch.queueAvailable {
      Snoc(queued0, AggregatedJobs(ks, datetime), job);
    } else {
      Snoc(inline0, AggregatedJobs(ks, datetime), job);
    }
  }

  /** One more known reading adds one row and one job at the ends. */
  lemma HandedStep(ks: seq<Known>, k: Known, t: Schema.Telemetry, datetime: int, firstId: nat, now: int)
    ensures AggregatedRows(ks + [k], t, datetime, firstId, now) ==
      AggregatedRows(ks, t, datetime, firstId, now) + [Readings.NewRawRow(AggregatedInput(k, t, datetime), firstId + |ks|, now)]
    ensures AggregatedJobs(ks + [k], datetime) == AggregatedJobs(ks, datetime) + [NewJob(k.row, Reading(k.item), datetime, k.item.name)]
  {
  }

  /** A known reading in a prefix makes the whole packet's known list non-empty. */
  lemma KnownPrefixGrowsOnly(rows: seq<SensorRow>, nodeMac: string, data: seq<Schema.DataItem>, n: nat)
    requires n <= |data| && |KnownItems(rows, nodeMac, data[..n])| > 0
    ensures |KnownItems(rows, nodeMac, data)| > 0
    decreases |data| - n
  {
    if n < |data| {
      KnownItemsAppend(rows, nodeMac, data, n);
      KnownPrefixGrowsOnly(rows, nodeMac, data, n + 1);
    } else {
      assert data[..n] == data;
    }
  }

  /** Every reading the aggregated path stores carries the value the node sent. */
  lemma AggregatedValuesAsSent(rows: seq<SensorRow>, t: Schema.Telemetry, now: int)
    requires Schema.ValidTelemetry(t, now)
    ensures var ks := KnownItems(rows, t.nodeMac, t.data);
      forall k :: 0 <= k < |ks| ==> ks[k].item.value.Finite? && Reading(ks[k].item) == ks[k].item.value.r
  {
    var ks := KnownItems(rows, t.nodeMac, t.data);
    KnownItemsSound(rows, t.nodeMac, t.data);
    forall k | 0 <= k < |ks| ensures ks[k].item.value.Finite? {
      assert ks[k].item in t.data;
      var j :| 0 <= j < |t.data| && t.data[j] == ks[k].item;
      assert Schema.ValidItem(t.data[j]);
    }
  }

  // receiveTelemetry and the metrics it records.

  /**
   * Dispatch on the packet's format: the request has exactly the effect of
   * the handler its keys select, and the aggregated one leaves the
   * duplicate store alone.
   */
  method Handle(rows: seq<SensorRow>, dup: Duplicate.DuplicateStore, store: Readings.ReadingStore, dispatch: Dispatch,
                keys: set<string>, individual: Option<Individual>, aggregated: Option<Schema.Telemetry>,
                faults: Faults, now: int)
    returns (r: Response)
    requires store.Valid()
    modifies dup`expiry, store`raw, dispatch`queued, dispatch`inline
    ensures store.Valid() && store.processed == old(store.processed)
    ensures IsIndividualFormat(keys) ==> IndividualEffect(rows, dup, store, dispatch, individual, faults, now, r,
      old(dup.expiry), old(store.raw), old(dispatch.queued), old(dispatch.inline))
    ensures !IsIndividualFormat(keys) ==>
      (dup.expiry == old(dup.expiry) &&
       AggregatedEffect(rows, store, dispatch, aggregated, faults, now, r,
         old(store.raw), old(dispatch.queued), old(dispatch.inline)))
    ensures !IsIndividualFormat(keys) ==> (r == Invalid <==> !(aggregated.Some? && Schema.ValidTelemetry(aggregated.value, now)))
  {
    if IsIndividualFormat(keys) {
      r := ReceiveIndividual(rows, dup, store, dispatch, individual, faults, now);
    } else {
      r := ReceiveAggregated(rows, store, dispatch, aggregated, faults, now);
    }
  }

  /**
   * The bookkeeping after a telemetry request: the latency sample and the
   * endpoint's status; the request counts as processed below status 400 and
   * as failed otherwise; only an error the individual handler rethrows is
   * recorded as a `telemetry_error`.
   */
  method RecordOutcome(metrics: Metrics.MetricsService, individualFormat: bool, r: Response, now: int, latency: real)
    requires metrics.Valid()
    modifies metrics`samples, metrics`endpoints, metrics`endpointOrder, metrics`totalProcessed, metrics`lastProcessed,
      metrics`totalFailed, metrics`errorsTotal, metrics`errorsByType, metrics`lastError
    ensures metrics.Valid()
    ensures (Status(r) < 400 ==> metrics.totalProcessed == old(metrics.totalProcessed) + 1) &&
      (Status(r) < 400 ==> metrics.totalFailed == old(metrics.totalFailed))
    ensures (Status(r) >= 400 ==> metrics.totalFailed == old(metrics.totalFailed) + 1) &&
      (Status(r) >= 400 ==> metrics.totalProcessed == old(metrics.totalProcessed))
    ensures metrics.errorsTotal == old(metrics.errorsTotal) + (if individualFormat && r.ServerError? then 1 else 0)
    ensures var key := "POST" + " " + "/api/telemetry";
      metrics.endpoints == old(metrics.endpoints)[key :=
        Metrics.Bump(Metrics.DataOf(old(metrics.endpoints), key), Status(r), Some(latency))]
  {
    metrics.RecordLatency(latency);
    metrics.RecordEndpointRequest("POST", "/api/telemetry", Status(r), Some(latency));
    if Status(r) < 400 {
      metrics.RecordTelemetryProcessed(now);
    } else {
      metrics.RecordTelemetryFailed();
    }
    if individualFormat && r.ServerError? {
      metrics.RecordError("telemetry_error", "StoreUnavailable", now);
    }
  }

  /**
   * receiveTelemetry: counts the packet, dispatches on its format, and
   * records the outcome. The aggregated handler answers its own 500, which
   * is counted as failed but not as an error.
   */
  method ReceiveTelemetry(metrics: Metrics.MetricsService, rows: seq<SensorRow>, dup: Duplicate.DuplicateStore,
                          store: Readings.ReadingStore, dispatch: Dispatch, keys: set<string>,
                          individual: Option<Individual>, aggregated: Option<Schema.Telemetry>,
                          faults: Faults, now: int, latency: real)
    returns (r: Response)
    requires store.Valid() && metrics.Valid()
    modifies dup`expiry, store`raw, dispatch`queued, dispatch`inline
    modifies metrics`totalReceived, metrics`lastReceived, metrics`samples, metrics`endpoints,
      metrics`endpointOrder, metrics`totalProcessed, metrics`lastProcessed, metrics`totalFailed,
      metrics`errorsTotal, metrics`errorsByType, metrics`lastError
    ensures store.Valid() && metrics.Valid()
    ensures metrics.totalReceived == old(metrics.totalReceived) + 1 && metrics.lastReceived == Some(now)
    ensures metrics.totalProcessed + metrics.totalFailed == old(metrics.totalProcessed) + old(metrics.totalFailed) + 1
    ensures Status(r) < 400 ==> metrics.totalProcessed == old(metrics.totalProcessed) + 1
    ensures metrics.errorsTotal == old(metrics.errorsTotal) + (if IsIndividualFormat(keys) && r.ServerError? then 1 else 0)
    ensures var key := "POST" + " " + "/api/telemetry";
      metrics.endpoints == old(metrics.endpoints)[key :=
        Metrics.Bump(Metrics.DataOf(old(metrics.endpoints), key), Status(r), Some(latency))]
    ensures store.processed == old(store.processed)
    ensures IsIndividualFormat(keys) ==> IndividualEffect(rows, dup, store, dispatch, individual, faults, now, r,
      old(dup.expiry), old(store.raw), old(dispatch.queued), old(dispatch.inline))
    ensures !IsIndividualFormat(keys) ==>
      (dup.expiry == old(dup.expiry) &&
       AggregatedEffect(rows, store, dispatch, aggregated, faults, now, r,
         old(store.raw), old(dispatch.queued), old(dispatch.inline)))
  {
    metrics.RecordTelemetryReceived(now);
    r := Handle(rows, dup, store, dispatch, keys, individual, aggregated, faults, now);
    RecordOutcome(metrics, IsIndividualFormat(keys), r, now, latency);
  }

  /**
   * A reading whose raw insert failed after its duplicate key was stored is
   * answered as a duplicate when the node resends it within two seconds,
   * so it is never stored.
   */
  lemma RetryAfterFailedInsertIsDropped(expiry: map<Duplicate.DupKey, int>, sensorId: string, t: int, t': int, valor: real)
    requires t <= t' < t + Duplicate.KEY_TTL_MS && t / 1000 == t' / 1000
    ensures var key := Duplicate.GenerateHash(sensorId, t, valor);
      Duplicate.Live(expiry[key := t + Duplicate.KEY_TTL_MS], Duplicate.GenerateHash(sensorId, t', valor), t')
  {
    Duplicate.SameSecondKeysIff(sensorId, t, t', valor, valor);
  }

  // receiveManualReading.

  /**
   * The manual conversion from a level to the distance the sensor measures:
   * distance = altura_cm - level + offset, with `altura_cm || 400` and
   * `offset_cm || hsensor_cm || 20`.
   */
  function LevelToDistance(params: Option<Volume.ElementoParametros>, level: real): (d: real)
    ensures var altura := if params.Some? && params.value.altura_cm.Some? && params.value.altura_cm.value != 0.0
      then params.value.altura_cm.value else 400.0;
      var offset := if params.Some? && params.value.offset_cm.Some? && params.value.offset_cm.value != 0.0
        then params.value.offset_cm.value
        else if params.Some? && params.value.hsensor_cm.Some? && params.value.hsensor_cm.value != 0.0
        then params.value.hsensor_cm.value else 20.0;
      level == altura - d + offset
  {
    var altura := if params.Some? && params.value.altura_cm.Some? && params.value.altura_cm.value != 0.0
      then params.value.altura_cm.value else 400.0;
    var offset := if params.Some? && params.value.offset_cm.Some? && params.value.offset_cm.value != 0.0
      then params.value.offset_cm.value
      else if params.Some? && params.value.hsensor_cm.Some? && params.value.hsensor_cm.value != 0.0
      then params.value.hsensor_cm.value else 20.0;
    altura - level + offset
  }

  /** The conversion is its own inverse, and with no parameters a level of 0 is a distance of 420 cm. */
  lemma LevelToDistanceInvolutive(params: Option<Volume.ElementoParametros>, level: real)
    ensures LevelToDistance(params, LevelToDistance(params, level)) == level
    ensures LevelToDistance(None, 0.0) == 420.0
  {
  }

  /** The variable and value stored for a manual reading. */
  function ManualValue(variable: string, row: SensorRow, value: real): (r: (string, real))
    ensures variable == "nivel_cm" && row.sensor.variavel == "distance_cm" ==>
      r == ("distance_cm", LevelToDistance(row.params, value))
    ensures !(variable == "nivel_cm" && row.sensor.variavel == "distance_cm") ==> r == (variable, value)
  {
    if variable == "nivel_cm" && row.sensor.variavel == "distance_cm" then
      ("distance_cm", LevelToDistance(row.params, value))
    else (variable, value)
  }

  /** The unit by the variable as sent: cm, bar, else lpm. */
  function ManualUnit(variable: string): string
  {
    if variable == "nivel_cm" then "cm" else if variable == "pressao_bar" then "bar" else "lpm"
  }

  function ManualInput(m: Schema.ManualReading, row: SensorRow, datetime: int): Readings.RawInput
    requires m.value.Finite?
  {
    var (variavel, valor) := ManualValue(m.variable, row, m.value.r);
    Readings.RawInput(row.sensor.sensor_id, row.sensor.elemento_id, variavel, valor, Some(ManualUnit(m.variable)),
      Some(map["manual" := Readings.Flag(true), "original_variable" := Readings.Str(m.variable),
               "original_value" := Readings.Num(m.value.r)]),
      "usuario", m.usuario, Some("manual"), m.observacao, Some(datetime))
  }

  /**
   * receiveManualReading: 400; 500 when the sensor lookup (call 0) throws;
   * 404; then one raw row (call 1), stamped with the given datetime
   * (`parsedDatetime`, None for an invalid date, which the insert rejects)
   * or the current time.
   */
  method ReceiveManualReading(rows: seq<SensorRow>, store: Readings.ReadingStore, m: Schema.ManualReading,
                              parsedDatetime: Option<int>, faults: Faults, now: int)
    returns (r: Response)
    requires store.Valid()
    modifies store`raw
    ensures store.Valid() && store.processed == old(store.processed)
    ensures !Schema.ValidManualReading(m) ==> r == Invalid
    ensures Schema.ValidManualReading(m) && Throws(faults, 0) ==> r == ServerError
    ensures Schema.ValidManualReading(m) && !Throws(faults, 0) && ById(rows, m.sensorId).None? ==> r == UnknownSensor
    ensures r == ManualRecorded <==>
      Schema.ValidManualReading(m) && !Throws(faults, 0) && ById(rows, m.sensorId).Some? && m.value.Finite? &&
      (m.datetime.None? || parsedDatetime.Some?) && store.available && !Throws(faults, 1)
    ensures r == ManualRecorded ==>
      store.raw == old(store.raw) + [Readings.NewRawRow(
        ManualInput(m, ById(rows, m.sensorId).value, if m.datetime.Some? then parsedDatetime.value else now),
        |old(store.raw)| + 1, now)]
    ensures r != ManualRecorded ==> store.raw == old(store.raw)
  {
    if !Schema.ValidManualReading(m) {
      return Invalid;
    }
    if Throws(faults, 0) {
      return ServerError;
    }
    var found := ById(rows, m.sensorId);
    if found.None? {
      return UnknownSensor;
    }
    if !m.value.Finite? || (m.datetime.Some? && parsedDatetime.None?) || Throws(faults, 1) {
      return ServerError;
    }
    var datetime := if m.datetime.Some? then parsedDatetime.value else now;
    var inserted := store.InsertRawReading(ManualInput(m, found.value, datetime), now);
    if inserted.Failure? {
      return ServerError;
    }
    r := ManualRecorded;
  }

  // receiveCalibration.

  datatype CalibrationRow = CalibrationRow(calibracaoId: nat, sensorId: string, elementoId: string,
                                           responsavelUsuarioId: int, valorReferencia: real, valorSensor: real,
                                           ajusteAplicado: real, tipo: string, observacao: Option<string>)

  /** The calibration table and the sensors' offsets, in one database. */
  class CalibrationStore {
    var calibrations: seq<CalibrationRow>
    var sensors: seq<SensorRow>
    var available: bool

    constructor (sensors: seq<SensorRow>, available: bool)
      ensures calibrations == [] && this.sensors == sensors && this.available == available
    {
      calibrations := [];
      this.sensors := sensors;
      this.available := available;
    }

    /** updateSensorOffset: the sensor's `ajuste_offset` becomes `offset`; no other row changes. */
    method UpdateSensorOffset(sensorId: string, offset: real)
      modifies this`sensors
      ensures |sensors| == |old(sensors)|
      ensures forall i :: 0 <= i < |sensors| ==>
        sensors[i] == if old(sensors)[i].sensor.sensor_id == sensorId
          then old(sensors)[i].(sensor := old(sensors)[i].sensor.(ajuste_offset := Some(offset)))
          else old(sensors)[i]
    {
      var before := sensors;
      sensors := seq(|before|, i requires 0 <= i < |before| =>
        if before[i].sensor.sensor_id == sensorId
        then before[i].(sensor := before[i].sensor.(ajuste_offset := Some(offset)))
        else before[i]);
    }

    /**
     * receiveCalibration: 400; 500 when the sensor lookup (call 0) throws;
     * 404; then one calibration row (call 1) with the offset
     * `valor_referencia - valor_sensor`, which then becomes the sensor's
     * `ajuste_offset` (call 2). The calls are not in one transaction: when
     * the offset update throws, the answer is 500 and the row stays.
     */
    method ReceiveCalibration(c: Schema.CalibrationInput, faults: Faults) returns (r: Response)
      modifies this`calibrations, this`sensors
      ensures Schema.ValidateCalibration(c).None? ==> r == Invalid
      ensures Schema.ValidateCalibration(c).Some? && Throws(faults, 0) ==> r == ServerError
      ensures Schema.ValidateCalibration(c).Some? && !Throws(faults, 0) && ById(old(sensors), c.sensorId).None? ==>
        r == UnknownSensor
      ensures Inserts(c, old(sensors), available, faults) ==>
        var v := Schema.ValidateCalibration(c).value;
        calibrations == old(calibrations) + [CalibrationRow(|old(calibrations)| + 1, c.sensorId,
          ById(old(sensors), c.sensorId).value.sensor.elemento_id, v.responsavelUsuarioId,
          c.valorReferencia.r, c.valorSensor.r, c.valorReferencia.r - c.valorSensor.r, v.tipo, v.observacao)]
      ensures !Inserts(c, old(sensors), available, faults) ==> calibrations == old(calibrations)
      ensures r.CalibrationRecorded? <==> Inserts(c, old(sensors), available, faults) && !Throws(faults, 2)
      ensures Inserts(c, old(sensors), available, faults) && Throws(faults, 2) ==> r == ServerError
      ensures r.CalibrationRecorded? ==>
        var ajuste := c.valorReferencia.r - c.valorSensor.r;
        r == CalibrationRecorded(|old(calibrations)| + 1, ajuste) &&
        |sensors| == |old(sensors)| &&
        forall i :: 0 <= i < |sensors| ==>
          sensors[i] == if old(sensors)[i].sensor.sensor_id == c.sensorId
            then old(sensors)[i].(sensor := old(sensors)[i].sensor.(ajuste_offset := Some(ajuste)))
            else old(sensors)[i]
      ensures !r.CalibrationRecorded? ==> sensors == old(sensors)
    {
      var v := Schema.ValidateCalibration(c);
      if v.None? {
        return Invalid;
      }
      if Throws(faults, 0) {
        return ServerError;
      }
      var found := ById(sensors, c.sensorId);
      if found.None? {
        return UnknownSensor;
      }
      if !c.valorReferencia.Finite? || !c.valorSensor.Finite? || !available || Throws(faults, 1) {
        return ServerError;
      }
      var ajuste := c.valorReferencia.r - c.valorSensor.r;
      var id := |calibrations| + 1;
      calibrations := calibrations + [CalibrationRow(id, c.sensorId, found.value.sensor.elemento_id,
        v.value.responsavelUsuarioId, c.valorReferencia.r, c.valorSensor.r, ajuste, v.value.tipo, v.value.observacao)];
      if Throws(faults, 2) {
        return ServerError;
      }
      UpdateSensorOffset(c.sensorId, ajuste);
      r := CalibrationRecorded(id, ajuste);
    }
  }

  /**
   * receiveCalibration gets as far as its INSERT: the calibration is valid
   * with finite readings, its sensor is found, and neither the lookup nor
   * the insert throws.
   */
  predicate Inserts(c: Schema.CalibrationInput, sensors: seq<SensorRow>, available: bool, faults: Faults)
  {
    Schema.ValidateCalibration(c).Some? && !Throws(faults, 0) && ById(sensors, c.sensorId).Some? &&
    c.valorReferencia.Finite? && c.valorSensor.Finite? && available && !Throws(faults, 1)
  }

  /**
   * After a calibration the sensor's adjusted reading of the calibrated
   * raw value is the reference value: the offset replaces the old one.
   */
  lemma CalibrationHitsReference(s: Compression.Sensor, valorReferencia: real, valorSensor: real)
    ensures Compression.Adjusted(s.(ajuste_offset := Some(valorReferencia - valorSensor)), valorSensor) == valorReferencia
  {
  }
}
