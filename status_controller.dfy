/**
 * The HTTP handlers of the status tracker that check their input before
 * calling the service: the timeout range check, the default sensor list and
 * the mandatory sensor id of the simulator.
 */
module StatusController {
  import opened Wrappers
  import opened Status

  const MIN_TIMEOUT_SEC := 10.0
  const MAX_TIMEOUT_SEC := 86400.0

  datatype Response<T> = Ok(data: T) | BadRequest(error: string)

  /**
   * `v && (v < 10 || v > 86400)`: a present, non-zero timeout outside
   * [10, 86400]. An absent value or 0 passes (the service then ignores it).
   */
  predicate OutOfRange(v: Option<real>)
  {
    v.Some? && v.value != 0.0 && (v.value < MIN_TIMEOUT_SEC || v.value > MAX_TIMEOUT_SEC)
  }

  /** A timeout the handler forwards and the service then applies lies in [10, 86400]. */
  lemma AppliedTimeoutInRange(v: Option<real>)
    requires !OutOfRange(v) && Positive(v)
    ensures MIN_TIMEOUT_SEC <= v.value <= MAX_TIMEOUT_SEC
  {
  }

  /**
   * updateStatusConfig: 400 when either timeout is out of range, with the
   * configuration untouched; otherwise the four values are forwarded to the
   * service, the warning threshold and check interval without a range check.
   */
  method UpdateStatusConfig(svc: StatusService, body: ConfigUpdate) returns (r: Response<Config>)
    modifies svc`config
    ensures OutOfRange(body.sensorTimeoutSec) || OutOfRange(body.gatewayTimeoutSec) <==> r.BadRequest?
    ensures r.BadRequest? ==> svc.config == old(svc.config)
    ensures r.Ok? ==> r.data == svc.config && svc.config == Config(
      Accept(body.sensorTimeoutSec, old(svc.config).sensorTimeoutSec),
      Accept(body.gatewayTimeoutSec, old(svc.config).gatewayTimeoutSec),
      Accept(body.checkIntervalSec, old(svc.config).checkIntervalSec),
      Accept(body.warningThresholdSec, old(svc.config).warningThresholdSec),
      old(svc.config).heartbeatHistorySize)
    ensures r.Ok? ==> (Positive(body.sensorTimeoutSec) ==> MIN_TIMEOUT_SEC <= svc.config.sensorTimeoutSec <= MAX_TIMEOUT_SEC)
    ensures r.Ok? ==> (Positive(body.gatewayTimeoutSec) ==> MIN_TIMEOUT_SEC <= svc.config.gatewayTimeoutSec <= MAX_TIMEOUT_SEC)
  {
    if OutOfRange(body.sensorTimeoutSec) {
      return BadRequest("sensorTimeoutSec deve estar entre 10 e 86400 segundos");
    }
    if OutOfRange(body.gatewayTimeoutSec) {
      return BadRequest("gatewayTimeoutSec deve estar entre 10 e 86400 segundos");
    }
    var c := svc.UpdateConfig(body);
    r := Ok(c);
  }

  function Known(id: string, mac: Option<string>, elementoId: string): KnownSensor
  {
    KnownSensor(Some(id), None, mac, None, Some(elementoId), None)
  }

  /** The five sensors registered when the request names none. */
  const DEFAULT_SENSORS: seq<KnownSensor> := [
    Known("SEN_CON_01", Some("20:6e:f1:6b:77:58"), "RCON"),
    Known("SEN_CAV_01", Some("dc:06:75:67:6a:cc"), "RCAV"),
    Known("SEN_B03_01", None, "RB03"),
    Known("SEN_IE01_01", None, "IE01"),
    Known("SEN_IE02_01", None, "IE02")
  ]

  /**
   * registerKnownSensors: the request's list (an empty list counts as
   * given), else the five defaults; nothing already tracked is overwritten.
   * The answer is the number of sensors in the list used.
   */
  method RegisterKnownSensors(svc: StatusService, sensors: Option<seq<KnownSensor>>) returns (count: nat)
    requires svc.Valid()
    modifies svc`sensors
    ensures svc.Valid()
    ensures var list := if sensors.Some? then sensors.value else DEFAULT_SENSORS;
      svc.sensors == RegisterAll(old(svc.sensors), list) && count == |list|
    ensures sensors.None? ==>
      (count == 5 &&
       svc.sensors.Keys == old(svc.sensors).Keys + DEFAULT_KEYS)
    ensures forall id :: id in old(svc.sensors) ==> id in svc.sensors && svc.sensors[id] == old(svc.sensors)[id]
  {
    var list := if sensors.Some? then sensors.value else DEFAULT_SENSORS;
    svc.RegisterKnownSensors(list);
    RegisterNeverOverwrites(old(svc.sensors), list);
    if sensors.None? {
      DefaultIds();
    }
    count := |list|;
  }

  /** The keys of the five default sensors. */
  const DEFAULT_KEYS: set<SensorKey> :=
    {Some("SEN_CON_01"), Some("SEN_CAV_01"), Some("SEN_B03_01"), Some("SEN_IE01_01"), Some("SEN_IE02_01")}

  lemma DefaultIds()
    ensures KnownIds(DEFAULT_SENSORS) == DEFAULT_KEYS
  {
    var d := DEFAULT_SENSORS;
    assert d[0] in d && d[1] in d && d[2] in d && d[3] in d && d[4] in d;
    forall x | x in KnownIds(d)
      ensures x in DEFAULT_KEYS
    {
      var k :| k in d && KeyOf(k) == x;
    }
  }

  /**
   * simulateSensor: 400 without a sensor_id; otherwise a simulated
   * heartbeat with RSSI -50 and battery 5000 standing in for missing values.
   */
  method SimulateSensor(svc: StatusService, sensorId: Option<string>, mac: Option<string>,
                        rssi: Option<real>, battery: Option<real>, value: Option<real>, now: int)
    returns (r: Response<SensorView>)
    requires svc.Valid()
    modifies svc`sensors, svc`history
    ensures svc.Valid() && svc.gateways == old(svc.gateways)
    ensures r.BadRequest? <==> !Truthy(sensorId)
    ensures r.BadRequest? ==> svc.sensors == old(svc.sensors) && svc.history == old(svc.history)
    ensures r.Ok? ==> var id := sensorId.value;
      Some(id) in svc.sensors && svc.sensors[Some(id)].status == Online && svc.sensors[Some(id)].lastSeen == Some(now) &&
      svc.sensors[Some(id)].rssi == OrNum(rssi, Some(-50.0)) && svc.sensors[Some(id)].battery == OrNum(battery, Some(5000.0)) &&
      r.data == svc.GetSensorStatus(id, now)
  {
    if !Truthy(sensorId) {
      return BadRequest("sensor_id é obrigatório");
    }
    var v := svc.SimulateSensorOnline(sensorId.value, mac, OrNum(rssi, Some(-50.0)),
      OrNum(battery, Some(5000.0)), None, OrNum(value, Some(0.0)), now);
    r := Ok(v);
  }
}
