/**
 * The status tracker: per-sensor and per-gateway connection state kept in
 * memory. Heartbeats force `online`; a periodic sweep derives `online`,
 * `warning` or `offline` from the time since the last heartbeat; a bounded
 * heartbeat history is kept per sensor; summaries count the states.
 * Times are milliseconds passed in as `now`; timeouts are seconds.
 */
module Status {
  import opened Wrappers
  import Volume

  datatype State = Unknown | Online | Warning | Offline

  /** JavaScript `a || b` on optional numbers: undefined and 0 are falsy. */
  function OrNum(a: Option<real>, b: Option<real>): Option<real>
  {
    if a.Some? && a.value != 0.0 then a else b
  }

  /** A JavaScript string operand that is truthy: present and not "". */
  predicate Truthy(a: Option<string>)
  {
    a.Some? && a.value != ""
  }

  /** JavaScript `a || b` on optional strings. */
  function OrStr(a: Option<string>, b: Option<string>): Option<string>
  {
    if Truthy(a) then a else b
  }

  /**
   * A key of the sensor Map: a sensor id, or `undefined` (None), under which
   * registerKnownSensors files a listed sensor that has neither `sensor_id`
   * nor `sensorId`.
   */
  type SensorKey = Option<string>

  /** The fields of a heartbeat's `data` argument that the tracker reads. */
  datatype HeartbeatData = HeartbeatData(
    mac: Option<string>, node_mac: Option<string>,
    rssi: Option<real>, battery: Option<real>, vcc_bat_mv: Option<real>,
    uptime: Option<real>, value: Option<real>, distance_mm: Option<real>)

  /**
   * A sensor entry. Entries made by registerKnownSensors carry an
   * elementoId and no lastSeen; entries made by a heartbeat carry no
   * elementoId.
   */
  datatype SensorEntry = SensorEntry(
    sensorId: SensorKey, mac: Option<string>, elementoId: Option<string>, status: State,
    lastSeen: Option<int>, rssi: Option<real>, battery: Option<real>, uptime: Option<real>,
    consecutiveFailures: nat, lastValue: Option<real>)

  datatype GatewayData = GatewayData(
    mac: Option<string>, ipAddress: Option<string>, sensorsRelayed: Option<real>,
    uptime: Option<real>, freeHeap: Option<real>, wifiRssi: Option<real>)

  datatype GatewayEntry = GatewayEntry(
    gatewayId: string, mac: Option<string>, status: State, lastSeen: Option<int>,
    ipAddress: Option<string>, sensorsRelayed: real, uptime: Option<real>,
    freeHeap: Option<real>, wifiRssi: Option<real>)

  datatype Heartbeat = Heartbeat(timestamp: int, rssi: Option<real>, battery: Option<real>)

  datatype Config = Config(
    sensorTimeoutSec: real, gatewayTimeoutSec: real, checkIntervalSec: real,
    warningThresholdSec: real, heartbeatHistorySize: nat)

  const DEFAULT_CONFIG := Config(120.0, 60.0, 30.0, 60.0, 10)

  /** The four timeouts updateConfig may change; a missing one is None. */
  datatype ConfigUpdate = ConfigUpdate(
    sensorTimeoutSec: Option<real>, gatewayTimeoutSec: Option<real>,
    warningThresholdSec: Option<real>, checkIntervalSec: Option<real>)

  /** `v && v > 0`: a value that is present, truthy and positive. */
  predicate Positive(v: Option<real>)
  {
    v.Some? && v.value > 0.0
  }

  function Accept(v: Option<real>, current: real): real
  {
    if Positive(v) then v.value else current
  }

  ghost predicate ConfigPositive(c: Config)
  {
    c.sensorTimeoutSec > 0.0 && c.gatewayTimeoutSec > 0.0 &&
    c.checkIntervalSec > 0.0 && c.warningThresholdSec > 0.0
  }

  /**
   * `history.slice(-n)` once the history is longer than n. As `-0` is `0`,
   * a size of 0 keeps everything.
   */
  function KeepLast<T>(h: seq<T>, n: nat): (r: seq<T>)
    ensures |r| == (if n == 0 || |h| <= n then |h| else n)
    ensures forall i :: 0 <= i < |r| ==> r[i] == h[|h| - |r| + i]
  {
    if |h| > n then (if n == 0 then h else h[|h| - n..]) else h
  }

  /** A sensor's heartbeat history; none yet is the empty history. */
  function HistoryOf(history: map<string, seq<Heartbeat>>, sensorId: string): seq<Heartbeat>
  {
    if sensorId in history then history[sensorId] else []
  }

  /** The history map after logging `hb` for `sensorId` with bound `n`. */
  function Logged(history: map<string, seq<Heartbeat>>, sensorId: string, hb: Heartbeat, n: nat)
    : map<string, seq<Heartbeat>>
  {
    history[sensorId := KeepLast(HistoryOf(history, sensorId) + [hb], n)]
  }

  /** Appending to a history within its bound keeps it within the bound and ends with the new entry. */
  lemma KeepLastAppend<T>(h: seq<T>, x: T, n: nat)
    requires 0 < n && |h| <= n
    ensures var r := KeepLast(h + [x], n);
      |r| <= n && r[|r| - 1] == x && r[..|r| - 1] == h[|h| + 1 - |r|..]
  {
    var r := KeepLast(h + [x], n);
    assert r[..|r| - 1] == h[|h| + 1 - |r|..];
  }

  /**
   * The entry recordSensorHeartbeat stores: online, seen now, no failures,
   * the given mac (mac, else node_mac) or else the previous one.
   */
  function SensorHeartbeatEntry(existing: Option<SensorEntry>, sensorId: string, data: HeartbeatData, now: int)
    : (e: SensorEntry)
    ensures e.sensorId == Some(sensorId) && e.status == Online && e.lastSeen == Some(now)
    ensures e.consecutiveFailures == 0 && e.elementoId.None?
    ensures var mac := OrStr(data.mac, data.node_mac);
      e.mac == if Truthy(mac) || existing.None? then mac else existing.value.mac
  {
    var mac := OrStr(data.mac, data.node_mac);
    var oldMac := if existing.Some? then existing.value.mac else mac;
    SensorEntry(Some(sensorId), OrStr(mac, oldMac), None, Online, Some(now), data.rssi,
      OrNum(data.battery, data.vcc_bat_mv), data.uptime, 0, OrNum(data.value, data.distance_mm))
  }

  /** A return to online is announced only from `warning` or `offline`. */
  predicate Recovers(previous: State)
  {
    previous != Online && previous != Unknown
  }

  /**
   * The sweep's rule for one elapsed time: offline past the timeout,
   * warning past the warning threshold, online otherwise.
   */
  function Classify(elapsedMs: int, timeoutSec: real, warningSec: real): (s: State)
    ensures s != Unknown
    ensures s == Offline <==> elapsedMs as real > timeoutSec * 1000.0
    ensures s == Online <==> elapsedMs as real <= timeoutSec * 1000.0 && elapsedMs as real <= warningSec * 1000.0
  {
    if elapsedMs as real > timeoutSec * 1000.0 then Offline
    else if elapsedMs as real > warningSec * 1000.0 then Warning
    else Online
  }

  function Severity(s: State): nat
  {
    match s
    case Unknown => 0
    case Online => 1
    case Warning => 2
    case Offline => 3
  }

  /** With the thresholds fixed, a longer silence never gives a better state. */
  lemma ClassifyMonotone(e1: int, e2: int, timeoutSec: real, warningSec: real)
    requires e1 <= e2
    ensures Severity(Classify(e1, timeoutSec, warningSec)) <= Severity(Classify(e2, timeoutSec, warningSec))
  {
  }

  /**
   * A warning threshold at or above the timeout leaves no warning band; with
   * the defaults (60 s and 60 s) a gateway goes straight from online to offline.
   */
  lemma NoWarningBand(elapsedMs: int, timeoutSec: real, warningSec: real)
    requires warningSec >= timeoutSec
    ensures Classify(elapsedMs, timeoutSec, warningSec) != Warning
  {
  }

  /** One sensor through the sweep: entries never seen are skipped; offline counts a failure each time. */
  function SweepSensor(e: SensorEntry, c: Config, now: int): (r: SensorEntry)
    ensures r.(status := e.status, consecutiveFailures := e.consecutiveFailures) == e
    ensures e.lastSeen.None? ==> r == e
    ensures e.lastSeen.Some? ==>
      r.status == Classify(now - e.lastSeen.value, c.sensorTimeoutSec, c.warningThresholdSec)
    ensures r.consecutiveFailures == e.consecutiveFailures + (if e.lastSeen.Some? && r.status == Offline then 1 else 0)
  {
    if e.lastSeen.None? then e
    else
      var s := Classify(now - e.lastSeen.value, c.sensorTimeoutSec, c.warningThresholdSec);
      e.(status := s, consecutiveFailures := e.consecutiveFailures + if s == Offline then 1 else 0)
  }

  /** One gateway through the sweep: the gateway timeout and no failure counter. */
  function SweepGateway(g: GatewayEntry, c: Config, now: int): (r: GatewayEntry)
    ensures r.(status := g.status) == g
    ensures g.lastSeen.None? ==> r == g
    ensures g.lastSeen.Some? ==>
      r.status == Classify(now - g.lastSeen.value, c.gatewayTimeoutSec, c.warningThresholdSec)
  {
    if g.lastSeen.None? then g
    else g.(status := Classify(now - g.lastSeen.value, c.gatewayTimeoutSec, c.warningThresholdSec))
  }

  /** What getSensorStatus reports. */
  datatype SensorView =
    | NeverSeen(sensorId: string)
    | Seen(entry: SensorEntry, elapsedSec: Option<int>, history: seq<Heartbeat>)

  /** Counts of one kind of entity by state. */
  datatype Counts = Counts(total: nat, online: nat, warning: nat, offline: nat, unknown: nat)

  function WithState<K>(states: map<K, State>, s: State): set<K>
  {
    set id | id in states && states[id] == s
  }

  function CountOf<K>(states: map<K, State>, s: State): nat
  {
    |WithState(states, s)|
  }

  function Tally<K>(states: map<K, State>): (c: Counts)
    ensures c.total == |states|
  {
    Counts(|states|, CountOf(states, Online), CountOf(states, Warning), CountOf(states, Offline), CountOf(states, Unknown))
  }

  lemma DisjointUnionSize<K>(a: set<K>, b: set<K>)
    requires a * b == {}
    ensures |a + b| == |a| + |b|
  {
  }

  /** Every entity is in exactly one state, so the four counts add up to the total. */
  lemma TallyPartition<K>(states: map<K, State>)
    ensures var c := Tally(states);
      c.online + c.warning + c.offline + c.unknown == c.total
  {
    var on, wa := WithState(states, Online), WithState(states, Warning);
    var off, un := WithState(states, Offline), WithState(states, Unknown);
    DisjointUnionSize(on, wa);
    DisjointUnionSize(on + wa, off);
    DisjointUnionSize(on + wa + off, un);
    assert states.Keys == on + wa + off + un by {
      forall id | id in states ensures id in on + wa + off + un {
        match states[id]
        case Online => assert id in on;
        case Warning => assert id in wa;
        case Offline => assert id in off;
        case Unknown => assert id in un;
      }
    }
  }

  datatype Health = Healthy | Degraded | Critical

  /**
   * getSystemStatusSummary's verdict: critical when sensors (or gateways)
   * exist but none is online; otherwise degraded when anything is offline.
   */
  function SystemHealth(sensors: Counts, gateways: Counts): (h: Health)
    ensures h == Critical <==> (sensors.online == 0 && sensors.total > 0) || (gateways.online == 0 && gateways.total > 0)
    ensures h == Healthy <==> h != Critical && sensors.offline == 0 && gateways.offline == 0
  {
    if (sensors.online == 0 && sensors.total > 0) || (gateways.online == 0 && gateways.total > 0) then Critical
    else if sensors.offline > 0 || gateways.offline > 0 then Degraded
    else Healthy
  }

  datatype Summary = Summary(systemStatus: Health, config: Config, sensors: Counts, gateways: Counts)

  /** The fields of a registerKnownSensors entry that the tracker reads. */
  datatype KnownSensor = KnownSensor(
    sensor_id: Option<string>, sensorId: Option<string>,
    mac_address: Option<string>, mac: Option<string>,
    elemento_id: Option<string>, ativo_id: Option<string>)

  /** The entry registerKnownSensors creates: unknown, never seen. */
  function RegisteredEntry(id: SensorKey, k: KnownSensor): (e: SensorEntry)
    ensures e.sensorId == id && e.status == Unknown && e.lastSeen.None?
  {
    SensorEntry(id, OrStr(k.mac_address, k.mac), OrStr(k.elemento_id, k.ativo_id), Unknown, None,
      None, None, None, 0, None)
  }

  /** `sensor.sensor_id || sensor.sensorId`: the key a listed sensor is filed under. */
  function KeyOf(k: KnownSensor): SensorKey
  {
    OrStr(k.sensor_id, k.sensorId)
  }

  /**
   * registerKnownSensors folded over the list: a key already present is
   * left alone; a sensor without an id is filed under `undefined`.
   */
  function RegisterAll(m: map<SensorKey, SensorEntry>, ks: seq<KnownSensor>): map<SensorKey, SensorEntry>
    decreases |ks|
  {
    if ks == [] then m
    else
      var id := KeyOf(ks[0]);
      var m' := if id !in m then m[id := RegisteredEntry(id, ks[0])] else m;
      RegisterAll(m', ks[1..])
  }

  function KnownIds(ks: seq<KnownSensor>): set<SensorKey>
  {
    set k | k in ks :: KeyOf(k)
  }

  /**
   * Registration keeps every existing entry as it was, adds exactly the
   * listed keys (`undefined` for a sensor without an id), and each added
   * entry is unknown and never seen.
   */
  lemma {:induction false} RegisterNeverOverwrites(m: map<SensorKey, SensorEntry>, ks: seq<KnownSensor>)
    decreases |ks|
    ensures var r := RegisterAll(m, ks);
      r.Keys == m.Keys + KnownIds(ks) &&
      (forall id :: id in m ==> r[id] == m[id]) &&
      (forall id :: id in r && id !in m ==> r[id].status == Unknown && r[id].lastSeen.None? && r[id].sensorId == id)
  {
    if ks != [] {
      var id := KeyOf(ks[0]);
      var m' := if id !in m then m[id := RegisteredEntry(id, ks[0])] else m;
      RegisterNeverOverwrites(m', ks[1..]);
      assert ks == [ks[0]] + ks[1..];
      assert KnownIds(ks) == KnownIds(ks[1..]) + {id};
    }
  }

  /**
   * A listed sensor with neither id is still tracked, under `undefined`, as
   * one unknown sensor; with no other sensor the system then reads critical.
   */
  lemma IdlessSensorMakesCritical(k: KnownSensor, gateways: Counts)
    requires !Truthy(k.sensor_id) && k.sensorId.None?
    ensures var m := RegisterAll(map[], [k]);
      m.Keys == {None} && m[None].status == Unknown &&
      SystemHealth(Tally(map id | id in m :: m[id].status), gateways) == Critical
  {
    var m := RegisterAll(map[], [k]);
    assert m == map[None := RegisteredEntry(None, k)];
    var states := map id | id in m :: m[id].status;
    assert states == map[None := Unknown];
    assert WithState(states, Online) == {};
  }

  class StatusService {
    var sensors: map<SensorKey, SensorEntry>
    var gateways: map<string, GatewayEntry>
    var history: map<string, seq<Heartbeat>>
    var config: Config

    /** Each entry is filed under its own id. */
    ghost predicate Valid()
      reads this
    {
      (forall id :: id in sensors ==> sensors[id].sensorId == id) &&
      (forall id :: id in gateways ==> gateways[id].gatewayId == id)
    }

    constructor ()
      ensures Valid() && sensors == map[] && gateways == map[] && history == map[]
      ensures config == DEFAULT_CONFIG
    {
      sensors := map[];
      gateways := map[];
      history := map[];
      config := DEFAULT_CONFIG;
    }

    /**
     * addHeartbeatHistory: appends one entry and keeps the newest
     * heartbeatHistorySize entries.
     */
    method AddHeartbeatHistory(sensorId: string, timestamp: int, data: HeartbeatData)
      modifies this`history
      ensures history == Logged(old(history), sensorId,
        Heartbeat(timestamp, data.rssi, OrNum(data.battery, data.vcc_bat_mv)), config.heartbeatHistorySize)
    {
      var h := if sensorId in history then history[sensorId] else [];
      h := h + [Heartbeat(timestamp, data.rssi, OrNum(data.battery, data.vcc_bat_mv))];
      if |h| > config.heartbeatHistorySize {
        h := if config.heartbeatHistorySize == 0 then h else h[|h| - config.heartbeatHistorySize..];
      }
      history := history[sensorId := h];
    }

    /**
     * recordSensorHeartbeat: the sensor becomes online and its heartbeat
     * is logged; `recovered` is the `sensor:online` event, raised iff the
     * sensor was in warning or offline.
     */
    method RecordSensorHeartbeat(sensorId: string, data: HeartbeatData, now: int)
      returns (e: SensorEntry, recovered: bool)
      requires Valid()
      modifies this`sensors, this`history
      ensures Valid() && gateways == old(gateways)
      ensures var existing := if Some(sensorId) in old(sensors) then Some(old(sensors)[Some(sensorId)]) else None;
        e == SensorHeartbeatEntry(existing, sensorId, data, now) && sensors == old(sensors)[Some(sensorId) := e]
      ensures recovered <==>
        (Some(sensorId) in old(sensors) &&
         (old(sensors)[Some(sensorId)].status == Warning || old(sensors)[Some(sensorId)].status == Offline))
      ensures history == Logged(old(history), sensorId,
        Heartbeat(now, data.rssi, OrNum(data.battery, data.vcc_bat_mv)), config.heartbeatHistorySize)
    {
      var existing := if Some(sensorId) in sensors then Some(sensors[Some(sensorId)]) else None;
      var previous := if existing.Some? then existing.value.status else Unknown;
      e := SensorHeartbeatEntry(existing, sensorId, data, now);
      sensors := sensors[Some(sensorId) := e];
      assert Valid();
      AddHeartbeatHistory(sensorId, now, data);
      recovered := Recovers(previous);
    }

    /** recordGatewayHeartbeat: the gateway becomes online; `recovered` as for sensors. */
    method RecordGatewayHeartbeat(gatewayId: string, data: GatewayData, now: int)
      returns (g: GatewayEntry, recovered: bool)
      requires Valid()
      modifies this`gateways
      ensures Valid() && sensors == old(sensors)
      ensures gateways == old(gateways)[gatewayId := g]
      ensures g.gatewayId == gatewayId && g.status == Online && g.lastSeen == Some(now)
      ensures g.mac == (if Truthy(data.mac) then data.mac
                        else if gatewayId in old(gateways) then old(gateways)[gatewayId].mac else None)
      ensures g.sensorsRelayed == OrNum(data.sensorsRelayed, Some(0.0)).value
      ensures recovered <==> gatewayId in old(gateways) && (old(gateways)[gatewayId].status == Warning || old(gateways)[gatewayId].status == Offline)
    {
      var previous := if gatewayId in gateways then gateways[gatewayId].status else Unknown;
      var oldMac := if gatewayId in gateways then gateways[gatewayId].mac else None;
      g := GatewayEntry(gatewayId, OrStr(data.mac, oldMac), Online, Some(now), data.ipAddress,
        OrNum(data.sensorsRelayed, Some(0.0)).value, data.uptime, data.freeHeap, data.wifiRssi);
      gateways := gateways[gatewayId := g];
      recovered := Recovers(previous);
    }

    /**
     * checkAllStatus: every sensor and gateway goes through the sweep; the
     * returned sets are the ids whose state changed (the emitted events).
     */
    method CheckAllStatus(now: int) returns (sensorChanges: set<SensorKey>, gatewayChanges: set<string>)
      requires Valid()
      modifies this`sensors, this`gateways
      ensures Valid()
      ensures sensors == map id | id in old(sensors) :: SweepSensor(old(sensors)[id], config, now)
      ensures gateways == map id | id in old(gateways) :: SweepGateway(old(gateways)[id], config, now)
      ensures sensorChanges == set id | id in old(sensors) && sensors[id].status != old(sensors)[id].status
      ensures gatewayChanges == set id | id in old(gateways) && gateways[id].status != old(gateways)[id].status
    {
      sensorChanges := SweepSensors(now);
      gatewayChanges := SweepGateways(now);
    }

    /** One step of the sensor sweep: the entry of `id` is reclassified. */
    method SweepSensorEntry(id: SensorKey, now: int) returns (changed: bool)
      requires Valid() && id in sensors
      modifies this`sensors
      ensures Valid()
      ensures sensors == old(sensors)[id := SweepSensor(old(sensors)[id], config, now)]
      ensures changed <==> sensors[id].status != old(sensors)[id].status
    {
      var status := sensors[id];
      changed := false;
      if status.lastSeen.Some? {
        var elapsed := now - status.lastSeen.value;
        var previous := status.status;
        if elapsed as real > config.sensorTimeoutSec * 1000.0 {
          status := status.(status := Offline, consecutiveFailures := status.consecutiveFailures + 1);
        } else if elapsed as real > config.warningThresholdSec * 1000.0 {
          status := status.(status := Warning);
        } else {
          status := status.(status := Online);
        }
        changed := previous != status.status;
      }
      sensors := sensors[id := status];
    }

    method SweepSensors(now: int) returns (changes: set<SensorKey>)
      requires Valid()
      modifies this`sensors
      ensures Valid()
      ensures sensors == map id | id in old(sensors) :: SweepSensor(old(sensors)[id], config, now)
      ensures changes == set id | id in old(sensors) && sensors[id].status != old(sensors)[id].status
    {
      ghost var m0 := sensors;
      ghost var done: set<SensorKey> := {};
      var todo := sensors.Keys;
      changes := {};
      while todo != {}
        invariant Valid()
        invariant todo + done == m0.Keys && todo * done == {} && sensors.Keys == m0.Keys
        invariant forall id :: id in todo ==> sensors[id] == m0[id]
        invariant forall id :: id in done ==> sensors[id] == SweepSensor(m0[id], config, now)
        invariant changes == set id | id in done && sensors[id].status != m0[id].status
        decreases todo
      {
        var id :| id in todo;
        var changed := SweepSensorEntry(id, now);
        if changed {
          changes := changes + {id};
        }
        todo := todo - {id};
        done := done + {id};
      }
    }

    /** One step of the gateway sweep: the entry of `id` is reclassified. */
    method SweepGatewayEntry(id: string, now: int) returns (changed: bool)
      requires Valid() && id in gateways
      modifies this`gateways
      ensures Valid()
      ensures gateways == old(gateways)[id := SweepGateway(old(gateways)[id], config, now)]
      ensures changed <==> gateways[id].status != old(gateways)[id].status
    {
      var status := gateways[id];
      changed := false;
      if status.lastSeen.Some? {
        var elapsed := now - status.lastSeen.value;
        var previous := status.status;
        if elapsed as real > config.gatewayTimeoutSec * 1000.0 {
          status := status.(status := Offline);
        } else if elapsed as real > config.warningThresholdSec * 1000.0 {
          status := status.(status := Warning);
        } else {
          status := status.(status := Online);
        }
        changed := previous != status.status;
      }
      gateways := gateways[id := status];
    }

    method SweepGateways(now: int) returns (changes: set<string>)
      requires Valid()
      modifies this`gateways
      ensures Valid()
      ensures gateways == map id | id in old(gateways) :: SweepGateway(old(gateways)[id], config, now)
      ensures changes == set id | id in old(gateways) && gateways[id].status != old(gateways)[id].status
    {
      ghost var m0 := gateways;
      ghost var done: set<string> := {};
      var todo := gateways.Keys;
      changes := {};
      while todo != {}
        invariant Valid()
        invariant todo + done == m0.Keys && todo * done == {} && gateways.Keys == m0.Keys
        invariant forall id :: id in todo ==> gateways[id] == m0[id]
        invariant forall id :: id in done ==> gateways[id] == SweepGateway(m0[id], config, now)
        invariant changes == set id | id in done && gateways[id].status != m0[id].status
        decreases todo
      {
        var id :| id in todo;
        var changed := SweepGatewayEntry(id, now);
        if changed {
          changes := changes + {id};
        }
        todo := todo - {id};
        done := done + {id};
      }
    }

    /**
     * getSensorStatus: an id never seen reports unknown; otherwise the
     * entry, the whole seconds since its last heartbeat (rounded) and its history.
     */
    function GetSensorStatus(sensorId: string, now: int): (v: SensorView)
      reads this
      ensures v.NeverSeen? <==> Some(sensorId) !in sensors
      ensures v.Seen? ==> v.entry == sensors[Some(sensorId)]
      ensures v.Seen? ==> v.history == HistoryOf(history, sensorId)
      ensures v.Seen? ==> (v.elapsedSec.Some? <==> v.entry.lastSeen.Some?)
      ensures v.Seen? && v.elapsedSec.Some? ==>
        var exact := (now - v.entry.lastSeen.value) as real / 1000.0;
        exact - 0.5 < v.elapsedSec.value as real <= exact + 0.5
    {
      if Some(sensorId) !in sensors then NeverSeen(sensorId)
      else
        var e := sensors[Some(sensorId)];
        var h := if sensorId in history then history[sensorId] else [];
        if e.lastSeen.None? then Seen(e, None, h)
        else
          var exact := (now - e.lastSeen.value) as real / 1000.0;
          Volume.NearestClose(exact);
          Seen(e, Some(Volume.Nearest(exact)), h)
    }

    function SensorStates(): map<SensorKey, State>
      reads this
    {
      map id | id in sensors :: sensors[id].status
    }

    function GatewayStates(): map<string, State>
      reads this
    {
      map id | id in gateways :: gateways[id].status
    }

    /** getSystemStatusSummary: the counts per state and the overall verdict. */
    function GetSystemStatusSummary(): (s: Summary)
      reads this
      ensures s.sensors.total == |sensors| && s.gateways.total == |gateways|
      ensures s.sensors.online + s.sensors.warning + s.sensors.offline + s.sensors.unknown == s.sensors.total
      ensures s.gateways.online + s.gateways.warning + s.gateways.offline + s.gateways.unknown == s.gateways.total
      ensures s.systemStatus == SystemHealth(s.sensors, s.gateways) && s.config == config
    {
      TallyPartition(SensorStates());
      TallyPartition(GatewayStates());
      assert SensorStates().Keys == sensors.Keys && GatewayStates().Keys == gateways.Keys;
      Summary(SystemHealth(Tally(SensorStates()), Tally(GatewayStates())), config,
        Tally(SensorStates()), Tally(GatewayStates()))
    }

    /**
     * updateConfig: each timeout is replaced only by a present positive
     * value; history size is untouched, and positive settings stay positive.
     */
    method UpdateConfig(u: ConfigUpdate) returns (c: Config)
      modifies this`config
      ensures c == config
      ensures config == Config(Accept(u.sensorTimeoutSec, old(config).sensorTimeoutSec),
        Accept(u.gatewayTimeoutSec, old(config).gatewayTimeoutSec),
        Accept(u.checkIntervalSec, old(config).checkIntervalSec),
        Accept(u.warningThresholdSec, old(config).warningThresholdSec),
        old(config).heartbeatHistorySize)
      ensures ConfigPositive(old(config)) ==> ConfigPositive(config)
    {
      if Positive(u.sensorTimeoutSec) {
        config := config.(sensorTimeoutSec := u.sensorTimeoutSec.value);
      }
      if Positive(u.gatewayTimeoutSec) {
        config := config.(gatewayTimeoutSec := u.gatewayTimeoutSec.value);
      }
      if Positive(u.warningThresholdSec) {
        config := config.(warningThresholdSec := u.warningThresholdSec.value);
      }
      if Positive(u.checkIntervalSec) {
        config := config.(checkIntervalSec := u.checkIntervalSec.value);
      }
      c := config;
    }

    /** clearSensorStatus: drops that sensor's entry and history and nothing else. */
    method ClearSensorStatus(sensorId: string)
      requires Valid()
      modifies this`sensors, this`history
      ensures Valid() && gateways == old(gateways) && config == old(config)
      ensures sensors == old(sensors) - {Some(sensorId)} && history == old(history) - {sensorId}
    {
      sensors := sensors - {Some(sensorId)};
      history := history - {sensorId};
    }

    /** registerKnownSensors: one pass over the list, adding each id not yet present. */
    method RegisterKnownSensors(ks: seq<KnownSensor>)
      requires Valid()
      modifies this`sensors
      ensures Valid()
      ensures sensors == RegisterAll(old(sensors), ks)
    {
      var i := 0;
      while i < |ks|
        invariant 0 <= i <= |ks|
        invariant Valid()
        invariant RegisterAll(sensors, ks[i..]) == RegisterAll(old(sensors), ks)
      {
        var k := ks[i];
        var id := KeyOf(k);
        assert ks[i..] == [k] + ks[i + 1..];
        if id !in sensors {
          sensors := sensors[id := RegisteredEntry(id, k)];
        }
        i := i + 1;
      }
    }

    /** simulateSensorOnline: a heartbeat with stand-in values, then the sensor's view. */
    method SimulateSensorOnline(sensorId: string, mac: Option<string>, rssi: Option<real>,
                                battery: Option<real>, uptime: Option<real>, value: Option<real>, now: int)
      returns (v: SensorView)
      requires Valid()
      modifies this`sensors, this`history
      ensures Valid() && gateways == old(gateways)
      ensures var key := Some(sensorId);
        key in sensors && sensors[key].status == Online && sensors[key].lastSeen == Some(now) &&
        sensors == old(sensors)[key := sensors[key]] &&
        sensors[key].mac == OrStr(mac, Some("simulated")) &&
        sensors[key].rssi == OrNum(rssi, Some(-50.0)) && sensors[key].battery == OrNum(battery, Some(5000.0))
      ensures v == GetSensorStatus(sensorId, now)
    {
      var data := HeartbeatData(OrStr(mac, Some("simulated")), None, OrNum(rssi, Some(-50.0)),
        OrNum(battery, Some(5000.0)), None, OrNum(uptime, Some(0.0)), OrNum(value, Some(0.0)), None);
      var _, _ := RecordSensorHeartbeat(sensorId, data, now);
      v := GetSensorStatus(sensorId, now);
    }
  }
}
