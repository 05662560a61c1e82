/**
 * The sensor node's reporting loop: every cycle it reads all sensors and
 * sends one telemetry packet per variable that changed since it was last
 * sent. The distance has a ±2 cm deadband and turns timeouts into a 0 and
 * out-of-range readings into a 1; each digital input is sent on its first
 * reading and on every change. The radio's send result is only logged, so
 * what the loop hands to it is kept as an outbox.
 */
module NodeMain {
  import opened Wrappers
  import opened MachineInt
  import opened Esp
  import Protocol
  import NodeSensor

  /** ±2 cm in cm×100. */
  const DISTANCE_DEADBAND := 200
  /** The "never sent" marker of a digital input. */
  const NEVER_SENT := 255
  const BATTERY_MV := 5000
  const FIXED_RSSI := -50

  function Abs(x: int): nat
  {
    if x < 0 then -x else x
  }

  /** value_changed: the first reading (a negative last value) or a move of at least the deadband. */
  predicate ValueChanged(newVal: int, oldVal: int, deadband: int)
  {
    oldVal < 0 || Abs(newVal - oldVal) >= deadband
  }

  /** The values last sent, as the four statics hold them. */
  datatype Last = Last(distance: Int32, valveIn: Byte, valveOut: Byte, soundIn: Byte)

  /** Nothing sent yet. */
  const Initial := Last(-1, NEVER_SENT, NEVER_SENT, NEVER_SENT)

  /** The distance one cycle sends, if any: the reading past the deadband, 0 for a timeout, 1 for out of range. */
  function DistanceReport(d: Int32, last: Int32): Option<Int32>
  {
    if d > 0 then (if ValueChanged(d, last, DISTANCE_DEADBAND) then Some(d) else None)
    else if d == NodeSensor.DIST_TIMEOUT then (if last != 0 then Some(0) else None)
    else if d == NodeSensor.DIST_OUT_OF_RANGE then (if last != 1 then Some(1) else None)
    else None
  }

  /** The level one cycle sends for a digital input, if any. */
  function DigitalReport(v: Byte, last: Byte): Option<Byte>
  {
    if last == NEVER_SENT || v != last then Some(v) else None
  }

  /** One send_telemetry call: the variable's name and value. */
  datatype Report = Report(typ: string, value: Int32)

  function ReportOf(typ: string, r: Option<Int32>): seq<Report>
  {
    if r.Some? then [Report(typ, r.value)] else []
  }

  function DigitalOf(typ: string, r: Option<Byte>): seq<Report>
  {
    if r.Some? then [Report(typ, r.value)] else []
  }

  /** The sends of one cycle, in the loop's order. */
  function Reports(last: Last, data: NodeSensor.SensorData): seq<Report>
  {
    ReportOf("distance_cm", DistanceReport(data.distanceCmX100, last.distance))
      + DigitalOf("valve_in", DigitalReport(data.valveIn, last.valveIn))
      + DigitalOf("valve_out", DigitalReport(data.valveOut, last.valveOut))
      + DigitalOf("sound_in", DigitalReport(data.soundIn, last.soundIn))
  }

  /** The last-sent values after one cycle: each variable sent takes its new value. */
  function Next(last: Last, data: NodeSensor.SensorData): Last
  {
    Last(DistanceReport(data.distanceCmX100, last.distance).UnwrapOr(last.distance),
         DigitalReport(data.valveIn, last.valveIn).UnwrapOr(last.valveIn),
         DigitalReport(data.valveOut, last.valveOut).UnwrapOr(last.valveOut),
         DigitalReport(data.soundIn, last.soundIn).UnwrapOr(last.soundIn))
  }

  /** send_telemetry's packet: a fixed 5000 mV battery and −50 dBm RSSI, uptime in whole seconds as `uint32_t`. */
  function Packet(mac: string, r: Report, nowUs: nat): Protocol.PacketV1
  {
    Protocol.PacketV1(mac, r.typ, r.value, BATTERY_MV, (nowUs / 1000000) % U32, FIXED_RSSI)
  }

  function Packets(mac: string, rs: seq<Report>, nowUs: nat): (ps: seq<Protocol.PacketV1>)
    ensures |ps| == |rs|
    ensures forall i :: 0 <= i < |rs| ==> ps[i] == Packet(mac, rs[i], nowUs)
  {
    if rs == [] then [] else Packets(mac, rs[..|rs| - 1], nowUs) + [Packet(mac, rs[|rs| - 1], nowUs)]
  }

  /**
   * A positive reading is sent exactly when nothing was sent before or it
   * is at least 2 cm away from the last distance sent, and then as read.
   */
  lemma DeadbandIff(d: Int32, last: Int32)
    requires d > 0
    ensures DistanceReport(d, last).Some? <==> last < 0 || d - last >= DISTANCE_DEADBAND || last - d >= DISTANCE_DEADBAND
    ensures DistanceReport(d, last).Some? ==> DistanceReport(d, last).value == d
  {
  }

  /**
   * A timeout is reported as 0 once: a run of timeouts sends 0 on the first
   * (unless 0 was the last distance sent) and nothing after it, and the next
   * valid reading is always sent.
   */
  lemma TimeoutSentOnce(last: Int32, d: Int32)
    requires 2000 <= d
    ensures DistanceReport(-1, last) == if last != 0 then Some(0) else None
    ensures var after := DistanceReport(-1, last).UnwrapOr(last);
      DistanceReport(-1, after).None? && DistanceReport(d, after) == Some(d)
  {
  }

  /** A digital input is sent on its first reading and afterwards exactly when it changed. */
  lemma DigitalOnChange(v: Byte, last: Byte)
    requires v != NEVER_SENT
    ensures last == NEVER_SENT ==> DigitalReport(v, last) == Some(v)
    ensures last != NEVER_SENT ==> (DigitalReport(v, last).Some? <==> v != last)
    ensures DigitalReport(v, DigitalReport(v, last).UnwrapOr(last)).None?
  {
  }

  /**
   * The first cycle sends all four variables when the distance is valid
   * or timed out, each with the value read (0 for the timeout).
   */
  lemma FirstCycleSendsAll(data: NodeSensor.SensorData)
    requires data.distanceCmX100 > 0 || data.distanceCmX100 == NodeSensor.DIST_TIMEOUT
    requires data.valveIn != NEVER_SENT && data.valveOut != NEVER_SENT && data.soundIn != NEVER_SENT
    ensures Reports(Initial, data) == [
      Report("distance_cm", if data.distanceCmX100 > 0 then data.distanceCmX100 else 0),
      Report("valve_in", data.valveIn as Int32), Report("valve_out", data.valveOut as Int32),
      Report("sound_in", data.soundIn as Int32)]
  {
  }

  /** A cycle that reads what the previous one read sends nothing. */
  lemma RepeatIsSilent(last: Last, data: NodeSensor.SensorData)
    requires data.valveIn != NEVER_SENT && data.valveOut != NEVER_SENT && data.soundIn != NEVER_SENT
    ensures Reports(Next(last, data), data) == []
  {
    var d := data.distanceCmX100;
    if d > 0 && !ValueChanged(d, last.distance, DISTANCE_DEADBAND) {
      assert Next(last, data).distance == last.distance;
    }
  }

  /**
   * Readings from read_all are never the out-of-range code, so the loop
   * never sends the distance 1 (the branch for -2 is never taken).
   */
  lemma NeverSendsOutOfRange(hw: NodeSensor.Inputs, last: Int32)
    ensures DistanceReport(NodeSensor.Sampled(hw).distanceCmX100, last) != Some(1)
  {
  }

  class SensorTask {
    /** s_node_mac_str */
    const macStr: string
    /** s_last_sensor_data */
    var lastData: NodeSensor.SensorData
    /** s_last_distance, s_last_valve_in, s_last_valve_out, s_last_sound_in */
    var lastDistance: Int32
    var lastValveIn: Byte
    var lastValveOut: Byte
    var lastSoundIn: Byte
    /** Every packet handed to the radio, oldest first. */
    var outbox: seq<Protocol.PacketV1>

    function LastSent(): Last
      reads this`lastDistance, this`lastValveIn, this`lastValveOut, this`lastSoundIn
    {
      Last(lastDistance, lastValveIn, lastValveOut, lastSoundIn)
    }

    /** The statics at boot: nothing sent, a zeroed record. */
    constructor (mac: Protocol.Bytes6)
      ensures macStr == Protocol.MacToString(mac)
      ensures LastSent() == Initial && outbox == []
      ensures lastData == NodeSensor.SensorData(0, 0, 0, 0, 0)
    {
      macStr := Protocol.MacToString(mac);
      lastData := NodeSensor.SensorData(0, 0, 0, 0, 0);
      lastDistance, lastValveIn, lastValveOut, lastSoundIn := -1, NEVER_SENT, NEVER_SENT, NEVER_SENT;
      outbox := [];
    }

    /** send_telemetry: one packet more for the radio. */
    method SendTelemetry(typ: string, value: Int32, nowUs: nat)
      modifies this`outbox
      ensures outbox == old(outbox) + [Packet(macStr, Report(typ, value), nowUs)]
    {
      var packet := Protocol.PacketV1(macStr, typ, value, BATTERY_MV, (nowUs / 1000000) % U32, FIXED_RSSI);
      outbox := outbox + [packet];
    }

    /** The distance branch of sensor_task: at most one packet, and the last distance sent moves on. */
    method SendDistance(d: Int32, nowUs: nat)
      modifies this`lastDistance, this`outbox
      ensures lastDistance == DistanceReport(d, old(lastDistance)).UnwrapOr(old(lastDistance))
      ensures outbox == old(outbox) + Packets(macStr, ReportOf("distance_cm", DistanceReport(d, old(lastDistance))), nowUs)
    {
      if d > 0 {
        if ValueChanged(d, lastDistance, DISTANCE_DEADBAND) {
          SendTelemetry("distance_cm", d, nowUs);
          lastDistance := d;
        }
      } else if d == NodeSensor.DIST_TIMEOUT {
        if lastDistance != 0 {
          SendTelemetry("distance_cm", 0, nowUs);
          lastDistance := 0;
        }
      } else if d == NodeSensor.DIST_OUT_OF_RANGE {
        if lastDistance != 1 {
          SendTelemetry("distance_cm", 1, nowUs);
          lastDistance := 1;
        }
      }
    }

    /** One digital branch of sensor_task: at most one packet; the new last-sent level is returned. */
    method SendDigital(typ: string, v: Byte, last: Byte, nowUs: nat) returns (newLast: Byte)
      modifies this`outbox
      ensures newLast == DigitalReport(v, last).UnwrapOr(last)
      ensures outbox == old(outbox) + Packets(macStr, DigitalOf(typ, DigitalReport(v, last)), nowUs)
    {
      newLast := last;
      if last == NEVER_SENT || v != last {
        SendTelemetry(typ, v as Int32, nowUs);
        newLast := v;
      }
    }

    /**
     * One pass of sensor_task at time `nowUs`: when read_all fails nothing
     * changes; otherwise the record is refreshed, a packet goes out for each
     * variable Reports lists, and the last-sent values move on as Next says.
     */
    method Cycle(initialized: bool, hw: NodeSensor.Inputs, nowUs: nat)
      requires |hw.echoes| == NodeSensor.SENSOR_MEDIAN_SAMPLES
      modifies this`lastData, this`lastDistance, this`lastValveIn, this`lastValveOut, this`lastSoundIn, this`outbox
      ensures !initialized ==> lastData == old(lastData) && LastSent() == old(LastSent()) && outbox == old(outbox)
      ensures initialized ==> lastData == NodeSensor.Sampled(hw)
      ensures initialized ==> LastSent() == Next(old(LastSent()), lastData)
      ensures initialized ==> outbox == old(outbox) + Packets(macStr, Reports(old(LastSent()), lastData), nowUs)
    {
      var ret, record := NodeSensor.ReadAll(Some(lastData), initialized, hw);
      if ret != Ok {
        return;
      }
      lastData := record.value;
      SendChanged(nowUs);
    }

    /** The change checks of sensor_task on the record just read, in the loop's order. */
    method SendChanged(nowUs: nat)
      modifies this`lastDistance, this`lastValveIn, this`lastValveOut, this`lastSoundIn, this`outbox
      ensures LastSent() == Next(old(LastSent()), lastData)
      ensures outbox == old(outbox) + Packets(macStr, Reports(old(LastSent()), lastData), nowUs)
    {
      ghost var last := LastSent();
      ghost var o := outbox;
      ghost var a := Packets(macStr, ReportOf("distance_cm", DistanceReport(lastData.distanceCmX100, last.distance)), nowUs);
      ghost var b := Packets(macStr, DigitalOf("valve_in", DigitalReport(lastData.valveIn, last.valveIn)), nowUs);
      ghost var c := Packets(macStr, DigitalOf("valve_out", DigitalReport(lastData.valveOut, last.valveOut)), nowUs);
      ghost var e := Packets(macStr, DigitalOf("sound_in", DigitalReport(lastData.soundIn, last.soundIn)), nowUs);
      SendDistance(lastData.distanceCmX100, nowUs);
      assert outbox == o + a;
      lastValveIn := SendDigital("valve_in", lastData.valveIn, lastValveIn, nowUs);
      assert outbox == o + a + b;
      lastValveOut := SendDigital("valve_out", lastData.valveOut, lastValveOut, nowUs);
      assert outbox == o + a + b + c;
      lastSoundIn := SendDigital("sound_in", lastData.soundIn, lastSoundIn, nowUs);
      assert outbox == o + a + b + c + e;
      PacketsOfReports(macStr, last, lastData, nowUs);
      Concat4(o, a, b, c, e);
    }
  }

  lemma Concat4<T>(o: seq<T>, a: seq<T>, b: seq<T>, c: seq<T>, e: seq<T>)
    ensures o + a + b + c + e == o + (a + b + c + e)
  {
  }

  /** Packets of a concatenation. */
  lemma PacketsConcat(mac: string, a: seq<Report>, b: seq<Report>, nowUs: nat)
    ensures Packets(mac, a + b, nowUs) == Packets(mac, a, nowUs) + Packets(mac, b, nowUs)
  {
  }

  /** The packets of one cycle are those of its four branches, in order. */
  lemma PacketsOfReports(mac: string, last: Last, data: NodeSensor.SensorData, nowUs: nat)
    ensures Packets(mac, Reports(last, data), nowUs) ==
      Packets(mac, ReportOf("distance_cm", DistanceReport(data.distanceCmX100, last.distance)), nowUs)
        + Packets(mac, DigitalOf("valve_in", DigitalReport(data.valveIn, last.valveIn)), nowUs)
        + Packets(mac, DigitalOf("valve_out", DigitalReport(data.valveOut, last.valveOut)), nowUs)
        + Packets(mac, DigitalOf("sound_in", DigitalReport(data.soundIn, last.soundIn)), nowUs)
  {
    var a := ReportOf("distance_cm", DistanceReport(data.distanceCmX100, last.distance));
    var b := DigitalOf("valve_in", DigitalReport(data.valveIn, last.valveIn));
    var c := DigitalOf("valve_out", DigitalReport(data.valveOut, last.valveOut));
    var e := DigitalOf("sound_in", DigitalReport(data.soundIn, last.soundIn));
    PacketsConcat(mac, a + b + c, e, nowUs);
    PacketsConcat(mac, a + b, c, nowUs);
    PacketsConcat(mac, a, b, nowUs);
  }
}
