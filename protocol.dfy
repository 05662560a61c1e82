/**
 * The node's wire protocol, version 2: the JSON packets (rendered by cJSON
 * into a caller's buffer), the packed binary record with its CRC-16, and
 * the MAC address text form. The binary record is the memory image of a
 * packed little-endian struct of 34 bytes; its checksum is the CRC of the
 * Modbus over Serial Line specification V1.02 (section 2.5.1.2): initial
 * value 0xFFFF, reflected polynomial 0xA001, no final XOR.
 */
module Protocol {
  import opened Wrappers
  import opened MachineInt
  import opened Esp
  import Text
  import Schema

  const PROTOCOL_VERSION := 2
  const PKT_TELEMETRY := 0x01
  const VAR_DISTANCE_CM := 0x10
  const VAR_VALVE_IN := 0x20
  const VAR_VALVE_OUT := 0x21
  const VAR_SOUND_IN := 0x30
  const MAGIC := 0xAA
  /** Bytes of the packed record; the CRC covers all but the last two. */
  const RECORD_SIZE := 34
  const COVERED_SIZE := 32

  // CRC-16 (Modbus).

  /** One of the eight shift steps per byte. */
  function Shift1(crc: bv16): bv16
  {
    if crc & 1 == 1 then (crc >> 1) ^ 0xA001 else crc >> 1
  }

  /** `n` shift steps. */
  function Shifts(crc: bv16, n: nat): bv16
  {
    if n == 0 then crc else Shift1(Shifts(crc, n - 1))
  }

  /** The register after folding in one byte. */
  function CrcByte(crc: bv16, b: bv8): bv16
  {
    Shifts(crc ^ (b as bv16), 8)
  }

  /** The CRC of a byte string: the register, from 0xFFFF, after each byte in turn. */
  function CrcOf(data: seq<bv8>): bv16
  {
    if data == [] then 0xFFFF else CrcByte(CrcOf(data[..|data| - 1]), data[|data| - 1])
  }

  /** aguada_crc16: the byte loop and the bit loop, computing CrcOf. */
  method Crc16(data: seq<bv8>) returns (crc: bv16)
    ensures crc == CrcOf(data)
  {
    crc := 0xFFFF;
    var i := 0;
    while i < |data|
      invariant 0 <= i <= |data|
      invariant crc == CrcOf(data[..i])
    {
      assert data[..i + 1][..i] == data[..i];
      crc := crc ^ (data[i] as bv16);
      ghost var start := crc;
      var j := 0;
      while j < 8
        invariant 0 <= j <= 8
        invariant crc == Shifts(start, j)
      {
        if crc & 1 == 1 {
          crc := (crc >> 1) ^ 0xA001;
        } else {
          crc := crc >> 1;
        }
        j := j + 1;
      }
      i := i + 1;
    }
    assert data[..|data|] == data;
  }

  /** The eight shift steps written out. */
  lemma EightShifts(crc: bv16)
    ensures Shifts(crc, 8) == Shift1(Shift1(Shift1(Shift1(Shift1(Shift1(Shift1(Shift1(crc))))))))
  {
    assert Shifts(crc, 1) == Shift1(crc);
    assert Shifts(crc, 2) == Shift1(Shifts(crc, 1));
    assert Shifts(crc, 3) == Shift1(Shifts(crc, 2));
    assert Shifts(crc, 4) == Shift1(Shifts(crc, 3));
    assert Shifts(crc, 5) == Shift1(Shifts(crc, 4));
    assert Shifts(crc, 6) == Shift1(Shifts(crc, 5));
    assert Shifts(crc, 7) == Shift1(Shifts(crc, 6));
  }

  /** On a register whose low byte is clear, the eight steps are plain shifts. */
  lemma PlainShifts(crc: bv16)
    requires crc & 0xFF == 0
    ensures Shifts(crc, 8) == crc >> 8
  {
    EightShifts(crc);
    assert Shift1(crc) == crc >> 1;
    assert Shift1(crc >> 1) == crc >> 2;
    assert Shift1(crc >> 2) == crc >> 3;
    assert Shift1(crc >> 3) == crc >> 4;
    assert Shift1(crc >> 4) == crc >> 5;
    assert Shift1(crc >> 5) == crc >> 6;
    assert Shift1(crc >> 6) == crc >> 7;
    assert Shift1(crc >> 7) == crc >> 8;
  }

  lemma CrcSnoc(data: seq<bv8>, b: bv8)
    ensures CrcOf(data + [b]) == CrcByte(CrcOf(data), b)
  {
    assert (data + [b])[..|data|] == data;
  }

  lemma CrcTwo(data: seq<bv8>, a: bv8, b: bv8)
    ensures CrcOf(data + [a, b]) == CrcByte(CrcByte(CrcOf(data), a), b)
  {
    assert data + [a, b] == (data + [a]) + [b];
    CrcSnoc(data + [a], b);
    CrcSnoc(data, a);
  }

  /** The CRC's two bytes in the order they are stored: low byte first. */
  function CrcBytes(crc: bv16): seq<bv8>
  {
    [(crc & 0xFF) as bv8, (crc >> 8) as bv8]
  }

  /** The value of two stored CRC bytes, low byte first. */
  function StoredCrc(lo: bv8, hi: bv8): bv16
  {
    (lo as bv16) | ((hi as bv16) << 8)
  }

  /** Storing and reading back the CRC bytes is the identity, and distinct values have distinct bytes. */
  lemma CrcBytesRoundTrip(crc: bv16)
    ensures StoredCrc(CrcBytes(crc)[0], CrcBytes(crc)[1]) == crc
  {
  }

  /**
   * The Modbus residue: running the CRC over data followed by its own CRC,
   * low byte first, ends with the register at zero. The low byte clears
   * the register's low half, so the next eight steps are plain shifts that
   * leave the high byte, which the next byte then cancels.
   */
  lemma CrcResidue(data: seq<bv8>)
    ensures CrcOf(data + CrcBytes(CrcOf(data))) == 0
  {
    var c := CrcOf(data);
    CrcTwo(data, CrcBytes(c)[0], CrcBytes(c)[1]);
    LowByteClears(c);
    HighByteCancels(c);
  }

  /** Folding in the register's own low byte leaves its high byte. */
  lemma LowByteClears(c: bv16)
    ensures CrcByte(c, CrcBytes(c)[0]) == c >> 8
  {
    assert c ^ (CrcBytes(c)[0] as bv16) == c & 0xFF00;
    PlainShifts(c & 0xFF00);
  }

  /** Folding the high byte into a register holding just that byte clears it. */
  lemma HighByteCancels(c: bv16)
    ensures CrcByte(c >> 8, CrcBytes(c)[1]) == 0
  {
    assert (c >> 8) ^ (CrcBytes(c)[1] as bv16) == 0;
    PlainShifts(0);
  }

  /** The standard check value of CRC-16/MODBUS: the nine bytes "123456789" give 0x4B37. */
  lemma CrcCheckValue()
    ensures CrcOf([0x31, 0x32, 0x33, 0x34, 0x35, 0x36, 0x37, 0x38, 0x39]) == 0x4B37
  {
    var p1: seq<bv8> := [0x31];
    var p2 := p1 + [0x32];
    var p3 := p2 + [0x33];
    var p4 := p3 + [0x34];
    var p5 := p4 + [0x35];
    var p6 := p5 + [0x36];
    var p7 := p6 + [0x37];
    var p8 := p7 + [0x38];
    var p9 := p8 + [0x39];
    CrcSnoc([], 0x31);
    assert [] + [0x31 as bv8] == p1;
    CrcStep(0xFFFF, 0x31, 0x947E);
    CrcSnoc(p1, 0x32);
    CrcStep(0x947E, 0x32, 0xF595);
    CrcSnoc(p2, 0x33);
    CrcStep(0xF595, 0x33, 0x7A75);
    CrcSnoc(p3, 0x34);
    CrcStep(0x7A75, 0x34, 0x30BA);
    CrcSnoc(p4, 0x35);
    CrcStep(0x30BA, 0x35, 0xA471);
    CrcSnoc(p5, 0x36);
    CrcStep(0xA471, 0x36, 0x32E4);
    CrcSnoc(p6, 0x37);
    CrcStep(0x32E4, 0x37, 0x9D73);
    CrcSnoc(p7, 0x38);
    CrcStep(0x9D73, 0x38, 0x37DD);
    CrcSnoc(p8, 0x39);
    CrcStep(0x37DD, 0x39, 0x4B37);
    assert p9 == [0x31, 0x32, 0x33, 0x34, 0x35, 0x36, 0x37, 0x38, 0x39];
  }

  /** One concrete byte step. */
  lemma CrcStep(crc: bv16, b: bv8, r: bv16)
    requires Shift1(Shift1(Shift1(Shift1(Shift1(Shift1(Shift1(Shift1(crc ^ (b as bv16))))))))) == r
    ensures CrcByte(crc, b) == r
  {
    EightShifts(crc ^ (b as bv16));
  }

  /** Each shift step loses nothing: its input can be recovered from its output. */
  lemma Shift1Injective(a: bv16, b: bv16)
    requires Shift1(a) == Shift1(b)
    ensures a == b
  {
  }

  lemma {:induction false} ShiftsInjective(a: bv16, b: bv16, n: nat)
    requires Shifts(a, n) == Shifts(b, n)
    ensures a == b
  {
    if n > 0 {
      Shift1Injective(Shifts(a, n - 1), Shifts(b, n - 1));
      ShiftsInjective(a, b, n - 1);
    }
  }

  /** Folding in a byte is injective in the register and in the byte. */
  lemma CrcByteInjective(c1: bv16, b1: bv8, c2: bv16, b2: bv8)
    requires CrcByte(c1, b1) == CrcByte(c2, b2)
    ensures c1 == c2 ==> b1 == b2
    ensures b1 == b2 ==> c1 == c2
  {
    ShiftsInjective(c1 ^ (b1 as bv16), c2 ^ (b2 as bv16), 8);
    XorInjective(c1, b1, c2, b2);
  }

  lemma XorInjective(c1: bv16, b1: bv8, c2: bv16, b2: bv8)
    requires c1 ^ (b1 as bv16) == c2 ^ (b2 as bv16)
    ensures c1 == c2 ==> b1 == b2
    ensures b1 == b2 ==> c1 == c2
  {
  }

  /** Changing any one byte of the data changes its CRC. */
  lemma {:induction false} OneByteChangesCrc(data: seq<bv8>, i: nat, x: bv8)
    requires i < |data| && x != data[i]
    ensures CrcOf(data[i := x]) != CrcOf(data)
    decreases |data|
  {
    var n := |data|;
    var d := data[i := x];
    if i == n - 1 {
      assert d[..n - 1] == data[..n - 1];
      if CrcOf(d) == CrcOf(data) {
        CrcByteInjective(CrcOf(d[..n - 1]), x, CrcOf(data[..n - 1]), data[n - 1]);
      }
    } else {
      assert d[..n - 1] == data[..n - 1][i := x];
      OneByteChangesCrc(data[..n - 1], i, x);
      if CrcOf(d) == CrcOf(data) {
        CrcByteInjective(CrcOf(d[..n - 1]), d[n - 1], CrcOf(data[..n - 1]), data[n - 1]);
      }
    }
  }

  // Packets.

  datatype PacketV1 = PacketV1(mac: string, typ: string, value: Int32, battery: Uint16, uptime: Uint32, rssi: Int8)
  datatype Health = Health(uptimeSec: Uint32, freeHeap: Uint32, temperature: Int8, rebootReason: Byte,
                           packetsSent: Uint32, packetsFailed: Uint32)
  datatype PacketV2 = PacketV2(base: PacketV1, health: Health)

  type Bytes6 = s: seq<Byte> | |s| == 6 witness [0, 0, 0, 0, 0, 0]

  /** The packed binary record's fields; mac and reserved are six bytes each. */
  datatype BinaryV2 = BinaryV2(magic: Byte, version: Byte, ptype: Byte, variable: Byte, mac: Bytes6,
                               value: Int32, battery: Uint16, uptime: Uint32, rssi: Int8,
                               freeHeap: Uint32, temperature: Int8, reserved: Bytes6, crc16: bv16)

  /** The variable code of a type name, 0 for a name it does not know. */
  function VarCode(typ: string): Byte
  {
    if typ == "distance_cm" then VAR_DISTANCE_CM
    else if typ == "valve_in" then VAR_VALVE_IN
    else if typ == "valve_out" then VAR_VALVE_OUT
    else if typ == "sound_in" then VAR_SOUND_IN
    else 0
  }

  /** The type name a variable code stands for. */
  function VarName(code: Byte): Option<string>
  {
    if code == VAR_DISTANCE_CM then Some("distance_cm")
    else if code == VAR_VALVE_IN then Some("valve_in")
    else if code == VAR_VALVE_OUT then Some("valve_out")
    else if code == VAR_SOUND_IN then Some("sound_in")
    else None
  }

  /** The four type names get distinct non-zero codes that name them back; any other name gets 0. */
  lemma VarCodeNames(typ: string)
    ensures VarName(VarCode(typ)).Some? ==> VarName(VarCode(typ)) == Some(typ)
    ensures VarCode(typ) == 0 <==> typ !in {"distance_cm", "valve_in", "valve_out", "sound_in"}
    ensures VarName(VarCode(typ)).None? <==> VarCode(typ) == 0
  {
  }

  /** `n` as `k` little-endian bytes. */
  function LittleEndian(n: nat, k: nat): (r: seq<bv8>)
    ensures |r| == k
  {
    if k == 0 then [] else [(n % 256) as bv8] + LittleEndian(n / 256, k - 1)
  }

  function Bv(s: Bytes6): (r: seq<bv8>)
    ensures |r| == 6
  {
    seq(6, i requires 0 <= i < 6 => s[i] as bv8)
  }

  /** The record's memory up to the CRC field: the bytes the CRC covers. */
  function Covered(b: BinaryV2): (r: seq<bv8>)
    ensures |r| == COVERED_SIZE
    ensures r[0] == b.magic as bv8
  {
    [b.magic as bv8, b.version as bv8, b.ptype as bv8, b.variable as bv8] + Bv(b.mac) +
    LittleEndian(Unsigned(b.value, U32), 4) + LittleEndian(b.battery, 2) + LittleEndian(b.uptime, 4) +
    [Unsigned(b.rssi, U8) as bv8] + LittleEndian(b.freeHeap, 4) + [Unsigned(b.temperature, U8) as bv8] +
    Bv(b.reserved)
  }

  /** The record's whole memory: the covered bytes and then the CRC field. */
  function Image(b: BinaryV2): (r: seq<bv8>)
    ensures |r| == RECORD_SIZE && r[..COVERED_SIZE] == Covered(b)
    ensures r[0] == b.magic as bv8 && StoredCrc(r[32], r[33]) == b.crc16
  {
    CrcBytesRoundTrip(b.crc16);
    Covered(b) + CrcBytes(b.crc16)
  }

  /** aguada_verify_binary on the record's memory: a record, the magic byte, a matching CRC. */
  function VerifyBinary(binary: Option<seq<bv8>>): (r: bool)
    requires binary.Some? ==> |binary.value| == RECORD_SIZE
    ensures binary.None? ==> !r
    ensures binary.Some? && binary.value[0] != MAGIC as bv8 ==> !r
  {
    binary.Some? && binary.value[0] == MAGIC as bv8 &&
    CrcOf(binary.value[..COVERED_SIZE]) == StoredCrc(binary.value[32], binary.value[33])
  }

  /** The record build_binary_v2 zeroes before filling it. */
  function Zeroed(): BinaryV2
  {
    BinaryV2(0, 0, 0, 0, [0, 0, 0, 0, 0, 0], 0, 0, 0, 0, 0, 0, [0, 0, 0, 0, 0, 0], 0)
  }

  /** The record's fields as build_binary_v2 fills them, before the CRC. */
  function Filled(p: PacketV2): BinaryV2
  {
    Zeroed().(magic := MAGIC, version := PROTOCOL_VERSION, ptype := PKT_TELEMETRY, variable := VarCode(p.base.typ),
              mac := StringToMac(p.base.mac, Zeroed().mac), value := p.base.value, battery := p.base.battery,
              uptime := p.base.uptime, rssi := p.base.rssi, freeHeap := p.health.freeHeap,
              temperature := p.health.temperature)
  }

  /** The finished record: the filled fields and the CRC of their memory. */
  function Built(p: PacketV2): BinaryV2
  {
    Filled(p).(crc16 := CrcOf(Covered(Filled(p))))
  }

  /**
   * aguada_build_binary_v2: a missing packet or record is an invalid
   * argument and nothing is written; otherwise the record is zeroed,
   * stamped with the magic byte, version 2 and the telemetry type, the
   * type name becomes its code and the MAC text its bytes, the readings
   * are copied and the CRC of the first 32 bytes is stored.
   */
  method BuildBinaryV2(packet: Option<PacketV2>, out: Option<BinaryV2>) returns (err: EspErr, binary: Option<BinaryV2>)
    ensures packet.None? || out.None? ==> err == InvalidArg && binary == out
    ensures packet.Some? && out.Some? ==> err == Ok && binary == Some(Built(packet.value))
  {
    if packet.None? || out.None? {
      return InvalidArg, out;
    }
    var p := packet.value;
    var b := Zeroed();
    b := b.(magic := MAGIC, version := PROTOCOL_VERSION, ptype := PKT_TELEMETRY);
    b := b.(variable := VarCode(p.base.typ));
    b := b.(mac := StringToMac(p.base.mac, b.mac));
    b := b.(value := p.base.value, battery := p.base.battery, uptime := p.base.uptime, rssi := p.base.rssi);
    b := b.(freeHeap := p.health.freeHeap, temperature := p.health.temperature);
    var crc := Crc16(Covered(b));
    b := b.(crc16 := crc);
    return Ok, Some(b);
  }

  /**
   * A built record carries the magic byte, version 2, the telemetry type,
   * zero reserved bytes and the packet's readings; it passes
   * verify_binary, and the CRC over all 34 bytes is zero.
   */
  lemma BuiltVerifies(p: PacketV2)
    ensures var b := Built(p);
      b.magic == MAGIC && b.version == PROTOCOL_VERSION && b.ptype == PKT_TELEMETRY &&
      b.variable == VarCode(p.base.typ) && b.reserved == [0, 0, 0, 0, 0, 0] &&
      b.value == p.base.value && b.battery == p.base.battery && b.uptime == p.base.uptime &&
      b.rssi == p.base.rssi && b.freeHeap == p.health.freeHeap && b.temperature == p.health.temperature
    ensures VerifyBinary(Some(Image(Built(p))))
    ensures CrcOf(Image(Built(p))) == 0
  {
    var b := Built(p);
    assert Covered(b) == Covered(Filled(p));
    assert Image(b) == Covered(Filled(p)) + CrcBytes(CrcOf(Covered(Filled(p))));
    CrcResidue(Covered(Filled(p)));
  }

  /** Any one corrupted byte of a built record, CRC bytes included, makes verification fail. */
  lemma CorruptedRecordRejected(p: PacketV2, i: nat, x: bv8)
    requires i < RECORD_SIZE && x != Image(Built(p))[i]
    ensures !VerifyBinary(Some(Image(Built(p))[i := x]))
  {
    var img := Image(Built(p));
    var bad := img[i := x];
    BuiltVerifies(p);
    if 0 < i < COVERED_SIZE {
      assert bad[..COVERED_SIZE] == img[..COVERED_SIZE][i := x];
      OneByteChangesCrc(img[..COVERED_SIZE], i, x);
      assert StoredCrc(bad[32], bad[33]) == StoredCrc(img[32], img[33]);
    } else if i >= COVERED_SIZE {
      assert bad[..COVERED_SIZE] == img[..COVERED_SIZE];
      if StoredCrc(img[32], img[33]) == StoredCrc(bad[32], bad[33]) {
        StoredCrcInjective(img[32], img[33], bad[32], bad[33]);
      }
    }
  }

  lemma StoredCrcInjective(lo1: bv8, hi1: bv8, lo2: bv8, hi2: bv8)
    requires StoredCrc(lo1, hi1) == StoredCrc(lo2, hi2)
    ensures lo1 == lo2 && hi1 == hi2
  {
  }

  // MAC addresses.

  /** aguada_mac_to_string: `%02X:%02X:%02X:%02X:%02X:%02X`. */
  function MacToString(mac: Bytes6): (s: string)
    ensures |s| == 17
    ensures forall i :: 0 <= i < 17 && i % 3 == 2 ==> s[i] == ':'
  {
    seq(17, i requires 0 <= i < 17 =>
      if i % 3 == 2 then ':' else if i % 3 == 0 then Text.HexDigit(mac[i / 3] / 16) else Text.HexDigit(mac[i / 3] % 16))
  }

  /** Group `g` of a MAC text: two hexadecimal digits after the separator that precedes it. */
  function Group(s: string, g: nat): Option<Byte>
    requires g < 6
  {
    var at := 3 * g;
    if at + 1 < |s| && (g == 0 || s[at - 1] == ':') && Text.IsHexDigit(s[at]) && Text.IsHexDigit(s[at + 1])
    then Some(Text.HexValue(s[at]).value * 16 + Text.HexValue(s[at + 1]).value)
    else None
  }

  /**
   * aguada_string_to_mac: `sscanf` with `%02hhx` groups separated by ':'
   * stores each group it matches and stops at the first that does not,
   * leaving the remaining bytes as they were.
   */
  function StringToMac(s: string, mac: Bytes6): (r: Bytes6)
    ensures Group(s, 0).None? ==> r == mac
    ensures forall k :: 0 <= k < 6 && Group(s, k).None? ==> r[k] == mac[k]
    ensures forall k :: 0 <= k < 6 && (forall j :: 0 <= j <= k ==> Group(s, j).Some?) ==> r[k] == Group(s, k).value
  {
    ScanFrom(s, 0, mac)
  }

  function ScanFrom(s: string, g: nat, mac: Bytes6): (r: Bytes6)
    requires g <= 6
    ensures forall k :: 0 <= k < g ==> r[k] == mac[k]
    ensures forall k :: g <= k < 6 && Group(s, k).None? ==> r[k] == mac[k]
    ensures forall k :: g <= k < 6 && (forall j :: g <= j <= k ==> Group(s, j).Some?) ==> r[k] == Group(s, k).value
    decreases 6 - g
  {
    if g == 6 then mac
    else match Group(s, g)
      case None => mac
      case Some(v) => ScanFrom(s, g + 1, mac[g := v])
  }

  /**
   * mac_to_string's text passes the backend's node_mac schema and reads
   * back as the same bytes, both by the backend's parser and by
   * string_to_mac, whatever the destination held before.
   */
  lemma MacRoundTrip(mac: Bytes6, before: Bytes6)
    ensures Schema.ValidMac(MacToString(mac))
    ensures Schema.ParseMac(MacToString(mac)).Some? && Schema.ParseMac(MacToString(mac)).value == mac
    ensures StringToMac(MacToString(mac), before) == mac
  {
    var s := MacToString(mac);
    forall g | 0 <= g < 6
      ensures Text.IsHexDigit(s[3 * g]) && Text.IsHexDigit(s[3 * g + 1])
      ensures Text.HexValue(s[3 * g]) == Some(mac[g] / 16) && Text.HexValue(s[3 * g + 1]) == Some(mac[g] % 16)
    {
      MacDigits(mac, g);
    }
    assert Schema.ValidMac(s) by {
      forall i | 0 <= i < 17 && i % 3 != 2
        ensures Text.IsHexDigit(s[i])
      {
        assert i == 3 * (i / 3) || i == 3 * (i / 3) + 1;
      }
    }
    assert Schema.ParseMac(s).value == mac by {
      forall g | 0 <= g < 6
        ensures Schema.ByteAt(s, g) == mac[g]
      {
      }
    }
    forall g | 0 <= g < 6
      ensures Group(s, g) == Some(mac[g])
    {
      GroupOfMac(mac, g);
    }
    ScanAll(s, 0, before, mac);
  }

  lemma GroupOfMac(mac: Bytes6, g: nat)
    requires g < 6
    ensures Group(MacToString(mac), g) == Some(mac[g])
  {
    var s := MacToString(mac);
    var at := 3 * g;
    MacDigits(mac, g);
    assert at + 1 < |s|;
    assert g == 0 || s[at - 1] == ':' by {
      if g > 0 {
        assert (at - 1) % 3 == 2;
      }
    }
    GroupOfDigits(s, g, mac[g]);
  }

  /** A group whose two digits read as a byte's two halves reads as that byte. */
  lemma GroupOfDigits(s: string, g: nat, b: Byte)
    requires g < 6 && 3 * g + 1 < |s| && (g == 0 || s[3 * g - 1] == ':')
    requires Text.HexValue(s[3 * g]) == Some(b / 16) && Text.HexValue(s[3 * g + 1]) == Some(b % 16)
    ensures Group(s, g) == Some(b)
  {
    assert Text.IsHexDigit(s[3 * g]) && Text.IsHexDigit(s[3 * g + 1]);
    assert (b / 16) * 16 + b % 16 == b;
  }

  /** The two digits of group `g` read back as the byte's two halves. */
  lemma MacDigits(mac: Bytes6, g: nat)
    requires g < 6
    ensures var s := MacToString(mac);
      s[3 * g] == Text.HexDigit(mac[g] / 16) && s[3 * g + 1] == Text.HexDigit(mac[g] % 16) &&
      Text.HexValue(s[3 * g]) == Some(mac[g] / 16) && Text.HexValue(s[3 * g + 1]) == Some(mac[g] % 16)
  {
    Text.HexDigitValue(mac[g] / 16);
    Text.HexDigitValue(mac[g] % 16);
  }

  /** When every group from `g` on matches, scanning from `g` stores all of them. */
  lemma {:induction false} ScanAll(s: string, g: nat, acc: Bytes6, mac: Bytes6)
    requires g <= 6
    requires forall k :: 0 <= k < g ==> acc[k] == mac[k]
    requires forall k :: g <= k < 6 ==> Group(s, k) == Some(mac[k])
    ensures ScanFrom(s, g, acc) == mac
    decreases 6 - g
  {
    if g < 6 {
      ScanAll(s, g + 1, acc[g := mac[g]], mac);
    }
  }

  // JSON packets.

  /**
   * aguada_build_json_v1 and _v2, which differ only in the fields cJSON
   * renders: a missing packet or buffer is an invalid argument; a failed
   * cJSON allocation (`rendered` is None) is out of memory; a text that
   * with its terminator does not fit `bufSize` is an invalid size and
   * leaves the buffer untouched; otherwise the text and a NUL are copied
   * to the start of the buffer and the rest is left as it was.
   */
  method BuildJson<P>(packet: Option<P>, buf: array?<char>, bufSize: nat, rendered: Option<string>) returns (err: EspErr)
    requires buf != null ==> bufSize <= buf.Length
    modifies buf
    ensures packet.None? || buf == null ==> err == InvalidArg
    ensures buf != null && err != Ok ==> buf[..] == old(buf[..])
    ensures packet.Some? && buf != null ==>
      (rendered.None? ==> err == NoMem) &&
      (rendered.Some? && |rendered.value| >= bufSize ==> err == InvalidSize) &&
      (rendered.Some? && |rendered.value| < bufSize ==> err == Ok)
    ensures err == Ok ==> (buf != null && rendered.Some? &&
      buf[..|rendered.value| + 1] == rendered.value + ['\0'] &&
      buf[|rendered.value| + 1..] == old(buf[..])[|rendered.value| + 1..])
  {
    if packet.None? || buf == null {
      return InvalidArg;
    }
    if rendered.None? {
      return NoMem;
    }
    var text := rendered.value;
    if |text| >= bufSize {
      return InvalidSize;
    }
    var i := 0;
    while i < |text|
      invariant 0 <= i <= |text|
      invariant forall k :: 0 <= k < i ==> buf[k] == text[k]
      invariant forall k :: i <= k < buf.Length ==> buf[k] == old(buf[k])
    {
      buf[i] := text[i];
      i := i + 1;
    }
    buf[|text|] := '\0';
    assert buf[..|text| + 1] == text + ['\0'];
    assert buf[|text| + 1..] == old(buf[..])[|text| + 1..];
    err := Ok;
  }
}
