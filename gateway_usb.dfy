/**
 * The USB gateway's bridge from ESP-NOW to the serial line: the receive
 * callback admits packets of 1 to MAX_PACKET_SIZE bytes into a bounded
 * queue, and the serial task turns each queued packet into one output
 * line: a JSON object gets an `"rssi"` field when it has none, anything
 * else is wrapped in a JSON object with the sender's MAC. Packet payloads
 * are modelled as characters, one per byte.
 */
module GatewayUsb {
  import opened MachineInt
  import opened Wrappers
  import Text
  import Protocol

  const MAX_PACKET_SIZE := 250
  const QUEUE_SIZE := 30
  const RSSI_KEY := "\"rssi\""

  /** The receive callback's length check. */
  predicate Admitted(len: int)
  {
    0 < len <= MAX_PACKET_SIZE
  }

  /** The C string held by a buffer: its characters up to the first NUL. */
  function CString(b: seq<char>): (r: seq<char>)
    ensures r <= b && '\0' !in r
    ensures |r| < |b| ==> b[|r|] == '\0'
  {
    if b == [] || b[0] == '\0' then [] else [b[0]] + CString(b[1..])
  }

  /** A buffer holding the payload and then a NUL holds the payload's C string, whatever follows. */
  lemma {:induction false} TerminatedPayload(payload: seq<char>, rest: seq<char>)
    ensures CString(payload + ['\0'] + rest) == CString(payload)
  {
    if payload != [] && payload[0] != '\0' {
      assert (payload + ['\0'] + rest)[1..] == payload[1..] + ['\0'] + rest;
      TerminatedPayload(payload[1..], rest);
    }
  }

  /** Text with no NUL is its own C string. */
  lemma {:induction false} PlainCString(s: seq<char>)
    requires '\0' !in s
    ensures CString(s) == s
  {
    if s != [] {
      PlainCString(s[1..]);
    }
  }

  /** A JSON payload without `"rssi"`: its last `}` is cut and the field appended with a closing brace. */
  function WithRssi(c: string, rssi: int): string
  {
    var body := match Text.LastIndexOf(c, '}') case Some(k) => c[..k] case None => c;
    body + ",\"rssi\":" + Text.IntString(rssi) + "}"
  }

  /** A payload that is not JSON: wrapped as `{"mac":..,"raw":..,"rssi":N}`, without escaping. */
  function Wrapped(senderMac: Protocol.Bytes6, c: string, rssi: int): string
  {
    "{\"mac\":\"" + Protocol.MacToString(senderMac) + "\",\"raw\":\"" + c + "\",\"rssi\":" + Text.IntString(rssi) + "}"
  }

  /** What serial_task prints for one packet, less the newline. */
  function Emitted(senderMac: Protocol.Bytes6, payload: seq<char>, rssi: int): string
  {
    var c := CString(payload);
    if |c| > 0 && c[0] == '{' then
      if Text.Contains(c, RSSI_KEY) then c else WithRssi(c, rssi)
    else Wrapped(senderMac, c, rssi)
  }

  lemma IntStringPlain(n: int)
    ensures '\0' !in Text.IntString(n) && '}' !in Text.IntString(n) && |Text.IntString(n)| > 0
  {
    var r := Text.NatString(if n < 0 then -n else n);
    assert forall i :: 0 <= i < |r| ==> '0' <= r[i] <= '9';
  }

  /**
   * A JSON payload that ends in `}` and has no `"rssi"` comes out with the
   * brace replaced by `,"rssi":N}`.
   */
  lemma RssiAppended(senderMac: Protocol.Bytes6, payload: seq<char>, rssi: int)
    requires '\0' !in payload && |payload| > 0 && payload[0] == '{' && payload[|payload| - 1] == '}'
    requires !Text.Contains(payload, RSSI_KEY)
    ensures Emitted(senderMac, payload, rssi) == payload[..|payload| - 1] + ",\"rssi\":" + Text.IntString(rssi) + "}"
  {
    PlainCString(payload);
  }

  /** A JSON payload that already names `"rssi"` is printed as it is. */
  lemma RssiKept(senderMac: Protocol.Bytes6, payload: seq<char>, rssi: int)
    requires '\0' !in payload && |payload| > 0 && payload[0] == '{' && Text.Contains(payload, RSSI_KEY)
    ensures Emitted(senderMac, payload, rssi) == payload
  {
    PlainCString(payload);
  }

  /**
   * Any other payload is wrapped: the upper-case MAC sits at characters
   * 8–24 and the payload's text, unescaped, right after `","raw":"`.
   */
  lemma RawWrapped(senderMac: Protocol.Bytes6, payload: seq<char>, rssi: int)
    requires '\0' !in payload && !(|payload| > 0 && payload[0] == '{')
    ensures var out := Emitted(senderMac, payload, rssi);
      |out| > 34 + |payload| && out[8..25] == Protocol.MacToString(senderMac) && out[34..34 + |payload|] == payload
  {
    PlainCString(payload);
    IntStringPlain(rssi);
  }

  /**
   * Every printed line is a brace-opened text without NUL that names
   * `"rssi"`, whatever the packet held.
   */
  lemma EveryLineNamesRssi(senderMac: Protocol.Bytes6, payload: seq<char>, rssi: int)
    ensures var out := Emitted(senderMac, payload, rssi);
      |out| > 0 && out[0] == '{' && '\0' !in out && Text.Contains(out, RSSI_KEY)
  {
    var c := CString(payload);
    if |c| > 0 && c[0] == '{' {
      if !Text.Contains(c, RSSI_KEY) {
        WithRssiNamesRssi(c, rssi);
      }
    } else {
      WrappedNamesRssi(senderMac, c, rssi);
    }
  }

  lemma WithRssiNamesRssi(c: string, rssi: int)
    requires |c| > 0 && c[0] == '{' && '\0' !in c
    ensures var out := WithRssi(c, rssi);
      |out| > 0 && out[0] == '{' && '\0' !in out && Text.Contains(out, RSSI_KEY)
  {
    IntStringPlain(rssi);
    var body := match Text.LastIndexOf(c, '}') case Some(k) => c[..k] case None => c;
    var out := WithRssi(c, rssi);
    assert |body| > 0 && body[0] == '{';
    assert '\0' !in body;
    assert out == body + ",\"rssi\":" + Text.IntString(rssi) + "}";
    assert out[|body| + 1..|body| + 7] == RSSI_KEY;
    Text.ContainsAt(out, RSSI_KEY, |body| + 1);
  }

  lemma WrappedNamesRssi(senderMac: Protocol.Bytes6, c: string, rssi: int)
    requires '\0' !in c
    ensures var out := Wrapped(senderMac, c, rssi);
      |out| > 0 && out[0] == '{' && '\0' !in out && Text.Contains(out, RSSI_KEY)
  {
    IntStringPlain(rssi);
    var mac := Protocol.MacToString(senderMac);
    MacPlain(senderMac);
    var prefix := "{\"mac\":\"" + mac + "\",\"raw\":\"" + c + "\",";
    var out := Wrapped(senderMac, c, rssi);
    assert out == prefix + RSSI_KEY + ":" + Text.IntString(rssi) + "}";
    assert out[|prefix|..|prefix| + 6] == RSSI_KEY;
    Text.ContainsAt(out, RSSI_KEY, |prefix|);
  }

  lemma MacPlain(mac: Protocol.Bytes6)
    ensures '\0' !in Protocol.MacToString(mac)
  {
    var s := Protocol.MacToString(mac);
    forall i | 0 <= i < 17
      ensures s[i] != '\0'
    {
      if i % 3 != 2 {
        var d := if i % 3 == 0 then mac[i / 3] / 16 else mac[i / 3] % 16;
        Text.HexDigitValue(d);
      }
    }
  }

  /**
   * The rewrite is idempotent: feeding a printed line back through the
   * bridge, from any sender and with any RSSI, prints it unchanged.
   */
  lemma EmittedIdempotent(senderMac: Protocol.Bytes6, payload: seq<char>, rssi: int,
                          otherMac: Protocol.Bytes6, otherRssi: int)
    ensures var out := Emitted(senderMac, payload, rssi);
      Emitted(otherMac, out, otherRssi) == out
  {
    var out := Emitted(senderMac, payload, rssi);
    EveryLineNamesRssi(senderMac, payload, rssi);
    PlainCString(out);
  }

  /** A packet as the callback queues it: the first `len` bytes received. */
  datatype EspNowPacket = EspNowPacket(mac: Protocol.Bytes6, payload: seq<char>, len: int, rssi: int, timestamp: int)

  /**
   * `pkt.data[pkt.len] = '\0'` on the buffer as declared, `uint8_t
   * data[MAX_PACKET_SIZE]`: the write needs `len` below the buffer's size.
   */
  method TerminateAsWritten(data: array<char>, len: int)
    requires data.Length == MAX_PACKET_SIZE
    requires 0 <= len < data.Length
    modifies data
    ensures data[..] == old(data[..])[len := '\0']
  {
    data[len] := '\0';
  }

  /** The length check admits a length whose terminator falls one past the declared buffer. */
  lemma AdmittedLengthOverruns()
    ensures exists len :: Admitted(len) && !(0 <= len < MAX_PACKET_SIZE)
  {
    assert Admitted(MAX_PACKET_SIZE);
  }

  /** The terminator write on a buffer one byte larger, which every admitted length fits. */
  method Terminate(data: array<char>, len: int)
    requires data.Length == MAX_PACKET_SIZE + 1 && Admitted(len)
    modifies data
    ensures data[..] == old(data[..])[len := '\0']
  {
    data[len] := '\0';
  }

  /** Every admitted length, terminated in the larger buffer, leaves the payload's C string readable. */
  lemma TerminatorFits(len: int, payload: seq<char>, rest: seq<char>)
    requires Admitted(len) && |payload| == len && |rest| == MAX_PACKET_SIZE - len
    ensures 0 <= len < MAX_PACKET_SIZE + 1
    ensures |payload + ['\0'] + rest| == MAX_PACKET_SIZE + 1
    ensures CString(payload + ['\0'] + rest) == CString(payload)
  {
    TerminatedPayload(payload, rest);
  }

  class UsbGateway {
    var queue: seq<EspNowPacket>
    var packetsReceived: nat
    var packetsProcessed: nat
    var packetsDropped: nat
    /** The lines printed on the serial port, oldest first. */
    var lines: seq<string>

    /** The counters fit their `uint32_t`; the queue holds at most QUEUE_SIZE admitted packets. */
    predicate Valid()
      reads this`queue, this`packetsReceived, this`packetsProcessed, this`packetsDropped
    {
      packetsReceived < U32 && packetsProcessed < U32 && packetsDropped < U32 && |queue| <= QUEUE_SIZE &&
      forall i :: 0 <= i < |queue| ==> Admitted(queue[i].len) && |queue[i].payload| == queue[i].len
    }

    constructor ()
      ensures Valid() && queue == [] && lines == []
      ensures packetsReceived == 0 && packetsProcessed == 0 && packetsDropped == 0
    {
      queue := [];
      packetsReceived, packetsProcessed, packetsDropped := 0, 0, 0;
      lines := [];
    }

    /**
     * espnow_recv_cb: a length outside 1..MAX_PACKET_SIZE is ignored and
     * not counted; any other packet is counted as received and queued at
     * the back, or counted as dropped when the queue is full.
     */
    method RecvCb(src: Protocol.Bytes6, data: seq<char>, len: int, rssi: int, now: int)
      requires Valid()
      requires Admitted(len) ==> |data| >= len
      modifies this`queue, this`packetsReceived, this`packetsDropped
      ensures Valid()
      ensures !Admitted(len) ==> (queue == old(queue) && packetsReceived == old(packetsReceived) &&
        packetsDropped == old(packetsDropped))
      ensures Admitted(len) ==> packetsReceived == Inc32(old(packetsReceived))
      ensures Admitted(len) && |old(queue)| < QUEUE_SIZE ==>
        queue == old(queue) + [EspNowPacket(src, data[..len], len, rssi, now)] && packetsDropped == old(packetsDropped)
      ensures Admitted(len) && |old(queue)| >= QUEUE_SIZE ==>
        queue == old(queue) && packetsDropped == Inc32(old(packetsDropped))
    {
      if len <= 0 || len > MAX_PACKET_SIZE {
        return;
      }
      packetsReceived := Inc32(packetsReceived);
      var pkt := EspNowPacket(src, data[..len], len, rssi, now);
      if |queue| < QUEUE_SIZE {
        queue := queue + [pkt];
      } else {
        packetsDropped := Inc32(packetsDropped);
      }
    }

    /**
     * One pass of serial_task: with nothing queued it keeps waiting and
     * nothing changes; otherwise the front packet is taken, copied into a
     * buffer with room for its terminator, printed as Emitted says plus a
     * newline, and counted as processed once.
     */
    method SerialStep() returns (printed: Option<string>)
      requires Valid()
      modifies this`queue, this`packetsProcessed, this`lines
      ensures Valid()
      ensures old(queue) == [] ==> (printed.None? && queue == old(queue) && lines == old(lines) &&
        packetsProcessed == old(packetsProcessed))
      ensures old(queue) != [] ==> var p := old(queue)[0];
        queue == old(queue)[1..] && packetsProcessed == Inc32(old(packetsProcessed)) &&
        printed == Some(Emitted(p.mac, p.payload, p.rssi) + "\n") && lines == old(lines) + [printed.value]
    {
      if queue == [] {
        return None;
      }
      var pkt := queue[0];
      queue := queue[1..];
      var buffer := new char[MAX_PACKET_SIZE + 1](_ => '\0');
      forall i | 0 <= i < pkt.len {
        buffer[i] := pkt.payload[i];
      }
      Terminate(buffer, pkt.len);
      assert buffer[..] == pkt.payload + ['\0'] + buffer[pkt.len + 1..];
      TerminatedPayload(pkt.payload, buffer[pkt.len + 1..]);
      var c := CString(buffer[..]);
      var line;
      if |c| > 0 && c[0] == '{' {
        if Text.Contains(c, RSSI_KEY) {
          line := c;
        } else {
          line := WithRssi(c, pkt.rssi);
        }
      } else {
        line := Wrapped(pkt.mac, c, pkt.rssi);
      }
      printed := Some(line + "\n");
      lines := lines + [printed.value];
      packetsProcessed := Inc32(packetsProcessed);
    }
  }
}
