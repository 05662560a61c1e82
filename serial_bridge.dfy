/**
 * The serial bridge between the USB gateway and the backend: each line the
 * gateway prints is filtered (empty, short and ESP-IDF log lines are
 * ignored), the JSON in it is located with `/\{.*\}/`, and an object in one
 * of the two telemetry formats is counted and forwarded. JSON parsing and
 * the HTTP POST are outside the model: the parse result and whether the
 * backend answered 2xx are parameters.
 */
module SerialBridge {
  import opened Wrappers
  import Text

  /** The ESP-IDF noise the bridge drops before looking for JSON. */
  predicate Ignored(line: string)
  {
    line == [] ||
    Text.StartsWith(line, "I (") || Text.StartsWith(line, "W (") || Text.StartsWith(line, "E (") ||
    Text.Contains(line, "rst:") || Text.Contains(line, "mode:") || Text.Contains(line, "ets ") ||
    |line| < 10
  }

  /** A line that gets past the filter has at least ten characters and no log prefix. */
  lemma PassedLines(line: string)
    requires !Ignored(line)
    ensures |line| >= 10 && line[..3] != "I (" && line[..3] != "W (" && line[..3] != "E ("
  {
  }

  /** The characters JavaScript's `.` does not match. */
  predicate LineTerminator(c: char)
  {
    c == '\n' || c == '\r' || c == '\U{2028}' || c == '\U{2029}'
  }

  /** The first line terminator at or after `i`, or the end of the line. */
  function SegmentEnd(line: string, i: nat): (e: nat)
    requires i <= |line|
    ensures i <= e <= |line|
    ensures forall k :: i <= k < e ==> !LineTerminator(line[k])
    ensures e < |line| ==> LineTerminator(line[e])
    decreases |line| - i
  {
    if i == |line| || LineTerminator(line[i]) then i else SegmentEnd(line, i + 1)
  }

  /** The last `}` at an index in [lo, hi), if there is one. */
  function LastClose(line: string, lo: nat, hi: nat): (r: Option<nat>)
    requires lo <= hi <= |line|
    ensures r.Some? ==> lo <= r.value < hi && line[r.value] == '}'
    decreases hi - lo
  {
    if hi == lo then None
    else if line[hi - 1] == '}' then Some(hi - 1)
    else LastClose(line, lo, hi - 1)
  }

  /** A `}` with none after it before `hi` is the last one. */
  lemma {:induction false} LastCloseIs(line: string, lo: nat, hi: nat, l: nat)
    requires lo <= l < hi <= |line| && line[l] == '}'
    requires forall k :: l < k < hi ==> line[k] != '}'
    ensures LastClose(line, lo, hi) == Some(l)
    decreases hi - lo
  {
    if hi - 1 != l {
      LastCloseIs(line, lo, hi - 1, l);
    }
  }

  /** Without a `}` in [lo, hi) there is no last one. */
  lemma {:induction false} NoLastClose(line: string, lo: nat, hi: nat)
    requires lo <= hi <= |line|
    requires forall k :: lo <= k < hi ==> line[k] != '}'
    ensures LastClose(line, lo, hi) == None
    decreases hi - lo
  {
    if hi != lo {
      NoLastClose(line, lo, hi - 1);
    }
  }

  /**
   * The match of `/\{.*\}/` from position `i` on: the leftmost `{` that
   * has a `}` after it on the same line segment, up to the last such `}`
   * (the greedy `.*`), as a half-open range.
   */
  function MatchFrom(line: string, i: nat): (r: Option<(nat, nat)>)
    requires i <= |line|
    ensures r.Some? ==> (i <= r.value.0 < r.value.1 <= |line| &&
      line[r.value.0] == '{' && line[r.value.1 - 1] == '}')
    decreases |line| - i
  {
    if i == |line| then None
    else if line[i] == '{' then
      match LastClose(line, i + 1, SegmentEnd(line, i + 1))
      case Some(k) => Some((i, k + 1))
      case None => MatchFrom(line, i + 1)
    else MatchFrom(line, i + 1)
  }

  /** `jsonString`: the regex match when there is one, the whole line otherwise. */
  function JsonCandidate(line: string): (r: string)
    ensures r == line || (|r| >= 2 && r[0] == '{' && r[|r| - 1] == '}')
  {
    match MatchFrom(line, 0)
    case Some((a, b)) => line[a..b]
    case None => line
  }

  /**
   * On a line without terminators (the reader splits on '\n' and trims;
   * `SegmentEnd(line, 0) == |line|` says there are none),
   * the candidate runs from the first `{` to the last `}` when the last `}`
   * comes after the first `{`, and is the whole line otherwise.
   */
  lemma CandidateIsOutermostBraces(line: string)
    requires SegmentEnd(line, 0) == |line|
    ensures JsonCandidate(line) == OutermostBraces(line)
  {
    var f := Text.FirstIndexOf(line, '{');
    var l := Text.LastIndexOf(line, '}');
    if f.None? {
      NoneBefore(line, |line|, '{');
      NoOpenNoMatch(line, 0);
    } else {
      NoneBefore(line, f.value, '{');
      if l.None? {
        NoneBefore(line, |line|, '}');
        CandidateWithoutClose(line, f.value);
      } else {
        NoneAfter(line, l.value, '}');
        if f.value < l.value {
          CandidateWithBraces(line, f.value, l.value);
        } else {
          CandidateWithoutClose(line, f.value);
        }
      }
    }
  }

  /** From the first `{` to the last `}`, when the last `}` comes after the first `{`; else the line. */
  function OutermostBraces(line: string): string
  {
    var f := Text.FirstIndexOf(line, '{');
    var l := Text.LastIndexOf(line, '}');
    if f.Some? && l.Some? && f.value < l.value then line[f.value..l.value + 1] else line
  }

  lemma NoneBefore(s: string, n: nat, c: char)
    requires n <= |s| && c !in s[..n]
    ensures forall k :: 0 <= k < n ==> s[k] != c
  {
    forall k | 0 <= k < n
      ensures s[k] != c
    {
      assert s[..n][k] == s[k];
    }
  }

  lemma NoneAfter(s: string, l: nat, c: char)
    requires l < |s| && c !in s[l + 1..]
    ensures forall k :: l < k < |s| ==> s[k] != c
  {
    forall k | l < k < |s|
      ensures s[k] != c
    {
      assert s[l + 1..][k - l - 1] == s[k];
    }
  }

  /** With no `}` after the first `{`, nothing matches. */
  lemma CandidateWithoutClose(line: string, f: nat)
    requires f < |line| && line[f] == '{' && forall k :: 0 <= k < f ==> line[k] != '{'
    requires forall k :: f < k < |line| ==> line[k] != '}'
    ensures JsonCandidate(line) == line
  {
    SkipToFirstOpen(line, 0, f);
    NoCloseNoMatch(line, f);
  }

  /** On a line without terminators, the match runs from the first `{` to the last `}` after it. */
  lemma CandidateWithBraces(line: string, f: nat, l: nat)
    requires SegmentEnd(line, 0) == |line|
    requires f < l < |line| && line[f] == '{' && line[l] == '}'
    requires forall k :: 0 <= k < f ==> line[k] != '{'
    requires forall k :: l < k < |line| ==> line[k] != '}'
    ensures JsonCandidate(line) == line[f..l + 1]
  {
    assert LastClose(line, f + 1, SegmentEnd(line, f + 1)) == Some(l) by {
      NoTerminatorEnd(line, f + 1);
      LastCloseIs(line, f + 1, |line|, l);
    }
    MatchAtOpen(line, f, l);
    SkipToFirstOpen(line, 0, f);
  }

  /** At a `{`, the match runs to the last `}` of the segment after it. */
  lemma MatchAtOpen(line: string, f: nat, l: nat)
    requires f < |line| && line[f] == '{'
    requires LastClose(line, f + 1, SegmentEnd(line, f + 1)) == Some(l)
    ensures MatchFrom(line, f) == Some((f, l + 1))
  {
  }

  /** Past every `{` there is nothing to match. */
  lemma {:induction false} NoOpenNoMatch(line: string, i: nat)
    requires i <= |line| && forall k :: i <= k < |line| ==> line[k] != '{'
    ensures MatchFrom(line, i) == None
    decreases |line| - i
  {
    if i < |line| {
      NoOpenNoMatch(line, i + 1);
    }
  }

  /** The search moves over the characters before the first `{`. */
  lemma {:induction false} SkipToFirstOpen(line: string, i: nat, f: nat)
    requires i <= f < |line| && line[f] == '{' && forall k :: i <= k < f ==> line[k] != '{'
    ensures MatchFrom(line, i) == MatchFrom(line, f)
    decreases f - i
  {
    if i < f {
      SkipToFirstOpen(line, i + 1, f);
    }
  }

  /** Without a `}` after `i` there is nothing to match either. */
  lemma {:induction false} NoCloseNoMatch(line: string, i: nat)
    requires i <= |line| && forall k :: i < k < |line| ==> line[k] != '}'
    ensures MatchFrom(line, i) == None
    decreases |line| - i
  {
    if i < |line| {
      if line[i] == '{' {
        NoLastClose(line, i + 1, SegmentEnd(line, i + 1));
      }
      NoCloseNoMatch(line, i + 1);
    }
  }

  lemma NoTerminators(line: string)
    requires forall k :: 0 <= k < |line| ==> !LineTerminator(line[k])
    ensures SegmentEnd(line, 0) == |line|
  {
    var i := |line|;
    while i > 0
      invariant 0 <= i <= |line| && SegmentEnd(line, i) == |line|
    {
      i := i - 1;
    }
  }

  /** A line without terminators has none from any position on. */
  lemma {:induction false} NoTerminatorEnd(line: string, i: nat)
    requires i <= |line| && SegmentEnd(line, 0) == |line|
    ensures SegmentEnd(line, i) == |line|
    decreases |line| - i
  {
    if i < |line| {
      assert !LineTerminator(line[i]);
      NoTerminatorEnd(line, i + 1);
    }
  }

  /** What a JSON value is, as far as the format checks look at it. */
  datatype JsonValue = JNull | JBool(b: bool) | JNum(n: real) | JStr(s: string) | JComposite

  /** The result of `JSON.parse`: an object, or any other value. */
  datatype Json = Object(fields: map<string, JsonValue>) | Scalar(v: JsonValue)

  /** JavaScript truthiness, `undefined` (a missing member) being falsy. */
  predicate Truthy(v: Option<JsonValue>)
  {
    match v
    case None => false
    case Some(JNull) => false
    case Some(JBool(b)) => b
    case Some(JNum(n)) => n != 0.0
    case Some(JStr(s)) => s != ""
    case Some(JComposite) => true
  }

  function Member(fields: map<string, JsonValue>, key: string): Option<JsonValue>
  {
    if key in fields then Some(fields[key]) else None
  }

  /** `{mac, distance_mm, ...}`. */
  predicate IsAguada1Format(fields: map<string, JsonValue>)
  {
    Truthy(Member(fields, "mac")) && "distance_mm" in fields
  }

  /** `{mac, type, value}`. */
  predicate IsOldFormat(fields: map<string, JsonValue>)
  {
    Truthy(Member(fields, "mac")) && Truthy(Member(fields, "type")) && "value" in fields
  }

  /**
   * The packet the bridge forwards: an object in either format. Reading a
   * member of `null` throws and anything else that is not an object has no
   * members; both end the handler silently, like a parse error.
   */
  function Accepted(parsed: Option<Json>): (r: Option<map<string, JsonValue>>)
    ensures r.Some? <==> (parsed.Some? && parsed.value.Object? &&
      ((Truthy(Member(parsed.value.fields, "mac")) && "distance_mm" in parsed.value.fields) ||
       (Truthy(Member(parsed.value.fields, "mac")) && Truthy(Member(parsed.value.fields, "type")) &&
        "value" in parsed.value.fields)))
    ensures r.Some? ==> r.value == parsed.value.fields
  {
    if parsed.Some? && parsed.value.Object? &&
       (IsAguada1Format(parsed.value.fields) || IsOldFormat(parsed.value.fields))
    then Some(parsed.value.fields) else None
  }

  /** A `null` value for `distance_mm` still selects the AGUADA-1 format; an empty MAC selects neither. */
  lemma FormatEdges()
    ensures Accepted(Some(Object(map["mac" := JStr("AA"), "distance_mm" := JNull]))).Some?
    ensures Accepted(Some(Object(map["mac" := JStr(""), "distance_mm" := JNum(1.0)]))).None?
    ensures Accepted(Some(Object(map["mac" := JStr("AA"), "type" := JNum(0.0), "value" := JNum(1.0)]))).None?
  {
    assert "distance_mm" in map["mac" := JStr("AA"), "distance_mm" := JNull];
  }

  /**
   * How the backend's answer to one POST turns out: the request fails
   * (network error or timeout), the status is not 2xx, or a 2xx arrives
   * whose body `response.json()` parses (`Some`) or rejects (`None`).
   */
  datatype Delivery = Failed | Rejected | Answered(body: Option<Json>)

  /**
   * A 2xx answer whose body is read without throwing: it parses, and it is
   * not `null`, whose `sensor_id` member cannot be read.
   */
  predicate ReadBack(reply: Delivery)
  {
    reply.Answered? && reply.body.Some? && reply.body.value != Scalar(JNull)
  }

  /** getStats. `uptime` is in whole seconds. */
  datatype Stats = Stats(packetsReceived: nat, packetsSent: nat, errors: nat, lastPacketTime: Option<int>,
                         startTime: int, uptime: int, isConnected: bool, portPath: string)

  class Bridge {
    var packetsReceived: nat
    var packetsSent: nat
    var errors: nat
    var lastPacketTime: Option<int>
    var startTime: int
    var isConnected: bool
    var portPath: string

    /** The constructor with `config.portPath` (default `/dev/ttyACM0`), started at `now`. */
    constructor (configPortPath: Option<string>, now: int)
      ensures packetsReceived == 0 && packetsSent == 0 && errors == 0 && lastPacketTime.None?
      ensures startTime == now && !isConnected
      ensures portPath == if configPortPath.Some? && configPortPath.value != "" then configPortPath.value else "/dev/ttyACM0"
    {
      packetsReceived, packetsSent, errors := 0, 0, 0;
      lastPacketTime := None;
      startTime := now;
      isConnected := false;
      portPath := if configPortPath.Some? && configPortPath.value != "" then configPortPath.value else "/dev/ttyACM0";
    }

    /**
     * handleIncomingData on one trimmed line. `parsed` is what `JSON.parse`
     * gives for `JsonCandidate(line)` (None when it throws) and `reply` how
     * the backend answers. The forwarded object is returned. An accepted
     * packet is counted at `now` and then goes through SendToBackend; any
     * other line changes nothing.
     */
    method HandleIncomingData(line: string, parsed: Option<Json>, reply: Delivery, now: int)
      returns (forwarded: Option<map<string, JsonValue>>)
      modifies this`packetsReceived, this`lastPacketTime, this`packetsSent, this`errors
      ensures forwarded == if Ignored(line) then None else Accepted(parsed)
      ensures forwarded.None? ==>
        packetsReceived == old(packetsReceived) && lastPacketTime == old(lastPacketTime) &&
        packetsSent == old(packetsSent) && errors == old(errors)
      ensures forwarded.Some? ==>
        packetsReceived == old(packetsReceived) + 1 && lastPacketTime == Some(now) &&
        packetsSent == old(packetsSent) + (if reply.Answered? then 1 else 0) &&
        errors == old(errors) + (if ReadBack(reply) then 0 else 1)
    {
      if Ignored(line) {
        return None;
      }
      forwarded := Accepted(parsed);
      if forwarded.None? {
        return;
      }
      packetsReceived := packetsReceived + 1;
      lastPacketTime := Some(now);
      SendToBackend(reply);
    }

    /**
     * sendToBackend: a 2xx answer counts as sent before its body is read,
     * so a 2xx whose body cannot be read counts as sent and as an error;
     * another status or a failed request counts only as an error.
     */
    method SendToBackend(reply: Delivery)
      modifies this`packetsSent, this`errors
      ensures reply.Answered? <==> packetsSent == old(packetsSent) + 1
      ensures !reply.Answered? ==> packetsSent == old(packetsSent)
      ensures !ReadBack(reply) <==> errors == old(errors) + 1
      ensures ReadBack(reply) ==> errors == old(errors)
      ensures packetsSent + errors == old(packetsSent) + old(errors) +
        (if reply.Answered? && !ReadBack(reply) then 2 else 1)
    {
      if reply.Answered? {
        packetsSent := packetsSent + 1;
        if !ReadBack(reply) {
          errors := errors + 1;
        }
      } else {
        errors := errors + 1;
      }
    }

    /** The port's `error` event, counted as an error. */
    method OnPortError()
      modifies this`errors
      ensures errors == old(errors) + 1
    {
      errors := errors + 1;
    }

    /** The port's `open` and `close` events. */
    method SetConnected(connected: bool)
      modifies this`isConnected
      ensures isConnected == connected
    {
      isConnected := connected;
    }

    function GetStats(now: int): (s: Stats)
      reads this
      ensures s.uptime * 1000 <= now - startTime < s.uptime * 1000 + 1000
      ensures s.packetsReceived == packetsReceived && s.packetsSent == packetsSent && s.errors == errors
      ensures s.lastPacketTime == lastPacketTime && s.startTime == startTime
      ensures s.isConnected == isConnected && s.portPath == portPath
    {
      Stats(packetsReceived, packetsSent, errors, lastPacketTime, startTime, (now - startTime) / 1000,
            isConnected, portPath)
    }
  }

  /** Bridge lines as the gateway prints them: the framed data line and a boot message. */
  lemma GatewayLines()
    ensures JsonCandidate("D: {\"a\":1}") == "{\"a\":1}"
    ensures Ignored("rst:0x1 (POWERON)")
  {
    var line := "D: {\"a\":1}";
    assert line[..3] == "D: ";
    assert line[10..] == [];
    NoTerminators(line);
    CandidateWithBraces(line, 3, 9);
    assert line[3..10] == "{\"a\":1}";
    assert Text.StartsWith("rst:0x1 (POWERON)", "rst:");
  }
}
