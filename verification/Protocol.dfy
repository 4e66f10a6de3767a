/**
 The translation unit between the node's own types and the wire (shared/protocol.cpp):
 encoding into a caller's buffer, and decoding a command in place.
 */
module Protocol {
  import opened Basics
  import opened Protobuf
  import opened TelemetrySchema
  import opened CommandSchema
  import opened AckSchema
  import WireBytes

  const SCHEMA_VERSION: U32 := 1
  const TELEMETRY_SIZE := 42
  const ACK_SIZE := 140
  const COMMAND_SIZE := 20

  datatype ReadingStatus = ReadingOk | ReadingWarmingUp | ReadingError

  /** struct sensor_reading: a value beside each presence flag, whatever the flag says. */
  datatype SensorReading = SensorReading(
    sequence: U32,
    uptimeMs: U32,
    hasCo2: bool, co2: U32,
    hasTemperature: bool, temperature: Float,
    hasHumidity: bool, humidity: Float,
    hasPressure: bool, pressure: U32,
    status: ReadingStatus)

  datatype AckStatus = Unspecified | Ok | InvalidArgument | Unsupported | Failed | Malformed

  /** The wire values, which the source keeps apart from its internal enumerations. */
  function SensorStatusCode(s: ReadingStatus): U32 {
    match s
    case ReadingOk => 1
    case ReadingWarmingUp => 2
    case ReadingError => 3
  }

  function AckStatusCode(s: AckStatus): U32 {
    match s
    case Unspecified => 0
    case Ok => 1
    case InvalidArgument => 2
    case Unsupported => 3
    case Failed => 4
    case Malformed => 5
  }

  /** A measurement as reported: present exactly when flagged, and then with that value. */
  predicate Measured<T(==)>(reported: Option<T>, has: bool, value: T) {
    if has then reported == Some(value) else reported.None?
  }

  /** The message says exactly what the reading says. */
  predicate Reports(m: Telemetry, r: SensorReading) {
    && m.schemaVersion == SCHEMA_VERSION
    && m.sequence == r.sequence
    && m.uptimeMs == r.uptimeMs
    && Measured(m.co2, r.hasCo2, r.co2)
    && Measured(m.temperature, r.hasTemperature, r.temperature)
    && Measured(m.humidity, r.hasHumidity, r.humidity)
    && Measured(m.pressure, r.hasPressure, r.pressure)
    && m.status == SensorStatusCode(r.status)
  }

  /** The enumerations as they stand on the wire, tag and value. */
  function SensorStatusBytes(s: ReadingStatus): Bytes {
    match s
    case ReadingOk => [56, 1]
    case ReadingWarmingUp => [56, 2]
    case ReadingError => [56, 3]
  }

  function AckStatusBytes(s: AckStatus): Bytes {
    match s
    case Unspecified => []
    case Ok => [24, 1]
    case InvalidArgument => [24, 2]
    case Unsupported => [24, 3]
    case Failed => [24, 4]
    case Malformed => [24, 5]
  }

  function When<T>(has: bool, value: T): Option<T> {
    if has then Some(value) else None
  }

  function ReadingParts(r: SensorReading): seq<Bytes> {
    [[8, 1], WireBytes.Number(16, r.sequence), WireBytes.Number(24, r.uptimeMs),
     WireBytes.Optional(32, When(r.hasCo2, r.co2)), WireBytes.Single(45, When(r.hasTemperature, r.temperature)),
     WireBytes.Single(53, When(r.hasHumidity, r.humidity)), SensorStatusBytes(r.status),
     WireBytes.Optional(64, When(r.hasPressure, r.pressure))]
  }

  /** A reading on the wire, byte by byte. */
  function TelemetryWire(r: SensorReading): Bytes {
    WireBytes.Join(ReadingParts(r))
  }

  /** An acknowledgement on the wire, byte by byte. */
  function AckWire(sequence: U32, status: AckStatus, detail: Option<Bytes>, info: Option<DeviceInfo>): Bytes {
    WireBytes.Join([[8, 1], WireBytes.Number(16, sequence), AckStatusBytes(status),
                    WireBytes.Text(34, Truncated(detail.GetOr([]))), WireBytes.OptionalInfo(info)])
  }

  lemma ReportPart(m: Telemetry, r: SensorReading, k: nat)
    requires Reports(m, r) && k < 8
    ensures WireBytes.TelemetryParts(m)[k] == ReadingParts(r)[k]
  {
    if k == 0 { assert WireBytes.Number(8, 1) == [8, 1]; }
    if k == 6 { assert WireBytes.Number(56, m.status) == SensorStatusBytes(r.status); }
  }

  lemma ReportIsOnTheWire(m: Telemetry, r: SensorReading)
    requires Reports(m, r)
    ensures PrintTelemetry(m) == TelemetryWire(r)
  {
    var parts, reading := WireBytes.TelemetryParts(m), ReadingParts(r);
    forall k: nat | k < 8 ensures parts[k] == reading[k] {
      ReportPart(m, r, k);
    }
    assert parts == reading;
    WireBytes.TelemetryBytes(m);
  }

  lemma AckIsOnTheWire(sequence: U32, status: AckStatus, detail: Option<Bytes>, info: Option<DeviceInfo>)
    requires info.Some? ==> InfoBounded(info.value)
    ensures PrintAck(AckFor(sequence, status, detail, info)) == AckWire(sequence, status, detail, info)
  {
    WireBytes.AckBytes(AckFor(sequence, status, detail, info));
    assert WireBytes.Number(8, 1) == [8, 1];
    assert WireBytes.Number(24, AckStatusCode(status)) == AckStatusBytes(status);
  }

  /** An output stream over a caller's buffer: it fails rather than growing anything. */
  method Write(bytes: Bytes, out: array<Byte>) returns (ok: bool)
    modifies out
    ensures ok <==> |bytes| <= out.Length
    ensures ok ==> out[..|bytes|] == bytes && out[|bytes|..] == old(out[|bytes|..])
  {
    for i := 0 to |bytes|
      invariant i <= out.Length
      invariant out[..i] == bytes[..i]
      invariant out[i..] == old(out[i..])
    {
      if i == out.Length {
        return false;
      }
      ghost var tail := out[i..];
      out[i] := bytes[i];
      assert out[i + 1..] == tail[1..];
    }
    assert bytes[..|bytes|] == bytes;
    return true;
  }

  method EncodeTelemetry(r: SensorReading, out: array<Byte>) returns (n: nat)
    modifies out
    ensures n <= out.Length && n <= TELEMETRY_SIZE
    ensures n > 0 ==> DecodeTelemetry(out[..n]).Some? && Reports(DecodeTelemetry(out[..n]).value, r)
    ensures n > 0 ==> out[..n] == TelemetryWire(r) && out[n..] == old(out[n..])
    ensures out.Length >= TELEMETRY_SIZE ==> n > 0
    ensures n == 0 <==> exists m :: Reports(m, r) && |PrintTelemetry(m)| > out.Length
  {
    var msg := NO_TELEMETRY.(schemaVersion := SCHEMA_VERSION, sequence := r.sequence, uptimeMs := r.uptimeMs);
    if r.hasCo2 {
      msg := msg.(co2 := Some(r.co2));
    }
    if r.hasTemperature {
      msg := msg.(temperature := Some(r.temperature));
    }
    if r.hasHumidity {
      msg := msg.(humidity := Some(r.humidity));
    }
    if r.hasPressure {
      msg := msg.(pressure := Some(r.pressure));
    }
    msg := msg.(status := SensorStatusCode(r.status));
    assert Reports(msg, r);
    assert forall m :: Reports(m, r) ==> m == msg;

    TelemetryFits(msg);
    TelemetryRoundTrip(msg);
    TelemetryIsNotEmpty(msg);
    ReportIsOnTheWire(msg, r);
    var ok := Write(PrintTelemetry(msg), out);
    n := if ok then |PrintTelemetry(msg)| else 0;
  }

  lemma TelemetryIsNotEmpty(m: Telemetry)
    requires m.schemaVersion != 0
    ensures PrintTelemetry(m) != []
  {
    assert DecodeTelemetry([]) == Some(NO_TELEMETRY);
    TelemetryRoundTrip(m);
  }

  /** strncpy into the 48-byte detail. */
  function Truncated(text: Bytes): (t: Bytes)
    ensures t <= text && |t| == Min(|text|, DETAIL_MAX)
  {
    text[..Min(|text|, DETAIL_MAX)]
  }

  function AckFor(sequence: U32, status: AckStatus, detail: Option<Bytes>, info: Option<DeviceInfo>): Ack {
    Ack(SCHEMA_VERSION, sequence, AckStatusCode(status), Truncated(detail.GetOr([])), info)
  }

  method EncodeAck(sequence: U32, status: AckStatus, detail: Option<Bytes>, info: Option<DeviceInfo>, out: array<Byte>)
    returns (n: nat)
    requires info.Some? ==> InfoBounded(info.value)
    modifies out
    ensures n <= out.Length && n <= ACK_SIZE
    ensures n > 0 ==> DecodeAck(out[..n]) == Some(AckFor(sequence, status, detail, info))
    ensures n > 0 ==> out[..n] == AckWire(sequence, status, detail, info) && out[n..] == old(out[n..])
    ensures out.Length >= ACK_SIZE ==> n > 0
    ensures n == 0 <==> |AckWire(sequence, status, detail, info)| > out.Length
  {
    var ack := NO_ACK.(schemaVersion := SCHEMA_VERSION, sequence := sequence, status := AckStatusCode(status));
    if detail.Some? {
      ack := ack.(detail := Truncated(detail.value));
    }
    if info.Some? {
      ack := ack.(info := Some(info.value));
    }
    AckFits(ack);
    AckRoundTrip(ack);
    AckIsOnTheWire(sequence, status, detail, info);
    assert DecodeAck([]) == Some(NO_ACK);
    assert PrintAck(ack) != [];
    var ok := Write(PrintAck(ack), out);
    n := if ok then |PrintAck(ack)| else 0;
  }

  /** A node_Command that decoding fills in place. */
  class CommandBox {
    var cmd: CommandSchema.Command

    constructor ()
      ensures cmd == NO_COMMAND
    {
      cmd := NO_COMMAND;
    }
  }

  lemma DecodeStep<M>(read: (M, Record) -> Option<M>, m: M, b: Bytes)
    requires b != []
    ensures Decode(read, m, b) ==
            match ParseRecord(b)
            case None => None
            case Some(p) =>
              match read(m, p.value)
              case None => None
              case Some(m') => Decode(read, m', p.rest)
  {
    if ParseRecord(b).Some? && ParseAll(ParseRecord(b).value.rest).Some? {
      var p := ParseRecord(b).value;
      var rs := [p.value] + ParseAll(p.rest).value;
      assert rs[1..] == ParseAll(p.rest).value;
    }
  }

  /** Fills `out` field by field as records arrive, and clears it again on any failure. */
  method DecodeCommandInto(b: Bytes, oversized: bool, out: CommandBox) returns (ok: bool)
    modifies out
    ensures ok <==> !oversized && DecodeCommand(b).Some?
    ensures ok ==> out.cmd == DecodeCommand(b).value
    ensures !ok ==> out.cmd == NO_COMMAND
  {
    out.cmd := NO_COMMAND;
    if oversized {
      return false;
    }
    var rest := b;
    while rest != []
      invariant Decode(ReadCommand, out.cmd, rest) == DecodeCommand(b)
      decreases |rest|
    {
      DecodeStep(ReadCommand, out.cmd, rest);
      var p := ParseRecord(rest);
      if p.None? {
        out.cmd := NO_COMMAND;
        return false;
      }
      var next := ReadCommand(out.cmd, p.value.value);
      if next.None? {
        out.cmd := NO_COMMAND;
        return false;
      }
      out.cmd := next.value;
      rest := p.value.rest;
    }
    return true;
  }
}
