/**
 The bytes themselves: what each message of proto/node.proto is on the wire, written out with
 literal tag bytes and field values, independently of how this model prints and reads it.
 */
module WireBytes {
  import opened Basics
  import opened Protobuf
  import opened AckSchema
  import opened CommandSchema
  import opened TelemetrySchema

  // ---- base 128 -------------------------------------------------------------------------

  /** Seven bits a byte, least significant first. */
  function Groups(b: Bytes): nat
    decreases |b|
  {
    if b == [] then 0 else b[0] % 128 + 128 * Groups(b[1..])
  }

  /** A varint: every byte but the last has its top bit set, and together they say the value. */
  lemma {:induction false} VarintBytes(v: nat)
    ensures var b := PrintVarint(v);
      && Groups(b) == v
      && (forall k :: 0 <= k < |b| ==> (b[k] >= 128 <==> k < |b| - 1))
      && (|b| > 1 ==> Last(b) != 0)
    decreases v
  {
    if v >= 128 {
      VarintBytes(v / 128);
      var (b, rest) := (PrintVarint(v), PrintVarint(v / 128));
      assert b[1..] == rest;
      forall k | 0 <= k < |b| ensures b[k] >= 128 <==> k < |b| - 1 {
        if k > 0 {
          assert b[k] == rest[k - 1];
        }
      }
    }
  }

  // ---- fields ---------------------------------------------------------------------------

  /** A number that is left out when it is zero. */
  function Number(tag: Byte, v: nat): Bytes {
    if v == 0 then [] else [tag] + PrintVarint(v)
  }

  /** A number that is written whenever it is set, zero included. */
  function Optional(tag: Byte, v: Option<nat>): Bytes {
    match v case None => [] case Some(n) => [tag] + PrintVarint(n)
  }

  /** Four bytes as they are. */
  function Single(tag: Byte, v: Option<Float>): Bytes {
    match v case None => [] case Some(raw) => [tag] + raw
  }

  /** Bytes behind their length, left out when there are none. */
  function Text(tag: Byte, text: Bytes): Bytes {
    if text == [] then [] else [tag] + PrintVarint(|text|) + text
  }

  /** The same, written even when there are none. */
  function Message(tag: Byte, body: Bytes): Bytes {
    [tag] + PrintVarint(|body|) + body
  }

  /** A record of a field below 16 begins with a single byte: eight times the number, plus 0, 1, 2 or 5. */
  lemma RecordBytes(r: Record)
    requires WellFormed(r) && r.number < 16
    ensures PrintAll([r]) == Print(r)
    ensures Print(r) ==
            match r.payload
            case Varint(v) => [8 * r.number] + PrintVarint(v)
            case Fixed64(raw) => [8 * r.number + 1] + raw
            case Delimited(raw) => [8 * r.number + 2] + PrintVarint(|raw|) + raw
            case Fixed32(raw) => [8 * r.number + 5] + raw
  {
    assert [r][1..] == [];
    match r.payload
    case Delimited(raw) =>
      assert [8 * r.number + 2] + PrintVarint(|raw|) + raw == [8 * r.number + 2] + (PrintVarint(|raw|) + raw);
    case _ =>
  }

  lemma NumberBytes(n: nat, v: U32)
    requires 1 <= n < 16
    ensures PrintAll(ImplicitField(n, v)) == Number(8 * n, v)
  {
    RecordBytes(Record(n, Varint(v)));
  }

  lemma OptionalBytes(n: nat, v: Option<U32>)
    requires 1 <= n < 16
    ensures PrintAll(ExplicitField(n, v)) == Optional(8 * n, v)
  {
    if v.Some? {
      RecordBytes(Record(n, Varint(v.value)));
    }
  }

  lemma SingleBytes(n: nat, v: Option<Float>)
    requires 1 <= n < 16
    ensures PrintAll(FloatField(n, v)) == Single(8 * n + 5, v)
  {
    if v.Some? {
      RecordBytes(Record(n, Fixed32(v.value)));
    }
  }

  lemma TextBytes(n: nat, text: Bytes)
    requires 1 <= n < 16 && |text| < U32_LIMIT
    ensures PrintAll(StringField(n, text)) == Text(8 * n + 2, text)
  {
    if text != [] {
      RecordBytes(Record(n, Delimited(text)));
    }
  }

  function Join(parts: seq<Bytes>): Bytes
    decreases |parts|
  {
    if parts == [] then [] else parts[0] + Join(parts[1..])
  }

  lemma {:induction false} PiecesJoin(pieces: seq<seq<Record>>, parts: seq<Bytes>)
    requires |pieces| == |parts| && forall k :: 0 <= k < |pieces| ==> PrintAll(pieces[k]) == parts[k]
    ensures PrintAll(Flatten(pieces)) == Join(parts)
    decreases |pieces|
  {
    if pieces != [] {
      PiecesJoin(pieces[1..], parts[1..]);
      PrintAllConcat(pieces[0], Flatten(pieces[1..]));
    }
  }

  // ---- messages -------------------------------------------------------------------------

  function TelemetryParts(m: Telemetry): seq<Bytes> {
    [Number(8, m.schemaVersion), Number(16, m.sequence), Number(24, m.uptimeMs), Optional(32, m.co2),
     Single(45, m.temperature), Single(53, m.humidity), Number(56, m.status), Optional(64, m.pressure)]
  }

  lemma TelemetryPart(m: Telemetry, k: nat)
    requires k < 8
    ensures PrintAll(TelemetryFields(m)[k]) == TelemetryParts(m)[k]
  {
    if k == 0 { NumberBytes(1, m.schemaVersion); }
    if k == 1 { NumberBytes(2, m.sequence); }
    if k == 2 { NumberBytes(3, m.uptimeMs); }
    if k == 3 { OptionalBytes(4, m.co2); }
    if k == 4 { SingleBytes(5, m.temperature); }
    if k == 5 { SingleBytes(6, m.humidity); }
    if k == 6 { NumberBytes(7, m.status); }
    if k == 7 { OptionalBytes(8, m.pressure); }
  }

  /** Telemetry: numbers under 8, 16, 24, 32, 56 and 64, singles under 45 and 53. */
  lemma TelemetryBytes(m: Telemetry)
    ensures PrintTelemetry(m) == Join(TelemetryParts(m))
  {
    var pieces, parts := TelemetryFields(m), TelemetryParts(m);
    forall k: nat | k < 8 ensures PrintAll(pieces[k]) == parts[k] {
      TelemetryPart(m, k);
    }
    PiecesJoin(pieces, parts);
  }

  function OldTelemetryParts(m: OldTelemetry): seq<Bytes> {
    [Number(8, m.schemaVersion), Number(16, m.sequence), Number(24, m.uptimeMs), Number(32, m.co2),
     Single(45, NonZero(m.temperature)), Single(53, NonZero(m.humidity)), Number(56, m.status)]
  }

  lemma OldTelemetryPart(m: OldTelemetry, k: nat)
    requires k < 7
    ensures PrintAll(OldTelemetryFields(m)[k]) == OldTelemetryParts(m)[k]
  {
    if k == 0 { NumberBytes(1, m.schemaVersion); }
    if k == 1 { NumberBytes(2, m.sequence); }
    if k == 2 { NumberBytes(3, m.uptimeMs); }
    if k == 3 { NumberBytes(4, m.co2); }
    if k == 4 { SingleBytes(5, NonZero(m.temperature)); }
    if k == 5 { SingleBytes(6, NonZero(m.humidity)); }
    if k == 6 { NumberBytes(7, m.status); }
  }

  /** The previous Telemetry: the same without 64, and with zeros left out throughout. */
  lemma OldTelemetryBytes(m: OldTelemetry)
    ensures PrintAll(Flatten(OldTelemetryFields(m))) == Join(OldTelemetryParts(m))
  {
    var pieces, parts := OldTelemetryFields(m), OldTelemetryParts(m);
    forall k: nat | k < 7 ensures PrintAll(pieces[k]) == parts[k] {
      OldTelemetryPart(m, k);
    }
    PiecesJoin(pieces, parts);
  }

  function OneofBytes(body: Body): Bytes {
    match body
    case NoPayload => []
    case SetInterval(ms) => Message(82, Number(8, ms))
    case TriggerMeasurement => [90, 0]
    case GetDeviceInfo => [98, 0]
  }

  /** Command: numbers under 8 and 16, and at most one message under 82, 90 or 98. */
  lemma CommandBytes(m: Command)
    ensures PrintCommand(m) == Join([Number(8, m.schemaVersion), Number(16, m.sequence), OneofBytes(m.body)])
  {
    var pieces, parts := CommandFields(m), [Number(8, m.schemaVersion), Number(16, m.sequence), OneofBytes(m.body)];
    forall k: nat | k < 3 ensures PrintAll(pieces[k]) == parts[k] {
      if k == 0 { NumberBytes(1, m.schemaVersion); }
      if k == 1 { NumberBytes(2, m.sequence); }
      if k == 2 { OneofIsOnTheWire(m.body); }
    }
    PiecesJoin(pieces, parts);
  }

  lemma OneofIsOnTheWire(body: Body)
    ensures PrintAll(BodyField(body)) == OneofBytes(body)
  {
    BodyFits(body);
    match body
    case SetInterval(ms) =>
      NumberBytes(1, ms);
      RecordBytes(BodyField(body)[0]);
    case NoPayload =>
    case _ => RecordBytes(BodyField(body)[0]);
  }

  function InfoParts(d: DeviceInfo): seq<Bytes> {
    [Text(10, d.firmwareVersion), Text(18, d.board), Text(26, d.clientId)]
  }

  function InfoBytes(d: DeviceInfo): Bytes {
    Join(InfoParts(d))
  }

  function OptionalInfo(info: Option<DeviceInfo>): Bytes {
    match info case None => [] case Some(d) => Message(42, InfoBytes(d))
  }

  lemma InfoPart(d: DeviceInfo, k: nat)
    requires InfoBounded(d) && k < 3
    ensures PrintAll(InfoFields(d)[k]) == InfoParts(d)[k]
  {
    if k == 0 { TextBytes(1, d.firmwareVersion); }
    if k == 1 { TextBytes(2, d.board); }
    if k == 2 { TextBytes(3, d.clientId); }
  }

  lemma InfoIsOnTheWire(d: DeviceInfo)
    requires InfoBounded(d)
    ensures PrintInfo(d) == InfoBytes(d)
  {
    var pieces, parts := InfoFields(d), InfoParts(d);
    forall k: nat | k < 3 ensures PrintAll(pieces[k]) == parts[k] {
      InfoPart(d, k);
    }
    PiecesJoin(pieces, parts);
  }

  lemma OptionalInfoIsOnTheWire(info: Option<DeviceInfo>)
    requires info.Some? ==> InfoBounded(info.value)
    ensures PrintAll(InfoField(info)) == OptionalInfo(info)
  {
    if info.Some? {
      InfoFits(info.value);
      InfoIsOnTheWire(info.value);
      RecordBytes(Record(5, Delimited(PrintInfo(info.value))));
    }
  }

  function AckParts(m: Ack): seq<Bytes> {
    [Number(8, m.schemaVersion), Number(16, m.sequence), Number(24, m.status), Text(34, m.detail), OptionalInfo(m.info)]
  }

  lemma AckPart(m: Ack, k: nat)
    requires Bounded(m) && k < 5
    ensures PrintAll(AckFields(m)[k]) == AckParts(m)[k]
  {
    if k == 0 { NumberBytes(1, m.schemaVersion); }
    if k == 1 { NumberBytes(2, m.sequence); }
    if k == 2 { NumberBytes(3, m.status); }
    if k == 3 { TextBytes(4, m.detail); }
    if k == 4 { OptionalInfoIsOnTheWire(m.info); }
  }

  /** Ack: numbers under 8, 16 and 24, text under 34, device information under 42 with texts under 10, 18 and 26. */
  lemma AckBytes(m: Ack)
    requires Bounded(m)
    ensures PrintAck(m) == Join(AckParts(m))
  {
    var pieces, parts := AckFields(m), AckParts(m);
    forall k: nat | k < 5 ensures PrintAll(pieces[k]) == parts[k] {
      AckPart(m, k);
    }
    PiecesJoin(pieces, parts);
  }
}
