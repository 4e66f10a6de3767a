/**
 The Telemetry message of proto/node.proto: what it prints as and how it is read, including
 by a reader of the schema that preceded explicit presence and field 8.
 */
module TelemetrySchema {
  import opened Basics
  import opened Protobuf

  const ZERO_FLOAT: Float := [0, 0, 0, 0]

  // ---- Telemetry ------------------------------------------------------------------------

  datatype Telemetry = Telemetry(
    schemaVersion: U32,
    sequence: U32,
    uptimeMs: U32,
    co2: Option<U32>,
    temperature: Option<Float>,
    humidity: Option<Float>,
    status: U32,
    pressure: Option<U32>)

  const NO_TELEMETRY := Telemetry(0, 0, 0, None, None, None, 0, None)

  function TelemetryFields(m: Telemetry): seq<seq<Record>> {
    [ImplicitField(1, m.schemaVersion),
     ImplicitField(2, m.sequence),
     ImplicitField(3, m.uptimeMs),
     ExplicitField(4, m.co2),
     FloatField(5, m.temperature),
     FloatField(6, m.humidity),
     ImplicitField(7, m.status),
     ExplicitField(8, m.pressure)]
  }

  function PrintTelemetry(m: Telemetry): Bytes {
    PrintAll(Flatten(TelemetryFields(m)))
  }

  function ReadTelemetry(m: Telemetry, r: Record): Option<Telemetry> {
    match r.number
    case 1 => AsU32(r.payload).Map((v: U32) => m.(schemaVersion := v))
    case 2 => AsU32(r.payload).Map((v: U32) => m.(sequence := v))
    case 3 => AsU32(r.payload).Map((v: U32) => m.(uptimeMs := v))
    case 4 => AsU32(r.payload).Map((v: U32) => m.(co2 := Some(v)))
    case 5 => AsFloat(r.payload).Map((v: Float) => m.(temperature := Some(v)))
    case 6 => AsFloat(r.payload).Map((v: Float) => m.(humidity := Some(v)))
    case 7 => AsU32(r.payload).Map((v: U32) => m.(status := v))
    case 8 => AsU32(r.payload).Map((v: U32) => m.(pressure := Some(v)))
    case _ => Some(m)
  }

  function DecodeTelemetry(b: Bytes): Option<Telemetry> {
    Decode(ReadTelemetry, NO_TELEMETRY, b)
  }

  /** Running totals of the bounds on Telemetry's fields; the status enum's values fit one byte. */
  function TelemetryTotals(m: Telemetry): seq<nat> {
    if m.status < 128 then [0, 6, 12, 18, 24, 29, 34, 36, 42] else [0, 6, 12, 18, 24, 29, 34, 40, 46]
  }

  lemma TelemetryFieldFits(m: Telemetry, k: nat)
    requires k < 8
    ensures var piece := TelemetryFields(m)[k];
            AllWellFormed(piece) && TelemetryTotals(m)[k] + |PrintAll(piece)| <= TelemetryTotals(m)[k + 1]
  {
    if k == 0 { ImplicitLength(1, m.schemaVersion); }
    if k == 1 { ImplicitLength(2, m.sequence); }
    if k == 2 { ImplicitLength(3, m.uptimeMs); }
    if k == 3 { ExplicitLength(4, m.co2); }
    if k == 4 { FloatLength(5, m.temperature); }
    if k == 5 { FloatLength(6, m.humidity); }
    if k == 6 { ImplicitLength(7, m.status); }
    if k == 7 { ExplicitLength(8, m.pressure); }
  }

  /** No Telemetry with a declared status exceeds 42 bytes. */
  lemma TelemetryFits(m: Telemetry)
    ensures AllWellFormed(Flatten(TelemetryFields(m)))
    ensures m.status < 128 ==> |PrintTelemetry(m)| <= 42
  {
    var pieces := TelemetryFields(m);
    forall k: nat | k < |pieces|
      ensures AllWellFormed(pieces[k]) && TelemetryTotals(m)[k] + |PrintAll(pieces[k])| <= TelemetryTotals(m)[k + 1]
    {
      TelemetryFieldFits(m, k);
    }
    PiecesFit(pieces, TelemetryTotals(m));
  }

  /** Every Telemetry is recovered from what it prints, absence kept apart from zero. */
  lemma TelemetryRoundTrip(m: Telemetry)
    ensures DecodeTelemetry(PrintTelemetry(m)) == Some(m)
  {
    var pieces := TelemetryFields(m);
    var m1 := NO_TELEMETRY.(schemaVersion := m.schemaVersion);
    var m2 := m1.(sequence := m.sequence);
    var m3 := m2.(uptimeMs := m.uptimeMs);
    var m4 := m3.(co2 := m.co2);
    var m5 := m4.(temperature := m.temperature);
    var m6 := m5.(humidity := m.humidity);
    var m7 := m6.(status := m.status);
    var ms := [NO_TELEMETRY, m1, m2, m3, m4, m5, m6, m7, m];
    forall k | 0 <= k < 8 ensures Fold(ReadTelemetry, ms[k], pieces[k]) == Some(ms[k + 1]) {
      if pieces[k] != [] {
        FoldOne(ReadTelemetry, ms[k], pieces[k][0]);
      }
    }
    FoldPieces(ReadTelemetry, pieces, ms);
    TelemetryFits(m);
    RecordsRoundTrip(Flatten(pieces));
  }

  // ---- the previous Telemetry ----------------------------------------------------------

  /** Before explicit presence and pressure: same numbers, same wire types, no field 8. */
  datatype OldTelemetry = OldTelemetry(
    schemaVersion: U32,
    sequence: U32,
    uptimeMs: U32,
    co2: U32,
    temperature: Float,
    humidity: Float,
    status: U32)

  const NO_OLD_TELEMETRY := OldTelemetry(0, 0, 0, 0, ZERO_FLOAT, ZERO_FLOAT, 0)

  function ReadOldTelemetry(m: OldTelemetry, r: Record): Option<OldTelemetry> {
    match r.number
    case 1 => AsU32(r.payload).Map((v: U32) => m.(schemaVersion := v))
    case 2 => AsU32(r.payload).Map((v: U32) => m.(sequence := v))
    case 3 => AsU32(r.payload).Map((v: U32) => m.(uptimeMs := v))
    case 4 => AsU32(r.payload).Map((v: U32) => m.(co2 := v))
    case 5 => AsFloat(r.payload).Map((v: Float) => m.(temperature := v))
    case 6 => AsFloat(r.payload).Map((v: Float) => m.(humidity := v))
    case 7 => AsU32(r.payload).Map((v: U32) => m.(status := v))
    case _ => Some(m)
  }

  function DecodeOldTelemetry(b: Bytes): Option<OldTelemetry> {
    Decode(ReadOldTelemetry, NO_OLD_TELEMETRY, b)
  }

  /** What an old reader makes of a current message: absence becomes the default, pressure vanishes. */
  function Older(m: Telemetry): OldTelemetry {
    OldTelemetry(m.schemaVersion, m.sequence, m.uptimeMs, m.co2.GetOr(0), m.temperature.GetOr(ZERO_FLOAT),
                 m.humidity.GetOr(ZERO_FLOAT), m.status)
  }

  lemma {:induction false} OldReaderFollows(m: Telemetry, rs: seq<Record>)
    ensures var now := Fold(ReadTelemetry, m, rs);
            var then_ := Fold(ReadOldTelemetry, Older(m), rs);
            && (now.Some? ==> then_ == Some(Older(now.value)))
            && (now.Some? <==> then_.Some? && forall r :: r in rs && r.number == 8 ==> AsU32(r.payload).Some?)
    decreases |rs|
  {
    if rs != [] {
      assert forall r :: r in rs <==> r == rs[0] || r in rs[1..];
      match ReadTelemetry(m, rs[0])
      case Some(m') => OldReaderFollows(m', rs[1..]);
      case None =>
    }
  }

  /**
   Compatibility forwards, for every byte string at all: whatever a current reader accepts,
   a reader of the previous schema accepts too and reads as the same message without
   presence and pressure.
   */
  lemma OldReaderReadsNewTelemetry(b: Bytes)
    requires DecodeTelemetry(b).Some?
    ensures DecodeOldTelemetry(b) == Some(Older(DecodeTelemetry(b).value))
  {
    OldReaderFollows(NO_TELEMETRY, ParseAll(b).value);
  }

  function OldTelemetryFields(m: OldTelemetry): seq<seq<Record>> {
    [ImplicitField(1, m.schemaVersion),
     ImplicitField(2, m.sequence),
     ImplicitField(3, m.uptimeMs),
     ImplicitField(4, m.co2),
     FloatField(5, NonZero(m.temperature)),
     FloatField(6, NonZero(m.humidity)),
     ImplicitField(7, m.status)]
  }

  function NonZero(f: Float): Option<Float> {
    if f == ZERO_FLOAT then None else Some(f)
  }

  /** What a current reader can know of an old writer's message: a zero is indistinguishable from absence. */
  function Newer(m: OldTelemetry): Telemetry {
    Telemetry(m.schemaVersion, m.sequence, m.uptimeMs, if m.co2 == 0 then None else Some(m.co2),
              NonZero(m.temperature), NonZero(m.humidity), m.status, None)
  }

  /** Compatibility backwards: an old writer's message prints exactly as its newer reading does. */
  lemma NewReaderReadsOldTelemetry(m: OldTelemetry)
    ensures DecodeTelemetry(PrintAll(Flatten(OldTelemetryFields(m)))) == Some(Newer(m))
  {
    var old_, new_ := OldTelemetryFields(m), TelemetryFields(Newer(m));
    assert new_ == old_ + [[]];
    FlattenEmpty(old_);
    TelemetryRoundTrip(Newer(m));
  }

  lemma {:induction false} FlattenEmpty(pieces: seq<seq<Record>>)
    ensures Flatten(pieces + [[]]) == Flatten(pieces)
    decreases |pieces|
  {
    if pieces == [] {
      assert (pieces + [[]])[1..] == [];
    } else {
      assert (pieces + [[]])[1..] == pieces[1..] + [[]];
      FlattenEmpty(pieces[1..]);
    }
  }
}
