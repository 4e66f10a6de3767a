/** The Command message of proto/node.proto and its oneof. */
module CommandSchema {
  import opened Basics
  import opened Protobuf

  /** which_payload with its arm; NoPayload is what unrelated but well-formed bytes decode to. */
  datatype Body = NoPayload | SetInterval(intervalMs: U32) | TriggerMeasurement | GetDeviceInfo

  datatype Command = Command(schemaVersion: U32, sequence: U32, body: Body)

  const NO_COMMAND := Command(0, 0, NoPayload)

  const SET_INTERVAL_TAG := 10
  const TRIGGER_TAG := 11
  const DEVICE_INFO_TAG := 12

  function BodyField(body: Body): seq<Record> {
    match body
    case NoPayload => []
    case SetInterval(ms) => [Record(SET_INTERVAL_TAG, Delimited(PrintAll(ImplicitField(1, ms))))]
    case TriggerMeasurement => [Record(TRIGGER_TAG, Delimited([]))]
    case GetDeviceInfo => [Record(DEVICE_INFO_TAG, Delimited([]))]
  }

  function CommandFields(m: Command): seq<seq<Record>> {
    [ImplicitField(1, m.schemaVersion), ImplicitField(2, m.sequence), BodyField(m.body)]
  }

  function PrintCommand(m: Command): Bytes {
    PrintAll(Flatten(CommandFields(m)))
  }

  /** The SetInterval message on its own. */
  datatype Interval = Interval(ms: U32)

  function ReadSetInterval(m: Interval, r: Record): Option<Interval> {
    if r.number == 1 then AsU32(r.payload).Map((v: U32) => Interval(v)) else Some(m)
  }

  /** A message without fields of its own still has to be well formed. */
  function ReadNothing(u: (), r: Record): Option<()> {
    Some(u)
  }

  /** A later occurrence of the oneof's current arm merges into it; another arm replaces it. */
  function ReadBody(body: Body, r: Record): Option<Body> {
    match AsBytes(r.payload)
    case None => None
    case Some(raw) =>
      if r.number == SET_INTERVAL_TAG then
        Decode(ReadSetInterval, Interval(if body.SetInterval? then body.intervalMs else 0), raw)
        .Map((m: Interval) => SetInterval(m.ms))
      else if r.number == TRIGGER_TAG then Decode(ReadNothing, (), raw).Map((_: ()) => TriggerMeasurement)
      else Decode(ReadNothing, (), raw).Map((_: ()) => GetDeviceInfo)
  }

  function ReadCommand(m: Command, r: Record): Option<Command> {
    if r.number == 1 then AsU32(r.payload).Map((v: U32) => m.(schemaVersion := v))
    else if r.number == 2 then AsU32(r.payload).Map((v: U32) => m.(sequence := v))
    else if SET_INTERVAL_TAG <= r.number <= DEVICE_INFO_TAG then
      ReadBody(m.body, r).Map((body: Body) => m.(body := body))
    else Some(m)
  }

  function DecodeCommand(b: Bytes): Option<Command> {
    Decode(ReadCommand, NO_COMMAND, b)
  }

  lemma BodyFits(body: Body)
    ensures AllWellFormed(BodyField(body)) && |PrintAll(BodyField(body))| <= 8
  {
    match body
    case SetInterval(ms) =>
      ImplicitLength(1, ms);
      StringLength(SET_INTERVAL_TAG, PrintAll(ImplicitField(1, ms)));
    case TriggerMeasurement => StringLength(TRIGGER_TAG, []);
    case GetDeviceInfo => StringLength(DEVICE_INFO_TAG, []);
    case NoPayload =>
  }

  /** No Command a current host prints exceeds 20 bytes. */
  lemma CommandFits(m: Command)
    ensures AllWellFormed(Flatten(CommandFields(m))) && |PrintCommand(m)| <= 20
  {
    ImplicitLength(1, m.schemaVersion);
    ImplicitLength(2, m.sequence);
    BodyFits(m.body);
    PiecesFit(CommandFields(m), [0, 6, 12, 20]);
  }

  /** What reading n's fields after m's comes to: the last one wins, and equal arms of the oneof merge. */
  function Merged(m: Command, n: Command): Command {
    Command(if n.schemaVersion != 0 then n.schemaVersion else m.schemaVersion,
            if n.sequence != 0 then n.sequence else m.sequence,
            if n.body.NoPayload? then m.body
            else if n.body == SetInterval(0) && m.body.SetInterval? then m.body
            else n.body)
  }

  lemma BodyReadsOnto(m: Command, body: Body)
    ensures Fold(ReadCommand, m, BodyField(body)) == Some(Merged(m, NO_COMMAND.(body := body)))
  {
    if body != NoPayload {
      FoldOne(ReadCommand, m, BodyField(body)[0]);
    }
    match body
    case SetInterval(ms) =>
      var inner := ImplicitField(1, ms);
      ImplicitLength(1, ms);
      RecordsRoundTrip(inner);
      if ms != 0 {
        FoldOne(ReadSetInterval, Interval(if m.body.SetInterval? then m.body.intervalMs else 0), inner[0]);
      }
    case _ =>
  }

  lemma FieldsReadOnto(m: Command, n: Command)
    ensures Fold(ReadCommand, m, Flatten(CommandFields(n))) == Some(Merged(m, n))
  {
    var pieces := CommandFields(n);
    var m1 := if n.schemaVersion == 0 then m else m.(schemaVersion := n.schemaVersion);
    var m2 := if n.sequence == 0 then m1 else m1.(sequence := n.sequence);
    var ms := [m, m1, m2, Merged(m, n)];
    forall k | 0 <= k < 2 ensures Fold(ReadCommand, ms[k], pieces[k]) == Some(ms[k + 1]) {
      if pieces[k] != [] {
        FoldOne(ReadCommand, ms[k], pieces[k][0]);
      }
    }
    BodyReadsOnto(m2, n.body);
    FoldPieces(ReadCommand, pieces, ms);
  }

  lemma FieldsRead(m: Command)
    ensures Fold(ReadCommand, NO_COMMAND, Flatten(CommandFields(m))) == Some(m)
  {
    FieldsReadOnto(NO_COMMAND, m);
  }

  /** Every Command is recovered from what it prints. */
  lemma CommandRoundTrip(m: Command)
    ensures DecodeCommand(PrintCommand(m)) == Some(m)
  {
    FieldsRead(m);
    CommandFits(m);
    RecordsRoundTrip(Flatten(CommandFields(m)));
  }

  /** A field number this schema does not declare. */
  predicate Unknown(r: Record) {
    r.number != 1 && r.number != 2 && !(SET_INTERVAL_TAG <= r.number <= DEVICE_INFO_TAG)
  }

  lemma {:induction false} UnknownFieldsRead(m: Command, rs: seq<Record>)
    requires forall r :: r in rs ==> Unknown(r)
    ensures Fold(ReadCommand, m, rs) == Some(m)
    decreases |rs|
  {
    if rs != [] {
      assert rs[0] in rs && Unknown(rs[0]);
      UnknownFieldsRead(m, rs[1..]);
    }
  }

  /** A newer host's extra fields are skipped, wherever they stand. */
  lemma UnknownFieldsAreSkipped(m: Command, before: seq<Record>, after: seq<Record>)
    requires AllWellFormed(before) && AllWellFormed(after)
    requires (forall r :: r in before ==> Unknown(r)) && (forall r :: r in after ==> Unknown(r))
    ensures DecodeCommand(PrintAll(before + Flatten(CommandFields(m)) + after)) == Some(m)
  {
    var own := Flatten(CommandFields(m));
    CommandFits(m);
    RecordsRoundTrip(before + own + after);
    UnknownFieldsRead(NO_COMMAND, before);
    FieldsRead(m);
    UnknownFieldsRead(m, after);
    FoldConcat(ReadCommand, NO_COMMAND, before, own);
    FoldConcat(ReadCommand, NO_COMMAND, before + own, after);
  }

  /**
   A payload the gateway's 128-byte buffer keeps whole can decode as any given Command at
   every length from 25 up, although the schema bounds a Command at 20.
   */
  lemma LongPayloadsDecode(m: Command, length: nat) returns (b: Bytes)
    requires 25 <= length <= 128
    ensures |b| == length && DecodeCommand(b) == Some(m)
  {
    var own := Flatten(CommandFields(m));
    CommandFits(m);
    var pad: Bytes := seq(length - |PrintCommand(m)| - 2, _ => 0);
    var extra := Record(13, Delimited(pad));
    StringLength(13, pad);
    UnknownFieldsAreSkipped(m, [], [extra]);
    assert [] + own + [extra] == own + [extra];
    PrintAllConcat(own, [extra]);
    b := PrintAll(own + [extra]);
  }

  // ---- repeated and unreadable fields ----------------------------------------------------

  /** "Last One Wins": two commands printed one behind the other decode as the second laid over the first. */
  lemma LastOneWins(m: Command, n: Command)
    ensures DecodeCommand(PrintCommand(m) + PrintCommand(n)) == Some(Merged(m, n))
  {
    var first, second := Flatten(CommandFields(m)), Flatten(CommandFields(n));
    CommandFits(m);
    CommandFits(n);
    PrintAllConcat(first, second);
    RecordsRoundTrip(first + second);
    FieldsRead(m);
    FieldsReadOnto(m, n);
    FoldConcat(ReadCommand, NO_COMMAND, first, second);
  }

  /** A number the node's structures can take. */
  predicate FitsU32(p: Payload) {
    p.Varint? && p.v < U32_LIMIT
  }

  /** A field with the wire type its number calls for, and readable inside. */
  ghost predicate Readable(r: Record) {
    && (r.number == 1 || r.number == 2 ==> FitsU32(r.payload))
    && (r.number == 10 || r.number == 11 || r.number == 12 ==> r.payload.Delimited? && ParseAll(r.payload.raw).Some?)
    && (r.number == 10 ==> forall t :: t in ParseAll(r.payload.raw).value && t.number == 1 ==> FitsU32(t.payload))
  }

  lemma {:induction false} IntervalRefusedIff(m: Interval, rs: seq<Record>)
    ensures Fold(ReadSetInterval, m, rs).Some? <==> forall t :: t in rs && t.number == 1 ==> FitsU32(t.payload)
    decreases |rs|
  {
    if rs != [] {
      assert forall t :: t in rs <==> t == rs[0] || t in rs[1..];
      var next := ReadSetInterval(m, rs[0]);
      if next.Some? {
        IntervalRefusedIff(next.value, rs[1..]);
      }
    }
  }

  lemma {:induction false} NothingIsRefused(rs: seq<Record>)
    ensures Fold(ReadNothing, (), rs).Some?
    decreases |rs|
  {
    if rs != [] {
      NothingIsRefused(rs[1..]);
    }
  }

  lemma ReadIffReadable(m: Command, r: Record)
    ensures ReadCommand(m, r).Some? <==> Readable(r)
  {
    if 10 <= r.number <= 12 && r.payload.Delimited? && ParseAll(r.payload.raw).Some? {
      var inner := ParseAll(r.payload.raw).value;
      IntervalRefusedIff(Interval(if m.body.SetInterval? then m.body.intervalMs else 0), inner);
      NothingIsRefused(inner);
    }
  }

  lemma {:induction false} FoldRefusedIff(m: Command, rs: seq<Record>)
    ensures Fold(ReadCommand, m, rs).Some? <==> forall r :: r in rs ==> Readable(r)
    decreases |rs|
  {
    if rs != [] {
      assert forall r :: r in rs <==> r == rs[0] || r in rs[1..];
      ReadIffReadable(m, rs[0]);
      var next := ReadCommand(m, rs[0]);
      if next.Some? {
        FoldRefusedIff(next.value, rs[1..]);
      }
    }
  }

  /** Which payloads are not Commands at all: those that are no records, or hold one that is not readable. */
  lemma RefusedIff(b: Bytes)
    ensures DecodeCommand(b).None? <==> ParseAll(b).None? || exists r :: r in ParseAll(b).value && !Readable(r)
  {
    if ParseAll(b).Some? {
      FoldRefusedIff(NO_COMMAND, ParseAll(b).value);
    }
  }
}
