/**
 The Protocol Buffers wire format, as the public encoding specification fixes it
 (sections "Base 128 Varints" and "Message Structure"): varints, tagged records, and
 messages as sequences of records read with last-one-wins.
 */
module Protobuf {
  import opened Basics

  type Bytes = seq<Byte>

  const U64_LIMIT := 0x1_0000_0000_0000_0000
  const MAX_VARINT_LENGTH := 10
  const MAX_FIELD_NUMBER := 0x1FFF_FFFF

  // ---- varints -----------------------------------------------------------------------

  function PrintVarint(v: nat): (b: Bytes)
    ensures |b| >= 1
  {
    if v < 128 then [v] else [v % 128 + 128] + PrintVarint(v / 128)
  }

  /** A value and what follows it. */
  datatype Parsed<T> = Parsed(value: T, rest: Bytes)

  function ParseGroups(b: Bytes, room: nat): (r: Option<Parsed<nat>>)
    ensures r.Some? ==> |r.value.rest| < |b|
    decreases room
  {
    if b == [] || room == 0 then None
    else if b[0] < 128 then Some(Parsed(b[0], b[1..]))
    else
      match ParseGroups(b[1..], room - 1)
      case None => None
      case Some(p) => Some(Parsed(b[0] - 128 + 128 * p.value, p.rest))
  }

  /** At most ten bytes, at most 64 bits. */
  function ParseVarint(b: Bytes): (r: Option<Parsed<nat>>)
    ensures r.Some? ==> |r.value.rest| < |b|
  {
    match ParseGroups(b, MAX_VARINT_LENGTH)
    case None => None
    case Some(p) => if p.value < U64_LIMIT then Some(p) else None
  }

  function Pow128(k: nat): (p: nat)
    ensures p >= 1
  {
    if k == 0 then 1 else 128 * Pow128(k - 1)
  }

  lemma {:induction false} VarintLength(v: nat, k: nat)
    requires k >= 1 && v < Pow128(k)
    ensures |PrintVarint(v)| <= k
    decreases k
  {
    if v >= 128 {
      assert v / 128 < Pow128(k - 1);
      VarintLength(v / 128, k - 1);
    }
  }

  /** A uint32 takes at most five bytes, a uint64 at most ten. */
  lemma VarintLengths(v: nat)
    ensures v < 128 ==> |PrintVarint(v)| == 1
    ensures v < U32_LIMIT ==> |PrintVarint(v)| <= 5
    ensures v < U64_LIMIT ==> |PrintVarint(v)| <= MAX_VARINT_LENGTH
  {
    var p5 := 128 * 128 * 128 * 128 * 128;
    assert Pow128(2) == 128 * 128;
    assert Pow128(4) == 128 * 128 * 128 * 128;
    assert Pow128(5) == p5;
    assert Pow128(7) == p5 * 128 * 128;
    assert Pow128(9) == p5 * 128 * 128 * 128 * 128;
    assert Pow128(10) == p5 * p5;
    if v < U32_LIMIT { VarintLength(v, 5); }
    if v < U64_LIMIT { VarintLength(v, 10); }
  }

  lemma {:induction false} GroupsRoundTrip(v: nat, rest: Bytes, room: nat)
    requires |PrintVarint(v)| <= room
    ensures ParseGroups(PrintVarint(v) + rest, room) == Some(Parsed(v, rest))
    decreases v
  {
    var b := PrintVarint(v) + rest;
    if v >= 128 {
      assert b[1..] == PrintVarint(v / 128) + rest;
      GroupsRoundTrip(v / 128, rest, room - 1);
    } else {
      assert b[1..] == rest;
    }
  }

  lemma VarintRoundTrip(v: nat, rest: Bytes)
    requires v < U64_LIMIT
    ensures ParseVarint(PrintVarint(v) + rest) == Some(Parsed(v, rest))
  {
    VarintLengths(v);
    GroupsRoundTrip(v, rest, MAX_VARINT_LENGTH);
  }

  // ---- records -----------------------------------------------------------------------

  datatype Payload =
    | Varint(v: nat)       // wire type 0
    | Fixed64(raw: Bytes)  // wire type 1
    | Delimited(raw: Bytes) // wire type 2
    | Fixed32(raw: Bytes)  // wire type 5

  datatype Record = Record(number: nat, payload: Payload)

  predicate WellFormed(r: Record) {
    && 1 <= r.number <= MAX_FIELD_NUMBER
    && match r.payload
       case Varint(v) => v < U64_LIMIT
       case Fixed64(raw) => |raw| == 8
       case Delimited(raw) => |raw| < U32_LIMIT
       case Fixed32(raw) => |raw| == 4
  }

  function WireType(p: Payload): nat {
    match p
    case Varint(_) => 0
    case Fixed64(_) => 1
    case Delimited(_) => 2
    case Fixed32(_) => 5
  }

  function PrintPayload(p: Payload): Bytes {
    match p
    case Varint(v) => PrintVarint(v)
    case Fixed64(raw) => raw
    case Delimited(raw) => PrintVarint(|raw|) + raw
    case Fixed32(raw) => raw
  }

  function Print(r: Record): (b: Bytes)
    ensures |b| >= 1
  {
    PrintVarint(8 * r.number + WireType(r.payload)) + PrintPayload(r.payload)
  }

  function ParsePayload(wireType: nat, b: Bytes): (r: Option<Parsed<Payload>>)
    ensures r.Some? ==> |r.value.rest| <= |b|
  {
    match wireType
    case 0 =>
      (match ParseVarint(b)
       case None => None
       case Some(p) => Some(Parsed(Varint(p.value), p.rest)))
    case 1 => if |b| < 8 then None else Some(Parsed(Fixed64(b[..8]), b[8..]))
    case 2 =>
      (match ParseVarint(b)
       case None => None
       case Some(p) =>
         if p.value >= U32_LIMIT || p.value > |p.rest| then None
         else Some(Parsed(Delimited(p.rest[..p.value]), p.rest[p.value..])))
    case 5 => if |b| < 4 then None else Some(Parsed(Fixed32(b[..4]), b[4..]))
    case _ => None
  }

  function ParseRecord(b: Bytes): (r: Option<Parsed<Record>>)
    ensures r.Some? ==> |r.value.rest| < |b|
  {
    match ParseVarint(b)
    case None => None
    case Some(tag) =>
      if tag.value / 8 < 1 || tag.value / 8 > MAX_FIELD_NUMBER then None
      else
        match ParsePayload(tag.value % 8, tag.rest)
        case None => None
        case Some(p) => Some(Parsed(Record(tag.value / 8, p.value), p.rest))
  }

  function PrintAll(rs: seq<Record>): Bytes
    decreases |rs|
  {
    if rs == [] then [] else Print(rs[0]) + PrintAll(rs[1..])
  }

  function ParseAll(b: Bytes): Option<seq<Record>>
    decreases |b|
  {
    if b == [] then Some([])
    else
      match ParseRecord(b)
      case None => None
      case Some(p) =>
        match ParseAll(p.rest)
        case None => None
        case Some(rs) => Some([p.value] + rs)
  }

  lemma PayloadRoundTrip(r: Record, rest: Bytes)
    requires WellFormed(r)
    ensures ParsePayload(WireType(r.payload), PrintPayload(r.payload) + rest) == Some(Parsed(r.payload, rest))
  {
    match r.payload
    case Varint(v) => VarintRoundTrip(v, rest);
    case Fixed64(raw) =>
      assert (raw + rest)[..8] == raw && (raw + rest)[8..] == rest;
    case Delimited(raw) =>
      assert PrintPayload(r.payload) + rest == PrintVarint(|raw|) + (raw + rest);
      VarintRoundTrip(|raw|, raw + rest);
      assert (raw + rest)[..|raw|] == raw && (raw + rest)[|raw|..] == rest;
    case Fixed32(raw) =>
      assert (raw + rest)[..4] == raw && (raw + rest)[4..] == rest;
  }

  lemma RecordRoundTrip(r: Record, rest: Bytes)
    requires WellFormed(r)
    ensures ParseRecord(Print(r) + rest) == Some(Parsed(r, rest))
  {
    var tag := 8 * r.number + WireType(r.payload);
    var tail := PrintPayload(r.payload) + rest;
    assert Print(r) + rest == PrintVarint(tag) + tail;
    VarintRoundTrip(tag, tail);
    PayloadRoundTrip(r, rest);
    assert tag / 8 == r.number && tag % 8 == WireType(r.payload);
  }

  /** Every list of records is recovered from what it prints. */
  lemma {:induction false} RecordsRoundTrip(rs: seq<Record>)
    requires forall r :: r in rs ==> WellFormed(r)
    ensures ParseAll(PrintAll(rs)) == Some(rs)
    decreases |rs|
  {
    if rs != [] {
      RecordRoundTrip(rs[0], PrintAll(rs[1..]));
      RecordsRoundTrip(rs[1..]);
      assert [rs[0]] + rs[1..] == rs;
    }
  }

  // What parses, parses alike in front of any further bytes.

  lemma {:induction false} GroupsIgnoreTail(b: Bytes, tail: Bytes, room: nat)
    requires ParseGroups(b, room).Some?
    ensures ParseGroups(b + tail, room) ==
            Some(Parsed(ParseGroups(b, room).value.value, ParseGroups(b, room).value.rest + tail))
    decreases room
  {
    assert (b + tail)[1..] == b[1..] + tail;
    if b[0] >= 128 {
      GroupsIgnoreTail(b[1..], tail, room - 1);
    }
  }

  lemma VarintIgnoresTail(b: Bytes, tail: Bytes)
    requires ParseVarint(b).Some?
    ensures ParseVarint(b + tail) == Some(Parsed(ParseVarint(b).value.value, ParseVarint(b).value.rest + tail))
  {
    GroupsIgnoreTail(b, tail, MAX_VARINT_LENGTH);
  }

  lemma DelimitedIgnoresTail(b: Bytes, tail: Bytes)
    requires ParsePayload(2, b).Some?
    ensures ParsePayload(2, b + tail) ==
            Some(Parsed(ParsePayload(2, b).value.value, ParsePayload(2, b).value.rest + tail))
  {
    VarintIgnoresTail(b, tail);
    var p := ParseVarint(b).value;
    assert (p.rest + tail)[..p.value] == p.rest[..p.value] && (p.rest + tail)[p.value..] == p.rest[p.value..] + tail;
  }

  lemma PayloadIgnoresTail(wireType: nat, b: Bytes, tail: Bytes)
    requires ParsePayload(wireType, b).Some?
    ensures ParsePayload(wireType, b + tail) ==
            Some(Parsed(ParsePayload(wireType, b).value.value, ParsePayload(wireType, b).value.rest + tail))
  {
    match wireType
    case 0 => VarintIgnoresTail(b, tail);
    case 1 => assert (b + tail)[..8] == b[..8] && (b + tail)[8..] == b[8..] + tail;
    case 2 => DelimitedIgnoresTail(b, tail);
    case 5 => assert (b + tail)[..4] == b[..4] && (b + tail)[4..] == b[4..] + tail;
    case _ =>
  }

  lemma RecordIgnoresTail(b: Bytes, tail: Bytes)
    requires ParseRecord(b).Some?
    ensures ParseRecord(b + tail) == Some(Parsed(ParseRecord(b).value.value, ParseRecord(b).value.rest + tail))
  {
    VarintIgnoresTail(b, tail);
    var tag := ParseVarint(b).value;
    PayloadIgnoresTail(tag.value % 8, tag.rest, tail);
  }

  function Prefixed(a: seq<Record>, rest: Option<seq<Record>>): Option<seq<Record>> {
    match rest case None => None case Some(rs) => Some(a + rs)
  }

  lemma PrefixedTwice(a: seq<Record>, b: seq<Record>, rest: Option<seq<Record>>)
    ensures Prefixed(a, Prefixed(b, rest)) == Prefixed(a + b, rest) && Prefixed([], rest) == rest
  {
    if rest.Some? {
      assert a + (b + rest.value) == a + b + rest.value && [] + rest.value == rest.value;
    }
  }

  lemma ParseAllStep(b: Bytes)
    requires ParseRecord(b).Some?
    ensures ParseAll(b) == Prefixed([ParseRecord(b).value.value], ParseAll(ParseRecord(b).value.rest))
  {
    assert b != [];
  }

  lemma FirstRecord(a: Bytes, tail: Bytes) returns (r: Record, rest: Bytes)
    requires a != [] && ParseAll(a).Some?
    ensures |rest| < |a| && ParseAll(a) == Prefixed([r], ParseAll(rest))
    ensures ParseAll(a + tail) == Prefixed([r], ParseAll(rest + tail))
  {
    var p := ParseRecord(a).value;
    r, rest := p.value, p.rest;
    ParseAllStep(a);
    RecordIgnoresTail(a, tail);
    ParseAllStep(a + tail);
  }

  /** Bytes cut at a record boundary parse exactly when both parts do, to both parts' records. */
  lemma {:induction false} ParseAllConcat(a: Bytes, b: Bytes)
    requires ParseAll(a).Some?
    ensures ParseAll(a + b) == Prefixed(ParseAll(a).value, ParseAll(b))
    decreases |a|
  {
    var parsed := ParseAll(b);
    if a == [] {
      PrefixedTwice([], [], parsed);
      assert a + b == b;
    } else {
      var r, rest := FirstRecord(a, b);
      ParseAllConcat(rest, b);
      PrefixedTwice([r], ParseAll(rest).value, parsed);
    }
  }

  lemma {:induction false} PrintAllConcat(a: seq<Record>, b: seq<Record>)
    ensures PrintAll(a + b) == PrintAll(a) + PrintAll(b)
    decreases |a|
  {
    if a == [] {
      assert a + b == b;
    } else {
      assert (a + b)[0] == a[0] && (a + b)[1..] == a[1..] + b;
      PrintAllConcat(a[1..], b);
    }
  }

  // ---- messages as folds over records -------------------------------------------------

  /** Reads records in order into a message; None when one of them cannot be read. */
  function Fold<M>(read: (M, Record) -> Option<M>, m: M, rs: seq<Record>): Option<M>
    decreases |rs|
  {
    if rs == [] then Some(m)
    else
      match read(m, rs[0])
      case None => None
      case Some(m') => Fold(read, m', rs[1..])
  }

  lemma {:induction false} FoldConcat<M>(read: (M, Record) -> Option<M>, m: M, a: seq<Record>, b: seq<Record>)
    ensures Fold(read, m, a + b) ==
            match Fold(read, m, a) case None => None case Some(m') => Fold(read, m', b)
    decreases |a|
  {
    if a == [] {
      assert a + b == b;
    } else {
      assert (a + b)[0] == a[0] && (a + b)[1..] == a[1..] + b;
      match read(m, a[0])
      case None =>
      case Some(m') => FoldConcat(read, m', a[1..], b);
    }
  }

  /** A message's fields, in order, as one list of records. */
  function Flatten(pieces: seq<seq<Record>>): seq<Record>
    decreases |pieces|
  {
    if pieces == [] then [] else pieces[0] + Flatten(pieces[1..])
  }

  /** Reading field after field, through the named intermediate messages. */
  lemma {:induction false} FoldPieces<M>(read: (M, Record) -> Option<M>, pieces: seq<seq<Record>>, ms: seq<M>)
    requires |ms| == |pieces| + 1
    requires forall k :: 0 <= k < |pieces| ==> Fold(read, ms[k], pieces[k]) == Some(ms[k + 1])
    ensures Fold(read, ms[0], Flatten(pieces)) == Some(Last(ms))
    decreases |pieces|
  {
    if pieces != [] {
      FoldConcat(read, ms[0], pieces[0], Flatten(pieces[1..]));
      FoldPieces(read, pieces[1..], ms[1..]);
    }
  }

  lemma FoldOne<M>(read: (M, Record) -> Option<M>, m: M, r: Record)
    ensures Fold(read, m, [r]) == read(m, r)
  {
    assert [r][1..] == [];
  }

  ghost predicate AllWellFormed(rs: seq<Record>) {
    forall r :: r in rs ==> WellFormed(r)
  }

  /** The printed length is bounded by the running totals of the fields' bounds. */
  lemma {:induction false} PiecesFit(pieces: seq<seq<Record>>, totals: seq<nat>)
    requires |totals| == |pieces| + 1
    requires forall k :: 0 <= k < |pieces| ==>
      AllWellFormed(pieces[k]) && totals[k] + |PrintAll(pieces[k])| <= totals[k + 1]
    ensures AllWellFormed(Flatten(pieces)) && totals[0] + |PrintAll(Flatten(pieces))| <= Last(totals)
    decreases |pieces|
  {
    if pieces != [] {
      PiecesFit(pieces[1..], totals[1..]);
      PrintAllConcat(pieces[0], Flatten(pieces[1..]));
    }
  }

  /** Decodes bytes into a message that starts out as m. */
  function Decode<M>(read: (M, Record) -> Option<M>, m: M, b: Bytes): Option<M> {
    match ParseAll(b)
    case None => None
    case Some(rs) => Fold(read, m, rs)
  }

  // ---- scalar fields -------------------------------------------------------------------

  /** The four bytes of an IEEE-754 single, uninterpreted. */
  type Float = b: Bytes | |b| == 4 witness [0, 0, 0, 0]

  /** proto3 implicit presence: a default value is not written. */
  function ImplicitField(number: nat, v: nat): seq<Record> {
    if v == 0 then [] else [Record(number, Varint(v))]
  }

  /** Explicit presence: written whenever set, zero included. */
  function ExplicitField(number: nat, v: Option<nat>): seq<Record> {
    match v
    case None => []
    case Some(n) => [Record(number, Varint(n))]
  }

  function FloatField(number: nat, v: Option<Float>): seq<Record> {
    match v
    case None => []
    case Some(raw) => [Record(number, Fixed32(raw))]
  }

  function StringField(number: nat, text: Bytes): seq<Record> {
    if text == [] then [] else [Record(number, Delimited(text))]
  }

  /** A varint field read into a uint32 must fit it. */
  function AsU32(p: Payload): Option<U32> {
    if p.Varint? && p.v < U32_LIMIT then Some(p.v) else None
  }

  function AsFloat(p: Payload): Option<Float> {
    if p.Fixed32? && |p.raw| == 4 then Some(p.raw) else None
  }

  function AsBytes(p: Payload): Option<Bytes> {
    if p.Delimited? then Some(p.raw) else None
  }

  /** What one record with a single-byte tag costs. */
  lemma RecordLength(r: Record)
    requires WellFormed(r) && r.number < 16
    ensures |PrintAll([r])| == |Print(r)| == 1 + |PrintPayload(r.payload)|
    ensures r.payload.Varint? && r.payload.v < U32_LIMIT ==> |Print(r)| <= 6
    ensures r.payload.Varint? && r.payload.v < 128 ==> |Print(r)| == 2
    ensures r.payload.Fixed32? ==> |Print(r)| == 5
    ensures r.payload.Delimited? && |r.payload.raw| < 128 ==> |Print(r)| == 2 + |r.payload.raw|
  {
    VarintLengths(8 * r.number + WireType(r.payload));
    assert [r][1..] == [];
    assert PrintAll([r]) == Print(r) + [];
    match r.payload
    case Varint(v) => VarintLengths(v);
    case Delimited(raw) => VarintLengths(|raw|);
    case _ =>
  }

  // What each kind of field costs on the wire.

  lemma ImplicitLength(n: nat, v: nat)
    requires 1 <= n < 16 && v < U32_LIMIT
    ensures AllWellFormed(ImplicitField(n, v)) && |PrintAll(ImplicitField(n, v))| <= 6
    ensures v < 128 ==> |PrintAll(ImplicitField(n, v))| <= 2
  {
    RecordLength(Record(n, Varint(v)));
  }

  lemma ExplicitLength(n: nat, v: Option<U32>)
    requires 1 <= n < 16
    ensures AllWellFormed(ExplicitField(n, v)) && |PrintAll(ExplicitField(n, v))| <= 6
  {
    if v.Some? {
      RecordLength(Record(n, Varint(v.value)));
    }
  }

  lemma FloatLength(n: nat, v: Option<Float>)
    requires 1 <= n < 16
    ensures AllWellFormed(FloatField(n, v)) && |PrintAll(FloatField(n, v))| <= 5
  {
    if v.Some? {
      RecordLength(Record(n, Fixed32(v.value)));
    }
  }

  lemma StringLength(n: nat, text: Bytes)
    requires 1 <= n < 16 && |text| < 128
    ensures AllWellFormed(StringField(n, text)) && |PrintAll(StringField(n, text))| <= 2 + |text|
    ensures WellFormed(Record(n, Delimited(text))) && |PrintAll([Record(n, Delimited(text))])| == 2 + |text|
  {
    RecordLength(Record(n, Delimited(text)));
  }
}
