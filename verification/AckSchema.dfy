/** The Ack message of proto/node.proto with its optional DeviceInfo. */
module AckSchema {
  import opened Basics
  import opened Protobuf

  datatype DeviceInfo = DeviceInfo(firmwareVersion: Bytes, board: Bytes, clientId: Bytes)

  datatype Ack = Ack(schemaVersion: U32, sequence: U32, status: U32, detail: Bytes, info: Option<DeviceInfo>)

  const NO_INFO := DeviceInfo([], [], [])
  const NO_ACK := Ack(0, 0, 0, [], None)

  // proto/node.options: max_size counts the terminating NUL.
  const DETAIL_MAX := 47
  const FIRMWARE_MAX := 15
  const BOARD_MAX := 31
  const CLIENT_MAX := 23

  predicate InfoBounded(d: DeviceInfo) {
    |d.firmwareVersion| <= FIRMWARE_MAX && |d.board| <= BOARD_MAX && |d.clientId| <= CLIENT_MAX
  }

  /** What the node's fixed-size structures can hold; the status enum's values fit one byte. */
  predicate Bounded(m: Ack) {
    |m.detail| <= DETAIL_MAX && m.status < 128 && (m.info.Some? ==> InfoBounded(m.info.value))
  }

  function InfoFields(d: DeviceInfo): seq<seq<Record>> {
    [StringField(1, d.firmwareVersion), StringField(2, d.board), StringField(3, d.clientId)]
  }

  function PrintInfo(d: DeviceInfo): Bytes {
    PrintAll(Flatten(InfoFields(d)))
  }

  /** A submessage has presence of its own: an empty one is written, an absent one is not. */
  function InfoField(info: Option<DeviceInfo>): seq<Record> {
    match info
    case None => []
    case Some(d) => [Record(5, Delimited(PrintInfo(d)))]
  }

  function AckFields(m: Ack): seq<seq<Record>> {
    [ImplicitField(1, m.schemaVersion),
     ImplicitField(2, m.sequence),
     ImplicitField(3, m.status),
     StringField(4, m.detail),
     InfoField(m.info)]
  }

  function PrintAck(m: Ack): Bytes {
    PrintAll(Flatten(AckFields(m)))
  }

  function ReadInfo(d: DeviceInfo, r: Record): Option<DeviceInfo> {
    if r.number == 1 then AsBytes(r.payload).Map((t: Bytes) => d.(firmwareVersion := t))
    else if r.number == 2 then AsBytes(r.payload).Map((t: Bytes) => d.(board := t))
    else if r.number == 3 then AsBytes(r.payload).Map((t: Bytes) => d.(clientId := t))
    else Some(d)
  }

  function ReadAck(m: Ack, r: Record): Option<Ack> {
    if r.number == 1 then AsU32(r.payload).Map((v: U32) => m.(schemaVersion := v))
    else if r.number == 2 then AsU32(r.payload).Map((v: U32) => m.(sequence := v))
    else if r.number == 3 then AsU32(r.payload).Map((v: U32) => m.(status := v))
    else if r.number == 4 then AsBytes(r.payload).Map((t: Bytes) => m.(detail := t))
    else if r.number == 5 then
      match AsBytes(r.payload)
      case None => None
      case Some(raw) => Decode(ReadInfo, m.info.GetOr(NO_INFO), raw).Map((d: DeviceInfo) => m.(info := Some(d)))
    else Some(m)
  }

  function DecodeAck(b: Bytes): Option<Ack> {
    Decode(ReadAck, NO_ACK, b)
  }

  lemma InfoFits(d: DeviceInfo)
    requires InfoBounded(d)
    ensures AllWellFormed(Flatten(InfoFields(d))) && |PrintInfo(d)| <= 75
  {
    StringLength(1, d.firmwareVersion);
    StringLength(2, d.board);
    StringLength(3, d.clientId);
    PiecesFit(InfoFields(d), [0, 17, 50, 75]);
  }

  lemma InfoRoundTrip(d: DeviceInfo)
    requires InfoBounded(d)
    ensures Decode(ReadInfo, NO_INFO, PrintInfo(d)) == Some(d)
  {
    var pieces := InfoFields(d);
    var d1 := NO_INFO.(firmwareVersion := d.firmwareVersion);
    var d2 := d1.(board := d.board);
    var ds := [NO_INFO, d1, d2, d];
    forall k | 0 <= k < 3 ensures Fold(ReadInfo, ds[k], pieces[k]) == Some(ds[k + 1]) {
      if pieces[k] != [] {
        FoldOne(ReadInfo, ds[k], pieces[k][0]);
      }
    }
    FoldPieces(ReadInfo, pieces, ds);
    InfoFits(d);
    RecordsRoundTrip(Flatten(pieces));
  }

  lemma AckFieldFits(m: Ack, k: nat)
    requires Bounded(m) && k < 5
    ensures AllWellFormed(AckFields(m)[k])
    ensures |PrintAll(AckFields(m)[k])| <= if k < 2 then 6 else if k == 2 then 2 else if k == 3 then 49 else 77
  {
    if k == 0 { ImplicitLength(1, m.schemaVersion); }
    if k == 1 { ImplicitLength(2, m.sequence); }
    if k == 2 { ImplicitLength(3, m.status); }
    if k == 3 { StringLength(4, m.detail); }
    if k == 4 && m.info.Some? {
      InfoFits(m.info.value);
      StringLength(5, PrintInfo(m.info.value));
    }
  }

  /** No Ack the node can build exceeds 140 bytes. */
  lemma AckFits(m: Ack)
    requires Bounded(m)
    ensures AllWellFormed(Flatten(AckFields(m))) && |PrintAck(m)| <= 140
  {
    var pieces, totals := AckFields(m), [0, 6, 12, 14, 63, 140];
    forall k: nat | k < 5
      ensures AllWellFormed(pieces[k]) && totals[k] + |PrintAll(pieces[k])| <= totals[k + 1]
    {
      AckFieldFits(m, k);
    }
    PiecesFit(pieces, totals);
  }

  /** Every Ack the node can build is recovered from what it prints, an empty DeviceInfo kept apart from none. */
  lemma AckRoundTrip(m: Ack)
    requires Bounded(m)
    ensures DecodeAck(PrintAck(m)) == Some(m)
  {
    var pieces := AckFields(m);
    var m1 := NO_ACK.(schemaVersion := m.schemaVersion);
    var m2 := m1.(sequence := m.sequence);
    var m3 := m2.(status := m.status);
    var m4 := m3.(detail := m.detail);
    var ms := [NO_ACK, m1, m2, m3, m4, m];
    if m.info.Some? {
      InfoRoundTrip(m.info.value);
    }
    forall k | 0 <= k < 5 ensures Fold(ReadAck, ms[k], pieces[k]) == Some(ms[k + 1]) {
      if pieces[k] != [] {
        FoldOne(ReadAck, ms[k], pieces[k][0]);
      }
    }
    FoldPieces(ReadAck, pieces, ms);
    AckFits(m);
    RecordsRoundTrip(Flatten(pieces));
  }
}
