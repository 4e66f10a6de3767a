/**
 The way down: what the gateway forwards, how the peer's ISO-TP receive cuts it up, and which
 acks come back for it (gateway/src/main.cpp, gateway/src/relay.cpp, peer-node/src/main.cpp).
 */
module Downward {
  import opened Basics
  import opened Protobuf
  import CommandSchema
  import Inbound
  import Protocol
  import Upward

  /** The peer's receive buffer: the type byte and the largest Command its schema knows. */
  const PEER_BUFFER := 1 + Protocol.COMMAND_SIZE

  /** A payload the gateway hands to its relay, with the sequence it read out of it. */
  predicate Forwardable(payload: Bytes, sequence: U32) {
    && |payload| <= Inbound.DOWN_MAX
    && Inbound.Understood(payload).Some?
    && Inbound.Understood(payload).value.sequence == sequence
  }

  /** The transfer the TX thread sends for a payload. */
  function Frame(payload: Bytes): (f: Bytes)
    ensures |f| == 1 + |payload| && f[0] == 3 == Upward.COMMAND_TYPE && f[1..] == payload
  {
    [Upward.COMMAND_TYPE] + payload
  }

  /** What successive isotp_recv calls hand over for one transfer: bufferfuls, then the rest. */
  function Pieces(frame: Bytes): seq<Bytes>
    decreases |frame|
  {
    if |frame| <= PEER_BUFFER then [frame] else [frame[..PEER_BUFFER]] + Pieces(frame[PEER_BUFFER..])
  }

  predicate IsCommand(piece: Bytes) {
    piece != [] && piece[0] == Upward.COMMAND_TYPE
  }

  /** The command the peer passes to handle_command on receiving a piece, if it comes to that. */
  function CommandIn(piece: Bytes): Option<CommandSchema.Command> {
    if IsCommand(piece) then CommandSchema.DecodeCommand(piece[1..]) else None
  }

  /** The sequence under which the peer acknowledges a piece, if it does. */
  function AckSequence(piece: Bytes): Option<U32> {
    if !IsCommand(piece) then None
    else match CommandIn(piece) case None => Some(0) case Some(c) => Some(c.sequence)
  }

  function AckSequences(pieces: seq<Bytes>): seq<U32>
    decreases |pieces|
  {
    if pieces == [] then []
    else (match AckSequence(pieces[0]) case None => [] case Some(q) => [q]) + AckSequences(pieces[1..])
  }

  lemma {:induction false} AckSequencesConcat(a: seq<Bytes>, b: seq<Bytes>)
    ensures AckSequences(a + b) == AckSequences(a) + AckSequences(b)
    decreases |a|
  {
    if a == [] {
      assert a + b == b;
    } else {
      assert (a + b)[1..] == a[1..] + b;
      AckSequencesConcat(a[1..], b);
    }
  }

  lemma ShortFrameIsOnePiece(payload: Bytes, sequence: U32)
    requires Forwardable(payload, sequence) && |payload| <= Protocol.COMMAND_SIZE
    ensures Pieces(Frame(payload)) == [Frame(payload)]
    ensures CommandIn(Frame(payload)) == Inbound.Understood(payload)
    ensures AckSequence(Frame(payload)) == Some(sequence)
    ensures AckSequences(Pieces(Frame(payload))) == [sequence]
  {
    assert [Frame(payload)][1..] == [];
  }

  /** The sequence field as a host writes it, zero included. */
  function SequenceField(sequence: U32): (b: Bytes)
    ensures 2 <= |b| <= 6
  {
    VarintLengths(16);
    VarintLengths(sequence);
    Print(Record(2, Varint(sequence)))
  }

  /** A field neither node declares, claiming `declared` bytes of which `left` are there. */
  function UnknownField(declared: Byte, left: nat): Bytes {
    [106, declared] + Zeros(left)
  }

  /** A payload of the given length whose last field the peer's buffer cuts through. */
  function CutThrough(sequence: U32, length: nat): (b: Bytes)
    requires 8 <= length <= Inbound.DOWN_MAX
    ensures |b| == length
  {
    var pad := length - |SequenceField(sequence)| - 2;
    SequenceField(sequence) + UnknownField(pad, pad)
  }

  function Zeros(n: nat): (b: Bytes)
    ensures |b| == n && forall k :: 0 <= k < n ==> b[k] == 0
  {
    seq(n, _ => 0)
  }

  lemma UnknownFieldParses(declared: Byte, left: nat)
    requires declared < 128
    ensures left == declared ==> UnknownField(declared, left) == Print(Record(13, Delimited(Zeros(left))))
    ensures left < declared ==> ParseRecord(UnknownField(declared, left)).None?
  {
    var rest := [declared] + Zeros(left);
    assert PrintVarint(106) == [106] && PrintVarint(declared) == [declared];
    assert UnknownField(declared, left) == PrintVarint(106) + rest;
    VarintRoundTrip(106, rest);
    VarintRoundTrip(declared, Zeros(left));
  }

  lemma CutThroughIsForwardable(sequence: U32, length: nat)
    requires 8 <= length <= Inbound.DOWN_MAX
    ensures Forwardable(CutThrough(sequence, length), sequence)
  {
    var pad := length - |SequenceField(sequence)| - 2;
    var extra := Record(13, Delimited(Zeros(pad)));
    UnknownFieldParses(pad, pad);
    assert CutThrough(sequence, length) == SequenceField(sequence) + Print(extra);
    NamedAndExtraDecodes(sequence, extra);
  }

  /** A sequence and a field unknown to both nodes decode as that sequence. */
  lemma NamedAndExtraDecodes(sequence: U32, extra: Record)
    requires WellFormed(extra) && extra.number == 13
    ensures CommandSchema.DecodeCommand(SequenceField(sequence) + Print(extra)) ==
            Some(CommandSchema.NO_COMMAND.(sequence := sequence))
  {
    var own := Record(2, Varint(sequence));
    PrintTwo(own, extra);
    RecordsRoundTrip([own, extra]);
    TwoFieldsRead(sequence, extra);
  }

  /** An unknown field changes nothing about the command read before it. */
  lemma TwoFieldsRead(sequence: U32, extra: Record)
    requires extra.number == 13
    ensures var named := CommandSchema.NO_COMMAND.(sequence := sequence);
      Fold(CommandSchema.ReadCommand, CommandSchema.NO_COMMAND, [Record(2, Varint(sequence)), extra]) == Some(named)
  {
    var own := Record(2, Varint(sequence));
    assert [own, extra][1..] == [extra];
    FoldOne(CommandSchema.ReadCommand, CommandSchema.NO_COMMAND.(sequence := sequence), extra);
  }

  lemma PrintTwo(r: Record, t: Record)
    ensures PrintAll([r, t]) == Print(r) + Print(t)
  {
    assert [r, t][1..] == [t] && PrintAll([t][1..]) == [];
  }

  lemma CutThroughDoesNotDecode(sequence: U32, length: nat)
    requires Protocol.COMMAND_SIZE < length <= Inbound.DOWN_MAX
    ensures CommandSchema.DecodeCommand(CutThrough(sequence, length)[..Protocol.COMMAND_SIZE]).None?
  {
    var own := SequenceField(sequence);
    var (declared, left) := (length - |own| - 2, Protocol.COMMAND_SIZE - |own| - 2);
    var cut := UnknownField(declared, left);
    assert CutThrough(sequence, length)[..Protocol.COMMAND_SIZE] == own + cut;
    UnknownFieldParses(declared, left);
    RecordRoundTrip(Record(2, Varint(sequence)), cut);
    assert cut != [] && ParseAll(cut).None?;
    assert own + cut != [] && ParseAll(own + cut).None?;
  }

  /** The peer answers such a command once, as malformed, under sequence 0. */
  lemma CutThroughIsAnsweredUnderZero(sequence: U32, length: nat)
    requires Protocol.COMMAND_SIZE < length <= Inbound.DOWN_MAX
    ensures var pieces := Pieces(Frame(CutThrough(sequence, length)));
      && |pieces| == 2
      && IsCommand(pieces[0]) && CommandIn(pieces[0]).None? && !IsCommand(pieces[1])
      && AckSequences(pieces) == [0]
  {
    CutThroughDoesNotDecode(sequence, length);
    var b := CutThrough(sequence, length);
    var frame := Frame(b);
    var (first, second) := (frame[..PEER_BUFFER], frame[PEER_BUFFER..]);
    assert Pieces(second) == [second];
    assert Pieces(frame) == [first, second];
    assert first[1..] == b[..Protocol.COMMAND_SIZE];
    assert AckSequence(first) == Some(0);
    var pad := length - |SequenceField(sequence)| - 2;
    assert second[0] == b[Protocol.COMMAND_SIZE] == Zeros(pad)[Protocol.COMMAND_SIZE - (length - pad)] == 0;
    assert AckSequence(second) == None;
    var none: seq<Bytes> := [];
    assert [first, second][1..] == [second] && [second][1..] == none;
    assert AckSequences([second]) == AckSequences(none) == [];
  }

  /** Every forwarded command of this length comes back as exactly one ack, under its own sequence. */
  ghost predicate LengthIsAnsweredInKind(length: nat) {
    forall payload: Bytes, sequence: U32 | |payload| == length && Forwardable(payload, sequence) ::
      AckSequences(Pieces(Frame(payload))) == [sequence]
  }

  /**
   Which lengths the round trip can carry: of those the gateway forwards, exactly the ones up
   to 20 bytes. Beyond that the peer decodes a piece of the command, and some command of
   every such length is answered under sequence 0.
   */
  lemma LengthsAnsweredInKindIff(length: nat)
    requires length <= Inbound.DOWN_MAX
    ensures LengthIsAnsweredInKind(length) <==> length <= Protocol.COMMAND_SIZE
  {
    if length <= Protocol.COMMAND_SIZE {
      forall payload: Bytes, sequence: U32 | |payload| == length && Forwardable(payload, sequence)
        ensures AckSequences(Pieces(Frame(payload))) == [sequence]
      {
        ShortFrameIsOnePiece(payload, sequence);
      }
    } else {
      var payload := CutThrough(1, length);
      CutThroughIsForwardable(1, length);
      CutThroughIsAnsweredUnderZero(1, length);
      assert AckSequences(Pieces(Frame(payload))) == [0] != [1];
    }
  }

  // ---- which long commands are answered in kind, one by one ------------------------------

  /** A payload cut where a record ends leaves no second piece that could be taken for a command. */
  lemma RestIsNoCommand(payload: Bytes, at: nat)
    requires at < |payload| && ParseAll(payload).Some? && ParseAll(payload[..at]).Some?
    ensures !IsCommand(payload[at..])
  {
    var rest := payload[at..];
    assert payload == payload[..at] + rest;
    ParseAllConcat(payload[..at], rest);
    if IsCommand(rest) {
      NoRecordLooksLikeACommand(rest);
    }
  }

  /** The type byte of a command, read as a tag, would be field number 0. */
  lemma NoRecordLooksLikeACommand(piece: Bytes)
    requires IsCommand(piece)
    ensures ParseAll(piece).None?
  {
    assert ParseVarint(piece) == Some(Parsed(3, piece[1..]));
  }

  lemma LongFrameIsTwoPieces(payload: Bytes)
    requires Protocol.COMMAND_SIZE < |payload| <= Inbound.DOWN_MAX
    ensures var (first, rest) := (payload[..Protocol.COMMAND_SIZE], payload[Protocol.COMMAND_SIZE..]);
      && Pieces(Frame(payload)) == [Frame(first), rest] && AckSequence(Frame(first)) == Some(CommandSequence(first))
      && |AckSequences(Pieces(Frame(payload)))| == (if IsCommand(rest) then 2 else 1)
      && AckSequences(Pieces(Frame(payload)))[0] == CommandSequence(first)
  {
    var frame := Frame(payload);
    var (first, rest) := (payload[..Protocol.COMMAND_SIZE], payload[Protocol.COMMAND_SIZE..]);
    assert frame[..PEER_BUFFER] == Frame(first) && frame[PEER_BUFFER..] == rest;
    assert Pieces(rest) == [rest];
    assert AckSequence(Frame(first)) == Some(CommandSequence(first));
    var none: seq<Bytes> := [];
    assert [Frame(first), rest][1..] == [rest] && [rest][1..] == none;
    assert AckSequences([rest]) == (match AckSequence(rest) case None => [] case Some(q) => [q]);
  }

  /** The sequence bytes are acknowledged under: their own, or 0 if they do not decode. */
  function CommandSequence(bytes: Bytes): U32 {
    match CommandSchema.DecodeCommand(bytes) case None => 0 case Some(c) => c.sequence
  }

  /**
   What a caller can check of one payload: it fits the peer's buffer; or its first 20 bytes end
   where a record ends and already hold the sequence; or it is numbered 0, they do not decode,
   and what is left over does not look like another command.
   */
  predicate SurvivesTheCut(payload: Bytes, sequence: U32) {
    || |payload| <= Protocol.COMMAND_SIZE
    || (match CommandSchema.DecodeCommand(payload[..Protocol.COMMAND_SIZE])
        case Some(c) => c.sequence == sequence
        case None => sequence == 0 && payload[Protocol.COMMAND_SIZE] != Upward.COMMAND_TYPE)
  }

  /** Payload by payload: exactly which forwarded commands come back as one ack under their own sequence. */
  lemma AnsweredInKindIff(payload: Bytes, sequence: U32)
    requires Forwardable(payload, sequence)
    ensures AckSequences(Pieces(Frame(payload))) == [sequence] <==> SurvivesTheCut(payload, sequence)
  {
    if |payload| <= Protocol.COMMAND_SIZE {
      ShortFrameIsOnePiece(payload, sequence);
    } else {
      LongFrameIsTwoPieces(payload);
      if CommandSchema.DecodeCommand(payload[..Protocol.COMMAND_SIZE]).Some? {
        RestIsNoCommand(payload, Protocol.COMMAND_SIZE);
      }
    }
  }

  /** A payload that first names one sequence, in a whole bufferful, and then another. */
  function Renamed(first: U32, last: U32): Bytes
    requires last < 128
  {
    CutAtRecord(first) + [16, last]
  }

  /** Twenty bytes of whole records: a sequence and a field unknown to both nodes. */
  function CutAtRecord(sequence: U32): (b: Bytes)
    ensures |b| == Protocol.COMMAND_SIZE
  {
    CutThrough(sequence, Protocol.COMMAND_SIZE)
  }

  /** Such a command is forwarded under its own sequence and acknowledged under another command's. */
  lemma AnotherCommandIsAcknowledged(first: U32, last: U32)
    requires last < 128
    ensures Forwardable(Renamed(first, last), last)
    ensures var pieces := Pieces(Frame(Renamed(first, last)));
      |pieces| == 2 && AckSequence(pieces[0]) == Some(first) && !IsCommand(pieces[1]) && AckSequences(pieces) == [first]
  {
    var (head, tail) := (CutAtRecord(first), [16, last]);
    RenamedIsForwardable(first, last);
    CutThroughIsForwardable(first, Protocol.COMMAND_SIZE);
    var payload := Renamed(first, last);
    assert payload[..Protocol.COMMAND_SIZE] == head && payload[Protocol.COMMAND_SIZE..] == tail;
    LongFrameIsTwoPieces(payload);
    assert !IsCommand(tail);
  }

  lemma RenamedIsForwardable(first: U32, last: U32)
    requires last < 128
    ensures Forwardable(Renamed(first, last), last)
  {
    var (head, tail) := (CutAtRecord(first), [16, last]);
    CutThroughIsForwardable(first, Protocol.COMMAND_SIZE);
    var own := Record(2, Varint(last));
    assert PrintVarint(16) == [16] && PrintVarint(last) == [last];
    assert [own][1..] == [];
    assert PrintAll([own]) == Print(own) == tail;
    RecordsRoundTrip([own]);
    ParseAllConcat(head, tail);
    FoldConcat(CommandSchema.ReadCommand, CommandSchema.NO_COMMAND, ParseAll(head).value, [own]);
    FoldOne(CommandSchema.ReadCommand, CommandSchema.DecodeCommand(head).value, own);
  }
}
