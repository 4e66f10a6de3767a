/**
 The peer's side of a command (handle_incoming in peer-node/src/main.cpp), and the whole
 journey of a forwarded command and its ack through both nodes' code.
 */
module PeerNode {
  import opened Basics
  import opened AckSchema
  import opened Protocol
  import opened Upward
  import Dispatch
  import Downward
  import Inbound

  /** The frame is an ack transfer saying this status about this sequence, with this device information or none. */
  predicate AnswersWith(frame: Bytes, sequence: U32, status: AckStatus, info: Option<DeviceInfo>) {
    Carries(frame, IsAck) && Inbound.Says(frame[1..], sequence, status, info)
  }

  /** The frame is an ack transfer under this sequence. */
  predicate AcksSequence(frame: Bytes, sequence: U32) {
    Carries(frame, IsAck) && DecodeAck(frame[1..]).Some? && DecodeAck(frame[1..]).value.sequence == sequence
  }

  class Peer {
    const commands: Dispatch.CommandHandler
    const info: DeviceInfo

    ghost predicate Valid()
      reads commands, commands.bus
    {
      commands.Valid() && InfoBounded(info)
    }

    constructor (commands: Dispatch.CommandHandler, info: DeviceInfo)
      requires commands.Valid() && InfoBounded(info)
      ensures Valid() && this.commands == commands
    {
      this.commands := commands;
      this.info := info;
    }

    method SendAck(sequence: U32, status: AckStatus, detail: Option<Bytes>, info: Option<DeviceInfo>)
      returns (frame: Bytes)
      requires info.Some? ==> InfoBounded(info.value)
      ensures |frame| <= 1 + ACK_SIZE && AnswersWith(frame, sequence, status, info)
    {
      var buffer := new Byte[ACK_SIZE];
      var n := EncodeAck(sequence, status, detail, info, buffer);
      var built := BuildFrame(IsAck, buffer[..n]);
      return built.value;
    }

    /** A command that decoded: executed unless it repeats the previous one, and answered under its own sequence. */
    method Answer(cmd: CommandSchema.Command, detail: Option<Bytes>, sensorBusy: bool) returns (frame: Bytes)
      requires Valid()
      modifies commands, commands.bus
      ensures Valid() && commands.delivered == old(commands.delivered) + [cmd] && |frame| <= 1 + ACK_SIZE
      ensures AnswersWith(frame, cmd.sequence, Inbound.OwnStatus(old(commands.delivered), cmd, sensorBusy),
                          Inbound.OwnInfo(old(commands.delivered), cmd, info))
    {
      var status, reported := Inbound.Execute(commands, cmd, sensorBusy, info);
      frame := SendAck(cmd.sequence, status, detail, reported);
    }

    /**
     Anything but a command is ignored. A command is answered by exactly one ack frame: under
     its own sequence if it decodes, executed unless it repeats the previous one, and under
     sequence 0 if it does not.
     */
    method HandleIncoming(buffer: Bytes, sensorBusy: bool) returns (answer: Option<Bytes>)
      requires Valid()
      modifies commands, commands.bus
      ensures Valid()
      ensures answer.Some? <==> Downward.AckSequence(buffer).Some?
      ensures answer.Some? ==> |answer.value| <= 1 + ACK_SIZE
      ensures answer.Some? ==>
        match Downward.CommandIn(buffer)
        case None => AnswersWith(answer.value, 0, Malformed, None)
        case Some(c) => AnswersWith(answer.value, c.sequence, Inbound.OwnStatus(old(commands.delivered), c, sensorBusy),
                                    Inbound.OwnInfo(old(commands.delivered), c, info))
      ensures commands.delivered == old(commands.delivered) +
        match Downward.CommandIn(buffer) case None => [] case Some(c) => [c]
    {
      if |buffer| < 1 {
        return None;
      }
      if buffer[0] != COMMAND_TYPE {
        return None;
      }
      var box := new CommandBox();
      var detail: Option<Bytes> := *; // whatever the text
      var ok := DecodeCommandInto(buffer[1..], false, box);
      var frame;
      if !ok {
        frame := SendAck(0, Malformed, detail, None);
      } else {
        frame := Answer(box.cmd, detail, sensorBusy);
      }
      return Some(frame);
    }

    /** What one piece is answered with, as a list of at most one transfer. */
    method AnswerPiece(piece: Bytes, sensorBusy: bool) returns (answers: seq<Bytes>)
      requires Valid()
      modifies commands, commands.bus
      ensures Valid() && Pairwise(AcksSequence, answers, Downward.AckSequences([piece]))
    {
      var answer := HandleIncoming(piece, sensorBusy);
      assert [piece][1..] == [];
      return if answer.Some? then [answer.value] else [];
    }

    /** One whole transfer, received piece by piece: the acks sent carry exactly these sequences, in this order. */
    method ReceiveTransfer(frame: Bytes, sensorBusy: bool) returns (answers: seq<Bytes>)
      requires Valid()
      modifies commands, commands.bus
      ensures Valid() && Pairwise(AcksSequence, answers, Downward.AckSequences(Downward.Pieces(frame)))
    {
      var pieces := Downward.Pieces(frame);
      answers := [];
      for k := 0 to |pieces|
        invariant Valid() && Pairwise(AcksSequence, answers, Downward.AckSequences(pieces[..k]))
      {
        var more := AnswerPiece(pieces[k], sensorBusy);
        PairwiseConcat(AcksSequence, answers, Downward.AckSequences(pieces[..k]),
                       more, Downward.AckSequences([pieces[k]]));
        answers := answers + more;
        assert pieces[..k + 1] == pieces[..k] + [pieces[k]];
        Downward.AckSequencesConcat(pieces[..k], [pieces[k]]);
      }
      assert pieces[..|pieces|] == pieces;
    }

    /**
     A command the gateway forwarded, carried to this peer and its answer carried back: for
     every payload of at most 20 bytes the peer decodes exactly the command the gateway saw,
     and what lands on chan_relay_ack acknowledges exactly the sequence the gateway would have
     used in its place.
     */
    method RoundTrip(down: Inbound.Down, relay: Relay, sensorBusy: bool)
      requires Valid()
      requires Downward.Forwardable(down.bytes, down.sequence) && |down.bytes| <= COMMAND_SIZE
      modifies commands, commands.bus, relay
      ensures Valid() && relay.given && relay.telemetry == old(relay.telemetry)
      ensures relay.ackAttempts == old(relay.ackAttempts) + 1
      ensures commands.delivered == old(commands.delivered) + [Inbound.Understood(down.bytes).value]
      ensures relay.ack.Some? && DecodeAck(relay.ack.value).Some?
      ensures DecodeAck(relay.ack.value).value.sequence == down.sequence
    {
      Downward.ShortFrameIsOnePiece(down.bytes, down.sequence);
      var answer := HandleIncoming(Downward.Pieces(Downward.Frame(down.bytes))[0], sensorBusy);
      var refused := relay.HandleRelayed(answer.value, false);
    }
  }
}
