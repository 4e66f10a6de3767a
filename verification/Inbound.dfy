/**
 A PUBLISH arriving at the gateway (handle_incoming_publish and forward_to_peer in
 gateway/src/main.cpp): the payload is drained off the connection whatever its size, and
 then answered once or forwarded once.
 */
module Inbound {
  import opened Basics
  import opened Protobuf
  import opened AckSchema
  import opened Protocol
  import CommandSchema
  import Dispatch

  const KEPT_MAX := 128
  const DISCARD_MAX := 64
  const DOWN_MAX := 24

  /** The bytes this connection will still deliver, the next packet's right behind the payload. */
  class Connection {
    var stream: Bytes

    constructor (stream: Bytes)
      ensures this.stream == stream
    {
      this.stream := stream;
    }

    /** mqtt_readall_publish_payload: all n bytes, or an error once the connection has ended. */
    method ReadAll(buffer: array<Byte>, n: nat) returns (ok: bool)
      requires n <= buffer.Length
      modifies this, buffer
      ensures ok <==> n <= |old(stream)|
      ensures ok ==> buffer[..n] == old(stream)[..n] && stream == old(stream)[n..]
      ensures ok ==> buffer[n..] == old(buffer[n..])
    {
      if n > |stream| {
        stream := [];
        return false;
      }
      for i := 0 to n
        invariant stream == old(stream)
        invariant buffer[..i] == stream[..i] && buffer[n..] == old(buffer[n..])
      {
        buffer[i] := stream[i];
      }
      stream := stream[n..];
      return true;
    }
  }

  datatype Topic = OwnAck | PeerAck

  /** One publish_ack that reached mqtt_publish. */
  datatype SentAck = SentAck(topic: Topic, payload: Bytes)

  /** struct relay_down as published on chan_relay_command. */
  datatype Down = Down(sequence: U32, bytes: Bytes)

  /** What one PUBLISH came to. */
  datatype Outcome = ReadFailed | Answered(ack: SentAck) | Forwarded(down: Down)

  /** What the payload is, as far as the gateway can tell. */
  function Understood(payload: Bytes): Option<CommandSchema.Command> {
    if |payload| > KEPT_MAX then None else CommandSchema.DecodeCommand(payload)
  }

  /** The ack says this status about this sequence, with this device information or with none. */
  predicate Acknowledges(a: SentAck, topic: Topic, sequence: U32, status: AckStatus, info: Option<DeviceInfo>) {
    a.topic == topic && Says(a.payload, sequence, status, info)
  }

  predicate Says(payload: Bytes, sequence: U32, status: AckStatus, info: Option<DeviceInfo>) {
    match DecodeAck(payload)
    case None => false
    case Some(ack) => ack.sequence == sequence && ack.status == AckStatusCode(status) && ack.info == info
  }

  class Gateway {
    const own: Dispatch.CommandHandler
    const info: DeviceInfo
    var acks: seq<SentAck>
    var forwarded: seq<Down>
    var pubacks: nat

    ghost predicate Valid()
      reads own, own.bus
    {
      own.Valid() && InfoBounded(info)
    }

    constructor (own: Dispatch.CommandHandler, info: DeviceInfo)
      requires own.Valid() && InfoBounded(info)
      ensures Valid() && this.own == own && acks == [] && forwarded == []
    {
      this.own := own;
      this.info := info;
      acks, forwarded, pubacks := [], [], 0;
    }

    /** Encodes and publishes one ack; encoding cannot fail with a buffer of this size. */
    method PublishAck(topic: Topic, sequence: U32, status: AckStatus, detail: Option<Bytes>, info: Option<DeviceInfo>)
      returns (o: Outcome)
      requires info.Some? ==> InfoBounded(info.value)
      modifies this`acks
      ensures o.Answered? && acks == old(acks) + [o.ack]
      ensures Acknowledges(o.ack, topic, sequence, status, info)
    {
      var buffer := new Byte[ACK_SIZE];
      var n := EncodeAck(sequence, status, detail, info, buffer);
      var ack := SentAck(topic, buffer[..n]);
      acks := acks + [ack];
      return Answered(ack);
    }

    method ForwardToPeer(payload: Bytes, sequence: U32, relayBusy: bool) returns (o: Outcome)
      modifies this`acks, this`forwarded
      ensures !o.ReadFailed? && Recorded(old(acks), old(forwarded), acks, forwarded, o)
      ensures if |payload| <= DOWN_MAX && !relayBusy then o == Forwarded(Down(sequence, payload))
              else o.Answered? && Acknowledges(o.ack, PeerAck, sequence, Failed, None)
    {
      var detail: Bytes := *; // whatever the text
      if |payload| > DOWN_MAX {
        o := PublishAck(PeerAck, sequence, Failed, Some(detail), None);
        return;
      }
      if relayBusy {
        o := PublishAck(PeerAck, sequence, Failed, Some(detail), None);
        return;
      }
      forwarded := forwarded + [Down(sequence, payload)];
      return Forwarded(Down(sequence, payload));
    }

    /** Keep what fits, drain the rest: on success the connection stands right behind the payload. */
    method TakePayload(c: Connection, length: nat, payload: array<Byte>) returns (ok: bool, kept: nat, oversized: bool)
      requires payload.Length == KEPT_MAX
      modifies c, payload
      ensures ok <==> length <= |old(c.stream)|
      ensures ok ==> c.stream == old(c.stream)[length..]
      ensures ok ==> kept == Min(length, KEPT_MAX) && payload[..kept] == old(c.stream)[..kept]
      ensures ok ==> (oversized <==> length > KEPT_MAX)
    {
      var discard := new Byte[DISCARD_MAX];
      var remaining := length;
      kept := Min(remaining, KEPT_MAX);
      ok := c.ReadAll(payload, kept);
      if !ok {
        return false, 0, false;
      }
      remaining := remaining - kept;
      oversized := remaining > 0;
      while remaining > 0
        invariant 0 <= remaining <= length - kept
        invariant length - remaining <= |old(c.stream)| && c.stream == old(c.stream)[length - remaining..]
        invariant payload[..kept] == old(c.stream)[..kept]
      {
        var chunk := Min(remaining, DISCARD_MAX);
        ok := c.ReadAll(discard, chunk);
        if !ok {
          return false, 0, false;
        }
        remaining := remaining - chunk;
      }
      return true, kept, oversized;
    }

    /** This node's own command: apply it, unless it is a redelivery, and say what it came to. */
    method AnswerOwn(cmd: CommandSchema.Command, sensorBusy: bool) returns (o: Outcome)
      requires Valid()
      modifies this`acks, own, own.bus
      ensures Valid() && own.delivered == old(own.delivered) + [cmd]
      ensures o.Answered? && acks == old(acks) + [o.ack]
      ensures Acknowledges(o.ack, OwnAck, cmd.sequence, OwnStatus(old(own.delivered), cmd, sensorBusy),
                           OwnInfo(old(own.delivered), cmd, info))
    {
      var status, reported := Execute(own, cmd, sensorBusy, info);
      var detail: Option<Bytes> := *;
      o := PublishAck(OwnAck, cmd.sequence, status, detail, reported);
    }

    /** What follows once the bytes are off the connection. */
    method Respond(payload: Bytes, oversized: bool, forPeer: bool, relayBusy: bool, sensorBusy: bool)
      returns (o: Outcome)
      requires Valid()
      modifies this`acks, this`forwarded, own, own.bus
      ensures Valid() && !o.ReadFailed? && Recorded(old(acks), old(forwarded), acks, forwarded, o)
      ensures Proper(if oversized then None else CommandSchema.DecodeCommand(payload), payload, forPeer, relayBusy,
                     sensorBusy, old(own.delivered), info, o)
      ensures own.delivered == old(own.delivered) +
        if oversized || CommandSchema.DecodeCommand(payload).None? || forPeer then []
        else [CommandSchema.DecodeCommand(payload).value]
    {
      var box := new CommandBox();
      var ok := DecodeCommandInto(payload, oversized, box);
      if !ok {
        var detail: Bytes := *;
        o := PublishAck(if forPeer then PeerAck else OwnAck, 0, Malformed, Some(detail), None);
        return;
      }
      if forPeer {
        o := ForwardToPeer(payload, box.cmd.sequence, relayBusy);
        return;
      }
      o := AnswerOwn(box.cmd, sensorBusy);
    }

    /**
     Removes exactly the payload from the connection, however long it is, unless the
     connection ends first; then sends exactly one ack or hands exactly one command to the
     relay, byte for byte.
     */
    method HandlePublish(c: Connection, forPeer: bool, qos1: bool, length: nat, relayBusy: bool, sensorBusy: bool)
      returns (o: Outcome)
      requires Valid()
      modifies this`acks, this`forwarded, this`pubacks, c, own, own.bus
      ensures Valid() && Recorded(old(acks), old(forwarded), acks, forwarded, o)
      ensures o.ReadFailed? <==> length > |old(c.stream)|
      ensures !o.ReadFailed? ==> c.stream == old(c.stream)[length..]
      ensures !o.ReadFailed? ==>
        var payload := old(c.stream)[..length];
        Proper(Understood(payload), payload, forPeer, relayBusy, sensorBusy, old(own.delivered), info, o)
      ensures pubacks == old(pubacks) + if qos1 && !o.ReadFailed? then 1 else 0
      ensures own.delivered == old(own.delivered) +
        if o.ReadFailed? || Understood(old(c.stream)[..length]).None? || forPeer then []
        else [Understood(old(c.stream)[..length]).value]
    {
      var buffer := new Byte[KEPT_MAX];
      var ok, kept, oversized := TakePayload(c, length, buffer);
      if !ok {
        return ReadFailed;
      }
      if qos1 {
        pubacks := pubacks + 1;
      }
      o := Respond(buffer[..kept], oversized, forPeer, relayBusy, sensorBusy);
    }
  }

  /** The outcome and nothing else was added to the two logs. */
  predicate Recorded(acks: seq<SentAck>, forwarded: seq<Down>, acks': seq<SentAck>, forwarded': seq<Down>, o: Outcome) {
    && acks' == acks + (if o.Answered? then [o.ack] else [])
    && forwarded' == forwarded + (if o.Forwarded? then [o.down] else [])
  }

  /**
   The response a payload deserves: malformed ones are refused with sequence 0 on the topic
   they were addressed through; the peer's are forwarded whole if they fit and the relay has
   room, and otherwise refused; this node's own are acknowledged under their sequence with the
   status of what they came to, or OK for a redelivery.
   */
  predicate Proper(cmd: Option<CommandSchema.Command>, payload: Bytes, forPeer: bool, relayBusy: bool, sensorBusy: bool,
                   delivered: seq<CommandSchema.Command>, info: DeviceInfo, o: Outcome)
  {
    match cmd
    case None => o.Answered? && Acknowledges(o.ack, if forPeer then PeerAck else OwnAck, 0, Malformed, None)
    case Some(c) =>
      if forPeer && |payload| <= DOWN_MAX && !relayBusy then o == Forwarded(Down(c.sequence, payload))
      else if forPeer then o.Answered? && Acknowledges(o.ack, PeerAck, c.sequence, Failed, None)
      else
        && o.Answered?
        && Acknowledges(o.ack, OwnAck, c.sequence, OwnStatus(delivered, c, sensorBusy), OwnInfo(delivered, c, info))
  }

  /** Whether the command repeats the one before it. */
  predicate Repeats(delivered: seq<CommandSchema.Command>, cmd: CommandSchema.Command) {
    delivered != [] && Last(delivered).sequence == cmd.sequence
  }

  /** The status a node's own command deserves, given what was delivered before it. */
  function OwnStatus(delivered: seq<CommandSchema.Command>, cmd: CommandSchema.Command, sensorBusy: bool): AckStatus {
    if Repeats(delivered, cmd) then Ok
    else
      match cmd.body
      case SetInterval(ms) => if ms < 1000 || ms > 300000 then InvalidArgument else if sensorBusy then Failed else Ok
      case TriggerMeasurement => if sensorBusy then Failed else Ok
      case GetDeviceInfo => Ok
      case NoPayload => Unsupported
  }

  /** Device information goes out exactly with the answer to a request for it that is not a repeat. */
  function OwnInfo(delivered: seq<CommandSchema.Command>, cmd: CommandSchema.Command, info: DeviceInfo):
    Option<DeviceInfo>
  {
    if cmd.body.GetDeviceInfo? && !Repeats(delivered, cmd) then Some(info) else None
  }

  /** handle_command, and what its result puts into the ack. */
  method Execute(handler: Dispatch.CommandHandler, cmd: CommandSchema.Command, sensorBusy: bool, info: DeviceInfo)
    returns (status: AckStatus, reported: Option<DeviceInfo>)
    requires handler.Valid()
    modifies handler, handler.bus
    ensures handler.Valid() && handler.delivered == old(handler.delivered) + [cmd]
    ensures status == OwnStatus(old(handler.delivered), cmd, sensorBusy)
    ensures reported == OwnInfo(old(handler.delivered), cmd, info)
  {
    var r := handler.Handle(cmd, sensorBusy);
    return r.status, if r.hasInfo then Some(info) else None;
  }

  /** The branch that answers "command too large to relay" can be taken, at every length it guards. */
  lemma TooLargeToRelayIsReachable(length: nat) returns (payload: Bytes)
    requires DOWN_MAX < length <= KEPT_MAX
    ensures |payload| == length && Understood(payload).Some?
  {
    payload := CommandSchema.LongPayloadsDecode(CommandSchema.NO_COMMAND, length);
  }
}
