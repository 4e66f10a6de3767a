/**
 The opaque way up (peer-node/src/main.cpp, gateway/src/relay.cpp, gateway/src/main.cpp): what
 the peer passes to send_message travels as [type byte] + payload, is routed by that byte onto
 a latest-wins channel, and is published byte for byte.
 */
module Upward {
  import opened Basics
  import opened AckSchema
  import opened Protocol

  type Bytes = seq<Byte>

  const RELAY_UP_MAX := 160

  const TELEMETRY_TYPE: Byte := 1
  const ACK_TYPE: Byte := 2
  const COMMAND_TYPE: Byte := 3

  datatype Kind = IsTelemetry | IsAck

  /** How the gateway routes a received payload: by its first byte, and not at all otherwise. */
  function Route(frame: Bytes): Option<(Kind, Bytes)> {
    if frame == [] then None
    else if frame[0] == TELEMETRY_TYPE then Some((IsTelemetry, frame[1..]))
    else if frame[0] == ACK_TYPE then Some((IsAck, frame[1..]))
    else None
  }

  function TypeByte(k: Kind): Byte {
    match k
    case IsTelemetry => TELEMETRY_TYPE
    case IsAck => ACK_TYPE
  }

  /** The peer's send_message: the frame it hands to ISO-TP, or a refusal. */
  method BuildFrame(k: Kind, payload: Bytes) returns (frame: Option<Bytes>)
    ensures frame.Some? <==> |payload| <= ACK_SIZE
    ensures frame.Some? ==> Route(frame.value) == Some((k, payload)) && |frame.value| == |payload| + 1 <= 1 + ACK_SIZE
    ensures frame.Some? ==> frame.value == [if k == IsTelemetry then 1 else 2] + payload
  {
    if |payload| + 1 > 1 + ACK_SIZE {
      return None;
    }
    var buffer := new Byte[1 + ACK_SIZE];
    buffer[0] := TypeByte(k);
    for i := 0 to |payload|
      invariant buffer[0] == TypeByte(k) && buffer[1..1 + i] == payload[..i]
    {
      buffer[1 + i] := payload[i];
    }
    var whole := buffer[..|payload| + 1];
    assert whole[1..] == buffer[1..1 + |payload|] == payload[..|payload|] == payload;
    assert whole == [whole[0]] + whole[1..];
    return Some(whole);
  }

  /** The channels and the semaphore as one relay thread sees them. */
  class Relay {
    var telemetry: Option<Bytes>   // chan_relay_telemetry
    var ack: Option<Bytes>         // chan_relay_ack
    var given: bool                // ack_received
    ghost var ackAttempts: nat

    constructor ()
      ensures telemetry.None? && ack.None? && !given && ackAttempts == 0
    {
      telemetry, ack, given, ackAttempts := None, None, false, 0;
    }

    /** publish_up: refuses what does not fit, otherwise replaces the channel's message unless the bus is busy. */
    method PublishUp(k: Kind, payload: Bytes, busy: bool) returns (refused: bool)
      modifies this`telemetry, this`ack, this`ackAttempts
      ensures refused <==> |payload| > RELAY_UP_MAX
      ensures telemetry == if k == IsTelemetry && !refused && !busy then Some(payload) else old(telemetry)
      ensures ack == if k == IsAck && !refused && !busy then Some(payload) else old(ack)
      ensures ackAttempts == old(ackAttempts) + if k == IsAck then 1 else 0
    {
      if k == IsAck {
        ackAttempts := ackAttempts + 1;
      }
      if |payload| > RELAY_UP_MAX {
        return true;
      }
      if !busy {
        match k
        case IsTelemetry => telemetry := Some(payload);
        case IsAck => ack := Some(payload);
      }
      return false;
    }

    /**
     handle_relayed on whatever isotp_recv left in its 161-byte buffer: the refusal branch of
     publish_up is never taken, the payload goes untouched to the channel its first byte
     names, and the semaphore is given exactly for acks, after the publish.
     */
    method HandleRelayed(frame: Bytes, busy: bool) returns (refused: bool)
      requires |frame| <= 1 + RELAY_UP_MAX
      modifies this
      ensures !refused
      ensures telemetry == if Carries(frame, IsTelemetry) && !busy then Some(frame[1..]) else old(telemetry)
      ensures ack == if Carries(frame, IsAck) && !busy then Some(frame[1..]) else old(ack)
      ensures given <==> old(given) || Carries(frame, IsAck)
      ensures ackAttempts == old(ackAttempts) + if Carries(frame, IsAck) then 1 else 0
      ensures forall s: State, t: Transfer | t.frame == frame && Shows(old(telemetry), old(ack), s) ::
        Shows(telemetry, ack, Routed(s, t, busy))
    {
      if |frame| < 1 {
        return false;
      }
      if frame[0] == TELEMETRY_TYPE {
        refused := PublishUp(IsTelemetry, frame[1..], busy);
      } else if frame[0] == ACK_TYPE {
        refused := PublishUp(IsAck, frame[1..], busy);
        given := true;
      } else {
        refused := false;
      }
    }

    /** send_synthetic_ack: never refused either, and readable as a FAILED ack under the command's sequence. */
    method SendSyntheticAck(sequence: U32, detail: Bytes, busy: bool) returns (refused: bool, payload: Bytes)
      modifies this`telemetry, this`ack, this`ackAttempts
      ensures !refused && telemetry == old(telemetry) && ackAttempts == old(ackAttempts) + 1
      ensures ack == if busy then old(ack) else Some(payload)
      ensures DecodeAck(payload) == Some(AckFor(sequence, Failed, Some(detail), None))
    {
      var buffer := new Byte[ACK_SIZE];
      var n := EncodeAck(sequence, Failed, Some(detail), None, buffer);
      payload := buffer[..n];
      refused := PublishUp(IsAck, payload, busy);
    }
  }

  predicate Carries(frame: Bytes, k: Kind) {
    Route(frame).Some? && Route(frame).value.0 == k
  }

  // ---- the whole way, interleaved ---------------------------------------------------------

  /**
   Where bytes came from: the peer's n-th message of that kind, send_synthetic_ack, or
   publish_ack, with which main answers a command it does not forward.
   */
  datatype Origin = Peer(n: nat) | Gateway | MainThread

  datatype Item = Item(bytes: Bytes, origin: Origin)

  /** A frame on the link, with its place among the peer's messages of its kind. */
  datatype Transfer = Transfer(frame: Bytes, kind: Kind, n: nat)

  datatype State = State(
    sentTelemetry: seq<Bytes>,      // payloads passed to send_message(RELAY_MSG_TELEMETRY)
    sentAcks: seq<Bytes>,           // payloads passed to send_message(RELAY_MSG_ACK)
    link: seq<Transfer>,            // completed transfers, in order
    telemetry: Option<Item>,        // chan_relay_telemetry
    ack: Option<Item>,              // chan_relay_ack
    topicTelemetry: seq<Item>,      // published on node/2/telemetry
    topicAck: seq<Item>,            // published on node/2/ack
    synthesized: seq<Bytes>,        // payloads of send_synthetic_ack
    answered: seq<Bytes>,           // payloads main passed to publish_ack for node/2/ack
    nextTelemetry: nat,             // one past the place of the last telemetry received
    nextAck: nat)                   // one past the place of the last ack received

  const INIT := State([], [], [], None, None, [], [], [], [], 0, 0)

  datatype Event =
    | Send(kind: Kind, payload: Bytes, lost: bool)  // peer: send_message; ISO-TP is whole or nothing
    | Receive(busy: bool)                           // RX: isotp_recv and handle_relayed
    | Synthesize(payload: Bytes, busy: bool)        // TX: send_synthetic_ack
    | Publish(kind: Kind)                           // main: publish_relayed read the channel and published
    | AnswerDirectly(payload: Bytes)                // main: publish_ack on kPeerTopicAck

  predicate Enabled(s: State, e: Event) {
    match e
    case Send(_, payload, _) => |payload| <= ACK_SIZE
    case Receive(_) => s.link != []
    case Synthesize(payload, _) => |payload| <= ACK_SIZE
    case Publish(kind) => if kind == IsTelemetry then s.telemetry.Some? else s.ack.Some?
    case AnswerDirectly(payload) => |payload| <= ACK_SIZE
  }

  /** Only the received bytes decide where they go; the place number merely travels along. */
  function Routed(s: State, t: Transfer, busy: bool): State {
    match Route(t.frame)
    case None => s
    case Some((IsTelemetry, bytes)) => if busy then s else s.(telemetry := Some(Item(bytes, Peer(t.n))))
    case Some((IsAck, bytes)) => if busy then s else s.(ack := Some(Item(bytes, Peer(t.n))))
  }

  function Apply(s: State, e: Event): State
    requires Enabled(s, e)
  {
    match e
    case Send(IsTelemetry, payload, lost) =>
      s.(sentTelemetry := s.sentTelemetry + [payload], link := if lost then s.link else
         s.link + [Transfer([TELEMETRY_TYPE] + payload, IsTelemetry, |s.sentTelemetry|)])
    case Send(IsAck, payload, lost) =>
      s.(sentAcks := s.sentAcks + [payload], link := if lost then s.link else
         s.link + [Transfer([ACK_TYPE] + payload, IsAck, |s.sentAcks|)])
    case Receive(busy) =>
      var t := s.link[0];
      Routed(s.(link := s.link[1..],
      nextTelemetry := if t.kind == IsTelemetry then t.n + 1 else s.nextTelemetry,
      nextAck := if t.kind == IsAck then t.n + 1 else s.nextAck), t, busy)
    case Synthesize(payload, busy) =>
      s.(synthesized := s.synthesized + [payload], ack := if busy then s.ack else Some(Item(payload, Gateway)))
    case Publish(IsTelemetry) => s.(topicTelemetry := s.topicTelemetry + [s.telemetry.value])
    case Publish(IsAck) => s.(topicAck := s.topicAck + [s.ack.value])
    case AnswerDirectly(payload) =>
      s.(answered := s.answered + [payload], topicAck := s.topicAck + [Item(payload, MainThread)])
  }

  function Exec(es: seq<Event>): Option<State>
    decreases |es|
  {
    if es == [] then Some(INIT)
    else
      match Exec(es[..|es| - 1])
      case None => None
      case Some(s) => if Enabled(s, Last(es)) then Some(Apply(s, Last(es))) else None
  }

  /** Everything ever handed in for one topic, by author. */
  datatype Authored = Authored(peer: seq<Bytes>, relay: seq<Bytes>, main: seq<Bytes>)

  function ForTelemetry(s: State): Authored {
    Authored(s.sentTelemetry, [], [])
  }

  function ForAck(s: State): Authored {
    Authored(s.sentAcks, s.synthesized, s.answered)
  }

  /** The item is, byte for byte, what its origin says it is. */
  predicate Genuine(i: Item, written: Authored) {
    match i.origin
    case Peer(n) => n < |written.peer| && i.bytes == written.peer[n]
    case Gateway => i.bytes in written.relay
    case MainThread => i.bytes in written.main
  }

  /** The peer's messages appear in the order they were sent, with skips and repeats at most. */
  predicate InOrder(items: seq<Item>) {
    forall i, j :: 0 <= i < j < |items| && items[i].origin.Peer? && items[j].origin.Peer? ==>
      items[i].origin.n <= items[j].origin.n
  }

  /** A transfer is the frame of the message it stands for. */
  predicate Faithful(t: Transfer, s: State) {
    && (t.kind == IsTelemetry ==>
          s.nextTelemetry <= t.n < |s.sentTelemetry| && t.frame == [TELEMETRY_TYPE] + s.sentTelemetry[t.n])
    && (t.kind == IsAck ==> s.nextAck <= t.n < |s.sentAcks| && t.frame == [ACK_TYPE] + s.sentAcks[t.n])
  }

  ghost predicate LinkOk(s: State) {
    && (forall i :: 0 <= i < |s.link| ==> Faithful(s.link[i], s))
    && (forall i, j :: 0 <= i < j < |s.link| && s.link[i].kind == s.link[j].kind ==> s.link[i].n < s.link[j].n)
  }

  /** One channel and its topic: everything genuine, in order, and older than anything still to come. */
  ghost predicate TopicOk(channel: Option<Item>, topic: seq<Item>, written: Authored, next: nat) {
    && next <= |written.peer|
    && (forall i :: i in topic ==> Genuine(i, written) && (i.origin.Peer? ==> i.origin.n < next))
    && InOrder(topic)
    && (channel.Some? ==>
          && Genuine(channel.value, written)
          && (channel.value.origin.Peer? ==> channel.value.origin.n < next && InOrder(topic + [channel.value])))
  }

  ghost predicate Opaque(s: State) {
    && LinkOk(s)
    && TopicOk(s.telemetry, s.topicTelemetry, ForTelemetry(s), s.nextTelemetry)
    && TopicOk(s.ack, s.topicAck, ForAck(s), s.nextAck)
  }

  lemma SendKeepsLink(s: State, kind: Kind, payload: Bytes, lost: bool)
    requires Opaque(s) && |payload| <= ACK_SIZE
    ensures LinkOk(Apply(s, Send(kind, payload, lost)))
  {
    var t := Apply(s, Send(kind, payload, lost));
    forall i | 0 <= i < |t.link| ensures Faithful(t.link[i], t) {
      if i < |s.link| {
        assert t.link[i] == s.link[i] && Faithful(s.link[i], s);
      }
    }
  }

  lemma ReceiveKeepsLink(s: State, busy: bool)
    requires LinkOk(s) && s.link != []
    ensures LinkOk(Apply(s, Receive(busy)))
  {
    var t := Apply(s, Receive(busy));
    forall i | 0 <= i < |t.link| ensures Faithful(t.link[i], t) {
      assert t.link[i] == s.link[i + 1] && Faithful(s.link[i + 1], s);
    }
  }

  /** A message sent later than everything on the topic may enter the channel. */
  lemma ChannelAdvances(topic: seq<Item>, written: Authored, next: nat, item: Item)
    requires TopicOk(None, topic, written, next)
    requires Genuine(item, written) && item.origin.Peer? && next <= item.origin.n
    ensures TopicOk(Some(item), topic, written, item.origin.n + 1)
  {
    forall i | 0 <= i < |topic| && topic[i].origin.Peer? ensures topic[i].origin.n <= item.origin.n {
      assert topic[i] in topic;
    }
  }

  /** Republishing the channel's current message, fresh or not, keeps the topic in order. */
  lemma TopicAdvances(topic: seq<Item>, written: Authored, next: nat, item: Item)
    requires TopicOk(Some(item), topic, written, next)
    ensures TopicOk(Some(item), topic + [item], written, next)
  {
    var more := topic + [item];
    var twice := more + [item];
    forall i, j | 0 <= i < j < |twice| && twice[i].origin.Peer? && twice[j].origin.Peer? && item.origin.Peer?
      ensures twice[i].origin.n <= twice[j].origin.n
    {
      if j == |more| && i < |topic| {
        assert more[i].origin.n <= more[|topic|].origin.n;
      } else if j < |more| {
        assert more[i].origin.n <= more[j].origin.n;
      }
    }
    if !item.origin.Peer? {
      AuthoredHereKeepsOrder(topic, item);
    }
  }

  /** What the peer did not write has no place among the peer's messages. */
  lemma AuthoredHereKeepsOrder(topic: seq<Item>, item: Item)
    requires InOrder(topic) && !item.origin.Peer?
    ensures InOrder(topic + [item])
  {
    var more := topic + [item];
    forall i, j | 0 <= i < j < |more| && more[i].origin.Peer? && more[j].origin.Peer?
      ensures more[i].origin.n <= more[j].origin.n
    {
      assert more[i] == topic[i] && more[j] == topic[j];
    }
  }

  /** main's own ack goes past the channel, wherever the relay has got to. */
  lemma DirectAnswerKeepsTopic(channel: Option<Item>, topic: seq<Item>, written: Authored, next: nat, item: Item)
    requires TopicOk(channel, topic, written, next) && item.origin.MainThread? && Genuine(item, written)
    ensures TopicOk(channel, topic + [item], written, next)
  {
    AuthoredHereKeepsOrder(topic, item);
    if channel.Some? && channel.value.origin.Peer? {
      var before, after := topic + [channel.value], topic + [item] + [channel.value];
      forall i, j | 0 <= i < j < |after| && after[i].origin.Peer? && after[j].origin.Peer?
        ensures after[i].origin.n <= after[j].origin.n
      {
        if j == |topic| + 1 {
          assert before[i] == after[i] && before[|topic|] == after[j];
        } else {
          assert topic[i] == after[i] && topic[j] == after[j];
        }
      }
    }
  }

  predicate Extends(written: Authored, more: Authored) {
    written.peer <= more.peer && written.relay <= more.relay && written.main <= more.main
  }

  lemma MoreAuthoredKeepsTopic(channel: Option<Item>, topic: seq<Item>, written: Authored, more: Authored, next: nat)
    requires TopicOk(channel, topic, written, next) && Extends(written, more)
    ensures TopicOk(channel, topic, more, next)
  {}

  lemma SkippingKeepsTopic(channel: Option<Item>, topic: seq<Item>, written: Authored, next: nat, later: nat)
    requires TopicOk(channel, topic, written, next) && next <= later <= |written.peer|
    ensures TopicOk(channel, topic, written, later)
    ensures TopicOk(None, topic, written, later)
  {}

  lemma ReceiveKeepsTopics(s: State, busy: bool)
    requires Opaque(s) && s.link != []
    ensures Opaque(Apply(s, Receive(busy)))
  {
    ReceiveKeepsLink(s, busy);
    var t := s.link[0];
    assert Faithful(t, s) && t.frame != [];
    var item := Item(t.frame[1..], Peer(t.n));
    if t.kind == IsTelemetry {
      assert t.frame[1..] == s.sentTelemetry[t.n];
      SkippingKeepsTopic(s.telemetry, s.topicTelemetry, ForTelemetry(s), s.nextTelemetry, t.n);
      SkippingKeepsTopic(s.telemetry, s.topicTelemetry, ForTelemetry(s), s.nextTelemetry, t.n + 1);
      ChannelAdvances(s.topicTelemetry, ForTelemetry(s), t.n, item);
    } else {
      assert t.frame[1..] == s.sentAcks[t.n];
      SkippingKeepsTopic(s.ack, s.topicAck, ForAck(s), s.nextAck, t.n);
      SkippingKeepsTopic(s.ack, s.topicAck, ForAck(s), s.nextAck, t.n + 1);
      ChannelAdvances(s.topicAck, ForAck(s), t.n, item);
    }
  }

  lemma StepStaysOpaque(s: State, e: Event)
    requires Opaque(s) && Enabled(s, e)
    ensures Opaque(Apply(s, e))
  {
    var t := Apply(s, e);
    match e
    case Send(kind, payload, lost) =>
      SendKeepsLink(s, kind, payload, lost);
      MoreAuthoredKeepsTopic(s.telemetry, s.topicTelemetry, ForTelemetry(s), ForTelemetry(t), s.nextTelemetry);
      MoreAuthoredKeepsTopic(s.ack, s.topicAck, ForAck(s), ForAck(t), s.nextAck);
    case Receive(busy) => ReceiveKeepsTopics(s, busy);
    case Synthesize(payload, busy) =>
      MoreAuthoredKeepsTopic(s.ack, s.topicAck, ForAck(s), ForAck(t), s.nextAck);
    case Publish(kind) =>
      if kind == IsTelemetry {
        TopicAdvances(s.topicTelemetry, ForTelemetry(s), s.nextTelemetry, s.telemetry.value);
      } else {
        TopicAdvances(s.topicAck, ForAck(s), s.nextAck, s.ack.value);
      }
    case AnswerDirectly(payload) =>
      MoreAuthoredKeepsTopic(s.ack, s.topicAck, ForAck(s), ForAck(t), s.nextAck);
      DirectAnswerKeepsTopic(s.ack, s.topicAck, ForAck(t), s.nextAck, Item(payload, MainThread));
  }

  lemma {:induction false} RunStaysOpaque(es: seq<Event>)
    requires Exec(es).Some?
    ensures Opaque(Exec(es).value)
    decreases |es|
  {
    if es != [] {
      RunStaysOpaque(es[..|es| - 1]);
      StepStaysOpaque(Exec(es[..|es| - 1]).value, Last(es));
    }
  }

  /**
   In every run, each payload published on node/2/telemetry is byte for byte one the peer
   sent as telemetry; each published on node/2/ack is one the peer sent as an ack, one the
   relay synthesized, or one main wrote itself for a command it did not forward; and on both
   topics the peer's messages keep the order of sending, with skips and repeats but never a
   swap and never a mix-up of topics.
   */
  lemma UpwardRelayIsOpaque(es: seq<Event>)
    requires Exec(es).Some?
    ensures var s := Exec(es).value;
      && (forall k :: 0 <= k < |s.topicTelemetry| ==> var i := s.topicTelemetry[k];
            i.origin.Peer? && i.origin.n < |s.sentTelemetry| && i.bytes == s.sentTelemetry[i.origin.n])
      && (forall k :: 0 <= k < |s.topicAck| ==> var i := s.topicAck[k];
            match i.origin
            case Peer(n) => n < |s.sentAcks| && i.bytes == s.sentAcks[n]
            case Gateway => i.bytes in s.synthesized
            case MainThread => i.bytes in s.answered)
      && InOrder(s.topicTelemetry) && InOrder(s.topicAck)
  {
    RunStaysOpaque(es);
    var s := Exec(es).value;
    forall k | 0 <= k < |s.topicTelemetry| ensures Genuine(s.topicTelemetry[k], ForTelemetry(s)) {
      assert s.topicTelemetry[k] in s.topicTelemetry;
    }
    forall k | 0 <= k < |s.topicAck| ensures Genuine(s.topicAck[k], ForAck(s)) {
      assert s.topicAck[k] in s.topicAck;
    }
  }

  // ---- nothing is withheld ---------------------------------------------------------------

  /** The two channels hold these bytes. */
  predicate Shows(telemetry: Option<Bytes>, ack: Option<Bytes>, s: State) {
    telemetry == BytesOf(s.telemetry) && ack == BytesOf(s.ack)
  }

  function BytesOf(i: Option<Item>): Option<Bytes> {
    match i case None => None case Some(item) => Some(item.bytes)
  }

  function Channel(s: State, kind: Kind): Option<Item> {
    match kind
    case IsTelemetry => s.telemetry
    case IsAck => s.ack
  }

  function Topic(s: State, kind: Kind): seq<Item> {
    match kind
    case IsTelemetry => s.topicTelemetry
    case IsAck => s.topicAck
  }

  function SentOf(s: State, kind: Kind): seq<Bytes> {
    match kind
    case IsTelemetry => s.sentTelemetry
    case IsAck => s.sentAcks
  }

  function Other(kind: Kind): Kind {
    match kind
    case IsTelemetry => IsAck
    case IsAck => IsTelemetry
  }

  /**
   In every reachable state, receiving the transfer at the head of the link while the bus is free
   puts the peer's message itself on the channel of its kind, and touches neither the other
   channel nor any topic.
   */
  lemma ReceivedReachesItsChannel(es: seq<Event>)
    requires Exec(es).Some? && Exec(es).value.link != []
    ensures var (s, t) := (Exec(es).value, Exec(es).value.link[0]);
      var u := Apply(s, Receive(false));
      && t.n < |SentOf(s, t.kind)|
      && Channel(u, t.kind) == Some(Item(SentOf(s, t.kind)[t.n], Peer(t.n)))
      && Channel(u, Other(t.kind)) == Channel(s, Other(t.kind))
      && u.topicTelemetry == s.topicTelemetry && u.topicAck == s.topicAck
  {
    RunStaysOpaque(es);
    var (s, t) := (Exec(es).value, Exec(es).value.link[0]);
    assert Faithful(t, s);
    assert t.frame[1..] == SentOf(s, t.kind)[t.n];
  }

  /** Publishing puts what a channel holds, whole and once, behind everything on its own topic only. */
  lemma PublishedReachesItsTopic(s: State, kind: Kind)
    requires Enabled(s, Publish(kind))
    ensures var u := Apply(s, Publish(kind));
      && Topic(u, kind) == Topic(s, kind) + [Channel(s, kind).value]
      && Topic(u, Other(kind)) == Topic(s, Other(kind))
  {}

  /**
   The gateway's own acks get through as well: a synthetic one over the channel, and main's own at
   once, past a channel it leaves alone.
   */
  lemma OwnAcksReachTheirTopic(s: State, payload: Bytes)
    requires |payload| <= ACK_SIZE
    ensures var t := Apply(s, Synthesize(payload, false));
      && Enabled(t, Publish(IsAck))
      && Apply(t, Publish(IsAck)).topicAck == s.topicAck + [Item(payload, Gateway)] && t.telemetry == s.telemetry
    ensures var t := Apply(s, AnswerDirectly(payload));
      t.topicAck == s.topicAck + [Item(payload, MainThread)] && t.ack == s.ack && t.topicTelemetry == s.topicTelemetry
  {}

  /** Each message sent whole, received with the bus free and published before the next one. */
  function Delivered(kinds: seq<Kind>, payloads: seq<Bytes>): seq<Event>
    requires |kinds| == |payloads|
    decreases |kinds|
  {
    if kinds == [] then []
    else
      var n := |kinds| - 1;
      Delivered(kinds[..n], payloads[..n]) + [Send(kinds[n], payloads[n], false), Receive(false), Publish(kinds[n])]
  }

  /** The peer's messages of one kind among these, in order. */
  function Selected(kind: Kind, kinds: seq<Kind>, payloads: seq<Bytes>): seq<Bytes>
    requires |kinds| == |payloads|
    decreases |kinds|
  {
    if kinds == [] then []
    else
      var n := |kinds| - 1;
      Selected(kind, kinds[..n], payloads[..n]) + if kinds[n] == kind then [payloads[n]] else []
  }

  function Texts(items: seq<Item>): seq<Bytes> {
    seq(|items|, k requires 0 <= k < |items| => items[k].bytes)
  }

  /** Without losses both topics carry exactly what the peer sent, each message once and in order. */
  lemma {:induction false} NothingIsWithheld(kinds: seq<Kind>, payloads: seq<Bytes>)
    requires |kinds| == |payloads| && forall k :: 0 <= k < |payloads| ==> |payloads[k]| <= ACK_SIZE
    ensures Exec(Delivered(kinds, payloads)).Some?
    ensures var s := Exec(Delivered(kinds, payloads)).value;
      && s.link == []
      && s.sentTelemetry == Selected(IsTelemetry, kinds, payloads) == Texts(s.topicTelemetry)
      && s.sentAcks == Selected(IsAck, kinds, payloads) == Texts(s.topicAck)
    decreases |kinds|
  {
    if kinds != [] {
      var n := |kinds| - 1;
      var before := Delivered(kinds[..n], payloads[..n]);
      NothingIsWithheld(kinds[..n], payloads[..n]);
      OneMoreDelivered(before, kinds[n], payloads[n]);
    }
  }

  lemma Extend(es: seq<Event>, s: State, e: Event) returns (es': seq<Event>)
    requires Exec(es) == Some(s) && Enabled(s, e)
    ensures es' == es + [e] && Exec(es') == Some(Apply(s, e))
  {
    es' := es + [e];
    assert es'[..|es'| - 1] == es;
  }

  /** A message sent over an empty link is alone on it. */
  lemma SentAlone(s: State, kind: Kind, payload: Bytes)
    requires s.link == [] && |payload| <= ACK_SIZE
    ensures var t := Apply(s, Send(kind, payload, false));
      && |t.link| == 1 && t.link[0].kind == kind && t.link[0].n == |SentOf(s, kind)|
      && SentOf(t, kind) == SentOf(s, kind) + [payload] && SentOf(t, Other(kind)) == SentOf(s, Other(kind))
      && t.topicTelemetry == s.topicTelemetry && t.topicAck == s.topicAck
  {}

  lemma ReceiptKeepsSent(s: State)
    requires s.link != []
    ensures var t := Apply(s, Receive(false));
      t.sentTelemetry == s.sentTelemetry && t.sentAcks == s.sentAcks && t.link == s.link[1..]
  {}

  /** Sending, receiving and publishing one after the other, from an empty link. */
  lemma OneMoreRuns(before: seq<Event>, kind: Kind, payload: Bytes) returns (es: seq<Event>)
    requires Exec(before).Some? && Exec(before).value.link == [] && |payload| <= ACK_SIZE
    ensures es == before + [Send(kind, payload, false), Receive(false), Publish(kind)]
    ensures var s1 := Apply(Exec(before).value, Send(kind, payload, false));
      && Enabled(s1, Receive(false))
      && Channel(Apply(s1, Receive(false)), kind) == Some(Item(payload, Peer(|SentOf(Exec(before).value, kind)|)))
      && Enabled(Apply(s1, Receive(false)), Publish(kind))
      && Exec(es) == Some(Apply(Apply(s1, Receive(false)), Publish(kind)))
  {
    var s := Exec(before).value;
    SentAlone(s, kind, payload);
    es := Extend(before, s, Send(kind, payload, false));
    var s1 := Exec(es).value;
    ReceivedReachesItsChannel(es);
    es := Extend(es, s1, Receive(false));
    es := Extend(es, Apply(s1, Receive(false)), Publish(kind));
  }

  lemma ReceiptKeepsTopics(s: State)
    requires s.link != []
    ensures var t := Apply(s, Receive(false)); t.topicTelemetry == s.topicTelemetry && t.topicAck == s.topicAck
  {}

  lemma TextsSnoc(items: seq<Item>, item: Item)
    ensures Texts(items + [item]) == Texts(items) + [item.bytes]
  {}

  lemma OneMoreDelivered(before: seq<Event>, kind: Kind, payload: Bytes)
    requires Exec(before).Some? && Exec(before).value.link == [] && |payload| <= ACK_SIZE
    ensures var es := before + [Send(kind, payload, false), Receive(false), Publish(kind)];
      && Exec(es).Some?
      && var (s, t) := (Exec(before).value, Exec(es).value);
         && t.link == []
         && SentOf(t, kind) == SentOf(s, kind) + [payload] && SentOf(t, Other(kind)) == SentOf(s, Other(kind))
         && Texts(Topic(t, kind)) == Texts(Topic(s, kind)) + [payload] && Topic(t, Other(kind)) == Topic(s, Other(kind))
  {
    var s := Exec(before).value;
    var es := OneMoreRuns(before, kind, payload);
    SentAlone(s, kind, payload);
    var s1 := Apply(s, Send(kind, payload, false));
    ReceiptKeepsSent(s1);
    ReceiptKeepsTopics(s1);
    var s2 := Apply(s1, Receive(false));
    PublishedReachesItsTopic(s2, kind);
    TextsSnoc(Topic(s, kind), Channel(s2, kind).value);
  }
}
