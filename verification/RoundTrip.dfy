/**
 The command round trip: the gateway's TX and RX threads, the ISO-TP link and the
 peer, interleaved one atomic action at a time (gateway/src/relay.cpp,
 peer-node/src/main.cpp).

 An event names the actor's next atomic action together with the environment's
 choice; Exec runs a list of events and is None when one of them was not enabled.
 Statements about every interleaving are statements about every event list.
 */
module RoundTrip {
  import opened Basics
  import CommandSchema
  import Downward
  import Inbound
  import Protocol

  /** A relay_down as queued for the TX thread. */
  datatype Command = Command(sequence: U32, bytes: seq<Byte>)

  /**
   What the peer makes of one isotp_recv: the sequence it acknowledges, if any, and the command
   it passes to handle_command, if any. The place among accepted commands merely travels along.
   */
  datatype Piece = Piece(ack: Option<U32>, command: Option<CommandSchema.Command>, place: nat)

  /** A delivered transfer as successive receives hand it over. */
  function Cut(payload: seq<Byte>, place: nat): seq<Piece> {
    var pieces := Downward.Pieces(Downward.Frame(payload));
    seq(|pieces|, k requires 0 <= k < |pieces| =>
      Piece(Downward.AckSequence(pieces[k]), Downward.CommandIn(pieces[k]), place))
  }

  /** One call of publish_up on chan_relay_ack, by its author. */
  datatype AckAttempt = FromPeer(sequence: U32) | Synthetic(sequence: U32)

  /** Where tx_thread is. */
  datatype Tx =
    | TxIdle                                    // in zbus_sub_wait_msg
    | TxFetched(cmd: Command)                   // command copied out, semaphore not yet reset
    | TxSending(cmd: Command, delivered: bool)  // inside isotp_send
    | TxWaiting(cmd: Command)                   // inside k_sem_take
    | TxGivingUp(cmd: Command)                  // about to publish the synthetic ack

  /** Where rx_thread is with an ack: received, then published, then the semaphore is given. */
  datatype Rx = RxIdle | RxGot(sequence: U32) | RxPublished(sequence: U32)

  datatype Peer = PeerIdle | PeerHolding(piece: Piece)

  datatype State = State(
    queue: seq<Command>,      // relay_cmd_sub, a FIFO of copies
    tx: Tx,
    sem: bool,                // ack_received, a binary semaphore
    down: seq<Piece>,         // delivered to the peer's ISO-TP context, not yet received
    peer: Peer,
    up: seq<U32>,             // ack transfers completed towards the gateway
    rx: Rx,
    // history
    accepted: seq<Command>,   // every command main published successfully
    completed: seq<Command>,  // every command the TX thread has finished with
    acks: seq<AckAttempt>,    // every publish attempt on chan_relay_ack
    gives: nat,               // k_sem_give calls
    waits: nat,               // k_sem_take calls that succeeded
    givesAtReset: nat,        // value of gives at the latest k_sem_reset
    handled: seq<Handled>)    // what the peer passed to handle_command since it last booted

  datatype Handled = Handled(command: CommandSchema.Command, place: nat)

  const INIT := State([], TxIdle, false, [], PeerIdle, [], RxIdle, [], [], [], 0, 0, 0, [])

  datatype Event =
    | Accept(cmd: Command)      // main: zbus_chan_pub(&chan_relay_command) returned 0
    | Fetch                     // TX: zbus_sub_wait_msg
    | Reset                     // TX: k_sem_reset, then enters isotp_send
    | Deliver                   // link: the last frame of the command reached the peer
    | SendOk                    // TX: isotp_send returned ISOTP_N_OK
    | SendFail                  // TX: isotp_send returned an error
    | TakeOk                    // TX: k_sem_take returned 0
    | TakeTimeout               // TX: k_sem_take ran out of its 2000 ms
    | Synthesize                // TX: send_synthetic_ack
    | PeerReceive               // peer: isotp_recv returned
    | PeerAnswer(lost: bool)    // peer: handle_incoming, its ack transfer delivered or not
    | PeerReboot                // peer: forgets everything it had received
    | Stray(sequence: U32)      // an ack transfer that answers nothing in particular
    | RxReceive                 // RX: isotp_recv returned an ack
    | RxPublish                 // RX: publish_up(&chan_relay_ack)
    | RxGive                    // RX: k_sem_give

  predicate Enabled(s: State, e: Event) {
    match e
    case Accept(cmd) => Downward.Forwardable(cmd.bytes, cmd.sequence)
    case Fetch => s.tx.TxIdle? && |s.queue| > 0
    case Reset => s.tx.TxFetched?
    case Deliver => s.tx.TxSending? && !s.tx.delivered
    case SendOk => s.tx.TxSending? && s.tx.delivered
    case SendFail => s.tx.TxSending?
    case TakeOk => s.tx.TxWaiting? && s.sem
    case TakeTimeout => s.tx.TxWaiting? && !s.sem
    case Synthesize => s.tx.TxGivingUp?
    case PeerReceive => s.peer.PeerIdle? && |s.down| > 0
    case PeerAnswer(_) => s.peer.PeerHolding?
    case PeerReboot => true
    case Stray(_) => true
    case RxReceive => s.rx.RxIdle? && |s.up| > 0
    case RxPublish => s.rx.RxGot?
    case RxGive => s.rx.RxPublished?
  }

  function Apply(s: State, e: Event): State
    requires Enabled(s, e)
  {
    match e
    case Accept(cmd) => s.(queue := s.queue + [cmd], accepted := s.accepted + [cmd])
    case Fetch => s.(queue := s.queue[1..], tx := TxFetched(s.queue[0]))
    case Reset => s.(sem := false, givesAtReset := s.gives, tx := TxSending(s.tx.cmd, false))
    case Deliver => s.(down := s.down + Cut(s.tx.cmd.bytes, |s.completed|), tx := TxSending(s.tx.cmd, true))
    case SendOk => s.(tx := TxWaiting(s.tx.cmd))
    case SendFail => s.(tx := TxGivingUp(s.tx.cmd))
    case TakeOk => s.(sem := false, waits := s.waits + 1, tx := TxIdle, completed := s.completed + [s.tx.cmd])
    case TakeTimeout => s.(tx := TxGivingUp(s.tx.cmd))
    case Synthesize =>
      s.(acks := s.acks + [Synthetic(s.tx.cmd.sequence)], tx := TxIdle, completed := s.completed + [s.tx.cmd])
    case PeerReceive => s.(down := s.down[1..], peer := PeerHolding(s.down[0]))
    case PeerAnswer(lost) =>
      var piece := s.peer.piece;
      s.(peer := PeerIdle,
      up := if lost || piece.ack.None? then s.up else s.up + [piece.ack.value],
      handled := if piece.command.None? then s.handled else s.handled + [Handled(piece.command.value, piece.place)])
    case PeerReboot => s.(down := [], peer := PeerIdle, handled := [])
    case Stray(sequence) => s.(up := s.up + [sequence])
    case RxReceive => s.(up := s.up[1..], rx := RxGot(s.up[0]))
    case RxPublish => s.(acks := s.acks + [FromPeer(s.rx.sequence)], rx := RxPublished(s.rx.sequence))
    case RxGive => s.(sem := true, gives := s.gives + 1, rx := RxIdle)
  }

  /** Nothing that could still turn into a give is on its way. */
  predicate Quiet(s: State) {
    s.down == [] && s.peer.PeerIdle? && s.up == [] && s.rx.RxIdle?
  }

  /** The ways in which the round trip's assumptions can be betrayed. */
  datatype Lapse =
    | LateAck             // a wait runs out while its ack can still arrive
    | DeliveredYetFailed  // a send reports failure although its payload arrived
    | StrayAck            // an ack arrives that answers no command
    | LongCommand         // main accepts a command larger than the peer's receive buffer

  const EVERY_LAPSE := {LateAck, DeliveredYetFailed, StrayAck, LongCommand}

  function Lapses(s: State, e: Event): set<Lapse>
    requires Enabled(s, e)
  {
    match e
    case TakeTimeout => if Quiet(s) then {} else {LateAck}
    case SendFail => if s.tx.delivered then {DeliveredYetFailed} else {}
    case Stray(_) => {StrayAck}
    case Accept(cmd) => if |cmd.bytes| > Protocol.COMMAND_SIZE then {LongCommand} else {}
    case _ => {}
  }

  /** The state a list of actions leads to, if each is enabled and no lapse but the allowed ones occurs. */
  function Exec(es: seq<Event>, allowed: set<Lapse>): Option<State>
    decreases |es|
  {
    if es == [] then Some(INIT)
    else
      match Exec(es[..|es| - 1], allowed)
      case None => None
      case Some(s) =>
        if Enabled(s, Last(es)) && Lapses(s, Last(es)) <= allowed then Some(Apply(s, Last(es))) else None
  }

  /** The command the TX thread is working on, as a list of at most one. */
  function InFlight(s: State): seq<Command> {
    if s.tx.TxIdle? then [] else [s.tx.cmd]
  }

  function PeerAcks(acks: seq<AckAttempt>): nat {
    if acks == [] then 0 else PeerAcks(acks[..|acks| - 1]) + if Last(acks).FromPeer? then 1 else 0
  }

  function Sequences(cmds: seq<Command>): seq<U32> {
    seq(|cmds|, i requires 0 <= i < |cmds| => cmds[i].sequence)
  }

  function AckSequences(acks: seq<AckAttempt>): seq<U32> {
    seq(|acks|, i requires 0 <= i < |acks| => acks[i].sequence)
  }

  // ---- every interleaving, no timing assumption, any peer --------------------------

  /** Commands leave the queue in order and one at a time. */
  predicate Ordered(s: State) {
    s.accepted == s.completed + InFlight(s) + s.queue
  }

  /** Every completion is a successful wait or a synthetic ack, every give an ack of the peer's. */
  predicate Accounted(s: State) {
    && s.gives + (if s.rx.RxPublished? then 1 else 0) == PeerAcks(s.acks)
    && |s.completed| == s.waits + |s.acks| - PeerAcks(s.acks)
  }

  predicate SemaphoreSound(s: State) {
    && s.waits + (if s.sem then 1 else 0) <= s.gives
    && s.givesAtReset <= s.gives
    && (s.sem && (s.tx.TxSending? || s.tx.TxWaiting?) ==> s.givesAtReset < s.gives)
  }

  /** What every action of every thread keeps, with no timing assumption. */
  predicate Conserved(s: State) {
    Ordered(s) && Accounted(s) && SemaphoreSound(s)
  }

  lemma PeerAcksSnoc(acks: seq<AckAttempt>, a: AckAttempt)
    ensures PeerAcks(acks + [a]) == PeerAcks(acks) + if a.FromPeer? then 1 else 0
  {
    assert (acks + [a])[..|acks|] == acks;
  }

  lemma StepKeepsOrder(s: State, e: Event)
    requires Ordered(s) && Enabled(s, e)
    ensures Ordered(Apply(s, e))
  {
    if e.Fetch? {
      assert s.queue == [s.queue[0]] + s.queue[1..];
    }
  }

  lemma StepKeepsAccounts(s: State, e: Event)
    requires Accounted(s) && Enabled(s, e)
    ensures Accounted(Apply(s, e))
  {
    if e.Synthesize? {
      PeerAcksSnoc(s.acks, Synthetic(s.tx.cmd.sequence));
    } else if e.RxPublish? {
      PeerAcksSnoc(s.acks, FromPeer(s.rx.sequence));
    }
  }

  lemma StepKeepsSemaphore(s: State, e: Event)
    requires SemaphoreSound(s) && Enabled(s, e)
    ensures SemaphoreSound(Apply(s, e))
  {}

  lemma {:induction false} RunConserves(es: seq<Event>, allowed: set<Lapse>)
    requires Exec(es, allowed).Some?
    ensures Conserved(Exec(es, allowed).value)
    decreases |es|
  {
    if es != [] {
      RunConserves(es[..|es| - 1], allowed);
      var s := Exec(es[..|es| - 1], allowed).value;
      StepKeepsOrder(s, Last(es));
      StepKeepsAccounts(s, Last(es));
      StepKeepsSemaphore(s, Last(es));
    }
  }

  /**
   In every reachable state of every interleaving, however late, lost or invented
   the peer's acks are: accepted commands are those completed, the one in flight and
   those queued, in that order; successful waits are bounded by gives and gives by
   peer-ack publish attempts; a wait only succeeds on a give made after its own
   reset; and no round trip ends silently.
   */
  lemma NoRoundTripEndsSilently(es: seq<Event>, allowed: set<Lapse>)
    requires Exec(es, allowed).Some?
    ensures var s := Exec(es, allowed).value;
      && s.accepted == s.completed + InFlight(s) + s.queue
      && |InFlight(s)| <= 1
      && s.waits <= s.gives <= PeerAcks(s.acks)
      && |s.completed| == s.waits + (|s.acks| - PeerAcks(s.acks))
      && |s.completed| <= |s.acks|
      && (Enabled(s, TakeOk) ==> s.givesAtReset < s.gives)
  {
    RunConserves(es, allowed);
  }

  // ---- exactly one ack per command -------------------------------------------------

  /**
   Each finished command has had exactly one ack publish attempt, with its own
   sequence, in acceptance order; only the command in flight may have had one more;
   and none is outstanding when the next command is fetched.
   */
  ghost predicate OneAckEach(s: State) {
    && (AckSequences(s.acks) == Sequences(s.completed) ||
        AckSequences(s.acks) == Sequences(s.completed + InFlight(s)))
    && (s.tx.TxIdle? || s.tx.TxFetched? ==> AckSequences(s.acks) == Sequences(s.completed))
  }

  /** An ack for the command in flight has been published and its give is pending or untaken. */
  predicate Answered(s: State) {
    s.rx.RxPublished? || s.sem
  }

  /** The peer will acknowledge this piece under the command's own sequence. */
  predicate Answers(piece: Piece, cmd: Command) {
    piece.ack == Some(cmd.sequence)
  }

  /** A command main may have accepted that fits the peer's receive buffer. */
  predicate Short(cmd: Command) {
    Downward.Forwardable(cmd.bytes, cmd.sequence) && |cmd.bytes| <= Protocol.COMMAND_SIZE
  }

  /** It arrives in one piece, which says what the gateway read in it. */
  function Whole(cmd: Command, place: nat): Piece {
    Piece(Some(cmd.sequence), Inbound.Understood(cmd.bytes), place)
  }

  /** What handling it leaves in the peer's history. */
  function Seen(cmd: Command, place: nat): Handled
    requires Short(cmd)
  {
    Handled(Inbound.Understood(cmd.bytes).value, place)
  }

  lemma ShortIsWhole(cmd: Command, place: nat)
    requires Short(cmd)
    ensures Cut(cmd.bytes, place) == [Whole(cmd, place)] && Whole(cmd, place).command.Some?
  {
    Downward.ShortFrameIsOnePiece(cmd.bytes, cmd.sequence);
  }

  /** Every command still to be sent is short. */
  predicate AllShort(s: State) {
    (!s.tx.TxIdle? ==> Short(s.tx.cmd)) && forall c :: c in s.queue ==> Short(c)
  }

  lemma StepKeepsShort(s: State, e: Event)
    requires AllShort(s) && Enabled(s, e) && LongCommand !in Lapses(s, e)
    ensures AllShort(Apply(s, e))
  {}

  /** At most one thing descends from the delivered command, and it is for that command. */
  predicate OneDescendant(s: State, cmd: Command) {
    || Quiet(s)
    || (!s.sem && |s.down| == 1 && Answers(s.down[0], cmd) && s.peer.PeerIdle? && s.up == [] && s.rx.RxIdle?)
    || (!s.sem && s.down == [] && s.peer.PeerHolding? && Answers(s.peer.piece, cmd) && s.up == [] && s.rx.RxIdle?)
    || (!s.sem && s.down == [] && s.peer.PeerIdle? && s.up == [cmd.sequence] && s.rx.RxIdle?)
    || (!s.sem && s.down == [] && s.peer.PeerIdle? && s.up == [] && !s.rx.RxIdle? && s.rx.sequence == cmd.sequence)
  }

  ghost predicate Paired(s: State) {
    && (match s.tx
        case TxSending(cmd, true) => OneDescendant(s, cmd)
        case TxWaiting(cmd) => OneDescendant(s, cmd)
        case _ => Quiet(s) && !s.sem)
    && AckSequences(s.acks) == Sequences(s.completed + if Answered(s) then InFlight(s) else [])
  }

  lemma SequencesSnoc(cmds: seq<Command>, cmd: Command)
    ensures Sequences(cmds + [cmd]) == Sequences(cmds) + [cmd.sequence]
  {}

  lemma StepPairs(s: State, e: Event)
    requires Paired(s) && AllShort(s) && Enabled(s, e) && Lapses(s, e) == {}
    ensures Paired(Apply(s, e))
  {
    if e.Deliver? {
      ShortIsWhole(s.tx.cmd, |s.completed|);
    }
    var t := Apply(s, e);
    assert s.completed + [] == s.completed;
    assert t.completed + [] == t.completed;
    if !s.tx.TxIdle? {
      SequencesSnoc(s.completed, s.tx.cmd);
    }
  }

  lemma {:induction false} RunKeepsShort(es: seq<Event>, allowed: set<Lapse>)
    requires Exec(es, allowed).Some? && LongCommand !in allowed
    ensures AllShort(Exec(es, allowed).value)
    decreases |es|
  {
    if es != [] {
      RunKeepsShort(es[..|es| - 1], allowed);
      StepKeepsShort(Exec(es[..|es| - 1], allowed).value, Last(es));
    }
  }

  lemma {:induction false} RunPairs(es: seq<Event>)
    requires Exec(es, {}).Some?
    ensures Paired(Exec(es, {}).value)
    decreases |es|
  {
    if es != [] {
      RunPairs(es[..|es| - 1]);
      RunKeepsShort(es[..|es| - 1], {});
      StepPairs(Exec(es[..|es| - 1], {}).value, Last(es));
    }
  }

  /**
   The exact reach of the round trip's promise: every interleaving keeps OneAckEach
   if and only if none of the four lapses is possible.
   */
  lemma OneAckEachIffNoLapse(allowed: set<Lapse>)
    ensures (forall es | Exec(es, allowed).Some? :: OneAckEach(Exec(es, allowed).value)) <==> allowed == {}
  {
    if allowed == {} {
      forall es | Exec(es, {}).Some? ensures OneAckEach(Exec(es, {}).value) {
        RunPairs(es);
        var s := Exec(es, {}).value;
        assert s.completed + [] == s.completed;
      }
    } else {
      var (a, b) := (Trigger(1), Trigger(2));
      TriggerIsShort(1);
      TriggerIsShort(2);
      var es, s;
      if LateAck in allowed {
        es, s := LateAckReleasesNextWait(a, b, allowed);
      } else if DeliveredYetFailed in allowed {
        es, s := FailedDeliveryAcksTwice(a, allowed);
      } else {
        var lapse :| lapse in allowed;
        if lapse == StrayAck {
          es, s := StrayAckAnswersNothing(1, allowed);
        } else {
          es, s := LongCommandIsAnsweredUnderZero(1, 21, allowed);
        }
      }
      assert Exec(es, allowed) == Some(s) && !OneAckEach(s);
    }
  }

  /** A command as a host sends it. */
  function Trigger(sequence: U32): Command {
    Command(sequence, CommandSchema.PrintCommand(CommandSchema.Command(1, sequence, CommandSchema.TriggerMeasurement)))
  }

  lemma TriggerIsShort(sequence: U32)
    ensures Short(Trigger(sequence))
  {
    var m := CommandSchema.Command(1, sequence, CommandSchema.TriggerMeasurement);
    CommandSchema.CommandFits(m);
    CommandSchema.CommandRoundTrip(m);
  }

  /** Extends a run by one action, to the state the caller names. */
  lemma Extend(es: seq<Event>, allowed: set<Lapse>, s: State, e: Event, t: State) returns (es': seq<Event>)
    requires Exec(es, allowed) == Some(s)
    requires Enabled(s, e) && Lapses(s, e) <= allowed && Apply(s, e) == t
    ensures Exec(es', allowed) == Some(t)
  {
    es' := es + [e];
    assert es'[..|es'| - 1] == es;
  }

  /** Both are accepted and a is on its way. */
  lemma FirstIsSending(a: Command, b: Command, allowed: set<Lapse>) returns (es: seq<Event>, s: State)
    requires Short(a) && Short(b)
    ensures Exec(es, allowed) == Some(s)
    ensures s == INIT.(queue := [b], tx := TxSending(a, false), accepted := [a, b])
  {
    var s1 := INIT.(queue := [a], accepted := [a]);
    var s2 := INIT.(queue := [a, b], accepted := [a, b]);
    var s3 := s2.(queue := [b], tx := TxFetched(a));
    s := s3.(tx := TxSending(a, false));
    es := Extend([], allowed, INIT, Accept(a), s1);
    es := Extend(es, allowed, s1, Accept(b), s2);
    es := Extend(es, allowed, s2, Fetch, s3);
    es := Extend(es, allowed, s3, Reset, s);
  }

  /** a's wait runs out although the peer has the command. */
  lemma AckOverdue(a: Command, b: Command, allowed: set<Lapse>) returns (es: seq<Event>, s: State)
    requires Short(a) && Short(b) && LateAck in allowed
    ensures Exec(es, allowed) == Some(s)
    ensures s == INIT.(queue := [b], down := [Whole(a, 0)], accepted := [a, b], completed := [a],
                       acks := [Synthetic(a.sequence)])
  {
    var s0;
    es, s0 := FirstIsSending(a, b, allowed);
    ShortIsWhole(a, 0);
    var s1 := s0.(tx := TxSending(a, true), down := [Whole(a, 0)]);
    var s2 := s1.(tx := TxWaiting(a));
    var s3 := s1.(tx := TxGivingUp(a));
    s := s1.(tx := TxIdle, completed := [a], acks := [Synthetic(a.sequence)]);
    es := Extend(es, allowed, s0, Deliver, s1);
    es := Extend(es, allowed, s1, SendOk, s2);
    es := Extend(es, allowed, s2, TakeTimeout, s3);
    es := Extend(es, allowed, s3, Synthesize, s);
  }

  /** b is being sent when the peer gets round to a. */
  lemma LateAckReceived(a: Command, b: Command, allowed: set<Lapse>) returns (es: seq<Event>, s: State)
    requires Short(a) && Short(b) && LateAck in allowed
    ensures Exec(es, allowed) == Some(s)
    ensures s == INIT.(tx := TxSending(b, false), up := [a.sequence], accepted := [a, b], completed := [a],
                       acks := [Synthetic(a.sequence)], handled := [Seen(a, 0)])
  {
    var s0;
    es, s0 := AckOverdue(a, b, allowed);
    ShortIsWhole(a, 0);
    var s1 := s0.(queue := [], tx := TxFetched(b));
    var s2 := s1.(tx := TxSending(b, false));
    var s3 := s2.(down := [], peer := PeerHolding(Whole(a, 0)));
    s := s3.(peer := PeerIdle, up := [a.sequence], handled := [Seen(a, 0)]);
    es := Extend(es, allowed, s0, Fetch, s1);
    es := Extend(es, allowed, s1, Reset, s2);
    es := Extend(es, allowed, s2, PeerReceive, s3);
    es := Extend(es, allowed, s3, PeerAnswer(false), s);
  }

  /** a's overdue ack is given while b is inside isotp_send, after the reset meant to discard it. */
  lemma LateGiveDuringSend(a: Command, b: Command, allowed: set<Lapse>) returns (es: seq<Event>, s: State)
    requires Short(a) && Short(b) && LateAck in allowed
    ensures Exec(es, allowed) == Some(s)
    ensures s == INIT.(tx := TxSending(b, false), sem := true, accepted := [a, b], completed := [a],
                       acks := [Synthetic(a.sequence), FromPeer(a.sequence)], gives := 1, handled := [Seen(a, 0)])
  {
    var s0;
    var q := a.sequence;
    es, s0 := LateAckReceived(a, b, allowed);
    var s1 := s0.(up := [], rx := RxGot(q));
    var s2 := s1.(rx := RxPublished(q), acks := [Synthetic(q), FromPeer(q)]);
    s := s2.(rx := RxIdle, sem := true, gives := 1);
    es := Extend(es, allowed, s0, RxReceive, s1);
    es := Extend(es, allowed, s1, RxPublish, s2);
    es := Extend(es, allowed, s2, RxGive, s);
  }

  /**
   k_sem_reset discards only gives made before it. Here a's ack arrives while b is
   being sent: b completes although no ack ever carried its sequence.
   */
  lemma LateAckReleasesNextWait(a: Command, b: Command, allowed: set<Lapse>) returns (es: seq<Event>, s: State)
    requires Short(a) && Short(b) && a.sequence != b.sequence && LateAck in allowed
    ensures Exec(es, allowed) == Some(s) && !OneAckEach(s)
    ensures s.completed == [a, b] && s.acks == [Synthetic(a.sequence), FromPeer(a.sequence)]
  {
    var s0;
    es, s0 := LateGiveDuringSend(a, b, allowed);
    ShortIsWhole(b, 1);
    var s1 := s0.(tx := TxSending(b, true), down := [Whole(b, 1)]);
    var s2 := s1.(tx := TxWaiting(b));
    s := s1.(tx := TxIdle, sem := false, waits := 1, completed := [a, b]);
    es := Extend(es, allowed, s0, Deliver, s1);
    es := Extend(es, allowed, s1, SendOk, s2);
    es := Extend(es, allowed, s2, TakeOk, s);
    assert Sequences(s.completed)[1] != AckSequences(s.acks)[1];
  }

  /** A single command is on its way. */
  lemma IsSending(c: Command, allowed: set<Lapse>) returns (es: seq<Event>, s: State)
    requires Enabled(INIT, Accept(c)) && Lapses(INIT, Accept(c)) <= allowed
    ensures Exec(es, allowed) == Some(s) && s == INIT.(tx := TxSending(c, false), accepted := [c])
  {
    var s1 := INIT.(queue := [c], accepted := [c]);
    var s2 := INIT.(tx := TxFetched(c), accepted := [c]);
    s := s2.(tx := TxSending(c, false));
    es := Extend([], allowed, INIT, Accept(c), s1);
    es := Extend(es, allowed, s1, Fetch, s2);
    es := Extend(es, allowed, s2, Reset, s);
  }

  /** a's send reports failure although its payload arrived, and is answered on the peer's behalf. */
  lemma DeliveredThenFailed(a: Command, allowed: set<Lapse>) returns (es: seq<Event>, s: State)
    requires Short(a) && DeliveredYetFailed in allowed
    ensures Exec(es, allowed) == Some(s)
    ensures s == INIT.(down := [Whole(a, 0)], accepted := [a], completed := [a], acks := [Synthetic(a.sequence)])
  {
    var s0;
    es, s0 := IsSending(a, allowed);
    ShortIsWhole(a, 0);
    var s1 := s0.(tx := TxSending(a, true), down := [Whole(a, 0)]);
    var s2 := s1.(tx := TxGivingUp(a));
    s := s1.(tx := TxIdle, completed := [a], acks := [Synthetic(a.sequence)]);
    es := Extend(es, allowed, s0, Deliver, s1);
    es := Extend(es, allowed, s1, SendFail, s2);
    es := Extend(es, allowed, s2, Synthesize, s);
  }

  /** A send that fails after its payload arrived gets the same command acked twice. */
  lemma FailedDeliveryAcksTwice(a: Command, allowed: set<Lapse>) returns (es: seq<Event>, s: State)
    requires Short(a) && DeliveredYetFailed in allowed
    ensures Exec(es, allowed) == Some(s) && !OneAckEach(s)
    ensures s.completed == [a] && s.acks == [Synthetic(a.sequence), FromPeer(a.sequence)]
  {
    var s0;
    var q := a.sequence;
    es, s0 := DeliveredThenFailed(a, allowed);
    var s1 := s0.(down := [], peer := PeerHolding(Whole(a, 0)));
    var s2 := s1.(peer := PeerIdle, up := [q], handled := [Seen(a, 0)]);
    var s3 := s2.(up := [], rx := RxGot(q));
    s := s3.(rx := RxPublished(q), acks := [Synthetic(q), FromPeer(q)]);
    es := Extend(es, allowed, s0, PeerReceive, s1);
    es := Extend(es, allowed, s1, PeerAnswer(false), s2);
    es := Extend(es, allowed, s2, RxReceive, s3);
    es := Extend(es, allowed, s3, RxPublish, s);
    assert |AckSequences(s.acks)| == 2;
  }

  /** An unsolicited ack is published although no command was ever accepted. */
  lemma StrayAckAnswersNothing(q: U32, allowed: set<Lapse>) returns (es: seq<Event>, s: State)
    requires StrayAck in allowed
    ensures Exec(es, allowed) == Some(s) && !OneAckEach(s)
    ensures s.accepted == [] && s.acks == [FromPeer(q)]
  {
    var s1 := INIT.(up := [q]);
    var s2 := INIT.(rx := RxGot(q));
    s := INIT.(rx := RxPublished(q), acks := [FromPeer(q)]);
    es := Extend([], allowed, INIT, Stray(q), s1);
    es := Extend(es, allowed, s1, RxReceive, s2);
    es := Extend(es, allowed, s2, RxPublish, s);
    assert |AckSequences(s.acks)| == 1;
  }

  /** What the peer ignores. */
  const REST := Piece(None, None, 0)

  /** The command arrives in two pieces, of which the first is answered under some sequence. */
  predicate IsCutInTwo(c: Command, head: Piece) {
    Downward.Forwardable(c.bytes, c.sequence) && head.ack.Some? && Cut(c.bytes, 0) == [head, REST]
  }

  /** It is delivered. */
  lemma CutIsWaiting(c: Command, head: Piece, allowed: set<Lapse>) returns (es: seq<Event>, s: State)
    requires IsCutInTwo(c, head) && LongCommand in allowed
    ensures Exec(es, allowed) == Some(s)
    ensures s == INIT.(tx := TxWaiting(c), down := [head, REST], accepted := [c])
  {
    var s0;
    es, s0 := IsSending(c, allowed);
    var s1 := s0.(tx := TxSending(c, true), down := [head, REST]);
    s := s1.(tx := TxWaiting(c));
    es := Extend(es, allowed, s0, Deliver, s1);
    es := Extend(es, allowed, s1, SendOk, s);
  }

  /** The peer answers the first piece. */
  lemma HeadIsAnswered(c: Command, head: Piece, allowed: set<Lapse>) returns (es: seq<Event>, s: State)
    requires IsCutInTwo(c, head) && LongCommand in allowed
    ensures Exec(es, allowed) == Some(s)
    ensures s == INIT.(tx := TxWaiting(c), down := [REST], rx := RxGot(head.ack.value), accepted := [c],
                       handled := s.handled)
  {
    var s0;
    es, s0 := CutIsWaiting(c, head, allowed);
    var s1 := s0.(down := [REST], peer := PeerHolding(head));
    var s2 := Apply(s1, PeerAnswer(false));
    s := s2.(up := [], rx := RxGot(head.ack.value));
    es := Extend(es, allowed, s0, PeerReceive, s1);
    es := Extend(es, allowed, s1, PeerAnswer(false), s2);
    es := Extend(es, allowed, s2, RxReceive, s);
  }

  /**
   A command of 21 to 24 bytes arrives in pieces. Here the first is answered under another
   sequence and the second has yet to be ignored: the command completes on that ack.
   */
  lemma CutCommandIsMisanswered(c: Command, head: Piece, allowed: set<Lapse>) returns (es: seq<Event>, s: State)
    requires IsCutInTwo(c, head) && head.ack.value != c.sequence && LongCommand in allowed
    ensures Exec(es, allowed) == Some(s) && !OneAckEach(s)
    ensures s.completed == [c] && s.acks == [FromPeer(head.ack.value)]
  {
    var s0;
    var q := head.ack.value;
    es, s0 := HeadIsAnswered(c, head, allowed);
    var s1 := s0.(rx := RxPublished(q), acks := [FromPeer(q)]);
    var s2 := s1.(rx := RxIdle, sem := true, gives := 1);
    s := s2.(tx := TxIdle, sem := false, waits := 1, completed := [c]);
    es := Extend(es, allowed, s0, RxPublish, s1);
    es := Extend(es, allowed, s1, RxGive, s2);
    es := Extend(es, allowed, s2, TakeOk, s);
    assert AckSequences(s.acks)[0] != Sequences(s.completed)[0];
  }

  /** At every such length, under sequence 0: the peer cannot decode what it received. */
  lemma LongCommandIsAnsweredUnderZero(q: U32, length: nat, allowed: set<Lapse>) returns (es: seq<Event>, s: State)
    requires q != 0 && Protocol.COMMAND_SIZE < length <= Inbound.DOWN_MAX && LongCommand in allowed
    ensures Exec(es, allowed) == Some(s) && !OneAckEach(s)
    ensures Sequences(s.completed) == [q] && |s.completed[0].bytes| == length && s.acks == [FromPeer(0)]
  {
    var c := Command(q, Downward.CutThrough(q, length));
    Downward.CutThroughIsForwardable(q, length);
    Downward.CutThroughIsAnsweredUnderZero(q, length);
    es, s := CutCommandIsMisanswered(c, Piece(Some(0), None, 0), allowed);
  }

  /** Or under any sequence at all, another command's included: the peer decodes a part that names it. */
  lemma LongCommandIsAnsweredAsAnother(first: U32, last: U32, allowed: set<Lapse>) returns (es: seq<Event>, s: State)
    requires last < 128 && first != last && LongCommand in allowed
    ensures Exec(es, allowed) == Some(s) && !OneAckEach(s)
    ensures Sequences(s.completed) == [last] && s.acks == [FromPeer(first)]
  {
    var c := Command(last, Downward.Renamed(first, last));
    Downward.AnotherCommandIsAcknowledged(first, last);
    var head := Piece(Some(first), Downward.CommandIn(Downward.Pieces(Downward.Frame(c.bytes))[0]), 0);
    es, s := CutCommandIsMisanswered(c, head, allowed);
  }
}
