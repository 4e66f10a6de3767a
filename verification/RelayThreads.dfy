/**
 The threads of the command round trip as straight-line code over the shared state: between
 any two atomic actions of one thread, every other actor may run any number of its own.
 Valid ties the state to a run of the RoundTrip model, so whatever is proved of every run
 holds at every point of these bodies.
 */
module RelayThreads {
  import opened Basics
  import opened RoundTrip

  datatype Actor = Main | TxThread | RxThread | PeerThread | Link

  function Owner(e: Event): Actor {
    match e
    case Accept(_) => Main
    case Fetch => TxThread
    case Reset => TxThread
    case SendOk => TxThread
    case SendFail => TxThread
    case TakeOk => TxThread
    case TakeTimeout => TxThread
    case Synthesize => TxThread
    case PeerReceive => PeerThread
    case PeerAnswer(_) => PeerThread
    case PeerReboot => PeerThread
    case RxReceive => RxThread
    case RxPublish => RxThread
    case RxGive => RxThread
    case Deliver => Link
    case Stray(_) => Link
  }

  class Shared {
    var s: State
    ghost var trace: seq<Event>

    ghost predicate Valid()
      reads this
    {
      Exec(trace, EVERY_LAPSE) == Some(s)
    }

    constructor ()
      ensures Valid() && s == INIT
    {
      s := INIT;
      trace := [];
    }

    method Act(e: Event)
      requires Valid() && Enabled(s, e)
      modifies this
      ensures Valid() && s == Apply(old(s), e) && trace == old(trace) + [e]
    {
      s := Apply(s, e);
      trace := trace + [e];
      assert trace[..|trace| - 1] == old(trace);
    }

    /** Everybody but `self` takes any number of actions. */
    method Others(self: Actor)
      requires Valid()
      modifies this
      ensures Valid()
      ensures self == TxThread ==> TxUndisturbed(old(s), s)
      ensures self == RxThread ==> RxUndisturbed(old(s), s)
      ensures old(trace) <= trace && Own(self, trace) == Own(self, old(trace))
      ensures self == TxThread ==> Deliveries(trace) == Deliveries(old(trace)) + Delivered(s.tx) - Delivered(old(s.tx))
    {
      var steps: nat := *;
      while steps > 0
        invariant Valid()
        invariant self == TxThread ==> TxUndisturbed(old(s), s)
        invariant self == RxThread ==> RxUndisturbed(old(s), s)
        invariant old(trace) <= trace && Own(self, trace) == Own(self, old(trace))
        invariant self == TxThread ==>
          Deliveries(trace) == Deliveries(old(trace)) + Delivered(s.tx) - Delivered(old(s.tx))
      {
        var e: Event := *;
        if Owner(e) != self && Enabled(s, e) {
          StepUndisturbs(self, old(s), s, e);
          OwnSnoc(self, trace, e);
          Act(e);
        }
        steps := steps - 1;
      }
    }

    /** An action of the TX thread's own. */
    method TxAct(e: Event)
      requires Valid() && Enabled(s, e) && Owner(e) == TxThread
      modifies this
      ensures Valid() && s == Apply(old(s), e) && trace == old(trace) + [e]
      ensures Own(TxThread, trace) == Own(TxThread, old(trace)) + [e] && Deliveries(trace) == Deliveries(old(trace))
    {
      OwnSnoc(TxThread, trace, e);
      Act(e);
    }

    /**
     The reset and the send, whose result the link reports once it is over: OK only if the whole
     command was delivered meanwhile. The thread comes out waiting for an ack exactly when it is.
     */
    method SendCommand(reported: bool) returns (sent: bool)
      requires Valid() && s.tx.TxFetched?
      modifies this
      ensures Valid() && s.tx == (if sent then TxWaiting(old(s.tx.cmd)) else TxGivingUp(old(s.tx.cmd)))
      ensures Undone(old(s), s)
      ensures sent <==> reported && Deliveries(trace) > Deliveries(old(trace))
      ensures Deliveries(old(trace)) <= Deliveries(trace) <= Deliveries(old(trace)) + 1
      ensures Own(TxThread, trace) == Own(TxThread, old(trace)) + [Reset, if sent then SendOk else SendFail]
    {
      TxAct(Reset);
      Others(TxThread);
      sent := reported && s.tx.delivered;
      if sent {
        TxAct(SendOk);
      } else {
        TxAct(SendFail);
      }
    }

    /** The wait and, if it comes to nothing, the ack on the peer's behalf. */
    method AwaitAnswer() returns (answered: bool)
      requires Valid() && (s.tx.TxWaiting? || s.tx.TxGivingUp?)
      modifies this
      ensures Valid() && s.tx.TxIdle? && s.completed == old(s.completed) + [old(s.tx.cmd)]
      ensures s.waits == old(s.waits) + (if answered then 1 else 0)
      ensures Synthetics(s.acks) == Synthetics(old(s.acks)) + (if answered then 0 else 1)
      ensures !answered ==> s.acks != [] && Last(s.acks) == Synthetic(old(s.tx.cmd).sequence)
      ensures Deliveries(trace) == Deliveries(old(trace))
      ensures Own(TxThread, trace) == Own(TxThread, old(trace)) + Wait(old(s.tx.TxWaiting?), answered)
    {
      Others(TxThread);
      if s.tx.TxWaiting? {
        if s.sem {
          TxAct(TakeOk);
          return true;
        }
        TxAct(TakeTimeout);
        Others(TxThread);
      }
      SyntheticsSnoc(s.acks, Synthetic(s.tx.cmd.sequence));
      TxAct(Synthesize);
      return false;
    }

    /**
     One iteration of tx_thread, from the message wait to the next. The command it fetched is
     completed, alone and exactly once. It waits for an ack exactly when the command was delivered
     and the link reported so, and the iteration ends in exactly one of two ways: a successful
     wait, or one synthetic ack attempt under that command's sequence; nothing else is done.
     */
    method TxIteration(reported: bool) returns (sent: bool, answered: bool)
      requires Valid() && s.tx.TxIdle? && s.queue != []
      modifies this
      ensures Valid() && s.tx.TxIdle?
      ensures s.completed == old(s.completed) + [old(s.queue[0])]
      ensures sent <==> reported && Deliveries(trace) > Deliveries(old(trace))
      ensures s.waits == old(s.waits) + (if answered then 1 else 0)
      ensures Synthetics(s.acks) == Synthetics(old(s.acks)) + (if answered then 0 else 1)
      ensures !answered ==> s.acks != [] && Last(s.acks) == Synthetic(old(s.queue[0]).sequence)
      ensures Own(TxThread, trace) == Own(TxThread, old(trace)) +
        [Fetch, Reset, if sent then SendOk else SendFail] + Wait(sent, answered)
    {
      ghost var own := Own(TxThread, trace);
      TxAct(Fetch);
      Others(TxThread);
      sent := SendCommand(reported);
      assert Own(TxThread, trace) == own + [Fetch, Reset, if sent then SendOk else SendFail];
      answered := AwaitAnswer();
    }

    /** publish_up for the ack received: it is on the channel when this returns, and nothing is given yet. */
    method PublishReceived()
      requires Valid() && s.rx.RxGot?
      modifies this
      ensures Valid() && s.rx == RxPublished(old(s.rx.sequence)) && s.gives == old(s.gives)
      ensures PeerAcks(s.acks) == PeerAcks(old(s.acks)) + 1
      ensures s.acks == old(s.acks) + [FromPeer(old(s.rx.sequence))] && trace == old(trace) + [RxPublish]
    {
      PeerAcksSnoc(s.acks, FromPeer(s.rx.sequence));
      Act(RxPublish);
    }

    /** rx_thread handling one ack: published first, and only then is the TX thread released. */
    method RxAck()
      requires Valid() && s.rx.RxIdle? && s.up != []
      modifies this
      ensures Valid() && s.rx.RxIdle? && s.sem
      ensures s.gives == old(s.gives) + 1 && PeerAcks(s.acks) == PeerAcks(old(s.acks)) + 1
      ensures FromPeer(old(s.up[0])) in s.acks
      ensures |trace| > |old(trace)| && Last(trace) == RxGive
      ensures exists k :: |old(trace)| <= k < |trace| - 1 && trace[k] == RxPublish
    {
      Act(RxReceive);
      Others(RxThread);
      PublishReceived();
      ghost var at, n := |trace| - 1, |s.acks| - 1;
      Others(RxThread);
      assert trace[at] == RxPublish && s.acks[n] == FromPeer(old(s.up[0]));
      Act(RxGive);
      assert trace[at] == RxPublish;
    }
  }

  /** One actor's actions, in order. */
  function Own(self: Actor, es: seq<Event>): seq<Event>
    decreases |es|
  {
    if es == [] then [] else Own(self, es[..|es| - 1]) + if Owner(Last(es)) == self then [Last(es)] else []
  }

  function Deliveries(es: seq<Event>): nat
    decreases |es|
  {
    if es == [] then 0 else Deliveries(es[..|es| - 1]) + if Last(es) == Deliver then 1 else 0
  }

  lemma OwnSnoc(self: Actor, es: seq<Event>, e: Event)
    ensures Own(self, es + [e]) == Own(self, es) + if Owner(e) == self then [e] else []
    ensures Deliveries(es + [e]) == Deliveries(es) + if e == Deliver then 1 else 0
  {
    assert (es + [e])[..|es|] == es;
  }

  function Delivered(tx: Tx): nat {
    if tx.TxSending? && tx.delivered then 1 else 0
  }

  /** What the TX thread does after its send. */
  function Wait(sent: bool, answered: bool): seq<Event> {
    if !sent then [Synthesize] else if answered then [TakeOk] else [TakeTimeout, Synthesize]
  }

  function Synthetics(acks: seq<AckAttempt>): nat
    decreases |acks|
  {
    if acks == [] then 0 else Synthetics(acks[..|acks| - 1]) + if Last(acks).Synthetic? then 1 else 0
  }

  lemma SyntheticsSnoc(acks: seq<AckAttempt>, a: AckAttempt)
    ensures Synthetics(acks + [a]) == Synthetics(acks) + if a.Synthetic? then 1 else 0
  {
    assert (acks + [a])[..|acks|] == acks;
  }

  /** What the TX thread may rely on while others run. */
  ghost predicate TxUndisturbed(s: State, t: State) {
    && (t.tx == s.tx || (s.tx.TxSending? && t.tx == TxSending(s.tx.cmd, true)))
    && Undone(s, t)
    && (s.sem ==> t.sem)
    && s.queue <= t.queue
  }

  lemma StepUndisturbs(self: Actor, s: State, t: State, e: Event)
    requires Enabled(t, e) && Owner(e) != self
    ensures self == TxThread && TxUndisturbed(s, t) ==> TxUndisturbed(s, Apply(t, e))
    ensures self == RxThread && RxUndisturbed(s, t) ==> RxUndisturbed(s, Apply(t, e))
  {
    if e.RxPublish? {
      SyntheticsSnoc(t.acks, FromPeer(t.rx.sequence));
    } else if e.Synthesize? {
      PeerAcksSnoc(t.acks, Synthetic(t.tx.cmd.sequence));
    }
  }

  /** Nothing the TX thread accounts for has happened yet. */
  ghost predicate Undone(s: State, t: State) {
    t.completed == s.completed && t.waits == s.waits && Synthetics(t.acks) == Synthetics(s.acks)
  }

  /** What the RX thread may rely on while others run. */
  ghost predicate RxUndisturbed(s: State, t: State) {
    t.rx == s.rx && t.gives == s.gives && PeerAcks(t.acks) == PeerAcks(s.acks) && s.acks <= t.acks
  }
}
