/**
 The gateway's MQTT session loop (gateway/src/main.cpp): one state machine per broker
 connection, stepped in passes over a single poll.

 Everything the loop takes from outside is an explicit input of the pass: clock
 readings, result codes of the MQTT library, and the events its callback delivers.
 */
module Sessions {
  import opened Basics

  const BACKOFF_MIN_MS := 1000
  const BACKOFF_MAX_MS := 30000
  const CONNACK_TIMEOUT_MS := 5000

  datatype Phase = Idle | Connecting | Serving

  /** One session_connect: when, the backoff in force, and the failed attempts that led to it. */
  datatype Attempt = Attempt(at: int, delay: int, failures: nat)

  /** The fields of a node_session that the loop reads and writes, and its history. */
  datatype Session = Session(
    phase: Phase,
    backoff: int,
    retryAt: int,
    connackDue: int,
    connected: bool,        // set by the event callback
    connectFailed: bool,
    subscribed: bool,       // history: SUBSCRIBE sent on the current connection
    failures: nat,          // history: consecutive drops of a session that was not serving
    attempts: seq<Attempt>, // history: session_connect calls
    published: seq<Phase>)  // history: the phase at each mqtt_publish

  /** What the callback can be handed during one mqtt_input. */
  datatype Incoming = ConnackOk | ConnackRefused | Disconnected | Command(answers: nat)

  /** One session's share of the outside world during one pass. */
  datatype Input = Input(
    connectRc: int,          // mqtt_connect
    connectClock: int,       // clock inside session_connect, or inside the drop it ends in
    readable: bool,          // POLLIN on the socket
    incoming: seq<Incoming>,
    inputRc: int,            // mqtt_input
    inputClock: int,         // clock inside a drop after mqtt_input
    greets: bool,            // session_serving has a status to publish
    liveRc: int,             // mqtt_live, with -EAGAIN reported as 0
    stepClock: int,          // clock inside a drop of the lifecycle step
    handlers: seq<Outcome>,  // one per eventfd watched for this session
    handlerClock: int)       // clock inside a drop after a failed publish

  /** What an eventfd's handler comes to: not readable or nothing to send, or a publish. */
  datatype Outcome = NothingSent | Sent | SendFailed

  /** One pass: the clock at its top, whether poll succeeded, the clock after socket input. */
  datatype Pass = Pass(now: int, pollOk: bool, later: int)

  // ---- the specification of each routine -------------------------------------------

  function Dropped(s: Session, reached: bool, clock: int): Session {
    var backoff := if reached then BACKOFF_MIN_MS else Min(s.backoff * 2, BACKOFF_MAX_MS);
    s.(phase := Idle, connected := false, subscribed := false, backoff := backoff, retryAt := clock + backoff,
    failures := if reached then 0 else s.failures + 1)
  }

  function Connected(s: Session, now: int, rc: int, clock: int): Session {
    var t := s.(connected := false, connectFailed := false,
    attempts := s.attempts + [Attempt(now, s.backoff, s.failures)]);
    if rc != 0 then Dropped(t.(phase := Idle), false, clock)
    else t.(phase := Connecting, connackDue := clock + CONNACK_TIMEOUT_MS)
  }

  function Greeted(s: Session, greets: bool): Session {
    s.(phase := Serving, backoff := BACKOFF_MIN_MS, failures := 0, subscribed := true,
    published := if greets then s.published + [Serving] else s.published)
  }

  function Repeat(phase: Phase, n: nat): (ps: seq<Phase>)
    ensures |ps| == n && forall k :: 0 <= k < n ==> ps[k] == phase
  {
    seq(n, _ => phase)
  }

  /** The event callback; a command on a session is answered with some number of acks on it. */
  function Handled(s: Session, e: Incoming): Session {
    match e
    case ConnackOk => s.(connected := true)
    case ConnackRefused => s.(connectFailed := true)
    case Disconnected => s.(connected := false)
    case Command(answers) => s.(published := s.published + Repeat(s.phase, answers))
  }

  function HandledAll(s: Session, es: seq<Incoming>): Session
    decreases |es|
  {
    if es == [] then s else Handled(HandledAll(s, es[..|es| - 1]), Last(es))
  }

  /** Top of the loop: start an attempt whose backoff has elapsed. */
  function AfterConnect(s: Session, now: int, i: Input): Session {
    if s.phase == Idle && now >= s.retryAt then Connected(s, now, i.connectRc, i.connectClock) else s
  }

  /** Socket input, for a session that had a socket when the poll set was assembled. */
  function AfterInput(s: Session, i: Input): Session {
    if s.phase == Idle || !i.readable then s
    else
      var t := HandledAll(s, i.incoming);
      if i.inputRc != 0 then Dropped(t, t.phase == Serving, i.inputClock) else t
  }

  function AfterStep(s: Session, now: int, i: Input): Session {
    match s.phase
    case Connecting =>
      if s.connected then Greeted(s, i.greets)
      else if s.connectFailed then Dropped(s, false, i.stepClock)
      else if now >= s.connackDue then Dropped(s, false, i.stepClock)
      else s
    case Serving =>
      if !s.connected then Dropped(s, true, i.stepClock)
      else if i.liveRc != 0 then Dropped(s, true, i.stepClock)
      else s
    case Idle => s
  }

  /** One eventfd handler, skipped once the session has been dropped; a failed publish drops it. */
  function AfterHandler(s: Session, o: Outcome, clock: int): Session {
    if s.phase != Serving || o == NothingSent then s
    else
      var t := s.(published := s.published + [s.phase]);
      if o == SendFailed then Dropped(t, true, clock) else t
  }

  function AfterHandlers(s: Session, os: seq<Outcome>, clock: int): Session
    decreases |os|
  {
    if os == [] then s else AfterHandler(AfterHandlers(s, os[..|os| - 1], clock), Last(os), clock)
  }

  function AfterWatched(s: Session, watched: bool, i: Input): Session {
    if watched then AfterHandlers(s, i.handlers, i.handlerClock) else s
  }

  /** One session through one pass; its eventfds are watched only if it served when poll began. */
  function AfterPass(s: Session, p: Pass, i: Input): Session {
    var atPoll := AfterConnect(s, p.now, i);
    if !p.pollOk then atPoll
    else
      AfterWatched(AfterStep(AfterInput(atPoll, i), p.later, i), atPoll.phase == Serving, i)
  }

  /** The deadline a session contributes to the poll timeout, relative to now, if it has one. */
  function Due(s: Session, now: int, keepaliveLeft: int): Option<int> {
    match s.phase
    case Idle => Some(s.retryAt - now)
    case Connecting => Some(s.connackDue - now)
    case Serving => if keepaliveLeft < 0 then None else Some(keepaliveLeft)
  }

  // ---- the loop itself ---------------------------------------------------------------

  class NodeSession {
    var phase: Phase
    var backoff: int
    var retryAt: int
    var connackDue: int
    var connected: bool
    var connectFailed: bool
    ghost var subscribed: bool
    ghost var failures: nat
    ghost var attempts: seq<Attempt>
    ghost var published: seq<Phase>

    ghost function Value(): Session
      reads this
    {
      Session(phase, backoff, retryAt, connackDue, connected, connectFailed, subscribed, failures, attempts, published)
    }

    constructor ()
      ensures Value() == Start()
    {
      phase, backoff, retryAt, connackDue := Idle, BACKOFF_MIN_MS, 0, 0;
      connected, connectFailed, subscribed := false, false, false;
      failures, attempts, published := 0, [], [];
    }

    method Drop(reached: bool, clock: int)
      modifies this
      ensures Value() == Dropped(old(Value()), reached, clock)
    {
      failures := if reached then 0 else failures + 1;
      subscribed := false;
      backoff := if reached then BACKOFF_MIN_MS else Min(backoff * 2, BACKOFF_MAX_MS);
      phase := Idle;
      connected := false;
      retryAt := clock + backoff;
    }

    method Connect(now: int, rc: int, clock: int)
      modifies this
      ensures Value() == Connected(old(Value()), now, rc, clock)
    {
      attempts := attempts + [Attempt(now, backoff, failures)];
      connected := false;
      connectFailed := false;
      if rc != 0 {
        phase := Idle;
        Drop(false, clock);
        return;
      }
      phase := Connecting;
      connackDue := clock + CONNACK_TIMEOUT_MS;
    }

    method BecomeServing(greets: bool)
      modifies this
      ensures Value() == Greeted(old(Value()), greets)
    {
      phase := Serving;
      backoff := BACKOFF_MIN_MS;
      failures := 0;
      if greets {
        published := published + [phase];
      }
      subscribed := true;
    }

    /** mqtt_input delivering its events to the callback, then its own result. */
    method Pump(i: Input)
      modifies this
      ensures Value() == AfterInput(old(Value()), i)
    {
      if phase == Idle || !i.readable {
        return;
      }
      for k := 0 to |i.incoming|
        invariant Value() == HandledAll(old(Value()), i.incoming[..k])
      {
        assert i.incoming[..k + 1][..k] == i.incoming[..k];
        match i.incoming[k]
        case ConnackOk => connected := true;
        case ConnackRefused => connectFailed := true;
        case Disconnected => connected := false;
        case Command(answers) => published := published + Repeat(phase, answers);
      }
      assert i.incoming[..|i.incoming|] == i.incoming;
      if i.inputRc != 0 {
        Drop(phase == Serving, i.inputClock);
      }
    }

    method Deadline(now: int, keepaliveLeft: int) returns (due: Option<int>)
      ensures due == Due(Value(), now, keepaliveLeft)
    {
      match phase
      case Idle => due := Some(retryAt - now);
      case Connecting => due := Some(connackDue - now);
      case Serving => due := if keepaliveLeft < 0 then None else Some(keepaliveLeft);
    }

    method Step(now: int, i: Input)
      modifies this
      ensures Value() == AfterStep(old(Value()), now, i)
    {
      if phase == Connecting {
        if connected {
          BecomeServing(i.greets);
        } else if connectFailed {
          Drop(false, i.stepClock);
        } else if now >= connackDue {
          Drop(false, i.stepClock);
        }
      } else if phase == Serving {
        if !connected {
          Drop(true, i.stepClock);
        } else if i.liveRc != 0 {
          Drop(true, i.stepClock);
        }
      }
    }

    method Publish(os: seq<Outcome>, clock: int)
      modifies this
      ensures Value() == AfterHandlers(old(Value()), os, clock)
    {
      for k := 0 to |os|
        invariant Value() == AfterHandlers(old(Value()), os[..k], clock)
      {
        assert os[..k + 1][..k] == os[..k];
        if phase == Serving && os[k] != NothingSent {
          published := published + [phase];
          if os[k] == SendFailed {
            Drop(true, clock);
          }
        }
      }
      assert os[..|os|] == os;
    }
  }

  /** A session as main() initialises it. */
  function Start(): Session {
    Session(Idle, BACKOFF_MIN_MS, 0, 0, false, false, false, 0, [], [])
  }

  class Gateway {
    const sessions: seq<NodeSession>

    ghost predicate Valid() {
      forall i, j :: 0 <= i < j < |sessions| ==> sessions[i] != sessions[j]
    }

    ghost function Values(): seq<Session>
      reads sessions
    {
      seq(|sessions|, k requires 0 <= k < |sessions| reads sessions => sessions[k].Value())
    }

    constructor (sessions: seq<NodeSession>)
      requires forall i, j :: 0 <= i < j < |sessions| ==> sessions[i] != sessions[j]
      ensures Valid() && this.sessions == sessions
    {
      this.sessions := sessions;
    }

    ghost function Dues(now: int, keepaliveLeft: seq<int>): seq<Option<int>>
      requires |keepaliveLeft| == |sessions|
      reads sessions
    {
      seq(|sessions|, k requires 0 <= k < |sessions| reads sessions => Due(sessions[k].Value(), now, keepaliveLeft[k]))
    }

    /** The poll timeout: the nearest deadline, overdue ones counting as zero, or -1 without any. */
    method NextDeadline(now: int, keepaliveLeft: seq<int>) returns (best: int)
      requires |keepaliveLeft| == |sessions|
      ensures Nearest(Dues(now, keepaliveLeft), best)
    {
      best := -1;
      ghost var dues := Dues(now, keepaliveLeft);
      for k := 0 to |sessions|
        invariant Nearest(dues[..k], best)
      {
        assert dues[..k + 1] == dues[..k] + [dues[k]];
        var due := sessions[k].Deadline(now, keepaliveLeft[k]);
        if due.None? {
          NearestSkips(dues[..k], best);
          continue;
        }
        NearestTakes(dues[..k], best, due.value);
        var left := if due.value < 0 then 0 else due.value;
        if best < 0 || left < best {
          best := left;
        }
      }
      assert dues[..|sessions|] == dues;
    }

    method ConnectAll(now: int, ins: seq<Input>)
      requires Valid() && |ins| == |sessions|
      modifies sessions
      ensures forall k :: 0 <= k < |sessions| ==>
        sessions[k].Value() == AfterConnect(old(sessions[k].Value()), now, ins[k])
    {
      for k := 0 to |sessions|
        invariant forall j :: 0 <= j < k ==> sessions[j].Value() == AfterConnect(old(sessions[j].Value()), now, ins[j])
        invariant forall j :: k <= j < |sessions| ==> sessions[j].Value() == old(sessions[j].Value())
      {
        var s := sessions[k];
        if s.phase == Idle && now >= s.retryAt {
          s.Connect(now, ins[k].connectRc, ins[k].connectClock);
        }
      }
    }

    method PumpAll(ins: seq<Input>)
      requires Valid() && |ins| == |sessions|
      modifies sessions
      ensures forall k :: 0 <= k < |sessions| ==> sessions[k].Value() == AfterInput(old(sessions[k].Value()), ins[k])
    {
      for k := 0 to |sessions|
        invariant forall j :: 0 <= j < k ==> sessions[j].Value() == AfterInput(old(sessions[j].Value()), ins[j])
        invariant forall j :: k <= j < |sessions| ==> sessions[j].Value() == old(sessions[j].Value())
      {
        sessions[k].Pump(ins[k]);
      }
    }

    method StepAll(now: int, ins: seq<Input>)
      requires Valid() && |ins| == |sessions|
      modifies sessions
      ensures forall k :: 0 <= k < |sessions| ==>
        sessions[k].Value() == AfterStep(old(sessions[k].Value()), now, ins[k])
    {
      for k := 0 to |sessions|
        invariant forall j :: 0 <= j < k ==> sessions[j].Value() == AfterStep(old(sessions[j].Value()), now, ins[j])
        invariant forall j :: k <= j < |sessions| ==> sessions[j].Value() == old(sessions[j].Value())
      {
        sessions[k].Step(now, ins[k]);
      }
    }

    method PublishAll(watched: seq<bool>, ins: seq<Input>)
      requires Valid() && |watched| == |ins| == |sessions|
      modifies sessions
      ensures forall k :: 0 <= k < |sessions| ==>
        sessions[k].Value() == AfterWatched(old(sessions[k].Value()), watched[k], ins[k])
    {
      for k := 0 to |sessions|
        invariant forall j :: 0 <= j < k ==>
          sessions[j].Value() == AfterWatched(old(sessions[j].Value()), watched[j], ins[j])
        invariant forall j :: k <= j < |sessions| ==> sessions[j].Value() == old(sessions[j].Value())
      {
        if watched[k] {
          sessions[k].Publish(ins[k].handlers, ins[k].handlerClock);
        }
      }
    }

    /** Which sessions are serving when the poll set is assembled. */
    method Watch() returns (watched: seq<bool>)
      ensures |watched| == |sessions|
      ensures forall k :: 0 <= k < |sessions| ==> (watched[k] <==> sessions[k].phase == Serving)
    {
      watched := [];
      for k := 0 to |sessions|
        invariant |watched| == k
        invariant forall j :: 0 <= j < k ==> (watched[j] <==> sessions[j].phase == Serving)
      {
        watched := watched + [sessions[k].phase == Serving];
      }
    }

    /** One iteration of main's loop; every session takes exactly its own step. */
    method RunPass(p: Pass, ins: seq<Input>, keepaliveLeft: seq<int>) returns (timeout: int)
      requires Valid() && |ins| == |keepaliveLeft| == |sessions|
      modifies sessions
      ensures forall k :: 0 <= k < |sessions| ==> sessions[k].Value() == AfterPass(old(sessions[k].Value()), p, ins[k])
      ensures Nearest(PollDues(old(Values()), p, ins, keepaliveLeft), timeout)
    {
      ConnectAll(p.now, ins);
      var watched := Watch();
      timeout := NextDeadline(p.now, keepaliveLeft);
      assert Dues(p.now, keepaliveLeft) == PollDues(old(Values()), p, ins, keepaliveLeft);
      if !p.pollOk {
        return;
      }
      PumpAll(ins);
      StepAll(p.later, ins);
      PublishAll(watched, ins);
    }
  }

  function AtLeastZero(t: int): nat {
    if t < 0 then 0 else t
  }

  /** r is the least of the deadlines that exist, and -1 exactly when there is none. */
  ghost predicate Nearest(dues: seq<Option<int>>, r: int) {
    && r >= -1
    && (r == -1 <==> forall k :: 0 <= k < |dues| ==> dues[k].None?)
    && (forall k :: 0 <= k < |dues| && dues[k].Some? ==> r <= AtLeastZero(dues[k].value))
    && (r >= 0 ==> exists k :: 0 <= k < |dues| && dues[k].Some? && r == AtLeastZero(dues[k].value))
  }

  lemma NearestSkips(dues: seq<Option<int>>, r: int)
    requires Nearest(dues, r)
    ensures Nearest(dues + [None], r)
  {
    var more: seq<Option<int>> := dues + [None];
    assert forall k :: 0 <= k < |dues| ==> more[k] == dues[k];
  }

  lemma NearestTakes(dues: seq<Option<int>>, r: int, due: int)
    requires Nearest(dues, r)
    ensures Nearest(dues + [Some(due)], if r < 0 || AtLeastZero(due) < r then AtLeastZero(due) else r)
  {
    var more := dues + [Some(due)];
    assert forall k :: 0 <= k < |dues| ==> more[k] == dues[k];
    assert more[|dues|] == Some(due);
  }

  /** The deadlines the poll timeout is folded from: those left after the connect loop. */
  ghost function PollDues(ss: seq<Session>, p: Pass, ins: seq<Input>, keepaliveLeft: seq<int>): seq<Option<int>>
    requires |ss| == |ins| == |keepaliveLeft|
  {
    seq(|ss|, k requires 0 <= k < |ss| => Due(AfterConnect(ss[k], p.now, ins[k]), p.now, keepaliveLeft[k]))
  }
}
