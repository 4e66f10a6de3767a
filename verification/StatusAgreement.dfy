/**
 The peer's retained status topic: the relay's RX thread writes chan_relay_status, and the
 gateway's main thread copies it to node/2/status on two occasions, when the peer session
 starts serving and when the status eventfd is readable (gateway/src/main.cpp,
 gateway/src/relay.cpp).
 */
module StatusAgreement {
  import opened Basics
  import Liveness

  /** Where the main thread is with respect to the status topic. */
  datatype Main =
    | Elsewhere
    | Greeting           // session_serving, before its zbus_chan_read
    | Reading            // publish_relayed_status, eventfd cleared, channel not yet read
    | Publishing(online: bool, greeting: bool)

  datatype State = State(
    belief: Option<bool>,   // chan_relay_status; None is the zeroed initial message, node_id == 0
    locked: bool,           // channel written, listener not yet run
    fdOpen: bool,           // main() has created the eventfds
    counter: nat,
    serving: bool,
    clean: bool,            // the latest status read and publish, if any since it began serving, succeeded
    main: Main,
    latest: Option<bool>,   // last value published since it began serving
    topic: seq<bool>,       // every value this gateway ever published on node/2/status
    decided: seq<bool>,     // every publish_status(online) call
    stored: bool)           // the latest of those calls, if any, reached the channel

  const INIT := State(None, false, false, 0, false, false, Elsewhere, None, [], [], true)

  datatype Event =
    | Write(online: bool, ok: bool) // RX: publish_status; zbus_chan_pub copies the status, or times out on the lock
    | Signal                 // RX: on_relay_status, then unlock
    | OpenFds                // main() before its loop
    | BeginServing           // main: session_serving sets SESSION_SERVING
    | GreetingRead(ok: bool) // main: zbus_chan_read in session_serving
    | Clear                  // main: eventfd readable on a serving session, counter to zero
    | HandlerRead(ok: bool)  // main: zbus_chan_read in publish_relayed_status
    | Publish(ok: bool)      // main: publish_text
    | Drop                   // main: session_drop for a reason unrelated to status

  predicate Enabled(s: State, e: Event) {
    match e
    case Write(_, _) => !s.locked
    case Signal => s.locked
    case OpenFds => !s.fdOpen
    case BeginServing => s.fdOpen && !s.serving && s.main == Elsewhere
    case GreetingRead(ok) => s.main == Greeting && (ok ==> !s.locked)
    case Clear => s.serving && s.main == Elsewhere && s.counter > 0
    case HandlerRead(ok) => s.main == Reading && (ok ==> !s.locked)
    case Publish(_) => s.main.Publishing?
    case Drop => s.serving && s.main == Elsewhere
  }

  function Apply(s: State, e: Event): State
    requires Enabled(s, e)
  {
    match e
    case Write(online, ok) =>
      if ok then s.(belief := Some(online), locked := true, decided := s.decided + [online], stored := true)
      else s.(decided := s.decided + [online], stored := false)
    case Signal => s.(locked := false, counter := if s.fdOpen then s.counter + 1 else s.counter)
    case OpenFds => s.(fdOpen := true)
    case BeginServing => s.(serving := true, clean := true, main := Greeting, latest := None)
    case GreetingRead(ok) =>
      if !ok then s.(main := Elsewhere, clean := false)
      else if s.belief.None? then s.(main := Elsewhere)
      else s.(main := Publishing(s.belief.value, true))
    case Clear => s.(counter := 0, main := Reading)
    case HandlerRead(ok) =>
      if ok then s.(main := Publishing(s.belief.Some? && s.belief.value, false))
      else s.(main := Elsewhere, clean := false)
    case Publish(ok) =>
      if ok then s.(main := Elsewhere, clean := true, latest := Some(s.main.online), topic := s.topic + [s.main.online])
      // session_serving ignores the result; the handler's caller drops the session
      else s.(main := Elsewhere, clean := false, serving := s.serving && s.main.greeting)
    case Drop => s.(serving := false)
  }

  /** The failures that nothing but a new status repairs. */
  datatype Lapse = StatusWriteFails | GreetingReadFails | GreetingPublishFails | HandlerReadFails

  const EVERY_LAPSE := {StatusWriteFails, GreetingReadFails, GreetingPublishFails, HandlerReadFails}

  /** A failed publish of the handler is none of them: it costs the session, and the next greeting repairs the topic. */
  function Lapses(s: State, e: Event): set<Lapse>
    requires Enabled(s, e)
  {
    match e
    case Write(_, ok) => if ok then {} else {StatusWriteFails}
    case GreetingRead(ok) => if ok then {} else {GreetingReadFails}
    case HandlerRead(ok) => if ok then {} else {HandlerReadFails}
    case Publish(ok) => if !ok && s.main.greeting then {GreetingPublishFails} else {}
    case _ => {}
  }

  function Exec(es: seq<Event>, allowed: set<Lapse>): Option<State>
    decreases |es|
  {
    if es == [] then Some(INIT)
    else
      match Exec(es[..|es| - 1], allowed)
      case None => None
      case Some(s) =>
        if Enabled(s, Last(es)) && Lapses(s, Last(es)) <= allowed then Some(Apply(s, Last(es))) else None
  }

  /** What the relay last decided about the peer, if anything: not always what the channel holds. */
  function Verdict(s: State): Option<bool> {
    if s.decided == [] then None else Some(Last(s.decided))
  }

  /** Any difference between the topic and the belief has something left that will repair it. */
  ghost predicate Repairable(s: State) {
    && (s.main != Elsewhere ==> s.serving)
    && (s.serving ==> s.fdOpen)
    && (s.counter > 0 || s.locked || s.main == Reading || s.main.Publishing? || s.topic != [] ==> s.belief.Some?)
    && (s.latest.Some? ==> s.belief.Some?)
    && (s.stored ==> s.belief == Verdict(s))
    && (s.belief.Some? ==> s.decided != [])
    && (s.serving && s.belief.Some? && s.counter == 0 && !s.locked ==>
          match s.main
          case Elsewhere => s.clean ==> s.latest == s.belief
          case Greeting => true
          case Reading => true
          case Publishing(online, _) => Some(online) == s.belief)
  }

  lemma StepStaysRepairable(s: State, e: Event)
    requires Repairable(s) && Enabled(s, e)
    ensures Repairable(Apply(s, e))
  {}

  lemma {:induction false} RunStaysRepairable(es: seq<Event>, allowed: set<Lapse>)
    requires Exec(es, allowed).Some?
    ensures Repairable(Exec(es, allowed).value)
    ensures allowed == {} ==> Exec(es, allowed).value.stored
    ensures allowed == {} && Exec(es, allowed).value.serving ==> Exec(es, allowed).value.clean
    decreases |es|
  {
    if es != [] {
      RunStaysRepairable(es[..|es| - 1], allowed);
      StepStaysRepairable(Exec(es[..|es| - 1], allowed).value, Last(es));
    }
  }

  /** The peer session serves, its status counter is zero, and no handler and no listener is mid-step. */
  predicate Quiescent(s: State) {
    s.serving && s.counter == 0 && s.main == Elsewhere && !s.locked
  }

  /** The last value published on node/2/status is what the relay last decided. */
  predicate Agrees(s: State) {
    s.latest == Verdict(s)
  }

  /**
   In every interleaving and with any failures, a quiescent state agrees as soon as the latest
   status write got through and the latest status read and publish since the session began
   serving succeeded, whatever failed before; and while nothing is decided nothing has ever been
   published on the topic.
   */
  lemma RetainedStatusAgrees(es: seq<Event>, allowed: set<Lapse>)
    requires Exec(es, allowed).Some?
    ensures var s := Exec(es, allowed).value;
      && (Quiescent(s) && s.clean && s.stored ==> Agrees(s))
      && (Verdict(s).None? ==> s.topic == [])
  {
    RunStaysRepairable(es, allowed);
  }

  /**
   The exact reach of the agreement: every quiescent state of every run agrees if and only if
   none of the four failures is possible.
   */
  lemma AlwaysAgreesIffNoLapse(allowed: set<Lapse>)
    ensures (forall es | Exec(es, allowed).Some? && Quiescent(Exec(es, allowed).value) ::
               Agrees(Exec(es, allowed).value)) <==> allowed == {}
  {
    if allowed == {} {
      forall es | Exec(es, allowed).Some? && Quiescent(Exec(es, allowed).value)
        ensures Agrees(Exec(es, allowed).value)
      {
        RunStaysRepairable(es, allowed);
      }
    } else {
      var es, s;
      if HandlerReadFails in allowed {
        es, s := FailedHandlerReadDisagrees(true, allowed);
      } else if StatusWriteFails in allowed {
        es, s := FailedWriteDisagrees(true, allowed);
      } else if GreetingReadFails in allowed {
        es, s := FailedGreetingDisagrees(true, false, allowed);
      } else {
        var lapse :| lapse in allowed;
        assert lapse == GreetingPublishFails;
        es, s := FailedGreetingDisagrees(true, true, allowed);
      }
      assert Exec(es, allowed) == Some(s) && Quiescent(s) && !Agrees(s);
    }
  }

  /** What the retained topic should say of a peer in this state. */
  function Announced(state: Liveness.PeerState): Option<bool> {
    match state
    case Unknown => None
    case Online => Some(true)
    case Offline => Some(false)
  }

  /**
   From the liveness decision to the retained topic: join any run of the receive loop to any run
   here whose status writes are that loop's publish_status calls. Without failures, whenever the
   session is quiescent the topic's last value is the peer's state, and an unknown peer has never
   been announced at all.
   */
  lemma RetainedStatusIsPeerState(start: int, beats: seq<Liveness.Event>, env: Liveness.Env, es: seq<Event>)
    requires Liveness.Exec(start, beats, env).Some? && Exec(es, {}).Some?
    requires Exec(es, {}).value.decided == Liveness.Exec(start, beats, env).value.published
    ensures var (s, state) := (Exec(es, {}).value, Liveness.Exec(start, beats, env).value.state);
      && (Quiescent(s) ==> s.latest == Announced(state))
      && (state == Liveness.Unknown ==> s.topic == [])
  {
    Liveness.RunKeepsStatusHistory(start, beats, env);
    RunStaysRepairable(es, {});
  }

  /** A belief formed before main() opened the eventfds, and a session that starts serving. */
  lemma EarlyBelief(online: bool, allowed: set<Lapse>) returns (es: seq<Event>)
    ensures Exec(es, allowed) ==
            Some(State(Some(online), false, true, 0, true, true, Greeting, None, [], [online], true))
    ensures forall e :: e in es ==> e != Clear
  {
    var s1 := State(Some(online), true, false, 0, false, false, Elsewhere, None, [], [online], true);
    var s2 := State(Some(online), false, false, 0, false, false, Elsewhere, None, [], [online], true);
    var s3 := State(Some(online), false, true, 0, false, false, Elsewhere, None, [], [online], true);
    var s4 := State(Some(online), false, true, 0, true, true, Greeting, None, [], [online], true);
    es := Extend([], allowed, INIT, Write(online, true), s1);
    es := Extend(es, allowed, s1, Signal, s2);
    es := Extend(es, allowed, s2, OpenFds, s3);
    es := Extend(es, allowed, s3, BeginServing, s4);
  }

  /** Such a belief is counted nowhere, yet still announced. */
  lemma EarlyBeliefIsStillAnnounced(online: bool) returns (es: seq<Event>)
    ensures Exec(es, {}).Some? && Exec(es, {}).value.counter == 0 && Exec(es, {}).value.topic == [online]
    ensures forall e :: e in es ==> e != Clear
  {
    var s4 := State(Some(online), false, true, 0, true, true, Greeting, None, [], [online], true);
    var s5 := State(Some(online), false, true, 0, true, true, Publishing(online, true), None, [], [online], true);
    var s6 := State(Some(online), false, true, 0, true, true, Elsewhere, Some(online), [online], [online], true);
    es := EarlyBelief(online, {});
    es := Extend(es, {}, s4, GreetingRead(true), s5);
    es := Extend(es, {}, s5, Publish(true), s6);
  }

  /** The greeting fails, its result is ignored, and the session serves on without a word. */
  lemma FailedGreetingDisagrees(online: bool, readOk: bool, allowed: set<Lapse>) returns (es: seq<Event>, s: State)
    requires (if readOk then GreetingPublishFails else GreetingReadFails) in allowed
    ensures Exec(es, allowed) == Some(s) && Quiescent(s) && !Agrees(s)
  {
    var s4 := State(Some(online), false, true, 0, true, true, Greeting, None, [], [online], true);
    var s5 := State(Some(online), false, true, 0, true, true, Publishing(online, true), None, [], [online], true);
    s := State(Some(online), false, true, 0, true, false, Elsewhere, None, [], [online], true);
    es := EarlyBelief(online, allowed);
    if readOk {
      es := Extend(es, allowed, s4, GreetingRead(true), s5);
      es := Extend(es, allowed, s5, Publish(false), s);
    } else {
      es := Extend(es, allowed, s4, GreetingRead(false), s);
    }
  }

  /** A session is greeted before there is a belief, and serves. */
  lemma ServingWithoutBelief(allowed: set<Lapse>) returns (es: seq<Event>)
    ensures Exec(es, allowed) == Some(State(None, false, true, 0, true, true, Elsewhere, None, [], [], true))
  {
    var s1 := State(None, false, true, 0, false, false, Elsewhere, None, [], [], true);
    var s2 := State(None, false, true, 0, true, true, Greeting, None, [], [], true);
    var s3 := State(None, false, true, 0, true, true, Elsewhere, None, [], [], true);
    es := Extend([], allowed, INIT, OpenFds, s1);
    es := Extend(es, allowed, s1, BeginServing, s2);
    es := Extend(es, allowed, s2, GreetingRead(true), s3);
  }

  /** The handler clears its counter and then cannot read what the count stood for. */
  lemma FailedHandlerReadDisagrees(online: bool, allowed: set<Lapse>) returns (es: seq<Event>, s: State)
    requires HandlerReadFails in allowed
    ensures Exec(es, allowed) == Some(s) && Quiescent(s) && !Agrees(s)
  {
    var s3 := State(None, false, true, 0, true, true, Elsewhere, None, [], [], true);
    var s4 := State(Some(online), true, true, 0, true, true, Elsewhere, None, [], [online], true);
    var s5 := State(Some(online), false, true, 1, true, true, Elsewhere, None, [], [online], true);
    var s6 := State(Some(online), false, true, 0, true, true, Reading, None, [], [online], true);
    s := State(Some(online), false, true, 0, true, false, Elsewhere, None, [], [online], true);
    es := ServingWithoutBelief(allowed);
    es := Extend(es, allowed, s3, Write(online, true), s4);
    es := Extend(es, allowed, s4, Signal, s5);
    es := Extend(es, allowed, s5, Clear, s6);
    es := Extend(es, allowed, s6, HandlerRead(false), s);
  }

  /** A decision that never reaches the channel: liveness_step reports each change once, so nothing repeats it. */
  lemma FailedWriteDisagrees(online: bool, allowed: set<Lapse>) returns (es: seq<Event>, s: State)
    requires StatusWriteFails in allowed
    ensures Exec(es, allowed) == Some(s) && Quiescent(s) && !Agrees(s)
  {
    var before := State(None, false, true, 0, true, true, Elsewhere, None, [], [], true);
    s := before.(decided := [online], stored := false);
    es := ServingWithoutBelief(allowed);
    es := Extend(es, allowed, before, Write(online, false), s);
  }

  lemma Extend(es: seq<Event>, allowed: set<Lapse>, s: State, e: Event, t: State) returns (es': seq<Event>)
    requires Exec(es, allowed) == Some(s) && Enabled(s, e) && Lapses(s, e) <= allowed && Apply(s, e) == t
    ensures Exec(es', allowed) == Some(t) && es' == es + [e]
  {
    es' := es + [e];
    assert es'[..|es'| - 1] == es;
  }
}
