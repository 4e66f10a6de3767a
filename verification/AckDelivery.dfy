/**
 The ack channel end to end: the round trip's publishes on chan_relay_ack (gateway/src/relay.cpp)
 feeding the latest-wins channel that the main thread drains (gateway/src/main.cpp). One thread's
 publish holds the channel until its listener has signalled.
 */
module AckDelivery {
  import opened Basics
  import Mailbox
  import RelayThreads
  import RoundTrip

  type Attempt = RoundTrip.AckAttempt

  datatype State = State(
    trip: RoundTrip.State,
    box: Mailbox.State<Attempt>,
    holder: RelayThreads.Actor,  // whose publish the channel's lock belongs to, while it is locked
    lapsed: bool)                // history: a publish found its predecessor unread, or a read failed

  /** The channel's zeroed initial message, which is never read. */
  const NO_ACK := RoundTrip.Synthetic(0)

  const INIT := State(RoundTrip.INIT, Mailbox.Init(NO_ACK), RelayThreads.Main, false)

  datatype Event = Trip(e: RoundTrip.Event) | Signal | Clear | Read | ReadFails

  predicate Publishes(e: RoundTrip.Event) {
    e.RxPublish? || e.Synthesize?
  }

  predicate Enabled(s: State, e: Event) {
    match e
    case Trip(t) =>
      && RoundTrip.Enabled(s.trip, t)
      && (Publishes(t) ==> !s.box.locked)
      && (s.box.locked ==> RelayThreads.Owner(t) != s.holder)
    case Signal => Mailbox.Enabled(s.box, Mailbox.Signal)
    case Clear => Mailbox.Enabled(s.box, Mailbox.Clear)
    case Read => Mailbox.Enabled(s.box, Mailbox.Read)
    case ReadFails => Mailbox.Enabled(s.box, Mailbox.ReadFails)
  }

  function Published(s: State, t: RoundTrip.Event): State
    requires Enabled(s, Trip(t)) && Publishes(t)
  {
    var trip := RoundTrip.Apply(s.trip, t);
    s.(trip := trip, box := Mailbox.Apply(s.box, Mailbox.Copy(Last(trip.acks))), holder := RelayThreads.Owner(t),
    lapsed := s.lapsed || Overruns(s))
  }

  function Apply(s: State, e: Event): State
    requires Enabled(s, e)
  {
    match e
    case Trip(t) => if Publishes(t) then Published(s, t) else s.(trip := RoundTrip.Apply(s.trip, t))
    case Signal => s.(box := Mailbox.Apply(s.box, Mailbox.Signal))
    case Clear => s.(box := Mailbox.Apply(s.box, Mailbox.Clear))
    case Read => s.(box := Mailbox.Apply(s.box, Mailbox.Read))
    case ReadFails => s.(box := Mailbox.Apply(s.box, Mailbox.ReadFails), lapsed := true)
  }

  /** A publish now would find the eventfd still up, or main between clearing it and reading. */
  predicate Overruns(s: State) {
    s.box.counter > 0 || s.box.reader == Mailbox.Cleared
  }

  /** Runs whose round trips suffer only the allowed lapses. */
  function Exec(es: seq<Event>, allowed: set<RoundTrip.Lapse>): Option<State>
    decreases |es|
  {
    if es == [] then Some(INIT)
    else
      match Exec(es[..|es| - 1], allowed)
      case None => None
      case Some(s) =>
        if Enabled(s, Last(es)) && (Last(es).Trip? ==> RoundTrip.Lapses(s.trip, Last(es).e) <= allowed)
        then Some(Apply(s, Last(es))) else None
  }

  /** The numbers 1 to n. */
  function UpTo(n: nat): seq<nat> {
    seq(n, k requires 0 <= k < n => k + 1)
  }

  /** The channel has carried exactly the ack attempts, in order. */
  predicate Carries(s: State) {
    s.box.history == s.trip.acks
  }

  /** At most the newest attempt is unread, and then exactly one thing stands for it. */
  predicate NoneLost(s: State) {
    var pending := (if s.box.locked then 1 else 0) + s.box.counter + (if s.box.reader == Mailbox.Cleared then 1 else 0);
    pending <= 1 && pending <= |s.box.history| && s.box.numbers == UpTo(|s.box.history| - pending)
  }

  /** Attempt number n has not been read and never will be. */
  predicate Lost(s: State, n: nat) {
    && 1 <= n <= |s.box.history| && n !in s.box.numbers
    && (n < |s.box.history| || (!s.box.locked && s.box.counter == 0 && s.box.reader == Mailbox.Waiting))
  }

  ghost predicate Accounted(s: State) {
    && Carries(s)
    && Mailbox.Exact(s.box)
    && if s.lapsed then exists n: nat :: Lost(s, n) else NoneLost(s)
  }

  lemma StepStaysLost(s: State, e: Event, n: nat)
    requires Lost(s, n) && Enabled(s, e)
    ensures Lost(Apply(s, e), n)
  {}

  lemma StepKeepsBoxExact(s: State, e: Event)
    requires Mailbox.Exact(s.box) && Enabled(s, e)
    ensures Mailbox.Exact(Apply(s, e).box)
  {
    match e
    case Trip(t) =>
      if Publishes(t) {
        Mailbox.StepKeepsExact(s.box, Mailbox.Copy(Last(RoundTrip.Apply(s.trip, t).acks)));
      }
    case Signal => Mailbox.StepKeepsExact(s.box, Mailbox.Signal);
    case Clear => Mailbox.StepKeepsExact(s.box, Mailbox.Clear);
    case Read => Mailbox.StepKeepsExact(s.box, Mailbox.Read);
    case ReadFails => Mailbox.StepKeepsExact(s.box, Mailbox.ReadFails);
  }

  /** The first lapse loses the newest attempt; until then none is lost. */
  lemma StepLosesOnlyByLapse(s: State, e: Event)
    requires Enabled(s, e) && !s.lapsed && NoneLost(s)
    requires s.box.reader == Mailbox.Cleared ==> s.box.history != []
    ensures if Apply(s, e).lapsed then Lost(Apply(s, e), |s.box.history|) else NoneLost(Apply(s, e))
  {}

  lemma StepStaysAccounted(s: State, e: Event)
    requires Accounted(s) && Enabled(s, e)
    ensures Accounted(Apply(s, e))
  {
    StepKeepsBoxExact(s, e);
    if s.lapsed {
      var n: nat :| Lost(s, n);
      StepStaysLost(s, e, n);
    } else {
      StepLosesOnlyByLapse(s, e);
    }
  }

  lemma {:induction false} RunStaysAccounted(es: seq<Event>, allowed: set<RoundTrip.Lapse>)
    requires Exec(es, allowed).Some?
    ensures Accounted(Exec(es, allowed).value)
    decreases |es|
  {
    if es != [] {
      RunStaysAccounted(es[..|es| - 1], allowed);
      StepStaysAccounted(Exec(es[..|es| - 1], allowed).value, Last(es));
    }
  }

  /** The eventfd is down, nobody holds the channel and main is not in its handler. */
  predicate Drained(s: State) {
    s.box.counter == 0 && !s.box.locked && s.box.reader == Mailbox.Waiting
  }

  /**
   When latest-wins is enough for acks. In every run, whatever the round trips do: once main has
   drained the channel, it has read every ack attempt, each once and in order, exactly when no
   attempt was published over an eventfd still up or a handler still under way, and no channel
   read failed. Otherwise some attempt has been overwritten or dropped, and stays unread.
   */
  lemma EveryAckIsReadIff(es: seq<Event>, allowed: set<RoundTrip.Lapse>)
    requires Exec(es, allowed).Some? && Drained(Exec(es, allowed).value)
    ensures var s := Exec(es, allowed).value;
      && (!s.lapsed <==> s.box.numbers == UpTo(|s.trip.acks|))
      && (!s.lapsed ==> s.box.values == s.trip.acks)
      && (s.lapsed ==> exists n: nat :: Lost(s, n))
  {
    RunStaysAccounted(es, allowed);
    var s := Exec(es, allowed).value;
    if s.lapsed {
      var n: nat :| Lost(s, n);
      assert UpTo(|s.trip.acks|)[n - 1] == n;
    }
  }

  /** The round trip inside a run is a run of its own. */
  lemma {:induction false} TripIsARun(es: seq<Event>, allowed: set<RoundTrip.Lapse>) returns (ts: seq<RoundTrip.Event>)
    requires Exec(es, allowed).Some?
    ensures RoundTrip.Exec(ts, allowed) == Some(Exec(es, allowed).value.trip)
    decreases |es|
  {
    ts := [];
    if es != [] {
      ts := TripIsARun(es[..|es| - 1], allowed);
      if Last(es).Trip? {
        var s := Exec(es[..|es| - 1], allowed).value.trip;
        ts := RoundTrip.Extend(ts, allowed, s, Last(es).e, RoundTrip.Apply(s, Last(es).e));
      }
    }
  }

  /**
   End to end: with none of the round trip's lapses and none of this channel's, what main reads
   between two commands is exactly one ack per finished command, under its sequence, in order.
   */
  lemma OneAckReachesMainPerCommand(es: seq<Event>)
    requires Exec(es, {}).Some?
    ensures var s := Exec(es, {}).value;
      Drained(s) && !s.lapsed && s.trip.tx.TxIdle? ==>
        RoundTrip.AckSequences(s.box.values) == RoundTrip.Sequences(s.trip.completed)
  {
    var ts := TripIsARun(es, {});
    RoundTrip.OneAckEachIffNoLapse({});
    assert RoundTrip.OneAckEach(RoundTrip.Exec(ts, {}).value);
    var s := Exec(es, {}).value;
    if Drained(s) {
      EveryAckIsReadIff(es, {});
    }
  }

  lemma Extend(es: seq<Event>, allowed: set<RoundTrip.Lapse>, s: State, e: Event, t: State) returns (es': seq<Event>)
    requires Exec(es, allowed) == Some(s) && Enabled(s, e) && Apply(s, e) == t
    requires e.Trip? ==> RoundTrip.Lapses(s.trip, e.e) <= allowed
    ensures Exec(es', allowed) == Some(t)
  {
    es' := es + [e];
    assert es'[..|es'| - 1] == es;
  }

  /** A send fails cleanly. */
  lemma SendFailsCleanly(before: seq<Event>, s: State) returns (es: seq<Event>, t: State)
    requires Exec(before, {}) == Some(s) && s.trip.tx.TxIdle? && s.trip.queue != [] && !s.box.locked
    ensures Exec(es, {}) == Some(t) && t.box == s.box
    ensures t.trip == s.trip.(queue := s.trip.queue[1..], tx := RoundTrip.TxGivingUp(s.trip.queue[0]), sem := false,
                              givesAtReset := s.trip.gives)
  {
    var cmd := s.trip.queue[0];
    var s1 := s.(trip := s.trip.(queue := s.trip.queue[1..], tx := RoundTrip.TxFetched(cmd)));
    var s2 := s1.(trip := s1.trip.(sem := false, givesAtReset := s.trip.gives, tx := RoundTrip.TxSending(cmd, false)));
    t := s2.(trip := s2.trip.(tx := RoundTrip.TxGivingUp(cmd)));
    es := Extend(before, {}, s, Trip(RoundTrip.Fetch), s1);
    es := Extend(es, {}, s1, Trip(RoundTrip.Reset), s2);
    es := Extend(es, {}, s2, Trip(RoundTrip.SendFail), t);
  }

  /** Its command is answered at once, with nobody draining the channel. */
  lemma AnsweredAtOnce(before: seq<Event>, s: State) returns (es: seq<Event>, t: State)
    requires Exec(before, {}) == Some(s)
    requires s.trip.tx.TxIdle? && s.trip.queue != [] && !s.box.locked && s.box.reader == Mailbox.Waiting
    ensures Exec(es, {}) == Some(t)
    ensures t.trip.tx.TxIdle? && t.trip.queue == s.trip.queue[1..]
    ensures t.trip.completed == s.trip.completed + [s.trip.queue[0]]
    ensures var ack := RoundTrip.Synthetic(s.trip.queue[0].sequence);
      && t.trip.acks == s.trip.acks + [ack]
      && t.box == s.box.(history := s.box.history + [ack], counter := s.box.counter + 1)
  {
    var s1, s2;
    es, s1 := SendFailsCleanly(before, s);
    s2 := Apply(s1, Trip(RoundTrip.Synthesize));
    t := Apply(s2, Signal);
    es := Extend(es, {}, s1, Trip(RoundTrip.Synthesize), s2);
    es := Extend(es, {}, s2, Signal, t);
  }

  lemma TwoAccepted(a: RoundTrip.Command, b: RoundTrip.Command) returns (es: seq<Event>, s: State)
    requires RoundTrip.Short(a) && RoundTrip.Short(b)
    ensures Exec(es, {}) == Some(s) && s == INIT.(trip := RoundTrip.INIT.(queue := [a, b], accepted := [a, b]))
  {
    var s1 := INIT.(trip := RoundTrip.INIT.(queue := [a], accepted := [a]));
    s := INIT.(trip := RoundTrip.INIT.(queue := [a, b], accepted := [a, b]));
    es := Extend([], {}, INIT, Trip(RoundTrip.Accept(a)), s1);
    es := Extend(es, {}, s1, Trip(RoundTrip.Accept(b)), s);
  }

  /**
   One round trip at a time does not keep acks apart: with no lapse of the round trip at all, two
   commands are answered before main drains the channel, and only the second ack is ever read.
   */
  lemma TwoAcksCollapse(a: RoundTrip.Command, b: RoundTrip.Command) returns (es: seq<Event>, s: State)
    requires RoundTrip.Short(a) && RoundTrip.Short(b)
    ensures Exec(es, {}) == Some(s) && Drained(s) && s.trip.completed == [a, b]
    ensures s.trip.acks == [RoundTrip.Synthetic(a.sequence), RoundTrip.Synthetic(b.sequence)]
    ensures s.box.values == [RoundTrip.Synthetic(b.sequence)] && Lost(s, 1)
  {
    var s2;
    es, s2 := TwoAccepted(a, b);
    es, s := AnsweredAtOnce(es, s2);
    es, s := AnsweredAtOnce(es, s);
    var s5 := Apply(s, Clear);
    es := Extend(es, {}, s, Clear, s5);
    s := Apply(s5, Read);
    es := Extend(es, {}, s5, Read, s);
  }
}
