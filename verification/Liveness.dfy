/**
 The liveness decision of gateway/src/relay.h and the receive loop of
 gateway/src/relay.cpp that feeds it: a heartbeat interrupt filling a four-deep queue,
 a thread draining it, and a clock.
 */
module Liveness {
  import opened Basics

  datatype PeerState = Unknown | Online | Offline

  const TIMEOUT_MS := 3500
  const PERIOD_MS := 1000
  const QUEUE_DEPTH := 4

  /** One step of the decision: the new state, the new time of last evidence, whether to publish. */
  function Judge(state: PeerState, lastSeen: int, frameSeen: bool, now: int, timeout: int): (PeerState, int, bool) {
    if frameSeen then (Online, now, state != Online)
    else if now - lastSeen >= timeout && state != Offline then (Offline, lastSeen, true)
    else (state, lastSeen, false)
  }

  /** struct liveness, and liveness_step updating it in place. */
  class PeerLiveness {
    var state: PeerState
    var lastSeen: int

    constructor (now: int)
      ensures state == Unknown && lastSeen == now
    {
      state := Unknown;
      lastSeen := now;
    }

    method Step(frameSeen: bool, now: int, timeout: int) returns (changed: bool)
      modifies this
      ensures (state, lastSeen, changed) == Judge(old(state), old(lastSeen), frameSeen, now, timeout)
      ensures changed <==> state != old(state)
      ensures state == Unknown ==> old(state) == Unknown && !frameSeen && now - lastSeen < timeout
      ensures frameSeen ==> state == Online && lastSeen == now
      ensures !frameSeen ==> lastSeen == old(lastSeen)
      ensures !frameSeen ==> (state == Offline <==> old(state) == Offline || now - lastSeen >= timeout)
    {
      if frameSeen {
        lastSeen := now;
        if state != Online {
          state := Online;
          return true;
        }
        return false;
      }
      if now - lastSeen >= timeout && state != Offline {
        state := Offline;
        return true;
      }
      return false;
    }
  }

  // ---- the receive loop, interleaved with the interrupt and the clock --------------

  /** liveness_step's two arguments are evaluated in an order the language leaves open. */
  datatype Order = DrainThenClock | ClockThenDrain

  /**
   What the environment promises: once a beat has arrived, dropped or not, the next one arrives
   within `gap` ms; at most `window` ms pass between reading the clock and finding the queue
   empty, whichever comes first; and the queue never holds more than `junk` frames that do not
   unpack.
   */
  datatype Env = Env(order: Order, gap: nat, window: nat, junk: nat)

  datatype Rx =
    | Elsewhere                              // in isotp_recv, handle_relayed or publish_status
    | Draining(clock: Option<int>, seen: bool)
    | Drained(emptyAt: int, seen: bool)      // DrainThenClock: queue found empty, clock not yet read

  datatype State = State(
    now: int,
    queue: seq<bool>,       // heartbeat_q: whether each frame unpacks
    lastBeat: Option<int>,  // arrival of the latest frame that unpacks, whatever became of it
    rx: Rx,
    state: PeerState,
    lastSeen: int,
    lastStep: int,          // clock value used by the latest liveness_step
    published: seq<bool>,   // publish_status(online) calls
    arrivals: seq<int>)     // history: every such arrival

  function Init(start: int): State {
    State(start, [], None, Elsewhere, Unknown, start, start, [], [])
  }

  datatype Event =
    | Tick(ms: nat)
    | Frame(valid: bool)    // heartbeat_isr
    | Begin                 // the RX thread starts evaluating the arguments
    | Get                   // k_msgq_get returned a frame
    | Empty                 // k_msgq_get found nothing
    | ReadClock             // DrainThenClock only: k_uptime_get after the drain

  /** How many frames in the queue do not unpack. */
  function Junk(q: seq<bool>): nat {
    if q == [] then 0 else (if q[0] then 0 else 1) + Junk(q[1..])
  }

  /** Time may not pass beyond what the environment promised. */
  predicate TimeMayReach(s: State, t: int, env: Env) {
    && (s.lastBeat.Some? ==> t <= s.lastBeat.value + env.gap)
    && (s.rx.Draining? && s.rx.clock.Some? ==> t <= s.rx.clock.value + env.window)
    && (s.rx.Drained? ==> t <= s.rx.emptyAt + env.window)
  }

  predicate Enabled(s: State, e: Event, env: Env) {
    match e
    case Tick(ms) => TimeMayReach(s, s.now + ms, env)
    case Frame(valid) => valid || |s.queue| >= QUEUE_DEPTH || Junk(s.queue) < env.junk
    case Begin => s.rx.Elsewhere?
    case Get => s.rx.Draining? && |s.queue| > 0
    case Empty => s.rx.Draining? && s.queue == []
    case ReadClock => s.rx.Drained?
  }

  /** The end of an iteration: liveness_step, and publish_status if it returned true. */
  function Decide(s: State, seen: bool, clock: int): State {
    var (state, lastSeen, changed) := Judge(s.state, s.lastSeen, seen, clock, TIMEOUT_MS);
    s.(rx := Elsewhere, state := state, lastSeen := lastSeen, lastStep := clock,
    published := if changed then s.published + [state == Online] else s.published)
  }

  /** A full queue drops the frame, whatever it is. */
  function Interrupt(s: State, valid: bool): State {
    s.(queue := if |s.queue| < QUEUE_DEPTH then s.queue + [valid] else s.queue,
    lastBeat := if valid then Some(s.now) else s.lastBeat,
    arrivals := if valid then s.arrivals + [s.now] else s.arrivals)
  }

  function Apply(s: State, e: Event, env: Env): State
    requires Enabled(s, e, env)
  {
    match e
    case Tick(ms) => s.(now := s.now + ms)
    case Frame(valid) => Interrupt(s, valid)
    case Begin => s.(rx := Draining(if env.order == ClockThenDrain then Some(s.now) else None, false))
    case Get => s.(queue := s.queue[1..], rx := Draining(s.rx.clock, s.rx.seen || s.queue[0]))
    case Empty =>
      if s.rx.clock.Some? then Decide(s, s.rx.seen, s.rx.clock.value) else s.(rx := Drained(s.now, s.rx.seen))
    case ReadClock => Decide(s, s.rx.seen, s.now)
  }

  function Exec(start: int, es: seq<Event>, env: Env): Option<State>
    decreases |es|
  {
    if es == [] then Some(Init(start))
    else
      match Exec(start, es[..|es| - 1], env)
      case None => None
      case Some(s) => if Enabled(s, Last(es), env) then Some(Apply(s, Last(es), env)) else None
  }

  // ---- what every run keeps, whatever the environment does --------------------------

  /** Published statuses alternate, agree with the state, and UNKNOWN is never re-entered. */
  ghost predicate StatusHistory(s: State) {
    && Alternates(s.published)
    && (s.state == Unknown <==> s.published == [])
    && (s.published != [] ==> Last(s.published) == (s.state == Online) && s.state != Unknown)
    && (s.state != Offline ==> s.lastStep - s.lastSeen < TIMEOUT_MS)
  }

  lemma StepKeepsStatusHistory(s: State, e: Event, env: Env)
    requires StatusHistory(s) && Enabled(s, e, env)
    ensures StatusHistory(Apply(s, e, env))
  {}

  lemma {:induction false} RunKeepsStatusHistory(start: int, es: seq<Event>, env: Env)
    requires Exec(start, es, env).Some?
    ensures StatusHistory(Exec(start, es, env).value)
    decreases |es|
  {
    if es != [] {
      RunKeepsStatusHistory(start, es[..|es| - 1], env);
      StepKeepsStatusHistory(Exec(start, es[..|es| - 1], env).value, Last(es), env);
    }
  }

  /**
   Silence is noticed promptly: a step that publishes OFFLINE uses a clock value at least
   3500 ms after the last evidence, and the step before it was less than 3500 ms after; a
   step that saw no beat 3500 ms or more after the last evidence always leaves OFFLINE.
   */
  lemma OfflineIsPrompt(start: int, es: seq<Event>, env: Env, e: Event)
    requires Exec(start, es, env).Some? && Enabled(Exec(start, es, env).value, e, env)
    requires !e.Tick? && !e.Frame? && !e.Begin? && !e.Get?
    ensures var s := Exec(start, es, env).value;
            var t := Apply(s, e, env);
            t.rx.Elsewhere? && !s.rx.seen ==>
            && t.lastSeen == s.lastSeen
            && (t.state == Offline <==> s.state == Offline || t.lastStep >= t.lastSeen + TIMEOUT_MS)
            && (t.state == Offline && s.state != Offline ==>
                s.lastStep < t.lastSeen + TIMEOUT_MS <= t.lastStep && t.published == s.published + [false])
  {
    RunKeepsStatusHistory(start, es, env);
  }

  // ---- which beats are seen ---------------------------------------------------------

  lemma {:induction false} JunkSnoc(q: seq<bool>, valid: bool)
    ensures Junk(q + [valid]) == Junk(q) + if valid then 0 else 1
    decreases |q|
  {
    if q != [] {
      assert (q + [valid])[1..] == q[1..] + [valid];
      JunkSnoc(q[1..], valid);
    }
  }

  lemma {:induction false} AllJunkIff(q: seq<bool>)
    ensures Junk(q) <= |q| && (Junk(q) == |q| <==> true !in q)
    decreases |q|
  {
    if q != [] {
      assert q == [q[0]] + q[1..];
      AllJunkIff(q[1..]);
    }
  }

  predicate QueueBounded(s: State, env: Env) {
    |s.queue| <= QUEUE_DEPTH && Junk(s.queue) <= env.junk
  }

  lemma StepKeepsQueueBounded(s: State, e: Event, env: Env)
    requires QueueBounded(s, env) && Enabled(s, e, env)
    ensures QueueBounded(Apply(s, e, env), env)
  {
    if e.Frame? {
      JunkSnoc(s.queue, e.valid);
    }
  }

  lemma {:induction false} RunKeepsQueueBounded(start: int, es: seq<Event>, env: Env)
    requires Exec(start, es, env).Some?
    ensures QueueBounded(Exec(start, es, env).value, env)
    decreases |es|
  {
    if es != [] {
      RunKeepsQueueBounded(start, es[..|es| - 1], env);
      StepKeepsQueueBounded(Exec(start, es[..|es| - 1], env).value, Last(es), env);
    }
  }

  /** A beat arriving now leaves something in the queue that the drain will take for one: itself or an earlier beat. */
  predicate Counts(s: State) {
    true in Interrupt(s, true).queue
  }

  /** In every reachable state, a beat is hidden exactly when the queue is full and nothing in it unpacks. */
  lemma BeatIsHiddenIff(start: int, es: seq<Event>, env: Env)
    requires Exec(start, es, env).Some?
    ensures var s := Exec(start, es, env).value;
      !Counts(s) <==> |s.queue| == QUEUE_DEPTH && Junk(s.queue) == QUEUE_DEPTH
  {
    RunKeepsQueueBounded(start, es, env);
    var s := Exec(start, es, env).value;
    AllJunkIff(s.queue);
    assert Last(s.queue + [true]);
  }

  /** Overflow never costs evidence exactly when fewer than four frames that do not unpack can be queued at once. */
  lemma EveryBeatCountsIff(start: int, env: Env)
    ensures (forall es | Exec(start, es, env).Some? :: Counts(Exec(start, es, env).value)) <==> env.junk < QUEUE_DEPTH
  {
    if env.junk < QUEUE_DEPTH {
      forall es | Exec(start, es, env).Some? ensures Counts(Exec(start, es, env).value) {
        RunKeepsQueueBounded(start, es, env);
        BeatIsHiddenIff(start, es, env);
      }
    } else {
      var es, s := JunkHidesBeat(start, [], env, Init(start));
      assert Exec(start, es, env) == Some(s) && !Counts(s);
    }
  }

  /** Four frames that do not unpack hide every beat from then on: it is dropped and leaves no trace in the queue. */
  lemma JunkHidesBeat(start: int, before: seq<Event>, env: Env, s: State) returns (es: seq<Event>, t: State)
    requires Exec(start, before, env) == Some(s) && s.queue == [] && env.junk >= QUEUE_DEPTH
    ensures Exec(start, es, env) == Some(t) && t == s.(queue := t.queue)
    ensures |t.queue| == QUEUE_DEPTH && true !in t.queue && Interrupt(t, true).queue == t.queue
  {
    es, t := before, s;
    while |t.queue| < QUEUE_DEPTH
      invariant Exec(start, es, env) == Some(t) && t == s.(queue := t.queue)
      invariant |t.queue| == Junk(t.queue) <= QUEUE_DEPTH && true !in t.queue
    {
      JunkSnoc(t.queue, false);
      var next := Interrupt(t, false);
      es := Extend(start, es, env, t, Frame(false), next);
      t := next;
    }
  }

  // ---- no false alarm --------------------------------------------------------------

  /** The evidence accounts for every beat, up to the clock-first slack. */
  ghost predicate Accounted(s: State, env: Env) {
    s.lastBeat.Some? ==>
      s.lastSeen >= s.lastBeat.value - if env.order == ClockThenDrain then env.window else 0
  }

  /** Why an online peer whose beats arrive in time stays online. */
  ghost predicate Vigilant(s: State, env: Env) {
    && (s.lastBeat.Some? ==> s.lastBeat.value <= s.now <= s.lastBeat.value + env.gap)
    && (s.state == Online || true in s.queue || (!s.rx.Elsewhere? && s.rx.seen) ==> s.lastBeat.Some?)
    && (s.state == Online ==> true in s.queue || (!s.rx.Elsewhere? && s.rx.seen) || Accounted(s, env))
    && (match s.rx
        case Elsewhere => true
        case Draining(clock, seen) =>
          && (clock.Some? <==> env.order == ClockThenDrain)
          && (clock.Some? ==> clock.value <= s.now <= clock.value + env.window)
          && (clock.Some? && s.lastBeat.Some? ==> clock.value <= s.lastBeat.value + env.gap)
        case Drained(emptyAt, seen) =>
          && env.order == DrainThenClock
          && emptyAt <= s.now <= emptyAt + env.window
          && (s.state == Online && !seen ==> emptyAt <= s.lastSeen + env.gap))
    // nothing but true ever follows a true
    && (forall i, j :: 0 <= i < j < |s.published| && s.published[i] ==> s.published[j])
  }

  lemma StepStaysVigilant(s: State, e: Event, env: Env)
    requires env.gap + env.window < TIMEOUT_MS && (e.Frame? && e.valid ==> Counts(s))
    requires StatusHistory(s) && Vigilant(s, env) && Enabled(s, e, env)
    ensures Vigilant(Apply(s, e, env), env)
  {
    if e.Get? {
      assert s.queue == [s.queue[0]] + s.queue[1..];
    }
  }

  lemma {:induction false} RunStaysVigilant(start: int, es: seq<Event>, env: Env)
    requires env.gap + env.window < TIMEOUT_MS && env.junk < QUEUE_DEPTH && Exec(start, es, env).Some?
    ensures Vigilant(Exec(start, es, env).value, env)
    decreases |es|
  {
    if es != [] {
      RunStaysVigilant(start, es[..|es| - 1], env);
      RunKeepsStatusHistory(start, es[..|es| - 1], env);
      EveryBeatCountsIff(start, env);
      StepStaysVigilant(Exec(start, es[..|es| - 1], env).value, Last(es), env);
    }
  }

  /** No run publishes OFFLINE after having published ONLINE. */
  ghost predicate NeverFalseAlarm(start: int, env: Env) {
    forall es | Exec(start, es, env).Some? ::
      var published := Exec(start, es, env).value.published;
      forall i, j :: 0 <= i < j < |published| && published[i] ==> published[j]
  }

  lemma NoFalseAlarmWithin(start: int, env: Env)
    requires env.gap + env.window < TIMEOUT_MS && env.junk < QUEUE_DEPTH
    ensures NeverFalseAlarm(start, env)
  {
    forall es | Exec(start, es, env).Some?
      ensures Vigilant(Exec(start, es, env).value, env)
    {
      RunStaysVigilant(start, es, env);
    }
  }

  /**
   The exact tolerance of the 3500 ms timeout. Whatever the thread does between iterations and
   whatever the queue drops, a peer that has been seen is never declared offline exactly when
   the longest gap between its beats and the longest gap between reading the clock and emptying
   the queue add up to less than the timeout, and the queue cannot fill up with frames that do
   not unpack. Both orders agree.
   */
  lemma NeverFalseAlarmIff(start: int, env: Env)
    requires env.gap >= 1
    ensures NeverFalseAlarm(start, env) <==> env.gap + env.window < TIMEOUT_MS && env.junk < QUEUE_DEPTH
  {
    if env.gap + env.window < TIMEOUT_MS && env.junk < QUEUE_DEPTH {
      NoFalseAlarmWithin(start, env);
    } else {
      var es, origin := FalseAlarm(start, env);
      var published := Exec(start, es, env).value.published;
      assert 0 < 1 < |published| && published[0] && !published[1];
    }
  }

  predicate IsSlot(t: int, origin: int) {
    (t - origin) % PERIOD_MS == 0
  }

  /** Every beat so far arrived in a slot of the exact 1000 ms grid through origin. */
  predicate OnGrid(s: State, origin: int) {
    forall k :: 0 <= k < |s.arrivals| ==> IsSlot(s.arrivals[k], origin)
  }

  /** No run on the grid publishes OFFLINE after having published ONLINE. */
  ghost predicate NeverFalseAlarmOnGrid(start: int, env: Env) {
    forall es, origin | Exec(start, es, env).Some? && OnGrid(Exec(start, es, env).value, origin) ::
      var published := Exec(start, es, env).value.published;
      forall i, j :: 0 <= i < j < |published| && published[i] ==> published[j]
  }

  /**
   Losing k beats in a row leaves 1000 * (k + 1) ms between two slots of the grid. That is
   tolerated exactly when it and the window stay below the timeout together, for k <= 2 and no
   more as long as draining and reading the clock take less than half a second, provided the
   queue cannot fill up with frames that do not unpack.
   */
  lemma TwoLostBeatsAreTolerated(start: int, order: Order, lost: nat, window: nat, junk: nat)
    ensures var (env, gap) := (Env(order, PERIOD_MS * (lost + 1), window, junk), PERIOD_MS * (lost + 1));
      && (NeverFalseAlarmOnGrid(start, env) <==> gap + window < TIMEOUT_MS && junk < QUEUE_DEPTH)
      && (window < 500 ==> (NeverFalseAlarmOnGrid(start, env) <==> lost <= 2 && junk < QUEUE_DEPTH))
  {
    var env := Env(order, PERIOD_MS * (lost + 1), window, junk);
    if env.gap + env.window < TIMEOUT_MS && junk < QUEUE_DEPTH {
      NoFalseAlarmWithin(start, env);
    } else {
      var es, origin := FalseAlarm(start, env);
      var published := Exec(start, es, env).value.published;
      assert 0 < 1 < |published| && published[0] && !published[1];
    }
  }

  /** Extends a run by one action, to the state the caller names. */
  lemma Extend(start: int, es: seq<Event>, env: Env, s: State, e: Event, t: State) returns (es': seq<Event>)
    requires Exec(start, es, env) == Some(s) && Enabled(s, e, env) && Apply(s, e, env) == t
    ensures Exec(start, es', env) == Some(t)
  {
    es' := es + [e];
    assert es'[..|es'| - 1] == es;
  }

  /** A beat that is due arrives while the thread is held up, and some time passes. */
  lemma BeatAndWait(start: int, es: seq<Event>, env: Env, s: State, ms: nat) returns (es': seq<Event>, s': State)
    requires Exec(start, es, env) == Some(s) && ms <= env.gap
    requires s.rx.Drained? && s.now + ms <= s.rx.emptyAt + env.window
    requires s.queue == [] || true in s.queue
    ensures Exec(start, es', env) == Some(s')
    ensures s'.now == s.now + ms && s'.lastBeat == Some(s.now) && s'.arrivals == s.arrivals + [s.now]
    ensures true in s'.queue
    ensures s'.rx == s.rx && s'.state == s.state && s'.lastSeen == s.lastSeen && s'.published == s.published
  {
    var beaten := Interrupt(s, true);
    s' := beaten.(now := s.now + ms);
    es' := Extend(start, es, env, s, Frame(true), beaten);
    es' := Extend(start, es', env, beaten, Tick(ms), s');
  }

  /** Beats keep arriving, one every `gap` ms, while the thread is held up between the drain and the clock. */
  lemma {:induction false} HeldUp(start: int, origin: int, es: seq<Event>, env: Env, s: State, ms: nat)
    returns (es': seq<Event>, s': State)
    requires Exec(start, es, env) == Some(s) && env.gap >= 1
    requires s.lastBeat.Some? && s.now == s.lastBeat.value + env.gap
    requires s.rx.Drained? && s.now + ms <= s.rx.emptyAt + env.window
    requires s.queue == [] || true in s.queue
    ensures Exec(start, es', env) == Some(s')
    ensures s'.now == s.now + ms && s'.rx == s.rx
    ensures s'.state == s.state && s'.lastSeen == s.lastSeen && s'.published == s.published
    ensures OnGrid(s, origin) && IsSlot(s.now, origin) && env.gap % PERIOD_MS == 0 ==> OnGrid(s', origin)
    decreases ms
  {
    es', s' := BeatAndWait(start, es, env, s, Min(env.gap, ms));
    SlotsRepeat(s.now, env.gap, origin);
    if ms > env.gap {
      es', s' := HeldUp(start, origin, es', env, s', ms - env.gap);
    }
  }

  lemma SlotsRepeat(t: int, gap: nat, origin: int)
    ensures gap % PERIOD_MS == 0 && IsSlot(t, origin) ==> IsSlot(t + gap, origin)
  {}

  /** A beat at boot, seen at once. */
  lemma FirstBeat(start: int, env: Env) returns (es: seq<Event>, s: State)
    ensures Exec(start, es, env) == Some(s)
    ensures s == State(start, [], Some(start), Elsewhere, Online, start, start, [true], [start])
  {
    var clock := if env.order == ClockThenDrain then Some(start) else None;
    var s0 := Init(start);
    var s1 := s0.(queue := [true], lastBeat := Some(start), arrivals := [start]);
    var s2 := s1.(rx := Draining(clock, false));
    var s3 := s2.(queue := [], rx := Draining(clock, true));
    s := s3.(rx := Elsewhere, state := Online, published := [true]);
    es := Extend(start, [], env, s0, Frame(true), s1);
    es := Extend(start, es, env, s1, Begin, s2);
    es := Extend(start, es, env, s2, Get, s3);
    if clock.Some? {
      es := Extend(start, es, env, s3, Empty, s);
    } else {
      var s4 := s3.(rx := Drained(start, true));
      es := Extend(start, es, env, s3, Empty, s4);
      es := Extend(start, es, env, s4, ReadClock, s);
    }
  }

  /** The queue is found empty just before the next beat. */
  lemma EmptyJustBeforeBeat(start: int, env: Env) returns (es: seq<Event>, s: State)
    requires env.order == DrainThenClock
    ensures Exec(start, es, env) == Some(s)
    ensures s.now == start + env.gap && s.rx == Drained(s.now, false) && s.queue == [] && s.lastBeat == Some(start)
    ensures s.state == Online && s.lastSeen == start && s.published == [true] && s.arrivals == [start]
  {
    var s0;
    es, s0 := FirstBeat(start, env);
    var s1 := s0.(now := start + env.gap);
    var s2 := s1.(rx := Draining(None, false));
    s := s1.(rx := Drained(s1.now, false));
    es := Extend(start, es, env, s0, Tick(env.gap), s1);
    es := Extend(start, es, env, s1, Begin, s2);
    es := Extend(start, es, env, s2, Empty, s);
  }

  /** Drain first: the clock is then read too late. */
  lemma LateClockFalseAlarm(start: int, env: Env) returns (es: seq<Event>, s: State)
    requires env.order == DrainThenClock && env.gap >= 1 && env.gap + env.window >= TIMEOUT_MS
    ensures Exec(start, es, env) == Some(s) && s.published == [true, false]
    ensures env.gap % PERIOD_MS == 0 ==> OnGrid(s, start)
  {
    es, s := EmptyJustBeforeBeat(start, env);
    SlotsRepeat(start, env.gap, start);
    es, s := HeldUp(start, start, es, env, s, env.window);
    assert s.published + [false] == [true, false];
    es, s := AlarmRaised(start, es, env, s);
  }

  /** An empty drain and a clock value past the timeout. */
  lemma AlarmRaised(start: int, before: seq<Event>, env: Env, s: State) returns (es: seq<Event>, t: State)
    requires Exec(start, before, env) == Some(s) && s.rx.Drained? && !s.rx.seen
    requires s.state == Online && s.now - s.lastSeen >= TIMEOUT_MS
    ensures Exec(start, es, env) == Some(t) && t.published == s.published + [false] && t.arrivals == s.arrivals
  {
    t := Apply(s, ReadClock, env);
    es := Extend(start, before, env, s, ReadClock, t);
  }

  /** Clock first: a beat arrives well after the clock was read. */
  lemma ArrivesInWindow(start: int, env: Env) returns (es: seq<Event>)
    requires env.order == ClockThenDrain
    ensures var beat := start + env.window;
      Exec(start, es, env) ==
        Some(State(beat, [true], Some(beat), Draining(Some(start), false), Unknown, start, start, [], [beat]))
  {
    var beat := start + env.window;
    var s0 := Init(start);
    var s1 := State(start, [], None, Draining(Some(start), false), Unknown, start, start, [], []);
    var s2 := State(beat, [], None, Draining(Some(start), false), Unknown, start, start, [], []);
    var s3 := State(beat, [true], Some(beat), Draining(Some(start), false), Unknown, start, start, [], [beat]);
    es := Extend(start, [], env, s0, Begin, s1);
    es := Extend(start, es, env, s1, Tick(env.window), s2);
    es := Extend(start, es, env, s2, Frame(true), s3);
  }

  /** It is credited with that clock value. */
  lemma CreditedEarly(start: int, env: Env) returns (es: seq<Event>)
    requires env.order == ClockThenDrain
    ensures var beat := start + env.window;
      Exec(start, es, env) == Some(State(beat, [], Some(beat), Elsewhere, Online, start, start, [true], [beat]))
  {
    var beat := start + env.window;
    var s3 := State(beat, [true], Some(beat), Draining(Some(start), false), Unknown, start, start, [], [beat]);
    var s4 := State(beat, [], Some(beat), Draining(Some(start), true), Unknown, start, start, [], [beat]);
    var s5 := State(beat, [], Some(beat), Elsewhere, Online, start, start, [true], [beat]);
    es := ArrivesInWindow(start, env);
    es := Extend(start, es, env, s3, Get, s4);
    es := Extend(start, es, env, s4, Empty, s5);
  }

  /** The next drain begins just before the next beat. */
  lemma DrainsJustBeforeBeat(start: int, env: Env) returns (es: seq<Event>)
    requires env.order == ClockThenDrain
    ensures var (beat, late) := (start + env.window, start + env.window + env.gap);
      Exec(start, es, env) ==
        Some(State(late, [], Some(beat), Draining(Some(late), false), Online, start, start, [true], [beat]))
  {
    var (beat, late) := (start + env.window, start + env.window + env.gap);
    var s5 := State(beat, [], Some(beat), Elsewhere, Online, start, start, [true], [beat]);
    var s6 := State(late, [], Some(beat), Elsewhere, Online, start, start, [true], [beat]);
    var s7 := State(late, [], Some(beat), Draining(Some(late), false), Online, start, start, [true], [beat]);
    es := CreditedEarly(start, env);
    es := Extend(start, es, env, s5, Tick(env.gap), s6);
    es := Extend(start, es, env, s6, Begin, s7);
  }

  lemma EarlyClockFalseAlarm(start: int, env: Env) returns (es: seq<Event>, s: State)
    requires env.order == ClockThenDrain && env.gap + env.window >= TIMEOUT_MS
    ensures Exec(start, es, env) == Some(s) && s.published == [true, false]
    ensures OnGrid(s, start + env.window)
  {
    var (beat, late) := (start + env.window, start + env.window + env.gap);
    var s7 := State(late, [], Some(beat), Draining(Some(late), false), Online, start, start, [true], [beat]);
    s := State(late, [], Some(beat), Elsewhere, Offline, start, late, [true, false], [beat]);
    es := DrainsJustBeforeBeat(start, env);
    es := Extend(start, es, env, s7, Empty, s);
  }

  /** Beats keep arriving, one every `gap` ms, and a queue full of junk hides them all. */
  lemma {:induction false} BeatsHidden(start: int, origin: int, es: seq<Event>, env: Env, s: State, ms: nat)
    returns (es': seq<Event>, s': State)
    requires Exec(start, es, env) == Some(s) && env.gap >= 1
    requires s.rx.Elsewhere? && s.lastBeat == Some(s.now) && |s.queue| == QUEUE_DEPTH
    ensures Exec(start, es', env) == Some(s')
    ensures s' == s.(now := s.now + ms, lastBeat := s'.lastBeat, arrivals := s'.arrivals)
    ensures OnGrid(s, origin) && IsSlot(s.now, origin) && env.gap % PERIOD_MS == 0 ==> OnGrid(s', origin)
    decreases ms
  {
    s' := s.(now := s.now + Min(env.gap, ms));
    es' := Extend(start, es, env, s, Tick(Min(env.gap, ms)), s');
    if ms > env.gap {
      SlotsRepeat(s.now, env.gap, origin);
      var hidden := s'.(lastBeat := Some(s'.now), arrivals := s'.arrivals + [s'.now]);
      es' := Extend(start, es', env, s', Frame(true), hidden);
      es', s' := BeatsHidden(start, origin, es', env, hidden, ms - env.gap);
    }
  }

  /** A drain that finds nothing but junk. */
  lemma {:induction false} DrainsJunk(start: int, before: seq<Event>, env: Env, s: State)
    returns (es: seq<Event>, t: State)
    requires Exec(start, before, env) == Some(s) && s.rx.Draining? && !s.rx.seen && true !in s.queue
    ensures Exec(start, es, env) == Some(t) && t == s.(queue := [])
    decreases |s.queue|
  {
    es, t := before, s;
    if s.queue != [] {
      assert s.queue[0] in s.queue;
      t := s.(queue := s.queue[1..]);
      es := Extend(start, es, env, s, Get, t);
      es, t := DrainsJunk(start, es, env, t);
    }
  }

  /** An iteration that sees nothing although its clock value is past the timeout. */
  lemma SeesOnlyJunk(start: int, before: seq<Event>, env: Env, s: State) returns (es: seq<Event>, t: State)
    requires Exec(start, before, env) == Some(s) && s.rx.Elsewhere? && true !in s.queue
    requires s.state == Online && s.now - s.lastSeen >= TIMEOUT_MS
    ensures Exec(start, es, env) == Some(t) && t.published == s.published + [false] && t.arrivals == s.arrivals
  {
    t := s.(rx := Draining(if env.order == ClockThenDrain then Some(s.now) else None, false));
    es := Extend(start, before, env, s, Begin, t);
    es, t := DrainsJunk(start, es, env, t);
    if env.order == ClockThenDrain {
      var alarm := Decide(t, false, s.now);
      es := Extend(start, es, env, t, Empty, alarm);
      t := alarm;
    } else {
      var drained := t.(rx := Drained(s.now, false));
      es := Extend(start, es, env, t, Empty, drained);
      es, t := AlarmRaised(start, es, env, drained);
    }
  }

  /** With room for four frames of junk no gap is short enough: the peer beats on time and is declared offline. */
  lemma JunkFalseAlarm(start: int, env: Env) returns (es: seq<Event>, s: State)
    requires env.gap >= 1 && env.junk >= QUEUE_DEPTH
    ensures Exec(start, es, env) == Some(s) && s.published == [true, false]
    ensures env.gap % PERIOD_MS == 0 ==> OnGrid(s, start)
  {
    es, s := FirstBeat(start, env);
    es, s := JunkHidesBeat(start, es, env, s);
    es, s := BeatsHidden(start, start, es, env, s, TIMEOUT_MS);
    es, s := SeesOnlyJunk(start, es, env, s);
  }

  /** In either order, and on the grid whenever the gap fits it. */
  lemma FalseAlarm(start: int, env: Env) returns (es: seq<Event>, origin: int)
    requires env.gap >= 1 && (env.gap + env.window >= TIMEOUT_MS || env.junk >= QUEUE_DEPTH)
    ensures Exec(start, es, env).Some? && Exec(start, es, env).value.published == [true, false]
    ensures env.gap % PERIOD_MS == 0 ==> OnGrid(Exec(start, es, env).value, origin)
  {
    var s;
    origin := start;
    if env.junk >= QUEUE_DEPTH {
      es, s := JunkFalseAlarm(start, env);
    } else if env.order == DrainThenClock {
      es, s := LateClockFalseAlarm(start, env);
    } else {
      es, s := EarlyClockFalseAlarm(start, env);
      origin := start + env.window;
    }
  }
}
