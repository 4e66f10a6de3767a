/**
 The peer's main loop (peer-node/src/main.cpp): its heartbeat schedule, its opinion of the
 link, and the beats it has in flight.
 */
module PeerLink {
  import opened Basics
  import Liveness

  const PERIOD_MS := 1000
  const BACKOFF_MIN_MS := 2000
  const BACKOFF_MAX_MS := 30000

  /** The delay after k noted failures in a row. */
  function Backoff(k: nat): int {
    if k == 0 then 0 else Min(BACKOFF_MIN_MS * Pow2(k - 1), BACKOFF_MAX_MS)
  }

  /** link_up, tx_backoff_ms and tx_retry_at. */
  class Link {
    var up: bool
    var backoff: int
    var retryAt: int
    ghost var failures: nat      // noted in a row
    ghost var failedAt: int      // clock of the latest

    ghost predicate Valid()
      reads this
    {
      && (up <==> backoff == 0)
      && backoff == Backoff(failures)
      && (failures > 0 ==> retryAt == failedAt + backoff)
    }

    constructor ()
      ensures Valid() && failures == 0
    {
      up, backoff, retryAt, failures, failedAt := true, 0, 0, 0, 0;
    }

    /** note_link. */
    method Note(ok: bool, clock: int)
      requires Valid()
      modifies this
      ensures Valid()
      ensures failures == if ok then 0 else old(failures) + 1
      ensures !ok ==> failedAt == clock
    {
      if ok {
        up := true;
        backoff := 0;
        failures := 0;
        return;
      }
      up := false;
      assert Pow2(failures) == if failures == 0 then 1 else 2 * Pow2(failures - 1);
      backoff := if backoff == 0 then BACKOFF_MIN_MS else Min(backoff * 2, BACKOFF_MAX_MS);
      retryAt := clock + backoff;
      failures, failedAt := failures + 1, clock;
    }

    /**
     Whether a waiting reading is sent. Only after a noted success, or once the whole current
     backoff has passed since the latest failure, whichever sender noted it.
     */
    method MaySendTelemetry(transmittable: bool, clock: int) returns (yes: bool)
      requires Valid()
      ensures yes <==> transmittable && (failures == 0 || clock - failedAt >= Backoff(failures))
      ensures failures > 0 && clock - failedAt < BACKOFF_MIN_MS ==> !yes
    {
      yes := transmittable && (up || clock >= retryAt);
      assert Pow2(if failures == 0 then 0 else failures - 1) >= 1;
    }
  }

  // ---- the schedule ----------------------------------------------------------------------

  /** The loop's schedule after some clock readings: each either uses a slot or leads to a wait. */
  datatype Loop = Loop(nextBeat: int, read: int, waited: nat, beats: seq<int>)

  function AfterReading(l: Loop, clock: int): Loop {
    if l.nextBeat <= clock then Loop(l.nextBeat + PERIOD_MS, clock, 0, l.beats + [clock])
    else Loop(l.nextBeat, clock, l.nextBeat - clock, l.beats)
  }

  /** The loop comes back from its wait, or from its work, at most `stall` late. */
  predicate OnTime(l: Loop, clock: int, stall: nat) {
    l.read <= clock <= l.read + l.waited + stall
  }

  /** The loop after a list of readings, all on time. */
  function LoopAfter(start: int, stall: nat, readings: seq<int>): Option<Loop>
    decreases |readings|
  {
    if readings == [] then Some(Loop(start, start, 0, []))
    else
      match LoopAfter(start, stall, readings[..|readings| - 1])
      case None => None
      case Some(l) => if OnTime(l, Last(readings), stall) then Some(AfterReading(l, Last(readings))) else None
  }

  /** Slots stay on the grid, and the beats in them are at most a period and a stall apart. */
  predicate Punctual(l: Loop, start: int, stall: nat) {
    && l.nextBeat == start + PERIOD_MS * |l.beats|
    && start <= l.read && l.nextBeat <= l.read + PERIOD_MS
    && (l.beats == [] ==> l.read == start && l.waited == 0)
    && (l.beats != [] ==> l.nextBeat - PERIOD_MS <= Last(l.beats) && l.read + l.waited <= Last(l.beats) + PERIOD_MS)
    && (forall k :: 0 < k < |l.beats| ==> 0 <= l.beats[k] - l.beats[k - 1] <= PERIOD_MS + stall)
    && (l.beats != [] ==> Last(l.beats) <= l.read)
  }

  lemma ReadingKeepsPunctual(l: Loop, start: int, stall: nat, clock: int)
    requires Punctual(l, start, stall) && OnTime(l, clock, stall)
    ensures Punctual(AfterReading(l, clock), start, stall)
  {}

  lemma {:induction false} LoopIsPunctual(start: int, stall: nat, readings: seq<int>)
    requires LoopAfter(start, stall, readings).Some?
    ensures Punctual(LoopAfter(start, stall, readings).value, start, stall)
    decreases |readings|
  {
    if readings != [] {
      var before := readings[..|readings| - 1];
      LoopIsPunctual(start, stall, before);
      ReadingKeepsPunctual(LoopAfter(start, stall, before).value, start, stall, Last(readings));
    }
  }

  /** next_beat, with the clock readings the loop has made so far. */
  class Schedule {
    var nextBeat: int
    ghost const start: int
    ghost const stall: nat     // the longest the loop is ever away from where it meant to be
    ghost var read: int        // latest clock reading
    ghost var waited: nat      // the wait that reading led to
    ghost var beats: seq<int>  // readings at which a slot was used

    ghost function Value(): Loop
      reads this
    {
      Loop(nextBeat, read, waited, beats)
    }

    ghost predicate Valid()
      reads this
    {
      Punctual(Value(), start, stall)
    }

    constructor (now: int, ghost stall: nat)
      ensures Valid() && start == now && this.stall == stall && Value() == Loop(now, now, 0, [])
    {
      nextBeat := now;
      start, this.stall, read, waited, beats := now, stall, now, 0, [];
    }

    /**
     One turn of the loop at a clock reading: either a beat slot is due and used, or the
     remaining wait is returned. Slots never drift from the grid, the wait is in (0, 1000],
     and the slots used are exactly those whose time has come.
     */
    method Turn(clock: int) returns (beat: bool, wait: nat)
      requires Valid() && OnTime(Value(), clock, stall)
      modifies this
      ensures Valid() && Value() == AfterReading(old(Value()), clock)
      ensures nextBeat == start + PERIOD_MS * |beats| && waited == wait
      ensures beat <==> old(nextBeat) <= clock
      ensures beat ==> beats == old(beats) + [clock] && wait == 0
      ensures beat && old(beats) != [] ==> clock - Last(old(beats)) <= PERIOD_MS + stall
      ensures !beat ==> beats == old(beats) && 0 < wait <= PERIOD_MS && clock + wait == nextBeat
      ensures !beat ==> |beats| == (clock - start) / PERIOD_MS + 1
    {
      ReadingKeepsPunctual(Value(), start, stall, clock);
      var until := nextBeat - clock;
      read := clock;
      if until <= 0 {
        nextBeat := nextBeat + PERIOD_MS;
        waited, beats := 0, beats + [clock];
        return true, 0;
      }
      waited := until;
      return false, until;
    }

    /**
     Catching up after a stall, one slot per turn, each beat costing what it costs: the loop
     comes to wait again exactly when, after some number of beats, their cost has fallen behind
     a period each by more than it was late; and then every slot whose time has come is used.
     */
    method CatchUp(clock: int, costs: seq<nat>) returns (waiting: bool, end: int, used: nat, wait: nat)
      requires Valid() && OnTime(Value(), clock, stall) && forall c :: c in costs ==> c <= stall
      modifies this
      ensures Valid() && end == read && |beats| == |old(beats)| + used
      ensures waiting <==> exists k :: 0 <= k <= |costs| && CaughtUp(old(nextBeat), clock, costs, k)
      ensures waiting ==> 0 < wait <= PERIOD_MS && |beats| == (end - start) / PERIOD_MS + 1
      ensures waiting ==> used <= |costs| && CaughtUp(old(nextBeat), clock, costs, used)
    {
      var beat;
      end, used := clock, 0;
      beat, wait := Turn(end);
      while beat && used < |costs|
        invariant 0 <= used <= |costs| && Valid() && read == end && waited == wait && (beat ==> wait == 0)
        invariant end == clock + Sum(costs[..used])
        invariant |beats| == |old(beats)| + used + if beat then 1 else 0
        invariant beat <==> !CaughtUp(old(nextBeat), clock, costs, used)
        invariant !beat ==> 0 < wait <= PERIOD_MS && end + wait == nextBeat
        invariant forall k :: 0 <= k < used ==> !CaughtUp(old(nextBeat), clock, costs, k)
      {
        assert costs[used] in costs;
        SumSnoc(costs, used);
        end := end + costs[used];
        used := used + 1;
        beat, wait := Turn(end);
      }
      waiting := !beat;
      if waiting {
        SlotsUsedAtWait(start, end, wait, |beats|);
      }
      used := if beat then used + 1 else used;
    }
  }

  lemma SlotsUsedAtWait(start: int, end: int, wait: nat, slots: nat)
    requires end + wait == start + PERIOD_MS * slots && 0 < wait <= PERIOD_MS
    ensures slots == (end - start) / PERIOD_MS + 1
  {}

  function Sum(ns: seq<nat>): nat
    decreases |ns|
  {
    if ns == [] then 0 else Sum(ns[..|ns| - 1]) + Last(ns)
  }

  lemma SumSnoc(ns: seq<nat>, k: nat)
    requires k < |ns|
    ensures Sum(ns[..k + 1]) == Sum(ns[..k]) + ns[k]
  {
    assert ns[..k + 1][..k] == ns[..k];
  }

  /** After k beats costing this much, the slot after them is not due yet. */
  predicate CaughtUp(nextBeat: int, clock: int, costs: seq<nat>, k: nat)
    requires k <= |costs|
  {
    clock + Sum(costs[..k]) < nextBeat + PERIOD_MS * k
  }

  /** Some loop that is never more than `stall` late sends two successive beats this far apart. */
  ghost predicate BeatsApart(start: int, stall: nat, gap: nat) {
    exists readings, k |
      LoopAfter(start, stall, readings).Some? && 0 < k < |LoopAfter(start, stall, readings).value.beats| ::
      Distance(LoopAfter(start, stall, readings).value.beats, k) == gap
  }

  function Distance(beats: seq<int>, k: nat): int
    requires 0 < k < |beats|
  {
    beats[k] - beats[k - 1]
  }

  lemma OneMore(start: int, stall: nat, readings: seq<int>, l: Loop, clock: int) returns (more: seq<int>)
    requires LoopAfter(start, stall, readings) == Some(l) && OnTime(l, clock, stall)
    ensures LoopAfter(start, stall, more) == Some(AfterReading(l, clock))
  {
    more := readings + [clock];
    assert more[..|more| - 1] == readings;
  }

  /** The worst case: a beat on its slot, and the next one a stall late. */
  lemma StallDelaysBeat(start: int, stall: nat)
    ensures BeatsApart(start, stall, PERIOD_MS + stall)
  {
    var l1 := Loop(start + PERIOD_MS, start, 0, [start]);
    var l2 := Loop(start + PERIOD_MS, start, PERIOD_MS, [start]);
    var l0 := Loop(start, start, 0, []);
    assert AfterReading(l0, start).beats == [start];
    var readings := OneMore(start, stall, [], l0, start);
    readings := OneMore(start, stall, readings, l1, start);
    readings := OneMore(start, stall, readings, l2, start + PERIOD_MS + stall);
    var beats := LoopAfter(start, stall, readings).value.beats;
    assert beats == [start, start + PERIOD_MS + stall];
    assert Distance(beats, 1) == PERIOD_MS + stall;
  }

  /**
   The peer's loop and the gateway's decision together: with no beat lost on the way, a peer
   whose loop is never more than `stall` late is never falsely declared offline, whatever gaps
   that leaves between its beats, exactly when the stall and the gateway's reading window
   together stay below 2500 ms and the queue cannot fill up with frames that do not unpack.
   */
  lemma StallTolerance(start: int, order: Liveness.Order, stall: nat, window: nat, junk: nat)
    ensures (forall gap: nat | BeatsApart(start, stall, gap) ::
               Liveness.NeverFalseAlarm(start, Liveness.Env(order, gap, window, junk))) <==>
            stall + window < 2500 && junk < Liveness.QUEUE_DEPTH
  {
    if stall + window < 2500 && junk < Liveness.QUEUE_DEPTH {
      forall gap: nat | BeatsApart(start, stall, gap)
        ensures Liveness.NeverFalseAlarm(start, Liveness.Env(order, gap, window, junk))
      {
        var readings, k :|
          LoopAfter(start, stall, readings).Some? && 0 < k < |LoopAfter(start, stall, readings).value.beats| &&
          Distance(LoopAfter(start, stall, readings).value.beats, k) == gap;
        LoopIsPunctual(start, stall, readings);
        Liveness.NoFalseAlarmWithin(start, Liveness.Env(order, gap, window, junk));
      }
    } else {
      StallDelaysBeat(start, stall);
      Liveness.NeverFalseAlarmIff(start, Liveness.Env(order, PERIOD_MS + stall, window, junk));
    }
  }
}

/** The count of unfinished heartbeats, shared between send_heartbeat and the CAN interrupt. */
module BeatsInFlight {
  import opened Basics

  const MAILBOXES := 3

  datatype Main =
    | Resting
    | Queued               // can_send returned 0, beats_in_flight not yet incremented
    | Counted(rc: int)     // about to load last_beat_error
    | Loaded(err: int)     // about to load beats_in_flight
    | Judged(up: bool)     // about to call note_link

  datatype State = State(
    main: Main,
    counter: int,          // beats_in_flight
    lastError: int,        // last_beat_error
    accepted: nat,         // frames can_send took
    completed: nat,        // frames heartbeat_sent was called for
    // history
    sent: int,             // what the latest can_send returned
    errors: seq<int>,      // what each completed frame reported
    errorsSeen: nat,       // how many of those when last_beat_error was last loaded
    unfinished: int)       // frames accepted and not completed when beats_in_flight was last loaded

  const INIT := State(Resting, 0, 0, 0, 0, 0, [], 0, 0)

  datatype Event =
    | Send(rc: int)        // can_send; only a full set of mailboxes or the controller refuses
    | Increment            // atomic_inc
    | LoadError            // atomic_get(&last_beat_error)
    | LoadCount            // atomic_get(&beats_in_flight), or skipped after an error
    | Report               // note_link
    | Complete(error: int) // interrupt: heartbeat_sent

  predicate Enabled(s: State, e: Event) {
    match e
    case Send(rc) => s.main == Resting && (rc == 0 ==> s.accepted - s.completed < MAILBOXES)
    case Increment => s.main == Queued
    case LoadError => s.main.Counted?
    case LoadCount => s.main.Loaded?
    case Report => s.main.Judged?
    case Complete(_) => s.completed < s.accepted
  }

  function Apply(s: State, e: Event): State
    requires Enabled(s, e)
  {
    match e
    case Send(rc) =>
      if rc == 0 then s.(main := Queued, accepted := s.accepted + 1, sent := rc)
      else s.(main := Counted(rc), sent := rc)
    case Increment => s.(main := Counted(0), counter := s.counter + 1)
    case LoadError =>
      s.(main := Loaded(if s.main.rc != 0 then s.main.rc else s.lastError), errorsSeen := |s.errors|)
    case LoadCount =>
      s.(main := Judged(s.main.err == 0 && s.counter <= 1), unfinished := s.accepted - s.completed)
    case Report => s.(main := Resting)
    case Complete(error) =>
      s.(lastError := error, counter := s.counter - 1, completed := s.completed + 1, errors := s.errors + [error])
  }

  function Exec(es: seq<Event>): Option<State>
    decreases |es|
  {
    if es == [] then Some(INIT)
    else
      match Exec(es[..|es| - 1])
      case None => None
      case Some(s) => if Enabled(s, Last(es)) then Some(Apply(s, Last(es))) else None
  }

  ghost predicate Exact(s: State) {
    && s.counter == s.accepted - s.completed - (if s.main == Queued then 1 else 0)
    && 0 <= s.accepted - s.completed <= MAILBOXES
    && (s.main == Judged(true) ==> s.accepted - s.completed <= 1)
  }

  lemma {:induction false} RunIsExact(es: seq<Event>)
    requires Exec(es).Some?
    ensures Exact(Exec(es).value)
    decreases |es|
  {
    if es != [] {
      RunIsExact(es[..|es| - 1]);
    }
  }

  /** What the frame completed last had reported after the first n completions; 0 before any. */
  function Reported(errors: seq<int>, n: nat): int
    requires n <= |errors|
  {
    if n == 0 then 0 else errors[n - 1]
  }

  ghost predicate Remembers(s: State) {
    && s.completed == |s.errors| && s.errorsSeen <= |s.errors|
    && s.lastError == Reported(s.errors, |s.errors|)
    && (s.main == Queued ==> s.sent == 0)
    && (s.main.Counted? ==> s.main.rc == s.sent)
    && (s.main.Loaded? ==> s.main.err == if s.sent != 0 then s.sent else Reported(s.errors, s.errorsSeen))
    && (s.main.Judged? ==>
          (s.main.up <==> s.sent == 0 && Reported(s.errors, s.errorsSeen) == 0 && s.unfinished <= 1))
  }

  lemma StepRemembers(s: State, e: Event)
    requires Exact(s) && Remembers(s) && Enabled(s, e)
    ensures Remembers(Apply(s, e))
  {}

  lemma {:induction false} RunRemembers(es: seq<Event>)
    requires Exec(es).Some?
    ensures Remembers(Exec(es).value)
    decreases |es|
  {
    if es != [] {
      RunRemembers(es[..|es| - 1]);
      RunIsExact(es[..|es| - 1]);
      StepRemembers(Exec(es[..|es| - 1]).value, Last(es));
    }
  }

  /**
   The verdict, under every placement of the interrupt: the link is judged up exactly when this
   beat's frame was accepted, the frame completed last before the error was loaded had been
   reported without one, and at most one frame was unfinished when the count was loaded.
   */
  lemma JudgedUpIff(es: seq<Event>)
    requires Exec(es).Some? && Exec(es).value.main.Judged?
    ensures var s := Exec(es).value;
      && s.errorsSeen <= |s.errors|
      && (s.main.up <==> s.sent == 0 && Reported(s.errors, s.errorsSeen) == 0 && s.unfinished <= 1)
  {
    RunRemembers(es);
  }

  /**
   Under every placement of the interrupt: wherever the count is loaded it equals frames
   accepted minus frames completed; it is never below -1, and is -1 only between acceptance
   and the increment; and the link is only ever judged up when at most one frame is
   unfinished.
   */
  lemma CountIsExactAtTheVerdict(es: seq<Event>)
    requires Exec(es).Some?
    ensures var s := Exec(es).value;
      && (s.main != Queued ==> 0 <= s.counter == s.accepted - s.completed <= MAILBOXES)
      && s.counter >= -1
      && (s.counter == -1 ==> s.main == Queued && s.completed == s.accepted)
      && (s.main == Judged(true) ==> s.accepted - s.completed <= 1)
  {
    RunIsExact(es);
  }

  /** The dip below zero does occur: the frame completes before its sender has counted it. */
  lemma CountDipsBelowZero() returns (es: seq<Event>)
    ensures Exec(es).Some? && Exec(es).value.counter == -1
  {
    es := [Send(0), Complete(0)];
    assert es[..1] == [Send(0)] && es[..1][..0] == [];
    assert Exec(es[..1]) == Some(INIT.(main := Queued, accepted := 1));
  }
}
