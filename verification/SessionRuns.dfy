/** What the session loop keeps over every run of passes. */
module SessionRuns {
  import opened Basics
  import opened Sessions

  /** One session's view of one pass. */
  datatype Turn = Turn(pass: Pass, input: Input)

  function After(turns: seq<Turn>): Session
    decreases |turns|
  {
    if turns == [] then Start()
    else AfterPass(After(turns[..|turns| - 1]), Last(turns).pass, Last(turns).input)
  }

  /** The clock never runs backwards: through one pass, starting no earlier than t. */
  predicate ClockAdvances(t: int, turn: Turn) {
    t <= turn.pass.now <= turn.input.connectClock <= turn.input.inputClock <= turn.pass.later
      <= turn.input.stepClock <= turn.input.handlerClock
  }

  /** The broker delivers commands only to a connection that has subscribed. */
  predicate BrokerKeepsToSubscription(s: Session, turn: Turn) {
    (exists k :: 0 <= k < |turn.input.incoming| && turn.input.incoming[k].Command?) ==>
      AfterConnect(s, turn.pass.now, turn.input).subscribed
  }

  function EndOf(turns: seq<Turn>): int {
    if turns == [] then 0 else Last(turns).input.handlerClock
  }

  predicate LegalRun(turns: seq<Turn>)
    decreases |turns|
  {
    turns == [] ||
    (var before := turns[..|turns| - 1];
     && LegalRun(before)
     && ClockAdvances(EndOf(before), Last(turns))
     && BrokerKeepsToSubscription(After(before), Last(turns)))
  }

  /** The backoff after k failures in a row. */
  function Backoff(k: nat): int {
    Min(BACKOFF_MIN_MS * Pow2(k), BACKOFF_MAX_MS)
  }

  ghost predicate Sound(s: Session, clock: int) {
    && s.backoff == Backoff(s.failures)
    && (s.phase == Serving ==> s.failures == 0)
    && (s.subscribed ==> s.phase == Serving)
    && (forall k :: 0 <= k < |s.published| ==> s.published[k] == Serving)
    && (forall k :: 0 <= k < |s.attempts| ==> s.attempts[k].delay == Backoff(s.attempts[k].failures))
    && (forall k :: 0 < k < |s.attempts| ==> s.attempts[k].at >= s.attempts[k - 1].at + s.attempts[k].delay)
    && (s.attempts != [] ==> Last(s.attempts).at <= clock)
    && (s.phase == Idle && s.attempts != [] ==> s.retryAt >= Last(s.attempts).at + s.backoff)
    && (s.phase == Connecting ==>
          s.attempts != [] && Last(s.attempts).at + CONNACK_TIMEOUT_MS <= s.connackDue <= clock + CONNACK_TIMEOUT_MS)
  }

  lemma DroppedIsSound(s: Session, reached: bool, t: int, clock: int)
    requires Sound(s, t) && t <= clock
    ensures Sound(Dropped(s, reached, clock), clock)
  {
    assert Pow2(s.failures + 1) == 2 * Pow2(s.failures);
  }

  /** An attempt made once its time has come is at least its delay after the one before it. */
  lemma AttemptIsSound(s: Session, t: int, now: int)
    requires Sound(s, t) && t <= now && s.phase == Idle && now >= s.retryAt
    ensures Sound(s.(attempts := s.attempts + [Attempt(now, s.backoff, s.failures)], retryAt := now + s.backoff), now)
  {}

  lemma ConnectIsSound(s: Session, t: int, now: int, i: Input)
    requires Sound(s, t) && t <= now <= i.connectClock
    ensures Sound(AfterConnect(s, now, i), i.connectClock)
  {
    if s.phase == Idle && now >= s.retryAt {
      AttemptIsSound(s, t, now);
      var u := s.(connected := false, connectFailed := false,
                  attempts := s.attempts + [Attempt(now, s.backoff, s.failures)], retryAt := now + s.backoff);
      if i.connectRc != 0 {
        DroppedIsSound(u, false, now, i.connectClock);
        assert Dropped(u, false, i.connectClock) == Connected(s, now, i.connectRc, i.connectClock);
      }
    }
  }

  lemma HandledIsSound(s: Session, e: Incoming, t: int)
    requires Sound(s, t) && (e.Command? ==> s.subscribed)
    ensures Sound(Handled(s, e), t)
  {}

  lemma {:induction false} HandlingIsSound(s: Session, es: seq<Incoming>, t: int)
    requires Sound(s, t)
    requires (exists k :: 0 <= k < |es| && es[k].Command?) ==> s.subscribed
    ensures Sound(HandledAll(s, es), t)
    ensures HandledAll(s, es).phase == s.phase && HandledAll(s, es).subscribed == s.subscribed
    ensures HandledAll(s, es).connackDue == s.connackDue
    decreases |es|
  {
    if es != [] {
      HandlingIsSound(s, es[..|es| - 1], t);
      HandledIsSound(HandledAll(s, es[..|es| - 1]), Last(es), t);
    }
  }

  lemma InputIsSound(s: Session, t: int, i: Input)
    requires Sound(s, t) && t <= i.inputClock
    requires (exists k :: 0 <= k < |i.incoming| && i.incoming[k].Command?) ==> s.subscribed
    ensures Sound(AfterInput(s, i), i.inputClock)
  {
    HandlingIsSound(s, i.incoming, t);
    var u := HandledAll(s, i.incoming);
    DroppedIsSound(u, u.phase == Serving, t, i.inputClock);
  }

  lemma StepIsSound(s: Session, t: int, now: int, i: Input)
    requires Sound(s, t) && t <= i.stepClock
    ensures Sound(AfterStep(s, now, i), i.stepClock)
  {
    DroppedIsSound(s, true, t, i.stepClock);
    DroppedIsSound(s, false, t, i.stepClock);
    assert Backoff(0) == BACKOFF_MIN_MS;
  }

  lemma {:induction false} HandlersAreSound(s: Session, os: seq<Outcome>, t: int, clock: int)
    requires Sound(s, t) && t <= clock
    ensures Sound(AfterHandlers(s, os, clock), clock)
    decreases |os|
  {
    if os != [] {
      HandlersAreSound(s, os[..|os| - 1], t, clock);
      var u := AfterHandlers(s, os[..|os| - 1], clock);
      DroppedIsSound(u.(published := u.published + [Serving]), true, clock, clock);
    }
  }

  lemma PassIsSound(s: Session, t: int, turn: Turn)
    requires Sound(s, t) && ClockAdvances(t, turn) && BrokerKeepsToSubscription(s, turn)
    ensures Sound(AfterPass(s, turn.pass, turn.input), turn.input.handlerClock)
  {
    var i := turn.input;
    ConnectIsSound(s, t, turn.pass.now, i);
    var a := AfterConnect(s, turn.pass.now, i);
    InputIsSound(a, i.connectClock, i);
    StepIsSound(AfterInput(a, i), i.inputClock, turn.pass.later, i);
    HandlersAreSound(AfterStep(AfterInput(a, i), turn.pass.later, i), i.handlers, i.stepClock, i.handlerClock);
  }

  lemma {:induction false} RunIsSound(turns: seq<Turn>)
    requires LegalRun(turns)
    ensures Sound(After(turns), EndOf(turns))
    decreases |turns|
  {
    if turns != [] {
      RunIsSound(turns[..|turns| - 1]);
      PassIsSound(After(turns[..|turns| - 1]), EndOf(turns[..|turns| - 1]), Last(turns));
    }
  }

  /**
   Over every run: nothing is ever published on a session that is not serving; serving
   implies the minimum backoff; the backoff after k drops in a row without serving is
   min(1000 * 2^k, 30000); consecutive connect attempts are at least the backoff then in
   force apart; and a session awaiting CONNACK has at most 5000 ms left.
   */
  lemma PublishesOnlyWhileServingAndBacksOff(turns: seq<Turn>)
    requires LegalRun(turns)
    ensures var s := After(turns);
      && (forall k :: 0 <= k < |s.published| ==> s.published[k] == Serving)
      && (s.phase == Serving ==> s.backoff == BACKOFF_MIN_MS)
      && s.backoff == Min(BACKOFF_MIN_MS * Pow2(s.failures), BACKOFF_MAX_MS)
      && (forall k :: 0 < k < |s.attempts| ==>
            s.attempts[k].at - s.attempts[k - 1].at >=
            Min(BACKOFF_MIN_MS * Pow2(s.attempts[k].failures), BACKOFF_MAX_MS))
      && (s.phase == Connecting ==> s.connackDue <= EndOf(turns) + CONNACK_TIMEOUT_MS)
  {
    RunIsSound(turns);
  }

  /** A session that has never connected waits 2000 ms, not 1000, before its first retry. */
  lemma FirstRetryWaitsTwiceTheMinimum(turn: Turn)
    requires ClockAdvances(0, turn) && turn.input.connectRc != 0
    ensures After([turn]).phase == Idle && After([turn]).retryAt == turn.input.connectClock + 2000
  {
    assert [turn][..0] == [];
    var atPoll := AfterConnect(Start(), turn.pass.now, turn.input);
    assert atPoll.phase == Idle;
  }

  /**
   What decides the backoff when input fails is the phase before that input, and nothing the
   input brought: the retry comes after 1000 ms if and only if the session was serving.
   */
  lemma InputFailureResetsIffServing(s: Session, t: int, i: Input)
    requires Sound(s, t) && s.phase != Idle && i.readable && i.inputRc != 0
    ensures var u := AfterInput(s, i);
      && u.phase == Idle && u.retryAt == i.inputClock + u.backoff
      && (u.backoff == BACKOFF_MIN_MS <==> s.phase == Serving)
      && (s.phase == Connecting ==> u.backoff == Backoff(s.failures + 1))
  {
    HandledKeepsDeadline(s, i.incoming);
    assert Pow2(s.failures + 1) == 2 * Pow2(s.failures) && Pow2(s.failures) >= 1;
  }

  /** An accepted CONNACK that arrives in the input that then fails changes nothing: the delay doubles. */
  lemma LateConnackStillDoubles(s: Session, t: int, i: Input)
    requires Sound(s, t) && s.phase == Connecting
    requires i.readable && i.incoming == [ConnackOk] && i.inputRc != 0
    ensures HandledAll(s, i.incoming).connected && AfterInput(s, i).backoff == Min(2 * s.backoff, BACKOFF_MAX_MS)
  {
    assert i.incoming[..0] == [];
  }

  /** A session past its CONNACK deadline, or whose deadline has come, leaves Connecting in this pass. */
  lemma OverdueConnectLeaves(s: Session, turn: Turn, keepaliveLeft: int)
    requires ClockAdvances(turn.pass.now, turn) && turn.pass.pollOk
    ensures var atPoll := AfterConnect(s, turn.pass.now, turn.input);
            atPoll.phase == Connecting && AtLeastZero(Due(atPoll, turn.pass.now, keepaliveLeft).value) == 0 ==>
              AfterPass(s, turn.pass, turn.input).phase != Connecting
  {
    var atPoll := AfterConnect(s, turn.pass.now, turn.input);
    HandledKeepsDeadline(atPoll, turn.input.incoming);
  }

  lemma {:induction false} HandledKeepsDeadline(s: Session, es: seq<Incoming>)
    ensures HandledAll(s, es).phase == s.phase && HandledAll(s, es).connackDue == s.connackDue
    ensures HandledAll(s, es).backoff == s.backoff && HandledAll(s, es).failures == s.failures
    decreases |es|
  {
    if es != [] {
      HandledKeepsDeadline(s, es[..|es| - 1]);
    }
  }

  /** After the connect loop an idle session always contributes a strictly positive deadline. */
  lemma IdleContributesPositive(s: Session, t: int, turn: Turn, keepaliveLeft: int)
    requires Sound(s, t) && ClockAdvances(t, turn)
    ensures var atPoll := AfterConnect(s, turn.pass.now, turn.input);
            atPoll.phase == Idle ==> Due(atPoll, turn.pass.now, keepaliveLeft).value > 0
  {
    assert Pow2(s.failures) >= 1;
  }

  /** A PINGREQ is due, or an attempt awaiting CONNACK ends in this pass. */
  predicate HasWorkNow(s: Session, p: Pass, i: Input, keepaliveLeft: int) {
    var atPoll := AfterConnect(s, p.now, i);
    || (atPoll.phase == Serving && keepaliveLeft == 0)
    || (atPoll.phase == Connecting && AfterPass(s, p, i).phase != Connecting)
  }

  /**
   The loop cannot spin: a zero poll timeout means that some session has a PINGREQ due, or
   that some session awaiting CONNACK is overdue, and that one leaves Connecting before the
   pass ends unless poll itself fails.
   */
  lemma ZeroTimeoutMakesProgress(ss: seq<Session>, p: Pass, ins: seq<Input>, keepaliveLeft: seq<int>, t: int,
                                 timeout: int)
    requires |ss| == |ins| == |keepaliveLeft| && p.pollOk
    requires forall k :: 0 <= k < |ss| ==> Sound(ss[k], t) && ClockAdvances(t, Turn(p, ins[k]))
    requires Nearest(PollDues(ss, p, ins, keepaliveLeft), timeout) && timeout == 0
    ensures exists k :: 0 <= k < |ss| && HasWorkNow(ss[k], p, ins[k], keepaliveLeft[k])
  {
    var dues := PollDues(ss, p, ins, keepaliveLeft);
    var k :| 0 <= k < |dues| && dues[k].Some? && AtLeastZero(dues[k].value) == 0;
    IdleContributesPositive(ss[k], t, Turn(p, ins[k]), keepaliveLeft[k]);
    OverdueConnectLeaves(ss[k], Turn(p, ins[k]), keepaliveLeft[k]);
  }

  /** When a session next needs the loop, on the clock. */
  function DueAt(s: Session, now: int, keepaliveLeft: int): Option<int> {
    match s.phase
    case Idle => Some(s.retryAt)
    case Connecting => Some(s.connackDue)
    case Serving => if keepaliveLeft < 0 then None else Some(now + keepaliveLeft)
  }

  /**
   Poll starts at some pollStart >= now, because connecting takes time, and returns within
   its timeout: the loop wakes no later than the nearest deadline, or the top of the pass if
   that has gone by, plus the time spent connecting. It waits for ever exactly when no session
   has a deadline, and otherwise for one session's deadline and no less.
   */
  lemma WakesByEveryDeadline(ss: seq<Session>, p: Pass, ins: seq<Input>, keepaliveLeft: seq<int>, timeout: int,
                             pollStart: int, wake: int)
    requires |ss| == |ins| == |keepaliveLeft| && p.now <= pollStart
    requires Nearest(PollDues(ss, p, ins, keepaliveLeft), timeout)
    requires timeout >= 0 ==> wake <= pollStart + timeout
    ensures forall k :: 0 <= k < |ss| ==>
      var due := DueAtPoll(ss[k], p, ins[k], keepaliveLeft[k]);
      due.Some? ==> timeout >= 0 && wake <= (if due.value < p.now then p.now else due.value) + (pollStart - p.now)
    ensures timeout == -1 <==> forall k :: 0 <= k < |ss| ==> DueAtPoll(ss[k], p, ins[k], keepaliveLeft[k]).None?
    ensures timeout >= 0 ==>
      exists k :: 0 <= k < |ss| && IsDueAfter(DueAtPoll(ss[k], p, ins[k], keepaliveLeft[k]), p.now, timeout)
  {
    var dues := PollDues(ss, p, ins, keepaliveLeft);
    forall k | 0 <= k < |ss| ensures dues[k].Some? <==> DueAtPoll(ss[k], p, ins[k], keepaliveLeft[k]).Some? {
    }
    forall k | 0 <= k < |ss| && DueAtPoll(ss[k], p, ins[k], keepaliveLeft[k]).Some?
      ensures dues[k].Some? && timeout <= AtLeastZero(dues[k].value)
    {
      assert dues[k].Some?;
    }
    if timeout >= 0 {
      var k :| 0 <= k < |dues| && dues[k].Some? && timeout == AtLeastZero(dues[k].value);
      assert IsDueAfter(DueAtPoll(ss[k], p, ins[k], keepaliveLeft[k]), p.now, timeout);
    }
  }

  function DueAtPoll(s: Session, p: Pass, i: Input, keepaliveLeft: int): Option<int> {
    DueAt(AfterConnect(s, p.now, i), p.now, keepaliveLeft)
  }

  /** The deadline is this far ahead, or has passed already and this is 0. */
  predicate IsDueAfter(due: Option<int>, now: int, ms: int) {
    due.Some? && ms == AtLeastZero(due.value - now)
  }

  // ---- what makes a session serve, and what ends it --------------------------------------

  /** The last thing the broker said about the connection being up, if it said anything. */
  function LastWord(es: seq<Incoming>): Option<bool>
    decreases |es|
  {
    if es == [] then None
    else if Last(es).ConnackOk? then Some(true)
    else if Last(es).Disconnected? then Some(false)
    else LastWord(es[..|es| - 1])
  }

  /** Acks sent in answer to commands. */
  function AnswersIn(es: seq<Incoming>): nat
    decreases |es|
  {
    if es == [] then 0 else AnswersIn(es[..|es| - 1]) + if Last(es).Command? then Last(es).answers else 0
  }

  /** The callback's flags between passes say what the phase says. */
  predicate Settled(s: Session) {
    && (s.phase == Connecting ==> !s.connected && !s.connectFailed)
    && (s.phase == Serving ==> s.connected)
  }

  lemma {:induction false} HandlingTellsFlags(s: Session, es: seq<Incoming>)
    ensures var t := HandledAll(s, es);
      && t.connected == LastWord(es).GetOr(s.connected)
      && (t.connectFailed <==> s.connectFailed || ConnackRefused in es)
      && t.retryAt == s.retryAt && t.attempts == s.attempts && t.subscribed == s.subscribed
    decreases |es|
  {
    if es != [] {
      HandlingTellsFlags(s, es[..|es| - 1]);
      assert es == es[..|es| - 1] + [Last(es)];
    }
  }

  lemma {:induction false} HandlingAnswers(s: Session, es: seq<Incoming>)
    ensures HandledAll(s, es).published == s.published + Repeat(s.phase, AnswersIn(es))
    decreases |es|
  {
    if es == [] {
      assert s.published + Repeat(s.phase, 0) == s.published;
    } else {
      var before := es[..|es| - 1];
      HandlingAnswers(s, before);
      HandledKeepsDeadline(s, before);
      RepeatAdds(s.phase, AnswersIn(before), AnswersIn(es) - AnswersIn(before));
    }
  }

  lemma RepeatAdds(phase: Phase, m: nat, n: nat)
    ensures Repeat(phase, m + n) == Repeat(phase, m) + Repeat(phase, n) && Repeat(phase, 0) == []
  {}

  /** The input of one pass, in the broker's own words. */
  predicate Accepted(i: Input) {
    i.readable && i.inputRc == 0 && LastWord(i.incoming) == Some(true)
  }

  predicate Refused(i: Input) {
    i.readable && i.inputRc == 0 && LastWord(i.incoming) != Some(true) && ConnackRefused in i.incoming
  }

  predicate InputFailed(i: Input) {
    i.readable && i.inputRc != 0
  }

  /**
   A session awaiting CONNACK when poll begins ends the pass serving, with the backoff reset, the
   subscription sent and its greeting said, exactly when input succeeded and the broker's last
   word was an acceptance. It gives up, with the backoff doubled, exactly when input failed, or
   without an acceptance it was refused or its time was up; otherwise it goes on waiting.
   */
  lemma ConnectingEnds(s: Session, p: Pass, i: Input)
    requires Settled(s) && p.pollOk && AfterConnect(s, p.now, i).phase == Connecting
    ensures var (u, t) := (AfterConnect(s, p.now, i), AfterPass(s, p, i));
      && Settled(t)
      && (t.phase == Serving <==> Accepted(i))
      && (t.phase == Idle <==> InputFailed(i) || Refused(i) || (!Accepted(i) && p.later >= u.connackDue))
      && (t.phase == Serving ==> t.backoff == BACKOFF_MIN_MS && t.subscribed && t.failures == 0)
      && (t.phase == Serving ==>
            t.published == u.published + Repeat(Connecting, AnswersIn(i.incoming)) + if i.greets then [Serving] else [])
      && (t.phase == Idle ==> t.backoff == Min(2 * u.backoff, BACKOFF_MAX_MS) && t.failures == u.failures + 1)
      && (t.phase == Idle ==> t.retryAt == t.backoff + if InputFailed(i) then i.inputClock else i.stepClock)
      && (t.phase == Connecting ==> t.connackDue == u.connackDue && t.backoff == u.backoff && !t.connected)
  {
    var u := AfterConnect(s, p.now, i);
    HandlingTellsFlags(u, i.incoming);
    HandlingAnswers(u, i.incoming);
    HandledKeepsDeadline(u, i.incoming);
  }

  /** Handlers publish one after the other until one of them fails. */
  function PublishesOf(os: seq<Outcome>): nat
    decreases |os|
  {
    if os == [] then 0
    else PublishesOf(os[..|os| - 1]) + if SendFailed in os[..|os| - 1] || Last(os) == NothingSent then 0 else 1
  }

  lemma {:induction false} HandlersEnd(s: Session, os: seq<Outcome>, clock: int)
    requires s.phase == Serving
    ensures var t := AfterHandlers(s, os, clock);
      && t.published == s.published + Repeat(Serving, PublishesOf(os))
      && (if SendFailed in os
          then t.phase == Idle && t.backoff == BACKOFF_MIN_MS && t.retryAt == clock + BACKOFF_MIN_MS
            && t.failures == 0 && !t.subscribed && t.attempts == s.attempts
          else t == s.(published := t.published))
    decreases |os|
  {
    if os != [] {
      var before := os[..|os| - 1];
      HandlersEnd(s, before, clock);
      assert os == before + [Last(os)];
      assert Repeat(Serving, PublishesOf(before) + 1) == Repeat(Serving, PublishesOf(before)) + [Serving];
    }
  }

  /**
   A serving session stops serving exactly when input failed, the broker's last word was a
   disconnect, keepalive failed, or a publish failed; then it is retried after the minimum
   backoff. What it published is its answers to commands and, if it survived the step, its
   handlers' messages up to the first that failed.
   */
  lemma ServingEnds(s: Session, p: Pass, i: Input)
    requires Settled(s) && p.pollOk && s.phase == Serving
    ensures var t := AfterPass(s, p, i);
      var lost := InputFailed(i) || (i.readable && LastWord(i.incoming) == Some(false)) || i.liveRc != 0;
      && Settled(t)
      && (t.phase == Serving <==> !lost && SendFailed !in i.handlers)
      && (t.phase != Serving ==> t.phase == Idle && t.backoff == BACKOFF_MIN_MS && t.failures == 0 && !t.subscribed)
      && (t.phase == Serving ==> t.backoff == s.backoff && t.subscribed == s.subscribed)
      && t.published == s.published + Repeat(Serving, if i.readable then AnswersIn(i.incoming) else 0)
                                    + Repeat(Serving, if lost then 0 else PublishesOf(i.handlers))
  {
    HandlingTellsFlags(s, i.incoming);
    HandlingAnswers(s, i.incoming);
    HandledKeepsDeadline(s, i.incoming);
    RepeatAdds(Serving, 0, 0);
    var u := AfterStep(AfterInput(s, i), p.later, i);
    if u.phase == Serving {
      HandlersEnd(u, i.handlers, i.handlerClock);
    } else {
      HandlersSkipped(u, i.handlers, i.handlerClock);
    }
  }

  /** A session dropped in this pass is not published to. */
  lemma {:induction false} HandlersSkipped(s: Session, os: seq<Outcome>, clock: int)
    requires s.phase != Serving
    ensures AfterHandlers(s, os, clock) == s
    decreases |os|
  {
    if os != [] {
      HandlersSkipped(s, os[..|os| - 1], clock);
    }
  }

  /**
   An idle session does nothing before its time, and nothing but attempt to connect when it has
   come; and while poll fails no session does anything else.
   */
  lemma IdleOnlyConnects(s: Session, p: Pass, i: Input)
    ensures var t := AfterPass(s, p, i);
      && (s.phase == Idle && p.now < s.retryAt ==> t == s)
      && (s.phase == Idle && p.now >= s.retryAt ==> t.attempts == s.attempts + [Attempt(p.now, s.backoff, s.failures)])
      && (s.phase != Idle ==> t.attempts == s.attempts)
      && (s.phase == Idle && p.now >= s.retryAt && i.connectRc != 0 ==>
            && t.phase == Idle && t.backoff == Min(2 * s.backoff, BACKOFF_MAX_MS)
            && t.retryAt == i.connectClock + t.backoff)
      && (s.phase == Idle && p.now >= s.retryAt && i.connectRc == 0 && !p.pollOk ==>
            t.phase == Connecting && t.connackDue == i.connectClock + 5000 && !t.connected && !t.connectFailed)
      && (s.phase != Idle && !p.pollOk ==> t == s)
  {
    var u := AfterConnect(s, p.now, i);
    HandlingTellsFlags(u, i.incoming);
    HandledKeepsDeadline(u, i.incoming);
    HandlersKeepAttempts(AfterStep(AfterInput(u, i), p.later, i), i.handlers, i.handlerClock);
  }

  lemma HandlersKeepAttempts(s: Session, os: seq<Outcome>, clock: int)
    ensures AfterHandlers(s, os, clock).attempts == s.attempts
    ensures s.phase != Serving ==> AfterHandlers(s, os, clock) == s
  {
    if s.phase == Serving {
      HandlersEnd(s, os, clock);
    } else {
      HandlersSkipped(s, os, clock);
    }
  }

  /** Between the passes of any run the flags are settled, so the three descriptions above cover every pass. */
  lemma {:induction false} RunIsSettled(turns: seq<Turn>)
    ensures Settled(After(turns))
    decreases |turns|
  {
    if turns != [] {
      var (s, p, i) := (After(turns[..|turns| - 1]), Last(turns).pass, Last(turns).input);
      RunIsSettled(turns[..|turns| - 1]);
      if p.pollOk && AfterConnect(s, p.now, i).phase == Connecting {
        ConnectingEnds(s, p, i);
      } else if p.pollOk && s.phase == Serving {
        ServingEnds(s, p, i);
      } else if p.pollOk {
        HandlersSkipped(AfterConnect(s, p.now, i), i.handlers, i.handlerClock);
      }
    }
  }
}
