/**
 The sampling loop of both sensor threads (gateway/src/sensor.cpp, peer-node/src/sensor.cpp):
 take a reading, then wait out the period, waking early for commands.
 */
module Sensor {
  import opened Basics
  import opened SensorBus
  import Mailbox

  /**
   One turn of the wait loop as the world deals it: how late the clock is read, what is
   published on the bus during the wait, and how long until a message is handed over.
   */
  datatype Turn = Turn(lag: nat, arrivals: seq<(SensorCmd, bool)>, delay: nat)

  /**
   The sequence numbers that reach chan_telemetry, given which of the publishes so far
   succeeded: the k-th reading is number k modulo 2^32, and a failed publish leaves a gap.
   */
  function Numbers(oks: seq<bool>): (ns: seq<U32>)
    ensures |ns| <= |oks|
    decreases |oks|
  {
    if oks == [] then []
    else Numbers(oks[..|oks| - 1]) + if Last(oks) then [(|oks| - 1) % U32_LIMIT] else []
  }

  class SensorThread {
    var sequence: U32
    var periodMs: U32
    const bus: Bus
    var newest: Option<U32>            // chan_telemetry, by sequence number
    ghost var oks: seq<bool>           // every publish so far
    ghost var published: seq<U32>      // what was copied into the channel

    ghost predicate Valid()
      reads this, bus
    {
      && bus.Valid() && periodMs == PeriodAfter(bus.taken)
      && sequence == |oks| % U32_LIMIT && published == Numbers(oks)
      && newest == if published == [] then None else Some(Last(published))
    }

    constructor (bus: Bus)
      requires bus.Valid() && bus.taken == []
      ensures Valid() && oks == [] && sequence == 0 && periodMs == 5000 && this.bus == bus
    {
      sequence, newest := 0, None;
      periodMs := PERIOD_DEFAULT_MS;
      this.bus := bus;
      oks, published := [], [];
    }

    /** Takes the next reading and publishes it under the next number, whether or not the channel takes it. */
    method Sample(ok: bool)
      requires Valid()
      modifies this`sequence, this`newest, this`oks, this`published
      ensures Valid() && oks == old(oks) + [ok]
      ensures published == Numbers(old(oks) + [ok])
      ensures published == old(published) + if ok then [|old(oks)| % 0x1_0000_0000] else []
    {
      var reading := sequence;
      sequence := (sequence + 1) % U32_LIMIT;
      oks := oks + [ok];
      assert oks[..|oks| - 1] == old(oks);
      if ok {
        newest := Some(reading);
        published := published + [reading];
      }
    }

    /**
     One iteration of the thread: a reading numbered one past the one before, published once, and
     then a wait of at least 1000 ms unless triggered and at most 300000 ms, cut short by a
     trigger and by nothing else.
     */
    method Iterate(ok: bool, clock: int, turns: seq<Turn>, ghost slack: nat)
      returns (end: End, waits: nat, ghost cmds: seq<SensorCmd>)
      requires Valid() && NoLaterThan(turns, slack)
      modifies this, bus
      ensures Valid() && oks == old(oks) + [ok]
      ensures clock <= end.at <= clock + PERIOD_MAX_MS + slack
      ensures end.TimedOut? || end.Late? ==> end.at >= clock + PERIOD_MIN_MS
      ensures TimePasses(turns) && |turns| > PERIOD_MAX_MS ==> !end.Waiting?
      ensures waits <= |turns| && bus.accepted == old(bus.accepted) + AcceptedIn(turns[..waits])
      ensures bus.taken == old(bus.taken) + cmds && Explained(end, clock, turns, waits, old(bus.taken), cmds, bus.queue)
    {
      Sample(ok);
      end, waits, cmds := WaitOut(clock, turns, slack);
    }

    /** The other threads' publishes while this one is blocked. */
    method Arrive(arrivals: seq<(SensorCmd, bool)>)
      requires bus.Valid()
      modifies bus
      ensures bus.Valid() && bus.taken == old(bus.taken)
      ensures bus.accepted == old(bus.accepted) + AcceptedOf(arrivals)
    {
      for i := 0 to |arrivals|
        invariant bus.Valid() && bus.taken == old(bus.taken)
        invariant bus.accepted == old(bus.accepted) + AcceptedOf(arrivals[..i])
      {
        assert arrivals[..i + 1][..i] == arrivals[..i];
        var _ := bus.Publish(arrivals[i].0, arrivals[i].1);
      }
      assert arrivals[..|arrivals|] == arrivals;
    }

    /**
     One turn of the wait loop, at `now`: the clock may have passed the end of the period, or the
     wait for a message may, or a command is handed over; a trigger ends the wait there and then.
     */
    method TakeTurn(last: int, now: int, turn: Turn) returns (end: End, ghost cmd: Option<SensorCmd>)
      requires Valid()
      modifies this`periodMs, bus
      ensures Valid() && oks == old(oks)
      ensures bus.accepted == old(bus.accepted) + if end.Late? then [] else AcceptedOf(turn.arrivals)
      ensures bus.taken == old(bus.taken) + Taken(cmd)
      ensures Turned(last, now, turn, old(periodMs), end, cmd, bus.queue)
    {
      var clock := now + turn.lag;
      var left := last + periodMs - clock;
      if left <= 0 {
        return Late(clock), None;
      }
      Arrive(turn.arrivals);
      if bus.queue == [] {
        return TimedOut(clock + left), None;
      }
      var c := HandOver();
      var at := clock + Min(turn.delay, left);
      return if c.kind == TRIGGER then Triggered(at) else Waiting(at), Some(c);
    }

    /** The next command, obeyed: an interval becomes the period at once. */
    method HandOver() returns (c: SensorCmd)
      requires Valid() && bus.queue != []
      modifies this`periodMs, bus
      ensures Valid() && oks == old(oks)
      ensures bus.taken == old(bus.taken) + [c] && bus.accepted == old(bus.accepted)
    {
      c := bus.Take();
      PeriodSnoc(old(bus.taken), c);
      if c.kind == SET_INTERVAL {
        periodMs := c.intervalMs;
      }
    }

    /**
     The wait after a sample taken at `last`. It ends by the clock, by the timeout or by a
     trigger, at once in each case, and never runs past 300000 ms; as long as it has not ended,
     every turn consumed one command. If no two commands are handed over within the same
     millisecond, it does end.
     */
    method WaitOut(last: int, turns: seq<Turn>, ghost slack: nat)
      returns (end: End, waits: nat, ghost cmds: seq<SensorCmd>)
      requires Valid() && NoLaterThan(turns, slack)
      modifies this`periodMs, bus
      ensures Valid() && oks == old(oks)
      ensures PERIOD_MIN_MS <= periodMs <= PERIOD_MAX_MS
      ensures last <= end.at <= last + PERIOD_MAX_MS + slack
      ensures end.TimedOut? || end.Late? ==> end.at >= last + periodMs >= last + PERIOD_MIN_MS
      ensures TimePasses(turns) && |turns| > PERIOD_MAX_MS ==> !end.Waiting?
      ensures waits <= |turns| && bus.accepted == old(bus.accepted) + AcceptedIn(turns[..waits])
      ensures bus.taken == old(bus.taken) + cmds && Explained(end, last, turns, waits, old(bus.taken), cmds, bus.queue)
    {
      PeriodBounded(bus.taken);
      end, waits, cmds := Waiting(last), 0, [];
      while end.Waiting? && waits < |turns|
        invariant Valid() && oks == old(oks) && PERIOD_MIN_MS <= periodMs <= PERIOD_MAX_MS
        invariant InBounds(end, last, slack)
        invariant bus.taken == old(bus.taken) + cmds
        invariant Accounted(end, last, turns, waits, old(bus.taken), cmds, bus.queue)
        invariant bus.accepted == old(bus.accepted) + AcceptedIn(turns[..waits])
        decreases if end.Waiting? then 1 else 0, |turns| - waits
      {
        ghost var (now, period) := (end.at, periodMs);
        ghost var cmd;
        end, cmd := TakeTurn(last, end.at, turns[waits]);
        TurnStaysInBounds(last, turns, waits, slack, now, period, end, cmd, bus.queue);
        PeriodBounded(bus.taken);
        TurnAccounts(last, turns, waits, old(bus.taken), cmds, now, period, end, cmd, bus.queue);
        AcceptedSnoc(turns, waits);
        Regroup(old(bus.taken), cmds, Taken(cmd));
        Regroup(old(bus.accepted), AcceptedIn(turns[..waits]), AcceptedOf(turns[waits].arrivals));
        cmds := cmds + Taken(cmd);
        waits := if end.Late? then waits else waits + 1;
      }
    }
  }

  lemma Regroup<T>(a: seq<T>, b: seq<T>, c: seq<T>)
    ensures a + b + c == a + (b + c) && a + [] == a
  {}

  function Taken(cmd: Option<SensorCmd>): seq<SensorCmd> {
    match cmd case None => [] case Some(c) => [c]
  }

  /** What one turn comes to, and when. */
  predicate Turned(last: int, now: int, turn: Turn, period: int, end: End, cmd: Option<SensorCmd>,
                   queue: seq<SensorCmd>)
  {
    match end
    case Late(at) => cmd.None? && at == now + turn.lag >= last + period
    case TimedOut(at) => cmd.None? && queue == [] && now + turn.lag < at == last + period
    case Triggered(at) =>
      cmd.Some? && cmd.value.kind == TRIGGER && now + turn.lag < last + period && at == Handed(last, now, turn, period)
    case Waiting(at) =>
      cmd.Some? && cmd.value.kind != TRIGGER && now + turn.lag < last + period && at == Handed(last, now, turn, period)
  }

  /** Where the wait stands between two turns: over, or one command further on with every turn. */
  predicate Accounted(end: End, last: int, turns: seq<Turn>, waits: nat, before: seq<SensorCmd>, cmds: seq<SensorCmd>,
                      queue: seq<SensorCmd>)
  {
    && waits <= |turns|
    && if end.Waiting? then
         && |cmds| == waits && NoTrigger(cmds) && end.at == HandedOver(last, turns, before, cmds)
         && (TimePasses(turns) ==> end.at >= last + waits)
       else Explained(end, last, turns, waits, before, cmds, queue)
  }

  /** Still waiting, the longest period has not passed; and it is overrun by no more than the clock is read late. */
  predicate InBounds(end: End, last: int, slack: nat) {
    last <= end.at <= last + PERIOD_MAX_MS + if end.Waiting? then 0 else slack
  }

  lemma TurnStaysInBounds(last: int, turns: seq<Turn>, k: nat, slack: nat, now: int, period: int, end: End,
                          cmd: Option<SensorCmd>, queue: seq<SensorCmd>)
    requires NoLaterThan(turns, slack) && k < |turns| && Turned(last, now, turns[k], period, end, cmd, queue)
    requires InBounds(Waiting(now), last, slack) && 0 <= period <= PERIOD_MAX_MS
    ensures InBounds(end, last, slack)
  {
    assert turns[k] in turns;
  }

  lemma TurnAccounts(last: int, turns: seq<Turn>, waits: nat, before: seq<SensorCmd>, cmds: seq<SensorCmd>, now: int,
                     period: int, end: End, cmd: Option<SensorCmd>, queue: seq<SensorCmd>)
    requires waits < |turns| && Accounted(Waiting(now), last, turns, waits, before, cmds, queue)
    requires period == PeriodAfter(before + cmds) && Turned(last, now, turns[waits], period, end, cmd, queue)
    ensures Accounted(end, last, turns, if end.Late? then waits else waits + 1, before, cmds + Taken(cmd), queue)
  {
    if cmd.None? {
      assert cmds + Taken(cmd) == cmds;
    } else {
      HandedOverSnoc(last, turns, before, cmds, cmd.value);
      assert (cmds + Taken(cmd))[..|cmds|] == cmds;
      assert turns[waits] in turns;
    }
  }

  /** The clock is read at most this late in every turn. */
  predicate NoLaterThan(turns: seq<Turn>, slack: nat) {
    forall t :: t in turns ==> t.lag <= slack
  }

  /** No turn is over within the millisecond in which it began. */
  predicate TimePasses(turns: seq<Turn>) {
    forall t :: t in turns ==> t.lag + t.delay >= 1
  }

  /** When a command waited for from `now` on is handed over, if the wait does not run out first. */
  function Handed(last: int, now: int, turn: Turn, period: int): int {
    var clock := now + turn.lag;
    clock + Min(turn.delay, last + period - clock)
  }

  /** How a wait stands, and when: ended by a trigger, by its timeout, by a clock already past it, or not at all. */
  datatype End = Triggered(at: int) | TimedOut(at: int) | Late(at: int) | Waiting(at: int)

  /** What a turn's publishes add to the channel's accepted history. */
  function AcceptedOf(arrivals: seq<(SensorCmd, bool)>): seq<SensorCmd>
    decreases |arrivals|
  {
    if arrivals == [] then []
    else
      AcceptedOf(arrivals[..|arrivals| - 1]) +
      if InRange(Last(arrivals).0) && !Last(arrivals).1 then [Last(arrivals).0] else []
  }

  function AcceptedIn(turns: seq<Turn>): seq<SensorCmd>
    decreases |turns|
  {
    if turns == [] then [] else AcceptedIn(turns[..|turns| - 1]) + AcceptedOf(Last(turns).arrivals)
  }

  lemma AcceptedSnoc(turns: seq<Turn>, k: nat)
    requires k < |turns|
    ensures AcceptedIn(turns[..k + 1]) == AcceptedIn(turns[..k]) + AcceptedOf(turns[k].arrivals)
  {
    assert turns[..k + 1][..k] == turns[..k];
  }

  /** When the latest of these commands was handed over, each of them in a turn of its own. */
  function HandedOver(last: int, turns: seq<Turn>, before: seq<SensorCmd>, cmds: seq<SensorCmd>): int
    requires |cmds| <= |turns|
    decreases |cmds|
  {
    if cmds == [] then last
    else
      var earlier := cmds[..|cmds| - 1];
      Handed(last, HandedOver(last, turns, before, earlier), turns[|earlier|], PeriodAfter(before + earlier))
  }

  lemma HandedOverSnoc(last: int, turns: seq<Turn>, before: seq<SensorCmd>, cmds: seq<SensorCmd>, c: SensorCmd)
    requires |cmds| < |turns|
    ensures HandedOver(last, turns, before, cmds + [c]) ==
            Handed(last, HandedOver(last, turns, before, cmds), turns[|cmds|], PeriodAfter(before + cmds))
  {
    assert (cmds + [c])[..|cmds|] == cmds;
  }

  predicate NoTrigger(cmds: seq<SensorCmd>) {
    forall k :: 0 <= k < |cmds| ==> cmds[k].kind != TRIGGER
  }

  /**
   The wait's end, accounted for by the commands taken in it. A trigger among them is the last
   and ends the wait the moment it is handed over. Otherwise nothing cuts it short: it runs until
   the latest period after the sample has passed with nothing left in the queue, or until a clock
   that is found to have passed it.
   */
  predicate Explained(end: End, last: int, turns: seq<Turn>, waits: nat, before: seq<SensorCmd>, cmds: seq<SensorCmd>,
                      queue: seq<SensorCmd>)
  {
    && |cmds| <= waits <= |turns|
    && match end
       case Triggered(at) =>
         && |cmds| == waits > 0 && Last(cmds).kind == TRIGGER && NoTrigger(cmds[..|cmds| - 1])
         && at == HandedOver(last, turns, before, cmds)
       case TimedOut(at) =>
         && waits == |cmds| + 1 && NoTrigger(cmds) && queue == []
         && HandedOver(last, turns, before, cmds) + turns[|cmds|].lag < at == last + PeriodAfter(before + cmds)
       case Late(at) =>
         && waits == |cmds| < |turns| && NoTrigger(cmds)
         && at == HandedOver(last, turns, before, cmds) + turns[|cmds|].lag >= last + PeriodAfter(before + cmds)
       case Waiting(at) =>
         waits == |cmds| == |turns| && NoTrigger(cmds) && at == HandedOver(last, turns, before, cmds)
  }

  predicate StrictlyAscending(ns: seq<U32>) {
    forall i, j :: 0 <= i < j < |ns| ==> ns[i] < ns[j]
  }

  lemma {:induction false} NumbersAscend(oks: seq<bool>)
    requires |oks| <= U32_LIMIT
    ensures StrictlyAscending(Numbers(oks)) && forall k :: 0 <= k < |Numbers(oks)| ==> Numbers(oks)[k] < |oks|
    decreases |oks|
  {
    if oks != [] {
      NumbersAscend(oks[..|oks| - 1]);
      assert (|oks| - 1) % U32_LIMIT == |oks| - 1;
    }
  }

  lemma {:induction false} NumbersOfUnbrokenRun(n: nat)
    ensures var ns := Numbers(seq(n, _ => true)); |ns| == n && forall k :: 0 <= k < n ==> ns[k] == k % U32_LIMIT
    decreases n
  {
    if n > 0 {
      assert seq(n, _ => true)[..n - 1] == seq(n - 1, _ => true);
      NumbersOfUnbrokenRun(n - 1);
    }
  }

  /** However many publishes fail, readings are numbered in ascending order for exactly 2^32 samples. */
  lemma NumbersAscendIff(samples: nat)
    ensures (forall oks: seq<bool> | |oks| == samples :: StrictlyAscending(Numbers(oks))) <==> samples <= U32_LIMIT
  {
    if samples <= U32_LIMIT {
      forall oks: seq<bool> | |oks| == samples ensures StrictlyAscending(Numbers(oks)) {
        NumbersAscend(oks);
      }
    } else {
      var oks := seq(samples, _ => true);
      NumbersOfUnbrokenRun(samples);
      assert Numbers(oks)[0] == 0 && Numbers(oks)[U32_LIMIT] == 0;
    }
  }

  /**
   From the sensor thread to the main thread: up to the wrap of the counter, and in every
   interleaving of the two, the numbers main reads off the channel never descend, and they
   ascend strictly unless a signal crossed one of its reads.
   */
  lemma ReadingsArriveInOrder(zero: U32, es: seq<Mailbox.Event<U32>>, oks: seq<bool>)
    requires Mailbox.Exec(zero, es).Some? && Mailbox.Exec(zero, es).value.history == Numbers(oks)
    requires |oks| <= U32_LIMIT
    ensures var s := Mailbox.Exec(zero, es).value;
      && NonDecreasing(s.values)
      && (s.crossings == 0 ==> StrictlyAscending(s.values))
  {
    var s := Mailbox.Exec(zero, es).value;
    NumbersAscend(oks);
    Mailbox.RunKeepsExact(zero, es);
    Mailbox.AscendingStaysAscending(zero, es, (n: U32) => n);
    assert forall i, j :: 0 <= i < j < |s.values| ==> s.values[i] <= s.values[j];
    if s.crossings == 0 {
      Mailbox.RunKeepsRepeatsPaid(zero, es);
      Mailbox.NoRepeatsMeansAscending(s.numbers);
      forall i, j | 0 <= i < j < |s.values| ensures s.values[i] < s.values[j] {
        assert s.numbers[i] < s.numbers[j];
      }
    }
  }
}
