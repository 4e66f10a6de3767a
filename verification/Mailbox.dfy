/**
 A latest-wins channel joined to a counting eventfd, as every upward channel of the
 gateway is (gateway/src/main.cpp). The publisher copies the message and runs the
 listener under the channel lock; the reader clears the counter first and reads the
 channel second, with the publisher free to run in between.
 */
module Mailbox {
  import opened Basics

  datatype Reader = Waiting | Cleared   // Cleared: eventfd read, channel not yet

  /** `numbers` records, for each successful channel read, how many publishes preceded it. */
  datatype State<T> = State(
    zero: T,             // the channel's initial message, which nobody published
    history: seq<T>,     // every message copied into the channel since the eventfd exists
    locked: bool,        // the latest one is copied but its listener has not signalled
    counter: nat,        // the eventfd
    consumed: nat,       // sum of the counts the reader has taken
    reader: Reader,
    values: seq<T>,      // messages read
    numbers: seq<nat>,
    missed: nat,         // channel reads that failed
    crossings: nat)      // signals that arrived between the reader's two steps

  function Init<T>(zero: T): State<T> {
    State(zero, [], false, 0, 0, Waiting, [], [], 0, 0)
  }

  /** What zbus_chan_read copies out. */
  function Newest<T>(s: State<T>): T {
    if s.history == [] then s.zero else Last(s.history)
  }

  datatype Event<T> =
    | Copy(message: T)     // publisher: lock, memcpy
    | Signal               // publisher: listener writes 1, unlock
    | Clear                // reader: zvfs_eventfd_read succeeds, counter to zero
    | Read                 // reader: zbus_chan_read returns 0
    | ReadFails            // reader: zbus_chan_read times out on the lock

  predicate Enabled<T>(s: State<T>, e: Event<T>) {
    match e
    case Copy(_) => !s.locked
    case Signal => s.locked
    case Clear => s.reader == Waiting && s.counter > 0
    case Read => s.reader == Cleared && !s.locked
    case ReadFails => s.reader == Cleared
  }

  function Apply<T>(s: State<T>, e: Event<T>): State<T>
    requires Enabled(s, e)
  {
    match e
    case Copy(message) => s.(history := s.history + [message], locked := true)
    case Signal =>
      s.(locked := false, counter := s.counter + 1, crossings := s.crossings + if s.reader == Cleared then 1 else 0)
    case Clear => s.(consumed := s.consumed + s.counter, counter := 0, reader := Cleared)
    case Read => s.(reader := Waiting, values := s.values + [Newest(s)], numbers := s.numbers + [|s.history|])
    case ReadFails => s.(reader := Waiting, missed := s.missed + 1)
  }

  function Exec<T>(zero: T, es: seq<Event<T>>): Option<State<T>>
    decreases |es|
  {
    if es == [] then Some(Init(zero))
    else
      match Exec(zero, es[..|es| - 1])
      case None => None
      case Some(s) => if Enabled(s, Last(es)) then Some(Apply(s, Last(es))) else None
  }

  /** Every publish is accounted for: consumed, pending, or not yet signalled. */
  ghost predicate Exact<T>(s: State<T>) {
    && s.consumed + s.counter + (if s.locked then 1 else 0) == |s.history|
    && (s.reader == Cleared ==> s.history != [])
    && |s.values| == |s.numbers|
    && (forall i :: 0 <= i < |s.numbers| ==>
          1 <= s.numbers[i] <= |s.history| && s.values[i] == s.history[s.numbers[i] - 1])
    && NonDecreasing(s.numbers)
    // nothing is newer than the last read without a count to show for it
    && (s.missed == 0 && s.counter == 0 && !s.locked && s.reader == Waiting && s.history != [] ==>
        s.numbers != [] && Last(s.numbers) == |s.history|)
  }

  lemma StepKeepsExact<T>(s: State<T>, e: Event<T>)
    requires Exact(s) && Enabled(s, e)
    ensures Exact(Apply(s, e))
  {}

  lemma {:induction false} RunKeepsExact<T>(zero: T, es: seq<Event<T>>)
    requires Exec(zero, es).Some?
    ensures Exact(Exec(zero, es).value)
    decreases |es|
  {
    if es != [] {
      RunKeepsExact(zero, es[..|es| - 1]);
      StepKeepsExact(Exec(zero, es[..|es| - 1]).value, Last(es));
    }
  }

  /**
   In every interleaving, including any length of time in which the reader is not
   scheduled: counts taken plus counts pending equal publishes; a read returns exactly
   the message with that number; messages are read in publication order; and when no
   read has failed and nothing is pending, the newest message has been read.
   */
  lemma NoLostWakeup<T>(zero: T, es: seq<Event<T>>)
    requires Exec(zero, es).Some?
    ensures var s := Exec(zero, es).value;
      && (!s.locked ==> s.consumed + s.counter == |s.history|)
      && (Enabled(s, Read) ==> Last(Apply(s, Read).numbers) == s.consumed + s.counter
                               && Last(Apply(s, Read).values) == s.history[s.consumed + s.counter - 1])
      && NonDecreasing(s.numbers)
      && |s.values| == |s.numbers|
      && (forall i :: 0 <= i < |s.numbers| ==>
            1 <= s.numbers[i] <= |s.history| && s.values[i] == s.history[s.numbers[i] - 1])
      && (s.missed == 0 && s.counter == 0 && !s.locked && s.reader == Waiting && s.history != [] ==>
          s.values != [] && Last(s.values) == Last(s.history))
  {
    RunKeepsExact(zero, es);
  }

  /** Readings published in ascending order are read in ascending order, skipped or repeated at most. */
  lemma AscendingStaysAscending<T>(zero: T, es: seq<Event<T>>, key: T -> int)
    requires Exec(zero, es).Some?
    requires var h := Exec(zero, es).value.history; forall i, j :: 0 <= i < j < |h| ==> key(h[i]) <= key(h[j])
    ensures var v := Exec(zero, es).value.values; forall i, j :: 0 <= i < j < |v| ==> key(v[i]) <= key(v[j])
  {
    RunKeepsExact(zero, es);
    var s := Exec(zero, es).value;
    forall i, j | 0 <= i < j < |s.values| ensures key(s.values[i]) <= key(s.values[j]) {
      assert s.numbers[i] <= s.numbers[j];
    }
  }

  // ---- repeats ---------------------------------------------------------------------------

  /** How often a read returned the message the read before it had returned. */
  function Repeats(numbers: seq<nat>): nat
    decreases |numbers|
  {
    if |numbers| < 2 then 0
    else Repeats(numbers[..|numbers| - 1]) + if Last(numbers) == numbers[|numbers| - 2] then 1 else 0
  }

  /** Whether the next read, if nothing newer is published before it, is a repeat. */
  predicate Stale<T>(s: State<T>) {
    s.numbers != [] && Last(s.numbers) == |s.history|
  }

  /** Repeats still to come from signals that have already crossed. */
  function Owed<T>(s: State<T>): nat {
    (if s.counter > 0 && (s.reader == Cleared || Stale(s)) then 1 else 0) +
    (if s.reader == Cleared && Stale(s) then 1 else 0)
  }

  ghost predicate RepeatsArePaid<T>(s: State<T>) {
    && (s.locked ==> !Stale(s))
    && Repeats(s.numbers) + Owed(s) <= s.crossings
  }

  lemma RepeatsSnoc(numbers: seq<nat>, n: nat)
    ensures Repeats(numbers + [n]) == Repeats(numbers) + if numbers != [] && Last(numbers) == n then 1 else 0
  {
    assert (numbers + [n])[..|numbers|] == numbers;
  }

  lemma StepKeepsRepeatsPaid<T>(s: State<T>, e: Event<T>)
    requires Exact(s) && RepeatsArePaid(s) && Enabled(s, e)
    ensures RepeatsArePaid(Apply(s, e))
  {
    if e.Read? {
      RepeatsSnoc(s.numbers, |s.history|);
    }
  }

  lemma {:induction false} RunKeepsRepeatsPaid<T>(zero: T, es: seq<Event<T>>)
    requires Exec(zero, es).Some?
    ensures RepeatsArePaid(Exec(zero, es).value)
    decreases |es|
  {
    if es != [] {
      RunKeepsRepeatsPaid(zero, es[..|es| - 1]);
      RunKeepsExact(zero, es[..|es| - 1]);
      StepKeepsRepeatsPaid(Exec(zero, es[..|es| - 1]).value, Last(es));
    }
  }

  /** Every run in which at most `crossings` signals cross repeats at most `repeats` messages. */
  ghost predicate RepeatsBounded<T(!new)>(zero: T, crossings: nat, repeats: nat) {
    forall es: seq<Event<T>> | Exec(zero, es).Some? && Exec(zero, es).value.crossings <= crossings ::
      Repeats(Exec(zero, es).value.numbers) <= repeats
  }

  /**
   Exactly how far "published at most once" fails: messages are read again as often as a signal
   lands between the clearing of the counter and the reading of the channel, and no oftener.
   With no such crossing, every read returns a newer message than the one before it.
   */
  lemma RepeatsBoundedIff<T(!new)>(zero: T, crossings: nat, repeats: nat)
    ensures RepeatsBounded(zero, crossings, repeats) <==> crossings <= repeats
  {
    if crossings <= repeats {
      forall es: seq<Event<T>> | Exec(zero, es).Some? && Exec(zero, es).value.crossings <= crossings
        ensures Repeats(Exec(zero, es).value.numbers) <= repeats
      {
        RunKeepsRepeatsPaid(zero, es);
      }
    } else {
      var es, s := CrossAgainAndAgain(zero, crossings);
      assert Exec(zero, es) == Some(s);
    }
  }

  /** Without a repeat, the numbers read ascend strictly. */
  lemma {:induction false} NoRepeatsMeansAscending(numbers: seq<nat>)
    requires NonDecreasing(numbers)
    ensures Repeats(numbers) == 0 <==> forall i, j :: 0 <= i < j < |numbers| ==> numbers[i] < numbers[j]
    decreases |numbers|
  {
    if |numbers| >= 2 {
      NoRepeatsMeansAscending(numbers[..|numbers| - 1]);
    }
  }

  /** In any reachable state, exactly when the next read would return the same message again. */
  lemma NextReadRepeatsIff<T>(zero: T, es: seq<Event<T>>)
    requires Exec(zero, es).Some? && Enabled(Exec(zero, es).value, Read)
    ensures var s := Exec(zero, es).value;
      Repeats(Apply(s, Read).numbers) == Repeats(s.numbers) + 1 <==>
        s.numbers != [] && Last(s.numbers) == s.consumed + s.counter
  {
    RunKeepsExact(zero, es);
    RepeatsSnoc(Exec(zero, es).value.numbers, |Exec(zero, es).value.history|);
  }

  /**
   One message after another is overtaken by the next: its count is cleared, the next is
   published and signalled, that one is read, and then, for its own count, read again.
   */
  lemma {:induction false} CrossAgainAndAgain<T>(zero: T, crossings: nat) returns (es: seq<Event<T>>, s: State<T>)
    ensures Exec(zero, es) == Some(s) && s.crossings == crossings == Repeats(s.numbers)
    ensures s.reader == Waiting && s.counter == 0 && !s.locked && s.zero == zero
    decreases crossings
  {
    if crossings == 0 {
      es, s := [], Init(zero);
    } else {
      es, s := CrossAgainAndAgain(zero, crossings - 1);
      es, s := PublishAndClear(zero, es, s, zero);
      es, s := CrossAndReadTwice(zero, es, s, zero);
    }
  }

  lemma PublishAndClear<T>(zero: T, before: seq<Event<T>>, s: State<T>, m: T)
    returns (es: seq<Event<T>>, t: State<T>)
    requires Exec(zero, before) == Some(s) && s.reader == Waiting && s.counter == 0 && !s.locked
    ensures Exec(zero, es) == Some(t)
    ensures t == s.(history := s.history + [m], consumed := s.consumed + 1, reader := Cleared)
  {
    var s1 := Apply(s, Copy(m));
    var s2 := Apply(s1, Signal);
    t := Apply(s2, Clear);
    es := Extend(zero, before, s, Copy(m), s1);
    es := Extend(zero, es, s1, Signal, s2);
    es := Extend(zero, es, s2, Clear, t);
  }

  /** The next message is published and signalled between the reader's two steps. */
  lemma Cross<T>(zero: T, before: seq<Event<T>>, s: State<T>, m: T) returns (es: seq<Event<T>>, t: State<T>)
    requires Exec(zero, before) == Some(s) && s.reader == Cleared && s.counter == 0 && !s.locked
    ensures Exec(zero, es) == Some(t)
    ensures t == s.(history := s.history + [m], counter := 1, crossings := s.crossings + 1)
  {
    var s1 := Apply(s, Copy(m));
    t := Apply(s1, Signal);
    es := Extend(zero, before, s, Copy(m), s1);
    es := Extend(zero, es, s1, Signal, t);
  }

  /** The newest message is read for the count of the one it overtook, and then for its own. */
  lemma ReadTwice<T>(zero: T, before: seq<Event<T>>, s: State<T>, m: T) returns (es: seq<Event<T>>, t: State<T>)
    requires Exec(zero, before) == Some(s) && s.reader == Cleared && s.counter > 0 && !s.locked
    requires s.history != [] && Last(s.history) == m
    ensures Exec(zero, es) == Some(t)
    ensures t == s.(counter := 0, consumed := s.consumed + s.counter, reader := Waiting, values := s.values + [m, m],
                    numbers := s.numbers + [|s.history|, |s.history|])
  {
    var s1 := Apply(s, Read);
    var s2 := Apply(s1, Clear);
    t := Apply(s2, Read);
    es := Extend(zero, before, s, Read, s1);
    es := Extend(zero, es, s1, Clear, s2);
    es := Extend(zero, es, s2, Read, t);
  }

  lemma RepeatsTwice(numbers: seq<nat>, n: nat)
    requires numbers != [] ==> Last(numbers) < n
    ensures Repeats(numbers + [n, n]) == Repeats(numbers) + 1
  {
    RepeatsSnoc(numbers, n);
    RepeatsSnoc(numbers + [n], n);
    assert numbers + [n, n] == numbers + [n] + [n];
  }

  lemma CrossAndReadTwice<T>(zero: T, before: seq<Event<T>>, s: State<T>, m: T)
    returns (es: seq<Event<T>>, t: State<T>)
    requires Exec(zero, before) == Some(s) && s.reader == Cleared && s.counter == 0 && !s.locked
    ensures Exec(zero, es) == Some(t)
    ensures t.reader == Waiting && t.counter == 0 && !t.locked && t.zero == s.zero
    ensures t.crossings == s.crossings + 1 && Repeats(t.numbers) == Repeats(s.numbers) + 1
    ensures t.history == s.history + [m] && t.values == s.values + [m, m]
  {
    RunKeepsExact(zero, before);
    es, t := Cross(zero, before, s, m);
    RepeatsTwice(s.numbers, |t.history|);
    es, t := ReadTwice(zero, es, t, m);
  }

  /** The shortest such run: m is never read, and n is read twice. */
  lemma SameMessageReadTwice<T>(zero: T, m: T, n: T) returns (es: seq<Event<T>>, s: State<T>)
    ensures Exec(zero, es) == Some(s) && s.values == [n, n] && s.history == [m, n]
  {
    es, s := PublishAndClear(zero, [], Init(zero), m);
    es, s := CrossAndReadTwice(zero, es, s, n);
  }

  lemma Extend<T>(zero: T, es: seq<Event<T>>, s: State<T>, e: Event<T>, t: State<T>) returns (es': seq<Event<T>>)
    requires Exec(zero, es) == Some(s) && Enabled(s, e) && Apply(s, e) == t
    ensures Exec(zero, es') == Some(t)
  {
    es' := es + [e];
    assert es'[..|es'| - 1] == es;
  }
}
