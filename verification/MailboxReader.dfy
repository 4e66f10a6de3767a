/**
 The main thread's reader of a latest-wins channel as straight-line code
 (publish_pending_telemetry and publish_relayed in gateway/src/main.cpp, up to the publish),
 with the publishing thread running between any two of its actions.
 */
module MailboxReader {
  import opened Basics
  import opened Mailbox

  class Shared<T(==)> {
    var s: State<T>
    ghost var trace: seq<Event<T>>

    ghost predicate Valid()
      reads this
    {
      Exec(s.zero, trace) == Some(s)
    }

    constructor (zero: T)
      ensures Valid() && s == Init(zero)
    {
      s := Init(zero);
      trace := [];
    }

    method Act(e: Event<T>)
      requires Valid() && Enabled(s, e)
      modifies this
      ensures Valid() && s == Apply(old(s), e) && s.zero == old(s.zero) && trace == old(trace) + [e]
    {
      s := Apply(s, e);
      trace := trace + [e];
      assert trace[..|trace| - 1] == old(trace);
    }

    /** The publisher runs: whole publishes, half of one, or nothing. */
    method Meanwhile(messages: seq<T>, finish: bool)
      requires Valid()
      modifies this
      ensures Valid() && Grown(old(s), s) && s.zero == old(s.zero)
      ensures s.history == old(s.history) + messages
      ensures finish ==> !s.locked
    {
      for i := 0 to |messages|
        invariant Valid() && Grown(old(s), s) && s.zero == old(s.zero)
        invariant s.history == old(s.history) + messages[..i]
      {
        if s.locked {
          Act(Signal);
        }
        Act(Copy(messages[i]));
      }
      if s.locked && finish {
        Act(Signal);
      }
    }

    /**
     Reads nothing when nothing is pending. Otherwise it takes every pending count at once
     and, unless the lock times out, returns the newest message, whose number is the counts
     taken so far plus those that have come in since.
     */
    method TakeNewest(messages: seq<T>, lockTimesOut: bool) returns (r: Option<T>)
      requires Valid() && s.reader == Waiting
      modifies this
      ensures Valid() && s.reader == Waiting
      ensures old(s.counter) == 0 ==> r.None? && s == old(s)
      ensures old(s.counter) > 0 ==> s.consumed == old(s.consumed) + old(s.counter)
      ensures r.Some? <==> old(s.counter) > 0 && !lockTimesOut
      ensures r.Some? ==> s.history != [] && r.value == Last(s.history) && |s.history| == s.consumed + s.counter
      ensures r.Some? ==> s.values == old(s.values) + [r.value] && s.history == old(s.history) + messages
    {
      if s.counter == 0 {
        return None;
      }
      Act(Clear);
      Meanwhile(messages, !lockTimesOut);
      if lockTimesOut {
        Act(ReadFails);
        return None;
      }
      RunKeepsExact(s.zero, trace);
      r := Some(Newest(s));
      Act(Read);
    }
  }

  /** What the reader may rely on while the publisher runs. */
  ghost predicate Grown<T>(s: State<T>, t: State<T>) {
    && t.reader == s.reader && t.consumed == s.consumed && t.values == s.values
    && s.counter <= t.counter && s.history <= t.history
  }
}
