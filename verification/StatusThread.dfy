/**
 The main thread's two writers of the peer's retained status as straight-line code
 (session_serving and publish_relayed_status in gateway/src/main.cpp), with the relay's RX
 thread running between any two of their actions.
 */
module StatusThread {
  import opened Basics
  import opened StatusAgreement

  class Shared {
    var s: State
    ghost var trace: seq<Event>

    ghost predicate Valid()
      reads this
    {
      Exec(trace, EVERY_LAPSE) == Some(s)
    }

    constructor ()
      ensures Valid() && s == INIT
    {
      s := INIT;
      trace := [];
    }

    method Act(e: Event)
      requires Valid() && Enabled(s, e)
      modifies this
      ensures Valid() && s == Apply(old(s), e) && trace == old(trace) + [e]
    {
      s := Apply(s, e);
      trace := trace + [e];
      assert trace[..|trace| - 1] == old(trace);
    }

    /** The RX thread publishes these statuses, in vain at times, and lets go of the lock if asked to. */
    method Meanwhile(statuses: seq<bool>, finish: bool)
      requires Valid()
      modifies this
      ensures Valid() && Undisturbed(old(s), s)
      ensures s.belief == if statuses == [] then old(s.belief) else Some(Last(statuses))
      ensures finish ==> !s.locked
    {
      for i := 0 to |statuses|
        invariant Valid() && Undisturbed(old(s), s)
        invariant s.belief == if i == 0 then old(s.belief) else Some(statuses[i - 1])
      {
        if s.locked {
          Act(Signal);
        }
        var inVain: bool, online: bool := *, *;
        if inVain {
          Act(Write(online, false));
        }
        Act(Write(statuses[i], true));
      }
      if s.locked && finish {
        Act(Signal);
      }
    }

    /**
     The greeting of a peer session that has just been accepted: it announces the belief of
     the moment it reads the channel, and says nothing at all while there is none.
     */
    method SessionServing(statuses: seq<bool>, lockTimesOut: bool, publishFails: bool)
      requires Valid() && s.fdOpen && !s.serving && s.main == Elsewhere
      modifies this
      ensures Valid() && s.serving && s.main == Elsewhere
      ensures var belief := if statuses == [] then old(s.belief) else Some(Last(statuses));
        s.topic == old(s.topic) + if lockTimesOut || publishFails || belief.None? then [] else [belief.value]
    {
      Act(BeginServing);
      Meanwhile(statuses, !lockTimesOut);
      Act(GreetingRead(!lockTimesOut));
      if s.main.Publishing? {
        Act(Publish(!publishFails));
      }
    }

    /**
     The status handler: nothing when nothing is pending; otherwise it announces the belief of
     the moment it reads the channel, and keeps the session unless that publish fails.
     */
    method PublishRelayedStatus(statuses: seq<bool>, lockTimesOut: bool, publishFails: bool)
      requires Valid() && s.serving && s.main == Elsewhere
      modifies this
      ensures Valid() && s.main == Elsewhere
      ensures old(s.counter) == 0 ==> s == old(s)
      ensures old(s.counter) > 0 && !lockTimesOut && !publishFails ==>
        s.belief.Some? && s.latest == s.belief && s.topic == old(s.topic) + [s.belief.value]
      ensures old(s.counter) > 0 && (lockTimesOut || publishFails) ==> s.topic == old(s.topic)
      ensures s.serving <==> old(s.counter) == 0 || lockTimesOut || !publishFails
    {
      if s.counter == 0 {
        return;
      }
      Act(Clear);
      Meanwhile(statuses, !lockTimesOut);
      RunStaysRepairable(trace, EVERY_LAPSE);
      Act(HandlerRead(!lockTimesOut));
      if s.main.Publishing? {
        Act(Publish(!publishFails));
      }
    }
  }

  /** What the main thread may rely on between its own actions. */
  ghost predicate Undisturbed(s: State, t: State) {
    && t.main == s.main && t.serving == s.serving && t.clean == s.clean && t.fdOpen == s.fdOpen
    && t.latest == s.latest && t.topic == s.topic
    && s.counter <= t.counter
  }
}
