/**
 The receive loop's liveness half as straight-line code (drain_heartbeats, heartbeat_isr and
 the end of rx_thread's iteration in gateway/src/relay.cpp), with the interrupt and the clock
 running between any two of its actions.
 */
module HeartbeatThread {
  import opened Basics
  import opened Heartbeat
  import opened Liveness

  /** heartbeat_q with the frames themselves. */
  class FrameQueue {
    var frames: seq<seq<Byte>>

    /** The same queue as the Liveness model sees it: whether each frame unpacks. */
    ghost function Model(): seq<bool>
      reads this
    {
      seq(|frames|, k requires 0 <= k < |frames| reads this => Understood(frames[k]))
    }

    constructor ()
      ensures frames == []
    {
      frames := [];
    }

    /** heartbeat_isr: a full queue drops the frame. */
    method Put(frame: seq<Byte>)
      requires |frames| <= QUEUE_DEPTH
      modifies this
      ensures |frames| <= QUEUE_DEPTH
      ensures frames == if |old(frames)| < QUEUE_DEPTH then old(frames) + [frame] else old(frames)
      ensures forall s: State | s.queue == old(Model()) :: Interrupt(s, Understood(frame)).queue == Model()
    {
      if |frames| < QUEUE_DEPTH {
        frames := frames + [frame];
      }
    }

    /** drain_heartbeats: empties the queue and says whether any frame in it was understood. */
    method Drain() returns (seen: bool)
      modifies this
      ensures frames == []
      ensures seen <==> exists f :: f in old(frames) && Understood(f)
      ensures Model() == [] && (seen <==> true in old(Model()))
    {
      seen := false;
      var box := new BeatBox(Beat(Boot, 0, 0));
      ghost var taken := [];
      while frames != []
        invariant old(frames) == taken + frames
        invariant seen <==> exists f :: f in taken && Understood(f)
        decreases |frames|
      {
        var frame := frames[0];
        taken := taken + [frame];
        frames := frames[1..];
        var ok := Unpack(frame, box);
        assert frame in taken;
        if ok {
          seen := true;
        }
      }
      assert taken == old(frames);
      ghost var model := old(Model());
      assert forall k :: 0 <= k < |model| ==> model[k] == Understood(old(frames)[k]);
    }
  }

  class ReceiveLoop {
    var s: State
    const env: Env
    const start: int
    ghost var trace: seq<Event>

    ghost predicate Valid()
      reads this
    {
      Exec(start, trace, env) == Some(s)
    }

    constructor (start: int, env: Env)
      ensures Valid() && s == Init(start) && this.start == start && this.env == env
    {
      s := Init(start);
      this.start, this.env, trace := start, env, [];
    }

    method Act(e: Event)
      requires Valid() && Enabled(s, e, env)
      modifies this
      ensures Valid() && s == Apply(old(s), e, env) && trace == old(trace) + [e]
    {
      s := Apply(s, e, env);
      trace := trace + [e];
      assert trace[..|trace| - 1] == old(trace);
    }

    /** Time passes and frames arrive. */
    method Meanwhile()
      requires Valid()
      modifies this
      ensures Valid() && Undisturbed(old(s), s)
    {
      var steps: nat := *;
      while steps > 0
        invariant Valid() && Undisturbed(old(s), s)
      {
        var e: Event := *;
        if (e.Tick? || e.Frame?) && Enabled(s, e, env) {
          Act(e);
        }
        steps := steps - 1;
      }
    }

    /**
     One iteration after isotp_recv. A beat waiting when it begins is always seen by it, and
     it publishes exactly when the peer's state changes, once, with the new state.
     */
    method Iteration()
      requires Valid() && s.rx.Elsewhere?
      modifies this
      ensures Valid() && s.rx.Elsewhere?
      ensures true in old(s.queue) ==> s.state == Online
      ensures s.published == old(s.published) + if s.state != old(s.state) then [s.state == Online] else []
      ensures s.state == Unknown ==> old(s.state) == Unknown
    {
      Act(Begin);
      var bursts: nat := *;
      while s.queue != []
        invariant Valid() && s.rx.Draining?
        invariant true in old(s.queue) ==> s.rx.seen || true in s.queue
        invariant s.state == old(s.state) && s.published == old(s.published)
        decreases bursts, |s.queue|
      {
        ghost var before := s.queue;
        assert before == [before[0]] + before[1..];
        Act(Get);
        if bursts > 0 {
          bursts := bursts - 1;
          Meanwhile();
        }
      }
      Act(Empty);
      if s.rx.Drained? {
        Meanwhile();
        Act(ReadClock);
      }
    }
  }

  /** What the receive loop may rely on between its own actions. */
  ghost predicate Undisturbed(s: State, t: State) {
    && t.rx == s.rx && t.state == s.state && t.lastSeen == s.lastSeen && t.lastStep == s.lastStep
    && t.published == s.published
    && s.now <= t.now
    && s.queue <= t.queue
  }
}
