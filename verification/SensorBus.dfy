/**
 chan_sensor_cmd (shared/app_channels.h): a channel whose validator refuses commands out of
 range, observed by a message subscriber that receives a copy of every accepted one.
 */
module SensorBus {
  import opened Basics

  const PERIOD_DEFAULT_MS: U32 := 5000
  const PERIOD_MIN_MS: U32 := 1000
  const PERIOD_MAX_MS: U32 := 300000

  const SET_INTERVAL: U32 := 0
  const TRIGGER: U32 := 1

  /** struct sensor_cmd; the kind is an enumeration's raw value. */
  datatype SensorCmd = SensorCmd(kind: U32, intervalMs: U32)

  /** The validator. */
  predicate InRange(c: SensorCmd) {
    || (c.kind == SET_INTERVAL && PERIOD_MIN_MS <= c.intervalMs <= PERIOD_MAX_MS)
    || c.kind == TRIGGER
  }

  datatype Outcome = Stored | Rejected | Busy

  class Bus {
    var queue: seq<SensorCmd>            // the subscriber's copies, oldest first
    ghost var accepted: seq<SensorCmd>   // everything ever stored
    ghost var taken: seq<SensorCmd>      // everything ever received
    ghost var attempted: seq<SensorCmd>  // every publish call

    ghost predicate Valid()
      reads this
    {
      accepted == taken + queue && forall c :: c in accepted ==> InRange(c)
    }

    constructor ()
      ensures Valid() && accepted == taken == attempted == []
    {
      queue, accepted, taken, attempted := [], [], [], [];
    }

    /** zbus_chan_pub: 0, -ENOMSG from the validator, or any other error. */
    method Publish(c: SensorCmd, busy: bool) returns (o: Outcome)
      requires Valid()
      modifies this
      ensures Valid()
      ensures o == Rejected <==> !InRange(c)
      ensures o == Rejected <==> c.kind > 1 || (c.kind == 0 && (c.intervalMs < 1000 || c.intervalMs > 300000))
      ensures o == Busy <==> InRange(c) && busy
      ensures accepted == old(accepted) + if o == Stored then [c] else []
      ensures taken == old(taken) && attempted == old(attempted) + [c]
    {
      attempted := attempted + [c];
      if !InRange(c) {
        return Rejected;
      }
      if busy {
        return Busy;
      }
      queue := queue + [c];
      accepted := accepted + [c];
      return Stored;
    }

    /** The front of the subscriber's queue. */
    method Take() returns (c: SensorCmd)
      requires Valid() && queue != []
      modifies this
      ensures Valid() && InRange(c)
      ensures taken == old(taken) + [c] && accepted == old(accepted) && attempted == old(attempted)
      ensures |queue| == |old(queue)| - 1
    {
      c := queue[0];
      assert c in accepted;
      queue := queue[1..];
      taken := taken + [c];
    }
  }

  /** The sample period after a history of commands: the last interval set, else the default. */
  function PeriodAfter(cs: seq<SensorCmd>): U32
    decreases |cs|
  {
    if cs == [] then PERIOD_DEFAULT_MS
    else if Last(cs).kind == SET_INTERVAL then Last(cs).intervalMs
    else PeriodAfter(cs[..|cs| - 1])
  }

  /** Whatever is accepted, the period stays within its bounds. */
  lemma {:induction false} PeriodBounded(cs: seq<SensorCmd>)
    requires forall c :: c in cs ==> InRange(c)
    ensures PERIOD_MIN_MS <= PeriodAfter(cs) <= PERIOD_MAX_MS
    decreases |cs|
  {
    if cs != [] && Last(cs).kind != SET_INTERVAL {
      PeriodBounded(cs[..|cs| - 1]);
    } else if cs != [] {
      assert Last(cs) in cs;
    }
  }

  lemma PeriodSnoc(cs: seq<SensorCmd>, c: SensorCmd)
    ensures PeriodAfter(cs + [c]) == if c.kind == SET_INTERVAL then c.intervalMs else PeriodAfter(cs)
  {
    assert (cs + [c])[..|cs|] == cs;
  }
}
