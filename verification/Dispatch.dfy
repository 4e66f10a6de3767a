/** Command semantics (shared/commands.cpp): duplicate suppression, dispatch, and the sensor bus. */
module Dispatch {
  import opened Basics
  import opened CommandSchema
  import opened Protocol
  import opened SensorBus

  /** struct command_result; the diagnostic text is left out. */
  datatype Result = Result(status: AckStatus, hasInfo: bool)

  /** What a command asks of the sensor thread, if anything. */
  function SensorRequest(body: Body): Option<SensorCmd> {
    match body
    case SetInterval(ms) => Some(SensorCmd(SET_INTERVAL, ms))
    case TriggerMeasurement => Some(SensorCmd(TRIGGER, 0))
    case _ => None
  }

  function SensorRequests(cmds: seq<Command>): seq<SensorCmd>
    decreases |cmds|
  {
    if cmds == [] then []
    else SensorRequests(cmds[..|cmds| - 1]) +
         match SensorRequest(Last(cmds).body) case None => [] case Some(c) => [c]
  }

  /**
   Block collapse, by position: of each maximal run of adjacent equal sequence numbers the
   first command remains.
   */
  predicate OpensBlock(cmds: seq<Command>, k: nat)
    requires k < |cmds|
  {
    k == 0 || cmds[k].sequence != cmds[k - 1].sequence
  }

  function Collapse(cmds: seq<Command>): seq<Command>
    decreases |cmds|
  {
    if cmds == [] then []
    else Collapse(cmds[..|cmds| - 1]) + if OpensBlock(cmds, |cmds| - 1) then [Last(cmds)] else []
  }

  class CommandHandler {
    var haveLast: bool
    var lastSequence: U32
    const bus: Bus
    ghost var delivered: seq<Command>

    /** The suppression state and the bus traffic are functions of the deliveries alone. */
    ghost predicate Valid()
      reads this, bus
    {
      && bus.Valid()
      && (haveLast <==> delivered != [])
      && (haveLast ==> lastSequence == Last(delivered).sequence)
      && bus.attempted == SensorRequests(Collapse(delivered))
    }

    constructor (bus: Bus)
      requires bus.Valid() && bus.attempted == []
      ensures Valid() && delivered == [] && this.bus == bus
    {
      haveLast, lastSequence := false, 0;
      this.bus := bus;
      delivered := [];
    }

    /**
     handle_command. In every reachable state the commands attempted on the sensor bus are
     exactly those of the deliveries with each run of equal sequence numbers collapsed to
     its first.
     */
    method Handle(cmd: Command, busy: bool) returns (r: Result)
      requires Valid()
      modifies this, bus
      ensures Valid() && delivered == old(delivered) + [cmd]
      ensures bus.attempted == SensorRequests(Collapse(old(delivered) + [cmd]))
      ensures bus.taken == old(bus.taken)
      ensures bus.accepted == old(bus.accepted) +
        if OpensBlock(delivered, |delivered| - 1) && SensorRequest(cmd.body).Some? && r.status == Ok
        then [SensorRequest(cmd.body).value] else []
      ensures !OpensBlock(delivered, |delivered| - 1) ==> r == Result(Ok, false)
      ensures OpensBlock(delivered, |delivered| - 1) ==> r == Answer(cmd.body, busy)
      ensures if old(delivered) != [] && Last(old(delivered)).sequence == cmd.sequence
              then r == Result(Ok, false) && bus.attempted == old(bus.attempted) && bus.accepted == old(bus.accepted)
              else CarriedOut(cmd.body, busy, r, old(bus.attempted), bus.attempted, old(bus.accepted), bus.accepted)
    {
      delivered := delivered + [cmd];
      assert delivered[..|delivered| - 1] == old(delivered);
      if haveLast && cmd.sequence == lastSequence {
        assert Collapse(delivered) == Collapse(old(delivered));
        return Result(Ok, false);
      }
      ghost var executed := Collapse(old(delivered)) + [cmd];
      assert Collapse(delivered) == executed && executed[..|executed| - 1] == Collapse(old(delivered));
      r := Apply(cmd, busy);
      haveLast := true;
      lastSequence := cmd.sequence;
    }

    /** apply_command: one case per arm of the oneof. */
    method Apply(cmd: Command, busy: bool) returns (r: Result)
      requires bus.Valid()
      modifies bus
      ensures bus.Valid() && r == Answer(cmd.body, busy) && bus.taken == old(bus.taken)
      ensures bus.attempted == old(bus.attempted) + (match SensorRequest(cmd.body) case None => [] case Some(c) => [c])
      ensures bus.accepted == old(bus.accepted) +
        if SensorRequest(cmd.body).Some? && r.status == Ok then [SensorRequest(cmd.body).value] else []
      ensures CarriedOut(cmd.body, busy, r, old(bus.attempted), bus.attempted, old(bus.accepted), bus.accepted)
    {
      assert bus.accepted + [] == bus.accepted;
      match cmd.body
      case SetInterval(ms) => r := Forward(SensorCmd(SET_INTERVAL, ms), busy);
      case TriggerMeasurement => r := Forward(SensorCmd(TRIGGER, 0), busy);
      case GetDeviceInfo => r := Result(Ok, true);
      case NoPayload => r := Result(Unsupported, false);
    }

    method Forward(c: SensorCmd, busy: bool) returns (r: Result)
      requires bus.Valid()
      modifies bus
      ensures bus.Valid() && bus.taken == old(bus.taken) && bus.attempted == old(bus.attempted) + [c]
      ensures bus.accepted == old(bus.accepted) + if r.status == Ok then [c] else []
      ensures r == Result(if !InRange(c) then InvalidArgument else if busy then Failed else Ok, false)
    {
      var o := bus.Publish(c, busy);
      match o
      case Stored => r := Result(Ok, false);
      case Rejected => r := Result(InvalidArgument, false);
      case Busy => r := Result(Failed, false);
    }
  }

  /** The status a fresh command is acknowledged with, and whether device information comes with it. */
  function Answer(body: Body, busy: bool): Result {
    match body
    case SetInterval(ms) =>
      Result(if !(PERIOD_MIN_MS <= ms <= PERIOD_MAX_MS) then InvalidArgument else if busy then Failed else Ok, false)
    case TriggerMeasurement => Result(if busy then Failed else Ok, false)
    case GetDeviceInfo => Result(Ok, true)
    case NoPayload => Result(Unsupported, false)
  }

  /**
   What a command asks for and how it is answered, in the sensor bus's own terms. An interval is
   INVALID_ARGUMENT exactly outside 1000 to 300000 and otherwise becomes the period; a trigger is
   passed on as a trigger and leaves the period alone; a full or busy bus makes either FAILED; a
   request for device information is answered with it; anything else is UNSUPPORTED.
   */
  predicate CarriedOut(body: Body, busy: bool, r: Result, attempted: seq<SensorCmd>, attempted': seq<SensorCmd>,
                       accepted: seq<SensorCmd>, accepted': seq<SensorCmd>)
  {
    match body
    case SetInterval(ms) =>
      && !r.hasInfo
      && attempted' == attempted + [SensorCmd(0, ms)]
      && (r.status == InvalidArgument <==> ms < 1000 || ms > 300000)
      && (r.status == Failed <==> 1000 <= ms <= 300000 && busy)
      && (if 1000 <= ms <= 300000 && !busy
          then r.status == Ok && accepted' == accepted + [SensorCmd(0, ms)] && PeriodAfter(accepted') == ms
          else accepted' == accepted)
    case TriggerMeasurement =>
      && !r.hasInfo
      && attempted' == attempted + [SensorCmd(1, 0)]
      && r.status == (if busy then Failed else Ok)
      && accepted' == accepted + (if busy then [] else [SensorCmd(1, 0)])
      && PeriodAfter(accepted') == PeriodAfter(accepted)
    case GetDeviceInfo => r == Result(Ok, true) && attempted' == attempted && accepted' == accepted
    case NoPayload => r == Result(Unsupported, false) && attempted' == attempted && accepted' == accepted
  }

  // ---- what block collapse means --------------------------------------------------------

  /** The positions that open a block, in order. */
  function Openings(cmds: seq<Command>): (ks: seq<nat>)
    ensures forall i :: 0 <= i < |ks| ==> ks[i] < |cmds|
    decreases |cmds|
  {
    if cmds == [] then []
    else Openings(cmds[..|cmds| - 1]) + if OpensBlock(cmds, |cmds| - 1) then [|cmds| - 1] else []
  }

  lemma {:induction false} OpeningsAreAll(cmds: seq<Command>)
    ensures var ks := Openings(cmds);
      && (forall i, j :: 0 <= i < j < |ks| ==> ks[i] < ks[j])
      && (forall k :: 0 <= k < |cmds| ==> (k in ks <==> OpensBlock(cmds, k)))
    decreases |cmds|
  {
    if cmds != [] {
      var before := cmds[..|cmds| - 1];
      OpeningsAreAll(before);
      forall k | 0 <= k < |cmds| ensures k in Openings(cmds) <==> OpensBlock(cmds, k) {
        if k < |before| {
          assert k in Openings(cmds) <==> k in Openings(before);
          assert OpensBlock(before, k) <==> OpensBlock(cmds, k);
        }
      }
    }
  }

  lemma {:induction false} CollapseFollowsOpenings(cmds: seq<Command>)
    ensures var ks := Openings(cmds);
      && |Collapse(cmds)| == |ks|
      && (forall i :: 0 <= i < |ks| ==> Collapse(cmds)[i] == cmds[ks[i]])
    decreases |cmds|
  {
    if cmds != [] {
      CollapseFollowsOpenings(cmds[..|cmds| - 1]);
    }
  }

  lemma {:induction false} NeighboursDiffer(cmds: seq<Command>)
    ensures var out := Collapse(cmds);
      && (cmds != [] ==> out != [] && Last(out).sequence == Last(cmds).sequence)
      && (forall i :: 0 < i < |out| ==> out[i].sequence != out[i - 1].sequence)
    decreases |cmds|
  {
    if cmds != [] {
      NeighboursDiffer(cmds[..|cmds| - 1]);
    }
  }

  /**
   Collapse keeps exactly the commands that open a block, once each and in order; adjacent
   survivors differ in sequence.
   */
  lemma CollapseKeepsOpenings(cmds: seq<Command>)
    ensures var (ks, out) := (Openings(cmds), Collapse(cmds));
      && |out| == |ks|
      && (forall i :: 0 <= i < |ks| ==> out[i] == cmds[ks[i]])
      && (forall i, j :: 0 <= i < j < |ks| ==> ks[i] < ks[j])
      && (forall k :: 0 <= k < |cmds| ==> (k in ks <==> OpensBlock(cmds, k)))
      && (forall i :: 0 < i < |out| ==> out[i].sequence != out[i - 1].sequence)
  {
    OpeningsAreAll(cmds);
    CollapseFollowsOpenings(cmds);
    NeighboursDiffer(cmds);
  }

  /**
   Redelivery: a block of commands with one sequence number, however long and whichever of
   its copies survive the way, executes its first survivor and nothing else, and not even
   that when the block continues the previous one.
   */
  lemma {:induction false} BlockExecutesOnce(before: seq<Command>, copies: seq<Command>, sequence: U32)
    requires forall c :: c in copies ==> c.sequence == sequence
    ensures Collapse(before + copies) == Collapse(before) +
      if copies == [] || (before != [] && Last(before).sequence == sequence) then [] else [copies[0]]
    decreases |copies|
  {
    if copies == [] {
      assert before + copies == before;
    } else {
      var shorter := copies[..|copies| - 1];
      var all := before + copies;
      assert all[..|all| - 1] == before + shorter;
      assert Last(copies) in copies;
      if shorter != [] {
        assert Last(shorter) in copies;
        assert all[|all| - 2] == Last(shorter);
      }
      BlockExecutesOnce(before, shorter, sequence);
    }
  }

  /** Redelivering a command any number of times does not change what any later delivery does. */
  lemma {:induction false} RedeliveryIsInvisible(before: seq<Command>, copies: seq<Command>, after: seq<Command>)
    requires copies != [] && forall c :: c in copies ==> c.sequence == copies[0].sequence
    ensures Collapse(before + copies + after) == Collapse(before + [copies[0]] + after)
    decreases |after|
  {
    var many, once := before + copies + after, before + [copies[0]] + after;
    if after == [] {
      assert many == before + copies && once == before + [copies[0]];
      BlockExecutesOnce(before, copies, copies[0].sequence);
      BlockExecutesOnce(before, [copies[0]], copies[0].sequence);
    } else {
      var shorter := after[..|after| - 1];
      assert many[..|many| - 1] == before + copies + shorter;
      assert once[..|once| - 1] == before + [copies[0]] + shorter;
      RedeliveryIsInvisible(before, copies, shorter);
      assert Last(copies) in copies;
      assert OpensBlock(many, |many| - 1) <==> OpensBlock(once, |once| - 1);
    }
  }
}
