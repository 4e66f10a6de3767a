/**
 What the peer executes of what the gateway accepted: the FIFO relay of the RoundTrip model
 joined to the duplicate suppression of shared/commands.cpp.
 */
module PeerHistory {
  import opened Basics
  import opened RoundTrip
  import CommandSchema
  import Dispatch
  import Inbound

  /** The places of everything the peer has handled since it booted, holds, or has waiting, oldest first. */
  function Trail(s: State): seq<nat> {
    HandledPlaces(s.handled) + (if s.peer.PeerHolding? then [s.peer.piece.place] else []) + PiecePlaces(s.down)
  }

  function HandledPlaces(hs: seq<Handled>): seq<nat> {
    seq(|hs|, k requires 0 <= k < |hs| => hs[k].place)
  }

  function PiecePlaces(ps: seq<Piece>): seq<nat> {
    seq(|ps|, k requires 0 <= k < |ps| => ps[k].place)
  }

  function HandledCommands(hs: seq<Handled>): seq<CommandSchema.Command> {
    seq(|hs|, k requires 0 <= k < |hs| => hs[k].command)
  }

  /** One past the place of the latest command that can have been delivered. */
  function Reached(s: State): nat {
    |s.completed| + if s.tx.TxWaiting? || s.tx.TxGivingUp? || (s.tx.TxSending? && s.tx.delivered) then 1 else 0
  }

  /** How bytes are read; an argument of the lemmas below, so that they do not depend on how. */
  type Reader = seq<Byte> -> Option<CommandSchema.Command>

  /** The piece is the whole of the command accepted at its place. */
  predicate Means(read: Reader, s: State, p: Piece) {
    p.place < |s.accepted| && p.command.Some? && p.command == read(s.accepted[p.place].bytes)
  }

  predicate Recorded(read: Reader, s: State, h: Handled) {
    h.place < |s.accepted| && read(s.accepted[h.place].bytes) == Some(h.command)
  }

  /** What is delivered arrives whole. */
  predicate DeliversWhole(read: Reader, s: State) {
    s.tx.TxSending? ==>
      var pieces := Cut(s.tx.cmd.bytes, |s.completed|);
      && |pieces| == 1 && pieces[0].place == |s.completed|
      && pieces[0].command.Some? && pieces[0].command == read(s.tx.cmd.bytes)
  }

  predicate Increasing(ns: seq<nat>) {
    forall i, j :: 0 <= i < j < |ns| ==> ns[i] < ns[j]
  }

  predicate IncreasingBelow(ns: seq<nat>, bound: nat) {
    Increasing(ns) && forall k :: 0 <= k < |ns| ==> ns[k] < bound
  }

  predicate TrailSound(s: State) {
    IncreasingBelow(Trail(s), Reached(s))
  }

  ghost predicate ContentsSound(read: Reader, s: State) {
    && (forall k :: 0 <= k < |s.down| ==> Means(read, s, s.down[k]))
    && (s.peer.PeerHolding? ==> Means(read, s, s.peer.piece))
    && (forall k :: 0 <= k < |s.handled| ==> Recorded(read, s, s.handled[k]))
  }

  lemma DeliveryExtendsTrail(read: Reader, s: State)
    requires s.tx.TxSending? && !s.tx.delivered && DeliversWhole(read, s)
    ensures Trail(Apply(s, RoundTrip.Deliver)) == Trail(s) + [|s.completed|]
  {
    var t := Apply(s, RoundTrip.Deliver);
    assert PiecePlaces(t.down) == PiecePlaces(s.down) + [|s.completed|];
  }

  lemma ReceiptKeepsTrail(s: State)
    requires s.peer.PeerIdle? && s.down != []
    ensures Trail(Apply(s, PeerReceive)) == Trail(s)
  {
    var t := Apply(s, PeerReceive);
    assert PiecePlaces(s.down) == [t.peer.piece.place] + PiecePlaces(t.down);
    assert Trail(s) == HandledPlaces(s.handled) + [t.peer.piece.place] + PiecePlaces(t.down);
  }

  lemma AnswerKeepsTrail(s: State, lost: bool)
    requires s.peer.PeerHolding? && s.peer.piece.command.Some?
    ensures Trail(Apply(s, PeerAnswer(lost))) == Trail(s)
  {
    var t := Apply(s, PeerAnswer(lost));
    assert HandledPlaces(t.handled) == HandledPlaces(s.handled) + [s.peer.piece.place];
    assert Trail(t) == HandledPlaces(s.handled) + [s.peer.piece.place] + PiecePlaces(s.down);
  }

  /** Pieces move along the trail without ever changing places; a delivery extends it and a reboot ends it. */
  lemma StepMovesTrail(read: Reader, s: State, e: Event)
    requires Enabled(s, e) && DeliversWhole(read, s) && (s.peer.PeerHolding? ==> s.peer.piece.command.Some?)
    ensures Trail(Apply(s, e)) ==
            if e.PeerReboot? then [] else if e.Deliver? then Trail(s) + [|s.completed|] else Trail(s)
  {
    if e.Deliver? {
      DeliveryExtendsTrail(read, s);
    } else if e.PeerReceive? {
      ReceiptKeepsTrail(s);
    } else if e.PeerAnswer? {
      AnswerKeepsTrail(s, e.lost);
    }
  }

  lemma StepReaches(s: State, e: Event)
    requires Enabled(s, e)
    ensures Reached(s) <= Reached(Apply(s, e))
    ensures e.Deliver? ==> Reached(s) == |s.completed| && Reached(Apply(s, e)) == |s.completed| + 1
  {}

  lemma BoundRises(ns: seq<nat>, bound: nat, higher: nat)
    requires IncreasingBelow(ns, bound) && bound <= higher
    ensures IncreasingBelow(ns, higher) && IncreasingBelow(ns + [bound], higher + 1)
  {}

  lemma StepKeepsTrail(read: Reader, s: State, e: Event)
    requires Enabled(s, e) && DeliversWhole(read, s) && ContentsSound(read, s) && TrailSound(s)
    ensures TrailSound(Apply(s, e))
  {
    var (reached, more) := (Reached(s), Reached(Apply(s, e)));
    var trail := Trail(s);
    StepMovesTrail(read, s, e);
    StepReaches(s, e);
    BoundRises(trail, reached, if e.Deliver? then reached else more);
  }

  /** What the peer is still to receive means what it meant, and so does what is delivered now. */
  lemma StepKeepsMeaning(read: Reader, s: State, e: Event)
    requires Enabled(s, e) && DeliversWhole(read, s) && Ordered(s)
    requires forall k :: 0 <= k < |s.down| ==> Means(read, s, s.down[k])
    requires s.peer.PeerHolding? ==> Means(read, s, s.peer.piece)
    ensures var t := Apply(s, e);
      && (forall k :: 0 <= k < |t.down| ==> Means(read, t, t.down[k]))
      && (t.peer.PeerHolding? ==> Means(read, t, t.peer.piece))
  {
    if e.Deliver? {
      assert s.accepted[|s.completed|] == s.tx.cmd;
    }
  }

  lemma StepKeepsContents(read: Reader, s: State, e: Event)
    requires Enabled(s, e) && DeliversWhole(read, s) && Ordered(s) && ContentsSound(read, s)
    ensures ContentsSound(read, Apply(s, e))
  {
    StepKeepsMeaning(read, s, e);
    var t := Apply(s, e);
    assert s.accepted <= t.accepted;
    forall k | 0 <= k < |t.handled| ensures Recorded(read, t, t.handled[k]) {
      if k < |s.handled| {
        assert Recorded(read, s, s.handled[k]);
      }
    }
  }

  /** Short commands do arrive whole. */
  lemma ShortIsDeliveredWhole(s: State)
    requires AllShort(s)
    ensures DeliversWhole(Inbound.Understood, s)
  {
    if s.tx.TxSending? {
      ShortIsWhole(s.tx.cmd, |s.completed|);
    }
  }

  lemma {:induction false} RunKeepsHistory(es: seq<Event>, allowed: set<Lapse>)
    requires Exec(es, allowed).Some? && LongCommand !in allowed
    ensures TrailSound(Exec(es, allowed).value) && ContentsSound(Inbound.Understood, Exec(es, allowed).value)
    decreases |es|
  {
    if es != [] {
      var before := es[..|es| - 1];
      RunKeepsHistory(before, allowed);
      RunConserves(before, allowed);
      RunKeepsShort(before, allowed);
      ShortIsDeliveredWhole(Exec(before, allowed).value);
      StepKeepsTrail(Inbound.Understood, Exec(before, allowed).value, Last(es));
      StepKeepsContents(Inbound.Understood, Exec(before, allowed).value, Last(es));
    }
  }

  /** The commands accepted from one place up to another all carry the same sequence: a QoS 1 redelivery. */
  predicate IsBlock(accepted: seq<Command>, from: nat, to: nat)
    requires from <= to <= |accepted|
  {
    forall k :: from <= k < to ==> accepted[k].sequence == accepted[from].sequence
  }

  /** The sequence a command was accepted with is the one its bytes say. */
  predicate Reads(read: Reader, c: Command) {
    read(c.bytes).Some? && read(c.bytes).value.sequence == c.sequence
  }

  ghost predicate AcceptsWhatItReads(read: Reader, s: State) {
    forall k :: 0 <= k < |s.accepted| ==> Reads(read, s.accepted[k])
  }

  lemma StepAcceptsWhatItReads(read: Reader, s: State, e: Event)
    requires AcceptsWhatItReads(read, s) && Enabled(s, e) && (e.Accept? ==> Reads(read, e.cmd))
    ensures AcceptsWhatItReads(read, Apply(s, e))
  {}

  lemma {:induction false} RunAcceptsWhatItReads(es: seq<Event>, allowed: set<Lapse>)
    requires Exec(es, allowed).Some?
    ensures AcceptsWhatItReads(Inbound.Understood, Exec(es, allowed).value)
    decreases |es|
  {
    if es != [] {
      RunAcceptsWhatItReads(es[..|es| - 1], allowed);
      StepAcceptsWhatItReads(Inbound.Understood, Exec(es[..|es| - 1], allowed).value, Last(es));
    }
  }

  /** Of a block of copies, only the first that is handled opens a block of what is handled. */
  lemma BlockOpensOnce(read: Reader, s: State, from: nat, to: nat, i: nat, j: nat)
    requires ContentsSound(read, s) && TrailSound(s)
    requires AcceptsWhatItReads(read, s)
    requires from <= to <= |s.accepted| && IsBlock(s.accepted, from, to)
    requires i < j < |s.handled| && from <= s.handled[i].place && s.handled[j].place < to
    ensures !Dispatch.OpensBlock(HandledCommands(s.handled), j)
  {
    var (earlier, later) := (s.handled[j - 1], s.handled[j]);
    assert Recorded(read, s, earlier) && Recorded(read, s, later);
    assert Trail(s)[i] == s.handled[i].place && Trail(s)[j - 1] == earlier.place && Trail(s)[j] == later.place;
    assert Reads(read, s.accepted[earlier.place]) && Reads(read, s.accepted[later.place]);
  }

  /**
   Whatever acks and sends go wrong, as long as no accepted command exceeds the peer's buffer:
   what the peer has handled since it booted is an ordered selection of what main accepted,
   each decoded as the gateway decoded it; and of a block of redelivered copies, handle_command
   lets at most the first that arrives through.
   */
  lemma PeerExecutesEachBlockOnce(es: seq<Event>, allowed: set<Lapse>, from: nat, to: nat)
    requires Exec(es, allowed).Some? && LongCommand !in allowed
    requires var accepted := Exec(es, allowed).value.accepted; from <= to <= |accepted| && IsBlock(accepted, from, to)
    ensures var s := Exec(es, allowed).value;
      && Increasing(HandledPlaces(s.handled))
      && (forall k :: 0 <= k < |s.handled| ==> Recorded(Inbound.Understood, s, s.handled[k]))
      && (forall i, j :: 0 <= i < j < |s.handled| && from <= s.handled[i].place && s.handled[j].place < to ==>
            !Dispatch.OpensBlock(HandledCommands(s.handled), j))
  {
    RunKeepsHistory(es, allowed);
    RunAcceptsWhatItReads(es, allowed);
    var s := Exec(es, allowed).value;
    var places := HandledPlaces(s.handled);
    forall i, j | 0 <= i < j < |places| ensures places[i] < places[j] {
      assert Trail(s)[i] == places[i] && Trail(s)[j] == places[j];
    }
    forall i, j | 0 <= i < j < |s.handled| && from <= s.handled[i].place && s.handled[j].place < to
      ensures !Dispatch.OpensBlock(HandledCommands(s.handled), j)
    {
      BlockOpensOnce(Inbound.Understood, s, from, to, i, j);
    }
  }
}
