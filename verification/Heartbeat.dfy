/** The hand-packed heartbeat frame of shared/can_link.h. */
module Heartbeat {
  import opened Basics

  const LAYOUT_VERSION: Byte := 1
  const FRAME_LENGTH := 8
  const RESERVED: Byte := 0xFF

  datatype NodeState = Boot | WarmingUp | Running | SensorError

  /** enum heartbeat_state's value on the wire. */
  function Code(state: NodeState): Byte {
    match state
    case Boot => 0
    case WarmingUp => 1
    case Running => 2
    case SensorError => 3
  }

  datatype Beat = Beat(state: NodeState, uptime: U32, sequenceLow: Byte)

  /** A struct heartbeat that unpacking fills in place. */
  class BeatBox {
    var beat: Beat

    constructor (beat: Beat)
      ensures this.beat == beat
    {
      this.beat := beat;
    }
  }

  /** The number four little-endian bytes stand for. */
  function LittleEndian(b: seq<Byte>): (v: U32)
    requires |b| == 4
  {
    var (b0: int, b1: int, b2: int, b3: int) := (b[0], b[1], b[2], b[3]);
    b0 + 256 * (b1 + 256 * (b2 + 256 * b3))
  }

  /** The four bytes the shifts and masks extract. */
  lemma ShiftsExtractLittleEndian(v: U32)
    ensures var b: seq<Byte> := [v % 256, v / 0x100 % 256, v / 0x1_0000 % 256, v / 0x100_0000 % 256];
            LittleEndian(b) == v
  {
    assert v / 0x1_0000 == v / 0x100 / 256;
    assert v / 0x100_0000 == v / 0x1_0000 / 256;
    assert v / 0x100_0000 < 256;
  }

  /** The frame says exactly this beat, byte by byte; the reserved byte is left to the sender. */
  predicate Says(frame: seq<Byte>, beat: Beat) {
    && |frame| == FRAME_LENGTH
    && frame[0] == LAYOUT_VERSION
    && frame[1] == Code(beat.state)
    && LittleEndian(frame[2..6]) == beat.uptime
    && frame[6] == beat.sequenceLow
  }

  method Pack(beat: Beat, out: array<Byte>)
    requires out.Length >= FRAME_LENGTH
    modifies out
    ensures Says(out[..8], beat) && out[7] == RESERVED
    ensures out[0] == 1 && out[6] == beat.sequenceLow && out[7] == 0xFF
    ensures out[1] == match beat.state case Boot => 0 case WarmingUp => 1 case Running => 2 case SensorError => 3
    ensures var (b2: int, b3: int, b4: int, b5: int) := (out[2], out[3], out[4], out[5]);
      b2 + 0x100 * b3 + 0x1_0000 * b4 + 0x100_0000 * b5 == beat.uptime
    ensures out[8..] == old(out[8..])
  {
    out[0] := LAYOUT_VERSION;
    out[1] := Code(beat.state);
    out[2] := beat.uptime % 256;
    out[3] := beat.uptime / 0x100 % 256;
    out[4] := beat.uptime / 0x1_0000 % 256;
    out[5] := beat.uptime / 0x100_0000 % 256;
    out[6] := beat.sequenceLow;
    out[7] := RESERVED;
    ShiftsExtractLittleEndian(beat.uptime);
    assert out[..8][2..6] == [out[2], out[3], out[4], out[5]];
  }

  /** Accepted exactly when some beat is what the frame says; otherwise nothing is written. */
  method Unpack(frame: seq<Byte>, out: BeatBox) returns (ok: bool)
    modifies out
    ensures ok <==> Understood(frame)
    ensures ok <==> |frame| == 8 && frame[0] == 1 && frame[1] <= 3
    ensures ok ==> Says(frame, out.beat)
    ensures !ok ==> out.beat == old(out.beat)
  {
    if |frame| != FRAME_LENGTH || frame[0] != LAYOUT_VERSION {
      return false;
    }
    if frame[1] > Code(SensorError) {
      return false;
    }
    var state := if frame[1] == 0 then Boot else if frame[1] == 1 then WarmingUp
                 else if frame[1] == 2 then Running else SensorError;
    out.beat := Beat(state, LittleEndian(frame[2..6]), frame[6]);
    return true;
  }

  /** The length, version and state checks. */
  predicate Understood(frame: seq<Byte>) {
    |frame| == FRAME_LENGTH && frame[0] == LAYOUT_VERSION && frame[1] <= Code(SensorError)
  }

  /** A frame is understood exactly when it says some beat. */
  lemma UnderstoodIffSaysSomething(frame: seq<Byte>)
    ensures Understood(frame) <==> exists beat :: Says(frame, beat)
  {
    if Understood(frame) {
      var state := if frame[1] == 0 then Boot else if frame[1] == 1 then WarmingUp
                   else if frame[1] == 2 then Running else SensorError;
      assert Says(frame, Beat(state, LittleEndian(frame[2..6]), frame[6]));
    }
  }

  lemma LowByteAndRest(low: int, rest: int, low': int, rest': int)
    requires 0 <= low < 256 && 0 <= low' < 256 && low + 256 * rest == low' + 256 * rest'
    ensures low == low' && rest == rest'
  {
  }

  lemma LittleEndianInjective(a: seq<Byte>, b: seq<Byte>)
    requires |a| == |b| == 4 && LittleEndian(a) == LittleEndian(b)
    ensures a == b
  {
    var (a1: int, a2: int, a3: int) := (a[1], a[2], a[3]);
    var (b1: int, b2: int, b3: int) := (b[1], b[2], b[3]);
    LowByteAndRest(a[0], a1 + 256 * (a2 + 256 * a3), b[0], b1 + 256 * (b2 + 256 * b3));
    LowByteAndRest(a1, a2 + 256 * a3, b1, b2 + 256 * b3);
    LowByteAndRest(a2, a3, b2, b3);
  }

  /**
   A frame determines its beat, and a beat determines bytes 0 to 6 of its frame: with
   Pack and Unpack, unpacking a packed beat returns it and packing an unpacked frame
   reproduces it up to the reserved byte.
   */
  lemma FrameAndBeatDetermineEachOther(f: seq<Byte>, g: seq<Byte>, a: Beat, b: Beat)
    requires Says(f, a) && Says(g, b)
    ensures a == b <==> f[..7] == g[..7]
  {
    if a == b {
      LittleEndianInjective(f[2..6], g[2..6]);
      assert f[..7] == f[..2] + f[2..6] + [f[6]];
      assert g[..7] == g[..2] + g[2..6] + [g[6]];
    }
    if f[..7] == g[..7] {
      assert f[0] == f[..7][0] && f[1] == f[..7][1] && f[6] == f[..7][6];
      assert f[2..6] == f[..7][2..6] == g[2..6];
    }
  }

  /** unpack(pack(h)) == h for every beat, into any previous contents. */
  method RoundTrip(beat: Beat, out: BeatBox) returns (ok: bool)
    modifies out
    ensures ok && out.beat == beat
  {
    var frame := new Byte[8];
    Pack(beat, frame);
    UnderstoodIffSaysSomething(frame[..8]);
    assert frame[..] == frame[..8];
    ok := Unpack(frame[..], out);
    FrameAndBeatDetermineEachOther(frame[..8], frame[..8], beat, out.beat);
  }

  /** pack(unpack(f)) reproduces bytes 0 to 6 of every frame that unpacks, and closes it with 0xFF. */
  method Repack(frame: seq<Byte>, out: array<Byte>) returns (ok: bool)
    requires out.Length == FRAME_LENGTH
    modifies out
    ensures ok <==> Understood(frame)
    ensures ok ==> out[..7] == frame[..7] && out[7] == RESERVED
    ensures !ok ==> out[..] == old(out[..])
  {
    var box := new BeatBox(Beat(Boot, 0, 0));
    ok := Unpack(frame, box);
    if ok {
      Pack(box.beat, out);
      assert out[..8][..7] == out[..7];
      FrameAndBeatDetermineEachOther(out[..8], frame, box.beat, box.beat);
    }
  }
}
