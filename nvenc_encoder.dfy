/**
 * The NVENC video encoder wrapper of src/encoders/nvenc_encoder.rs: every
 * packet the codec hands back goes into a `VideoBuffer` keyed by its DTS;
 * the codec context lives in an Option that `drop_encoder` takes and
 * `reset` refills; and a quality preset selects the codec options.
 *
 * The codec is an oracle: `process` and `drain` take, as parameters, the
 * outcome of sending to it and the packets it then yields.
 */
module Nvenc {
  import opened Wrappers
  import opened EncoderTypes
  import opened Buffer

  // ---------------------------------------------------------------------
  // Codec options
  // ---------------------------------------------------------------------

  /** The preset-dependent NVENC options: the speed preset name, the constant-quality level and the `b:v` bitrate in Mbit/s. */
  datatype NvencLevels = NvencLevels(preset: string, cq: nat, bitrateMbps: nat)

  /** The preset table of `get_encoder_params`. */
  function LevelsFor(q: QualityPreset): (l: NvencLevels)
    ensures 15 <= l.cq <= 30 && 20 <= l.bitrateMbps <= 120
  {
    match q
    case Low => NvencLevels("p2", 30, 20)
    case Medium => NvencLevels("p4", 25, 40)
    case High => NvencLevels("p7", 20, 80)
    case Ultra => NvencLevels("p7", 15, 120)
  }

  /** The option dictionary `get_encoder_params` builds for a preset. */
  function EncoderParams(q: QualityPreset): (opts: map<string, string>)
    ensures opts.Keys == {"vsync", "rc", "tune", "preset", "cq", "b:v"}
    ensures opts["vsync"] == "vfr" && opts["rc"] == "vbr" && opts["tune"] == "hq"
    ensures opts["preset"] == LevelsFor(q).preset
  {
    var (preset, cq, bitrate) := match q
      case Low => ("p2", "30", "20M")
      case Medium => ("p4", "25", "40M")
      case High => ("p7", "20", "80M")
      case Ultra => ("p7", "15", "120M");
    map["vsync" := "vfr", "rc" := "vbr", "tune" := "hq", "preset" := preset, "cq" := cq, "b:v" := bitrate]
  }

  predicate IsDigits(s: string)
  {
    forall i :: 0 <= i < |s| ==> '0' <= s[i] <= '9'
  }

  /** The value of a string of decimal digits, as the codec reads an option. */
  function DigitsValue(s: string): nat
    requires IsDigits(s)
  {
    if s == [] then 0 else 10 * DigitsValue(s[..|s| - 1]) + ((s[|s| - 1] as int) - ('0' as int))
  }

  /**
   * The `cq` option reads as the preset's constant-quality level and the
   * `b:v` option as its bitrate with the `M` suffix: the option strings
   * carry exactly the numbers of the preset table.
   */
  lemma EncoderParamsMatchLevels(q: QualityPreset)
    ensures var o := EncoderParams(q);
      && IsDigits(o["cq"]) && DigitsValue(o["cq"]) == LevelsFor(q).cq
      && |o["b:v"]| >= 2 && o["b:v"][|o["b:v"]| - 1] == 'M'
      && IsDigits(o["b:v"][..|o["b:v"]| - 1]) && DigitsValue(o["b:v"][..|o["b:v"]| - 1]) == LevelsFor(q).bitrateMbps
  {
    var o := EncoderParams(q);
    assert "cq" != "b:v";
    var cq, b := o["cq"], o["b:v"][..|o["b:v"]| - 1];
    assert DigitsValue(cq) == 10 * DigitsValue(cq[..1]) + ((cq[1] as int) - ('0' as int));
    assert DigitsValue(cq[..1]) == (cq[0] as int) - ('0' as int) by {
      assert cq[..1][..0] == [];
    }
    if q == Ultra {
      assert b == "120";
      assert b[..2] == "12" && b[..2][..1] == "1" && b[..2][..1][..0] == [];
      assert DigitsValue(b[..2]) == 12;
      assert DigitsValue(b) == 10 * DigitsValue(b[..2]) + 0;
    } else {
      assert |b| == 2 && b[..1][..0] == [];
    }
  }

  /** A higher preset never lowers quality: cq strictly decreases and the bitrate strictly increases from Low to Ultra. */
  lemma LevelsMonotone(a: QualityPreset, b: QualityPreset)
    requires Rank(a) < Rank(b)
    ensures LevelsFor(b).cq < LevelsFor(a).cq
    ensures LevelsFor(a).bitrateMbps < LevelsFor(b).bitrateMbps
  {
  }

  // ---------------------------------------------------------------------
  // Routing packets into the buffer: value-level specification
  // ---------------------------------------------------------------------

  /** What handing one received packet to the buffer does: `VideoBuffer.insert` when it has a payload, nothing otherwise. */
  function InsertPacket(s: VideoState, p: Packet, maxTime: int): (r: Trimmed<VideoState>)
    ensures PacketEntry(p).None? ==> r == Trimmed(s, false)
    ensures r.hangs ==> OverWindow(r.state, maxTime) && |r.state.keyFrameKeys| <= 1
    ensures forall d :: d in r.state.frames ==>
      (d in s.frames && r.state.frames[d] == s.frames[d]) || PacketEntry(p) == Some((d, r.state.frames[d]))
  {
    match PacketEntry(p)
    case None => Trimmed(s, false)
    case Some((dts, frame)) =>
      SettleVideoProperties(WithFrame(s, dts, frame), maxTime);
      SettleVideo(WithFrame(s, dts, frame), maxTime)
  }

  /** The drain loop: insert each yielded packet in order, stopping where an insert would never return. */
  function DrainSpec(s: VideoState, pkts: seq<Packet>, maxTime: int): (r: Trimmed<VideoState>)
    ensures pkts == [] ==> r == Trimmed(s, false)
    ensures r.hangs ==> OverWindow(r.state, maxTime) && |r.state.keyFrameKeys| <= 1
    decreases |pkts|
  {
    if pkts == [] then Trimmed(s, false)
    else
      var prev := DrainSpec(s, pkts[..|pkts| - 1], maxTime);
      if prev.hangs then prev else InsertPacket(prev.state, pkts[|pkts| - 1], maxTime)
  }

  /**
   * Draining a sequence of packets is draining a first part and then the
   * rest from where it left off: the drain loop is `process`'s insert
   * repeated packet by packet.
   */
  lemma {:induction false} DrainSplits(s: VideoState, a: seq<Packet>, b: seq<Packet>, maxTime: int)
    ensures var x := DrainSpec(s, a, maxTime);
      DrainSpec(s, a + b, maxTime) == if x.hangs then x else DrainSpec(x.state, b, maxTime)
    decreases |b|
  {
    if b == [] {
      assert a + b == a;
    } else {
      var n := |b| - 1;
      assert (a + b)[..|a + b| - 1] == a + b[..n];
      assert (a + b)[|a + b| - 1] == b[n];
      DrainSplits(s, a, b[..n], maxTime);
    }
  }

  /**
   * The drain loop invents nothing: every frame the buffer holds afterwards
   * was already there, unchanged, or is the entry of one of the drained
   * packets, stored under that packet's DTS.
   */
  lemma {:induction false} DrainKeepsOnlyKnownFrames(s: VideoState, pkts: seq<Packet>, maxTime: int)
    ensures var r := DrainSpec(s, pkts, maxTime).state;
      forall d :: d in r.frames ==>
        (d in s.frames && r.frames[d] == s.frames[d])
        || (exists i :: 0 <= i < |pkts| && PacketEntry(pkts[i]) == Some((d, r.frames[d])))
    decreases |pkts|
  {
    if pkts != [] {
      var n := |pkts| - 1;
      var init := pkts[..n];
      DrainKeepsOnlyKnownFrames(s, init, maxTime);
      var prev := DrainSpec(s, init, maxTime);
      var r := DrainSpec(s, pkts, maxTime).state;
      if !prev.hangs {
        var e := PacketEntry(pkts[n]);
        if e.Some? {
          SettleVideoProperties(WithFrame(prev.state, e.value.0, e.value.1), maxTime);
        }
        forall d | d in r.frames
          ensures (d in s.frames && r.frames[d] == s.frames[d])
                  || (exists i :: 0 <= i < |pkts| && PacketEntry(pkts[i]) == Some((d, r.frames[d])))
        {
          if e.Some? && d == e.value.0 {
            assert PacketEntry(pkts[n]) == Some((d, r.frames[d]));
          } else {
            assert d in prev.state.frames && r.frames[d] == prev.state.frames[d];
            if !(d in s.frames && prev.state.frames[d] == s.frames[d]) {
              var i :| 0 <= i < |init| && PacketEntry(init[i]) == Some((d, prev.state.frames[d]));
              assert pkts[i] == init[i];
            }
          }
        }
      }
    }
  }

  // ---------------------------------------------------------------------
  // The encoder
  // ---------------------------------------------------------------------

  class NvencEncoder {
    /** The open codec context; None once dropped. */
    var encoder: Option<CodecHandle>
    const videoBuffer: VideoBuffer
    const width: u32
    const height: u32
    const encoderName: string

    /**
     * `new` once `create_encoder` has opened h264_nvenc (its error is
     * returned unchanged otherwise): the encoder is present and the buffer
     * is empty with a window of `maxBufferSeconds` seconds.
     */
    constructor (width: u32, height: u32, maxBufferSeconds: u32, codec: CodecHandle)
      ensures encoder == Some(codec)
      ensures fresh(videoBuffer)
      ensures videoBuffer.State() == VideoState(map[], [])
      ensures videoBuffer.maxTime == maxBufferSeconds * ONE_MICROS
      ensures this.width == width && this.height == height && encoderName == "h264_nvenc"
    {
      encoder := Some(codec);
      videoBuffer := new VideoBuffer(maxBufferSeconds * ONE_MICROS);
      this.width := width;
      this.height := height;
      encoderName := "h264_nvenc";
    }

    /**
     * Encode one frame. Without an encoder nothing happens. A failed send
     * panics (`unwrap`), changing nothing. Otherwise the packet
     * `receive_packet` yields, if any, goes into the buffer; `hangs`
     * reports an insert that would never return.
     */
    method Process(sent: Result<(), CodecError>, received: Option<Packet>) returns (panics: bool, hangs: bool)
      modifies videoBuffer
      ensures videoBuffer.maxTime == old(videoBuffer.maxTime)
      ensures encoder.None? || sent.Err? || received.None? ==>
        !hangs && videoBuffer.State() == old(videoBuffer.State())
      ensures panics <==> encoder.Some? && sent.Err?
      ensures encoder.Some? && sent.Ok? && received.Some? ==>
        Trimmed(videoBuffer.State(), hangs) == InsertPacket(old(videoBuffer.State()), received.value, videoBuffer.maxTime)
    {
      panics, hangs := false, false;
      if encoder.None? {
        return;
      }
      if sent.Err? {
        return true, false;
      }
      if received.Some? {
        hangs := InsertReceived(received.value);
      }
    }

    /** Insert one received packet into the buffer when it has a payload. */
    method InsertReceived(p: Packet) returns (hangs: bool)
      modifies videoBuffer
      ensures videoBuffer.maxTime == old(videoBuffer.maxTime)
      ensures Trimmed(videoBuffer.State(), hangs) == InsertPacket(old(videoBuffer.State()), p, videoBuffer.maxTime)
    {
      hangs := false;
      var entry := PacketEntry(p);
      if entry.Some? {
        hangs := videoBuffer.Insert(entry.value.0, entry.value.1);
      }
    }

    /**
     * Flush the encoder: without one nothing happens; a failed end-of-stream
     * send is returned; otherwise every packet the codec still yields goes
     * into the buffer in order.
     */
    method Drain(eof: Result<(), CodecError>, received: seq<Packet>) returns (r: Result<(), CodecError>, hangs: bool)
      modifies videoBuffer
      ensures videoBuffer.maxTime == old(videoBuffer.maxTime)
      ensures encoder.None? ==> r == Ok(()) && !hangs && videoBuffer.State() == old(videoBuffer.State())
      ensures encoder.Some? && eof.Err? ==> r == eof && !hangs && videoBuffer.State() == old(videoBuffer.State())
      ensures encoder.Some? && eof.Ok? ==>
        r == Ok(()) && Trimmed(videoBuffer.State(), hangs) == DrainSpec(old(videoBuffer.State()), received, videoBuffer.maxTime)
    {
      r, hangs := Ok(()), false;
      if encoder.None? {
        return;
      }
      if eof.Err? {
        return eof, false;
      }
      for i := 0 to |received|
        invariant videoBuffer.maxTime == old(videoBuffer.maxTime)
        invariant Trimmed(videoBuffer.State(), false) == DrainSpec(old(videoBuffer.State()), received[..i], videoBuffer.maxTime)
      {
        assert received[..i + 1][..i] == received[..i];
        hangs := InsertReceived(received[i]);
        if hangs {
          ghost var s0, done, rest := old(videoBuffer.State()), received[..i + 1], received[i + 1..];
          assert DrainSpec(s0, done, videoBuffer.maxTime) == Trimmed(videoBuffer.State(), true);
          SplitJoins(received, i + 1);
          DrainStopsAtHang(s0, done, rest, videoBuffer.maxTime);
          return;
        }
      }
      assert received[..|received|] == received;
    }

    /** Release the codec: the buffer is emptied and the encoder is gone. */
    method DropEncoder()
      modifies this, videoBuffer
      ensures encoder.None?
      ensures videoBuffer.State() == VideoState(map[], [])
      ensures videoBuffer.maxTime == old(videoBuffer.maxTime)
    {
      videoBuffer.Reset();
      encoder := None;
    }

    /**
     * Drop the codec and open a new one: on success the buffer is empty and
     * the encoder present; on failure the error is returned and the encoder
     * stays dropped. `reopened` is what `create_encoder` gives.
     */
    method Reset(reopened: Result<CodecHandle, CodecError>) returns (r: Result<(), CodecError>)
      modifies this, videoBuffer
      ensures videoBuffer.State() == VideoState(map[], [])
      ensures videoBuffer.maxTime == old(videoBuffer.maxTime)
      ensures reopened.Ok? ==> r == Ok(()) && encoder == Some(reopened.value)
      ensures reopened.Err? ==> r == Err(reopened.error) && encoder.None?
    {
      DropEncoder();
      if reopened.Err? {
        return Err(reopened.error);
      }
      encoder := Some(reopened.value);
      r := Ok(());
    }
  }

  /** Once an insert hangs, draining more packets changes nothing: the drain loop never gets past it. */
  lemma DrainStopsAtHang(s: VideoState, a: seq<Packet>, b: seq<Packet>, maxTime: int)
    requires DrainSpec(s, a, maxTime).hangs
    ensures DrainSpec(s, a + b, maxTime) == DrainSpec(s, a, maxTime)
  {
    DrainSplits(s, a, b, maxTime);
  }

  /** Cutting a sequence in two and joining the parts gives it back. */
  lemma SplitJoins<T>(xs: seq<T>, k: nat)
    requires k <= |xs|
    ensures xs[..k] + xs[k..] == xs
  {
  }
}
