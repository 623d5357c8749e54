/**
 * The rolling packet buffers of src/encoders/buffer.rs.
 *
 * `VideoBuffer` keeps encoded frames in a map ordered by decoding timestamp
 * (DTS) plus the DTS of every keyframe in insertion order, and after each
 * insert trims whole groups of pictures (GOPs) until the presentation
 * timestamp (PTS) span is below the window. `AudioBuffer` keeps encoded
 * audio keyed by PTS plus a separate list of capture times, and trims one
 * frame and one capture time at a time while the capture-time span is too
 * wide.
 *
 * Both classes are specified by value-level functions on `VideoState` and
 * `AudioState`; the trim loops are specified by `SettleVideo` and
 * `SettleAudio`. Both loops of the source can spin forever; instead of
 * spinning, the model leaves the loop and reports `hangs == true` in exactly
 * that situation.
 */
module Buffer {
  import opened Wrappers
  import opened EncoderTypes

  /** A single encoded video frame. */
  datatype VideoFrameData = VideoFrameData(frameBytes: seq<byte>, pts: int, isKey: bool)

  /** The entry an encoder wrapper makes of a packet it receives: keyed by its DTS, carrying its PTS and keyframe flag, both timestamps defaulting to 0; None without a payload. */
  function PacketEntry(p: Packet): (e: Option<(int, VideoFrameData)>)
    ensures e.Some? <==> p.data.Some?
    ensures e.Some? ==> e.value.1.frameBytes == p.data.value && e.value.1.isKey == p.isKey
    ensures e.Some? && p.dts.Some? ==> e.value.0 == p.dts.value
    ensures e.Some? && p.dts.None? ==> e.value.0 == 0
    ensures e.Some? && p.pts.Some? ==> e.value.1.pts == p.pts.value
    ensures e.Some? && p.pts.None? ==> e.value.1.pts == 0
  {
    if p.data.None? then None
    else
      var dts := if p.dts.Some? then p.dts.value else 0;
      var pts := if p.pts.Some? then p.pts.value else 0;
      Some((dts, VideoFrameData(p.data.value, pts, p.isKey)))
  }

  /** The outcome of a trim loop: the state it leaves, and whether the source would spin there forever. */
  datatype Trimmed<S> = Trimmed(state: S, hangs: bool)

  // ---------------------------------------------------------------------
  // Ordered-map helpers
  // ---------------------------------------------------------------------

  /** A non-empty set has a member (stated explicitly: the solver does not always find one on its own). */
  lemma NonEmptyHasMember(s: set<int>)
    requires s != {}
    ensures exists x :: x in s
  {
    if forall x :: x !in s {
      assert false;
    }
  }

  predicate IsLeast(k: int, s: set<int>)
  {
    k in s && forall j :: j in s ==> k <= j
  }

  lemma {:induction false} LeastExists(s: set<int>)
    requires s != {}
    ensures exists k :: IsLeast(k, s)
    decreases |s|
  {
    NonEmptyHasMember(s);
    var x :| x in s;
    var rest := s - {x};
    if rest == {} {
      forall j | j in s
        ensures x <= j
      {
        assert j !in rest;
      }
      assert IsLeast(x, s);
    } else {
      LeastExists(rest);
      var m :| IsLeast(m, rest);
      var k := if x < m then x else m;
      forall j | j in s
        ensures k <= j
      {
        if j != x {
          assert j in rest;
        }
      }
      assert IsLeast(k, s);
    }
  }

  /** The first key of an ordered map (`BTreeMap::first_entry`). */
  function LeastKey(s: set<int>): (k: int)
    requires s != {}
    ensures k in s
    ensures forall j :: j in s ==> k <= j
  {
    LeastExists(s);
    var k :| IsLeast(k, s);
    k
  }

  predicate StrictlyIncreasing(xs: seq<int>)
  {
    forall i, j :: 0 <= i < j < |xs| ==> xs[i] < xs[j]
  }

  /** The keys of an ordered map in iteration order: ascending. */
  function SortedKeys(keys: set<int>): (ks: seq<int>)
    ensures forall d :: d in ks <==> d in keys
    ensures StrictlyIncreasing(ks)
    ensures |ks| == |keys|
    decreases keys
  {
    if keys == {} then []
    else
      var k := LeastKey(keys);
      var rest := SortedKeys(keys - {k});
      assert forall i :: 0 <= i < |rest| ==> k < rest[i];
      [k] + rest
  }

  /** The last element of a list (`Vec::last`). */
  function LastOf(xs: seq<int>): (r: Option<int>)
  {
    if xs == [] then None else Some(xs[|xs| - 1])
  }

  // ---------------------------------------------------------------------
  // Video: value-level specification
  // ---------------------------------------------------------------------

  datatype VideoState = VideoState(frames: map<int, VideoFrameData>, keyFrameKeys: seq<int>)

  /** `newest_pts`: the largest PTS over the stored frames, None when there are none. */
  function NewestPtsOf(frames: map<int, VideoFrameData>): (r: Option<int>)
    ensures r.None? <==> frames.Keys == {}
    ensures r.Some? ==> exists d :: d in frames && frames[d].pts == r.value
    ensures r.Some? ==> forall d :: d in frames ==> frames[d].pts <= r.value
    decreases frames.Keys
  {
    if frames.Keys == {} then None
    else
      var d := LeastKey(frames.Keys);
      var rest := NewestPtsOf(frames - {d});
      assert forall e :: e in frames && e != d ==> e in frames - {d} && (frames - {d})[e] == frames[e];
      if rest.Some? && rest.value > frames[d].pts then rest else Some(frames[d].pts)
  }

  /** `oldest_pts`: the smallest PTS over the stored frames, None when there are none. */
  function OldestPtsOf(frames: map<int, VideoFrameData>): (r: Option<int>)
    ensures r.None? <==> frames.Keys == {}
    ensures r.Some? ==> exists d :: d in frames && frames[d].pts == r.value
    ensures r.Some? ==> forall d :: d in frames ==> r.value <= frames[d].pts
    decreases frames.Keys
  {
    if frames.Keys == {} then None
    else
      var d := LeastKey(frames.Keys);
      var rest := OldestPtsOf(frames - {d});
      assert forall e :: e in frames && e != d ==> e in frames - {d} && (frames - {d})[e] == frames[e];
      if rest.Some? && rest.value < frames[d].pts then rest else Some(frames[d].pts)
  }

  /** The condition that keeps the insert loop trimming: `newest - oldest >= max_time`. */
  predicate OverWindow(s: VideoState, maxTime: int)
  {
    var oldest, newest := OldestPtsOf(s.frames), NewestPtsOf(s.frames);
    oldest.Some? && newest.Some? && newest.value - oldest.value >= maxTime
  }

  /** The two updates `insert` makes before its trim loop. */
  function WithFrame(s: VideoState, timestamp: int, frame: VideoFrameData): (r: VideoState)
    ensures r.frames.Keys == s.frames.Keys + {timestamp} && r.frames[timestamp] == frame
    ensures forall d :: d in s.frames && d != timestamp ==> r.frames[d] == s.frames[d]
    ensures |s.keyFrameKeys| <= |r.keyFrameKeys| <= |s.keyFrameKeys| + 1 && r.keyFrameKeys[..|s.keyFrameKeys|] == s.keyFrameKeys
    ensures |r.keyFrameKeys| > |s.keyFrameKeys| <==> frame.isKey
    ensures frame.isKey ==> LastOf(r.keyFrameKeys) == Some(timestamp)
  {
    VideoState(s.frames[timestamp := frame],
               if frame.isKey then s.keyFrameKeys + [timestamp] else s.keyFrameKeys)
  }

  /** `trim_oldest_gop`: with two recorded keys or more, drop every frame before the second key, and the first key. */
  function TrimOldestGopSpec(s: VideoState): (r: VideoState)
    ensures |s.keyFrameKeys| > 1 ==> r.keyFrameKeys == s.keyFrameKeys[1..]
    ensures |s.keyFrameKeys| <= 1 ==> r == s
  {
    if |s.keyFrameKeys| <= 1 then s
    else
      var stop := s.keyFrameKeys[1];
      VideoState(map d | d in s.frames && stop <= d :: s.frames[d], s.keyFrameKeys[1..])
  }

  /** The trim loop of `insert`: trim GOPs while the span is at least `maxTime`. */
  function SettleVideo(s: VideoState, maxTime: int): (r: Trimmed<VideoState>)
    ensures !r.hangs ==> !OverWindow(r.state, maxTime)
    ensures r.hangs ==> OverWindow(r.state, maxTime) && |r.state.keyFrameKeys| <= 1
    decreases |s.keyFrameKeys|
  {
    if !OverWindow(s, maxTime) then Trimmed(s, false)
    else if |s.keyFrameKeys| <= 1 then Trimmed(s, true)
    else SettleVideo(TrimOldestGopSpec(s), maxTime)
  }

  /** The insert loop only ever drops the oldest keyframes, and keeps at least one of them. */
  lemma {:induction false} SettleVideoKeys(s: VideoState, maxTime: int)
    ensures var r := SettleVideo(s, maxTime);
      && |r.state.keyFrameKeys| <= |s.keyFrameKeys|
      && r.state.keyFrameKeys == s.keyFrameKeys[|s.keyFrameKeys| - |r.state.keyFrameKeys|..]
      && (|s.keyFrameKeys| >= 1 ==> |r.state.keyFrameKeys| >= 1)
      && (|r.state.keyFrameKeys| == |s.keyFrameKeys| ==> r.state == s)
    decreases |s.keyFrameKeys|
  {
    if OverWindow(s, maxTime) && |s.keyFrameKeys| > 1 {
      var t := TrimOldestGopSpec(s);
      SettleVideoKeys(t, maxTime);
      assert SettleVideo(s, maxTime) == SettleVideo(t, maxTime);
      assert t.keyFrameKeys == s.keyFrameKeys[1..];
    }
  }

  /** The insert loop keeps or drops frames, and never changes one. */
  lemma {:induction false} SettleVideoFrames(s: VideoState, maxTime: int)
    ensures var r := SettleVideo(s, maxTime);
      forall d :: d in r.state.frames ==> d in s.frames && r.state.frames[d] == s.frames[d]
    decreases |s.keyFrameKeys|
  {
    if OverWindow(s, maxTime) && |s.keyFrameKeys| > 1 {
      var t := TrimOldestGopSpec(s);
      SettleVideoFrames(t, maxTime);
      assert SettleVideo(s, maxTime) == SettleVideo(t, maxTime);
      assert forall d :: d in t.frames ==> d in s.frames && t.frames[d] == s.frames[d];
    }
  }

  /**
   * The insert loop stops exactly when the span is below the window, or
   * spins with at most one keyframe left; it only ever drops the oldest
   * keyframes, keeps at least one of them, and keeps or drops frames
   * without changing any.
   */
  lemma SettleVideoProperties(s: VideoState, maxTime: int)
    ensures var r := SettleVideo(s, maxTime);
      && (r.hangs <==> OverWindow(r.state, maxTime))
      && (r.hangs ==> |r.state.keyFrameKeys| <= 1)
      && |r.state.keyFrameKeys| <= |s.keyFrameKeys|
      && r.state.keyFrameKeys == s.keyFrameKeys[|s.keyFrameKeys| - |r.state.keyFrameKeys|..]
      && (|s.keyFrameKeys| >= 1 ==> |r.state.keyFrameKeys| >= 1)
      && (|r.state.keyFrameKeys| == |s.keyFrameKeys| ==> r.state == s)
      && (forall d :: d in r.state.frames ==> d in s.frames && r.state.frames[d] == s.frames[d])
  {
    SettleVideoKeys(s, maxTime);
    SettleVideoFrames(s, maxTime);
  }

  // ---------------------------------------------------------------------
  // Video: the buffer
  // ---------------------------------------------------------------------

  /**
   * Rolling buffer of the last `maxTime` microseconds of encoded video,
   * ordered by DTS, trimmed one whole GOP at a time.
   */
  class VideoBuffer {
    var frames: map<int, VideoFrameData>
    /** The window; the source keeps it as `usize` and compares it as `i64`. */
    var maxTime: nat
    /** DTS of every keyframe, in insertion order: the GOP boundaries. */
    var keyFrameKeys: seq<int>

    function State(): VideoState
      reads this
    {
      VideoState(frames, keyFrameKeys)
    }

    constructor (maxTime: nat)
      ensures State() == VideoState(map[], [])
      ensures this.maxTime == maxTime
    {
      frames := map[];
      this.maxTime := maxTime;
      keyFrameKeys := [];
    }

    /**
     * Record the frame (and its DTS when it is a keyframe), then trim whole
     * GOPs while the PTS span is at least `maxTime`. `hangs` is true exactly
     * when the source's loop would never exit.
     */
    method Insert(timestamp: int, frame: VideoFrameData) returns (hangs: bool)
      modifies this
      ensures maxTime == old(maxTime)
      ensures Trimmed(State(), hangs) == SettleVideo(WithFrame(old(State()), timestamp, frame), maxTime)
    {
      if frame.isKey {
        keyFrameKeys := keyFrameKeys + [timestamp];
      }
      frames := frames[timestamp := frame];

      ghost var start := State();
      hangs := false;
      var trimming := true;
      while trimming
        invariant maxTime == old(maxTime)
        invariant trimming ==> !hangs && SettleVideo(State(), maxTime) == SettleVideo(start, maxTime)
        invariant !trimming ==> Trimmed(State(), hangs) == SettleVideo(start, maxTime)
        decreases |keyFrameKeys| + (if trimming then 1 else 0)
      {
        var oldest, newest := OldestPts(), NewestPts();
        if oldest.Some? && newest.Some? && newest.value - oldest.value >= maxTime {
          var before := |keyFrameKeys|;
          TrimOldestGop();
          if |keyFrameKeys| == before {
            // trim_oldest_gop changed nothing, so the source repeats this pass forever
            hangs, trimming := true, false;
          }
        } else {
          trimming := false;
        }
      }
    }

    /** The largest stored PTS, None when the buffer is empty. */
    function NewestPts(): (r: Option<int>)
      reads this
      ensures r.None? <==> frames.Keys == {}
      ensures r.Some? ==> exists d :: d in frames && frames[d].pts == r.value
      ensures r.Some? ==> forall d :: d in frames ==> frames[d].pts <= r.value
    {
      NewestPtsOf(frames)
    }

    /** The smallest stored PTS, None when the buffer is empty. */
    function OldestPts(): (r: Option<int>)
      reads this
      ensures r.None? <==> frames.Keys == {}
      ensures r.Some? ==> exists d :: d in frames && frames[d].pts == r.value
      ensures r.Some? ==> forall d :: d in frames ==> r.value <= frames[d].pts
    {
      OldestPtsOf(frames)
    }

    /** DTS of the most recent keyframe: the start of the last GOP. */
    function GetLastGopStart(): (r: Option<int>)
      reads this
      ensures r.None? <==> keyFrameKeys == []
      ensures r.Some? ==> r.value == keyFrameKeys[|keyFrameKeys| - 1]
    {
      LastOf(keyFrameKeys)
    }

    /** Remove every frame before the second recorded keyframe, then forget the first keyframe. */
    method TrimOldestGop()
      modifies this
      ensures maxTime == old(maxTime)
      ensures State() == TrimOldestGopSpec(old(State()))
    {
      if |keyFrameKeys| <= 1 {
        // the source logs a warning and returns
        return;
      }
      var stopDts := keyFrameKeys[1];
      var dtsToRemove := set d | d in frames && d < stopDts;
      ghost var collected := dtsToRemove;
      while dtsToRemove != {}
        invariant dtsToRemove <= collected
        invariant frames == old(frames) - (collected - dtsToRemove)
        invariant keyFrameKeys == old(keyFrameKeys) && maxTime == old(maxTime)
        decreases dtsToRemove
      {
        var dts :| dts in dtsToRemove;
        frames := frames - {dts};
        dtsToRemove := dtsToRemove - {dts};
      }
      keyFrameKeys := keyFrameKeys[1..];
      assert frames == map d | d in old(frames) && stopDts <= d :: old(frames)[d];
    }

    /** The stored frames, keyed by DTS. */
    function GetFrames(): (r: map<int, VideoFrameData>)
      reads this
      ensures r == State().frames
    {
      frames
    }

    method Reset()
      modifies this
      ensures maxTime == old(maxTime)
      ensures State() == VideoState(map[], [])
    {
      frames := map[];
      keyFrameKeys := [];
    }
  }

  // ---------------------------------------------------------------------
  // Audio: value-level specification
  // ---------------------------------------------------------------------

  datatype AudioState = AudioState(frames: map<int, seq<byte>>, captureTimes: seq<int>)

  /** The condition that keeps the audio trim loop going: `last - first >= max_time` over the capture times. */
  predicate CaptureSpanOver(captureTimes: seq<int>, maxTime: int)
  {
    |captureTimes| > 0 && captureTimes[|captureTimes| - 1] - captureTimes[0] >= maxTime
  }

  /** The trim loop of `insert_frame`: drop the first frame and the first capture time together. */
  function SettleAudio(s: AudioState, maxTime: int): (r: Trimmed<AudioState>)
    ensures !r.hangs ==> !CaptureSpanOver(r.state.captureTimes, maxTime)
    ensures r.hangs ==> CaptureSpanOver(r.state.captureTimes, maxTime) && r.state.frames.Keys == {}
    ensures |r.state.captureTimes| <= |s.captureTimes|
    decreases |s.captureTimes|
  {
    if !CaptureSpanOver(s.captureTimes, maxTime) then Trimmed(s, false)
    else if s.frames.Keys == {} then Trimmed(s, true)
    else
      var first := LeastKey(s.frames.Keys);
      SettleAudio(AudioState(s.frames - {first}, s.captureTimes[1..]), maxTime)
  }

  /**
   * The audio trim loop stops exactly when the capture-time span is below
   * the window, or spins with no frame left; what it drops from the
   * capture times is a prefix.
   */
  lemma {:induction false} SettleAudioProperties(s: AudioState, maxTime: int)
    ensures var r := SettleAudio(s, maxTime);
      && (r.hangs <==> CaptureSpanOver(r.state.captureTimes, maxTime))
      && (r.hangs ==> r.state.frames.Keys == {})
      && |r.state.captureTimes| <= |s.captureTimes|
      && r.state.captureTimes == s.captureTimes[|s.captureTimes| - |r.state.captureTimes|..]
    decreases |s.captureTimes|
  {
    if CaptureSpanOver(s.captureTimes, maxTime) && s.frames.Keys != {} {
      var first := LeastKey(s.frames.Keys);
      var t := AudioState(s.frames - {first}, s.captureTimes[1..]);
      SettleAudioProperties(t, maxTime);
      var m := |SettleAudio(t, maxTime).state.captureTimes|;
      assert s.captureTimes[1..][|t.captureTimes| - m..] == s.captureTimes[|s.captureTimes| - m..];
    }
  }

  /**
   * ... and it drops, one for each capture time dropped, the frames with the
   * smallest PTS, changing none it keeps.
   */
  lemma {:induction false} SettleAudioDropsOldestFrames(s: AudioState, maxTime: int)
    ensures var r := SettleAudio(s, maxTime);
      && r.state.frames.Keys <= s.frames.Keys
      && |s.frames.Keys| - |r.state.frames.Keys| == |s.captureTimes| - |r.state.captureTimes|
      && (forall d :: d in r.state.frames ==> r.state.frames[d] == s.frames[d])
      && (forall d, e :: d in s.frames && d !in r.state.frames && e in r.state.frames ==> d < e)
    decreases |s.captureTimes|
  {
    if CaptureSpanOver(s.captureTimes, maxTime) && s.frames.Keys != {} {
      var first := LeastKey(s.frames.Keys);
      var t := AudioState(s.frames - {first}, s.captureTimes[1..]);
      assert t.frames.Keys == s.frames.Keys - {first};
      SettleAudioDropsOldestFrames(t, maxTime);
    }
  }

  // ---------------------------------------------------------------------
  // Audio: the buffer
  // ---------------------------------------------------------------------

  /** Rolling buffer of encoded audio keyed by encoder PTS, trimmed by capture-time span. */
  class AudioBuffer {
    var frames: map<int, seq<byte>>
    var maxTime: nat
    var captureTimes: seq<int>

    function State(): AudioState
      reads this
    {
      AudioState(frames, captureTimes)
    }

    constructor (maxTime: nat)
      ensures State() == AudioState(map[], [])
      ensures this.maxTime == maxTime
    {
      frames := map[];
      this.maxTime := maxTime;
      captureTimes := [];
    }

    /**
     * Store the frame, then drop the first frame and the first capture time
     * together while the capture-time span is at least `maxTime`. `hangs` is
     * true exactly when the source's loop would never exit.
     */
    method InsertFrame(timestamp: int, frame: seq<byte>) returns (hangs: bool)
      modifies this
      ensures maxTime == old(maxTime)
      ensures Trimmed(State(), hangs) == SettleAudio(AudioState(old(frames)[timestamp := frame], old(captureTimes)), maxTime)
    {
      frames := frames[timestamp := frame];

      ghost var start := State();
      hangs := false;
      var trimming := true;
      while trimming
        invariant maxTime == old(maxTime)
        invariant trimming ==> !hangs && SettleAudio(State(), maxTime) == SettleAudio(start, maxTime)
        invariant !trimming ==> Trimmed(State(), hangs) == SettleAudio(start, maxTime)
        decreases |captureTimes| + (if trimming then 1 else 0)
      {
        if |captureTimes| > 0 && captureTimes[|captureTimes| - 1] - captureTimes[0] >= maxTime {
          if frames.Keys != {} {
            var oldest := LeastKey(frames.Keys);
            frames := frames - {oldest};
            captureTimes := captureTimes[1..];
          } else {
            // first_entry() is None: nothing changes and the source repeats this pass forever
            hangs, trimming := true, false;
          }
        } else {
          trimming := false;
        }
      }
    }

    /** The recorded capture times, oldest first. */
    function GetCaptureTimes(): (r: seq<int>)
      reads this
      ensures r == State().captureTimes
    {
      captureTimes
    }

    /** The stored frames, keyed by PTS. */
    function GetFrames(): (r: map<int, seq<byte>>)
      reads this
      ensures r == State().frames
    {
      frames
    }

    method InsertCaptureTime(time: int)
      modifies this
      ensures maxTime == old(maxTime)
      ensures State() == AudioState(old(frames), old(captureTimes) + [time])
    {
      captureTimes := captureTimes + [time];
    }

    method Reset()
      modifies this
      ensures maxTime == old(maxTime)
      ensures State() == AudioState(map[], [])
    {
      frames := map[];
      captureTimes := [];
    }
  }

  // ---------------------------------------------------------------------
  // Properties of the buffers
  // ---------------------------------------------------------------------

  /** After `insert`, the last recorded GOP start is the new DTS exactly when the frame is a keyframe. */
  lemma InsertLastGopStart(s: VideoState, timestamp: int, frame: VideoFrameData, maxTime: int)
    ensures var r := SettleVideo(WithFrame(s, timestamp, frame), maxTime).state;
      LastOf(r.keyFrameKeys) == if frame.isKey then Some(timestamp) else LastOf(s.keyFrameKeys)
  {
    var w := WithFrame(s, timestamp, frame);
    var r := SettleVideo(w, maxTime).state;
    SettleVideoProperties(w, maxTime);
    if w.keyFrameKeys != [] {
      assert r.keyFrameKeys[|r.keyFrameKeys| - 1] == w.keyFrameKeys[|w.keyFrameKeys| - 1];
    }
  }

  /** `trim_oldest_gop` removes exactly the frames before the second key and drops the first key; with fewer keys it does nothing. */
  lemma TrimOldestGopRemovesFirstGop(s: VideoState)
    ensures var t := TrimOldestGopSpec(s);
      && (|s.keyFrameKeys| <= 1 ==> t == s)
      && (|s.keyFrameKeys| >= 2 ==>
            && t.keyFrameKeys == s.keyFrameKeys[1..]
            && (forall d :: d in t.frames <==> d in s.frames && s.keyFrameKeys[1] <= d)
            && (forall d :: d in t.frames ==> t.frames[d] == s.frames[d]))
  {
  }

  /**
   * With keyframes recorded in increasing DTS order, whatever the insert
   * loop trims leaves exactly the frames from the first remaining keyframe
   * on.
   */
  lemma {:induction false} SettleVideoKeepsFromFirstKey(s: VideoState, maxTime: int)
    requires StrictlyIncreasing(s.keyFrameKeys)
    ensures var r := SettleVideo(s, maxTime).state;
      r.keyFrameKeys != s.keyFrameKeys ==>
        && r.keyFrameKeys != []
        && (forall d :: d in r.frames <==> d in s.frames && r.keyFrameKeys[0] <= d)
    decreases |s.keyFrameKeys|
  {
    var r := SettleVideo(s, maxTime).state;
    if OverWindow(s, maxTime) && |s.keyFrameKeys| > 1 {
      var t := TrimOldestGopSpec(s);
      var stop := s.keyFrameKeys[1];
      assert t.keyFrameKeys == s.keyFrameKeys[1..];
      assert forall d :: d in t.frames <==> d in s.frames && stop <= d;
      assert StrictlyIncreasing(t.keyFrameKeys);
      SettleVideoKeepsFromFirstKey(t, maxTime);
      SettleVideoProperties(t, maxTime);
      assert r == SettleVideo(t, maxTime).state;
      if |r.keyFrameKeys| == |t.keyFrameKeys| {
        assert r == t;
      } else {
        var n := |t.keyFrameKeys| - |r.keyFrameKeys|;
        assert r.keyFrameKeys[0] == t.keyFrameKeys[n];
        assert stop <= r.keyFrameKeys[0];
      }
    }
  }

  /** After a trim with keyframes in increasing DTS order, the buffer starts at its first remaining keyframe when that frame is stored. */
  lemma SettleVideoStartsAtKeyframe(s: VideoState, maxTime: int)
    requires StrictlyIncreasing(s.keyFrameKeys)
    ensures var r := SettleVideo(s, maxTime).state;
      r.keyFrameKeys != s.keyFrameKeys ==>
        r.keyFrameKeys != [] && (r.keyFrameKeys[0] in s.frames ==> IsLeast(r.keyFrameKeys[0], r.frames.Keys))
  {
    SettleVideoKeepsFromFirstKey(s, maxTime);
    SettleVideoProperties(s, maxTime);
  }

  /** Whenever there are at least as many stored frames as capture times, the audio trim loop exits. */
  lemma {:induction false} SettleAudioBalancedNeverHangs(s: AudioState, maxTime: int)
    requires |s.captureTimes| <= |s.frames.Keys|
    ensures !SettleAudio(s, maxTime).hangs
    decreases |s.captureTimes|
  {
    if CaptureSpanOver(s.captureTimes, maxTime) {
      assert s.frames.Keys != {};
      var first := LeastKey(s.frames.Keys);
      var t := AudioState(s.frames - {first}, s.captureTimes[1..]);
      assert t.frames.Keys == s.frames.Keys - {first};
      SettleAudioBalancedNeverHangs(t, maxTime);
    }
  }

  /**
   * Inserting a frame under a new PTS and then its capture time, as the
   * tests do, keeps frames and capture times one for one and never hangs.
   */
  lemma InsertPairKeepsBalance(s: AudioState, pts: int, frame: seq<byte>, time: int, maxTime: int)
    requires |s.captureTimes| == |s.frames.Keys|
    requires pts !in s.frames
    ensures var r := SettleAudio(AudioState(s.frames[pts := frame], s.captureTimes), maxTime);
      && !r.hangs
      && |r.state.captureTimes + [time]| == |r.state.frames.Keys|
  {
    var w := AudioState(s.frames[pts := frame], s.captureTimes);
    assert w.frames.Keys == s.frames.Keys + {pts};
    SettleAudioBalancedNeverHangs(w, maxTime);
    SettleAudioProperties(w, maxTime);
    SettleAudioDropsOldestFrames(w, maxTime);
  }
}
