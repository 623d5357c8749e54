/**
 * Export selection of `save_buffer` in src/main.rs: which buffered video
 * and audio packets are written to the clip, and the timestamps they are
 * given. The muxer is abstracted: the model returns the packets in the
 * order they are handed to `write_interleaved`.
 *
 * Video frames are visited in ascending DTS up to the last recorded
 * keyframe; a non-key frame whose PTS is below the first audio capture time
 * is skipped, and the first written frame's PTS becomes the origin of every
 * video offset. Audio frames are visited in ascending PTS, paired by
 * position with the capture times; the loop stops at the first capture time
 * past the last written video PTS, skips frames captured before the video
 * origin, and offsets the rest from the first written audio PTS.
 */
module Export {
  import opened Wrappers
  import opened EncoderTypes
  import opened Buffer

  const VIDEO_STREAM: nat := 0
  const AUDIO_STREAM: nat := 1
  const TARGET_FPS: nat := 60
  /** Microseconds between frames at the target rate. */
  const FRAME_INTERVAL: nat := ONE_MICROS / TARGET_FPS

  /** Raw audio as captured: interleaved samples and the capture time. */
  datatype RawAudioFrame = RawAudioFrame(samples: seq<real>, timestamp: int)

  /** Raw video as captured: pixel bytes and the capture time. */
  datatype RawVideoFrame = RawVideoFrame(bytes: seq<byte>, timestamp: int)

  /** How `save_buffer` ends: it returns Ok, it returns the missing-keyframe error, or it panics on an index out of bounds. */
  datatype SaveOutcome = Saved | NoKeyframe | OutOfBounds

  lemma FrameIntervalIsOneSixtiethSecond()
    ensures FRAME_INTERVAL == 16666
    ensures FRAME_INTERVAL * TARGET_FPS <= ONE_MICROS < (FRAME_INTERVAL + 1) * TARGET_FPS
  {
  }

  // ---------------------------------------------------------------------
  // Video selection
  // ---------------------------------------------------------------------

  /** The frames `range(..=last_keyframe)` visits, in ascending DTS. */
  function VideoRange(frames: map<int, VideoFrameData>, lastKeyframe: int): (order: seq<int>)
    ensures forall i :: 0 <= i < |order| ==> order[i] in frames && order[i] <= lastKeyframe
    ensures forall d :: d in frames && d <= lastKeyframe ==> d in order
    ensures StrictlyIncreasing(order)
  {
    var o := SortedKeys(set d | d in frames && d <= lastKeyframe);
    assert forall i :: 0 <= i < |o| ==> o[i] in o;
    o
  }

  /** A frame is written unless it is a non-key frame captured before the first audio capture time. */
  predicate WritesVideo(frame: VideoFrameData, firstCapture: int)
  {
    !(firstCapture > frame.pts && !frame.isKey)
  }

  /** The DTS values, among `order`, of the frames the video loop writes. */
  function KeptVideo(order: seq<int>, frames: map<int, VideoFrameData>, firstCapture: int): (kept: seq<int>)
    requires forall i :: 0 <= i < |order| ==> order[i] in frames
    ensures |kept| <= |order|
    ensures forall i :: 0 <= i < |kept| ==> kept[i] in frames
    decreases |order|
  {
    if order == [] then []
    else
      var n := |order| - 1;
      var d := order[n];
      var prefix := KeptVideo(order[..n], frames, firstCapture);
      if WritesVideo(frames[d], firstCapture) then prefix + [d] else prefix
  }

  /** The PTS of the first written frame: the origin of every video offset (0 when nothing is written). */
  function FirstVideoPts(kept: seq<int>, frames: map<int, VideoFrameData>): (r: int)
    requires forall i :: 0 <= i < |kept| ==> kept[i] in frames
    ensures kept != [] ==> VideoPacket(frames, kept[0], r).pts == 0
    ensures kept == [] ==> r == 0
  {
    if kept == [] then 0 else frames[kept[0]].pts
  }

  /** The PTS of the last written frame (0 when nothing is written). */
  function NewestVideoPts(kept: seq<int>, frames: map<int, VideoFrameData>): (r: int)
    requires forall i :: 0 <= i < |kept| ==> kept[i] in frames
    ensures kept != [] ==> exists i :: 0 <= i < |kept| && frames[kept[i]].pts == r
    ensures kept == [] ==> r == 0
  {
    if kept == [] then 0 else frames[kept[|kept| - 1]].pts
  }

  /** The video packets for the written frames, offset from `first`. */
  function VideoWrites(kept: seq<int>, frames: map<int, VideoFrameData>, first: int): (w: seq<Write>)
    requires forall i :: 0 <= i < |kept| ==> kept[i] in frames
    ensures |w| == |kept|
    decreases |kept|
  {
    if kept == [] then []
    else
      var n := |kept| - 1;
      VideoWrites(kept[..n], frames, first)
        + [Write(VIDEO_STREAM, frames[kept[n]].pts - first, kept[n] - first, frames[kept[n]].frameBytes)]
  }

  // ---------------------------------------------------------------------
  // Audio selection
  // ---------------------------------------------------------------------

  /**
   * The index at which the audio loop leaves, searching from `i`: the first
   * index with no capture time or with a capture time past `newest`, or `n`
   * when every frame is visited.
   */
  function AudioStop(n: nat, captureTimes: seq<int>, newest: int, i: nat): (k: nat)
    requires i <= n
    ensures i <= k <= n
    ensures i <= |captureTimes| ==> k <= |captureTimes|
    ensures forall j :: i <= j < k ==> j < |captureTimes| && captureTimes[j] <= newest
    ensures k < n ==> k >= |captureTimes| || captureTimes[k] > newest
    decreases n - i
  {
    if i == n || i >= |captureTimes| || captureTimes[i] > newest then i
    else AudioStop(n, captureTimes, newest, i + 1)
  }

  /**
   * The PTS keys, among the first `n` of `keys`, of the audio frames
   * written: those whose paired capture time is not before `first`.
   */
  function KeptAudio(keys: seq<int>, n: nat, captureTimes: seq<int>, first: int): (kept: seq<int>)
    requires n <= |keys| && n <= |captureTimes|
    ensures |kept| <= n
    ensures forall i :: 0 <= i < |kept| ==> kept[i] in keys
    decreases n
  {
    if n == 0 then []
    else
      var prefix := KeptAudio(keys, n - 1, captureTimes, first);
      if captureTimes[n - 1] < first then prefix else prefix + [keys[n - 1]]
  }

  /** The audio packets for the written frames, offset from `base`. */
  function AudioWrites(kept: seq<int>, frames: map<int, seq<byte>>, base: int): (w: seq<Write>)
    requires forall i :: 0 <= i < |kept| ==> kept[i] in frames
    ensures |w| == |kept|
    decreases |kept|
  {
    if kept == [] then []
    else
      var n := |kept| - 1;
      AudioWrites(kept[..n], frames, base) + [Write(AUDIO_STREAM, kept[n] - base, kept[n] - base, frames[kept[n]])]
  }

  // ---------------------------------------------------------------------
  // The whole export
  // ---------------------------------------------------------------------

  /** The capture time the video loop compares against (irrelevant when there is none: the loop then panics first). */
  function FirstCapture(captureTimes: seq<int>): (r: int)
    ensures captureTimes != [] ==> r == captureTimes[0]
  {
    if captureTimes == [] then 0 else captureTimes[0]
  }

  /** The video loop's result: its packets, the video origin, the last written PTS, and whether it panicked. */
  datatype VideoPass = VideoPass(writes: seq<Write>, first: int, newest: int, outcome: SaveOutcome)

  function VideoPlan(frames: map<int, VideoFrameData>, order: seq<int>, captureTimes: seq<int>): (r: VideoPass)
    requires forall i :: 0 <= i < |order| ==> order[i] in frames
    ensures r.outcome != NoKeyframe
    ensures r.outcome == OutOfBounds <==> order != [] && captureTimes == []
    ensures r.outcome == OutOfBounds ==> r.writes == []
  {
    if order != [] && captureTimes == [] then VideoPass([], 0, 0, OutOfBounds)
    else
      var kept := KeptVideo(order, frames, FirstCapture(captureTimes));
      var first := FirstVideoPts(kept, frames);
      VideoPass(VideoWrites(kept, frames, first), first, NewestVideoPts(kept, frames), Saved)
  }

  /** The PTS keys of the audio frames the audio loop writes, given the video origin and the last written video PTS. */
  function AudioSelection(order: seq<int>, captureTimes: seq<int>, first: int, newest: int): (kept: seq<int>)
    ensures forall i :: 0 <= i < |kept| ==> kept[i] in order
  {
    var stop := AudioStop(|order|, captureTimes, newest, 0);
    KeptAudio(order, stop, captureTimes, first)
  }

  /** The audio loop's packets and whether it panicked, given the video origin and the last written video PTS. */
  function AudioPlan(frames: map<int, seq<byte>>, order: seq<int>, captureTimes: seq<int>, first: int, newest: int): (r: (seq<Write>, SaveOutcome))
    requires forall i :: 0 <= i < |order| ==> order[i] in frames
    ensures r.1 != NoKeyframe
  {
    var stop := AudioStop(|order|, captureTimes, newest, 0);
    var kept := AudioSelection(order, captureTimes, first, newest);
    var base := if kept == [] then 0 else kept[0];
    (AudioWrites(kept, frames, base), if stop < |order| && stop >= |captureTimes| then OutOfBounds else Saved)
  }

  /** The audio keys in iteration order. */
  function AudioOrder(frames: map<int, seq<byte>>): (order: seq<int>)
    ensures forall i :: 0 <= i < |order| ==> order[i] in frames
    ensures forall p :: p in frames ==> p in order
    ensures StrictlyIncreasing(order)
  {
    var o := SortedKeys(frames.Keys);
    assert forall i :: 0 <= i < |o| ==> o[i] in o;
    o
  }

  /** What `save_buffer` writes and how it ends, for the given buffer contents. */
  function SavePlan(v: VideoState, a: AudioState): (r: (seq<Write>, SaveOutcome))
    ensures r.1 == NoKeyframe <==> v.keyFrameKeys == []
    ensures r.1 == NoKeyframe ==> r.0 == []
  {
    if v.keyFrameKeys == [] then ([], NoKeyframe)
    else
      var order := VideoRange(v.frames, v.keyFrameKeys[|v.keyFrameKeys| - 1]);
      var vp := VideoPlan(v.frames, order, a.captureTimes);
      if vp.outcome == OutOfBounds then ([], OutOfBounds)
      else
        var ap := AudioPlan(a.frames, AudioOrder(a.frames), a.captureTimes, vp.first, vp.newest);
        (vp.writes + ap.0, ap.1)
  }

  /** The video loop of `save_buffer`. */
  method WriteVideo(frames: map<int, VideoFrameData>, order: seq<int>, captureTimes: seq<int>) returns (r: VideoPass)
    requires forall i :: 0 <= i < |order| ==> order[i] in frames
    ensures r == VideoPlan(frames, order, captureTimes)
  {
    var writes := [];
    var newestVideoPts := 0;
    var firstPtsOffset := 0;
    var firstOffset := false;
    ghost var kept: seq<int> := [];
    for i := 0 to |order|
      invariant captureTimes == [] ==> i == 0
      invariant kept == KeptVideo(order[..i], frames, FirstCapture(captureTimes))
      invariant firstOffset == (kept != [])
      invariant firstPtsOffset == FirstVideoPts(kept, frames)
      invariant newestVideoPts == NewestVideoPts(kept, frames)
      invariant writes == VideoWrites(kept, frames, firstPtsOffset)
    {
      var dts := order[i];
      var frameData := frames[dts];
      if |captureTimes| == 0 {
        // indexing capture time 0 panics
        return VideoPass([], 0, 0, OutOfBounds);
      }
      assert order[..i + 1][..i] == order[..i];
      assert order[..i + 1][i] == dts;
      if captureTimes[0] > frameData.pts && !frameData.isKey {
        assert KeptVideo(order[..i + 1], frames, FirstCapture(captureTimes)) == kept;
        continue;
      }
      assert KeptVideo(order[..i + 1], frames, FirstCapture(captureTimes)) == kept + [dts];
      if !firstOffset {
        firstPtsOffset := frameData.pts;
        firstOffset := true;
      }
      var ptsOffset := frameData.pts - firstPtsOffset;
      var dtsOffset := dts - firstPtsOffset;
      assert (kept + [dts])[..|kept|] == kept;
      writes := writes + [Write(VIDEO_STREAM, ptsOffset, dtsOffset, frameData.frameBytes)];
      newestVideoPts := frameData.pts;
      kept := kept + [dts];
    }
    assert order[..|order|] == order;
    r := VideoPass(writes, firstPtsOffset, newestVideoPts, Saved);
  }

  /** A visited frame whose capture time exists and is not past `newest` is before the stop index. */
  lemma AudioStopContinues(n: nat, captureTimes: seq<int>, newest: int, i: nat)
    requires i <= AudioStop(n, captureTimes, newest, 0)
    requires i < n && i < |captureTimes| && captureTimes[i] <= newest
    ensures i < AudioStop(n, captureTimes, newest, 0)
  {
  }

  /** One more written audio frame appends its packet. */
  lemma AudioWritesStep(kept: seq<int>, pts: int, frames: map<int, seq<byte>>, base: int)
    requires forall i :: 0 <= i < |kept| ==> kept[i] in frames
    requires pts in frames
    ensures AudioWrites(kept + [pts], frames, base)
      == AudioWrites(kept, frames, base) + [Write(AUDIO_STREAM, pts - base, pts - base, frames[pts])]
  {
    assert (kept + [pts])[..|kept|] == kept;
  }

  /** One pass of the audio loop, on the kept keys and the packets written so far. */
  lemma AudioLoopStep(frames: map<int, seq<byte>>, order: seq<int>, captureTimes: seq<int>, first: int,
                      kept: seq<int>, base: int, i: nat)
    requires forall j :: 0 <= j < |order| ==> order[j] in frames
    requires i < |order| && i < |captureTimes|
    requires kept == KeptAudio(order, i, captureTimes, first)
    requires forall k :: 0 <= k < |kept| ==> kept[k] in frames
    requires base == if kept == [] then 0 else kept[0]
    ensures var kept' := KeptAudio(order, i + 1, captureTimes, first);
      var base' := if kept' == [] then 0 else kept'[0];
      && kept' == (if captureTimes[i] < first then kept else kept + [order[i]])
      && (forall k :: 0 <= k < |kept'| ==> kept'[k] in frames)
      && AudioWrites(kept', frames, base')
         == if captureTimes[i] < first then AudioWrites(kept, frames, base)
            else AudioWrites(kept, frames, base') + [Write(AUDIO_STREAM, order[i] - base', order[i] - base', frames[order[i]])]
  {
    if captureTimes[i] >= first {
      var base' := if kept == [] then order[i] else base;
      AudioWritesStep(kept, order[i], frames, base');
    }
  }

  /** The audio loop of `save_buffer`. */
  method WriteAudio(frames: map<int, seq<byte>>, order: seq<int>, captureTimes: seq<int>, firstPtsOffset: int, newestVideoPts: int)
    returns (writes: seq<Write>, outcome: SaveOutcome)
    requires forall i :: 0 <= i < |order| ==> order[i] in frames
    ensures (writes, outcome) == AudioPlan(frames, order, captureTimes, firstPtsOffset, newestVideoPts)
  {
    writes := [];
    ghost var stop := AudioStop(|order|, captureTimes, newestVideoPts, 0);
    var oldestFrameOffset := 0;
    var firstOffset := false;
    ghost var kept: seq<int> := [];
    var iter := 0;
    while iter < |order|
      invariant 0 <= iter <= stop
      invariant kept == KeptAudio(order, iter, captureTimes, firstPtsOffset)
      invariant firstOffset == (kept != [])
      invariant oldestFrameOffset == (if kept == [] then 0 else kept[0])
      invariant forall k :: 0 <= k < |kept| ==> kept[k] in frames
      invariant writes == AudioWrites(kept, frames, oldestFrameOffset)
    {
      var pts := order[iter];
      if iter >= |captureTimes| {
        // indexing the capture times panics
        assert iter == stop;
        AudioPlanOutOfBounds(frames, order, captureTimes, firstPtsOffset, newestVideoPts);
        return writes, OutOfBounds;
      }
      if captureTimes[iter] > newestVideoPts {
        break;
      }
      AudioStopContinues(|order|, captureTimes, newestVideoPts, iter);
      AudioLoopStep(frames, order, captureTimes, firstPtsOffset, kept, oldestFrameOffset, iter);
      // a frame captured before the first video frame is skipped
      if captureTimes[iter] >= firstPtsOffset {
        if !firstOffset {
          oldestFrameOffset := pts;
          firstOffset := true;
        }
        var offset := pts - oldestFrameOffset;
        writes := writes + [Write(AUDIO_STREAM, offset, offset, frames[pts])];
        kept := kept + [pts];
      }
      iter := iter + 1;
    }
    assert iter == stop;
    AudioPlanSaved(frames, order, captureTimes, firstPtsOffset, newestVideoPts);
    outcome := Saved;
  }

  /** When the audio loop ends without a panic, its packets are those of the frames it kept before stopping. */
  lemma AudioPlanSaved(frames: map<int, seq<byte>>, order: seq<int>, captureTimes: seq<int>, first: int, newest: int)
    requires forall i :: 0 <= i < |order| ==> order[i] in frames
    requires AudioStop(|order|, captureTimes, newest, 0) == |order| || AudioStop(|order|, captureTimes, newest, 0) < |captureTimes|
    ensures var stop := AudioStop(|order|, captureTimes, newest, 0);
      var kept := KeptAudio(order, stop, captureTimes, first);
      AudioPlan(frames, order, captureTimes, first, newest) == (AudioWrites(kept, frames, if kept == [] then 0 else kept[0]), Saved)
  {
  }

  /** When the audio loop runs out of capture times, it panics after the packets of the frames it kept. */
  lemma AudioPlanOutOfBounds(frames: map<int, seq<byte>>, order: seq<int>, captureTimes: seq<int>, first: int, newest: int)
    requires forall i :: 0 <= i < |order| ==> order[i] in frames
    requires AudioStop(|order|, captureTimes, newest, 0) < |order|
    requires AudioStop(|order|, captureTimes, newest, 0) >= |captureTimes|
    ensures var stop := AudioStop(|order|, captureTimes, newest, 0);
      var kept := KeptAudio(order, stop, captureTimes, first);
      AudioPlan(frames, order, captureTimes, first, newest) == (AudioWrites(kept, frames, if kept == [] then 0 else kept[0]), OutOfBounds)
  {
  }

  /**
   * Write the clip's packets: video up to the last keyframe, then audio up
   * to the last written video PTS. `writes` lists the packets in the order
   * they reach the muxer; on `OutOfBounds` they are the ones written before
   * the panic.
   */
  method SaveBuffer(video: VideoBuffer, audio: AudioBuffer) returns (writes: seq<Write>, outcome: SaveOutcome)
    ensures (writes, outcome) == SavePlan(video.State(), audio.State())
  {
    var lastKeyframe := video.GetLastGopStart();
    if lastKeyframe.None? {
      return [], NoKeyframe;
    }
    var captureTimes := audio.GetCaptureTimes();
    var vp := WriteVideo(video.GetFrames(), VideoRange(video.GetFrames(), lastKeyframe.value), captureTimes);
    if vp.outcome == OutOfBounds {
      return [], OutOfBounds;
    }
    var audioWrites;
    audioWrites, outcome := WriteAudio(audio.GetFrames(), AudioOrder(audio.GetFrames()), captureTimes, vp.first, vp.newest);
    writes := vp.writes + audioWrites;
  }

  // ---------------------------------------------------------------------
  // Properties
  // ---------------------------------------------------------------------

  /** The video loop writes exactly the frames of the range that pass the catch-up test, and nothing else. */
  lemma {:induction false} KeptVideoMembers(order: seq<int>, frames: map<int, VideoFrameData>, firstCapture: int)
    requires forall i :: 0 <= i < |order| ==> order[i] in frames
    ensures var kept := KeptVideo(order, frames, firstCapture);
      (forall i :: 0 <= i < |order| && WritesVideo(frames[order[i]], firstCapture) ==> order[i] in kept)
      && (forall k :: 0 <= k < |kept| ==> kept[k] in order && WritesVideo(frames[kept[k]], firstCapture))
    decreases |order|
  {
    if order != [] {
      var n := |order| - 1;
      KeptVideoMembers(order[..n], frames, firstCapture);
      var prefix := KeptVideo(order[..n], frames, firstCapture);
      forall k | 0 <= k < |prefix| ensures prefix[k] in order {
        assert prefix[k] in order[..n];
      }
    }
  }

  /** Visiting frames in ascending DTS, the written DTS values ascend too, and none exceeds the range's last. */
  lemma {:induction false} KeptVideoSorted(order: seq<int>, frames: map<int, VideoFrameData>, firstCapture: int)
    requires forall i :: 0 <= i < |order| ==> order[i] in frames
    requires StrictlyIncreasing(order)
    ensures var kept := KeptVideo(order, frames, firstCapture);
      StrictlyIncreasing(kept) && (kept != [] ==> kept[|kept| - 1] <= order[|order| - 1])
    decreases |order|
  {
    if order != [] {
      var n := |order| - 1;
      KeptVideoSorted(order[..n], frames, firstCapture);
    }
  }

  /** The packet for the i-th written frame carries that frame's bytes and its PTS and DTS shifted by the origin. */
  lemma {:induction false} VideoWritesAt(kept: seq<int>, frames: map<int, VideoFrameData>, first: int)
    requires forall i :: 0 <= i < |kept| ==> kept[i] in frames
    ensures forall i :: 0 <= i < |kept| ==>
      VideoWrites(kept, frames, first)[i]
        == Write(VIDEO_STREAM, frames[kept[i]].pts - first, kept[i] - first, frames[kept[i]].frameBytes)
    decreases |kept|
  {
    if kept != [] {
      VideoWritesAt(kept[..|kept| - 1], frames, first);
    }
  }

  /**
   * An audio frame among the first `n` of `keys` is written exactly when
   * its paired capture time is not before the video origin; the written
   * keys ascend and all come before the `n`-th key.
   */
  lemma {:induction false} KeptAudioMembers(keys: seq<int>, n: nat, captureTimes: seq<int>, first: int)
    requires n <= |keys| && n <= |captureTimes|
    requires StrictlyIncreasing(keys)
    ensures var kept := KeptAudio(keys, n, captureTimes, first);
      && StrictlyIncreasing(kept)
      && (forall i :: 0 <= i < n ==> (keys[i] in kept <==> first <= captureTimes[i]))
      && (n < |keys| ==> forall k :: 0 <= k < |kept| ==> kept[k] < keys[n])
    decreases n
  {
    if n > 0 {
      var m := n - 1;
      KeptAudioMembers(keys, m, captureTimes, first);
      var prefix := KeptAudio(keys, m, captureTimes, first);
      var kept := KeptAudio(keys, n, captureTimes, first);
      assert kept == if captureTimes[m] < first then prefix else prefix + [keys[m]];
      forall i | 0 <= i < n
        ensures keys[i] in kept <==> first <= captureTimes[i]
      {
        if i < m {
          assert keys[i] < keys[m];
        }
      }
      if n < |keys| {
        assert keys[m] < keys[n];
      }
    }
  }

  /** The packet for the i-th written audio frame carries that frame's bytes, with PTS = DTS = its key shifted by `base`. */
  lemma {:induction false} AudioWritesAt(kept: seq<int>, frames: map<int, seq<byte>>, base: int)
    requires forall i :: 0 <= i < |kept| ==> kept[i] in frames
    ensures forall i :: 0 <= i < |kept| ==>
      AudioWrites(kept, frames, base)[i] == Write(AUDIO_STREAM, kept[i] - base, kept[i] - base, frames[kept[i]])
    decreases |kept|
  {
    if kept != [] {
      AudioWritesAt(kept[..|kept| - 1], frames, base);
    }
  }

  /** The packet the video loop writes for the frame with DTS `d`, given the origin `first`. */
  function VideoPacket(frames: map<int, VideoFrameData>, d: int, first: int): (w: Write)
    requires d in frames
    ensures w.stream == VIDEO_STREAM && w.payload == frames[d].frameBytes
    ensures w.pts + first == frames[d].pts && w.dts + first == d
  {
    Write(VIDEO_STREAM, frames[d].pts - first, d - first, frames[d].frameBytes)
  }

  /** A frame's packet is among the video packets exactly when the frame is among the written ones. */
  lemma VideoWritesContains(kept: seq<int>, frames: map<int, VideoFrameData>, first: int, d: int)
    requires forall i :: 0 <= i < |kept| ==> kept[i] in frames
    requires d in frames
    ensures VideoPacket(frames, d, first) in VideoWrites(kept, frames, first) <==> d in kept
  {
    VideoWritesAt(kept, frames, first);
    var w := VideoWrites(kept, frames, first);
    if d in kept {
      var k :| 0 <= k < |kept| && kept[k] == d;
      assert w[k] == VideoPacket(frames, d, first);
    }
    if VideoPacket(frames, d, first) in w {
      var k :| 0 <= k < |w| && w[k] == VideoPacket(frames, d, first);
      assert kept[k] == d;
    }
  }

  /**
   * When the video loop completes, a frame of the range gets its packet
   * exactly when it passes the catch-up test; in particular every keyframe
   * of the range is written.
   */
  lemma VideoPlanSelects(frames: map<int, VideoFrameData>, order: seq<int>, captureTimes: seq<int>)
    requires forall i :: 0 <= i < |order| ==> order[i] in frames
    requires StrictlyIncreasing(order)
    ensures var r := VideoPlan(frames, order, captureTimes);
      r.outcome == Saved ==>
        && (forall i :: 0 <= i < |order| ==>
              (VideoPacket(frames, order[i], r.first) in r.writes <==> WritesVideo(frames[order[i]], FirstCapture(captureTimes))))
        && (forall i :: 0 <= i < |order| && frames[order[i]].isKey ==> VideoPacket(frames, order[i], r.first) in r.writes)
  {
    var r := VideoPlan(frames, order, captureTimes);
    if r.outcome == Saved {
      var fc := FirstCapture(captureTimes);
      var kept := KeptVideo(order, frames, fc);
      KeptVideoMembers(order, frames, fc);
      assert forall k :: 0 <= k < |kept| ==> kept[k] in order && WritesVideo(frames[kept[k]], fc);
      assert r.writes == VideoWrites(kept, frames, r.first);
      forall i | 0 <= i < |order|
        ensures VideoPacket(frames, order[i], r.first) in r.writes <==> WritesVideo(frames[order[i]], fc)
      {
        var d := order[i];
        VideoWritesContains(kept, frames, r.first, d);
        if d in kept {
          var k :| 0 <= k < |kept| && kept[k] == d;
          assert kept[k] in order && WritesVideo(frames[kept[k]], fc);
        }
      }
    }
  }

  /** The video packets are all on the video stream, the first has PTS offset 0, and the DTS offsets strictly ascend. */
  lemma VideoPlanShape(frames: map<int, VideoFrameData>, order: seq<int>, captureTimes: seq<int>)
    requires forall i :: 0 <= i < |order| ==> order[i] in frames
    requires StrictlyIncreasing(order)
    ensures var r := VideoPlan(frames, order, captureTimes);
      && (r.writes != [] ==> r.writes[0].pts == 0)
      && (forall i, j :: 0 <= i < j < |r.writes| ==> r.writes[i].dts < r.writes[j].dts)
      && (forall w :: w in r.writes ==> w.stream == VIDEO_STREAM)
  {
    var r := VideoPlan(frames, order, captureTimes);
    if r.outcome == Saved {
      var fc := FirstCapture(captureTimes);
      var kept := KeptVideo(order, frames, fc);
      assert r.writes == VideoWrites(kept, frames, r.first);
      KeptVideoSorted(order, frames, fc);
      VideoWritesAt(kept, frames, r.first);
      assert forall i, j :: 0 <= i < j < |kept| ==> kept[i] < kept[j];
      forall w | w in r.writes
        ensures w.stream == VIDEO_STREAM
      {
        var i :| 0 <= i < |r.writes| && r.writes[i] == w;
      }
    }
  }

  /**
   * The audio loop visits frames in ascending PTS and writes a frame exactly
   * when every capture time up to and including its own exists and is not
   * past the last written video PTS, and its own is not before the video
   * origin.
   */
  lemma AudioSelectionMembers(order: seq<int>, captureTimes: seq<int>, first: int, newest: int)
    requires StrictlyIncreasing(order)
    ensures var kept := AudioSelection(order, captureTimes, first, newest);
      StrictlyIncreasing(kept)
      && forall i :: 0 <= i < |order| ==>
        (order[i] in kept <==>
          (forall j :: 0 <= j <= i ==> j < |captureTimes| && captureTimes[j] <= newest) && first <= captureTimes[i])
  {
    var stop := AudioStop(|order|, captureTimes, newest, 0);
    KeptAudioMembers(order, stop, captureTimes, first);
    var kept := KeptAudio(order, stop, captureTimes, first);
    forall i | 0 <= i < |order|
      ensures order[i] in kept <==>
        (forall j :: 0 <= j <= i ==> j < |captureTimes| && captureTimes[j] <= newest) && first <= captureTimes[i]
    {
      if i >= stop {
        assert !(stop < |captureTimes| && captureTimes[stop] <= newest);
      }
    }
  }

  /**
   * The audio loop panics exactly when it runs out of capture times before
   * running out of frames or reaching one past the video; its first packet
   * has offset 0, every packet is audio, and offsets strictly ascend.
   */
  lemma AudioPlanShape(frames: map<int, seq<byte>>, order: seq<int>, captureTimes: seq<int>, first: int, newest: int)
    requires forall i :: 0 <= i < |order| ==> order[i] in frames
    requires StrictlyIncreasing(order)
    ensures var r := AudioPlan(frames, order, captureTimes, first, newest);
      && (r.1 == OutOfBounds <==>
            |captureTimes| < |order| && forall j :: 0 <= j < |captureTimes| ==> captureTimes[j] <= newest)
      && (r.0 != [] ==> r.0[0].pts == 0)
      && (forall w :: w in r.0 ==> w.stream == AUDIO_STREAM && w.pts == w.dts)
      && (forall i, j :: 0 <= i < j < |r.0| ==> r.0[i].pts < r.0[j].pts)
  {
    var kept := AudioSelection(order, captureTimes, first, newest);
    AudioSelectionMembers(order, captureTimes, first, newest);
    var base := if kept == [] then 0 else kept[0];
    assert forall i :: 0 <= i < |kept| ==> kept[i] in frames;
    AudioWritesAt(kept, frames, base);
    var stop := AudioStop(|order|, captureTimes, newest, 0);
    if |captureTimes| < |order| && forall j :: 0 <= j < |captureTimes| ==> captureTimes[j] <= newest {
      assert stop == |captureTimes|;
    }
  }

  lemma StreamsInOrder(videoWrites: seq<Write>, audioWrites: seq<Write>)
    requires forall w :: w in videoWrites ==> w.stream == VIDEO_STREAM
    requires forall w :: w in audioWrites ==> w.stream == AUDIO_STREAM
    ensures var all := videoWrites + audioWrites;
      forall i, j :: 0 <= i < j < |all| && all[j].stream == VIDEO_STREAM ==> all[i].stream == VIDEO_STREAM
  {
    var all := videoWrites + audioWrites;
    assert forall k :: 0 <= k < |videoWrites| ==> all[k] in videoWrites;
    assert forall k :: |videoWrites| <= k < |all| ==> all[k] in audioWrites;
  }

  /** The clip's packets are the video packets followed by the audio packets. */
  lemma SavePlanVideoThenAudio(v: VideoState, a: AudioState)
    ensures var r := SavePlan(v, a);
      forall i, j :: 0 <= i < j < |r.0| && r.0[j].stream == VIDEO_STREAM ==> r.0[i].stream == VIDEO_STREAM
  {
    if v.keyFrameKeys != [] {
      var order := VideoRange(v.frames, v.keyFrameKeys[|v.keyFrameKeys| - 1]);
      VideoPlanShape(v.frames, order, a.captureTimes);
      var vp := VideoPlan(v.frames, order, a.captureTimes);
      if vp.outcome != OutOfBounds {
        var audioOrder := AudioOrder(a.frames);
        AudioPlanShape(a.frames, audioOrder, a.captureTimes, vp.first, vp.newest);
        var ap := AudioPlan(a.frames, audioOrder, a.captureTimes, vp.first, vp.newest);
        StreamsInOrder(vp.writes, ap.0);
      }
    }
  }

  /** Without audio capture times the export panics, writing nothing, as soon as the video range holds a frame. */
  lemma SavePlanNeedsCaptureTimes(v: VideoState, a: AudioState)
    requires v.keyFrameKeys != [] && v.keyFrameKeys[|v.keyFrameKeys| - 1] in v.frames
    requires a.captureTimes == []
    ensures SavePlan(v, a) == ([], OutOfBounds)
  {
    var last := v.keyFrameKeys[|v.keyFrameKeys| - 1];
    assert last in VideoRange(v.frames, last);
  }
}
