/**
 * The older all-in-one encoder of src/ffmpeg_encoder.rs: it keeps encoded
 * video in a double-ended queue trimmed one GOP at a time through a list
 * of keyframe positions, re-chunks raw audio into fixed-size encoder frames
 * through a leftover queue and a PTS counter, and exports both queues with
 * offsets relative to their first entries.
 *
 * The codec is an oracle: each operation takes, as parameters, the packets
 * the encoder hands back.
 */
module Ffmpeg {
  import opened Wrappers
  import opened EncoderTypes

  const VIDEO_STREAM: nat := 0
  const AUDIO_STREAM: nat := 1
  /** PTS step between successive audio chunks. */
  const AUDIO_PTS_STEP: int := 960

  /** One encoded video packet and its capture time in microseconds. */
  datatype FfVideoFrame = FfVideoFrame(frameBytes: seq<byte>, time: int)

  /** One encoded audio packet, the capture time of the call that produced it, and the PTS of its chunk. */
  datatype FfAudioFrame = FfAudioFrame(frameBytes: seq<byte>, captureTime: int, chunkTime: int)

  // ---------------------------------------------------------------------
  // Opening the encoder
  // ---------------------------------------------------------------------

  /**
   * The video encoder `new` settles on, given what opening h264_nvenc,
   * h264_amf and h264 would give: the first that opens, else the last
   * error.
   */
  function PickVideoEncoder(nvenc: Result<CodecHandle, CodecError>, amf: Result<CodecHandle, CodecError>,
                            cpu: Result<CodecHandle, CodecError>): (r: Result<CodecHandle, CodecError>)
    ensures r.Err? <==> nvenc.Err? && amf.Err? && cpu.Err?
    ensures r.Err? ==> r == cpu
    ensures r.Ok? ==> r == nvenc || r == amf || r == cpu
    ensures nvenc.Ok? ==> r == nvenc
    ensures nvenc.Err? && amf.Ok? ==> r == amf
  {
    match nvenc
    case Ok(_) => nvenc
    case Err(_) =>
      match amf
      case Ok(_) => amf
      case Err(_) => cpu
  }

  /**
   * What `new` settles on before building the encoder: the video codec
   * `PickVideoEncoder` chooses, failing with its error, and then the Opus
   * encoder, failing with its error.
   */
  function OpenEncoders(nvenc: Result<CodecHandle, CodecError>, amf: Result<CodecHandle, CodecError>,
                        cpu: Result<CodecHandle, CodecError>, opus: Result<CodecHandle, CodecError>)
    : (r: Result<(CodecHandle, CodecHandle), CodecError>)
    ensures r.Ok? <==> (nvenc.Ok? || amf.Ok? || cpu.Ok?) && opus.Ok?
    ensures r.Ok? ==> r.value.1 == opus.value && (r.value.0 == PickVideoEncoder(nvenc, amf, cpu).value)
    ensures nvenc.Err? && amf.Err? && cpu.Err? ==> r == Err(cpu.error)
    ensures (nvenc.Ok? || amf.Ok? || cpu.Ok?) && opus.Err? ==> r == Err(opus.error)
  {
    var video := PickVideoEncoder(nvenc, amf, cpu);
    if video.Err? then Err(video.error)
    else if opus.Err? then Err(opus.error)
    else Ok((video.value, opus.value))
  }

  // ---------------------------------------------------------------------
  // Video eviction: value-level specification
  // ---------------------------------------------------------------------

  /**
   * The keyframe positions the encoder maintains: strictly increasing,
   * never the front (0), always inside the queue.
   */
  predicate ValidIndexes(ki: seq<int>, len: int)
  {
    && (forall i :: 0 <= i < |ki| ==> 1 <= ki[i] < len)
    && (forall i, j :: 0 <= i < j < |ki| ==> ki[i] < ki[j])
  }

  /** `iter_mut().for_each(|index| *index -= n)`. */
  function ShiftDown(ki: seq<int>, n: int): (r: seq<int>)
    ensures |r| == |ki|
    ensures forall i :: 0 <= i < |ki| ==> r[i] == ki[i] - n
  {
    seq(|ki|, i requires 0 <= i < |ki| => ki[i] - n)
  }

  /** `retain(|&index| index != 0)`. */
  function RetainNonZero(ki: seq<int>): (r: seq<int>)
    ensures |r| <= |ki|
  {
    if ki == [] then []
    else if ki[0] == 0 then RetainNonZero(ki[1..])
    else [ki[0]] + RetainNonZero(ki[1..])
  }

  /** `retain` keeps exactly the non-zero entries. */
  lemma {:induction false} RetainNonZeroMembers(ki: seq<int>)
    ensures forall x :: x in RetainNonZero(ki) <==> x in ki && x != 0
  {
    if ki != [] {
      RetainNonZeroMembers(ki[1..]);
      assert ki == [ki[0]] + ki[1..];
    }
  }

  /** One pass of the eviction loop: drain the frames before the first keyframe position and renumber the positions. */
  function DrainFirstGop(vb: seq<FfVideoFrame>, ki: seq<int>): (r: (seq<FfVideoFrame>, seq<int>))
    requires ki != [] && ValidIndexes(ki, |vb|)
    ensures |r.0| < |vb|
    ensures 0 !in r.1
  {
    RetainNonZeroMembers(ShiftDown(ki, ki[0]));
    (vb[ki[0]..], RetainNonZero(ShiftDown(ki, ki[0])))
  }

  /** The eviction condition: the queue spans at least `maxTime` and a keyframe position is known. */
  predicate SpanOver(vb: seq<FfVideoFrame>, ki: seq<int>, maxTime: int)
  {
    vb != [] && vb[|vb| - 1].time - vb[0].time >= maxTime && ki != []
  }

  /** The eviction loop of `process_video`. */
  function Evict(vb: seq<FfVideoFrame>, ki: seq<int>, maxTime: int): (r: (seq<FfVideoFrame>, seq<int>))
    requires ValidIndexes(ki, |vb|)
    ensures !SpanOver(r.0, r.1, maxTime)
    ensures |r.0| <= |vb|
    decreases |vb|
  {
    if !SpanOver(vb, ki, maxTime) then (vb, ki)
    else
      DrainKeepsIndexesValid(vb, ki);
      var d := DrainFirstGop(vb, ki);
      Evict(d.0, d.1, maxTime)
  }

  /** After a pass the positions still satisfy `ValidIndexes`, shifted by the number of drained frames, and the first is gone. */
  lemma DrainKeepsIndexesValid(vb: seq<FfVideoFrame>, ki: seq<int>)
    requires ki != [] && ValidIndexes(ki, |vb|)
    ensures var d := DrainFirstGop(vb, ki);
      && ValidIndexes(d.1, |d.0|)
      && |d.0| == |vb| - ki[0] < |vb|
      && d.1 == ShiftDown(ki[1..], ki[0])
  {
    var s := ShiftDown(ki, ki[0]);
    assert s == [0] + ShiftDown(ki[1..], ki[0]);
    RetainAllNonZero(ShiftDown(ki[1..], ki[0]));
  }

  /** Retaining non-zero entries of a list that holds none leaves it as it is. */
  lemma {:induction false} RetainAllNonZero(xs: seq<int>)
    requires forall i :: 0 <= i < |xs| ==> xs[i] != 0
    ensures RetainNonZero(xs) == xs
    decreases |xs|
  {
    if xs != [] {
      RetainAllNonZero(xs[1..]);
    }
  }

  /**
   * The eviction loop keeps the positions valid and a suffix of the queue,
   * and stops only once the span is below the window or no keyframe
   * position is left.
   */
  lemma {:induction false} EvictProperties(vb: seq<FfVideoFrame>, ki: seq<int>, maxTime: int)
    requires ValidIndexes(ki, |vb|)
    ensures var r := Evict(vb, ki, maxTime);
      && ValidIndexes(r.1, |r.0|)
      && |r.0| <= |vb| && r.0 == vb[|vb| - |r.0|..]
      && !SpanOver(r.0, r.1, maxTime)
    decreases |vb|
  {
    if SpanOver(vb, ki, maxTime) {
      DrainKeepsIndexesValid(vb, ki);
      var d := DrainFirstGop(vb, ki);
      EvictProperties(d.0, d.1, maxTime);
      var r := Evict(d.0, d.1, maxTime);
      assert Evict(vb, ki, maxTime) == r;
      assert d.0 == vb[ki[0]..] && |d.0| == |vb| - ki[0];
      assert vb[ki[0]..][|d.0| - |r.0|..] == vb[|vb| - |r.0|..];
    }
  }

  /** Whenever the eviction loop drops frames, the queue it leaves starts at a recorded keyframe position. */
  lemma {:induction false} EvictCutsAtKeyframe(vb: seq<FfVideoFrame>, ki: seq<int>, maxTime: int)
    requires ValidIndexes(ki, |vb|)
    ensures var r := Evict(vb, ki, maxTime);
      |r.0| <= |vb| && (|r.0| < |vb| ==> |vb| - |r.0| in ki)
    decreases |vb|
  {
    if SpanOver(vb, ki, maxTime) {
      DrainKeepsIndexesValid(vb, ki);
      var d := DrainFirstGop(vb, ki);
      EvictCutsAtKeyframe(d.0, d.1, maxTime);
      var r := Evict(d.0, d.1, maxTime);
      assert Evict(vb, ki, maxTime) == r;
      if |r.0| < |d.0| {
        ShiftedPositionRecorded(ki, |d.0| - |r.0|);
      } else {
        assert ki[0] in ki;
      }
    }
  }

  /** A renumbered position, shifted back, is one that was recorded. */
  lemma ShiftedPositionRecorded(ki: seq<int>, x: int)
    requires ki != [] && x in ShiftDown(ki[1..], ki[0])
    ensures x + ki[0] in ki
  {
    var j :| 0 <= j < |ki| - 1 && ShiftDown(ki[1..], ki[0])[j] == x;
    assert ki[j + 1] == x + ki[0];
  }

  /** The positions after pushing a frame: its own is recorded when it is a keyframe and the queue holds more than one frame. */
  function RecordKeyframe(ki: seq<int>, len: nat, isKey: bool): (r: seq<int>)
    ensures |ki| <= |r| <= |ki| + 1 && r[..|ki|] == ki
    ensures |r| > |ki| <==> isKey && len > 1
    ensures |r| > |ki| ==> r[|ki|] == len - 1
  {
    if isKey && len > 1 then ki + [len - 1] else ki
  }

  /** Pushing a frame after eviction keeps the positions valid. */
  lemma PushKeepsIndexesValid(vb: seq<FfVideoFrame>, ki: seq<int>, frame: FfVideoFrame, isKey: bool)
    requires ValidIndexes(ki, |vb|)
    ensures ValidIndexes(RecordKeyframe(ki, |vb| + 1, isKey), |vb| + 1)
  {
  }

  // ---------------------------------------------------------------------
  // Audio chunking: value-level specification
  // ---------------------------------------------------------------------

  /**
   * The audio encoder as an oracle: for a chunk of samples sent with a PTS,
   * the error `send_frame` reports or the packets `receive_packet` then
   * yields (each may lack a payload).
   */
  type AudioEncoderOracle = (seq<real>, int) -> Result<seq<Option<seq<byte>>>, CodecError>

  /** What one `process_audio` call works with besides the state it updates. */
  datatype ChunkEnv = ChunkEnv(oldestVideo: Option<int>, maxTime: int, frameSize: nat, captureTime: int,
                               encode: AudioEncoderOracle)

  /**
   * The state the chunk loop updates: the audio queue, the leftover samples
   * and the PTS counter; and, as bookkeeping, the number of chunks encoded,
   * how many queue entries were popped from the front, and the packets
   * pushed, in order.
   */
  datatype ChunkState = ChunkState(audio: seq<FfAudioFrame>, leftover: seq<real>, nextPts: int,
                                   chunks: nat, popped: nat, produced: seq<FfAudioFrame>)

  /** How the chunk loop of `process_audio` ends: leftover below one chunk, a failed send, or spinning forever. */
  datatype ChunkOutcome = Drained | SendFailed(error: CodecError) | Spins

  datatype ChunkRun = ChunkRun(state: ChunkState, outcome: ChunkOutcome)

  /** The time of the oldest queued video frame, None when the video queue is empty. */
  function OldestVideoTime(vb: seq<FfVideoFrame>): (r: Option<int>)
    ensures r.None? <==> vb == []
  {
    if vb == [] then None else Some(vb[0].time)
  }

  /** The queue entries pushed for one chunk: each received packet with a payload, stamped with the call's capture time and the chunk's PTS. */
  function Received(pkts: seq<Option<seq<byte>>>, captureTime: int, chunkTime: int): (r: seq<FfAudioFrame>)
    ensures |r| <= |pkts|
    ensures forall i :: 0 <= i < |r| ==> r[i].captureTime == captureTime && r[i].chunkTime == chunkTime
    decreases |pkts|
  {
    if pkts == [] then []
    else
      var n := |pkts| - 1;
      Received(pkts[..n], captureTime, chunkTime)
        + (if pkts[n].Some? then [FfAudioFrame(pkts[n].value, captureTime, chunkTime)] else [])
  }

  /**
   * The trim step before each chunk, when it exits: with video queued, pop
   * the oldest audio entry if the newest audio capture time is more than
   * the window past the oldest video time.
   */
  function TrimForChunk(audio: seq<FfAudioFrame>, oldestVideo: Option<int>, maxTime: int): (r: seq<FfAudioFrame>)
    requires oldestVideo.Some? ==> audio != []
    ensures r == audio || (audio != [] && r == audio[1..])
  {
    if oldestVideo.Some? && audio[|audio| - 1].captureTime - oldestVideo.value > maxTime then audio[1..] else audio
  }

  /** The loop keeps going: at least a chunk's worth of samples is left over. */
  predicate ChunkReady(st: ChunkState, env: ChunkEnv)
  {
    env.frameSize > 0 && |st.leftover| >= env.frameSize
  }

  /** The trim step never exits: video is queued but the audio queue is empty. */
  predicate TrimSpins(st: ChunkState, env: ChunkEnv)
  {
    env.oldestVideo.Some? && st.audio == []
  }

  /**
   * One pass of the chunk loop: trim, take a chunk off the leftover queue,
   * send it with the current PTS, push what comes back and advance the PTS.
   * On a failed send the trim and the drain have happened and nothing else.
   */
  function ChunkStep(st: ChunkState, env: ChunkEnv): (r: (ChunkState, Option<CodecError>))
    requires ChunkReady(st, env) && !TrimSpins(st, env)
    ensures |r.0.leftover| == |st.leftover| - env.frameSize
  {
    var trimmed := TrimForChunk(st.audio, env.oldestVideo, env.maxTime);
    var popped := st.popped + (|st.audio| - |trimmed|);
    var rest := st.leftover[env.frameSize..];
    match env.encode(st.leftover[..env.frameSize], st.nextPts)
    case Err(e) => (ChunkState(trimmed, rest, st.nextPts, st.chunks, popped, st.produced), Some(e))
    case Ok(pkts) =>
      var pushed := Received(pkts, env.captureTime, st.nextPts);
      (ChunkState(trimmed + pushed, rest, st.nextPts + AUDIO_PTS_STEP, st.chunks + 1, popped, st.produced + pushed), None)
  }

  /** The chunk loop of `process_audio`. */
  function RunChunks(st: ChunkState, env: ChunkEnv): (r: ChunkRun)
    requires env.frameSize > 0
    ensures r.outcome == Drained ==> |r.state.leftover| < env.frameSize
    ensures r.outcome == Spins ==> ChunkReady(r.state, env) && TrimSpins(r.state, env)
    ensures |r.state.leftover| <= |st.leftover|
    decreases |st.leftover|
  {
    if !ChunkReady(st, env) then ChunkRun(st, Drained)
    else if TrimSpins(st, env) then ChunkRun(st, Spins)
    else
      var (next, failed) := ChunkStep(st, env);
      if failed.Some? then ChunkRun(next, SendFailed(failed.value))
      else RunChunks(next, env)
  }

  /** The state a `process_audio` call starts its chunk loop from. */
  function ChunkStart(audio: seq<FfAudioFrame>, leftover: seq<real>, nextPts: int): ChunkState
  {
    ChunkState(audio, leftover, nextPts, 0, 0, [])
  }

  // Sample conservation

  predicate Conserved(st: ChunkState, env: ChunkEnv, total: nat, ptsStart: int)
  {
    total == st.chunks * env.frameSize + |st.leftover| && st.nextPts == ptsStart + AUDIO_PTS_STEP * st.chunks
  }

  lemma StepConserves(st: ChunkState, env: ChunkEnv, total: nat, ptsStart: int)
    requires ChunkReady(st, env) && !TrimSpins(st, env)
    requires Conserved(st, env, total, ptsStart)
    ensures var (next, failed) := ChunkStep(st, env);
      && (failed.None? ==> Conserved(next, env, total, ptsStart))
      && (failed.Some? ==>
            total == (next.chunks + 1) * env.frameSize + |next.leftover| && next.nextPts == st.nextPts && next.chunks == st.chunks)
  {
    assert (st.chunks + 1) * env.frameSize == st.chunks * env.frameSize + env.frameSize;
    assert AUDIO_PTS_STEP * (st.chunks + 1) == AUDIO_PTS_STEP * st.chunks + AUDIO_PTS_STEP;
  }

  /**
   * Sample conservation: every sample that entered the leftover queue was
   * either encoded in a whole chunk or is still left over, fewer than a
   * chunk's worth once the loop drains; the PTS counter advanced by 960 per
   * encoded chunk.
   */
  lemma {:induction false} RunChunksConservesSamples(st: ChunkState, env: ChunkEnv, total: nat, ptsStart: int)
    requires env.frameSize > 0
    requires Conserved(st, env, total, ptsStart)
    ensures var r := RunChunks(st, env);
      && r.state.nextPts == ptsStart + AUDIO_PTS_STEP * r.state.chunks
      && (r.outcome.SendFailed? ==> total == (r.state.chunks + 1) * env.frameSize + |r.state.leftover|)
      && (!r.outcome.SendFailed? ==> total == r.state.chunks * env.frameSize + |r.state.leftover|)
      && (r.outcome.Drained? ==> |r.state.leftover| < env.frameSize)
      && (r.outcome.Spins? ==> env.oldestVideo.Some? && r.state.audio == [] && |r.state.leftover| >= env.frameSize)
    decreases |st.leftover|
  {
    if ChunkReady(st, env) && !TrimSpins(st, env) {
      StepConserves(st, env, total, ptsStart);
      var (next, failed) := ChunkStep(st, env);
      if failed.None? {
        RunChunksConservesSamples(next, env, total, ptsStart);
      }
    }
  }

  // The queue

  /** The queue is the starting queue followed by the pushed packets, minus the entries popped from the front. */
  predicate QueueShape(start: seq<FfAudioFrame>, st: ChunkState)
  {
    st.popped <= |start + st.produced| && st.audio == (start + st.produced)[st.popped..]
  }

  lemma StepKeepsQueueShape(start: seq<FfAudioFrame>, st: ChunkState, env: ChunkEnv)
    requires ChunkReady(st, env) && !TrimSpins(st, env)
    requires QueueShape(start, st)
    ensures QueueShape(start, ChunkStep(st, env).0)
    ensures ChunkStep(st, env).0.popped <= st.popped + 1
  {
    var all := start + st.produced;
    var trimmed := TrimForChunk(st.audio, env.oldestVideo, env.maxTime);
    TrimKeepsSuffix(all, st.popped, env.oldestVideo, env.maxTime);
    var popped := st.popped + (|st.audio| - |trimmed|);
    match env.encode(st.leftover[..env.frameSize], st.nextPts)
    case Err(e) =>
    case Ok(pkts) =>
      var pushed := Received(pkts, env.captureTime, st.nextPts);
      SuffixThenPush(start, st.produced, pushed, popped);
  }

  /** Trimming a suffix of a list leaves a suffix starting at most one entry later. */
  lemma TrimKeepsSuffix(all: seq<FfAudioFrame>, p: nat, oldestVideo: Option<int>, maxTime: int)
    requires p <= |all| && (oldestVideo.Some? ==> p < |all|)
    ensures var r := TrimForChunk(all[p..], oldestVideo, maxTime);
      |r| <= |all| - p <= |r| + 1 && r == all[|all| - |r|..]
  {
    var r := TrimForChunk(all[p..], oldestVideo, maxTime);
    if r != all[p..] {
      assert all[p..][1..] == all[p + 1..];
    }
  }

  /** Pushing onto a suffix of the queue is the suffix of the queue with the push. */
  lemma SuffixThenPush(start: seq<FfAudioFrame>, produced: seq<FfAudioFrame>, pushed: seq<FfAudioFrame>, p: nat)
    requires p <= |start + produced|
    ensures (start + produced)[p..] + pushed == (start + (produced + pushed))[p..]
  {
    assert start + (produced + pushed) == (start + produced) + pushed;
  }

  /**
   * The audio queue the loop leaves is the queue it started from followed
   * by every packet pushed, minus the entries popped from the front; the
   * trim step pops at most one entry per chunk it starts.
   */
  lemma {:induction false} RunChunksQueueShape(start: seq<FfAudioFrame>, st: ChunkState, env: ChunkEnv)
    requires env.frameSize > 0
    requires QueueShape(start, st) && st.popped <= st.chunks
    ensures var r := RunChunks(st, env);
      && QueueShape(start, r.state)
      && r.state.popped <= r.state.chunks + 1
      && (!r.outcome.SendFailed? ==> r.state.popped <= r.state.chunks)
    decreases |st.leftover|
  {
    if ChunkReady(st, env) && !TrimSpins(st, env) {
      StepKeepsQueueShape(start, st, env);
      var (next, failed) := ChunkStep(st, env);
      if failed.None? {
        RunChunksQueueShape(start, next, env);
      }
    }
  }

  // The pushed packets

  /** The PTS the chunk loop sends its `j`-th chunk at, counting from `ptsStart`. */
  function ChunkPts(ptsStart: int, j: nat): int
  {
    ptsStart + AUDIO_PTS_STEP * j
  }

  /** `t` is the PTS of one of the first `chunks` chunks sent from `ptsStart`. */
  predicate SentAt(t: int, ptsStart: int, chunks: nat)
  {
    exists j: nat :: j < chunks && t == ChunkPts(ptsStart, j)
  }

  /**
   * Every packet carries the capture time `captureTime` and the PTS of one
   * of the first `chunks` chunks, so a PTS in [ptsStart, ChunkPts(ptsStart,
   * chunks)), and chunk PTS values never decrease along the packets.
   */
  predicate PacketsStamped(produced: seq<FfAudioFrame>, captureTime: int, ptsStart: int, chunks: nat)
  {
    && (forall i :: 0 <= i < |produced| ==>
          && produced[i].captureTime == captureTime
          && ptsStart <= produced[i].chunkTime < ChunkPts(ptsStart, chunks)
          && SentAt(produced[i].chunkTime, ptsStart, chunks))
    && (forall i, j :: 0 <= i < j < |produced| ==> produced[i].chunkTime <= produced[j].chunkTime)
  }

  /** The counter has advanced 960 per chunk sent, and the pushed packets are stamped by the chunks sent. */
  predicate Stamped(st: ChunkState, env: ChunkEnv, ptsStart: int)
  {
    && st.nextPts == ChunkPts(ptsStart, st.chunks)
    && PacketsStamped(st.produced, env.captureTime, ptsStart, st.chunks)
  }

  /** Appending the packets of the next chunk keeps the packets stamped, with one more chunk sent. */
  lemma AppendKeepsStamped(produced: seq<FfAudioFrame>, pushed: seq<FfAudioFrame>, captureTime: int, ptsStart: int, chunks: nat)
    requires PacketsStamped(produced, captureTime, ptsStart, chunks)
    requires forall i :: 0 <= i < |pushed| ==>
      pushed[i].captureTime == captureTime && pushed[i].chunkTime == ChunkPts(ptsStart, chunks)
    ensures PacketsStamped(produced + pushed, captureTime, ptsStart, chunks + 1)
  {
    var all := produced + pushed;
    forall i | 0 <= i < |all|
      ensures && all[i].captureTime == captureTime
              && ptsStart <= all[i].chunkTime < ChunkPts(ptsStart, chunks + 1)
              && SentAt(all[i].chunkTime, ptsStart, chunks + 1)
    {
      if i < |produced| {
        assert all[i] == produced[i];
        var j: nat :| j < chunks && produced[i].chunkTime == ChunkPts(ptsStart, j);
        assert j < chunks + 1;
      } else {
        assert all[i] == pushed[i - |produced|];
        assert all[i].chunkTime == ChunkPts(ptsStart, chunks);
      }
    }
    forall i, j | 0 <= i < j < |all|
      ensures all[i].chunkTime <= all[j].chunkTime
    {
      if j >= |produced| {
        assert all[j] == pushed[j - |produced|];
        if i < |produced| {
          assert all[i] == produced[i];
        } else {
          assert all[i] == pushed[i - |produced|];
        }
      } else {
        assert all[i] == produced[i] && all[j] == produced[j];
      }
    }
  }

  lemma StepKeepsStamped(st: ChunkState, env: ChunkEnv, ptsStart: int)
    requires ChunkReady(st, env) && !TrimSpins(st, env)
    requires Stamped(st, env, ptsStart)
    ensures Stamped(ChunkStep(st, env).0, env, ptsStart)
  {
    match env.encode(st.leftover[..env.frameSize], st.nextPts)
    case Err(e) =>
    case Ok(pkts) =>
      var pushed := Received(pkts, env.captureTime, st.nextPts);
      AppendKeepsStamped(st.produced, pushed, env.captureTime, ptsStart, st.chunks);
      assert ChunkStep(st, env).0.nextPts == ChunkPts(ptsStart, st.chunks + 1);
  }

  /**
   * Every packet pushed by one call carries that call's capture time and the
   * PTS of the chunk it came from, the counter's value at that chunk's send;
   * chunk PTS values never decrease along the pushed packets and lie
   * between the counter's start and end.
   */
  lemma {:induction false} RunChunksStampsPackets(st: ChunkState, env: ChunkEnv, ptsStart: int)
    requires env.frameSize > 0
    requires Stamped(st, env, ptsStart)
    ensures Stamped(RunChunks(st, env).state, env, ptsStart)
    decreases |st.leftover|
  {
    if ChunkReady(st, env) && !TrimSpins(st, env) {
      StepKeepsStamped(st, env, ptsStart);
      var (next, failed) := ChunkStep(st, env);
      if failed.None? {
        RunChunksStampsPackets(next, env, ptsStart);
      }
    }
  }

  /**
   * What one `process_audio` call does to the queues, from its starting
   * state: the samples it took in are encoded in whole chunks or left over,
   * the PTS counter advanced 960 per chunk, the new queue is the old one
   * with the pushed packets appended and at most one entry per chunk popped
   * from the front, and every pushed packet carries the call's capture time.
   */
  lemma ChunkLoopSummary(audio: seq<FfAudioFrame>, leftover: seq<real>, nextPts: int, env: ChunkEnv)
    requires env.frameSize > 0
    ensures var r := RunChunks(ChunkStart(audio, leftover, nextPts), env);
      && r.state.nextPts == nextPts + AUDIO_PTS_STEP * r.state.chunks
      && (!r.outcome.SendFailed? ==> |leftover| == r.state.chunks * env.frameSize + |r.state.leftover|)
      && (r.outcome.Drained? ==> |r.state.leftover| < env.frameSize)
      && r.state.popped <= r.state.chunks + 1
      && r.state.popped <= |audio + r.state.produced|
      && r.state.audio == (audio + r.state.produced)[r.state.popped..]
      && (forall i :: 0 <= i < |r.state.produced| ==> r.state.produced[i].captureTime == env.captureTime)
  {
    var st := ChunkStart(audio, leftover, nextPts);
    assert audio + st.produced == audio;
    RunChunksConservesSamples(st, env, |leftover|, nextPts);
    RunChunksQueueShape(audio, st, env);
    RunChunksStampsPackets(st, env, nextPts);
  }

  // ---------------------------------------------------------------------
  // Export: value-level specification
  // ---------------------------------------------------------------------

  /** How `save_buffer` ends once the header is written: all packets written, or a panic on an empty queue. */
  datatype ExportOutcome = Exported | PanicNoVideo | PanicNoAudio

  /**
   * The alignment step of `save_buffer`: while video is queued, drop audio
   * entries from the front whose capture time is before the oldest video
   * frame's time.
   */
  function AlignAudio(audio: seq<FfAudioFrame>, video: seq<FfVideoFrame>): (r: seq<FfAudioFrame>)
    ensures |r| <= |audio|
    ensures video != [] && r != [] ==> video[0].time <= r[0].captureTime
    decreases |audio|
  {
    if audio != [] && video != [] && audio[0].captureTime < video[0].time then AlignAudio(audio[1..], video)
    else audio
  }

  /** Every queued video packet, stamped with its capture time relative to `first` as both PTS and DTS. */
  function VideoExport(video: seq<FfVideoFrame>, first: int): (w: seq<Write>)
    ensures |w| == |video|
  {
    seq(|video|, i requires 0 <= i < |video| => Write(VIDEO_STREAM, video[i].time - first, video[i].time - first, video[i].frameBytes))
  }

  /** Every aligned audio packet, stamped with its chunk PTS relative to `first` as both PTS and DTS. */
  function AudioExport(audio: seq<FfAudioFrame>, first: int): (w: seq<Write>)
    ensures |w| == |audio|
  {
    seq(|audio|, i requires 0 <= i < |audio| => Write(AUDIO_STREAM, audio[i].chunkTime - first, audio[i].chunkTime - first, audio[i].frameBytes))
  }

  /**
   * The packets `save_buffer` writes and how it ends: it panics before
   * writing anything when no video is queued, and after the video when no
   * audio survives the alignment.
   */
  function ExportPlan(video: seq<FfVideoFrame>, audio: seq<FfAudioFrame>): (r: (seq<Write>, ExportOutcome))
    ensures r.1 == PanicNoVideo <==> video == []
    ensures r.1 == PanicNoVideo ==> r.0 == []
  {
    var aligned := AlignAudio(audio, video);
    if video == [] then ([], PanicNoVideo)
    else
      var vw := VideoExport(video, video[0].time);
      if aligned == [] then (vw, PanicNoAudio)
      else (vw + AudioExport(aligned, aligned[0].chunkTime), Exported)
  }

  /**
   * Alignment drops exactly a prefix of audio captured before the oldest
   * video frame: with no video nothing is dropped, and otherwise every
   * dropped entry predates the oldest video frame and the first kept one
   * does not.
   */
  lemma {:induction false} AlignAudioDropsEarlyPrefix(audio: seq<FfAudioFrame>, video: seq<FfVideoFrame>)
    ensures var r := AlignAudio(audio, video);
      && |r| <= |audio| && r == audio[|audio| - |r|..]
      && (video == [] ==> r == audio)
      && (video != [] ==>
            && (forall i :: 0 <= i < |audio| - |r| ==> audio[i].captureTime < video[0].time)
            && (r != [] ==> r[0].captureTime >= video[0].time))
    decreases |audio|
  {
    if audio != [] && video != [] && audio[0].captureTime < video[0].time {
      AlignAudioDropsEarlyPrefix(audio[1..], video);
      var r := AlignAudio(audio, video);
      assert audio[1..][|audio| - 1 - |r|..] == audio[|audio| - |r|..];
      forall i | 1 <= i < |audio| - |r|
        ensures audio[i].captureTime < video[0].time
      {
        assert audio[i] == audio[1..][i - 1];
      }
    }
  }

  /** The export writes audio exactly when video is queued and some audio was captured at or after the oldest video frame. */
  lemma ExportPlanOutcome(video: seq<FfVideoFrame>, audio: seq<FfAudioFrame>)
    ensures var r := ExportPlan(video, audio);
      r.1 == Exported <==> video != [] && exists i :: 0 <= i < |audio| && audio[i].captureTime >= video[0].time
  {
    AlignAudioDropsEarlyPrefix(audio, video);
    var aligned := AlignAudio(audio, video);
    if video != [] && aligned != [] {
      assert audio[|audio| - |aligned|] == aligned[0];
    }
  }

  /** Each video packet goes to the video stream with its payload, PTS equal to DTS and both its capture time less `first`. */
  lemma VideoExportStamps(video: seq<FfVideoFrame>, first: int)
    ensures var w := VideoExport(video, first);
      forall i :: 0 <= i < |video| ==>
        w[i].stream == VIDEO_STREAM && w[i].payload == video[i].frameBytes
        && w[i].pts == w[i].dts == video[i].time - first
  {
  }

  /** Each audio packet goes to the audio stream with its payload, PTS equal to DTS and both its chunk PTS less `first`. */
  lemma AudioExportStamps(audio: seq<FfAudioFrame>, first: int)
    ensures var w := AudioExport(audio, first);
      forall i :: 0 <= i < |audio| ==>
        w[i].stream == AUDIO_STREAM && w[i].payload == audio[i].frameBytes
        && w[i].pts == w[i].dts == audio[i].chunkTime - first
  {
  }

  /**
   * When both queues export, the video packets come first, one per queued
   * frame, on the video stream with PTS equal to DTS, starting at 0 and
   * keeping the capture-time differences.
   */
  lemma ExportPlanVideoShape(video: seq<FfVideoFrame>, audio: seq<FfAudioFrame>)
    requires ExportPlan(video, audio).1 == Exported
    ensures var w := ExportPlan(video, audio).0;
      && |w| == |video| + |AlignAudio(audio, video)|
      && w[0].pts == 0
      && (forall i :: 0 <= i < |video| ==> w[i].stream == VIDEO_STREAM && w[i].payload == video[i].frameBytes && w[i].pts == w[i].dts)
      && (forall i, j :: 0 <= i < |video| && 0 <= j < |video| ==> w[i].pts - w[j].pts == video[i].time - video[j].time)
  {
    var aligned := AlignAudio(audio, video);
    var vw := VideoExport(video, video[0].time);
    var w := vw + AudioExport(aligned, aligned[0].chunkTime);
    VideoExportStamps(video, video[0].time);
    assert forall i :: 0 <= i < |video| ==> w[i] == vw[i];
  }

  /**
   * ... and after them one audio packet per aligned entry, on the audio
   * stream with PTS equal to DTS, starting at 0 and keeping the chunk-PTS
   * differences.
   */
  lemma ExportPlanAudioShape(video: seq<FfVideoFrame>, audio: seq<FfAudioFrame>)
    requires ExportPlan(video, audio).1 == Exported
    ensures var w := ExportPlan(video, audio).0;
      var aligned := AlignAudio(audio, video);
      && |w| == |video| + |aligned|
      && w[|video|].pts == 0
      && (forall k :: 0 <= k < |aligned| ==>
            w[|video| + k].stream == AUDIO_STREAM && w[|video| + k].payload == aligned[k].frameBytes
            && w[|video| + k].pts == w[|video| + k].dts)
      && (forall k, l :: 0 <= k < |aligned| && 0 <= l < |aligned| ==>
            w[|video| + k].pts - w[|video| + l].pts == aligned[k].chunkTime - aligned[l].chunkTime)
  {
    var aligned := AlignAudio(audio, video);
    var vw := VideoExport(video, video[0].time);
    var aw := AudioExport(aligned, aligned[0].chunkTime);
    assert ExportPlan(video, audio).0 == vw + aw;
    AudioExportStamps(aligned, aligned[0].chunkTime);
    forall k | 0 <= k < |aligned|
      ensures (vw + aw)[|video| + k] == aw[k]
    {
    }
  }

  // ---------------------------------------------------------------------
  // The encoder
  // ---------------------------------------------------------------------

  class FfmpegEncoder {
    var videoBuffer: seq<FfVideoFrame>
    var audioBuffer: seq<FfAudioFrame>
    var maxTime: nat
    var keyframeIndexes: seq<int>
    var nextPts: int
    var leftoverAudio: seq<real>
    /** Channel count and samples per chunk, as the opened audio encoder reports them. */
    const channels: nat
    const frameSize: nat
    const videoCodec: CodecHandle

    predicate Valid()
      reads this
    {
      channels > 0 && frameSize > 0 && ValidIndexes(keyframeIndexes, |videoBuffer|)
    }

    /** A fresh encoder over the codec `PickVideoEncoder` chose, with a window of `bufferSeconds` seconds. */
    constructor (videoCodec: CodecHandle, bufferSeconds: u32, channels: nat, frameSize: nat)
      requires channels > 0 && frameSize > 0
      ensures Valid()
      ensures this.videoCodec == videoCodec && this.channels == channels && this.frameSize == frameSize
      ensures maxTime == bufferSeconds * ONE_MICROS
      ensures videoBuffer == [] && audioBuffer == [] && keyframeIndexes == [] && nextPts == 0 && leftoverAudio == []
    {
      this.videoCodec := videoCodec;
      this.channels := channels;
      this.frameSize := frameSize;
      maxTime := bufferSeconds * ONE_MICROS;
      videoBuffer := [];
      audioBuffer := [];
      keyframeIndexes := [];
      nextPts := 0;
      leftoverAudio := [];
    }

    /**
     * Encode one captured frame. When the encoder hands back a packet with
     * a payload, trim whole GOPs from the front while the queue spans the
     * window, then push the packet and record its position if it is a
     * keyframe. `received` is what `receive_packet` yields, None when it
     * reports no packet.
     */
    method ProcessVideo(timeMicro: int, received: Option<Packet>)
      requires Valid()
      modifies this
      ensures Valid()
      ensures audioBuffer == old(audioBuffer) && nextPts == old(nextPts) && leftoverAudio == old(leftoverAudio)
      ensures maxTime == old(maxTime)
      ensures if received.Some? && received.value.data.Some? then
          var e := Evict(old(videoBuffer), old(keyframeIndexes), maxTime);
          && videoBuffer == e.0 + [FfVideoFrame(received.value.data.value, timeMicro)]
          && keyframeIndexes == RecordKeyframe(e.1, |e.0| + 1, received.value.isKey)
        else videoBuffer == old(videoBuffer) && keyframeIndexes == old(keyframeIndexes)
    {
      if received.None? || received.value.data.None? {
        return;
      }
      var frameData := FfVideoFrame(received.value.data.value, timeMicro);
      EvictOldGops();
      PushKeepsIndexesValid(videoBuffer, keyframeIndexes, frameData, received.value.isKey);
      videoBuffer := videoBuffer + [frameData];
      if received.value.isKey && |videoBuffer| > 1 {
        keyframeIndexes := keyframeIndexes + [|videoBuffer| - 1];
      }
    }

    /** The eviction loop of `process_video`: drain whole GOPs from the front while the queue spans the window. */
    method EvictOldGops()
      requires Valid()
      modifies this
      ensures Valid()
      ensures (videoBuffer, keyframeIndexes) == Evict(old(videoBuffer), old(keyframeIndexes), maxTime)
      ensures audioBuffer == old(audioBuffer) && nextPts == old(nextPts) && leftoverAudio == old(leftoverAudio)
      ensures maxTime == old(maxTime)
    {
      while videoBuffer != []
        invariant ValidIndexes(keyframeIndexes, |videoBuffer|)
        invariant Evict(videoBuffer, keyframeIndexes, maxTime) == Evict(old(videoBuffer), old(keyframeIndexes), maxTime)
        invariant audioBuffer == old(audioBuffer) && nextPts == old(nextPts) && leftoverAudio == old(leftoverAudio)
        invariant maxTime == old(maxTime)
        decreases |videoBuffer|
      {
        var oldest := videoBuffer[0];
        var newest := videoBuffer[|videoBuffer| - 1];
        if newest.time - oldest.time >= maxTime && |keyframeIndexes| > 0 {
          DrainKeepsIndexesValid(videoBuffer, keyframeIndexes);
          var drained := keyframeIndexes[0];
          videoBuffer := videoBuffer[drained..];
          keyframeIndexes := RetainNonZero(ShiftDown(keyframeIndexes, drained));
        } else {
          assert !SpanOver(videoBuffer, keyframeIndexes, maxTime);
          break;
        }
      }
    }

    /** The chunk state the specification tracks, with the bookkeeping supplied. */
    function ChunkNow(chunks: nat, popped: nat, produced: seq<FfAudioFrame>): ChunkState
      reads this
    {
      ChunkState(audioBuffer, leftoverAudio, nextPts, chunks, popped, produced)
    }

    /**
     * Encode one buffer of interleaved samples captured at `timeMicro`. A
     * sample count that is not a multiple of the channel count is refused
     * with InvalidData and nothing changes. Otherwise the samples join the
     * leftover queue and the chunk loop runs as `RunChunks` says; `hangs`
     * reports that it would spin forever, and a failed send is returned as
     * the call's error. `encode` stands for the audio codec.
     */
    method ProcessAudio(audio: seq<real>, timeMicro: int, encode: AudioEncoderOracle)
      returns (r: Result<(), CodecError>, hangs: bool)
      requires Valid()
      modifies this
      ensures Valid()
      ensures videoBuffer == old(videoBuffer) && keyframeIndexes == old(keyframeIndexes) && maxTime == old(maxTime)
      ensures |audio| % channels != 0 ==>
        && r == Err(InvalidData) && !hangs
        && audioBuffer == old(audioBuffer) && leftoverAudio == old(leftoverAudio) && nextPts == old(nextPts)
      ensures |audio| % channels == 0 ==>
        var run := RunChunks(ChunkStart(old(audioBuffer), old(leftoverAudio) + audio, old(nextPts)),
                             ChunkEnv(OldestVideoTime(videoBuffer), maxTime, frameSize, timeMicro, encode));
        && audioBuffer == run.state.audio && leftoverAudio == run.state.leftover && nextPts == run.state.nextPts
        && (hangs <==> run.outcome.Spins?)
        && (r.Err? <==> run.outcome.SendFailed?)
        && (run.outcome.SendFailed? ==> r == Err(run.outcome.error))
    {
      hangs := false;
      if |audio| % channels != 0 {
        return Err(InvalidData), false;
      }
      r := Ok(());
      leftoverAudio := leftoverAudio + audio;
      ghost var env := ChunkEnv(OldestVideoTime(videoBuffer), maxTime, frameSize, timeMicro, encode);
      ghost var start := ChunkNow(0, 0, []);
      ghost var chunks: nat, popped: nat, produced: seq<FfAudioFrame> := 0, 0, [];
      while |leftoverAudio| >= frameSize
        invariant Valid()
        invariant videoBuffer == old(videoBuffer) && keyframeIndexes == old(keyframeIndexes) && maxTime == old(maxTime)
        invariant RunChunks(ChunkNow(chunks, popped, produced), env) == RunChunks(start, env)
        invariant r == Ok(()) && !hangs
        decreases |leftoverAudio|
      {
        ghost var before := ChunkNow(chunks, popped, produced);
        if videoBuffer != [] && audioBuffer == [] {
          // The trim loop finds video but no audio and never exits.
          return Ok(()), true;
        }
        var trimmed := audioBuffer;
        if videoBuffer != [] && audioBuffer[|audioBuffer| - 1].captureTime - videoBuffer[0].time > maxTime {
          trimmed := audioBuffer[1..];
        }
        popped := popped + (|audioBuffer| - |trimmed|);
        audioBuffer := trimmed;
        var chunk := leftoverAudio[..frameSize];
        leftoverAudio := leftoverAudio[frameSize..];
        var sent := encode(chunk, nextPts);
        if sent.Err? {
          assert ChunkStep(before, env).0 == ChunkNow(chunks, popped, produced);
          return Err(sent.error), false;
        }
        PushReceived(sent.value, timeMicro, nextPts);
        produced := produced + Received(sent.value, timeMicro, nextPts);
        chunks := chunks + 1;
        nextPts := nextPts + AUDIO_PTS_STEP;
        assert ChunkStep(before, env).0 == ChunkNow(chunks, popped, produced);
      }
    }

    /** The receive loop of `process_audio`: push every received packet with a payload, in order. */
    method PushReceived(pkts: seq<Option<seq<byte>>>, captureTime: int, chunkTime: int)
      modifies this
      ensures audioBuffer == old(audioBuffer) + Received(pkts, captureTime, chunkTime)
      ensures videoBuffer == old(videoBuffer) && keyframeIndexes == old(keyframeIndexes) && maxTime == old(maxTime)
      ensures leftoverAudio == old(leftoverAudio) && nextPts == old(nextPts)
    {
      for i := 0 to |pkts|
        invariant audioBuffer == old(audioBuffer) + Received(pkts[..i], captureTime, chunkTime)
        invariant videoBuffer == old(videoBuffer) && keyframeIndexes == old(keyframeIndexes) && maxTime == old(maxTime)
        invariant leftoverAudio == old(leftoverAudio) && nextPts == old(nextPts)
      {
        assert pkts[..i + 1][..i] == pkts[..i];
        if pkts[i].Some? {
          audioBuffer := audioBuffer + [FfAudioFrame(pkts[i].value, captureTime, chunkTime)];
        }
      }
      assert pkts[..|pkts|] == pkts;
    }

    /**
     * Export both queues: align a copy of the audio queue to the oldest
     * video frame, write every video packet, then every aligned audio
     * packet, each relative to its queue's first entry. Nothing is changed.
     */
    method SaveBuffer() returns (writes: seq<Write>, outcome: ExportOutcome)
      ensures (writes, outcome) == ExportPlan(videoBuffer, audioBuffer)
    {
      var aligned := AlignedAudio(audioBuffer, videoBuffer);
      if videoBuffer == [] {
        return [], PanicNoVideo;
      }
      writes := WriteVideoPackets(videoBuffer);
      if aligned == [] {
        return writes, PanicNoAudio;
      }
      var audioWrites := WriteAudioPackets(aligned);
      writes := writes + audioWrites;
      outcome := Exported;
    }
  }

  /** The alignment loop of `save_buffer`, on a copy of the audio queue. */
  method AlignedAudio(audio: seq<FfAudioFrame>, video: seq<FfVideoFrame>) returns (aligned: seq<FfAudioFrame>)
    ensures aligned == AlignAudio(audio, video)
  {
    var k := 0;
    while k < |audio| && video != [] && audio[k].captureTime < video[0].time
      invariant k <= |audio|
      invariant AlignAudio(audio[k..], video) == AlignAudio(audio, video)
      decreases |audio| - k
    {
      assert audio[k..][1..] == audio[k + 1..];
      k := k + 1;
    }
    aligned := audio[k..];
  }

  /** The video loop of `save_buffer`. */
  method WriteVideoPackets(video: seq<FfVideoFrame>) returns (writes: seq<Write>)
    requires video != []
    ensures writes == VideoExport(video, video[0].time)
  {
    var first := video[0].time;
    writes := [];
    for i := 0 to |video|
      invariant writes == VideoExport(video[..i], first)
    {
      writes := writes + [Write(VIDEO_STREAM, video[i].time - first, video[i].time - first, video[i].frameBytes)];
    }
    assert video[..|video|] == video;
  }

  /** The audio loop of `save_buffer`. */
  method WriteAudioPackets(aligned: seq<FfAudioFrame>) returns (writes: seq<Write>)
    requires aligned != []
    ensures writes == AudioExport(aligned, aligned[0].chunkTime)
  {
    var first := aligned[0].chunkTime;
    writes := [];
    for i := 0 to |aligned|
      invariant writes == AudioExport(aligned[..i], first)
    {
      writes := writes + [Write(AUDIO_STREAM, aligned[i].chunkTime - first, aligned[i].chunkTime - first, aligned[i].frameBytes)];
    }
    assert aligned[..|aligned|] == aligned;
  }
}
