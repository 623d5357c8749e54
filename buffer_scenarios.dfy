/**
 * Worked examples of the buffers, following the scenarios of
 * src/encoders/buffer_tests.rs, and the two inputs on which the source's
 * trim loops never exit.
 */
module BufferScenarios {
  import opened Wrappers
  import opened EncoderTypes
  import opened Buffer

  /** Given frames holding the smallest and the largest PTS, `oldest_pts` and `newest_pts` report them. */
  lemma PtsExtremes(frames: map<int, VideoFrameData>, dlo: int, dhi: int)
    requires dlo in frames && dhi in frames
    requires forall d :: d in frames ==> frames[dlo].pts <= frames[d].pts <= frames[dhi].pts
    ensures OldestPtsOf(frames) == Some(frames[dlo].pts)
    ensures NewestPtsOf(frames) == Some(frames[dhi].pts)
  {
  }

  /** A state whose PTS span is below the window is left as it is. */
  lemma WithinWindowSettled(s: VideoState, maxTime: int, dlo: int, dhi: int)
    requires dlo in s.frames && dhi in s.frames
    requires forall d :: d in s.frames ==> s.frames[dlo].pts <= s.frames[d].pts <= s.frames[dhi].pts
    requires s.frames[dhi].pts - s.frames[dlo].pts < maxTime
    ensures SettleVideo(s, maxTime) == Trimmed(s, false)
  {
    PtsExtremes(s.frames, dlo, dhi);
  }

  /** A state whose PTS span reaches the window, with two keys or more, loses its oldest GOP and is settled again. */
  lemma OverWindowTrims(s: VideoState, maxTime: int, dlo: int, dhi: int)
    requires dlo in s.frames && dhi in s.frames
    requires forall d :: d in s.frames ==> s.frames[dlo].pts <= s.frames[d].pts <= s.frames[dhi].pts
    requires s.frames[dhi].pts - s.frames[dlo].pts >= maxTime
    requires |s.keyFrameKeys| >= 2
    ensures SettleVideo(s, maxTime) == SettleVideo(TrimOldestGopSpec(s), maxTime)
  {
    PtsExtremes(s.frames, dlo, dhi);
  }

  function Frame(pts: int, isKey: bool): VideoFrameData
  {
    VideoFrameData([1], pts, isKey)
  }

  function N1(): VideoState
  {
    VideoState(map[1 := VideoFrameData([1], 1, true)], [1])
  }

  function N2(): VideoState
  {
    VideoState(map[1 := VideoFrameData([1], 1, true), 2 := VideoFrameData([2], 3, false)], [1])
  }

  function N3(): VideoState
  {
    VideoState(map[1 := VideoFrameData([1], 1, true), 2 := VideoFrameData([2], 3, false), 3 := VideoFrameData([3], 6, true)], [1, 3])
  }

  /** Three frames inside a 10-unit window, first step: a keyframe at DTS 1, PTS 1. */
  lemma VideoBufferNoTrimFirst()
    ensures SettleVideo(WithFrame(VideoState(map[], []), 1, VideoFrameData([1], 1, true)), 10) == Trimmed(N1(), false)
  {
    assert WithFrame(VideoState(map[], []), 1, VideoFrameData([1], 1, true)) == N1();
    WithinWindowSettled(N1(), 10, 1, 1);
  }

  /** Second step: DTS 2, PTS 3. */
  lemma VideoBufferNoTrimSecond()
    ensures SettleVideo(WithFrame(N1(), 2, VideoFrameData([2], 3, false)), 10) == Trimmed(N2(), false)
  {
    assert WithFrame(N1(), 2, VideoFrameData([2], 3, false)) == N2();
    WithinWindowSettled(N2(), 10, 1, 2);
  }

  /** Third step: a keyframe at DTS 3, PTS 6; nothing is trimmed. */
  lemma VideoBufferNoTrimThird()
    ensures SettleVideo(WithFrame(N2(), 3, VideoFrameData([3], 6, true)), 10) == Trimmed(N3(), false)
  {
    assert WithFrame(N2(), 3, VideoFrameData([3], 6, true)) == N3();
    WithinWindowSettled(N3(), 10, 1, 3);
  }

  /** After the three inserts the last GOP starts at DTS 3, the PTS range is 1..6 and all three frames are kept. */
  lemma VideoBufferNoTrimResult()
    ensures LastOf(N3().keyFrameKeys) == Some(3)
    ensures NewestPtsOf(N3().frames) == Some(6) && OldestPtsOf(N3().frames) == Some(1)
    ensures |N3().frames| == 3
  {
    PtsExtremes(N3().frames, 1, 3);
    assert N3().frames.Keys == {1, 2, 3};
  }

  // The trimming scenario: ten frames at DTS 0..9 with PTS 0,3,5,...,19 and
  // keyframes at DTS 0, 3, 6 and 9, in a 10-unit window.

  function T0(): VideoState
  {
    VideoState(map[0 := Frame(0, true)], [0])
  }

  function T1(): VideoState
  {
    VideoState(map[0 := Frame(0, true), 1 := Frame(3, false)], [0])
  }

  function T2(): VideoState
  {
    VideoState(map[0 := Frame(0, true), 1 := Frame(3, false), 2 := Frame(5, false)], [0])
  }

  function T3(): VideoState
  {
    VideoState(map[0 := Frame(0, true), 1 := Frame(3, false), 2 := Frame(5, false), 3 := Frame(7, true)], [0, 3])
  }

  function T4(): VideoState
  {
    VideoState(map[0 := Frame(0, true), 1 := Frame(3, false), 2 := Frame(5, false), 3 := Frame(7, true), 4 := Frame(9, false)], [0, 3])
  }

  function T5(): VideoState
  {
    VideoState(map[3 := Frame(7, true), 4 := Frame(9, false), 5 := Frame(11, false)], [3])
  }

  function T7(): VideoState
  {
    VideoState(map[3 := Frame(7, true), 4 := Frame(9, false), 5 := Frame(11, false), 6 := Frame(13, true), 7 := Frame(15, false)], [3, 6])
  }

  function T8(): VideoState
  {
    VideoState(map[6 := Frame(13, true), 7 := Frame(15, false), 8 := Frame(17, false)], [6])
  }

  function T9(): VideoState
  {
    VideoState(map[6 := Frame(13, true), 7 := Frame(15, false), 8 := Frame(17, false), 9 := Frame(19, true)], [6, 9])
  }

  /** The first frame, a keyframe at PTS 0. */
  lemma TrimScenarioFirst()
    ensures SettleVideo(WithFrame(VideoState(map[], []), 0, Frame(0, true)), 10) == Trimmed(T0(), false)
  {
    assert WithFrame(VideoState(map[], []), 0, Frame(0, true)) == T0();
    WithinWindowSettled(T0(), 10, 0, 0);
  }

  /** PTS 3: span 3. */
  lemma TrimScenarioSecond()
    ensures SettleVideo(WithFrame(T0(), 1, Frame(3, false)), 10) == Trimmed(T1(), false)
  {
    assert WithFrame(T0(), 1, Frame(3, false)) == T1();
    WithinWindowSettled(T1(), 10, 0, 1);
  }

  /** PTS 5: span 5. */
  lemma TrimScenarioThird()
    ensures SettleVideo(WithFrame(T1(), 2, Frame(5, false)), 10) == Trimmed(T2(), false)
  {
    assert WithFrame(T1(), 2, Frame(5, false)) == T2();
    WithinWindowSettled(T2(), 10, 0, 2);
  }

  /** A keyframe at PTS 7: span 7, and a second GOP starts at DTS 3. */
  lemma TrimScenarioFourth()
    ensures SettleVideo(WithFrame(T2(), 3, Frame(7, true)), 10) == Trimmed(T3(), false)
  {
    assert WithFrame(T2(), 3, Frame(7, true)) == T3();
    WithinWindowSettled(T3(), 10, 0, 3);
  }

  /** PTS 9: span 9, still below the window. */
  lemma TrimScenarioFifth()
    ensures SettleVideo(WithFrame(T3(), 4, Frame(9, false)), 10) == Trimmed(T4(), false)
  {
    assert WithFrame(T3(), 4, Frame(9, false)) == T4();
    WithinWindowSettled(T4(), 10, 0, 4);
  }

  function W5(): VideoState
  {
    VideoState(map[0 := Frame(0, true), 1 := Frame(3, false), 2 := Frame(5, false), 3 := Frame(7, true), 4 := Frame(9, false), 5 := Frame(11, false)], [0, 3])
  }

  /** Dropping the GOP that starts at DTS 0 leaves DTS 3..5. */
  lemma TrimScenarioFirstGopDropped()
    ensures TrimOldestGopSpec(W5()) == T5()
  {
    var t := TrimOldestGopSpec(W5());
    assert t.frames.Keys == {3, 4, 5};
  }

  /** PTS 11 stretches the span to 11: the GOP starting at DTS 0 is dropped. */
  lemma TrimScenarioSixth()
    ensures SettleVideo(WithFrame(T4(), 5, Frame(11, false)), 10) == Trimmed(T5(), false)
  {
    assert WithFrame(T4(), 5, Frame(11, false)) == W5();
    W5Settles();
  }

  /** The loop drops the GOP starting at DTS 0 once, and the rest fits the window. */
  lemma W5Settles()
    ensures SettleVideo(W5(), 10) == Trimmed(T5(), false)
  {
    PtsBoundsW5();
    OverWindowTrims(W5(), 10, 0, 5);
    TrimScenarioFirstGopDropped();
    PtsBoundsT5();
    WithinWindowSettled(T5(), 10, 3, 5);
  }

  /** In `W5` the PTS values lie between those at DTS 0 and 5. */
  lemma PtsBoundsW5()
    ensures forall d :: d in W5().frames ==> W5().frames[0].pts <= W5().frames[d].pts <= W5().frames[5].pts
  {
  }

  /** In `T5` the PTS values lie between those at DTS 3 and 5. */
  lemma PtsBoundsT5()
    ensures forall d :: d in T5().frames ==> T5().frames[3].pts <= T5().frames[d].pts <= T5().frames[5].pts
  {
  }

  function T6(): VideoState
  {
    VideoState(map[3 := Frame(7, true), 4 := Frame(9, false), 5 := Frame(11, false), 6 := Frame(13, true)], [3, 6])
  }

  /** A keyframe at PTS 13: span 6 after the earlier trim. */
  lemma TrimScenarioSeventh()
    ensures SettleVideo(WithFrame(T5(), 6, Frame(13, true)), 10) == Trimmed(T6(), false)
  {
    assert WithFrame(T5(), 6, Frame(13, true)) == T6();
    WithinWindowSettled(T6(), 10, 3, 6);
  }

  /** PTS 15: span 8. */
  lemma TrimScenarioEighth()
    ensures SettleVideo(WithFrame(T6(), 7, Frame(15, false)), 10) == Trimmed(T7(), false)
  {
    assert WithFrame(T6(), 7, Frame(15, false)) == T7();
    WithinWindowSettled(T7(), 10, 3, 7);
  }

  function W8(): VideoState
  {
    VideoState(map[3 := Frame(7, true), 4 := Frame(9, false), 5 := Frame(11, false), 6 := Frame(13, true), 7 := Frame(15, false), 8 := Frame(17, false)], [3, 6])
  }

  /** Dropping the GOP that starts at DTS 3 leaves DTS 6..8. */
  lemma TrimScenarioSecondGopDropped()
    ensures TrimOldestGopSpec(W8()) == T8()
  {
    var t := TrimOldestGopSpec(W8());
    assert t.frames.Keys == {6, 7, 8};
  }

  /** PTS 17 stretches the span to 10: the GOP starting at DTS 3 is dropped. */
  lemma TrimScenarioNinth()
    ensures SettleVideo(WithFrame(T7(), 8, Frame(17, false)), 10) == Trimmed(T8(), false)
  {
    assert WithFrame(T7(), 8, Frame(17, false)) == W8();
    W8Settles();
  }

  /** The loop drops the GOP starting at DTS 3 once, and the rest fits the window. */
  lemma W8Settles()
    ensures SettleVideo(W8(), 10) == Trimmed(T8(), false)
  {
    PtsBoundsW8();
    OverWindowTrims(W8(), 10, 3, 8);
    TrimScenarioSecondGopDropped();
    PtsBoundsT8();
    WithinWindowSettled(T8(), 10, 6, 8);
  }

  /** In `W8` the PTS values lie between those at DTS 3 and 8. */
  lemma PtsBoundsW8()
    ensures forall d :: d in W8().frames ==> W8().frames[3].pts <= W8().frames[d].pts <= W8().frames[8].pts
  {
  }

  /** In `T8` the PTS values lie between those at DTS 6 and 8. */
  lemma PtsBoundsT8()
    ensures forall d :: d in T8().frames ==> T8().frames[6].pts <= T8().frames[d].pts <= T8().frames[8].pts
  {
  }

  /** The tenth frame, a keyframe at PTS 19, stays within the window. */
  lemma TrimScenarioTenth()
    ensures SettleVideo(WithFrame(T8(), 9, Frame(19, true)), 10) == Trimmed(T9(), false)
  {
    var w := WithFrame(T8(), 9, Frame(19, true));
    assert w == T9();
    WithinWindowSettled(T9(), 10, 6, 9);
  }

  /**
   * After the tenth frame the buffer holds DTS 6..9: the oldest PTS is the
   * keyframe at 13, the newest 19, and the last GOP starts at DTS 9.
   */
  lemma TrimScenarioResult()
    ensures OldestPtsOf(T9().frames) == Some(13) && NewestPtsOf(T9().frames) == Some(19)
    ensures LastOf(T9().keyFrameKeys) == Some(9)
  {
    PtsExtremes(T9().frames, 6, 9);
  }

  /** ... and it holds four frames. */
  lemma TrimScenarioResultSize()
    ensures |T9().frames| == 4
  {
    assert T9().frames.Keys == {6, 7, 8, 9};
  }

  /**
   * With a single recorded keyframe, a frame that stretches the span to the
   * window makes the source's `insert` loop forever: `trim_oldest_gop`
   * refuses to drop the only GOP.
   */
  lemma VideoInsertHangsWithOneKeyframe()
    ensures SettleVideo(WithFrame(VideoState(map[0 := VideoFrameData([1], 0, true)], [0]), 1, VideoFrameData([1], 10, false)), 10).hangs
  {
    var w := WithFrame(VideoState(map[0 := VideoFrameData([1], 0, true)], [0]), 1, VideoFrameData([1], 10, false));
    PtsExtremes(w.frames, 0, 1);
  }

  /**
   * With capture times spanning the window but no stored frames left to
   * pair them with, the source's `insert_frame` loop never exits.
   */
  lemma AudioInsertHangsWhenCaptureTimesOutnumberFrames()
    ensures var s := SettleAudio(AudioState(map[5 := [1]], [0, 10, 20]), 10);
      s.hangs && s.state == AudioState(map[], [10, 20])
  {
    var s := AudioState(map[5 := [1]], [0, 10, 20]);
    assert IsLeast(5, s.frames.Keys);
    var t := AudioState(map[], [10, 20]);
    assert s.frames - {5} == t.frames;
  }

  // The audio scenarios: each step stores a frame under PTS `p` and then
  // records `p` as its capture time, as the audio tests do.

  /** One audio step of the tests: `insert_frame(p, [1])` followed by `insert_capture_time(p)`. */
  function AudioPair(s: AudioState, p: int, maxTime: int): Trimmed<AudioState>
  {
    var r := SettleAudio(AudioState(s.frames[p := [1]], s.captureTimes), maxTime);
    Trimmed(AudioState(r.state.frames, r.state.captureTimes + [p]), r.hangs)
  }

  function Frames(keys: set<int>): map<int, seq<byte>>
  {
    map k | k in keys :: [1]
  }

  /** A step whose capture-time span stays below the window trims nothing. */
  lemma PairWithinWindow(keys: set<int>, ct: seq<int>, p: int, maxTime: int, keys': set<int>, ct': seq<int>)
    requires !CaptureSpanOver(ct, maxTime)
    requires keys' == keys + {p} && ct' == ct + [p]
    ensures AudioPair(AudioState(Frames(keys), ct), p, maxTime) == Trimmed(AudioState(Frames(keys'), ct'), false)
  {
    assert Frames(keys)[p := [1]] == Frames(keys');
  }

  /** A step whose span reaches the window once, and not after one trim, drops the oldest frame and capture time. */
  lemma PairDropsOldest(keys: set<int>, ct: seq<int>, p: int, k: int, maxTime: int, keys': set<int>, ct': seq<int>)
    requires CaptureSpanOver(ct, maxTime) && !CaptureSpanOver(ct[1..], maxTime)
    requires IsLeast(k, keys + {p})
    requires keys' == keys + {p} - {k} && ct' == ct[1..] + [p]
    ensures AudioPair(AudioState(Frames(keys), ct), p, maxTime) == Trimmed(AudioState(Frames(keys'), ct'), false)
  {
    var f := Frames(keys)[p := [1]];
    assert f == Frames(keys + {p});
    assert f.Keys == keys + {p};
    assert LeastKey(f.Keys) == k;
    assert f - {k} == Frames(keys');
    assert SettleAudio(AudioState(f - {k}, ct[1..]), maxTime) == Trimmed(AudioState(f - {k}, ct[1..]), false);
    assert SettleAudio(AudioState(f, ct), maxTime) == SettleAudio(AudioState(f - {k}, ct[1..]), maxTime);
  }

  /** The PTS values of a run of steps, as a set. */
  function Members(ps: seq<int>): set<int>
  {
    set p | p in ps
  }

  /** Steps one after another, each with its PTS as capture time, stopping where a step would never return. */
  function AudioPairs(s: AudioState, ps: seq<int>, maxTime: int): Trimmed<AudioState>
    decreases |ps|
  {
    if ps == [] then Trimmed(s, false)
    else
      var prev := AudioPairs(s, ps[..|ps| - 1], maxTime);
      if prev.hangs then prev else AudioPair(prev.state, ps[|ps| - 1], maxTime)
  }

  /** One more step within the window: the frames and capture times so far, plus the new one. */
  lemma PairsStepWithinWindow(ps: seq<int>, maxTime: int)
    requires ps != []
    requires !CaptureSpanOver(ps[..|ps| - 1], maxTime)
    requires AudioPairs(AudioState(map[], []), ps[..|ps| - 1], maxTime)
      == Trimmed(AudioState(Frames(Members(ps[..|ps| - 1])), ps[..|ps| - 1]), false)
    ensures AudioPairs(AudioState(map[], []), ps, maxTime) == Trimmed(AudioState(Frames(Members(ps)), ps), false)
  {
    var n := |ps| - 1;
    var init := ps[..n];
    assert init + [ps[n]] == ps;
    assert Members(init) + {ps[n]} == Members(ps);
    var prev := AudioPairs(AudioState(map[], []), init, maxTime);
    assert AudioPairs(AudioState(map[], []), ps, maxTime) == AudioPair(prev.state, ps[n], maxTime);
    PairWithinWindow(Members(init), init, ps[n], maxTime, Members(ps), ps);
  }

  /**
   * Steps with increasing PTS whose capture times, before the last step,
   * span less than the window trim nothing: every frame and every capture
   * time is kept.
   */
  lemma {:induction false} PairsWithinWindow(ps: seq<int>, maxTime: int)
    requires maxTime > 0
    requires StrictlyIncreasing(ps)
    requires |ps| >= 2 ==> ps[|ps| - 2] - ps[0] < maxTime
    ensures AudioPairs(AudioState(map[], []), ps, maxTime) == Trimmed(AudioState(Frames(Members(ps)), ps), false)
    decreases |ps|
  {
    if ps == [] {
      assert Frames(Members(ps)) == map[];
    } else {
      var n := |ps| - 1;
      var init := ps[..n];
      if n >= 2 {
        assert init[n - 2] < init[n - 1];
      }
      PairsWithinWindow(init, maxTime);
      PairsStepWithinWindow(ps, maxTime);
    }
  }

  /** Five steps with capture times 1..5 in a 10-unit window keep all five frames and capture times. */
  lemma AudioBufferNoTrim()
    ensures AudioPairs(AudioState(map[], []), [1, 2, 3, 4, 5], 10) == Trimmed(AudioState(Frames({1, 2, 3, 4, 5}), [1, 2, 3, 4, 5]), false)
  {
    var ps := [1, 2, 3, 4, 5];
    assert StrictlyIncreasing(ps);
    PairsWithinWindow(ps, 10);
    assert Members(ps) == {1, 2, 3, 4, 5};
  }

  /** ... and the buffer then holds five frames. */
  lemma AudioBufferNoTrimHoldsFive()
    ensures |Frames({1, 2, 3, 4, 5})| == 5
  {
    assert Frames({1, 2, 3, 4, 5}).Keys == {1, 2, 3, 4, 5};
  }

  /** The first six steps of the trimming test, capture times 1..11, stay below the 10-unit window. */
  lemma AudioTrimScenarioFirstSix()
    ensures AudioPairs(AudioState(map[], []), [1, 3, 5, 7, 9, 11], 10)
      == Trimmed(AudioState(Frames({1, 3, 5, 7, 9, 11}), [1, 3, 5, 7, 9, 11]), false)
  {
    var ps := [1, 3, 5, 7, 9, 11];
    assert StrictlyIncreasing(ps);
    PairsWithinWindow(ps, 10);
    FirstSixMembers();
  }

  /** The capture times of the first six steps, as a set. */
  lemma FirstSixMembers()
    ensures Members([1, 3, 5, 7, 9, 11]) == {1, 3, 5, 7, 9, 11}
  {
  }

  /** Step 13: the span 11 - 1 reaches the window, so frame 1 and capture time 1 go. */
  lemma AudioTrimScenarioSeventh()
    ensures AudioPair(AudioState(Frames({1, 3, 5, 7, 9, 11}), [1, 3, 5, 7, 9, 11]), 13, 10)
      == Trimmed(AudioState(Frames({3, 5, 7, 9, 11, 13}), [3, 5, 7, 9, 11, 13]), false)
  {
    PairDropsOldest({1, 3, 5, 7, 9, 11}, [1, 3, 5, 7, 9, 11], 13, 1, 10, {3, 5, 7, 9, 11, 13}, [3, 5, 7, 9, 11, 13]);
  }

  /** Step 15: the span 13 - 3 reaches the window, so frame 3 and capture time 3 go. */
  lemma AudioTrimScenarioEighth()
    ensures AudioPair(AudioState(Frames({3, 5, 7, 9, 11, 13}), [3, 5, 7, 9, 11, 13]), 15, 10)
      == Trimmed(AudioState(Frames({5, 7, 9, 11, 13, 15}), [5, 7, 9, 11, 13, 15]), false)
  {
    PairDropsOldest({3, 5, 7, 9, 11, 13}, [3, 5, 7, 9, 11, 13], 15, 3, 10, {5, 7, 9, 11, 13, 15}, [5, 7, 9, 11, 13, 15]);
  }

  /** Step 17: the span 15 - 5 reaches the window, so frame 5 and capture time 5 go. */
  lemma AudioTrimScenarioNinth()
    ensures AudioPair(AudioState(Frames({5, 7, 9, 11, 13, 15}), [5, 7, 9, 11, 13, 15]), 17, 10)
      == Trimmed(AudioState(Frames({7, 9, 11, 13, 15, 17}), [7, 9, 11, 13, 15, 17]), false)
  {
    PairDropsOldest({5, 7, 9, 11, 13, 15}, [5, 7, 9, 11, 13, 15], 17, 5, 10, {7, 9, 11, 13, 15, 17}, [7, 9, 11, 13, 15, 17]);
  }

  /** Step 19: the span 17 - 7 reaches the window, so frame 7 and capture time 7 go. */
  lemma AudioTrimScenarioTenth()
    ensures AudioPair(AudioState(Frames({7, 9, 11, 13, 15, 17}), [7, 9, 11, 13, 15, 17]), 19, 10)
      == Trimmed(AudioState(Frames({9, 11, 13, 15, 17, 19}), [9, 11, 13, 15, 17, 19]), false)
  {
    PairDropsOldest({7, 9, 11, 13, 15, 17}, [7, 9, 11, 13, 15, 17], 19, 7, 10, {9, 11, 13, 15, 17, 19}, [9, 11, 13, 15, 17, 19]);
  }

  /** The trimming test ends with the six frames 9..19, whose first capture time is 9. */
  lemma AudioTrimScenarioResult()
    ensures |Frames({9, 11, 13, 15, 17, 19})| == 6
  {
    assert Frames({9, 11, 13, 15, 17, 19}).Keys == {9, 11, 13, 15, 17, 19};
  }
}
