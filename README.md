# WayCap replay buffer: a verified model

WayCap is a shadow-capture daemon: it keeps encoding the screen and the
system audio, and it holds the last few minutes of encoded packets in rolling
buffers. On request it writes them out as a clip. This project models that
bookkeeping in Dafny: what is kept, what is evicted, and which packets are
exported with which timestamps.

The project has one module per source file:

- `Buffer` (`src/encoders/buffer.rs`) covers two classes:
  - `VideoBuffer` holds frames ordered by DTS together with the DTS of every keyframe. After each insert it trims whole GOPs while the PTS span reaches the window.
  - `AudioBuffer` holds frames keyed by PTS together with a list of capture times. It drops one frame and one capture time at a time while the capture-time span reaches the window.
  - Each class is specified by value-level functions on `VideoState` and `AudioState`. Its methods are proved equal to them.
- `BufferScenarios` replays the scenarios of `src/encoders/buffer_tests.rs` as lemmas.
- `Export` (`src/main.rs`, `save_buffer`) says which packets are written to the clip, with which offsets, and how the export ends. The muxer is abstracted: the result is the list of writes in the order they reach `write_interleaved`.
- `Ffmpeg` (`src/ffmpeg_encoder.rs`) models the older all-in-one encoder:
  - GOP eviction over a deque, driven by a shifting list of keyframe positions;
  - audio re-chunking through a leftover queue and a PTS counter;
  - export-time audio alignment.
- `Nvenc` and `Vaapi` (`src/encoders/nvenc_encoder.rs`, `src/encoders/vaapi_encoder.rs`) model the two hardware encoder wrappers:
  - the quality-preset tables;
  - routing of received packets into the `VideoBuffer` or into a 120-slot ring that drops when full;
  - the Option-take lifecycle of codec, filter graph and ring ends.
- `ShadowCap` (`src/modes/shadow_cap.rs`) models the window check and the window arithmetic of `new`, and the step sequence of `on_save`.
- `ShadowApplication` (`src/shadow_application.rs`) models the `AppState` ↔ `u8` cell.
- `EncoderTypes` and `Wrappers` hold the shared vocabulary: fixed-width integer ranges, `ONE_MICROS` and `GOP_SIZE`, the packet record, `Option` and `Result`.

The codec, the filter graph, the capture pipeline and the muxer are oracles. Each operation takes, as parameters, what they would answer: the outcome of a send, the packets received, or the codec handle that opening produced.

Three loops of the source can spin forever:

- the `VideoBuffer::insert` trim loop, with at most one keyframe recorded and the span at or over the window;
- the `AudioBuffer::insert_frame` trim loop, with no frame left and the capture-time span at or over the window;
- the inner trim loop of `FfmpegEncoder::process_audio`, with video queued and the audio queue empty.

The model does not spin. It leaves the loop and reports `hangs == true` (or the `Spins` outcome) in exactly those situations. Every state and result is stated for the other inputs, where the source loop does exit.

The code is followed where the system's design documentation describes more than the code does. These features of the documentation have no counterpart in the code:

- a byte ceiling for eviction;
- timestamp drift correction;
- an invariant that eviction always leaves an exportable keyframe;
- a fourth quality tier named HIGHEST.

Also contrary to the documentation, export failures are not always contained: several paths panic (`expect`, `unwrap`, out-of-bounds indexing). The model reports each panic as an outcome of its own.

## Model

| member | source | states |
|---|---|---|
| Buffer.PacketEntry | src/encoders/nvenc_encoder.rs:53-63 | a received packet becomes a buffer entry exactly when it has a payload; the entry is keyed by its DTS and carries its bytes, keyframe flag and PTS, with each missing timestamp defaulting to 0 |
| Buffer.LeastKey | src/encoders/buffer.rs:187-190 | `first_entry` of a non-empty ordered map is a key no greater than any other key |
| Buffer.SortedKeys | src/encoders/buffer.rs:40-50 | iterating an ordered map visits exactly its keys, each once, in strictly ascending order |
| Buffer.NewestPtsOf | src/encoders/buffer.rs:95-97 | `newest_pts` is None exactly when the buffer is empty; otherwise it is the PTS of a stored frame and no stored PTS is larger |
| Buffer.OldestPtsOf | src/encoders/buffer.rs:102-104 | `oldest_pts` is None exactly when the buffer is empty; otherwise it is the PTS of a stored frame and no stored PTS is smaller |
| Buffer.WithFrame | src/encoders/buffer.rs:76-80 | the first two steps of `insert`: the frame is stored under its timestamp, every other stored frame is unchanged, and the keyframe list grows by one entry, the new timestamp, exactly when the frame is a keyframe, so that it becomes the last GOP start |
| Buffer.TrimOldestGopSpec | src/encoders/buffer.rs:120-139 | with two recorded keys or more, the first key is forgotten; with fewer it is a no-op (which frames remain is `TrimOldestGopRemovesFirstGop`) |
| Buffer.SettleVideo | src/encoders/buffer.rs:83-89 | the outcome of the insert trim loop: when it returns, the PTS span is below the window; it is marked hanging only when the span is still at or over the window with at most one key recorded, the case where `trim_oldest_gop` makes no progress |
| Buffer.SettleVideoProperties | src/encoders/buffer.rs:83-89 | the insert loop exits exactly when the PTS span is below the window, and it hangs only with at most one keyframe left; it drops only the oldest keyframe DTS values and keeps at least one of them; a kept frame is unchanged |
| Buffer.VideoBuffer.constructor | src/encoders/buffer.rs:58-64 | a new buffer is empty, with no keyframes and the given window |
| Buffer.VideoBuffer.Insert | src/encoders/buffer.rs:75-90 | the frame is stored under its DTS; its DTS is appended to the keyframe list when it is a keyframe; then the state is the outcome of the trim loop, and `hangs` is set exactly where the source never returns |
| Buffer.VideoBuffer.TrimOldestGop | src/encoders/buffer.rs:120-139 | with two recorded keys or more, every frame before the second key goes and the first key is forgotten; otherwise nothing changes |
| Buffer.VideoBuffer.Reset | src/encoders/buffer.rs:145-148 | frames and keyframe list are emptied and the window is kept |
| Buffer.VideoBuffer.NewestPts | src/encoders/buffer.rs:95-97 | None exactly when no frame is stored; otherwise a stored frame's PTS that no stored PTS exceeds |
| Buffer.VideoBuffer.OldestPts | src/encoders/buffer.rs:102-104 | None exactly when no frame is stored; otherwise a stored frame's PTS that no stored PTS is below |
| Buffer.VideoBuffer.GetLastGopStart | src/encoders/buffer.rs:109-111 | None exactly when no keyframe is recorded; otherwise the most recently recorded keyframe DTS |
| Buffer.VideoBuffer.GetFrames | src/encoders/buffer.rs:141-143 | the stored frames, keyed by DTS |
| Buffer.SettleAudioProperties | src/encoders/buffer.rs:183-194 | the audio trim loop exits exactly when the capture-time span is below the window, and it hangs only with no frame left; what it drops from the capture times is a prefix |
| Buffer.SettleAudioDropsOldestFrames | src/encoders/buffer.rs:183-194 | it drops one frame per dropped capture time, always the frames with the smallest PTS, and a kept frame is unchanged |
| Buffer.SettleAudio | src/encoders/buffer.rs:183-194 | the outcome of the audio trim loop: when it returns, the capture-time span is below the window; it is marked hanging only when the span is at or over the window and no frame is left to pop; it never adds capture times |
| Buffer.AudioBuffer.constructor | src/encoders/buffer.rs:163-169 | a new audio buffer is empty, with the given window |
| Buffer.AudioBuffer.InsertFrame | src/encoders/buffer.rs:180-195 | the frame is stored under its PTS, then the state is the outcome of the audio trim loop; `hangs` is set exactly where the source never returns |
| Buffer.AudioBuffer.InsertCaptureTime | src/encoders/buffer.rs:205-207 | the capture time is appended and the frames are unchanged |
| Buffer.AudioBuffer.Reset | src/encoders/buffer.rs:209-212 | frames and capture times are emptied and the window is kept |
| Buffer.AudioBuffer.GetCaptureTimes | src/encoders/buffer.rs:197-199 | the recorded capture times, oldest first |
| Buffer.AudioBuffer.GetFrames | src/encoders/buffer.rs:201-203 | the stored audio frames, keyed by PTS |
| Buffer.InsertLastGopStart | src/encoders/buffer.rs:76-78 | after `insert`, `get_last_gop_start` is the new DTS when the frame is a keyframe, and the previous last start otherwise, however much was trimmed |
| Buffer.TrimOldestGopRemovesFirstGop | src/encoders/buffer.rs:120-139 | with two keys or more the kept frames are exactly those with DTS at or after the second key, unchanged, and the key list loses its head; with fewer keys the state is unchanged |
| Buffer.SettleVideoKeepsFromFirstKey | src/encoders/buffer.rs:126-135 | with keys in increasing DTS order, a trim that dropped keys leaves exactly the frames from the first remaining key on |
| Buffer.SettleVideoStartsAtKeyframe | src/encoders/buffer.rs:126-135 | after such a trim, if the first remaining keyframe is stored, it is the oldest stored DTS |
| Buffer.SettleAudioBalancedNeverHangs | src/encoders/buffer.rs:183-194 | with at least as many stored frames as capture times, the audio trim loop always exits |
| Buffer.InsertPairKeepsBalance | src/encoders/buffer.rs:180-207 | storing a frame under a new PTS and then recording its capture time keeps frames and capture times one for one, and never hangs |
| BufferScenarios.PtsExtremes | src/encoders/buffer.rs:95-104 | frames holding the smallest and largest PTS give `oldest_pts` and `newest_pts` |
| BufferScenarios.WithinWindowSettled | src/encoders/buffer.rs:83-89 | a span below the window leaves the state as it is |
| BufferScenarios.OverWindowTrims | src/encoders/buffer.rs:83-89 | a span at or over the window with two keys or more trims one GOP and loops |
| BufferScenarios.VideoBufferNoTrimFirst | src/encoders/buffer_tests.rs:22 | the first insert of the no-trim test stores the keyframe and records its DTS |
| BufferScenarios.VideoBufferNoTrimSecond | src/encoders/buffer_tests.rs:23 | the second insert stores the frame and trims nothing |
| BufferScenarios.VideoBufferNoTrimThird | src/encoders/buffer_tests.rs:24 | the third insert records keyframe DTS 3 and trims nothing |
| BufferScenarios.VideoBufferNoTrimResult | src/encoders/buffer_tests.rs:26-34 | the last GOP start is 3, newest PTS 6, oldest PTS 1, and three frames are stored |
| BufferScenarios.TrimScenarioFirst | src/encoders/buffer_tests.rs:62-64 | insert DTS 0 (key, PTS 0) of the trimming test |
| BufferScenarios.TrimScenarioSecond | src/encoders/buffer_tests.rs:62-64 | insert DTS 1 (PTS 3) |
| BufferScenarios.TrimScenarioThird | src/encoders/buffer_tests.rs:62-64 | insert DTS 2 (PTS 5) |
| BufferScenarios.TrimScenarioFourth | src/encoders/buffer_tests.rs:62-64 | insert DTS 3 (key, PTS 7) |
| BufferScenarios.TrimScenarioFifth | src/encoders/buffer_tests.rs:62-64 | insert DTS 4 (PTS 9) |
| BufferScenarios.TrimScenarioFirstGopDropped | src/encoders/buffer.rs:120-139 | with PTS 0..11 stored, trimming drops DTS 0..2 and the key at DTS 0 |
| BufferScenarios.W5Settles | src/encoders/buffer_tests.rs:62-64 | after that trim the span is below the window and the loop exits |
| BufferScenarios.TrimScenarioSixth | src/encoders/buffer_tests.rs:62-64 | insert DTS 5 (PTS 11) reaches the window and drops the first GOP |
| BufferScenarios.TrimScenarioSeventh | src/encoders/buffer_tests.rs:62-64 | insert DTS 6 (key, PTS 13) |
| BufferScenarios.TrimScenarioEighth | src/encoders/buffer_tests.rs:62-64 | insert DTS 7 (PTS 15) |
| BufferScenarios.TrimScenarioSecondGopDropped | src/encoders/buffer.rs:120-139 | with PTS 7..17 stored, trimming drops DTS 3..5 and the key at DTS 3 |
| BufferScenarios.W8Settles | src/encoders/buffer_tests.rs:62-64 | after that trim the loop exits |
| BufferScenarios.TrimScenarioNinth | src/encoders/buffer_tests.rs:62-64 | insert DTS 8 (PTS 17) drops the second GOP |
| BufferScenarios.TrimScenarioTenth | src/encoders/buffer_tests.rs:62-64 | insert DTS 9 (key, PTS 19) |
| BufferScenarios.TrimScenarioResult | src/encoders/buffer_tests.rs:66-73 | oldest PTS 13, newest PTS 19, last GOP start 9 |
| BufferScenarios.TrimScenarioResultSize | src/encoders/buffer_tests.rs:72 | four frames remain |
| BufferScenarios.VideoInsertHangsWithOneKeyframe | src/encoders/buffer.rs:83-89 | with a single keyframe, a frame that stretches the span to the window makes `insert` spin forever |
| BufferScenarios.AudioInsertHangsWhenCaptureTimesOutnumberFrames | src/encoders/buffer.rs:183-194 | with more capture times than frames, `insert_frame` drains the frames and then spins forever |
| BufferScenarios.PairWithinWindow | src/encoders/buffer.rs:180-207 | a frame-then-capture-time step below the window adds both and trims nothing |
| BufferScenarios.PairDropsOldest | src/encoders/buffer.rs:180-207 | a step whose span reaches the window once drops the oldest frame and capture time, then adds the new ones |
| BufferScenarios.PairsStepWithinWindow | src/encoders/buffer_tests.rs:93-96 | one more step within the window extends frames and capture times by the new PTS |
| BufferScenarios.PairsWithinWindow | src/encoders/buffer_tests.rs:93-96 | increasing PTS values whose span stays below the window are all kept, frames and capture times alike |
| BufferScenarios.AudioBufferNoTrim | src/encoders/buffer_tests.rs:93-98 | capture times 1..5 in a 10-unit window: everything is kept, with capture times [1,2,3,4,5] |
| BufferScenarios.AudioBufferNoTrimHoldsFive | src/encoders/buffer_tests.rs:99 | five frames are stored |
| BufferScenarios.AudioTrimScenarioFirstSix | src/encoders/buffer_tests.rs:123-126 | the first six steps (1..11) trim nothing |
| BufferScenarios.AudioTrimScenarioSeventh | src/encoders/buffer_tests.rs:123-126 | step 13 drops frame 1 and capture time 1 |
| BufferScenarios.AudioTrimScenarioEighth | src/encoders/buffer_tests.rs:123-126 | step 15 drops frame 3 |
| BufferScenarios.AudioTrimScenarioNinth | src/encoders/buffer_tests.rs:123-126 | step 17 drops frame 5 |
| BufferScenarios.AudioTrimScenarioTenth | src/encoders/buffer_tests.rs:123-126 | step 19 drops frame 7, leaving capture times starting at 9 |
| BufferScenarios.AudioTrimScenarioResult | src/encoders/buffer_tests.rs:128-129 | six frames remain |
| Export.FrameIntervalIsOneSixtiethSecond | src/main.rs:31-32 | the frame interval is 16666 µs, the whole part of one sixtieth of a second |
| Export.VideoRange | src/main.rs:121 | `range(..=last_keyframe)` visits exactly the stored DTS values up to the last keyframe, ascending |
| Export.KeptVideo | src/main.rs:121-131 | the written frames are at most the visited ones and all are stored |
| Export.FirstVideoPts | src/main.rs:133-136 | the video origin is the PTS of the first written frame, so that frame's packet has PTS offset 0; with nothing written it keeps its initial 0 |
| Export.NewestVideoPts | src/main.rs:150 | the newest video PTS the audio loop compares against is the PTS of a written frame; with nothing written it keeps its initial 0 |
| Export.FirstCapture | src/main.rs:124 | the capture time the catch-up test compares against is the first recorded capture time |
| Export.VideoPacket | src/main.rs:138-145 | a frame's packet goes to the video stream with the frame's bytes, and its PTS and DTS, shifted back by the origin, give the frame's PTS and DTS |
| Export.VideoWrites | src/main.rs:133-149 | one video packet per written frame |
| Export.AudioStop | src/main.rs:159-168 | the audio loop leaves at the first index whose capture time is missing or past the last video PTS; every index before it has a capture time not past it |
| Export.KeptAudio | src/main.rs:172-181 | the written audio keys are among the visited ones |
| Export.AudioWrites | src/main.rs:183-204 | one audio packet per written frame |
| Export.VideoPlan | src/main.rs:117-151 | the video loop panics exactly when the range is non-empty and there are no capture times, and then it writes nothing |
| Export.AudioSelection | src/main.rs:159-181 | every written audio key is a stored key |
| Export.AudioPlan | src/main.rs:154-207 | the audio loop never reports a missing keyframe |
| Export.AudioOrder | src/main.rs:159 | audio frames are visited exactly once each, in ascending PTS |
| Export.SavePlan | src/main.rs:110-112 | the export fails with the missing-keyframe error exactly when no keyframe is recorded, writing nothing |
| Export.WriteVideo | src/main.rs:117-151 | the video loop writes exactly the packets of `VideoPlan`, with its origin, last PTS and outcome |
| Export.WriteAudio | src/main.rs:154-207 | the audio loop writes exactly the packets of `AudioPlan` and ends as it says |
| Export.SaveBuffer | src/main.rs:83-213 | the export writes exactly `SavePlan` of the two buffers' contents |
| Export.AudioStopContinues | src/main.rs:161-168 | a visited index with a capture time not past the last video PTS lies before the stop index |
| Export.AudioWritesStep | src/main.rs:196-204 | writing one more audio frame appends exactly its packet |
| Export.AudioLoopStep | src/main.rs:172-206 | one pass of the audio loop skips the frame or writes it, offset from the first written PTS |
| Export.AudioPlanSaved | src/main.rs:159-207 | an audio loop that ends without a panic writes the packets of the frames kept before the stop |
| Export.AudioPlanOutOfBounds | src/main.rs:161 | an audio loop that runs out of capture times panics after those packets |
| Export.KeptVideoMembers | src/main.rs:121-131 | a frame of the range is written exactly when it passes the catch-up test |
| Export.KeptVideoSorted | src/main.rs:121 | the written DTS values ascend and none exceeds the last one visited |
| Export.VideoWritesAt | src/main.rs:133-143 | the i-th video packet carries the i-th written frame's bytes, with PTS and DTS shifted by the origin |
| Export.KeptAudioMembers | src/main.rs:172-181 | among the visited frames, one is written exactly when its capture time is not before the video origin; the written keys ascend |
| Export.AudioWritesAt | src/main.rs:183-198 | the i-th audio packet carries the i-th written frame, with PTS = DTS = its key shifted by the first written key |
| Export.VideoWritesContains | src/main.rs:133-149 | a frame's packet is among the video packets exactly when the frame is written |
| Export.VideoPlanSelects | src/main.rs:124-131 | when the video loop completes, a frame of the range is written exactly when it is a keyframe or its PTS is not below the first capture time; every keyframe of the range is written |
| Export.VideoPlanShape | src/main.rs:133-143 | the first video packet has PTS offset 0, every packet is on the video stream, and DTS offsets strictly ascend |
| Export.AudioSelectionMembers | src/main.rs:159-181 | an audio frame is written exactly when every capture time up to its own exists and is not past the last video PTS, and its own is not before the video origin |
| Export.AudioPlanShape | src/main.rs:159-204 | the audio loop panics exactly when capture times run out before a frame past the video is reached; its first packet has offset 0, all packets are audio with PTS = DTS, and offsets strictly ascend |
| Export.SavePlanVideoThenAudio | src/main.rs:117-207 | in the clip every video packet comes before every audio packet |
| Export.SavePlanNeedsCaptureTimes | src/main.rs:124 | with a keyframe stored but no capture times, the export panics before writing anything |
| Ffmpeg.PickVideoEncoder | src/ffmpeg_encoder.rs:92-110 | h264_nvenc is used when it opens, else h264_amf, else h264; the pick fails only when all three fail, and then with the CPU encoder's error |
| Ffmpeg.OpenEncoders | src/ffmpeg_encoder.rs:92-112 | `new` succeeds exactly when some video encoder and the Opus encoder open; otherwise it returns the first failing error |
| Ffmpeg.ShiftDown | src/ffmpeg_encoder.rs:188-190 | every keyframe position is lowered by the number of drained frames |
| Ffmpeg.DrainFirstGop | src/ffmpeg_encoder.rs:184-191 | one eviction pass drains at least one frame from the front of the queue and leaves no zero position |
| Ffmpeg.Evict | src/ffmpeg_encoder.rs:178-198 | the eviction loop ends with the span below the window or no keyframe position left, and never lengthens the queue |
| Ffmpeg.RecordKeyframe | src/ffmpeg_encoder.rs:200-203 | the position list keeps its old entries in order and gains one, `len-1`, exactly for a keyframe pushed onto a queue of more than one frame |
| Ffmpeg.RetainNonZero | src/ffmpeg_encoder.rs:191 | retaining never lengthens the list |
| Ffmpeg.RetainNonZeroMembers | src/ffmpeg_encoder.rs:191 | `retain` keeps exactly the non-zero positions |
| Ffmpeg.DrainKeepsIndexesValid | src/ffmpeg_encoder.rs:184-191 | after one drain the positions are still strictly increasing within [1, len); the first position is gone; the rest are shifted by the drained count; at least one frame left the queue |
| Ffmpeg.RetainAllNonZero | src/ffmpeg_encoder.rs:191 | retaining a list without zeros leaves it as it is |
| Ffmpeg.EvictProperties | src/ffmpeg_encoder.rs:178-198 | eviction keeps the positions valid, leaves a suffix of the queue, and stops only when the span is below the window or no position is left |
| Ffmpeg.EvictCutsAtKeyframe | src/ffmpeg_encoder.rs:178-198 | whenever eviction drops frames, the queue it leaves starts at a recorded keyframe position |
| Ffmpeg.ShiftedPositionRecorded | src/ffmpeg_encoder.rs:188-190 | a renumbered position, shifted back, was recorded before the drain |
| Ffmpeg.PushKeepsIndexesValid | src/ffmpeg_encoder.rs:200-203 | pushing a frame, and recording `len-1` for a keyframe only when more than one frame is queued, keeps every position in [1, len) and strictly increasing |
| Ffmpeg.OldestVideoTime | src/ffmpeg_encoder.rs:235 | there is no oldest video time exactly when the video queue is empty |
| Ffmpeg.Received | src/ffmpeg_encoder.rs:256-262 | at most one entry per received packet, each stamped with the call's capture time and the chunk's PTS |
| Ffmpeg.TrimForChunk | src/ffmpeg_encoder.rs:235-242 | the trim step before a chunk pops at most the oldest audio entry |
| Ffmpeg.ChunkStep | src/ffmpeg_encoder.rs:234-265 | each pass takes exactly one chunk's worth of samples off the leftover queue |
| Ffmpeg.RunChunks | src/ffmpeg_encoder.rs:234-265 | the chunk loop never grows the leftover samples; when it drains, less than one chunk is left; it is marked spinning only with a full chunk ready, video queued and no audio entry to pop |
| Ffmpeg.StepConserves | src/ffmpeg_encoder.rs:244-264 | one pass keeps `total = chunks × frame_size + leftover`, with `next_pts` advanced 960 per encoded chunk |
| Ffmpeg.RunChunksConservesSamples | src/ffmpeg_encoder.rs:232-265 | every sample is encoded in a whole chunk or still left over; the leftover is below one chunk once the loop drains; `next_pts` grows by 960 per chunk; a spin happens only with video queued and no audio |
| Ffmpeg.StepKeepsQueueShape | src/ffmpeg_encoder.rs:235-262 | one pass leaves the queue equal to the starting queue plus all pushed packets, minus at most one more popped entry |
| Ffmpeg.TrimKeepsSuffix | src/ffmpeg_encoder.rs:235-242 | trimming a suffix leaves a suffix starting at most one entry later |
| Ffmpeg.SuffixThenPush | src/ffmpeg_encoder.rs:260 | pushing onto a suffix of the queue gives the suffix of the queue with the push |
| Ffmpeg.RunChunksQueueShape | src/ffmpeg_encoder.rs:234-265 | the final queue is the start followed by every pushed packet, minus front entries popped, at most one per chunk |
| Ffmpeg.AppendKeepsStamped | src/ffmpeg_encoder.rs:252-264 | appending one chunk's packets, each stamped with the capture time and that chunk's PTS start + 960·k, keeps all packets stamped with k + 1 chunks sent |
| Ffmpeg.StepKeepsStamped | src/ffmpeg_encoder.rs:252-264 | one pass keeps every pushed packet stamped with the call's capture time and a non-decreasing chunk PTS equal to start + 960·j for a chunk j already sent, and keeps next_pts at start + 960 per chunk sent |
| Ffmpeg.RunChunksStampsPackets | src/ffmpeg_encoder.rs:223-264 | every packet pushed by one call carries that call's capture time and the PTS of the chunk it came from (start + 960·j, j below the number of chunks sent), non-decreasing; the counter ends at start + 960 per chunk sent |
| Ffmpeg.ChunkLoopSummary | src/ffmpeg_encoder.rs:211-268 | for one call, all of the above from the state it starts in: conservation, PTS advance, queue shape, and capture-time stamps |
| Ffmpeg.VideoExport | src/ffmpeg_encoder.rs:335-348 | one video packet per queued frame |
| Ffmpeg.AudioExport | src/ffmpeg_encoder.rs:351-364 | one audio packet per aligned entry |
| Ffmpeg.AlignAudio | src/ffmpeg_encoder.rs:315-323 | alignment never adds entries, and when video is queued the first entry left was not captured before the oldest video frame |
| Ffmpeg.ExportPlan | src/ffmpeg_encoder.rs:335 | the export panics on the empty video queue exactly when it is empty, before writing anything |
| Ffmpeg.AlignAudioDropsEarlyPrefix | src/ffmpeg_encoder.rs:315-323 | alignment drops exactly a prefix of audio captured before the oldest video frame, nothing without video, and the first kept entry is not earlier |
| Ffmpeg.ExportPlanOutcome | src/ffmpeg_encoder.rs:315-364 | both queues are exported exactly when video is queued and some audio was captured at or after the oldest video frame |
| Ffmpeg.VideoExportStamps | src/ffmpeg_encoder.rs:335-348 | each video packet has the frame's bytes and PTS = DTS = its time minus the first frame's time |
| Ffmpeg.AudioExportStamps | src/ffmpeg_encoder.rs:351-364 | each audio packet has the entry's bytes and PTS = DTS = its chunk PTS minus the first entry's |
| Ffmpeg.ExportPlanVideoShape | src/ffmpeg_encoder.rs:334-348 | on a full export the video packets come first, one per frame, starting at 0 and keeping the capture-time differences |
| Ffmpeg.ExportPlanAudioShape | src/ffmpeg_encoder.rs:350-364 | then one audio packet per aligned entry, starting at 0 and keeping the chunk-PTS differences |
| Ffmpeg.FfmpegEncoder.constructor | src/ffmpeg_encoder.rs:114-124 | the window is `buffer_seconds × 1 000 000`; queues, positions and leftover are empty and the PTS counter is 0 |
| Ffmpeg.FfmpegEncoder.ProcessVideo | src/ffmpeg_encoder.rs:173-203 | with a received payload, eviction runs, then the frame is pushed and its position recorded as `PushKeepsIndexesValid` allows; without one nothing changes; audio state is untouched |
| Ffmpeg.FfmpegEncoder.EvictOldGops | src/ffmpeg_encoder.rs:178-198 | the eviction loop leaves exactly the state `Evict` gives |
| Ffmpeg.FfmpegEncoder.ProcessAudio | src/ffmpeg_encoder.rs:211-268 | a sample count that is not a multiple of the channel count gives InvalidData and changes nothing; otherwise the queues and counter end as the chunk loop says, a failed send is returned, and `hangs` flags the spin |
| Ffmpeg.FfmpegEncoder.PushReceived | src/ffmpeg_encoder.rs:256-262 | the receive loop appends exactly `Received` to the audio queue |
| Ffmpeg.FfmpegEncoder.SaveBuffer | src/ffmpeg_encoder.rs:288-369 | the export writes exactly `ExportPlan` of the queues and changes nothing |
| Ffmpeg.AlignedAudio | src/ffmpeg_encoder.rs:315-323 | the alignment loop leaves exactly `AlignAudio` of the audio queue |
| Ffmpeg.WriteVideoPackets | src/ffmpeg_encoder.rs:335-348 | the video loop writes exactly `VideoExport` from the first frame's time |
| Ffmpeg.WriteAudioPackets | src/ffmpeg_encoder.rs:351-364 | the audio loop writes exactly `AudioExport` from the first aligned chunk PTS |
| Nvenc.LevelsFor | src/encoders/nvenc_encoder.rs:156-177 | the preset table as numbers (p2/30/20, p4/25/40, p7/20/80, p7/15/120): every cq lies in 15..30 and every bitrate in 20..120 Mbit/s |
| Nvenc.EncoderParams | src/encoders/nvenc_encoder.rs:151-179 | the options are exactly vsync, rc, tune, preset, cq and b:v; always vsync=vfr, rc=vbr, tune=hq; the preset name is the table's |
| Nvenc.EncoderParamsMatchLevels | src/encoders/nvenc_encoder.rs:156-177 | for every preset the cq string reads as the table's quality level and the b:v string is the table's bitrate in decimal followed by M |
| Nvenc.LevelsMonotone | src/encoders/nvenc_encoder.rs:156-177 | from Low to Ultra, cq strictly decreases and the bitrate strictly increases |
| Nvenc.DrainSplits | src/encoders/nvenc_encoder.rs:74-86 | draining packets is draining a first part and then the rest, unless the first part hung |
| Nvenc.InsertPacket | src/encoders/nvenc_encoder.rs:53-63 | handing one received packet to the buffer: a packet without payload changes nothing; afterwards every stored frame was stored before, unchanged, or is that packet's entry under its DTS; it hangs only where the buffer's trim loop would |
| Nvenc.DrainSpec | src/encoders/nvenc_encoder.rs:74-86 | the drain loop: with no packet nothing changes; it hangs only on an insert whose trim loop would spin |
| Nvenc.DrainKeepsOnlyKnownFrames | src/encoders/nvenc_encoder.rs:74-86 | after a drain every stored frame was there before, unchanged, or is the entry of a drained packet under its DTS |
| Nvenc.NvencEncoder.constructor | src/encoders/nvenc_encoder.rs:22-37 | the encoder is present and the buffer is empty, with a window of `max_buffer_seconds × ONE_MICROS` |
| Nvenc.NvencEncoder.Process | src/encoders/nvenc_encoder.rs:39-67 | without an encoder nothing happens; a failed send panics; otherwise the received packet, if any, is inserted as `PacketEntry` says |
| Nvenc.NvencEncoder.InsertReceived | src/encoders/nvenc_encoder.rs:53-63 | a packet with a payload is inserted under its DTS; one without changes nothing |
| Nvenc.NvencEncoder.Drain | src/encoders/nvenc_encoder.rs:70-89 | without an encoder nothing happens; a failed end-of-stream send is returned; otherwise every yielded packet is inserted in order |
| Nvenc.NvencEncoder.DropEncoder | src/encoders/nvenc_encoder.rs:91-94 | the buffer is emptied and the encoder is None |
| Nvenc.NvencEncoder.Reset | src/encoders/nvenc_encoder.rs:96-104 | the buffer ends empty; on success the encoder is the new one, and on failure the error is returned and the encoder stays None |
| Nvenc.DrainStopsAtHang | src/encoders/nvenc_encoder.rs:74-86 | once an insert hangs, later packets change nothing |
| Vaapi.QpFor | src/encoders/vaapi_encoder.rs:407-420 | every preset's QP lies in 15..30 |
| Vaapi.EncoderParams | src/encoders/vaapi_encoder.rs:403-422 | the options are exactly vsync, rc and qp; always vsync=vfr and rc=VBR |
| Vaapi.EncoderParamsSpellsQp | src/encoders/vaapi_encoder.rs:407-420 | the qp option is the two-digit decimal spelling of the preset's QP |
| Vaapi.QpMonotone | src/encoders/vaapi_encoder.rs:407-420 | a higher preset has a strictly lower QP |
| Vaapi.PushAllKeepsOrderAndDropsExcess | src/encoders/vaapi_encoder.rs:256-275 | with no consumer running, the ring holds its old contents followed by the first offered entries, as many as there were free slots, in order; it never exceeds its capacity |
| Vaapi.PushOrDrop | src/encoders/vaapi_encoder.rs:215-227 | `try_push` keeps the contents in order and appends the entry exactly when a slot is free |
| Vaapi.PushAll | src/encoders/vaapi_encoder.rs:256-275 | offering entries one by one keeps the old contents, adds at most one entry per offer, and never fills the ring beyond its capacity |
| Vaapi.PacketItems | src/encoders/vaapi_encoder.rs:256-273 | at most one ring entry per received packet |
| Vaapi.PacketItemsFromPackets | src/encoders/vaapi_encoder.rs:256-273 | every ring entry is the entry of some received packet, and when every packet has a payload there is one entry per packet |
| Vaapi.EncodedRing.constructor | src/encoders/vaapi_encoder.rs:50-51 | the ring starts empty with the given capacity |
| Vaapi.EncodedRing.TryPush | src/encoders/vaapi_encoder.rs:215-227 | a push appends when a slot is free and reports success; on a full ring it drops the entry and leaves the contents unchanged |
| Vaapi.EncodedRing.TryPop | src/encoders/vaapi_encoder.rs:38 | the consumer end takes the oldest entry first, and gets None on an empty ring |
| Vaapi.VaapiEncoder.constructor | src/encoders/vaapi_encoder.rs:44-64 | codec, filter graph and both ends of an empty 120-slot ring are present |
| Vaapi.VaapiEncoder.Offer | src/encoders/vaapi_encoder.rs:213-229 | a packet with a payload is offered to the ring when the producer end is present; otherwise the ring is unchanged |
| Vaapi.VaapiEncoder.Process | src/encoders/vaapi_encoder.rs:66-233 | without a codec nothing happens; a failed send is returned; otherwise the received packet, if any, is offered to the ring |
| Vaapi.VaapiEncoder.Drain | src/encoders/vaapi_encoder.rs:236-278 | without a codec nothing happens; the first failed graph-flush send's error is returned and a failed end-of-stream send is returned, each with the ring unchanged; otherwise every yielded packet is offered in order, excess entries dropped |
| Vaapi.VaapiEncoder.TakeEncodedRecv | src/encoders/vaapi_encoder.rs:301-303 | the first call returns the consumer end and every later call returns None |
| Vaapi.VaapiEncoder.DropEncoder | src/encoders/vaapi_encoder.rs:296-299 | codec and filter graph are None, and the ring ends stay |
| Vaapi.VaapiEncoder.Reset | src/encoders/vaapi_encoder.rs:280-290 | on success codec and graph are the new ones; if either creation fails, its error is returned and both stay None |
| Vaapi.PushAllStep | src/encoders/vaapi_encoder.rs:256-275 | offering one more packet extends the run of offers by its entry |
| ShadowCap.Window | src/modes/shadow_cap.rs:103 | the window is a whole number of seconds in microseconds, exactly the requested count |
| ShadowCap.NewWindow | src/modes/shadow_cap.rs:98-103 | `new` refuses exactly the windows over 86400 s; an accepted window is the requested seconds in microseconds, at most 24 h |
| ShadowCap.WindowAsWritten | src/modes/shadow_cap.rs:103 | the window as the code computes it: the 32-bit product, equal to the intended window modulo 2^32 (see Findings) |
| ShadowCap.WindowAsWrittenExactUpTo4294 | src/modes/shadow_cap.rs:103 | the 32-bit product is exact up to 4294 s |
| ShadowCap.WindowAsWrittenWrapsInsideGuard | src/modes/shadow_cap.rs:98-103 | every window from 4295 s to 86400 s is accepted, yet its product exceeds `u32::MAX` and wraps to another value |
| ShadowCap.WindowAsWritten4295 | src/modes/shadow_cap.rs:103 | 4295 s passes the check, but the product wraps to 32704 µs |
| ShadowCap.OnSaveOutcomes | src/modes/shadow_cap.rs:51-71 | a save succeeds exactly when every step does, and then the buffers are empty, the flag is down and capture runs; a failed export leaves the flag up, the buffers intact and capture stopped |
| ShadowCap.OnSaveSpec | src/modes/shadow_cap.rs:51-71 | a save reports an error exactly when some step fails; the buffers are emptied exactly when finishing capture and the export succeed; the flag stays up exactly when a step before the flag is lowered fails; capture runs afterwards exactly when every step succeeded, or is as before when finishing failed |
| ShadowCap.SaveContext.constructor | src/waycap.rs:25 | a context starts with the saving flag down |
| ShadowCap.ShadowCapMode.constructor | src/modes/shadow_cap.rs:104-112 | both buffers are empty with the same window, and there are no workers |
| ShadowCap.ShadowCapMode.New | src/modes/shadow_cap.rs:97-113 | windows over 24 h are refused; otherwise both buffers get the requested window and start empty |
| ShadowCap.ShadowCapMode.OnSave | src/modes/shadow_cap.rs:51-71 | the flag, the buffers and capture end as `OnSaveSpec` says for the outcomes of finish, export, reset and start |
| ShadowApplication.Encode | src/shadow_application.rs:27-31 | every state is stored as a byte of at most 2 |
| ShadowApplication.Decode | src/shadow_application.rs:44-51 | `load` fails exactly on bytes above 2, with "Unknown Application State" |
| ShadowApplication.DecodeEncode | src/shadow_application.rs:44-56 | loading what was stored gives the state back |
| ShadowApplication.EncodeDecode | src/shadow_application.rs:44-51 | every byte that loads is the stored form of its state |
| ShadowApplication.EncodeInjective | src/shadow_application.rs:27-31 | distinct states are stored as distinct bytes |
| ShadowApplication.AtomicAppState.constructor | src/shadow_application.rs:38-42 | the cell holds the state's byte |
| ShadowApplication.AtomicAppState.Load | src/shadow_application.rs:44-51 | `load` decodes the held byte |
| ShadowApplication.AtomicAppState.Store | src/shadow_application.rs:53-56 | `store` holds the state's byte |
| ShadowApplication.NewThenLoad | src/shadow_application.rs:38-56 | `new(s)` then `load` gives `s`, and `store(t)` then `load` gives `t` |

## Left out

- Buffer.VideoBuffer.Insert: where the source's trim loop never exits, the model returns with `hangs` set. The state it returns is the one the loop would spin on.
- Buffer.AudioBuffer.InsertFrame: where the source's trim loop never exits, the model returns with `hangs` set, as above.
- Ffmpeg.FfmpegEncoder.ProcessAudio:
  - where the inner trim loop spins, the model returns with `hangs` set;
  - volume normalisation (floating-point scaling, `src/ffmpeg_encoder.rs:270-286`) is not modelled, and samples enter the leftover queue as given;
  - the channel count and the chunk size are constants of the encoder, taken when it is built.
- Ffmpeg.FfmpegEncoder.ProcessVideo:
  - scaling and the send to the codec are not modelled. Their `unwrap` panics on failure are therefore absent.
  - Only the packet that `receive_packet` yields is a parameter.
- Ffmpeg.FfmpegEncoder.SaveBuffer: file creation, stream setup, header and trailer are not modelled, so their errors are absent. The `expect` panics on a failed `write_interleaved` are absent too.
- Ffmpeg.FfmpegEncoder.constructor: it covers only a successful `new`. The encoder choice and its failure are `OpenEncoders`. It requires a positive channel count and chunk size. The only caller guarantees both: `create_opus_encoder` sets stereo and a chunk of frame size times channels (`src/encoders/audio_encoder.rs:18-25`). The model therefore leaves out the zero cases: a remainder by zero (`src/ffmpeg_encoder.rs:219`) and a chunk loop that never ends (`src/ffmpeg_encoder.rs:234`).
- Export.SaveBuffer: the opening part is not modelled, so its errors are absent. That part is file creation, codec lookup, stream setup and `write_header`. The same goes for `write_trailer` and for a failing `write_interleaved`, which panics. Index-out-of-bounds panics are modelled as `OutOfBounds`.
- Nvenc.NvencEncoder.constructor: it covers only a successful `create_encoder`. Its error would be returned unchanged. Opening the codec (`src/encoders/nvenc_encoder.rs:116-149`) is not modelled, nor is reading the configuration for it.
- Nvenc.NvencEncoder.Process: a failed send panics. The model reports this as `panics` and changes nothing.
- Vaapi.VaapiEncoder.Process: `sent` is the outcome of the DMA-buffer path's send, which is returned with `?`. Three panic paths are left out:
  - the software conversion path, whose send and scaler use `unwrap`;
  - the filter graph's own `unwrap` calls;
  - the `av_*` FFI calls.
- Vaapi.VaapiEncoder.constructor: it covers only a successful `create_encoder` and `create_filter_graph`. Device, frame-context and filter-graph creation (`src/encoders/vaapi_encoder.rs:307-466`) is FFI and is not modelled.
- Vaapi.EncodedRing.TryPop: no consumer appears in the modelled files. The consumer end is modelled only as a first-in first-out pop.
- ShadowCap.ShadowCapMode.New:
  - the buffers get the intended window, not the wrapped 32-bit product (see Findings);
  - the mode's buffer types `ShadowCaptureVideoBuffer` and `ShadowCaptureAudioBuffer` (src/modes/shadow_cap.rs:13, 20-21, 105-110) are not part of this model; `Buffer.VideoBuffer` and `Buffer.AudioBuffer` stand in for them, so "start empty" assumes their constructors behave like those.
- ShadowCap.ShadowCapMode.OnSave:
  - the outcomes of `capture.finish`, `save_buffer`, `capture.reset` and `capture.start` are parameters;
  - the clip file name, built from the wall clock, is not modelled;
  - the asynchronous buffer locks are not modelled;
  - "buffers emptied" assumes the `reset` of the mode's own buffer types behaves like that of `Buffer.VideoBuffer` and `Buffer.AudioBuffer`, which stand in for them;
  - the four-argument `save_buffer` called at src/modes/shadow_cap.rs:60 is not the five-argument one in src/main.rs:83-89 and is not part of this model, so the export's outcome is a parameter rather than `Export.SavePlan`.
- `init`, `on_shutdown`, `on_exit` and the shadow worker threads (`src/modes/shadow_cap.rs:26-49, 73-94, 115-160`) are concurrency and are not modelled.
- PipeWire capture is callback and I/O plumbing and is not modelled. That is `src/pipewire_capture.rs`, `src/pw_capture/video_stream.rs` and `src/local_pipewire.rs`.
- The event loop, the D-Bus service and mode dispatch are concurrency and are not modelled: `src/waycap.rs`, `src/dbus.rs`, `src/modes/app_mode_variant.rs` and `src/modes/mod.rs`.
- `ShadowApp` threads and its resolution wait (`src/shadow_application.rs:59-127`) are not modelled.
- Configuration loading (`src/application_config.rs`) is not modelled.
  - `QualityPreset` there has three values. The encoder tables match on four: Low, Medium, High and Ultra. The model follows the encoder files.
- The `VideoEncoder` trait (`src/encoders/video_encoder.rs:11-21`) is not modelled; its `new` arity differs from both implementations. Only its constants are used.
- `src/encoders/audio_encoder.rs` and `src/encoders/audio_encoder_tests.rs` are not part of this model. The tests exercise a constructor that is not among the modelled files.
- `FfmpegEncoder::save_audio` (`src/ffmpeg_encoder.rs:371-398`) has no caller in the modelled files and is not modelled.
- The raw frame getters of `src/main.rs:40-64` are plain field reads. They are the fields of `Export.RawVideoFrame` and `Export.RawAudioFrame`.
- Timestamps, PTS and DTS are unbounded integers. The source's `i64` overflow is not modelled, and neither is the `usize` to `i64` cast of the window.

## Findings

| source | as written | input that shows it | evidently intended | confidence | as-written member | corrected member |
|---|---|---|---|---|---|---|
| src/modes/shadow_cap.rs:103 | the window `max_seconds * 1_000_000_u32` is computed in 32 bits, while the guard at lines 98-101 admits up to 86400 s | `max_seconds = 4295`: the product 4 295 000 000 exceeds `u32::MAX`. It wraps to 32704 µs in a release build and panics in a debug build. Every value from 4295 to 86400 overflows | the requested seconds in microseconds, computed in a width that holds 86400 × 10^6 | not executed | ShadowCap.WindowAsWritten (ShadowCap.WindowAsWritten4295, ShadowCap.WindowAsWrittenWrapsInsideGuard) | ShadowCap.NewWindow (ShadowCap.Window) |
