/**
 * The shadow-capture mode of src/modes/shadow_cap.rs: `new` checks the
 * requested window and sizes both rolling buffers from it; `on_save`
 * raises the `saving` flag, stops capture, exports the buffers, and only
 * when that succeeds empties them, lowers the flag and restarts capture.
 *
 * The capture pipeline and the export are oracles: `on_save` takes, as
 * parameters, the outcome of each call it makes into them.
 */
module ShadowCap {
  import opened Wrappers
  import opened EncoderTypes
  import opened Buffer

  /** The longest window `new` accepts: 24 hours, in seconds. */
  const MAX_WINDOW_SECONDS: nat := 86400

  /** Bit width of the multiplication `new` performs. */
  const U32_MODULUS: nat := 0x1_0000_0000

  // ---------------------------------------------------------------------
  // The window: as written and as intended
  // ---------------------------------------------------------------------

  /**
   * The window `new` computes as written: `max_seconds * 1_000_000_u32`,
   * a 32-bit product, which wraps around in a release build (a debug build
   * panics instead).
   */
  function WindowAsWritten(maxSeconds: u32): (w: u32)
    ensures (Window(maxSeconds) - w) % U32_MODULUS == 0
  {
    var p := maxSeconds * ONE_MICROS;
    WrapIsCongruent(p);
    p % U32_MODULUS
  }

  /** Reducing modulo 2^32 changes a value by a multiple of 2^32. */
  lemma WrapIsCongruent(p: nat)
    ensures (p - p % U32_MODULUS) % U32_MODULUS == 0
  {
    assert p - p % U32_MODULUS == U32_MODULUS * (p / U32_MODULUS);
  }

  /** The window in microseconds the configured number of seconds stands for. */
  function Window(maxSeconds: u32): (w: nat)
    ensures w / ONE_MICROS == maxSeconds && w % ONE_MICROS == 0
  {
    maxSeconds * ONE_MICROS
  }

  /** The window check of `new`, then the window both buffers get; the rest of the model uses the intended product. */
  function NewWindow(maxSeconds: u32): (r: Result<nat, string>)
    ensures r.Err? <==> maxSeconds > MAX_WINDOW_SECONDS
    ensures r.Ok? ==> r.value == Window(maxSeconds) && r.value <= MAX_WINDOW_SECONDS * ONE_MICROS
  {
    if maxSeconds > MAX_WINDOW_SECONDS then Err("Max seconds is above 24 hours. This is too much time for shadow capture")
    else Ok(Window(maxSeconds))
  }

  /** Up to 4294 seconds the 32-bit product is exact. */
  lemma WindowAsWrittenExactUpTo4294(maxSeconds: u32)
    requires maxSeconds <= 4294
    ensures WindowAsWritten(maxSeconds) == Window(maxSeconds)
  {
  }

  /**
   * Every window from 4295 seconds up to the accepted 86400 overflows the
   * 32-bit product, so the buffers get a window other than the one asked
   * for.
   */
  lemma WindowAsWrittenWrapsInsideGuard(maxSeconds: u32)
    requires 4295 <= maxSeconds <= MAX_WINDOW_SECONDS
    ensures NewWindow(maxSeconds).Ok?
    ensures Window(maxSeconds) > U32_MAX
    ensures WindowAsWritten(maxSeconds) != Window(maxSeconds)
  {
  }

  /** A concrete case: 4295 seconds passes the check but yields a window of 32704 microseconds, not 4295 seconds. */
  lemma WindowAsWritten4295()
    ensures NewWindow(4295).Ok?
    ensures WindowAsWritten(4295) == 32704
    ensures Window(4295) == 4_295_000_000
  {
  }

  // ---------------------------------------------------------------------
  // Saving: value-level specification
  // ---------------------------------------------------------------------

  /** What `on_save` leaves behind: its result, the `saving` flag, whether the buffers were emptied and whether capture runs again. */
  datatype SaveEffect = SaveEffect(result: Result<(), string>, saving: bool, buffersReset: bool, captureRunning: bool)

  /**
   * The steps of `on_save` given the outcome of each call into the capture
   * pipeline and the export. Each `?` returns at once; the flag goes down
   * only after the buffers are emptied and capture is reset.
   */
  function OnSaveSpec(finish: Result<(), string>, save: Result<(), string>, resetCapture: Result<(), string>,
                      start: Result<(), string>, wasRunning: bool): (e: SaveEffect)
    ensures e.result.Err? <==> finish.Err? || save.Err? || resetCapture.Err? || start.Err?
    ensures e.buffersReset <==> finish.Ok? && save.Ok?
    ensures e.saving <==> finish.Err? || save.Err? || resetCapture.Err?
    ensures e.captureRunning <==> (if finish.Err? then wasRunning else e.result.Ok?)
  {
    if finish.Err? then SaveEffect(Err(finish.error), true, false, wasRunning)
    else if save.Err? then SaveEffect(Err(save.error), true, false, false)
    else if resetCapture.Err? then SaveEffect(Err(resetCapture.error), true, true, false)
    else if start.Err? then SaveEffect(Err(start.error), false, true, false)
    else SaveEffect(Ok(()), false, true, true)
  }

  /**
   * A save succeeds exactly when every step does, and then the buffers are
   * empty, the flag is down and capture runs again. When the export fails
   * the flag stays up, the buffers keep their contents and capture is not
   * restarted.
   */
  lemma OnSaveOutcomes(finish: Result<(), string>, save: Result<(), string>, resetCapture: Result<(), string>,
                       start: Result<(), string>, wasRunning: bool)
    ensures var e := OnSaveSpec(finish, save, resetCapture, start, wasRunning);
      && (e.result.Ok? <==> finish.Ok? && save.Ok? && resetCapture.Ok? && start.Ok?)
      && (e.result.Ok? ==> !e.saving && e.buffersReset && e.captureRunning)
      && (finish.Ok? && save.Err? ==> e.result == save && e.saving && !e.buffersReset && !e.captureRunning)
      && (!e.saving ==> e.buffersReset)
      && (e.captureRunning && finish.Ok? ==> e.result.Ok?)
  {
  }

  // ---------------------------------------------------------------------
  // The mode
  // ---------------------------------------------------------------------

  /** The parts of the application context `on_save` touches: the `saving` flag and whether capture is running. */
  class SaveContext {
    var saving: bool
    var captureRunning: bool

    constructor (captureRunning: bool)
      ensures !saving && this.captureRunning == captureRunning
    {
      saving := false;
      this.captureRunning := captureRunning;
    }
  }

  class ShadowCapMode {
    const videoBuffer: VideoBuffer
    const audioBuffer: AudioBuffer
    /** Worker threads started so far. */
    var shadowWorkers: nat

    /** Both buffers with the same window, and no workers yet. */
    constructor (window: nat)
      ensures fresh(videoBuffer) && fresh(audioBuffer)
      ensures videoBuffer.State() == VideoState(map[], []) && videoBuffer.maxTime == window
      ensures audioBuffer.State() == AudioState(map[], []) && audioBuffer.maxTime == window
      ensures shadowWorkers == 0
    {
      videoBuffer := new VideoBuffer(window);
      audioBuffer := new AudioBuffer(window);
      shadowWorkers := 0;
    }

    /** `new`: refuse a window over 24 hours, else build the mode over the window `NewWindow` gives. */
    static method New(maxSeconds: u32) returns (r: Result<ShadowCapMode, string>)
      ensures r.Err? <==> maxSeconds > MAX_WINDOW_SECONDS
      ensures r.Ok? ==>
        && fresh(r.value) && fresh(r.value.videoBuffer) && fresh(r.value.audioBuffer)
        && r.value.videoBuffer.maxTime == Window(maxSeconds) && r.value.audioBuffer.maxTime == Window(maxSeconds)
        && r.value.videoBuffer.State() == VideoState(map[], []) && r.value.audioBuffer.State() == AudioState(map[], [])
        && r.value.shadowWorkers == 0
    {
      var window := NewWindow(maxSeconds);
      if window.Err? {
        return Err(window.error);
      }
      var mode := new ShadowCapMode(window.value);
      r := Ok(mode);
    }

    /**
     * Save a clip. `finish`, `save`, `resetCapture` and `start` are the
     * outcomes of `capture.finish`, `save_buffer`, `capture.reset` and
     * `capture.start`.
     */
    method OnSave(ctx: SaveContext, finish: Result<(), string>, save: Result<(), string>,
                  resetCapture: Result<(), string>, start: Result<(), string>) returns (r: Result<(), string>)
      modifies ctx, videoBuffer, audioBuffer
      ensures var e := OnSaveSpec(finish, save, resetCapture, start, old(ctx.captureRunning));
        && r == e.result && ctx.saving == e.saving && ctx.captureRunning == e.captureRunning
        && (e.buffersReset ==> videoBuffer.State() == VideoState(map[], []) && audioBuffer.State() == AudioState(map[], []))
        && (!e.buffersReset ==> videoBuffer.State() == old(videoBuffer.State()) && audioBuffer.State() == old(audioBuffer.State()))
      ensures videoBuffer.maxTime == old(videoBuffer.maxTime) && audioBuffer.maxTime == old(audioBuffer.maxTime)
    {
      ctx.saving := true;
      if finish.Err? {
        return Err(finish.error);
      }
      ctx.captureRunning := false;
      if save.Err? {
        return Err(save.error);
      }
      videoBuffer.Reset();
      audioBuffer.Reset();
      if resetCapture.Err? {
        return Err(resetCapture.error);
      }
      ctx.saving := false;
      if start.Err? {
        return Err(start.error);
      }
      ctx.captureRunning := true;
      r := Ok(());
    }
  }
}
