/**
 * Shared vocabulary of the encoder modules: machine-width integers, the
 * constants of src/encoders/video_encoder.rs, the quality presets the two
 * hardware encoders know, and what the codec library hands back when a
 * packet is received. The codec itself is not modelled: every encoder
 * operation takes the codec's answers as parameters.
 */
module EncoderTypes {
  import opened Wrappers

  type byte = x: int | 0 <= x < 0x100
  type u8 = x: int | 0 <= x < 0x100
  type u32 = x: int | 0 <= x < 0x1_0000_0000

  const U32_MAX: int := 0xFFFF_FFFF
  const U64_MAX: int := 0xFFFF_FFFF_FFFF_FFFF

  /** Microseconds per second: every buffer window is kept in microseconds. */
  const ONE_MICROS: nat := 1_000_000

  /** Frames between forced keyframes. */
  const GOP_SIZE: nat := 30

  /** Quality presets as the NVENC and VAAPI encoders match on them. */
  datatype QualityPreset = Low | Medium | High | Ultra

  /** Position of a preset from the lowest (0) to the highest (3). */
  function Rank(q: QualityPreset): nat
  {
    match q
    case Low => 0
    case Medium => 1
    case High => 2
    case Ultra => 3
  }

  /**
   * One packet as `receive_packet` fills it in: the payload may be missing,
   * and so may the timestamps (the callers default them to 0).
   */
  datatype Packet = Packet(data: Option<seq<byte>>, isKey: bool, pts: Option<int>, dts: Option<int>)

  /** Errors the codec library reports; only their identity matters here. */
  datatype CodecError = InvalidData | EncoderNotFound | Other(code: int)

  /** One packet handed to the muxer by `write_interleaved`: its stream index, timestamps and payload. */
  datatype Write = Write(stream: nat, pts: int, dts: int, payload: seq<byte>)

  /** An opened codec context, opaque to the model. */
  datatype CodecHandle = CodecHandle(name: string)
}
