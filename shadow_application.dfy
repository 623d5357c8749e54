/**
 * The application state cell of src/shadow_application.rs: the state is
 * kept as one byte, written by `store` and decoded again by `load`, which
 * refuses a byte that is no state.
 */
module ShadowApplication {
  import opened Wrappers
  import opened EncoderTypes

  datatype AppState = Initializing | Recording | Saving

  /** The discriminant each state is stored as. */
  function Encode(s: AppState): (b: u8)
    ensures b <= 2
  {
    match s
    case Initializing => 0
    case Recording => 1
    case Saving => 2
  }

  /** The decoding `load` applies to the stored byte. */
  function Decode(b: u8): (r: Result<AppState, string>)
    ensures r.Err? <==> b > 2
    ensures r.Err? ==> r.error == "Unknown Application State"
  {
    if b == 0 then Ok(Initializing)
    else if b == 1 then Ok(Recording)
    else if b == 2 then Ok(Saving)
    else Err("Unknown Application State")
  }

  /** Decoding undoes encoding. */
  lemma DecodeEncode(s: AppState)
    ensures Decode(Encode(s)) == Ok(s)
  {
  }

  /** Encoding undoes decoding on every byte that decodes, so the byte values 0, 1 and 2 and the three states correspond one to one. */
  lemma EncodeDecode(b: u8)
    requires Decode(b).Ok?
    ensures Encode(Decode(b).value) == b
  {
  }

  /** Distinct states are stored as distinct bytes. */
  lemma EncodeInjective(s: AppState, t: AppState)
    requires Encode(s) == Encode(t)
    ensures s == t
  {
    DecodeEncode(s);
    DecodeEncode(t);
  }

  class AtomicAppState {
    var inner: u8

    constructor (state: AppState)
      ensures inner == Encode(state)
    {
      inner := Encode(state);
    }

    method Load() returns (r: Result<AppState, string>)
      ensures r == Decode(inner)
    {
      if inner == 0 {
        r := Ok(Initializing);
      } else if inner == 1 {
        r := Ok(Recording);
      } else if inner == 2 {
        r := Ok(Saving);
      } else {
        r := Err("Unknown Application State");
      }
    }

    method Store(state: AppState)
      modifies this
      ensures inner == Encode(state)
    {
      inner := Encode(state);
    }
  }

  /** `new(s)` and then `load` gives `s`; so does `store(s)` and then `load`, whatever was stored before. */
  method NewThenLoad(s: AppState, t: AppState) returns (first: Result<AppState, string>, second: Result<AppState, string>)
    ensures first == Ok(s) && second == Ok(t)
  {
    var cell := new AtomicAppState(s);
    DecodeEncode(s);
    first := cell.Load();
    cell.Store(t);
    DecodeEncode(t);
    second := cell.Load();
  }
}
