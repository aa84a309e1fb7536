/**
 * Values shared by the uploader and its plugins: the compressor descriptor
 * (EqCompressorInfo), plugin names, capability masks, and the opaque handles
 * for native instances and GL contexts.
 */
module Compressor {

  type uint32 = x: int | 0 <= x < 0x1_0000_0000
  type uint64 = x: int | 0 <= x < 0x1_0000_0000_0000_0000

  /** Capability masks are 64-bit sets of flags, combined with `&`. */
  type Caps = bv64

  /** Reserved plugin names: nothing at or below NONE names a real plugin. */
  const INVALID: uint32 := 0
  const NONE: uint32 := 1

  /**
   * The capability flag every uploader descriptor must carry. Its numeric
   * value comes from the plugin API's header; only "this one bit" matters
   * here.
   */
  const TRANSFER: Caps := 0x10

  /** A native plugin instance handle; NULL_INSTANCE is the null pointer. */
  type Instance = nat
  const NULL_INSTANCE: Instance := 0

  /** An opaque GL context handle (a `const GLEWContext*`); NO_CONTEXT is null. */
  type Context = nat
  const NO_CONTEXT: Context := 0

  datatype Option<T> = None | Some(value: T)

  /**
   * The fields of a compressor descriptor that the uploader reads. Speed is
   * a float in the plugin API; only its ordering is used, so it is a real.
   */
  datatype Info = Info(
    name: uint32,
    tokenType: uint32,        // the internal (input) format
    outputTokenType: uint32,  // the external (output) format
    capabilities: Caps,
    speed: real)

  /** A descriptor carrying only a name: what a fresh plugin instance holds. */
  function Named(name: uint32): Info {
    Info(name, 0, 0, 0, 0.0)
  }

  /** `(have & want) == want`: every flag of `want` is present in `have`. */
  predicate Covers(have: Caps, want: Caps) {
    have & want == want
  }

  predicate HasTransfer(caps: Caps) {
    caps & TRANSFER != 0
  }

  /** Covering is transitive: a mask that covers `b` covers every sub-mask of `b`. */
  lemma CoversTransitive(a: Caps, b: Caps, c: Caps)
    requires Covers(a, b) && Covers(b, c)
    ensures Covers(a, c)
  {
  }
}
