/** Machine integers, keys and the checked arithmetic the handlers use.
    Rust's `u64`, `u32`, `u128` and `i64` are bounded newtypes here, so every
    reachable counter lies in its type's range by construction; `checked_add`,
    `checked_sub` and `u64::try_from` are written out as functions that return
    `None` exactly where the Rust versions do. */
module Primitives {

  const U64_MAX: int := 0xFFFF_FFFF_FFFF_FFFF

  newtype u8 = x: int | 0 <= x < 0x100
  newtype u32 = x: int | 0 <= x < 0x1_0000_0000
  newtype u64 = x: int | 0 <= x <= 0xFFFF_FFFF_FFFF_FFFF
  newtype u128 = x: int | 0 <= x < 0x1_0000_0000_0000_0000_0000_0000_0000_0000
  newtype i64 = x: int | -0x8000_0000_0000_0000 <= x < 0x8000_0000_0000_0000

  /** A `[u8; 32]`: a public key or a foreign-chain address. */
  type Bytes32 = s: seq<u8> | |s| == 32 witness seq(32, _ => 0 as u8)
  type Pubkey = Bytes32

  /** A `[u8; 65]` attestation signature. */
  type Signature = s: seq<u8> | |s| == 65 witness seq(65, _ => 0 as u8)

  /** `Pubkey::default()`, the all-zero key. */
  const ZeroKey: Pubkey := [0, 0, 0, 0, 0, 0, 0, 0, 0, 0, 0, 0, 0, 0, 0, 0, 0, 0, 0, 0, 0, 0, 0, 0, 0, 0, 0, 0, 0, 0, 0, 0]

  datatype Option<T> = None | Some(value: T)

  /** The failures an instruction can end in.  The first six are the
      variants of the program's own `ErrorCode` that the core raises; the
      last three stand for failures raised outside the program's code. */
  datatype Error =
    | RepeatedInit
    | MathOverflow
    | InsufficientIdleFunds
    | UnauthorizedAdmin
    | TransmitterPaused
    | InvalidSignatures
      /** a cross-program invocation (vault, token program) returned an error */
    | CpiFailed
      /** Anchor's `init` found the account it was to create already in use */
    | AccountInUse
      /** Anchor found no account to load where the instruction names one */
    | AccountNotInitialized

  datatype Result<T> = Ok(value: T) | Err(error: Error)

  /** `u64::checked_add` */
  function CheckedAdd(a: u64, b: u64): (r: Option<u64>)
    ensures r.Some? <==> a as int + b as int <= U64_MAX
    ensures r.Some? ==> r.value as int == a as int + b as int
  {
    if a as int + b as int <= U64_MAX then Some((a as int + b as int) as u64) else None
  }

  /** `u64::checked_sub` */
  function CheckedSub(a: u64, b: u64): (r: Option<u64>)
    ensures r.Some? <==> b <= a
    ensures r.Some? ==> r.value as int == a as int - b as int
  {
    if b <= a then Some(a - b) else None
  }

  /** `u64::try_from(x: u128)` */
  function U64FromU128(x: u128): (r: Option<u64>)
    ensures r.Some? <==> x as int <= U64_MAX
    ensures r.Some? ==> r.value as int == x as int
  {
    if x as int <= U64_MAX then Some(x as int as u64) else None
  }
}
