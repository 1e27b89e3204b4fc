/**
 * The byte extractors of src/utils.rs. Each one converts a slice into a
 * fixed-size array with `try_into().expect(..)`, which panics when the slice
 * does not have exactly the array's length. The panic is the `Err` case here.
 */
module Utils {
  import opened Wrappers

  /** An unsigned 8-bit value (Rust `u8`). */
  newtype U8 = x: int | 0 <= x < 0x100

  /** Why an extraction failed: the slice had `actual` bytes instead of `expected`. */
  datatype ExtractError = LengthMismatch(expected: nat, actual: nat)

  /** Conversion of a slice into an array of `n` bytes (`<[u8; n]>::try_from`). */
  function TryIntoArray(a: seq<U8>, n: nat): Result<seq<U8>, ExtractError>
  {
    if |a| == n then Ok(a) else Err(LengthMismatch(n, |a|))
  }

  /** `get8`: the slice as a one-byte array, or a length mismatch. */
  function Get8(a: seq<U8>): (r: Result<seq<U8>, ExtractError>)
    ensures r.Ok? <==> |a| == 1
    ensures r.Ok? ==> |r.value| == 1 && r.value[0] == a[0]
    ensures r.Err? ==> r.error == LengthMismatch(1, |a|)
  {
    TryIntoArray(a, 1)
  }

  /** `get16`: the slice as a two-byte array, bytes in their original order, or a length mismatch. */
  function Get16(a: seq<U8>): (r: Result<seq<U8>, ExtractError>)
    ensures r.Ok? <==> |a| == 2
    ensures r.Ok? ==> |r.value| == 2 && r.value[0] == a[0] && r.value[1] == a[1]
    ensures r.Err? ==> r.error == LengthMismatch(2, |a|)
  {
    TryIntoArray(a, 2)
  }

  /** `get32`: the slice as a four-byte array, bytes in their original order, or a length mismatch. */
  function Get32(a: seq<U8>): (r: Result<seq<U8>, ExtractError>)
    ensures r.Ok? <==> |a| == 4
    ensures r.Ok? ==> |r.value| == 4 && forall i :: 0 <= i < 4 ==> r.value[i] == a[i]
    ensures r.Err? ==> r.error == LengthMismatch(4, |a|)
  {
    TryIntoArray(a, 4)
  }
}
