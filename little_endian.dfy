/**
 * Rust's `from_le_bytes` for the integer types the telemetry record uses,
 * and for `f32`, whose `from_le_bytes` reinterprets the same 32 bits
 * without any arithmetic. The `ToLe` functions are the matching
 * `to_le_bytes`; the lemmas say that the two are inverse bijections.
 */
module LittleEndian {
  import opened Utils

  newtype I8 = x: int | -0x80 <= x < 0x80
  newtype U16 = x: int | 0 <= x < 0x1_0000
  newtype U32 = x: int | 0 <= x < 0x1_0000_0000
  newtype I32 = x: int | -0x8000_0000 <= x < 0x8000_0000

  /** The raw bit pattern of an IEEE-754 binary32 value, read as an unsigned number; no float semantics are modelled. */
  newtype F32Bits = x: int | 0 <= x < 0x1_0000_0000

  function U8FromLe(a: seq<U8>): U8
    requires |a| == 1
  {
    a[0]
  }

  /** Two's complement reading of one byte. */
  function I8FromLe(a: seq<U8>): I8
    requires |a| == 1
  {
    var b := a[0] as int;
    (if b >= 0x80 then b - 0x100 else b) as I8
  }

  function U16FromLe(a: seq<U8>): U16
    requires |a| == 2
  {
    (a[0] as int + 0x100 * a[1] as int) as U16
  }

  function U32FromLe(a: seq<U8>): U32
    requires |a| == 4
  {
    var b0, b1, b2, b3 := a[0] as int, a[1] as int, a[2] as int, a[3] as int;
    (b0 + 0x100 * (b1 + 0x100 * (b2 + 0x100 * b3))) as U32
  }

  /** Two's complement reading of four bytes. */
  function I32FromLe(a: seq<U8>): I32
    requires |a| == 4
  {
    var u := U32FromLe(a) as int;
    (if u >= 0x8000_0000 then u - 0x1_0000_0000 else u) as I32
  }

  /** The four bytes as the bit pattern of an `f32`. */
  function F32FromLe(a: seq<U8>): F32Bits
    requires |a| == 4
  {
    U32FromLe(a) as int as F32Bits
  }

  function U8ToLe(x: U8): seq<U8> {
    [x]
  }

  function I8ToLe(x: I8): seq<U8> {
    [(if x < 0 then x as int + 0x100 else x as int) as U8]
  }

  function U16ToLe(x: U16): seq<U8> {
    var n := x as int;
    [(n % 0x100) as U8, (n / 0x100) as U8]
  }

  function U32ToLe(x: U32): seq<U8> {
    var b0, y1 := x as int % 0x100, x as int / 0x100;
    var b1, y2 := y1 % 0x100, y1 / 0x100;
    var b2, b3 := y2 % 0x100, y2 / 0x100;
    [b0 as U8, b1 as U8, b2 as U8, b3 as U8]
  }

  function I32ToLe(x: I32): seq<U8> {
    U32ToLe((if x < 0 then x as int + 0x1_0000_0000 else x as int) as U32)
  }

  function F32ToLe(bits: F32Bits): seq<U8> {
    U32ToLe(bits as int as U32)
  }

  /** Splitting a number into its low byte and the rest is undone by `lo + 0x100 * hi`. */
  lemma SplitByte(lo: int, hi: int)
    requires 0 <= lo < 0x100 && 0 <= hi
    ensures (lo + 0x100 * hi) % 0x100 == lo && (lo + 0x100 * hi) / 0x100 == hi
  {
  }

  lemma U8RoundTrip(x: U8)
    ensures |U8ToLe(x)| == 1 && U8FromLe(U8ToLe(x)) == x
  {
  }

  lemma U8BytesRoundTrip(a: seq<U8>)
    requires |a| == 1
    ensures U8ToLe(U8FromLe(a)) == a
  {
  }

  lemma I8RoundTrip(x: I8)
    ensures |I8ToLe(x)| == 1 && I8FromLe(I8ToLe(x)) == x
  {
  }

  lemma I8BytesRoundTrip(a: seq<U8>)
    requires |a| == 1
    ensures I8ToLe(I8FromLe(a)) == a
  {
  }

  lemma U16RoundTrip(x: U16)
    ensures |U16ToLe(x)| == 2 && U16FromLe(U16ToLe(x)) == x
  {
  }

  lemma U16BytesRoundTrip(a: seq<U8>)
    requires |a| == 2
    ensures U16ToLe(U16FromLe(a)) == a
  {
    SplitByte(a[0] as int, a[1] as int);
  }

  lemma U32RoundTrip(x: U32)
    ensures |U32ToLe(x)| == 4 && U32FromLe(U32ToLe(x)) == x
  {
  }

  lemma U32BytesRoundTrip(a: seq<U8>)
    requires |a| == 4
    ensures U32ToLe(U32FromLe(a)) == a
  {
    var b0, b1, b2, b3 := a[0] as int, a[1] as int, a[2] as int, a[3] as int;
    SplitByte(b2, b3);
    SplitByte(b1, b2 + 0x100 * b3);
    SplitByte(b0, b1 + 0x100 * (b2 + 0x100 * b3));
  }

  lemma I32RoundTrip(x: I32)
    ensures |I32ToLe(x)| == 4 && I32FromLe(I32ToLe(x)) == x
  {
    U32RoundTrip((if x < 0 then x as int + 0x1_0000_0000 else x as int) as U32);
  }

  lemma I32BytesRoundTrip(a: seq<U8>)
    requires |a| == 4
    ensures I32ToLe(I32FromLe(a)) == a
  {
    U32BytesRoundTrip(a);
  }

  lemma F32RoundTrip(bits: F32Bits)
    ensures |F32ToLe(bits)| == 4 && F32FromLe(F32ToLe(bits)) == bits
  {
    U32RoundTrip(bits as int as U32);
  }

  lemma F32BytesRoundTrip(a: seq<U8>)
    requires |a| == 4
    ensures F32ToLe(F32FromLe(a)) == a
  {
    U32BytesRoundTrip(a);
  }

  /** The sign of a two's complement `i32` is the top bit of its last byte. */
  lemma I32Sign(a: seq<U8>)
    requires |a| == 4
    ensures I32FromLe(a) < 0 <==> a[3] >= 0x80
  {
  }

  /** The sign of a two's complement `i8` is the top bit of its byte. */
  lemma I8Sign(a: seq<U8>)
    requires |a| == 1
    ensures I8FromLe(a) < 0 <==> a[0] >= 0x80
  {
  }
}
