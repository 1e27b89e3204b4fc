# Forza Motorsport 7 "Data Out" decoder, modelled in Dafny

The program listens for the UDP telemetry that Forza Motorsport 7 sends
out ("Data Out") and decodes each datagram into a `TelemetryData` record
with 85 fields. The decoder is `parse` in `src/forza.rs`, built on the
byte extractors `get8`, `get16` and `get32` in `src/utils.rs`. `parse`
reads each field from a constant byte range of the buffer. It reads the
ranges in declaration order, with `from_le_bytes` of the field's type:
`i32`, `u32`, `f32`, `u16`, `u8` or `i8`. The fields cover bytes
[0, 232) and [244, 323). The twelve bytes [232, 244) between
`num_cylinders` and `position_x` are not read.

The model:

- `Utils`: the extractors. A slice converts to a fixed-size array, or
  gives `LengthMismatch` where Rust's `expect` panics.
- `LittleEndian`: `from_le_bytes` and `to_le_bytes` for the six field
  types. An `f32` is kept as its 32-bit pattern.
- `Forza`: the record, the slicing `&buffer[lo..hi]` (`Slice`), one reader
  per field type (`ReadI32` … `ReadI8`) and `Parse`. The source's 85
  inline reads are written out once, as the table `LAYOUT`: one row per
  field with offset, width and kind, in declaration order. `Parse` reads
  the rows in that order and assembles the record by position (`FromFields`).
  Both panics of `parse` become an `Err`, and the first read that fails
  decides the error, as the first panic does in the source.
- `ForzaLayout`: the shape of the table. Each field is as wide as its type.
  The fields do not overlap and are packed in two runs, [0, 232) and
  [244, 323). No row reads the reserved span.
- `ForzaDecoding`: reading any table. It succeeds iff every row does,
  it then gives each row's value, and otherwise it fails with the error of
  the first failing row. A read depends only on its own bytes.
- `ForzaProperties`: what `parse` guarantees.
  - It succeeds exactly on buffers of at least 323 bytes. A shorter buffer
    fails with the slice error of the first field that does not fit.
  - Trailing bytes and the reserved span play no part.
  - Each field depends on its own bytes only.
  - The named integer fields are the little-endian readings of their bytes.
  - The all-zero and "speed 27.5" buffers parse as expected.
- `ForzaEncode`: an encoder that exists only in the model. It writes a
  record back in the wire format, with the reserved bytes supplied by the
  caller. It is proved inverse to `Parse` both ways, which states that
  `parse` loses no information and reads every byte it should exactly
  once.

A buffer shorter than 323 bytes always fails at `&buffer[lo..hi]`, before
`get32`/`get16`/`get8` is reached, so the error is `SliceOutOfRange`.
`LengthMismatch` cannot occur with this table (`ParseSucceedsIff`,
`ParseShortBuffer`, `ParseOneByteShort`). The record has 85 fields.

## Model

| member | source | states |
|---|---|---|
| Utils.Get8 | src/utils.rs:3-6 | succeeds iff the slice has exactly 1 byte, and then returns that byte unchanged; otherwise `LengthMismatch(1, len)` (the `expect` panic) |
| Utils.Get16 | src/utils.rs:8-11 | succeeds iff the slice has exactly 2 bytes, and then returns them in their original order; otherwise `LengthMismatch(2, len)` |
| Utils.Get32 | src/utils.rs:13-16 | succeeds iff the slice has exactly 4 bytes, and then returns them in their original order; otherwise `LengthMismatch(4, len)` |
| LittleEndian.I32RoundTrip | src/forza.rs:121 | `i32::from_le_bytes` undoes `to_le_bytes` for every `i32` |
| LittleEndian.I32BytesRoundTrip | src/forza.rs:121 | `to_le_bytes` undoes `i32::from_le_bytes` for every 4 bytes, so the reading is a bijection |
| LittleEndian.I32Sign | src/forza.rs:121 | an `i32` read in two's complement is negative iff the top bit of its last byte is set |
| LittleEndian.U32RoundTrip | src/forza.rs:122 | `u32::from_le_bytes` undoes `to_le_bytes` for every `u32` |
| LittleEndian.U32BytesRoundTrip | src/forza.rs:122 | `to_le_bytes` undoes `u32::from_le_bytes` for every 4 bytes |
| LittleEndian.F32RoundTrip | src/forza.rs:123 | `f32::from_le_bytes` undoes `to_le_bytes` on every bit pattern |
| LittleEndian.F32BytesRoundTrip | src/forza.rs:123 | `to_le_bytes` undoes `f32::from_le_bytes` for every 4 bytes |
| LittleEndian.U16RoundTrip | src/forza.rs:196 | `u16::from_le_bytes` undoes `to_le_bytes` for every `u16` |
| LittleEndian.U16BytesRoundTrip | src/forza.rs:196 | `to_le_bytes` undoes `u16::from_le_bytes` for every 2 bytes |
| LittleEndian.U8RoundTrip | src/forza.rs:202 | `u8::from_le_bytes` undoes `to_le_bytes` for every `u8` |
| LittleEndian.U8BytesRoundTrip | src/forza.rs:202 | `to_le_bytes` undoes `u8::from_le_bytes` for every byte |
| LittleEndian.I8RoundTrip | src/forza.rs:203 | `i8::from_le_bytes` undoes `to_le_bytes` for every `i8` |
| LittleEndian.I8BytesRoundTrip | src/forza.rs:203 | `to_le_bytes` undoes `i8::from_le_bytes` for every byte |
| LittleEndian.I8Sign | src/forza.rs:203-205 | an `i8` read in two's complement is negative iff the byte's top bit is set |
| Forza.Slice | src/forza.rs:121 | `&buffer[lo..hi]` succeeds iff `lo <= hi <= len`, and then is exactly those bytes; otherwise `SliceOutOfRange(lo, hi, len)` |
| Forza.ReadI32 | src/forza.rs:121 | `i32::from_le_bytes(get32(&buffer[lo..hi]))` succeeds iff the slice is in range and 4 bytes long, with the two's complement reading as its value; the error is the slice's if it is out of range, else the extractor's |
| Forza.ReadU32 | src/forza.rs:122 | the same for `u32`: succeeds iff the slice is in range and 4 bytes long, with the unsigned reading as its value |
| Forza.ReadF32 | src/forza.rs:123 | the same for `f32`: succeeds iff the slice is in range and 4 bytes long, with the bit pattern of the 4 bytes as its value |
| Forza.ReadU16 | src/forza.rs:196 | the same for `u16` with `get16`: succeeds iff the slice is in range and 2 bytes long |
| Forza.ReadU8 | src/forza.rs:202 | the same for `u8` with `get8`: succeeds iff the slice is in range and 1 byte long, and the value is that byte |
| Forza.ReadI8 | src/forza.rs:203 | the same for `i8` with `get8`: succeeds iff the slice is in range and 1 byte long, with the two's complement reading as its value |
| Forza.DecodeField | src/forza.rs:121-205 | one field of the struct expression: succeeds iff the field fits the buffer and its width is its type's, with a value of the field's type; otherwise it fails as its reader does |
| Forza.DecodeFields | src/forza.rs:120-206 | a successful read of a table yields one value per row, each of the row's type |
| Forza.FromFieldsFields | src/forza.rs:120-206 | listing a record as 85 values, value `k` being the `k`-th declared field, and assembling a record from them by position gives the record back |
| Forza.FieldsFromFields | src/forza.rs:120-206 | 85 values of the declared types are the values of the record assembled from them |
| Forza.FieldsDetermine | src/forza.rs:6-117 | two records with equal fields at every index are equal |
| Forza.NamedFields | src/forza.rs:7-116 | indices 0, 1, 54, 61, 75, 81, 82, 83 and 84 are `is_race_on`, `timestamp_ms`, `car_class`, `speed`, `lap_number`, `gear`, `steer`, `normalized_driving_line` and `normalized_ai_brake_difference` |
| Forza.SpeedUpdate | src/forza.rs:87 | replacing `speed` changes field 61 and no other field |
| Forza.SpeedChange | src/forza.rs:87 | a record that differs from another at most in field 61 is the other with a new `speed` |
| ForzaLayout.ChainFromAll | src/forza.rs:121-205 | the row-by-row check of the table gives kinds, widths and offsets of every row |
| ForzaLayout.AscendingOrdered | src/forza.rs:121-205 | if each row starts after the previous one ends, then every row ends before any later row starts |
| ForzaLayout.PackedCoverage | src/forza.rs:121-205 | a packed table covers exactly the bytes from its first offset to its last end |
| ForzaLayout.OrderedDisjoint | src/forza.rs:121-205 | two rows of an ordered table never share a byte |
| ForzaLayout.OrderedRegions | src/forza.rs:178-179 | in an ordered table split at `m`, rows before the split end by the end of row `m - 1`, rows after it start at row `m` or later, and no row ends past the last one |
| ForzaLayout.SplitCoverage | src/forza.rs:178-179 | a byte is covered by the table iff it is covered by one of the two parts of a split |
| ForzaLayout.LayoutWidths | src/forza.rs:121-205 | the table has 85 rows, each as wide as the type of its field |
| ForzaLayout.LayoutKinds | src/forza.rs:121-205 | row `k` has the type of field `k` |
| ForzaLayout.LayoutNamedRows | src/forza.rs:121-205 | the exact rows of `is_race_on` [0,4) i32, `timestamp_ms` [4,8) u32, `car_class` [216,220) i32, `speed` [256,260) f32, `lap_number` [312,314) u16, `gear` [319,320) u8 and the three `i8` inputs [320,323) |
| ForzaLayout.LayoutBounds | src/forza.rs:121-205 | the first field starts at 0, `num_cylinders` ends at 232, `position_x` starts at 244, and the last field ends at 323 |
| ForzaLayout.LayoutWellFormed | src/forza.rs:121-205 | the whole layout is sound: 85 rows, widths by type, kinds in declaration order, ordered without overlap, packed from 0 to 232 and from 244 to 323 |
| ForzaLayout.LayoutRegions | src/forza.rs:121-205 | fields up to `num_cylinders` lie in [0, 232), the rest in [244, 323), and none reaches past 323 |
| ForzaLayout.LayoutCoverage | src/forza.rs:121-205 | a byte is read by some field iff it lies in [0, 232) or [244, 323), both directions; in particular no field reads [232, 244) |
| ForzaLayout.LayoutDisjoint | src/forza.rs:121-205 | no byte is read by two fields |
| ForzaDecoding.DecodeFieldsSpec | src/forza.rs:120-206 | reading a table succeeds iff every row's read does; it then yields each row's value in order, and otherwise fails with the error of the first failing row |
| ForzaDecoding.DecodeFieldsOk | src/forza.rs:120-206 | if every row reads as the matching value, the table reads as exactly those values |
| ForzaDecoding.DecodeFieldsRows | src/forza.rs:120-206 | a table that reads as some values has one per row and reads each row as the matching one |
| ForzaDecoding.DecodeFieldsCongruent | src/forza.rs:120-206 | two buffers on which every row reads the same give the same result, success or error |
| ForzaDecoding.DecodeFieldLocal | src/forza.rs:121-205 | a read depends only on the buffer's length and on the field's own bytes |
| ForzaDecoding.DecodeFieldTruncate | src/forza.rs:121-205 | cutting the buffer anywhere after a field's end does not change that field's read |
| ForzaDecoding.DecodeFieldsSucceedsIff | src/forza.rs:120-206 | a table whose rows end by `size`, one of them at `size`, reads successfully iff the buffer has at least `size` bytes |
| ForzaDecoding.DecodeInt32 | src/forza.rs:121 | an `i32` row reads the two's complement value of its 4 bytes |
| ForzaDecoding.DecodeUInt32 | src/forza.rs:122 | a `u32` row reads the unsigned value of its 4 bytes |
| ForzaDecoding.DecodeFloat32 | src/forza.rs:182 | an `f32` row reads the bit pattern of its 4 bytes |
| ForzaDecoding.DecodeUInt16 | src/forza.rs:196 | a `u16` row reads `b[lo] + 256 * b[lo + 1]` |
| ForzaDecoding.DecodeUInt8 | src/forza.rs:202 | a `u8` row reads its byte |
| ForzaDecoding.DecodeInt8 | src/forza.rs:203-205 | an `i8` row reads its byte in two's complement |
| ForzaDecoding.DecodeZero | src/forza.rs:121-205 | a field whose bytes are zero reads as zero, whatever its type |
| ForzaDecoding.DecodeAllZero | src/forza.rs:121-205 | in an all-zero buffer every row that fits reads successfully as zero |
| ForzaProperties.ParseSucceedsIff | src/forza.rs:119-207 | `parse` succeeds iff the buffer has at least 323 bytes, both directions |
| ForzaProperties.ParseFields | src/forza.rs:119-207 | on a buffer of at least 323 bytes, field `k` of the result is the read of row `k` of the table, for every `k` |
| ForzaProperties.ParseField | src/forza.rs:119-207 | the same for a single field `k` |
| ForzaProperties.ParseShortBuffer | src/forza.rs:119-207 | a buffer shorter than 323 bytes fails with `SliceOutOfRange` of the first field, in declaration order, that reaches past its end; every earlier field fits |
| ForzaProperties.ParseOneByteShort | src/forza.rs:205 | a 322-byte buffer fails at `normalized_ai_brake_difference` with `SliceOutOfRange(322, 323, 322)` |
| ForzaProperties.ParseIgnoresTrailing | src/forza.rs:119-207 | only the first 323 bytes matter: the buffer parses like its 323-byte prefix |
| ForzaProperties.ParseDependsOnPrefix | src/forza.rs:119-207 | two buffers of at least 323 bytes that share their first 323 bytes parse the same |
| ForzaProperties.ParseIgnoresReserved | src/forza.rs:178-179 | two buffers of the same length that differ only in [232, 244) parse to the same result, success or error |
| ForzaProperties.ParseIsolatesField | src/forza.rs:121-205 | two buffers that differ only in the bytes of field `k` give records that agree on every other field |
| ForzaProperties.SpeedIsolation | src/forza.rs:182 | changing bytes [256, 260) changes only `speed`, which becomes the bit pattern of those bytes in little-endian order |
| ForzaProperties.IsRaceOnReading | src/forza.rs:121 | `is_race_on` is the two's complement value of bytes 0..4, least significant first |
| ForzaProperties.TimestampReading | src/forza.rs:122 | `timestamp_ms` is the unsigned value of bytes 4..8, least significant first |
| ForzaProperties.LapAndGearReading | src/forza.rs:196-202 | `lap_number` is `b[312] + 256 * b[313]` and `gear` is `b[319]` |
| ForzaProperties.SignedInputsReading | src/forza.rs:203-205 | `steer`, `normalized_driving_line` and `normalized_ai_brake_difference` are bytes 320, 321 and 322 in two's complement |
| ForzaProperties.ZeroBuffer | src/forza.rs:119-207 | an all-zero buffer of at least 323 bytes parses to the record whose every field is zero, so `is_race_on`, `car_class`, `gear` and `speed` are zero |
| ForzaProperties.SpeedScenario | src/forza.rs:182 | a buffer of zeros with the bytes of `27.5f32` (00 00 DC 41) at 256 parses with `speed` holding the bits 0x41DC0000 and every other field zero |
| ForzaEncode.EncodeValue | src/forza.rs:121-205 | a value is written as exactly as many bytes as its type is wide |
| ForzaEncode.DecodeEncodedValue | src/forza.rs:121-205 | a row whose bytes are a value's encoding reads back as that value |
| ForzaEncode.EncodeDecodedValue | src/forza.rs:121-205 | encoding a row's read gives back the row's bytes |
| ForzaEncode.EncodeFieldsLength | src/forza.rs:121-205 | the encoding of a packed run of values is as long as the run's span |
| ForzaEncode.DecodeEncodedFields | src/forza.rs:121-205 | placed at a packed run's first offset, the encoding of its values reads back row by row, whatever surrounds it |
| ForzaEncode.DecodeEncodedRun | src/forza.rs:121-205 | the same for the rows `lo..hi` of a larger table |
| ForzaEncode.EncodeDecodedRun | src/forza.rs:121-205 | encoding what a packed run of rows read gives back the run's bytes |
| ForzaEncode.TwoRunsDecode | src/forza.rs:120-206 | for a table of two packed runs with a gap between them, writing the values with any gap bytes and reading the table gives the values |
| ForzaEncode.TwoRunsEncode | src/forza.rs:120-206 | for the same tables, writing back what was read, with the gap bytes kept, gives the buffer up to the table's end |
| ForzaEncode.LayoutTwoRuns | src/forza.rs:178-179 | the layout of `parse` is such a table: two runs 12 bytes apart, ending at 323 |
| ForzaEncode.EncodeShape | src/forza.rs:119-207 | the encoding of a record is 323 bytes long and carries the reserved bytes at [232, 244) |
| ForzaEncode.ParseEncode | src/forza.rs:119-207 | round trip: parsing the encoding of any record, with any reserved bytes, gives the record back |
| ForzaEncode.EncodeDecoded | src/forza.rs:119-207 | a record whose values are what the table reads from a buffer, encoded with that buffer's reserved bytes, gives back the buffer's first 323 bytes |
| ForzaEncode.DecodedRecord | src/forza.rs:119-207 | `parse` returns the record assembled from what the table reads, and that record's values are those reads |
| ForzaEncode.EncodeParse | src/forza.rs:119-207 | round trip: for every buffer of at least 323 bytes, encoding the parse result with the buffer's reserved bytes gives back its first 323 bytes |

## Left out

- `src/main.rs` is not part of this model. It binds a UDP socket on
  0.0.0.0:7878 and spawns a thread per datagram. Each thread prints speed
  in km/h, engine rpm and gear; a receive error is printed and ends the
  loop. These are network, thread and console I/O.
- `main.rs` hands the decoder `buf[..amt]`, which can be shorter than 323
  bytes. The decoder's side of that is `ParseShortBuffer`; the thread's
  panic and its effect on the program are not modelled.
- IEEE-754 semantics are not modelled. An `f32` field is its 32-bit
  pattern, which is what `f32::from_le_bytes` produces. So "speed is 27.5"
  is stated as "speed holds the bits 0x41DC0000". The round trips are
  bit for bit, which is stronger than equality of floats (NaN values
  compare unequal as floats).
- Panics are modelled as `Err` values. Unwinding and the death of the
  calling thread are not modelled.
- `parse`'s 85 inline reads are modelled as a walk over the table
  `LAYOUT` that performs the same reads in the same order. The table's
  rows copy the source's slice bounds and types.
- Totality and determinism of `parse` are not stated as lemmas. Every Dafny
  function is total on its domain and deterministic by construction.
- Physical meaning and ranges of the fields are not modelled, for
  example `car_class` between 0 and 7 or `is_race_on` being 0 or 1. The
  source does not check them.
- `get8`, `get16` and `get32` are modelled on byte sequences; Rust's
  fixed-size arrays are sequences of the array's length.
- `ForzaEncode` has no counterpart in the source. It is the partner
  against which `Parse` is shown to lose nothing.
