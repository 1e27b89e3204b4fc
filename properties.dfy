/**
 * What `parse` in src/forza.rs guarantees: it succeeds exactly on buffers
 * of at least 323 bytes, a shorter buffer fails at the first field that
 * does not fit, bytes past 323 and the reserved span [232, 244) play no
 * part, each field is read from its own bytes only, and the integer fields
 * are the little-endian readings of their bytes.
 */
module ForzaProperties {
  import opened Wrappers
  import opened Utils
  import opened LittleEndian
  import opened Forza
  import opened ForzaLayout
  import opened ForzaDecoding

  /** Indices into `LAYOUT` of the fields the properties below single out. */
  const IS_RACE_ON: nat := 0
  const TIMESTAMP_MS: nat := 1
  const CAR_CLASS: nat := 54
  const SPEED: nat := 61
  const LAP_NUMBER: nat := 75
  const GEAR: nat := 81

  /** Parsing succeeds iff the buffer holds at least 323 bytes. */
  lemma ParseSucceedsIff(buffer: seq<U8>)
    ensures Parse(buffer).Ok? <==> |buffer| >= MESSAGE_SIZE
  {
    LayoutWidths();
    LayoutRegions();
    LayoutBounds();
    DecodeFieldsSucceedsIff(buffer, LAYOUT, MESSAGE_SIZE);
  }

  /** The bridge between `Parse` and its table: field `k` of the result is the read of row `k`. */
  lemma ParseFields(buffer: seq<U8>)
    requires |buffer| >= MESSAGE_SIZE
    ensures Parse(buffer).Ok?
    ensures forall k :: 0 <= k < FIELD_COUNT ==> DecodeField(buffer, LAYOUT[k]) == Ok(FieldAt(Parse(buffer).value, k))
  {
    ParseSucceedsIff(buffer);
    DecodeFieldsSpec(buffer, LAYOUT);
    var vs := DecodeFields(buffer, LAYOUT).value;
    LayoutKinds();
    FieldsFromFields(vs);
  }

  /**
   * A buffer shorter than 323 bytes fails with the slice error of the
   * first field, in declaration order, that reaches past its end; the
   * extractors never fail, since every slice has its type's width.
   */
  lemma ParseShortBuffer(buffer: seq<U8>)
    requires |buffer| < MESSAGE_SIZE
    ensures exists k :: 0 <= k < FIELD_COUNT &&
              |buffer| < End(LAYOUT[k]) &&
              (forall j :: 0 <= j < k ==> End(LAYOUT[j]) <= |buffer|) &&
              Parse(buffer) == Err(SliceOutOfRange(LAYOUT[k].offset, End(LAYOUT[k]), |buffer|))
  {
    LayoutWidths();
    ParseSucceedsIff(buffer);
    DecodeFieldsSpec(buffer, LAYOUT);
    var k :| FirstFailure(buffer, LAYOUT, k) &&
             DecodeFields(buffer, LAYOUT).error == DecodeField(buffer, LAYOUT[k]).error;
    assert forall j :: 0 <= j < k ==> End(LAYOUT[j]) <= |buffer| by {
      forall j | 0 <= j < k ensures End(LAYOUT[j]) <= |buffer| {
        assert DecodeField(buffer, LAYOUT[j]).Ok?;
      }
    }
  }

  /** A 322-byte buffer fails at `normalized_ai_brake_difference`, the slice [322, 323). */
  lemma ParseOneByteShort(buffer: seq<U8>)
    requires |buffer| == MESSAGE_SIZE - 1
    ensures Parse(buffer) == Err(SliceOutOfRange(322, 323, 322))
  {
    LayoutWellFormed();
    assert forall j :: 0 <= j < FIELD_COUNT - 1 ==> End(LAYOUT[j]) <= LAYOUT[FIELD_COUNT - 1].offset;
    ParseShortBuffer(buffer);
  }

  /** Only the first 323 bytes matter: whatever follows them is ignored. */
  lemma ParseIgnoresTrailing(buffer: seq<U8>)
    requires |buffer| >= MESSAGE_SIZE
    ensures Parse(buffer) == Parse(buffer[..MESSAGE_SIZE])
  {
    LayoutRegions();
    var prefix := buffer[..MESSAGE_SIZE];
    forall k | 0 <= k < FIELD_COUNT ensures DecodeField(buffer, LAYOUT[k]) == DecodeField(prefix, LAYOUT[k]) {
      DecodeFieldTruncate(buffer, MESSAGE_SIZE, LAYOUT[k]);
    }
    DecodeFieldsCongruent(buffer, prefix, LAYOUT);
  }

  /** Two buffers of at least 323 bytes that agree on their first 323 bytes parse the same. */
  lemma ParseDependsOnPrefix(b: seq<U8>, c: seq<U8>)
    requires |b| >= MESSAGE_SIZE && |c| >= MESSAGE_SIZE
    requires b[..MESSAGE_SIZE] == c[..MESSAGE_SIZE]
    ensures Parse(b) == Parse(c)
  {
    ParseIgnoresTrailing(b);
    ParseIgnoresTrailing(c);
  }

  /**
   * The reserved span is inert: two buffers of the same length that differ
   * only in bytes [232, 244) parse to the same result, success or error.
   */
  lemma ParseIgnoresReserved(b: seq<U8>, c: seq<U8>)
    requires |b| == |c|
    requires forall p :: 0 <= p < |b| && !(RESERVED_START <= p < RESERVED_END) ==> b[p] == c[p]
    ensures Parse(b) == Parse(c)
  {
    LayoutRegions();
    forall k | 0 <= k < FIELD_COUNT ensures DecodeField(b, LAYOUT[k]) == DecodeField(c, LAYOUT[k]) {
      DecodeFieldLocal(b, c, LAYOUT[k]);
    }
    DecodeFieldsCongruent(b, c, LAYOUT);
  }

  /**
   * Field isolation: two buffers that differ only in the bytes of field
   * `k` parse to records that agree on every other field.
   */
  lemma ParseIsolatesField(b: seq<U8>, c: seq<U8>, k: int)
    requires |b| == |c| >= MESSAGE_SIZE
    requires 0 <= k < FIELD_COUNT
    requires forall p :: 0 <= p < |b| && !Covers(LAYOUT[k], p) ==> b[p] == c[p]
    ensures Parse(b).Ok? && Parse(c).Ok?
    ensures forall j :: 0 <= j < FIELD_COUNT && j != k ==> FieldAt(Parse(c).value, j) == FieldAt(Parse(b).value, j)
    ensures DecodeField(c, LAYOUT[k]) == Ok(FieldAt(Parse(c).value, k))
  {
    ParseFields(b);
    ParseFields(c);
    forall j | 0 <= j < FIELD_COUNT && j != k
      ensures FieldAt(Parse(c).value, j) == FieldAt(Parse(b).value, j)
    {
      forall p | 0 <= p < |b| && Covers(LAYOUT[j], p) ensures b[p] == c[p] {
        if Covers(LAYOUT[k], p) {
          LayoutDisjoint(j, k, p);
        }
      }
      DecodeFieldLocal(b, c, LAYOUT[j]);
    }
  }

  /**
   * Speed isolation: changing bytes [256, 260) of a buffer changes only
   * `speed`, which becomes the `f32` whose bits are those four bytes in
   * little-endian order.
   */
  lemma SpeedIsolation(b: seq<U8>, c: seq<U8>)
    requires |b| == |c| >= MESSAGE_SIZE
    requires forall p :: 0 <= p < |b| && !(256 <= p < 260) ==> b[p] == c[p]
    ensures Parse(b).Ok? && Parse(c).Ok?
    ensures Parse(c).value == Parse(b).value.(speed := F32FromLe(c[256..260]))
  {
    LayoutNamedRows();
    ParseIsolatesField(b, c, SPEED);
    DecodeFloat32(c, LAYOUT[SPEED]);
    SpeedChange(Parse(b).value, Parse(c).value, F32FromLe(c[256..260]));
  }

  /** One field of the bridge: field `k` of the parsed record is the read of row `k`. */
  lemma ParseField(buffer: seq<U8>, k: int)
    requires |buffer| >= MESSAGE_SIZE
    requires 0 <= k < FIELD_COUNT
    ensures Parse(buffer).Ok?
    ensures DecodeField(buffer, LAYOUT[k]) == Ok(FieldAt(Parse(buffer).value, k))
  {
    ParseFields(buffer);
  }

  /** `is_race_on` is the two's complement reading of bytes 0..4, least significant first. */
  lemma IsRaceOnReading(buffer: seq<U8>)
    requires |buffer| >= MESSAGE_SIZE
    ensures Parse(buffer).Ok?
    ensures var u := buffer[0] as int + 0x100 * buffer[1] as int + 0x1_0000 * buffer[2] as int + 0x100_0000 * buffer[3] as int;
            Parse(buffer).value.isRaceOn as int == if u >= 0x8000_0000 then u - 0x1_0000_0000 else u
  {
    LayoutNamedRows();
    ParseField(buffer, IS_RACE_ON);
    DecodeInt32(buffer, LAYOUT[IS_RACE_ON]);
    NamedFields(Parse(buffer).value);
  }

  /** `timestamp_ms` is bytes 4..8 read as an unsigned number, least significant first. */
  lemma TimestampReading(buffer: seq<U8>)
    requires |buffer| >= MESSAGE_SIZE
    ensures Parse(buffer).Ok?
    ensures Parse(buffer).value.timestampMs as int ==
            buffer[4] as int + 0x100 * buffer[5] as int + 0x1_0000 * buffer[6] as int + 0x100_0000 * buffer[7] as int
  {
    LayoutNamedRows();
    ParseField(buffer, TIMESTAMP_MS);
    DecodeUInt32(buffer, LAYOUT[TIMESTAMP_MS]);
    NamedFields(Parse(buffer).value);
  }

  /** `lap_number` is `buffer[312] + 256 * buffer[313]`, and `gear` is `buffer[319]`. */
  lemma LapAndGearReading(buffer: seq<U8>)
    requires |buffer| >= MESSAGE_SIZE
    ensures Parse(buffer).Ok?
    ensures Parse(buffer).value.lapNumber as int == buffer[312] as int + 0x100 * buffer[313] as int
    ensures Parse(buffer).value.gear == buffer[319]
  {
    LayoutNamedRows();
    ParseField(buffer, LAP_NUMBER);
    DecodeUInt16(buffer, LAYOUT[LAP_NUMBER]);
    ParseField(buffer, GEAR);
    DecodeUInt8(buffer, LAYOUT[GEAR]);
    NamedFields(Parse(buffer).value);
  }

  /** `steer`, `normalized_driving_line` and `normalized_ai_brake_difference` are bytes 320, 321 and 322 in two's complement. */
  lemma SignedInputsReading(buffer: seq<U8>)
    requires |buffer| >= MESSAGE_SIZE
    ensures Parse(buffer).Ok?
    ensures Parse(buffer).value.steer == I8FromLe([buffer[320]])
    ensures Parse(buffer).value.normalizedDrivingLine == I8FromLe([buffer[321]])
    ensures Parse(buffer).value.normalizedAiBrakeDifference == I8FromLe([buffer[322]])
  {
    LayoutNamedRows();
    ParseField(buffer, 82);
    DecodeInt8(buffer, LAYOUT[82]);
    ParseField(buffer, 83);
    DecodeInt8(buffer, LAYOUT[83]);
    ParseField(buffer, 84);
    DecodeInt8(buffer, LAYOUT[84]);
    NamedFields(Parse(buffer).value);
  }

  /** An all-zero buffer parses to the record whose every field is zero. */
  lemma ZeroBuffer(buffer: seq<U8>)
    requires |buffer| >= MESSAGE_SIZE
    requires forall p :: 0 <= p < |buffer| ==> buffer[p] == 0
    ensures Parse(buffer).Ok?
    ensures forall k :: 0 <= k < FIELD_COUNT ==> IsZero(FieldAt(Parse(buffer).value, k))
    ensures var t := Parse(buffer).value;
            t.isRaceOn == 0 && t.carClass == 0 && t.gear == 0 && t.speed == 0
  {
    ParseSucceedsIff(buffer);
    LayoutWidths();
    LayoutRegions();
    DecodeAllZero(buffer, LAYOUT);
    forall k | 0 <= k < FIELD_COUNT ensures IsZero(FieldAt(Parse(buffer).value, k)) {
      ParseField(buffer, k);
    }
    NamedFields(Parse(buffer).value);
    assert IsZero(FieldAt(Parse(buffer).value, IS_RACE_ON));
    assert IsZero(FieldAt(Parse(buffer).value, CAR_CLASS));
    assert IsZero(FieldAt(Parse(buffer).value, GEAR));
    assert IsZero(FieldAt(Parse(buffer).value, SPEED));
  }

  /**
   * A buffer of zeros except for bytes [0x00, 0x00, 0xDC, 0x41] at offset
   * 256 (the bits of the `f32` 27.5): `speed` holds the bits 0x41DC0000
   * and every other field is zero.
   */
  lemma SpeedScenario(buffer: seq<U8>)
    requires |buffer| >= MESSAGE_SIZE
    requires buffer[256..260] == [0x00, 0x00, 0xDC, 0x41]
    requires forall p :: 0 <= p < |buffer| && !(256 <= p < 260) ==> buffer[p] == 0
    ensures Parse(buffer).Ok?
    ensures Parse(buffer).value.speed == 0x41DC_0000
    ensures forall k :: 0 <= k < FIELD_COUNT && k != SPEED ==> IsZero(FieldAt(Parse(buffer).value, k))
  {
    var zeros := seq(|buffer|, p => 0 as U8);
    ZeroBuffer(zeros);
    LayoutNamedRows();
    ParseIsolatesField(zeros, buffer, SPEED);
    DecodeFloat32(buffer, LAYOUT[SPEED]);
    NamedFields(Parse(buffer).value);
  }
}
