/**
 * The inverse of `parse`: a record written back in the wire format, each
 * field to its own bytes in little-endian order, with the twelve reserved
 * bytes supplied by the caller. The source has no encoder; this one exists
 * to state that `parse` loses nothing: parsing an encoding gives the record
 * back, and encoding a parse gives back the first 323 bytes.
 */
module ForzaEncode {
  import opened Wrappers
  import opened Utils
  import opened LittleEndian
  import opened Forza
  import opened ForzaLayout
  import opened ForzaDecoding
  import opened ForzaProperties

  /** The kind of a value. */
  function ValueKind(v: Value): (k: Kind)
    ensures HasKind(v, k)
  {
    match v
    case I32Value(_) => Int32
    case U32Value(_) => UInt32
    case F32Value(_) => Float32
    case U16Value(_) => UInt16
    case U8Value(_) => UInt8
    case I8Value(_) => Int8
  }

  /** `to_le_bytes` of the value. */
  function EncodeValue(v: Value): (bytes: seq<U8>)
    ensures |bytes| == Width(ValueKind(v))
  {
    match v
    case I32Value(x) => I32RoundTrip(x); I32ToLe(x)
    case U32Value(x) => U32RoundTrip(x); U32ToLe(x)
    case F32Value(x) => F32RoundTrip(x); F32ToLe(x)
    case U16Value(x) => U16RoundTrip(x); U16ToLe(x)
    case U8Value(x) => U8RoundTrip(x); U8ToLe(x)
    case I8Value(x) => I8RoundTrip(x); I8ToLe(x)
  }

  /** The values written one after the other. */
  function EncodeFields(vs: seq<Value>): seq<U8>
  {
    if vs == [] then [] else EncodeValue(vs[0]) + EncodeFields(vs[1..])
  }

  /** A record in the wire format: the fields before the reserved span, the reserved bytes, the fields after it. */
  function Encode(t: TelemetryData, reserved: seq<U8>): seq<U8>
    requires |reserved| == RESERVED_END - RESERVED_START
  {
    var vs := Fields(t);
    EncodeFields(vs[..DASH_START]) + reserved + EncodeFields(vs[DASH_START..])
  }

  /** Reading a field back from its encoding gives the value. */
  lemma DecodeEncodedValue(b: seq<U8>, f: FieldSpec, v: Value)
    requires HasKind(v, f.kind) && f.width == Width(f.kind) && End(f) <= |b|
    requires b[f.offset..End(f)] == EncodeValue(v)
    ensures DecodeField(b, f) == Ok(v)
  {
    match v
    case I32Value(x) => I32RoundTrip(x);
    case U32Value(x) => U32RoundTrip(x);
    case F32Value(x) => F32RoundTrip(x);
    case U16Value(x) => U16RoundTrip(x);
    case U8Value(x) => U8RoundTrip(x);
    case I8Value(x) => I8RoundTrip(x);
  }

  /** Encoding the value read from a field gives back the field's bytes. */
  lemma EncodeDecodedValue(b: seq<U8>, f: FieldSpec)
    requires f.width == Width(f.kind) && End(f) <= |b|
    ensures EncodeValue(DecodeField(b, f).value) == b[f.offset..End(f)]
  {
    var s := b[f.offset..End(f)];
    match f.kind
    case Int32 => I32BytesRoundTrip(s);
    case UInt32 => U32BytesRoundTrip(s);
    case Float32 => F32BytesRoundTrip(s);
    case UInt16 => U16BytesRoundTrip(s);
    case UInt8 => U8BytesRoundTrip(s);
    case Int8 => I8BytesRoundTrip(s);
  }

  /** The encoding of values of the kinds of a packed table is as long as the table's span. */
  lemma {:induction false} EncodeFieldsLength(vs: seq<Value>, fields: seq<FieldSpec>)
    requires HaveKinds(vs, fields) && WidthsMatch(fields) && Packed(fields) && |fields| > 0
    ensures |EncodeFields(vs)| == End(fields[|fields| - 1]) - fields[0].offset
    decreases |fields|
  {
    assert ValueKind(vs[0]) == fields[0].kind;
    if |fields| > 1 {
      var tail, vtail := fields[1..], vs[1..];
      TailShape(vs, fields);
      EncodeFieldsLength(vtail, tail);
      assert tail[|tail| - 1] == fields[|fields| - 1];
    }
  }

  /** Dropping the first row keeps a table packed, its widths matched and its values of the right kinds. */
  lemma TailShape(vs: seq<Value>, fields: seq<FieldSpec>)
    requires HaveKinds(vs, fields) && WidthsMatch(fields) && Packed(fields) && |fields| > 0
    ensures HaveKinds(vs[1..], fields[1..]) && WidthsMatch(fields[1..]) && Packed(fields[1..])
  {
    var tail, vtail := fields[1..], vs[1..];
    forall k | 0 < k < |tail| ensures tail[k].offset == End(tail[k - 1]) {
      assert tail[k] == fields[k + 1] && tail[k - 1] == fields[k];
    }
    forall k | 0 <= k < |vtail| ensures HasKind(vtail[k], tail[k].kind) && tail[k].width == Width(tail[k].kind) {
      assert vtail[k] == vs[k + 1] && tail[k] == fields[k + 1];
    }
  }

  /**
   * Placed at the first row's offset, the encoding of values of a packed
   * table's kinds reads back row by row as those values, whatever bytes
   * surround it.
   */
  lemma {:induction false} DecodeEncodedFields(pre: seq<U8>, vs: seq<Value>, post: seq<U8>, fields: seq<FieldSpec>)
    requires HaveKinds(vs, fields) && WidthsMatch(fields) && Packed(fields) && |fields| > 0
    requires |pre| == fields[0].offset
    ensures forall k :: 0 <= k < |fields| ==> DecodeField(pre + EncodeFields(vs) + post, fields[k]) == Ok(vs[k])
    decreases |fields|
  {
    DecodeEncodedHead(pre, vs, post, fields);
    if |fields| > 1 {
      var b, pre' := pre + EncodeFields(vs) + post, pre + EncodeValue(vs[0]);
      TailShape(vs, fields);
      DecodeEncodedFields(pre', vs[1..], post, fields[1..]);
      forall k | 0 < k < |fields| ensures DecodeField(b, fields[k]) == Ok(vs[k]) {
        assert fields[k] == fields[1..][k - 1] && vs[k] == vs[1..][k - 1];
      }
    }
  }

  /** The first value of an encoding reads back from the first row, and the rest of the encoding starts where that row ends. */
  lemma DecodeEncodedHead(pre: seq<U8>, vs: seq<Value>, post: seq<U8>, fields: seq<FieldSpec>)
    requires HaveKinds(vs, fields) && WidthsMatch(fields) && |fields| > 0
    requires |pre| == fields[0].offset
    ensures DecodeField(pre + EncodeFields(vs) + post, fields[0]) == Ok(vs[0])
    ensures |pre + EncodeValue(vs[0])| == End(fields[0])
    ensures pre + EncodeFields(vs) + post == (pre + EncodeValue(vs[0])) + EncodeFields(vs[1..]) + post
  {
    var head := EncodeValue(vs[0]);
    var b := pre + EncodeFields(vs) + post;
    assert ValueKind(vs[0]) == fields[0].kind;
    assert b == pre + head + (EncodeFields(vs[1..]) + post);
    assert b[|pre|..|pre| + |head|] == head;
    DecodeEncodedValue(b, fields[0], vs[0]);
  }

  /** A run of rows of a table keeps its widths and its values' kinds. */
  lemma RunShape(vs: seq<Value>, fields: seq<FieldSpec>, lo: int, hi: int)
    requires HaveKinds(vs, fields) && WidthsMatch(fields)
    requires 0 <= lo <= hi <= |fields|
    ensures HaveKinds(vs[lo..hi], fields[lo..hi]) && WidthsMatch(fields[lo..hi])
  {
    var run, vrun := fields[lo..hi], vs[lo..hi];
    forall k | 0 <= k < |run| ensures HasKind(vrun[k], run[k].kind) && run[k].width == Width(run[k].kind) {
      assert vrun[k] == vs[lo + k] && run[k] == fields[lo + k];
    }
  }

  /** The rows `lo..hi` of a table, packed, read back the encoding of their values placed at the run's first offset. */
  lemma DecodeEncodedRun(pre: seq<U8>, vs: seq<Value>, post: seq<U8>, fields: seq<FieldSpec>, lo: int, hi: int)
    requires HaveKinds(vs, fields) && WidthsMatch(fields)
    requires 0 <= lo < hi <= |fields| && Packed(fields[lo..hi])
    requires |pre| == fields[lo].offset
    ensures forall k :: lo <= k < hi ==> DecodeField(pre + EncodeFields(vs[lo..hi]) + post, fields[k]) == Ok(vs[k])
  {
    var run, vrun := fields[lo..hi], vs[lo..hi];
    RunShape(vs, fields, lo, hi);
    assert run[0] == fields[lo];
    DecodeEncodedFields(pre, vrun, post, run);
    forall k | lo <= k < hi ensures DecodeField(pre + EncodeFields(vrun) + post, fields[k]) == Ok(vs[k]) {
      assert fields[k] == run[k - lo] && vs[k] == vrun[k - lo];
    }
  }

  /** The shape of table `TwoRunsDecode` and `TwoRunsEncode` work on: two packed runs split at `m`, the first starting at byte 0. */
  predicate TwoRuns(fields: seq<FieldSpec>, m: int) {
    0 < m < |fields| && WidthsMatch(fields) && Packed(fields[..m]) && Packed(fields[m..]) &&
    fields[0].offset == 0 && End(fields[m - 1]) <= fields[m].offset
  }

  /** The first run of a two-run encoding reads back as its values. */
  lemma TwoRunsFront(fields: seq<FieldSpec>, m: int, vs: seq<Value>, gap: seq<U8>, eb: seq<U8>)
    requires TwoRuns(fields, m) && HaveKinds(vs, fields)
    ensures forall k :: 0 <= k < m ==> DecodeField(EncodeFields(vs[..m]) + gap + eb, fields[k]) == Ok(vs[k])
  {
    var ef := EncodeFields(vs[..m]);
    assert vs[0..m] == vs[..m] && fields[0..m] == fields[..m];
    DecodeEncodedRun([], vs, gap + eb, fields, 0, m);
    assert [] + ef + (gap + eb) == ef + gap + eb;
  }

  /** The second run of a two-run encoding reads back as its values when the gap fills the space between the runs. */
  lemma TwoRunsBack(fields: seq<FieldSpec>, m: int, vs: seq<Value>, gap: seq<U8>)
    requires TwoRuns(fields, m) && HaveKinds(vs, fields)
    requires fields[m].offset == End(fields[m - 1]) + |gap|
    ensures forall k :: m <= k < |fields| ==>
              DecodeField(EncodeFields(vs[..m]) + gap + EncodeFields(vs[m..]), fields[k]) == Ok(vs[k])
  {
    var ef := EncodeFields(vs[..m]);
    assert |ef| == End(fields[m - 1]) by {
      RunShape(vs, fields, 0, m);
      assert fields[0..m] == fields[..m] && vs[0..m] == vs[..m];
      EncodeFieldsLength(vs[..m], fields[..m]);
      assert fields[..m][m - 1] == fields[m - 1];
    }
    assert vs[m..|fields|] == vs[m..] && fields[m..|fields|] == fields[m..];
    DecodeEncodedRun(ef + gap, vs, [], fields, m, |fields|);
    assert (ef + gap) + EncodeFields(vs[m..]) + [] == ef + gap + EncodeFields(vs[m..]);
  }

  /**
   * A table of two packed runs, the first starting at byte 0 and the second
   * `|gap|` bytes after the first ends: writing the values of the first run,
   * the gap and the values of the second run, and reading the table back,
   * gives the values.
   */
  lemma {:induction false} TwoRunsDecode(fields: seq<FieldSpec>, m: int, vs: seq<Value>, gap: seq<U8>)
    requires TwoRuns(fields, m) && HaveKinds(vs, fields)
    requires fields[m].offset == End(fields[m - 1]) + |gap|
    ensures DecodeFields(EncodeFields(vs[..m]) + gap + EncodeFields(vs[m..]), fields) == Ok(vs)
  {
    var b := EncodeFields(vs[..m]) + gap + EncodeFields(vs[m..]);
    TwoRunsFront(fields, m, vs, gap, EncodeFields(vs[m..]));
    TwoRunsBack(fields, m, vs, gap);
    DecodeFieldsOk(b, fields, vs);
  }

  /** A slice is the concatenation of the slices it splits into. */
  lemma SplitSlice(b: seq<U8>, i: int, j: int, k: int, l: int)
    requires 0 <= i <= j <= k <= l <= |b|
    ensures b[i..l] == b[i..j] + b[j..k] + b[k..l]
  {
  }

  /** Each of the rows `lo..hi` starts where the one before it ends. */
  predicate PackedBetween(fields: seq<FieldSpec>, lo: int, hi: int)
    requires 0 <= lo <= hi <= |fields|
  {
    forall k :: lo < k < hi ==> fields[k].offset == End(fields[k - 1])
  }

  lemma PackedRun(fields: seq<FieldSpec>, lo: int, hi: int)
    requires 0 <= lo <= hi <= |fields| && Packed(fields[lo..hi])
    ensures PackedBetween(fields, lo, hi)
  {
    var run := fields[lo..hi];
    forall k | lo < k < hi ensures fields[k].offset == End(fields[k - 1]) {
      assert run[k - lo] == fields[k] && run[k - lo - 1] == fields[k - 1];
    }
  }

  /** Encoding what was read from the packed rows `lo..hi` of a table gives back the bytes those rows cover. */
  lemma {:induction false} EncodeDecodedRun(b: seq<U8>, fields: seq<FieldSpec>, vs: seq<Value>, lo: int, hi: int)
    requires WidthsMatch(fields) && |vs| == |fields|
    requires 0 <= lo < hi <= |fields| && PackedBetween(fields, lo, hi)
    requires forall k {:trigger DecodeField(b, fields[k])} :: 0 <= k < |fields| ==> DecodeField(b, fields[k]) == Ok(vs[k])
    ensures fields[lo].offset <= End(fields[hi - 1]) <= |b|
    ensures EncodeFields(vs[lo..hi]) == b[fields[lo].offset..End(fields[hi - 1])]
    decreases hi - lo
  {
    assert DecodeField(b, fields[lo]) == Ok(vs[lo]);
    EncodeDecodedValue(b, fields[lo]);
    if lo + 1 < hi {
      EncodeDecodedRun(b, fields, vs, lo + 1, hi);
      assert vs[lo..hi][1..] == vs[lo + 1..hi];
      SplitSlice(b, fields[lo].offset, End(fields[lo]), End(fields[lo]), End(fields[hi - 1]));
    }
  }

  /** The first run of a two-run table encodes back to the bytes it was read from. */
  lemma TwoRunsEncodeFront(b: seq<U8>, fields: seq<FieldSpec>, m: int, vs: seq<Value>)
    requires TwoRuns(fields, m) && |vs| == |fields|
    requires forall k {:trigger DecodeField(b, fields[k])} :: 0 <= k < |fields| ==> DecodeField(b, fields[k]) == Ok(vs[k])
    ensures End(fields[m - 1]) <= |b| && EncodeFields(vs[..m]) == b[..End(fields[m - 1])]
  {
    assert fields[0..m] == fields[..m];
    PackedRun(fields, 0, m);
    EncodeDecodedRun(b, fields, vs, 0, m);
    assert vs[0..m] == vs[..m];
  }

  /** The second run of a two-run table encodes back to the bytes it was read from. */
  lemma TwoRunsEncodeBack(b: seq<U8>, fields: seq<FieldSpec>, m: int, vs: seq<Value>)
    requires TwoRuns(fields, m) && |vs| == |fields|
    requires forall k {:trigger DecodeField(b, fields[k])} :: 0 <= k < |fields| ==> DecodeField(b, fields[k]) == Ok(vs[k])
    ensures fields[m].offset <= End(fields[|fields| - 1]) <= |b|
    ensures EncodeFields(vs[m..]) == b[fields[m].offset..End(fields[|fields| - 1])]
  {
    var n := |fields|;
    assert fields[m..n] == fields[m..];
    PackedRun(fields, m, n);
    EncodeDecodedRun(b, fields, vs, m, n);
    assert vs[m..n] == vs[m..];
  }

  /**
   * For the same shape of table: writing back what was read, with the bytes
   * between the runs kept, gives back the buffer up to the end of the table.
   */
  lemma TwoRunsEncode(b: seq<U8>, fields: seq<FieldSpec>, m: int, vs: seq<Value>)
    requires TwoRuns(fields, m)
    requires DecodeFields(b, fields) == Ok(vs)
    ensures End(fields[m - 1]) <= fields[m].offset <= End(fields[|fields| - 1]) <= |b|
    ensures EncodeFields(vs[..m]) + b[End(fields[m - 1])..fields[m].offset] + EncodeFields(vs[m..]) ==
            b[..End(fields[|fields| - 1])]
  {
    DecodeFieldsRows(b, fields, vs);
    TwoRunsEncodeFront(b, fields, m, vs);
    TwoRunsEncodeBack(b, fields, m, vs);
    SplitSlice(b, 0, End(fields[m - 1]), fields[m].offset, End(fields[|fields| - 1]));
  }

  /** The values of a record have the kinds of `LAYOUT`. */
  lemma FieldsHaveLayoutKinds(t: TelemetryData)
    ensures HaveKinds(Fields(t), LAYOUT)
  {
    LayoutKinds();
  }

  /** `LAYOUT` is a two-run table whose runs are 12 bytes apart. */
  lemma LayoutTwoRuns()
    ensures TwoRuns(LAYOUT, DASH_START)
    ensures End(LAYOUT[DASH_START - 1]) == RESERVED_START && LAYOUT[DASH_START].offset == RESERVED_END
    ensures End(LAYOUT[FIELD_COUNT - 1]) == MESSAGE_SIZE
  {
    LayoutWellFormed();
  }

  /** The encoding of a record is 323 bytes long and carries the reserved bytes at 232..244. */
  lemma EncodeShape(t: TelemetryData, reserved: seq<U8>)
    requires |reserved| == RESERVED_END - RESERVED_START
    ensures |Encode(t, reserved)| == MESSAGE_SIZE
    ensures Encode(t, reserved)[RESERVED_START..RESERVED_END] == reserved
  {
    var vs := Fields(t);
    LayoutWellFormed();
    FieldsHaveLayoutKinds(t);
    RunShape(vs, LAYOUT, 0, DASH_START);
    RunShape(vs, LAYOUT, DASH_START, FIELD_COUNT);
    assert LAYOUT[0..DASH_START] == LAYOUT[..DASH_START] && vs[0..DASH_START] == vs[..DASH_START];
    assert LAYOUT[DASH_START..FIELD_COUNT] == LAYOUT[DASH_START..] && vs[DASH_START..FIELD_COUNT] == vs[DASH_START..];
    EncodeFieldsLength(vs[..DASH_START], LAYOUT[..DASH_START]);
    EncodeFieldsLength(vs[DASH_START..], LAYOUT[DASH_START..]);
    assert LAYOUT[..DASH_START][DASH_START - 1] == LAYOUT[DASH_START - 1];
    assert LAYOUT[DASH_START..][0] == LAYOUT[DASH_START];
    assert LAYOUT[DASH_START..][FIELD_COUNT - DASH_START - 1] == LAYOUT[FIELD_COUNT - 1];
  }

  /** Round trip: parsing the encoding of a record gives the record back, whatever the reserved bytes. */
  lemma ParseEncode(t: TelemetryData, reserved: seq<U8>)
    requires |reserved| == RESERVED_END - RESERVED_START
    ensures |Encode(t, reserved)| == MESSAGE_SIZE
    ensures Encode(t, reserved)[RESERVED_START..RESERVED_END] == reserved
    ensures Parse(Encode(t, reserved)) == Ok(t)
  {
    EncodeShape(t, reserved);
    LayoutTwoRuns();
    FieldsHaveLayoutKinds(t);
    TwoRunsDecode(LAYOUT, DASH_START, Fields(t), reserved);
    FromFieldsFields(t);
  }

  /** A record whose values are those `LAYOUT` reads from a buffer, encoded with the buffer's reserved bytes, gives back the first 323 bytes. */
  lemma EncodeDecoded(buffer: seq<U8>, vs: seq<Value>, t: TelemetryData)
    requires DecodeFields(buffer, LAYOUT) == Ok(vs) && Fields(t) == vs
    ensures |buffer| >= MESSAGE_SIZE
    ensures Encode(t, buffer[RESERVED_START..RESERVED_END]) == buffer[..MESSAGE_SIZE]
  {
    LayoutTwoRuns();
    TwoRunsEncode(buffer, LAYOUT, DASH_START, vs);
  }

  /** Values of the kinds of a table whose row `k` has the kind of field `k` have, one by one, the kinds of the record's fields. */
  lemma KindsOfTable(vs: seq<Value>, fields: seq<FieldSpec>)
    requires HaveKinds(vs, fields) && |fields| == FIELD_COUNT
    requires forall k :: 0 <= k < FIELD_COUNT ==> fields[k].kind == KindOf(k)
    ensures |vs| == FIELD_COUNT && forall k :: 0 <= k < FIELD_COUNT ==> HasKind(vs[k], KindOf(k))
  {
  }

  /** What `LAYOUT` reads from a buffer is the list of values of the record `Parse` returns. */
  lemma DecodedRecord(buffer: seq<U8>, vs: seq<Value>)
    requires DecodeFields(buffer, LAYOUT) == Ok(vs)
    ensures Parse(buffer) == Ok(FromFields(vs)) && Fields(FromFields(vs)) == vs
  {
    LayoutWidths();
    LayoutKinds();
    KindsOfTable(vs, LAYOUT);
    FieldsFromFields(vs);
  }

  /** Round trip: encoding the result of a parse, with the reserved bytes kept, gives back the first 323 bytes. */
  lemma EncodeParse(buffer: seq<U8>)
    requires |buffer| >= MESSAGE_SIZE
    ensures Parse(buffer).Ok?
    ensures Encode(Parse(buffer).value, buffer[RESERVED_START..RESERVED_END]) == buffer[..MESSAGE_SIZE]
  {
    ParseSucceedsIff(buffer);
    var vs := DecodeFields(buffer, LAYOUT).value;
    DecodedRecord(buffer, vs);
    EncodeDecoded(buffer, vs, FromFields(vs));
  }
}
