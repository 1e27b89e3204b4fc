/**
 * How reading a table of fields behaves, for any table: it succeeds iff
 * every single read does, it then yields each read's value in order, and
 * otherwise it fails with the error of the first read that fails. A read
 * depends only on the length of the buffer and on the bytes of its own
 * field.
 */
module ForzaDecoding {
  import opened Wrappers
  import opened Utils
  import opened LittleEndian
  import opened Forza
  import opened ForzaLayout

  /** Field `k` is the first of `fields` whose read fails. */
  predicate FirstFailure(buffer: seq<U8>, fields: seq<FieldSpec>, k: int) {
    0 <= k < |fields| && DecodeField(buffer, fields[k]).Err? &&
    forall j :: 0 <= j < k ==> DecodeField(buffer, fields[j]).Ok?
  }

  lemma {:induction false} DecodeFieldsSpec(buffer: seq<U8>, fields: seq<FieldSpec>)
    ensures DecodeFields(buffer, fields).Ok? <==>
            forall k :: 0 <= k < |fields| ==> DecodeField(buffer, fields[k]).Ok?
    ensures DecodeFields(buffer, fields).Ok? ==>
            |DecodeFields(buffer, fields).value| == |fields| &&
            forall k :: 0 <= k < |fields| ==>
              DecodeField(buffer, fields[k]) == Ok(DecodeFields(buffer, fields).value[k])
    ensures DecodeFields(buffer, fields).Err? ==>
            exists k :: FirstFailure(buffer, fields, k) &&
              DecodeFields(buffer, fields).error == DecodeField(buffer, fields[k]).error
    decreases |fields|
  {
    if fields != [] {
      var tail := fields[1..];
      DecodeFieldsSpec(buffer, tail);
      assert forall k :: 0 < k < |fields| ==> fields[k] == tail[k - 1];
      var head := DecodeField(buffer, fields[0]);
      if head.Ok? {
        var rest := DecodeFields(buffer, tail);
        if rest.Ok? {
          forall k | 0 <= k < |fields|
            ensures DecodeField(buffer, fields[k]) == Ok(DecodeFields(buffer, fields).value[k])
          {
            if k > 0 {
              assert DecodeFields(buffer, fields).value[k] == rest.value[k - 1];
            }
          }
        } else {
          var k :| FirstFailure(buffer, tail, k) && rest.error == DecodeField(buffer, tail[k]).error;
          assert FirstFailure(buffer, fields, k + 1);
        }
      } else {
        assert FirstFailure(buffer, fields, 0);
      }
    }
  }

  /** Reading every row as the matching value means the table decodes to exactly those values. */
  lemma DecodeFieldsOk(buffer: seq<U8>, fields: seq<FieldSpec>, vs: seq<Value>)
    requires |vs| == |fields|
    requires forall k :: 0 <= k < |fields| ==> DecodeField(buffer, fields[k]) == Ok(vs[k])
    ensures DecodeFields(buffer, fields) == Ok(vs)
  {
    DecodeFieldsSpec(buffer, fields);
    var r := DecodeFields(buffer, fields);
    assert r.value == vs;
  }

  /** A table that decodes to `vs` reads each row as the matching value. */
  lemma DecodeFieldsRows(buffer: seq<U8>, fields: seq<FieldSpec>, vs: seq<Value>)
    requires DecodeFields(buffer, fields) == Ok(vs)
    ensures |vs| == |fields|
    ensures forall k :: 0 <= k < |fields| ==> DecodeField(buffer, fields[k]) == Ok(vs[k])
  {
    DecodeFieldsSpec(buffer, fields);
  }

  /** Two buffers on which every read of `fields` agrees decode the same. */
  lemma {:induction false} DecodeFieldsCongruent(b: seq<U8>, c: seq<U8>, fields: seq<FieldSpec>)
    requires forall k :: 0 <= k < |fields| ==> DecodeField(b, fields[k]) == DecodeField(c, fields[k])
    ensures DecodeFields(b, fields) == DecodeFields(c, fields)
    decreases |fields|
  {
    if fields != [] {
      assert DecodeField(b, fields[0]) == DecodeField(c, fields[0]);
      var tail := fields[1..];
      forall k | 0 <= k < |tail| ensures DecodeField(b, tail[k]) == DecodeField(c, tail[k]) {
        assert tail[k] == fields[k + 1];
      }
      DecodeFieldsCongruent(b, c, tail);
    }
  }

  /** A read depends on the buffer's length and on the field's own bytes only. */
  lemma DecodeFieldLocal(b: seq<U8>, c: seq<U8>, f: FieldSpec)
    requires |b| == |c|
    requires forall p :: 0 <= p < |b| && Covers(f, p) ==> b[p] == c[p]
    ensures DecodeField(b, f) == DecodeField(c, f)
  {
    if End(f) <= |b| {
      assert b[f.offset..End(f)] == c[f.offset..End(f)];
    }
  }

  /** Cutting the buffer after the end of a field does not change the field's read. */
  lemma DecodeFieldTruncate(b: seq<U8>, n: int, f: FieldSpec)
    requires End(f) <= n <= |b|
    ensures DecodeField(b, f) == DecodeField(b[..n], f)
  {
    assert b[..n][f.offset..End(f)] == b[f.offset..End(f)];
  }

  /** A table whose rows have their kinds' widths and end by `size`, one of them at `size`, decodes iff the buffer holds `size` bytes. */
  lemma DecodeFieldsSucceedsIff(buffer: seq<U8>, fields: seq<FieldSpec>, size: nat)
    requires WidthsMatch(fields)
    requires forall k :: 0 <= k < |fields| ==> End(fields[k]) <= size
    requires exists k :: 0 <= k < |fields| && End(fields[k]) == size
    ensures DecodeFields(buffer, fields).Ok? <==> size <= |buffer|
  {
    DecodeFieldsSpec(buffer, fields);
    if |buffer| < size {
      var k :| 0 <= k < |fields| && End(fields[k]) == size;
      assert DecodeField(buffer, fields[k]).Err?;
    }
  }

  /** The reading of a row of each kind, byte by byte. */
  lemma DecodeInt32(b: seq<U8>, f: FieldSpec)
    requires f.kind == Int32 && f.width == 4 && End(f) <= |b|
    ensures DecodeField(b, f) == Ok(I32Value(I32FromLe(b[f.offset..End(f)])))
  {
  }

  lemma DecodeUInt32(b: seq<U8>, f: FieldSpec)
    requires f.kind == UInt32 && f.width == 4 && End(f) <= |b|
    ensures DecodeField(b, f) == Ok(U32Value(U32FromLe(b[f.offset..End(f)])))
  {
  }

  lemma DecodeFloat32(b: seq<U8>, f: FieldSpec)
    requires f.kind == Float32 && f.width == 4 && End(f) <= |b|
    ensures DecodeField(b, f) == Ok(F32Value(F32FromLe(b[f.offset..End(f)])))
  {
  }

  lemma DecodeUInt16(b: seq<U8>, f: FieldSpec)
    requires f.kind == UInt16 && f.width == 2 && End(f) <= |b|
    ensures DecodeField(b, f) == Ok(U16Value((b[f.offset] as int + 0x100 * b[f.offset + 1] as int) as U16))
  {
  }

  lemma DecodeUInt8(b: seq<U8>, f: FieldSpec)
    requires f.kind == UInt8 && f.width == 1 && End(f) <= |b|
    ensures DecodeField(b, f) == Ok(U8Value(b[f.offset]))
  {
  }

  lemma DecodeInt8(b: seq<U8>, f: FieldSpec)
    requires f.kind == Int8 && f.width == 1 && End(f) <= |b|
    ensures DecodeField(b, f) == Ok(I8Value(I8FromLe([b[f.offset]])))
  {
    assert b[f.offset..End(f)] == [b[f.offset]];
  }

  /** The value 0 of its kind. */
  predicate IsZero(v: Value) {
    match v
    case I32Value(x) => x == 0
    case U32Value(x) => x == 0
    case F32Value(x) => x == 0
    case U16Value(x) => x == 0
    case U8Value(x) => x == 0
    case I8Value(x) => x == 0
  }

  /** A field whose bytes are all zero reads as zero, whatever its kind. */
  lemma DecodeZero(b: seq<U8>, f: FieldSpec)
    requires f.width == Width(f.kind) && End(f) <= |b|
    requires forall p :: f.offset <= p < End(f) ==> b[p] == 0
    ensures DecodeField(b, f).Ok? && IsZero(DecodeField(b, f).value)
  {
    var s := b[f.offset..End(f)];
    assert forall i :: 0 <= i < |s| ==> s[i] == b[f.offset + i];
    match f.kind
    case Int32 => DecodeInt32(b, f);
    case UInt32 => DecodeUInt32(b, f);
    case Float32 => DecodeFloat32(b, f);
    case UInt16 => DecodeUInt16(b, f);
    case UInt8 => DecodeUInt8(b, f);
    case Int8 => DecodeInt8(b, f);
  }

  /** In an all-zero buffer every row that fits reads as zero. */
  lemma DecodeAllZero(b: seq<U8>, fields: seq<FieldSpec>)
    requires WidthsMatch(fields)
    requires forall k :: 0 <= k < |fields| ==> End(fields[k]) <= |b|
    requires forall p :: 0 <= p < |b| ==> b[p] == 0
    ensures forall k :: 0 <= k < |fields| ==> DecodeField(b, fields[k]).Ok? && IsZero(DecodeField(b, fields[k]).value)
  {
    forall k | 0 <= k < |fields| ensures DecodeField(b, fields[k]).Ok? && IsZero(DecodeField(b, fields[k]).value) {
      DecodeZero(b, fields[k]);
    }
  }
}
