/**
 * Facts about the table of slice bounds in src/forza.rs: every field has
 * the width of its type, the fields follow each other without gaps or
 * overlaps, and together they cover bytes [0, 232) and [244, 323). The
 * twelve bytes [232, 244) between `num_cylinders` and `position_x` are not
 * read by any field.
 */
module ForzaLayout {
  import opened Forza

  /** The reserved span: bytes no field reads. */
  const RESERVED_START: nat := 232
  const RESERVED_END: nat := 244

  /** The index of `position_x`, the first field after the reserved span. */
  const DASH_START: nat := 58

  predicate Covers(f: FieldSpec, p: int) {
    f.offset <= p < End(f)
  }

  /** Every field is as wide as its kind. */
  predicate WidthsMatch(fields: seq<FieldSpec>) {
    forall k :: 0 <= k < |fields| ==> fields[k].width == Width(fields[k].kind)
  }

  /** Each field starts where the previous one ends. */
  predicate Packed(fields: seq<FieldSpec>) {
    forall k :: 0 < k < |fields| ==> fields[k].offset == End(fields[k - 1])
  }

  /** Fields in increasing order of position that do not overlap. */
  predicate Ordered(fields: seq<FieldSpec>) {
    forall i, j :: 0 <= i < j < |fields| ==> End(fields[i]) <= fields[j].offset
  }

  /** The distance between the end of field `k - 1` and the start of field `k` in the layout of `parse`. */
  function Gap(k: int): nat {
    if k == DASH_START then RESERVED_END - RESERVED_START else 0
  }

  /** From row `k` on: kinds are those of `KindOf`, widths match kinds and consecutive rows are `Gap` apart. */
  predicate ChainFrom(fields: seq<FieldSpec>, k: nat)
    decreases |fields| - k
  {
    k >= |fields| ||
    (fields[k].kind == KindOf(k) &&
     fields[k].width == Width(fields[k].kind) &&
     (k + 1 < |fields| ==> fields[k + 1].offset == End(fields[k]) + Gap(k + 1)) &&
     ChainFrom(fields, k + 1))
  }

  lemma {:induction false} ChainFromAll(fields: seq<FieldSpec>, k: nat)
    requires ChainFrom(fields, k)
    ensures forall j :: k <= j < |fields| ==> fields[j].kind == KindOf(j)
    ensures forall j :: k <= j < |fields| ==> fields[j].width == Width(fields[j].kind)
    ensures forall j :: k < j < |fields| ==> fields[j].offset == End(fields[j - 1]) + Gap(j)
    decreases |fields| - k
  {
    if k < |fields| {
      ChainFromAll(fields, k + 1);
    }
  }

  lemma LayoutChain71()
    ensures ChainFrom(LAYOUT, 71)
  {
    assert ChainFrom(LAYOUT, 85);
    assert ChainFrom(LAYOUT, 84);
    assert ChainFrom(LAYOUT, 83);
    assert ChainFrom(LAYOUT, 82);
    assert ChainFrom(LAYOUT, 81);
    assert ChainFrom(LAYOUT, 80);
    assert ChainFrom(LAYOUT, 79);
    assert ChainFrom(LAYOUT, 78);
    assert ChainFrom(LAYOUT, 77);
    assert ChainFrom(LAYOUT, 76);
    assert ChainFrom(LAYOUT, 75);
    assert ChainFrom(LAYOUT, 74);
    assert ChainFrom(LAYOUT, 73);
    assert ChainFrom(LAYOUT, 72);
    assert ChainFrom(LAYOUT, 71);
  }

  lemma LayoutChain57()
    ensures ChainFrom(LAYOUT, 57)
  {
    LayoutChain71();
    assert ChainFrom(LAYOUT, 70);
    assert ChainFrom(LAYOUT, 69);
    assert ChainFrom(LAYOUT, 68);
    assert ChainFrom(LAYOUT, 67);
    assert ChainFrom(LAYOUT, 66);
    assert ChainFrom(LAYOUT, 65);
    assert ChainFrom(LAYOUT, 64);
    assert ChainFrom(LAYOUT, 63);
    assert ChainFrom(LAYOUT, 62);
    assert ChainFrom(LAYOUT, 61);
    assert ChainFrom(LAYOUT, 60);
    assert ChainFrom(LAYOUT, 59);
    assert ChainFrom(LAYOUT, 58);
    assert ChainFrom(LAYOUT, 57);
  }

  lemma LayoutChain43()
    ensures ChainFrom(LAYOUT, 43)
  {
    LayoutChain57();
    assert ChainFrom(LAYOUT, 56);
    assert ChainFrom(LAYOUT, 55);
    assert ChainFrom(LAYOUT, 54);
    assert ChainFrom(LAYOUT, 53);
    assert ChainFrom(LAYOUT, 52);
    assert ChainFrom(LAYOUT, 51);
    assert ChainFrom(LAYOUT, 50);
    assert ChainFrom(LAYOUT, 49);
    assert ChainFrom(LAYOUT, 48);
    assert ChainFrom(LAYOUT, 47);
    assert ChainFrom(LAYOUT, 46);
    assert ChainFrom(LAYOUT, 45);
    assert ChainFrom(LAYOUT, 44);
    assert ChainFrom(LAYOUT, 43);
  }

  lemma LayoutChain29()
    ensures ChainFrom(LAYOUT, 29)
  {
    LayoutChain43();
    assert ChainFrom(LAYOUT, 42);
    assert ChainFrom(LAYOUT, 41);
    assert ChainFrom(LAYOUT, 40);
    assert ChainFrom(LAYOUT, 39);
    assert ChainFrom(LAYOUT, 38);
    assert ChainFrom(LAYOUT, 37);
    assert ChainFrom(LAYOUT, 36);
    assert ChainFrom(LAYOUT, 35);
    assert ChainFrom(LAYOUT, 34);
    assert ChainFrom(LAYOUT, 33);
    assert ChainFrom(LAYOUT, 32);
    assert ChainFrom(LAYOUT, 31);
    assert ChainFrom(LAYOUT, 30);
    assert ChainFrom(LAYOUT, 29);
  }

  lemma LayoutChain15()
    ensures ChainFrom(LAYOUT, 15)
  {
    LayoutChain29();
    assert ChainFrom(LAYOUT, 28);
    assert ChainFrom(LAYOUT, 27);
    assert ChainFrom(LAYOUT, 26);
    assert ChainFrom(LAYOUT, 25);
    assert ChainFrom(LAYOUT, 24);
    assert ChainFrom(LAYOUT, 23);
    assert ChainFrom(LAYOUT, 22);
    assert ChainFrom(LAYOUT, 21);
    assert ChainFrom(LAYOUT, 20);
    assert ChainFrom(LAYOUT, 19);
    assert ChainFrom(LAYOUT, 18);
    assert ChainFrom(LAYOUT, 17);
    assert ChainFrom(LAYOUT, 16);
    assert ChainFrom(LAYOUT, 15);
  }

  /** The table check, evaluated row by row from the last row down to row 0. */
  lemma LayoutChain()
    ensures ChainFrom(LAYOUT, 0)
  {
    LayoutChain15();
    assert ChainFrom(LAYOUT, 14);
    assert ChainFrom(LAYOUT, 13);
    assert ChainFrom(LAYOUT, 12);
    assert ChainFrom(LAYOUT, 11);
    assert ChainFrom(LAYOUT, 10);
    assert ChainFrom(LAYOUT, 9);
    assert ChainFrom(LAYOUT, 8);
    assert ChainFrom(LAYOUT, 7);
    assert ChainFrom(LAYOUT, 6);
    assert ChainFrom(LAYOUT, 5);
    assert ChainFrom(LAYOUT, 4);
    assert ChainFrom(LAYOUT, 3);
    assert ChainFrom(LAYOUT, 2);
    assert ChainFrom(LAYOUT, 1);
    assert ChainFrom(LAYOUT, 0);
  }

  /** No field starts before the previous one ends. */
  predicate Ascending(fields: seq<FieldSpec>) {
    forall k :: 0 < k < |fields| ==> End(fields[k - 1]) <= fields[k].offset
  }

  lemma {:induction false} AscendingOrdered(fields: seq<FieldSpec>)
    requires Ascending(fields)
    ensures Ordered(fields)
    decreases |fields|
  {
    if |fields| > 1 {
      var init := fields[..|fields| - 1];
      assert Ascending(init) by {
        forall k | 0 < k < |init| ensures End(init[k - 1]) <= init[k].offset {
          assert init[k - 1] == fields[k - 1] && init[k] == fields[k];
        }
      }
      AscendingOrdered(init);
      forall i, j | 0 <= i < j < |fields| ensures End(fields[i]) <= fields[j].offset {
        if j < |fields| - 1 {
          assert init[i] == fields[i] && init[j] == fields[j];
        } else if i < j - 1 {
          assert init[i] == fields[i] && init[j - 1] == fields[j - 1];
        }
      }
    }
  }

  lemma PackedAscending(fields: seq<FieldSpec>)
    requires Packed(fields)
    ensures Ascending(fields)
  {
  }

  /** A packed table covers exactly the bytes from its first offset to its last end. */
  lemma {:induction false} PackedCoverage(fields: seq<FieldSpec>, p: int)
    requires Packed(fields) && |fields| > 0
    ensures (exists k :: 0 <= k < |fields| && Covers(fields[k], p)) <==>
            fields[0].offset <= p < End(fields[|fields| - 1])
    decreases |fields|
  {
    var last := |fields| - 1;
    PackedAscending(fields);
    AscendingOrdered(fields);
    if exists k :: 0 <= k < |fields| && Covers(fields[k], p) {
      var k :| 0 <= k < |fields| && Covers(fields[k], p);
      if 0 < k {
        assert End(fields[0]) <= fields[k].offset;
      }
      if k < last {
        assert End(fields[k]) <= fields[last].offset;
      }
    }
    if fields[0].offset <= p < End(fields[last]) && !Covers(fields[0], p) {
      var tail := fields[1..];
      assert Packed(tail) by {
        forall k | 0 < k < |tail| ensures tail[k].offset == End(tail[k - 1]) {
          assert tail[k] == fields[k + 1] && tail[k - 1] == fields[k];
        }
      }
      assert tail[0].offset <= p < End(tail[|tail| - 1]);
      PackedCoverage(tail, p);
      var k :| 0 <= k < |tail| && Covers(tail[k], p);
      assert Covers(fields[k + 1], p);
    }
  }

  /** Two fields of an ordered table never share a byte. */
  lemma OrderedDisjoint(fields: seq<FieldSpec>, i: int, j: int, p: int)
    requires Ordered(fields)
    requires 0 <= i < |fields| && 0 <= j < |fields|
    requires Covers(fields[i], p) && Covers(fields[j], p)
    ensures i == j
  {
  }

  lemma ChainWidths(fields: seq<FieldSpec>)
    requires ChainFrom(fields, 0)
    ensures WidthsMatch(fields)
  {
    ChainFromAll(fields, 0);
  }

  lemma ChainKinds(fields: seq<FieldSpec>)
    requires ChainFrom(fields, 0)
    ensures forall k :: 0 <= k < |fields| ==> fields[k].kind == KindOf(k)
  {
    ChainFromAll(fields, 0);
  }

  lemma ChainAscending(fields: seq<FieldSpec>)
    requires ChainFrom(fields, 0)
    ensures Ascending(fields)
  {
    ChainFromAll(fields, 0);
  }

  /** A run of rows that does not straddle the reserved span is packed. */
  lemma ChainPacked(fields: seq<FieldSpec>, lo: int, hi: int)
    requires ChainFrom(fields, 0)
    requires 0 <= lo <= hi <= |fields|
    requires !(lo < DASH_START < hi)
    ensures Packed(fields[lo..hi])
  {
    ChainFromAll(fields, 0);
    var run := fields[lo..hi];
    forall k | 0 < k < |run| ensures run[k].offset == End(run[k - 1]) {
      assert run[k] == fields[lo + k] && run[k - 1] == fields[lo + k - 1];
    }
  }

  lemma LayoutWidths()
    ensures |LAYOUT| == FIELD_COUNT
    ensures WidthsMatch(LAYOUT)
  {
    LayoutChain();
    ChainWidths(LAYOUT);
  }

  lemma LayoutKinds()
    ensures forall k :: 0 <= k < FIELD_COUNT ==> LAYOUT[k].kind == KindOf(k)
  {
    LayoutChain();
    ChainKinds(LAYOUT);
  }

  /** The rows of `is_race_on`, `timestamp_ms`, `car_class`, `speed`, `lap_number`, `gear` and the three signed inputs. */
  lemma LayoutNamedRows()
    ensures LAYOUT[0] == FieldSpec(0, 4, Int32)
    ensures LAYOUT[1] == FieldSpec(4, 4, UInt32)
    ensures LAYOUT[54] == FieldSpec(216, 4, Int32)
    ensures LAYOUT[61] == FieldSpec(256, 4, Float32)
    ensures LAYOUT[75] == FieldSpec(312, 2, UInt16)
    ensures LAYOUT[81] == FieldSpec(319, 1, UInt8)
    ensures LAYOUT[82] == FieldSpec(320, 1, Int8)
    ensures LAYOUT[83] == FieldSpec(321, 1, Int8)
    ensures LAYOUT[84] == FieldSpec(322, 1, Int8)
  {
  }

  /** Where the two packed runs of the layout begin and end. */
  lemma LayoutBounds()
    ensures LAYOUT[0].offset == 0
    ensures End(LAYOUT[DASH_START - 1]) == RESERVED_START
    ensures LAYOUT[DASH_START].offset == RESERVED_END
    ensures End(LAYOUT[FIELD_COUNT - 1]) == MESSAGE_SIZE
  {
  }

  /**
   * The shape of the layout of `parse`: 85 fields, each as wide as its
   * type, in order; the fields up to `num_cylinders` are packed from byte 0
   * to byte 232, those from `position_x` on packed from byte 244 to byte
   * 323.
   */
  lemma LayoutWellFormed()
    ensures |LAYOUT| == FIELD_COUNT
    ensures WidthsMatch(LAYOUT)
    ensures forall k :: 0 <= k < FIELD_COUNT ==> LAYOUT[k].kind == KindOf(k)
    ensures Ascending(LAYOUT) && Ordered(LAYOUT)
    ensures Packed(LAYOUT[..DASH_START]) && Packed(LAYOUT[DASH_START..])
    ensures LAYOUT[0].offset == 0
    ensures End(LAYOUT[DASH_START - 1]) == RESERVED_START
    ensures LAYOUT[DASH_START].offset == RESERVED_END
    ensures End(LAYOUT[FIELD_COUNT - 1]) == MESSAGE_SIZE
  {
    LayoutChain();
    LayoutWidths();
    LayoutKinds();
    LayoutBounds();
    ChainAscending(LAYOUT);
    AscendingOrdered(LAYOUT);
    ChainPacked(LAYOUT, 0, DASH_START);
    ChainPacked(LAYOUT, DASH_START, FIELD_COUNT);
    assert LAYOUT[DASH_START..FIELD_COUNT] == LAYOUT[DASH_START..];
    assert LAYOUT[0..DASH_START] == LAYOUT[..DASH_START];
  }

  /** In an ordered table, a row split at `m` lies wholly before or wholly after the split. */
  lemma OrderedRegions(fields: seq<FieldSpec>, m: int)
    requires Ordered(fields)
    requires 0 < m < |fields|
    ensures forall k :: 0 <= k < m ==> End(fields[k]) <= End(fields[m - 1])
    ensures forall k :: m <= k < |fields| ==> fields[m].offset <= fields[k].offset
    ensures forall k :: 0 <= k < |fields| ==> End(fields[k]) <= End(fields[|fields| - 1])
  {
    forall k | 0 <= k < m - 1 ensures End(fields[k]) <= End(fields[m - 1]) {
      assert End(fields[k]) <= fields[m - 1].offset;
    }
    forall k | m < k < |fields| ensures fields[m].offset <= fields[k].offset {
      assert End(fields[m]) <= fields[k].offset;
    }
    forall k | 0 <= k < |fields| - 1 ensures End(fields[k]) <= End(fields[|fields| - 1]) {
      assert End(fields[k]) <= fields[|fields| - 1].offset;
    }
  }

  /**
   * Every field up to `num_cylinders` ends by byte 232, every field from
   * `position_x` on starts at byte 244 or later, and no field reaches past
   * byte 323.
   */
  lemma LayoutRegions()
    ensures forall k :: 0 <= k < DASH_START ==> End(LAYOUT[k]) <= RESERVED_START
    ensures forall k :: DASH_START <= k < FIELD_COUNT ==> RESERVED_END <= LAYOUT[k].offset
    ensures forall k :: 0 <= k < FIELD_COUNT ==> End(LAYOUT[k]) <= MESSAGE_SIZE
  {
    LayoutWellFormed();
    OrderedRegions(LAYOUT, DASH_START);
  }

  /** A byte is covered by a row of `fields` iff it is covered by a row of `fields[..m]` or of `fields[m..]`. */
  lemma SplitCoverage(fields: seq<FieldSpec>, m: int, p: int)
    requires 0 <= m <= |fields|
    ensures (exists k :: 0 <= k < |fields| && Covers(fields[k], p)) <==>
            (exists k :: 0 <= k < m && Covers(fields[..m][k], p)) ||
            (exists k :: 0 <= k < |fields| - m && Covers(fields[m..][k], p))
  {
    if exists k :: 0 <= k < |fields| && Covers(fields[k], p) {
      var k :| 0 <= k < |fields| && Covers(fields[k], p);
      if k < m {
        assert fields[..m][k] == fields[k];
      } else {
        assert fields[m..][k - m] == fields[k];
      }
    }
    if exists k :: 0 <= k < |fields| - m && Covers(fields[m..][k], p) {
      var k :| 0 <= k < |fields| - m && Covers(fields[m..][k], p);
      assert fields[m..][k] == fields[m + k];
    }
  }

  /**
   * Coverage: a byte is read by some field iff it lies in [0, 232) or in
   * [244, 323). In particular no field reads the reserved span.
   */
  lemma LayoutCoverage(p: int)
    ensures (exists k :: 0 <= k < FIELD_COUNT && Covers(LAYOUT[k], p)) <==>
            (0 <= p < RESERVED_START || RESERVED_END <= p < MESSAGE_SIZE)
  {
    LayoutWellFormed();
    var front, back := LAYOUT[..DASH_START], LAYOUT[DASH_START..];
    PackedCoverage(front, p);
    PackedCoverage(back, p);
    SplitCoverage(LAYOUT, DASH_START, p);
    assert front[0] == LAYOUT[0] && front[|front| - 1] == LAYOUT[DASH_START - 1];
    assert back[0] == LAYOUT[DASH_START] && back[|back| - 1] == LAYOUT[FIELD_COUNT - 1];
  }

  /** Disjointness: no byte is read by two fields. */
  lemma LayoutDisjoint(i: int, j: int, p: int)
    requires 0 <= i < FIELD_COUNT && 0 <= j < FIELD_COUNT
    requires Covers(LAYOUT[i], p) && Covers(LAYOUT[j], p)
    ensures i == j
  {
    LayoutWellFormed();
    OrderedDisjoint(LAYOUT, i, j, p);
  }
}
