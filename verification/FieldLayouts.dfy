// The layout table of libibmad/src/fields.c: every field of at most 32 bits, in the order
// of the source.
module FieldLayouts {
  import opened Binary
  import opened BitFields

  // An entry of the table; its bit offset is 32 * word + bit.  Be stands for BE_OFFS and for
  // plain offsets, Bits for BITSOFFS, which counts from the highest bit of the word.
  datatype Entry = Be(word: nat, bit: nat, width: nat) | Bits(word: nat, bit: nat, width: nat)

  // The entry lies in its word and begins or ends at the edge of a byte, runs over the edge
  // of a byte with its odd bits, or lies inside a byte.
  predicate WellShaped(e: Entry) {
    var r := LowestBit(e);
    && 0 < e.width && e.bit + e.width <= 32
    && (r % 8 == 0 || r % 8 + e.width % 8 >= 8 || r % 8 + e.width < 8)
  }

  function LowestBit(e: Entry): int {
    if e.Be? then e.bit else 32 - e.bit - e.width
  }

  ghost predicate AllWellShaped(es: set<Entry>) {
    forall e :: e in es ==> WellShaped(e)
  }

  // The MAD header, lines 71-96
  const HEADER_FIELDS: set<Entry> := {
    Be(0, 0, 7), Be(0, 7, 1), Be(0, 8, 8), Be(0, 16, 8), Be(0, 24, 8), Be(1, 16, 16), Be(1, 0, 8), Be(1, 8, 8),
    Be(1, 16, 15), Be(1, 31, 1), Be(4, 16, 16), Be(5, 0, 32), Be(8, 0, 16), Be(8, 16, 16)}

  // lines 102-155
  const FIELDS_0: set<Entry> := {
    Be(11, 16, 16), Bits(4, 0, 16), Bits(4, 16, 16), Be(5, 0, 32), Bits(6, 0, 16), Bits(6, 16, 16), Bits(7, 0, 8), Bits(7, 8, 8),
    Bits(7, 16, 8), Bits(7, 24, 8), Bits(8, 0, 4), Bits(8, 4, 4), Bits(8, 8, 4), Bits(8, 12, 4), Bits(8, 16, 2),
    Bits(8, 21, 3), Bits(8, 24, 4), Bits(8, 28, 4), Bits(9, 0, 4), Bits(9, 4, 4), Bits(9, 8, 4), Bits(9, 12, 4),
    Bits(9, 16, 8), Bits(9, 24, 8), Bits(10, 0, 8), Bits(10, 8, 4), Bits(10, 12, 4), Bits(10, 16, 3),
    Bits(10, 19, 5), Bits(10, 24, 4)}

  // lines 156-232
  const FIELDS_1: set<Entry> := {
    Bits(10, 28, 1), Bits(10, 29, 1), Bits(10, 30, 1), Bits(10, 31, 1), Bits(11, 0, 16), Bits(11, 16, 16),
    Bits(12, 0, 16), Bits(12, 16, 8), Bits(12, 24, 1), Bits(12, 25, 2), Bits(12, 27, 5), Bits(13, 3, 5),
    Bits(13, 8, 4), Bits(13, 12, 4), Bits(13, 16, 16), Bits(14, 8, 24), Bits(0, 0, 8), Bits(0, 8, 8),
    Bits(0, 16, 8), Bits(0, 24, 8), Bits(7, 0, 16), Bits(7, 16, 16), Be(8, 0, 32), Bits(9, 0, 8), Bits(9, 8, 24),
    Bits(0, 0, 16), Bits(0, 16, 16), Bits(1, 0, 16), Bits(1, 16, 16), Bits(2, 0, 8), Bits(2, 8, 8), Bits(2, 16, 8),
    Bits(2, 24, 5), Bits(2, 29, 1), Bits(2, 30, 2), Bits(3, 0, 16), Bits(3, 16, 16), Bits(4, 0, 1), Bits(4, 1, 1),
    Bits(4, 2, 1), Bits(4, 3, 1), Bits(4, 4, 1), Bits(4, 16, 16), Bits(0, 0, 1)}

  // lines 233-299
  const FIELDS_2: set<Entry> := {
    Bits(0, 1, 7), Bits(0, 8, 24), Bits(1, 0, 16), Bits(1, 16, 16), Bits(2, 0, 1), Bits(2, 1, 15), Bits(2, 16, 16),
    Bits(3, 0, 16), Bits(4, 0, 32), Bits(0, 8, 8), Bits(0, 16, 16), Bits(1, 0, 16), Bits(1, 16, 8), Bits(1, 24, 8),
    Bits(2, 0, 16), Bits(2, 16, 16), Bits(3, 0, 16), Bits(3, 16, 16), Bits(4, 0, 8), Bits(4, 8, 8), Bits(4, 16, 8),
    Bits(4, 24, 4), Bits(4, 28, 4), Bits(5, 16, 16), Be(6, 0, 32), Be(7, 0, 32), Be(8, 0, 32), Be(9, 0, 32),
    Be(10, 0, 32), Be(4, 0, 32), Bits(5, 0, 4), Bits(5, 4, 4), Be(6, 24, 8), Be(6, 16, 8), Be(6, 11, 5),
    Be(6, 8, 3), Be(6, 0, 8), Be(7, 0, 32), Be(7, 0, 32), Be(8, 0, 32), Be(8, 0, 32), Be(8, 0, 32), Bits(1, 9, 7),
    Bits(3, 24, 8)}

  // lines 300-413
  const FIELDS_3: set<Entry> := {
    Bits(4, 0, 8), Bits(10, 0, 16), Bits(10, 16, 16), Bits(12, 9, 7), Bits(13, 12, 4), Be(8, 0, 32), Bits(9, 0, 16),
    Bits(11, 0, 4), Bits(9, 18, 6), Bits(10, 18, 6), Bits(9, 24, 8), Bits(10, 0, 16), Bits(11, 4, 20),
    Bits(12, 4, 4), Bits(12, 8, 1), Bits(6, 0, 16), Be(7, 0, 32), Be(3, 0, 32), Bits(4, 0, 16), Bits(4, 16, 16),
    Be(9, 0, 24), Bits(0, 8, 8), Bits(0, 16, 16), Bits(0, 0, 8), Bits(0, 8, 8), Bits(0, 16, 16), Bits(1, 0, 27),
    Bits(1, 27, 5), Bits(6, 0, 8), Bits(6, 8, 4), Bits(6, 12, 20), Bits(7, 0, 16), Bits(7, 16, 16), Bits(8, 8, 24),
    Be(9, 0, 32), Bits(14, 0, 8), Bits(14, 8, 4), Bits(14, 12, 20), Bits(15, 0, 16), Bits(15, 16, 16),
    Bits(16, 0, 8), Bits(16, 8, 24), Be(17, 0, 32), Be(1, 0, 32)}

  // lines 414-477
  const FIELDS_4: set<Entry> := {
    Be(2, 0, 32), Be(3, 0, 32), Be(4, 0, 32), Be(5, 0, 32), Be(6, 0, 32), Be(7, 0, 32), Be(8, 0, 32), Be(9, 0, 32),
    Be(10, 0, 32), Be(11, 0, 32), Be(12, 0, 32), Be(13, 0, 32), Be(14, 0, 32), Be(15, 0, 32), Be(16, 0, 32),
    Be(1, 0, 32), Be(2, 0, 32), Be(3, 0, 32), Be(4, 0, 32), Be(5, 0, 32), Be(6, 0, 32), Be(7, 0, 32), Be(8, 0, 32),
    Be(9, 0, 32), Be(10, 0, 32), Be(11, 0, 32), Be(12, 0, 32), Be(13, 0, 32), Be(14, 0, 32), Be(15, 0, 32),
    Be(16, 0, 32), Bits(1, 0, 16), Bits(1, 16, 16), Bits(2, 0, 16), Bits(2, 16, 16), Bits(1, 0, 16),
    Bits(1, 16, 16), Bits(2, 0, 16), Bits(2, 16, 16), Bits(3, 0, 16), Bits(3, 16, 16), Bits(0, 0, 8), Bits(0, 8, 8),
    Bits(0, 16, 8)}

  // lines 478-555
  const FIELDS_5: set<Entry> := {
    Bits(0, 29, 3), Bits(1, 2, 3), Bits(1, 5, 27), Bits(2, 1, 15), Bits(2, 16, 8), Bits(2, 30, 2), Be(7, 0, 32),
    Be(8, 0, 32), Bits(9, 0, 16), Bits(9, 16, 16), Bits(10, 0, 16), Bits(10, 16, 16), Bits(11, 0, 16),
    Bits(11, 16, 16), Bits(12, 0, 16), Bits(12, 16, 16), Bits(13, 0, 16), Bits(13, 16, 16), Bits(14, 0, 16),
    Bits(14, 16, 16), Bits(15, 0, 16), Bits(15, 16, 16), Bits(16, 0, 16), Bits(16, 16, 16), Bits(0, 0, 16),
    Bits(0, 16, 8), Bits(15, 0, 16), Bits(15, 16, 4), Bits(15, 20, 4), Bits(15, 27, 5), Bits(0, 8, 8),
    Bits(4, 0, 16), Bits(4, 16, 16), Bits(5, 0, 16), Bits(5, 16, 16), Bits(6, 0, 16), Bits(6, 16, 16),
    Bits(7, 0, 16), Bits(7, 16, 16), Bits(8, 0, 16), Bits(8, 16, 16), Bits(9, 0, 16), Bits(9, 16, 16),
    Bits(10, 0, 16)}

  // lines 556-614
  const FIELDS_6: set<Entry> := {
    Bits(10, 16, 16), Be(11, 0, 32), Be(12, 0, 32), Be(13, 0, 32), Be(14, 0, 32), Be(15, 0, 32), Be(16, 0, 32),
    Be(17, 0, 32), Be(18, 0, 32), Be(19, 0, 32), Be(20, 0, 32), Be(21, 0, 32), Be(22, 0, 32), Be(23, 0, 32),
    Be(24, 0, 32), Be(25, 0, 32), Be(26, 0, 32), Be(27, 0, 32), Be(28, 0, 32), Be(29, 0, 32), Be(30, 0, 32),
    Be(31, 0, 32), Be(32, 0, 32), Be(33, 0, 32), Be(34, 0, 32), Be(1, 0, 32), Be(2, 0, 32), Be(1, 0, 32),
    Be(2, 0, 32), Bits(1, 0, 16), Bits(1, 16, 16), Bits(2, 0, 16), Bits(2, 16, 16), Bits(3, 0, 16), Bits(3, 16, 16),
    Bits(4, 0, 16), Bits(4, 16, 16), Bits(5, 0, 16), Bits(5, 16, 16), Bits(6, 0, 16), Bits(6, 16, 16),
    Bits(7, 0, 16), Bits(7, 16, 16), Bits(8, 0, 16)}

  // lines 615-673
  const FIELDS_7: set<Entry> := {
    Bits(8, 16, 16), Be(1, 0, 32), Be(2, 0, 32), Be(3, 0, 32), Be(4, 0, 32), Be(5, 0, 32), Be(6, 0, 32),
    Be(7, 0, 32), Be(8, 0, 32), Be(9, 0, 32), Be(10, 0, 32), Be(11, 0, 32), Be(12, 0, 32), Be(13, 0, 32),
    Be(14, 0, 32), Be(15, 0, 32), Be(16, 0, 32), Bits(1, 0, 2), Bits(1, 2, 2), Bits(1, 4, 2), Bits(1, 6, 2),
    Bits(1, 8, 2), Bits(1, 10, 2), Bits(1, 12, 2), Bits(1, 14, 2), Bits(1, 16, 2), Bits(1, 18, 2), Bits(1, 20, 2),
    Bits(1, 22, 2), Bits(1, 24, 2), Bits(1, 26, 2), Bits(1, 28, 2), Bits(1, 30, 2), Bits(1, 0, 16), Bits(1, 16, 16),
    Bits(2, 0, 16), Bits(2, 16, 16), Bits(3, 0, 16), Bits(3, 16, 16), Bits(4, 0, 16), Bits(4, 16, 16),
    Bits(5, 0, 16), Bits(5, 16, 16), Bits(6, 0, 16)}

  // lines 674-737
  const FIELDS_8: set<Entry> := {
    Bits(6, 16, 16), Bits(7, 0, 16), Bits(7, 16, 16), Bits(8, 0, 16), Bits(8, 16, 16), Bits(1, 0, 16),
    Bits(1, 16, 16), Bits(2, 0, 16), Bits(2, 16, 16), Bits(3, 0, 16), Bits(3, 16, 16), Bits(4, 0, 16),
    Bits(4, 16, 16), Bits(5, 0, 16), Bits(5, 16, 16), Bits(6, 0, 16), Bits(6, 16, 16), Bits(7, 0, 16),
    Bits(7, 16, 16), Bits(8, 0, 16), Bits(8, 16, 16), Be(1, 0, 32), Be(2, 0, 32), Be(1, 0, 32), Be(2, 0, 32),
    Be(3, 0, 32), Be(4, 0, 32), Be(5, 0, 32), Be(6, 0, 32), Be(7, 0, 32), Be(8, 0, 32), Be(9, 0, 32), Be(10, 0, 32),
    Be(11, 0, 32), Be(12, 0, 32), Be(13, 0, 32), Be(14, 0, 32), Be(15, 0, 32), Be(16, 0, 32), Be(1, 0, 32),
    Be(2, 0, 32), Be(3, 0, 32), Be(4, 0, 32), Be(5, 0, 32)}

  // lines 738-829
  const FIELDS_9: set<Entry> := {
    Be(6, 0, 32), Be(7, 0, 32), Be(8, 0, 32), Be(9, 0, 32), Be(10, 0, 32), Be(11, 0, 32), Be(12, 0, 32),
    Be(13, 0, 32), Be(14, 0, 32), Be(15, 0, 32), Be(16, 0, 32), Be(1, 0, 32), Be(1, 0, 32), Be(2, 0, 32),
    Be(3, 0, 32), Be(4, 0, 32), Be(5, 0, 32), Be(6, 0, 32), Be(7, 0, 32), Be(8, 0, 32), Be(9, 0, 32), Be(10, 0, 32),
    Be(11, 0, 32), Be(12, 0, 32), Be(13, 0, 32), Be(14, 0, 32), Be(15, 0, 32), Bits(0, 24, 8), Bits(1, 24, 8),
    Bits(2, 24, 8), Bits(3, 24, 8), Bits(0, 0, 16), Bits(0, 16, 8), Bits(2, 0, 1), Bits(2, 16, 16), Bits(3, 0, 16),
    Bits(0, 0, 8), Bits(0, 8, 8), Bits(0, 16, 16), Be(1, 0, 32), Bits(0, 0, 16), Bits(0, 16, 16), Bits(1, 0, 4),
    Be(2, 0, 32)}

  // lines 835-935
  const FIELDS_10: set<Entry> := {
    Bits(0, 16, 16), Bits(1, 0, 16), Bits(2, 0, 32), Bits(0, 0, 24), Bits(0, 24, 4), Bits(0, 28, 4), Bits(1, 0, 24),
    Bits(2, 0, 16), Bits(2, 16, 16), Bits(3, 0, 32), Be(0, 0, 32), Bits(17, 0, 4), Bits(17, 8, 8), Bits(17, 16, 4),
    Bits(18, 0, 16), Bits(18, 16, 16), Bits(0, 0, 1), Bits(0, 1, 1), Bits(0, 4, 4), Bits(0, 8, 8), Bits(0, 16, 16),
    Bits(0, 0, 16), Bits(0, 16, 16), Bits(0, 0, 16), Bits(0, 16, 8), Bits(0, 24, 8), Bits(1, 0, 8), Bits(0, 0, 16),
    Bits(0, 0, 2), Bits(0, 2, 14), Be(0, 0, 32), Bits(0, 0, 16), Bits(1, 0, 8), Bits(1, 8, 8), Bits(1, 16, 8),
    Bits(1, 24, 8), Bits(8, 0, 16), Bits(8, 16, 16), Be(9, 0, 32), Bits(10, 0, 8), Bits(10, 8, 24), Bits(0, 0, 16),
    Bits(0, 30, 2), Be(1, 0, 32)}

  // lines 936-1016
  const FIELDS_11: set<Entry> := {
    Be(2, 0, 32), Be(3, 0, 32), Be(4, 0, 32), Be(5, 0, 32), Be(6, 0, 32), Be(7, 0, 32), Be(8, 0, 32), Be(9, 0, 32),
    Be(10, 0, 32), Be(11, 0, 32), Be(12, 0, 32), Be(13, 0, 32), Be(14, 0, 32), Be(15, 0, 32), Be(0, 0, 32),
    Bits(1, 0, 16), Bits(1, 16, 16), Bits(2, 0, 16), Bits(2, 16, 16), Bits(3, 0, 16), Bits(0, 8, 8), Bits(4, 0, 16),
    Bits(4, 16, 16), Be(11, 0, 32), Be(12, 0, 32), Be(13, 0, 32), Be(14, 0, 32), Be(15, 0, 32), Be(16, 0, 32),
    Be(17, 0, 32), Be(18, 0, 32), Be(19, 0, 32), Be(20, 0, 32), Be(21, 0, 32), Be(22, 0, 32), Be(35, 0, 32),
    Be(36, 0, 32), Be(37, 0, 32), Be(1, 0, 32), Be(5, 0, 16), Be(3, 16, 16), Be(4, 0, 16)}

  const TABLE: set<Entry> :=
    HEADER_FIELDS + FIELDS_0 + FIELDS_1 + FIELDS_2 + FIELDS_3 + FIELDS_4 + FIELDS_5 +
    FIELDS_6 + FIELDS_7 + FIELDS_8 + FIELDS_9 + FIELDS_10 + FIELDS_11

  lemma HeaderFieldsShaped()
    ensures AllWellShaped(HEADER_FIELDS)
  {
  }

  lemma Fields0Shaped()
    ensures AllWellShaped(FIELDS_0)
  {
  }

  lemma Fields1Shaped()
    ensures AllWellShaped(FIELDS_1)
  {
  }

  lemma Fields2Shaped()
    ensures AllWellShaped(FIELDS_2)
  {
  }

  lemma Fields3Shaped()
    ensures AllWellShaped(FIELDS_3)
  {
  }

  lemma Fields4Shaped()
    ensures AllWellShaped(FIELDS_4)
  {
  }

  lemma Fields5Shaped()
    ensures AllWellShaped(FIELDS_5)
  {
  }

  lemma Fields6Shaped()
    ensures AllWellShaped(FIELDS_6)
  {
  }

  lemma Fields7Shaped()
    ensures AllWellShaped(FIELDS_7)
  {
  }

  lemma Fields8Shaped()
    ensures AllWellShaped(FIELDS_8)
  {
  }

  lemma Fields9Shaped()
    ensures AllWellShaped(FIELDS_9)
  {
  }

  lemma Fields10Shaped()
    ensures AllWellShaped(FIELDS_10)
  {
  }

  lemma Fields11Shaped()
    ensures AllWellShaped(FIELDS_11)
  {
  }

  lemma TableShaped()
    ensures AllWellShaped(TABLE)
  {
    HeaderFieldsShaped();
    Fields0Shaped();
    Fields1Shaped();
    Fields2Shaped();
    Fields3Shaped();
    Fields4Shaped();
    Fields5Shaped();
    Fields6Shaped();
    Fields7Shaped();
    Fields8Shaped();
    Fields9Shaped();
    Fields10Shaped();
    Fields11Shaped();
  }

  // bitoffs and bitlen of an entry
  function LayoutOf(e: Entry): Layout
    requires e.bit + e.width <= 32
  {
    Layout(32 * e.word + LowestBit(e), e.width)
  }

  lemma ShapeIsAligned(e: Entry, base: nat)
    requires WellShaped(e) && base % 4 == 0
    ensures InWord(base, LayoutOf(e)) && Aligned(LayoutOf(e))
  {
    var f, r := LayoutOf(e), LowestBit(e);
    DivUnique(f.off, 8, 4 * e.word + r / 8, r % 8);
    PostIs(f.off, f.width);
    DivUnique(FirstBit(base, f), 32, base / 4 + e.word, r);
  }

  // Every field of the table, at a base offset of whole words: it reads as that part of its
  // big-endian word, a value that fits is read back, and writing it changes no other bit.
  lemma TableFieldsWork(s: seq<Byte>, base: nat, e: Entry, v: nat)
    requires e in TABLE && e.bit + e.width <= 32 && base % 4 == 0 && v < Pow2(e.width)
    requires HasWord(|s|, base, LayoutOf(e))
    ensures Fits(|s|, base, LayoutOf(e))
    ensures Got(View(s), base, LayoutOf(e)) == WordPart(s, base, LayoutOf(e))
    ensures Got(View(Put(s, base, LayoutOf(e), v)), base, LayoutOf(e)) == v
    ensures KeepsOthers(|s|, base, LayoutOf(e), v)
  {
    var f := LayoutOf(e);
    TableShaped();
    ShapeIsAligned(e, base);
    WordFits(|s|, base, f);
    GotIsWordPart(s, base, f);
    PutThenGet(s, base, f, v);
    DivUnique(v, Pow2(f.width), 0, v);
    SmallHasNoExcess(f, v);
    KeepsOthersIff(|s|, base, f, v);
  }
}
