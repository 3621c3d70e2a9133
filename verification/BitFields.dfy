// The field codec of libibmad/src/fields.c: bit fields inside big-endian 32-bit words,
// reached through bytes whose index is flipped within its word.
module BitFields {
  import opened Binary

  type Byte = b: int | 0 <= b < 256

  const WORD_BITS := 32

  // bitoffs and bitlen of ib_field_t, after the offset macros
  datatype Layout = Layout(off: nat, width: nat)

  // The byte index 3 ^ idx
  function Flip(idx: nat): nat {
    idx - idx % 4 + (3 - idx % 4)
  }

  lemma FlipIsXor(idx: nat)
    ensures Flip(idx) == Xor(3, idx)
  {
    XorZero(idx / 4);
    assert Xor(1, idx / 2) == 2 * Xor(0, idx / 4) + (if idx / 2 % 2 == 1 then 0 else 1);
  }

  lemma {:induction false} XorZero(n: nat)
    ensures Xor(0, n) == n
    decreases n
  {
    if n > 0 { XorZero(n / 2); }
  }

  lemma FlipFlip(idx: nat)
    ensures Flip(Flip(idx)) == idx
  {
  }

  // The bytes of a buffer by field index.
  type Bytes = nat -> Byte

  // Bytes beyond the buffer read as zero here.
  function View(s: seq<Byte>): Bytes {
    (idx: nat) => if Flip(idx) < |s| then s[Flip(idx)] else 0
  }

  // Bit n of the fields: bit n % 32 of word n / 32.
  predicate FieldBit(at: Bytes, n: nat) {
    Bit(at(n / 8), n % 8)
  }

  // The big-endian 32-bit word j of a buffer
  function Word(s: seq<Byte>, j: nat): nat
    requires 4 * j + 4 <= |s|
  {
    s[4 * j] as int * 0x100_0000 + s[4 * j + 1] as int * 0x1_0000 + s[4 * j + 2] as int * 0x100 + s[4 * j + 3] as int
  }

  function FirstBit(base: nat, f: Layout): nat {
    8 * base + f.off
  }

  // The number of bytes that the accessors touch
  function Touched(f: Layout): nat {
    if Single(f) then 1
    else (if Pre(f) == 0 then 0 else 1) + f.width / 8 + if Post(f) == 0 then 0 else 1
  }

  // Every byte that the accessors touch lies in the buffer.
  ghost predicate Fits(len: nat, base: nat, f: Layout) {
    forall idx :: FirstByte(base, f) <= idx < FirstByte(base, f) + Touched(f) ==> Flip(idx) < len
  }

  // The field does not cross the end of its word.
  predicate InWord(base: nat, f: Layout) {
    0 < f.width && FirstBit(base, f) % WORD_BITS + f.width <= WORD_BITS
  }

  function Pre(f: Layout): nat { (8 - f.off % 8) % 8 }
  function Post(f: Layout): nat { (f.off + f.width) % 8 }
  predicate Single(f: Layout) { f.width / 8 == 0 && f.off % 8 + f.width < 8 }

  // The bits in the first partial byte, in whole bytes and in the last partial byte add
  // up to the width.
  predicate Aligned(f: Layout) {
    Single(f) || Pre(f) + 8 * (f.width / 8) + Post(f) == f.width
  }

  // ---------------------------------------------------------------------------
  // Reading

  // uint32_t arithmetic
  function U32(v: nat): nat { v % 0x1_0000_0000 }

  // (val << 8) | b
  function ShiftInByte(val: nat, b: Byte): nat {
    Or(U32(256 * val), b)
  }

  lemma U32Bit(v: nat, k: nat)
    ensures Bit(U32(v), k) == (k < WORD_BITS && Bit(v, k))
  {
    LowIsMod(v, WORD_BITS);
    Pow2Words();
    LowBit(v, WORD_BITS, k);
  }

  lemma TimesByteBit(v: nat, k: nat)
    ensures Bit(256 * v, k) == (k >= 8 && Bit(v, k - 8))
  {
    ShlIsTimes(v, 8);
    Pow2Words();
    ShlBit(v, 8, k);
  }

  // The loop of _get_field over n bytes from index idx on, the last one first.
  function Gather(at: Bytes, idx: nat, n: nat, val: nat): nat
    decreases n
  {
    if n == 0 then val
    else Gather(at, idx, n - 1, ShiftInByte(val, at(idx + n - 1)))
  }

  // The last `pre` bits of byte idx
  function Head(at: Bytes, idx: nat, pre: nat): nat
    requires pre < 8
  {
    if pre == 0 then 0 else Shr(at(idx), 8 - pre)
  }

  // The first `post` bits of byte idx
  function Tail(at: Bytes, idx: nat, post: nat): nat {
    if post == 0 then 0 else Low(at(idx), post)
  }

  // Index of the byte that holds the first bit
  function FirstByte(base: nat, f: Layout): nat { base + f.off / 8 }

  // Index of the byte that holds the bit after the last
  function LastByte(base: nat, f: Layout): nat { base + (f.off + f.width) / 8 }

  // Index of the first byte that the field fills from its lowest bit on
  function FirstWhole(base: nat, f: Layout): nat {
    if Pre(f) == 0 then FirstByte(base, f) else FirstByte(base, f) + 1
  }

  // A head of `pre` bits, n whole bytes and a tail of `post` bits put together
  function Assemble(at: Bytes, head: nat, pre: nat, first: nat, n: nat, last: nat, post: nat): nat
    requires pre < 8
  {
    Or(U32(Shl(Gather(at, first, n, Tail(at, last, post)), pre)), Head(at, head, pre))
  }

  // What _get_field returns.
  function Got(at: Bytes, base: nat, f: Layout): nat {
    if Single(f) then Low(Shr(at(FirstByte(base, f)), f.off % 8), f.width)
    else
      Assemble(at, FirstByte(base, f), Pre(f), FirstWhole(base, f), f.width / 8, LastByte(base, f), Post(f))
  }

  predicate RangeFits(len: nat, idx: nat, n: nat) {
    forall i :: idx <= i < idx + n ==> Flip(i) < len
  }

  // The big-endian loop of _get_field.
  method GatherBytes(buf: array<Byte>, first: nat, count: nat, top: nat) returns (val: nat)
    requires RangeFits(buf.Length, first, count)
    ensures val == Gather(View(buf[..]), first, count, top)
  {
    val := top;
    var bytelen := count;
    var idx := first + bytelen - 1;
    while bytelen != 0
      invariant 0 <= bytelen <= count && idx == first + bytelen - 1
      invariant Gather(View(buf[..]), first, bytelen, val) == Gather(View(buf[..]), first, count, top)
    {
      val := ShiftInByte(val, buf[Flip(idx)]);
      bytelen := bytelen - 1;
      idx := idx - 1;
    }
  }

  method GetHead(buf: array<Byte>, idx: nat, pre: nat) returns (v: nat)
    requires pre < 8 && Flip(idx) < buf.Length
    ensures v == Head(View(buf[..]), idx, pre)
  {
    v := if pre != 0 then Shr(buf[Flip(idx)], 8 - pre) else 0;
  }

  method GetTail(buf: array<Byte>, idx: nat, post: nat) returns (v: nat)
    requires post != 0 ==> Flip(idx) < buf.Length
    ensures v == Tail(View(buf[..]), idx, post)
  {
    v := if post != 0 then Low(buf[Flip(idx)], post) else 0;
  }

  // The part of _get_field for fields of several bytes.
  method GetSpread(buf: array<Byte>, head: nat, pre: nat, n: nat, last: nat, post: nat) returns (r: nat)
    requires pre < 8 && Flip(head) < buf.Length && (post != 0 ==> Flip(last) < buf.Length)
    requires RangeFits(buf.Length, if pre == 0 then head else head + 1, n)
    ensures r == Assemble(View(buf[..]), head, pre, if pre == 0 then head else head + 1, n, last, post)
  {
    var v := GetHead(buf, head, pre);
    var val := GetTail(buf, last, post);
    val := GatherBytes(buf, if pre == 0 then head else head + 1, n, val);
    r := Or(U32(Shl(val, pre)), v);
  }

  // _get_field
  method GetField(buf: array<Byte>, base: nat, f: Layout) returns (r: nat)
    requires Fits(buf.Length, base, f)
    ensures r == Got(View(buf[..]), base, f)
  {
    WholeFits(buf.Length, base, f);
    if Single(f) {
      r := Low(Shr(buf[Flip(FirstByte(base, f))], f.off % 8), f.width);
    } else {
      if Post(f) != 0 { LastFits(buf.Length, base, f); }
      r := GetSpread(buf, FirstByte(base, f), Pre(f), f.width / 8, LastByte(base, f), Post(f));
    }
  }

  lemma WholeFits(len: nat, base: nat, f: Layout)
    requires Fits(len, base, f)
    ensures Flip(FirstByte(base, f)) < len
    ensures !Single(f) ==> RangeFits(len, FirstWhole(base, f), f.width / 8)
    ensures !Single(f) && Post(f) != 0 ==> Flip(FirstWhole(base, f) + f.width / 8) < len
  {
    if !Single(f) { SpreadTouches(f); }
  }

  // A field of several bytes has a first one.
  lemma SpreadTouches(f: Layout)
    requires !Single(f)
    ensures Pre(f) != 0 || 0 < f.width / 8
  {
  }

  lemma LastFits(len: nat, base: nat, f: Layout)
    requires Fits(len, base, f) && !Single(f) && Post(f) != 0
    ensures Flip(LastByte(base, f)) < len
  {
    Positions(base, f);
    assert FirstByte(base, f) <= LastByte(base, f) <= FirstWhole(base, f) + f.width / 8;
    if LastByte(base, f) < FirstWhole(base, f) + f.width / 8 {
      WholeFits(len, base, f);
    }
  }

  // ---------------------------------------------------------------------------
  // What reading means, bit by bit

  lemma ByteBits(b: Byte, k: nat)
    ensures k >= 8 ==> !Bit(b, k)
  {
    if k >= 8 {
      Pow2Words();
      SmallBit(b, 8, k);
    }
  }

  lemma ByteFieldBit(at: Bytes, idx: nat, k: nat)
    ensures Bit(at(idx), k) == (k < 8 && FieldBit(at, 8 * idx + k))
  {
    ByteBits(at(idx), k);
  }

  lemma ShiftInByteBit(val: nat, b: Byte, k: nat)
    requires k < WORD_BITS
    ensures Bit(ShiftInByte(val, b), k) == if k < 8 then Bit(b, k) else Bit(val, k - 8)
  {
    OrBit(U32(256 * val), b, k);
    U32Bit(256 * val, k);
    TimesByteBit(val, k);
    ByteBits(b, k);
  }

  lemma ShiftIn(val: nat, n: nat, low: nat, k: nat)
    requires k < WORD_BITS
    ensures Bit(Or(U32(Shl(val, n)), low), k) == ((k >= n && Bit(val, k - n)) || Bit(low, k))
  {
    OrBit(U32(Shl(val, n)), low, k);
    U32Bit(Shl(val, n), k);
    ShlBit(val, n, k);
  }

  lemma {:induction false} GatherBits(at: Bytes, idx: nat, n: nat, val: nat, k: nat)
    requires k < WORD_BITS
    ensures Bit(Gather(at, idx, n, val), k) == if k < 8 * n then FieldBit(at, 8 * idx + k) else Bit(val, k - 8 * n)
    decreases n
  {
    if n > 0 {
      var last := at(idx + n - 1);
      GatherBits(at, idx, n - 1, ShiftInByte(val, last), k);
      if k >= 8 * (n - 1) {
        ShiftInByteBit(val, last, k - 8 * (n - 1));
        ByteFieldBit(at, idx + n - 1, k - 8 * (n - 1));
      }
    }
  }

  lemma SingleGotBits(at: Bytes, base: nat, f: Layout, k: nat)
    requires Single(f)
    ensures Bit(Got(at, base, f), k) == (k < f.width && FieldBit(at, FirstBit(base, f) + k))
  {
    var idx, shift := FirstByte(base, f), f.off % 8;
    LowBit(Shr(at(idx), shift), f.width, k);
    ShrBit(at(idx), shift, k);
    ByteFieldBit(at, idx, k + shift);
    assert FirstBit(base, f) + k == 8 * idx + (k + shift);
  }

  lemma HeadBit(at: Bytes, idx: nat, pre: nat, k: nat)
    requires pre < 8
    ensures Bit(Head(at, idx, pre), k) == (k < pre && FieldBit(at, 8 * idx + 8 - pre + k))
  {
    if pre == 0 {
      ZeroBit(k);
    } else {
      ShrBit(at(idx), 8 - pre, k);
      ByteFieldBit(at, idx, k + 8 - pre);
    }
  }

  lemma TailBit(at: Bytes, idx: nat, post: nat, k: nat)
    requires post < 8
    ensures Bit(Tail(at, idx, post), k) == (k < post && FieldBit(at, 8 * idx + k))
  {
    if post == 0 {
      ZeroBit(k);
    } else {
      LowBit(at(idx), post, k);
      ByteFieldBit(at, idx, k);
    }
  }

  lemma Positions(base: nat, f: Layout)
    ensures 8 * FirstWhole(base, f) == FirstBit(base, f) + Pre(f)
    ensures Pre(f) != 0 ==> 8 * FirstByte(base, f) + 8 - Pre(f) == FirstBit(base, f)
    ensures 8 * LastByte(base, f) + Post(f) == FirstBit(base, f) + f.width
  {
  }

  // Bit p is the first of the head.
  lemma Assembled(at: Bytes, head: nat, pre: nat, first: nat, n: nat, last: nat, post: nat, p: nat, k: nat)
    requires pre < 8 && post < 8 && k < WORD_BITS
    requires 8 * first == p + pre && (pre != 0 ==> 8 * head + 8 - pre == p)
    ensures Bit(Assemble(at, head, pre, first, n, last, post), k) ==
      if k < pre + 8 * n then FieldBit(at, p + k) else (k - pre - 8 * n < post && FieldBit(at, 8 * last + k - pre - 8 * n))
  {
    var tail := Tail(at, last, post);
    ShiftIn(Gather(at, first, n, tail), pre, Head(at, head, pre), k);
    HeadBit(at, head, pre, k);
    if k < pre {
      assert 8 * head + 8 - pre + k == p + k;
    } else {
      GatherBits(at, first, n, tail, k - pre);
      if k - pre < 8 * n {
        assert 8 * first + (k - pre) == p + k;
      } else {
        TailBit(at, last, post, k - pre - 8 * n);
      }
    }
  }

  // The bits of the result of a read that touches several bytes: those of the field from
  // its first bit through the whole bytes, and those of the last partial byte on top.
  lemma SpreadGotBits(at: Bytes, base: nat, f: Layout, k: nat)
    requires !Single(f) && k < WORD_BITS
    ensures var whole := Pre(f) + 8 * (f.width / 8);
      Bit(Got(at, base, f), k) ==
        if k < whole then FieldBit(at, FirstBit(base, f) + k)
        else (k - whole < Post(f) && FieldBit(at, FirstBit(base, f) + f.width - Post(f) + k - whole))
  {
    Positions(base, f);
    Assembled(at, FirstByte(base, f), Pre(f), FirstWhole(base, f), f.width / 8, LastByte(base, f), Post(f), FirstBit(base, f), k);
  }

  // The number that the w bits from bit p on stand for, lowest bit first
  function FieldValue(at: Bytes, p: nat, w: nat): nat
    decreases w
  {
    if w == 0 then 0 else (if FieldBit(at, p) then 1 else 0) + 2 * FieldValue(at, p + 1, w - 1)
  }

  lemma {:induction false} FieldValueBit(at: Bytes, p: nat, w: nat, k: nat)
    ensures Bit(FieldValue(at, p, w), k) == (k < w && FieldBit(at, p + k))
    decreases w
  {
    if w == 0 {
      ZeroBit(k);
    } else if k > 0 {
      FieldValueBit(at, p + 1, w - 1, k - 1);
    }
  }

  lemma SpreadGotHigh(at: Bytes, base: nat, f: Layout, k: nat)
    requires !Single(f) && WORD_BITS <= k
    ensures !Bit(Got(at, base, f), k)
  {
    var gathered := Gather(at, FirstWhole(base, f), f.width / 8, Tail(at, LastByte(base, f), Post(f)));
    OrBit(U32(Shl(gathered, Pre(f))), Head(at, FirstByte(base, f), Pre(f)), k);
    U32Bit(Shl(gathered, Pre(f)), k);
    HeadBit(at, FirstByte(base, f), Pre(f), k);
  }

  lemma AlignedGotBit(at: Bytes, base: nat, f: Layout, k: nat)
    requires Aligned(f) && f.width <= WORD_BITS
    ensures Bit(Got(at, base, f), k) == (k < f.width && FieldBit(at, FirstBit(base, f) + k))
  {
    if Single(f) {
      SingleGotBits(at, base, f, k);
    } else if k < WORD_BITS {
      SpreadGotBits(at, base, f, k);
    } else {
      SpreadGotHigh(at, base, f, k);
    }
  }

  // An aligned field reads as the number that its bits stand for.
  lemma GotIsField(at: Bytes, base: nat, f: Layout)
    requires Aligned(f) && f.width <= WORD_BITS
    ensures Got(at, base, f) == FieldValue(at, FirstBit(base, f), f.width)
  {
    forall k: nat
      ensures Bit(Got(at, base, f), k) == Bit(FieldValue(at, FirstBit(base, f), f.width), k)
    {
      AlignedGotBit(at, base, f, k);
      FieldValueBit(at, FirstBit(base, f), f.width, k);
    }
    SameBits(Got(at, base, f), FieldValue(at, FirstBit(base, f), f.width));
  }

  lemma LowByteBit(low: Byte, high: nat, k: nat)
    ensures Bit(low as nat + 256 * high, k) == if k < 8 then Bit(low, k) else Bit(high, k - 8)
  {
    Pow2Words();
    JoinedBit(low, 8, high, k);
  }

  // Bit k of the number with the bytes b3, b2, b1, b0 from the highest on
  lemma FourBytesBit(b0: Byte, b1: Byte, b2: Byte, b3: Byte, k: nat)
    requires k < 32
    ensures Bit(b3 as nat * 0x100_0000 + b2 as nat * 0x1_0000 + b1 as nat * 0x100 + b0 as nat, k) ==
      if k < 8 then Bit(b0, k) else if k < 16 then Bit(b1, k - 8) else if k < 24 then Bit(b2, k - 16) else Bit(b3, k - 24)
  {
    var h1 := b1 as nat + 256 * (b2 as nat + 256 * b3 as nat);
    LowByteBit(b0, h1, k);
    if k >= 8 { LowByteBit(b1, b2 as nat + 256 * b3 as nat, k - 8); }
    if k >= 16 { LowByteBit(b2, b3, k - 16); }
    assert b3 as nat * 0x100_0000 + b2 as nat * 0x1_0000 + b1 as nat * 0x100 + b0 as nat == b0 as nat + 256 * h1;
  }

  lemma ViewInWord(s: seq<Byte>, j: nat, i: nat)
    requires 4 * j + 4 <= |s| && i < 4
    ensures View(s)(4 * j + i) == s[4 * j + 3 - i]
  {
    assert Flip(4 * j + i) == 4 * j + 3 - i;
  }

  // The bits of word j are those at 32 * j and after.
  lemma WordBit(s: seq<Byte>, j: nat, k: nat)
    requires 4 * j + 4 <= |s| && k < 32
    ensures Bit(Word(s, j), k) == FieldBit(View(s), 32 * j + k)
  {
    FourBytesBit(s[4 * j + 3], s[4 * j + 2], s[4 * j + 1], s[4 * j], k);
    var i := k / 8;
    ViewInWord(s, j, i);
    assert 32 * j + k == 8 * (4 * j + i) + (k - 8 * i);
    ByteFieldBit(View(s), 4 * j + i, k - 8 * i);
  }

  // The word that a field lies in lies in the buffer.
  predicate HasWord(len: nat, base: nat, f: Layout) {
    4 * (FirstBit(base, f) / WORD_BITS) + 4 <= len
  }

  // The field as the specification has it: the big-endian 32-bit word, shifted right and
  // cut to the width of the field.
  function WordPart(s: seq<Byte>, base: nat, f: Layout): nat
    requires HasWord(|s|, base, f)
  {
    Word(s, FirstBit(base, f) / WORD_BITS) / Pow2(FirstBit(base, f) % WORD_BITS) % Pow2(f.width)
  }

  lemma WordPartBit(s: seq<Byte>, base: nat, f: Layout, k: nat)
    requires InWord(base, f) && HasWord(|s|, base, f)
    ensures Bit(WordPart(s, base, f), k) == (k < f.width && FieldBit(View(s), FirstBit(base, f) + k))
  {
    var p := FirstBit(base, f);
    var word := Word(s, p / WORD_BITS);
    ShrIsDiv(word, p % WORD_BITS);
    LowIsMod(Shr(word, p % WORD_BITS), f.width);
    LowBit(Shr(word, p % WORD_BITS), f.width, k);
    ShrBit(word, p % WORD_BITS, k);
    if k < f.width {
      WordBit(s, p / WORD_BITS, k + p % WORD_BITS);
    }
  }

  // Reading an aligned field gives that part of its word.
  lemma GotIsWordPart(s: seq<Byte>, base: nat, f: Layout)
    requires Aligned(f) && InWord(base, f) && HasWord(|s|, base, f)
    ensures Got(View(s), base, f) == WordPart(s, base, f)
  {
    forall k: nat
      ensures Bit(Got(View(s), base, f), k) == Bit(WordPart(s, base, f), k)
    {
      AlignedGotBit(View(s), base, f, k);
      WordPartBit(s, base, f, k);
    }
    SameBits(Got(View(s), base, f), WordPart(s, base, f));
  }

  // A field that is not aligned begins and ends inside a byte, and spans eight bits.
  lemma MisalignedShape(f: Layout)
    requires !Aligned(f)
    ensures 0 < f.off % 8 && 8 <= f.width && f.off % 8 + f.width % 8 < 8
    ensures Pre(f) == 8 - f.off % 8 && Post(f) == f.off % 8 + f.width % 8
  {
    assert f.width == 8 * (f.width / 8) + f.width % 8;
    PostIs(f.off, f.width);
  }

  lemma PostIs(off: nat, width: nat)
    ensures (off + width) % 8 == off % 8 + width % 8 - if off % 8 + width % 8 < 8 then 0 else 8
  {
    var n := off / 8 + width / 8;
    assert off + width == 8 * n + (off % 8 + width % 8);
  }

  lemma EndsInsideWord(p: nat, width: nat)
    requires p % 32 + width <= 32 && 0 < p % 8 + width % 8 < 8
    ensures p % 32 + width < 32 && (p + width) / 32 == p / 32
  {
    var q, t := p / 32, p % 32;
    assert p == 8 * (4 * q + t / 8) + t % 8;
    DivUnique(p, 8, 4 * q + t / 8, t % 8);
    PostIs(t, width);
    assert t + width != 32;
    DivUnique(p + width, 32, q, t + width);
  }

  lemma MisalignedNext(base: nat, f: Layout)
    requires !Aligned(f) && InWord(base, f)
    ensures f.width < Pre(f) + 8 * (f.width / 8) && f.width < WORD_BITS
    ensures (FirstBit(base, f) + f.width) / 32 == FirstBit(base, f) / WORD_BITS
  {
    MisalignedShape(f);
    DivUnique(FirstBit(base, f), 8, base + f.off / 8, f.off % 8);
    EndsInsideWord(FirstBit(base, f), f.width);
  }

  // A field that is not aligned reads its last byte twice, so the bit after the field
  // gets into the result.
  lemma MisalignedBit(at: Bytes, base: nat, f: Layout)
    requires !Aligned(f) && InWord(base, f)
    ensures Bit(Got(at, base, f), f.width) == FieldBit(at, FirstBit(base, f) + f.width)
  {
    MisalignedNext(base, f);
    SpreadGotBits(at, base, f, f.width);
  }

  lemma ByteInWord(n: nat, len: nat)
    requires n / 32 * 4 + 4 <= len
    ensures Flip(n / 8) < len
  {
    var q, t := n / 32, n % 32;
    assert n == 8 * (4 * q + t / 8) + t % 8;
    DivUnique(n, 8, 4 * q + t / 8, t % 8);
  }

  lemma AllOnes(s: seq<Byte>, n: nat)
    requires n / 32 * 4 + 4 <= |s| && forall b :: b in s ==> b == 255
    ensures FieldBit(View(s), n)
  {
    ByteInWord(n, |s|);
    assert s[Flip(n / 8)] in s;
    OnesBit(8, n % 8);
    assert Ones(8) == 255;
  }

  lemma MisalignedGot(s: seq<Byte>, base: nat, f: Layout)
    requires !Aligned(f) && InWord(base, f) && HasWord(|s|, base, f) && forall b :: b in s ==> b == 255
    ensures Got(View(s), base, f) != WordPart(s, base, f)
  {
    MisalignedBit(View(s), base, f);
    WordPartBit(s, base, f, f.width);
    OnesAfter(s, base, f);
  }

  lemma OnesAfter(s: seq<Byte>, base: nat, f: Layout)
    requires !Aligned(f) && InWord(base, f) && HasWord(|s|, base, f) && forall b :: b in s ==> b == 255
    ensures FieldBit(View(s), FirstBit(base, f) + f.width)
  {
    MisalignedNext(base, f);
    AllOnes(s, FirstBit(base, f) + f.width);
  }

  // Reading is right for every buffer if and only if the field is aligned.
  lemma GetIsRightIffAligned(len: nat, base: nat, f: Layout)
    requires InWord(base, f) && HasWord(len, base, f)
    ensures Aligned(f) <==> forall s: seq<Byte> :: |s| == len ==> Got(View(s), base, f) == WordPart(s, base, f)
  {
    if Aligned(f) {
      forall s: seq<Byte> | |s| == len
        ensures Got(View(s), base, f) == WordPart(s, base, f)
      {
        GotIsWordPart(s, base, f);
      }
    } else {
      MisalignedGot(seq(len, i => 255), base, f);
    }
  }

  // ---------------------------------------------------------------------------
  // Writing

  // Conversion to char
  function ByteOf(v: nat): Byte { v % 256 }

  function SetAt(s: seq<Byte>, idx: nat, b: Byte): seq<Byte>
    requires Flip(idx) < |s|
  {
    s[Flip(idx) := b]
  }

  // A byte with the low w bits of v at its bit r
  function SingleByte(b: Byte, r: nat, w: nat, v: nat): Byte {
    ByteOf(Or(AndNot(b, Shl(Ones(w), r)), Shl(Low(v, w), r)))
  }

  // A byte with the low `pre` bits of v at its top
  function HeadByte(b: Byte, pre: nat, v: nat): Byte
    requires pre < 8
  {
    ByteOf(Or(Low(b, 8 - pre), Shl(Low(v, pre), 8 - pre)))
  }

  // A byte whose low `post` bits make room for v; v is not masked.
  function TailByte(b: Byte, post: nat, v: nat): Byte {
    ByteOf(Or(AndNot(b, Ones(post)), v))
  }

  // v >> (8 * n)
  function DropBytes(v: nat, n: nat): nat
    decreases n
  {
    if n == 0 then v else DropBytes(v / 256, n - 1)
  }

  // The loop of _set_field over n bytes from index idx on
  function Scatter(s: seq<Byte>, idx: nat, n: nat, v: nat): (r: seq<Byte>)
    requires RangeFits(|s|, idx, n)
    ensures |r| == |s|
    decreases n
  {
    if n == 0 then s else Scatter(SetAt(s, idx, ByteOf(v)), idx + 1, n - 1, v / 256)
  }

  function PutHead(s: seq<Byte>, head: nat, pre: nat, v: nat): (r: seq<Byte>)
    requires pre < 8 && Flip(head) < |s|
    ensures |r| == |s|
  {
    if pre == 0 then s else SetAt(s, head, HeadByte(View(s)(head), pre, v))
  }

  function PutTail(s: seq<Byte>, last: nat, post: nat, v: nat): (r: seq<Byte>)
    requires post != 0 ==> Flip(last) < |s|
    ensures |r| == |s|
  {
    if post == 0 then s else SetAt(s, last, TailByte(View(s)(last), post, v))
  }

  // A write over a head of `pre` bits, n whole bytes from `first` on and a tail
  function Disperse(s: seq<Byte>, head: nat, pre: nat, first: nat, n: nat, post: nat, v: nat): (r: seq<Byte>)
    requires pre < 8 && Flip(head) < |s| && RangeFits(|s|, first, n) && (post != 0 ==> Flip(first + n) < |s|)
    ensures |r| == |s|
  {
    var whole := Scatter(PutHead(s, head, pre, v), first, n, Shr(v, pre));
    PutTail(whole, first + n, post, DropBytes(Shr(v, pre), n))
  }

  // What _set_field makes of the buffer.
  function Put(s: seq<Byte>, base: nat, f: Layout, v: nat): (r: seq<Byte>)
    requires Fits(|s|, base, f)
    ensures |r| == |s|
  {
    if Single(f) then
      SetAt(s, FirstByte(base, f), SingleByte(View(s)(FirstByte(base, f)), f.off % 8, f.width, v))
    else
      WholeFits(|s|, base, f);
      Disperse(s, FirstByte(base, f), Pre(f), FirstWhole(base, f), f.width / 8, Post(f), v)
  }

  // The big-endian loop of _set_field; what is left of val goes to the tail.
  method ScatterBytes(buf: array<Byte>, first: nat, count: nat, v: nat) returns (val: nat)
    requires RangeFits(buf.Length, first, count)
    modifies buf
    ensures buf[..] == Scatter(old(buf[..]), first, count, v) && val == DropBytes(v, count)
  {
    val := v;
    var bytelen := count;
    var idx := first;
    while bytelen != 0
      invariant 0 <= bytelen <= count && idx == first + count - bytelen
      invariant Scatter(buf[..], idx, bytelen, val) == Scatter(old(buf[..]), first, count, v)
      invariant DropBytes(val, bytelen) == DropBytes(v, count)
    {
      buf[Flip(idx)] := ByteOf(val);
      idx := idx + 1;
      bytelen := bytelen - 1;
      val := val / 256;
    }
  }

  // The part of _set_field for fields of several bytes.
  method SetSpread(buf: array<Byte>, head: nat, pre: nat, first: nat, n: nat, post: nat, v: nat)
    requires pre < 8 && Flip(head) < buf.Length && RangeFits(buf.Length, first, n) && (post != 0 ==> Flip(first + n) < buf.Length)
    requires first == if pre == 0 then head else head + 1
    modifies buf
    ensures buf[..] == Disperse(old(buf[..]), head, pre, first, n, post, v)
  {
    var idx, val := head, v;
    if pre != 0 {
      buf[Flip(idx)] := HeadByte(buf[Flip(idx)], pre, val);
      idx := idx + 1;
    }
    val := Shr(val, pre);
    assert buf[..] == PutHead(old(buf[..]), head, pre, v);
    val := ScatterBytes(buf, idx, n, val);
    idx := idx + n;
    if post != 0 {
      buf[Flip(idx)] := TailByte(buf[Flip(idx)], post, val);
    }
  }

  // _set_field
  method SetField(buf: array<Byte>, base: nat, f: Layout, v: nat)
    requires Fits(buf.Length, base, f)
    modifies buf
    ensures buf[..] == Put(old(buf[..]), base, f, v)
  {
    var idx := FirstByte(base, f);
    WholeFits(buf.Length, base, f);
    if Single(f) {
      buf[Flip(idx)] := SingleByte(buf[Flip(idx)], f.off % 8, f.width, v);
    } else {
      SetSpread(buf, idx, Pre(f), FirstWhole(base, f), f.width / 8, Post(f), v);
    }
  }

  // ---------------------------------------------------------------------------
  // What writing means, bit by bit

  lemma SetAtView(s: seq<Byte>, idx: nat, b: Byte, i: nat)
    requires Flip(idx) < |s|
    ensures View(SetAt(s, idx, b))(i) == if i == idx then b else View(s)(i)
  {
    FlipFlip(idx);
    FlipFlip(i);
  }

  lemma ByteOfBit(v: nat, k: nat)
    ensures Bit(ByteOf(v), k) == (k < 8 && Bit(v, k))
  {
    Pow2Words();
    LowIsMod(v, 8);
    LowBit(v, 8, k);
  }

  lemma SingleByteBit(b: Byte, r: nat, w: nat, v: nat, k: nat)
    requires k < 8
    ensures Bit(SingleByte(b, r, w, v), k) == if r <= k < r + w then Bit(v, k - r) else Bit(b, k)
  {
    ByteOfBit(Or(AndNot(b, Shl(Ones(w), r)), Shl(Low(v, w), r)), k);
    OrBit(AndNot(b, Shl(Ones(w), r)), Shl(Low(v, w), r), k);
    AndNotBit(b, Shl(Ones(w), r), k);
    ShlBit(Ones(w), r, k);
    ShlBit(Low(v, w), r, k);
    if k >= r {
      OnesBit(w, k - r);
      LowBit(v, w, k - r);
    }
  }

  lemma HeadByteBit(b: Byte, pre: nat, v: nat, k: nat)
    requires pre < 8 && k < 8
    ensures Bit(HeadByte(b, pre, v), k) == if k < 8 - pre then Bit(b, k) else Bit(v, k - (8 - pre))
  {
    ByteOfBit(Or(Low(b, 8 - pre), Shl(Low(v, pre), 8 - pre)), k);
    OrBit(Low(b, 8 - pre), Shl(Low(v, pre), 8 - pre), k);
    LowBit(b, 8 - pre, k);
    ShlBit(Low(v, pre), 8 - pre, k);
    if k >= 8 - pre { LowBit(v, pre, k - (8 - pre)); }
  }

  lemma TailByteBit(b: Byte, post: nat, v: nat, k: nat)
    requires k < 8
    ensures Bit(TailByte(b, post, v), k) == ((k >= post && Bit(b, k)) || Bit(v, k))
  {
    ByteOfBit(Or(AndNot(b, Ones(post)), v), k);
    OrBit(AndNot(b, Ones(post)), v, k);
    AndNotBit(b, Ones(post), k);
    OnesBit(post, k);
  }

  lemma {:induction false} DropBytesBit(v: nat, n: nat, k: nat)
    ensures Bit(DropBytes(v, n), k) == Bit(v, k + 8 * n)
    decreases n
  {
    if n > 0 {
      DropBytesBit(v / 256, n - 1, k);
      Pow2Words();
      ShrIsDiv(v, 8);
      ShrBit(v, 8, k + 8 * (n - 1));
    }
  }

  lemma {:induction false} ScatterView(s: seq<Byte>, idx: nat, n: nat, v: nat, i: nat)
    requires RangeFits(|s|, idx, n)
    ensures View(Scatter(s, idx, n, v))(i) == if idx <= i < idx + n then ByteOf(DropBytes(v, i - idx)) else View(s)(i)
    decreases n
  {
    if n > 0 {
      ScatterView(SetAt(s, idx, ByteOf(v)), idx + 1, n - 1, v / 256, i);
      SetAtView(s, idx, ByteOf(v), i);
    }
  }

  lemma PutHeadView(s: seq<Byte>, head: nat, pre: nat, v: nat, i: nat)
    requires pre < 8 && Flip(head) < |s|
    ensures View(PutHead(s, head, pre, v))(i) == if pre != 0 && i == head then HeadByte(View(s)(i), pre, v) else View(s)(i)
  {
    if pre != 0 { SetAtView(s, head, HeadByte(View(s)(head), pre, v), i); }
  }

  lemma PutTailView(s: seq<Byte>, last: nat, post: nat, v: nat, i: nat)
    requires post != 0 ==> Flip(last) < |s|
    ensures View(PutTail(s, last, post, v))(i) == if post != 0 && i == last then TailByte(View(s)(i), post, v) else View(s)(i)
  {
    if post != 0 { SetAtView(s, last, TailByte(View(s)(last), post, v), i); }
  }

  // The bytes after a write over several bytes
  lemma DisperseView(s: seq<Byte>, head: nat, pre: nat, first: nat, n: nat, post: nat, v: nat, i: nat)
    requires pre < 8 && Flip(head) < |s| && RangeFits(|s|, first, n) && (post != 0 ==> Flip(first + n) < |s|)
    requires first == if pre == 0 then head else head + 1
    ensures View(Disperse(s, head, pre, first, n, post, v))(i) ==
      if pre != 0 && i == head then HeadByte(View(s)(i), pre, v)
      else if first <= i < first + n then ByteOf(DropBytes(Shr(v, pre), i - first))
      else if post != 0 && i == first + n then TailByte(View(s)(i), post, DropBytes(Shr(v, pre), n))
      else View(s)(i)
  {
    WholeView(s, head, pre, first, n, v, Shr(v, pre), i);
    DisperseTail(s, head, pre, first, n, post, v, i);
  }

  // The last step of such a write
  lemma DisperseTail(s: seq<Byte>, head: nat, pre: nat, first: nat, n: nat, post: nat, v: nat, i: nat)
    requires pre < 8 && Flip(head) < |s| && RangeFits(|s|, first, n) && (post != 0 ==> Flip(first + n) < |s|)
    ensures var whole := Scatter(PutHead(s, head, pre, v), first, n, Shr(v, pre));
      View(Disperse(s, head, pre, first, n, post, v))(i) ==
        if post != 0 && i == first + n then TailByte(View(whole)(i), post, DropBytes(Shr(v, pre), n)) else View(whole)(i)
  {
    PutTailView(Scatter(PutHead(s, head, pre, v), first, n, Shr(v, pre)), first + n, post, DropBytes(Shr(v, pre), n), i);
  }

  // The bytes after the head and the whole bytes are written
  lemma WholeView(s: seq<Byte>, head: nat, pre: nat, first: nat, n: nat, v: nat, rest: nat, i: nat)
    requires pre < 8 && Flip(head) < |s| && RangeFits(|s|, first, n)
    requires first == if pre == 0 then head else head + 1
    ensures View(Scatter(PutHead(s, head, pre, v), first, n, rest))(i) ==
      if pre != 0 && i == head then HeadByte(View(s)(i), pre, v)
      else if first <= i < first + n then ByteOf(DropBytes(rest, i - first))
      else View(s)(i)
  {
    PutHeadView(s, head, pre, v, i);
    ScatterView(PutHead(s, head, pre, v), first, n, rest, i);
  }

  // Bit k of byte i after such a write, where bit p is the first of the head
  lemma DisperseBit(s: seq<Byte>, head: nat, pre: nat, first: nat, n: nat, post: nat, v: nat, p: nat, i: nat, k: nat)
    requires pre < 8 && post < 8 && Flip(head) < |s| && RangeFits(|s|, first, n) && (post != 0 ==> Flip(first + n) < |s|)
    requires first == if pre == 0 then head else head + 1
    requires 8 * first == p + pre && k < 8
    ensures Bit(View(Disperse(s, head, pre, first, n, post, v))(i), k) ==
      if p <= 8 * i + k < p + pre + 8 * n + post then Bit(v, 8 * i + k - p)
      else Bit(View(s)(i), k) || (post != 0 && i == first + n && Bit(v, 8 * i + k - p))
  {
    DisperseView(s, head, pre, first, n, post, v, i);
    if pre != 0 && i == head {
      HeadByteBit(View(s)(i), pre, v, k);
      assert 8 * i + k - p == k - (8 - pre);
    } else if first <= i < first + n {
      ByteOfBit(DropBytes(Shr(v, pre), i - first), k);
      DropBytesBit(Shr(v, pre), i - first, k);
      ShrBit(v, pre, k + 8 * (i - first));
      assert 8 * i + k - p == k + 8 * (i - first) + pre;
    } else if post != 0 && i == first + n {
      TailByteBit(View(s)(i), post, DropBytes(Shr(v, pre), n), k);
      DropBytesBit(Shr(v, pre), n, k);
      ShrBit(v, pre, k + 8 * n);
      assert 8 * i + k - p == k + 8 * n + pre;
    }
  }

  // The byte that holds both the end of the field and other bits is written without
  // masking the value.
  predicate Spills(f: Layout) {
    !Single(f) && Post(f) != 0
  }

  lemma AlignedEnd(base: nat, f: Layout)
    requires Aligned(f) && !Single(f)
    ensures FirstWhole(base, f) + f.width / 8 == LastByte(base, f)
  {
    Positions(base, f);
  }

  lemma SinglePutBit(s: seq<Byte>, base: nat, f: Layout, v: nat, i: nat, k: nat)
    requires Single(f) && Fits(|s|, base, f) && k < 8
    ensures var p := FirstBit(base, f);
      Bit(View(Put(s, base, f, v))(i), k) ==
        if p <= 8 * i + k < p + f.width then Bit(v, 8 * i + k - p) else Bit(View(s)(i), k)
  {
    var idx, r := FirstByte(base, f), f.off % 8;
    assert FirstBit(base, f) == 8 * idx + r;
    SetAtView(s, idx, SingleByte(View(s)(idx), r, f.width, v), i);
    SingleByteBit(View(s)(idx), r, f.width, v, k);
  }

  // Every bit of the buffer after a write: the bits of the field are those of the value;
  // of the others, only those above the field in its last byte can change, where the
  // excess bits of the value are ORed in.
  lemma PutBit(s: seq<Byte>, base: nat, f: Layout, v: nat, i: nat, k: nat)
    requires Aligned(f) && Fits(|s|, base, f) && k < 8
    ensures var p := FirstBit(base, f);
      Bit(View(Put(s, base, f, v))(i), k) ==
        if p <= 8 * i + k < p + f.width then Bit(v, 8 * i + k - p)
        else (Bit(View(s)(i), k) || (Spills(f) && i == LastByte(base, f) && p <= 8 * i + k && Bit(v, 8 * i + k - p)))
  {
    if Single(f) {
      SinglePutBit(s, base, f, v, i, k);
    } else {
      SpreadPutBit(s, base, f, v, i, k);
    }
  }

  lemma SpreadPutBit(s: seq<Byte>, base: nat, f: Layout, v: nat, i: nat, k: nat)
    requires !Single(f) && Aligned(f) && Fits(|s|, base, f) && k < 8
    ensures var p := FirstBit(base, f);
      Bit(View(Put(s, base, f, v))(i), k) ==
        if p <= 8 * i + k < p + f.width then Bit(v, 8 * i + k - p)
        else (Bit(View(s)(i), k) || (Post(f) != 0 && i == LastByte(base, f) && Bit(v, 8 * i + k - p)))
  {
    WholeFits(|s|, base, f);
    Positions(base, f);
    AlignedEnd(base, f);
    DisperseBit(s, FirstByte(base, f), Pre(f), FirstWhole(base, f), f.width / 8, Post(f), v, FirstBit(base, f), i, k);
  }

  lemma PutFieldBit(s: seq<Byte>, base: nat, f: Layout, v: nat, n: nat)
    requires Aligned(f) && Fits(|s|, base, f)
    ensures var p := FirstBit(base, f);
      FieldBit(View(Put(s, base, f, v)), n) ==
        if p <= n < p + f.width then Bit(v, n - p)
        else (FieldBit(View(s), n) || (Spills(f) && n / 8 == LastByte(base, f) && p <= n && Bit(v, n - p)))
  {
    PutBit(s, base, f, v, n / 8, n % 8);
  }

  // What is read back is the value, cut to the width of the field.
  lemma PutThenGet(s: seq<Byte>, base: nat, f: Layout, v: nat)
    requires Aligned(f) && f.width <= WORD_BITS && Fits(|s|, base, f)
    ensures Got(View(Put(s, base, f, v)), base, f) == v % Pow2(f.width)
  {
    var at := View(Put(s, base, f, v));
    forall k: nat
      ensures Bit(Got(at, base, f), k) == Bit(Low(v, f.width), k)
    {
      AlignedGotBit(at, base, f, k);
      LowBit(v, f.width, k);
      if k < f.width { PutFieldBit(s, base, f, v, FirstBit(base, f) + k); }
    }
    SameBits(Got(at, base, f), Low(v, f.width));
    LowIsMod(v, f.width);
  }

  // No write of v to the field changes a bit outside the field.
  ghost predicate KeepsOthers(len: nat, base: nat, f: Layout, v: nat)
    requires Fits(len, base, f)
  {
    forall s: seq<Byte>, n: nat :: |s| == len && !(FirstBit(base, f) <= n < FirstBit(base, f) + f.width) ==>
      FieldBit(View(Put(s, base, f, v)), n) == FieldBit(View(s), n)
  }

  // The bits of v that the last byte of the field takes beyond the width of the field
  function Excess(f: Layout, v: nat): nat {
    if Spills(f) then v / Pow2(f.width) % Pow2(8 - Post(f)) else 0
  }

  lemma ExcessBit(f: Layout, v: nat, k: nat)
    requires Spills(f)
    ensures Bit(Excess(f, v), k) == (k < 8 - Post(f) && Bit(v, k + f.width))
  {
    ShrIsDiv(v, f.width);
    LowIsMod(Shr(v, f.width), 8 - Post(f));
    LowBit(Shr(v, f.width), 8 - Post(f), k);
    ShrBit(v, f.width, k);
  }

  lemma NoExcess(len: nat, base: nat, f: Layout, v: nat)
    requires Aligned(f) && Fits(len, base, f) && Excess(f, v) == 0
    ensures KeepsOthers(len, base, f, v)
  {
    var p := FirstBit(base, f);
    forall s: seq<Byte>, n: nat | |s| == len && !(p <= n < p + f.width)
      ensures FieldBit(View(Put(s, base, f, v)), n) == FieldBit(View(s), n)
    {
      PutFieldBit(s, base, f, v, n);
      if Spills(f) && n / 8 == LastByte(base, f) && p <= n {
        Positions(base, f);
        ExcessBit(f, v, n - p - f.width);
        ZeroBit(n - p - f.width);
      }
    }
  }

  lemma {:induction false} SomeBit(v: nat) returns (k: nat)
    requires v != 0
    ensures Bit(v, k)
    decreases v
  {
    if v % 2 == 1 {
      k := 0;
    } else {
      k := SomeBit(v / 2);
      k := k + 1;
    }
  }

  // A write of v keeps all bits outside the field, in every buffer, if and only if no bit
  // of v beyond the width of the field gets into its last byte.
  lemma KeepsOthersIff(len: nat, base: nat, f: Layout, v: nat)
    requires Aligned(f) && Fits(len, base, f)
    ensures KeepsOthers(len, base, f, v) <==> Excess(f, v) == 0
  {
    if Excess(f, v) == 0 {
      NoExcess(len, base, f, v);
    } else {
      var k := SomeBit(Excess(f, v));
      ExcessBit(f, v, k);
      var n := FirstBit(base, f) + f.width + k;
      var zeros: seq<Byte> := seq(len, i => 0);
      Positions(base, f);
      DivUnique(n, 8, LastByte(base, f), Post(f) + k);
      PutFieldBit(zeros, base, f, v, n);
      ZeroBit(n % 8);
    }
  }

  // Values that fit their field leave every field that shares no bit with it alone.
  lemma PutKeepsField(s: seq<Byte>, base: nat, f: Layout, v: nat, base': nat, g: Layout)
    requires Aligned(f) && Fits(|s|, base, f) && v < Pow2(f.width)
    requires Aligned(g) && g.width <= WORD_BITS
    requires FirstBit(base, f) + f.width <= FirstBit(base', g) || FirstBit(base', g) + g.width <= FirstBit(base, f)
    ensures Got(View(Put(s, base, f, v)), base', g) == Got(View(s), base', g)
  {
    var at := View(Put(s, base, f, v));
    SmallHasNoExcess(f, v);
    KeepsOthersIff(|s|, base, f, v);
    forall k: nat
      ensures Bit(Got(at, base', g), k) == Bit(Got(View(s), base', g), k)
    {
      AlignedGotBit(at, base', g, k);
      AlignedGotBit(View(s), base', g, k);
    }
    SameBits(Got(at, base', g), Got(View(s), base', g));
  }

  lemma SmallHasNoExcess(f: Layout, v: nat)
    requires v < Pow2(f.width)
    ensures Excess(f, v) == 0
  {
    DivUnique(v, Pow2(f.width), 0, v);
  }

  // All bytes of an aligned field lie in its word.
  lemma WordFits(len: nat, base: nat, f: Layout)
    requires Aligned(f) && InWord(base, f) && HasWord(len, base, f)
    ensures Fits(len, base, f)
  {
    var p := FirstBit(base, f);
    var j := p / 32;
    TouchedEnds(base, f);
    forall idx | FirstByte(base, f) <= idx < FirstByte(base, f) + Touched(f)
      ensures Flip(idx) < len
    {
      assert p < 8 * FirstByte(base, f) + 8 && 8 * idx < p + f.width <= 32 * j + 32;
      FlipBelow(idx, j);
    }
  }

  lemma FlipBelow(idx: nat, j: nat)
    requires idx < 4 * j + 4
    ensures Flip(idx) < 4 * j + 4
  {
  }

  lemma TouchedEnds(base: nat, f: Layout)
    requires Aligned(f) && 0 < f.width
    ensures 8 * (FirstByte(base, f) + Touched(f)) < FirstBit(base, f) + f.width + 8
  {
    Positions(base, f);
    if Single(f) {
      assert FirstBit(base, f) == 8 * FirstByte(base, f) + f.off % 8;
    } else {
      AlignedEnd(base, f);
    }
  }
}
