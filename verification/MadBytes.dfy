// The packets of mad_encode byte by byte, as they go on the wire.
module MadBytes {
  import opened Binary
  import opened BitFields
  import opened WideFields
  import opened Packet
  import opened MadHeaders

  // ---------------------------------------------------------------------------
  // The bytes behind a field

  // Bits off to off + w - 1 of the packet are the low bits of v.
  ghost predicate HoldsBits(s: seq<Byte>, off: nat, w: nat, v: nat) {
    forall k {:trigger Bit(v, k)} :: 0 <= k < w ==> FieldBit(View(s), off + k) == Bit(v, k)
  }

  lemma ReadsBits(s: seq<Byte>, f: Entry, v: nat)
    requires |s| == MAD_SIZE && Read(s, f) == v % Pow2(f.width)
    ensures HoldsBits(s, f.off, f.width, v)
  {
    forall k: nat | k < f.width
      ensures FieldBit(View(s), f.off + k) == Bit(v, k)
    {
      EntryBit(View(s), f, k);
      LowIsMod(v, f.width);
      LowBit(v, f.width, k);
    }
  }

  // Eight bits that begin at a byte are that byte.
  lemma ByteHeld(s: seq<Byte>, i: nat, v: nat)
    requires HoldsBits(s, 8 * i, 8, v)
    ensures View(s)(i) == v % 256
  {
    forall k: nat
      ensures Bit(View(s)(i), k) == Bit(ByteOf(v), k)
    {
      ByteFieldBit(View(s), i, k);
      ByteOfBit(v, k);
      if k < 8 {
        assert FieldBit(View(s), 8 * i + k) == Bit(v, k);
      }
    }
    SameBits(View(s)(i), ByteOf(v));
  }

  lemma HoldsLater(s: seq<Byte>, off: nat, w: nat, v: nat)
    requires HoldsBits(s, off, w, v) && 8 <= w
    ensures HoldsBits(s, off + 8, w - 8, v / 256)
  {
    forall k: nat | k < w - 8
      ensures FieldBit(View(s), off + 8 + k) == Bit(v / 256, k)
    {
      assert FieldBit(View(s), off + (8 + k)) == Bit(v, 8 + k);
      HighBit(v, k);
    }
  }

  lemma HighBit(v: nat, k: nat)
    ensures Bit(v, 8 + k) == Bit(v / 256, k)
  {
    Pow2Words();
    ShrIsDiv(v, 8);
    ShrBit(v, 8, k);
  }

  lemma FlipDown(i: nat)
    requires i < MAD_SIZE
    ensures Flip(i) < MAD_SIZE && (i % 4 < 3 ==> Flip(i + 1) + 1 == Flip(i))
  {
  }

  // n bytes of a word hold a number with its highest byte first; its lowest byte has field
  // index i.
  lemma {:induction false} BytesHeld(s: seq<Byte>, i: nat, n: nat, v: nat)
    requires |s| == MAD_SIZE && 0 < n && i % 4 + n <= 4 && i + n <= MAD_SIZE && HoldsBits(s, 8 * i, 8 * n, v)
    ensures var end := Flip(i) + 1; n <= end <= MAD_SIZE && s[end - n..end] == BigEndian(v, n)
    decreases n
  {
    FlipDown(i);
    ByteHeld(s, i, v);
    var end := Flip(i) + 1;
    assert s[end - 1] == ByteOf(v);
    if n == 1 {
      assert s[end - 1..end] == [ByteOf(v)] && BigEndian(v / 256, 0) == [];
    } else {
      HoldsLater(s, 8 * i, 8 * n, v);
      BytesHeld(s, i + 1, n - 1, v / 256);
      assert s[end - n..end] == s[end - n..end - 1] + [s[end - 1]];
    }
  }

  // A number of w bits with another one above it
  function Join(low: nat, w: nat, high: nat): nat {
    Low(low, w) + Shl(high, w)
  }

  lemma {:induction false} JoinBit(low: nat, w: nat, high: nat, k: nat)
    ensures Bit(Join(low, w, high), k) == if k < w then Bit(low, k) else Bit(high, k - w)
    decreases w
  {
    if w > 0 {
      var rest := Join(low / 2, w - 1, high);
      assert Join(low, w, high) == low % 2 + 2 * rest;
      assert Join(low, w, high) % 2 == low % 2 && Join(low, w, high) / 2 == rest;
      if k > 0 { JoinBit(low / 2, w - 1, high, k - 1); }
    }
  }

  // Two fields side by side hold a number together.
  lemma HoldsJoined(s: seq<Byte>, off: nat, w: nat, low: nat, high: nat)
    requires HoldsBits(s, off, w, low) && HoldsBits(s, off + w, 1, high)
    ensures HoldsBits(s, off, w + 1, Join(low, w, high))
  {
    forall k: nat | k < w + 1
      ensures FieldBit(View(s), off + k) == Bit(Join(low, w, high), k)
    {
      JoinBit(low, w, high, k);
      if k < w {
        assert FieldBit(View(s), off + k) == Bit(low, k);
      } else {
        assert FieldBit(View(s), off + w + 0) == Bit(high, 0);
      }
    }
  }

  lemma JoinIs(low: nat, w: nat, high: nat)
    ensures Join(low, w, high) == low % Pow2(w) + high * Pow2(w)
  {
    LowIsMod(low, w);
    ShlIsTimes(high, w);
  }

  // ---------------------------------------------------------------------------
  // The header

  // InOrder(t), unfolded only where it is named
  ghost predicate Ordered(t: MadTable) {
    forall u {:trigger InOrder(u)} :: u == t ==> InOrder(u)
  }

  lemma OrderedIs(t: MadTable)
    requires Ordered(t)
    ensures InOrder(t)
  {
  }

  // What the reading lemmas say of the bits of the fields
  lemma FirstWordHeld(s: seq<Byte>, t: MadTable, rpc: Rpc, path: DrPath, trid: nat, data: seq<Byte>, k: nat)
    requires |s| == MAD_SIZE && ArgsOk(rpc, path, data) && 24 <= rpc.dataoffs && InOrder(t) && k < 5
    ensures var w := FirstWord(t, rpc)[k]; HoldsBits(Encoded(s, t, rpc, path, trid, data), w.f.off, w.f.width, w.v)
  {
    FirstWordReads(s, t, rpc, path, trid, data, k);
    ReadsBits(Encoded(s, t, rpc, path, trid, data), FirstWord(t, rpc)[k].f, FirstWord(t, rpc)[k].v);
  }

  lemma SecondWordHeld(s: seq<Byte>, t: MadTable, rpc: Rpc, path: DrPath, trid: nat, data: seq<Byte>, k: nat)
    requires |s| == MAD_SIZE && ArgsOk(rpc, path, data) && 24 <= rpc.dataoffs && InOrder(t) && k < |SecondWord(t, rpc, path)|
    ensures var w := SecondWord(t, rpc, path)[k]; HoldsBits(Encoded(s, t, rpc, path, trid, data), w.f.off, w.f.width, w.v)
  {
    SecondWordReads(s, t, rpc, path, trid, data, k);
    ReadsBits(Encoded(s, t, rpc, path, trid, data), SecondWord(t, rpc, path)[k].f, SecondWord(t, rpc, path)[k].v);
  }

  lemma AttrHeld(s: seq<Byte>, t: MadTable, rpc: Rpc, path: DrPath, trid: nat, data: seq<Byte>, k: nat)
    requires |s| == MAD_SIZE && ArgsOk(rpc, path, data) && 24 <= rpc.dataoffs && InOrder(t) && 1 <= k <= 2
    ensures var w := Ids(t, rpc, trid)[k]; HoldsBits(Encoded(s, t, rpc, path, trid, data), w.f.off, w.f.width, w.v)
  {
    AttrReads(s, t, rpc, path, trid, data, k);
    ReadsBits(Encoded(s, t, rpc, path, trid, data), Ids(t, rpc, trid)[k].f, Ids(t, rpc, trid)[k].v);
  }

  // A field of one byte, and a field of several
  lemma HeldByte(s: seq<Byte>, f: Layout, v: nat, i: nat, j: nat)
    requires |s| == MAD_SIZE && i < MAD_SIZE && j == Flip(i) && Lies(f, 8 * i, 8) && HoldsBits(s, f.off, f.width, v) && v < 256
    ensures j < MAD_SIZE && s[j] == v
  {
    FlipDown(i);
    ByteHeld(s, i, v);
  }

  lemma HeldBytes(s: seq<Byte>, f: Layout, v: nat, i: nat, lo: nat, hi: nat)
    requires |s| == MAD_SIZE && Spans(f, i, lo, hi) && HoldsBits(s, f.off, f.width, v)
    ensures hi <= MAD_SIZE && s[lo..hi] == BigEndian(v, hi - lo)
  {
    BytesHeld(s, i, hi - lo, v);
  }

  // The entry is bytes lo to hi - 1 of the packet; its lowest byte has field index i.
  ghost predicate Spans(f: Layout, i: nat, lo: nat, hi: nat) {
    lo < hi && hi == Flip(i) + 1 && i % 4 + (hi - lo) <= 4 && i + (hi - lo) <= MAD_SIZE && Lies(f, 8 * i, 8 * (hi - lo))
  }

  // A field of the first word that is byte i
  lemma FirstWordByte(s: seq<Byte>, t: MadTable, rpc: Rpc, path: DrPath, trid: nat, data: seq<Byte>, k: nat, i: nat, j: nat, f: Entry, v: nat)
    requires |s| == MAD_SIZE && ArgsOk(rpc, path, data) && 24 <= rpc.dataoffs && Ordered(t) && k < 5
    requires i < MAD_SIZE && j == Flip(i) && FirstWord(t, rpc)[k] == Field(f, v) && Lies(f, 8 * i, 8) && v < 256
    ensures j < MAD_SIZE && Encoded(s, t, rpc, path, trid, data)[j] == v
  {
    OrderedIs(t);
    FirstWordHeld(s, t, rpc, path, trid, data, k);
    HeldByte(Encoded(s, t, rpc, path, trid, data), f, v, i, j);
  }

  lemma FirstWordAt(t: MadTable, rpc: Rpc)
    ensures var ws := FirstWord(t, rpc);
      && |ws| == 5 && ws[2] == Field(t.classVer, ClassVersion(rpc.mgtclass % 256)) && ws[3] == Field(t.mgmtClass, rpc.mgtclass % 256)
      && ws[4] == Field(t.baseVer, 1)
  {
  }

  // A field of the second word that is n bytes
  lemma SecondWordBytes(s: seq<Byte>, t: MadTable, rpc: Rpc, path: DrPath, trid: nat, data: seq<Byte>, k: nat, f: Entry, v: nat, i: nat,
    lo: nat, hi: nat)
    requires |s| == MAD_SIZE && ArgsOk(rpc, path, data) && 24 <= rpc.dataoffs && Ordered(t)
    requires k < |SecondWord(t, rpc, path)| && SecondWord(t, rpc, path)[k] == Field(f, v) && Spans(f, i, lo, hi)
    ensures hi <= MAD_SIZE && Encoded(s, t, rpc, path, trid, data)[lo..hi] == BigEndian(v, hi - lo)
  {
    OrderedIs(t);
    SecondWordHeld(s, t, rpc, path, trid, data, k);
    HeldBytes(Encoded(s, t, rpc, path, trid, data), f, v, i, lo, hi);
  }

  lemma StatusAt(t: MadTable, rpc: Rpc, path: DrPath)
    requires rpc.mgtclass % 256 != 0x81
    ensures var ws := SecondWord(t, rpc, path); 0 < |ws| && ws[0] == Field(t.status, rpc.rstatus)
  {
  }

  lemma HopsAt(t: MadTable, rpc: Rpc, path: DrPath)
    requires rpc.mgtclass % 256 == 0x81
    ensures var ws := SecondWord(t, rpc, path);
      1 < |ws| && ws[0] == Field(t.hopCnt, U32Of(path.cnt)) && ws[1] == Field(t.hopPtr, HopPtr(rpc, path))
  {
  }

  lemma DrStatusAt(t: MadTable, rpc: Rpc, path: DrPath)
    requires rpc.mgtclass % 256 == 0x81
    ensures var ws := SecondWord(t, rpc, path);
      3 < |ws| && ws[2] == Field(t.drStatus, rpc.rstatus) && ws[3] == Field(t.direction, rpc.method_ / 128 % 2)
  {
  }

  lemma AttrBytes(s: seq<Byte>, t: MadTable, rpc: Rpc, path: DrPath, trid: nat, data: seq<Byte>, k: nat, f: Entry, v: nat, i: nat,
    lo: nat, hi: nat)
    requires |s| == MAD_SIZE && ArgsOk(rpc, path, data) && 24 <= rpc.dataoffs && Ordered(t)
    requires 1 <= k <= 2 && Ids(t, rpc, trid)[k] == Field(f, v) && Spans(f, i, lo, hi)
    ensures hi <= MAD_SIZE && Encoded(s, t, rpc, path, trid, data)[lo..hi] == BigEndian(v, hi - lo)
  {
    OrderedIs(t);
    AttrHeld(s, t, rpc, path, trid, data, k);
    HeldBytes(Encoded(s, t, rpc, path, trid, data), f, v, i, lo, hi);
  }

  lemma AttrAt(t: MadTable, rpc: Rpc, trid: nat)
    ensures var ws := Ids(t, rpc, trid);
      |ws| == 4 && ws[1] == Field(t.attrId, rpc.attrId) && ws[2] == Field(t.attrMod, rpc.attrMod)
  {
  }

  // The byte of the method: seven bits, and the response bit
  lemma MethodHeld(s: seq<Byte>, m: nat)
    requires HoldsBits(s, 0, 7, m) && HoldsBits(s, 7, 1, m / 128 % 2)
    ensures View(s)(0) == m % 256
  {
    HoldsJoined(s, 0, 7, m, m / 128 % 2);
    ByteHeld(s, 0, Join(m, 7, m / 128 % 2));
    MethodJoined(m);
  }

  lemma MethodJoined(m: nat)
    ensures Join(m, 7, m / 128 % 2) % 256 == m % 256
  {
    JoinIs(m, 7, m / 128 % 2);
    Widths();
    MethodParts(m);
  }

  lemma MethodParts(m: nat)
    ensures (m % 128 + (m / 128 % 2) * 128) % 256 == m % 256
  {
  }

  lemma MethodByte(s: seq<Byte>, t: MadTable, rpc: Rpc, path: DrPath, trid: nat, data: seq<Byte>)
    requires |s| == MAD_SIZE && ArgsOk(rpc, path, data) && 24 <= rpc.dataoffs && Ordered(t) && Lies(t.method_, 0, 7) && Lies(t.response, 7, 1)
    ensures Encoded(s, t, rpc, path, trid, data)[3] == rpc.method_ % 256
  {
    OrderedIs(t);
    FirstWordHeld(s, t, rpc, path, trid, data, 0);
    FirstWordHeld(s, t, rpc, path, trid, data, 1);
    MethodHeld(Encoded(s, t, rpc, path, trid, data), rpc.method_);
  }

  function ClassVersion(class_: nat): Byte {
    if class_ == 0x3 || class_ == 0x21 then 2 else 1
  }

  lemma VersionByte(s: seq<Byte>, t: MadTable, rpc: Rpc, path: DrPath, trid: nat, data: seq<Byte>)
    requires |s| == MAD_SIZE && ArgsOk(rpc, path, data) && 24 <= rpc.dataoffs && Ordered(t) && Lies(t.classVer, 8, 8)
    ensures Encoded(s, t, rpc, path, trid, data)[2] == ClassVersion(rpc.mgtclass % 256)
  {
    FirstWordAt(t, rpc);
    FirstWordByte(s, t, rpc, path, trid, data, 2, 1, 2, t.classVer, ClassVersion(rpc.mgtclass % 256));
  }

  lemma ClassByte(s: seq<Byte>, t: MadTable, rpc: Rpc, path: DrPath, trid: nat, data: seq<Byte>)
    requires |s| == MAD_SIZE && ArgsOk(rpc, path, data) && 24 <= rpc.dataoffs && Ordered(t) && Lies(t.mgmtClass, 16, 8)
    ensures Encoded(s, t, rpc, path, trid, data)[1] == rpc.mgtclass % 256
  {
    FirstWordAt(t, rpc);
    FirstWordByte(s, t, rpc, path, trid, data, 3, 2, 1, t.mgmtClass, rpc.mgtclass % 256);
  }

  lemma BaseByte(s: seq<Byte>, t: MadTable, rpc: Rpc, path: DrPath, trid: nat, data: seq<Byte>)
    requires |s| == MAD_SIZE && ArgsOk(rpc, path, data) && 24 <= rpc.dataoffs && Ordered(t) && Lies(t.baseVer, 24, 8)
    ensures Encoded(s, t, rpc, path, trid, data)[0] == 1
  {
    FirstWordAt(t, rpc);
    FirstWordByte(s, t, rpc, path, trid, data, 4, 3, 0, t.baseVer, 1);
  }

  // The first four bytes: base version, class, class version, and the method with its
  // response bit
  lemma FirstBytes(s: seq<Byte>, t: MadTable, rpc: Rpc, path: DrPath, trid: nat, data: seq<Byte>)
    requires |s| == MAD_SIZE && ArgsOk(rpc, path, data) && 24 <= rpc.dataoffs && IsLibrary(t)
    ensures Encoded(s, t, rpc, path, trid, data)[0..4] ==
      [1, rpc.mgtclass % 256, if rpc.mgtclass % 256 == 0x3 || rpc.mgtclass % 256 == 0x21 then 2 else 1, rpc.method_ % 256]
  {
    TableInOrder(t);
    assert Ordered(t);
    BaseByte(s, t, rpc, path, trid, data);
    ClassByte(s, t, rpc, path, trid, data);
    VersionByte(s, t, rpc, path, trid, data);
    MethodByte(s, t, rpc, path, trid, data);
    FourBytes(Encoded(s, t, rpc, path, trid, data), 0);
  }

  lemma FourBytes(s: seq<Byte>, i: nat)
    requires i + 4 <= |s|
    ensures s[i..i + 4] == [s[i], s[i + 1], s[i + 2], s[i + 3]]
  {
  }

  // Bytes 4 and 5 of a packet that is not on a direct route
  lemma StatusBytes(s: seq<Byte>, t: MadTable, rpc: Rpc, path: DrPath, trid: nat, data: seq<Byte>)
    requires |s| == MAD_SIZE && ArgsOk(rpc, path, data) && 24 <= rpc.dataoffs && Ordered(t) && Lies(t.status, 48, 16) && rpc.mgtclass % 256 != 0x81
    ensures Encoded(s, t, rpc, path, trid, data)[4..6] == BigEndian(rpc.rstatus, 2)
  {
    StatusAt(t, rpc, path);
    SecondWordBytes(s, t, rpc, path, trid, data, 0, t.status, rpc.rstatus, 6, 4, 6);
  }

  // Bytes 6 and 7 on a direct route: hop pointer and hop count
  lemma HopBytes(s: seq<Byte>, t: MadTable, rpc: Rpc, path: DrPath, trid: nat, data: seq<Byte>)
    requires |s| == MAD_SIZE && ArgsOk(rpc, path, data) && 24 <= rpc.dataoffs && Ordered(t)
    requires rpc.mgtclass % 256 == 0x81 && Lies(t.hopCnt, 32, 8) && Lies(t.hopPtr, 40, 8)
    ensures Encoded(s, t, rpc, path, trid, data)[6..7] == BigEndian(HopPtr(rpc, path), 1)
    ensures Encoded(s, t, rpc, path, trid, data)[7..8] == BigEndian(U32Of(path.cnt), 1)
  {
    HopsAt(t, rpc, path);
    SecondWordBytes(s, t, rpc, path, trid, data, 0, t.hopCnt, U32Of(path.cnt), 4, 7, 8);
    SecondWordBytes(s, t, rpc, path, trid, data, 1, t.hopPtr, HopPtr(rpc, path), 5, 6, 7);
  }

  // Bytes 4 and 5 on a direct route: the direction bit and the status
  lemma DrStatusBytes(s: seq<Byte>, t: MadTable, rpc: Rpc, path: DrPath, trid: nat, data: seq<Byte>)
    requires |s| == MAD_SIZE && ArgsOk(rpc, path, data) && 24 <= rpc.dataoffs && Ordered(t)
    requires rpc.mgtclass % 256 == 0x81 && Lies(t.drStatus, 48, 15) && Lies(t.direction, 63, 1)
    ensures Encoded(s, t, rpc, path, trid, data)[4..6] == BigEndian(rpc.rstatus % 0x8000 + rpc.method_ / 128 % 2 * 0x8000, 2)
  {
    var r := Encoded(s, t, rpc, path, trid, data);
    OrderedIs(t);
    DrStatusAt(t, rpc, path);
    SecondWordHeld(s, t, rpc, path, trid, data, 2);
    SecondWordHeld(s, t, rpc, path, trid, data, 3);
    DirectionHeld(r, rpc.rstatus, rpc.method_ / 128 % 2);
  }

  lemma DirectionHeld(s: seq<Byte>, status: nat, direction: nat)
    requires |s| == MAD_SIZE && HoldsBits(s, 48, 15, status) && HoldsBits(s, 63, 1, direction)
    ensures s[4..6] == BigEndian(status % 0x8000 + direction * 0x8000, 2)
  {
    HoldsJoined(s, 48, 15, status, direction);
    DirectionJoined(status, direction);
    HeldBytes(s, Layout(48, 16), status % 0x8000 + direction * 0x8000, 6, 4, 6);
  }

  lemma DirectionJoined(status: nat, direction: nat)
    ensures Join(status, 15, direction) == status % 0x8000 + direction * 0x8000
  {
    JoinIs(status, 15, direction);
    Widths();
  }

  // Bytes 16 to 23: attribute id and, behind two bytes that are left alone, the modifier
  lemma AttrIdBytes(s: seq<Byte>, t: MadTable, rpc: Rpc, path: DrPath, trid: nat, data: seq<Byte>)
    requires |s| == MAD_SIZE && ArgsOk(rpc, path, data) && 24 <= rpc.dataoffs && Ordered(t) && Lies(t.attrId, 144, 16)
    ensures Encoded(s, t, rpc, path, trid, data)[16..18] == BigEndian(rpc.attrId, 2)
  {
    AttrAt(t, rpc, trid);
    AttrBytes(s, t, rpc, path, trid, data, 1, t.attrId, rpc.attrId, 18, 16, 18);
  }

  lemma AttrModBytes(s: seq<Byte>, t: MadTable, rpc: Rpc, path: DrPath, trid: nat, data: seq<Byte>)
    requires |s| == MAD_SIZE && ArgsOk(rpc, path, data) && 24 <= rpc.dataoffs && Ordered(t) && Lies(t.attrMod, 160, 32)
    ensures Encoded(s, t, rpc, path, trid, data)[20..24] == BigEndian(rpc.attrMod, 4)
  {
    AttrAt(t, rpc, trid);
    AttrBytes(s, t, rpc, path, trid, data, 2, t.attrMod, rpc.attrMod, 20, 20, 24);
  }

  // ---------------------------------------------------------------------------
  // Numbers of 64 bits

  // Eight bytes that no later store touches
  lemma WideBytes(s: seq<Byte>, ws: seq<Store>, k: nat)
    requires |s| == MAD_SIZE && AllOk(ws) && k < |ws| && ws[k].Wide? && ws[k].pos % 4 == 0
    requires LaterApart(8 * ws[k].pos, 8 * (ws[k].pos + 8), ws, k + 1)
    ensures DoAll(s, ws)[ws[k].pos..ws[k].pos + 8] == BigEndian(ws[k].n, 8)
  {
    var at := ws[k].pos;
    LaterKeepSlice(s, ws, k + 1, at, at + 8);
    DoAllNext(s, ws, k);
    BytesStored(DoAll(s, ws[..k]), at, BigEndian(ws[k].n, 8));
  }

  // A number of a segment whose later stores and segments start behind it
  lemma SegmentWide(s: seq<Byte>, before: seq<Store>, seg: seq<Store>, after: seq<Store>, k: nat, pos: nat, n: nat)
    requires |s| == MAD_SIZE && AllOk(before + seg + after) && k < |seg| && seg[k] == Wide(pos, n) && pos % 4 == 0 && pos + 8 <= MAD_SIZE
    requires LaterApart(8 * pos, 8 * (pos + 8), seg, k + 1) && StartsFrom(after, 8 * (pos + 8))
    ensures DoAll(s, before + seg + after)[pos..pos + 8] == BigEndian(n, 8)
  {
    LaterInSegment(before, seg, after, k, 8 * pos, 8 * (pos + 8));
    WideBytes(s, before + seg + after, |before| + k);
  }

  lemma IdsApart(t: MadTable, rpc: Rpc, trid: nat)
    requires InOrder(t)
    ensures LaterApart(64, 128, Ids(t, rpc, trid), 1) && LaterApart(192, 256, Ids(t, rpc, trid), 4)
  {
  }

  lemma TridBytes(s: seq<Byte>, t: MadTable, rpc: Rpc, path: DrPath, trid: nat, data: seq<Byte>)
    requires |s| == MAD_SIZE && ArgsOk(rpc, path, data) && 24 <= rpc.dataoffs && Ordered(t)
    ensures Encoded(s, t, rpc, path, trid, data)[8..16] == BigEndian(trid, 8)
  {
    OrderedIs(t);
    StoresOk(t, rpc, path, trid, data);
    SegmentsStart(t, rpc, path, trid, data);
    IdsApart(t, rpc, trid);
    SegmentWide(s, FirstWord(t, rpc) + SecondWord(t, rpc, path), Ids(t, rpc, trid), Body(t, rpc, path, data), 0, 8, trid);
  }

  // The stores behind the M_Key start at byte 32.
  lemma BodyStarts(t: MadTable, rpc: Rpc, path: DrPath, data: seq<Byte>)
    requires InOrder(t) && 32 <= rpc.dataoffs && rpc.mgtclass % 256 != 0x21
    ensures StartsFrom(Body(t, rpc, path, data), 256)
  {
    assert 8 <= rpc.dataoffs / 4;
    StartsJoin(Keys(rpc), DataStores(t, rpc, data), 256);
    PayloadIs(t, rpc, data);
    StartsJoin(Routing(t, rpc, path), Payload(t, rpc, data), 256);
  }

  function DataStores(t: MadTable, rpc: Rpc, data: seq<Byte>): seq<Store> {
    if 0x30 <= Class(rpc) <= 0x4f then [Bytes(rpc.dataoffs, data), Field(t.oui, rpc.oui)] else [Bytes(rpc.dataoffs, data)]
  }

  lemma PayloadIs(t: MadTable, rpc: Rpc, data: seq<Byte>)
    ensures Payload(t, rpc, data) == Keys(rpc) + DataStores(t, rpc, data)
  {
  }

  // Bytes 24 to 31: the M_Key, in all classes but congestion control
  lemma MkeyBytes(s: seq<Byte>, t: MadTable, rpc: Rpc, path: DrPath, trid: nat, data: seq<Byte>)
    requires |s| == MAD_SIZE && ArgsOk(rpc, path, data) && 24 <= rpc.dataoffs && Ordered(t) && 32 <= rpc.dataoffs && rpc.mgtclass % 256 != 0x21
    ensures Encoded(s, t, rpc, path, trid, data)[24..32] == BigEndian(rpc.mkey, 8)
  {
    OrderedIs(t);
    StoresOk(t, rpc, path, trid, data);
    BodyStarts(t, rpc, path, data);
    IdsApart(t, rpc, trid);
    SegmentWide(s, FirstWord(t, rpc) + SecondWord(t, rpc, path), Ids(t, rpc, trid), Body(t, rpc, path, data), 3, 24, rpc.mkey);
  }

  // ---------------------------------------------------------------------------
  // What follows the header

  // The stores before the keys and the data, and all of them
  function HeaderStores(t: MadTable, rpc: Rpc, path: DrPath, trid: nat): seq<Store> {
    FirstWord(t, rpc) + SecondWord(t, rpc, path) + Ids(t, rpc, trid) + Routing(t, rpc, path)
  }

  lemma StoresSplit(t: MadTable, rpc: Rpc, path: DrPath, trid: nat, data: seq<Byte>)
    requires ArgsOk(rpc, path, data)
    ensures Stores(t, rpc, path, trid, data) == HeaderStores(t, rpc, path, trid) + Keys(rpc) + DataStores(t, rpc, data)
    ensures AllOk(HeaderStores(t, rpc, path, trid) + Keys(rpc) + DataStores(t, rpc, data))
  {
    StoresOk(t, rpc, path, trid, data);
    PayloadIs(t, rpc, data);
    Regroup(FirstWord(t, rpc) + SecondWord(t, rpc, path) + Ids(t, rpc, trid), Routing(t, rpc, path), Payload(t, rpc, data));
    Regroup(HeaderStores(t, rpc, path, trid), Keys(rpc), DataStores(t, rpc, data));
  }

  lemma DataStart(t: MadTable, rpc: Rpc, data: seq<Byte>, bit: nat)
    requires bit % 32 == 0 && bit <= 8 * rpc.dataoffs && (0x30 <= Class(rpc) <= 0x4f ==> bit <= t.oui.off)
    ensures StartsFrom(DataStores(t, rpc, data), bit)
  {
    assert bit / 32 <= rpc.dataoffs / 4;
  }

  // Bytes 48 to 55 in subnet administration: the component mask
  lemma MaskBytes(s: seq<Byte>, t: MadTable, rpc: Rpc, path: DrPath, trid: nat, data: seq<Byte>)
    requires |s| == MAD_SIZE && ArgsOk(rpc, path, data) && 56 <= rpc.dataoffs && rpc.mgtclass % 256 == 0x3
    ensures Encoded(s, t, rpc, path, trid, data)[48..56] == BigEndian(rpc.mask, 8)
  {
    StoresSplit(t, rpc, path, trid, data);
    DataStart(t, rpc, data, 448);
    SegmentWide(s, HeaderStores(t, rpc, path, trid), Keys(rpc), DataStores(t, rpc, data), 0, 48, rpc.mask);
  }

  // Bytes 24 to 31 in congestion control: the key
  lemma CcKeyBytes(s: seq<Byte>, t: MadTable, rpc: Rpc, path: DrPath, trid: nat, data: seq<Byte>)
    requires |s| == MAD_SIZE && ArgsOk(rpc, path, data) && 32 <= rpc.dataoffs && rpc.mgtclass % 256 == 0x21
    ensures Encoded(s, t, rpc, path, trid, data)[24..32] == BigEndian(rpc.cckey, 8)
  {
    StoresSplit(t, rpc, path, trid, data);
    DataStart(t, rpc, data, 256);
    SegmentWide(s, HeaderStores(t, rpc, path, trid), Keys(rpc), DataStores(t, rpc, data), 0, 24, rpc.cckey);
  }

  lemma OneMore(s: seq<Byte>, ws: seq<Store>, w: Store)
    requires |s| == MAD_SIZE && AllOk(ws + [w])
    ensures AllOk(ws) && StoreOk(w) && DoAll(s, ws + [w]) == Do(DoAll(s, ws), w)
  {
    var all := ws + [w];
    assert all[|ws|] == w && all[..|ws|] == ws && all[..|ws| + 1] == all;
    DoAllNext(s, all, |ws|);
  }

  // The bytes of the last store
  lemma LastBytes(s: seq<Byte>, ws: seq<Store>, at: nat, bytes: seq<Byte>)
    requires |s| == MAD_SIZE && AllOk(ws + [Bytes(at, bytes)])
    ensures at + |bytes| <= MAD_SIZE && DoAll(s, ws + [Bytes(at, bytes)])[at..at + |bytes|] == bytes
  {
    OneMore(s, ws, Bytes(at, bytes));
    BytesStored(DoAll(s, ws), at, bytes);
  }

  lemma OuiKeepsBytes(s: seq<Byte>, f: Entry, v: nat, lo: nat, hi: nat)
    requires |s| == MAD_SIZE && Lies(f, 288, 24) && 40 <= lo <= hi <= MAD_SIZE
    ensures Do(s, Field(f, v))[lo..hi] == s[lo..hi]
  {
    forall m | lo <= m < hi
      ensures Do(s, Field(f, v))[m] == s[m]
    {
      FlipFar(m);
      OuiEnd(f, v);
      DoKeepsByte(s, Field(f, v), Flip(m));
    }
  }

  lemma FlipFar(m: nat)
    requires 40 <= m < MAD_SIZE
    ensures 40 <= Flip(m) < MAD_SIZE && Flip(Flip(m)) == m
  {
  }

  lemma OuiEnd(f: Entry, v: nat)
    requires Lies(f, 288, 24)
    ensures EndBit(Field(f, v)) == 312
  {
  }

  lemma DataThenOui(s: seq<Byte>, ws: seq<Store>, at: nat, bytes: seq<Byte>, f: Entry, v: nat)
    requires |s| == MAD_SIZE && AllOk(ws + [Bytes(at, bytes)] + [Field(f, v)]) && Lies(f, 288, 24) && 40 <= at
    ensures at + |bytes| <= MAD_SIZE && DoAll(s, ws + [Bytes(at, bytes)] + [Field(f, v)])[at..at + |bytes|] == bytes
  {
    OneMore(s, ws + [Bytes(at, bytes)], Field(f, v));
    LastBytes(s, ws, at, bytes);
    OuiAfter(DoAll(s, ws + [Bytes(at, bytes)]), at, bytes, f, v);
  }

  lemma OuiAfter(s: seq<Byte>, at: nat, bytes: seq<Byte>, f: Entry, v: nat)
    requires |s| == MAD_SIZE && Lies(f, 288, 24) && 40 <= at && at + |bytes| <= MAD_SIZE && s[at..at + |bytes|] == bytes
    ensures Do(s, Field(f, v))[at..at + |bytes|] == bytes
  {
    var hi := at + |bytes|;
    assert hi <= MAD_SIZE;
    OuiKeepsBytes(s, f, v, at, hi);
  }

  // In the vendor classes of range 2 the OUI is stored last.
  lemma VendorSplit(t: MadTable, rpc: Rpc, path: DrPath, trid: nat, data: seq<Byte>)
    requires ArgsOk(rpc, path, data) && 0x30 <= rpc.mgtclass % 256 <= 0x4f
    ensures var all := HeaderStores(t, rpc, path, trid) + Keys(rpc) + [Bytes(rpc.dataoffs, data)] + [Field(t.oui, rpc.oui)];
      Stores(t, rpc, path, trid, data) == all && AllOk(all)
  {
    StoresSplit(t, rpc, path, trid, data);
    Regroup(HeaderStores(t, rpc, path, trid) + Keys(rpc), [Bytes(rpc.dataoffs, data)], [Field(t.oui, rpc.oui)]);
    assert DataStores(t, rpc, data) == [Bytes(rpc.dataoffs, data)] + [Field(t.oui, rpc.oui)];
  }

  lemma VendorDataBytes(s: seq<Byte>, t: MadTable, rpc: Rpc, path: DrPath, trid: nat, data: seq<Byte>)
    requires |s| == MAD_SIZE && ArgsOk(rpc, path, data) && Lies(t.oui, 288, 24)
    requires 0x30 <= rpc.mgtclass % 256 <= 0x4f && 40 <= rpc.dataoffs
    ensures Encoded(s, t, rpc, path, trid, data)[rpc.dataoffs..rpc.dataoffs + |data|] == data
  {
    VendorSplit(t, rpc, path, trid, data);
    DataThenOui(s, HeaderStores(t, rpc, path, trid) + Keys(rpc), rpc.dataoffs, data, t.oui, rpc.oui);
  }

  // The data block, in every class; in the vendor classes of range 2 it lies behind the OUI.
  lemma DataBytes(s: seq<Byte>, t: MadTable, rpc: Rpc, path: DrPath, trid: nat, data: seq<Byte>)
    requires |s| == MAD_SIZE && ArgsOk(rpc, path, data) && Lies(t.oui, 288, 24)
    requires 0x30 <= rpc.mgtclass % 256 <= 0x4f ==> 40 <= rpc.dataoffs
    ensures Encoded(s, t, rpc, path, trid, data)[rpc.dataoffs..rpc.dataoffs + |data|] == data
  {
    if 0x30 <= rpc.mgtclass % 256 <= 0x4f {
      VendorDataBytes(s, t, rpc, path, trid, data);
    } else {
      PlainDataBytes(s, t, rpc, path, trid, data);
    }
  }

  // In all other classes the data is stored last.
  lemma PlainSplit(t: MadTable, rpc: Rpc, path: DrPath, trid: nat, data: seq<Byte>)
    requires ArgsOk(rpc, path, data) && !(0x30 <= rpc.mgtclass % 256 <= 0x4f)
    ensures var all := HeaderStores(t, rpc, path, trid) + Keys(rpc) + [Bytes(rpc.dataoffs, data)];
      Stores(t, rpc, path, trid, data) == all && AllOk(all)
  {
    StoresSplit(t, rpc, path, trid, data);
  }

  lemma DataLast(s: seq<Byte>, t: MadTable, rpc: Rpc, path: DrPath, trid: nat, data: seq<Byte>, ws: seq<Store>)
    requires |s| == MAD_SIZE && ArgsOk(rpc, path, data) && AllOk(ws + [Bytes(rpc.dataoffs, data)])
    requires Stores(t, rpc, path, trid, data) == ws + [Bytes(rpc.dataoffs, data)]
    ensures Encoded(s, t, rpc, path, trid, data)[rpc.dataoffs..rpc.dataoffs + |data|] == data
  {
    LastBytes(s, ws, rpc.dataoffs, data);
  }

  lemma PlainDataBytes(s: seq<Byte>, t: MadTable, rpc: Rpc, path: DrPath, trid: nat, data: seq<Byte>)
    requires |s| == MAD_SIZE && ArgsOk(rpc, path, data) && !(0x30 <= rpc.mgtclass % 256 <= 0x4f)
    ensures Encoded(s, t, rpc, path, trid, data)[rpc.dataoffs..rpc.dataoffs + |data|] == data
  {
    PlainSplit(t, rpc, path, trid, data);
    DataLast(s, t, rpc, path, trid, data, HeaderStores(t, rpc, path, trid) + Keys(rpc));
  }

  // Bytes 37 to 39 in the vendor classes of range 2: the OUI
  lemma OuiBytes(s: seq<Byte>, t: MadTable, rpc: Rpc, path: DrPath, trid: nat, data: seq<Byte>)
    requires |s| == MAD_SIZE && ArgsOk(rpc, path, data) && Lies(t.oui, 288, 24) && 0x30 <= rpc.mgtclass % 256 <= 0x4f
    ensures Encoded(s, t, rpc, path, trid, data)[37..40] == BigEndian(rpc.oui, 3)
  {
    VendorSplit(t, rpc, path, trid, data);
    LastField(s, HeaderStores(t, rpc, path, trid) + Keys(rpc) + [Bytes(rpc.dataoffs, data)], t.oui, rpc.oui);
    HeldBytes(Encoded(s, t, rpc, path, trid, data), t.oui, rpc.oui, 36, 37, 40);
  }

  lemma LastField(s: seq<Byte>, ws: seq<Store>, f: Entry, v: nat)
    requires |s| == MAD_SIZE && AllOk(ws + [Field(f, v)])
    ensures HoldsBits(DoAll(s, ws + [Field(f, v)]), f.off, f.width, v)
  {
    FieldReads(s, ws + [Field(f, v)], |ws|);
    ReadsBits(DoAll(s, ws + [Field(f, v)]), f, v);
  }

  // Bytes 32 to 35 on a direct route: source and destination LID, 0xffff for zero
  lemma DestLidBytes(s: seq<Byte>, t: MadTable, rpc: Rpc, path: DrPath, trid: nat, data: seq<Byte>)
    requires |s| == MAD_SIZE && ArgsOk(rpc, path, data) && Ordered(t) && rpc.mgtclass % 256 == 0x81
    requires 64 <= rpc.dataoffs && rpc.dataoffs + |data| <= 128 && Lies(t.drDlid, 256, 16)
    ensures Encoded(s, t, rpc, path, trid, data)[34..36] == BigEndian(if path.drdlid == 0 then 0xffff else path.drdlid, 2)
  {
    RouteLidsAt(t, rpc, path);
    RouteLidBytes(s, t, rpc, path, trid, data, 0, t.drDlid, if path.drdlid == 0 then 0xffff else path.drdlid, 32, 34, 36);
  }

  lemma SourceLidBytes(s: seq<Byte>, t: MadTable, rpc: Rpc, path: DrPath, trid: nat, data: seq<Byte>)
    requires |s| == MAD_SIZE && ArgsOk(rpc, path, data) && Ordered(t) && rpc.mgtclass % 256 == 0x81
    requires 64 <= rpc.dataoffs && rpc.dataoffs + |data| <= 128 && Lies(t.drSlid, 272, 16)
    ensures Encoded(s, t, rpc, path, trid, data)[32..34] == BigEndian(if path.drslid == 0 then 0xffff else path.drslid, 2)
  {
    RouteLidsAt(t, rpc, path);
    RouteLidBytes(s, t, rpc, path, trid, data, 1, t.drSlid, if path.drslid == 0 then 0xffff else path.drslid, 34, 32, 34);
  }

  lemma RouteLidsAt(t: MadTable, rpc: Rpc, path: DrPath)
    requires rpc.mgtclass % 256 == 0x81
    ensures var ws := Routing(t, rpc, path);
      && 1 < |ws| && ws[0] == Field(t.drDlid, if path.drdlid == 0 then 0xffff else path.drdlid)
      && ws[1] == Field(t.drSlid, if path.drslid == 0 then 0xffff else path.drslid)
  {
  }

  lemma RouteLidBytes(s: seq<Byte>, t: MadTable, rpc: Rpc, path: DrPath, trid: nat, data: seq<Byte>, k: nat, f: Entry, v: nat, i: nat,
    lo: nat, hi: nat)
    requires |s| == MAD_SIZE && ArgsOk(rpc, path, data) && Ordered(t) && rpc.mgtclass % 256 == 0x81
    requires 64 <= rpc.dataoffs && rpc.dataoffs + |data| <= 128 && k < 2
    requires k < |Routing(t, rpc, path)| && Routing(t, rpc, path)[k] == Field(f, v) && Spans(f, i, lo, hi)
    ensures hi <= MAD_SIZE && Encoded(s, t, rpc, path, trid, data)[lo..hi] == BigEndian(v, hi - lo)
  {
    OrderedIs(t);
    RouteLidHeld(s, t, rpc, path, trid, data, k);
    HeldBytes(Encoded(s, t, rpc, path, trid, data), f, v, i, lo, hi);
  }

  lemma RouteLidHeld(s: seq<Byte>, t: MadTable, rpc: Rpc, path: DrPath, trid: nat, data: seq<Byte>, k: nat)
    requires |s| == MAD_SIZE && ArgsOk(rpc, path, data) && InOrder(t) && IsDirect(rpc)
    requires 64 <= rpc.dataoffs && rpc.dataoffs + |data| <= 128 && k < 2
    ensures var w := Routing(t, rpc, path)[k]; HoldsBits(Encoded(s, t, rpc, path, trid, data), w.f.off, w.f.width, w.v)
  {
    RouteLidsRead(s, t, rpc, path, trid, data, k);
    ReadsBits(Encoded(s, t, rpc, path, trid, data), Routing(t, rpc, path)[k].f, Routing(t, rpc, path)[k].v);
  }

  // ---------------------------------------------------------------------------
  // The whole packet with the table of the library

  // The header of a packet that is not on a direct route, behind its first word
  lemma HeaderBytes(s: seq<Byte>, t: MadTable, rpc: Rpc, path: DrPath, trid: nat, data: seq<Byte>)
    requires |s| == MAD_SIZE && ArgsOk(rpc, path, data) && 24 <= rpc.dataoffs && IsLibrary(t)
    ensures var r := Encoded(s, t, rpc, path, trid, data);
      && (rpc.mgtclass % 256 != 0x81 ==> r[4..6] == BigEndian(rpc.rstatus, 2))
      && (rpc.mgtclass % 256 == 0x81 ==>
            && r[4..6] == BigEndian(rpc.rstatus % 0x8000 + rpc.method_ / 128 % 2 * 0x8000, 2)
            && r[6..7] == BigEndian(if rpc.method_ / 128 % 2 == 1 then (path.cnt + 1) % 0x1_0000_0000 else 0, 1)
            && r[7..8] == BigEndian(path.cnt % 0x1_0000_0000, 1))
      && r[8..16] == BigEndian(trid, 8) && r[16..18] == BigEndian(rpc.attrId, 2) && r[20..24] == BigEndian(rpc.attrMod, 4)
  {
    TableInOrder(t);
    assert Ordered(t);
    if rpc.mgtclass % 256 == 0x81 {
      HopBytes(s, t, rpc, path, trid, data);
      DrStatusBytes(s, t, rpc, path, trid, data);
    } else {
      StatusBytes(s, t, rpc, path, trid, data);
    }
    TridBytes(s, t, rpc, path, trid, data);
    AttrIdBytes(s, t, rpc, path, trid, data);
    AttrModBytes(s, t, rpc, path, trid, data);
  }

  // The keys of the classes
  lemma KeyBytes(s: seq<Byte>, t: MadTable, rpc: Rpc, path: DrPath, trid: nat, data: seq<Byte>)
    requires |s| == MAD_SIZE && ArgsOk(rpc, path, data) && 32 <= rpc.dataoffs && IsLibrary(t)
    ensures var r := Encoded(s, t, rpc, path, trid, data);
      && r[24..32] == BigEndian(if rpc.mgtclass % 256 == 0x21 then rpc.cckey else rpc.mkey, 8)
      && (rpc.mgtclass % 256 == 0x3 && 56 <= rpc.dataoffs ==> r[48..56] == BigEndian(rpc.mask, 8))
      && (0x30 <= rpc.mgtclass % 256 <= 0x4f ==> r[37..40] == BigEndian(rpc.oui, 3))
  {
    TableInOrder(t);
    assert Ordered(t);
    if rpc.mgtclass % 256 == 0x21 {
      CcKeyBytes(s, t, rpc, path, trid, data);
    } else {
      MkeyBytes(s, t, rpc, path, trid, data);
    }
    if rpc.mgtclass % 256 == 0x3 && 56 <= rpc.dataoffs { MaskBytes(s, t, rpc, path, trid, data); }
    if 0x30 <= rpc.mgtclass % 256 <= 0x4f { OuiBytes(s, t, rpc, path, trid, data); }
  }

  // The LIDs and the path of a direct route; a response carries it as its return path.
  lemma RouteBytes(s: seq<Byte>, t: MadTable, rpc: Rpc, path: DrPath, trid: nat, data: seq<Byte>)
    requires |s| == MAD_SIZE && ArgsOk(rpc, path, data) && IsLibrary(t) && rpc.mgtclass % 256 == 0x81
    requires 64 <= rpc.dataoffs && rpc.dataoffs + |data| <= 128
    ensures var r := Encoded(s, t, rpc, path, trid, data);
      && r[32..34] == BigEndian(if path.drslid == 0 then 0xffff else path.drslid, 2)
      && r[34..36] == BigEndian(if path.drdlid == 0 then 0xffff else path.drdlid, 2)
      && (if rpc.method_ / 128 % 2 == 1 then r[192..256] else r[128..192]) == path.p
  {
    PathReads(s, t, rpc, path, trid, data);
    TableInOrder(t);
    assert Ordered(t);
    SourceLidBytes(s, t, rpc, path, trid, data);
    DestLidBytes(s, t, rpc, path, trid, data);
  }
}
