// mad_encode of libibmad/src/mad.c: a request is written into a packet field by field, and
// the fields can be read back.
module Packet {
  import opened Wrappers
  import opened Binary
  import opened BitFields
  import opened WideFields

  const MAD_SIZE := 256
  const HOPS_MAX := 64

  const SMI_DIRECT_CLASS := 0x81
  const SA_CLASS := 0x3
  const CC_CLASS := 0x21

  // A field inside a word of a packet that begins or ends at the edge of a byte, runs over
  // one with its odd bits, or lies inside a byte
  predicate Sound(f: Layout) {
    && 0 < f.width && f.off % 32 + f.width <= 32 && f.off < 8 * MAD_SIZE
    && (f.off % 8 == 0 || f.off % 8 + f.width % 8 >= 8 || f.off % 8 + f.width < 8)
  }

  lemma SoundIs(f: Layout)
    requires Sound(f)
    ensures Aligned(f) && InWord(0, f) && HasWord(MAD_SIZE, 0, f) && Fits(MAD_SIZE, 0, f)
  {
    assert f.width == 8 * (f.width / 8) + f.width % 8;
    PostIs(f.off, f.width);
    WordFits(MAD_SIZE, 0, f);
  }

  type Entry = f: Layout | Sound(f) witness Layout(0, 8)

  // The entries of the layout table that mad_encode uses
  datatype MadTable = MadTable(
    method_: Entry, response: Entry, classVer: Entry, mgmtClass: Entry, baseVer: Entry, hopCnt: Entry, hopPtr: Entry,
    status: Entry, drStatus: Entry, direction: Entry, attrId: Entry, attrMod: Entry, drDlid: Entry, drSlid: Entry, oui: Entry)

  // Byte offsets of the 64-bit fields and of the two paths
  const TRID := 8
  const MKEY := 24
  const CC_KEY := 24
  const COMP_MASK := 48
  const PATH := 128
  const RETURN_PATH := 192

  // ib_rpc_t
  datatype Rpc = Rpc(mgtclass: nat, method_: nat, attrId: nat, attrMod: nat, rstatus: nat, oui: nat, dataoffs: nat,
                     trid: nat, mkey: nat, mask: nat, cckey: nat)

  datatype DrPath = DrPath(cnt: int, p: seq<Byte>, drslid: nat, drdlid: nat)

  // ---------------------------------------------------------------------------
  // Stores into a packet

  // A field, bytes, or a 64-bit number
  datatype Store = Field(f: Entry, v: nat) | Bytes(at: nat, bytes: seq<Byte>) | Wide(pos: nat, n: nat)

  predicate StoreOk(w: Store) {
    (w.Bytes? ==> w.at + |w.bytes| <= MAD_SIZE) && (w.Wide? ==> w.pos + 8 <= MAD_SIZE)
  }

  function WithBytes(s: seq<Byte>, at: nat, bytes: seq<Byte>): (r: seq<Byte>)
    requires at + |bytes| <= |s|
    ensures |r| == |s|
  {
    s[..at] + bytes + s[at + |bytes|..]
  }

  function Do(s: seq<Byte>, w: Store): (r: seq<Byte>)
    requires |s| == MAD_SIZE && StoreOk(w)
    ensures |r| == MAD_SIZE
  {
    match w
    case Field(f, v) =>
      SoundIs(f);
      Put(s, 0, f, v)
    case Bytes(at, bytes) => WithBytes(s, at, bytes)
    case Wide(at, n) => WithBytes(s, at, BigEndian(n, 8))
  }

  predicate AllOk(ws: seq<Store>) {
    forall i :: 0 <= i < |ws| ==> StoreOk(ws[i])
  }

  function DoAll(s: seq<Byte>, ws: seq<Store>): (r: seq<Byte>)
    requires |s| == MAD_SIZE && AllOk(ws)
    ensures |r| == MAD_SIZE
  {
    if ws == [] then s else Do(DoAll(s, ws[..|ws| - 1]), ws[|ws| - 1])
  }

  // The bits that a store can change: a field may spill into the rest of its last byte,
  // and bytes are counted by whole words.
  function StartBit(w: Store): nat {
    match w
    case Field(f, v) => f.off
    case Bytes(at, bytes) => 32 * (at / 4)
    case Wide(at, n) => 32 * (at / 4)
  }

  function EndBit(w: Store): nat {
    match w
    case Field(f, v) => if Spills(f) then 8 * (LastByte(0, f) + 1) else f.off + f.width
    case Bytes(at, bytes) => 32 * ((at + |bytes| + 3) / 4)
    case Wide(at, n) => 32 * ((at + 8 + 3) / 4)
  }

  predicate Apart(lo: nat, hi: nat, w: Store) { hi <= StartBit(w) || EndBit(w) <= lo }

  // No store from number k on touches the bits.
  predicate LaterApart(lo: nat, hi: nat, ws: seq<Store>, k: nat) {
    forall j :: k <= j < |ws| ==> Apart(lo, hi, ws[j])
  }

  lemma DoKeepsBit(s: seq<Byte>, w: Store, n: nat)
    requires |s| == MAD_SIZE && StoreOk(w) && (n < StartBit(w) || EndBit(w) <= n)
    ensures FieldBit(View(Do(s, w)), n) == FieldBit(View(s), n)
  {
    match w
    case Field(f, v) =>
      SoundIs(f);
      PutFieldBit(s, 0, f, v, n);
    case Bytes(at, bytes) =>
      BytesKeep(s, at, bytes, n / 8);
    case Wide(at, v) =>
      BytesKeep(s, at, BigEndian(v, 8), n / 8);
  }

  lemma BytesKeep(s: seq<Byte>, at: nat, bytes: seq<Byte>, idx: nat)
    requires |s| == MAD_SIZE && at + |bytes| <= MAD_SIZE
    requires idx < 4 * (at / 4) || 4 * ((at + |bytes| + 3) / 4) <= idx
    ensures View(WithBytes(s, at, bytes))(idx) == View(s)(idx)
  {
    assert Flip(idx) < at || at + |bytes| <= Flip(idx);
  }

  lemma DoKeepsFieldBit(s: seq<Byte>, w: Store, g: Entry, k: nat)
    requires |s| == MAD_SIZE && StoreOk(w) && Apart(g.off, g.off + g.width, w)
    ensures Bit(Got(View(Do(s, w)), 0, g), k) == Bit(Got(View(s), 0, g), k)
  {
    EntryBit(View(Do(s, w)), g, k);
    EntryBit(View(s), g, k);
    if k < g.width { DoKeepsBit(s, w, g.off + k); }
  }

  lemma EntryBit(at: BitFields.Bytes, g: Entry, k: nat)
    ensures Bit(Got(at, 0, g), k) == (k < g.width && FieldBit(at, g.off + k))
  {
    SoundIs(g);
    LayoutBit(at, g, k);
  }

  lemma LayoutBit(at: BitFields.Bytes, f: Layout, k: nat)
    requires Aligned(f) && f.width <= WORD_BITS
    ensures Bit(Got(at, 0, f), k) == (k < f.width && FieldBit(at, f.off + k))
  {
    AlignedGotBit(at, 0, f, k);
  }

  lemma DoKeepsField(s: seq<Byte>, w: Store, g: Entry)
    requires |s| == MAD_SIZE && StoreOk(w) && Apart(g.off, g.off + g.width, w)
    ensures Got(View(Do(s, w)), 0, g) == Got(View(s), 0, g)
  {
    forall k: nat
      ensures Bit(Got(View(Do(s, w)), 0, g), k) == Bit(Got(View(s), 0, g), k)
    {
      DoKeepsFieldBit(s, w, g, k);
    }
    SameBits(Got(View(Do(s, w)), 0, g), Got(View(s), 0, g));
  }

  lemma {:induction false} LaterKeepField(s: seq<Byte>, ws: seq<Store>, k: nat, g: Entry)
    requires |s| == MAD_SIZE && AllOk(ws) && k <= |ws| && LaterApart(g.off, g.off + g.width, ws, k)
    ensures Got(View(DoAll(s, ws)), 0, g) == Got(View(DoAll(s, ws[..k])), 0, g)
    decreases |ws|
  {
    if k == |ws| {
      assert ws[..k] == ws;
    } else {
      var m := |ws| - 1;
      Front(g.off, g.off + g.width, ws, k);
      LaterKeepField(s, ws[..m], k, g);
      DoKeepsField(DoAll(s, ws[..m]), ws[m], g);
    }
  }

  // A field that no later store touches reads as the value stored.
  lemma FieldReads(s: seq<Byte>, ws: seq<Store>, k: nat)
    requires |s| == MAD_SIZE && AllOk(ws) && k < |ws| && ws[k].Field?
    requires LaterApart(ws[k].f.off, ws[k].f.off + ws[k].f.width, ws, k + 1)
    ensures Got(View(DoAll(s, ws)), 0, ws[k].f) == ws[k].v % Pow2(ws[k].f.width)
  {
    var s1 := DoAll(s, ws[..k]);
    LaterKeepField(s, ws, k + 1, ws[k].f);
    assert ws[..k + 1][..k] == ws[..k];
    SoundIs(ws[k].f);
    PutThenGet(s1, 0, ws[k].f, ws[k].v);
  }

  // One store more
  lemma DoAllNext(s: seq<Byte>, ws: seq<Store>, k: nat)
    requires |s| == MAD_SIZE && AllOk(ws) && k < |ws|
    ensures AllOk(ws[..k]) && AllOk(ws[..k + 1]) && StoreOk(ws[k])
    ensures DoAll(s, ws[..k + 1]) == Do(DoAll(s, ws[..k]), ws[k])
  {
    assert ws[..k + 1][..k] == ws[..k];
  }

  // The stores up to the last
  lemma Front(lo: nat, hi: nat, ws: seq<Store>, k: nat)
    requires AllOk(ws) && k < |ws| && LaterApart(lo, hi, ws, k)
    ensures var m := |ws| - 1;
      AllOk(ws[..m]) && LaterApart(lo, hi, ws[..m], k) && StoreOk(ws[m]) && Apart(lo, hi, ws[m]) && ws[..m][..k] == ws[..k]
  {
  }

  // A byte that a store does not touch
  lemma DoKeepsByte(s: seq<Byte>, w: Store, idx: nat)
    requires |s| == MAD_SIZE && StoreOk(w) && (8 * idx + 8 <= StartBit(w) || EndBit(w) <= 8 * idx)
    ensures View(Do(s, w))(idx) == View(s)(idx)
  {
    var at, at' := View(s), View(Do(s, w));
    forall k: nat
      ensures Bit(at'(idx), k) == Bit(at(idx), k)
    {
      ByteFieldBit(at', idx, k);
      ByteFieldBit(at, idx, k);
      if k < 8 { DoKeepsBit(s, w, 8 * idx + k); }
    }
    SameBits(at'(idx), at(idx));
  }

  // Whole words that a store does not touch
  lemma DoKeepsSlice(s: seq<Byte>, w: Store, lo: nat, hi: nat)
    requires |s| == MAD_SIZE && StoreOk(w) && lo % 4 == 0 && hi % 4 == 0 && lo <= hi <= MAD_SIZE && Apart(8 * lo, 8 * hi, w)
    ensures Do(s, w)[lo..hi] == s[lo..hi]
  {
    forall m | lo <= m < hi
      ensures Do(s, w)[m] == s[m]
    {
      FlipWithin(m, lo, hi);
      DoKeepsByte(s, w, Flip(m));
    }
  }

  lemma FlipWithin(m: nat, lo: nat, hi: nat)
    requires lo % 4 == 0 && hi % 4 == 0 && lo <= m < hi
    ensures lo <= Flip(m) < hi && Flip(Flip(m)) == m
  {
  }

  lemma {:induction false} LaterKeepSlice(s: seq<Byte>, ws: seq<Store>, k: nat, lo: nat, hi: nat)
    requires |s| == MAD_SIZE && AllOk(ws) && k <= |ws| && lo % 4 == 0 && hi % 4 == 0 && lo <= hi <= MAD_SIZE
    requires LaterApart(8 * lo, 8 * hi, ws, k)
    ensures DoAll(s, ws)[lo..hi] == DoAll(s, ws[..k])[lo..hi]
    decreases |ws|
  {
    if k == |ws| {
      assert ws[..k] == ws;
    } else {
      var m := |ws| - 1;
      Front(8 * lo, 8 * hi, ws, k);
      LaterKeepSlice(s, ws[..m], k, lo, hi);
      DoKeepsSlice(DoAll(s, ws[..m]), ws[m], lo, hi);
    }
  }

  // Bytes that no later store touches are read back.
  lemma BytesRead(s: seq<Byte>, ws: seq<Store>, k: nat)
    requires |s| == MAD_SIZE && AllOk(ws) && k < |ws| && ws[k].Bytes? && ws[k].at % 4 == 0 && |ws[k].bytes| % 4 == 0
    requires LaterApart(8 * ws[k].at, 8 * (ws[k].at + |ws[k].bytes|), ws, k + 1)
    ensures DoAll(s, ws)[ws[k].at..ws[k].at + |ws[k].bytes|] == ws[k].bytes
  {
    var at, bytes := ws[k].at, ws[k].bytes;
    LaterKeepSlice(s, ws, k + 1, at, at + |bytes|);
    DoAllNext(s, ws, k);
    BytesStored(DoAll(s, ws[..k]), at, bytes);
  }

  lemma BytesStored(s: seq<Byte>, at: nat, bytes: seq<Byte>)
    requires at + |bytes| <= |s|
    ensures WithBytes(s, at, bytes)[at..at + |bytes|] == bytes
  {
  }

  // A 64-bit number that no later store touches is read back.
  lemma WideReads(s: seq<Byte>, ws: seq<Store>, k: nat)
    requires |s| == MAD_SIZE && AllOk(ws) && k < |ws| && ws[k].Wide? && ws[k].pos % 4 == 0
    requires LaterApart(8 * ws[k].pos, 8 * (ws[k].pos + 8), ws, k + 1)
    ensures Number(DoAll(s, ws)[ws[k].pos..ws[k].pos + 8]) == ws[k].n % Pow2(64)
  {
    var at := ws[k].pos;
    LaterKeepSlice(s, ws, k + 1, at, at + 8);
    DoAllNext(s, ws, k);
    WideStored(DoAll(s, ws[..k]), at, ws[k].n, 8);
  }

  lemma WideStored(s: seq<Byte>, at: nat, n: nat, size: nat)
    requires at + size <= |s|
    ensures Number(WithBytes(s, at, BigEndian(n, size))[at..at + size]) == n % Pow2(8 * size)
  {
    assert WithBytes(s, at, BigEndian(n, size))[at..at + size] == BigEndian(n, size);
    NumberOfBigEndian(n, size);
  }

  // ---------------------------------------------------------------------------
  // The stores of mad_encode

  function Class(rpc: Rpc): nat { rpc.mgtclass % 256 }
  function IsResp(rpc: Rpc): nat { rpc.method_ / 128 % 2 }
  predicate IsDirect(rpc: Rpc) { Class(rpc) == SMI_DIRECT_CLASS }
  function U32Of(v: int): nat { v % 0x1_0000_0000 }

  function FirstWord(t: MadTable, rpc: Rpc): seq<Store> {
    [Field(t.method_, rpc.method_), Field(t.response, IsResp(rpc)),
     Field(t.classVer, if Class(rpc) == SA_CLASS || Class(rpc) == CC_CLASS then 2 else 1),
     Field(t.mgmtClass, Class(rpc)), Field(t.baseVer, 1)]
  }

  function HopPtr(rpc: Rpc, path: DrPath): nat {
    if IsResp(rpc) == 1 then U32Of(path.cnt + 1) else 0
  }

  function HopStores(t: MadTable, rpc: Rpc, path: DrPath): seq<Store> {
    [Field(t.hopCnt, U32Of(path.cnt)), Field(t.hopPtr, HopPtr(rpc, path))]
  }

  function DrStatusStores(t: MadTable, rpc: Rpc): seq<Store> {
    [Field(t.drStatus, rpc.rstatus), Field(t.direction, IsResp(rpc))]
  }

  function SecondWord(t: MadTable, rpc: Rpc, path: DrPath): seq<Store> {
    if IsDirect(rpc) then
      HopStores(t, rpc, path) + DrStatusStores(t, rpc)
    else
      [Field(t.status, rpc.rstatus)]
  }

  function Ids(t: MadTable, rpc: Rpc, trid: nat): seq<Store> {
    [Wide(TRID, trid), Field(t.attrId, rpc.attrId), Field(t.attrMod, rpc.attrMod), Wide(MKEY, rpc.mkey)]
  }

  function Routing(t: MadTable, rpc: Rpc, path: DrPath): seq<Store> {
    if IsDirect(rpc) then
      [Field(t.drDlid, if path.drdlid != 0 then path.drdlid else 0xffff),
       Field(t.drSlid, if path.drslid != 0 then path.drslid else 0xffff),
       Bytes(if IsResp(rpc) == 1 then RETURN_PATH else PATH, path.p)]
    else []
  }

  function Payload(t: MadTable, rpc: Rpc, data: seq<Byte>): seq<Store> {
    Keys(rpc) + if 0x30 <= Class(rpc) <= 0x4f then [Bytes(rpc.dataoffs, data), Field(t.oui, rpc.oui)] else [Bytes(rpc.dataoffs, data)]
  }

  function Keys(rpc: Rpc): seq<Store> {
    if Class(rpc) == SA_CLASS then [Wide(COMP_MASK, rpc.mask)]
    else if Class(rpc) == CC_CLASS then [Wide(CC_KEY, rpc.cckey)]
    else []
  }

  function Body(t: MadTable, rpc: Rpc, path: DrPath, data: seq<Byte>): seq<Store> {
    Routing(t, rpc, path) + Payload(t, rpc, data)
  }

  function Stores(t: MadTable, rpc: Rpc, path: DrPath, trid: nat, data: seq<Byte>): seq<Store> {
    FirstWord(t, rpc) + SecondWord(t, rpc, path) + Ids(t, rpc, trid) + Body(t, rpc, path, data)
  }

  // What the caller of mad_encode provides: a data block inside the packet and the whole
  // path array.
  predicate ArgsOk(rpc: Rpc, path: DrPath, data: seq<Byte>) {
    rpc.dataoffs + |data| <= MAD_SIZE && |path.p| == HOPS_MAX
  }

  lemma StoresOk(t: MadTable, rpc: Rpc, path: DrPath, trid: nat, data: seq<Byte>)
    requires ArgsOk(rpc, path, data)
    ensures AllOk(Stores(t, rpc, path, trid, data))
  {
    assert AllOk(Routing(t, rpc, path)) && AllOk(Payload(t, rpc, data));
    assert AllOk(Ids(t, rpc, trid)) && AllOk(FirstWord(t, rpc)) && AllOk(SecondWord(t, rpc, path));
  }

  // The header fields lie one after another in their words.
  predicate InOrder(t: MadTable) {
    && End(t.method_) <= t.response.off && End(t.response) <= t.classVer.off
    && End(t.classVer) <= t.mgmtClass.off && End(t.mgmtClass) <= t.baseVer.off && End(t.baseVer) <= 32
    && 32 <= t.hopCnt.off && End(t.hopCnt) <= t.hopPtr.off && End(t.hopPtr) <= t.drStatus.off
    && End(t.drStatus) <= t.direction.off && End(t.direction) <= 64 && 32 <= t.status.off && End(t.status) <= 64
    && 128 <= t.attrId.off && End(t.attrId) <= t.attrMod.off && End(t.attrMod) <= 192
    && 256 <= t.drDlid.off && End(t.drDlid) <= t.drSlid.off && End(t.drSlid) <= 288 <= t.oui.off
  }

  function End(f: Layout): nat { f.off + f.width }

  predicate StartsFrom(ws: seq<Store>, bit: nat) {
    forall j :: 0 <= j < |ws| ==> bit <= StartBit(ws[j])
  }

  lemma StartsJoin(a: seq<Store>, b: seq<Store>, bit: nat)
    requires StartsFrom(a, bit) && StartsFrom(b, bit)
    ensures StartsFrom(a + b, bit)
  {
  }

  lemma PayloadStarts(t: MadTable, rpc: Rpc, data: seq<Byte>)
    requires InOrder(t) && 24 <= rpc.dataoffs
    ensures StartsFrom(Payload(t, rpc, data), 192)
  {
    assert 6 <= rpc.dataoffs / 4;
    var last := if 0x30 <= Class(rpc) <= 0x4f then [Bytes(rpc.dataoffs, data), Field(t.oui, rpc.oui)] else [Bytes(rpc.dataoffs, data)];
    StartsJoin(Keys(rpc), last, 192);
  }

  lemma SegmentsStart(t: MadTable, rpc: Rpc, path: DrPath, trid: nat, data: seq<Byte>)
    requires InOrder(t) && 24 <= rpc.dataoffs
    ensures StartsFrom(Body(t, rpc, path, data), 192)
    ensures StartsFrom(Ids(t, rpc, trid), 64) && StartsFrom(SecondWord(t, rpc, path), 32)
  {
    PayloadStarts(t, rpc, data);
    StartsJoin(Routing(t, rpc, path), Payload(t, rpc, data), 192);
  }

  // The stores after number k of a segment: the rest of the segment, then what follows.
  lemma LaterInSegment(before: seq<Store>, seg: seq<Store>, after: seq<Store>, k: nat, lo: nat, hi: nat)
    requires k < |seg| && LaterApart(lo, hi, seg, k + 1) && StartsFrom(after, hi)
    ensures LaterApart(lo, hi, before + seg + after, |before| + k + 1)
    ensures (before + seg + after)[|before| + k] == seg[k]
  {
    var all := before + seg + after;
    forall j | |before| + k + 1 <= j < |all|
      ensures Apart(lo, hi, all[j])
    {
      if j < |before| + |seg| {
        assert all[j] == seg[j - |before|];
      } else {
        assert all[j] == after[j - |before| - |seg|];
      }
    }
  }

  // The packet after the stores
  function Encoded(s: seq<Byte>, t: MadTable, rpc: Rpc, path: DrPath, trid: nat, data: seq<Byte>): (r: seq<Byte>)
    requires |s| == MAD_SIZE && ArgsOk(rpc, path, data)
    ensures |r| == MAD_SIZE
  {
    StoresOk(t, rpc, path, trid, data);
    DoAll(s, Stores(t, rpc, path, trid, data))
  }

  // A field of a segment whose later fields and segments start behind it
  lemma SegmentReads(s: seq<Byte>, before: seq<Store>, seg: seq<Store>, after: seq<Store>, k: nat)
    requires |s| == MAD_SIZE && AllOk(before + seg + after) && k < |seg| && seg[k].Field?
    requires LaterApart(seg[k].f.off, End(seg[k].f), seg, k + 1) && StartsFrom(after, End(seg[k].f))
    ensures Got(View(DoAll(s, before + seg + after)), 0, seg[k].f) == seg[k].v % Pow2(seg[k].f.width)
  {
    LaterInSegment(before, seg, after, k, seg[k].f.off, End(seg[k].f));
    FieldReads(s, before + seg + after, |before| + k);
  }

  // The first word: method, response bit, class version, class and base version
  lemma FirstWordReads(s: seq<Byte>, t: MadTable, rpc: Rpc, path: DrPath, trid: nat, data: seq<Byte>, k: nat)
    requires |s| == MAD_SIZE && ArgsOk(rpc, path, data) && InOrder(t) && 24 <= rpc.dataoffs && k < 5
    ensures var w := FirstWord(t, rpc)[k];
      Got(View(Encoded(s, t, rpc, path, trid, data)), 0, w.f) == w.v % Pow2(w.f.width)
  {
    var seg := FirstWord(t, rpc);
    var after := SecondWord(t, rpc, path) + Ids(t, rpc, trid) + Body(t, rpc, path, data);
    StoresOk(t, rpc, path, trid, data);
    SegmentsStart(t, rpc, path, trid, data);
    Regroup(seg + SecondWord(t, rpc, path), Ids(t, rpc, trid), Body(t, rpc, path, data));
    Regroup(seg, SecondWord(t, rpc, path), Ids(t, rpc, trid) + Body(t, rpc, path, data));
    Regroup(SecondWord(t, rpc, path), Ids(t, rpc, trid), Body(t, rpc, path, data));
    assert Stores(t, rpc, path, trid, data) == seg + after;
    assert [] + seg == seg;
    SegmentReads(s, [], seg, after, k);
  }

  // The second word: the status or, on a direct route, hop count, hop pointer, status and
  // direction
  lemma SecondWordReads(s: seq<Byte>, t: MadTable, rpc: Rpc, path: DrPath, trid: nat, data: seq<Byte>, k: nat)
    requires |s| == MAD_SIZE && ArgsOk(rpc, path, data) && InOrder(t) && 24 <= rpc.dataoffs
    requires k < |SecondWord(t, rpc, path)|
    ensures var w := SecondWord(t, rpc, path)[k];
      Got(View(Encoded(s, t, rpc, path, trid, data)), 0, w.f) == w.v % Pow2(w.f.width)
  {
    var before, seg := FirstWord(t, rpc), SecondWord(t, rpc, path);
    var after := Ids(t, rpc, trid) + Body(t, rpc, path, data);
    StoresOk(t, rpc, path, trid, data);
    SegmentsStart(t, rpc, path, trid, data);
    Regroup(before + seg, Ids(t, rpc, trid), Body(t, rpc, path, data));
    SegmentReads(s, before, seg, after, k);
  }

  // The attribute id and modifier
  lemma AttrReads(s: seq<Byte>, t: MadTable, rpc: Rpc, path: DrPath, trid: nat, data: seq<Byte>, k: nat)
    requires |s| == MAD_SIZE && ArgsOk(rpc, path, data) && InOrder(t) && 24 <= rpc.dataoffs && 1 <= k <= 2
    ensures var w := Ids(t, rpc, trid)[k];
      Got(View(Encoded(s, t, rpc, path, trid, data)), 0, w.f) == w.v % Pow2(w.f.width)
  {
    var before, seg, after := FirstWord(t, rpc) + SecondWord(t, rpc, path), Ids(t, rpc, trid), Body(t, rpc, path, data);
    StoresOk(t, rpc, path, trid, data);
    SegmentsStart(t, rpc, path, trid, data);
    SegmentReads(s, before, seg, after, k);
  }

  // The transaction id
  lemma TridReads(s: seq<Byte>, t: MadTable, rpc: Rpc, path: DrPath, trid: nat, data: seq<Byte>)
    requires |s| == MAD_SIZE && ArgsOk(rpc, path, data) && InOrder(t) && 24 <= rpc.dataoffs
    ensures Number(Encoded(s, t, rpc, path, trid, data)[TRID..TRID + 8]) == trid % Pow2(64)
  {
    var before, seg, after := FirstWord(t, rpc) + SecondWord(t, rpc, path), Ids(t, rpc, trid), Body(t, rpc, path, data);
    StoresOk(t, rpc, path, trid, data);
    SegmentsStart(t, rpc, path, trid, data);
    LaterInSegment(before, seg, after, 0, 8 * TRID, 8 * (TRID + 8));
    WideReads(s, before + seg + after, |before|);
  }

  // A direct-route packet with its data in bytes 64 to 127, cut at its routing stores
  lemma RoutingSplit(t: MadTable, rpc: Rpc, path: DrPath, trid: nat, data: seq<Byte>)
    requires ArgsOk(rpc, path, data) && IsDirect(rpc) && 64 <= rpc.dataoffs && rpc.dataoffs + |data| <= 128
    ensures var before := FirstWord(t, rpc) + SecondWord(t, rpc, path) + Ids(t, rpc, trid);
      var after := [Bytes(rpc.dataoffs, data)];
      && Stores(t, rpc, path, trid, data) == before + Routing(t, rpc, path) + after
      && StartsFrom(after, 512) && EndBit(after[0]) <= 1024
  {
    DataBits(rpc.dataoffs, data);
    DirectPayload(t, rpc, data);
    Regroup(FirstWord(t, rpc) + SecondWord(t, rpc, path) + Ids(t, rpc, trid), Routing(t, rpc, path), [Bytes(rpc.dataoffs, data)]);
  }

  lemma Regroup(a: seq<Store>, b: seq<Store>, c: seq<Store>)
    ensures a + (b + c) == a + b + c
  {
  }

  lemma DirectPayload(t: MadTable, rpc: Rpc, data: seq<Byte>)
    requires IsDirect(rpc)
    ensures Payload(t, rpc, data) == [Bytes(rpc.dataoffs, data)]
  {
  }

  lemma DataBits(at: nat, data: seq<Byte>)
    requires 64 <= at && at + |data| <= 128
    ensures 512 <= StartBit(Bytes(at, data)) && EndBit(Bytes(at, data)) <= 1024
  {
  }

  // The LIDs of a direct route
  lemma RouteLidsRead(s: seq<Byte>, t: MadTable, rpc: Rpc, path: DrPath, trid: nat, data: seq<Byte>, k: nat)
    requires |s| == MAD_SIZE && ArgsOk(rpc, path, data) && InOrder(t) && IsDirect(rpc)
    requires 64 <= rpc.dataoffs && rpc.dataoffs + |data| <= 128 && k < 2
    ensures var w := Routing(t, rpc, path)[k];
      Got(View(Encoded(s, t, rpc, path, trid, data)), 0, w.f) == w.v % Pow2(w.f.width)
  {
    var before := FirstWord(t, rpc) + SecondWord(t, rpc, path) + Ids(t, rpc, trid);
    StoresOk(t, rpc, path, trid, data);
    RoutingSplit(t, rpc, path, trid, data);
    SegmentReads(s, before, Routing(t, rpc, path), [Bytes(rpc.dataoffs, data)], k);
  }

  // The path of a direct route, or the return path of a response
  lemma PathReads(s: seq<Byte>, t: MadTable, rpc: Rpc, path: DrPath, trid: nat, data: seq<Byte>)
    requires |s| == MAD_SIZE && ArgsOk(rpc, path, data) && IsDirect(rpc)
    requires 64 <= rpc.dataoffs && rpc.dataoffs + |data| <= 128
    ensures var at := if IsResp(rpc) == 1 then RETURN_PATH else PATH;
      Encoded(s, t, rpc, path, trid, data)[at..at + HOPS_MAX] == path.p
  {
    var before := FirstWord(t, rpc) + SecondWord(t, rpc, path) + Ids(t, rpc, trid);
    var seg, after := Routing(t, rpc, path), [Bytes(rpc.dataoffs, data)];
    StoresOk(t, rpc, path, trid, data);
    RoutingSplit(t, rpc, path, trid, data);
    var all := before + seg + after;
    assert all[|before| + 2] == seg[2] && |all| == |before| + 4 && all[|before| + 3] == after[0];
    BytesRead(s, all, |before| + 2);
  }

  // ---------------------------------------------------------------------------
  // The method

  // A direct route without a path, or one that is too long, is refused.
  predicate Refused(rpc: Rpc, path: Option<DrPath>) {
    IsDirect(rpc) && (path.None? || path.value.cnt >= HOPS_MAX)
  }

  method StoreOne(buf: array<Byte>, w: Store, ghost s: seq<Byte>, ghost ws: seq<Store>) returns (ghost more: seq<Store>)
    requires buf.Length == MAD_SIZE == |s| && StoreOk(w) && AllOk(ws) && buf[..] == DoAll(s, ws)
    modifies buf
    ensures more == ws + [w] && AllOk(more) && buf[..] == DoAll(s, more)
  {
    more := ws + [w];
    assert more[..|ws|] == ws;
    match w
    case Field(f, v) =>
      SoundIs(f);
      SetField(buf, 0, f, v);
    case Bytes(at, bytes) =>
      CopyInto(buf, at, bytes);
    case Wide(at, n) =>
      CopyInto(buf, at, BigEndian(n, 8));
  }

  // Two calls of mad_set_field
  method EncodeTwo(buf: array<Byte>, f: Entry, v: nat, f': Entry, v': nat, ghost s: seq<Byte>, ghost before: seq<Store>)
    returns (ghost ws: seq<Store>)
    requires buf.Length == MAD_SIZE == |s| && AllOk(before) && buf[..] == DoAll(s, before)
    modifies buf
    ensures ws == before + [Field(f, v), Field(f', v')] && AllOk(ws) && buf[..] == DoAll(s, ws)
  {
    ws := StoreOne(buf, Field(f, v), s, before);
    ws := StoreOne(buf, Field(f', v'), s, ws);
  }

  method EncodeFirstWord(buf: array<Byte>, t: MadTable, rpc: Rpc, ghost s: seq<Byte>) returns (ghost ws: seq<Store>)
    requires buf.Length == MAD_SIZE == |s| && buf[..] == s
    modifies buf
    ensures ws == FirstWord(t, rpc) && AllOk(ws) && buf[..] == DoAll(s, ws)
  {
    ws := EncodeMethod(buf, t, rpc, s);
    var classVer := if Class(rpc) == SA_CLASS || Class(rpc) == CC_CLASS then 2 else 1;
    ws := EncodeClass(buf, t, Class(rpc), classVer, s, ws);
  }

  method EncodeMethod(buf: array<Byte>, t: MadTable, rpc: Rpc, ghost s: seq<Byte>) returns (ghost ws: seq<Store>)
    requires buf.Length == MAD_SIZE == |s| && buf[..] == s
    modifies buf
    ensures ws == [Field(t.method_, rpc.method_), Field(t.response, IsResp(rpc))]
    ensures AllOk(ws) && buf[..] == DoAll(s, ws)
  {
    ws := StoreOne(buf, Field(t.method_, rpc.method_), s, []);
    ws := StoreOne(buf, Field(t.response, IsResp(rpc)), s, ws);
  }

  method EncodeClass(buf: array<Byte>, t: MadTable, class_: nat, classVer: nat, ghost s: seq<Byte>, ghost before: seq<Store>)
    returns (ghost ws: seq<Store>)
    requires buf.Length == MAD_SIZE == |s| && AllOk(before) && buf[..] == DoAll(s, before)
    modifies buf
    ensures ws == before + [Field(t.classVer, classVer), Field(t.mgmtClass, class_), Field(t.baseVer, 1)]
    ensures AllOk(ws) && buf[..] == DoAll(s, ws)
  {
    ws := StoreOne(buf, Field(t.classVer, classVer), s, before);
    ws := StoreOne(buf, Field(t.mgmtClass, class_), s, ws);
    ws := StoreOne(buf, Field(t.baseVer, 1), s, ws);
  }

  method EncodeSecondWord(buf: array<Byte>, t: MadTable, rpc: Rpc, path: DrPath, ghost s: seq<Byte>, ghost before: seq<Store>)
    returns (ghost ws: seq<Store>)
    requires buf.Length == MAD_SIZE == |s| && AllOk(before) && buf[..] == DoAll(s, before)
    modifies buf
    ensures ws == before + SecondWord(t, rpc, path) && AllOk(ws) && buf[..] == DoAll(s, ws)
  {
    if IsDirect(rpc) {
      ws := EncodeHops(buf, t, rpc, path, s, before);
      ws := EncodeDrStatus(buf, t, rpc, s, ws);
      Regroup(before, HopStores(t, rpc, path), DrStatusStores(t, rpc));
    } else {
      ws := StoreOne(buf, Field(t.status, rpc.rstatus), s, before);
    }
  }

  method EncodeDrStatus(buf: array<Byte>, t: MadTable, rpc: Rpc, ghost s: seq<Byte>, ghost before: seq<Store>)
    returns (ghost ws: seq<Store>)
    requires buf.Length == MAD_SIZE == |s| && AllOk(before) && buf[..] == DoAll(s, before)
    modifies buf
    ensures ws == before + DrStatusStores(t, rpc)
    ensures AllOk(ws) && buf[..] == DoAll(s, ws)
  {
    ws := EncodeTwo(buf, t.drStatus, rpc.rstatus, t.direction, IsResp(rpc), s, before);
  }

  lemma TwoMore(a: seq<Store>, b: seq<Store>, x: Store, y: Store)
    ensures a + b + [x] + [y] == a + (b + [x, y])
  {
  }

  method EncodeHops(buf: array<Byte>, t: MadTable, rpc: Rpc, path: DrPath, ghost s: seq<Byte>, ghost before: seq<Store>)
    returns (ghost ws: seq<Store>)
    requires buf.Length == MAD_SIZE == |s| && AllOk(before) && buf[..] == DoAll(s, before)
    modifies buf
    ensures ws == before + HopStores(t, rpc, path)
    ensures AllOk(ws) && buf[..] == DoAll(s, ws)
  {
    ws := EncodeTwo(buf, t.hopCnt, U32Of(path.cnt), t.hopPtr, HopPtr(rpc, path), s, before);
  }

  method EncodeIds(buf: array<Byte>, t: MadTable, rpc: Rpc, trid: nat, ghost s: seq<Byte>, ghost before: seq<Store>)
    returns (ghost ws: seq<Store>)
    requires buf.Length == MAD_SIZE == |s| && AllOk(before) && buf[..] == DoAll(s, before)
    modifies buf
    ensures ws == before + Ids(t, rpc, trid) && AllOk(ws) && buf[..] == DoAll(s, ws)
  {
    ws := StoreOne(buf, Wide(TRID, trid), s, before);
    ws := EncodeTwo(buf, t.attrId, rpc.attrId, t.attrMod, rpc.attrMod, s, ws);
    ws := StoreOne(buf, Wide(MKEY, rpc.mkey), s, ws);
    JoinFour(before, Wide(TRID, trid), Field(t.attrId, rpc.attrId), Field(t.attrMod, rpc.attrMod), Wide(MKEY, rpc.mkey));
  }

  lemma JoinFour(before: seq<Store>, a: Store, b: Store, c: Store, d: Store)
    ensures before + [a] + [b, c] + [d] == before + [a, b, c, d]
  {
  }

  method EncodeRouting(buf: array<Byte>, t: MadTable, rpc: Rpc, path: DrPath, ghost s: seq<Byte>, ghost before: seq<Store>)
    returns (ghost ws: seq<Store>)
    requires buf.Length == MAD_SIZE == |s| && AllOk(before) && buf[..] == DoAll(s, before) && |path.p| == HOPS_MAX
    modifies buf
    ensures ws == before + Routing(t, rpc, path) && AllOk(ws) && buf[..] == DoAll(s, ws)
  {
    ws := before;
    if IsDirect(rpc) {
      ws := EncodeRouteLids(buf, t, path, s, before);
      ghost var lids := ws[|before|..];
      var at := if IsResp(rpc) == 1 then RETURN_PATH else PATH;
      ws := StoreOne(buf, Bytes(at, path.p), s, ws);
      Regroup(before, lids, [Bytes(at, path.p)]);
    }
  }

  method EncodeRouteLids(buf: array<Byte>, t: MadTable, path: DrPath, ghost s: seq<Byte>, ghost before: seq<Store>)
    returns (ghost ws: seq<Store>)
    requires buf.Length == MAD_SIZE == |s| && AllOk(before) && buf[..] == DoAll(s, before)
    modifies buf
    ensures ws == before + [Field(t.drDlid, if path.drdlid != 0 then path.drdlid else 0xffff),
                            Field(t.drSlid, if path.drslid != 0 then path.drslid else 0xffff)]
    ensures AllOk(ws) && buf[..] == DoAll(s, ws)
  {
    ws := EncodeTwo(buf, t.drDlid, if path.drdlid != 0 then path.drdlid else 0xffff,
      t.drSlid, if path.drslid != 0 then path.drslid else 0xffff, s, before);
  }

  method EncodeKeys(buf: array<Byte>, rpc: Rpc, ghost s: seq<Byte>, ghost before: seq<Store>) returns (ghost ws: seq<Store>)
    requires buf.Length == MAD_SIZE == |s| && AllOk(before) && buf[..] == DoAll(s, before)
    modifies buf
    ensures ws == before + Keys(rpc)
    ensures AllOk(ws) && buf[..] == DoAll(s, ws)
  {
    ws := before;
    if Class(rpc) == SA_CLASS {
      ws := StoreOne(buf, Wide(COMP_MASK, rpc.mask), s, ws);
    }
    if Class(rpc) == CC_CLASS {
      ws := StoreOne(buf, Wide(CC_KEY, rpc.cckey), s, ws);
    }
  }

  method EncodePayload(buf: array<Byte>, t: MadTable, rpc: Rpc, data: seq<Byte>, ghost s: seq<Byte>, ghost before: seq<Store>)
    returns (ghost ws: seq<Store>)
    requires buf.Length == MAD_SIZE == |s| && AllOk(before) && buf[..] == DoAll(s, before)
    requires rpc.dataoffs + |data| <= MAD_SIZE
    modifies buf
    ensures ws == before + Payload(t, rpc, data) && AllOk(ws) && buf[..] == DoAll(s, ws)
  {
    ws := EncodeKeys(buf, rpc, s, before);
    ghost var keys := Keys(rpc);
    ws := StoreOne(buf, Bytes(rpc.dataoffs, data), s, ws);
    if 0x30 <= Class(rpc) <= 0x4f {
      ws := StoreOne(buf, Field(t.oui, rpc.oui), s, ws);
      TwoMore(before, keys, Bytes(rpc.dataoffs, data), Field(t.oui, rpc.oui));
    } else {
      Regroup(before, keys, [Bytes(rpc.dataoffs, data)]);
    }
  }

  // mad_encode with the layout table t: a request without a transaction id gets the id
  // `drawn` that mad_trid returns.  No data is an empty block.
  method MadEncode(buf: array<Byte>, t: MadTable, rpc: Rpc, path: Option<DrPath>, drawn: nat, data: seq<Byte>)
    returns (ok: bool, trid: nat)
    requires buf.Length == MAD_SIZE && ArgsOk(rpc, GivenPath(path), data)
    modifies buf
    ensures ok <==> !Refused(rpc, path)
    ensures trid == if ok && rpc.trid == 0 then drawn else rpc.trid
    ensures ok ==> buf[..] == Encoded(old(buf[..]), t, rpc, GivenPath(path), trid, data)
  {
    ghost var s := buf[..];
    var p := GivenPath(path);
    trid := rpc.trid;
    ghost var ws := EncodeFirstWord(buf, t, rpc, s);
    if IsDirect(rpc) && (path.None? || p.cnt >= HOPS_MAX) {
      return false, trid;
    }
    ws := EncodeSecondWord(buf, t, rpc, p, s, ws);
    if trid == 0 {
      trid := drawn;
    }
    ws := EncodeIds(buf, t, rpc, trid, s, ws);
    ws := EncodeRouting(buf, t, rpc, p, s, ws);
    ws := EncodePayload(buf, t, rpc, data, s, ws);
    Regroup(FirstWord(t, rpc) + SecondWord(t, rpc, p) + Ids(t, rpc, trid), Routing(t, rpc, p), Payload(t, rpc, data));
    ok := true;
  }

  // Without a path none is looked at.
  function GivenPath(path: Option<DrPath>): DrPath {
    if path.Some? then path.value else DrPath(0, BigEndian(0, HOPS_MAX), 0, 0)
  }
}
