// What a receiver reads from the packets of mad_encode: the header fields of the layout
// table of libibmad/src/fields.c, lines 71 to 120.
module MadHeaders {
  import opened Binary
  import opened BitFields
  import opened WideFields
  import FieldLayouts
  import opened Packet

  predicate Lies(f: Layout, off: nat, width: nat) {
    f.off == off && f.width == width
  }

  // t holds the header entries of the library.
  predicate IsLibrary(t: MadTable) {
    && Lies(t.method_, 0, 7) && Lies(t.response, 7, 1) && Lies(t.classVer, 8, 8) && Lies(t.mgmtClass, 16, 8)
    && Lies(t.baseVer, 24, 8) && Lies(t.hopCnt, 32, 8) && Lies(t.hopPtr, 40, 8) && Lies(t.status, 48, 16)
    && Lies(t.drStatus, 48, 15) && Lies(t.direction, 63, 1) && Lies(t.attrId, 144, 16) && Lies(t.attrMod, 160, 32)
    && Lies(t.drDlid, 256, 16) && Lies(t.drSlid, 272, 16) && Lies(t.oui, 288, 24)
  }

  lemma TableInOrder(t: MadTable)
    requires IsLibrary(t)
    ensures InOrder(t)
  {
  }

  // An entry of the header part of the layout table
  ghost predicate InLayouts(f: Layout) {
    FieldLayouts.Be(f.off / 32, f.off % 32, f.width) in FieldLayouts.HEADER_FIELDS
  }

  lemma FirstWordInLayouts(t: MadTable)
    requires IsLibrary(t)
    ensures InLayouts(t.method_) && InLayouts(t.response) && InLayouts(t.classVer) && InLayouts(t.mgmtClass) && InLayouts(t.baseVer)
  {
  }

  lemma SecondWordInLayouts(t: MadTable)
    requires IsLibrary(t)
    ensures InLayouts(t.hopCnt) && InLayouts(t.hopPtr) && InLayouts(t.status) && InLayouts(t.drStatus) && InLayouts(t.direction)
  {
  }

  // The fields of the header are those that the codec is proved for.
  lemma HeaderInLayouts(t: MadTable)
    requires IsLibrary(t)
    ensures InLayouts(t.method_) && InLayouts(t.response) && InLayouts(t.classVer) && InLayouts(t.mgmtClass) && InLayouts(t.baseVer)
    ensures InLayouts(t.hopCnt) && InLayouts(t.hopPtr) && InLayouts(t.status) && InLayouts(t.drStatus) && InLayouts(t.direction)
    ensures InLayouts(t.attrId) && InLayouts(t.attrMod) && InLayouts(t.drDlid) && InLayouts(t.drSlid)
  {
    FirstWordInLayouts(t);
    SecondWordInLayouts(t);
  }

  // ---------------------------------------------------------------------------
  // Reading

  // mad_get_field on a packet
  function Read(s: seq<Byte>, f: Layout): nat {
    Got(View(s), 0, f)
  }

  function ReadWide(s: seq<Byte>, at: nat): nat
    requires at + 8 <= |s|
  {
    Number(s[at..at + 8])
  }

  // The fields that every MAD has
  datatype Header = Header(method_: nat, response: nat, mgmtClass: nat, trid: nat, attrId: nat, attrMod: nat)

  function HeaderOf(s: seq<Byte>, t: MadTable): Header
    requires |s| == MAD_SIZE
  {
    Header(Read(s, t.method_), Read(s, t.response), Read(s, t.mgmtClass), ReadWide(s, TRID), Read(s, t.attrId), Read(s, t.attrMod))
  }

  // The fields of a direct route
  datatype DrHeader = DrHeader(hopCnt: nat, status: nat, direction: nat, drDlid: nat, drSlid: nat)

  function DrHeaderOf(s: seq<Byte>, t: MadTable): DrHeader {
    DrHeader(Read(s, t.hopCnt), Read(s, t.drStatus), Read(s, t.direction), Read(s, t.drDlid), Read(s, t.drSlid))
  }

  // A LID of zero stands for the permissive one.
  function OrPermissive(lid: nat): nat {
    if lid != 0 then lid else 0xffff
  }

  // The path of a request or the return path of a response
  function PathAt(s: seq<Byte>, response: bool): seq<Byte>
    requires |s| == MAD_SIZE
  {
    var at := if response then RETURN_PATH else PATH;
    s[at..at + HOPS_MAX]
  }

  // The values that the stores leave in the fields
  function Sent(t: MadTable, rpc: Rpc, trid: nat): Header {
    Header(rpc.method_ % Pow2(t.method_.width), IsResp(rpc) % Pow2(t.response.width), Class(rpc) % Pow2(t.mgmtClass.width),
           trid % Pow2(64), rpc.attrId % Pow2(t.attrId.width), rpc.attrMod % Pow2(t.attrMod.width))
  }

  function DrSent(t: MadTable, rpc: Rpc, path: DrPath): DrHeader {
    DrHeader(U32Of(path.cnt) % Pow2(t.hopCnt.width), rpc.rstatus % Pow2(t.drStatus.width), IsResp(rpc) % Pow2(t.direction.width),
             OrPermissive(path.drdlid) % Pow2(t.drDlid.width), OrPermissive(path.drslid) % Pow2(t.drSlid.width))
  }

  lemma SentIs(t: MadTable, rpc: Rpc, trid: nat)
    requires IsLibrary(t)
    ensures Sent(t, rpc, trid) ==
      Header(rpc.method_ % 128, rpc.method_ / 128 % 2, rpc.mgtclass % 256, trid % Pow2(64), rpc.attrId % 0x1_0000, rpc.attrMod % 0x1_0000_0000)
  {
    Widths();
    ModWidth(rpc.method_, t.method_.width, 128);
    ModWidth(IsResp(rpc), t.response.width, 2);
    ModWidth(Class(rpc), t.mgmtClass.width, 256);
    ModWidth(rpc.attrId, t.attrId.width, 0x1_0000);
    ModWidth(rpc.attrMod, t.attrMod.width, 0x1_0000_0000);
    HeaderMods(rpc);
  }

  lemma HeaderMods(rpc: Rpc)
    ensures IsResp(rpc) % 2 == rpc.method_ / 128 % 2 && Class(rpc) % 256 == rpc.mgtclass % 256
  {
  }

  lemma ModWidth(v: nat, w: nat, m: nat)
    requires Pow2(w) == m
    ensures v % Pow2(w) == v % m
  {
  }

  lemma DrSentIs(t: MadTable, rpc: Rpc, path: DrPath)
    requires IsLibrary(t) && 0 <= path.cnt < HOPS_MAX && path.drdlid < 0x1_0000 && path.drslid < 0x1_0000
    ensures DrSent(t, rpc, path) ==
      DrHeader(path.cnt, rpc.rstatus % 0x8000, rpc.method_ / 128 % 2, OrPermissive(path.drdlid), OrPermissive(path.drslid))
  {
    Widths();
    HeaderMods(rpc);
    SmallCount(path.cnt);
    ModWidth(U32Of(path.cnt), t.hopCnt.width, 256);
    ModWidth(rpc.rstatus, t.drStatus.width, 0x8000);
    ModWidth(IsResp(rpc), t.direction.width, 2);
    LidFits(path.drdlid, t.drDlid.width);
    LidFits(path.drslid, t.drSlid.width);
  }

  lemma LidFits(lid: nat, w: nat)
    requires lid < 0x1_0000 && w == 16
    ensures OrPermissive(lid) % Pow2(w) == OrPermissive(lid)
  {
    Widths();
    SmallMod(OrPermissive(lid), 0x1_0000);
  }

  lemma SmallMod(v: nat, m: nat)
    requires v < m
    ensures v % m == v
  {
  }

  lemma SmallCount(cnt: int)
    requires 0 <= cnt < HOPS_MAX
    ensures U32Of(cnt) % 256 == cnt
  {
  }

  lemma Widths()
    ensures Pow2(1) == 2 && Pow2(7) == 128 && Pow2(8) == 256 && Pow2(15) == 0x8000 && Pow2(16) == 0x1_0000
    ensures Pow2(32) == 0x1_0000_0000
  {
    Pow2Words();
    Pow2Sum(8, 8);
    Pow2Sum(7, 8);
    Pow2Sum(1, 7);
  }

  lemma HeaderAt(s: seq<Byte>, t: MadTable, rpc: Rpc, path: DrPath, trid: nat, data: seq<Byte>)
    requires |s| == MAD_SIZE && ArgsOk(rpc, path, data) && InOrder(t) && 24 <= rpc.dataoffs
    ensures HeaderOf(Encoded(s, t, rpc, path, trid, data), t) == Sent(t, rpc, trid)
  {
    FirstWordReads(s, t, rpc, path, trid, data, 0);
    FirstWordReads(s, t, rpc, path, trid, data, 1);
    FirstWordReads(s, t, rpc, path, trid, data, 3);
    TridReads(s, t, rpc, path, trid, data);
    AttrReads(s, t, rpc, path, trid, data, 1);
    AttrReads(s, t, rpc, path, trid, data, 2);
  }

  lemma DrHeaderAt(s: seq<Byte>, t: MadTable, rpc: Rpc, path: DrPath, trid: nat, data: seq<Byte>)
    requires |s| == MAD_SIZE && ArgsOk(rpc, path, data) && InOrder(t) && IsDirect(rpc)
    requires 64 <= rpc.dataoffs && rpc.dataoffs + |data| <= 128
    ensures DrHeaderOf(Encoded(s, t, rpc, path, trid, data), t) == DrSent(t, rpc, path)
  {
    SecondWordReads(s, t, rpc, path, trid, data, 0);
    SecondWordReads(s, t, rpc, path, trid, data, 2);
    SecondWordReads(s, t, rpc, path, trid, data, 3);
    RouteLidsRead(s, t, rpc, path, trid, data, 0);
    RouteLidsRead(s, t, rpc, path, trid, data, 1);
  }

  // The packet of a request gives back its method, response bit, class, transaction id and
  // attribute, for every class and every data block behind the header.
  lemma HeaderReads(s: seq<Byte>, t: MadTable, rpc: Rpc, path: DrPath, trid: nat, data: seq<Byte>)
    requires |s| == MAD_SIZE && ArgsOk(rpc, path, data) && 24 <= rpc.dataoffs && IsLibrary(t)
    ensures HeaderOf(Encoded(s, t, rpc, path, trid, data), t) ==
      Header(rpc.method_ % 128, rpc.method_ / 128 % 2, rpc.mgtclass % 256, trid % Pow2(64), rpc.attrId % 0x1_0000, rpc.attrMod % 0x1_0000_0000)
  {
    TableInOrder(t);
    HeaderAt(s, t, rpc, path, trid, data);
    SentIs(t, rpc, trid);
  }

  // The packet of a direct-route request gives back hop count, status, direction, LIDs and
  // path; a LID of zero stands for the permissive LID.
  lemma DrHeaderReads(s: seq<Byte>, t: MadTable, rpc: Rpc, path: DrPath, trid: nat, data: seq<Byte>)
    requires |s| == MAD_SIZE && ArgsOk(rpc, path, data) && IsDirect(rpc) && 0 <= path.cnt < HOPS_MAX && IsLibrary(t)
    requires 64 <= rpc.dataoffs && rpc.dataoffs + |data| <= 128
    requires path.drdlid < 0x1_0000 && path.drslid < 0x1_0000
    ensures var r := Encoded(s, t, rpc, path, trid, data);
      && DrHeaderOf(r, t) ==
         DrHeader(path.cnt, rpc.rstatus % 0x8000, rpc.method_ / 128 % 2, OrPermissive(path.drdlid), OrPermissive(path.drslid))
      && PathAt(r, rpc.method_ / 128 % 2 == 1) == path.p
  {
    TableInOrder(t);
    DrHeaderAt(s, t, rpc, path, trid, data);
    PathReads(s, t, rpc, path, trid, data);
    DrSentIs(t, rpc, path);
  }

  // The fields as a receiver decodes them
  method DecodeHeader(buf: array<Byte>, t: MadTable) returns (h: Header)
    requires buf.Length == MAD_SIZE
    ensures h == HeaderOf(buf[..], t)
  {
    var m := ReadField(buf, t.method_);
    var r := ReadField(buf, t.response);
    var c := ReadField(buf, t.mgmtClass);
    var trid := GetField64(buf, 0, Layout(8 * TRID, 64));
    var i := ReadField(buf, t.attrId);
    var a := ReadField(buf, t.attrMod);
    h := Header(m, r, c, trid, i, a);
  }

  // mad_get_field
  method ReadField(buf: array<Byte>, f: Entry) returns (v: nat)
    requires buf.Length == MAD_SIZE
    ensures v == Read(buf[..], f)
  {
    SoundIs(f);
    v := GetField(buf, 0, f);
  }
}
