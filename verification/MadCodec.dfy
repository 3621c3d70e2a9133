// mad_encode with the layout table of the library.
module MadCodec {
  import opened Wrappers
  import opened Binary
  import opened BitFields
  import opened Packet
  import opened MadHeaders
  import opened MadBytes

  const MAD_TABLE := MadTable(Layout(0, 7), Layout(7, 1), Layout(8, 8), Layout(16, 8), Layout(24, 8), Layout(32, 8),
    Layout(40, 8), Layout(48, 16), Layout(48, 15), Layout(63, 1), Layout(144, 16), Layout(160, 32), Layout(256, 16),
    Layout(272, 16), Layout(288, 24))

  lemma TableIsLibrary()
    ensures IsLibrary(MAD_TABLE)
  {
  }

  // mad_encode with the table of the library, and the decoding of its packet
  method EncodeAndDecode(buf: array<Byte>, rpc: Rpc, path: Option<DrPath>, drawn: nat, data: seq<Byte>)
    returns (ok: bool, h: Header)
    requires buf.Length == MAD_SIZE && ArgsOk(rpc, GivenPath(path), data) && 24 <= rpc.dataoffs
    modifies buf
    ensures ok <==> !(rpc.mgtclass % 256 == 0x81 && (path.None? || path.value.cnt >= 64))
    ensures ok ==> h == Header(rpc.method_ % 128, rpc.method_ / 128 % 2, rpc.mgtclass % 256,
      (if rpc.trid == 0 then drawn else rpc.trid) % Pow2(64), rpc.attrId % 0x1_0000, rpc.attrMod % 0x1_0000_0000)
    ensures ok && (rpc.mgtclass % 256 < 0x30 || 0x4f < rpc.mgtclass % 256 || 40 <= rpc.dataoffs) ==>
      buf[..][rpc.dataoffs..rpc.dataoffs + |data|] == data
    ensures ok ==>
      buf[..][0..4] == [1, rpc.mgtclass % 256, if rpc.mgtclass % 256 in {0x3, 0x21} then 2 else 1, rpc.method_ % 256]
  {
    TableIsLibrary();
    var t := MAD_TABLE;
    ghost var s := buf[..];
    var trid;
    ok, trid := MadEncode(buf, t, rpc, path, drawn, data);
    h := DecodeHeader(buf, t);
    if ok {
      HeaderReads(s, t, rpc, GivenPath(path), trid, data);
      FirstBytes(s, t, rpc, GivenPath(path), trid, data);
      if rpc.mgtclass % 256 < 0x30 || 0x4f < rpc.mgtclass % 256 || 40 <= rpc.dataoffs {
        DataBytes(s, t, rpc, GivenPath(path), trid, data);
      }
    }
  }
}
