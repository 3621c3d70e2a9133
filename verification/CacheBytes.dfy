// The bytes of a cache file, place by place, and the files whose header a load accepts.
module CacheBytes {
  import opened Wrappers
  import opened BitFields
  import opened CacheFormat
  import CacheGraph

  // _marshall16, _marshall32 and _marshall64, written out
  function Two(v: nat): seq<Byte> {
    [v % 256, v / 0x100 % 256]
  }

  function Four(v: nat): seq<Byte> {
    [v % 256, v / 0x100 % 256, v / 0x1_0000 % 256, v / 0x100_0000 % 256]
  }

  function Eight(v: nat): seq<Byte> {
    [v % 256, v / 0x100 % 256, v / 0x1_0000 % 256, v / 0x100_0000 % 256, v / 0x1_0000_0000 % 256, v / 0x100_0000_0000 % 256,
     v / 0x1_0000_0000_0000 % 256, v / 0x100_0000_0000_0000 % 256]
  }

  lemma DigitIs(v: nat)
    ensures Digit(v, 0) == v % 256 && Digit(v, 1) == v / 0x100 % 256
    ensures Digit(v, 2) == v / 0x1_0000 % 256 && Digit(v, 3) == v / 0x100_0000 % 256
  {
    assert v / 256 / 256 == v / 0x1_0000 && v / 256 / 256 / 256 == v / 0x100_0000;
    assert Digit(v, 1) == Digit(v / 256, 0) && Digit(v, 2) == Digit(v / 256, 1);
    assert Digit(v, 3) == Digit(v / 256, 2) && Digit(v / 256, 2) == Digit(v / 256 / 256, 1);
  }

  lemma {:induction false} DigitLater(v: nat, i: nat)
    ensures Digit(v, i + 4) == Digit(v / 0x1_0000_0000, i)
  {
    assert Digit(v, i + 4) == Digit(v / 256, i + 3) == Digit(v / 256 / 256, i + 2);
    assert Digit(v / 256 / 256, i + 2) == Digit(v / 256 / 256 / 256, i + 1) == Digit(v / 256 / 256 / 256 / 256, i);
    assert v / 256 / 256 / 256 / 256 == v / 0x1_0000_0000;
  }

  lemma LittleIs(v: nat)
    ensures Little(v, 2) == Two(v) && Little(v, 4) == Four(v)
  {
    DigitIs(v);
  }

  lemma HighQuotients(v: nat)
    ensures v / 0x1_0000_0000 / 0x100 == v / 0x100_0000_0000
    ensures v / 0x1_0000_0000 / 0x1_0000 == v / 0x1_0000_0000_0000
    ensures v / 0x1_0000_0000 / 0x100_0000 == v / 0x100_0000_0000_0000
  {
  }

  lemma LittleEight(v: nat)
    ensures Little(v, 8) == Eight(v)
  {
    DigitIs(v);
    DigitIs(v / 0x1_0000_0000);
    HighQuotients(v);
    DigitLater(v, 0);
    DigitLater(v, 1);
    DigitLater(v, 2);
    DigitLater(v, 3);
    forall i | 0 <= i < 8
      ensures Digit(v, i) == Eight(v)[i]
    {
    }
  }

  // ---------------------------------------------------------------------------
  // The header

  // The magic number and the version, as they stand at the beginning of a file
  const SIGNATURE: seq<Byte> := [0x2b, 0x83, 0xe7, 0x8f, 1, 0, 0, 0]

  lemma MagicIs(s: seq<Byte>)
    requires |s| == 4
    ensures FromLittle(s) == MAGIC <==> s == [0x2b, 0x83, 0xe7, 0x8f]
  {
    LittleBack(s);
    LittleIs(MAGIC);
    LimitWords();
    LittleReads(MAGIC, 4);
  }

  lemma VersionIs(s: seq<Byte>)
    requires |s| == 4
    ensures FromLittle(s) == VERSION <==> s == [1, 0, 0, 0]
  {
    LittleBack(s);
    LittleIs(VERSION);
    LimitWords();
    LittleReads(VERSION, 4);
  }

  lemma SignatureSplits(s: seq<Byte>)
    requires 8 <= |s|
    ensures s[..8] == SIGNATURE <==> s[..4] == [0x2b, 0x83, 0xe7, 0x8f] && s[4..8] == [1, 0, 0, 0]
  {
    assert s[..8][..4] == s[..4] && s[..8][4..] == s[4..8];
    assert SIGNATURE[..4] == [0x2b, 0x83, 0xe7, 0x8f] && SIGNATURE[4..] == [1, 0, 0, 0];
    assert s[..8] == s[..4] + s[4..8];
  }

  lemma CutTwo(s: seq<Byte>, ws: seq<nat>)
    requires |ws| >= 2 && Total(ws) <= |s|
    ensures ws[0] + ws[1] <= |s| && Cut(s, ws)[0] == s[..ws[0]] && Cut(s, ws)[1] == s[ws[0]..ws[0] + ws[1]]
  {
    var rest := s[ws[0]..];
    assert Cut(s, ws)[1] == Cut(rest, ws[1..])[0];
    assert ws[1..][0] == ws[1] && rest[..ws[1]] == s[ws[0]..ws[0] + ws[1]];
  }

  lemma HeaderTests(cs: seq<seq<Byte>>)
    requires HasWidths(cs, HEADER_WIDTHS)
    ensures HeaderOfChunks(cs).Some? <==> FromLittle(cs[0]) == MAGIC && FromLittle(cs[1]) == VERSION
  {
  }

  lemma HeaderCut(s: seq<Byte>, ws: seq<nat>)
    requires |ws| == 6 && ws[0] == 4 && ws[1] == 4 && Total(ws) <= |s|
    ensures 8 <= |s| && Cut(s, ws)[0] == s[..4] && Cut(s, ws)[1] == s[4..8]
  {
    CutTwo(s, ws);
  }

  lemma HeaderParses(s: seq<Byte>)
    requires 28 <= |s|
    ensures ParseHeader(s).Some? <==> FromLittle(s[..4]) == MAGIC && FromLittle(s[4..8]) == VERSION
  {
    Widths();
    HeaderCut(s, HEADER_WIDTHS);
    HeaderTests(Cut(s, HEADER_WIDTHS));
  }

  // A header is accepted if and only if it is there as a whole and begins with the
  // signature.
  lemma HeaderIff(s: seq<Byte>)
    ensures ParseHeader(s).Some? <==> 28 <= |s| && s[..8] == SIGNATURE
  {
    if 28 <= |s| {
      HeaderParses(s);
      MagicIs(s[..4]);
      VersionIs(s[4..8]);
      SignatureSplits(s);
    }
  }

  // No other file is loaded.
  lemma LoadsOnlySigned(s: seq<Byte>)
    ensures CacheGraph.Load(s).Some? ==> 28 <= |s| && s[..8] == [0x2b, 0x83, 0xe7, 0x8f, 1, 0, 0, 0]
  {
    HeaderIff(s);
  }

  // ---------------------------------------------------------------------------
  // Records

  lemma FlatStep(cs: seq<seq<Byte>>, k: nat)
    requires k < |cs|
    ensures Flat(cs[k..]) == cs[k] + Flat(cs[k + 1..])
  {
    assert cs[k..][1..] == cs[k + 1..];
  }

  lemma FlatThree(cs: seq<seq<Byte>>, k: nat)
    requires k + 3 <= |cs|
    ensures Flat(cs[k..]) == cs[k] + cs[k + 1] + cs[k + 2] + Flat(cs[k + 3..])
  {
    FlatStep(cs, k);
    FlatStep(cs, k + 1);
    FlatStep(cs, k + 2);
    Regroup(cs[k], cs[k + 1], cs[k + 2], Flat(cs[k + 3..]));
  }

  lemma Regroup(a: seq<Byte>, b: seq<Byte>, c: seq<Byte>, d: seq<Byte>)
    ensures a + (b + (c + d)) == a + b + c + d
  {
  }

  lemma FlatEnds(cs: seq<seq<Byte>>)
    ensures cs[0..] == cs && Flat(cs[|cs|..]) == []
  {
  }

  lemma FlatSix(cs: seq<seq<Byte>>)
    requires |cs| == 6
    ensures Flat(cs) == cs[0] + cs[1] + cs[2] + cs[3] + cs[4] + cs[5]
  {
    FlatEnds(cs);
    FlatThree(cs, 0);
    FlatThree(cs, 3);
    Regroup(cs[0] + cs[1] + cs[2], cs[3], cs[4], cs[5]);
  }

  lemma FlatTen(cs: seq<seq<Byte>>)
    requires |cs| == 10
    ensures Flat(cs) == cs[0] + cs[1] + cs[2] + cs[3] + cs[4] + cs[5] + cs[6] + cs[7] + cs[8] + cs[9]
  {
    FlatEnds(cs);
    FlatThree(cs, 0);
    FlatThree(cs, 3);
    FlatThree(cs, 6);
    FlatStep(cs, 9);
    TenParts(cs[0] + cs[1] + cs[2], cs[3], cs[4], cs[5], cs[6], cs[7], cs[8], cs[9]);
  }

  lemma TenParts(a: seq<Byte>, d: seq<Byte>, e: seq<Byte>, f: seq<Byte>, g: seq<Byte>, h: seq<Byte>, i: seq<Byte>, j: seq<Byte>)
    ensures a + (d + e + f + (g + h + i + (j + []))) == a + d + e + f + g + h + i + j
  {
  }

  // A node in a file: 207 bytes, and the keys of its ports behind them
  lemma NodeLayout(r: NodeRec)
    ensures var s, d := NodeBytes(r), r.data;
      && |s| >= 207 && s[0..2] == Two(d.smalid) && s[2] == d.smalmc && s[3] == d.smaenhsp0 && s[4..68] == d.switchinfo
      && s[68..76] == Eight(d.guid) && s[76] == d.kind && s[77] == d.numports && s[78..142] == d.info && s[142..206] == d.nodedesc
      && s[206] == |r.keys| % 256 && s[207..] == PrintAll(r.keys, KeyBytes)
  {
    var d, count := r.data, ByteOf(|r.keys|);
    LittleIs(d.smalid);
    LittleEight(d.guid);
    FlatTen(NodeChunks(d, count));
    NodeSlices(Two(d.smalid), d.smalmc, d.smaenhsp0, d.switchinfo, Eight(d.guid), d.kind, d.numports, d.info, d.nodedesc, count,
      PrintAll(r.keys, KeyBytes));
  }

  lemma NodeSlices(a: seq<Byte>, b: Byte, c: Byte, d: Block, e: seq<Byte>, f: Byte, g: Byte, h: Block, i: Block, j: Byte, rest: seq<Byte>)
    requires |a| == 2 && |e| == 8
    ensures var s := a + [b] + [c] + d + e + [f] + [g] + h + i + [j] + rest;
      && |s| >= 207 && s[0..2] == a && s[2] == b && s[3] == c && s[4..68] == d && s[68..76] == e && s[76] == f && s[77] == g
      && s[78..142] == h && s[142..206] == i && s[206] == j && s[207..] == rest
  {
  }

  // A port in a file: 95 bytes
  lemma PortLayout(r: PortRec)
    ensures var s, d := PortBytes(r), r.data;
      && |s| == 95 && s[0..8] == Eight(d.guid) && s[8] == d.portnum && s[9] == d.extPortnum && s[10..12] == Two(d.baseLid)
      && s[12] == d.lmc && s[13..77] == d.info && s[77..85] == Eight(r.owner)
      && (match r.remote
          case None => s[85] == 0 && s[86..94] == Eight(0) && s[94] == 0
          case Some(key) => s[85] == 1 && s[86..94] == Eight(key.guid) && s[94] == key.portnum)
  {
    LittleEight(r.data.guid);
    LittleIs(r.data.baseLid);
    LittleEight(r.owner);
    LittleEight(if r.remote.Some? then r.remote.value.guid else 0);
    FlatTen(PortChunks(r));
  }

  // A key takes nine bytes.
  lemma KeyLayout(k: PortKey)
    ensures KeyBytes(k) == Eight(k.guid) + [k.portnum]
  {
    LittleEight(k.guid);
    var cs := KeyChunks(k);
    assert Flat(cs[1..][1..]) == [] && Flat(cs[1..]) == cs[1] + Flat(cs[1..][1..]);
  }

  // Key i of a node begins at byte 207 + 9 * i.
  lemma {:induction false} KeysLayout(ks: seq<PortKey>, i: nat)
    requires i < |ks|
    ensures var s := PrintAll(ks, KeyBytes);
      |s| == 9 * |ks| && s[9 * i..9 * i + 9] == Eight(ks[i].guid) + [ks[i].portnum]
    decreases |ks|
  {
    var front, last := ks[..|ks| - 1], ks[|ks| - 1];
    KeyLayout(last);
    if i < |front| {
      KeysLayout(front, i);
      var s := PrintAll(front, KeyBytes);
      assert (s + KeyBytes(last))[9 * i..9 * i + 9] == s[9 * i..9 * i + 9];
    } else if front != [] {
      KeysLayout(front, 0);
    }
  }

  // The header, with the signature that a load asks for
  lemma FileLayout(c: Contents)
    ensures var s := FileBytes(c);
      && |s| >= 28 && s[..8] == [0x2b, 0x83, 0xe7, 0x8f, 1, 0, 0, 0]
      && s[8..12] == Four(|c.nodes|) && s[12..16] == Four(|c.ports|) && s[16..24] == Eight(c.from) && s[24..28] == Four(c.maxhops)
      && s[28..] == PrintAll(c.nodes, NodeBytes) + PrintAll(c.ports, PortBytes)
  {
    var h := Header(|c.nodes|, |c.ports|, c.from, c.maxhops);
    SignatureBytes();
    LittleIs(|c.nodes|);
    LittleIs(|c.ports|);
    LittleEight(c.from);
    LittleIs(c.maxhops);
    FlatSix(HeaderChunks(h));
    HeaderSlices(Little(MAGIC, 4), Little(VERSION, 4), Four(|c.nodes|), Four(|c.ports|), Eight(c.from), Four(c.maxhops), BodyBytes(c));
  }

  lemma SignatureBytes()
    ensures Little(MAGIC, 4) + Little(VERSION, 4) == SIGNATURE
  {
    LittleIs(MAGIC);
    LittleIs(VERSION);
  }

  lemma HeaderSlices(a: seq<Byte>, b: seq<Byte>, c: seq<Byte>, d: seq<Byte>, e: seq<Byte>, f: seq<Byte>, rest: seq<Byte>)
    requires |a| == |b| == |c| == |d| == |f| == 4 && |e| == 8
    ensures var s := a + b + c + d + e + f + rest;
      && |s| >= 28 && s[..8] == a + b && s[8..12] == c && s[12..16] == d && s[16..24] == e && s[24..28] == f && s[28..] == rest
  {
  }

  // ---------------------------------------------------------------------------
  // Files that are too short

  // The length of the records of a list
  function SumOf<R>(rs: seq<R>, len: R -> nat): nat {
    if rs == [] then 0 else SumOf(rs[..|rs| - 1], len) + len(rs[|rs| - 1])
  }

  // A parser takes len bytes for a record.
  ghost predicate Takes<R(!new)>(parse1: seq<Byte> -> Option<(R, seq<Byte>)>, len: R -> nat) {
    forall s :: parse1(s).Some? ==> |s| == len(parse1(s).value.0) + |parse1(s).value.1|
  }

  lemma {:induction false} AllTakes<R(!new)>(s: seq<Byte>, n: nat, parse1: seq<Byte> -> Option<(R, seq<Byte>)>, len: R -> nat)
    requires Takes(parse1, len)
    ensures var r := ParseAll(s, n, parse1); r.Some? ==> |s| == SumOf(r.value.0, len) + |r.value.1|
  {
    if n > 0 {
      AllTakes(s, n - 1, parse1, len);
      var r := ParseAll(s, n - 1, parse1);
      if r.Some? && parse1(r.value.1).Some? {
        var last := parse1(r.value.1).value.0;
        assert (r.value.0 + [last])[..|r.value.0|] == r.value.0;
      }
    }
  }

  function KeyLength(k: PortKey): nat { 9 }
  function NodeLength(r: NodeRec): nat { 207 + 9 * |r.keys| }
  function PortLength(r: PortRec): nat { 95 }

  lemma {:induction false} SumOfKeys(ks: seq<PortKey>)
    ensures SumOf(ks, KeyLength) == 9 * |ks|
  {
    if ks != [] { SumOfKeys(ks[..|ks| - 1]); }
  }

  lemma {:induction false} SumOfPorts(rs: seq<PortRec>)
    ensures SumOf(rs, PortLength) == 95 * |rs|
  {
    if rs != [] { SumOfPorts(rs[..|rs| - 1]); }
  }

  lemma NodeTakes()
    ensures Takes(ParseNode, NodeLength)
  {
    forall s | ParseNode(s).Some?
      ensures |s| == NodeLength(ParseNode(s).value.0) + |ParseNode(s).value.1|
    {
      Widths();
      AllTakes(s[NODE_LEN..], Cut(s, NODE_WIDTHS)[9][0], ParseKey, KeyLength);
      SumOfKeys(ParseNode(s).value.0.keys);
    }
  }

  // A file that loads holds every byte of the records that its header announces: a
  // truncated file does not load.
  lemma LoadsNoShortFile(s: seq<Byte>)
    ensures match ParseFile(s)
      case None => CacheGraph.Load(s).None?
      case Some(c) => 28 + SumOf(c.nodes, NodeLength) + 95 * |c.ports| <= |s|
  {
    if ParseFile(s).Some? {
      var h, body := ParseHeader(s).value.0, ParseHeader(s).value.1;
      NodeTakes();
      AllTakes(body, h.nodeCount, ParseNode, NodeLength);
      var rest := ParseAll(body, h.nodeCount, ParseNode).value.1;
      AllTakes(rest, h.portCount, ParsePort, PortLength);
      SumOfPorts(ParseAll(rest, h.portCount, ParsePort).value.0);
    }
  }
}
