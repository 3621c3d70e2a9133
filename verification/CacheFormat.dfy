// The file format of libibnetdisc/src/ibnetdisc_cache.c: little-endian numbers, records
// of nodes and ports, and the file that holds them.
module CacheFormat {
  import opened Wrappers
  import opened Binary
  import opened BitFields

  // IB_SMP_DATA_SIZE, IBND_FABRIC_CACHE_HEADER_LEN, IBND_NODE_CACHE_HEADER_LEN,
  // IBND_PORT_CACHE_KEY_LEN, IBND_PORT_CACHE_LEN
  const SMP_DATA := 64
  const HEADER_LEN := 28
  const NODE_LEN := 207
  const KEY_LEN := 9
  const PORT_LEN := 95

  const MAGIC := 0x8FE7832B
  const VERSION := 1

  // ---------------------------------------------------------------------------
  // Numbers

  // The first number that n bytes cannot hold
  function Limit(n: nat): nat { Pow2(8 * n) }

  // Byte i of a number, the lowest first
  function Digit(v: nat, i: nat): Byte
    decreases i
  {
    if i == 0 then ByteOf(v) else Digit(v / 256, i - 1)
  }

  function Little(v: nat, n: nat): (r: seq<Byte>)
    ensures |r| == n
  {
    seq(n, i requires 0 <= i => Digit(v, i))
  }

  function FromLittle(s: seq<Byte>): nat {
    if s == [] then 0 else s[0] as nat + 256 * FromLittle(s[1..])
  }

  lemma LimitStep(n: nat)
    requires 0 < n
    ensures Limit(n) == 256 * Limit(n - 1)
  {
    Pow2Words();
    Pow2Sum(8, 8 * (n - 1));
  }

  lemma {:induction false} LittleReads(v: nat, n: nat)
    requires v < Limit(n)
    ensures FromLittle(Little(v, n)) == v
    decreases n
  {
    if n > 0 {
      LimitStep(n);
      LittleReads(v / 256, n - 1);
      assert Little(v, n)[1..] == Little(v / 256, n - 1);
    }
  }

  lemma {:induction false} LittleBack(s: seq<Byte>)
    ensures Little(FromLittle(s), |s|) == s && FromLittle(s) < Limit(|s|)
    decreases |s|
  {
    if s != [] {
      var v, tail := FromLittle(s), s[1..];
      LittleBack(tail);
      LimitStep(|s|);
      DivUnique(v, 256, FromLittle(tail), s[0]);
      forall i | 0 <= i < |s|
        ensures Digit(v, i) == s[i]
      {
        if i > 0 { assert Little(FromLittle(tail), |tail|)[i - 1] == tail[i - 1]; }
      }
    }
  }

  // ---------------------------------------------------------------------------
  // Chunks of bytes one after another

  function Flat(cs: seq<seq<Byte>>): seq<Byte> {
    if cs == [] then [] else cs[0] + Flat(cs[1..])
  }

  function Total(ws: seq<nat>): nat {
    if ws == [] then 0 else ws[0] + Total(ws[1..])
  }

  // The first chunks of s with the given widths
  function Cut(s: seq<Byte>, ws: seq<nat>): (cs: seq<seq<Byte>>)
    requires Total(ws) <= |s|
    ensures |cs| == |ws| && forall i :: 0 <= i < |ws| ==> |cs[i]| == ws[i]
    decreases |ws|
  {
    if ws == [] then [] else [s[..ws[0]]] + Cut(s[ws[0]..], ws[1..])
  }

  ghost predicate HasWidths(cs: seq<seq<Byte>>, ws: seq<nat>) {
    |cs| == |ws| && forall i :: 0 <= i < |ws| ==> |cs[i]| == ws[i]
  }

  lemma {:induction false} CutFlat(cs: seq<seq<Byte>>, ws: seq<nat>, rest: seq<Byte>)
    requires HasWidths(cs, ws)
    ensures |Flat(cs)| == Total(ws)
    ensures Cut(Flat(cs) + rest, ws) == cs && (Flat(cs) + rest)[Total(ws)..] == rest
    decreases |cs|
  {
    if cs != [] {
      CutFlat(cs[1..], ws[1..], rest);
      var s := Flat(cs) + rest;
      assert s[..ws[0]] == cs[0];
      assert s[ws[0]..] == Flat(cs[1..]) + rest;
    }
  }

  // ---------------------------------------------------------------------------
  // Records one after another.  A parser returns what it read and the rest; it fails when
  // there is too little.

  function PrintAll<R>(rs: seq<R>, print1: R -> seq<Byte>): seq<Byte> {
    if rs == [] then [] else PrintAll(rs[..|rs| - 1], print1) + print1(rs[|rs| - 1])
  }

  function ParseAll<R>(s: seq<Byte>, n: nat, parse1: seq<Byte> -> Option<(R, seq<Byte>)>): (r: Option<(seq<R>, seq<Byte>)>)
    ensures r.Some? ==> |r.value.0| == n
  {
    if n == 0 then Some(([], s))
    else match ParseAll(s, n - 1, parse1)
      case None => None
      case Some((rs, rest)) =>
        match parse1(rest)
        case None => None
        case Some((r, rest')) => Some((rs + [r], rest'))
  }

  // The parser undoes the printer on r.
  ghost predicate Reads<R(!new)>(r: R, print1: R -> seq<Byte>, parse1: seq<Byte> -> Option<(R, seq<Byte>)>) {
    forall rest :: parse1(print1(r) + rest) == Some((r, rest))
  }

  lemma {:induction false} AllRead<R(!new)>(rs: seq<R>, print1: R -> seq<Byte>, parse1: seq<Byte> -> Option<(R, seq<Byte>)>, rest: seq<Byte>)
    requires forall r :: r in rs ==> Reads(r, print1, parse1)
    ensures ParseAll(PrintAll(rs, print1) + rest, |rs|, parse1) == Some((rs, rest))
    decreases |rs|
  {
    if rs == [] {
      assert PrintAll(rs, print1) + rest == rest;
    } else {
      var front, last := rs[..|rs| - 1], rs[|rs| - 1];
      AllRead(front, print1, parse1, print1(last) + rest);
      assert Reads(last, print1, parse1);
      assert PrintAll(rs, print1) + rest == PrintAll(front, print1) + (print1(last) + rest);
      assert rs == front + [last];
    }
  }

  // ---------------------------------------------------------------------------
  // Records

  type Block = b: seq<Byte> | |b| == SMP_DATA witness seq(SMP_DATA, i => 0)

  datatype NodeData = NodeData(smalid: nat, smalmc: Byte, smaenhsp0: Byte, switchinfo: Block, guid: nat,
                               kind: Byte, numports: Byte, info: Block, nodedesc: Block)

  datatype PortKey = PortKey(guid: nat, portnum: Byte)

  datatype NodeRec = NodeRec(data: NodeData, keys: seq<PortKey>)

  datatype PortData = PortData(guid: nat, portnum: Byte, extPortnum: Byte, baseLid: nat, lmc: Byte, info: Block)

  datatype PortRec = PortRec(data: PortData, owner: nat, remote: Option<PortKey>)

  datatype Header = Header(nodeCount: nat, portCount: nat, from: nat, maxhops: nat)

  datatype Contents = Contents(from: nat, maxhops: nat, nodes: seq<NodeRec>, ports: seq<PortRec>)

  // The numbers have the widths of their C types.
  predicate NodeDataFits(d: NodeData) { d.smalid < Limit(2) && d.guid < Limit(8) }

  predicate KeyFits(k: PortKey) { k.guid < Limit(8) }

  predicate PortRecFits(r: PortRec) {
    && r.data.guid < Limit(8) && r.data.baseLid < Limit(2) && r.owner < Limit(8)
    && (r.remote.Some? ==> KeyFits(r.remote.value))
  }

  ghost predicate NodeRecFits(r: NodeRec) {
    NodeDataFits(r.data) && forall k :: k in r.keys ==> KeyFits(k)
  }

  ghost predicate ContentsFit(c: Contents) {
    && c.from < Limit(8) && c.maxhops < Limit(4) && |c.nodes| < Limit(4) && |c.ports| < Limit(4)
    && (forall r :: r in c.nodes ==> NodeRecFits(r))
    && (forall r :: r in c.ports ==> PortRecFits(r))
  }

  // ---------------------------------------------------------------------------
  // Printing

  const KEY_WIDTHS: seq<nat> := [8, 1]
  const NODE_WIDTHS: seq<nat> := [2, 1, 1, 64, 8, 1, 1, 64, 64, 1]
  const PORT_WIDTHS: seq<nat> := [8, 1, 1, 2, 1, 64, 8, 1, 8, 1]
  const HEADER_WIDTHS: seq<nat> := [4, 4, 4, 4, 8, 4]

  lemma Widths()
    ensures Total(KEY_WIDTHS) == KEY_LEN && Total(NODE_WIDTHS) == NODE_LEN
    ensures Total(PORT_WIDTHS) == PORT_LEN && Total(HEADER_WIDTHS) == HEADER_LEN
  {
  }

  function KeyChunks(k: PortKey): (cs: seq<seq<Byte>>) {
    [Little(k.guid, 8), [k.portnum]]
  }

  function KeyBytes(k: PortKey): seq<Byte> {
    Flat(KeyChunks(k))
  }

  function NodeChunks(d: NodeData, count: Byte): seq<seq<Byte>> {
    [Little(d.smalid, 2), [d.smalmc], [d.smaenhsp0], d.switchinfo, Little(d.guid, 8), [d.kind], [d.numports],
     d.info, d.nodedesc, [count]]
  }

  // The count of stored ports is kept in one byte.
  function NodeBytes(r: NodeRec): seq<Byte> {
    Flat(NodeChunks(r.data, ByteOf(|r.keys|))) + PrintAll(r.keys, KeyBytes)
  }

  function PortChunks(r: PortRec): seq<seq<Byte>> {
    var d := r.data;
    var key := if r.remote.Some? then r.remote.value else PortKey(0, 0);
    [Little(d.guid, 8), [d.portnum], [d.extPortnum], Little(d.baseLid, 2), [d.lmc], d.info, Little(r.owner, 8),
     [if r.remote.Some? then 1 else 0], Little(key.guid, 8), [key.portnum]]
  }

  function PortBytes(r: PortRec): seq<Byte> {
    Flat(PortChunks(r))
  }

  function HeaderChunks(h: Header): seq<seq<Byte>> {
    [Little(MAGIC, 4), Little(VERSION, 4), Little(h.nodeCount, 4), Little(h.portCount, 4), Little(h.from, 8), Little(h.maxhops, 4)]
  }

  function HeaderBytes(h: Header): seq<Byte> {
    Flat(HeaderChunks(h))
  }

  function FileBytes(c: Contents): seq<Byte> {
    HeaderBytes(Header(|c.nodes|, |c.ports|, c.from, c.maxhops)) + BodyBytes(c)
  }

  function BodyBytes(c: Contents): seq<Byte> {
    PrintAll(c.nodes, NodeBytes) + PrintAll(c.ports, PortBytes)
  }

  // ---------------------------------------------------------------------------
  // Parsing

  function ParseKey(s: seq<Byte>): Option<(PortKey, seq<Byte>)> {
    Widths();
    if |s| < KEY_LEN then None
    else
      var cs := Cut(s, KEY_WIDTHS);
      Some((PortKey(FromLittle(cs[0]), cs[1][0]), s[KEY_LEN..]))
  }

  function NodeOfChunks(cs: seq<seq<Byte>>): NodeData
    requires HasWidths(cs, NODE_WIDTHS)
  {
    NodeData(FromLittle(cs[0]), cs[1][0], cs[2][0], cs[3], FromLittle(cs[4]), cs[5][0], cs[6][0], cs[7], cs[8])
  }

  // The keys are read in one go, which fails when any of them is missing.
  function ParseNode(s: seq<Byte>): Option<(NodeRec, seq<Byte>)> {
    Widths();
    if |s| < NODE_LEN then None
    else
      var cs := Cut(s, NODE_WIDTHS);
      match ParseAll(s[NODE_LEN..], cs[9][0], ParseKey)
      case None => None
      case Some((keys, rest)) => Some((NodeRec(NodeOfChunks(cs), keys), rest))
  }

  function PortOfChunks(cs: seq<seq<Byte>>): PortRec
    requires HasWidths(cs, PORT_WIDTHS)
  {
    var data := PortData(FromLittle(cs[0]), cs[1][0], cs[2][0], FromLittle(cs[3]), cs[4][0], cs[5]);
    PortRec(data, FromLittle(cs[6]), if cs[7][0] != 0 then Some(PortKey(FromLittle(cs[8]), cs[9][0])) else None)
  }

  function ParsePort(s: seq<Byte>): Option<(PortRec, seq<Byte>)> {
    Widths();
    if |s| < PORT_LEN then None else Some((PortOfChunks(Cut(s, PORT_WIDTHS)), s[PORT_LEN..]))
  }

  function ParseHeader(s: seq<Byte>): Option<(Header, seq<Byte>)> {
    Widths();
    if |s| < HEADER_LEN then None
    else match HeaderOfChunks(Cut(s, HEADER_WIDTHS))
      case None => None
      case Some(h) => Some((h, s[HEADER_LEN..]))
  }

  function ParseBody(h: Header, s: seq<Byte>): Option<Contents> {
    match ParseAll(s, h.nodeCount, ParseNode)
    case None => None
    case Some((nodes, rest)) =>
      match ParseAll(rest, h.portCount, ParsePort)
      case None => None
      case Some((ports, _)) => Some(Contents(h.from, h.maxhops, nodes, ports))
  }

  function ParseFile(s: seq<Byte>): Option<Contents> {
    match ParseHeader(s)
    case None => None
    case Some((h, rest)) => ParseBody(h, rest)
  }

  // ---------------------------------------------------------------------------
  // Round trips

  lemma KeyReads(k: PortKey)
    requires KeyFits(k)
    ensures Reads(k, KeyBytes, ParseKey)
  {
    Widths();
    forall rest
      ensures ParseKey(KeyBytes(k) + rest) == Some((k, rest))
    {
      CutFlat(KeyChunks(k), KEY_WIDTHS, rest);
      LittleReads(k.guid, 8);
    }
  }

  lemma NodeChunksRead(d: NodeData, count: Byte)
    requires NodeDataFits(d)
    ensures HasWidths(NodeChunks(d, count), NODE_WIDTHS) && NodeOfChunks(NodeChunks(d, count)) == d
  {
    LittleReads(d.smalid, 2);
    LittleReads(d.guid, 8);
    var cs := NodeChunks(d, count);
    assert HasWidths(cs, NODE_WIDTHS);
    assert cs[0] == Little(d.smalid, 2) && cs[4] == Little(d.guid, 8);
    assert cs[3] == d.switchinfo && cs[7] == d.info && cs[8] == d.nodedesc;
    assert cs[1] == [d.smalmc] && cs[2] == [d.smaenhsp0] && cs[5] == [d.kind] && cs[6] == [d.numports];
  }

  // Whatever follows the fixed part of a node, the parser takes it apart as written.
  lemma NodeStarts(d: NodeData, count: Byte, tail: seq<Byte>)
    requires NodeDataFits(d)
    ensures ParseNode(Flat(NodeChunks(d, count)) + tail) ==
      match ParseAll(tail, count, ParseKey)
      case None => None
      case Some((keys, rest)) => Some((NodeRec(d, keys), rest))
  {
    Widths();
    NodeChunksRead(d, count);
    CutFlat(NodeChunks(d, count), NODE_WIDTHS, tail);
  }

  lemma KeysRead(ks: seq<PortKey>, rest: seq<Byte>)
    requires forall k :: k in ks ==> KeyFits(k)
    ensures ParseAll(PrintAll(ks, KeyBytes) + rest, |ks|, ParseKey) == Some((ks, rest))
  {
    forall k | k in ks
      ensures Reads(k, KeyBytes, ParseKey)
    {
      KeyReads(k);
    }
    AllRead(ks, KeyBytes, ParseKey, rest);
  }

  lemma NodeSplits(r: NodeRec, rest: seq<Byte>)
    ensures NodeBytes(r) + rest == Flat(NodeChunks(r.data, ByteOf(|r.keys|))) + (PrintAll(r.keys, KeyBytes) + rest)
  {
  }

  // A node is read back as it was written, together with what follows it.
  lemma NodeReads(r: NodeRec, rest: seq<Byte>)
    requires NodeRecFits(r) && |r.keys| < 256
    ensures ParseNode(NodeBytes(r) + rest) == Some((r, rest))
  {
    var count: Byte := |r.keys|;
    var tail := PrintAll(r.keys, KeyBytes) + rest;
    NodeSplits(r, rest);
    assert ByteOf(|r.keys|) == count;
    KeysRead(r.keys, rest);
    assert ParseAll(tail, count, ParseKey) == Some((r.keys, rest));
    NodeStarts(r.data, count, tail);
  }

  // The count wraps at 256: a node of 255 ports with its port 0 stored is read back
  // without ports, and its port keys are taken for what follows.
  lemma FullNodeReads(r: NodeRec, rest: seq<Byte>)
    requires NodeRecFits(r) && |r.keys| == 256
    ensures ParseNode(NodeBytes(r) + rest) == Some((NodeRec(r.data, []), PrintAll(r.keys, KeyBytes) + rest))
  {
    NodeSplits(r, rest);
    NodeStarts(r.data, 0, PrintAll(r.keys, KeyBytes) + rest);
  }

  // A node of at most 255 ports and a port 0 is read back if and only if the stored ports
  // do not fill all its slots.
  lemma NodeReadsIff(r: NodeRec, rest: seq<Byte>)
    requires NodeRecFits(r) && |r.keys| <= 256
    ensures ParseNode(NodeBytes(r) + rest) == Some((r, rest)) <==> |r.keys| != 256
  {
    if |r.keys| == 256 { FullNodeReads(r, rest); } else { NodeReads(r, rest); }
  }

  // The chunks of a port, given the bytes of its numbers
  lemma PortOfBytes(r: PortRec, guid: seq<Byte>, baseLid: seq<Byte>, owner: seq<Byte>, flag: Byte, remoteGuid: seq<Byte>, remoteNum: Byte)
    requires |guid| == 8 && |baseLid| == 2 && |owner| == 8 && |remoteGuid| == 8
    requires FromLittle(guid) == r.data.guid && FromLittle(baseLid) == r.data.baseLid && FromLittle(owner) == r.owner
    requires if r.remote.Some? then flag == 1 && r.remote.value == PortKey(FromLittle(remoteGuid), remoteNum) else flag == 0
    ensures var cs := [guid, [r.data.portnum], [r.data.extPortnum], baseLid, [r.data.lmc], r.data.info, owner, [flag], remoteGuid, [remoteNum]];
      HasWidths(cs, PORT_WIDTHS) && PortOfChunks(cs) == r
  {
  }

  lemma PortChunksRead(r: PortRec)
    requires PortRecFits(r)
    ensures HasWidths(PortChunks(r), PORT_WIDTHS) && PortOfChunks(PortChunks(r)) == r
  {
    var key := if r.remote.Some? then r.remote.value else PortKey(0, 0);
    LittleReads(r.data.guid, 8);
    LittleReads(r.data.baseLid, 2);
    LittleReads(r.owner, 8);
    if r.remote.Some? { LittleReads(key.guid, 8); }
    PortOfBytes(r, Little(r.data.guid, 8), Little(r.data.baseLid, 2), Little(r.owner, 8),
      if r.remote.Some? then 1 else 0, Little(key.guid, 8), key.portnum);
  }

  lemma PortReads(r: PortRec, rest: seq<Byte>)
    requires PortRecFits(r)
    ensures ParsePort(PortBytes(r) + rest) == Some((r, rest))
  {
    Widths();
    PortChunksRead(r);
    CutFlat(PortChunks(r), PORT_WIDTHS, rest);
  }

  predicate HeaderFits(h: Header) {
    h.nodeCount < Limit(4) && h.portCount < Limit(4) && h.from < Limit(8) && h.maxhops < Limit(4)
  }

  function HeaderOfChunks(cs: seq<seq<Byte>>): Option<Header>
    requires HasWidths(cs, HEADER_WIDTHS)
  {
    if FromLittle(cs[0]) != MAGIC || FromLittle(cs[1]) != VERSION then None
    else Some(Header(FromLittle(cs[2]), FromLittle(cs[3]), FromLittle(cs[4]), FromLittle(cs[5])))
  }

  lemma HeaderChunksRead(h: Header)
    requires HeaderFits(h)
    ensures HasWidths(HeaderChunks(h), HEADER_WIDTHS) && HeaderOfChunks(HeaderChunks(h)) == Some(h)
  {
    LimitWords();
    LittleReads(MAGIC, 4);
    LittleReads(VERSION, 4);
    LittleReads(h.nodeCount, 4);
    LittleReads(h.portCount, 4);
    LittleReads(h.from, 8);
    LittleReads(h.maxhops, 4);
  }

  lemma HeaderReads(h: Header, rest: seq<Byte>)
    requires HeaderFits(h)
    ensures ParseHeader(HeaderBytes(h) + rest) == Some((h, rest))
  {
    Widths();
    HeaderChunksRead(h);
    CutFlat(HeaderChunks(h), HEADER_WIDTHS, rest);
  }

  lemma LimitWords()
    ensures Limit(4) == 0x1_0000_0000
  {
    Pow2Words();
  }

  lemma NodesRead(rs: seq<NodeRec>, rest: seq<Byte>)
    requires forall r :: r in rs ==> NodeRecFits(r) && |r.keys| < 256
    ensures ParseAll(PrintAll(rs, NodeBytes) + rest, |rs|, ParseNode) == Some((rs, rest))
  {
    forall r | r in rs
      ensures Reads(r, NodeBytes, ParseNode)
    {
      forall rest ensures ParseNode(NodeBytes(r) + rest) == Some((r, rest)) { NodeReads(r, rest); }
    }
    AllRead(rs, NodeBytes, ParseNode, rest);
  }

  lemma PortsRead(rs: seq<PortRec>, rest: seq<Byte>)
    requires forall r :: r in rs ==> PortRecFits(r)
    ensures ParseAll(PrintAll(rs, PortBytes) + rest, |rs|, ParsePort) == Some((rs, rest))
  {
    forall r | r in rs
      ensures Reads(r, PortBytes, ParsePort)
    {
      forall rest ensures ParsePort(PortBytes(r) + rest) == Some((r, rest)) { PortReads(r, rest); }
    }
    AllRead(rs, PortBytes, ParsePort, rest);
  }

  lemma BodyReads(c: Contents, h: Header)
    requires ContentsFit(c) && forall r :: r in c.nodes ==> |r.keys| < 256
    requires h == Header(|c.nodes|, |c.ports|, c.from, c.maxhops)
    ensures ParseBody(h, BodyBytes(c)) == Some(c)
  {
    var ports := PrintAll(c.ports, PortBytes);
    NodesRead(c.nodes, ports);
    PortsRead(c.ports, []);
    assert ports + [] == ports;
  }

  // The whole file is read back.
  lemma FileReads(c: Contents)
    requires ContentsFit(c) && forall r :: r in c.nodes ==> |r.keys| < 256
    ensures ParseFile(FileBytes(c)) == Some(c)
  {
    var h := Header(|c.nodes|, |c.ports|, c.from, c.maxhops);
    HeaderReads(h, BodyBytes(c));
    BodyReads(c, h);
  }
}
