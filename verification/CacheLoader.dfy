// Loading a fabric from its cache file, as libibnetdisc/src/ibnetdisc_cache.c does it:
// records are read through a buffer, kept on lists and in hash chains, and then wired up.
module CacheLoader {
  import opened Wrappers
  import opened BitFields
  import opened CacheFormat
  import opened CacheGraph
  import opened CacheWriter
  import opened Tables
  import opened Binary
  import CacheBytes

  // ---------------------------------------------------------------------------
  // Reading from a buffer

  // Where chunk k begins
  function Offset(ws: seq<nat>, k: nat): nat
    requires k <= |ws|
  {
    if k == 0 then 0 else Offset(ws, k - 1) + ws[k - 1]
  }

  lemma {:induction false} OffsetTail(ws: seq<nat>, k: nat)
    requires 0 < k <= |ws|
    ensures Offset(ws, k) == ws[0] + Offset(ws[1..], k - 1)
    decreases k
  {
    if k > 1 { OffsetTail(ws, k - 1); }
  }

  lemma {:induction false} CutAt(s: seq<Byte>, ws: seq<nat>, k: nat)
    requires Total(ws) <= |s| && k < |ws|
    ensures Offset(ws, k) + ws[k] <= Total(ws)
    ensures Cut(s, ws)[k] == s[Offset(ws, k)..Offset(ws, k) + ws[k]]
    decreases |ws|
  {
    if k > 0 {
      CutAt(s[ws[0]..], ws[1..], k - 1);
      OffsetTail(ws, k);
      var o := Offset(ws[1..], k - 1);
      assert s[ws[0]..][o..o + ws[k]] == s[ws[0] + o..ws[0] + o + ws[k]];
    }
  }

  lemma {:induction false} CutPrefix(s: seq<Byte>, n: nat, ws: seq<nat>)
    requires Total(ws) <= n <= |s|
    ensures Cut(s[..n], ws) == Cut(s, ws)
    decreases |ws|
  {
    if ws != [] {
      assert s[..n][..ws[0]] == s[..ws[0]];
      assert s[..n][ws[0]..] == s[ws[0]..][..n - ws[0]];
      CutPrefix(s[ws[0]..], n - ws[0], ws[1..]);
    }
  }

  // _unmarshall16, _unmarshall32 and _unmarshall64, for n = 2, 4 and 8; the number is chunk
  // k of the buffer.
  method Unmarshall(buf: array<Byte>, offset: nat, n: nat, ghost ws: seq<nat>, ghost k: nat) returns (num: nat, next: nat)
    requires Total(ws) <= buf.Length && k < |ws| && offset == Offset(ws, k) && n == ws[k]
    ensures num == FromLittle(Cut(buf[..], ws)[k]) && next == Offset(ws, k + 1) == offset + n
  {
    CutAt(buf[..], ws, k);
    num := 0;
    for i := n downto 0
      invariant num == FromLittle(buf[offset + i..offset + n])
    {
      assert buf[offset + i..offset + n][1..] == buf[offset + i + 1..offset + n];
      num := buf[offset + i] as nat + 256 * num;
    }
    next := offset + n;
  }

  // _unmarshall8
  method Unmarshall8(buf: array<Byte>, offset: nat, ghost ws: seq<nat>, ghost k: nat) returns (num: Byte, next: nat)
    requires Total(ws) <= buf.Length && k < |ws| && offset == Offset(ws, k) && ws[k] == 1
    ensures num == Cut(buf[..], ws)[k][0] && next == Offset(ws, k + 1) == offset + 1
  {
    CutAt(buf[..], ws, k);
    return buf[offset], offset + 1;
  }

  // _unmarshall_buf
  method UnmarshallBuf(buf: array<Byte>, offset: nat, ghost ws: seq<nat>, ghost k: nat) returns (block: Block, next: nat)
    requires Total(ws) <= buf.Length && k < |ws| && offset == Offset(ws, k) && ws[k] == SMP_DATA
    ensures block == Cut(buf[..], ws)[k] && next == Offset(ws, k + 1) == offset + SMP_DATA
  {
    CutAt(buf[..], ws, k);
    return buf[offset..offset + SMP_DATA], offset + SMP_DATA;
  }

  // What is still to be read
  ghost function Rest(file: CacheFile): seq<Byte>
    requires file.pos <= |file.bytes|
    reads file
  {
    file.bytes[file.pos..]
  }

  // A record of fixed length is read into the buffer.
  method ReadRecord(file: CacheFile, buf: array<Byte>, ghost ws: seq<nat>, len: nat) returns (ok: bool)
    requires file.pos <= |file.bytes| && len == Total(ws) <= buf.Length
    modifies file`pos, buf
    ensures file.pos <= |file.bytes| && (ok <==> len <= |old(Rest(file))|)
    ensures ok ==> Cut(buf[..], ws) == Cut(old(Rest(file)), ws) && Rest(file) == old(Rest(file))[len..]
  {
    ok := file.Read(buf, len);
    if ok {
      CutPrefix(old(Rest(file)), len, ws);
      CutPrefix(buf[..], len, ws);
      assert buf[..][..len] == old(Rest(file))[..len];
    }
  }

  // The part of _load_header_info after the read
  method UnmarshallHeader(buf: array<Byte>) returns (r: Option<Header>)
    requires HEADER_LEN <= buf.Length && Total(HEADER_WIDTHS) == HEADER_LEN
    ensures r == HeaderOfChunks(Cut(buf[..], HEADER_WIDTHS))
  {
    var magic, offset := Unmarshall(buf, 0, 4, HEADER_WIDTHS, 0);
    if magic != MAGIC {
      return None;
    }
    var version, nodeCount, portCount, from, maxhops;
    version, offset := Unmarshall(buf, offset, 4, HEADER_WIDTHS, 1);
    if version != VERSION {
      return None;
    }
    nodeCount, offset := Unmarshall(buf, offset, 4, HEADER_WIDTHS, 2);
    portCount, offset := Unmarshall(buf, offset, 4, HEADER_WIDTHS, 3);
    from, offset := Unmarshall(buf, offset, 8, HEADER_WIDTHS, 4);
    maxhops, offset := Unmarshall(buf, offset, 4, HEADER_WIDTHS, 5);
    return Some(Header(nodeCount, portCount, from, maxhops));
  }

  // _load_header_info
  method LoadHeaderInfo(file: CacheFile) returns (r: Option<Header>)
    requires file.pos <= |file.bytes|
    modifies file`pos
    ensures file.pos <= |file.bytes|
    ensures ParseHeader(old(Rest(file))) == if r.Some? then Some((r.value, Rest(file))) else None
  {
    Widths();
    var buf := new Byte[BUFLEN];
    var ok := ReadRecord(file, buf, HEADER_WIDTHS, HEADER_LEN);
    if !ok {
      return None;
    }
    r := UnmarshallHeader(buf);
  }

  // The widths of the fields of a port, in a form that keeps proofs from cutting all fields
  ghost predicate PortShape(ws: seq<nat>) {
    && |ws| == 10 && ws[0] == 8 && ws[1] == 1 && ws[2] == 1 && ws[3] == 2 && ws[4] == 1
    && ws[5] == SMP_DATA && ws[6] == 8 && ws[7] == 1 && ws[8] == 8 && ws[9] == 1
  }

  // The first six fields of a port
  method UnmarshallPortData(buf: array<Byte>, ghost ws: seq<nat>) returns (d: PortData, offset: nat)
    requires PortShape(ws) && Total(ws) <= buf.Length
    ensures var cs := Cut(buf[..], ws);
      d == PortData(FromLittle(cs[0]), cs[1][0], cs[2][0], FromLittle(cs[3]), cs[4][0], cs[5])
    ensures offset == Offset(ws, 6)
  {
    var guid, portnum, extPortnum, baseLid, lmc, info;
    guid, offset := Unmarshall(buf, 0, 8, ws, 0);
    portnum, offset := Unmarshall8(buf, offset, ws, 1);
    extPortnum, offset := Unmarshall8(buf, offset, ws, 2);
    baseLid, offset := Unmarshall(buf, offset, 2, ws, 3);
    lmc, offset := Unmarshall8(buf, offset, ws, 4);
    info, offset := UnmarshallBuf(buf, offset, ws, 5);
    d := PortData(guid, portnum, extPortnum, baseLid, lmc, info);
  }

  // The last three fields of a port
  method UnmarshallRemote(buf: array<Byte>, start: nat, ghost ws: seq<nat>) returns (remote: Option<PortKey>)
    requires PortShape(ws) && Total(ws) <= buf.Length && start == Offset(ws, 7)
    ensures var cs := Cut(buf[..], ws);
      remote == if cs[7][0] != 0 then Some(PortKey(FromLittle(cs[8]), cs[9][0])) else None
  {
    var flag, offset := Unmarshall8(buf, start, ws, 7);
    var remoteGuid, remoteNum;
    remoteGuid, offset := Unmarshall(buf, offset, 8, ws, 8);
    remoteNum, offset := Unmarshall8(buf, offset, ws, 9);
    remote := if flag != 0 then Some(PortKey(remoteGuid, remoteNum)) else None;
  }

  // The part of _load_port after the read
  method UnmarshallPort(buf: array<Byte>) returns (r: PortRec)
    requires PORT_LEN <= buf.Length && Total(PORT_WIDTHS) == PORT_LEN
    ensures r == PortOfChunks(Cut(buf[..], PORT_WIDTHS))
  {
    var d, offset := UnmarshallPortData(buf, PORT_WIDTHS);
    var owner;
    owner, offset := Unmarshall(buf, offset, 8, PORT_WIDTHS, 6);
    var remote := UnmarshallRemote(buf, offset, PORT_WIDTHS);
    r := PortRec(d, owner, remote);
  }

  // _load_port up to store_port_cache
  method LoadPort(file: CacheFile) returns (r: Option<PortRec>)
    requires file.pos <= |file.bytes|
    modifies file`pos
    ensures file.pos <= |file.bytes|
    ensures ParsePort(old(Rest(file))) == if r.Some? then Some((r.value, Rest(file))) else None
  {
    Widths();
    var buf := new Byte[BUFLEN];
    var ok := ReadRecord(file, buf, PORT_WIDTHS, PORT_LEN);
    if !ok {
      return None;
    }
    var p := UnmarshallPort(buf);
    return Some(p);
  }

  // The same for a node
  ghost predicate NodeShape(ws: seq<nat>) {
    && |ws| == 10 && ws[0] == 2 && ws[1] == 1 && ws[2] == 1 && ws[3] == SMP_DATA && ws[4] == 8
    && ws[5] == 1 && ws[6] == 1 && ws[7] == SMP_DATA && ws[8] == SMP_DATA && ws[9] == 1
  }

  // The first four fields of a node
  method UnmarshallSma(buf: array<Byte>, ghost ws: seq<nat>)
    returns (smalid: nat, smalmc: Byte, smaenhsp0: Byte, switchinfo: Block, offset: nat)
    requires NodeShape(ws) && Total(ws) <= buf.Length
    ensures var cs := Cut(buf[..], ws);
      smalid == FromLittle(cs[0]) && smalmc == cs[1][0] && smaenhsp0 == cs[2][0] && switchinfo == cs[3]
    ensures offset == Offset(ws, 4)
  {
    smalid, offset := Unmarshall(buf, 0, 2, ws, 0);
    smalmc, offset := Unmarshall8(buf, offset, ws, 1);
    smaenhsp0, offset := Unmarshall8(buf, offset, ws, 2);
    switchinfo, offset := UnmarshallBuf(buf, offset, ws, 3);
  }

  // The next three fields
  method UnmarshallIds(buf: array<Byte>, start: nat, ghost ws: seq<nat>) returns (guid: nat, kind: Byte, numports: Byte, offset: nat)
    requires NodeShape(ws) && Total(ws) <= buf.Length && start == Offset(ws, 4)
    ensures var cs := Cut(buf[..], ws); guid == FromLittle(cs[4]) && kind == cs[5][0] && numports == cs[6][0]
    ensures offset == Offset(ws, 7)
  {
    guid, offset := Unmarshall(buf, start, 8, ws, 4);
    kind, offset := Unmarshall8(buf, offset, ws, 5);
    numports, offset := Unmarshall8(buf, offset, ws, 6);
  }

  // The last three fields
  method UnmarshallBlocks(buf: array<Byte>, start: nat, ghost ws: seq<nat>) returns (info: Block, nodedesc: Block, count: Byte)
    requires NodeShape(ws) && Total(ws) <= buf.Length && start == Offset(ws, 7)
    ensures var cs := Cut(buf[..], ws); info == cs[7] && nodedesc == cs[8] && count == cs[9][0]
  {
    var offset;
    info, offset := UnmarshallBuf(buf, start, ws, 7);
    nodedesc, offset := UnmarshallBuf(buf, offset, ws, 8);
    count, offset := Unmarshall8(buf, offset, ws, 9);
  }

  // The fixed part of a node
  method UnmarshallNode(buf: array<Byte>) returns (d: NodeData, count: Byte)
    requires NODE_LEN <= buf.Length && Total(NODE_WIDTHS) == NODE_LEN
    ensures var cs := Cut(buf[..], NODE_WIDTHS);
      d == NodeOfChunks(cs) && count == cs[9][0]
  {
    var smalid, smalmc, smaenhsp0, switchinfo, offset := UnmarshallSma(buf, NODE_WIDTHS);
    var guid, kind, numports, info, nodedesc;
    guid, kind, numports, offset := UnmarshallIds(buf, offset, NODE_WIDTHS);
    info, nodedesc, count := UnmarshallBlocks(buf, offset, NODE_WIDTHS);
    d := NodeData(smalid, smalmc, smaenhsp0, switchinfo, guid, kind, numports, info, nodedesc);
  }

  // The i-th of the keys at the front of s
  function KeyAt(s: seq<Byte>, i: nat): PortKey
    requires KEY_LEN * (i + 1) <= |s|
  {
    PortKey(FromLittle(s[KEY_LEN * i..KEY_LEN * i + 8]), s[KEY_LEN * i + 8])
  }

  lemma ParseKeyAt(s: seq<Byte>)
    requires KEY_LEN <= |s|
    ensures ParseKey(s) == Some((KeyAt(s, 0), s[KEY_LEN..]))
  {
    Widths();
    var cs := Cut(s, KEY_WIDTHS);
    CutAt(s, KEY_WIDTHS, 0);
    CutAt(s, KEY_WIDTHS, 1);
    assert cs[0] == s[0..8] && cs[1] == s[8..9];
  }

  lemma {:induction false} KeysParse(s: seq<Byte>, n: nat)
    ensures KEY_LEN * n <= |s| ==>
      var r := ParseAll(s, n, ParseKey);
      && r.Some? && r.value.1 == s[KEY_LEN * n..]
      && forall i :: 0 <= i < n ==> r.value.0[i] == KeyAt(s, i)
    ensures KEY_LEN * n > |s| ==> ParseAll(s, n, ParseKey).None?
    decreases n
  {
    if n > 0 {
      KeysParse(s, n - 1);
      if KEY_LEN * n <= |s| {
        var rest := s[KEY_LEN * (n - 1)..];
        ParseKeyAt(rest);
        assert rest[KEY_LEN..] == s[KEY_LEN * n..];
        assert rest[..8] == s[KEY_LEN * (n - 1)..KEY_LEN * (n - 1) + 8];
      }
    }
  }

  // The keys of a node
  method UnmarshallKeys(buf: array<Byte>, count: nat) returns (keys: seq<PortKey>)
    requires KEY_LEN * count <= buf.Length
    ensures |keys| == count && forall i :: 0 <= i < count ==> keys[i] == KeyAt(buf[..], i)
  {
    keys := [];
    var offset := 0;
    for i := 0 to count
      invariant offset == KEY_LEN * i && |keys| == i
      invariant forall j :: 0 <= j < i ==> keys[j] == KeyAt(buf[..], j)
    {
      var guid := 0;
      for b := 8 downto 0
        invariant guid == FromLittle(buf[offset + b..offset + 8])
      {
        assert buf[offset + b..offset + 8][1..] == buf[offset + b + 1..offset + 8];
        guid := buf[offset + b] as nat + 256 * guid;
      }
      keys := keys + [PortKey(guid, buf[offset + 8])];
      offset := offset + KEY_LEN;
    }
  }

  lemma SameKeys(a: seq<Byte>, b: seq<Byte>, count: nat)
    requires KEY_LEN * count <= |a| && KEY_LEN * count <= |b| && a[..KEY_LEN * count] == b[..KEY_LEN * count]
    ensures forall i :: 0 <= i < count ==> KeyAt(a, i) == KeyAt(b, i)
  {
    forall i | 0 <= i < count
      ensures KeyAt(a, i) == KeyAt(b, i)
    {
      assert a[KEY_LEN * i..KEY_LEN * i + 8] == a[..KEY_LEN * count][KEY_LEN * i..KEY_LEN * i + 8];
      assert b[KEY_LEN * i..KEY_LEN * i + 8] == b[..KEY_LEN * count][KEY_LEN * i..KEY_LEN * i + 8];
      assert a[KEY_LEN * i + 8] == a[..KEY_LEN * count][KEY_LEN * i + 8];
    }
  }

  // The keys are read in one go.
  method LoadKeys(file: CacheFile, buf: array<Byte>, count: nat) returns (r: Option<seq<PortKey>>)
    requires file.pos <= |file.bytes| && KEY_LEN * count <= buf.Length
    modifies file`pos, buf
    ensures file.pos <= |file.bytes|
    ensures ParseAll(old(Rest(file)), count, ParseKey) == if r.Some? then Some((r.value, Rest(file))) else None
  {
    ghost var s := Rest(file);
    KeysParse(s, count);
    var ok := file.Read(buf, KEY_LEN * count);
    if !ok {
      return None;
    }
    assert buf[..][..KEY_LEN * count] == s[..KEY_LEN * count];
    SameKeys(buf[..], s, count);
    var keys := UnmarshallKeys(buf, count);
    assert keys == ParseAll(s, count, ParseKey).value.0;
    return Some(keys);
  }

  // _load_node up to store_node_cache
  method LoadNode(file: CacheFile) returns (r: Option<NodeRec>)
    requires file.pos <= |file.bytes|
    modifies file`pos
    ensures file.pos <= |file.bytes|
    ensures ParseNode(old(Rest(file))) == if r.Some? then Some((r.value, Rest(file))) else None
  {
    Widths();
    var buf := new Byte[BUFLEN];
    var ok := ReadRecord(file, buf, NODE_WIDTHS, NODE_LEN);
    if !ok {
      return None;
    }
    var d, count := UnmarshallNode(buf);
    var keys := LoadKeys(file, buf, count);
    if keys.None? {
      return None;
    }
    return Some(NodeRec(d, keys.value));
  }

  // ---------------------------------------------------------------------------
  // The lists and hash chains of the loader

  function NodeBuckets(nodes: seq<NodeRec>): (r: seq<nat>)
    ensures |r| == |nodes|
  {
    seq(|nodes|, k requires 0 <= k < |nodes| => Bucket(nodes[k].data.guid))
  }

  function PortBuckets(ports: seq<PortRec>): (r: seq<nat>)
    ensures |r| == |ports|
  {
    seq(|ports|, k requires 0 <= k < |ports| => Bucket(ports[k].data.guid))
  }

  ghost predicate ChainsOk(table: seq<seq<nat>>, buckets: seq<nat>) {
    |table| == HTSZ && forall b :: 0 <= b < HTSZ ==> table[b] == RecordChain(buckets, b)
  }

  // A record put at the head of its chain
  lemma ChainsMore(table: seq<seq<nat>>, buckets: seq<nat>, b: nat)
    requires ChainsOk(table, buckets) && b < HTSZ
    ensures ChainsOk(table[b := [|buckets|] + table[b]], buckets + [b])
  {
    assert (buckets + [b])[..|buckets|] == buckets;
  }

  lemma {:induction false} ChainBelow(buckets: seq<nat>, b: nat)
    ensures forall k :: 0 <= k < |RecordChain(buckets, b)| ==> RecordChain(buckets, b)[k] < |buckets|
    decreases |buckets|
  {
    if buckets != [] { ChainBelow(buckets[..|buckets| - 1], b); }
  }

  // ibnd_fabric_cache_t and the fabric that is rebuilt.  A record is named by its number
  // in the file; the lists nodes_cache and ports_cache hold such numbers from the head on,
  // and so do the lists and chains of nodes in `tables`.  A port with its pointers set is
  // in `wired`.
  class FabricCache {
    var nodes: seq<NodeRec>
    var ports: seq<PortRec>
    var nodesCache: seq<nat>
    var portsCache: seq<nat>
    var tables: NodeTables
    var nodescachetbl: seq<seq<nat>>
    var portscachetbl: seq<seq<nat>>
    var slots: map<PortRef, nat>
    var stored: set<nat>
    var wired: map<nat, LoadedPort>
    var portstbl: seq<seq<nat>>
    var lids: map<nat, nat>

    ghost predicate Valid()
      reads this
    {
      && ChainsOk(nodescachetbl, NodeBuckets(nodes)) && ChainsOk(portscachetbl, PortBuckets(ports))
      && nodesCache == DownFrom(|nodes|) && portsCache == DownFrom(|ports|)
    }

    constructor ()
      ensures Valid() && nodes == [] && ports == [] && slots == map[] && stored == {} && wired == map[] && tables == NO_NODES
      ensures Hashed(portstbl, [], {}) && lids == map[]
    {
      portstbl, lids := seq(HTSZ, h => []), map[];
      nodesCache, portsCache, tables := [], [], NO_NODES;
      nodes, ports, slots, stored, wired := [], [], map[], {}, map[];
      nodescachetbl, portscachetbl := seq(HTSZ, h => []), seq(HTSZ, h => []);
    }

    // store_node_cache
    method StoreNode(r: NodeRec)
      requires Valid()
      modifies this`nodes, this`nodescachetbl, this`nodesCache
      ensures Valid() && nodes == old(nodes) + [r]
    {
      var h := Bucket(r.data.guid);
      ChainsMore(nodescachetbl, NodeBuckets(nodes), h);
      assert NodeBuckets(nodes + [r]) == NodeBuckets(nodes) + [h];
      nodescachetbl := nodescachetbl[h := [|nodes|] + nodescachetbl[h]];
      nodesCache := [|nodes|] + nodesCache;
      nodes := nodes + [r];
    }

    // store_port_cache
    method StorePort(r: PortRec)
      requires Valid()
      modifies this`ports, this`portscachetbl, this`portsCache
      ensures Valid() && ports == old(ports) + [r]
    {
      var h := Bucket(r.data.guid);
      ChainsMore(portscachetbl, PortBuckets(ports), h);
      assert PortBuckets(ports + [r]) == PortBuckets(ports) + [h];
      portscachetbl := portscachetbl[h := [|ports|] + portscachetbl[h]];
      portsCache := [|ports|] + portsCache;
      ports := ports + [r];
    }

    // _find_port
    method FindPort(key: PortKey) returns (r: Option<nat>)
      requires Valid()
      ensures r == CacheGraph.FindPort(ports, key)
    {
      var h := Bucket(key.guid);
      ghost var good := HasKey(ports, key);
      ChainFinds(PortBuckets(ports), h, good);
      ChainBelow(PortBuckets(ports), h);
      var chain := portscachetbl[h];
      var k := 0;
      while k < |chain|
        invariant 0 <= k <= |chain| && FirstIn(chain[k..], good) == FirstIn(chain, good)
      {
        if KeyOf(ports[chain[k]].data) == key {
          return Some(chain[k]);
        }
        k := k + 1;
      }
      return None;
    }

    // _find_node
    method FindNode(guid: nat) returns (r: Option<nat>)
      requires Valid()
      ensures r == CacheGraph.FindNode(nodes, guid)
    {
      var h := Bucket(guid);
      ghost var good := HasGuid(nodes, guid);
      ChainFinds(NodeBuckets(nodes), h, good);
      ChainBelow(NodeBuckets(nodes), h);
      var chain := nodescachetbl[h];
      var k := 0;
      while k < |chain|
        invariant 0 <= k <= |chain| && FirstIn(chain[k..], good) == FirstIn(chain, good)
      {
        if nodes[chain[k]].data.guid == guid {
          return Some(chain[k]);
        }
        k := k + 1;
      }
      return None;
    }

    // _fill_port
    method FillPort(i: nat, key: PortKey) returns (ok: bool)
      requires Valid() && Hashed(portstbl, ports, stored)
      modifies this`slots, this`stored, this`portstbl
      ensures Valid() && Hashed(portstbl, ports, stored)
      ensures CacheGraph.FillPort(ports, i, key, Filled(old(slots), old(stored))) == if ok then Some(Filled(slots, stored)) else None
    {
      var k := FindPort(key);
      if k.None? {
        return false;
      }
      if k.value in stored {
        return false;
      }
      slots := slots[At(i, ports[k.value].data.portnum) := k.value];
      HashedMore(portstbl, ports, stored, k.value);
      stored := stored + {k.value};
      portstbl := EnterChain(portstbl, k.value, Bucket(ports[k.value].data.guid));
      return true;
    }

    ghost function ToContents(from: nat, maxhops: nat): Contents
      reads this
    {
      Contents(from, maxhops, nodes, ports)
    }

    // The loop of _rebuild_nodes over the keys of one node
    method FillNode(i: nat, keys: seq<PortKey>) returns (ok: bool)
      requires Valid() && Hashed(portstbl, ports, stored)
      modifies this`slots, this`stored, this`portstbl
      ensures Valid() && Hashed(portstbl, ports, stored)
      ensures FillPorts(ports, i, keys, Filled(old(slots), old(stored))) == if ok then Some(Filled(slots, stored)) else None
    {
      var k := 0;
      while k < |keys|
        invariant 0 <= k <= |keys| && Valid() && Hashed(portstbl, ports, stored)
        invariant FillPorts(ports, i, keys[..k], Filled(old(slots), old(stored))) == Some(Filled(slots, stored))
      {
        assert keys[..k + 1] == keys[..k] + [keys[k]];
        FillOneMore(ports, i, keys[..k], keys[k], Filled(old(slots), old(stored)));
        ok := FillPort(i, keys[k]);
        if !ok {
          FillFails(ports, i, keys, k + 1, Filled(old(slots), old(stored)));
          return false;
        }
        k := k + 1;
      }
      assert keys[..k] == keys;
      return true;
    }

    // The turn of _rebuild_nodes for record n
    method RebuildNode(ghost c: Contents, n: nat) returns (ok: bool)
      requires Valid() && c.nodes == nodes && c.ports == ports && n < |nodes|
      requires FillNodes(c, n + 1) == Some(Filled(slots, stored)) && Listed(tables, Datas(c), n + 1)
      requires Hashed(portstbl, ports, stored)
      modifies this`slots, this`stored, this`tables, this`portstbl
      ensures Valid() && Hashed(portstbl, ports, stored)
      ensures FillNodes(c, n) == if ok then Some(Filled(slots, stored)) else None
      ensures Listed(tables, Datas(c), n)
    {
      EnterListed(tables, Datas(c), n);
      tables := Enter(tables, n, InfoOf(nodes[n].data));
      ok := FillNode(n, nodes[n].keys);
    }

    // _rebuild_nodes, down the list nodes_cache
    method RebuildNodes(ghost c: Contents) returns (ok: bool)
      requires Valid() && slots == map[] && stored == {} && tables == NO_NODES && c.nodes == nodes && c.ports == ports
      requires Hashed(portstbl, ports, {})
      modifies this`slots, this`stored, this`tables, this`portstbl
      ensures Valid() && Hashed(portstbl, ports, stored)
      ensures FillNodes(c, 0) == if ok then Some(Filled(slots, stored)) else None
      ensures ok ==> Listed(tables, Datas(c), 0)
    {
      for k := 0 to |nodesCache|
        invariant Valid() && FillNodes(c, |nodes| - k) == Some(Filled(slots, stored))
        invariant Listed(tables, Datas(c), |nodes| - k) && Hashed(portstbl, ports, stored)
      {
        ok := RebuildNode(c, nodesCache[k]);
        if !ok {
          FillNodesFails(c, nodesCache[k]);
          return false;
        }
      }
      return true;
    }

    // add_to_portlid_hash; the loop variable has 16 bits.
    method AddToPortLidHash(k: nat)
      requires k < |ports| && ports[k].data.lmc <= 7
      modifies this`lids
      ensures lids == Register(old(lids), RecordEntry(ports, k))
    {
      var base, lmc := ports[k].data.baseLid, ports[k].data.lmc;
      Pow2Small(lmc);
      if 0 < base <= MAX_UCAST_LID {
        var lid := base;
        while lid < base + Pow2(lmc)
          invariant base <= lid <= base + Pow2(lmc) < 0x1_0000
          invariant InsertLids(lids, lid, base + Pow2(lmc), k) == InsertLids(old(lids), base, base + Pow2(lmc), k)
        {
          lids := InsertLid(lids, lid, k);
          lid := (lid + 1) % 0x1_0000;
        }
      }
    }

    // The turn of _rebuild_ports for one port.  An LMC of more than three bits, for which
    // the loop over the LIDs need not end, is passed over.
    method WirePort(ghost c: Contents, k: nat) returns (ok: bool)
      requires Valid() && c.nodes == nodes && c.ports == ports && k < |ports|
      modifies this`wired, this`lids
      ensures ok <==> Resolves(c, ports[k])
      ensures ok ==> wired == old(wired)[k := Wired(c, ports[k])]
      ensures ok && ports[k].data.lmc <= 7 ==> lids == Register(old(lids), RecordEntry(ports, k))
    {
      var r := ports[k];
      var node := FindNode(r.owner);
      if node.None? {
        return false;
      }
      var remote: Option<nat> := None;
      if r.remote.Some? {
        remote := FindPort(r.remote.value);
        if remote.None? {
          return false;
        }
      }
      wired := wired[k := LoadedPort(r.data, node, remote)];
      if r.data.lmc <= 7 {
        AddToPortLidHash(k);
      }
      return true;
    }

    // The LID map after k turns of _rebuild_ports
    ghost predicate LidsTo(k: nat)
      reads this
    {
      LmcsOk(ports) && k <= |ports| ==> lids == RegisterAll(RecordEntries(ports)[..k])
    }

    // Turn k of _rebuild_ports
    method WireNext(ghost c: Contents, k: nat) returns (ok: bool)
      requires Valid() && c.nodes == nodes && c.ports == ports && k < |portsCache| && LidsTo(k)
      modifies this`wired, this`lids
      ensures var j := |ports| - 1 - k;
        && (ok <==> Resolves(c, ports[j]))
        && (ok ==> wired == old(wired)[j := Wired(c, ports[j])] && LidsTo(k + 1))
    {
      RecordsRegistered(ports, k);
      ok := WirePort(c, portsCache[k]);
    }

    // _rebuild_ports, down the list ports_cache
    method RebuildPorts(ghost c: Contents) returns (ok: bool)
      requires Valid() && c.nodes == nodes && c.ports == ports && lids == map[]
      modifies this`wired, this`lids
      ensures ok <==> forall k :: 0 <= k < |ports| ==> Resolves(c, ports[k])
      ensures ok ==> forall k :: 0 <= k < |ports| ==> k in wired && wired[k] == Wired(c, ports[k])
      ensures ok && LmcsOk(ports) ==> lids == RegisterAll(RecordEntries(ports))
    {
      for k := 0 to |portsCache|
        invariant forall j :: |ports| - k <= j < |ports| ==> Resolves(c, ports[j]) && j in wired && wired[j] == Wired(c, ports[j])
        invariant LidsTo(k)
      {
        ok := WireNext(c, k);
        if !ok {
          return false;
        }
      }
      assert RecordEntries(ports)[..|ports|] == RecordEntries(ports);
      return true;
    }

    // The part of ibnd_load_fabric after the records are in.  The nodes are those on the
    // rebuilt list.
    method RebuildFabric(from: nat, maxhops: nat) returns (r: Option<Loaded>)
      requires Valid() && slots == map[] && stored == {} && tables == NO_NODES && Hashed(portstbl, ports, {}) && lids == map[]
      modifies this`slots, this`stored, this`tables, this`wired, this`portstbl, this`lids
      ensures r == Rebuild(old(ToContents(from, maxhops)))
      ensures r.Some? ==> Listed(tables, r.value.nodes, 0) && Indexed(old(ToContents(from, maxhops)), portstbl, lids)
    {
      ghost var c := ToContents(from, maxhops);
      var fromNode := FindNode(from);
      if fromNode.None? {
        return None;
      }
      var ok := RebuildNodes(c);
      if !ok {
        return None;
      }
      ok := RebuildPorts(c);
      if !ok {
        return None;
      }
      var datas := ListedData(c);
      var all := seq(|ports|, k requires 0 <= k < |ports| && k in wired reads this => wired[k]);
      assert all == AllWired(c);
      return Some(Loaded(datas, slots, all, fromNode.value, maxhops));
    }

    // The data down the list of nodes
    method ListedData(ghost c: Contents) returns (datas: seq<NodeData>)
      requires c.nodes == nodes && Listed(tables, Datas(c), 0)
      ensures datas == Datas(c)
    {
      UpFromAt(0, |nodes|);
      var list, recs := tables.all, nodes;
      datas := seq(|list|, k requires 0 <= k < |list| && list[k] < |recs| => recs[list[k]].data);
    }

    // One turn of the loop of ibnd_load_fabric over the nodes
    method LoadNextNode(file: CacheFile, ghost s: seq<Byte>, ghost i: nat) returns (ok: bool)
      requires Valid() && file.pos <= |file.bytes| && ParseAll(s, i, ParseNode) == Some((nodes, Rest(file)))
      modifies file`pos, this`nodes, this`nodescachetbl, this`nodesCache
      ensures Valid() && file.pos <= |file.bytes|
      ensures ParseAll(s, i + 1, ParseNode) == if ok then Some((nodes, Rest(file))) else None
    {
      var r := LoadNode(file);
      if r.None? {
        return false;
      }
      StoreNode(r.value);
      return true;
    }

    method LoadNodes(file: CacheFile, count: nat) returns (ok: bool)
      requires Valid() && nodes == [] && file.pos <= |file.bytes|
      modifies file`pos, this`nodes, this`nodescachetbl, this`nodesCache
      ensures Valid() && file.pos <= |file.bytes|
      ensures ParseAll(old(Rest(file)), count, ParseNode) == if ok then Some((nodes, Rest(file))) else None
    {
      ghost var s := Rest(file);
      for i := 0 to count
        invariant Valid() && file.pos <= |file.bytes|
        invariant ParseAll(s, i, ParseNode) == Some((nodes, Rest(file)))
      {
        ok := LoadNextNode(file, s, i);
        if !ok {
          ParseFails(s, i + 1, count, ParseNode);
          return false;
        }
      }
      return true;
    }

    // One turn of the loop of ibnd_load_fabric over the ports
    method LoadNextPort(file: CacheFile, ghost s: seq<Byte>, ghost i: nat) returns (ok: bool)
      requires Valid() && file.pos <= |file.bytes| && ParseAll(s, i, ParsePort) == Some((ports, Rest(file)))
      modifies file`pos, this`ports, this`portscachetbl, this`portsCache
      ensures Valid() && file.pos <= |file.bytes|
      ensures ParseAll(s, i + 1, ParsePort) == if ok then Some((ports, Rest(file))) else None
    {
      var r := LoadPort(file);
      if r.None? {
        return false;
      }
      StorePort(r.value);
      return true;
    }

    method LoadPorts(file: CacheFile, count: nat) returns (ok: bool)
      requires Valid() && ports == [] && file.pos <= |file.bytes|
      modifies file`pos, this`ports, this`portscachetbl, this`portsCache
      ensures Valid() && file.pos <= |file.bytes|
      ensures ParseAll(old(Rest(file)), count, ParsePort) == if ok then Some((ports, Rest(file))) else None
    {
      ghost var s := Rest(file);
      for i := 0 to count
        invariant Valid() && file.pos <= |file.bytes|
        invariant ParseAll(s, i, ParsePort) == Some((ports, Rest(file)))
      {
        ok := LoadNextPort(file, s, i);
        if !ok {
          ParseFails(s, i + 1, count, ParsePort);
          return false;
        }
      }
      return true;
    }

    // The part of ibnd_load_fabric that reads the records
    method LoadRecords(file: CacheFile, h: Header) returns (ok: bool)
      requires Valid() && nodes == [] && ports == [] && file.pos <= |file.bytes|
      modifies file`pos, this`nodes, this`nodescachetbl, this`nodesCache, this`ports, this`portscachetbl, this`portsCache
      ensures Valid()
      ensures ParseBody(h, old(Rest(file))) == if ok then Some(ToContents(h.from, h.maxhops)) else None
    {
      ok := LoadNodes(file, h.nodeCount);
      if !ok {
        return false;
      }
      ok := LoadPorts(file, h.portCount);
    }
  }

  lemma {:induction false} FillFails(ports: seq<PortRec>, i: nat, keys: seq<PortKey>, k: nat, st: Filled)
    requires k <= |keys| && FillPorts(ports, i, keys[..k], st).None?
    ensures FillPorts(ports, i, keys, st).None?
    decreases |keys| - k
  {
    if k == |keys| {
      assert keys[..k] == keys;
    } else {
      assert keys[..k + 1] == keys[..k] + [keys[k]];
      FillOneMore(ports, i, keys[..k], keys[k], st);
      FillFails(ports, i, keys, k + 1, st);
    }
  }

  lemma {:induction false} FillNodesFails(c: Contents, n: nat)
    requires n <= |c.nodes| && FillNodes(c, n).None?
    ensures FillNodes(c, 0).None?
    decreases n
  {
    if n > 0 { FillNodesFails(c, n - 1); }
  }

  lemma {:induction false} ParseFails<R>(s: seq<Byte>, k: nat, n: nat, parse1: seq<Byte> -> Option<(R, seq<Byte>)>)
    requires k <= n && ParseAll(s, k, parse1).None?
    ensures ParseAll(s, n, parse1).None?
    decreases n - k
  {
    if k < n { ParseFails(s, k + 1, n, parse1); }
  }

  // The indexes of the rebuilt fabric
  datatype Indexes = Indexes(nodes: NodeTables, portstbl: seq<seq<nat>>, lids: map<nat, nat>)

  // The part of ibnd_load_fabric that reads the file
  method LoadContents(cache: FabricCache, file: CacheFile) returns (header: Option<Header>)
    requires file.pos == 0 && cache.Valid() && cache.nodes == [] && cache.ports == []
    modifies file`pos, cache`nodes, cache`nodescachetbl, cache`nodesCache, cache`ports, cache`portscachetbl, cache`portsCache
    ensures cache.Valid()
    ensures ParseFile(file.bytes) == if header.Some? then Some(cache.ToContents(header.value.from, header.value.maxhops)) else None
  {
    assert Rest(file) == file.bytes;
    header := LoadHeaderInfo(file);
    if header.None? {
      return None;
    }
    var ok := cache.LoadRecords(file, header.value);
    if !ok {
      return None;
    }
  }

  // ibnd_load_fabric up to the grouping of nodes
  method LoadFabric(file: CacheFile) returns (r: Option<Loaded>, indexes: Indexes)
    requires file.pos == 0
    modifies file`pos
    ensures r == Load(file.bytes)
    ensures r.Some? ==> 28 <= |file.bytes| && file.bytes[..8] == [0x2b, 0x83, 0xe7, 0x8f, 1, 0, 0, 0]
    ensures r.Some? ==>
      && Listed(indexes.nodes, r.value.nodes, 0)
      && ParseFile(file.bytes).Some? && Indexed(ParseFile(file.bytes).value, indexes.portstbl, indexes.lids)
  {
    var cache := new FabricCache();
    indexes := Indexes(NO_NODES, [], map[]);
    CacheBytes.LoadsOnlySigned(file.bytes);
    var header := LoadContents(cache, file);
    if header.None? {
      return None, indexes;
    }
    NothingHashed(cache.portstbl, cache.ports);
    r := cache.RebuildFabric(header.value.from, header.value.maxhops);
    indexes := Indexes(cache.tables, cache.portstbl, cache.lids);
  }

  // A fabric is cached in a new file and loaded from it.
  method CacheAndLoad(f: StoredFabric, portstbl: seq<seq<PortRef>>) returns (r: Option<Loaded>, indexes: Indexes)
    requires FabricOk(f) && FabricFits(f) && CountsFit(f) && f.order == Concat(portstbl)
    ensures AllInTable(f) ==> r == Some(SameGraph(f)) && Listed(indexes.nodes, f.nodes, 0)
    ensures AllInTable(f) ==> PortsHashed(f, indexes.portstbl)
    ensures AllInTable(f) && LmcsFit(f) ==> indexes.lids == RegisterAll(StoredEntries(f))
    ensures !AllInTable(f) ==> r == None
  {
    var file := new CacheFile([]);
    CacheFabric(file, f, portstbl);
    file.Seek(0);
    r, indexes := LoadFabric(file);
    CacheRoundTrip(f);
    if AllInTable(f) {
      IndexedSame(f, indexes.portstbl, indexes.lids);
    }
  }
}
