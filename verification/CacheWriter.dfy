// Writing a fabric to its cache file, as libibnetdisc/src/ibnetdisc_cache.c does it:
// through a buffer that is filled at a moving offset.
module CacheWriter {
  import opened Wrappers
  import opened BitFields
  import opened CacheFormat
  import opened CacheGraph

  const BUFLEN := 4096

  // Writing x over b from pos on
  function Overwritten(b: seq<Byte>, pos: nat, x: seq<Byte>): seq<Byte>
    requires pos <= |b|
  {
    b[..pos] + x + if pos + |x| <= |b| then b[pos + |x|..] else []
  }

  // An open file and its position
  class CacheFile {
    var bytes: seq<Byte>
    var pos: nat

    constructor (bytes: seq<Byte>)
      ensures this.bytes == bytes && pos == 0
    {
      this.bytes, pos := bytes, 0;
    }

    // ibnd_write
    method Write(buf: array<Byte>, count: nat)
      requires count <= buf.Length && pos <= |bytes|
      modifies this
      ensures bytes == Overwritten(old(bytes), old(pos), buf[..count]) && pos == old(pos) + count
    {
      bytes := Overwritten(bytes, pos, buf[..count]);
      pos := pos + count;
    }

    // lseek from the start of the file
    method Seek(to: nat)
      modifies this`pos
      ensures pos == to
    {
      pos := to;
    }

    // ibnd_read; a short read is an error.
    method Read(buf: array<Byte>, count: nat) returns (ok: bool)
      requires count <= buf.Length && pos <= |bytes|
      modifies this`pos, buf
      ensures ok <==> count <= |bytes| - old(pos)
      ensures pos <= |bytes| && (ok ==> pos == old(pos) + count && buf[..count] == bytes[old(pos)..pos])
    {
      if count > |bytes| - pos {
        pos := |bytes|;
        return false;
      }
      forall i | 0 <= i < count {
        buf[i] := bytes[pos + i];
      }
      pos := pos + count;
      return true;
    }
  }

  lemma {:induction false} FlatMore(cs: seq<seq<Byte>>, c: seq<Byte>)
    ensures Flat(cs + [c]) == Flat(cs) + c
    decreases |cs|
  {
    if cs == [] {
      assert cs + [c] == [c] && [c][1..] == [];
    } else {
      assert (cs + [c])[1..] == cs[1..] + [c];
      FlatMore(cs[1..], c);
    }
  }

  // _marshall16, _marshall32 and _marshall64, for n = 2, 4 and 8.  The chunks say what is
  // in the buffer from `start` on so far.
  method Marshall(buf: array<Byte>, ghost start: nat, offset: nat, num: nat, n: nat, ghost chunks: seq<seq<Byte>>)
    returns (next: nat, ghost more: seq<seq<Byte>>)
    requires start <= offset <= offset + n <= buf.Length && buf[start..offset] == Flat(chunks)
    modifies buf
    ensures next == offset + n && more == chunks + [Little(num, n)]
    ensures buf[..start] == old(buf[..start]) && buf[start..next] == Flat(more)
  {
    var val := num;
    for i := 0 to n
      invariant buf[..offset] == old(buf[..offset]) && buf[offset..offset + i] == Little(num, n)[..i]
      invariant forall k: nat :: i + k < n ==> Digit(val, k) == Digit(num, i + k)
    {
      assert Digit(val, 0) == Digit(num, i + 0);
      buf[offset + i] := ByteOf(val);
      assert forall k: nat :: i + 1 + k < n ==> Digit(val / 256, k) == Digit(val, k + 1) == Digit(num, i + (k + 1));
      val := val / 256;
    }
    Placed(buf, start, offset, n, old(buf[..offset]), chunks, Little(num, n));
    return offset + n, chunks + [Little(num, n)];
  }

  lemma Placed(buf: array<Byte>, start: nat, offset: nat, n: nat, before: seq<Byte>, chunks: seq<seq<Byte>>, c: seq<Byte>)
    requires start <= offset <= offset + n <= buf.Length && |before| == offset && before[start..] == Flat(chunks)
    requires buf[..offset] == before && buf[offset..offset + n] == c
    ensures buf[..start] == before[..start] && buf[start..offset + n] == Flat(chunks + [c])
  {
    FlatMore(chunks, c);
    assert buf[start..offset + n] == buf[..offset][start..] + buf[offset..offset + n];
  }

  // _marshall_buf
  method MarshallBuf(buf: array<Byte>, ghost start: nat, offset: nat, block: seq<Byte>, ghost chunks: seq<seq<Byte>>)
    returns (next: nat, ghost more: seq<seq<Byte>>)
    requires start <= offset <= offset + |block| <= buf.Length && buf[start..offset] == Flat(chunks)
    modifies buf
    ensures next == offset + |block| && more == chunks + [block]
    ensures buf[..start] == old(buf[..start]) && buf[start..next] == Flat(more)
  {
    forall i | 0 <= i < |block| {
      buf[offset + i] := block[i];
    }
    Placed(buf, start, offset, |block|, old(buf[..offset]), chunks, block);
    return offset + |block|, chunks + [block];
  }

  // _marshall8
  method Marshall8(buf: array<Byte>, ghost start: nat, offset: nat, num: Byte, ghost chunks: seq<seq<Byte>>)
    returns (next: nat, ghost more: seq<seq<Byte>>)
    requires start <= offset < buf.Length && buf[start..offset] == Flat(chunks)
    modifies buf
    ensures next == offset + 1 && more == chunks + [[num]]
    ensures buf[..start] == old(buf[..start]) && buf[start..next] == Flat(more)
  {
    buf[offset] := num;
    Placed(buf, start, offset, 1, old(buf[..offset]), chunks, [num]);
    return offset + 1, chunks + [[num]];
  }

  // _cache_header_info, with both counts still zero
  method CacheHeaderInfo(file: CacheFile, from: nat, maxhops: nat)
    requires file.pos == |file.bytes|
    modifies file
    ensures file.bytes == old(file.bytes) + HeaderBytes(Header(0, 0, from, maxhops)) && file.pos == |file.bytes|
  {
    var buf := new Byte[BUFLEN];
    var offset: nat := 0;
    ghost var cs: seq<seq<Byte>> := [];
    offset, cs := Marshall(buf, 0, offset, MAGIC, 4, cs);
    offset, cs := Marshall(buf, 0, offset, VERSION, 4, cs);
    offset, cs := Marshall(buf, 0, offset, 0, 4, cs);
    offset, cs := Marshall(buf, 0, offset, 0, 4, cs);
    offset, cs := Marshall(buf, 0, offset, from, 8, cs);
    offset, cs := Marshall(buf, 0, offset, maxhops, 4, cs);
    assert cs == HeaderChunks(Header(0, 0, from, maxhops));
    file.Write(buf, offset);
  }

  // The flag and the key of the remote port
  method MarshallRemote(buf: array<Byte>, offset: nat, remote: Option<PortKey>, ghost chunks: seq<seq<Byte>>)
    returns (next: nat, ghost more: seq<seq<Byte>>)
    requires offset + 10 <= buf.Length && buf[..offset] == Flat(chunks)
    modifies buf
    ensures next == offset + 10 && buf[..next] == Flat(more)
    ensures more == chunks + if remote.Some? then [[1 as Byte], Little(remote.value.guid, 8), [remote.value.portnum]]
      else [[0 as Byte], Little(0, 8), [0 as Byte]]
  {
    if remote.Some? {
      next, more := Marshall8(buf, 0, offset, 1, chunks);
      next, more := Marshall(buf, 0, next, remote.value.guid, 8, more);
      next, more := Marshall8(buf, 0, next, remote.value.portnum, more);
    } else {
      next, more := Marshall8(buf, 0, offset, 0, chunks);
      next, more := Marshall(buf, 0, next, 0, 8, more);
      next, more := Marshall8(buf, 0, next, 0, more);
    }
  }

  // The fields of the port itself
  method MarshallPortData(buf: array<Byte>, d: PortData) returns (next: nat, ghost cs: seq<seq<Byte>>)
    requires 13 + SMP_DATA <= buf.Length
    modifies buf
    ensures next == 13 + SMP_DATA && buf[..next] == Flat(cs)
    ensures cs == [Little(d.guid, 8), [d.portnum], [d.extPortnum], Little(d.baseLid, 2), [d.lmc], d.info]
  {
    cs := [];
    next, cs := Marshall(buf, 0, 0, d.guid, 8, cs);
    next, cs := Marshall8(buf, 0, next, d.portnum, cs);
    next, cs := Marshall8(buf, 0, next, d.extPortnum, cs);
    next, cs := Marshall(buf, 0, next, d.baseLid, 2, cs);
    next, cs := Marshall8(buf, 0, next, d.lmc, cs);
    next, cs := MarshallBuf(buf, 0, next, d.info, cs);
  }

  // _cache_port
  method CachePort(file: CacheFile, r: PortRec)
    requires file.pos == |file.bytes|
    modifies file
    ensures file.bytes == old(file.bytes) + PortBytes(r) && file.pos == |file.bytes|
  {
    var buf := new Byte[BUFLEN];
    ghost var cs;
    var offset;
    offset, cs := MarshallPortData(buf, r.data);
    offset, cs := Marshall(buf, 0, offset, r.owner, 8, cs);
    offset, cs := MarshallRemote(buf, offset, r.remote, cs);
    assert cs == PortChunks(r);
    file.Write(buf, offset);
  }

  // The key of a stored port
  method MarshallKey(buf: array<Byte>, offset: nat, key: PortKey) returns (next: nat)
    requires offset + KEY_LEN <= buf.Length
    modifies buf
    ensures next == offset + KEY_LEN
    ensures buf[..offset] == old(buf[..offset]) && buf[offset..next] == KeyBytes(key)
  {
    ghost var cs: seq<seq<Byte>> := [];
    next, cs := Marshall(buf, offset, offset, key.guid, 8, cs);
    next, cs := Marshall8(buf, offset, next, key.portnum, cs);
    assert cs == KeyChunks(key);
  }

  // The first four chunks of a node
  method MarshallSma(buf: array<Byte>, d: NodeData) returns (offset: nat, ghost cs: seq<seq<Byte>>)
    requires NODE_LEN <= buf.Length
    modifies buf
    ensures offset == 68 && buf[..offset] == Flat(cs)
    ensures cs == [Little(d.smalid, 2), [d.smalmc], [d.smaenhsp0], d.switchinfo]
  {
    offset, cs := 0, [];
    offset, cs := Marshall(buf, 0, offset, d.smalid, 2, cs);
    offset, cs := Marshall8(buf, 0, offset, d.smalmc, cs);
    offset, cs := Marshall8(buf, 0, offset, d.smaenhsp0, cs);
    offset, cs := MarshallBuf(buf, 0, offset, d.switchinfo, cs);
  }

  // The fixed part of a node but for its last byte
  method MarshallNode(buf: array<Byte>, d: NodeData) returns (offset: nat, ghost cs: seq<seq<Byte>>)
    requires NODE_LEN <= buf.Length
    modifies buf
    ensures offset == NODE_LEN - 1 && buf[..offset] == Flat(cs)
    ensures cs == NodeChunks(d, 0)[..9]
  {
    offset, cs := MarshallSma(buf, d);
    offset, cs := Marshall(buf, 0, offset, d.guid, 8, cs);
    offset, cs := Marshall8(buf, 0, offset, d.kind, cs);
    offset, cs := Marshall8(buf, 0, offset, d.numports, cs);
    offset, cs := MarshallBuf(buf, 0, offset, d.info, cs);
    offset, cs := MarshallBuf(buf, 0, offset, d.nodedesc, cs);
  }

  lemma {:induction false} StoredKeysLength(f: StoredFabric, i: nat, n: nat)
    ensures |StoredKeys(f, i, n)| <= n
  {
    if n > 0 { StoredKeysLength(f, i, n - 1); }
  }

  lemma KeysMore(keys: seq<PortKey>, key: PortKey)
    ensures PrintAll(keys + [key], KeyBytes) == PrintAll(keys, KeyBytes) + KeyBytes(key)
  {
    assert (keys + [key])[..|keys|] == keys;
  }

  // The keys lie in the buffer between first and offset, and were counted in one byte.
  ghost predicate KeysIn(s: seq<Byte>, first: nat, offset: nat, stored: Byte, keys: seq<PortKey>) {
    && offset == first + KEY_LEN * |keys| <= |s|
    && s[first..offset] == PrintAll(keys, KeyBytes) && stored == ByteOf(|keys|)
  }

  lemma OneKeyMore(s: seq<Byte>, s': seq<Byte>, first: nat, offset: nat, stored: Byte, keys: seq<PortKey>, key: PortKey)
    requires KeysIn(s, first, offset, stored, keys) && |s'| == |s| && offset + KEY_LEN <= |s|
    requires s'[..offset] == s[..offset] && s'[offset..offset + KEY_LEN] == KeyBytes(key)
    ensures KeysIn(s', first, offset + KEY_LEN, (stored + 1) % 256, keys + [key])
    ensures s'[..first] == s[..first]
  {
    KeysMore(keys, key);
    assert s'[first..offset + KEY_LEN] == s'[..offset][first..] + s'[offset..offset + KEY_LEN];
    assert s'[..first] == s'[..offset][..first];
  }

  // The loop of _cache_node over the ports array; stored_count is one byte wide.
  method MarshallPorts(buf: array<Byte>, f: StoredFabric, i: nat, first: nat) returns (offset: nat, stored: Byte)
    requires i < |f.nodes| && first + KEY_LEN * 256 <= buf.Length
    modifies buf
    ensures buf[..first] == old(buf[..first])
    ensures KeysIn(buf[..], first, offset, stored, StoredKeys(f, i, f.nodes[i].numports as nat + 1))
  {
    offset, stored := first, 0;
    for num := 0 to f.nodes[i].numports as nat + 1
      invariant buf[..first] == old(buf[..first])
      invariant |StoredKeys(f, i, num)| <= num && KeysIn(buf[..], first, offset, stored, StoredKeys(f, i, num))
    {
      if At(i, num) in f.ports {
        var key := KeyOf(f.ports[At(i, num)].data);
        ghost var before := buf[..];
        var next := MarshallKey(buf, offset, key);
        OneKeyMore(before, buf[..], first, offset, stored, StoredKeys(f, i, num), key);
        offset := next;
        stored := (stored + 1) % 256;
      } else {
        assert StoredKeys(f, i, num + 1) == StoredKeys(f, i, num);
      }
    }
  }

  // _cache_node
  method CacheNode(file: CacheFile, f: StoredFabric, i: nat)
    requires i < |f.nodes| && file.pos == |file.bytes|
    modifies file
    ensures file.bytes == old(file.bytes) + NodeBytes(NodeRecOf(f, i)) && file.pos == |file.bytes|
  {
    var buf := new Byte[BUFLEN];
    var offset: nat;
    ghost var cs;
    offset, cs := MarshallNode(buf, f.nodes[i]);
    var storedOffset := offset;
    ghost var head := buf[..offset];
    var stored;
    offset, stored := MarshallPorts(buf, f, i, storedOffset + 1);
    assert buf[..storedOffset] == head;
    ghost var tail := buf[storedOffset + 1..offset];
    buf[storedOffset] := stored;
    FlatMore(cs, [stored]);
    assert cs + [[stored]] == NodeChunks(f.nodes[i], stored);
    assert buf[..offset] == head + [stored] + tail;
    file.Write(buf, offset);
  }

  // A header with its counts filled in later
  lemma CountsFilled(n: nat, m: nat, from: nat, maxhops: nat, body: seq<Byte>)
    ensures COUNT_OFFSET <= |HeaderBytes(Header(0, 0, from, maxhops)) + body|
    ensures Overwritten(HeaderBytes(Header(0, 0, from, maxhops)) + body, COUNT_OFFSET, Little(n, 4) + Little(m, 4))
      == HeaderBytes(Header(n, m, from, maxhops)) + body
  {
    HeaderSplits(Header(0, 0, from, maxhops));
    HeaderSplits(Header(n, m, from, maxhops));
  }

  lemma HeaderSplits(h: Header)
    ensures HeaderBytes(h) == (Little(MAGIC, 4) + Little(VERSION, 4)) + (Little(h.nodeCount, 4) + Little(h.portCount, 4))
      + (Little(h.from, 8) + Little(h.maxhops, 4))
  {
    var cs := HeaderChunks(h);
    assert cs == [cs[0], cs[1], cs[2], cs[3], cs[4], cs[5]];
    FlatTwo(cs[4], cs[5]);
    assert cs[4..] == [cs[4], cs[5]];
    assert Flat(cs) == cs[0] + Flat(cs[1..]) && Flat(cs[1..]) == cs[1] + Flat(cs[2..]);
    assert Flat(cs[2..]) == cs[2] + Flat(cs[3..]) && Flat(cs[3..]) == cs[3] + Flat(cs[4..]);
  }

  lemma FlatTwo(a: seq<Byte>, b: seq<Byte>)
    ensures Flat([a, b]) == a + b
  {
    assert [a, b][1..] == [b] && [b][1..] == [];
    assert Flat([b]) == b + Flat([]);
  }

  const COUNT_OFFSET := 8

  // _cache_header_counts
  method CacheHeaderCounts(file: CacheFile, nodeCount: nat, portCount: nat)
    requires COUNT_OFFSET <= |file.bytes|
    modifies file
    ensures file.bytes == Overwritten(old(file.bytes), COUNT_OFFSET, Little(nodeCount, 4) + Little(portCount, 4))
  {
    var buf := new Byte[BUFLEN];
    var offset: nat := 0;
    ghost var cs: seq<seq<Byte>> := [];
    offset, cs := Marshall(buf, 0, offset, nodeCount, 4, cs);
    offset, cs := Marshall(buf, 0, offset, portCount, 4, cs);
    FlatTwo(Little(nodeCount, 4), Little(portCount, 4));
    assert cs == [Little(nodeCount, 4), Little(portCount, 4)];
    file.Seek(COUNT_OFFSET);
    file.Write(buf, offset);
  }

  // The chains of the port table one after another
  function Concat(chains: seq<seq<PortRef>>): seq<PortRef> {
    if chains == [] then [] else Concat(chains[..|chains| - 1]) + chains[|chains| - 1]
  }

  lemma {:induction false} ConcatPrefix(chains: seq<seq<PortRef>>, h: nat)
    requires h < |chains|
    ensures Concat(chains[..h + 1]) == Concat(chains[..h]) + chains[h]
    ensures |Concat(chains[..h + 1])| <= |Concat(chains)| && Concat(chains)[..|Concat(chains[..h + 1])|] == Concat(chains[..h + 1])
    decreases |chains|
  {
    assert chains[..h + 1][..h] == chains[..h];
    if h + 1 == |chains| {
      assert chains[..h + 1] == chains;
    } else {
      var front := chains[..|chains| - 1];
      ConcatPrefix(front, h);
      assert front[..h + 1] == chains[..h + 1];
    }
  }

  lemma PrintMore<R>(rs: seq<R>, n: nat, print1: R -> seq<Byte>)
    requires n < |rs|
    ensures PrintAll(rs[..n + 1], print1) == PrintAll(rs[..n], print1) + print1(rs[n])
  {
    assert rs[..n + 1][..n] == rs[..n];
  }

  // The records of the first n nodes, and of the first n ports of the table
  ghost function NodesPrefix(f: StoredFabric, n: nat): seq<Byte>
    requires n <= |f.nodes|
  {
    PrintAll(NodeRecsOf(f)[..n], NodeBytes)
  }

  ghost function PortsPrefix(f: StoredFabric, n: nat): seq<Byte>
    requires FabricOk(f) && n <= |f.order|
  {
    PrintAll(PortRecsOf(f)[..n], PortBytes)
  }

  lemma NextNodeBytes(f: StoredFabric, n: nat)
    requires n < |f.nodes|
    ensures NodesPrefix(f, n + 1) == NodesPrefix(f, n) + NodeBytes(NodeRecOf(f, n))
  {
    PrintMore(NodeRecsOf(f), n, NodeBytes);
  }

  lemma NextPortBytes(f: StoredFabric, n: nat)
    requires FabricOk(f) && n < |f.order|
    ensures PortsPrefix(f, n + 1) == PortsPrefix(f, n) + PortBytes(PortRecOf(f, f.order[n]))
  {
    PrintMore(PortRecsOf(f), n, PortBytes);
  }

  lemma WholeBody(f: StoredFabric)
    requires FabricOk(f)
    ensures NodesPrefix(f, |f.nodes|) + PortsPrefix(f, |f.order|) == BodyBytes(ContentsOf(f))
  {
    assert NodeRecsOf(f)[..|f.nodes|] == NodeRecsOf(f) && PortRecsOf(f)[..|f.order|] == PortRecsOf(f);
  }

  lemma EmptyPrefixes(f: StoredFabric)
    ensures NodesPrefix(f, 0) == [] && (FabricOk(f) ==> PortsPrefix(f, 0) == [])
  {
  }

  // The loop of ibnd_cache_fabric over the nodes
  method CacheNodes(file: CacheFile, f: StoredFabric, ghost before: seq<Byte>) returns (count: nat)
    requires file.pos == |file.bytes| && file.bytes == before + NodesPrefix(f, 0)
    modifies file
    ensures file.pos == |file.bytes| && count == |f.nodes| && file.bytes == before + NodesPrefix(f, count)
  {
    count := 0;
    while count < |f.nodes|
      invariant count <= |f.nodes| && file.pos == |file.bytes|
      invariant file.bytes == before + NodesPrefix(f, count)
    {
      NextNodeBytes(f, count);
      CacheNode(file, f, count);
      count := count + 1;
    }
  }

  method CacheNext(file: CacheFile, f: StoredFabric, p: PortRef, ghost n: nat, ghost before: seq<Byte>)
    requires FabricOk(f) && n < |f.order| && f.order[n] == p
    requires file.pos == |file.bytes| && file.bytes == before + PortsPrefix(f, n)
    modifies file
    ensures file.pos == |file.bytes| && file.bytes == before + PortsPrefix(f, n + 1)
  {
    var r := PortRecOf(f, p);
    NextPortBytes(f, n);
    assert PortsPrefix(f, n + 1) == PortsPrefix(f, n) + PortBytes(r);
    CachePort(file, r);
  }

  // One chain of the port table
  method CacheChain(file: CacheFile, f: StoredFabric, chain: seq<PortRef>, done: nat, ghost before: seq<Byte>) returns (count: nat)
    requires FabricOk(f) && done + |chain| <= |f.order| && f.order[done..done + |chain|] == chain
    requires file.pos == |file.bytes| && file.bytes == before + PortsPrefix(f, done)
    modifies file
    ensures file.pos == |file.bytes| && count == done + |chain| && file.bytes == before + PortsPrefix(f, count)
  {
    count := done;
    while count < done + |chain|
      invariant done <= count <= done + |chain| && file.pos == |file.bytes|
      invariant file.bytes == before + PortsPrefix(f, count)
    {
      var p := chain[count - done];
      assert f.order[done..done + |chain|][count - done] == p;
      CacheNext(file, f, p, count, before);
      count := count + 1;
    }
  }

  lemma ChainInOrder(order: seq<PortRef>, chains: seq<seq<PortRef>>, h: nat)
    requires order == Concat(chains) && h < |chains|
    ensures var done := |Concat(chains[..h])|;
      && done + |chains[h]| == |Concat(chains[..h + 1])| <= |order|
      && order[done..done + |chains[h]|] == chains[h]
  {
    ConcatPrefix(chains, h);
    var done := |Concat(chains[..h])|;
    assert order[..done + |chains[h]|] == Concat(chains[..h]) + chains[h];
  }

  // The loops of ibnd_cache_fabric over the port table
  method CachePorts(file: CacheFile, f: StoredFabric, portstbl: seq<seq<PortRef>>, ghost before: seq<Byte>) returns (count: nat)
    requires FabricOk(f) && f.order == Concat(portstbl)
    requires file.pos == |file.bytes| && file.bytes == before + PortsPrefix(f, 0)
    modifies file
    ensures file.pos == |file.bytes| && count == |f.order| && file.bytes == before + PortsPrefix(f, count)
  {
    count := 0;
    for h := 0 to |portstbl|
      invariant file.pos == |file.bytes| && count == |Concat(portstbl[..h])| <= |f.order|
      invariant file.bytes == before + PortsPrefix(f, count)
    {
      ChainInOrder(f.order, portstbl, h);
      count := CacheChain(file, f, portstbl[h], count, before);
    }
    assert portstbl[..|portstbl|] == portstbl;
  }

  method CacheBody(file: CacheFile, f: StoredFabric, portstbl: seq<seq<PortRef>>) returns (nodeCount: nat, portCount: nat)
    requires FabricOk(f) && f.order == Concat(portstbl) && file.pos == |file.bytes|
    modifies file
    ensures nodeCount == |f.nodes| && portCount == |f.order|
    ensures file.bytes == old(file.bytes) + BodyBytes(ContentsOf(f))
  {
    EmptyPrefixes(f);
    ghost var before := file.bytes;
    nodeCount := CacheNodes(file, f, before);
    ghost var middle := file.bytes;
    portCount := CachePorts(file, f, portstbl, middle);
    WholeBody(f);
    JoinBytes(before, NodesPrefix(f, nodeCount), PortsPrefix(f, portCount));
  }

  lemma JoinBytes(a: seq<Byte>, b: seq<Byte>, c: seq<Byte>)
    ensures a + b + c == a + (b + c)
  {
  }

  // ibnd_cache_fabric on a new file: the file holds the records of the fabric.
  method CacheFabric(file: CacheFile, f: StoredFabric, portstbl: seq<seq<PortRef>>)
    requires FabricOk(f) && f.order == Concat(portstbl) && file.bytes == [] && file.pos == 0
    modifies file
    ensures file.bytes == FileBytes(ContentsOf(f))
  {
    var from := f.nodes[f.from].guid;
    CacheHeaderInfo(file, from, f.maxhops);
    ghost var header := file.bytes;
    var nodeCount, portCount := CacheBody(file, f, portstbl);
    CountsFilled(nodeCount, portCount, from, f.maxhops, BodyBytes(ContentsOf(f)));
    CacheHeaderCounts(file, nodeCount, portCount);
  }
}
