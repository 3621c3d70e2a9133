// A static fabric is scanned, the result is cached in a file, and the file is loaded: what
// the loaded fabric is.
module LoadedScan {
  import opened Wrappers
  import opened Fabric
  import opened Wiring
  import opened Discovery
  import opened TrueLinks
  import opened Completeness
  import opened PortRecords
  import opened PortIndexes
  import opened Tables
  import opened ScanSizes
  import opened ScanToCache
  import opened LoadedLids
  import opened CacheFormat
  import opened BitFields
  import Binary
  import Discover
  import Paths
  import Scanner
  import SmpEngine
  import Termination
  import G = CacheGraph
  import L = CacheLoader
  import W = CacheWriter

  // The parts of replies that a scan keeps without reading them
  datatype NodePayload = NodePayload(smaenhsp0: Byte, switchinfo: Block, info: Block, nodedesc: Block)

  datatype PortPayload = PortPayload(extPortnum: Byte, info: Block)

  // ---------------------------------------------------------------------------
  // The fabric of a scan as it is cached

  function KindCode(kind: Kind): Byte {
    match kind
    case CA => 1
    case Switch => 2
    case Router => 3
    case Other => 0
  }

  function NodeDataOf(n: Node, raw: NodePayload): NodeData
    requires NarrowNode(n)
  {
    NodeData(n.smalid, n.smalmc, raw.smaenhsp0, raw.switchinfo, n.info.guid, KindCode(n.info.kind), n.info.numports, raw.info, raw.nodedesc)
  }

  function PortDataOf(port: Port, raw: PortPayload): PortData
    requires NarrowPort(port) && port.portnum < 256
  {
    PortData(port.guid, port.portnum, raw.extPortnum, port.baseLid, port.lmc, raw.info)
  }

  // The graph of a scan and its port table can be stored.
  ghost predicate Storable(g: Graph, t: seq<seq<PortRef>>) {
    && GraphOk(g) && Narrow(g) && g.from.Some? && Below(|g.nodes|, W.Concat(t))
  }

  function StoredAt(g: Graph, q: PortRef, raw: PortPayload): G.StoredPort
    requires GraphOk(g) && Narrow(g) && q in g.ports
  {
    var r := g.ports[q].remote;
    assert r.Some? ==> r.value in g.ports;
    G.StoredPort(PortDataOf(g.ports[q], raw), if r.Some? then Some(Moved(|g.nodes|, r.value)) else None)
  }

  function StoredNodes(g: Graph, raw: nat -> NodePayload): (r: seq<NodeData>)
    requires Narrow(g)
    ensures |r| == |g.nodes| && forall i :: 0 <= i < |r| ==> r[i] == NodeDataOf(g.nodes[|g.nodes| - 1 - i], raw(|g.nodes| - 1 - i))
  {
    seq(|g.nodes|, i requires 0 <= i < |g.nodes| => NodeDataOf(g.nodes[|g.nodes| - 1 - i], raw(|g.nodes| - 1 - i)))
  }

  lemma MovedTwice(n: nat, p: PortRef)
    requires p.node < n
    ensures Moved(n, p).node < n && Moved(n, Moved(n, p)) == p
  {
  }

  // The ports of the graph under their new names
  function MovedPorts(g: Graph): set<PortRef>
    requires SlotsOk(g)
  {
    set q | q in g.ports :: Moved(|g.nodes|, q)
  }

  lemma InMovedPorts(g: Graph, p: PortRef)
    requires SlotsOk(g)
    ensures p in MovedPorts(g) <==> p.node < |g.nodes| && Moved(|g.nodes|, p) in g.ports
  {
    if p.node < |g.nodes| {
      MovedTwice(|g.nodes|, p);
    }
  }

  lemma AllMovedPorts(g: Graph)
    requires SlotsOk(g)
    ensures forall p: PortRef :: p in MovedPorts(g) <==> p.node < |g.nodes| && Moved(|g.nodes|, p) in g.ports
  {
    forall p: PortRef
      ensures p in MovedPorts(g) <==> p.node < |g.nodes| && Moved(|g.nodes|, p) in g.ports
    {
      InMovedPorts(g, p);
    }
  }

  function StoredPorts(g: Graph, raw: PortRef -> PortPayload): map<PortRef, G.StoredPort>
    requires GraphOk(g) && Narrow(g)
  {
    AllMovedPorts(g);
    map p | p in MovedPorts(g) :: StoredAt(g, Moved(|g.nodes|, p), raw(Moved(|g.nodes|, p)))
  }

  function FabricOf(g: Graph, t: seq<seq<PortRef>>, hops: nat, nodeRaw: nat -> NodePayload, portRaw: PortRef -> PortPayload): G.StoredFabric
    requires Storable(g, t)
  {
    var n := |g.nodes|;
    G.StoredFabric(StoredNodes(g, nodeRaw), StoredPorts(g, portRaw), MovedAll(n, W.Concat(t)), n - 1 - g.from.value.node, hops)
  }

  lemma StoresPorts(g: Graph, t: seq<seq<PortRef>>, hops: nat, nodeRaw: nat -> NodePayload, portRaw: PortRef -> PortPayload)
    requires Storable(g, t)
    ensures ScanToCache.SamePorts(FabricOf(g, t, hops, nodeRaw, portRaw), g)
  {
    var f, n := FabricOf(g, t, hops, nodeRaw, portRaw), |g.nodes|;
    AllMovedPorts(g);
    forall p: PortRef | p in f.ports
      ensures g.ports[Moved(n, p)].remote.Some? ==> g.ports[Moved(n, p)].remote.value.node < n
    {
      assert Moved(n, p) in g.ports;
    }
  }

  lemma StoresFabric(g: Graph, t: seq<seq<PortRef>>, hops: nat, nodeRaw: nat -> NodePayload, portRaw: PortRef -> PortPayload)
    requires Storable(g, t)
    ensures Stores(FabricOf(g, t, hops, nodeRaw, portRaw), g, t)
  {
    StoresPorts(g, t, hops, nodeRaw, portRaw);
  }

  // The port table under the new names
  function MovedTable(n: nat, t: seq<seq<PortRef>>): (r: seq<seq<PortRef>>)
    requires forall h :: 0 <= h < |t| ==> Below(n, t[h])
    ensures |r| == |t| && forall h :: 0 <= h < |t| ==> r[h] == MovedAll(n, t[h])
  {
    seq(|t|, h requires 0 <= h < |t| => MovedAll(n, t[h]))
  }

  lemma MovedFront(n: nat, t: seq<seq<PortRef>>)
    requires t != [] && forall h :: 0 <= h < |t| ==> Below(n, t[h])
    ensures MovedTable(n, t)[..|t| - 1] == MovedTable(n, t[..|t| - 1])
  {
  }

  lemma MovedJoin(n: nat, a: seq<PortRef>, b: seq<PortRef>)
    requires Below(n, a) && Below(n, b)
    ensures Below(n, a + b) && MovedAll(n, a + b) == MovedAll(n, a) + MovedAll(n, b)
  {
  }

  lemma {:induction false} MovedConcat(n: nat, t: seq<seq<PortRef>>)
    requires forall h :: 0 <= h < |t| ==> Below(n, t[h])
    ensures Below(n, W.Concat(t)) && W.Concat(MovedTable(n, t)) == MovedAll(n, W.Concat(t))
    decreases |t|
  {
    if t != [] {
      var front := t[..|t| - 1];
      MovedConcat(n, front);
      MovedFront(n, t);
      MovedJoin(n, W.Concat(front), t[|t| - 1]);
    }
  }

  // ---------------------------------------------------------------------------
  // It fits the file.

  lemma {:induction false} KeyCount(f: G.StoredFabric, i: nat, n: nat)
    ensures |G.StoredKeys(f, i, n)| <= n
    decreases n
  {
    if n > 0 { KeyCount(f, i, n - 1); }
  }

  lemma {:induction false} DistinctCount(s: seq<PortRef>, all: set<PortRef>)
    requires (forall j, k :: 0 <= j < k < |s| ==> s[j] != s[k]) && forall k :: 0 <= k < |s| ==> s[k] in all
    ensures |s| <= |all|
    decreases |s|
  {
    if s != [] {
      var last := |s| - 1;
      assert forall k :: 0 <= k < last ==> s[..last][k] in all - {s[last]};
      DistinctCount(s[..last], all - {s[last]});
    }
  }

  lemma TableCount(g: Graph, t: seq<seq<PortRef>>)
    requires PortsFiled(t, g.ports)
    ensures |W.Concat(t)| <= |g.ports|
  {
    FiledIsDisjoint(t, g.ports);
    ConcatDistinct(t);
    forall k | 0 <= k < |W.Concat(t)|
      ensures W.Concat(t)[k] in g.ports.Keys
    {
      InConcat(t, W.Concat(t)[k]);
    }
    DistinctCount(W.Concat(t), g.ports.Keys);
    assert |g.ports.Keys| == |g.ports|;
  }

  lemma NumbersFit(g: Graph, t: seq<seq<PortRef>>, hops: nat, nodeRaw: nat -> NodePayload, portRaw: PortRef -> PortPayload)
    requires Storable(g, t)
    ensures var f := FabricOf(g, t, hops, nodeRaw, portRaw);
      && (forall i :: 0 <= i < |f.nodes| ==> NodeDataFits(f.nodes[i]) && f.nodes[i].numports <= 254)
      && (forall p: PortRef :: p in f.ports ==>
            f.ports[p].data.guid < Limit(8) && f.ports[p].data.baseLid < Limit(2) && f.ports[p].data.lmc <= 7)
  {
    var f, n := FabricOf(g, t, hops, nodeRaw, portRaw), |g.nodes|;
    forall i | 0 <= i < |f.nodes|
      ensures NodeDataFits(f.nodes[i]) && f.nodes[i].numports <= 254
    {
      assert NarrowNode(g.nodes[n - 1 - i]);
    }
    AllMovedPorts(g);
    forall p: PortRef | p in f.ports
      ensures f.ports[p].data.guid < Limit(8) && f.ports[p].data.baseLid < Limit(2) && f.ports[p].data.lmc <= 7
    {
      assert NarrowPort(g.ports[Moved(n, p)]);
    }
  }

  lemma KeysFitCount(f: G.StoredFabric)
    requires forall i :: 0 <= i < |f.nodes| ==> f.nodes[i].numports <= 254
    ensures G.CountsFit(f)
  {
    forall i | 0 <= i < |f.nodes|
      ensures |G.StoredKeys(f, i, f.nodes[i].numports as nat + 1)| < 256
    {
      KeyCount(f, i, f.nodes[i].numports as nat + 1);
    }
  }

  lemma FabricFitsFile(g: Graph, t: seq<seq<PortRef>>, hops: nat, nodeRaw: nat -> NodePayload, portRaw: PortRef -> PortPayload, n: nat)
    requires Storable(g, t) && PortsFiled(t, g.ports) && Sized(g, n) && n < Limit(4) && hops < Limit(4)
    ensures var f := FabricOf(g, t, hops, nodeRaw, portRaw); G.FabricFits(f) && G.CountsFit(f) && G.LmcsFit(f)
  {
    TableCount(g, t);
    NumbersFit(g, t, hops, nodeRaw, portRaw);
    KeysFitCount(FabricOf(g, t, hops, nodeRaw, portRaw));
  }

  // ---------------------------------------------------------------------------
  // The loaded fabric

  // The place of the port with record k
  ghost function PlaceOf(l: G.Loaded, k: nat): Option<Place> {
    if k < |l.ports| && l.ports[k].node.Some? && l.ports[k].node.value < |l.nodes|
    then Some(Place(l.nodes[l.ports[k].node.value].guid, l.ports[k].data.portnum)) else None
  }

  // The place of the port in a slot, and that of the port it is linked to
  ghost function PlaceAt(l: G.Loaded, p: PortRef): Option<Place> {
    if p in l.slots then PlaceOf(l, l.slots[p]) else None
  }

  ghost function FarPlace(l: G.Loaded, p: PortRef): Option<Place> {
    if p in l.slots && l.slots[p] < |l.ports| && l.ports[l.slots[p]].remote.Some?
    then PlaceOf(l, l.ports[l.slots[p]].remote.value) else None
  }

  // A slot of node i holds a port that is linked to the port at the other end of its cable.
  ghost predicate LoadedLinked(sc: Scan, l: G.Loaded, i: nat, num: nat)
    requires i < |l.nodes|
  {
    var at := Place(l.nodes[i].guid, num);
    PlaceAt(l, G.At(i, num)) == Some(at) && at in sc.w.cable && FarPlace(l, G.At(i, num)) == Some(sc.w.cable[at])
  }

  // The nodes are those that can be reached, and every port that leads on is linked.
  ghost predicate LoadedComplete(sc: Scan, l: G.Loaded)
    requires ScanOk(sc)
  {
    && (forall guid :: (exists i :: 0 <= i < |l.nodes| && l.nodes[i].guid == guid) <==> Reachable(sc.w, Start(sc), guid))
    && (forall i: nat, num: nat :: i < |l.nodes| && Leads(sc.w, Start(sc), Place(l.nodes[i].guid, num)) ==> LoadedLinked(sc, l, i, num))
  }

  // What a port of the scan is in the fabric that is stored
  lemma StoredPortIs(f: G.StoredFabric, g: Graph, t: seq<seq<PortRef>>, q: PortRef)
    requires GraphOk(g) && Stores(f, g, t) && q in g.ports && q.node < |g.nodes|
    ensures var p := Moved(|g.nodes|, q);
      && p in f.ports && p.node < |f.nodes| && f.nodes[p.node].guid == At(g, q).guid && f.ports[p].data.portnum == q.num
    ensures var n, remote := |g.nodes|, g.ports[q].remote;
      match remote
      case None => f.ports[Moved(n, q)].remote == None
      case Some(r) => r.node < n && f.ports[Moved(n, q)].remote == Some(Moved(n, r)) && Moved(n, r) in f.ports
  {
    MovedTwice(|g.nodes|, q);
    assert Moved(|g.nodes|, q) in f.ports;
    if g.ports[q].remote.Some? {
      MovedTwice(|g.nodes|, g.ports[q].remote.value);
    }
  }

  // The slot of a port holds its record.
  lemma RecordIs(f: G.StoredFabric, p: PortRef)
    requires G.OrderOk(f) && G.AllInTable(f) && p in f.ports && p.node < |f.nodes|
    ensures var l := G.SameGraph(f);
      && p in l.slots && l.slots[p] == G.IndexOf(f.order, p) && l.slots[p] < |l.ports| && l.ports[l.slots[p]] == G.SamePort(f, p)
      && PlaceAt(l, p) == Some(Place(f.nodes[p.node].guid, f.ports[p].data.portnum))
  {
    assert p in f.order;
  }

  lemma FarIs(f: G.StoredFabric, p: PortRef)
    requires G.OrderOk(f) && G.AllInTable(f) && p in f.ports && p.node < |f.nodes|
    requires var r := f.ports[p].remote; r.Some? ==> r.value in f.ports && r.value.node < |f.nodes|
    ensures var l, r := G.SameGraph(f), f.ports[p].remote;
      FarPlace(l, p) == if r.Some? then PlaceAt(l, r.value) else None
  {
    RecordIs(f, p);
    if f.ports[p].remote.Some? {
      RecordIs(f, f.ports[p].remote.value);
    }
  }

  lemma LoadedPlace(f: G.StoredFabric, g: Graph, t: seq<seq<PortRef>>, q: PortRef)
    requires GraphOk(g) && Stores(f, g, t) && G.OrderOk(f) && G.AllInTable(f) && q in g.ports && q.node < |g.nodes|
    ensures PlaceAt(G.SameGraph(f), Moved(|g.nodes|, q)) == Some(At(g, q))
  {
    StoredPortIs(f, g, t, q);
    RecordIs(f, Moved(|g.nodes|, q));
  }

  // Where the link of a port of the scan leads
  ghost function FarFound(g: Graph, q: PortRef): Option<Place> {
    var r := Remote(g, q);
    if r.Some? && r.value.node < |g.nodes| then Some(At(g, r.value)) else None
  }

  // The loaded port is linked as the port of the scan was.
  lemma LoadedLink(f: G.StoredFabric, g: Graph, t: seq<seq<PortRef>>, q: PortRef)
    requires GraphOk(g) && Stores(f, g, t) && G.OrderOk(f) && G.AllInTable(f) && q in g.ports && q.node < |g.nodes|
    ensures PlaceAt(G.SameGraph(f), Moved(|g.nodes|, q)) == Some(At(g, q))
    ensures FarPlace(G.SameGraph(f), Moved(|g.nodes|, q)) == FarFound(g, q)
  {
    LoadedPlace(f, g, t, q);
    StoredPortIs(f, g, t, q);
    FarIs(f, Moved(|g.nodes|, q));
    if g.ports[q].remote.Some? {
      assert g.ports[q].remote.value in g.ports;
      LoadedPlace(f, g, t, g.ports[q].remote.value);
    }
  }

  lemma LoadedPeer(sc: Scan, f: G.StoredFabric, g: Graph, t: seq<seq<PortRef>>, i: nat, num: nat)
    requires ScanOk(sc) && GraphOk(g) && Stores(f, g, t) && G.OrderOk(f) && G.AllInTable(f) && i < |g.nodes|
    requires LinkedToPeer(sc, g, PortRef(|g.nodes| - 1 - i, num))
    ensures LoadedLinked(sc, G.SameGraph(f), i, num)
  {
    LoadedLink(f, g, t, PortRef(|g.nodes| - 1 - i, num));
  }

  // The nodes of the scan can all be reached, and so can those that are loaded.
  lemma LoadedNodes(sc: Scan, f: G.StoredFabric, g: Graph)
    requires ScanOk(sc) && ScanToCache.SameNodes(f, g) && forall guid :: Found(g, guid) <==> Reachable(sc.w, Start(sc), guid)
    ensures forall guid :: (exists i :: 0 <= i < |f.nodes| && f.nodes[i].guid == guid) <==> Reachable(sc.w, Start(sc), guid)
  {
    forall guid
      ensures (exists i :: 0 <= i < |f.nodes| && f.nodes[i].guid == guid) <==> Reachable(sc.w, Start(sc), guid)
    {
      SameGuids(f, g, guid);
    }
  }

  // The scan is complete, and so is what is loaded.
  lemma LoadedIsComplete(sc: Scan, f: G.StoredFabric, g: Graph, t: seq<seq<PortRef>>)
    requires ScanOk(sc) && GraphOk(g) && Stores(f, g, t) && G.OrderOk(f) && G.AllInTable(f)
    requires forall guid :: Found(g, guid) <==> Reachable(sc.w, Start(sc), guid)
    requires forall p: PortRef :: p.node < |g.nodes| && Leads(sc.w, Start(sc), At(g, p)) ==> LinkedToPeer(sc, g, p)
    ensures LoadedComplete(sc, G.SameGraph(f))
  {
    LoadedNodes(sc, f, g);
    forall i: nat, num: nat | i < |f.nodes| && Leads(sc.w, Start(sc), Place(f.nodes[i].guid, num))
      ensures LoadedLinked(sc, G.SameGraph(f), i, num)
    {
      assert At(g, PortRef(|g.nodes| - 1 - i, num)) == Place(f.nodes[i].guid, num);
      LoadedPeer(sc, f, g, t, i, num);
    }
  }

  lemma SameGuids(f: G.StoredFabric, g: Graph, guid: nat)
    requires ScanToCache.SameNodes(f, g)
    ensures (exists i :: 0 <= i < |f.nodes| && f.nodes[i].guid == guid) <==> Found(g, guid)
  {
    var n := |g.nodes|;
    if i :| 0 <= i < n && f.nodes[i].guid == guid {
      assert g.nodes[n - 1 - i].info.guid == guid;
    }
    if i :| 0 <= i < n && g.nodes[i].info.guid == guid {
      assert f.nodes[n - 1 - i].guid == guid;
    }
  }

  // The port table holds all records of ports, each in the chain of its GUID and once.
  ghost predicate PortsFound(l: G.Loaded, t: seq<seq<nat>>) {
    && |t| == HTSZ
    && (forall h, a :: 0 <= h < HTSZ && 0 <= a < |t[h]| ==> t[h][a] < |l.ports| && Bucket(l.ports[t[h][a]].data.guid) == h)
    && (forall k :: 0 <= k < |l.ports| ==> k in t[Bucket(l.ports[k].data.guid)])
    && (forall h, a, b :: 0 <= h < HTSZ && 0 <= a < b < |t[h]| ==> t[h][a] != t[h][b])
  }

  lemma FoundPorts(f: G.StoredFabric, t: seq<seq<nat>>)
    requires G.OrderOk(f) && G.AllInTable(f) && G.PortsHashed(f, t)
    ensures PortsFound(G.SameGraph(f), t)
  {
    var l := G.SameGraph(f);
    assert forall k :: 0 <= k < |f.order| ==> l.ports[k] == G.SamePort(f, f.order[k]);
  }

  // ---------------------------------------------------------------------------
  // The LID map

  // Only ports with one GUID have the LID.
  ghost predicate OneGuid(g: Graph, lid: nat) {
    forall p, q :: HasLid(g, p, lid) && HasLid(g, q, lid) ==> g.ports[p].guid == g.ports[q].guid
  }

  // The LID leads to the same port in both maps.
  ghost predicate SameOwner(g: Graph, lids: map<nat, PortRef>, l: G.Loaded, loaded: map<nat, nat>, lid: nat) {
    && (lid in loaded <==> lid in lids)
    && (lid in lids ==> lids[lid].node < |g.nodes| && PlaceOf(l, loaded[lid]) == Some(At(g, lids[lid])))
  }

  lemma StoredDataSame(g: Graph, t: seq<seq<PortRef>>, hops: nat, nodeRaw: nat -> NodePayload, portRaw: PortRef -> PortPayload, k: nat)
    requires Storable(g, t) && k < |W.Concat(t)| && W.Concat(t)[k] in g.ports
    ensures var f, q := FabricOf(g, t, hops, nodeRaw, portRaw), W.Concat(t)[k];
      && f.order[k] in f.ports && f.ports[f.order[k]].data.guid == g.ports[q].guid
      && f.ports[f.order[k]].data.baseLid == g.ports[q].baseLid && f.ports[f.order[k]].data.lmc == g.ports[q].lmc
  {
    AllMovedPorts(g);
    MovedTwice(|g.nodes|, W.Concat(t)[k]);
  }

  // The stored fabric has the ports of a list in its table, with their LIDs.
  ghost predicate SameLids(f: G.StoredFabric, g: Graph, all: seq<PortRef>) {
    && |f.order| == |all|
    && forall k :: 0 <= k < |all| ==>
         && all[k] in g.ports && f.order[k] in f.ports
         && f.ports[f.order[k]].data.baseLid == g.ports[all[k]].baseLid && f.ports[f.order[k]].data.lmc == g.ports[all[k]].lmc
  }

  lemma StoredLids(g: Graph, t: seq<seq<PortRef>>, hops: nat, nodeRaw: nat -> NodePayload, portRaw: PortRef -> PortPayload)
    requires Storable(g, t) && forall p :: p in W.Concat(t) ==> p in g.ports
    ensures SameLids(FabricOf(g, t, hops, nodeRaw, portRaw), g, W.Concat(t))
  {
    var f, all := FabricOf(g, t, hops, nodeRaw, portRaw), W.Concat(t);
    forall k | 0 <= k < |all|
      ensures all[k] in g.ports && f.order[k] in f.ports
      ensures f.ports[f.order[k]].data.baseLid == g.ports[all[k]].baseLid && f.ports[f.order[k]].data.lmc == g.ports[all[k]].lmc
    {
      assert all[k] in all;
      StoredDataSame(g, t, hops, nodeRaw, portRaw, k);
    }
  }

  lemma StoredEntriesSame(f: G.StoredFabric, g: Graph, all: seq<PortRef>)
    requires G.OrderOk(f) && SameLids(f, g, all)
    ensures (forall p :: p in all ==> p in g.ports) && SameEntries(G.StoredEntries(f), BackEntries(g, all))
  {
    var a, b := G.StoredEntries(f), BackEntries(g, all);
    forall i | 0 <= i < |a|
      ensures a[i].base == b[i].base && a[i].lmc == b[i].lmc && a[i].port == |b| - 1 - i
    {
      var k := |all| - 1 - i;
      assert a[i] == G.StoredEntry(f, k) && b[i] == EntryOf(g, all[k]);
    }
  }

  lemma OneGuidLastChain(g: Graph, rs: seq<PortEntry>, lid: nat)
    requires EntriesTrue(g, rs) && OneGuid(g, lid) && lid in RegisterAll(rs)
    ensures RegisterAll(rs)[lid] in g.ports && InLastChain(g, rs, lid, RegisterAll(rs)[lid])
  {
    LidMapsToFirst(rs, lid);
    FirstCoverCovers(rs, lid);
    var p := RegisterAll(rs)[lid];
    assert HasLid(g, p, lid);
    forall r | r in rs && Covers(r, lid)
      ensures r.guid == EntryOf(g, p).guid
    {
      assert HasLid(g, r.port, lid);
    }
  }

  lemma LidSameOwner(g: Graph, rs: seq<PortEntry>, t: seq<seq<PortRef>>, hops: nat, nodeRaw: nat -> NodePayload, portRaw: PortRef -> PortPayload, lid: nat)
    requires Storable(g, t) && EntriesTrue(g, rs) && TableOf(t, rs) && OneGuid(g, lid)
    requires var f := FabricOf(g, t, hops, nodeRaw, portRaw); G.OrderOk(f) && G.AllInTable(f)
    ensures var f := FabricOf(g, t, hops, nodeRaw, portRaw);
      SameOwner(g, RegisterAll(rs), G.SameGraph(f), RegisterAll(G.StoredEntries(f)), lid)
  {
    var f := FabricOf(g, t, hops, nodeRaw, portRaw);
    assert t[..HTSZ] == t;
    TableKnown(g, rs, t, HTSZ);
    StoredLids(g, t, hops, nodeRaw, portRaw);
    LoadedLidIs(g, rs, t, f, lid);
    if lid in RegisterAll(rs) {
      OneGuidLastChain(g, rs, lid);
      StoresFabric(g, t, hops, nodeRaw, portRaw);
      RecordPlace(f, g, t, RegisterAll(G.StoredEntries(f))[lid]);
    }
  }

  lemma LoadedLidIs(g: Graph, rs: seq<PortEntry>, t: seq<seq<PortRef>>, f: G.StoredFabric, lid: nat)
    requires EntriesTrue(g, rs) && TableOf(t, rs) && G.OrderOk(f) && SameLids(f, g, W.Concat(t))
    ensures lid in RegisterAll(G.StoredEntries(f)) <==> lid in RegisterAll(rs)
    ensures lid in RegisterAll(rs) ==>
      var p, k := RegisterAll(rs)[lid], RegisterAll(G.StoredEntries(f))[lid];
      p in g.ports && k < |W.Concat(t)| && (W.Concat(t)[k] == p <==> InLastChain(g, rs, lid, p))
  {
    StoredEntriesSame(f, g, W.Concat(t));
    LidsRestored(g, rs, t, lid, G.StoredEntries(f));
  }

  // The place of the port with record k
  lemma RecordPlace(f: G.StoredFabric, g: Graph, t: seq<seq<PortRef>>, k: nat)
    requires GraphOk(g) && Stores(f, g, t) && G.OrderOk(f) && G.AllInTable(f) && k < |W.Concat(t)| && W.Concat(t)[k] in g.ports
    ensures W.Concat(t)[k].node < |g.nodes| && PlaceOf(G.SameGraph(f), k) == Some(At(g, W.Concat(t)[k]))
  {
    var q := W.Concat(t)[k];
    LoadedPlace(f, g, t, q);
    assert f.order[k] == Moved(|g.nodes|, q);
    assert G.IndexOf(f.order, f.order[k]) == k;
  }

  // ---------------------------------------------------------------------------

  // ibnd_discover_fabric, ibnd_cache_fabric and ibnd_load_fabric on a static fabric
  method ScanCacheLoad(s: Scanner.FabricScan, sc: Scan, nodeRaw: nat -> NodePayload, portRaw: PortRef -> PortPayload)
    returns (r: Option<G.Loaded>, indexes: L.Indexes)
    requires ScanOk(sc) && s.cfg == sc.cfg && NetFits(sc.w) && SwitchGuidsOk(sc.w) && KeysUnique(sc.w)
    requires GoodStart(sc) && |sc.init| + |sc.w.hw| < HOPS_MAX
    requires s.Valid() && s.LmcOk() && s.G() == EMPTY && s.entries == []
    requires s.engine.Valid() && s.engine.State() == SmpEngine.Init(s.engine.tridCounter)
    requires 0 < s.engine.maxSmps && forall n :: s.engine.sendOk(n)
    requires 2 * Termination.Measure(sc, Initial(sc)) < SmpEngine.TID_SPACE
    modifies s, s.engine, s.engine.queue, s.engine.queue.Repr
    ensures r.Some? && r.value.maxhops == s.maxhops + |sc.init| && (NotCut(sc, s.G()) ==> LoadedComplete(sc, r.value))
    ensures G.Listed(indexes.nodes, r.value.nodes, 0) && PortsFound(r.value, indexes.portstbl)
    ensures forall lid :: OneGuid(s.G(), lid) ==> SameOwner(s.G(), s.lids, r.value, indexes.lids, lid)
  {
    NetLmcs(sc.w);
    ghost var run;
    var hops;
    run, hops := Discover.DiscoverFabric(s, sc);
    HopsFit(sc, run);
    ScanCanBeStored(sc, run, s.G(), s.entries, s.portstbl, hops, nodeRaw, portRaw);
    var f := FabricOf(s.G(), s.portstbl, hops, nodeRaw, portRaw);
    r, indexes := L.CacheAndLoad(f, MovedTable(|s.nodes|, s.portstbl));
    LoadedRight(sc, run, s.G(), s.entries, s.portstbl, hops, nodeRaw, portRaw);
    FoundPorts(f, indexes.portstbl);
  }

  lemma HopsFit(sc: Scan, run: seq<State>)
    requires IsRun(sc, run) && NetFits(sc.w) && |sc.init| < HOPS_MAX
    requires 2 * Termination.Measure(sc, Initial(sc)) < SmpEngine.TID_SPACE
    ensures |run| - 1 <= Termination.Measure(sc, Initial(sc)) && Last(run).g.maxhops + |sc.init| < SmpEngine.TID_SPACE
  {
    RunSizes(sc, run);
    Termination.ScanEnds(sc, run);
  }

  lemma NetLmcs(w: Net)
    requires NetFits(w)
    ensures Discover.NetLmcOk(w)
  {
    forall g, k | g in w.hw && 0 <= k < |w.hw[g].ports|
      ensures w.hw[g].ports[k].lmc <= 7
    {
      assert IsPlace(w, Place(g, k)) && HwPortFits(w.hw[g].ports[k]);
    }
  }

  // What is loaded after a finished scan
  lemma LoadedRight(sc: Scan, run: seq<State>, g: Graph, rs: seq<PortEntry>, t: seq<seq<PortRef>>, hops: nat,
                    nodeRaw: nat -> NodePayload, portRaw: PortRef -> PortPayload)
    requires IsRun(sc, run) && Last(run) == State(g, multiset{}) && GoodStart(sc)
    requires |sc.init| + |sc.w.hw| < HOPS_MAX
    requires Storable(g, t) && EntriesTrue(g, rs) && TableOf(t, rs)
    requires var f := FabricOf(g, t, hops, nodeRaw, portRaw); G.OrderOk(f) && G.AllInTable(f)
    ensures var f := FabricOf(g, t, hops, nodeRaw, portRaw);
      && (NotCut(sc, g) ==> LoadedComplete(sc, G.SameGraph(f)))
      && forall lid :: OneGuid(g, lid) ==> SameOwner(g, RegisterAll(rs), G.SameGraph(f), RegisterAll(G.StoredEntries(f)), lid)
  {
    StoresFabric(g, t, hops, nodeRaw, portRaw);
    if NotCut(sc, g) {
      Paths.SmallScanIsComplete(sc, run);
      LoadedIsComplete(sc, FabricOf(g, t, hops, nodeRaw, portRaw), g, t);
    }
    forall lid | OneGuid(g, lid)
      ensures var f := FabricOf(g, t, hops, nodeRaw, portRaw);
        SameOwner(g, RegisterAll(rs), G.SameGraph(f), RegisterAll(G.StoredEntries(f)), lid)
    {
      LidSameOwner(g, rs, t, hops, nodeRaw, portRaw, lid);
    }
  }

  lemma EntriesStillTrue(sc: Scan, s: State, rs: seq<PortEntry>)
    requires EntriesOk(sc, s, rs)
    ensures EntriesTrue(s.g, rs)
  {
    forall r | r in rs
      ensures r.port in s.g.ports && r == EntryOf(s.g, r.port)
    {
      assert EntryTrue(sc, s.g, r);
    }
  }

  lemma TableBelow(g: Graph, t: seq<seq<PortRef>>)
    requires SlotsOk(g) && PortsFiled(t, g.ports)
    ensures forall h :: 0 <= h < |t| ==> Below(|g.nodes|, t[h])
  {
    forall h, k | 0 <= h < |t| && 0 <= k < |t[h]|
      ensures t[h][k].node < |g.nodes|
    {
      assert t[h][k] in t[h];
    }
  }

  // The graph and the port table of a finished scan
  lemma ScanStorable(sc: Scan, run: seq<State>, rs: seq<PortEntry>, t: seq<seq<PortRef>>)
    requires IsRun(sc, run) && NetFits(sc.w) && Last(run).pend == multiset{}
    requires Records(sc, Last(run)) && EntriesOk(sc, Last(run), rs) && TableOf(t, rs)
    ensures var g := Last(run).g;
      && Storable(g, t) && EntriesTrue(g, rs) && PortsFiled(t, g.ports) && Sized(g, |run| - 1)
      && (forall h :: 0 <= h < |t| ==> Below(|g.nodes|, t[h]))
      && W.Concat(MovedTable(|g.nodes|, t)) == MovedAll(|g.nodes|, W.Concat(t))
  {
    var g := Last(run).g;
    RunSizes(sc, run);
    ScanStarted(sc, Last(run));
    TableInOrder(sc, Last(run), rs, t);
    EntriesStillTrue(sc, Last(run), rs);
    TableBelow(g, t);
    MovedConcat(|g.nodes|, t);
  }

  // A scan that is over has found its start.
  lemma ScanStarted(sc: Scan, s: State)
    requires Sound(sc, s) && s.pend == multiset{}
    ensures GraphOk(s.g) && s.g.from.Some?
  {
    assert Initial(sc).pend[NodeInfoReq(sc.init, None)] == 1;
  }

  // What a finished scan leaves meets what caching and loading ask for.
  lemma ScanCanBeStored(sc: Scan, run: seq<State>, g: Graph, rs: seq<PortEntry>, t: seq<seq<PortRef>>, hops: nat,
                        nodeRaw: nat -> NodePayload, portRaw: PortRef -> PortPayload)
    requires IsRun(sc, run) && Last(run) == State(g, multiset{}) && NetFits(sc.w) && KeysUnique(sc.w)
    requires Records(sc, Last(run)) && EntriesOk(sc, Last(run), rs) && TableOf(t, rs)
    requires |run| - 1 < SmpEngine.TID_SPACE && hops < SmpEngine.TID_SPACE
    ensures Storable(g, t) && EntriesTrue(g, rs)
    ensures forall h :: 0 <= h < |t| ==> Below(|g.nodes|, t[h])
    ensures var f := FabricOf(g, t, hops, nodeRaw, portRaw);
      && G.FabricOk(f) && G.FabricFits(f) && G.CountsFit(f) && G.LmcsFit(f) && G.AllInTable(f)
      && f.order == W.Concat(MovedTable(|g.nodes|, t))
  {
    Binary.Pow2Words();
    ScanStorable(sc, run, rs, t);
    StoresFabric(g, t, hops, nodeRaw, portRaw);
    FinishedScanIsCacheable(sc, Last(run), rs, FabricOf(g, t, hops, nodeRaw, portRaw), t);
    FabricFitsFile(g, t, hops, nodeRaw, portRaw, |run| - 1);
  }
}
