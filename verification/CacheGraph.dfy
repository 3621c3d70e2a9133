// What a cached fabric becomes when it is loaded again: the records that
// libibnetdisc/src/ibnetdisc_cache.c writes for a graph of nodes and ports, and the
// graph that it rebuilds from records.
module CacheGraph {
  import opened Wrappers
  import opened BitFields
  import opened CacheFormat
  import opened Tables
  import Fabric

  type PortRef = Fabric.PortRef

  function At(node: nat, num: nat): PortRef { Fabric.PortRef(node, num) }

  // ---------------------------------------------------------------------------
  // A fabric in memory.  `order` is the port table, chain by chain.

  datatype StoredPort = StoredPort(data: PortData, remote: Option<PortRef>)

  datatype StoredFabric = StoredFabric(nodes: seq<NodeData>, ports: map<PortRef, StoredPort>, order: seq<PortRef>,
                                       from: nat, maxhops: nat)

  function KeyOf(d: PortData): PortKey { PortKey(d.guid, d.portnum) }

  ghost predicate PortsOk(f: StoredFabric) {
    && (forall p: PortRef :: p in f.ports ==>
          p.node < |f.nodes| && p.num <= f.nodes[p.node].numports && f.ports[p].data.portnum == p.num)
    && (forall p: PortRef :: p in f.ports && f.ports[p].remote.Some? ==> f.ports[p].remote.value in f.ports)
    && (forall p: PortRef, q: PortRef :: p in f.ports && q in f.ports && KeyOf(f.ports[p].data) == KeyOf(f.ports[q].data) ==> p == q)
  }

  ghost predicate OrderOk(f: StoredFabric) {
    && (forall k :: 0 <= k < |f.order| ==> f.order[k] in f.ports)
    && (forall j, k :: 0 <= j < k < |f.order| ==> f.order[j] != f.order[k])
  }

  ghost predicate FabricOk(f: StoredFabric) {
    && f.from < |f.nodes|
    && (forall i, j :: 0 <= i < j < |f.nodes| ==> f.nodes[i].guid != f.nodes[j].guid)
    && PortsOk(f) && OrderOk(f)
  }

  // The numbers have the widths of their C types.
  ghost predicate FabricFits(f: StoredFabric) {
    && f.maxhops < Limit(4) && |f.nodes| < Limit(4) && |f.order| < Limit(4)
    && (forall i :: 0 <= i < |f.nodes| ==> NodeDataFits(f.nodes[i]))
    && (forall p: PortRef :: p in f.ports ==> f.ports[p].data.guid < Limit(8) && f.ports[p].data.baseLid < Limit(2))
  }

  // ---------------------------------------------------------------------------
  // Records of a fabric

  // The keys of the ports in the first n slots of node i
  function StoredKeys(f: StoredFabric, i: nat, n: nat): seq<PortKey> {
    if n == 0 then []
    else StoredKeys(f, i, n - 1) + if At(i, n - 1) in f.ports then [KeyOf(f.ports[At(i, n - 1)].data)] else []
  }

  function NodeRecOf(f: StoredFabric, i: nat): NodeRec
    requires i < |f.nodes|
  {
    NodeRec(f.nodes[i], StoredKeys(f, i, f.nodes[i].numports as nat + 1))
  }

  function PortRecOf(f: StoredFabric, p: PortRef): PortRec
    requires p in f.ports && p.node < |f.nodes|
  {
    var port := f.ports[p];
    PortRec(port.data, f.nodes[p.node].guid,
      if port.remote.Some? && port.remote.value in f.ports then Some(KeyOf(f.ports[port.remote.value].data)) else None)
  }

  ghost function ContentsOf(f: StoredFabric): Contents
    requires FabricOk(f)
  {
    Contents(f.nodes[f.from].guid, f.maxhops, NodeRecsOf(f), PortRecsOf(f))
  }

  ghost function NodeRecsOf(f: StoredFabric): (r: seq<NodeRec>)
    ensures |r| == |f.nodes| && forall i :: 0 <= i < |r| ==> r[i] == NodeRecOf(f, i)
  {
    seq(|f.nodes|, i requires 0 <= i < |f.nodes| => NodeRecOf(f, i))
  }

  ghost function PortRecsOf(f: StoredFabric): (r: seq<PortRec>)
    requires PortsOk(f) && OrderOk(f)
    ensures |r| == |f.order| && forall k :: 0 <= k < |r| ==> r[k] == PortRecOf(f, f.order[k])
  {
    seq(|f.order|, k requires 0 <= k < |f.order| => PortRecOf(f, f.order[k]))
  }

  // No node stores more ports than the count in its record can say.
  ghost predicate CountsFit(f: StoredFabric) {
    forall i :: 0 <= i < |f.nodes| ==> |StoredKeys(f, i, f.nodes[i].numports as nat + 1)| < 256
  }

  // ---------------------------------------------------------------------------
  // Lookups in the hash chains of the loader, which hold record numbers, latest first

  // The chain of bucket b after records with the given buckets were put in
  function RecordChain(buckets: seq<nat>, b: nat): seq<nat> {
    if buckets == [] then []
    else
      var last := |buckets| - 1;
      (if buckets[last] == b then [last] else []) + RecordChain(buckets[..last], b)
  }

  function FirstIn(chain: seq<nat>, good: nat -> bool): Option<nat> {
    if chain == [] then None else if good(chain[0]) then Some(chain[0]) else FirstIn(chain[1..], good)
  }

  // The latest of the first n records that is good
  function Latest(n: nat, good: nat -> bool): (r: Option<nat>)
    ensures r.Some? ==> r.value < n && good(r.value)
    ensures r.None? ==> forall k :: 0 <= k < n ==> !good(k)
  {
    if n == 0 then None else if good(n - 1) then Some(n - 1) else Latest(n - 1, good)
  }

  // The walk down one chain finds what a search of all records finds.
  lemma {:induction false} ChainFinds(buckets: seq<nat>, b: nat, good: nat -> bool)
    requires forall k :: 0 <= k < |buckets| && good(k) ==> buckets[k] == b
    ensures FirstIn(RecordChain(buckets, b), good) == Latest(|buckets|, good)
    decreases |buckets|
  {
    if buckets != [] {
      var last := |buckets| - 1;
      ChainFinds(buckets[..last], b, good);
      if buckets[last] == b {
        assert RecordChain(buckets, b)[1..] == RecordChain(buckets[..last], b);
      } else {
        assert RecordChain(buckets, b) == RecordChain(buckets[..last], b);
      }
    }
  }

  function HasKey(ports: seq<PortRec>, key: PortKey): nat -> bool {
    (k: nat) => k < |ports| && KeyOf(ports[k].data) == key
  }

  function HasGuid(nodes: seq<NodeRec>, guid: nat): nat -> bool {
    (k: nat) => k < |nodes| && nodes[k].data.guid == guid
  }

  function FindPort(ports: seq<PortRec>, key: PortKey): Option<nat> {
    Latest(|ports|, HasKey(ports, key))
  }

  function FindNode(nodes: seq<NodeRec>, guid: nat): Option<nat> {
    Latest(|nodes|, HasGuid(nodes, guid))
  }

  // ---------------------------------------------------------------------------
  // Rebuilding.  A node is named by its place in the node list, a port by the number of
  // its record.

  datatype LoadedPort = LoadedPort(data: PortData, node: Option<nat>, remote: Option<nat>)

  datatype Loaded = Loaded(nodes: seq<NodeData>, slots: map<PortRef, nat>, ports: seq<LoadedPort>, from: nat, maxhops: nat)

  // The ports arrays so far, and the ports that are in them
  datatype Filled = Filled(slots: map<PortRef, nat>, stored: set<nat>)

  // _fill_port
  function FillPort(ports: seq<PortRec>, i: nat, key: PortKey, st: Filled): Option<Filled> {
    match FindPort(ports, key)
    case None => None
    case Some(k) =>
      if k in st.stored then None
      else Some(Filled(st.slots[At(i, ports[k].data.portnum) := k], st.stored + {k}))
  }

  function FillPorts(ports: seq<PortRec>, i: nat, keys: seq<PortKey>, st: Filled): Option<Filled>
    decreases |keys|
  {
    if keys == [] then Some(st)
    else match FillPorts(ports, i, keys[..|keys| - 1], st)
      case None => None
      case Some(st') => FillPort(ports, i, keys[|keys| - 1], st')
  }

  // The loop of _rebuild_nodes, which meets the nodes in the reverse order of the file,
  // after the nodes from number n on
  function FillNodes(c: Contents, n: nat): Option<Filled>
    requires n <= |c.nodes|
    decreases |c.nodes| - n
  {
    if n == |c.nodes| then Some(Filled(map[], {}))
    else match FillNodes(c, n + 1)
      case None => None
      case Some(st) => FillPorts(c.ports, n, c.nodes[n].keys, st)
  }

  // The pointers that _rebuild_ports sets in a port
  function Wired(c: Contents, r: PortRec): LoadedPort {
    LoadedPort(r.data, FindNode(c.nodes, r.owner), if r.remote.Some? then FindPort(c.ports, r.remote.value) else None)
  }

  // _rebuild_ports fails when it does not find the node or the remote port.
  predicate Resolves(c: Contents, r: PortRec) {
    Wired(c, r).node.Some? && (r.remote.Some? ==> Wired(c, r).remote.Some?)
  }

  // ibnd_load_fabric up to the grouping of nodes
  function Rebuild(c: Contents): Option<Loaded> {
    var from := FindNode(c.nodes, c.from);
    var filled := FillNodes(c, 0);
    if from.None? || filled.None? || !(forall k :: 0 <= k < |c.ports| ==> Resolves(c, c.ports[k])) then None
    else Some(Loaded(Datas(c), filled.value.slots, AllWired(c), from.value, c.maxhops))
  }

  function Datas(c: Contents): (r: seq<NodeData>)
    ensures |r| == |c.nodes| && forall i :: 0 <= i < |c.nodes| ==> r[i] == c.nodes[i].data
  {
    seq(|c.nodes|, i requires 0 <= i < |c.nodes| => c.nodes[i].data)
  }

  // ---------------------------------------------------------------------------
  // The lists and chains of nodes of the rebuilt fabric, as sequences of record numbers

  function KindOf(type_: nat): Fabric.Kind {
    if type_ == 1 then Fabric.CA else if type_ == 2 then Fabric.Switch else if type_ == 3 then Fabric.Router else Fabric.Other
  }

  function InfoOf(d: NodeData): Fabric.NodeInfo {
    Fabric.NodeInfo(d.guid, KindOf(d.kind), d.numports, 0, 0, false)
  }

  // n, ..., m - 1
  function UpFrom(n: nat, m: nat): seq<nat>
    decreases m - n
  {
    if n >= m then [] else [n] + UpFrom(n + 1, m)
  }

  function BucketFrom(d: seq<NodeData>, n: nat, h: nat): seq<nat>
    decreases |d| - n
  {
    if n >= |d| then [] else (if Bucket(d[n].guid) == h then [n] else []) + BucketFrom(d, n + 1, h)
  }

  function KindFrom(d: seq<NodeData>, n: nat, kind: Fabric.Kind): seq<nat>
    decreases |d| - n
  {
    if n >= |d| then [] else (if KindOf(d[n].kind) == kind then [n] else []) + KindFrom(d, n + 1, kind)
  }

  // The list of all nodes, the hash chains and the type lists hold the nodes from number
  // n on, in their order.
  ghost predicate Listed(t: NodeTables, d: seq<NodeData>, n: nat) {
    && t.all == UpFrom(n, |d|)
    && |t.table| == HTSZ && (forall h :: 0 <= h < HTSZ ==> t.table[h] == BucketFrom(d, n, h))
    && t.adapters == KindFrom(d, n, Fabric.CA) && t.switches == KindFrom(d, n, Fabric.Switch)
    && t.routers == KindFrom(d, n, Fabric.Router)
  }

  lemma EnterListed(t: NodeTables, d: seq<NodeData>, n: nat)
    requires n < |d| && Listed(t, d, n + 1)
    ensures Listed(Enter(t, n, InfoOf(d[n])), d, n)
  {
  }

  // n - 1, ..., 0: what prepending numbers 0 to n - 1 leaves
  function DownFrom(n: nat): (s: seq<nat>)
    ensures |s| == n && forall k :: 0 <= k < n ==> s[k] == n - 1 - k
  {
    if n == 0 then [] else [n - 1] + DownFrom(n - 1)
  }

  lemma {:induction false} UpFromAt(n: nat, m: nat)
    requires n <= m
    ensures |UpFrom(n, m)| == m - n && forall k :: 0 <= k < m - n ==> UpFrom(n, m)[k] == n + k
    decreases m - n
  {
    if n < m { UpFromAt(n + 1, m); }
  }

  // The tables of the scan that the fabric was cached from, where node i of the scan is
  // the one at place n - 1 - i of the list of nodes
  function Renamed(s: seq<nat>, n: nat): (r: seq<int>)
    ensures |r| == |s|
  {
    seq(|s|, k requires 0 <= k < |s| => n - 1 - s[k])
  }

  ghost predicate SameNodes(d: seq<NodeData>, nodes: seq<Fabric.Node>) {
    && |d| == |nodes|
    && forall k :: 0 <= k < |d| ==> InfoOf(d[k]).guid == nodes[|d| - 1 - k].info.guid && InfoOf(d[k]).kind == nodes[|d| - 1 - k].info.kind
  }

  lemma RenamedMore(last: nat, s: seq<nat>, n: nat)
    ensures Renamed([last] + s, n) == [n - 1 - last] + Renamed(s, n)
    ensures Renamed([] + s, n) == Renamed(s, n)
  {
    assert [] + s == s;
  }

  lemma {:induction false} AllRestored(d: seq<NodeData>, nodes: seq<Fabric.Node>, m: nat)
    requires SameNodes(d, nodes) && m <= |nodes|
    ensures Renamed(AllOf(nodes[..m]), |d|) == UpFrom(|d| - m, |d|)
    decreases m
  {
    if m > 0 {
      AllRestored(d, nodes, m - 1);
      assert nodes[..m][..m - 1] == nodes[..m - 1];
      RenamedMore(m - 1, AllOf(nodes[..m - 1]), |d|);
    }
  }

  lemma {:induction false} BucketRestored(d: seq<NodeData>, nodes: seq<Fabric.Node>, m: nat, h: nat)
    requires SameNodes(d, nodes) && m <= |nodes|
    ensures Renamed(InBucket(nodes[..m], h), |d|) == BucketFrom(d, |d| - m, h)
    decreases m
  {
    if m > 0 {
      BucketRestored(d, nodes, m - 1, h);
      assert nodes[..m][..m - 1] == nodes[..m - 1];
      RenamedMore(m - 1, InBucket(nodes[..m - 1], h), |d|);
    }
  }

  lemma {:induction false} KindRestored(d: seq<NodeData>, nodes: seq<Fabric.Node>, m: nat, kind: Fabric.Kind)
    requires SameNodes(d, nodes) && m <= |nodes|
    ensures Renamed(OfKind(nodes[..m], kind), |d|) == KindFrom(d, |d| - m, kind)
    decreases m
  {
    if m > 0 {
      KindRestored(d, nodes, m - 1, kind);
      assert nodes[..m][..m - 1] == nodes[..m - 1];
      RenamedMore(m - 1, OfKind(nodes[..m - 1], kind), |d|);
    }
  }

  // After a load the list of nodes, the hash chains and the type lists are those of the
  // scan that was cached, in the same order.
  lemma IndexesRestored(d: seq<NodeData>, nodes: seq<Fabric.Node>, t: NodeTables, t': NodeTables)
    requires SameNodes(d, nodes) && Agree(t, nodes) && Listed(t', d, 0)
    ensures t'.all == Renamed(t.all, |d|)
    ensures forall h :: 0 <= h < HTSZ ==> t'.table[h] == Renamed(t.table[h], |d|)
    ensures t'.adapters == Renamed(t.adapters, |d|) && t'.switches == Renamed(t.switches, |d|) && t'.routers == Renamed(t.routers, |d|)
  {
    assert nodes[..|d|] == nodes;
    forall h | 0 <= h < HTSZ
      ensures t'.table[h] == Renamed(t.table[h], |d|)
    {
      BucketRestored(d, nodes, |d|, h);
    }
    AllRestored(d, nodes, |d|);
    KindRestored(d, nodes, |d|, Fabric.CA);
    KindRestored(d, nodes, |d|, Fabric.Switch);
    KindRestored(d, nodes, |d|, Fabric.Router);
  }

  // The port table holds the records of a set, each in the chain of its GUID and once.
  ghost predicate Hashed(t: seq<seq<nat>>, ports: seq<PortRec>, stored: set<nat>) {
    && |t| == HTSZ
    && (forall h, a :: 0 <= h < HTSZ && 0 <= a < |t[h]| ==>
          t[h][a] in stored && t[h][a] < |ports| && Bucket(ports[t[h][a]].data.guid) == h)
    && (forall k :: k in stored && k < |ports| ==> k in t[Bucket(ports[k].data.guid)])
    && (forall h, a, b :: 0 <= h < HTSZ && 0 <= a < b < |t[h]| ==> t[h][a] != t[h][b])
  }

  lemma NothingHashed(t: seq<seq<nat>>, ports: seq<PortRec>)
    requires Hashed(t, [], {})
    ensures Hashed(t, ports, {})
  {
  }

  lemma HashedMore(t: seq<seq<nat>>, ports: seq<PortRec>, stored: set<nat>, k: nat)
    requires Hashed(t, ports, stored) && k < |ports| && k !in stored
    ensures Hashed(EnterChain(t, k, Bucket(ports[k].data.guid)), ports, stored + {k})
  {
    var h := Bucket(ports[k].data.guid);
    assert k !in t[h];
    assert EnterChain(t, k, h)[h] == [k] + t[h];
  }

  // What _rebuild_ports enters into the LID map: the ports down the list ports_cache
  function RecordEntries(ports: seq<PortRec>): (r: seq<IndexEntry<nat>>)
    ensures |r| == |ports| && forall i :: 0 <= i < |r| ==> r[i] == RecordEntry(ports, |ports| - 1 - i)
  {
    seq(|ports|, i requires 0 <= i < |ports| => RecordEntry(ports, |ports| - 1 - i))
  }

  function RecordEntry(ports: seq<PortRec>, k: nat): IndexEntry<nat>
    requires k < |ports|
  {
    PortEntry(k, ports[k].data.guid, ports[k].data.baseLid, ports[k].data.lmc)
  }

  lemma RecordsRegistered(ports: seq<PortRec>, k: nat)
    requires k < |ports|
    ensures RegisterAll(RecordEntries(ports)[..k + 1]) == Register(RegisterAll(RecordEntries(ports)[..k]), RecordEntry(ports, |ports| - 1 - k))
  {
    var rs := RecordEntries(ports);
    assert rs[..k + 1] == rs[..k] + [rs[k]];
    RegisterNext(rs[..k], rs[k]);
  }

  // LMC fields are three bits wide.
  ghost predicate LmcsOk(ports: seq<PortRec>) {
    forall k :: 0 <= k < |ports| ==> ports[k].data.lmc <= 7
  }

  function AllWired(c: Contents): (r: seq<LoadedPort>)
    ensures |r| == |c.ports| && forall k :: 0 <= k < |c.ports| ==> r[k] == Wired(c, c.ports[k])
  {
    seq(|c.ports|, k requires 0 <= k < |c.ports| => Wired(c, c.ports[k]))
  }

  function Load(s: seq<Byte>): Option<Loaded> {
    match ParseFile(s)
    case None => None
    case Some(c) => Rebuild(c)
  }

  // ---------------------------------------------------------------------------
  // The graph that a cached fabric should become

  function IndexOf(order: seq<PortRef>, p: PortRef): (k: nat)
    requires p in order
    ensures k < |order| && order[k] == p
  {
    if order[0] == p then 0 else 1 + IndexOf(order[1..], p)
  }

  // Every port that hangs in a ports array is in the port table.
  ghost predicate AllInTable(f: StoredFabric) {
    forall p: PortRef :: p in f.ports ==> p in f.order
  }

  // The same graph, where the port with record k is the one at place k of the table.
  ghost function SameGraph(f: StoredFabric): Loaded
    requires AllInTable(f) && OrderOk(f)
  {
    Loaded(f.nodes, map p: PortRef | p in f.ports :: IndexOf(f.order, p), SamePorts(f), f.from, f.maxhops)
  }

  ghost function SamePort(f: StoredFabric, p: PortRef): LoadedPort
    requires p in f.ports
  {
    var remote := f.ports[p].remote;
    LoadedPort(f.ports[p].data, Some(p.node),
      if remote.Some? && remote.value in f.order then Some(IndexOf(f.order, remote.value)) else None)
  }

  ghost function SamePorts(f: StoredFabric): (r: seq<LoadedPort>)
    requires OrderOk(f)
    ensures |r| == |f.order| && forall k :: 0 <= k < |r| ==> r[k] == SamePort(f, f.order[k])
  {
    seq(|f.order|, k requires 0 <= k < |f.order| => SamePort(f, f.order[k]))
  }

  // ---------------------------------------------------------------------------
  // Proofs

  lemma FindsNode(f: StoredFabric, i: nat)
    requires FabricOk(f) && i < |f.nodes|
    ensures FindNode(ContentsOf(f).nodes, f.nodes[i].guid) == Some(i)
  {
    var nodes := ContentsOf(f).nodes;
    assert HasGuid(nodes, f.nodes[i].guid)(i);
  }

  // The key of a port leads to its record, if it has one.
  lemma FindsPort(f: StoredFabric, p: PortRef)
    requires FabricOk(f) && p in f.ports
    ensures FindPort(ContentsOf(f).ports, KeyOf(f.ports[p].data)) == if p in f.order then Some(IndexOf(f.order, p)) else None
  {
    var ports, key := PortRecsOf(f), KeyOf(f.ports[p].data);
    if p in f.order {
      assert HasKey(ports, key)(IndexOf(f.order, p));
    }
    var found := FindPort(ports, key);
    if found.Some? {
      assert HasKey(ports, key)(found.value);
      KeyIsOf(f, p, found.value);
    }
  }

  // Only the record of a port has its key.
  lemma KeyIsOf(f: StoredFabric, p: PortRef, k: nat)
    requires PortsOk(f) && OrderOk(f) && p in f.ports && k < |f.order| && KeyOf(PortRecsOf(f)[k].data) == KeyOf(f.ports[p].data)
    ensures f.order[k] == p && p in f.order && IndexOf(f.order, p) == k
  {
    assert f.order[k] == p;
  }

  // The slots of the nodes after n, and the first m of node n, are filled.
  ghost predicate FilledTo(f: StoredFabric, n: nat, m: nat, st: Filled) {
    && (forall p: PortRef :: p in st.slots <==> p in f.ports && (p.node > n || (p.node == n && p.num < m)))
    && (forall p: PortRef :: p in st.slots ==> p in f.order && st.slots[p] == IndexOf(f.order, p))
    && (forall k :: k in st.stored ==> k < |f.order| && f.order[k] in st.slots)
    && (forall p: PortRef :: p in st.slots ==> st.slots[p] in st.stored)
  }

  // Every attached port is found by its key.
  ghost predicate AllFound(f: StoredFabric, ports: seq<PortRec>)
    requires AllInTable(f)
  {
    forall p: PortRef :: p in f.ports ==>
      var found := FindPort(ports, KeyOf(f.ports[p].data));
      found == Some(IndexOf(f.order, p)) && found.value < |ports| && ports[found.value].data.portnum == p.num
  }

  lemma FindsAll(f: StoredFabric)
    requires FabricOk(f) && AllInTable(f)
    ensures AllFound(f, PortRecsOf(f))
  {
    forall p: PortRef | p in f.ports
      ensures FindPort(PortRecsOf(f), KeyOf(f.ports[p].data)) == Some(IndexOf(f.order, p))
    {
      FindsPort(f, p);
    }
  }

  lemma FillPortOk(f: StoredFabric, ports: seq<PortRec>, n: nat, m: nat, st: Filled)
    requires AllInTable(f) && AllFound(f, ports) && FilledTo(f, n, m, st) && At(n, m) in f.ports
    ensures var st' := FillPort(ports, n, KeyOf(f.ports[At(n, m)].data), st);
      st'.Some? && FilledTo(f, n, m + 1, st'.value)
  {
    var k := IndexOf(f.order, At(n, m));
    assert FindPort(ports, KeyOf(f.ports[At(n, m)].data)) == Some(k);
    assert At(n, m) !in st.slots && k !in st.stored;
  }

  lemma {:induction false} FillPortsOk(f: StoredFabric, ports: seq<PortRec>, n: nat, m: nat, st: Filled)
    requires AllInTable(f) && AllFound(f, ports) && FilledTo(f, n, 0, st)
    ensures var st' := FillPorts(ports, n, StoredKeys(f, n, m), st);
      st'.Some? && FilledTo(f, n, m, st'.value)
    decreases m
  {
    if m > 0 {
      FillPortsOk(f, ports, n, m - 1, st);
      FillSlot(f, ports, n, m - 1, StoredKeys(f, n, m - 1), st);
    }
  }

  // The slot m of node n, after the slots before it
  lemma FillSlot(f: StoredFabric, ports: seq<PortRec>, n: nat, m: nat, before: seq<PortKey>, st: Filled)
    requires AllInTable(f) && AllFound(f, ports)
    requires var st' := FillPorts(ports, n, before, st); st'.Some? && FilledTo(f, n, m, st'.value)
    ensures var keys := before + if At(n, m) in f.ports then [KeyOf(f.ports[At(n, m)].data)] else [];
      var st' := FillPorts(ports, n, keys, st);
      st'.Some? && FilledTo(f, n, m + 1, st'.value)
  {
    if At(n, m) in f.ports {
      FillOneMore(ports, n, before, KeyOf(f.ports[At(n, m)].data), st);
      FillPortOk(f, ports, n, m, FillPorts(ports, n, before, st).value);
    } else {
      assert before + [] == before;
    }
  }

  lemma FillOneMore(ports: seq<PortRec>, i: nat, keys: seq<PortKey>, key: PortKey, st: Filled)
    ensures FillPorts(ports, i, keys + [key], st) ==
      match FillPorts(ports, i, keys, st)
      case None => None
      case Some(st') => FillPort(ports, i, key, st')
  {
    assert (keys + [key])[..|keys|] == keys;
  }

  // The length of the ports array of node n
  function Slots(f: StoredFabric, n: nat): nat {
    if n < |f.nodes| then f.nodes[n].numports + 1 else 0
  }

  lemma NextNode(f: StoredFabric, n: nat, st: Filled)
    requires PortsOk(f) && n < |f.nodes| && FilledTo(f, n + 1, Slots(f, n + 1), st)
    ensures FilledTo(f, n, 0, st)
  {
  }

  lemma {:induction false} FillNodesOk(f: StoredFabric, n: nat)
    requires FabricOk(f) && AllInTable(f) && n <= |f.nodes|
    ensures var st := FillNodes(ContentsOf(f), n);
      st.Some? && FilledTo(f, n, Slots(f, n), st.value)
    decreases |f.nodes| - n
  {
    if n < |f.nodes| {
      FillNodesOk(f, n + 1);
      var st := FillNodes(ContentsOf(f), n + 1).value;
      NextNode(f, n, st);
      FindsAll(f);
      FillPortsOk(f, PortRecsOf(f), n, Slots(f, n), st);
    }
  }

  lemma AllResolve(f: StoredFabric, k: nat)
    requires FabricOk(f) && AllInTable(f) && k < |f.order|
    ensures Resolves(ContentsOf(f), ContentsOf(f).ports[k])
    ensures Wired(ContentsOf(f), ContentsOf(f).ports[k]) == SamePort(f, f.order[k])
  {
    var p := f.order[k];
    FindsNode(f, p.node);
    if f.ports[p].remote.Some? { FindsPort(f, f.ports[p].remote.value); }
  }

  lemma FillsSame(f: StoredFabric)
    requires FabricOk(f) && AllInTable(f)
    ensures var filled := FillNodes(ContentsOf(f), 0);
      filled.Some? && filled.value.slots == SameGraph(f).slots
  {
    FillNodesOk(f, 0);
  }

  // Rebuilding the records of a fabric gives the same graph.
  lemma RebuildsSame(f: StoredFabric)
    requires FabricOk(f) && AllInTable(f)
    ensures Rebuild(ContentsOf(f)) == Some(SameGraph(f))
  {
    var c := ContentsOf(f);
    FindsNode(f, f.from);
    FillsSame(f);
    forall k | 0 <= k < |c.ports|
      ensures Resolves(c, c.ports[k]) && Wired(c, c.ports[k]) == SamePort(f, f.order[k])
    {
      AllResolve(f, k);
    }
    assert Datas(c) == f.nodes;
    assert AllWired(c) == SamePorts(f);
  }

  // ---------------------------------------------------------------------------
  // The port table and the LID map

  // The indexes of ports that a load leaves
  ghost predicate Indexed(c: Contents, t: seq<seq<nat>>, lids: map<nat, nat>) {
    && FillNodes(c, 0).Some? && Hashed(t, c.ports, FillNodes(c, 0).value.stored)
    && (LmcsOk(c.ports) ==> lids == RegisterAll(RecordEntries(c.ports)))
  }

  // The port table holds every port of the fabric, in the chain of its GUID and once.
  ghost predicate PortsHashed(f: StoredFabric, t: seq<seq<nat>>)
    requires OrderOk(f)
  {
    && |t| == HTSZ
    && (forall h, a :: 0 <= h < HTSZ && 0 <= a < |t[h]| ==> t[h][a] < |f.order| && Bucket(f.ports[f.order[t[h][a]]].data.guid) == h)
    && (forall k :: 0 <= k < |f.order| ==> k in t[Bucket(f.ports[f.order[k]].data.guid)])
    && (forall h, a, b :: 0 <= h < HTSZ && 0 <= a < b < |t[h]| ==> t[h][a] != t[h][b])
  }

  ghost predicate LmcsFit(f: StoredFabric) {
    forall p: PortRef :: p in f.ports ==> f.ports[p].data.lmc <= 7
  }

  // The ports of the table from its end on, with their LIDs
  ghost function StoredEntries(f: StoredFabric): (r: seq<IndexEntry<nat>>)
    requires OrderOk(f)
    ensures |r| == |f.order| && forall i :: 0 <= i < |r| ==> r[i] == StoredEntry(f, |f.order| - 1 - i)
  {
    seq(|f.order|, i requires 0 <= i < |f.order| => StoredEntry(f, |f.order| - 1 - i))
  }

  ghost function StoredEntry(f: StoredFabric, k: nat): IndexEntry<nat>
    requires OrderOk(f) && k < |f.order|
  {
    var d := f.ports[f.order[k]].data;
    PortEntry(k, d.guid, d.baseLid, d.lmc)
  }

  lemma HashedSame(f: StoredFabric, t: seq<seq<nat>>, stored: set<nat>)
    requires PortsOk(f) && OrderOk(f) && Hashed(t, PortRecsOf(f), stored) && forall k: nat :: k in stored <==> k < |f.order|
    ensures PortsHashed(f, t)
  {
    forall k | 0 <= k < |f.order|
      ensures k in t[Bucket(f.ports[f.order[k]].data.guid)]
    {
      assert PortRecsOf(f)[k].data == f.ports[f.order[k]].data && k in stored;
    }
  }

  lemma RecordsSame(f: StoredFabric)
    requires PortsOk(f) && OrderOk(f)
    ensures RecordEntries(PortRecsOf(f)) == StoredEntries(f)
    ensures LmcsFit(f) ==> LmcsOk(PortRecsOf(f))
  {
    assert forall k :: 0 <= k < |f.order| ==> PortRecsOf(f)[k].data == f.ports[f.order[k]].data;
  }

  lemma AllStored(f: StoredFabric)
    requires FabricOk(f) && AllInTable(f)
    ensures var st := FillNodes(ContentsOf(f), 0); st.Some? && forall k: nat :: k in st.value.stored <==> k < |f.order|
  {
    FillNodesOk(f, 0);
    var st := FillNodes(ContentsOf(f), 0).value;
    forall k: nat | k < |f.order|
      ensures k in st.stored
    {
      var p := f.order[k];
      assert p in st.slots && IndexOf(f.order, p) == k;
    }
  }

  lemma IndexedSame(f: StoredFabric, t: seq<seq<nat>>, lids: map<nat, nat>)
    requires FabricOk(f) && AllInTable(f) && Indexed(ContentsOf(f), t, lids)
    ensures PortsHashed(f, t)
    ensures LmcsFit(f) ==> lids == RegisterAll(StoredEntries(f))
  {
    var c := ContentsOf(f);
    AllStored(f);
    HashedSame(f, t, FillNodes(c, 0).value.stored);
    RecordsSame(f);
  }

  // ---------------------------------------------------------------------------
  // A port that is not in the table

  lemma {:induction false} HoldsKey(f: StoredFabric, i: nat, num: nat, n: nat)
    requires num < n && At(i, num) in f.ports
    ensures KeyOf(f.ports[At(i, num)].data) in StoredKeys(f, i, n)
    decreases n
  {
    if num < n - 1 { HoldsKey(f, i, num, n - 1); }
  }

  lemma {:induction false} FillPortsNeeds(ports: seq<PortRec>, i: nat, keys: seq<PortKey>, st: Filled, key: PortKey)
    requires key in keys && FindPort(ports, key).None?
    ensures FillPorts(ports, i, keys, st).None?
    decreases |keys|
  {
    if key in keys[..|keys| - 1] {
      FillPortsNeeds(ports, i, keys[..|keys| - 1], st, key);
    }
  }

  lemma {:induction false} FillNodesNeeds(c: Contents, n: nat, i: nat, key: PortKey)
    requires n <= i < |c.nodes| && key in c.nodes[i].keys && FindPort(c.ports, key).None?
    ensures FillNodes(c, n).None?
    decreases |c.nodes| - n
  {
    if n < i {
      FillNodesNeeds(c, n + 1, i, key);
    } else if FillNodes(c, n + 1).Some? {
      FillPortsNeeds(c.ports, n, c.nodes[n].keys, FillNodes(c, n + 1).value, key);
    }
  }

  lemma MissingPort(f: StoredFabric, p: PortRef)
    requires FabricOk(f) && p in f.ports && p !in f.order
    ensures Rebuild(ContentsOf(f)).None?
  {
    FindsPort(f, p);
    HoldsKey(f, p.node, p.num, Slots(f, p.node));
    FillNodesNeeds(ContentsOf(f), 0, p.node, KeyOf(f.ports[p].data));
  }

  lemma ContentsFitOf(f: StoredFabric)
    requires FabricOk(f) && FabricFits(f)
    ensures ContentsFit(ContentsOf(f))
  {
    var c := ContentsOf(f);
    forall r | r in c.nodes
      ensures NodeRecFits(r)
    {
      var i :| 0 <= i < |f.nodes| && r == NodeRecOf(f, i);
      KeysFit(f, i, Slots(f, i));
    }
    forall r | r in c.ports
      ensures PortRecFits(r)
    {
      var k :| 0 <= k < |f.order| && r == PortRecOf(f, f.order[k]);
    }
  }

  lemma {:induction false} KeysFit(f: StoredFabric, i: nat, n: nat)
    requires FabricFits(f)
    ensures forall k :: k in StoredKeys(f, i, n) ==> KeyFits(k)
    decreases n
  {
    if n > 0 { KeysFit(f, i, n - 1); }
  }

  // The cache round trip.  Loading the bytes that were cached gives back the same graph
  // when every attached port is in the port table, and fails when one is not.
  lemma CacheRoundTrip(f: StoredFabric)
    requires FabricOk(f) && FabricFits(f) && CountsFit(f)
    ensures ParseFile(FileBytes(ContentsOf(f))) == Some(ContentsOf(f))
    ensures AllInTable(f) ==> Load(FileBytes(ContentsOf(f))) == Some(SameGraph(f))
    ensures !AllInTable(f) ==> Load(FileBytes(ContentsOf(f))) == None
  {
    var c := ContentsOf(f);
    ContentsFitOf(f);
    forall r | r in c.nodes
      ensures |r.keys| < 256
    {
      var i :| 0 <= i < |f.nodes| && r == NodeRecOf(f, i);
    }
    FileReads(c);
    if AllInTable(f) {
      RebuildsSame(f);
    } else {
      var p: PortRef :| p in f.ports && p !in f.order;
      MissingPort(f, p);
    }
  }
}
