// The indexes over the nodes and ports of a fabric: the list of all nodes, the type
// lists, the two hash tables and the LID map of libibnetdisc/src/ibnetdisc.c.  A chain
// is the sequence of its members from the head of the chain on.
module Tables {
  import opened Wrappers
  import opened Fabric
  import opened Binary

  const HTSZ := 137

  const WORD := 0x1_0000_0000

  // HASHGUID, on 32-bit words
  function HashGuid(guid: nat): nat {
    Xor(guid % WORD * 101 % WORD, guid / WORD % WORD * 103 % WORD)
  }

  function Bucket(guid: nat): (h: nat)
    ensures h < HTSZ
  {
    HashGuid(guid) % HTSZ
  }

  // ---------------------------------------------------------------------------
  // Nodes

  datatype NodeTables = NodeTables(all: seq<nat>, table: seq<seq<nat>>, switches: seq<nat>, adapters: seq<nat>, routers: seq<nat>)

  const NO_NODES := NodeTables([], seq(HTSZ, h => []), [], [], [])

  // The part of create_node that enters node i into the indexes: add_to_nodeguid_hash,
  // the list of all nodes, add_to_type_list.
  function Enter(t: NodeTables, i: nat, ni: NodeInfo): NodeTables
    requires |t.table| == HTSZ
  {
    var h := Bucket(ni.guid);
    var t1 := t.(table := t.table[h := [i] + t.table[h]], all := [i] + t.all);
    match ni.kind
    case CA => t1.(adapters := [i] + t.adapters)
    case Switch => t1.(switches := [i] + t.switches)
    case Router => t1.(routers := [i] + t.routers)
    case Other => t1
  }

  // All nodes, the nodes of one bucket, and the nodes of one kind, newest first.
  function AllOf(nodes: seq<Node>): seq<nat> {
    if nodes == [] then [] else [|nodes| - 1] + AllOf(nodes[..|nodes| - 1])
  }

  function InBucket(nodes: seq<Node>, h: nat): seq<nat> {
    if nodes == [] then []
    else
      var last := |nodes| - 1;
      (if Bucket(nodes[last].info.guid) == h then [last] else []) + InBucket(nodes[..last], h)
  }

  function OfKind(nodes: seq<Node>, kind: Kind): seq<nat> {
    if nodes == [] then []
    else
      var last := |nodes| - 1;
      (if nodes[last].info.kind == kind then [last] else []) + OfKind(nodes[..last], kind)
  }

  // The indexes hold the same nodes.
  ghost predicate Agree(t: NodeTables, nodes: seq<Node>) {
    && t.all == AllOf(nodes)
    && |t.table| == HTSZ && (forall h :: 0 <= h < HTSZ ==> t.table[h] == InBucket(nodes, h))
    && t.adapters == OfKind(nodes, CA) && t.switches == OfKind(nodes, Switch) && t.routers == OfKind(nodes, Router)
  }

  lemma EnterAgrees(t: NodeTables, nodes: seq<Node>, n: Node)
    requires Agree(t, nodes)
    ensures Agree(Enter(t, |nodes|, n.info), nodes + [n])
  {
    var nodes' := nodes + [n];
    assert nodes'[..|nodes|] == nodes;
  }

  // Only the identity of the nodes matters to the indexes.
  lemma {:induction false} AgreeKept(t: NodeTables, nodes: seq<Node>, nodes': seq<Node>)
    requires Agree(t, nodes) && |nodes'| == |nodes|
    requires forall i :: 0 <= i < |nodes| ==> nodes'[i].info == nodes[i].info
    ensures Agree(t, nodes')
  {
    SameLists(nodes, nodes');
  }

  lemma {:induction false} SameLists(nodes: seq<Node>, nodes': seq<Node>)
    requires |nodes'| == |nodes| && forall i :: 0 <= i < |nodes| ==> nodes'[i].info == nodes[i].info
    ensures AllOf(nodes') == AllOf(nodes)
    ensures forall h :: InBucket(nodes', h) == InBucket(nodes, h)
    ensures forall k :: OfKind(nodes', k) == OfKind(nodes, k)
  {
    if nodes != [] { SameLists(nodes[..|nodes| - 1], nodes'[..|nodes| - 1]); }
  }

  // ibnd_find_node_guid on one chain
  function FindInChain(nodes: seq<Node>, chain: seq<nat>, guid: nat): Option<nat>
    requires forall k :: 0 <= k < |chain| ==> chain[k] < |nodes|
  {
    if chain == [] then None
    else if nodes[chain[0]].info.guid == guid then Some(chain[0])
    else FindInChain(nodes, chain[1..], guid)
  }

  // What a walk down a chain finds: the member at which it stops, or nothing.
  lemma {:induction false} WalkFinds(nodes: seq<Node>, chain: seq<nat>, guid: nat, k: nat)
    requires k <= |chain| && forall j :: 0 <= j < |chain| ==> chain[j] < |nodes|
    requires forall j :: 0 <= j < k ==> nodes[chain[j]].info.guid != guid
    requires k < |chain| ==> nodes[chain[k]].info.guid == guid
    ensures FindInChain(nodes, chain, guid) == if k < |chain| then Some(chain[k]) else None
    decreases k
  {
    if k > 0 { WalkFinds(nodes, chain[1..], guid, k - 1); }
  }

  // A list without repetition, newest first.
  predicate Descending(s: seq<nat>) {
    forall a, b :: 0 <= a < b < |s| ==> s[a] > s[b]
  }

  lemma {:induction false} ChainMembers(nodes: seq<Node>, h: nat)
    ensures Descending(InBucket(nodes, h))
    ensures forall k :: 0 <= k < |InBucket(nodes, h)| ==>
      InBucket(nodes, h)[k] < |nodes| && Bucket(nodes[InBucket(nodes, h)[k]].info.guid) == h
    ensures forall i :: 0 <= i < |nodes| && Bucket(nodes[i].info.guid) == h ==> i in InBucket(nodes, h)
  {
    if nodes != [] {
      var last := |nodes| - 1;
      ChainMembers(nodes[..last], h);
      var rest := InBucket(nodes[..last], h);
      assert InBucket(nodes, h) == (if Bucket(nodes[last].info.guid) == h then [last] else []) + rest;
    }
  }

  // Each CA, switch and router is on the list of its kind, once, and on no other.
  lemma {:induction false} KindMembers(nodes: seq<Node>, kind: Kind)
    ensures Descending(OfKind(nodes, kind))
    ensures forall k :: 0 <= k < |OfKind(nodes, kind)| ==>
      OfKind(nodes, kind)[k] < |nodes| && nodes[OfKind(nodes, kind)[k]].info.kind == kind
    ensures forall i :: 0 <= i < |nodes| && nodes[i].info.kind == kind ==> i in OfKind(nodes, kind)
  {
    if nodes != [] {
      var last := |nodes| - 1;
      KindMembers(nodes[..last], kind);
      var rest := OfKind(nodes[..last], kind);
      assert OfKind(nodes, kind) == (if nodes[last].info.kind == kind then [last] else []) + rest;
    }
  }

  // Searching the chain of a GUID finds what a scan of the list of all nodes finds.
  lemma {:induction false} ChainLookup(nodes: seq<Node>, guid: nat)
    ensures forall k :: 0 <= k < |InBucket(nodes, Bucket(guid))| ==> InBucket(nodes, Bucket(guid))[k] < |nodes|
    ensures FindInChain(nodes, InBucket(nodes, Bucket(guid)), guid) == FindGuid(nodes, guid)
  {
    var h := Bucket(guid);
    ChainMembers(nodes, h);
    if nodes != [] {
      var last := |nodes| - 1;
      var rest := InBucket(nodes[..last], h);
      ChainLookup(nodes[..last], guid);
      ChainOfPrefix(nodes, rest, guid);
      if Bucket(nodes[last].info.guid) == h {
        assert InBucket(nodes, h) == [last] + rest;
        assert InBucket(nodes, h)[1..] == rest;
      } else {
        assert InBucket(nodes, h) == rest;
      }
    }
  }

  lemma {:induction false} ChainOfPrefix(nodes: seq<Node>, chain: seq<nat>, guid: nat)
    requires nodes != [] && forall k :: 0 <= k < |chain| ==> chain[k] < |nodes| - 1
    ensures FindInChain(nodes, chain, guid) == FindInChain(nodes[..|nodes| - 1], chain, guid)
    decreases |chain|
  {
    if chain != [] { ChainOfPrefix(nodes, chain[1..], guid); }
  }

  // ---------------------------------------------------------------------------
  // LIDs

  const MAX_UCAST_LID := 0xbfff

  // A port that was entered into the indexes, with its GUID and the LIDs base, ...,
  // base + 2^lmc - 1
  datatype IndexEntry<T> = PortEntry(port: T, guid: nat, base: nat, lmc: nat)

  // The ports that recv_port_info enters
  type PortEntry = IndexEntry<PortRef>

  lemma Pow2Small(n: nat)
    requires n <= 7
    ensures 1 <= Pow2(n) <= 128
  {
    assert Pow2(1) == 2 && Pow2(2) == 4 && Pow2(3) == 8 && Pow2(4) == 16;
    assert Pow2(5) == 32 && Pow2(6) == 64 && Pow2(7) == 128;
  }

  predicate Covers<T>(r: IndexEntry<T>, lid: nat) {
    0 < r.base <= MAX_UCAST_LID && r.base <= lid < r.base + Pow2(r.lmc)
  }

  // cl_qmap_insert does nothing when the key is taken.
  function InsertLid<T>(m: map<nat, T>, lid: nat, port: T): map<nat, T> {
    if lid in m then m else m[lid := port]
  }

  // The loop of add_to_portlid_hash over the LIDs from `lid` up to `end`.
  function InsertLids<T>(m: map<nat, T>, lid: nat, end: nat, port: T): map<nat, T>
    decreases end - lid
  {
    if lid < end then InsertLids(InsertLid(m, lid, port), lid + 1, end, port) else m
  }

  // add_to_portlid_hash
  function Register<T>(m: map<nat, T>, r: IndexEntry<T>): map<nat, T> {
    if 0 < r.base <= MAX_UCAST_LID then InsertLids(m, r.base, r.base + Pow2(r.lmc), r.port) else m
  }

  function RegisterAll<T>(rs: seq<IndexEntry<T>>): map<nat, T> {
    if rs == [] then map[] else Register(RegisterAll(rs[..|rs| - 1]), rs[|rs| - 1])
  }

  lemma RegisterNext<T>(rs: seq<IndexEntry<T>>, r: IndexEntry<T>)
    ensures RegisterAll(rs + [r]) == Register(RegisterAll(rs), r)
  {
    assert (rs + [r])[..|rs|] == rs;
  }

  // The first registered port that covers a LID.
  function FirstCover<T>(rs: seq<IndexEntry<T>>, lid: nat): Option<T> {
    if rs == [] then None
    else if Covers(rs[0], lid) then Some(rs[0].port)
    else FirstCover(rs[1..], lid)
  }

  lemma {:induction false} InsertLidsAt<T>(m: map<nat, T>, lid: nat, end: nat, port: T, x: nat)
    ensures x in InsertLids(m, lid, end, port) <==> x in m || lid <= x < end
    ensures x in InsertLids(m, lid, end, port) ==> InsertLids(m, lid, end, port)[x] == if x in m then m[x] else port
    decreases end - lid
  {
    if lid < end { InsertLidsAt(InsertLid(m, lid, port), lid + 1, end, port, x); }
  }

  lemma {:induction false} FirstCoverCovers<T>(rs: seq<IndexEntry<T>>, lid: nat)
    ensures match FirstCover(rs, lid)
      case Some(p) => exists r :: r in rs && r.port == p && Covers(r, lid)
      case None => forall r :: r in rs ==> !Covers(r, lid)
    decreases |rs|
  {
    if rs != [] && !Covers(rs[0], lid) {
      FirstCoverCovers(rs[1..], lid);
    }
  }

  lemma {:induction false} FirstCoverSnoc<T>(rs: seq<IndexEntry<T>>, r: IndexEntry<T>, lid: nat)
    ensures FirstCover(rs + [r], lid) ==
      if FirstCover(rs, lid).Some? then FirstCover(rs, lid) else if Covers(r, lid) then Some(r.port) else None
    decreases |rs|
  {
    if rs == [] {
      assert (rs + [r])[1..] == [];
    } else {
      assert (rs + [r])[1..] == rs[1..] + [r];
      FirstCoverSnoc(rs[1..], r, lid);
    }
  }

  // After any registrations a LID maps to the first registered port that covers it.
  lemma {:induction false} LidMapsToFirst<T>(rs: seq<IndexEntry<T>>, lid: nat)
    ensures FirstCover(rs, lid) == if lid in RegisterAll(rs) then Some(RegisterAll(rs)[lid]) else None
    decreases |rs|
  {
    if rs != [] {
      var last := |rs| - 1;
      var m := RegisterAll(rs[..last]);
      LidMapsToFirst(rs[..last], lid);
      FirstCoverSnoc(rs[..last], rs[last], lid);
      assert rs[..last] + [rs[last]] == rs;
      InsertLidsAt(m, rs[last].base, rs[last].base + Pow2(rs[last].lmc), rs[last].port, lid);
    }
  }

  // ---------------------------------------------------------------------------
  // Port table

  const NO_PORTS: seq<seq<PortRef>> := seq(HTSZ, h => [])

  // A port goes in front of its chain unless it is on it.
  function EnterChain<T(==)>(t: seq<seq<T>>, port: T, h: nat): seq<seq<T>>
    requires h < |t|
  {
    if port in t[h] then t else t[h := [port] + t[h]]
  }

  // add_to_portguid_hash, for a port that may be in the table already.
  function EnterPortHash(t: seq<seq<PortRef>>, p: PortRef, guid: nat): seq<seq<PortRef>>
    requires |t| == HTSZ
  {
    EnterChain(t, p, Bucket(guid))
  }

  // Chain h of the port table after any entries
  function ChainOf(rs: seq<PortEntry>, h: nat): seq<PortRef> {
    if rs == [] then []
    else
      var front, r := ChainOf(rs[..|rs| - 1], h), rs[|rs| - 1];
      if Bucket(r.guid) == h && r.port !in front then [r.port] + front else front
  }

  ghost predicate TableOf(t: seq<seq<PortRef>>, rs: seq<PortEntry>) {
    |t| == HTSZ && forall h :: 0 <= h < HTSZ ==> t[h] == ChainOf(rs, h)
  }

  lemma TableNext(t: seq<seq<PortRef>>, rs: seq<PortEntry>, r: PortEntry)
    requires TableOf(t, rs)
    ensures TableOf(EnterPortHash(t, r.port, r.guid), rs + [r])
  {
    assert (rs + [r])[..|rs|] == rs;
  }

  // What the end of recv_port_info enters for port p
  function EntryOf(g: Graph, p: PortRef): PortEntry
    requires p in g.ports
  {
    PortEntry(p, g.ports[p].guid, g.ports[p].baseLid, g.ports[p].lmc)
  }

  // What the callback of a request enters, g being the graph after it
  function EntriesOf(g: Graph, req: Req, reply: Reply): seq<PortEntry> {
    if req.PortInfoReq? && reply.PortInfoReply? && PortRef(req.node, reply.num) in g.ports
    then [EntryOf(g, PortRef(req.node, reply.num))] else []
  }

  // Every member of a chain hashes to that chain, and is in it once.
  ghost predicate PortsFiled(t: seq<seq<PortRef>>, ports: map<PortRef, Port>) {
    && |t| == HTSZ
    && (forall h, p :: 0 <= h < HTSZ && p in t[h] ==> p in ports && Bucket(ports[p].guid) == h)
    && (forall h, a, b :: 0 <= h < HTSZ && 0 <= a < b < |t[h]| ==> t[h][a] != t[h][b])
  }

  // A chain holds the ports that were entered with a GUID of its bucket, each once.
  lemma {:induction false} ChainHolds(rs: seq<PortEntry>, h: nat, p: PortRef)
    ensures p in ChainOf(rs, h) <==> exists r :: r in rs && r.port == p && Bucket(r.guid) == h
    ensures forall a, b :: 0 <= a < b < |ChainOf(rs, h)| ==> ChainOf(rs, h)[a] != ChainOf(rs, h)[b]
    decreases |rs|
  {
    if rs != [] {
      var front, last := rs[..|rs| - 1], rs[|rs| - 1];
      ChainHolds(front, h, p);
      assert rs == front + [last];
      var chain := ChainOf(front, h);
      assert ChainOf(rs, h) == if Bucket(last.guid) == h && last.port !in chain then [last.port] + chain else chain;
    }
  }

  // The table is in order as long as the GUIDs of its ports are those they were entered
  // with.
  lemma FiledOf(t: seq<seq<PortRef>>, rs: seq<PortEntry>, ports: map<PortRef, Port>)
    requires TableOf(t, rs)
    requires forall r :: r in rs ==> r.port in ports && ports[r.port].guid == r.guid
    ensures PortsFiled(t, ports)
  {
    forall h, p | 0 <= h < HTSZ && p in t[h]
      ensures p in ports && Bucket(ports[p].guid) == h
    {
      ChainHolds(rs, h, p);
    }
    forall h, a, b | 0 <= h < HTSZ && 0 <= a < b < |t[h]|
      ensures t[h][a] != t[h][b]
    {
      ChainHolds(rs, h, t[h][a]);
    }
  }

  // ibnd_find_port_guid on one chain
  function FindPortIn(ports: map<PortRef, Port>, chain: seq<PortRef>, guid: nat): Option<PortRef>
    requires forall p :: p in chain ==> p in ports
  {
    if chain == [] then None
    else if ports[chain[0]].guid == guid then Some(chain[0])
    else FindPortIn(ports, chain[1..], guid)
  }

  lemma {:induction false} FindPortInChain(ports: map<PortRef, Port>, chain: seq<PortRef>, guid: nat)
    requires forall p :: p in chain ==> p in ports
    ensures match FindPortIn(ports, chain, guid)
      case Some(p) => p in chain && ports[p].guid == guid
      case None => forall p :: p in chain ==> ports[p].guid != guid
    decreases |chain|
  {
    if chain != [] && ports[chain[0]].guid != guid { FindPortInChain(ports, chain[1..], guid); }
  }

  // A GUID is found exactly when a port with that GUID was entered.
  lemma PortLookup(t: seq<seq<PortRef>>, ports: map<PortRef, Port>, guid: nat)
    requires PortsFiled(t, ports)
    ensures FindPortIn(ports, t[Bucket(guid)], guid).Some? <==>
      exists h, p :: 0 <= h < HTSZ && p in t[h] && ports[p].guid == guid
  {
    FindPortInChain(ports, t[Bucket(guid)], guid);
  }
}
