// The fabric scan of libibnetdisc/src/ibnetdisc.c as the source runs it: callbacks that
// update the fabric in place and issue SMPs through the engine.
module Scanner {
  import opened Wrappers
  import opened Fabric
  import opened Tables
  import opened Binary
  import SmpEngine
  import opened SmpWire

  // f_internal_t together with the scan context.  Nodes and ports are named as in
  // module Fabric.
  class FabricScan {
    const engine: Wire<Req>
    const cfg: Config

    var nodes: seq<Node>
    var ports: map<PortRef, Port>
    var from: Option<PortRef>
    var maxhops: nat
    var tables: NodeTables
    var portstbl: seq<seq<PortRef>>
    var lids: map<nat, PortRef>
    ghost var entries: seq<PortEntry>

    function G(): Graph
      reads this
    {
      Graph(nodes, ports, from, maxhops)
    }

    // The graph is sound, the indexes hold its nodes, and the port table and the LID map
    // are the result of the entries so far.
    ghost predicate Valid()
      reads this
    {
      GraphOk(G()) && Agree(tables, nodes) && TableOf(portstbl, entries) && lids == RegisterAll(entries)
    }

    constructor (engine: Wire<Req>, cfg: Config)
      ensures Valid() && G() == EMPTY && this.engine == engine && this.cfg == cfg
      ensures entries == []
    {
      this.engine, this.cfg := engine, cfg;
      nodes, ports, from, maxhops := [], map[], None, 0;
      tables, portstbl, lids, entries := NO_NODES, NO_PORTS, map[], [];
    }

    // ibnd_find_node_guid
    method FindNodeGuid(guid: nat) returns (r: Option<nat>)
      requires Valid()
      ensures r == FindGuid(nodes, guid)
    {
      ChainLookup(nodes, guid);
      var chain := tables.table[Bucket(guid)];
      var k := 0;
      while k < |chain|
        invariant 0 <= k <= |chain| && forall j :: 0 <= j < k ==> nodes[chain[j]].info.guid != guid
      {
        if nodes[chain[k]].info.guid == guid {
          WalkFinds(nodes, chain, guid, k);
          return Some(chain[k]);
        }
        k := k + 1;
      }
      WalkFinds(nodes, chain, guid, k);
      return None;
    }

    // create_node
    method CreateNode(route: Route, ni: NodeInfo) returns (i: nat)
      requires Valid() && FindGuid(nodes, ni.guid) == None
      modifies this`nodes, this`tables
      ensures Valid() && i == |old(nodes)| && nodes == old(nodes) + [Node(ni, route, 0, 0)]
      ensures old(LmcOk()) ==> LmcOk()
    {
      i := |nodes|;
      ghost var g := G();
      var n := Node(ni, route, 0, 0);
      CreatedOk(g, n);
      EnterTables(n);
      nodes := nodes + [n];
      assert G() == g.(nodes := nodes);
    }

    // add_to_nodeguid_hash, the list of all nodes and add_to_type_list
    method EnterTables(n: Node)
      requires Agree(tables, nodes)
      modifies this`tables
      ensures Agree(tables, nodes + [n])
    {
      EnterAgrees(tables, nodes, n);
      tables := Enter(tables, |nodes|, n.info);
    }

    // The partner of a port, if any, forgets it.
    method Unlink(p: PortRef)
      requires p in ports && (ports[p].remote.Some? ==> ports[p].remote.value in ports)
      modifies this`ports
      ensures ports.Keys == old(ports).Keys
      ensures forall q :: q in ports ==>
        ports[q] == if old(ports)[p].remote == Some(q) then old(ports)[q].(remote := None) else old(ports)[q]
    {
      if ports[p].remote.Some? {
        var partner := ports[p].remote.value;
        ports := ports[partner := ports[partner].(remote := None)];
      }
    }

    method UnlinkBoth(a: PortRef, b: PortRef)
      requires Involution(G()) && a in ports && b in ports
      modifies this`ports
      ensures ports.Keys == old(ports).Keys
      ensures forall q :: q in ports ==> ports[q] == old(ports)[q].(remote := ports[q].remote)
      ensures forall q :: q in ports && q != a && q != b ==> ports[q].remote == LinkedRemote(old(G()), a, b, q)
    {
      Unlink(a);
      Unlink(b);
    }

    // The assignments of link_ports
    method Relink(a: PortRef, b: PortRef)
      requires Involution(G()) && a in ports && b in ports
      modifies this`ports
      ensures ports == Fabric.LinkPorts(old(G()), a, b).ports
    {
      UnlinkBoth(a, b);
      ports := ports[a := ports[a].(remote := Some(b))];
      ports := ports[b := ports[b].(remote := Some(a))];
    }

    // link_ports
    method LinkPorts(a: PortRef, b: PortRef)
      requires Valid() && a in ports && b in ports
      modifies this`ports
      ensures Valid() && G() == Fabric.LinkPorts(old(G()), a, b)
    {
      JoinOk(G(), a, Some(b));
      Relink(a, b);
    }

    // add_to_portguid_hash; the walk stops at the port itself.
    method AddToPortGuidHash(p: PortRef) returns (rc: bool)
      requires p in ports && |portstbl| == HTSZ
      modifies this`portstbl
      ensures portstbl == EnterPortHash(old(portstbl), p, ports[p].guid)
      ensures rc <==> p !in old(portstbl)[Bucket(ports[p].guid)]
    {
      var h := Bucket(ports[p].guid);
      var k := 0;
      while k < |portstbl[h]|
        invariant 0 <= k <= |portstbl[h]| && p !in portstbl[h][..k]
      {
        if portstbl[h][k] == p {
          return false;
        }
        k := k + 1;
      }
      portstbl := portstbl[h := [p] + portstbl[h]];
      return true;
    }

    // add_to_portlid_hash: the 16-bit loop counter does not wrap, because unicast LIDs
    // end at 0xbfff and a port has at most 2^7 of them.
    method AddToPortLidHash(p: PortRef)
      requires p in ports && ports[p].lmc <= 7
      modifies this`lids
      ensures lids == Register(old(lids), EntryOf(G(), p))
    {
      var base, lmc := ports[p].baseLid, ports[p].lmc;
      if 0 < base <= MAX_UCAST_LID {
        var end := base + Pow2(lmc);
        Pow2Small(lmc);
        var lid := base;
        while lid <= end - 1
          invariant base <= lid <= end <= 0x1_0000 - 1
          invariant InsertLids(lids, lid, end, p) == Register(old(lids), EntryOf(G(), p))
        {
          lids := InsertLid(lids, lid, p);
          lid := (lid + 1) % 0x1_0000;
        }
        assert lid == end;
      }
    }

    // The two indexes over ports
    method EnterIndexes(p: PortRef)
      requires Valid() && p in ports && ports[p].lmc <= 7
      modifies this`portstbl, this`lids, this`entries
      ensures Valid() && entries == old(entries) + [EntryOf(G(), p)]
    {
      TableNext(portstbl, entries, EntryOf(G(), p));
      RegisterNext(entries, EntryOf(G(), p));
      var _ := AddToPortGuidHash(p);
      AddToPortLidHash(p);
      entries := entries + [EntryOf(G(), p)];
    }

    // issue_smp from a callback, whose result is ignored: `sent` are the SMPs that the
    // callback has issued before.
    method Issue(req: Req, ghost e: SmpEngine.Engine<Req>, ghost sent: seq<Req>)
      requires engine.Valid() && engine.Advanced(e, sent)
      modifies engine, engine.queue, engine.queue.Repr
      ensures engine.Valid() && forall c :: c in engine.queue.Repr ==> c in old(engine.queue.Repr) || fresh(c)
      ensures engine.Advanced(e, sent + [req])
    {
      assert (sent + [req])[..|sent|] == sent;
      var _ := engine.IssueSmp(req);
    }

    method IssueOne(req: Req)
      requires engine.Valid()
      modifies engine, engine.queue, engine.queue.Repr
      ensures engine.Valid() && forall c :: c in engine.queue.Repr ==> c in old(engine.queue.Repr) || fresh(c)
      ensures engine.Advanced(old(engine.State()), [req])
    {
      Issue(req, engine.State(), []);
      assert [] + [req] == [req];
    }

    // ibnd_find_node_guid and create_node
    method LocateNode(route: Route, ni: NodeInfo) returns (i: nat, isNew: bool)
      requires Valid()
      modifies this`nodes, this`tables
      ensures Valid() && i < |nodes| && isNew == (i == |old(nodes)|)
      ensures nodes[i].info.guid == ni.guid && (old(LmcOk()) ==> LmcOk())
      ensures (G(), i) == Locate(old(G()), route, ni)
    {
      var known := FindNodeGuid(ni.guid);
      isNew := known.None?;
      if isNew {
        i := CreateNode(route, ni);
      } else {
        i := known.value;
      }
    }

    // The port of a node that a NodeInfo reply is about, created if need be.
    method EnterShell(p: PortRef, guid: nat)
      requires Valid() && p.node < |nodes| && p.num <= nodes[p.node].info.numports
      modifies this`ports
      ensures Valid() && G() == EnterPort(old(G()), p, guid) && p in ports
    {
      ghost var g := G();
      EnterPortOk(g, p, guid);
      if p !in ports {
        ports := ports[p := Port(guid, p.num, NO_INFO, 0, 0, None)];
      }
      ports := ports[p := ports[p].(guid := guid)];
      assert ports == EnterPort(g, p, guid).ports;
      assert G() == EnterPort(g, p, guid);
    }

    // recv_node_info remembers the start node, and links any other to its parent port.
    method JoinPort(p: PortRef, parent: Option<PortRef>) returns (rc: bool)
      requires Valid() && p in ports && (parent.Some? ==> parent.value in ports)
      modifies this`ports, this`from
      ensures Valid() && rc && G() == Join(old(G()), p, parent) && nodes == old(nodes)
    {
      JoinOk(G(), p, parent);
      if parent.None? {
        from := Some(p);
      } else {
        if parent.value !in ports {
          return false;
        }
        LinkPorts(p, parent.value);
      }
      rc := true;
    }

    // The queries that recv_node_info issues.
    method QueryNode(kind: Kind, isNew: bool, route: Route, p: PortRef, ghost reqs: seq<Req>)
      requires engine.Valid() && reqs == NodeQueries(kind, isNew, route, p)
      modifies engine, engine.queue, engine.queue.Repr
      ensures engine.Valid() && forall c :: c in engine.queue.Repr ==> c in old(engine.queue.Repr) || fresh(c)
      ensures engine.Advanced(old(engine.State()), reqs)
    {
      ghost var e := engine.State();
      ghost var sent: seq<Req> := [];
      if isNew {
        Issue(NodeDescReq(route, p.node), e, sent);
        sent := sent + [NodeDescReq(route, p.node)];
        if kind == Switch {
          Issue(SwitchInfoReq(route, p.node), e, sent);
          sent := sent + [SwitchInfoReq(route, p.node)];
          Issue(PortInfoReq(route, p.node, 0), e, sent);
          sent := sent + [PortInfoReq(route, p.node, 0)];
        }
      }
      if kind != Switch {
        Issue(PortInfoReq(route, p.node, p.num), e, sent);
        sent := sent + [PortInfoReq(route, p.node, p.num)];
      }
      assert sent == reqs;
    }

    // recv_node_info up to the queries
    method EnterNode(route: Route, parent: Option<PortRef>, ni: NodeInfo)
      returns (p: PortRef, isNew: bool, rc: bool, ghost reqs: seq<Req>)
      requires Valid() && LmcOk() && HasRoom(G(), ni) && (parent.Some? ==> parent.value in ports)
      modifies this`nodes, this`tables, this`ports, this`from
      ensures Valid() && LmcOk() && rc && p.node < |nodes|
      ensures (G(), reqs, rc) == Fabric.RecvNodeInfo(old(G()), route, parent, ni)
      ensures reqs == NodeQueries(nodes[p.node].info.kind, isNew, route, p)
    {
      var i;
      RoomFound(G(), route, ni);
      i, isNew := LocateNode(route, ni);
      p := PortRef(i, ni.localPort);
      EnterShell(p, ni.portGuid);
      rc := JoinPort(p, parent);
      reqs := NodeQueries(nodes[p.node].info.kind, isNew, route, p);
    }

    // recv_node_info
    method RecvNodeInfo(route: Route, parent: Option<PortRef>, ni: NodeInfo) returns (rc: bool)
      requires Valid() && LmcOk() && engine.Valid()
      requires HasRoom(G(), ni) && (parent.Some? ==> parent.value in ports)
      modifies this`nodes, this`tables, this`ports, this`from, engine, engine.queue, engine.queue.Repr
      ensures Valid() && LmcOk() && engine.Valid() && forall c :: c in engine.queue.Repr ==> c in old(engine.queue.Repr) || fresh(c)
      ensures rc
      ensures var (g', reqs, ok) := Fabric.RecvNodeInfo(old(G()), route, parent, ni);
        G() == g' && engine.Advanced(old(engine.State()), reqs)
    {
      var p, isNew;
      ghost var reqs;
      p, isNew, rc, reqs := EnterNode(route, parent, ni);
      if rc {
        QueryNode(nodes[p.node].info.kind, isNew, route, p, reqs);
      }
    }

    // The tail shared by recv_port_info and the extended port info callbacks.
    method GoOn(route: Route, p: PortRef)
      requires Valid() && engine.Valid() && p in ports
      modifies this`maxhops, engine, engine.queue, engine.queue.Repr
      ensures Valid() && engine.Valid() && forall c :: c in engine.queue.Repr ==> c in old(engine.queue.Repr) || fresh(c)
      ensures G() == Fabric.GoOn(old(G()), cfg, route, p).0
      ensures engine.Advanced(old(engine.State()), Fabric.GoOn(old(G()), cfg, route, p).1)
    {
      if Explores(G(), p) {
        var hops, next := NextRoute(G(), cfg, route, p).0, NextRoute(G(), cfg, route, p).1;
        maxhops := hops;
        if next.Some? {
          IssueOne(NodeInfoReq(next.value, Some(p)));
        }
      }
    }

    // Ports have at most 2^7 LIDs: the LMC field is three bits wide.
    ghost predicate LmcOk()
      reads this`nodes
    {
      forall i :: 0 <= i < |nodes| ==> nodes[i].smalmc <= 7
    }

    // The stores of recv_port_info
    method StoreFields(p: PortRef, pi: PortInfo)
      requires Valid() && p.node < |nodes| && p.num <= nodes[p.node].info.numports
      modifies this`nodes, this`ports
      ensures Valid() && p in ports && G() == StorePortInfo(old(G()), p, pi)
    {
      ghost var g := G();
      StorePortInfoOk(g, p, pi);
      var n := nodes[p.node];
      var port := if p in ports then ports[p] else Port(n.info.portGuid, p.num, NO_INFO, 0, 0, None);
      port := port.(info := pi, baseLid := pi.lid, lmc := pi.lmc);
      if p.num == 0 {
        n := n.(smalid := pi.lid, smalmc := pi.lmc);
      } else if n.info.kind == Switch {
        port := port.(baseLid := n.smalid, lmc := n.smalmc);
      }
      nodes := nodes[p.node := n];
      ports := ports[p := port];
      AgreeKept(tables, g.nodes, nodes);
    }

    // recv_port_info up to the next SMP: the stores, the port table and the LID map
    method StorePort(p: PortRef, pi: PortInfo)
      requires Valid() && LmcOk() && p.node < |nodes| && p.num <= nodes[p.node].info.numports && pi.lmc <= 7
      modifies this`nodes, this`ports, this`portstbl, this`lids, this`entries
      ensures Valid() && LmcOk() && p in ports && G() == StorePortInfo(old(G()), p, pi)
      ensures entries == old(entries) + [EntryOf(G(), p)]
    {
      StoreFields(p, pi);
      EnterIndexes(p);
    }

    // recv_port_info from the test for extended port information on
    method FollowPort(route: Route, p: PortRef, pi: PortInfo)
      requires Valid() && engine.Valid() && p in ports
      modifies this`maxhops, engine, engine.queue, engine.queue.Repr
      ensures Valid() && engine.Valid() && forall c :: c in engine.queue.Repr ==> c in old(engine.queue.Repr) || fresh(c)
      ensures G() == AfterStore(old(G()), cfg, route, p, pi).0
      ensures engine.Advanced(old(engine.State()), AfterStore(old(G()), cfg, route, p, pi).1)
    {
      if cfg.mlxEpi && nodes[p.node].info.extCapable && pi.linkUp && pi.qdr {
        IssueOne(ExtPortInfoReq(route, p.node, p.num));
      } else {
        GoOn(route, p);
      }
    }

    // recv_port_info
    method RecvPortInfo(route: Route, p: PortRef, pi: PortInfo)
      requires Valid() && LmcOk() && engine.Valid()
      requires p.node < |nodes| && p.num <= nodes[p.node].info.numports && pi.lmc <= 7
      modifies this`nodes, this`ports, this`portstbl, this`lids, this`entries, this`maxhops, engine, engine.queue, engine.queue.Repr
      ensures Valid() && LmcOk() && engine.Valid() && forall c :: c in engine.queue.Repr ==> c in old(engine.queue.Repr) || fresh(c)
      ensures G() == PortReply(old(G()), cfg, route, p, pi).0
      ensures p in ports && entries == old(entries) + [EntryOf(G(), p)]
      ensures engine.Advanced(old(engine.State()), PortReply(old(G()), cfg, route, p, pi).1)
    {
      StorePort(p, pi);
      FollowPort(route, p, pi);
    }

    // The SMPs sent after k - 1 turns of the loop of recv_port0_info.
    static ghost function SentTo(sent: seq<Req>, queries: seq<Req>, k: nat): seq<Req>
      requires 1 <= k <= |queries| + 1
    {
      sent + queries[..k - 1]
    }

    static lemma SentToNext(sent: seq<Req>, queries: seq<Req>, k: nat)
      requires 1 <= k <= |queries|
      ensures SentTo(sent, queries, k + 1) == SentTo(sent, queries, k) + [queries[k - 1]]
    {
    }

    static lemma SentToEnds(sent: seq<Req>, queries: seq<Req>)
      ensures SentTo(sent, queries, 1) == sent && SentTo(sent, queries, |queries| + 1) == sent + queries
    {
    }

    // The loop of recv_port0_info over the other ports of a switch.
    method QueryPorts(route: Route, i: nat, numports: nat, ghost e: SmpEngine.Engine<Req>, ghost sent: seq<Req>, ghost queries: seq<Req>)
      requires |queries| == numports && forall k :: 0 <= k < numports ==> queries[k] == PortInfoReq(route, i, k + 1)
      requires engine.Valid() && engine.Advanced(e, sent)
      modifies engine, engine.queue, engine.queue.Repr
      ensures engine.Valid() && forall c :: c in engine.queue.Repr ==> c in old(engine.queue.Repr) || fresh(c)
      ensures engine.Advanced(e, sent + queries)
    {
      var k := 1;
      SentToEnds(sent, queries);
      while k <= numports
        invariant 1 <= k <= numports + 1
        invariant engine.Valid() && forall c :: c in engine.queue.Repr ==> c in old(engine.queue.Repr) || fresh(c)
        invariant engine.Advanced(e, SentTo(sent, queries, k))
      {
        SentToNext(sent, queries, k);
        Issue(PortInfoReq(route, i, k), e, SentTo(sent, queries, k));
        k := k + 1;
      }
    }

    // recv_port0_info: what a reply to the query for port 0 says, then queries for all
    // other ports
    method RecvPort0Info(route: Route, p: PortRef, pi: PortInfo)
      requires Valid() && LmcOk() && engine.Valid()
      requires p.node < |nodes| && p.num <= nodes[p.node].info.numports && pi.lmc <= 7
      modifies this`nodes, this`ports, this`portstbl, this`lids, this`entries, this`maxhops, engine, engine.queue, engine.queue.Repr
      ensures Valid() && LmcOk() && engine.Valid() && forall c :: c in engine.queue.Repr ==> c in old(engine.queue.Repr) || fresh(c)
      ensures G() == RecvPortReply(old(G()), cfg, route, p.node, 0, p.num, pi).0
      ensures p in ports && entries == old(entries) + [EntryOf(G(), p)]
      ensures engine.Advanced(old(engine.State()), RecvPortReply(old(G()), cfg, route, p.node, 0, p.num, pi).1)
    {
      ghost var e := engine.State();
      ghost var first := PortReply(G(), cfg, route, p, pi).1;
      RecvPortReplyOk(G(), cfg, route, p.node, 0, p.num, pi);
      RecvPortInfo(route, p, pi);
      QueryPorts(route, p.node, nodes[p.node].info.numports, e, first, PortQueries(route, p.node, nodes[p.node].info.numports));
    }

    // recv_port_info or, if port 0 was asked for, recv_port0_info
    method AnswerPort(route: Route, asked: nat, p: PortRef, pi: PortInfo)
      requires Valid() && LmcOk() && engine.Valid()
      requires p.node < |nodes| && p.num <= nodes[p.node].info.numports && pi.lmc <= 7
      modifies this`nodes, this`ports, this`portstbl, this`lids, this`entries, this`maxhops, engine, engine.queue, engine.queue.Repr
      ensures Valid() && LmcOk() && engine.Valid() && forall c :: c in engine.queue.Repr ==> c in old(engine.queue.Repr) || fresh(c)
      ensures G() == RecvPortReply(old(G()), cfg, route, p.node, asked, p.num, pi).0
      ensures p in ports && entries == old(entries) + [EntryOf(G(), p)]
      ensures engine.Advanced(old(engine.State()), RecvPortReply(old(G()), cfg, route, p.node, asked, p.num, pi).1)
    {
      if asked == 0 {
        RecvPort0Info(route, p, pi);
      } else {
        RecvPortInfo(route, p, pi);
        assert PortReply(old(G()), cfg, route, p, pi).1 + [] == PortReply(old(G()), cfg, route, p, pi).1;
      }
    }

    // recv_mlnx_ext_port_info and mlnx_ext_port_info_err
    method RecvExtPortInfo(route: Route, p: PortRef) returns (rc: bool)
      requires Valid() && engine.Valid() && p.node < |nodes|
      modifies this`maxhops, engine, engine.queue, engine.queue.Repr
      ensures Valid() && engine.Valid() && forall c :: c in engine.queue.Repr ==> c in old(engine.queue.Repr) || fresh(c)
      ensures rc <==> p in ports
      ensures G() == Fabric.RecvExtPortInfo(old(G()), cfg, route, p).0
      ensures engine.Advanced(old(engine.State()), Fabric.RecvExtPortInfo(old(G()), cfg, route, p).1)
    {
      rc := p in ports;
      if rc {
        GoOn(route, p);
      }
    }

    // The callback of an SMP: what process_one_recv calls once the reply is in.
    method Callback(req: Req, reply: Reply) returns (rc: bool)
      requires Valid() && LmcOk() && engine.Valid()
      requires ReqOk(G(), req) && ReplyOk(G(), req, reply) && (reply.PortInfoReply? ==> reply.pi.lmc <= 7)
      modifies this, engine, engine.queue, engine.queue.Repr
      ensures Valid() && LmcOk() && engine.Valid() && forall c :: c in engine.queue.Repr ==> c in old(engine.queue.Repr) || fresh(c)
      ensures (rc <==> !NoSuchPort(old(G()), req, reply)) && G() == Handle(old(G()), cfg, req, reply).0
      ensures entries == old(entries) + EntriesOf(G(), req, reply)
      ensures engine.Advanced(old(engine.State()), Handle(old(G()), cfg, req, reply).1)
    {
      rc := true;
      match (req, reply)
      case (NodeInfoReq(route, parent), NodeInfoReply(ni)) =>
        rc := RecvNodeInfo(route, parent, ni);
      case (PortInfoReq(route, i, asked), PortInfoReply(num, pi)) =>
        AnswerPort(route, asked, PortRef(i, num), pi);
      case (ExtPortInfoReq(route, i, _), _) =>
        rc := RecvExtPortInfo(route, PortRef(i, reply.Modifier()));
      case (_, _) =>
    }

    // process_one_recv for a reply with transaction id t: an unknown id and an error in
    // the refill end the scan, otherwise the callback runs.
    method ProcessOneRecv(t: nat, reply: Reply) returns (rc: bool)
      requires Valid() && LmcOk() && engine.Valid()
      requires t in engine.State().wire ==> ReqOk(G(), engine.State().wire[t]) && ReplyOk(G(), engine.State().wire[t], reply)
      requires (reply.PortInfoReply? ==> reply.pi.lmc <= 7)
      modifies this, engine, engine.queue, engine.queue.Repr
      ensures Valid() && LmcOk() && engine.Valid() && forall c :: c in engine.queue.Repr ==> c in old(engine.queue.Repr) || fresh(c)
      ensures t !in old(engine.State()).wire ==> !rc && G() == old(G()) && engine.State() == old(engine.State())
      ensures t in old(engine.State()).wire ==>
        var req := old(engine.State()).wire[t];
        var (e, filled) := SmpEngine.Receive(old(engine.State()), t, engine.maxSmps, engine.sendOk);
        && (rc <==> filled && !NoSuchPort(old(G()), req, reply))
        && G() == (if filled then Handle(old(G()), cfg, req, reply).0 else old(G()))
        && (filled ==> entries == old(entries) + EntriesOf(G(), req, reply))
        && engine.State() == if filled
             then SmpEngine.IssueAll(e, Handle(old(G()), cfg, req, reply).1, engine.maxSmps, engine.sendOk) else e
    {
      var smp;
      smp, rc := engine.Receive(t);
      if smp == null || !rc {
        return false;
      }
      rc := Callback(smp.req, reply);
    }
  }
}
