// The fabric graph that libibnetdisc/src/ibnetdisc.c grows, and its response
// callbacks, as functions on values.  Nodes and ports are heap objects of the
// source: a node is named by its allocation index, a port by its node and its slot
// in the ports array of that node; a slot is NULL when it is not a key of `ports`.
module Wrappers {
  datatype Option<+T> = None | Some(value: T)
}

module Fabric {
  import opened Wrappers

  // IB_SUBNET_PATH_HOPS_MAX, the size of ib_dr_path_t.p
  const HOPS_MAX := 64

  // The route of an ib_dr_path_t: p[1], ..., p[cnt].
  type Route = seq<nat>

  datatype Kind = CA | Switch | Router | Other

  // The parts of a NodeInfo reply that the callbacks read; extCapable stands for
  // is_mlnx_ext_port_info_supported.
  datatype NodeInfo = NodeInfo(guid: nat, kind: Kind, numports: nat, portGuid: nat, localPort: nat, extCapable: bool)

  // The parts of a PortInfo reply; qdr is the test on the active speeds that
  // precedes the extended query.
  datatype PortInfo = PortInfo(linkUp: bool, localPort: nat, lid: nat, lmc: nat, qdr: bool)

  const NO_INFO := PortInfo(false, 0, 0, 0, false)

  datatype PortRef = PortRef(node: nat, num: nat)

  datatype Port = Port(guid: nat, portnum: nat, info: PortInfo, baseLid: nat, lmc: nat, remote: Option<PortRef>)

  datatype Node = Node(info: NodeInfo, route: Route, smalid: nat, smalmc: nat)

  datatype Graph = Graph(nodes: seq<Node>, ports: map<PortRef, Port>, from: Option<PortRef>, maxhops: nat)

  // maxHops and mlxEpi come from ibnd_config_t, initialHops from the start path.
  datatype Config = Config(maxHops: nat, mlxEpi: bool, initialHops: nat)

  // An SMP together with its callback and callback data.
  datatype Req =
    | NodeInfoReq(route: Route, parent: Option<PortRef>)
    | NodeDescReq(route: Route, node: nat)
    | SwitchInfoReq(route: Route, node: nat)
    | PortInfoReq(route: Route, node: nat, num: nat)
    | ExtPortInfoReq(route: Route, node: nat, num: nat)

  // A reply and, where a callback reads it, its attribute modifier: the number of a port
  datatype Reply =
    | NodeInfoReply(ni: NodeInfo)
    | PortInfoReply(num: nat, pi: PortInfo)
    | Data(num: nat)      // the payload of NodeDesc, SwitchInfo or extended PortInfo
    | Failed(num: nat)    // a bad umad or MAD status
  {
    function Modifier(): nat {
      if NodeInfoReply? then 0 else num
    }
  }

  const EMPTY := Graph([], map[], None, 0)

  // ---------------------------------------------------------------------------
  // Ports

  // The remoteport pointer of a port; None is NULL.
  function Remote(g: Graph, p: PortRef): Option<PortRef> {
    if p in g.ports then g.ports[p].remote else None
  }

  // remoteport pointers come in pairs.
  ghost predicate Involution(g: Graph) {
    forall p :: p in g.ports && g.ports[p].remote.Some? ==>
      g.ports[p].remote.value in g.ports && g.ports[g.ports[p].remote.value].remote == Some(p)
  }

  // The remoteport of q after linking a and b.
  function LinkedRemote(g: Graph, a: PortRef, b: PortRef, q: PortRef): Option<PortRef> {
    if q == b then Some(a)
    else if q == a then Some(b)
    else if Remote(g, a) == Some(q) || Remote(g, b) == Some(q) then None
    else Remote(g, q)
  }

  // What link_ports does, whatever the two ports were linked to: they become each
  // other's remote port, former partners are unlinked, and nothing else changes.
  function LinkPorts(g: Graph, a: PortRef, b: PortRef): Graph
    requires a in g.ports && b in g.ports
  {
    g.(ports := map q | q in g.ports :: g.ports[q].(remote := LinkedRemote(g, a, b, q)))
  }

  lemma LinkedRemotePaired(g: Graph, a: PortRef, b: PortRef, q: PortRef)
    requires a in g.ports && b in g.ports && Involution(g) && q in g.ports
    ensures var r := LinkedRemote(g, a, b, q);
      r.Some? ==> r.value in g.ports && LinkedRemote(g, a, b, r.value) == Some(q)
  {
  }

  lemma LinkPortsInvolution(g: Graph, a: PortRef, b: PortRef)
    requires a in g.ports && b in g.ports && Involution(g)
    ensures Involution(LinkPorts(g, a, b))
  {
    var g' := LinkPorts(g, a, b);
    forall q | q in g'.ports && g'.ports[q].remote.Some?
      ensures g'.ports[q].remote.value in g'.ports && g'.ports[g'.ports[q].remote.value].remote == Some(q)
    {
      LinkedRemotePaired(g, a, b, q);
    }
  }

  // ---------------------------------------------------------------------------
  // Routes

  // add_port_to_dpath
  function AddHop(route: Route, port: nat): Option<Route> {
    if |route| > HOPS_MAX - 2 then None else Some(route + [port])
  }

  // The test on max_hops that opens extend_dpath and retract_dpath.
  predicate HopsExceeded(g: Graph, cfg: Config) {
    cfg.maxHops != 0 && g.maxhops > cfg.maxHops
  }

  // retract_dpath: the new maxhops_discovered and the new route.
  function RetractRoute(g: Graph, cfg: Config, route: Route): (nat, Option<Route>)
    requires route != []
  {
    if HopsExceeded(g, cfg) then (g.maxhops, None)
    else (g.maxhops + 1, Some(route[..|route| - 1]))
  }

  // extend_dpath; the hop difference is computed on unsigned 32-bit integers.
  function ExtendRoute(g: Graph, cfg: Config, route: Route, port: nat): (nat, Option<Route>) {
    if HopsExceeded(g, cfg) then (g.maxhops, None)
    else match AddHop(route, port)
      case None => (g.maxhops, None)
      case Some(r) =>
        (if (|r| - cfg.initialHops) % 0x1_0000_0000 > g.maxhops then g.maxhops + 1 else g.maxhops, Some(r))
  }

  // ---------------------------------------------------------------------------
  // Callbacks

  // The node with a given GUID on the list of all nodes, newest first.
  function FindGuid(nodes: seq<Node>, guid: nat): (r: Option<nat>)
    ensures r.Some? ==> r.value < |nodes| && nodes[r.value].info.guid == guid
    ensures r.None? ==> forall i :: 0 <= i < |nodes| ==> nodes[i].info.guid != guid
  {
    if nodes == [] then None
    else if nodes[|nodes| - 1].info.guid == guid then Some(|nodes| - 1)
    else FindGuid(nodes[..|nodes| - 1], guid)
  }

  // The callback recv_port_info goes on through a port that is up: every port of a
  // switch except the one the SMP came in by, and the port the scan started from.
  predicate Explores(g: Graph, p: PortRef)
    requires p in g.ports && p.node < |g.nodes|
  {
    var info := g.ports[p].info;
    && p.num != 0 && info.linkUp
    && ((g.nodes[p.node].info.kind == Switch && p.num != info.localPort) || g.from == Some(p))
  }

  // The route on which the peer of port p is queried: from the start node, unless it
  // is a switch, back along a start path of several hops, otherwise on through p.
  function NextRoute(g: Graph, cfg: Config, route: Route, p: PortRef): (nat, Option<Route>)
    requires p in g.ports && p.node < |g.nodes|
  {
    if g.nodes[p.node].info.kind != Switch && g.from.Some? && g.from.value.node == p.node && |route| > 1
    then RetractRoute(g, cfg, route)
    else ExtendRoute(g, cfg, route, p.num)
  }

  // The tail shared by recv_port_info and the two extended port info callbacks.
  function GoOn(g: Graph, cfg: Config, route: Route, p: PortRef): (Graph, seq<Req>)
    requires p in g.ports && p.node < |g.nodes|
  {
    if !Explores(g, p) then (g, [])
    else
      var (maxhops, next) := NextRoute(g, cfg, route, p);
      (g.(maxhops := maxhops), if next.Some? then [NodeInfoReq(next.value, Some(p))] else [])
  }

  // ibnd_find_node_guid and, when it finds nothing, create_node.
  function Locate(g: Graph, route: Route, ni: NodeInfo): (Graph, nat)
  {
    match FindGuid(g.nodes, ni.guid)
    case Some(i) => (g, i)
    case None => (g.(nodes := g.nodes + [Node(ni, route, 0, 0)]), |g.nodes|)
  }

  // A port shell, if the slot is still empty, with the GUID just learnt.
  function EnterPort(g: Graph, p: PortRef, guid: nat): Graph {
    var port := if p in g.ports then g.ports[p] else Port(guid, p.num, NO_INFO, 0, 0, None);
    g.(ports := g.ports[p := port.(guid := guid)])
  }

  // The start node is remembered; any other is linked to the port it was reached from.
  function Join(g: Graph, p: PortRef, parent: Option<PortRef>): Graph
    requires p in g.ports && (parent.Some? ==> parent.value in g.ports)
  {
    if parent.None? then g.(from := Some(p)) else LinkPorts(g, p, parent.value)
  }

  // The queries that recv_node_info issues.
  function NodeQueries(kind: Kind, isNew: bool, route: Route, p: PortRef): seq<Req> {
    (if isNew then [NodeDescReq(route, p.node)] else [])
      + (if kind != Switch then [PortInfoReq(route, p.node, p.num)]
         else if isNew then [SwitchInfoReq(route, p.node), PortInfoReq(route, p.node, 0)] else [])
  }

  // recv_node_info; the flag is false when the callback returns -1.
  function RecvNodeInfo(g: Graph, route: Route, parent: Option<PortRef>, ni: NodeInfo): (Graph, seq<Req>, bool) {
    var (g1, i) := Locate(g, route, ni);
    var p := PortRef(i, ni.localPort);
    var g2 := EnterPort(g1, p, ni.portGuid);
    if parent.Some? && parent.value !in g2.ports then (g2, [], false)
    else (Join(g2, p, parent), NodeQueries(g1.nodes[i].info.kind, i == |g.nodes|, route, p), true)
  }

  // The stores of recv_port_info into the node: its LID and LMC are those of port 0.
  function StoredNode(n: Node, num: nat, pi: PortInfo): (n': Node)
    ensures n'.info == n.info && n'.route == n.route
  {
    if num == 0 then n.(smalid := pi.lid, smalmc := pi.lmc) else n
  }

  // The stores into the port; every other port of a switch gets the LID of port 0.
  function StoredPort(port: Port, n: Node, num: nat, pi: PortInfo): (port': Port)
    ensures port'.remote == port.remote && port'.portnum == port.portnum && port'.guid == port.guid && port'.info == pi
  {
    if num != 0 && n.info.kind == Switch then port.(info := pi, baseLid := n.smalid, lmc := n.smalmc)
    else port.(info := pi, baseLid := pi.lid, lmc := pi.lmc)
  }

  function StorePortInfo(g: Graph, p: PortRef, pi: PortInfo): Graph
    requires p.node < |g.nodes|
  {
    var n := g.nodes[p.node];
    var port := if p in g.ports then g.ports[p] else Port(n.info.portGuid, p.num, NO_INFO, 0, 0, None);
    g.(nodes := g.nodes[p.node := StoredNode(n, p.num, pi)], ports := g.ports[p := StoredPort(port, n, p.num, pi)])
  }

  // recv_port_info once the stores are done
  function AfterStore(g: Graph, cfg: Config, route: Route, p: PortRef, pi: PortInfo): (Graph, seq<Req>)
    requires p in g.ports && p.node < |g.nodes|
  {
    if cfg.mlxEpi && g.nodes[p.node].info.extCapable && pi.linkUp && pi.qdr
    then (g, [ExtPortInfoReq(route, p.node, p.num)])
    else GoOn(g, cfg, route, p)
  }

  // recv_port_info
  function PortReply(g: Graph, cfg: Config, route: Route, p: PortRef, pi: PortInfo): (Graph, seq<Req>)
    requires p.node < |g.nodes|
  {
    AfterStore(StorePortInfo(g, p, pi), cfg, route, p, pi)
  }

  // recv_port_info or, if port 0 was asked for, recv_port0_info, which queries all the
  // others.  The PortInfo is stored for port num of node i, which the reply names.
  function RecvPortReply(g: Graph, cfg: Config, route: Route, i: nat, asked: nat, num: nat, pi: PortInfo): (Graph, seq<Req>)
    requires i < |g.nodes|
  {
    var (g', reqs) := PortReply(g, cfg, route, PortRef(i, num), pi);
    (g', reqs + if asked == 0 then PortQueries(route, i, g.nodes[i].info.numports) else [])
  }

  // The same when the reply names the port that was asked for
  function RecvPortInfo(g: Graph, cfg: Config, route: Route, p: PortRef, pi: PortInfo): (Graph, seq<Req>)
    requires p.node < |g.nodes|
  {
    var (g', reqs) := PortReply(g, cfg, route, p, pi);
    (g', reqs + if p.num == 0 then PortQueries(route, p.node, g.nodes[p.node].info.numports) else [])
  }

  // recv_mlnx_ext_port_info, and mlnx_ext_port_info_err for a bad status: an error if the
  // node does not have the port that the reply names.
  function RecvExtPortInfo(g: Graph, cfg: Config, route: Route, p: PortRef): (Graph, seq<Req>, bool)
    requires p.node < |g.nodes|
  {
    if p !in g.ports then (g, [], false)
    else
      var (g', reqs) := GoOn(g, cfg, route, p);
      (g', reqs, true)
  }

  // A port is asked for its extended PortInfo if the scan wants that, the device has it,
  // and the port is up at QDR.
  predicate AsksExtended(g: Graph, cfg: Config, i: nat, pi: PortInfo)
    requires i < |g.nodes|
  {
    cfg.mlxEpi && g.nodes[i].info.extCapable && pi.linkUp && pi.qdr
  }

  // The scan goes on through a port: port 0 apart, it is up, and leads away from a switch
  // or is the port of the start; hops are left by the limit, and in the path.
  predicate LeadsOn(g: Graph, cfg: Config, route: Route, p: PortRef, pi: PortInfo)
    requires p.node < |g.nodes|
  {
    && p.num != 0 && pi.linkUp && ((g.nodes[p.node].info.kind == Switch && p.num != pi.localPort) || g.from == Some(p))
    && (cfg.maxHops == 0 || g.maxhops <= cfg.maxHops)
    && (|route| <= 62 || (g.nodes[p.node].info.kind != Switch && g.from.Some? && g.from.value.node == p.node))
  }

  // What a PortInfo reply is followed by, apart from the queries for the other ports
  lemma AfterPortInfo(g: Graph, cfg: Config, route: Route, i: nat, asked: nat, num: nat, pi: PortInfo)
    requires i < |g.nodes|
    ensures var reqs := RecvPortReply(g, cfg, route, i, asked, num, pi).1;
      && (AsksExtended(g, cfg, i, pi) ==> 0 < |reqs| && reqs[0] == ExtPortInfoReq(route, i, num))
      && ((exists r :: r in reqs && r.ExtPortInfoReq?) <==> AsksExtended(g, cfg, i, pi))
      && ((exists r :: r in reqs && r.NodeInfoReq?) <==> !AsksExtended(g, cfg, i, pi) && LeadsOn(g, cfg, route, PortRef(i, num), pi))
      && (forall r :: r in reqs && r.NodeInfoReq? ==> r.parent == Some(PortRef(i, num)))
  {
    var first := PortReply(g, cfg, route, PortRef(i, num), pi).1;
    var rest := if asked == 0 then PortQueries(route, i, g.nodes[i].info.numports) else [];
    if AsksExtended(g, cfg, i, pi) {
      assert first[0] == ExtPortInfoReq(route, i, num);
    } else if LeadsOn(g, cfg, route, PortRef(i, num), pi) {
      assert |first| == 1 && first[0].NodeInfoReq?;
    }
    assert RecvPortReply(g, cfg, route, i, asked, num, pi).1 == first + rest;
    assert forall r :: r in first + rest <==> r in first || r in rest;
  }

  // The PortInfo queries for ports 1, ..., n of a node.
  function PortQueries(route: Route, node: nat, n: nat): (r: seq<Req>)
    ensures |r| == n && forall k :: 0 <= k < n ==> r[k] == PortInfoReq(route, node, k + 1)
  {
    seq(n, k requires 0 <= k => PortInfoReq(route, node, k + 1))
  }

  // The callback of a request applied to its reply: the new graph, the SMPs issued in
  // order, and false when the callback reports an error.
  function Handle(g: Graph, cfg: Config, req: Req, reply: Reply): (Graph, seq<Req>, bool)
    requires GraphOk(g) && ReqOk(g, req)
  {
    match (req, reply)
    case (NodeInfoReq(route, parent), NodeInfoReply(ni)) => RecvNodeInfo(g, route, parent, ni)
    case (PortInfoReq(route, i, asked), PortInfoReply(num, pi)) =>
      var (g', reqs) := RecvPortReply(g, cfg, route, i, asked, num, pi);
      (g', reqs, true)
    case (ExtPortInfoReq(route, i, _), _) => RecvExtPortInfo(g, cfg, route, PortRef(i, reply.Modifier()))
    case (_, _) => (g, [], true)
  }

  // ---------------------------------------------------------------------------
  // Invariants that hold whatever the replies say.

  ghost predicate SlotsOk(g: Graph) {
    forall p :: p in g.ports ==>
      p.node < |g.nodes| && p.num <= g.nodes[p.node].info.numports && g.ports[p].portnum == p.num
  }

  ghost predicate UniqueGuids(nodes: seq<Node>) {
    forall i, j :: 0 <= i < j < |nodes| ==> nodes[i].info.guid != nodes[j].info.guid
  }

  ghost predicate GraphOk(g: Graph) {
    && SlotsOk(g)
    && UniqueGuids(g.nodes)
    && (g.from.Some? ==> g.from.value in g.ports)
    && Involution(g)
  }

  // The callback data of an outstanding SMP points into the graph.
  predicate ReqOk(g: Graph, req: Req) {
    match req
    case NodeInfoReq(_, parent) => parent.Some? ==> parent.value in g.ports
    case NodeDescReq(_, i) => i < |g.nodes|
    case SwitchInfoReq(_, i) => i < |g.nodes|
    case PortInfoReq(_, i, num) => i < |g.nodes| && num <= g.nodes[i].info.numports
    case ExtPortInfoReq(_, i, num) => PortRef(i, num) in g.ports
  }

  predicate HasRoom(g: Graph, ni: NodeInfo) {
    match FindGuid(g.nodes, ni.guid)
    case None => ni.localPort <= ni.numports
    case Some(i) => ni.localPort <= g.nodes[i].info.numports
  }

  // A reply names a port that the node has room for.
  predicate ReplyOk(g: Graph, req: Req, reply: Reply)
    requires ReqOk(g, req)
  {
    match (req, reply)
    case (NodeInfoReq(_, _), NodeInfoReply(ni)) => HasRoom(g, ni)
    case (PortInfoReq(_, i, _), PortInfoReply(num, _)) => num <= g.nodes[i].info.numports
    case (ExtPortInfoReq(_, i, _), _) => i < |g.nodes| ==> reply.Modifier() <= g.nodes[i].info.numports
    case (_, _) => true
  }

  // Node objects and ports are never lost, and never change identity.
  ghost predicate Grows(g: Graph, g': Graph) {
    && |g.nodes| <= |g'.nodes|
    && (forall i :: 0 <= i < |g.nodes| ==> g'.nodes[i].info == g.nodes[i].info && g'.nodes[i].route == g.nodes[i].route)
    && g.ports.Keys <= g'.ports.Keys
  }

  // Involution depends on the remoteport pointers alone.
  lemma InvolutionKept(g: Graph, g': Graph)
    requires Involution(g) && g.ports.Keys <= g'.ports.Keys
    requires forall p :: p in g'.ports ==> g'.ports[p].remote == Remote(g, p)
    ensures Involution(g')
  {
  }

  lemma EnterPortInvolution(g: Graph, p: PortRef, guid: nat)
    requires Involution(g)
    ensures Involution(EnterPort(g, p, guid))
  {
    InvolutionKept(g, EnterPort(g, p, guid));
  }

  lemma GrowsReqOk(g: Graph, g': Graph, req: Req)
    requires Grows(g, g') && ReqOk(g, req)
    ensures ReqOk(g', req)
  {
  }

  lemma LocateOk(g: Graph, route: Route, ni: NodeInfo)
    requires GraphOk(g)
    ensures var (g', i) := Locate(g, route, ni);
      GraphOk(g') && Grows(g, g') && i < |g'.nodes| && g'.nodes[i].info.guid == ni.guid
  {
  }

  lemma CreatedOk(g: Graph, n: Node)
    requires GraphOk(g) && FindGuid(g.nodes, n.info.guid).None?
    ensures GraphOk(g.(nodes := g.nodes + [n]))
  {
  }

  lemma RoomFound(g: Graph, route: Route, ni: NodeInfo)
    requires HasRoom(g, ni)
    ensures var (g', i) := Locate(g, route, ni); i < |g'.nodes| && ni.localPort <= g'.nodes[i].info.numports
  {
  }

  lemma EnterPortOk(g: Graph, p: PortRef, guid: nat)
    requires GraphOk(g) && p.node < |g.nodes| && p.num <= g.nodes[p.node].info.numports
    ensures GraphOk(EnterPort(g, p, guid)) && Grows(g, EnterPort(g, p, guid))
  {
    EnterPortInvolution(g, p, guid);
  }

  lemma JoinOk(g: Graph, p: PortRef, parent: Option<PortRef>)
    requires GraphOk(g) && p in g.ports && (parent.Some? ==> parent.value in g.ports)
    ensures GraphOk(Join(g, p, parent)) && Grows(g, Join(g, p, parent))
    ensures Join(g, p, parent).nodes == g.nodes
  {
    if parent.Some? {
      LinkPortsInvolution(g, p, parent.value);
    }
  }

  lemma NodeQueriesOk(g: Graph, kind: Kind, isNew: bool, route: Route, p: PortRef)
    requires p.node < |g.nodes| && p.num <= g.nodes[p.node].info.numports
    ensures forall r :: r in NodeQueries(kind, isNew, route, p) ==> ReqOk(g, r)
  {
  }

  lemma RecvNodeInfoOk(g: Graph, route: Route, parent: Option<PortRef>, ni: NodeInfo)
    requires GraphOk(g) && ReqOk(g, NodeInfoReq(route, parent)) && HasRoom(g, ni)
    ensures var (g', reqs, rc) := RecvNodeInfo(g, route, parent, ni);
      rc && GraphOk(g') && Grows(g, g') && forall r :: r in reqs ==> ReqOk(g', r)
  {
    var (g1, i) := Locate(g, route, ni);
    var p := PortRef(i, ni.localPort);
    LocateOk(g, route, ni);
    EnterPortOk(g1, p, ni.portGuid);
    var g2 := EnterPort(g1, p, ni.portGuid);
    JoinOk(g2, p, parent);
    var g3 := Join(g2, p, parent);
    assert g3.nodes == g1.nodes && p in g3.ports;
    NodeQueriesOk(g3, g1.nodes[i].info.kind, i == |g.nodes|, route, p);
  }

  lemma GoOnOk(g: Graph, cfg: Config, route: Route, p: PortRef)
    requires p in g.ports && p.node < |g.nodes|
    ensures var (g', reqs) := GoOn(g, cfg, route, p);
      && g' == g.(maxhops := g'.maxhops)
      && (reqs == [] || exists r :: reqs == [NodeInfoReq(r, Some(p))])
  {
    var (g', reqs) := GoOn(g, cfg, route, p);
    if reqs != [] { assert reqs == [NodeInfoReq(reqs[0].route, Some(p))]; }
  }

  lemma StorePortInfoOk(g: Graph, p: PortRef, pi: PortInfo)
    requires GraphOk(g) && p.node < |g.nodes| && p.num <= g.nodes[p.node].info.numports
    ensures GraphOk(StorePortInfo(g, p, pi)) && Grows(g, StorePortInfo(g, p, pi)) && p in StorePortInfo(g, p, pi).ports
  {
    var g' := StorePortInfo(g, p, pi);
    InvolutionKept(g, g');
    assert UniqueGuids(g'.nodes);
  }

  lemma RecvPortInfoOk(g: Graph, cfg: Config, route: Route, p: PortRef, pi: PortInfo)
    requires GraphOk(g) && p.node < |g.nodes| && p.num <= g.nodes[p.node].info.numports
    ensures var (g', reqs) := RecvPortInfo(g, cfg, route, p, pi);
      GraphOk(g') && Grows(g, g') && forall r :: r in reqs ==> ReqOk(g', r)
  {
    StorePortInfoOk(g, p, pi);
    GoOnOk(StorePortInfo(g, p, pi), cfg, route, p);
  }

  lemma RecvPortReplyOk(g: Graph, cfg: Config, route: Route, i: nat, asked: nat, num: nat, pi: PortInfo)
    requires GraphOk(g) && i < |g.nodes| && num <= g.nodes[i].info.numports
    ensures var (g', reqs) := RecvPortReply(g, cfg, route, i, asked, num, pi);
      GraphOk(g') && Grows(g, g') && forall r :: r in reqs ==> ReqOk(g', r)
  {
    StorePortInfoOk(g, PortRef(i, num), pi);
    GoOnOk(StorePortInfo(g, PortRef(i, num), pi), cfg, route, PortRef(i, num));
  }

  // The hops counted never become fewer.
  lemma HandleHops(g: Graph, cfg: Config, req: Req, reply: Reply)
    requires GraphOk(g) && ReqOk(g, req)
    ensures Handle(g, cfg, req, reply).0.maxhops >= g.maxhops
  {
  }

  // The answer to an extended query names a port that the node does not have.
  predicate NoSuchPort(g: Graph, req: Req, reply: Reply) {
    req.ExtPortInfoReq? && PortRef(req.node, reply.Modifier()) !in g.ports
  }

  // One callback, for any reply: the graph stays sound, no callback data dangles, and
  // the internal error of recv_node_info cannot happen.
  lemma HandleOk(g: Graph, cfg: Config, req: Req, reply: Reply)
    requires GraphOk(g) && ReqOk(g, req) && ReplyOk(g, req, reply)
    ensures var (g', reqs, rc) := Handle(g, cfg, req, reply);
      (rc <==> !NoSuchPort(g, req, reply)) && GraphOk(g') && Grows(g, g') && forall r :: r in reqs ==> ReqOk(g', r)
  {
    match (req, reply)
    case (NodeInfoReq(route, parent), NodeInfoReply(ni)) => RecvNodeInfoOk(g, route, parent, ni);
    case (PortInfoReq(route, i, asked), PortInfoReply(num, pi)) => RecvPortReplyOk(g, cfg, route, i, asked, num, pi);
    case (ExtPortInfoReq(route, i, _), _) =>
      var p := PortRef(i, reply.Modifier());
      if p in g.ports { GoOnOk(g, cfg, route, p); }
    case (_, _) =>
  }
}
