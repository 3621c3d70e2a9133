// The routes that a scan stores and sends: how long they get, and that they can be
// walked again on the graph.
module Paths {
  import opened Wrappers
  import opened Fabric
  import opened Wiring
  import opened Discovery
  import opened TrueLinks
  import opened Completeness
  import Packet
  import QueriedOnce

  // ---------------------------------------------------------------------------
  // Whatever the replies say, routes fit into ib_dr_path_t.

  // mad_encode accepts hop counts below HOPS_MAX.
  predicate RouteFits(route: Route) {
    |route| < HOPS_MAX
  }

  predicate NodeRoutesFit(g: Graph) {
    forall i :: 0 <= i < |g.nodes| ==> RouteFits(g.nodes[i].route)
  }

  lemma NextRouteFits(g: Graph, cfg: Config, route: Route, p: PortRef)
    requires p in g.ports && p.node < |g.nodes| && RouteFits(route)
    ensures var next := NextRoute(g, cfg, route, p).1; next.Some? ==> RouteFits(next.value)
  {
  }

  lemma NodeQueriesRoute(kind: Kind, isNew: bool, route: Route, p: PortRef)
    ensures forall r :: r in NodeQueries(kind, isNew, route, p) ==> r.route == route
  {
  }

  lemma RecvNodeInfoFits(g: Graph, route: Route, parent: Option<PortRef>, ni: NodeInfo)
    requires GraphOk(g) && ReqOk(g, NodeInfoReq(route, parent)) && HasRoom(g, ni)
    requires NodeRoutesFit(g) && RouteFits(route)
    ensures var (g', reqs, rc) := RecvNodeInfo(g, route, parent, ni);
      NodeRoutesFit(g') && forall r :: r in reqs ==> RouteFits(r.route)
  {
    var (g1, i) := Locate(g, route, ni);
    var p := PortRef(i, ni.localPort);
    LocateOk(g, route, ni);
    EnterPortOk(g1, p, ni.portGuid);
    NodeQueriesRoute(g1.nodes[i].info.kind, i == |g.nodes|, route, p);
    assert NodeRoutesFit(g1);
    JoinOk(EnterPort(g1, p, ni.portGuid), p, parent);
  }

  lemma GoOnFits(g: Graph, cfg: Config, route: Route, p: PortRef)
    requires p in g.ports && p.node < |g.nodes| && RouteFits(route)
    ensures var (g', reqs) := GoOn(g, cfg, route, p);
      g'.nodes == g.nodes && forall r :: r in reqs ==> RouteFits(r.route)
  {
    NextRouteFits(g, cfg, route, p);
  }

  lemma RecvPortReplyFits(g: Graph, cfg: Config, route: Route, i: nat, asked: nat, num: nat, pi: PortInfo)
    requires i < |g.nodes| && NodeRoutesFit(g) && RouteFits(route)
    ensures var (g', reqs) := RecvPortReply(g, cfg, route, i, asked, num, pi);
      NodeRoutesFit(g') && forall r :: r in reqs ==> RouteFits(r.route)
  {
    GoOnFits(StorePortInfo(g, PortRef(i, num), pi), cfg, route, PortRef(i, num));
  }

  // One callback keeps every stored and every issued route within the path array.
  lemma HandleRoutesFit(g: Graph, cfg: Config, req: Req, reply: Reply)
    requires GraphOk(g) && ReqOk(g, req) && ReplyOk(g, req, reply)
    requires NodeRoutesFit(g) && RouteFits(req.route)
    ensures var (g', reqs, rc) := Handle(g, cfg, req, reply);
      NodeRoutesFit(g') && forall r :: r in reqs ==> RouteFits(r.route)
  {
    match (req, reply)
    case (NodeInfoReq(route, parent), NodeInfoReply(ni)) => RecvNodeInfoFits(g, route, parent, ni);
    case (PortInfoReq(route, i, asked), PortInfoReply(num, pi)) => RecvPortReplyFits(g, cfg, route, i, asked, num, pi);
    case (ExtPortInfoReq(route, i, _), _) =>
      var p := PortRef(i, reply.Modifier());
      if p in g.ports { GoOnFits(g, cfg, route, p); }
    case (_, _) =>
  }

  // In every state of every run, whatever the replies say and in whatever order they come,
  // all stored routes and all routes of issued SMPs fit.
  lemma {:induction false} RunRoutesFit(init: Route, cfg: Config, answers: seq<QueriedOnce.Answer>)
    requires RouteFits(init)
    ensures var l := QueriedOnce.Run(init, cfg, answers);
      NodeRoutesFit(l.g) && forall r :: r in l.sent ==> RouteFits(r.route)
    decreases |answers|
  {
    if answers != [] {
      var before := answers[..|answers| - 1];
      var l, a := QueriedOnce.Run(init, cfg, before), answers[|answers| - 1];
      RunRoutesFit(init, cfg, before);
      QueriedOnce.AskedOnce(init, cfg, before);
      if a.k < |l.sent| && a.k !in l.answered && ReplyOk(l.g, l.sent[a.k], a.reply) {
        HandleRoutesFit(l.g, cfg, l.sent[a.k], a.reply);
      }
    }
  }

  // mad_encode refuses none of the SMPs of a scan: the count of the path it is given is the
  // length of the route.
  lemma SmpsAreEncoded(init: Route, cfg: Config, answers: seq<QueriedOnce.Answer>, r: Req, rpc: Packet.Rpc, path: Packet.DrPath)
    requires RouteFits(init) && r in QueriedOnce.Run(init, cfg, answers).sent && path.cnt == |r.route|
    ensures !Packet.Refused(rpc, Some(path))
  {
    RunRoutesFit(init, cfg, answers);
  }

  // ---------------------------------------------------------------------------
  // Stored routes can be walked on the graph.

  // Where ibnd_find_port_dr stands: the node, and the port it last arrived at.
  datatype Visit = Visit(node: nat, port: Option<PortRef>)

  // ibnd_find_port_dr, starting at node `from`: hops of zero are skipped, any other
  // leads through the remoteport of that port.
  function Follow(g: Graph, from: nat, route: Route): Option<Visit> {
    if route == [] then Some(Visit(from, None))
    else
      var hop := route[|route| - 1];
      match Follow(g, from, route[..|route| - 1])
      case None => None
      case Some(v) =>
        if hop == 0 then Some(v)
        else match Remote(g, PortRef(v.node, hop))
          case None => None
          case Some(q) => Some(Visit(q.node, Some(q)))
  }

  // In every state of a scan from the home port, the route stored with a node leads
  // from the start node, through the recorded links, to that node and to the port by
  // which it was first entered.
  lemma {:induction false} StoredRouteLeads(sc: Scan, s: State, i: nat)
    requires Inv(sc, s) && sc.init == [] && i < |s.g.nodes|
    ensures Follow(s.g, 0, s.g.nodes[i].route) ==
      Some(Visit(i, if i == 0 then None else Some(PortRef(i, s.g.nodes[i].info.localPort))))
    decreases i
  {
    if i > 0 {
      assert EnteredFrom(sc, s.g, i);
      var p := PortRef(i, s.g.nodes[i].info.localPort);
      var q := Remote(s.g, p).value;
      StoredRouteLeads(sc, s, q.node);
      assert LinkTrue(sc, s.g, p, q);
      assert s.g.ports[q].remote == Some(p);
      assert (s.g.nodes[q.node].route + [q.num])[..|s.g.nodes[q.node].route|] == s.g.nodes[q.node].route;
    }
  }

  lemma PathsAreValid(sc: Scan, run: seq<State>, i: nat)
    requires IsRun(sc, run) && sc.init == [] && 0 < i < |Last(run).g.nodes|
    ensures var g := Last(run).g;
      Follow(g, 0, g.nodes[i].route) == Some(Visit(i, Some(PortRef(i, g.nodes[i].info.localPort))))
  {
    HomeIsGoodStart(sc);
    RunInv(sc, run);
    StoredRouteLeads(sc, Last(run), i);
  }

  // ---------------------------------------------------------------------------
  // Small fabrics never meet the hop limit.

  lemma {:induction false} RouteNoLongerThanIndex(sc: Scan, s: State, i: nat)
    requires Inv(sc, s) && i < |s.g.nodes|
    ensures |s.g.nodes[i].route| <= |sc.init| + i
    decreases i
  {
    if i > 0 {
      assert EnteredFrom(sc, s.g, i);
      RouteNoLongerThanIndex(sc, s, Remote(s.g, PortRef(i, s.g.nodes[i].info.localPort)).value.node);
    }
  }

  lemma {:induction false} NoMoreNodesThanGuids(nodes: seq<Node>, guids: set<nat>)
    requires UniqueGuids(nodes) && forall i :: 0 <= i < |nodes| ==> nodes[i].info.guid in guids
    ensures |nodes| <= |guids|
    decreases |nodes|
  {
    if nodes != [] {
      var last := |nodes| - 1;
      NoMoreNodesThanGuids(nodes[..last], guids - {nodes[last].info.guid});
    }
  }

  // A scan cannot meet the hop limit when the start path leaves a hop for every node.
  lemma SmallFabricRoutesShort(sc: Scan, s: State)
    requires Inv(sc, s) && |sc.init| + |sc.w.hw| < HOPS_MAX
    ensures RoutesShort(s.g)
  {
    if s.g.nodes != [] {
      forall i | 0 <= i < |s.g.nodes|
        ensures s.g.nodes[i].info.guid in sc.w.hw.Keys
      {
        assert NodeTrue(sc, s.g.nodes[i]);
      }
      NoMoreNodesThanGuids(s.g.nodes, sc.w.hw.Keys);
      assert |sc.w.hw.Keys| == |sc.w.hw|;
      forall i | 0 <= i < |s.g.nodes|
        ensures |s.g.nodes[i].route| <= HOPS_MAX - 2
      {
        RouteNoLongerThanIndex(sc, s, i);
      }
    }
  }

  // A scan that no hop limit has stopped, from a good start, of a fabric that is small
  // beside the path array finds everything there is to find.
  lemma SmallScanIsComplete(sc: Scan, run: seq<State>)
    requires IsRun(sc, run) && GoodStart(sc) && NotCut(sc, Last(run).g) && |sc.init| + |sc.w.hw| < HOPS_MAX
    requires Last(run).pend == multiset{}
    ensures forall guid :: Found(Last(run).g, guid) <==> Reachable(sc.w, Start(sc), guid)
    ensures forall p: PortRef :: p.node < |Last(run).g.nodes| && Leads(sc.w, Start(sc), At(Last(run).g, p)) ==>
      LinkedToPeer(sc, Last(run).g, p)
  {
    RunInv(sc, run);
    SmallFabricRoutesShort(sc, Last(run));
    ScanIsComplete(sc, run);
  }
}
