// A scan of a static fabric: which graphs it can build, for every order in which the
// outstanding SMPs are answered.
module Discovery {
  import opened Wrappers
  import opened Fabric
  import opened Wiring

  // The fabric, the configuration and the start path of a scan.
  datatype Scan = Scan(w: Net, cfg: Config, init: Route)

  // The graph so far and the SMPs that are issued and not yet answered.
  datatype State = State(g: Graph, pend: multiset<Req>)

  ghost predicate ScanOk(sc: Scan) {
    NetOk(sc.w) && Walk(sc.w, sc.init).Some? && sc.cfg.initialHops == |sc.init|
  }

  function Start(sc: Scan): Place
    requires Walk(sc.w, sc.init).Some?
  {
    Walk(sc.w, sc.init).value
  }

  function Initial(sc: Scan): State {
    State(EMPTY, multiset{NodeInfoReq(sc.init, None)})
  }

  ghost predicate StateOk(s: State) {
    GraphOk(s.g) && forall r :: r in s.pend ==> ReqOk(s.g, r)
  }

  // The hop limit has not stopped a scan that counted so many hops.
  predicate NotCut(sc: Scan, g: Graph) {
    sc.cfg.maxHops == 0 || g.maxhops <= sc.cfg.maxHops
  }

  // The environment answers one outstanding SMP.
  ghost function Deliver(sc: Scan, s: State, req: Req): State
    requires ScanOk(sc) && StateOk(s) && req in s.pend
  {
    var (g', reqs, rc) := Handle(s.g, sc.cfg, req, Answer(sc.w, req));
    State(g', s.pend - multiset{req} + multiset(reqs))
  }

  // The place of a port in the fabric.
  function At(g: Graph, p: PortRef): Place
    requires p.node < |g.nodes|
  {
    Place(g.nodes[p.node].info.guid, p.num)
  }

  // ---------------------------------------------------------------------------
  // What the callbacks do to the graph, in one place each.

  // The port that a NodeInfo reply from `at` is about.
  function Arrival(g: Graph, at: Place): PortRef {
    match FindGuid(g.nodes, at.guid)
    case Some(i) => PortRef(i, at.num)
    case None => PortRef(|g.nodes|, at.num)
  }

  // Everything that recv_node_info changes when the SMP arrived at `at`.
  ghost predicate NodeInfoEffect(sc: Scan, g: Graph, route: Route, parent: Option<PortRef>, at: Place, g': Graph)
    requires IsPlace(sc.w, at)
  {
    var p := Arrival(g, at);
    && g'.nodes == (if p.node < |g.nodes| then g.nodes else g.nodes + [Node(NodeInfoAt(sc.w, at), route, 0, 0)])
    && g'.ports.Keys == g.ports.Keys + {p}
    && g'.from == (if parent.None? then Some(p) else g.from)
    && g'.maxhops == g.maxhops
    && (forall q :: q in g'.ports ==> g'.ports[q].info == if q in g.ports then g.ports[q].info else NO_INFO)
    && (forall q :: q in g'.ports ==> g'.ports[q].remote == ArrivalRemote(g, p, parent, q))
  }

  function ArrivalRemote(g: Graph, p: PortRef, parent: Option<PortRef>, q: PortRef): Option<PortRef> {
    if parent.Some? then LinkedRemote(g, p, parent.value, q) else Remote(g, q)
  }

  lemma EnterPortEffect(g: Graph, p: PortRef, guid: nat)
    ensures var g' := EnterPort(g, p, guid);
      && g' == g.(ports := g'.ports) && g'.ports.Keys == g.ports.Keys + {p}
      && (forall q :: q in g'.ports ==> g'.ports[q].info == if q in g.ports then g.ports[q].info else NO_INFO)
      && (forall q :: Remote(g', q) == Remote(g, q))
  {
  }

  lemma JoinEffect(g: Graph, p: PortRef, parent: Option<PortRef>)
    requires p in g.ports && (parent.Some? ==> parent.value in g.ports)
    ensures var g' := Join(g, p, parent);
      && g'.nodes == g.nodes && g'.ports.Keys == g.ports.Keys && g'.maxhops == g.maxhops
      && g'.from == (if parent.None? then Some(p) else g.from)
      && (forall q :: q in g'.ports ==> g'.ports[q].info == g.ports[q].info)
      && (forall q :: q in g'.ports ==> g'.ports[q].remote == ArrivalRemote(g, p, parent, q))
  {
  }

  lemma ArrivalRemoteSame(g: Graph, g': Graph, p: PortRef, parent: Option<PortRef>)
    requires forall q :: Remote(g', q) == Remote(g, q)
    ensures forall q :: ArrivalRemote(g', p, parent, q) == ArrivalRemote(g, p, parent, q)
  {
    assert Remote(g', p) == Remote(g, p);
    if parent.Some? { assert Remote(g', parent.value) == Remote(g, parent.value); }
  }

  lemma RecvNodeInfoEffect(sc: Scan, g: Graph, route: Route, parent: Option<PortRef>, at: Place)
    requires GraphOk(g) && ReqOk(g, NodeInfoReq(route, parent)) && IsPlace(sc.w, at)
    ensures var (g', reqs, rc) := RecvNodeInfo(g, route, parent, NodeInfoAt(sc.w, at));
      var p := Arrival(g, at);
      && NodeInfoEffect(sc, g, route, parent, at, g')
      && reqs == NodeQueries(g'.nodes[p.node].info.kind, p.node == |g.nodes|, route, p)
  {
    var ni := NodeInfoAt(sc.w, at);
    var p := Arrival(g, at);
    var g1 := Locate(g, route, ni).0;
    var g2 := EnterPort(g1, p, ni.portGuid);
    assert g1.ports == g.ports && g1.from == g.from && g1.maxhops == g.maxhops;
    assert Remote(g1, p) == Remote(g, p);
    EnterPortEffect(g1, p, ni.portGuid);
    assert forall q :: Remote(g2, q) == Remote(g, q) by {
      assert forall q :: Remote(g1, q) == Remote(g, q);
    }
    ArrivalRemoteSame(g, g2, p, parent);
    JoinEffect(g2, p, parent);
  }

  // Everything that recv_port_info changes, apart from LIDs.
  ghost predicate PortInfoEffect(g: Graph, p: PortRef, pi: PortInfo, g': Graph) {
    && |g'.nodes| == |g.nodes|
    && (forall i :: 0 <= i < |g.nodes| ==> g'.nodes[i].info == g.nodes[i].info && g'.nodes[i].route == g.nodes[i].route)
    && g'.ports.Keys == g.ports.Keys + {p}
    && g'.from == g.from
    && (forall q :: q in g'.ports ==> g'.ports[q].info == if q == p then pi else g.ports[q].info)
    && (forall q :: q in g'.ports ==> g'.ports[q].remote == Remote(g, q))
  }

  lemma RecvPortInfoEffect(g: Graph, cfg: Config, route: Route, p: PortRef, pi: PortInfo)
    requires GraphOk(g) && p.node < |g.nodes|
    ensures PortInfoEffect(g, p, pi, RecvPortInfo(g, cfg, route, p, pi).0)
    ensures PortInfoEffect(g, p, pi, StorePortInfo(g, p, pi))
  {
    var g1 := StorePortInfo(g, p, pi);
    assert PortInfoEffect(g, p, pi, g1);
    GoOnOk(g1, cfg, route, p);
  }

  // ---------------------------------------------------------------------------
  // The graph tells the truth about the fabric.

  ghost predicate NodesTrue(sc: Scan, g: Graph) {
    forall i :: 0 <= i < |g.nodes| ==> NodeTrue(sc, g.nodes[i])
  }

  // A node stores the route on which it was first reached and what was learnt there.
  ghost predicate NodeTrue(sc: Scan, n: Node) {
    var at := Walk(sc.w, n.route);
    at.Some? && IsPlace(sc.w, at.value) && n.info == NodeInfoAt(sc.w, at.value)
  }

  // The port by which PortInfo queries about p arrive: for a switch the one on its
  // stored route, for any other node p itself.
  function Entry(sc: Scan, g: Graph, p: PortRef): Place
    requires p.node < |g.nodes|
  {
    var info := g.nodes[p.node].info;
    Place(info.guid, if IsSwitch(sc.w, info.guid) then info.localPort else p.num)
  }

  ghost predicate InfosTrue(sc: Scan, g: Graph) {
    forall p :: p in g.ports ==> p.node < |g.nodes| && IsPlace(sc.w, At(g, p)) && InfoTrue(sc, g, p)
  }

  ghost predicate InfoTrue(sc: Scan, g: Graph, p: PortRef)
    requires p in g.ports && p.node < |g.nodes| && IsPlace(sc.w, At(g, p))
  {
    g.ports[p].info == NO_INFO || g.ports[p].info == PortInfoAt(sc.w, Entry(sc, g, p), p.num)
  }

  // The start node is node 0, and was entered by the start port.
  ghost predicate StartTrue(sc: Scan, g: Graph)
    requires Walk(sc.w, sc.init).Some?
  {
    var p := PortRef(0, Start(sc).num);
    && g.nodes != [] && g.nodes[0].route == sc.init
    && g.from == Some(p) && p in g.ports && At(g, p) == Start(sc)
  }

  ghost predicate GraphTrue(sc: Scan, g: Graph) {
    ScanOk(sc) && GraphOk(g) && NodesTrue(sc, g) && InfosTrue(sc, g) && StartTrue(sc, g)
  }

  // A PortInfo or extended PortInfo query about port p is on a route to its node.
  ghost predicate PortQueryTrue(sc: Scan, g: Graph, route: Route, p: PortRef) {
    && p.node < |g.nodes| && IsPlace(sc.w, At(g, p))
    && Walk(sc.w, route) == Some(Entry(sc, g, p))
    && (if IsSwitch(sc.w, At(g, p).guid) then route == g.nodes[p.node].route else p in g.ports)
  }

  ghost predicate ReqTrue(sc: Scan, g: Graph, r: Req)
    requires Walk(sc.w, sc.init).Some?
  {
    match r
    case NodeInfoReq(route, None) => route == sc.init && g.nodes == []
    case NodeInfoReq(route, Some(p)) => p in g.ports && p.node < |g.nodes| && Leads(sc.w, Start(sc), At(g, p))
    case PortInfoReq(route, i, num) => PortQueryTrue(sc, g, route, PortRef(i, num))
    case ExtPortInfoReq(route, i, num) =>
      var p := PortRef(i, num);
      PortQueryTrue(sc, g, route, p) && p in g.ports && g.ports[p].info.linkUp
    case _ => true
  }

  // What holds in every state of a scan, wherever it starts: before the start node has
  // answered there is nothing but the first query, and afterwards graph and queries
  // agree with the fabric.
  ghost predicate Sound(sc: Scan, s: State) {
    && ScanOk(sc) && StateOk(s)
    && (forall r :: r in s.pend ==> ReqTrue(sc, s.g, r))
    && (if s.g.nodes == [] then s == Initial(sc) else GraphTrue(sc, s.g))
  }

  lemma InitialSound(sc: Scan)
    requires ScanOk(sc)
    ensures Sound(sc, Initial(sc))
  {
  }

  // Ports are told apart by their places.
  lemma SamePlace(sc: Scan, g: Graph, p: PortRef, q: PortRef)
    requires UniqueGuids(g.nodes) && p.node < |g.nodes| && q.node < |g.nodes| && At(g, p) == At(g, q)
    ensures p == q
  {
  }

  lemma ReqTrueKept(sc: Scan, g: Graph, g': Graph, r: Req)
    requires Walk(sc.w, sc.init).Some? && Grows(g, g') && ReqTrue(sc, g, r) && g.nodes != []
    requires forall q :: q in g.ports && g.ports[q].info.linkUp ==> g'.ports[q].info.linkUp
    ensures ReqTrue(sc, g', r)
  {
  }

  lemma InfoKept(sc: Scan, g: Graph, g': Graph, q: PortRef)
    requires InfosTrue(sc, g) && Grows(g, g') && q in g.ports && g'.ports[q].info == g.ports[q].info
    ensures q.node < |g'.nodes| && IsPlace(sc.w, At(g', q)) && InfoTrue(sc, g', q)
  {
    assert At(g', q) == At(g, q) && Entry(sc, g', q) == Entry(sc, g, q);
  }

  lemma PoolMembers(pend: multiset<Req>, req: Req, reqs: seq<Req>)
    ensures forall r :: r in pend - multiset{req} + multiset(reqs) ==> r in pend || r in reqs
    ensures forall r :: r in pend && r != req ==> r in pend - multiset{req} + multiset(reqs)
    ensures forall r :: r in reqs ==> r in pend - multiset{req} + multiset(reqs)
  {
  }

  // ---------------------------------------------------------------------------
  // NodeInfo replies

  lemma NodeQueriesTrue(sc: Scan, g: Graph, route: Route, isNew: bool, p: PortRef)
    requires ScanOk(sc) && NodesTrue(sc, g) && p in g.ports && p.node < |g.nodes|
    requires Walk(sc.w, route) == Some(At(g, p)) && (isNew ==> g.nodes[p.node].route == route)
    ensures forall r :: r in NodeQueries(g.nodes[p.node].info.kind, isNew, route, p) ==> ReqTrue(sc, g, r) && !r.NodeInfoReq?
  {
    assert NodeTrue(sc, g.nodes[p.node]);
    WalkIsPlace(sc.w, route);
  }

  lemma FirstGraph(sc: Scan, g': Graph)
    requires ScanOk(sc) && g' == RecvNodeInfo(EMPTY, sc.init, None, NodeInfoAt(sc.w, Start(sc))).0
    requires IsPlace(sc.w, Start(sc)) && GraphOk(g')
    ensures var p := PortRef(0, Start(sc).num);
      |g'.nodes| == 1 && g'.nodes[0].route == sc.init && g'.ports.Keys == {p} && Remote(g', p) == None && GraphTrue(sc, g')
    ensures var p := PortRef(0, Start(sc).num);
      RecvNodeInfo(EMPTY, sc.init, None, NodeInfoAt(sc.w, Start(sc))).1 == NodeQueries(g'.nodes[0].info.kind, true, sc.init, p)
  {
    RecvNodeInfoEffect(sc, EMPTY, sc.init, None, Start(sc));
    var p := PortRef(0, Start(sc).num);
    assert Arrival(EMPTY, Start(sc)) == p;
    assert NodeTrue(sc, g'.nodes[0]);
  }

  lemma FirstReply(sc: Scan, s: State)
    requires Sound(sc, s) && s.g.nodes == []
    ensures var req := NodeInfoReq(sc.init, None);
      var p := PortRef(0, Start(sc).num);
      && req in s.pend
      && var s' := Deliver(sc, s, req);
      && Sound(sc, s') && |s'.g.nodes| == 1 && s'.g.ports.Keys == {p} && Remote(s'.g, p) == None
      && s'.pend == multiset(NodeQueries(s'.g.nodes[0].info.kind, true, sc.init, p))
  {
    var req := NodeInfoReq(sc.init, None);
    WalkIsPlace(sc.w, sc.init);
    HandleOk(s.g, sc.cfg, req, Answer(sc.w, req));
    var s' := Deliver(sc, s, req);
    var p := PortRef(0, Start(sc).num);
    FirstGraph(sc, s'.g);
    assert s'.pend == multiset(NodeQueries(s'.g.nodes[0].info.kind, true, sc.init, p));
    NodeQueriesTrue(sc, s'.g, sc.init, true, p);
  }

  // The graph after the reply from `at` to the query sent through port b.
  ghost predicate PeerStep(sc: Scan, g: Graph, route: Route, b: PortRef, at: Place, g': Graph) {
    && GraphTrue(sc, g) && b in g.ports
    && IsPlace(sc.w, at) && Walk(sc.w, route) == Some(at)
    && NodeInfoEffect(sc, g, route, Some(b), at, g')
    && GraphOk(g') && Grows(g, g')
  }

  lemma PeerArrival(sc: Scan, g: Graph, route: Route, b: PortRef, at: Place, g': Graph)
    requires PeerStep(sc, g, route, b, at, g')
    ensures var p := Arrival(g, at);
      && p.node < |g'.nodes| && p in g'.ports && At(g', p) == at
      && (p.node == |g.nodes| ==> g'.nodes[p.node].route == route && g'.nodes[p.node].info == NodeInfoAt(sc.w, at))
  {
  }

  lemma PeerInfosTrue(sc: Scan, g: Graph, route: Route, b: PortRef, at: Place, g': Graph)
    requires PeerStep(sc, g, route, b, at, g')
    ensures InfosTrue(sc, g')
    ensures forall q :: q in g.ports && g.ports[q].info.linkUp ==> g'.ports[q].info.linkUp
  {
    PeerArrival(sc, g, route, b, at, g');
    forall q | q in g'.ports
      ensures q.node < |g'.nodes| && IsPlace(sc.w, At(g', q)) && InfoTrue(sc, g', q)
    {
      if q in g.ports {
        InfoKept(sc, g, g', q);
      } else {
        assert q == Arrival(g, at);
      }
    }
  }

  lemma PeerNodesTrue(sc: Scan, g: Graph, route: Route, b: PortRef, at: Place, g': Graph)
    requires PeerStep(sc, g, route, b, at, g')
    ensures NodesTrue(sc, g')
  {
    forall i | 0 <= i < |g'.nodes|
      ensures NodeTrue(sc, g'.nodes[i])
    {
      if i < |g.nodes| {
        assert g'.nodes[i] == g.nodes[i] && NodeTrue(sc, g.nodes[i]);
      } else {
        assert g'.nodes[i] == Node(NodeInfoAt(sc.w, at), route, 0, 0);
      }
    }
  }

  lemma StartKept(sc: Scan, g: Graph, g': Graph)
    requires Walk(sc.w, sc.init).Some? && Grows(g, g') && g'.from == g.from && StartTrue(sc, g)
    ensures StartTrue(sc, g')
  {
  }

  lemma PeerTrue(sc: Scan, g: Graph, route: Route, b: PortRef, at: Place, g': Graph)
    requires PeerStep(sc, g, route, b, at, g')
    ensures GraphTrue(sc, g')
  {
    PeerInfosTrue(sc, g, route, b, at, g');
    PeerNodesTrue(sc, g, route, b, at, g');
    StartKept(sc, g, g');
  }

  // The queries after the reply from `at`.
  function PeerQueries(g: Graph, route: Route, at: Place, g': Graph): seq<Req>
    requires Arrival(g, at).node < |g'.nodes|
  {
    var p := Arrival(g, at);
    NodeQueries(g'.nodes[p.node].info.kind, p.node == |g.nodes|, route, p)
  }

  lemma PeerReplyStep(sc: Scan, s: State, route: Route, b: PortRef)
    requires Sound(sc, s) && NodeInfoReq(route, Some(b)) in s.pend && Walk(sc.w, route).Some?
    ensures var at := Walk(sc.w, route).value;
      var s' := Deliver(sc, s, NodeInfoReq(route, Some(b)));
      && PeerStep(sc, s.g, route, b, at, s'.g)
      && Arrival(s.g, at).node < |s'.g.nodes|
      && s'.pend == s.pend - multiset{NodeInfoReq(route, Some(b))} + multiset(PeerQueries(s.g, route, at, s'.g))
  {
    var req := NodeInfoReq(route, Some(b));
    var at := Walk(sc.w, route).value;
    assert ReqTrue(sc, s.g, req) && ReqOk(s.g, req);
    WalkIsPlace(sc.w, route);
    ReplyFits(sc, s.g, at);
    HandleOk(s.g, sc.cfg, req, Answer(sc.w, req));
    RecvNodeInfoEffect(sc, s.g, route, Some(b), at);
    var s' := Deliver(sc, s, req);
    PeerArrival(sc, s.g, route, b, at, s'.g);
  }

  // A known node has room for the port that a reply is about.
  lemma ReplyFits(sc: Scan, g: Graph, at: Place)
    requires GraphTrue(sc, g) && IsPlace(sc.w, at)
    ensures HasRoom(g, NodeInfoAt(sc.w, at))
  {
    var known := FindGuid(g.nodes, at.guid);
    if known.Some? { assert NodeTrue(sc, g.nodes[known.value]); }
  }

  lemma PeerPendTrue(sc: Scan, s: State, route: Route, b: PortRef, at: Place, s': State)
    requires Sound(sc, s) && s.g.nodes != []
    requires PeerStep(sc, s.g, route, b, at, s'.g) && Arrival(s.g, at).node < |s'.g.nodes|
    requires s'.pend == s.pend - multiset{NodeInfoReq(route, Some(b))} + multiset(PeerQueries(s.g, route, at, s'.g))
    ensures forall r :: r in s'.pend ==> ReqOk(s'.g, r) && ReqTrue(sc, s'.g, r)
    ensures forall r :: r in s'.pend && r.NodeInfoReq? ==> r in s.pend
  {
    var p := Arrival(s.g, at);
    PeerArrival(sc, s.g, route, b, at, s'.g);
    PeerTrue(sc, s.g, route, b, at, s'.g);
    PeerInfosTrue(sc, s.g, route, b, at, s'.g);
    NodeQueriesTrue(sc, s'.g, route, p.node == |s.g.nodes|, p);
    NodeQueriesOk(s'.g, s'.g.nodes[p.node].info.kind, p.node == |s.g.nodes|, route, p);
    PoolMembers(s.pend, NodeInfoReq(route, Some(b)), PeerQueries(s.g, route, at, s'.g));
    forall r | r in s.pend
      ensures ReqOk(s'.g, r) && ReqTrue(sc, s'.g, r)
    {
      GrowsReqOk(s.g, s'.g, r);
      ReqTrueKept(sc, s.g, s'.g, r);
    }
  }

  // The query through port b was answered, or the SMP did not arrive.
  lemma PeerReply(sc: Scan, s: State, route: Route, b: PortRef)
    requires Sound(sc, s) && NodeInfoReq(route, Some(b)) in s.pend
    ensures Sound(sc, Deliver(sc, s, NodeInfoReq(route, Some(b))))
  {
    var req := NodeInfoReq(route, Some(b));
    var s' := Deliver(sc, s, req);
    assert ReqTrue(sc, s.g, req);
    if Walk(sc.w, route).Some? {
      var at := Walk(sc.w, route).value;
      PeerReplyStep(sc, s, route, b);
      PeerTrue(sc, s.g, route, b, at, s'.g);
      PeerPendTrue(sc, s, route, b, at, s');
    } else {
      assert s' == State(s.g, s.pend - multiset{req});
    }
  }

  // ---------------------------------------------------------------------------
  // PortInfo replies and extended PortInfo replies

  // What a scan knows of a port when it decides whether to go on through it.
  ghost predicate Known(sc: Scan, g: Graph, route: Route, p: PortRef) {
    && PortQueryTrue(sc, g, route, p) && p in g.ports
    && g.ports[p].info == PortInfoAt(sc.w, Entry(sc, g, p), p.num)
  }

  // The port by which the stored route enters a switch other than the start node.
  predicate BackPort(sc: Scan, g: Graph, p: PortRef)
    requires p.node < |g.nodes|
  {
    IsSwitch(sc.w, At(g, p).guid) && p.num == g.nodes[p.node].info.localPort && p.node != 0
  }

  lemma ExploresLeads(sc: Scan, g: Graph, route: Route, p: PortRef)
    requires GraphTrue(sc, g) && Known(sc, g, route, p)
    ensures Explores(g, p) <==> (Leads(sc.w, Start(sc), At(g, p)) && !BackPort(sc, g, p))
  {
    assert NodeTrue(sc, g.nodes[p.node]);
    var start := PortRef(0, Start(sc).num);
    if At(g, p) == Start(sc) { SamePlace(sc, g, p, start); }
    if p.node == 0 && p.num == g.nodes[0].info.localPort { assert At(g, p) == Start(sc); }
  }

  // The graph after a store of true PortInfo.
  ghost predicate StoreStep(sc: Scan, g: Graph, route: Route, p: PortRef, g': Graph) {
    && GraphTrue(sc, g) && PortQueryTrue(sc, g, route, p)
    && GraphOk(g') && Grows(g, g')
    && PortInfoEffect(g, p, PortInfoAt(sc.w, Entry(sc, g, p), p.num), g')
  }

  lemma StoreKnown(sc: Scan, g: Graph, route: Route, p: PortRef, g': Graph)
    requires StoreStep(sc, g, route, p, g')
    ensures Known(sc, g', route, p)
    ensures forall q :: q in g.ports && g.ports[q].info.linkUp ==> g'.ports[q].info.linkUp
    ensures forall q :: Remote(g', q) == Remote(g, q)
  {
    assert At(g', p) == At(g, p) && Entry(sc, g', p) == Entry(sc, g, p);
    assert p in g.ports ==> InfoTrue(sc, g, p);
  }

  lemma StoreInfosTrue(sc: Scan, g: Graph, route: Route, p: PortRef, g': Graph)
    requires StoreStep(sc, g, route, p, g')
    ensures InfosTrue(sc, g')
  {
    StoreKnown(sc, g, route, p, g');
    forall q | q in g'.ports
      ensures q.node < |g'.nodes| && IsPlace(sc.w, At(g', q)) && InfoTrue(sc, g', q)
    {
      if q != p { InfoKept(sc, g, g', q); }
    }
  }

  lemma StoreTrue(sc: Scan, g: Graph, route: Route, p: PortRef, g': Graph)
    requires StoreStep(sc, g, route, p, g')
    ensures GraphTrue(sc, g')
  {
    StoreInfosTrue(sc, g, route, p, g');
    forall i | 0 <= i < |g'.nodes|
      ensures NodeTrue(sc, g'.nodes[i])
    {
      assert NodeTrue(sc, g.nodes[i]);
    }
  }

  lemma PortSteps(sc: Scan, g: Graph, route: Route, p: PortRef)
    requires GraphTrue(sc, g) && PortQueryTrue(sc, g, route, p)
    ensures var pi := PortInfoAt(sc.w, Entry(sc, g, p), p.num);
      && StoreStep(sc, g, route, p, StorePortInfo(g, p, pi))
      && StoreStep(sc, g, route, p, RecvPortInfo(g, sc.cfg, route, p, pi).0)
  {
    var pi := PortInfoAt(sc.w, Entry(sc, g, p), p.num);
    assert NodeTrue(sc, g.nodes[p.node]);
    StorePortInfoOk(g, p, pi);
    RecvPortInfoOk(g, sc.cfg, route, p, pi);
    RecvPortInfoEffect(g, sc.cfg, route, p, pi);
  }

  lemma GoOnStep(sc: Scan, g: Graph, route: Route, p: PortRef)
    requires GraphTrue(sc, g) && Known(sc, g, route, p)
    ensures StoreStep(sc, g, route, p, GoOn(g, sc.cfg, route, p).0)
  {
    GoOnOk(g, sc.cfg, route, p);
    HopsAside(g, GoOn(g, sc.cfg, route, p).0);
  }

  // Nothing but the hop counter differs.
  lemma HopsAside(g: Graph, g': Graph)
    requires GraphOk(g) && g' == g.(maxhops := g'.maxhops)
    ensures GraphOk(g') && Grows(g, g')
  {
    InvolutionKept(g, g');
  }

  // The requests that an answer about port p leads to are true, and go on through p.
  ghost predicate PortReqsOk(sc: Scan, p: PortRef, g': Graph, reqs: seq<Req>)
    requires ScanOk(sc)
  {
    && (forall r :: r in reqs ==> ReqOk(g', r) && ReqTrue(sc, g', r))
    && (forall r :: r in reqs && r.NodeInfoReq? ==> r.parent == Some(p) && p in g'.ports && p.node < |g'.nodes| && Explores(g', p))
  }

  lemma GoOnTrue(sc: Scan, g: Graph, route: Route, p: PortRef)
    requires GraphTrue(sc, g) && Known(sc, g, route, p)
    ensures var (g', reqs) := GoOn(g, sc.cfg, route, p); PortReqsOk(sc, p, g', reqs)
  {
    ExploresLeads(sc, g, route, p);
    GoOnOk(g, sc.cfg, route, p);
  }

  // The queries about the other ports of a switch, issued when port 0 has answered.
  lemma PortQueriesTrue(sc: Scan, g: Graph, route: Route, p: PortRef)
    requires GraphTrue(sc, g) && PortQueryTrue(sc, g, route, p) && p.num == 0
    ensures IsSwitch(sc.w, At(g, p).guid)
    ensures forall r :: r in PortQueries(route, p.node, g.nodes[p.node].info.numports) ==>
      r.PortInfoReq? && ReqOk(g, r) && ReqTrue(sc, g, r)
  {
    WalkNum(sc.w, route);
    assert NodeTrue(sc, g.nodes[p.node]);
  }

  lemma ReqTrueAgain(sc: Scan, g: Graph, g': Graph, r: Req)
    requires Walk(sc.w, sc.init).Some? && g' == g.(maxhops := g'.maxhops)
    ensures ReqTrue(sc, g', r) <==> ReqTrue(sc, g, r)
    ensures ReqOk(g', r) <==> ReqOk(g, r)
  {
  }

  // The SMPs of recv_port_info, one by one
  lemma PortReplyCases(g: Graph, cfg: Config, route: Route, p: PortRef, pi: PortInfo)
    requires p.node < |g.nodes|
    ensures var (g', reqs) := RecvPortInfo(g, cfg, route, p, pi);
      var g1 := StorePortInfo(g, p, pi);
      && g' == g1.(maxhops := g'.maxhops)
      && forall r :: r in reqs ==>
           || r in GoOn(g1, cfg, route, p).1
           || (r == ExtPortInfoReq(route, p.node, p.num) && pi.linkUp)
           || (p.num == 0 && r in PortQueries(route, p.node, g1.nodes[p.node].info.numports))
  {
    GoOnOk(StorePortInfo(g, p, pi), cfg, route, p);
  }

  lemma PortReqsTrue(sc: Scan, g: Graph, route: Route, p: PortRef)
    requires GraphTrue(sc, g) && PortQueryTrue(sc, g, route, p)
    ensures var (g', reqs) := RecvPortInfo(g, sc.cfg, route, p, PortInfoAt(sc.w, Entry(sc, g, p), p.num));
      PortReqsOk(sc, p, g', reqs)
  {
    var pi := PortInfoAt(sc.w, Entry(sc, g, p), p.num);
    var g1 := StorePortInfo(g, p, pi);
    var (g', reqs) := RecvPortInfo(g, sc.cfg, route, p, pi);
    PortSteps(sc, g, route, p);
    StoreTrue(sc, g, route, p, g1);
    StoreKnown(sc, g, route, p, g1);
    StoredReqsTrue(sc, g1, route, p);
    PortReplyCases(g, sc.cfg, route, p, pi);
    ReqsTrueAgain(sc, p, g1, g', reqs);
  }

  lemma ReqsTrueAgain(sc: Scan, p: PortRef, g: Graph, g': Graph, reqs: seq<Req>)
    requires ScanOk(sc) && PortReqsOk(sc, p, g, reqs) && g' == g.(maxhops := g'.maxhops)
    ensures PortReqsOk(sc, p, g', reqs)
  {
    forall r | r in reqs
      ensures ReqOk(g', r) && ReqTrue(sc, g', r)
    {
      ReqTrueAgain(sc, g, g', r);
    }
  }

  // Every SMP that may follow a stored PortInfo is true.
  lemma StoredReqsTrue(sc: Scan, g: Graph, route: Route, p: PortRef)
    requires GraphTrue(sc, g) && Known(sc, g, route, p)
    ensures PortReqsOk(sc, p, g, GoOn(g, sc.cfg, route, p).1)
    ensures ReqOk(g, ExtPortInfoReq(route, p.node, p.num))
    ensures g.ports[p].info.linkUp ==> ReqTrue(sc, g, ExtPortInfoReq(route, p.node, p.num))
    ensures p.num == 0 ==> PortReqsOk(sc, p, g, PortQueries(route, p.node, g.nodes[p.node].info.numports))
  {
    GoOnOk(g, sc.cfg, route, p);
    GoOnTrue(sc, g, route, p);
    ReqsTrueAgain(sc, p, GoOn(g, sc.cfg, route, p).0, g, GoOn(g, sc.cfg, route, p).1);
    if p.num == 0 { PortQueriesTrue(sc, g, route, p); }
  }

  // Putting the requests of an answer about port p into the pool.
  lemma PoolSound(sc: Scan, s: State, req: Req, route: Route, p: PortRef, g': Graph, reqs: seq<Req>)
    requires Sound(sc, s) && s.g.nodes != [] && req in s.pend
    requires StoreStep(sc, s.g, route, p, g') && PortReqsOk(sc, p, g', reqs)
    ensures Sound(sc, State(g', s.pend - multiset{req} + multiset(reqs)))
  {
    StoreTrue(sc, s.g, route, p, g');
    StoreKnown(sc, s.g, route, p, g');
    PoolMembers(s.pend, req, reqs);
    forall r | r in s.pend
      ensures ReqOk(g', r) && ReqTrue(sc, g', r)
    {
      GrowsReqOk(s.g, g', r);
      ReqTrueKept(sc, s.g, g', r);
    }
  }

  lemma PortAnswer(sc: Scan, s: State, route: Route, p: PortRef)
    requires ScanOk(sc) && StateOk(s) && PortInfoReq(route, p.node, p.num) in s.pend && PortQueryTrue(sc, s.g, route, p)
    ensures var req := PortInfoReq(route, p.node, p.num);
      var after := RecvPortInfo(s.g, sc.cfg, route, p, PortInfoAt(sc.w, Entry(sc, s.g, p), p.num));
      Deliver(sc, s, req) == State(after.0, s.pend - multiset{req} + multiset(after.1))
  {
    assert PortRef(p.node, p.num) == p;
  }

  // The graph and the requests after the answer to a PortInfo query.
  lemma PortReplyStep(sc: Scan, s: State, route: Route, p: PortRef)
    requires Sound(sc, s) && PortInfoReq(route, p.node, p.num) in s.pend
    ensures PortQueryTrue(sc, s.g, route, p) && GraphTrue(sc, s.g)
    ensures var req := PortInfoReq(route, p.node, p.num);
      var (g', reqs) := RecvPortInfo(s.g, sc.cfg, route, p, PortInfoAt(sc.w, Entry(sc, s.g, p), p.num));
      && Deliver(sc, s, req) == State(g', s.pend - multiset{req} + multiset(reqs))
      && StoreStep(sc, s.g, route, p, g') && PortReqsOk(sc, p, g', reqs)
  {
    var req := PortInfoReq(route, p.node, p.num);
    assert ReqTrue(sc, s.g, req) && ReqOk(s.g, req);
    PortAnswer(sc, s, route, p);
    PortSteps(sc, s.g, route, p);
    PortReqsTrue(sc, s.g, route, p);
  }

  lemma ExtDelivered(sc: Scan, s: State, route: Route, p: PortRef)
    requires ScanOk(sc) && StateOk(s) && ExtPortInfoReq(route, p.node, p.num) in s.pend
    ensures p in s.g.ports && p.node < |s.g.nodes|
    ensures var req := ExtPortInfoReq(route, p.node, p.num);
      var (g', reqs) := GoOn(s.g, sc.cfg, route, p);
      Deliver(sc, s, req) == State(g', s.pend - multiset{req} + multiset(reqs))
  {
    assert ReqOk(s.g, ExtPortInfoReq(route, p.node, p.num));
  }

  lemma ExtReplyStep(sc: Scan, s: State, route: Route, p: PortRef)
    requires Sound(sc, s) && ExtPortInfoReq(route, p.node, p.num) in s.pend
    ensures GraphTrue(sc, s.g) && Known(sc, s.g, route, p)
    ensures var req := ExtPortInfoReq(route, p.node, p.num);
      var (g', reqs) := GoOn(s.g, sc.cfg, route, p);
      && Deliver(sc, s, req) == State(g', s.pend - multiset{req} + multiset(reqs))
      && StoreStep(sc, s.g, route, p, g') && PortReqsOk(sc, p, g', reqs)
  {
    var req := ExtPortInfoReq(route, p.node, p.num);
    assert ReqTrue(sc, s.g, req) && ReqOk(s.g, req);
    assert InfoTrue(sc, s.g, p);
    ExtDelivered(sc, s, route, p);
    GoOnStep(sc, s.g, route, p);
    GoOnTrue(sc, s.g, route, p);
  }

  lemma DataReplyStep(sc: Scan, s: State, req: Req)
    requires Sound(sc, s) && req in s.pend && (req.NodeDescReq? || req.SwitchInfoReq?)
    ensures Deliver(sc, s, req) == State(s.g, s.pend - multiset{req})
  {
  }

  // One reply keeps a scan sound, wherever it started.
  lemma DeliverSound(sc: Scan, s: State, req: Req)
    requires Sound(sc, s) && req in s.pend
    ensures Sound(sc, Deliver(sc, s, req))
  {
    match req
    case NodeInfoReq(route, parent) =>
      assert ReqTrue(sc, s.g, req);
      if parent.None? { FirstReply(sc, s); } else { PeerReply(sc, s, route, parent.value); }
    case PortInfoReq(route, i, num) =>
      var p := PortRef(i, num);
      PortReplyStep(sc, s, route, p);
      var (g', reqs) := RecvPortInfo(s.g, sc.cfg, route, p, PortInfoAt(sc.w, Entry(sc, s.g, p), p.num));
      PoolSound(sc, s, req, route, p, g', reqs);
    case ExtPortInfoReq(route, i, num) =>
      var p := PortRef(i, num);
      ExtReplyStep(sc, s, route, p);
      var (g', reqs) := GoOn(s.g, sc.cfg, route, p);
      PoolSound(sc, s, req, route, p, g', reqs);
    case _ =>
      DataReplyStep(sc, s, req);
  }
}
