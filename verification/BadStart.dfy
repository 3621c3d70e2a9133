// A scan that starts at a CA or router reached over a path whose way back does not
// lead to the peer of the start port never links that port to its peer: the reply to
// the retracted route is about the port by which that route enters the switch, not
// about the port that leads to the start node.
module BadStart {
  import opened Wrappers
  import opened Fabric
  import opened Wiring
  import opened Discovery
  import opened TrueLinks
  import opened Completeness
  import opened Termination

  ghost predicate Bad(sc: Scan) {
    && ScanOk(sc)
    && IsStartPort(sc, Start(sc)) && Start(sc) in sc.w.cable && !GoodStart(sc)
  }

  function StartRef(sc: Scan): PortRef
    requires Walk(sc.w, sc.init).Some?
  {
    PortRef(0, Start(sc).num)
  }

  function Peer(sc: Scan): Place
    requires Walk(sc.w, sc.init).Some? && Start(sc) in sc.w.cable
  {
    sc.w.cable[Start(sc)]
  }

  // The route that NextRoute picks at the start port for a query that came on `route`.
  function Onward(sc: Scan, route: Route): Route
    requires Walk(sc.w, sc.init).Some?
  {
    if |route| > 1 then route[..|route| - 1] else route + [Start(sc).num]
  }

  // A query about the start port whose onward route misses the peer.
  ghost predicate Astray(sc: Scan, route: Route)
    requires Bad(sc)
  {
    && Walk(sc.w, Onward(sc, route)) != Some(Peer(sc))
    && (|sc.init| == 1 ==> |route| == 1)
    && (|sc.init| > 1 ==> |route| > 1)
  }

  // An onward query misses the peer; after a start path of one hop it does not even
  // arrive, after a longer one it arrives at a switch.
  ghost predicate OnwardQuery(sc: Scan, route: Route)
    requires Bad(sc)
  {
    var at := Walk(sc.w, route);
    && at != Some(Peer(sc)) && |route| >= 1
    && (|sc.init| == 1 ==> at.None?)
    && (|sc.init| > 1 ==> at.Some? && IsSwitch(sc.w, at.value.guid))
  }

  ghost predicate BadReq(sc: Scan, g: Graph, r: Req)
    requires Bad(sc)
  {
    match r
    case NodeInfoReq(route, Some(b)) =>
      if b == StartRef(sc) then OnwardQuery(sc, route)
      else b.node < |g.nodes| && route == g.nodes[b.node].route + [b.num] && !BackPort(sc, g, b)
    case PortInfoReq(route, i, num) => PortRef(i, num) == StartRef(sc) ==> Astray(sc, route)
    case ExtPortInfoReq(route, i, num) => PortRef(i, num) == StartRef(sc) ==> Astray(sc, route)
    case _ => true
  }

  ghost predicate StartLinkedToPeer(sc: Scan, g: Graph)
    requires Bad(sc)
  {
    var q := Remote(g, StartRef(sc));
    q.Some? && q.value.node < |g.nodes| && At(g, q.value) == Peer(sc)
  }

  predicate IsBusyReq(sc: Scan, r: Req)
    requires Walk(sc.w, sc.init).Some?
  {
    match r
    case NodeInfoReq(_, parent) => parent == Some(StartRef(sc))
    case PortInfoReq(_, i, num) => PortRef(i, num) == StartRef(sc)
    case ExtPortInfoReq(_, i, num) => PortRef(i, num) == StartRef(sc)
    case _ => false
  }

  // An SMP is outstanding that will link the start port anew.
  ghost predicate Busy(sc: Scan, s: State)
    requires Walk(sc.w, sc.init).Some?
  {
    exists r :: r in s.pend && IsBusyReq(sc, r)
  }

  ghost predicate BadGraph(sc: Scan, g: Graph)
    requires Bad(sc)
  {
    && (|sc.init| == 1 ==> |g.nodes| == 1 && Remote(g, StartRef(sc)) == None)
    && (|sc.init| > 1 ==> forall i :: 0 <= i < |g.nodes| ==> |g.nodes[i].route| >= 1)
  }

  ghost predicate BadInv(sc: Scan, s: State) {
    && Bad(sc) && Sound(sc, s)
    && (s.g.nodes != [] ==> BadGraph(sc, s.g) && (NotCut(sc, s.g) && StartLinkedToPeer(sc, s.g) ==> Busy(sc, s)))
    && (forall r :: r in s.pend ==> BadReq(sc, s.g, r))
  }

  // ---------------------------------------------------------------------------
  // Where onward routes lead

  // The only way into the start port is out of its peer.
  lemma LastHop(sc: Scan, route: Route)
    requires ScanOk(sc) && route != [] && Walk(sc.w, route) == Some(Start(sc)) && Start(sc) in sc.w.cable
    ensures var back := route[..|route| - 1];
      && Walk(sc.w, back).Some?
      && Peer(sc) == Place(Walk(sc.w, back).value.guid, route[|route| - 1])
      && (back != [] ==> IsSwitch(sc.w, Peer(sc).guid))
  {
  }

  lemma AstrayOnward(sc: Scan, route: Route)
    requires Bad(sc) && Astray(sc, route) && Walk(sc.w, route) == Some(Start(sc))
    ensures OnwardQuery(sc, Onward(sc, route))
  {
    InitNotEmpty(sc);
    if |sc.init| > 1 {
      LastHop(sc, route);
    } else {
      assert (route + [Start(sc).num])[..|route|] == route;
    }
  }

  lemma InitNotEmpty(sc: Scan)
    requires Bad(sc)
    ensures |sc.init| >= 1
  {
    if sc.init == [] { HomeIsGoodStart(sc); }
  }

  // Coming back to the start port from a switch beyond it, the way back enters that
  // switch by its own entry port and so misses the peer again.
  lemma BackAtStartAstray(sc: Scan, g: Graph, route: Route, b: PortRef)
    requires Bad(sc) && GraphTrue(sc, g) && BadGraph(sc, g) && |sc.init| > 1
    requires b in g.ports && b.node < |g.nodes| && IsSwitch(sc.w, At(g, b).guid)
    requires route == g.nodes[b.node].route + [b.num] && !BackPort(sc, g, b)
    requires Walk(sc.w, route) == Some(Start(sc))
    ensures Astray(sc, route)
  {
    LastHop(sc, route);
    assert route[..|route| - 1] == g.nodes[b.node].route;
    assert NodeTrue(sc, g.nodes[b.node]);
    assert At(g, StartRef(sc)) == Start(sc);
    assert b.node != 0;
  }

  // ---------------------------------------------------------------------------
  // Every reply keeps the start port away from its peer

  lemma BadReqKept(sc: Scan, g: Graph, g': Graph, r: Req)
    requires Bad(sc) && Grows(g, g') && BadReq(sc, g, r)
    ensures BadReq(sc, g', r)
  {
  }

  lemma FirstReplyBad(sc: Scan, s: State)
    requires BadInv(sc, s) && s.g.nodes == []
    ensures BadInv(sc, Deliver(sc, s, NodeInfoReq(sc.init, None)))
  {
    FirstReply(sc, s);
    InitNotEmpty(sc);
    var s' := Deliver(sc, s, NodeInfoReq(sc.init, None));
    forall r | r in s'.pend
      ensures BadReq(sc, s'.g, r)
    {
      FirstQueries(sc, s'.g.nodes[0].info.kind, StartRef(sc), r);
    }
    FirstBadGraph(sc, s'.g);
  }

  lemma FirstBadGraph(sc: Scan, g: Graph)
    requires Bad(sc) && |sc.init| >= 1 && |g.nodes| == 1 && g.nodes[0].route == sc.init && Remote(g, StartRef(sc)) == None
    ensures BadGraph(sc, g) && !StartLinkedToPeer(sc, g)
  {
  }

  // What an answer to a query through port b means for the start port.
  lemma PeerStartRemote(sc: Scan, g: Graph, route: Route, b: PortRef, at: Place, g': Graph)
    requires Bad(sc) && PeerStep(sc, g, route, b, at, g')
    requires b == StartRef(sc) ==> at != Peer(sc) && IsSwitch(sc.w, at.guid)
    requires at == Start(sc) ==> Arrival(g, at) == StartRef(sc)
    ensures b == StartRef(sc) ==> !StartLinkedToPeer(sc, g')
    ensures at != Start(sc) && StartLinkedToPeer(sc, g') ==> StartLinkedToPeer(sc, g) && b != StartRef(sc)
  {
    PeerArrival(sc, g, route, b, at, g');
    var p := Arrival(g, at);
    var q := StartRef(sc);
    assert At(g', q) == Start(sc);
    assert g'.ports[q].remote == ArrivalRemote(g, p, Some(b), q);
    if b != q && p != q && Remote(g, q).Some? {
      assert Remote(g, q).value in g.ports;
    }
  }

  lemma ArrivalAtStart(sc: Scan, g: Graph)
    requires GraphTrue(sc, g)
    ensures Arrival(g, Start(sc)) == StartRef(sc)
  {
    var i := FindGuid(g.nodes, Start(sc).guid);
    assert At(g, StartRef(sc)) == Start(sc);
    assert i.Some?;
    SamePlace(sc, g, PortRef(i.value, Start(sc).num), StartRef(sc));
  }

  // The kind of port that an onward query came through, and how it is routed.
  lemma PeerQueryKind(sc: Scan, s: State, route: Route, b: PortRef)
    requires BadInv(sc, s) && NodeInfoReq(route, Some(b)) in s.pend
    ensures s.g.nodes != [] && b in s.g.ports && b.node < |s.g.nodes|
    ensures if b == StartRef(sc) then OnwardQuery(sc, route) else
      IsSwitch(sc.w, At(s.g, b).guid) && route == s.g.nodes[b.node].route + [b.num] && !BackPort(sc, s.g, b) && |sc.init| > 1
  {
    var req := NodeInfoReq(route, Some(b));
    assert ReqTrue(sc, s.g, req) && BadReq(sc, s.g, req) && ReqOk(s.g, req);
    if At(s.g, b) == Start(sc) { SamePlace(sc, s.g, b, StartRef(sc)); }
    InitNotEmpty(sc);
    assert At(s.g, StartRef(sc)) == Start(sc);
  }

  // recv_node_info queries the port it is about, or port 0 of a switch.
  lemma NodeQueriesAbout(kind: Kind, isNew: bool, route: Route, p: PortRef, r: Req)
    requires r in NodeQueries(kind, isNew, route, p)
    ensures !r.NodeInfoReq? && !r.ExtPortInfoReq?
    ensures r.PortInfoReq? ==> r.route == route && r.node == p.node && r.num == if kind == Switch then 0 else p.num
  {
  }

  lemma PeerQueriesBad(sc: Scan, g: Graph, route: Route, b: PortRef, at: Place, g': Graph, r: Req)
    requires Bad(sc) && PeerStep(sc, g, route, b, at, g') && Arrival(g, at).node < |g'.nodes|
    requires at == Start(sc) ==> Astray(sc, route)
    requires r in PeerQueries(g, route, at, g')
    ensures BadReq(sc, g', r)
    ensures at == Start(sc) && r.PortInfoReq? ==> IsBusyReq(sc, r)
  {
    PeerArrival(sc, g, route, b, at, g');
    PeerTrue(sc, g, route, b, at, g');
    var p := Arrival(g, at);
    NodeQueriesAbout(g'.nodes[p.node].info.kind, p.node == |g.nodes|, route, p, r);
    assert NodeTrue(sc, g'.nodes[p.node]);
    assert At(g', StartRef(sc)) == Start(sc);
    if at == Start(sc) { ArrivalAtStart(sc, g); }
  }

  lemma PeerReplyBad(sc: Scan, s: State, route: Route, b: PortRef)
    requires BadInv(sc, s) && NodeInfoReq(route, Some(b)) in s.pend
    ensures BadInv(sc, Deliver(sc, s, NodeInfoReq(route, Some(b))))
  {
    var req := NodeInfoReq(route, Some(b));
    var s' := Deliver(sc, s, req);
    PeerQueryKind(sc, s, route, b);
    DeliverSound(sc, s, req);
    if Walk(sc.w, route).None? {
      assert s' == State(s.g, s.pend - multiset{req});
      if b != StartRef(sc) { KeepBusy(sc, s, s', req); }
      InitNotEmpty(sc);
    } else {
      PeerArrivedBad(sc, s, route, b);
    }
  }

  // Work on the start port is still outstanding after an unrelated answer.
  lemma KeepBusy(sc: Scan, s: State, s': State, req: Req)
    requires Bad(sc) && !IsBusyReq(sc, req)
    requires forall r :: r in s.pend && r != req ==> r in s'.pend
    ensures Busy(sc, s) ==> Busy(sc, s')
  {
    if Busy(sc, s) {
      var r :| r in s.pend && IsBusyReq(sc, r);
      assert r in s'.pend;
    }
  }

  lemma PeerArrivedBad(sc: Scan, s: State, route: Route, b: PortRef)
    requires BadInv(sc, s) && NodeInfoReq(route, Some(b)) in s.pend && Walk(sc.w, route).Some?
    ensures BadInv(sc, Deliver(sc, s, NodeInfoReq(route, Some(b))))
  {
    var req := NodeInfoReq(route, Some(b));
    var at := Walk(sc.w, route).value;
    var s' := Deliver(sc, s, req);
    PeerQueryKind(sc, s, route, b);
    InitNotEmpty(sc);
    assert |sc.init| > 1;
    DeliverSound(sc, s, req);
    PeerReplyStep(sc, s, route, b);
    PeerArrival(sc, s.g, route, b, at, s'.g);
    ArrivalAtStart(sc, s.g);
    if at == Start(sc) { BackAtStartAstray(sc, s.g, route, b); }
    PeerStartRemote(sc, s.g, route, b, at, s'.g);
    var queries := PeerQueries(s.g, route, at, s'.g);
    PoolMembers(s.pend, req, queries);
    PeerGraphBad(sc, s.g, route, b, at, s'.g);
    forall r | r in s'.pend
      ensures BadReq(sc, s'.g, r)
    {
      PeerPendBad(sc, s, route, b, at, s', queries, r);
    }
    PeerBusy(sc, s, route, b, at, s', queries);
  }

  lemma PeerGraphBad(sc: Scan, g: Graph, route: Route, b: PortRef, at: Place, g': Graph)
    requires Bad(sc) && PeerStep(sc, g, route, b, at, g') && |sc.init| > 1 && BadGraph(sc, g) && |route| >= 1
    ensures BadGraph(sc, g')
  {
    forall i | 0 <= i < |g'.nodes|
      ensures |g'.nodes[i].route| >= 1
    {
      if i < |g.nodes| { assert g'.nodes[i].route == g.nodes[i].route; }
    }
  }

  lemma PeerPendBad(sc: Scan, s: State, route: Route, b: PortRef, at: Place, s': State, queries: seq<Req>, r: Req)
    requires Bad(sc) && PeerStep(sc, s.g, route, b, at, s'.g)
    requires Arrival(s.g, at).node < |s'.g.nodes| && queries == PeerQueries(s.g, route, at, s'.g)
    requires at == Start(sc) ==> Astray(sc, route)
    requires r in queries || BadReq(sc, s.g, r)
    ensures BadReq(sc, s'.g, r)
  {
    if r in queries {
      PeerQueriesBad(sc, s.g, route, b, at, s'.g, r);
    } else {
      BadReqKept(sc, s.g, s'.g, r);
    }
  }

  lemma PeerBusy(sc: Scan, s: State, route: Route, b: PortRef, at: Place, s': State, queries: seq<Req>)
    requires BadInv(sc, s) && s.g.nodes != [] && PeerStep(sc, s.g, route, b, at, s'.g)
    requires Arrival(s.g, at).node < |s'.g.nodes| && queries == PeerQueries(s.g, route, at, s'.g)
    requires at == Start(sc) ==> Astray(sc, route)
    requires forall r :: r in queries ==> r in s'.pend
    requires forall r :: r in s.pend && r != NodeInfoReq(route, Some(b)) ==> r in s'.pend
    requires b == StartRef(sc) ==> !StartLinkedToPeer(sc, s'.g)
    requires at != Start(sc) && StartLinkedToPeer(sc, s'.g) ==> StartLinkedToPeer(sc, s.g) && b != StartRef(sc)
    ensures NotCut(sc, s.g) && StartLinkedToPeer(sc, s'.g) ==> Busy(sc, s')
  {
    if at == Start(sc) {
      PeerArrival(sc, s.g, route, b, at, s'.g);
      PeerTrue(sc, s.g, route, b, at, s'.g);
      var p := Arrival(s.g, at);
      assert NodeTrue(sc, s'.g.nodes[p.node]);
      var r := PortInfoReq(route, p.node, p.num);
      assert r in queries;
      PeerQueriesBad(sc, s.g, route, b, at, s'.g, r);
    } else if b != StartRef(sc) {
      KeepBusy(sc, s, s', NodeInfoReq(route, Some(b)));
    }
  }

  // ---------------------------------------------------------------------------
  // Port replies

  lemma GoOnBad(sc: Scan, g: Graph, route: Route, p: PortRef)
    requires Bad(sc) && GraphTrue(sc, g) && Known(sc, g, route, p)
    requires p == StartRef(sc) ==> Astray(sc, route)
    ensures var (g', reqs) := GoOn(g, sc.cfg, route, p);
      && (forall r :: r in reqs ==> BadReq(sc, g, r))
      && (p == StartRef(sc) && NotCut(sc, g) ==> exists r :: r in reqs && IsBusyReq(sc, r))
  {
    ExploresLeads(sc, g, route, p);
    GoOnOk(g, sc.cfg, route, p);
    assert NodeTrue(sc, g.nodes[p.node]);
    assert At(g, StartRef(sc)) == Start(sc);
    var next := NextRoute(g, sc.cfg, route, p).1;
    if p == StartRef(sc) {
      InitNotEmpty(sc);
      if NotCut(sc, g) {
        assert next == Some(Onward(sc, route));
        AstrayOnward(sc, route);
        var r := NodeInfoReq(next.value, Some(p));
        assert r in GoOn(g, sc.cfg, route, p).1;
      } else {
        assert GoOn(g, sc.cfg, route, p).1 == [];
      }
    } else if Explores(g, p) {
      assert IsSwitch(sc.w, At(g, p).guid) by {
        if At(g, p) == Start(sc) { SamePlace(sc, g, p, StartRef(sc)); }
      }
    }
  }

  lemma PortReqsBad(sc: Scan, g: Graph, route: Route, p: PortRef)
    requires Bad(sc) && GraphTrue(sc, g) && PortQueryTrue(sc, g, route, p)
    requires p == StartRef(sc) ==> Astray(sc, route)
    ensures var (g', reqs) := RecvPortInfo(g, sc.cfg, route, p, PortInfoAt(sc.w, Entry(sc, g, p), p.num));
      && (forall r :: r in reqs ==> BadReq(sc, g', r))
      && (p == StartRef(sc) && NotCut(sc, g) ==> exists r :: r in reqs && IsBusyReq(sc, r))
  {
    var pi := PortInfoAt(sc.w, Entry(sc, g, p), p.num);
    var g1 := StorePortInfo(g, p, pi);
    var (g', reqs) := RecvPortInfo(g, sc.cfg, route, p, pi);
    PortSteps(sc, g, route, p);
    StoreTrue(sc, g, route, p, g1);
    StoreKnown(sc, g, route, p, g1);
    GoOnBad(sc, g1, route, p);
    PortReplyCases(g, sc.cfg, route, p, pi);
    forall r | r in reqs
      ensures BadReq(sc, g', r)
    {
      PortReqBad(sc, g1, route, p, r);
      BadReqKept(sc, g1, g', r);
    }
    if p == StartRef(sc) && NotCut(sc, g) {
      StartStaysBusy(sc, g, route, p, pi);
    }
  }

  lemma PortReqBad(sc: Scan, g: Graph, route: Route, p: PortRef, r: Req)
    requires Bad(sc) && GraphTrue(sc, g) && Known(sc, g, route, p)
    requires p == StartRef(sc) ==> Astray(sc, route)
    requires || (r in GoOn(g, sc.cfg, route, p).1 && BadReq(sc, g, r))
      || r == ExtPortInfoReq(route, p.node, p.num)
      || (p.num == 0 && r in PortQueries(route, p.node, g.nodes[p.node].info.numports))
    ensures BadReq(sc, g, r)
  {
    assert At(g, StartRef(sc)) == Start(sc);
    if p.num == 0 { PortQueriesTrue(sc, g, route, p); }
  }

  lemma StartStaysBusy(sc: Scan, g: Graph, route: Route, p: PortRef, pi: PortInfo)
    requires Bad(sc) && p.node < |g.nodes| && p == StartRef(sc)
    requires exists r :: r in GoOn(StorePortInfo(g, p, pi), sc.cfg, route, p).1 && IsBusyReq(sc, r)
    ensures exists r :: r in RecvPortInfo(g, sc.cfg, route, p, pi).1 && IsBusyReq(sc, r)
  {
    var reqs := RecvPortInfo(g, sc.cfg, route, p, pi).1;
    var ext := ExtPortInfoReq(route, p.node, p.num);
    if ext in reqs {
      assert IsBusyReq(sc, ext);
    } else {
      var r :| r in GoOn(StorePortInfo(g, p, pi), sc.cfg, route, p).1 && IsBusyReq(sc, r);
      assert r in reqs;
    }
  }

  lemma PoolBad(sc: Scan, s: State, req: Req, route: Route, p: PortRef, g': Graph, reqs: seq<Req>)
    requires BadInv(sc, s) && s.g.nodes != [] && req in s.pend
    requires req == PortInfoReq(route, p.node, p.num) || req == ExtPortInfoReq(route, p.node, p.num)
    requires StoreStep(sc, s.g, route, p, g') && PortReqsOk(sc, p, g', reqs)
    requires forall r :: r in reqs ==> BadReq(sc, g', r)
    requires p == StartRef(sc) && NotCut(sc, s.g) ==> exists r :: r in reqs && IsBusyReq(sc, r)
    requires g'.maxhops >= s.g.maxhops
    ensures BadInv(sc, State(g', s.pend - multiset{req} + multiset(reqs)))
  {
    var s' := State(g', s.pend - multiset{req} + multiset(reqs));
    PoolSound(sc, s, req, route, p, g', reqs);
    StoreKnown(sc, s.g, route, p, g');
    PoolMembers(s.pend, req, reqs);
    forall r | r in s.pend
      ensures BadReq(sc, g', r)
    {
      BadReqKept(sc, s.g, g', r);
    }
    PoolBusy(sc, s, s', req, route, p, reqs);
    StoreBadGraph(sc, s.g, g');
  }

  lemma StoreBadGraph(sc: Scan, g: Graph, g': Graph)
    requires Bad(sc) && BadGraph(sc, g) && Grows(g, g') && |g'.nodes| == |g.nodes| && forall q :: Remote(g', q) == Remote(g, q)
    requires GraphTrue(sc, g)
    ensures BadGraph(sc, g') && (StartLinkedToPeer(sc, g') ==> StartLinkedToPeer(sc, g))
  {
    var q := Remote(g, StartRef(sc));
    assert Remote(g', StartRef(sc)) == q;
    if q.Some? { assert q.value.node < |g.nodes| && At(g', q.value) == At(g, q.value); }
  }

  lemma PoolBusy(sc: Scan, s: State, s': State, req: Req, route: Route, p: PortRef, reqs: seq<Req>)
    requires Bad(sc) && (req == PortInfoReq(route, p.node, p.num) || req == ExtPortInfoReq(route, p.node, p.num))
    requires p == StartRef(sc) && NotCut(sc, s.g) ==> exists r :: r in reqs && IsBusyReq(sc, r)
    requires forall r :: r in s.pend && r != req ==> r in s'.pend
    requires forall r :: r in reqs ==> r in s'.pend
    ensures NotCut(sc, s.g) && Busy(sc, s) ==> Busy(sc, s')
  {
    if p == StartRef(sc) && NotCut(sc, s.g) {
      var r :| r in reqs && IsBusyReq(sc, r);
      assert r in s'.pend;
    } else if p != StartRef(sc) {
      KeepBusy(sc, s, s', req);
    }
  }

  lemma PortReplyBad(sc: Scan, s: State, route: Route, p: PortRef)
    requires BadInv(sc, s) && PortInfoReq(route, p.node, p.num) in s.pend
    ensures BadInv(sc, Deliver(sc, s, PortInfoReq(route, p.node, p.num)))
  {
    var req := PortInfoReq(route, p.node, p.num);
    assert p == StartRef(sc) ==> Astray(sc, route) by {
      assert BadReq(sc, s.g, req);
    }
    PortReplyStep(sc, s, route, p);
    PortReqsBad(sc, s.g, route, p);
    HandleHops(s.g, sc.cfg, req, Answer(sc.w, req));
    var (g', reqs) := RecvPortInfo(s.g, sc.cfg, route, p, PortInfoAt(sc.w, Entry(sc, s.g, p), p.num));
    PoolBad(sc, s, req, route, p, g', reqs);
  }

  lemma GoOnBadAfter(sc: Scan, g: Graph, route: Route, p: PortRef)
    requires Bad(sc) && GraphTrue(sc, g) && Known(sc, g, route, p)
    requires p == StartRef(sc) ==> Astray(sc, route)
    ensures var (g', reqs) := GoOn(g, sc.cfg, route, p);
      g'.maxhops >= g.maxhops && forall r :: r in reqs ==> BadReq(sc, g', r)
  {
    GoOnBad(sc, g, route, p);
    GoOnOk(g, sc.cfg, route, p);
    var (g', reqs) := GoOn(g, sc.cfg, route, p);
    forall r | r in reqs
      ensures BadReq(sc, g', r)
    {
      BadReqKept(sc, g, g', r);
    }
  }

  lemma ExtReplyBad(sc: Scan, s: State, route: Route, p: PortRef)
    requires BadInv(sc, s) && ExtPortInfoReq(route, p.node, p.num) in s.pend
    ensures BadInv(sc, Deliver(sc, s, ExtPortInfoReq(route, p.node, p.num)))
  {
    var req := ExtPortInfoReq(route, p.node, p.num);
    assert BadReq(sc, s.g, req);
    ExtReplyStep(sc, s, route, p);
    GoOnBad(sc, s.g, route, p);
    GoOnBadAfter(sc, s.g, route, p);
    var (g', reqs) := GoOn(s.g, sc.cfg, route, p);
    PoolBad(sc, s, req, route, p, g', reqs);
  }

  lemma DataReplyBad(sc: Scan, s: State, req: Req)
    requires BadInv(sc, s) && req in s.pend && (req.NodeDescReq? || req.SwitchInfoReq?)
    ensures BadInv(sc, Deliver(sc, s, req))
  {
    DataReplyStep(sc, s, req);
    DeliverSound(sc, s, req);
    KeepBusy(sc, s, Deliver(sc, s, req), req);
  }

  lemma DeliverBad(sc: Scan, s: State, req: Req)
    requires BadInv(sc, s) && req in s.pend
    ensures BadInv(sc, Deliver(sc, s, req))
  {
    assert ReqTrue(sc, s.g, req);
    match req
    case NodeInfoReq(route, parent) =>
      if parent.None? { FirstReplyBad(sc, s); } else { PeerReplyBad(sc, s, route, parent.value); }
    case PortInfoReq(route, i, num) => PortReplyBad(sc, s, route, PortRef(i, num));
    case ExtPortInfoReq(route, i, num) => ExtReplyBad(sc, s, route, PortRef(i, num));
    case _ => DataReplyBad(sc, s, req);
  }

  lemma {:induction false} BadRun(sc: Scan, run: seq<State>)
    requires IsRun(sc, run) && Bad(sc)
    ensures BadInv(sc, Last(run))
    decreases |run|
  {
    if |run| == 1 {
      InitialSound(sc);
    } else {
      RunPrefix(sc, run);
      var before := run[..|run| - 1];
      BadRun(sc, before);
      var s := Last(before);
      var req :| req in s.pend && Last(run) == Deliver(sc, s, req);
      DeliverBad(sc, s, req);
    }
  }

  // The exact condition on the start path.  In a scan from a CA or
  // router whose start port is cabled, and that no hop limit has stopped, the start port is
  // linked to its peer in the end if and only if the route out of it leads to that peer.
  lemma StartPortLinkedIff(sc: Scan, run: seq<State>)
    requires IsRun(sc, run) && NotCut(sc, Last(run).g) && Last(run).pend == multiset{} && RoutesShort(Last(run).g)
    requires IsStartPort(sc, Start(sc)) && Start(sc) in sc.w.cable
    ensures Last(run).g.nodes != []
    ensures LinkedToPeer(sc, Last(run).g, StartRef(sc)) <==> GoodStart(sc)
  {
    var s := Last(run);
    if GoodStart(sc) {
      RunInv(sc, run);
      assert At(s.g, StartRef(sc)) == Start(sc);
      LeadingPortsLinked(sc, s, StartRef(sc));
    } else {
      BadRun(sc, run);
      assert At(s.g, StartRef(sc)) == Start(sc);
      assert !StartLinkedToPeer(sc, s.g);
    }
  }

  // The caller can tell from the start path: it ends at a switch, at a port without a
  // link or at the home port, or it enters the last switch by the port that it leaves it by.
  ghost predicate StartsWell(sc: Scan)
    requires Walk(sc.w, sc.init).Some?
  {
    || IsSwitch(sc.w, Start(sc).guid)
    || Start(sc) !in sc.w.cable
    || sc.init == []
    || (|sc.init| > 1
        && var back := Walk(sc.w, sc.init[..|sc.init| - 1]);
        back.Some? && back.value.num == sc.init[|sc.init| - 1])
  }

  // One hop to a CA or router is always a bad start; a longer path is a good one
  // exactly when it enters the last switch by the port it leaves it by.
  lemma GoodStartIff(sc: Scan)
    requires ScanOk(sc)
    ensures GoodStart(sc) <==> StartsWell(sc)
  {
    if IsStartPort(sc, Start(sc)) && Start(sc) in sc.w.cable {
      if sc.init == [] {
        HomeIsGoodStart(sc);
      } else if |sc.init| == 1 {
        assert OnwardRoute(sc)[..1] == sc.init;
      } else {
        LastHop(sc, sc.init);
      }
    }
  }

  // So exactly the scans with a good start are complete.
  lemma CompleteIffGoodStart(sc: Scan, run: seq<State>)
    requires IsRun(sc, run) && NotCut(sc, Last(run).g) && Last(run).pend == multiset{} && RoutesShort(Last(run).g)
    ensures StartsWell(sc) <==>
      && (forall guid :: Found(Last(run).g, guid) <==> Reachable(sc.w, Start(sc), guid))
      && (forall p: PortRef :: p.node < |Last(run).g.nodes| && Leads(sc.w, Start(sc), At(Last(run).g, p)) ==>
           LinkedToPeer(sc, Last(run).g, p))
  {
    GoodStartIff(sc);
    if GoodStart(sc) {
      ScanIsComplete(sc, run);
    } else {
      StartPortLinkedIff(sc, run);
      BadRun(sc, run);
      assert At(Last(run).g, StartRef(sc)) == Start(sc);
    }
  }

  // ---------------------------------------------------------------------------
  // A bad start

  // A CA, a switch and a second CA in a row; the scan leaves the first CA and starts at
  // the second.
  function Row(): Net {
    var port := HwPort(0, 0, 0, false);
    Net(map[1 := HwNode(CA, [port, port], false), 2 := HwNode(Switch, [port, port, port], false), 3 := HwNode(CA, [port, port], false)],
        map[Place(1, 1) := Place(2, 1), Place(2, 1) := Place(1, 1), Place(2, 2) := Place(3, 1), Place(3, 1) := Place(2, 2)],
        Place(1, 1))
  }

  function RowScan(): Scan {
    Scan(Row(), Config(0, false, 2), [1, 2])
  }

  // Net w is the row, r1 and r2 are the two parts of the start path.
  ghost predicate IsRow(w: Net, r1: Route, r2: Route) {
    w == Row() && r1 == [1] && r2 == [1, 2]
  }

  // Two cables between four places
  ghost predicate TwoCables(m: map<Place, Place>, a: Place, b: Place, c: Place, d: Place) {
    && a != b && a != c && a != d && b != c && b != d && c != d
    && m.Keys == {a, b, c, d} && m[a] == b && m[b] == a && m[c] == d && m[d] == c
  }

  lemma TwoCablesOk(w: Net, a: Place, b: Place, c: Place, d: Place)
    requires TwoCables(w.cable, a, b, c, d)
    requires forall p :: p in {a, b, c, d} ==> IsPlace(w, p) && 0 < p.num
    requires forall g :: g in w.hw ==> 0 < |w.hw[g].ports|
    requires IsPlace(w, w.home) && (IsSwitch(w, w.home.guid) <==> w.home.num == 0)
    ensures NetOk(w)
  {
    forall p | p in w.cable
      ensures IsPlace(w, p) && 0 < p.num && w.cable[p] in w.cable && w.cable[w.cable[p]] == p && w.cable[p] != p
    {
      assert p in {a, b, c, d};
    }
  }

  lemma RowOk(w: Net)
    requires w == Row()
    ensures NetOk(w)
  {
    TwoCablesOk(w, Place(1, 1), Place(2, 1), Place(2, 2), Place(3, 1));
  }

  lemma RowWalk(w: Net, r1: Route, r2: Route)
    requires IsRow(w, r1, r2)
    ensures Walk(w, r1) == Some(Place(2, 1)) && Walk(w, r2) == Some(Place(3, 1))
  {
    var none: Route := [];
    assert Walk(w, none) == Some(w.home);
    WalkOn(w, none, 1);
    assert none + [1] == r1 && r1 + [2] == r2;
    WalkOn(w, r1, 2);
  }

  // In the end of that scan the start port is not linked to port 2 of the switch, to
  // which it is cabled.
  lemma RowIsNotComplete() returns (sc: Scan, run: seq<State>)
    ensures IsRun(sc, run) && Last(run).pend == multiset{} && sc == RowScan()
    ensures Start(sc) == Place(3, 1) && sc.w.cable[Start(sc)] == Place(2, 2)
    ensures Last(run).g.nodes != [] && At(Last(run).g, StartRef(sc)) == Start(sc) && !LinkedToPeer(sc, Last(run).g, StartRef(sc))
  {
    sc := RowScan();
    RowOk(sc.w);
    RowWalk(sc.w, sc.init[..1], sc.init);
    assert !StartsWell(sc);
    GoodStartIff(sc);
    run := RunToEnd(sc, [Initial(sc)]);
    BadRun(sc, run);
    StartPortLost(sc, run);
  }

  lemma StartPortLost(sc: Scan, run: seq<State>)
    requires IsRun(sc, run) && Bad(sc) && BadInv(sc, Last(run)) && NotCut(sc, Last(run).g) && Last(run).pend == multiset{}
    ensures Last(run).g.nodes != [] && At(Last(run).g, StartRef(sc)) == Start(sc) && !LinkedToPeer(sc, Last(run).g, StartRef(sc))
  {
    assert !StartLinkedToPeer(sc, Last(run).g);
  }
}
