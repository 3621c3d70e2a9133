// The links that a scan records are the cables of the fabric, provided the scan
// starts at a switch or leaves its start port towards the peer of that port.
module TrueLinks {
  import opened Wrappers
  import opened Fabric
  import opened Wiring
  import opened Discovery

  // The start port of a scan that does not start at a switch.
  predicate IsStartPort(sc: Scan, p: Place)
    requires Walk(sc.w, sc.init).Some?
  {
    p == Start(sc) && !IsSwitch(sc.w, p.guid)
  }

  // The route on which the peer of such a start port is queried.
  function OnwardRoute(sc: Scan): Route
    requires Walk(sc.w, sc.init).Some?
  {
    if |sc.init| > 1 then sc.init[..|sc.init| - 1] else sc.init + [Start(sc).num]
  }

  // The route on which the peer of a port is queried
  function PeerRoute(sc: Scan, g: Graph, p: PortRef): Route
    requires p.node < |g.nodes| && Walk(sc.w, sc.init).Some?
  {
    if IsSwitch(sc.w, At(g, p).guid) then g.nodes[p.node].route + [p.num] else OnwardRoute(sc)
  }

  // The scan starts at a switch, or the route out of its start port leads to the peer
  // of that port.
  ghost predicate GoodStart(sc: Scan)
    requires Walk(sc.w, sc.init).Some?
  {
    IsStartPort(sc, Start(sc)) && Start(sc) in sc.w.cable ==> Walk(sc.w, OnwardRoute(sc)) == Some(sc.w.cable[Start(sc)])
  }

  // The default start, the home port itself, is a good one.
  lemma HomeIsGoodStart(sc: Scan)
    requires ScanOk(sc) && sc.init == []
    ensures GoodStart(sc)
  {
    if IsStartPort(sc, Start(sc)) && Start(sc) in sc.w.cable {
      WalkOn(sc.w, [], Start(sc).num);
    }
  }

  // Linked ports are cabled to each other.
  ghost predicate LinksTrue(sc: Scan, g: Graph) {
    forall p :: p in g.ports && g.ports[p].remote.Some? ==> LinkTrue(sc, g, p, g.ports[p].remote.value)
  }

  ghost predicate LinkTrue(sc: Scan, g: Graph, p: PortRef, q: PortRef) {
    && p.node < |g.nodes| && q.node < |g.nodes|
    && At(g, p) in sc.w.cable && sc.w.cable[At(g, p)] == At(g, q)
  }

  // The query sent through port p is on its way to the peer of p.
  ghost predicate PeerQueryTrue(sc: Scan, g: Graph, route: Route, p: PortRef)
    requires Walk(sc.w, sc.init).Some?
  {
    && p.node < |g.nodes| && At(g, p) in sc.w.cable
    && Walk(sc.w, route) == Some(sc.w.cable[At(g, p)])
    && route == PeerRoute(sc, g, p)
  }

  ghost predicate QueryTrue(sc: Scan, g: Graph, r: Req)
    requires Walk(sc.w, sc.init).Some?
  {
    match r
    case NodeInfoReq(route, Some(p)) => PeerQueryTrue(sc, g, route, p)
    case PortInfoReq(route, i, num) => i < |g.nodes| && (IsStartPort(sc, At(g, PortRef(i, num))) ==> route == sc.init)
    case ExtPortInfoReq(route, i, num) => i < |g.nodes| && (IsStartPort(sc, At(g, PortRef(i, num))) ==> route == sc.init)
    case _ => true
  }

  // A start port of a CA or router is left once and never re-entered: the first node
  // found beyond it is its peer, entered by the port that leads back.
  ghost predicate LeftOnce(sc: Scan, s: State)
    requires Walk(sc.w, sc.init).Some?
  {
    IsStartPort(sc, Start(sc)) && Start(sc) in sc.w.cable ==>
      var peer := sc.w.cable[Start(sc)];
      && (|s.g.nodes| > 1 ==> s.g.nodes[1].info.guid == peer.guid && s.g.nodes[1].info.localPort == peer.num)
      && (forall r :: r in s.pend && r.NodeInfoReq? && r.parent.Some? && r.parent.value.node < |s.g.nodes| ==>
           At(s.g, r.parent.value) != peer && (|s.g.nodes| == 1 ==> At(s.g, r.parent.value) == Start(sc)))
  }

  // Every node but the start is linked, by the port it was entered, to an older node.
  ghost predicate Entered(sc: Scan, g: Graph)
    requires Walk(sc.w, sc.init).Some?
  {
    forall i :: 1 <= i < |g.nodes| ==> EnteredFrom(sc, g, i)
  }

  ghost predicate EnteredFrom(sc: Scan, g: Graph, i: nat)
    requires Walk(sc.w, sc.init).Some? && i < |g.nodes|
  {
    var q := Remote(g, PortRef(i, g.nodes[i].info.localPort));
    && q.Some? && q.value.node < i && Leads(sc.w, Start(sc), At(g, q.value))
    && g.nodes[i].route == PeerRoute(sc, g, q.value)
  }

  ghost predicate Inv(sc: Scan, s: State) {
    && Sound(sc, s) && GoodStart(sc)
    && LinksTrue(sc, s.g) && Entered(sc, s.g) && LeftOnce(sc, s)
    && (forall r :: r in s.pend ==> QueryTrue(sc, s.g, r))
  }

  lemma InitialInv(sc: Scan)
    requires ScanOk(sc) && GoodStart(sc)
    ensures Inv(sc, Initial(sc))
  {
    InitialSound(sc);
  }

  lemma QueryTrueKept(sc: Scan, g: Graph, g': Graph, r: Req)
    requires Walk(sc.w, sc.init).Some? && Grows(g, g') && QueryTrue(sc, g, r)
    ensures QueryTrue(sc, g', r)
  {
  }

  lemma EnteredKept(sc: Scan, g: Graph, g': Graph, i: nat)
    requires Walk(sc.w, sc.init).Some? && Grows(g, g') && 1 <= i < |g.nodes| && EnteredFrom(sc, g, i)
    requires forall q :: Remote(g, q).Some? ==> Remote(g', q) == Remote(g, q)
    ensures EnteredFrom(sc, g', i)
  {
    var q := PortRef(i, g.nodes[i].info.localPort);
    assert Remote(g', q) == Remote(g, q);
  }

  // ---------------------------------------------------------------------------
  // NodeInfo replies

  lemma FirstQueries(sc: Scan, kind: Kind, p: PortRef, r: Req)
    requires r in NodeQueries(kind, true, sc.init, p)
    ensures !r.NodeInfoReq? && r.route == sc.init && r.node == p.node
  {
  }

  lemma NoLinks(sc: Scan, g: Graph, p: PortRef)
    requires Walk(sc.w, sc.init).Some? && |g.nodes| == 1 && g.ports.Keys == {p} && Remote(g, p) == None
    ensures LinksTrue(sc, g) && Entered(sc, g)
  {
    forall q | q in g.ports
      ensures g.ports[q].remote == None
    {
      assert q == p;
    }
  }

  lemma FirstReplyInv(sc: Scan, s: State)
    requires Inv(sc, s) && s.g.nodes == []
    ensures Inv(sc, Deliver(sc, s, NodeInfoReq(sc.init, None)))
  {
    FirstReply(sc, s);
    var s' := Deliver(sc, s, NodeInfoReq(sc.init, None));
    var p := PortRef(0, Start(sc).num);
    forall r | r in s'.pend
      ensures !r.NodeInfoReq? && QueryTrue(sc, s'.g, r)
    {
      FirstQueries(sc, s'.g.nodes[0].info.kind, p, r);
    }
    NoLinks(sc, s'.g, p);
  }

  lemma PeerLink(sc: Scan, g: Graph, route: Route, b: PortRef, at: Place, g': Graph)
    requires PeerStep(sc, g, route, b, at, g') && PeerQueryTrue(sc, g, route, b)
    ensures LinkTrue(sc, g', Arrival(g, at), b) && LinkTrue(sc, g', b, Arrival(g, at)) && Arrival(g, at) != b
  {
    PeerArrival(sc, g, route, b, at, g');
    assert At(g', b) == At(g, b);
  }

  // A link is only ever renewed: the new link appears and no other changes.
  lemma PeerRemotes(sc: Scan, g: Graph, route: Route, b: PortRef, at: Place, g': Graph)
    requires PeerStep(sc, g, route, b, at, g') && PeerQueryTrue(sc, g, route, b) && LinksTrue(sc, g)
    ensures var p := Arrival(g, at);
      && Remote(g', p) == Some(b) && Remote(g', b) == Some(p)
      && forall q :: q != p && q != b ==> Remote(g', q) == Remote(g, q)
    ensures forall q :: Remote(g, q).Some? ==> Remote(g', q) == Remote(g, q)
  {
    var p := Arrival(g, at);
    PeerLink(sc, g, route, b, at, g');
    SamePartner(sc, g, g', p, b);
    SamePartner(sc, g, g', b, p);
    LinkAgain(g, p, b);
    PeerLinked(sc, g, route, b, at, g');
  }

  lemma PeerLinked(sc: Scan, g: Graph, route: Route, b: PortRef, at: Place, g': Graph)
    requires PeerStep(sc, g, route, b, at, g') && PeerQueryTrue(sc, g, route, b)
    ensures forall q :: Remote(g', q) == LinkedRemote(g, Arrival(g, at), b, q)
  {
    forall q
      ensures Remote(g', q) == LinkedRemote(g, Arrival(g, at), b, q)
    {
      if q in g'.ports { assert g'.ports[q].remote == ArrivalRemote(g, Arrival(g, at), Some(b), q); }
    }
  }

  // Linking two ports that have no other partners takes nothing away.
  lemma LinkAgain(g: Graph, p: PortRef, b: PortRef)
    requires p != b && (Remote(g, p).Some? ==> Remote(g, p) == Some(b)) && (Remote(g, b).Some? ==> Remote(g, b) == Some(p))
    ensures LinkedRemote(g, p, b, p) == Some(b) && LinkedRemote(g, p, b, b) == Some(p)
    ensures forall q :: q != p && q != b ==> LinkedRemote(g, p, b, q) == Remote(g, q)
  {
  }

  // A port that is linked already is linked to the peer that it is cabled to.
  lemma SamePartner(sc: Scan, g: Graph, g': Graph, p: PortRef, q: PortRef)
    requires LinksTrue(sc, g) && Grows(g, g') && UniqueGuids(g'.nodes) && LinkTrue(sc, g', p, q)
    ensures Remote(g, p).Some? ==> Remote(g, p) == Some(q)
  {
    if Remote(g, p).Some? {
      var r := Remote(g, p).value;
      assert LinkTrue(sc, g, p, r);
      assert At(g', p) == At(g, p) && At(g', r) == At(g, r);
      SamePlace(sc, g', q, r);
    }
  }

  lemma PeerLinksTrue(sc: Scan, g: Graph, route: Route, b: PortRef, at: Place, g': Graph)
    requires PeerStep(sc, g, route, b, at, g') && PeerQueryTrue(sc, g, route, b) && LinksTrue(sc, g)
    ensures LinksTrue(sc, g')
  {
    var p := Arrival(g, at);
    PeerLink(sc, g, route, b, at, g');
    PeerRemotes(sc, g, route, b, at, g');
    forall q | q in g'.ports && g'.ports[q].remote.Some?
      ensures LinkTrue(sc, g', q, g'.ports[q].remote.value)
    {
      assert Remote(g', q) == g'.ports[q].remote;
      if q != p && q != b {
        LinkTrueKept(sc, g, g', q);
      }
    }
  }

  lemma LinkTrueKept(sc: Scan, g: Graph, g': Graph, q: PortRef)
    requires LinksTrue(sc, g) && Grows(g, g') && Remote(g, q).Some? && Remote(g', q) == Remote(g, q)
    ensures LinkTrue(sc, g', q, Remote(g', q).value)
  {
    assert LinkTrue(sc, g, q, g.ports[q].remote.value);
  }

  lemma PeerEntered(sc: Scan, g: Graph, route: Route, b: PortRef, at: Place, g': Graph)
    requires PeerStep(sc, g, route, b, at, g') && PeerQueryTrue(sc, g, route, b) && LinksTrue(sc, g)
    requires Entered(sc, g) && b.node < |g.nodes| && Leads(sc.w, Start(sc), At(g, b))
    ensures Entered(sc, g')
  {
    var p := Arrival(g, at);
    PeerArrival(sc, g, route, b, at, g');
    PeerRemotes(sc, g, route, b, at, g');
    forall i | 1 <= i < |g'.nodes|
      ensures EnteredFrom(sc, g', i)
    {
      if i < |g.nodes| {
        EnteredKept(sc, g, g', i);
      } else {
        assert p == PortRef(i, g'.nodes[i].info.localPort);
        assert At(g', b) == At(g, b);
      }
    }
  }

  // A CA or router that the scan started from is not entered again by its start port.
  lemma NotBackAtStart(sc: Scan, s: State, route: Route, b: PortRef)
    requires Inv(sc, s) && NodeInfoReq(route, Some(b)) in s.pend
    ensures s.g.nodes != [] && GraphTrue(sc, s.g) && b in s.g.ports
    ensures PeerQueryTrue(sc, s.g, route, b) && Leads(sc.w, Start(sc), At(s.g, b))
    ensures !IsStartPort(sc, Walk(sc.w, route).value)
  {
    assert ReqTrue(sc, s.g, NodeInfoReq(route, Some(b))) && QueryTrue(sc, s.g, NodeInfoReq(route, Some(b)));
  }

  lemma PeerLeftOnce(sc: Scan, s: State, route: Route, b: PortRef, at: Place, s': State)
    requires Inv(sc, s) && NodeInfoReq(route, Some(b)) in s.pend
    requires PeerStep(sc, s.g, route, b, at, s'.g) && PeerQueryTrue(sc, s.g, route, b)
    requires forall r :: r in s'.pend && r.NodeInfoReq? ==> r in s.pend
    ensures LeftOnce(sc, s')
  {
    PeerArrival(sc, s.g, route, b, at, s'.g);
    assert ReqOk(s.g, NodeInfoReq(route, Some(b)));
    forall r | r in s'.pend && r.NodeInfoReq? && r.parent.Some?
      ensures r.parent.value.node < |s.g.nodes| && At(s'.g, r.parent.value) == At(s.g, r.parent.value)
    {
      assert ReqOk(s.g, r);
    }
  }

  lemma PeerQueriesTrue(sc: Scan, g: Graph, route: Route, b: PortRef, at: Place, g': Graph)
    requires PeerStep(sc, g, route, b, at, g') && !IsStartPort(sc, at) && Arrival(g, at).node < |g'.nodes|
    ensures forall r :: r in PeerQueries(g, route, at, g') ==> QueryTrue(sc, g', r)
  {
    PeerArrival(sc, g, route, b, at, g');
    PeerTrue(sc, g, route, b, at, g');
    ArrivalQueriesTrue(sc, g', route, Arrival(g, at).node == |g.nodes|, Arrival(g, at));
  }

  lemma ArrivalQueriesTrue(sc: Scan, g: Graph, route: Route, isNew: bool, p: PortRef)
    requires ScanOk(sc) && NodesTrue(sc, g) && p.node < |g.nodes| && !IsStartPort(sc, At(g, p))
    ensures forall r :: r in NodeQueries(g.nodes[p.node].info.kind, isNew, route, p) ==> QueryTrue(sc, g, r)
  {
    assert NodeTrue(sc, g.nodes[p.node]);
  }

  lemma PeerReplyInv(sc: Scan, s: State, route: Route, b: PortRef)
    requires Inv(sc, s) && NodeInfoReq(route, Some(b)) in s.pend
    ensures Inv(sc, Deliver(sc, s, NodeInfoReq(route, Some(b))))
  {
    var req := NodeInfoReq(route, Some(b));
    NotBackAtStart(sc, s, route, b);
    var at := Walk(sc.w, route).value;
    var s' := Deliver(sc, s, req);
    DeliverSound(sc, s, req);
    PeerReplyStep(sc, s, route, b);
    PeerPendTrue(sc, s, route, b, at, s');
    PeerLinksTrue(sc, s.g, route, b, at, s'.g);
    PeerEntered(sc, s.g, route, b, at, s'.g);
    PeerLeftOnce(sc, s, route, b, at, s');
    PeerQueriesTrue(sc, s.g, route, b, at, s'.g);
    PoolMembers(s.pend, req, PeerQueries(s.g, route, at, s'.g));
    forall r | r in s.pend
      ensures QueryTrue(sc, s'.g, r)
    {
      QueryTrueKept(sc, s.g, s'.g, r);
    }
  }

  // ---------------------------------------------------------------------------
  // PortInfo replies and extended PortInfo replies

  lemma StoreLinksTrue(sc: Scan, g: Graph, route: Route, p: PortRef, g': Graph)
    requires StoreStep(sc, g, route, p, g') && LinksTrue(sc, g) && Entered(sc, g)
    ensures LinksTrue(sc, g') && Entered(sc, g')
  {
    StoreKnown(sc, g, route, p, g');
    forall q | q in g'.ports && g'.ports[q].remote.Some?
      ensures LinkTrue(sc, g', q, g'.ports[q].remote.value)
    {
      assert Remote(g', q) == g'.ports[q].remote;
      LinkTrueKept(sc, g, g', q);
    }
    forall i | 1 <= i < |g'.nodes|
      ensures EnteredFrom(sc, g', i)
    {
      EnteredKept(sc, g, g', i);
    }
  }

  lemma NextRouteOfSwitch(sc: Scan, g: Graph, route: Route, p: PortRef)
    requires GraphTrue(sc, g) && Known(sc, g, route, p) && Leads(sc.w, Start(sc), At(g, p))
    requires IsSwitch(sc.w, At(g, p).guid)
    ensures var next := NextRoute(g, sc.cfg, route, p).1;
      && (next.Some? ==> next.value == g.nodes[p.node].route + [p.num] && Walk(sc.w, next.value) == Some(sc.w.cable[At(g, p)]))
      && (next.None? && NotCut(sc, g) ==> |route| > HOPS_MAX - 2)
  {
    SwitchWalkOn(sc, g, route, p);
    assert NodeTrue(sc, g.nodes[p.node]);
  }

  lemma SwitchWalkOn(sc: Scan, g: Graph, route: Route, p: PortRef)
    requires GraphTrue(sc, g) && Known(sc, g, route, p) && Leads(sc.w, Start(sc), At(g, p))
    requires IsSwitch(sc.w, At(g, p).guid)
    ensures Walk(sc.w, route + [p.num]) == Some(sc.w.cable[At(g, p)])
  {
    WalkOn(sc.w, route, p.num);
  }

  lemma NextRouteOfStart(sc: Scan, g: Graph, p: PortRef)
    requires GraphTrue(sc, g) && p in g.ports && p.node < |g.nodes| && Leads(sc.w, Start(sc), At(g, p))
    requires !IsSwitch(sc.w, At(g, p).guid)
    ensures var next := NextRoute(g, sc.cfg, sc.init, p).1;
      && g.from == Some(p) && p.node == 0
      && (next.Some? ==> next.value == OnwardRoute(sc))
      && (next.None? ==> !NotCut(sc, g))
  {
    assert NodeTrue(sc, g.nodes[p.node]);
    SamePlace(sc, g, p, PortRef(0, Start(sc).num));
  }

  // The SMP that goes on through a port is routed to the peer of the port.
  lemma NextRouteLeads(sc: Scan, g: Graph, route: Route, p: PortRef)
    requires GraphTrue(sc, g) && GoodStart(sc) && Known(sc, g, route, p) && Leads(sc.w, Start(sc), At(g, p))
    requires IsStartPort(sc, At(g, p)) ==> route == sc.init
    ensures var next := NextRoute(g, sc.cfg, route, p).1;
      && (next.Some? ==> PeerQueryTrue(sc, g, next.value, p))
      && (next.None? && NotCut(sc, g) ==> IsSwitch(sc.w, At(g, p).guid) && |route| > HOPS_MAX - 2)
  {
    if IsSwitch(sc.w, At(g, p).guid) {
      NextRouteOfSwitch(sc, g, route, p);
    } else {
      NextRouteOfStart(sc, g, p);
    }
  }

  // The port back to a start port of a CA or router is never explored.
  lemma NotBackThroughPeer(sc: Scan, g: Graph, route: Route, p: PortRef)
    requires GraphTrue(sc, g) && Known(sc, g, route, p) && Explores(g, p)
    requires LeftOnce(sc, State(g, multiset{}))
    requires IsStartPort(sc, Start(sc)) && Start(sc) in sc.w.cable
    ensures At(g, p) != sc.w.cable[Start(sc)]
    ensures |g.nodes| == 1 ==> At(g, p) == Start(sc)
  {
    ExploresLeads(sc, g, route, p);
    assert NodeTrue(sc, g.nodes[p.node]);
    assert forall i :: 1 < i < |g.nodes| ==> g.nodes[i].info.guid != g.nodes[1].info.guid;
  }

  // The requests that an answer about port p leads to.
  ghost predicate PortReqsTrueToo(sc: Scan, g: Graph, reqs: seq<Req>)
    requires Walk(sc.w, sc.init).Some?
  {
    forall r :: r in reqs ==> QueryTrue(sc, g, r)
  }

  lemma GoOnQueries(sc: Scan, g: Graph, route: Route, p: PortRef)
    requires GraphTrue(sc, g) && GoodStart(sc) && Known(sc, g, route, p)
    requires IsStartPort(sc, At(g, p)) ==> route == sc.init
    ensures var (g', reqs) := GoOn(g, sc.cfg, route, p); PortReqsTrueToo(sc, g', reqs)
  {
    var next := NextRoute(g, sc.cfg, route, p).1;
    var (g', reqs) := GoOn(g, sc.cfg, route, p);
    if Explores(g, p) && next.Some? {
      assert Leads(sc.w, Start(sc), At(g, p)) by { ExploresLeads(sc, g, route, p); }
      assert PeerQueryTrue(sc, g, next.value, p) by { NextRouteLeads(sc, g, route, p); }
      assert reqs == [NodeInfoReq(next.value, Some(p))];
      PortQueriesAgain(sc, g, g', reqs);
    } else {
      assert reqs == [];
    }
  }

  lemma PortQueriesAgain(sc: Scan, g: Graph, g': Graph, reqs: seq<Req>)
    requires Walk(sc.w, sc.init).Some? && g'.nodes == g.nodes && PortReqsTrueToo(sc, g, reqs)
    ensures PortReqsTrueToo(sc, g', reqs)
  {
    forall r | r in reqs
      ensures QueryTrue(sc, g', r)
    {
      assert QueryTrue(sc, g, r);
    }
  }

  lemma PortReqsQueries(sc: Scan, g: Graph, route: Route, p: PortRef)
    requires GraphTrue(sc, g) && GoodStart(sc) && PortQueryTrue(sc, g, route, p)
    requires IsStartPort(sc, At(g, p)) ==> route == sc.init
    ensures var (g', reqs) := RecvPortInfo(g, sc.cfg, route, p, PortInfoAt(sc.w, Entry(sc, g, p), p.num));
      PortReqsTrueToo(sc, g', reqs)
  {
    var g1 := StorePortInfo(g, p, PortInfoAt(sc.w, Entry(sc, g, p), p.num));
    PortSteps(sc, g, route, p);
    StoreTrue(sc, g, route, p, g1);
    StoreKnown(sc, g, route, p, g1);
    StoredReqsQueries(sc, g1, route, p);
    var (g', reqs) := RecvPortInfo(g, sc.cfg, route, p, PortInfoAt(sc.w, Entry(sc, g, p), p.num));
    GoOnOk(g1, sc.cfg, route, p);
    PortReplyCases(g, sc.cfg, route, p, PortInfoAt(sc.w, Entry(sc, g, p), p.num));
    PortQueriesAgain(sc, g1, g', reqs);
  }

  // What may follow once the PortInfo is stored
  lemma StoredReqsQueries(sc: Scan, g: Graph, route: Route, p: PortRef)
    requires GraphTrue(sc, g) && GoodStart(sc) && Known(sc, g, route, p)
    requires IsStartPort(sc, At(g, p)) ==> route == sc.init
    ensures PortReqsTrueToo(sc, g, GoOn(g, sc.cfg, route, p).1)
    ensures QueryTrue(sc, g, ExtPortInfoReq(route, p.node, p.num))
    ensures p.num == 0 ==> PortReqsTrueToo(sc, g, PortQueries(route, p.node, g.nodes[p.node].info.numports))
  {
    GoOnQueries(sc, g, route, p);
    GoOnOk(g, sc.cfg, route, p);
    PortQueriesAgain(sc, GoOn(g, sc.cfg, route, p).0, g, GoOn(g, sc.cfg, route, p).1);
    PortQueriesTrueToo(sc, g, route, p);
  }

  lemma PortQueriesTrueToo(sc: Scan, g: Graph, route: Route, p: PortRef)
    requires ScanOk(sc) && NodesTrue(sc, g) && PortQueryTrue(sc, g, route, p)
    ensures p.num == 0 ==> PortReqsTrueToo(sc, g, PortQueries(route, p.node, g.nodes[p.node].info.numports))
  {
    WalkNum(sc.w, route);
  }

  lemma LeftOnceKept(sc: Scan, s: State, g': Graph)
    requires Sound(sc, s) && s.g.nodes != [] && LeftOnce(sc, s) && Grows(s.g, g') && |g'.nodes| == |s.g.nodes|
    ensures LeftOnce(sc, State(g', s.pend)) && LeftOnce(sc, State(g', multiset{}))
  {
    forall r | r in s.pend && r.NodeInfoReq? && r.parent.Some?
      ensures r.parent.value.node < |s.g.nodes| && At(g', r.parent.value) == At(s.g, r.parent.value)
    {
      assert ReqOk(s.g, r);
    }
  }

  lemma PoolLeftOnce(sc: Scan, s: State, route: Route, p: PortRef, s': State, reqs: seq<Req>)
    requires Inv(sc, s) && s.g.nodes != []
    requires StoreStep(sc, s.g, route, p, s'.g)
    requires forall r :: r in s'.pend ==> r in s.pend || r in reqs
    requires PortReqsOk(sc, p, s'.g, reqs)
    ensures LeftOnce(sc, s')
  {
    LeftOnceKept(sc, s, s'.g);
    if IsStartPort(sc, Start(sc)) && Start(sc) in sc.w.cable {
      StoreTrue(sc, s.g, route, p, s'.g);
      StoreKnown(sc, s.g, route, p, s'.g);
      if Explores(s'.g, p) { NotBackThroughPeer(sc, s'.g, route, p); }
    }
  }

  lemma PoolInv(sc: Scan, s: State, req: Req, route: Route, p: PortRef, g': Graph, reqs: seq<Req>)
    requires Inv(sc, s) && s.g.nodes != [] && req in s.pend
    requires StoreStep(sc, s.g, route, p, g') && PortReqsOk(sc, p, g', reqs) && PortReqsTrueToo(sc, g', reqs)
    ensures Inv(sc, State(g', s.pend - multiset{req} + multiset(reqs)))
  {
    var s' := State(g', s.pend - multiset{req} + multiset(reqs));
    PoolSound(sc, s, req, route, p, g', reqs);
    StoreLinksTrue(sc, s.g, route, p, g');
    PoolMembers(s.pend, req, reqs);
    PoolLeftOnce(sc, s, route, p, s', reqs);
    forall r | r in s.pend
      ensures QueryTrue(sc, g', r)
    {
      QueryTrueKept(sc, s.g, g', r);
    }
  }

  // One reply keeps the links true.
  lemma DeliverInv(sc: Scan, s: State, req: Req)
    requires Inv(sc, s) && req in s.pend
    ensures Inv(sc, Deliver(sc, s, req))
  {
    assert QueryTrue(sc, s.g, req) && ReqTrue(sc, s.g, req);
    match req
    case NodeInfoReq(route, parent) =>
      if parent.None? { FirstReplyInv(sc, s); } else { PeerReplyInv(sc, s, route, parent.value); }
    case PortInfoReq(route, i, num) =>
      var p := PortRef(i, num);
      PortReplyStep(sc, s, route, p);
      PortReqsQueries(sc, s.g, route, p);
      var (g', reqs) := RecvPortInfo(s.g, sc.cfg, route, p, PortInfoAt(sc.w, Entry(sc, s.g, p), p.num));
      PoolInv(sc, s, req, route, p, g', reqs);
    case ExtPortInfoReq(route, i, num) =>
      var p := PortRef(i, num);
      ExtReplyStep(sc, s, route, p);
      GoOnQueries(sc, s.g, route, p);
      var (g', reqs) := GoOn(s.g, sc.cfg, route, p);
      PoolInv(sc, s, req, route, p, g', reqs);
    case _ =>
      DataReplyStep(sc, s, req);
      DeliverSound(sc, s, req);
  }
}
