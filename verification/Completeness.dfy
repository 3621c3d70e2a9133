// When a scan of a static fabric comes to rest it has found exactly the nodes and
// links that can be reached.
module Completeness {
  import opened Wrappers
  import opened Fabric
  import opened Wiring
  import opened Discovery
  import opened TrueLinks

  // The ports whose peers a scan looks for: the external ports of every switch found
  // and the start port.
  predicate ToCover(sc: Scan, g: Graph, p: PortRef)
    requires Walk(sc.w, sc.init).Some?
  {
    && p.node < |g.nodes| && 1 <= p.num <= g.nodes[p.node].info.numports
    && (IsSwitch(sc.w, At(g, p).guid) || IsStartPort(sc, At(g, p)))
  }

  // The route on which such a port is queried
  function QueryRoute(sc: Scan, g: Graph, p: PortRef): Route
    requires p.node < |g.nodes|
  {
    if IsSwitch(sc.w, At(g, p).guid) then g.nodes[p.node].route else sc.init
  }

  // The requests whose answers bring the scan closer to the peer of p.
  predicate IsStep(sc: Scan, g: Graph, p: PortRef, r: Req)
    requires p.node < |g.nodes| && Walk(sc.w, sc.init).Some?
  {
    var route := QueryRoute(sc, g, p);
    || r == PortInfoReq(route, p.node, 0) || r == PortInfoReq(route, p.node, p.num)
    || r == ExtPortInfoReq(route, p.node, p.num) || r == NodeInfoReq(PeerRoute(sc, g, p), Some(p))
  }

  // No step is left to take for p: its peer is linked, there is no peer, or the route
  // to the peer would be too long.
  ghost predicate Settled(sc: Scan, g: Graph, p: PortRef)
    requires p.node < |g.nodes|
  {
    p in g.ports && (Remote(g, p).Some? || At(g, p) !in sc.w.cable || |g.nodes[p.node].route| > HOPS_MAX - 2)
  }

  ghost predicate Progress(sc: Scan, s: State, p: PortRef)
    requires p.node < |s.g.nodes| && Walk(sc.w, sc.init).Some?
  {
    Settled(sc, s.g, p) || exists r :: r in s.pend && IsStep(sc, s.g, p, r)
  }

  ghost predicate Covered(sc: Scan, s: State)
    requires Walk(sc.w, sc.init).Some?
  {
    forall p :: ToCover(sc, s.g, p) ==> Progress(sc, s, p)
  }

  lemma SameSteps(sc: Scan, g: Graph, g': Graph, p: PortRef)
    requires Walk(sc.w, sc.init).Some? && Grows(g, g') && p.node < |g.nodes|
    ensures At(g', p) == At(g, p) && (forall r :: IsStep(sc, g', p, r) <==> IsStep(sc, g, p, r))
    ensures ToCover(sc, g', p) <==> ToCover(sc, g, p)
  {
  }

  // Progress that does not hang on the answered request is kept.
  lemma ProgressKept(sc: Scan, s: State, s': State, req: Req, p: PortRef)
    requires Walk(sc.w, sc.init).Some? && p.node < |s.g.nodes| && Grows(s.g, s'.g)
    requires forall q :: Remote(s.g, q).Some? ==> Remote(s'.g, q) == Remote(s.g, q)
    requires forall r :: r in s.pend && r != req ==> r in s'.pend
    requires Progress(sc, s, p) && !IsStep(sc, s.g, p, req)
    ensures Progress(sc, s', p)
  {
    SameSteps(sc, s.g, s'.g, p);
    if Settled(sc, s.g, p) {
      assert Settled(sc, s'.g, p);
    } else {
      var r :| r in s.pend && IsStep(sc, s.g, p, r);
      assert IsStep(sc, s'.g, p, r) && r in s'.pend;
    }
  }

  // A known port goes on to its peer.
  lemma GoOnProgress(sc: Scan, g: Graph, route: Route, p: PortRef, pend: multiset<Req>)
    requires GraphTrue(sc, g) && GoodStart(sc) && Entered(sc, g) && Known(sc, g, route, p)
    requires IsStartPort(sc, At(g, p)) ==> route == sc.init
    requires NotCut(sc, g) && ToCover(sc, g, p)
    requires forall r :: r in GoOn(g, sc.cfg, route, p).1 ==> r in pend
    ensures Progress(sc, State(g, pend), p)
  {
    ExploresLeads(sc, g, route, p);
    if At(g, p) in sc.w.cable && !Explores(g, p) {
      assert EnteredFrom(sc, g, p.node);
      assert Settled(sc, g, p);
    } else if Explores(g, p) {
      NextRouteLeads(sc, g, route, p);
      var next := NextRoute(g, sc.cfg, route, p).1;
      if next.Some? {
        if IsSwitch(sc.w, At(g, p).guid) { NextRouteOfSwitch(sc, g, route, p); } else { NextRouteOfStart(sc, g, p); }
        var r := NodeInfoReq(next.value, Some(p));
        assert r in GoOn(g, sc.cfg, route, p).1;
        assert IsStep(sc, g, p, r);
      }
    } else {
      assert Settled(sc, g, p);
    }
  }

  lemma PortGoesOn(sc: Scan, g: Graph, g': Graph, route: Route, p: PortRef, reqs: seq<Req>, pend: multiset<Req>)
    requires GraphTrue(sc, g) && GoodStart(sc) && Entered(sc, g) && Known(sc, g, route, p)
    requires IsStartPort(sc, At(g, p)) ==> route == sc.init
    requires NotCut(sc, g) && ToCover(sc, g, p)
    requires ExtPortInfoReq(route, p.node, p.num) in reqs
      || (forall r :: r in GoOn(g, sc.cfg, route, p).1 ==> r in reqs)
    requires forall r :: r in reqs ==> r in pend
    requires g' == g.(maxhops := g'.maxhops)
    ensures Progress(sc, State(g', pend), p)
  {
    var r := ExtPortInfoReq(route, p.node, p.num);
    if r in reqs {
      assert IsStep(sc, g', p, r);
    } else {
      GoOnProgress(sc, g, route, p, pend);
      SameSteps(sc, g, g', p);
      assert Settled(sc, g, p) ==> Settled(sc, g', p);
    }
  }

  lemma FirstCovered(sc: Scan, s: State)
    requires Inv(sc, s) && s.g.nodes == []
    ensures Covered(sc, Deliver(sc, s, NodeInfoReq(sc.init, None)))
  {
    var s' := Deliver(sc, s, NodeInfoReq(sc.init, None));
    FirstReply(sc, s);
    forall p | ToCover(sc, s'.g, p)
      ensures Progress(sc, s', p)
    {
      var r := PortInfoReq(sc.init, 0, if IsSwitch(sc.w, At(s'.g, p).guid) then 0 else p.num);
      assert NodeTrue(sc, s'.g.nodes[0]);
      assert IsStep(sc, s'.g, p, r);
      assert r in NodeQueries(s'.g.nodes[0].info.kind, true, sc.init, PortRef(0, Start(sc).num));
    }
  }

  // A node that was just found has its port 0 queried if it is a switch, and is not
  // the start node.
  lemma NewNodeProgress(sc: Scan, s: State, route: Route, b: PortRef, at: Place, s': State, p: PortRef)
    requires PeerStep(sc, s.g, route, b, at, s'.g) && Arrival(s.g, at).node == p.node == |s.g.nodes|
    requires p.node < |s'.g.nodes| && ToCover(sc, s'.g, p)
    requires forall r :: r in PeerQueries(s.g, route, at, s'.g) ==> r in s'.pend
    ensures Progress(sc, s', p)
  {
    PeerArrival(sc, s.g, route, b, at, s'.g);
    PeerTrue(sc, s.g, route, b, at, s'.g);
    assert NodeTrue(sc, s'.g.nodes[p.node]);
    assert At(s'.g, PortRef(0, Start(sc).num)) == Start(sc);
    assert IsSwitch(sc.w, At(s'.g, p).guid);
    var r := PortInfoReq(route, p.node, 0);
    assert r in PeerQueries(s.g, route, at, s'.g);
    assert IsStep(sc, s'.g, p, r);
  }

  lemma OldNodeProgress(sc: Scan, s: State, route: Route, b: PortRef, at: Place, s': State, p: PortRef)
    requires ScanOk(sc) && LinksTrue(sc, s.g) && Covered(sc, s)
    requires PeerStep(sc, s.g, route, b, at, s'.g) && PeerQueryTrue(sc, s.g, route, b)
    requires ToCover(sc, s'.g, p) && p.node < |s.g.nodes|
    requires forall r :: r in s.pend && r != NodeInfoReq(route, Some(b)) ==> r in s'.pend
    ensures Progress(sc, s', p)
  {
    var req := NodeInfoReq(route, Some(b));
    PeerRemotes(sc, s.g, route, b, at, s'.g);
    SameSteps(sc, s.g, s'.g, p);
    if IsStep(sc, s.g, p, req) {
      assert p == b;
      assert Settled(sc, s'.g, p);
    } else {
      ProgressKept(sc, s, s', req, p);
    }
  }

  lemma PeerCovered(sc: Scan, s: State, route: Route, b: PortRef)
    requires Inv(sc, s) && NodeInfoReq(route, Some(b)) in s.pend && Covered(sc, s)
    ensures Covered(sc, Deliver(sc, s, NodeInfoReq(route, Some(b))))
  {
    var req := NodeInfoReq(route, Some(b));
    NotBackAtStart(sc, s, route, b);
    PeerReplyStep(sc, s, route, b);
    var at := Walk(sc.w, route).value;
    var s' := Deliver(sc, s, req);
    PoolMembers(s.pend, req, PeerQueries(s.g, route, at, s'.g));
    forall p | ToCover(sc, s'.g, p)
      ensures Progress(sc, s', p)
    {
      if p.node < |s.g.nodes| {
        OldNodeProgress(sc, s, route, b, at, s', p);
      } else {
        NewNodeProgress(sc, s, route, b, at, s', p);
      }
    }
  }

  // g' and reqs are what the PortInfo of port q leads to.
  ghost predicate PortAnswered(sc: Scan, g: Graph, route: Route, q: PortRef, g': Graph, reqs: seq<Req>) {
    && GraphTrue(sc, g) && PortQueryTrue(sc, g, route, q)
    && g' == RecvPortInfo(g, sc.cfg, route, q, PortInfoAt(sc.w, Entry(sc, g, q), q.num)).0
    && reqs == RecvPortInfo(g, sc.cfg, route, q, PortInfoAt(sc.w, Entry(sc, g, q), q.num)).1
  }

  // PortInfo of port p itself arrived.
  lemma PortSelfProgress(sc: Scan, g: Graph, route: Route, p: PortRef, s': State, reqs: seq<Req>)
    requires GraphTrue(sc, g) && GoodStart(sc) && LinksTrue(sc, g) && Entered(sc, g) && PortQueryTrue(sc, g, route, p)
    requires IsStartPort(sc, At(g, p)) ==> route == sc.init
    requires NotCut(sc, g) && ToCover(sc, g, p)
    requires PortAnswered(sc, g, route, p, s'.g, reqs)
    requires forall r :: r in reqs ==> r in s'.pend
    ensures Progress(sc, s', p)
  {
    var g1 := StorePortInfo(g, p, PortInfoAt(sc.w, Entry(sc, g, p), p.num));
    PortSteps(sc, g, route, p);
    StoreTrue(sc, g, route, p, g1);
    StoreKnown(sc, g, route, p, g1);
    StoreLinksTrue(sc, g, route, p, g1);
    SameSteps(sc, g, g1, p);
    GoOnOk(g1, sc.cfg, route, p);
    PortGoesOn(sc, g1, s'.g, route, p, reqs, s'.pend);
  }

  // PortInfo of port 0 of the switch that p belongs to arrived.
  lemma PortZeroProgress(sc: Scan, g: Graph, route: Route, p: PortRef, s': State, reqs: seq<Req>)
    requires GraphTrue(sc, g) && PortQueryTrue(sc, g, route, PortRef(p.node, 0))
    requires PortAnswered(sc, g, route, PortRef(p.node, 0), s'.g, reqs)
    requires forall r :: r in reqs ==> r in s'.pend
    requires ToCover(sc, g, p)
    ensures Progress(sc, s', p)
  {
    var q := PortRef(p.node, 0);
    PortSteps(sc, g, route, q);
    PortQueriesTrue(sc, g, route, q);
    SameSteps(sc, g, s'.g, p);
    var r := PortQueries(route, p.node, g.nodes[p.node].info.numports)[p.num - 1];
    assert r in reqs && IsStep(sc, g, p, r);
  }

  lemma StoreProgress(sc: Scan, s: State, route: Route, q: PortRef, s': State, p: PortRef)
    requires Walk(sc.w, sc.init).Some? && Grows(s.g, s'.g) && forall q' :: Remote(s'.g, q') == Remote(s.g, q')
    requires forall r :: r in s.pend && r != PortInfoReq(route, q.node, q.num) ==> r in s'.pend
    requires p.node < |s.g.nodes| && Progress(sc, s, p) && p != q && q != PortRef(p.node, 0)
    ensures Progress(sc, s', p)
  {
    var req := PortInfoReq(route, q.node, q.num);
    assert req != NodeInfoReq(PeerRoute(sc, s.g, p), Some(p));
    ProgressKept(sc, s, s', PortInfoReq(route, q.node, q.num), p);
  }

  lemma PortProgress(sc: Scan, s: State, route: Route, q: PortRef, s': State, reqs: seq<Req>, p: PortRef)
    requires GraphTrue(sc, s.g) && GoodStart(sc) && LinksTrue(sc, s.g) && Entered(sc, s.g) && PortQueryTrue(sc, s.g, route, q)
    requires IsStartPort(sc, At(s.g, q)) ==> route == sc.init
    requires Covered(sc, s) && NotCut(sc, s.g)
    requires StoreStep(sc, s.g, route, q, s'.g)
    requires PortAnswered(sc, s.g, route, q, s'.g, reqs)
    requires forall r :: r in s.pend && r != PortInfoReq(route, q.node, q.num) ==> r in s'.pend
    requires forall r :: r in reqs ==> r in s'.pend
    requires ToCover(sc, s'.g, p)
    ensures Progress(sc, s', p)
  {
    SameSteps(sc, s.g, s'.g, p);
    if p == q {
      PortSelfProgress(sc, s.g, route, p, s', reqs);
    } else if q == PortRef(p.node, 0) {
      PortZeroProgress(sc, s.g, route, p, s', reqs);
    } else {
      StoreKnown(sc, s.g, route, q, s'.g);
      StoreProgress(sc, s, route, q, s', p);
    }
  }

  lemma PortQueryFromStart(sc: Scan, s: State, route: Route, q: PortRef)
    requires Inv(sc, s) && PortInfoReq(route, q.node, q.num) in s.pend
    ensures q.node < |s.g.nodes| && (IsStartPort(sc, At(s.g, q)) ==> route == sc.init)
  {
    assert QueryTrue(sc, s.g, PortInfoReq(route, q.node, q.num));
  }

  lemma PortCovered(sc: Scan, s: State, route: Route, q: PortRef)
    requires Inv(sc, s) && PortInfoReq(route, q.node, q.num) in s.pend && Covered(sc, s) && NotCut(sc, s.g)
    ensures Covered(sc, Deliver(sc, s, PortInfoReq(route, q.node, q.num)))
  {
    var req := PortInfoReq(route, q.node, q.num);
    PortQueryFromStart(sc, s, route, q);
    PortReplyStep(sc, s, route, q);
    var (g', reqs) := RecvPortInfo(s.g, sc.cfg, route, q, PortInfoAt(sc.w, Entry(sc, s.g, q), q.num));
    var s' := Deliver(sc, s, req);
    PoolMembers(s.pend, req, reqs);
    forall p | ToCover(sc, s'.g, p)
      ensures Progress(sc, s', p)
    {
      PortProgress(sc, s, route, q, s', reqs, p);
    }
  }

  lemma ExtProgress(sc: Scan, s: State, route: Route, q: PortRef, s': State, reqs: seq<Req>, p: PortRef)
    requires GraphTrue(sc, s.g) && GoodStart(sc) && Entered(sc, s.g) && Known(sc, s.g, route, q)
    requires IsStartPort(sc, At(s.g, q)) ==> route == sc.init
    requires Covered(sc, s) && NotCut(sc, s.g)
    requires (s'.g, reqs) == GoOn(s.g, sc.cfg, route, q)
    requires forall r :: r in s.pend && r != ExtPortInfoReq(route, q.node, q.num) ==> r in s'.pend
    requires forall r :: r in reqs ==> r in s'.pend
    requires ToCover(sc, s'.g, p)
    ensures Progress(sc, s', p)
  {
    var req := ExtPortInfoReq(route, q.node, q.num);
    GoOnOk(s.g, sc.cfg, route, q);
    SameSteps(sc, s.g, s'.g, p);
    if !IsStep(sc, s.g, p, req) {
      ProgressKept(sc, s, s', req, p);
    } else {
      PortGoesOn(sc, s.g, s'.g, route, p, reqs, s'.pend);
    }
  }

  lemma ExtCovered(sc: Scan, s: State, route: Route, q: PortRef)
    requires Inv(sc, s) && ExtPortInfoReq(route, q.node, q.num) in s.pend && Covered(sc, s) && NotCut(sc, s.g)
    ensures Covered(sc, Deliver(sc, s, ExtPortInfoReq(route, q.node, q.num)))
  {
    var req := ExtPortInfoReq(route, q.node, q.num);
    assert QueryTrue(sc, s.g, req);
    ExtReplyStep(sc, s, route, q);
    var (g', reqs) := GoOn(s.g, sc.cfg, route, q);
    var s' := Deliver(sc, s, req);
    PoolMembers(s.pend, req, reqs);
    forall p | ToCover(sc, s'.g, p)
      ensures Progress(sc, s', p)
    {
      ExtProgress(sc, s, route, q, s', reqs, p);
    }
  }

  lemma DataProgress(sc: Scan, s: State, s': State, req: Req, p: PortRef)
    requires Walk(sc.w, sc.init).Some? && ToCover(sc, s.g, p) && Progress(sc, s, p)
    requires s' == State(s.g, s.pend - multiset{req}) && (req.NodeDescReq? || req.SwitchInfoReq?)
    ensures Progress(sc, s', p)
  {
    if !Settled(sc, s.g, p) {
      var r :| r in s.pend && IsStep(sc, s.g, p, r);
      assert r in s'.pend;
    }
  }

  lemma DataCovered(sc: Scan, s: State, req: Req)
    requires Inv(sc, s) && req in s.pend && Covered(sc, s) && (req.NodeDescReq? || req.SwitchInfoReq?)
    ensures Covered(sc, Deliver(sc, s, req))
  {
    var s' := Deliver(sc, s, req);
    DataReplyStep(sc, s, req);
    forall p | ToCover(sc, s.g, p)
      ensures Progress(sc, s', p)
    {
      DataProgress(sc, s, s', req, p);
    }
  }

  // One reply keeps every port on its way to its peer.
  lemma DeliverCovered(sc: Scan, s: State, req: Req)
    requires Inv(sc, s) && req in s.pend && Covered(sc, s) && NotCut(sc, s.g)
    ensures Covered(sc, Deliver(sc, s, req))
  {
    match req
    case NodeInfoReq(route, parent) =>
      assert ReqTrue(sc, s.g, req);
      if parent.None? { FirstCovered(sc, s); } else { PeerCovered(sc, s, route, parent.value); }
    case PortInfoReq(route, i, num) => PortCovered(sc, s, route, PortRef(i, num));
    case ExtPortInfoReq(route, i, num) => ExtCovered(sc, s, route, PortRef(i, num));
    case _ => DataCovered(sc, s, req);
  }

  // ---------------------------------------------------------------------------
  // Whole scans

  // The states of a scan in which the environment answers one outstanding SMP at a
  // time, in any order.
  ghost predicate IsRun(sc: Scan, run: seq<State>) {
    && ScanOk(sc) && run != [] && run[0] == Initial(sc)
    && forall k :: 0 < k < |run| ==> IsStepOf(sc, run[k - 1], run[k])
  }

  ghost predicate IsStepOf(sc: Scan, s: State, s': State) {
    ScanOk(sc) && StateOk(s) && exists req :: req in s.pend && s' == Deliver(sc, s, req)
  }

  ghost function Last(run: seq<State>): State
    requires run != []
  {
    run[|run| - 1]
  }

  lemma RunPrefix(sc: Scan, run: seq<State>)
    requires IsRun(sc, run) && |run| > 1
    ensures var before := run[..|run| - 1];
      && IsRun(sc, before) && StateOk(Last(before))
      && exists req :: req in Last(before).pend && Last(run) == Deliver(sc, Last(before), req)
  {
    var before := run[..|run| - 1];
    forall k | 0 < k < |before|
      ensures IsStepOf(sc, before[k - 1], before[k])
    {
      assert IsStepOf(sc, run[k - 1], run[k]);
    }
    assert IsStepOf(sc, Last(before), run[|run| - 1]);
  }

  lemma NextIsRun(sc: Scan, run: seq<State>, req: Req)
    requires IsRun(sc, run) && StateOk(Last(run)) && req in Last(run).pend
    ensures IsRun(sc, run + [Deliver(sc, Last(run), req)])
    ensures Last(run + [Deliver(sc, Last(run), req)]) == Deliver(sc, Last(run), req)
  {
    var run' := run + [Deliver(sc, Last(run), req)];
    forall k | 0 < k < |run'|
      ensures IsStepOf(sc, run'[k - 1], run'[k])
    {
      if k < |run| {
        assert IsStepOf(sc, run[k - 1], run[k]);
      } else {
        assert run'[k - 1] == Last(run) && run'[k] == Deliver(sc, Last(run), req);
      }
    }
  }

  lemma {:induction false} RunInv(sc: Scan, run: seq<State>)
    requires IsRun(sc, run) && GoodStart(sc)
    ensures Inv(sc, Last(run))
    ensures NotCut(sc, Last(run).g) ==> Covered(sc, Last(run))
    decreases |run|
  {
    if |run| == 1 {
      InitialInv(sc);
    } else {
      RunPrefix(sc, run);
      var before := run[..|run| - 1];
      RunInv(sc, before);
      var s := Last(before);
      var req :| req in s.pend && Last(run) == Deliver(sc, s, req);
      DeliverInv(sc, s, req);
      HandleHops(s.g, sc.cfg, req, Answer(sc.w, req));
      if NotCut(sc, Last(run).g) { DeliverCovered(sc, s, req); }
    }
  }

  predicate Found(g: Graph, guid: nat) {
    exists i :: 0 <= i < |g.nodes| && g.nodes[i].info.guid == guid
  }

  // Nothing is found that cannot be reached.
  lemma {:induction false} FoundIsReachable(sc: Scan, s: State, i: nat)
    requires Inv(sc, s) && i < |s.g.nodes|
    ensures Reachable(sc.w, Start(sc), s.g.nodes[i].info.guid)
    decreases i
  {
    if i == 0 {
      ReachableStart(sc.w, Start(sc));
      assert At(s.g, PortRef(0, Start(sc).num)) == Start(sc);
    } else {
      assert EnteredFrom(sc, s.g, i);
      var p := PortRef(i, s.g.nodes[i].info.localPort);
      var q := Remote(s.g, p).value;
      FoundIsReachable(sc, s, q.node);
      assert LinkTrue(sc, s.g, p, q);
      ReachableNext(sc.w, Start(sc), At(s.g, q));
    }
  }

  // No stored route is so long that it could not be extended.
  predicate RoutesShort(g: Graph) {
    forall i :: 0 <= i < |g.nodes| ==> |g.nodes[i].route| <= HOPS_MAX - 2
  }

  // A port that leads on is linked to the port at the other end of its cable.
  ghost predicate LinkedToPeer(sc: Scan, g: Graph, p: PortRef)
    requires p.node < |g.nodes|
  {
    && p in g.ports && At(g, p) in sc.w.cable
    && var q := Remote(g, p); q.Some? && q.value.node < |g.nodes| && At(g, q.value) == sc.w.cable[At(g, p)]
  }

  lemma LeadingPortsLinked(sc: Scan, s: State, p: PortRef)
    requires Inv(sc, s) && Covered(sc, s) && s.pend == multiset{} && RoutesShort(s.g)
    requires p.node < |s.g.nodes| && Leads(sc.w, Start(sc), At(s.g, p))
    ensures LinkedToPeer(sc, s.g, p)
  {
    assert NodeTrue(sc, s.g.nodes[p.node]);
    assert ToCover(sc, s.g, p);
    assert Settled(sc, s.g, p);
    assert LinkTrue(sc, s.g, p, Remote(s.g, p).value);
  }

  // Completeness.  When no SMP is outstanding, the nodes found are exactly those that
  // can be reached from the start through switches, and every port that leads on is
  // linked to its true peer; provided the scan had no hop limit or did not count more hops
  // than that, left its start port towards its peer, and no stored route fills the path array.
  lemma ScanIsComplete(sc: Scan, run: seq<State>)
    requires IsRun(sc, run) && GoodStart(sc) && NotCut(sc, Last(run).g)
    requires Last(run).pend == multiset{} && RoutesShort(Last(run).g)
    ensures forall guid :: Found(Last(run).g, guid) <==> Reachable(sc.w, Start(sc), guid)
    ensures forall p: PortRef :: p.node < |Last(run).g.nodes| && Leads(sc.w, Start(sc), At(Last(run).g, p)) ==>
      LinkedToPeer(sc, Last(run).g, p)
  {
    var s := Last(run);
    var start := Start(sc);
    RunInv(sc, run);
    forall p: PortRef | p.node < |s.g.nodes| && Leads(sc.w, start, At(s.g, p))
      ensures LinkedToPeer(sc, s.g, p)
    {
      LeadingPortsLinked(sc, s, p);
    }
    forall guid | Found(s.g, guid)
      ensures Reachable(sc.w, start, guid)
    {
      var i :| 0 <= i < |s.g.nodes| && s.g.nodes[i].info.guid == guid;
      FoundIsReachable(sc, s, i);
    }
    forall guid | Reachable(sc.w, start, guid)
      ensures Found(s.g, guid)
    {
      ReachableIsFound(sc, s, guid);
    }
  }

  lemma ReachableIsFound(sc: Scan, s: State, guid: nat)
    requires Inv(sc, s) && Covered(sc, s) && s.pend == multiset{} && RoutesShort(s.g)
    requires Reachable(sc.w, Start(sc), guid)
    ensures Found(s.g, guid)
  {
    var found := set i | 0 <= i < |s.g.nodes| :: s.g.nodes[i].info.guid;
    assert At(s.g, PortRef(0, Start(sc).num)) == Start(sc) && s.g.nodes[0].info.guid in found;
    forall p: Place | p.guid in found && Leads(sc.w, Start(sc), p)
      ensures sc.w.cable[p].guid in found
    {
      var i :| 0 <= i < |s.g.nodes| && s.g.nodes[i].info.guid == p.guid;
      LeadingPortsLinked(sc, s, PortRef(i, p.num));
    }
    var outs :| Trail(sc.w, Start(sc), outs, guid);
    ClosedHoldsTrail(sc.w, Start(sc), found, outs, guid);
  }
}
