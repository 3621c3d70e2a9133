// What a scan of a static fabric records about ports: their GUIDs, so that the port
// table stays in order although the ports of CAs are entered again on every visit, and
// their LIDs, which for all ports of a switch are those of its port 0.
module PortRecords {
  import opened Wrappers
  import opened Fabric
  import opened Wiring
  import opened Discovery
  import opened Completeness

  // All ports of a switch have one GUID.
  ghost predicate SwitchGuidsOk(w: Net) {
    forall g, k :: IsSwitch(w, g) && 0 <= k < |w.hw[g].ports| ==> w.hw[g].ports[k].guid == w.hw[g].ports[0].guid
  }

  ghost predicate GuidTrue(sc: Scan, g: Graph, p: PortRef) {
    && p in g.ports && p.node < |g.nodes| && IsPlace(sc.w, At(g, p))
    && g.ports[p].guid == sc.w.hw[At(g, p).guid].ports[p.num].guid
  }

  // The port whose LID and LMC a port carries: port 0 of a switch, or the port itself.
  function LidSource(w: Net, p: Place): HwPort
    requires IsPlace(w, p)
  {
    w.hw[p.guid].ports[if IsSwitch(w, p.guid) then 0 else p.num]
  }

  // A port whose PortInfo is still to come
  predicate IsShell(port: Port) {
    port.info == NO_INFO && port.baseLid == 0 && port.lmc == 0
  }

  ghost predicate LidTrue(sc: Scan, g: Graph, p: PortRef)
    requires p in g.ports && p.node < |g.nodes| && IsPlace(sc.w, At(g, p))
  {
    var src := LidSource(sc.w, At(g, p));
    IsShell(g.ports[p]) || (g.ports[p].baseLid == src.lid && g.ports[p].lmc == src.lmc)
  }

  // The LID of port 0 is known once another port of a switch is asked for.
  ghost predicate SmaTrue(sc: Scan, g: Graph, r: Req) {
    r.PortInfoReq? && r.num != 0 && r.node < |g.nodes| && IsSwitch(sc.w, g.nodes[r.node].info.guid) ==>
      var port0 := sc.w.hw[g.nodes[r.node].info.guid].ports;
      port0 != [] && g.nodes[r.node].smalid == port0[0].lid && g.nodes[r.node].smalmc == port0[0].lmc
  }

  ghost predicate PortsTrue(sc: Scan, g: Graph) {
    forall p :: p in g.ports ==> GuidTrue(sc, g, p) && LidTrue(sc, g, p)
  }

  ghost predicate Records(sc: Scan, s: State) {
    && Sound(sc, s) && SwitchGuidsOk(sc.w)
    && PortsTrue(sc, s.g)
    && (forall r :: r in s.pend ==> SmaTrue(sc, s.g, r))
  }

  // ---------------------------------------------------------------------------

  lemma JoinRecords(g: Graph, p: PortRef, parent: Option<PortRef>)
    requires p in g.ports && (parent.Some? ==> parent.value in g.ports)
    ensures var g' := Join(g, p, parent);
      && g'.nodes == g.nodes && g'.ports.Keys == g.ports.Keys
      && forall q :: q in g.ports ==>
           && g'.ports[q].baseLid == g.ports[q].baseLid && g'.ports[q].lmc == g.ports[q].lmc
           && g'.ports[q].guid == g.ports[q].guid && g'.ports[q].info == g.ports[q].info
  {
  }

  lemma EnterPortRecords(g: Graph, p: PortRef, guid: nat)
    ensures var g' := EnterPort(g, p, guid);
      && g'.nodes == g.nodes && g'.ports.Keys == g.ports.Keys + {p} && g'.ports[p].guid == guid
      && (forall q :: q in g.ports ==> g'.ports[q].baseLid == g.ports[q].baseLid && g'.ports[q].lmc == g.ports[q].lmc)
      && (forall q :: q in g.ports && q != p ==> g'.ports[q].guid == g.ports[q].guid)
      && (p !in g.ports ==> IsShell(g'.ports[p]))
  {
  }

  lemma LocateRecords(g: Graph, route: Route, ni: NodeInfo)
    ensures var (g1, i) := Locate(g, route, ni);
      && |g.nodes| <= |g1.nodes| && g1.nodes[..|g.nodes|] == g.nodes && g1.ports == g.ports
  {
  }

  // What recv_node_info does to the recorded GUIDs and LIDs.
  lemma NodeInfoRecords(sc: Scan, g: Graph, route: Route, parent: Option<PortRef>, at: Place)
    requires GraphOk(g) && ReqOk(g, NodeInfoReq(route, parent)) && IsPlace(sc.w, at)
    ensures var g' := RecvNodeInfo(g, route, parent, NodeInfoAt(sc.w, at)).0;
      var p := Arrival(g, at);
      && |g.nodes| <= |g'.nodes| && g'.nodes[..|g.nodes|] == g.nodes && g'.ports.Keys == g.ports.Keys + {p}
      && (forall q :: q in g.ports ==> g'.ports[q].baseLid == g.ports[q].baseLid && g'.ports[q].lmc == g.ports[q].lmc)
      && (forall q :: q in g.ports && q != p ==> g'.ports[q].guid == g.ports[q].guid)
      && g'.ports[p].guid == sc.w.hw[at.guid].ports[at.num].guid
      && (p !in g.ports ==> IsShell(g'.ports[p]))
  {
    var ni := NodeInfoAt(sc.w, at);
    var p := Arrival(g, at);
    var g1 := Locate(g, route, ni).0;
    var g2 := EnterPort(g1, p, ni.portGuid);
    LocateRecords(g, route, ni);
    EnterPortRecords(g1, p, ni.portGuid);
    JoinRecords(g2, p, parent);
    assert RecvNodeInfo(g, route, parent, ni).0 == Join(g2, p, parent);
  }

  lemma NodeQueriesSma(sc: Scan, g: Graph, kind: Kind, isNew: bool, route: Route, p: PortRef)
    requires p.node < |g.nodes| && NodesTrue(sc, g) && kind == g.nodes[p.node].info.kind
    ensures forall r :: r in NodeQueries(kind, isNew, route, p) ==> SmaTrue(sc, g, r)
  {
    assert NodeTrue(sc, g.nodes[p.node]);
  }

  lemma FirstRecords(sc: Scan, s: State)
    requires Records(sc, s) && s.g.nodes == []
    ensures Records(sc, Deliver(sc, s, NodeInfoReq(sc.init, None)))
  {
    var s' := Deliver(sc, s, NodeInfoReq(sc.init, None));
    FirstReply(sc, s);
    WalkIsPlace(sc.w, sc.init);
    NodeInfoRecords(sc, s.g, sc.init, None, Start(sc));
    RecvNodeInfoEffect(sc, s.g, sc.init, None, Start(sc));
    var p := PortRef(0, Start(sc).num);
    assert Arrival(s.g, Start(sc)) == p && At(s'.g, p) == Start(sc);
    NodeQueriesSma(sc, s'.g, s'.g.nodes[0].info.kind, true, sc.init, p);
  }

  lemma PeerRecordsPorts(sc: Scan, g: Graph, route: Route, b: PortRef, at: Place, g': Graph)
    requires PeerStep(sc, g, route, b, at, g') && ReqOk(g, NodeInfoReq(route, Some(b)))
    requires g' == RecvNodeInfo(g, route, Some(b), NodeInfoAt(sc.w, at)).0
    requires PortsTrue(sc, g)
    ensures PortsTrue(sc, g')
  {
    NodeInfoRecords(sc, g, route, Some(b), at);
    PeerArrival(sc, g, route, b, at, g');
    forall q | q in g'.ports
      ensures GuidTrue(sc, g', q) && LidTrue(sc, g', q)
    {
      if q in g.ports {
        assert GuidTrue(sc, g, q) && LidTrue(sc, g, q);
        RecordKept(sc, g, g', q, q == Arrival(g, at));
      }
    }
  }

  lemma RecordKept(sc: Scan, g: Graph, g': Graph, q: PortRef, arrival: bool)
    requires q in g.ports && q in g'.ports && GuidTrue(sc, g, q) && LidTrue(sc, g, q)
    requires Grows(g, g') && g'.ports[q].info == g.ports[q].info
    requires g'.ports[q].baseLid == g.ports[q].baseLid && g'.ports[q].lmc == g.ports[q].lmc
    requires if arrival then GuidTrue(sc, g', q) else g'.ports[q].guid == g.ports[q].guid
    ensures GuidTrue(sc, g', q) && LidTrue(sc, g', q)
  {
    assert At(g', q) == At(g, q);
  }

  lemma SmaKept(sc: Scan, g: Graph, g': Graph, r: Req)
    requires |g.nodes| <= |g'.nodes| && g'.nodes[..|g.nodes|] == g.nodes && ReqOk(g, r) && SmaTrue(sc, g, r)
    ensures SmaTrue(sc, g', r)
  {
    if r.PortInfoReq? { assert g'.nodes[..|g.nodes|][r.node] == g'.nodes[r.node]; }
  }

  lemma PeerRecordsPend(sc: Scan, s: State, route: Route, b: PortRef, at: Place, s': State)
    requires StateOk(s) && PeerStep(sc, s.g, route, b, at, s'.g) && Arrival(s.g, at).node < |s'.g.nodes|
    requires NodesTrue(sc, s'.g) && s'.g.nodes[..|s.g.nodes|] == s.g.nodes
    requires forall r :: r in s.pend ==> SmaTrue(sc, s.g, r)
    requires s'.pend == s.pend - multiset{NodeInfoReq(route, Some(b))} + multiset(PeerQueries(s.g, route, at, s'.g))
    ensures forall r :: r in s'.pend ==> SmaTrue(sc, s'.g, r)
  {
    var p := Arrival(s.g, at);
    NodeQueriesSma(sc, s'.g, s'.g.nodes[p.node].info.kind, p.node == |s.g.nodes|, route, p);
    PoolMembers(s.pend, NodeInfoReq(route, Some(b)), PeerQueries(s.g, route, at, s'.g));
    forall r | r in s.pend
      ensures SmaTrue(sc, s'.g, r)
    {
      SmaKept(sc, s.g, s'.g, r);
    }
  }

  lemma PeerRecords(sc: Scan, s: State, route: Route, b: PortRef)
    requires Records(sc, s) && NodeInfoReq(route, Some(b)) in s.pend
    ensures Records(sc, Deliver(sc, s, NodeInfoReq(route, Some(b))))
  {
    var req := NodeInfoReq(route, Some(b));
    var s' := Deliver(sc, s, req);
    assert ReqOk(s.g, req) && ReqTrue(sc, s.g, req);
    PeerReply(sc, s, route, b);
    if Walk(sc.w, route).Some? {
      var at := Walk(sc.w, route).value;
      PeerReplyStep(sc, s, route, b);
      PeerTrue(sc, s.g, route, b, at, s'.g);
      PeerRecordsPorts(sc, s.g, route, b, at, s'.g);
      NodeInfoRecords(sc, s.g, route, Some(b), at);
      PeerRecordsPend(sc, s, route, b, at, s');
    }
  }

  // A store of true PortInfo leaves true records.
  lemma StoreRecords(sc: Scan, s: State, route: Route, p: PortRef, q: PortRef)
    requires Records(sc, s) && GraphTrue(sc, s.g) && PortQueryTrue(sc, s.g, route, p)
    requires SmaTrue(sc, s.g, PortInfoReq(route, p.node, p.num))
    ensures var g' := StorePortInfo(s.g, p, PortInfoAt(sc.w, Entry(sc, s.g, p), p.num));
      q in g'.ports ==> GuidTrue(sc, g', q) && LidTrue(sc, g', q)
  {
    var g' := StorePortInfo(s.g, p, PortInfoAt(sc.w, Entry(sc, s.g, p), p.num));
    assert NodeTrue(sc, s.g.nodes[p.node]);
    WalkIsPlace(sc.w, s.g.nodes[p.node].route);
    WalkIsPlace(sc.w, route);
    WalkNum(sc.w, route);
    if q in g'.ports {
      if q == p {
        assert At(g', p) == At(s.g, p);
        assert p in s.g.ports ==> GuidTrue(sc, s.g, p);
      } else {
        assert GuidTrue(sc, s.g, q) && LidTrue(sc, s.g, q) && At(g', q) == At(s.g, q);
      }
    }
  }

  lemma StoreSma(sc: Scan, g: Graph, route: Route, p: PortRef, r: Req)
    requires GraphTrue(sc, g) && PortQueryTrue(sc, g, route, p) && SmaTrue(sc, g, r)
    ensures SmaTrue(sc, StorePortInfo(g, p, PortInfoAt(sc.w, Entry(sc, g, p), p.num)), r)
  {
    assert NodeTrue(sc, g.nodes[p.node]);
  }

  lemma NewPortReqsSma(sc: Scan, g: Graph, route: Route, p: PortRef, r: Req)
    requires GraphTrue(sc, g) && PortQueryTrue(sc, g, route, p)
    requires r in RecvPortInfo(g, sc.cfg, route, p, PortInfoAt(sc.w, Entry(sc, g, p), p.num)).1
    ensures SmaTrue(sc, StorePortInfo(g, p, PortInfoAt(sc.w, Entry(sc, g, p), p.num)), r)
  {
    var pi := PortInfoAt(sc.w, Entry(sc, g, p), p.num);
    var g1 := StorePortInfo(g, p, pi);
    assert NodeTrue(sc, g.nodes[p.node]);
    PortSteps(sc, g, route, p);
    GoOnOk(g1, sc.cfg, route, p);
    if r.PortInfoReq? {
      assert p.num == 0 && r in PortQueries(route, p.node, g.nodes[p.node].info.numports);
    }
  }

  lemma PortRecordsKept(sc: Scan, s: State, route: Route, p: PortRef)
    requires Records(sc, s) && PortInfoReq(route, p.node, p.num) in s.pend
    ensures Records(sc, Deliver(sc, s, PortInfoReq(route, p.node, p.num)))
  {
    var req := PortInfoReq(route, p.node, p.num);
    DeliverSound(sc, s, req);
    PortReplyStep(sc, s, route, p);
    var pi := PortInfoAt(sc.w, Entry(sc, s.g, p), p.num);
    var g1 := StorePortInfo(s.g, p, pi);
    var (g', reqs) := RecvPortInfo(s.g, sc.cfg, route, p, pi);
    PortSteps(sc, s.g, route, p);
    GoOnOk(g1, sc.cfg, route, p);
    assert g'.nodes == g1.nodes && g'.ports == g1.ports;
    PoolMembers(s.pend, req, reqs);
    forall q | q in g'.ports
      ensures GuidTrue(sc, g', q) && LidTrue(sc, g', q)
    {
      StoreRecords(sc, s, route, p, q);
    }
    forall r | r in s.pend || r in reqs
      ensures SmaTrue(sc, g', r)
    {
      if r in reqs { NewPortReqsSma(sc, s.g, route, p, r); } else { StoreSma(sc, s.g, route, p, r); }
    }
  }

  lemma SameRecords(sc: Scan, g: Graph, g': Graph)
    requires g' == g.(maxhops := g'.maxhops) && PortsTrue(sc, g)
    ensures PortsTrue(sc, g') && forall r :: SmaTrue(sc, g', r) <==> SmaTrue(sc, g, r)
  {
    forall q | q in g'.ports
      ensures GuidTrue(sc, g', q) && LidTrue(sc, g', q)
    {
      assert GuidTrue(sc, g, q) && LidTrue(sc, g, q);
    }
  }

  lemma ExtRecordsKept(sc: Scan, s: State, route: Route, p: PortRef)
    requires Records(sc, s) && ExtPortInfoReq(route, p.node, p.num) in s.pend
    ensures Records(sc, Deliver(sc, s, ExtPortInfoReq(route, p.node, p.num)))
  {
    var req := ExtPortInfoReq(route, p.node, p.num);
    DeliverSound(sc, s, req);
    ExtReplyStep(sc, s, route, p);
    GoOnOk(s.g, sc.cfg, route, p);
    var (g', reqs) := GoOn(s.g, sc.cfg, route, p);
    PoolMembers(s.pend, req, reqs);
    SameRecords(sc, s.g, g');
  }

  lemma DeliverRecords(sc: Scan, s: State, req: Req)
    requires Records(sc, s) && req in s.pend
    ensures Records(sc, Deliver(sc, s, req))
  {
    assert ReqTrue(sc, s.g, req);
    match req
    case NodeInfoReq(route, parent) =>
      if parent.None? { FirstRecords(sc, s); } else { PeerRecords(sc, s, route, parent.value); }
    case PortInfoReq(route, i, num) => PortRecordsKept(sc, s, route, PortRef(i, num));
    case ExtPortInfoReq(route, i, num) => ExtRecordsKept(sc, s, route, PortRef(i, num));
    case _ =>
      DataReplyStep(sc, s, req);
      DeliverSound(sc, s, req);
  }

  // The GUID of a recorded port does not change from one state to the next.
  lemma SameGuid(sc: Scan, g: Graph, g': Graph, p: PortRef)
    requires PortsTrue(sc, g) && PortsTrue(sc, g') && Grows(g, g') && p in g.ports
    ensures p in g'.ports && g'.ports[p].guid == g.ports[p].guid
  {
    assert GuidTrue(sc, g, p) && GuidTrue(sc, g', p) && At(g', p) == At(g, p);
  }

  // ---------------------------------------------------------------------------
  // Whole scans

  lemma InitialRecords(sc: Scan)
    requires ScanOk(sc) && SwitchGuidsOk(sc.w)
    ensures Records(sc, Initial(sc))
  {
    InitialSound(sc);
  }

  lemma {:induction false} RunRecords(sc: Scan, run: seq<State>)
    requires IsRun(sc, run) && SwitchGuidsOk(sc.w)
    ensures Records(sc, Last(run))
    decreases |run|
  {
    if |run| == 1 {
      InitialRecords(sc);
    } else {
      RunPrefix(sc, run);
      var before := run[..|run| - 1];
      RunRecords(sc, before);
      var req :| req in Last(before).pend && Last(run) == Deliver(sc, Last(before), req);
      DeliverRecords(sc, Last(before), req);
    }
  }

  // In every state of a scan, a port of a switch whose PortInfo is in carries the LID and
  // LMC of port 0 of that switch.
  lemma SwitchPortsShareLid(sc: Scan, run: seq<State>, p: PortRef)
    requires IsRun(sc, run) && SwitchGuidsOk(sc.w) && p in Last(run).g.ports && p.node < |Last(run).g.nodes|
    requires Last(run).g.nodes[p.node].info.kind == Switch && !IsShell(Last(run).g.ports[p])
    ensures var g := Last(run).g;
      && IsSwitch(sc.w, At(g, p).guid) && sc.w.hw[At(g, p).guid].ports != []
      && var port0 := sc.w.hw[At(g, p).guid].ports[0];
      g.ports[p].baseLid == port0.lid && g.ports[p].lmc == port0.lmc
  {
    RunRecords(sc, run);
    var g := Last(run).g;
    assert NodeTrue(sc, g.nodes[p.node]);
    assert GuidTrue(sc, g, p) && LidTrue(sc, g, p);
  }
}
