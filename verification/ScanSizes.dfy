// How large the graph of a scan and the numbers in it can become.
module ScanSizes {
  import opened Wrappers
  import opened Fabric
  import opened Wiring
  import opened Discovery
  import opened Completeness
  import opened Binary

  // Numbers have the widths of the fields they come from.
  predicate NarrowNode(n: Node) {
    n.info.guid < Pow2(64) && n.info.portGuid < Pow2(64) && n.info.numports <= 254 && n.smalid < Pow2(16) && n.smalmc <= 7
  }

  predicate NarrowPort(port: Port) {
    port.guid < Pow2(64) && port.baseLid < Pow2(16) && port.lmc <= 7
  }

  ghost predicate Narrow(g: Graph) {
    && (forall i :: 0 <= i < |g.nodes| ==> NarrowNode(g.nodes[i]))
    && (forall p :: p in g.ports ==> NarrowPort(g.ports[p]))
  }

  predicate NarrowReply(reply: Reply) {
    match reply
    case NodeInfoReply(ni) => ni.guid < Pow2(64) && ni.portGuid < Pow2(64) && ni.numports <= 254
    case PortInfoReply(_, pi) => pi.lid < Pow2(16) && pi.lmc <= 7
    case _ => true
  }

  // The graph has at most n nodes and n ports, and at most n hops were counted.
  predicate Sized(g: Graph, n: nat) {
    |g.nodes| <= n && |g.ports| <= n && g.maxhops <= n
  }

  lemma RecvNodeInfoSizes(g: Graph, route: Route, parent: Option<PortRef>, ni: NodeInfo, n: nat)
    requires Narrow(g) && Sized(g, n) && NarrowReply(NodeInfoReply(ni))
    ensures var g' := RecvNodeInfo(g, route, parent, ni).0; Narrow(g') && Sized(g', n + 1)
  {
    var (g1, i) := Locate(g, route, ni);
    var p := PortRef(i, ni.localPort);
    var g2 := EnterPort(g1, p, ni.portGuid);
    assert Narrow(g1) && Sized(g1.(ports := map[]), n + 1) && g1.ports == g.ports;
    EnterPortSizes(g1, p, ni.portGuid, n);
    if parent.Some? && parent.value in g2.ports {
      assert LinkPorts(g2, p, parent.value).ports.Keys == g2.ports.Keys;
      assert |LinkPorts(g2, p, parent.value).ports| == |LinkPorts(g2, p, parent.value).ports.Keys| == |g2.ports.Keys| == |g2.ports|;
    }
  }

  lemma EnterPortSizes(g: Graph, p: PortRef, guid: nat, n: nat)
    requires Narrow(g) && |g.ports| <= n && guid < Pow2(64)
    ensures var g' := EnterPort(g, p, guid); Narrow(g') && g'.nodes == g.nodes && g'.maxhops == g.maxhops && |g'.ports| <= n + 1
  {
    var g' := EnterPort(g, p, guid);
    KeysMore(g.ports, p, g'.ports[p]);
  }

  lemma KeysMore(ports: map<PortRef, Port>, p: PortRef, port: Port)
    ensures |ports[p := port]| <= |ports| + 1
  {
    assert ports[p := port].Keys == ports.Keys + {p};
    assert |ports[p := port]| == |ports[p := port].Keys|;
  }

  lemma GoOnSizes(g: Graph, cfg: Config, route: Route, p: PortRef, n: nat)
    requires Narrow(g) && p in g.ports && p.node < |g.nodes| && |g.nodes| <= n && |g.ports| <= n && g.maxhops < n
    ensures var g' := GoOn(g, cfg, route, p).0; Narrow(g') && Sized(g', n)
  {
  }

  lemma RecvPortReplySizes(g: Graph, cfg: Config, route: Route, i: nat, asked: nat, num: nat, pi: PortInfo, n: nat)
    requires Narrow(g) && Sized(g, n) && i < |g.nodes| && NarrowReply(PortInfoReply(num, pi))
    ensures var g' := RecvPortReply(g, cfg, route, i, asked, num, pi).0; Narrow(g') && Sized(g', n + 1)
  {
    var p := PortRef(i, num);
    var g1 := StorePortInfo(g, p, pi);
    KeysMore(g.ports, p, g1.ports[p]);
    assert Narrow(g1);
    GoOnSizes(g1, cfg, route, p, n + 1);
  }

  // One callback, for any reply
  lemma HandleSizes(g: Graph, cfg: Config, req: Req, reply: Reply, n: nat)
    requires GraphOk(g) && ReqOk(g, req) && Narrow(g) && Sized(g, n) && NarrowReply(reply)
    ensures var g' := Handle(g, cfg, req, reply).0; Narrow(g') && Sized(g', n + 1)
  {
    match (req, reply)
    case (NodeInfoReq(route, parent), NodeInfoReply(ni)) => RecvNodeInfoSizes(g, route, parent, ni, n);
    case (PortInfoReq(route, i, asked), PortInfoReply(num, pi)) => RecvPortReplySizes(g, cfg, route, i, asked, num, pi, n);
    case (ExtPortInfoReq(route, i, _), _) =>
      var p := PortRef(i, reply.Modifier());
      if p in g.ports { GoOnSizes(g, cfg, route, p, n + 1); }
    case (_, _) =>
  }

  // The fields of a static fabric have the widths of the wire.
  ghost predicate NetFits(w: Net) {
    && (forall g :: g in w.hw ==> g < Pow2(64) && |w.hw[g].ports| <= 255)
    && (forall p :: IsPlace(w, p) ==> HwPortFits(w.hw[p.guid].ports[p.num]))
  }

  predicate HwPortFits(p: HwPort) {
    p.guid < Pow2(64) && p.lid < Pow2(16) && p.lmc <= 7
  }

  lemma AnswerNarrow(w: Net, req: Req)
    requires NetOk(w) && NetFits(w)
    ensures NarrowReply(Answer(w, req))
  {
    WalkIsPlace(w, req.route);
    var at := Walk(w, req.route);
    if at.Some? && req.PortInfoReq? && IsPlace(w, Place(at.value.guid, req.num)) {
      assert HwPortFits(w.hw[at.value.guid].ports[req.num]);
    }
    if at.Some? {
      assert HwPortFits(w.hw[at.value.guid].ports[at.value.num]);
    }
  }

  // After k answers a scan knows at most k nodes and k ports, and all numbers fit.
  lemma {:induction false} RunSizes(sc: Scan, run: seq<State>)
    requires IsRun(sc, run) && NetFits(sc.w)
    ensures Narrow(Last(run).g) && Sized(Last(run).g, |run| - 1)
    decreases |run|
  {
    if |run| > 1 {
      RunPrefix(sc, run);
      var before := run[..|run| - 1];
      RunSizes(sc, before);
      var s := Last(before);
      var req :| req in s.pend && Last(run) == Deliver(sc, s, req);
      AnswerNarrow(sc.w, req);
      assert ReqOk(s.g, req);
      HandleSizes(s.g, sc.cfg, req, Answer(sc.w, req), |run| - 2);
    }
  }
}
