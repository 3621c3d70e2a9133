// A scan of a finite static fabric ends, wherever it starts and in whatever order its
// SMPs are answered: every reply strictly lowers a measure over the outstanding SMPs
// and the nodes not found yet.
module Termination {
  import opened Wrappers
  import opened Fabric
  import opened Wiring
  import opened Discovery
  import opened Completeness

  // ---------------------------------------------------------------------------
  // The measure

  // An upper bound on the replies that a NodeInfo query to `at` still causes, apart
  // from what a new node costs.
  function ArrivalCost(sc: Scan, at: Place): nat
    requires Walk(sc.w, sc.init).Some?
  {
    if IsSwitch(sc.w, at.guid) then 1 else if at == Start(sc) then 6 else 3
  }

  function PortCost(sc: Scan, at: Place, num: nat): nat
    requires Walk(sc.w, sc.init).Some? && NetOk(sc.w)
  {
    if !IsSwitch(sc.w, at.guid) then (if at == Start(sc) then 5 else 2)
    else if num == 0 then 1 + 8 * NumPorts(sc.w, at.guid)
    else 8
  }

  function ExtCost(sc: Scan, at: Place): nat
    requires Walk(sc.w, sc.init).Some?
  {
    if IsSwitch(sc.w, at.guid) then 7 else if at == Start(sc) then 4 else 1
  }

  // The replies that an outstanding SMP still causes, itself included.
  function Cost(sc: Scan, r: Req): (c: nat)
    requires ScanOk(sc)
    ensures 1 <= c
  {
    match Walk(sc.w, r.route)
    case None => 1
    case Some(at) =>
      match r
      case NodeInfoReq(_, _) => ArrivalCost(sc, at)
      case PortInfoReq(_, _, num) => PortCost(sc, at, num)
      case ExtPortInfoReq(_, _, _) => ExtCost(sc, at)
      case _ => 1
  }

  // The extra replies that a node costs when it is found.
  function NodeCost(w: Net, guid: nat): nat
    requires NetOk(w) && guid in w.hw
  {
    if IsSwitch(w, guid) then 3 + 8 * NumPorts(w, guid) else 1
  }

  ghost function Load(sc: Scan, pend: multiset<Req>): nat
    requires ScanOk(sc)
  {
    if pend == multiset{} then 0
    else
      var r :| r in pend;
      Cost(sc, r) + Load(sc, pend - multiset{r})
  }

  ghost function SeqLoad(sc: Scan, reqs: seq<Req>): nat
    requires ScanOk(sc)
  {
    if reqs == [] then 0 else Cost(sc, reqs[0]) + SeqLoad(sc, reqs[1..])
  }

  ghost function Hidden(w: Net, guids: set<nat>): nat
    requires NetOk(w) && guids <= w.hw.Keys
  {
    if guids == {} then 0
    else
      var g :| g in guids;
      NodeCost(w, g) + Hidden(w, guids - {g})
  }

  ghost function FoundGuids(g: Graph): set<nat> {
    set i | 0 <= i < |g.nodes| :: g.nodes[i].info.guid
  }

  ghost function Measure(sc: Scan, s: State): nat
    requires ScanOk(sc)
  {
    Load(sc, s.pend) + Hidden(sc.w, sc.w.hw.Keys - FoundGuids(s.g))
  }

  // ---------------------------------------------------------------------------
  // Sums

  lemma {:induction false} LoadRemove(sc: Scan, pend: multiset<Req>, r: Req)
    requires ScanOk(sc) && r in pend
    ensures Load(sc, pend) == Cost(sc, r) + Load(sc, pend - multiset{r})
    decreases |pend|
  {
    var c :| c in pend && Load(sc, pend) == Cost(sc, c) + Load(sc, pend - multiset{c});
    if c != r {
      RemoveTwo(pend, c, r);
      LoadRemove(sc, pend - multiset{c}, r);
      LoadRemove(sc, pend - multiset{r}, c);
    }
  }

  lemma RemoveTwo(pend: multiset<Req>, a: Req, b: Req)
    requires a in pend && b in pend && a != b
    ensures pend - multiset{a} - multiset{b} == pend - multiset{b} - multiset{a}
    ensures b in pend - multiset{a} && a in pend - multiset{b}
    ensures |pend - multiset{a}| == |pend| - 1 == |pend - multiset{b}|
  {
  }

  lemma {:induction false} LoadAdd(sc: Scan, pend: multiset<Req>, reqs: seq<Req>)
    requires ScanOk(sc)
    ensures Load(sc, pend + multiset(reqs)) == Load(sc, pend) + SeqLoad(sc, reqs)
    decreases |reqs|
  {
    if reqs == [] {
      assert pend + multiset(reqs) == pend;
    } else {
      var r := reqs[0];
      assert reqs == [r] + reqs[1..];
      assert multiset(reqs) == multiset{r} + multiset(reqs[1..]);
      LoadRemove(sc, pend + multiset(reqs), r);
      assert pend + multiset(reqs) - multiset{r} == pend + multiset(reqs[1..]);
      LoadAdd(sc, pend, reqs[1..]);
    }
  }

  lemma {:induction false} SeqLoadConcat(sc: Scan, a: seq<Req>, b: seq<Req>)
    requires ScanOk(sc)
    ensures SeqLoad(sc, a + b) == SeqLoad(sc, a) + SeqLoad(sc, b)
    decreases |a|
  {
    if a == [] {
      assert a + b == b;
    } else {
      assert (a + b)[1..] == a[1..] + b;
      SeqLoadConcat(sc, a[1..], b);
    }
  }

  lemma {:induction false} SeqLoadEights(sc: Scan, reqs: seq<Req>)
    requires ScanOk(sc) && forall r :: r in reqs ==> Cost(sc, r) == 8
    ensures SeqLoad(sc, reqs) == 8 * |reqs|
    decreases |reqs|
  {
    if reqs != [] {
      assert Cost(sc, reqs[0]) == 8;
      SeqLoadEights(sc, reqs[1..]);
    }
  }

  lemma {:induction false} HiddenRemove(w: Net, guids: set<nat>, g: nat)
    requires NetOk(w) && guids <= w.hw.Keys && g in guids
    ensures Hidden(w, guids) == NodeCost(w, g) + Hidden(w, guids - {g})
    decreases |guids|
  {
    var c :| c in guids && Hidden(w, guids) == NodeCost(w, c) + Hidden(w, guids - {c});
    if c != g {
      HiddenRemove(w, guids - {c}, g);
      HiddenRemove(w, guids - {g}, c);
      assert guids - {c} - {g} == guids - {g} - {c};
    }
  }

  // The measure after an answer that finds no new node.
  lemma MeasureStep(sc: Scan, s: State, req: Req, g': Graph, reqs: seq<Req>)
    requires ScanOk(sc) && req in s.pend && SeqLoad(sc, reqs) < Cost(sc, req)
    requires FoundGuids(g') == FoundGuids(s.g)
    ensures Measure(sc, State(g', s.pend - multiset{req} + multiset(reqs))) < Measure(sc, s)
  {
    LoadRemove(sc, s.pend, req);
    LoadAdd(sc, s.pend - multiset{req}, reqs);
  }

  // The measure after an answer that finds one.
  lemma MeasureFind(sc: Scan, s: State, req: Req, g': Graph, reqs: seq<Req>, guid: nat)
    requires ScanOk(sc) && req in s.pend && guid in sc.w.hw && guid !in FoundGuids(s.g)
    requires SeqLoad(sc, reqs) < Cost(sc, req) + NodeCost(sc.w, guid)
    requires FoundGuids(g') == FoundGuids(s.g) + {guid}
    ensures Measure(sc, State(g', s.pend - multiset{req} + multiset(reqs))) < Measure(sc, s)
  {
    LoadRemove(sc, s.pend, req);
    LoadAdd(sc, s.pend - multiset{req}, reqs);
    var hidden := sc.w.hw.Keys - FoundGuids(s.g);
    HiddenRemove(sc.w, hidden, guid);
    assert sc.w.hw.Keys - FoundGuids(g') == hidden - {guid};
  }

  // ---------------------------------------------------------------------------
  // The replies

  lemma NodeQueriesCost(sc: Scan, g: Graph, route: Route, isNew: bool, p: PortRef)
    requires ScanOk(sc) && NodesTrue(sc, g) && p.node < |g.nodes| && Walk(sc.w, route) == Some(At(g, p))
    ensures At(g, p).guid in sc.w.hw
    ensures SeqLoad(sc, NodeQueries(g.nodes[p.node].info.kind, isNew, route, p))
      == ArrivalCost(sc, At(g, p)) - 1 + if isNew then NodeCost(sc.w, At(g, p).guid) else 0
  {
    assert NodeTrue(sc, g.nodes[p.node]);
    var at := At(g, p);
    var desc := NodeDescReq(route, p.node);
    var sw := SwitchInfoReq(route, p.node);
    var p0 := PortInfoReq(route, p.node, 0);
    var pn := PortInfoReq(route, p.node, p.num);
    var first := if isNew then [desc] else [];
    var rest := NodeQueries(g.nodes[p.node].info.kind, isNew, route, p)[|first|..];
    assert NodeQueries(g.nodes[p.node].info.kind, isNew, route, p) == first + rest;
    SeqLoadConcat(sc, first, rest);
    assert SeqLoad(sc, [desc]) == 1;
    if IsSwitch(sc.w, at.guid) {
      assert [sw, p0][1..] == [p0] && SeqLoad(sc, [p0]) == Cost(sc, p0);
      assert rest == if isNew then [sw, p0] else [];
    } else {
      assert rest == [pn] && SeqLoad(sc, [pn]) == Cost(sc, pn);
    }
  }

  lemma FoundGrows(g: Graph, g': Graph)
    requires Grows(g, g')
    ensures |g'.nodes| == |g.nodes| ==> FoundGuids(g') == FoundGuids(g)
    ensures |g'.nodes| == |g.nodes| + 1 ==> FoundGuids(g') == FoundGuids(g) + {g'.nodes[|g.nodes|].info.guid}
  {
    if |g'.nodes| == |g.nodes| {
      assert forall i :: 0 <= i < |g.nodes| ==> g'.nodes[i].info.guid in FoundGuids(g);
      assert forall i :: 0 <= i < |g.nodes| ==> g.nodes[i].info.guid in FoundGuids(g');
    } else if |g'.nodes| == |g.nodes| + 1 {
      var guid := g'.nodes[|g.nodes|].info.guid;
      assert forall i :: 0 <= i < |g'.nodes| ==> g'.nodes[i].info.guid in FoundGuids(g) + {guid};
      assert forall i :: 0 <= i < |g.nodes| ==> g.nodes[i].info.guid in FoundGuids(g');
      assert guid in FoundGuids(g');
    }
  }

  lemma FirstDecreases(sc: Scan, s: State)
    requires Sound(sc, s) && s.g.nodes == []
    ensures Measure(sc, Deliver(sc, s, NodeInfoReq(sc.init, None))) < Measure(sc, s)
  {
    var req := NodeInfoReq(sc.init, None);
    FirstReply(sc, s);
    var s' := Deliver(sc, s, req);
    var p := PortRef(0, Start(sc).num);
    var queries := NodeQueries(s'.g.nodes[0].info.kind, true, sc.init, p);
    NodeQueriesCost(sc, s'.g, sc.init, true, p);
    FoundGrows(s.g, s'.g);
    assert s'.pend == s.pend - multiset{req} + multiset(queries);
    MeasureFind(sc, s, req, s'.g, queries, Start(sc).guid);
  }

  lemma PeerDecreases(sc: Scan, s: State, route: Route, b: PortRef)
    requires Sound(sc, s) && NodeInfoReq(route, Some(b)) in s.pend
    ensures Measure(sc, Deliver(sc, s, NodeInfoReq(route, Some(b)))) < Measure(sc, s)
  {
    var req := NodeInfoReq(route, Some(b));
    var s' := Deliver(sc, s, req);
    if Walk(sc.w, route).None? {
      MeasureStep(sc, s, req, s.g, []);
      assert s' == State(s.g, s.pend - multiset{req} + multiset([]));
    } else {
      var at := Walk(sc.w, route).value;
      PeerReplyStep(sc, s, route, b);
      PeerArrival(sc, s.g, route, b, at, s'.g);
      PeerTrue(sc, s.g, route, b, at, s'.g);
      var p := Arrival(s.g, at);
      NodeQueriesCost(sc, s'.g, route, p.node == |s.g.nodes|, p);
      FoundGrows(s.g, s'.g);
      if p.node == |s.g.nodes| {
        MeasureFind(sc, s, req, s'.g, PeerQueries(s.g, route, at, s'.g), at.guid);
      } else {
        MeasureStep(sc, s, req, s'.g, PeerQueries(s.g, route, at, s'.g));
      }
    }
  }

  // Going on from a start port of a CA or router costs no more than entering another
  // one: back along the start path there is a switch, and beyond the home port its peer.
  lemma StartOnwardCost(sc: Scan, route: Route)
    requires ScanOk(sc) && Walk(sc.w, route) == Some(Start(sc)) && !IsSwitch(sc.w, Start(sc).guid)
    ensures |route| > 1 ==> Cost(sc, NodeInfoReq(route[..|route| - 1], None)) <= 3
    ensures |route| <= 1 ==> Cost(sc, NodeInfoReq(route + [Start(sc).num], None)) <= 3
  {
    if |route| <= 1 { assert (route + [Start(sc).num])[..|route|] == route; }
  }

  lemma GoOnCost(sc: Scan, g: Graph, route: Route, p: PortRef)
    requires GraphTrue(sc, g) && Known(sc, g, route, p)
    ensures var at := Entry(sc, g, p);
      SeqLoad(sc, GoOn(g, sc.cfg, route, p).1) <=
        if p.num == 0 then 0 else if IsSwitch(sc.w, at.guid) then 6 else if at == Start(sc) then 3 else 0
  {
    var reqs := GoOn(g, sc.cfg, route, p).1;
    GoOnOk(g, sc.cfg, route, p);
    if reqs != [] {
      ExploresLeads(sc, g, route, p);
      assert reqs == [reqs[0]] && SeqLoad(sc, reqs) == Cost(sc, reqs[0]);
      if !IsSwitch(sc.w, At(g, p).guid) {
        assert NodeTrue(sc, g.nodes[p.node]);
        SamePlace(sc, g, p, PortRef(0, Start(sc).num));
        StartOnwardCost(sc, route);
      }
    }
  }

  lemma PortQueriesCost(sc: Scan, g: Graph, route: Route, p: PortRef)
    requires GraphTrue(sc, g) && PortQueryTrue(sc, g, route, p) && p.num == 0
    ensures IsSwitch(sc.w, At(g, p).guid)
    ensures SeqLoad(sc, PortQueries(route, p.node, g.nodes[p.node].info.numports)) == 8 * NumPorts(sc.w, At(g, p).guid)
  {
    WalkNum(sc.w, route);
    assert NodeTrue(sc, g.nodes[p.node]);
    SeqLoadEights(sc, PortQueries(route, p.node, g.nodes[p.node].info.numports));
  }

  // The extended query or the SMP to the peer, whichever follows PortInfo.
  lemma FirstCost(sc: Scan, g: Graph, route: Route, p: PortRef, first: seq<Req>)
    requires GraphTrue(sc, g) && Known(sc, g, route, p)
    requires first == GoOn(g, sc.cfg, route, p).1 || (first == [ExtPortInfoReq(route, p.node, p.num)] && g.ports[p].info.linkUp)
    ensures SeqLoad(sc, first) < if p.num == 0 then 1 else Cost(sc, PortInfoReq(route, p.node, p.num))
  {
    GoOnCost(sc, g, route, p);
    var ext := ExtPortInfoReq(route, p.node, p.num);
    assert SeqLoad(sc, [ext]) == Cost(sc, ext);
  }

  lemma PortReqsCost(sc: Scan, g: Graph, route: Route, p: PortRef)
    requires GraphTrue(sc, g) && PortQueryTrue(sc, g, route, p)
    ensures var (g', reqs) := RecvPortInfo(g, sc.cfg, route, p, PortInfoAt(sc.w, Entry(sc, g, p), p.num));
      SeqLoad(sc, reqs) < Cost(sc, PortInfoReq(route, p.node, p.num))
  {
    if p.num == 0 { PortQueriesCost(sc, g, route, p); }
    FollowUpCost(sc, g, route, p);
    var rest := if p.num == 0 then PortQueries(route, p.node, g.nodes[p.node].info.numports) else [];
    SeqLoadConcat(sc, FollowUp(sc, g, route, p), rest);
  }

  // The extended query or the SMP to the peer that a PortInfo reply is answered with
  function FollowUp(sc: Scan, g: Graph, route: Route, p: PortRef): (first: seq<Req>)
    requires GraphTrue(sc, g) && PortQueryTrue(sc, g, route, p)
  {
    var pi := PortInfoAt(sc.w, Entry(sc, g, p), p.num);
    if sc.cfg.mlxEpi && g.nodes[p.node].info.extCapable && pi.linkUp && pi.qdr
    then [ExtPortInfoReq(route, p.node, p.num)]
    else GoOn(StorePortInfo(g, p, pi), sc.cfg, route, p).1
  }

  lemma FollowUpCost(sc: Scan, g: Graph, route: Route, p: PortRef)
    requires GraphTrue(sc, g) && PortQueryTrue(sc, g, route, p)
    ensures SeqLoad(sc, FollowUp(sc, g, route, p)) < if p.num == 0 then 1 else Cost(sc, PortInfoReq(route, p.node, p.num))
  {
    var g1 := StorePortInfo(g, p, PortInfoAt(sc.w, Entry(sc, g, p), p.num));
    PortSteps(sc, g, route, p);
    StoreTrue(sc, g, route, p, g1);
    StoreKnown(sc, g, route, p, g1);
    FirstCost(sc, g1, route, p, FollowUp(sc, g, route, p));
  }

  // Every reply lowers the measure.
  lemma DeliverDecreases(sc: Scan, s: State, req: Req)
    requires Sound(sc, s) && req in s.pend
    ensures Measure(sc, Deliver(sc, s, req)) < Measure(sc, s)
  {
    match req
    case NodeInfoReq(route, parent) =>
      assert ReqTrue(sc, s.g, req);
      if parent.None? { FirstDecreases(sc, s); } else { PeerDecreases(sc, s, route, parent.value); }
    case PortInfoReq(route, i, num) =>
      var p := PortRef(i, num);
      PortReplyStep(sc, s, route, p);
      PortReqsCost(sc, s.g, route, p);
      var (g', reqs) := RecvPortInfo(s.g, sc.cfg, route, p, PortInfoAt(sc.w, Entry(sc, s.g, p), p.num));
      FoundGrows(s.g, g');
      MeasureStep(sc, s, req, g', reqs);
    case ExtPortInfoReq(route, i, num) =>
      var p := PortRef(i, num);
      ExtReplyStep(sc, s, route, p);
      GoOnCost(sc, s.g, route, p);
      var (g', reqs) := GoOn(s.g, sc.cfg, route, p);
      FoundGrows(s.g, g');
      MeasureStep(sc, s, req, g', reqs);
    case _ =>
      DataReplyStep(sc, s, req);
      MeasureStep(sc, s, req, s.g, []);
      assert s.pend - multiset{req} + multiset([]) == s.pend - multiset{req};
  }

  // Termination.  No scan delivers more replies than the measure of its first state.
  lemma {:induction false} ScanEnds(sc: Scan, run: seq<State>)
    requires IsRun(sc, run)
    ensures Sound(sc, Last(run))
    ensures |run| - 1 + Measure(sc, Last(run)) <= Measure(sc, Initial(sc))
    decreases |run|
  {
    if |run| == 1 {
      InitialSound(sc);
    } else {
      RunPrefix(sc, run);
      var before := run[..|run| - 1];
      ScanEnds(sc, before);
      var s := Last(before);
      var req :| req in s.pend && Last(run) == Deliver(sc, s, req);
      DeliverSound(sc, s, req);
      DeliverDecreases(sc, s, req);
    }
  }

  // Every scan can be run until nothing is outstanding.
  lemma {:induction false} RunToEnd(sc: Scan, run: seq<State>) returns (all: seq<State>)
    requires IsRun(sc, run)
    ensures IsRun(sc, all) && run <= all && Last(all).pend == multiset{}
    decreases Measure(sc, Last(run))
  {
    ScanEnds(sc, run);
    if Last(run).pend == multiset{} {
      all := run;
    } else {
      var req :| req in Last(run).pend;
      NextIsRun(sc, run, req);
      DeliverDecreases(sc, Last(run), req);
      all := RunToEnd(sc, run + [Deliver(sc, Last(run), req)]);
    }
  }

  // ---------------------------------------------------------------------------
  // The bound in numbers

  lemma OneMore(n: nat, most: nat)
    ensures (n - 1) * most + most == n * most
  {
  }

  lemma {:induction false} HiddenBound(w: Net, guids: set<nat>, most: nat)
    requires NetOk(w) && guids <= w.hw.Keys && forall g :: g in w.hw ==> NodeCost(w, g) <= most
    ensures Hidden(w, guids) <= |guids| * most
    decreases |guids|
  {
    if guids != {} {
      var g :| g in guids && Hidden(w, guids) == NodeCost(w, g) + Hidden(w, guids - {g});
      HiddenBound(w, guids - {g}, most);
      assert |guids - {g}| == |guids| - 1;
      OneMore(|guids|, most);
    }
  }

  lemma InitialMeasure(sc: Scan)
    requires ScanOk(sc)
    ensures Measure(sc, Initial(sc)) <= 6 + Hidden(sc.w, sc.w.hw.Keys)
  {
    var first := NodeInfoReq(sc.init, None);
    LoadRemove(sc, Initial(sc).pend, first);
    assert Initial(sc).pend - multiset{first} == multiset{};
    assert FoundGuids(Initial(sc).g) == {};
    assert sc.w.hw.Keys - FoundGuids(Initial(sc).g) == sc.w.hw.Keys;
  }

  lemma InitialBound(sc: Scan, ports: nat)
    requires ScanOk(sc) && forall g :: g in sc.w.hw ==> NumPorts(sc.w, g) <= ports
    ensures Measure(sc, Initial(sc)) <= 6 + |sc.w.hw| * (3 + 8 * ports)
  {
    InitialMeasure(sc);
    HiddenBound(sc.w, sc.w.hw.Keys, 3 + 8 * ports);
    assert |sc.w.hw.Keys| == |sc.w.hw|;
  }

  // A scan of n nodes with at most `ports` ports each takes at most
  // 6 + n * (3 + 8 * ports) replies.
  lemma ScanLength(sc: Scan, run: seq<State>, ports: nat)
    requires IsRun(sc, run) && forall g :: g in sc.w.hw ==> NumPorts(sc.w, g) <= ports
    ensures |run| - 1 <= Measure(sc, Initial(sc)) <= 6 + |sc.w.hw| * (3 + 8 * ports)
  {
    ScanEnds(sc, run);
    InitialBound(sc, ports);
  }
}
