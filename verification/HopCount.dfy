// maxhops_discovered: what it counts in a run with any replies, and how far a hop limit
// lets a scan go.
module HopCount {
  import opened Wrappers
  import opened Fabric
  import opened QueriedOnce
  import Paths

  // No route is longer than the start path and the hops counted.
  predicate RoutesCounted(init: Route, g: Graph, sent: seq<Req>) {
    && (forall i :: 0 <= i < |g.nodes| ==> |g.nodes[i].route| <= |init| + g.maxhops)
    && (forall r :: r in sent ==> |r.route| <= |init| + g.maxhops)
  }

  // No route is shorter than the start path.
  predicate RoutesOnward(init: Route, g: Graph, sent: seq<Req>) {
    && (forall i :: 0 <= i < |g.nodes| ==> |g.nodes[i].route| >= |init|)
    && (forall r :: r in sent ==> |r.route| >= |init|)
  }

  ghost predicate Reaches(sent: seq<Req>, n: nat) {
    exists k :: 0 <= k < |sent| && sent[k].NodeInfoReq? && |sent[k].route| == n
  }

  // A request whose answer can turn the scan around: one about the start node, which is
  // not a switch, on a route of several hops
  predicate TurnsBack(g: Graph, r: Req) {
    && (r.PortInfoReq? || r.ExtPortInfoReq?) && |r.route| > 1
    && g.from.Some? && r.node == g.from.value.node && !IsSwitchNode(g, r.node)
  }

  predicate NeverBack(l: Log) {
    forall r :: r in l.sent ==> !TurnsBack(l.g, r)
  }

  predicate Parentless(r: Req) {
    r.NodeInfoReq? && r.parent.None?
  }

  // Only the first query has no parent port, and nothing is known before it is answered.
  ghost predicate StartsOnce(l: Log) {
    && (forall k :: 0 < k < |l.sent| ==> !Parentless(l.sent[k]))
    && (0 !in l.answered ==> l.g == EMPTY)
  }

  ghost predicate Counted(init: Route, cfg: Config, l: Log) {
    && StartsOnce(l) && RoutesCounted(init, l.g, l.sent)
    && (cfg.maxHops != 0 ==> l.g.maxhops <= cfg.maxHops + 1)
    && (NeverBack(l) ==> RoutesOnward(init, l.g, l.sent) && Reaches(l.sent, |init| + l.g.maxhops))
  }

  // ---------------------------------------------------------------------------
  // One step

  // The next route of a scan that does not turn around: a hop more, which is counted if no
  // route had as many hops.
  lemma ExtendCounts(init: Route, g: Graph, cfg: Config, route: Route, port: nat)
    requires cfg.initialHops == |init| && |init| < HOPS_MAX && |route| <= |init| + g.maxhops && |route| < HOPS_MAX
    ensures var (hops, next) := ExtendRoute(g, cfg, route, port);
      && g.maxhops <= hops <= g.maxhops + 1 && (hops > g.maxhops && cfg.maxHops != 0 ==> hops <= cfg.maxHops + 1)
      && (next.Some? ==> |next.value| == |route| + 1 && |next.value| <= |init| + hops)
      && (next.None? ==> hops == g.maxhops)
      && (hops > g.maxhops && |route| >= |init| ==> |next.value| == |init| + hops)
  {
  }

  // GoOn, for a port that a request on the route is about
  lemma GoOnCounts(init: Route, g: Graph, cfg: Config, route: Route, p: PortRef)
    requires cfg.initialHops == |init| && |init| < HOPS_MAX && |route| <= |init| + g.maxhops && |route| < HOPS_MAX
    requires p in g.ports && p.node < |g.nodes|
    ensures var (g', reqs) := GoOn(g, cfg, route, p);
      && g' == g.(maxhops := g'.maxhops) && g.maxhops <= g'.maxhops
      && (cfg.maxHops != 0 && g.maxhops <= cfg.maxHops + 1 ==> g'.maxhops <= cfg.maxHops + 1)
      && (forall r :: r in reqs ==> r.NodeInfoReq? && |r.route| <= |init| + g'.maxhops && !Parentless(r))
    ensures var (g', reqs) := GoOn(g, cfg, route, p);
      |route| >= |init| && !TurnsBack(g, PortInfoReq(route, p.node, p.num)) ==>
        && (forall r :: r in reqs ==> |r.route| >= |init|)
        && (g'.maxhops > g.maxhops ==> Reaches(reqs, |init| + g'.maxhops))
  {
    ExtendCounts(init, g, cfg, route, p.num);
    var (g', reqs) := GoOn(g, cfg, route, p);
    if g'.maxhops > g.maxhops {
      assert |reqs| == 1 && reqs[0].NodeInfoReq?;
    }
  }

  // What one answer does to the hop count and to the routes
  ghost predicate StepCounted(init: Route, cfg: Config, g: Graph, req: Req, g': Graph, reqs: seq<Req>) {
    && g.maxhops <= g'.maxhops && (cfg.maxHops != 0 && g.maxhops <= cfg.maxHops + 1 ==> g'.maxhops <= cfg.maxHops + 1)
    && (forall r :: r in reqs ==> |r.route| <= |init| + g'.maxhops && !Parentless(r))
    && (forall i :: 0 <= i < |g'.nodes| ==> g'.nodes[i].route == if i < |g.nodes| then g.nodes[i].route else req.route)
    && (|req.route| >= |init| && !TurnsBack(g, req) ==>
          && (forall r :: r in reqs ==> |r.route| >= |init|)
          && (g'.maxhops > g.maxhops ==> Reaches(reqs, |init| + g'.maxhops)))
  }

  lemma RecvNodeInfoShape(g: Graph, route: Route, parent: Option<PortRef>, ni: NodeInfo)
    requires GraphOk(g) && ReqOk(g, NodeInfoReq(route, parent)) && HasRoom(g, ni)
    ensures var (g', reqs, rc) := RecvNodeInfo(g, route, parent, ni);
      && g'.maxhops == g.maxhops && (parent.Some? ==> g'.from == g.from)
      && g'.nodes == (if FindGuid(g.nodes, ni.guid).Some? then g.nodes else g.nodes + [Node(ni, route, 0, 0)])
      && forall r :: r in reqs ==> r.route == route && !r.NodeInfoReq?
  {
    var (g1, i) := Locate(g, route, ni);
    var p := PortRef(i, ni.localPort);
    LocateOk(g, route, ni);
    RoomFound(g, route, ni);
    EnterPortOk(g1, p, ni.portGuid);
    JoinOk(EnterPort(g1, p, ni.portGuid), p, parent);
    QueriesAboutNode(g1.nodes[i].info.kind, i == |g.nodes|, route, p);
  }

  lemma QueriesAboutNode(kind: Kind, isNew: bool, route: Route, p: PortRef)
    ensures forall r :: r in NodeQueries(kind, isNew, route, p) ==> r.route == route && !r.NodeInfoReq?
  {
  }

  lemma RecvNodeInfoCounts(init: Route, cfg: Config, g: Graph, route: Route, parent: Option<PortRef>, ni: NodeInfo)
    requires GraphOk(g) && ReqOk(g, NodeInfoReq(route, parent)) && HasRoom(g, ni) && |route| <= |init| + g.maxhops
    ensures var (g', reqs, rc) := RecvNodeInfo(g, route, parent, ni);
      StepCounted(init, cfg, g, NodeInfoReq(route, parent), g', reqs) && (parent.Some? ==> g'.from == g.from)
  {
    RecvNodeInfoShape(g, route, parent, ni);
  }

  lemma ReachesMore(reqs: seq<Req>, more: seq<Req>, n: nat)
    ensures Reaches(reqs, n) ==> Reaches(reqs + more, n) && Reaches(more + reqs, n)
  {
    if k :| 0 <= k < |reqs| && reqs[k].NodeInfoReq? && |reqs[k].route| == n {
      assert (reqs + more)[k] == reqs[k] && (more + reqs)[|more| + k] == reqs[k];
    }
  }

  lemma PortReplyCounts(init: Route, cfg: Config, g: Graph, route: Route, p: PortRef, pi: PortInfo, asked: nat)
    requires p.node < |g.nodes| && cfg.initialHops == |init| && |init| < HOPS_MAX
    requires |route| <= |init| + g.maxhops && |route| < HOPS_MAX
    ensures var (g', reqs) := PortReply(g, cfg, route, p, pi);
      StepCounted(init, cfg, g, PortInfoReq(route, p.node, asked), g', reqs) && g'.from == g.from
  {
    GoOnCounts(init, StorePortInfo(g, p, pi), cfg, route, p);
  }

  // Queries on the same route add nothing.
  lemma StepMore(init: Route, cfg: Config, g: Graph, req: Req, g': Graph, reqs: seq<Req>, rest: seq<Req>)
    requires StepCounted(init, cfg, g, req, g', reqs) && |req.route| <= |init| + g.maxhops
    requires forall r :: r in rest ==> r.route == req.route && !r.NodeInfoReq?
    ensures StepCounted(init, cfg, g, req, g', reqs + rest)
  {
    ReachesMore(reqs, rest, |init| + g'.maxhops);
  }

  lemma RecvPortReplyCounts(init: Route, cfg: Config, g: Graph, route: Route, i: nat, asked: nat, num: nat, pi: PortInfo)
    requires i < |g.nodes| && cfg.initialHops == |init| && |init| < HOPS_MAX
    requires |route| <= |init| + g.maxhops && |route| < HOPS_MAX
    ensures var (g', reqs) := RecvPortReply(g, cfg, route, i, asked, num, pi);
      StepCounted(init, cfg, g, PortInfoReq(route, i, asked), g', reqs) && g'.from == g.from
  {
    PortReplyCounts(init, cfg, g, route, PortRef(i, num), pi, asked);
    var (g', first) := PortReply(g, cfg, route, PortRef(i, num), pi);
    StepMore(init, cfg, g, PortInfoReq(route, i, asked), g', first,
      if asked == 0 then PortQueries(route, i, g.nodes[i].info.numports) else []);
  }

  lemma HandleCounts(init: Route, cfg: Config, g: Graph, req: Req, reply: Reply)
    requires GraphOk(g) && ReqOk(g, req) && ReplyOk(g, req, reply) && cfg.initialHops == |init| && |init| < HOPS_MAX
    requires |req.route| <= |init| + g.maxhops && |req.route| < HOPS_MAX
    ensures var (g', reqs, rc) := Handle(g, cfg, req, reply);
      StepCounted(init, cfg, g, req, g', reqs) && (!Parentless(req) ==> g'.from == g.from)
  {
    match (req, reply)
    case (NodeInfoReq(route, parent), NodeInfoReply(ni)) => RecvNodeInfoCounts(init, cfg, g, route, parent, ni);
    case (PortInfoReq(route, i, asked), PortInfoReply(num, pi)) => RecvPortReplyCounts(init, cfg, g, route, i, asked, num, pi);
    case (ExtPortInfoReq(route, i, _), _) =>
      var p := PortRef(i, reply.Modifier());
      if p in g.ports { GoOnCounts(init, g, cfg, route, p); }
    case (_, _) =>
  }

  // ---------------------------------------------------------------------------
  // Whole runs

  lemma NeverBackBefore(l: Log, l': Log)
    requires LogOk(l) && Grows(l.g, l'.g) && l.sent <= l'.sent && (l.g.from.Some? ==> l'.g.from == l.g.from)
    ensures NeverBack(l') ==> NeverBack(l)
  {
    forall r | r in l.sent && TurnsBack(l.g, r)
      ensures r in l'.sent && TurnsBack(l'.g, r)
    {
      assert ReqOk(l.g, r);
    }
  }

  lemma RoutesCountedNext(init: Route, cfg: Config, g: Graph, sent: seq<Req>, req: Req, g': Graph, reqs: seq<Req>)
    requires RoutesCounted(init, g, sent) && req in sent && StepCounted(init, cfg, g, req, g', reqs)
    ensures RoutesCounted(init, g', sent + reqs)
  {
  }

  lemma RoutesOnwardNext(init: Route, cfg: Config, g: Graph, sent: seq<Req>, req: Req, g': Graph, reqs: seq<Req>)
    requires RoutesOnward(init, g, sent) && Reaches(sent, |init| + g.maxhops)
    requires req in sent && !TurnsBack(g, req) && StepCounted(init, cfg, g, req, g', reqs)
    ensures RoutesOnward(init, g', sent + reqs) && Reaches(sent + reqs, |init| + g'.maxhops)
  {
    assert |req.route| >= |init|;
    ReachesMore(sent, reqs, |init| + g.maxhops);
    ReachesMore(reqs, sent, |init| + g'.maxhops);
  }

  lemma NextCounted(init: Route, cfg: Config, l: Log, k: nat, reply: Reply)
    requires cfg.initialHops == |init| && |init| < HOPS_MAX && LogOk(l) && Counted(init, cfg, l)
    requires k < |l.sent| && k !in l.answered && ReqOk(l.g, l.sent[k]) && ReplyOk(l.g, l.sent[k], reply) && |l.sent[k].route| < HOPS_MAX
    ensures Counted(init, cfg, Next(l, cfg, k, reply))
  {
    var req := l.sent[k];
    var (g', reqs, rc) := Handle(l.g, cfg, req, reply);
    var l' := Log(g', l.sent + reqs, l.answered + {k});
    HandleCounts(init, cfg, l.g, req, reply);
    HandleOk(l.g, cfg, req, reply);
    RoutesCountedNext(init, cfg, l.g, l.sent, req, g', reqs);
    StartNext(init, cfg, l, k, g', reqs);
    if NeverBack(l') {
      NeverBackBefore(l, l');
      RoutesOnwardNext(init, cfg, l.g, l.sent, req, g', reqs);
    }
  }

  // Once the start node is known it stays.
  lemma StartNext(init: Route, cfg: Config, l: Log, k: nat, g': Graph, reqs: seq<Req>)
    requires StartsOnce(l) && k < |l.sent| && k !in l.answered && StepCounted(init, cfg, l.g, l.sent[k], g', reqs)
    requires ReqOk(l.g, l.sent[k]) && (!Parentless(l.sent[k]) ==> g'.from == l.g.from)
    ensures StartsOnce(Log(g', l.sent + reqs, l.answered + {k})) && (l.g.from.Some? ==> g'.from == l.g.from)
  {
  }

  // In any run the hops counted bound all routes, and a limit bounds the hops counted.  As
  // long as the scan does not turn around, the longest NodeInfo route that was issued has
  // exactly as many hops beyond the start path as were counted.
  lemma {:induction false} RunCounted(init: Route, cfg: Config, answers: seq<Answer>)
    requires cfg.initialHops == |init| && |init| < HOPS_MAX
    ensures Counted(init, cfg, Run(init, cfg, answers))
    decreases |answers|
  {
    if answers == [] {
      assert Run(init, cfg, answers).sent[0] == NodeInfoReq(init, None);
    } else {
      var front, a := answers[..|answers| - 1], answers[|answers| - 1];
      RunCounted(init, cfg, front);
      AskedOnce(init, cfg, front);
      Paths.RunRoutesFit(init, cfg, front);
      var l := Run(init, cfg, front);
      if a.k < |l.sent| && a.k !in l.answered && ReplyOk(l.g, l.sent[a.k], a.reply) {
        NextCounted(init, cfg, l, a.k, a.reply);
      }
    }
  }

  // The same in other words: no route has more hops than the start path and those counted,
  // a limit of n lets a scan go n + 1 hops at most, and the count is that of the longest
  // NodeInfo route.
  lemma HopsAreCounted(init: Route, cfg: Config, answers: seq<Answer>)
    requires cfg.initialHops == |init| && |init| < HOPS_MAX
    ensures var l := Run(init, cfg, answers);
      && (forall r :: r in l.sent ==> |r.route| <= |init| + l.g.maxhops)
      && (cfg.maxHops != 0 ==> forall r :: r in l.sent ==> |r.route| <= |init| + cfg.maxHops + 1)
      && (NeverBack(l) ==> exists r :: r in l.sent && r.NodeInfoReq? && |r.route| == |init| + l.g.maxhops)
  {
    RunCounted(init, cfg, answers);
    var l := Run(init, cfg, answers);
    if NeverBack(l) {
      var k :| 0 <= k < |l.sent| && l.sent[k].NodeInfoReq? && |l.sent[k].route| == |init| + l.g.maxhops;
      assert l.sent[k] in l.sent;
    }
  }

  // A scan that starts at a switch never turns around.
  lemma SwitchNeverBack(l: Log)
    requires l.g.from.Some? && IsSwitchNode(l.g, l.g.from.value.node)
    ensures NeverBack(l)
  {
  }

  // ---------------------------------------------------------------------------
  // A scan that turns around

  // A CA whose port answers for the end of its own link
  const LOOP_INFO := NodeInfo(5, CA, 1, 5, 1, false)
  const LOOP_PORT := PortInfo(true, 1, 1, 0, false)
  const LOOP_REF := PortRef(0, 1)
  const NO_LIMIT := Config(0, false, 0)

  // The log of a run; the equation is unfolded only where the run is named.
  ghost predicate IsLog(answers: seq<Answer>, l: Log) {
    forall a {:trigger Run([], NO_LIMIT, a)} :: a == answers ==> l == Run([], NO_LIMIT, a)
  }

  // The CA is known, and a query for the end of its link is the last one.
  ghost predicate Looping(l: Log, route: Route, hops: nat) {
    && LogOk(l) && |l.g.nodes| == 1 && l.g.nodes[0].info == LOOP_INFO && l.g.ports.Keys == {LOOP_REF}
    && l.g.from == Some(LOOP_REF) && l.g.maxhops == hops
    && l.sent != [] && l.sent[|l.sent| - 1] == NodeInfoReq(route, Some(LOOP_REF)) && |l.sent| - 1 !in l.answered
    && forall k :: k in l.answered ==> k < |l.sent|
  }

  lemma AnsweredNext(init: Route, cfg: Config, answers: seq<Answer>, a: Answer)
    requires var l := Run(init, cfg, answers);
      a.k < |l.sent| && a.k !in l.answered && (LogOk(l) ==> ReplyOk(l.g, l.sent[a.k], a.reply))
    ensures var l := Run(init, cfg, answers);
      LogOk(l) && Run(init, cfg, answers + [a]) == Next(l, cfg, a.k, a.reply) && LogOk(Run(init, cfg, answers + [a]))
  {
    AskedOnce(init, cfg, answers);
    AskedOnce(init, cfg, answers + [a]);
    assert (answers + [a])[..|answers|] == answers;
  }

  // The route of the query that follows, and the hops counted then
  function LoopNext(route: Route, hops: nat): (Route, nat) {
    if |route| > 1 then (route[..|route| - 1], hops + 1) else (route + [1], if |route| + 1 > hops then hops + 1 else hops)
  }

  // The NodeInfo reply while the CA is known
  lemma LoopNodeInfo(l: Log, route: Route, hops: nat)
    requires Looping(l, route, hops)
    ensures var l' := Next(l, NO_LIMIT, |l.sent| - 1, NodeInfoReply(LOOP_INFO));
      && ReplyOk(l.g, l.sent[|l.sent| - 1], NodeInfoReply(LOOP_INFO))
      && l'.sent == l.sent + [PortInfoReq(route, 0, 1)] && |l'.g.nodes| == 1 && l'.g.nodes[0].info == LOOP_INFO
      && l'.g.ports.Keys == {LOOP_REF} && l'.g.from == Some(LOOP_REF) && l'.g.maxhops == hops
  {
    assert FindGuid(l.g.nodes, 5) == Some(0);
  }

  // And the PortInfo reply behind it
  lemma LoopPortInfo(l: Log, k: nat, route: Route, hops: nat)
    requires LogOk(l) && |l.g.nodes| == 1 && l.g.nodes[0].info == LOOP_INFO && l.g.ports.Keys == {LOOP_REF}
    requires l.g.from == Some(LOOP_REF) && l.g.maxhops == hops && |route| < 62
    requires k < |l.sent| && l.sent[k] == PortInfoReq(route, 0, 1)
    ensures var l', (next, hops') := Next(l, NO_LIMIT, k, PortInfoReply(1, LOOP_PORT)), LoopNext(route, hops);
      && ReplyOk(l.g, l.sent[k], PortInfoReply(1, LOOP_PORT))
      && l'.sent == l.sent + [NodeInfoReq(next, Some(LOOP_REF))] && |l'.g.nodes| == 1 && l'.g.nodes[0].info == LOOP_INFO
      && l'.g.ports.Keys == {LOOP_REF} && l'.g.from == Some(LOOP_REF) && l'.g.maxhops == hops'
  {
    var g1 := StorePortInfo(l.g, LOOP_REF, LOOP_PORT);
    assert Explores(g1, LOOP_REF);
    var next := NodeInfoReq(LoopNext(route, hops).0, Some(LOOP_REF));
    assert GoOn(g1, NO_LIMIT, route, LOOP_REF).1 == [next];
    assert [next] + [] == [next];
  }

  lemma LogNext(answers: seq<Answer>, l: Log, a: Answer)
    requires IsLog(answers, l) && a.k < |l.sent| && a.k !in l.answered && (LogOk(l) ==> ReplyOk(l.g, l.sent[a.k], a.reply))
    ensures LogOk(l)
    ensures IsLog(answers + [a], Next(l, NO_LIMIT, a.k, a.reply)) && LogOk(Next(l, NO_LIMIT, a.k, a.reply))
  {
    assert l == Run([], NO_LIMIT, answers);
    AnsweredNext([], NO_LIMIT, answers, a);
  }

  lemma LoopNodeAnswer(answers: seq<Answer>, l: Log, route: Route, hops: nat) returns (more: seq<Answer>, l': Log)
    requires IsLog(answers, l) && Looping(l, route, hops)
    ensures IsLog(more, l') && LogOk(l')
    ensures l' == Next(l, NO_LIMIT, |l.sent| - 1, NodeInfoReply(LOOP_INFO)) && l'.answered == l.answered + {|l.sent| - 1}
    ensures l'.sent == l.sent + [PortInfoReq(route, 0, 1)] && |l'.g.nodes| == 1 && l'.g.nodes[0].info == LOOP_INFO
    ensures l'.g.ports.Keys == {LOOP_REF} && l'.g.from == Some(LOOP_REF) && l'.g.maxhops == hops
  {
    var a := Answer(|l.sent| - 1, NodeInfoReply(LOOP_INFO));
    LoopNodeInfo(l, route, hops);
    LogNext(answers, l, a);
    more, l' := answers + [a], Next(l, NO_LIMIT, a.k, a.reply);
  }

  lemma LoopPortAnswer(answers: seq<Answer>, l: Log, route: Route, hops: nat) returns (more: seq<Answer>, l': Log)
    requires IsLog(answers, l) && LogOk(l) && |l.g.nodes| == 1 && l.g.nodes[0].info == LOOP_INFO
    requires l.g.ports.Keys == {LOOP_REF} && l.g.from == Some(LOOP_REF) && l.g.maxhops == hops && |route| < 62
    requires l.sent != [] && l.sent[|l.sent| - 1] == PortInfoReq(route, 0, 1) && |l.sent| - 1 !in l.answered
    ensures IsLog(more, l') && LogOk(l')
    ensures l' == Next(l, NO_LIMIT, |l.sent| - 1, PortInfoReply(1, LOOP_PORT)) && l'.answered == l.answered + {|l.sent| - 1}
    ensures var (next, hops') := LoopNext(route, hops);
      && l'.sent == l.sent + [NodeInfoReq(next, Some(LOOP_REF))] && |l'.g.nodes| == 1 && l'.g.nodes[0].info == LOOP_INFO
      && l'.g.ports.Keys == {LOOP_REF} && l'.g.from == Some(LOOP_REF) && l'.g.maxhops == hops'
  {
    var a := Answer(|l.sent| - 1, PortInfoReply(1, LOOP_PORT));
    LoopPortInfo(l, a.k, route, hops);
    LogNext(answers, l, a);
    more, l' := answers + [a], Next(l, NO_LIMIT, a.k, a.reply);
  }

  // A turn of the loop
  lemma LoopTurn(answers: seq<Answer>, l: Log, route: Route, hops: nat) returns (more: seq<Answer>, l': Log)
    requires IsLog(answers, l) && Looping(l, route, hops) && |route| < 62
    ensures IsLog(more, l') && Looping(l', LoopNext(route, hops).0, LoopNext(route, hops).1)
    ensures l'.sent == l.sent + [PortInfoReq(route, 0, 1)] + [NodeInfoReq(LoopNext(route, hops).0, Some(LOOP_REF))]
  {
    var mid, l1;
    mid, l1 := LoopNodeAnswer(answers, l, route, hops);
    more, l' := LoopPortAnswer(mid, l1, route, hops);
    LastIsOpen(l, l1, l');
  }

  lemma LastIsOpen(l: Log, l1: Log, l': Log)
    requires |l1.sent| == |l.sent| + 1 && |l'.sent| == |l1.sent| + 1 && l.sent != [] && forall k :: k in l.answered ==> k < |l.sent|
    requires l1.answered == l.answered + {|l.sent| - 1} && l'.answered == l1.answered + {|l1.sent| - 1}
    ensures |l'.sent| - 1 !in l'.answered && forall k :: k in l'.answered ==> k < |l'.sent|
  {
  }

  // The first answer
  lemma LoopFirst(l: Log)
    requires l == Log(EMPTY, [NodeInfoReq([], None)], {})
    ensures ReplyOk(l.g, l.sent[0], NodeInfoReply(LOOP_INFO))
    ensures var l' := Next(l, NO_LIMIT, 0, NodeInfoReply(LOOP_INFO));
      && l'.sent == [NodeInfoReq([], None), NodeDescReq([], 0), PortInfoReq([], 0, 1)] && l'.answered == {0}
      && |l'.g.nodes| == 1 && l'.g.nodes[0].info == LOOP_INFO
      && l'.g.ports.Keys == {LOOP_REF} && l'.g.from == Some(LOOP_REF) && l'.g.maxhops == 0
  {
  }

  // The first two answers
  lemma LoopBegins() returns (answers: seq<Answer>, l: Log)
    ensures IsLog(answers, l) && Looping(l, [1], 1)
    ensures l.sent == [NodeInfoReq([], None), NodeDescReq([], 0), PortInfoReq([], 0, 1)] + [NodeInfoReq([1], Some(LOOP_REF))]
  {
    var first, l0 := Answer(0, NodeInfoReply(LOOP_INFO)), Log(EMPTY, [NodeInfoReq([], None)], {});
    LoopFirst(l0);
    LogNext([], l0, first);
    var l1 := Next(l0, NO_LIMIT, 0, NodeInfoReply(LOOP_INFO));
    answers, l := LoopPortAnswer([] + [first], l1, [], 0);
  }

  predicate NoLonger(sent: seq<Req>, n: nat) {
    forall r :: r in sent ==> |r.route| <= n
  }

  lemma NoLongerMore(sent: seq<Req>, a: Req, b: Req, n: nat)
    requires NoLonger(sent, n) && |a.route| <= n && |b.route| <= n
    ensures NoLonger(sent + [a] + [b], n)
  {
  }

  // Replies that bring a CA back to its own port: three hops are counted, and the longest
  // route that was issued has two.
  lemma CountOvershoots() returns (answers: seq<Answer>)
    ensures var l := Run([], NO_LIMIT, answers); l.g.maxhops == 3 && NoLonger(l.sent, 2) && !NeverBack(l)
  {
    var l0, l1, l2;
    answers, l0 := LoopBegins();
    assert NoLonger(l0.sent, 2);
    answers, l1 := LoopTurn(answers, l0, [1], 1);
    NoLongerMore(l0.sent, PortInfoReq([1], 0, 1), NodeInfoReq(LoopNext([1], 1).0, Some(LOOP_REF)), 2);
    answers, l2 := LoopTurn(answers, l1, [1] + [1], 2);
    NoLongerMore(l1.sent, PortInfoReq([1] + [1], 0, 1), NodeInfoReq(LoopNext([1] + [1], 2).0, Some(LOOP_REF)), 2);
    TurnedBack(l2, PortInfoReq([1] + [1], 0, 1));
  }

  lemma TurnedBack(l: Log, r: Req)
    requires r in l.sent && TurnsBack(l.g, r)
    ensures !NeverBack(l)
  {
  }
}
