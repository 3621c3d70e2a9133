// Whatever the replies say and in whatever order they come, a scan asks for the
// description of a node, for the SwitchInfo of a switch and for each PortInfo of a
// switch at most once.
module QueriedOnce {
  import opened Wrappers
  import opened Fabric

  // The SMPs of a run in issue order; `answered` holds the numbers of those that are over.
  datatype Log = Log(g: Graph, sent: seq<Req>, answered: set<nat>)

  predicate IsSwitchNode(g: Graph, i: nat) {
    i < |g.nodes| && g.nodes[i].info.kind == Switch
  }

  // The queries that are never repeated.
  predicate OncePerNode(g: Graph, r: Req) {
    r.NodeDescReq? || r.SwitchInfoReq? || (r.PortInfoReq? && IsSwitchNode(g, r.node))
  }

  // The same question, on whatever route it is sent.
  predicate SameQuery(a: Req, b: Req) {
    match (a, b)
    case (NodeDescReq(_, i), NodeDescReq(_, j)) => i == j
    case (SwitchInfoReq(_, i), SwitchInfoReq(_, j)) => i == j
    case (PortInfoReq(_, i, m), PortInfoReq(_, j, n)) => i == j && m == n
    case _ => false
  }

  ghost predicate NeverRepeated(g: Graph, sent: seq<Req>) {
    forall i, j :: 0 <= i < j < |sent| && OncePerNode(g, sent[i]) ==> !SameQuery(sent[i], sent[j])
  }

  predicate AboutPorts(r: Req, node: nat) {
    r.PortInfoReq? && r.node == node
  }

  // The query for port 0 of a switch, which goes before all other ports.
  predicate PortZeroQuery(g: Graph, r: Req) {
    r.PortInfoReq? && r.num == 0 && IsSwitchNode(g, r.node)
  }

  // While the PortInfo of port 0 of a switch is awaited, no other port was asked for.
  ghost predicate PortZeroFirst(g: Graph, sent: seq<Req>, answered: set<nat>) {
    forall k, j ::
      (0 <= k < |sent| && 0 <= j < |sent| && k !in answered && PortZeroQuery(g, sent[k]) && AboutPorts(sent[j], sent[k].node))
      ==> j == k
  }

  ghost predicate LogOk(l: Log) {
    && GraphOk(l.g)
    && (forall r :: r in l.sent ==> ReqOk(l.g, r))
    && NeverRepeated(l.g, l.sent)
    && PortZeroFirst(l.g, l.sent, l.answered)
  }

  // The environment answers SMP number k with any reply that names a port of its node.
  function Next(l: Log, cfg: Config, k: nat, reply: Reply): Log
    requires GraphOk(l.g) && k < |l.sent| && ReqOk(l.g, l.sent[k])
  {
    var (g', reqs, rc) := Handle(l.g, cfg, l.sent[k], reply);
    Log(g', l.sent + reqs, l.answered + {k})
  }

  // The requests of one callback repeat nothing.
  ghost predicate NewQueries(g': Graph, sent: seq<Req>, reqs: seq<Req>) {
    && NeverRepeated(g', reqs)
    && forall j, i :: 0 <= j < |reqs| && 0 <= i < |sent| && OncePerNode(g', reqs[j]) ==> !SameQuery(sent[i], reqs[j])
  }

  // A query for port 0 of a switch comes alone, and before any other of that switch.
  ghost predicate NewPortZero(g': Graph, sent: seq<Req>, answered: set<nat>, reqs: seq<Req>) {
    && (forall j, m ::
          (0 <= j < |reqs| && 0 <= m < |reqs| && PortZeroQuery(g', reqs[j]) && AboutPorts(reqs[m], reqs[j].node)) ==> j == m)
    && (forall j, i :: 0 <= j < |reqs| && 0 <= i < |sent| && PortZeroQuery(g', reqs[j]) ==> !AboutPorts(sent[i], reqs[j].node))
    && (forall j, i ::
          0 <= j < |reqs| && 0 <= i < |sent| && i !in answered && PortZeroQuery(g', sent[i]) ==> !AboutPorts(reqs[j], sent[i].node))
  }

  lemma StillOnce(g: Graph, g': Graph, r: Req)
    requires Grows(g, g') && ReqOk(g, r)
    ensures OncePerNode(g', r) <==> OncePerNode(g, r)
    ensures PortZeroQuery(g', r) <==> PortZeroQuery(g, r)
  {
  }

  lemma NeverRepeatedMore(g: Graph, g': Graph, sent: seq<Req>, reqs: seq<Req>)
    requires Grows(g, g') && (forall r :: r in sent ==> ReqOk(g, r))
    requires NeverRepeated(g, sent) && NewQueries(g', sent, reqs)
    ensures NeverRepeated(g', sent + reqs)
  {
    var all := sent + reqs;
    forall i, j | 0 <= i < j < |all| && OncePerNode(g', all[i])
      ensures !SameQuery(all[i], all[j])
    {
      if j < |sent| {
        StillOnce(g, g', sent[i]);
      } else if i < |sent| {
        assert SameQuery(sent[i], reqs[j - |sent|]) ==> OncePerNode(g', reqs[j - |sent|]);
      }
    }
  }

  lemma PortZeroFirstMore(g: Graph, g': Graph, sent: seq<Req>, answered: set<nat>, reqs: seq<Req>)
    requires Grows(g, g') && (forall r :: r in sent ==> ReqOk(g, r))
    requires PortZeroFirst(g, sent, answered) && NewPortZero(g', sent, answered, reqs)
    ensures PortZeroFirst(g', sent + reqs, answered)
  {
    var all := sent + reqs;
    forall k, j | 0 <= k < |all| && 0 <= j < |all| && k !in answered && PortZeroQuery(g', all[k]) && AboutPorts(all[j], all[k].node)
      ensures j == k
    {
      if k < |sent| { StillOnce(g, g', sent[k]); }
    }
  }

  // The requests after a NodeInfo reply are about a node that is new, or is not a switch.
  lemma NodeInfoIssues(l: Log, g': Graph, isNew: bool, route: Route, p: PortRef)
    requires LogOk(l) && Grows(l.g, g') && p.node < |g'.nodes| && (isNew <==> p.node >= |l.g.nodes|)
    ensures var reqs := NodeQueries(g'.nodes[p.node].info.kind, isNew, route, p);
      NewQueries(g', l.sent, reqs) && NewPortZero(g', l.sent, l.answered, reqs)
  {
    var reqs := NodeQueries(g'.nodes[p.node].info.kind, isNew, route, p);
    forall j, i | 0 <= j < |reqs| && 0 <= i < |l.sent|
      ensures OncePerNode(g', reqs[j]) ==> !SameQuery(l.sent[i], reqs[j])
      ensures PortZeroQuery(g', reqs[j]) ==> !AboutPorts(l.sent[i], reqs[j].node)
      ensures PortZeroQuery(g', l.sent[i]) ==> !AboutPorts(reqs[j], l.sent[i].node)
    {
      assert ReqOk(l.g, l.sent[i]);
    }
  }

  // After the PortInfo of a port: at most one SMP through the port and, after port 0,
  // the queries for all others, which were not asked for before.
  lemma PortInfoIssues(l: Log, g': Graph, k: nat, first: seq<Req>)
    requires LogOk(l) && Grows(l.g, g') && k < |l.sent| && l.sent[k].PortInfoReq? && k !in l.answered
    requires l.sent[k].node < |l.g.nodes|
    requires |first| <= 1 && forall r :: r in first ==> r.NodeInfoReq? || r.ExtPortInfoReq?
    ensures var r := l.sent[k];
      var reqs := first + if r.num == 0 then PortQueries(r.route, r.node, l.g.nodes[r.node].info.numports) else [];
      NewQueries(g', l.sent, reqs) && NewPortZero(g', l.sent, l.answered + {k}, reqs)
  {
    var r := l.sent[k];
    var rest := if r.num == 0 then PortQueries(r.route, r.node, l.g.nodes[r.node].info.numports) else [];
    var reqs := first + rest;
    assert ReqOk(l.g, r);
    forall j | 0 <= j < |reqs|
      ensures !PortZeroQuery(g', reqs[j]) && (j < |first| ==> !reqs[j].PortInfoReq? && !OncePerNode(g', reqs[j]))
    {
      if j < |first| { assert reqs[j] == first[j] && first[j] in first; } else { assert reqs[j] == rest[j - |first|]; }
    }
    forall j, i | 0 <= j < |reqs| && 0 <= i < |l.sent|
      ensures OncePerNode(g', reqs[j]) ==> !SameQuery(l.sent[i], reqs[j])
      ensures i !in l.answered + {k} && PortZeroQuery(g', l.sent[i]) ==> !AboutPorts(reqs[j], l.sent[i].node)
    {
      StillOnce(l.g, g', r);
      StillOnce(l.g, g', l.sent[i]);
      if j >= |first| {
        assert reqs[j] == PortInfoReq(r.route, r.node, j - |first| + 1);
      }
    }
  }

  lemma NodeInfoJoins(g: Graph, route: Route, parent: Option<PortRef>, ni: NodeInfo)
    requires GraphOk(g) && ReqOk(g, NodeInfoReq(route, parent)) && HasRoom(g, ni)
    ensures var (g', reqs, rc) := RecvNodeInfo(g, route, parent, ni);
      var i := Locate(g, route, ni).1;
      && i < |g'.nodes| && (i == |g.nodes| <==> i >= |g.nodes|)
      && reqs == NodeQueries(g'.nodes[i].info.kind, i == |g.nodes|, route, PortRef(i, ni.localPort))
  {
    var (g1, i) := Locate(g, route, ni);
    var p := PortRef(i, ni.localPort);
    LocateOk(g, route, ni);
    EnterPortOk(g1, p, ni.portGuid);
    JoinOk(EnterPort(g1, p, ni.portGuid), p, parent);
  }

  // What any callback issues repeats nothing.
  lemma CallbackIssues(l: Log, cfg: Config, k: nat, reply: Reply)
    requires LogOk(l) && k < |l.sent| && k !in l.answered && ReqOk(l.g, l.sent[k]) && ReplyOk(l.g, l.sent[k], reply)
    ensures var (g', reqs, rc) := Handle(l.g, cfg, l.sent[k], reply);
      NewQueries(g', l.sent, reqs) && NewPortZero(g', l.sent, l.answered + {k}, reqs)
  {
    var req := l.sent[k];
    HandleOk(l.g, cfg, req, reply);
    var (g', reqs, rc) := Handle(l.g, cfg, req, reply);
    match (req, reply)
    case (NodeInfoReq(route, parent), NodeInfoReply(ni)) =>
      var i := Locate(l.g, route, ni).1;
      NodeInfoJoins(l.g, route, parent, ni);
      NodeInfoIssues(l, g', i == |l.g.nodes|, route, PortRef(i, ni.localPort));
    case (PortInfoReq(route, i, asked), PortInfoReply(num, pi)) =>
      PortReplyIssues(l.g, cfg, route, PortRef(i, num), pi);
      PortInfoIssues(l, g', k, PortReply(l.g, cfg, route, PortRef(i, num), pi).1);
    case (ExtPortInfoReq(route, i, _), _) =>
      var p := PortRef(i, reply.Modifier());
      if p in l.g.ports { GoOnOk(l.g, cfg, route, p); }
    case (_, _) =>
  }

  lemma PortReplyIssues(g: Graph, cfg: Config, route: Route, p: PortRef, pi: PortInfo)
    requires p.node < |g.nodes|
    ensures var first := PortReply(g, cfg, route, p, pi).1;
      |first| <= 1 && forall r :: r in first ==> r.NodeInfoReq? || r.ExtPortInfoReq?
  {
    GoOnOk(StorePortInfo(g, p, pi), cfg, route, p);
  }

  // One reply, whatever it says.  An SMP is answered once: its transaction id has left
  // the wire.
  lemma NextLogOk(l: Log, cfg: Config, k: nat, reply: Reply)
    requires LogOk(l) && k < |l.sent| && k !in l.answered && ReqOk(l.g, l.sent[k]) && ReplyOk(l.g, l.sent[k], reply)
    ensures LogOk(Next(l, cfg, k, reply))
  {
    var (g', reqs, rc) := Handle(l.g, cfg, l.sent[k], reply);
    HandleOk(l.g, cfg, l.sent[k], reply);
    CallbackIssues(l, cfg, k, reply);
    NeverRepeatedMore(l.g, g', l.sent, reqs);
    PortZeroFirstMore(l.g, g', l.sent, l.answered + {k}, reqs);
    forall r | r in l.sent
      ensures ReqOk(g', r)
    {
      GrowsReqOk(l.g, g', r);
    }
  }

  // ---------------------------------------------------------------------------
  // Whole runs

  datatype Answer = Answer(k: nat, reply: Reply)

  // A run from the first query; answers to SMPs that are not outstanding end it, as do
  // replies about ports that a node does not have.
  ghost function Run(init: Route, cfg: Config, answers: seq<Answer>): Log
    decreases |answers|
  {
    if answers == [] then Log(EMPTY, [NodeInfoReq(init, None)], {})
    else
      var l := Run(init, cfg, answers[..|answers| - 1]);
      var a := answers[|answers| - 1];
      if LogOk(l) && a.k < |l.sent| && a.k !in l.answered && ReplyOk(l.g, l.sent[a.k], a.reply) then Next(l, cfg, a.k, a.reply) else l
  }

  lemma {:induction false} AskedOnce(init: Route, cfg: Config, answers: seq<Answer>)
    ensures var l := Run(init, cfg, answers); LogOk(l) && NeverRepeated(l.g, l.sent)
    decreases |answers|
  {
    if answers != [] {
      AskedOnce(init, cfg, answers[..|answers| - 1]);
      var l := Run(init, cfg, answers[..|answers| - 1]);
      var a := answers[|answers| - 1];
      if a.k < |l.sent| && a.k !in l.answered && ReplyOk(l.g, l.sent[a.k], a.reply) {
        NextLogOk(l, cfg, a.k, a.reply);
      }
    }
  }

  // ---------------------------------------------------------------------------
  // Every node is asked

  // A node has been asked for its description over the route that found it and, if it is a
  // switch, for its SwitchInfo and its port 0.
  ghost predicate IsAsked(g: Graph, sent: seq<Req>, i: nat)
    requires i < |g.nodes|
  {
    var route := g.nodes[i].route;
    && NodeDescReq(route, i) in sent
    && (g.nodes[i].info.kind == Switch ==> SwitchInfoReq(route, i) in sent && PortInfoReq(route, i, 0) in sent)
  }

  ghost predicate AllAsked(g: Graph, sent: seq<Req>) {
    forall i :: 0 <= i < |g.nodes| ==> IsAsked(g, sent, i)
  }

  lemma NewNodeAsked(g: Graph, route: Route, parent: Option<PortRef>, ni: NodeInfo)
    requires GraphOk(g) && ReqOk(g, NodeInfoReq(route, parent)) && HasRoom(g, ni)
    ensures var (g', reqs, rc) := RecvNodeInfo(g, route, parent, ni);
      && Grows(g, g') && |g'.nodes| <= |g.nodes| + 1
      && (|g'.nodes| == |g.nodes| + 1 ==> IsAsked(g', reqs, |g.nodes|))
  {
    var (g1, i) := Locate(g, route, ni);
    var p := PortRef(i, ni.localPort);
    LocateOk(g, route, ni);
    EnterPortOk(g1, p, ni.portGuid);
    JoinOk(EnterPort(g1, p, ni.portGuid), p, parent);
    NodeQueriesAsk(ni.kind, route, p);
  }

  lemma NodeQueriesAsk(kind: Kind, route: Route, p: PortRef)
    ensures var reqs := NodeQueries(kind, true, route, p);
      && NodeDescReq(route, p.node) in reqs
      && (kind == Switch ==> SwitchInfoReq(route, p.node) in reqs && PortInfoReq(route, p.node, 0) in reqs)
  {
    var reqs := NodeQueries(kind, true, route, p);
    assert reqs[0] == NodeDescReq(route, p.node);
    if kind == Switch { assert reqs[1] == SwitchInfoReq(route, p.node) && reqs[2] == PortInfoReq(route, p.node, 0); }
  }

  lemma NextAsks(l: Log, cfg: Config, k: nat, reply: Reply)
    requires LogOk(l) && k < |l.sent| && ReqOk(l.g, l.sent[k]) && ReplyOk(l.g, l.sent[k], reply) && AllAsked(l.g, l.sent)
    ensures AllAsked(Next(l, cfg, k, reply).g, Next(l, cfg, k, reply).sent)
  {
    var l' := Next(l, cfg, k, reply);
    HandleOk(l.g, cfg, l.sent[k], reply);
    if l.sent[k].NodeInfoReq? && reply.NodeInfoReply? { NewNodeAsked(l.g, l.sent[k].route, l.sent[k].parent, reply.ni); }
    forall i | 0 <= i < |l'.g.nodes|
      ensures IsAsked(l'.g, l'.sent, i)
    {
      if i < |l.g.nodes| { assert IsAsked(l.g, l.sent, i); } else { NodesGrow(l, cfg, k, reply); }
    }
  }

  // Only a NodeInfo reply creates a node.
  lemma NodesGrow(l: Log, cfg: Config, k: nat, reply: Reply)
    requires LogOk(l) && k < |l.sent| && ReqOk(l.g, l.sent[k]) && ReplyOk(l.g, l.sent[k], reply)
    ensures !(l.sent[k].NodeInfoReq? && reply.NodeInfoReply?) ==> |Next(l, cfg, k, reply).g.nodes| == |l.g.nodes|
  {
    HandleOk(l.g, cfg, l.sent[k], reply);
  }

  // Whatever the replies say, every node that a run has found has been asked for its
  // description once, and every switch for its SwitchInfo and its port 0 once.
  lemma {:induction false} EveryNodeIsAsked(init: Route, cfg: Config, answers: seq<Answer>)
    ensures var l := Run(init, cfg, answers); LogOk(l) && AllAsked(l.g, l.sent)
    decreases |answers|
  {
    AskedOnce(init, cfg, answers);
    if answers != [] {
      var front, a := answers[..|answers| - 1], answers[|answers| - 1];
      EveryNodeIsAsked(init, cfg, front);
      var l := Run(init, cfg, front);
      if a.k < |l.sent| && a.k !in l.answered && ReplyOk(l.g, l.sent[a.k], a.reply) { NextAsks(l, cfg, a.k, a.reply); }
    }
  }

  // The SMPs of a run that ask the same as r
  ghost function Copies(sent: seq<Req>, r: Req): set<nat> {
    set k | 0 <= k < |sent| && SameQuery(r, sent[k])
  }

  lemma OneCopy(l: Log, r: Req)
    requires LogOk(l) && r in l.sent && OncePerNode(l.g, r)
    ensures |Copies(l.sent, r)| == 1
  {
    var k :| 0 <= k < |l.sent| && l.sent[k] == r;
    forall j | 0 <= j < |l.sent| && SameQuery(r, l.sent[j])
      ensures j == k
    {
      if j < k { assert OncePerNode(l.g, l.sent[j]); }
    }
    assert Copies(l.sent, r) == {k};
  }

  lemma AskedExactlyOnce(init: Route, cfg: Config, answers: seq<Answer>, i: nat)
    requires i < |Run(init, cfg, answers).g.nodes|
    ensures var l := Run(init, cfg, answers); var n := l.g.nodes[i];
      && |Copies(l.sent, NodeDescReq(n.route, i))| == 1
      && (n.info.kind == Switch ==> |Copies(l.sent, SwitchInfoReq(n.route, i))| == 1 && |Copies(l.sent, PortInfoReq(n.route, i, 0))| == 1)
  {
    var l := Run(init, cfg, answers);
    EveryNodeIsAsked(init, cfg, answers);
    assert IsAsked(l.g, l.sent, i);
    OneCopy(l, NodeDescReq(l.g.nodes[i].route, i));
    if l.g.nodes[i].info.kind == Switch {
      OneCopy(l, SwitchInfoReq(l.g.nodes[i].route, i));
      OneCopy(l, PortInfoReq(l.g.nodes[i].route, i, 0));
    }
  }
}
