// What a finished scan leaves can be cached: a fabric in memory that has the nodes, ports
// and links of the scan meets what the round trip of the cache asks for.
module ScanToCache {
  import opened Wrappers
  import opened Fabric
  import opened Wiring
  import opened Discovery
  import opened Tables
  import opened PortRecords
  import opened PortIndexes
  import G = CacheGraph
  import W = CacheWriter
  import Q = QueriedOnce

  // The list of nodes starts with the node found last: node i of a scan of n nodes has
  // place n - 1 - i, and the other way round.
  function Moved(n: nat, p: PortRef): PortRef
    requires p.node < n
  {
    PortRef(n - 1 - p.node, p.num)
  }

  ghost predicate Below(n: nat, ps: seq<PortRef>) {
    forall k :: 0 <= k < |ps| ==> ps[k].node < n
  }

  function MovedAll(n: nat, ps: seq<PortRef>): (r: seq<PortRef>)
    requires Below(n, ps)
    ensures |r| == |ps|
  {
    seq(|ps|, k requires 0 <= k < |ps| => Moved(n, ps[k]))
  }

  // Fabric f has the nodes and the from-node of g.
  ghost predicate SameNodes(f: G.StoredFabric, g: Graph) {
    && |f.nodes| == |g.nodes|
    && (forall i :: 0 <= i < |f.nodes| ==>
          f.nodes[i].guid == g.nodes[|g.nodes| - 1 - i].info.guid && f.nodes[i].numports == g.nodes[|g.nodes| - 1 - i].info.numports)
    && g.from.Some? && g.from.value.node < |g.nodes| && f.from == |g.nodes| - 1 - g.from.value.node
  }

  // Fabric f has the ports and the links of g.
  ghost predicate SamePorts(f: G.StoredFabric, g: Graph) {
    && (forall p: PortRef {:trigger p in f.ports} :: p in f.ports <==> p.node < |g.nodes| && Moved(|g.nodes|, p) in g.ports)
    && (forall p: PortRef {:trigger p in f.ports} :: p in f.ports ==>
          var q := g.ports[Moved(|g.nodes|, p)];
          && f.ports[p].data.guid == q.guid && f.ports[p].data.portnum == q.portnum
          && (f.ports[p].remote.Some? <==> q.remote.Some?)
          && (q.remote.Some? ==> q.remote.value.node < |g.nodes| && f.ports[p].remote == Some(Moved(|g.nodes|, q.remote.value))))
  }

  // Fabric f is the fabric of g, with its port table t.
  ghost predicate Stores(f: G.StoredFabric, g: Graph, t: seq<seq<PortRef>>) {
    && SameNodes(f, g) && SamePorts(f, g)
    && Below(|g.nodes|, W.Concat(t)) && f.order == MovedAll(|g.nodes|, W.Concat(t))
  }

  // No two ports of different nodes have the same number and GUID.
  ghost predicate KeysUnique(w: Net) {
    forall a: Place, b: Place ::
      IsPlace(w, a) && IsPlace(w, b) && a.num == b.num && w.hw[a.guid].ports[a.num].guid == w.hw[b.guid].ports[b.num].guid ==> a == b
  }

  // ---------------------------------------------------------------------------
  // The port table as one sequence

  lemma {:induction false} InConcat(t: seq<seq<PortRef>>, p: PortRef)
    ensures p in W.Concat(t) <==> exists h :: 0 <= h < |t| && p in t[h]
    decreases |t|
  {
    if t != [] {
      InConcat(t[..|t| - 1], p);
    }
  }

  // Chains without repetition that share nothing
  ghost predicate Disjoint(t: seq<seq<PortRef>>) {
    && (forall h, a, b :: 0 <= h < |t| && 0 <= a < b < |t[h]| ==> t[h][a] != t[h][b])
    && (forall h, i, p :: 0 <= h < i < |t| && p in t[h] ==> p !in t[i])
  }

  lemma {:induction false} ConcatDistinct(t: seq<seq<PortRef>>)
    requires Disjoint(t)
    ensures forall j, k :: 0 <= j < k < |W.Concat(t)| ==> W.Concat(t)[j] != W.Concat(t)[k]
    decreases |t|
  {
    if t != [] {
      var front, last := t[..|t| - 1], t[|t| - 1];
      ConcatDistinct(front);
      forall j, k | 0 <= j < k < |W.Concat(t)|
        ensures W.Concat(t)[j] != W.Concat(t)[k]
      {
        if j < |W.Concat(front)| <= k {
          InConcat(front, W.Concat(t)[j]);
          assert W.Concat(t)[k] == last[k - |W.Concat(front)|] && W.Concat(t)[k] in last;
        }
      }
    }
  }

  lemma FiledIsDisjoint(t: seq<seq<PortRef>>, ports: map<PortRef, Port>)
    requires PortsFiled(t, ports)
    ensures Disjoint(t)
  {
    forall h, i, p | 0 <= h < i < |t| && p in t[h]
      ensures p !in t[i]
    {
      assert p in ports && Bucket(ports[p].guid) == h;
    }
  }

  // ---------------------------------------------------------------------------

  ghost predicate RemotesKnown(g: Graph) {
    forall p :: p in g.ports && g.ports[p].remote.Some? ==> g.ports[p].remote.value in g.ports
  }

  // A port of f is a port of g, and so is its remote port.
  lemma StoredPortOk(f: G.StoredFabric, g: Graph, p: PortRef)
    requires SlotsOk(g) && RemotesKnown(g) && SameNodes(f, g) && SamePorts(f, g) && p in f.ports
    ensures p.node < |f.nodes| && p.num <= f.nodes[p.node].numports && f.ports[p].data.portnum == p.num
    ensures f.ports[p].remote.Some? ==> f.ports[p].remote.value in f.ports
  {
    var n := |g.nodes|;
    var q := Moved(n, p);
    assert q in g.ports && g.ports[q].portnum == p.num;
    if g.ports[q].remote.Some? {
      var r := g.ports[q].remote.value;
      assert r in g.ports && Moved(n, Moved(n, r)) == r;
    }
  }

  lemma StoredKeyUnique(sc: Scan, f: G.StoredFabric, g: Graph, p: PortRef, q: PortRef)
    requires GraphOk(g) && PortsTrue(sc, g) && KeysUnique(sc.w) && SamePorts(f, g) && p in f.ports && q in f.ports
    requires G.KeyOf(f.ports[p].data) == G.KeyOf(f.ports[q].data)
    ensures p == q
  {
    SameKey(sc, g, Moved(|g.nodes|, p), Moved(|g.nodes|, q));
  }

  lemma StoredPortsOk(sc: Scan, f: G.StoredFabric, g: Graph)
    requires GraphOk(g) && PortsTrue(sc, g) && KeysUnique(sc.w) && SameNodes(f, g) && SamePorts(f, g)
    ensures G.PortsOk(f)
  {
    assert RemotesKnown(g);
    forall p: PortRef | p in f.ports
      ensures p.node < |f.nodes| && p.num <= f.nodes[p.node].numports && f.ports[p].data.portnum == p.num
      ensures f.ports[p].remote.Some? ==> f.ports[p].remote.value in f.ports
    {
      StoredPortOk(f, g, p);
    }
    forall p: PortRef, q: PortRef | p in f.ports && q in f.ports && G.KeyOf(f.ports[p].data) == G.KeyOf(f.ports[q].data)
      ensures p == q
    {
      StoredKeyUnique(sc, f, g, p, q);
    }
  }

  lemma SameKey(sc: Scan, g: Graph, p: PortRef, q: PortRef)
    requires GraphOk(g) && PortsTrue(sc, g) && KeysUnique(sc.w) && p in g.ports && q in g.ports
    requires g.ports[p].guid == g.ports[q].guid && g.ports[p].portnum == g.ports[q].portnum
    ensures p == q
  {
    assert GuidTrue(sc, g, p) && GuidTrue(sc, g, q);
    SamePlace(sc, g, p, q);
  }

  lemma StoredOrderOk(sc: Scan, s: State, f: G.StoredFabric, t: seq<seq<PortRef>>)
    requires PortsFiled(t, s.g.ports) && Stores(f, s.g, t)
    ensures G.OrderOk(f)
  {
    var n, all := |s.g.nodes|, W.Concat(t);
    FiledIsDisjoint(t, s.g.ports);
    ConcatDistinct(t);
    forall k | 0 <= k < |f.order|
      ensures f.order[k] in f.ports
    {
      InConcat(t, all[k]);
      assert Moved(n, f.order[k]) == all[k];
    }
    forall j, k | 0 <= j < k < |f.order|
      ensures f.order[j] != f.order[k]
    {
      assert all[j] != all[k];
    }
  }

  lemma StoredInOrder(f: G.StoredFabric, g: Graph, rs: seq<PortEntry>, t: seq<seq<PortRef>>, p: PortRef)
    requires Stores(f, g, t) && TableOf(t, rs) && p in f.ports && IsEntered(g, rs, Moved(|g.nodes|, p))
    ensures p in f.order
  {
    var q := Moved(|g.nodes|, p);
    assert EntryOf(g, q).port == q && EnteredPort(rs, q);
    EnteredIsOrdered(f, g, rs, t, p);
  }

  // A finished scan of a static fabric with unique port keys can be cached, and loading the
  // cache will find every port.
  lemma FinishedScanIsCacheable(sc: Scan, s: State, rs: seq<PortEntry>, f: G.StoredFabric, t: seq<seq<PortRef>>)
    requires Records(sc, s) && EntriesOk(sc, s, rs) && TableOf(t, rs) && s.pend == multiset{}
    requires KeysUnique(sc.w) && Stores(f, s.g, t)
    ensures G.FabricOk(f) && G.AllInTable(f)
  {
    TableInOrder(sc, s, rs, t);
    StoredPortsOk(sc, f, s.g);
    StoredOrderOk(sc, s, f, t);
    AllEntered(sc, s, rs);
    forall p: PortRef | p in f.ports
      ensures p in f.order
    {
      StoredInOrder(f, s.g, rs, t, p);
    }
    GuidsUnique(f, s.g);
  }

  lemma GuidsUnique(f: G.StoredFabric, g: Graph)
    requires SameNodes(f, g) && UniqueGuids(g.nodes)
    ensures f.from < |f.nodes| && forall i, j :: 0 <= i < j < |f.nodes| ==> f.nodes[i].guid != f.nodes[j].guid
  {
    var n := |g.nodes|;
    forall i, j | 0 <= i < j < n
      ensures f.nodes[i].guid != f.nodes[j].guid
    {
      assert g.nodes[n - 1 - j].info.guid != g.nodes[n - 1 - i].info.guid;
    }
  }

  // ---------------------------------------------------------------------------
  // After a scan with any replies

  // What a run has entered into the port table and the LID map
  ghost function Entered(init: Route, cfg: Config, answers: seq<Q.Answer>): seq<PortEntry>
    decreases |answers|
  {
    if answers == [] then []
    else
      var front, a := answers[..|answers| - 1], answers[|answers| - 1];
      var l := Q.Run(init, cfg, front);
      Entered(init, cfg, front)
      + (if Q.LogOk(l) && a.k < |l.sent| && a.k !in l.answered && ReplyOk(l.g, l.sent[a.k], a.reply)
         then EntriesOf(Q.Run(init, cfg, answers).g, l.sent[a.k], a.reply) else [])
  }

  ghost predicate EnteredPort(rs: seq<PortEntry>, p: PortRef) {
    exists r :: r in rs && r.port == p
  }

  lemma InTable(t: seq<seq<PortRef>>, rs: seq<PortEntry>, p: PortRef)
    requires TableOf(t, rs)
    ensures p in W.Concat(t) <==> EnteredPort(rs, p)
  {
    InConcat(t, p);
    if r :| r in rs && r.port == p {
      ChainHolds(rs, Bucket(r.guid), p);
    }
    if h :| 0 <= h < HTSZ && p in t[h] {
      ChainHolds(rs, h, p);
    }
  }

  lemma StoredAllEntered(f: G.StoredFabric, g: Graph, rs: seq<PortEntry>, t: seq<seq<PortRef>>, p: PortRef)
    requires Stores(f, g, t) && TableOf(t, rs) && G.AllInTable(f) && p in g.ports && p.node < |g.nodes|
    ensures EnteredPort(rs, p)
  {
    var n := |g.nodes|;
    assert Moved(n, Moved(n, p)) == p && Moved(n, p) in f.ports;
    var k :| 0 <= k < |f.order| && f.order[k] == Moved(n, p);
    assert W.Concat(t)[k] == p;
    InTable(t, rs, p);
  }

  lemma EnteredIsOrdered(f: G.StoredFabric, g: Graph, rs: seq<PortEntry>, t: seq<seq<PortRef>>, p: PortRef)
    requires Stores(f, g, t) && TableOf(t, rs) && p.node < |g.nodes| && EnteredPort(rs, Moved(|g.nodes|, p))
    ensures p in f.order
  {
    var q := Moved(|g.nodes|, p);
    InTable(t, rs, q);
    var k :| 0 <= k < |W.Concat(t)| && W.Concat(t)[k] == q;
    assert f.order[k] == p;
  }

  // The fabric of a scan is in its port table as a whole, so that its cache can be loaded,
  // exactly when the PortInfo of every port has come in.
  lemma CacheableIff(init: Route, cfg: Config, answers: seq<Q.Answer>, f: G.StoredFabric, t: seq<seq<PortRef>>)
    requires var g := Q.Run(init, cfg, answers).g; Stores(f, g, t) && TableOf(t, Entered(init, cfg, answers))
    ensures var g, rs := Q.Run(init, cfg, answers).g, Entered(init, cfg, answers);
      G.AllInTable(f) <==> forall p :: p in g.ports ==> EnteredPort(rs, p)
  {
    var g, rs := Q.Run(init, cfg, answers).g, Entered(init, cfg, answers);
    Q.AskedOnce(init, cfg, answers);
    if G.AllInTable(f) {
      forall p | p in g.ports
        ensures EnteredPort(rs, p)
      {
        StoredAllEntered(f, g, rs, t, p);
      }
    }
    if forall p :: p in g.ports ==> EnteredPort(rs, p) {
      forall p | p in f.ports
        ensures p in f.order
      {
        EnteredIsOrdered(f, g, rs, t, p);
      }
    }
  }

  // One answer more
  lemma OneMore(init: Route, cfg: Config, answers: seq<Q.Answer>, front: seq<Q.Answer>, a: Q.Answer)
    requires answers != [] && front == answers[..|answers| - 1] && a == answers[|answers| - 1]
    requires var l := Q.Run(init, cfg, front); a.k < |l.sent| && a.k !in l.answered
    ensures var l := Q.Run(init, cfg, front);
      Q.LogOk(l) && (ReplyOk(l.g, l.sent[a.k], a.reply) ==>
        && Q.Run(init, cfg, answers) == Q.Next(l, cfg, a.k, a.reply)
        && (!a.reply.PortInfoReply? ==> Entered(init, cfg, answers) == Entered(init, cfg, front)))
  {
    Q.AskedOnce(init, cfg, front);
  }

  // A reply that brings nothing
  lemma NextNothing(l: Q.Log, cfg: Config, k: nat, reply: Reply)
    requires Q.LogOk(l) && k < |l.sent| && !l.sent[k].ExtPortInfoReq? && (reply.Data? || reply.Failed?)
    ensures ReqOk(l.g, l.sent[k]) && ReplyOk(l.g, l.sent[k], reply) && Q.Next(l, cfg, k, reply) == Q.Log(l.g, l.sent, l.answered + {k})
  {
    assert l.sent[k] in l.sent && l.sent + [] == l.sent;
  }

  // The first node is a CA.
  lemma FirstIsCA(init: Route, cfg: Config, ni: NodeInfo, first: seq<Q.Answer>)
    requires ni.kind == CA && ni.localPort <= ni.numports && |first| == 1 && first[0] == Q.Answer(0, NodeInfoReply(ni))
    ensures var l := Q.Run(init, cfg, first);
      && l.sent == [NodeInfoReq(init, None), NodeDescReq(init, 0), PortInfoReq(init, 0, ni.localPort)]
      && l.answered == {0} && l.g.ports.Keys == {PortRef(0, ni.localPort)}
    ensures Entered(init, cfg, first) == []
  {
    assert first[..0] == [] && Entered(init, cfg, []) == [] && EMPTY.nodes + [Node(ni, init, 0, 0)] == [Node(ni, init, 0, 0)];
    OneMore(init, cfg, first, [], first[0]);
  }

  // A last answer that brings nothing
  lemma NothingMore(init: Route, cfg: Config, answers: seq<Q.Answer>, l: Q.Log)
    requires answers != [] && l == Q.Run(init, cfg, answers[..|answers| - 1])
    requires var a := answers[|answers| - 1];
      a.k < |l.sent| && a.k !in l.answered && !l.sent[a.k].ExtPortInfoReq? && (a.reply.Data? || a.reply.Failed?)
    ensures Q.Run(init, cfg, answers) == Q.Log(l.g, l.sent, l.answered + {answers[|answers| - 1].k})
    ensures Entered(init, cfg, answers) == Entered(init, cfg, answers[..|answers| - 1])
  {
    var front, a := answers[..|answers| - 1], answers[|answers| - 1];
    OneMore(init, cfg, answers, front, a);
    NextNothing(l, cfg, a.k, a.reply);
  }

  // A CA answers NodeInfo, and does not answer PortInfo.
  ghost predicate NoPortInfo(answers: seq<Q.Answer>, ni: NodeInfo) {
    && ni.kind == CA && ni.localPort <= ni.numports
    && |answers| == 3 && answers[0] == Q.Answer(0, NodeInfoReply(ni))
    && answers[1] == Q.Answer(1, Data(0)) && answers[2] == Q.Answer(2, Failed(ni.localPort))
  }

  // All its SMPs are over then, and its port is known but not entered.
  lemma LostPortInfo(init: Route, cfg: Config, ni: NodeInfo, answers: seq<Q.Answer>)
    requires NoPortInfo(answers, ni)
    ensures var l := Q.Run(init, cfg, answers);
      && |l.sent| == 3 && l.answered == {0, 1, 2} && l.g.ports.Keys == {PortRef(0, ni.localPort)}
      && Entered(init, cfg, answers) == []
  {
    FirstIsCA(init, cfg, ni, answers[..1]);
    var l := Q.Run(init, cfg, answers[..1]);
    assert answers[..2][..1] == answers[..1];
    NothingMore(init, cfg, answers[..2], l);
    NothingMore(init, cfg, answers, Q.Log(l.g, l.sent, {0, 1}));
  }

  // The fabric of that scan is cached, and cannot be loaded.
  lemma LostPortInfoNotLoaded(init: Route, cfg: Config, ni: NodeInfo, answers: seq<Q.Answer>, f: G.StoredFabric, t: seq<seq<PortRef>>)
    requires NoPortInfo(answers, ni)
    requires Stores(f, Q.Run(init, cfg, answers).g, t) && TableOf(t, Entered(init, cfg, answers))
    ensures !G.AllInTable(f)
  {
    LostPortInfo(init, cfg, ni, answers);
    CacheableIff(init, cfg, answers, f, t);
    assert PortRef(0, ni.localPort) in Q.Run(init, cfg, answers).g.ports;
  }
}
