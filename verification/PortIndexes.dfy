// The port table and the LID map during a scan of a static fabric, in every state and
// when the scan is over.
module PortIndexes {
  import opened Wrappers
  import opened Fabric
  import opened Wiring
  import opened Discovery
  import opened Tables
  import opened PortRecords

  // An entry still says what the port says.
  ghost predicate EntryTrue(sc: Scan, g: Graph, r: PortEntry) {
    && r.port in g.ports && r.port.node < |g.nodes| && IsPlace(sc.w, At(g, r.port))
    && r == EntryOf(g, r.port)
    && r.base == LidSource(sc.w, At(g, r.port)).lid && r.lmc == LidSource(sc.w, At(g, r.port)).lmc
  }

  // The ports that a scan has to enter: all ports of a switch, and of any other node
  // those by which it was reached.
  predicate ToEnter(sc: Scan, g: Graph, p: PortRef) {
    && p.node < |g.nodes| && p.num <= g.nodes[p.node].info.numports
    && (IsSwitch(sc.w, At(g, p).guid) || p in g.ports)
  }

  predicate IsEntered(g: Graph, rs: seq<PortEntry>, p: PortRef) {
    p in g.ports && EntryOf(g, p) in rs
  }

  // A query whose answer enters p, or lets p be asked for
  predicate AsksFor(r: Req, p: PortRef) {
    r.PortInfoReq? && r.node == p.node && (r.num == p.num || r.num == 0)
  }

  ghost predicate Awaited(pend: multiset<Req>, p: PortRef) {
    exists r :: r in pend && AsksFor(r, p)
  }

  ghost predicate EntriesOk(sc: Scan, s: State, rs: seq<PortEntry>) {
    && (forall r :: r in rs ==> EntryTrue(sc, s.g, r))
    && (forall p :: ToEnter(sc, s.g, p) ==> IsEntered(s.g, rs, p) || Awaited(s.pend, p))
  }

  // ---------------------------------------------------------------------------
  // Replies that enter nothing

  // GUIDs and LIDs of the known ports stay as they are.
  ghost predicate SameRecords(g: Graph, g': Graph) {
    && Grows(g, g')
    && forall q :: q in g.ports ==>
         g'.ports[q].guid == g.ports[q].guid && g'.ports[q].baseLid == g.ports[q].baseLid && g'.ports[q].lmc == g.ports[q].lmc
  }

  lemma EntriesKept(sc: Scan, g: Graph, g': Graph, rs: seq<PortEntry>)
    requires SameRecords(g, g') && forall r :: r in rs ==> EntryTrue(sc, g, r)
    ensures forall r :: r in rs ==> EntryTrue(sc, g', r)
    ensures forall p :: IsEntered(g, rs, p) ==> IsEntered(g', rs, p)
  {
    forall r | r in rs
      ensures EntryTrue(sc, g', r)
    {
      assert EntryTrue(sc, g, r) && At(g', r.port) == At(g, r.port);
    }
  }

  lemma AwaitedKept(pend: multiset<Req>, pend': multiset<Req>, req: Req, p: PortRef)
    requires Awaited(pend, p) && !AsksFor(req, p) && forall r :: r in pend && r != req ==> r in pend'
    ensures Awaited(pend', p)
  {
    var r :| r in pend && AsksFor(r, p);
    assert r in pend';
  }

  // A reply that neither adds ports nor answers a PortInfo query
  lemma OtherEntries(sc: Scan, s: State, req: Req, s': State, rs: seq<PortEntry>)
    requires EntriesOk(sc, s, rs) && !req.PortInfoReq?
    requires s'.g == s.g.(maxhops := s'.g.maxhops) && forall r :: r in s.pend && r != req ==> r in s'.pend
    ensures EntriesOk(sc, s', rs)
  {
    EntriesKept(sc, s.g, s'.g, rs);
    forall p | ToEnter(sc, s'.g, p)
      ensures IsEntered(s'.g, rs, p) || Awaited(s'.pend, p)
    {
      assert ToEnter(sc, s.g, p);
      if !IsEntered(s.g, rs, p) { AwaitedKept(s.pend, s'.pend, req, p); }
    }
  }

  // ---------------------------------------------------------------------------
  // NodeInfo replies

  // A node that was just reached has its port asked for, a new switch its port 0.
  lemma ArrivalAsked(sc: Scan, g: Graph, isNew: bool, route: Route, p: PortRef, q: PortRef)
    requires NodesTrue(sc, g) && p.node < |g.nodes| && q.node == p.node
    requires if IsSwitch(sc.w, At(g, p).guid) then isNew else q == p
    ensures Awaited(multiset(NodeQueries(g.nodes[p.node].info.kind, isNew, route, p)), q)
  {
    assert NodeTrue(sc, g.nodes[p.node]);
    var reqs := NodeQueries(g.nodes[p.node].info.kind, isNew, route, p);
    var r := PortInfoReq(route, p.node, if IsSwitch(sc.w, At(g, p).guid) then 0 else p.num);
    assert r in reqs && AsksFor(r, q);
  }

  lemma FirstEntries(sc: Scan, s: State, rs: seq<PortEntry>)
    requires Records(sc, s) && EntriesOk(sc, s, rs) && s.g.nodes == []
    ensures EntriesOk(sc, Deliver(sc, s, NodeInfoReq(sc.init, None)), rs)
  {
    var s' := Deliver(sc, s, NodeInfoReq(sc.init, None));
    FirstReply(sc, s);
    assert rs == [] || (rs[0] in rs && EntryTrue(sc, s.g, rs[0]));
    FirstAwaited(sc, s');
  }

  lemma FirstAwaited(sc: Scan, s: State)
    requires ScanOk(sc) && NodesTrue(sc, s.g) && |s.g.nodes| == 1 && s.g.ports.Keys == {PortRef(0, Start(sc).num)}
    requires s.pend == multiset(NodeQueries(s.g.nodes[0].info.kind, true, sc.init, PortRef(0, Start(sc).num)))
    ensures forall q :: ToEnter(sc, s.g, q) ==> Awaited(s.pend, q)
  {
    forall q | ToEnter(sc, s.g, q)
      ensures Awaited(s.pend, q)
    {
      ArrivalAsked(sc, s.g, true, sc.init, PortRef(0, Start(sc).num), q);
    }
  }

  lemma PeerSameRecords(sc: Scan, g: Graph, route: Route, b: PortRef, at: Place, g': Graph)
    requires PeerStep(sc, g, route, b, at, g') && ReqOk(g, NodeInfoReq(route, Some(b)))
    requires g' == RecvNodeInfo(g, route, Some(b), NodeInfoAt(sc.w, at)).0
    requires PortsTrue(sc, g) && PortsTrue(sc, g')
    ensures SameRecords(g, g') && g'.ports.Keys == g.ports.Keys + {Arrival(g, at)}
  {
    NodeInfoRecords(sc, g, route, Some(b), at);
    forall q | q in g.ports
      ensures g'.ports[q].guid == g.ports[q].guid
    {
      SameGuid(sc, g, g', q);
    }
  }

  lemma PeerEntries(sc: Scan, s: State, route: Route, b: PortRef, rs: seq<PortEntry>)
    requires Records(sc, s) && EntriesOk(sc, s, rs) && NodeInfoReq(route, Some(b)) in s.pend && Walk(sc.w, route).Some?
    ensures EntriesOk(sc, Deliver(sc, s, NodeInfoReq(route, Some(b))), rs)
  {
    var req := NodeInfoReq(route, Some(b));
    var at := Walk(sc.w, route).value;
    var s' := Deliver(sc, s, req);
    assert ReqOk(s.g, req) && ReqTrue(sc, s.g, req);
    PeerReplyStep(sc, s, route, b);
    PeerRecords(sc, s, route, b);
    PeerSameRecords(sc, s.g, route, b, at, s'.g);
    PoolMembers(s.pend, req, PeerQueries(s.g, route, at, s'.g));
    PeerArrival(sc, s.g, route, b, at, s'.g);
    EntriesKept(sc, s.g, s'.g, rs);
    forall q | ToEnter(sc, s'.g, q)
      ensures IsEntered(s'.g, rs, q) || Awaited(s'.pend, q)
    {
      PeerToEnter(sc, s, req, Arrival(s.g, at), route, s', rs, q);
    }
  }

  lemma PeerToEnter(sc: Scan, s: State, req: Req, p: PortRef, route: Route, s': State, rs: seq<PortEntry>, q: PortRef)
    requires EntriesOk(sc, s, rs) && SlotsOk(s.g) && req.NodeInfoReq? && NodesTrue(sc, s'.g)
    requires SameRecords(s.g, s'.g) && s'.g.ports.Keys == s.g.ports.Keys + {p} && p.node < |s'.g.nodes|
    requires |s'.g.nodes| == if p.node < |s.g.nodes| then |s.g.nodes| else p.node + 1
    requires p.node >= |s.g.nodes| ==> p.node == |s.g.nodes|
    requires forall r :: r in s.pend && r != req ==> r in s'.pend
    requires var reqs := NodeQueries(s'.g.nodes[p.node].info.kind, p.node == |s.g.nodes|, route, p); forall r :: r in reqs ==> r in s'.pend
    requires ToEnter(sc, s'.g, q)
    ensures IsEntered(s'.g, rs, q) || Awaited(s'.pend, q)
  {
    if ToEnter(sc, s.g, q) {
      EntriesKept(sc, s.g, s'.g, rs);
      if !IsEntered(s.g, rs, q) { AwaitedKept(s.pend, s'.pend, req, q); }
    } else {
      assert q.node == p.node && (IsSwitch(sc.w, At(s'.g, q).guid) ==> p.node == |s.g.nodes|);
      ArrivalAsked(sc, s'.g, p.node == |s.g.nodes|, route, p, q);
      var reqs := NodeQueries(s'.g.nodes[p.node].info.kind, p.node == |s.g.nodes|, route, p);
      var r :| r in multiset(reqs) && AsksFor(r, q);
      assert r in s'.pend;
    }
  }

  // ---------------------------------------------------------------------------
  // PortInfo replies

  // The LID and LMC that recv_port_info stores
  lemma StoredLid(sc: Scan, g: Graph, route: Route, p: PortRef)
    requires GraphTrue(sc, g) && PortQueryTrue(sc, g, route, p)
    requires SmaTrue(sc, g, PortInfoReq(route, p.node, p.num))
    ensures var g' := StorePortInfo(g, p, PortInfoAt(sc.w, Entry(sc, g, p), p.num));
      && At(g', p) == At(g, p) && g'.ports[p].baseLid == LidSource(sc.w, At(g, p)).lid && g'.ports[p].lmc == LidSource(sc.w, At(g, p)).lmc
  {
    assert NodeTrue(sc, g.nodes[p.node]);
  }

  lemma PortEntered(sc: Scan, s: State, route: Route, p: PortRef, g': Graph, rs: seq<PortEntry>)
    requires Records(sc, s) && GraphTrue(sc, s.g) && PortQueryTrue(sc, s.g, route, p)
    requires SmaTrue(sc, s.g, PortInfoReq(route, p.node, p.num))
    requires g' == StorePortInfo(s.g, p, PortInfoAt(sc.w, Entry(sc, s.g, p), p.num))
    requires forall r :: r in rs ==> EntryTrue(sc, s.g, r)
    ensures forall r :: r in rs + [EntryOf(g', p)] ==> EntryTrue(sc, g', r)
    ensures forall q :: IsEntered(s.g, rs, q) ==> IsEntered(g', rs + [EntryOf(g', p)], q)
  {
    StoredLid(sc, s.g, route, p);
    forall r | r in rs
      ensures EntryTrue(sc, g', r)
    {
      assert EntryTrue(sc, s.g, r) && At(g', r.port) == At(s.g, r.port);
    }
    forall q | IsEntered(s.g, rs, q)
      ensures IsEntered(g', rs + [EntryOf(g', p)], q)
    {
      assert q != p ==> EntryOf(g', q) == EntryOf(s.g, q);
    }
  }

  lemma StoredEntered(sc: Scan, s: State, route: Route, p: PortRef, rs: seq<PortEntry>)
    requires Records(sc, s) && GraphTrue(sc, s.g) && PortQueryTrue(sc, s.g, route, p)
    requires SmaTrue(sc, s.g, PortInfoReq(route, p.node, p.num))
    requires forall r :: r in rs ==> EntryTrue(sc, s.g, r)
    ensures var g' := RecvPortInfo(s.g, sc.cfg, route, p, PortInfoAt(sc.w, Entry(sc, s.g, p), p.num)).0;
      && p in g'.ports
      && (forall r :: r in rs + [EntryOf(g', p)] ==> EntryTrue(sc, g', r))
      && (forall q :: IsEntered(s.g, rs, q) ==> IsEntered(g', rs + [EntryOf(g', p)], q))
  {
    var pi := PortInfoAt(sc.w, Entry(sc, s.g, p), p.num);
    var g1 := StorePortInfo(s.g, p, pi);
    var g' := RecvPortInfo(s.g, sc.cfg, route, p, pi).0;
    PortReplyCases(s.g, sc.cfg, route, p, pi);
    PortEntered(sc, s, route, p, g1, rs);
    EntriesKept(sc, g1, g', rs + [EntryOf(g', p)]);
  }

  lemma PortEntries(sc: Scan, s: State, route: Route, p: PortRef, rs: seq<PortEntry>)
    requires Records(sc, s) && EntriesOk(sc, s, rs) && PortInfoReq(route, p.node, p.num) in s.pend
    ensures var s' := Deliver(sc, s, PortInfoReq(route, p.node, p.num));
      p in s'.g.ports && EntriesOk(sc, s', rs + [EntryOf(s'.g, p)])
  {
    var req := PortInfoReq(route, p.node, p.num);
    PortReplyStep(sc, s, route, p);
    var pi := PortInfoAt(sc.w, Entry(sc, s.g, p), p.num);
    var (g', reqs) := RecvPortInfo(s.g, sc.cfg, route, p, pi);
    StoredEntered(sc, s, route, p, rs);
    PoolMembers(s.pend, req, reqs);
    var s' := Deliver(sc, s, req);
    var rs' := rs + [EntryOf(g', p)];
    forall q | ToEnter(sc, g', q)
      ensures IsEntered(g', rs', q) || Awaited(s'.pend, q)
    {
      PortToEnter(sc, s, route, p, reqs, s', rs, q);
    }
  }

  lemma PortToEnter(sc: Scan, s: State, route: Route, p: PortRef, reqs: seq<Req>, s': State, rs: seq<PortEntry>, q: PortRef)
    requires EntriesOk(sc, s, rs) && Grows(s.g, s'.g) && |s'.g.nodes| == |s.g.nodes| && s'.g.ports.Keys == s.g.ports.Keys + {p}
    requires p.node < |s.g.nodes| && ToEnter(sc, s'.g, q)
    requires forall q' :: IsEntered(s.g, rs, q') ==> IsEntered(s'.g, rs + [EntryOf(s'.g, p)], q')
    requires p.num == 0 ==> forall r :: r in PortQueries(route, p.node, s.g.nodes[p.node].info.numports) ==> r in reqs
    requires forall r :: r in s.pend && r != PortInfoReq(route, p.node, p.num) ==> r in s'.pend
    requires forall r :: r in reqs ==> r in s'.pend
    ensures IsEntered(s'.g, rs + [EntryOf(s'.g, p)], q) || Awaited(s'.pend, q)
  {
    if q != p && !IsEntered(s.g, rs, q) {
      assert ToEnter(sc, s.g, q);
      PortAwaited(s, route, p, reqs, s', q);
    }
  }

  // After the answer about port p, any other port that was awaited still is.
  lemma PortAwaited(s: State, route: Route, p: PortRef, reqs: seq<Req>, s': State, q: PortRef)
    requires Awaited(s.pend, q) && q != p && p.node < |s.g.nodes|
    requires q.node == p.node ==> q.num <= s.g.nodes[p.node].info.numports
    requires p.num == 0 ==> forall r :: r in PortQueries(route, p.node, s.g.nodes[p.node].info.numports) ==> r in reqs
    requires forall r :: r in s.pend && r != PortInfoReq(route, p.node, p.num) ==> r in s'.pend
    requires forall r :: r in reqs ==> r in s'.pend
    ensures Awaited(s'.pend, q)
  {
    var req := PortInfoReq(route, p.node, p.num);
    if AsksFor(req, q) {
      var r := PortQueries(route, p.node, s.g.nodes[p.node].info.numports)[q.num - 1];
      assert r in reqs && AsksFor(r, q);
    } else {
      AwaitedKept(s.pend, s'.pend, req, q);
    }
  }

  // ---------------------------------------------------------------------------
  // Any reply

  // What the answer of the fabric to a request enters
  ghost function Entries(sc: Scan, s: State, req: Req): seq<PortEntry>
    requires ScanOk(sc) && StateOk(s) && req in s.pend
  {
    EntriesOf(Deliver(sc, s, req).g, req, Answer(sc.w, req))
  }

  lemma DeliverEntries(sc: Scan, s: State, req: Req, rs: seq<PortEntry>)
    requires Records(sc, s) && EntriesOk(sc, s, rs) && req in s.pend
    ensures EntriesOk(sc, Deliver(sc, s, req), rs + Entries(sc, s, req))
  {
    match req
    case NodeInfoReq(route, parent) => NodeInfoEntries(sc, s, route, parent, rs);
    case PortInfoReq(route, i, num) => PortInfoEntries(sc, s, route, PortRef(i, num), rs);
    case ExtPortInfoReq(route, i, num) => ExtEntries(sc, s, route, PortRef(i, num), rs);
    case _ => DataEntries(sc, s, req, rs);
  }

  // Only the answer to a PortInfo query enters something.
  lemma NothingEntered(sc: Scan, s: State, req: Req, rs: seq<PortEntry>)
    requires ScanOk(sc) && StateOk(s) && req in s.pend && !req.PortInfoReq?
    ensures rs + Entries(sc, s, req) == rs
  {
  }

  lemma DataEntries(sc: Scan, s: State, req: Req, rs: seq<PortEntry>)
    requires Records(sc, s) && EntriesOk(sc, s, rs) && req in s.pend && (req.NodeDescReq? || req.SwitchInfoReq?)
    ensures EntriesOk(sc, Deliver(sc, s, req), rs + Entries(sc, s, req))
  {
    DataReplyStep(sc, s, req);
    OtherEntries(sc, s, req, Deliver(sc, s, req), rs);
    NothingEntered(sc, s, req, rs);
  }

  lemma PortInfoEntries(sc: Scan, s: State, route: Route, p: PortRef, rs: seq<PortEntry>)
    requires Records(sc, s) && EntriesOk(sc, s, rs) && PortInfoReq(route, p.node, p.num) in s.pend
    ensures var req := PortInfoReq(route, p.node, p.num); EntriesOk(sc, Deliver(sc, s, req), rs + Entries(sc, s, req))
  {
    PortEntries(sc, s, route, p, rs);
    PortAnswered(sc, s, PortInfoReq(route, p.node, p.num));
  }

  lemma PortAnswered(sc: Scan, s: State, req: Req)
    requires Sound(sc, s) && req in s.pend && req.PortInfoReq?
    ensures Answer(sc.w, req).PortInfoReply? && Answer(sc.w, req).num == req.num
  {
    assert ReqTrue(sc, s.g, req);
  }

  lemma NodeInfoEntries(sc: Scan, s: State, route: Route, parent: Option<PortRef>, rs: seq<PortEntry>)
    requires Records(sc, s) && EntriesOk(sc, s, rs) && NodeInfoReq(route, parent) in s.pend
    ensures var req := NodeInfoReq(route, parent); EntriesOk(sc, Deliver(sc, s, req), rs + Entries(sc, s, req))
  {
    var req := NodeInfoReq(route, parent);
    NothingEntered(sc, s, req, rs);
    assert ReqTrue(sc, s.g, req);
    if parent.None? {
      FirstEntries(sc, s, rs);
    } else if Walk(sc.w, route).Some? {
      PeerEntries(sc, s, route, parent.value, rs);
    } else {
      OtherEntries(sc, s, req, Deliver(sc, s, req), rs);
    }
  }

  lemma ExtEntries(sc: Scan, s: State, route: Route, p: PortRef, rs: seq<PortEntry>)
    requires Records(sc, s) && EntriesOk(sc, s, rs) && ExtPortInfoReq(route, p.node, p.num) in s.pend
    ensures var req := ExtPortInfoReq(route, p.node, p.num); EntriesOk(sc, Deliver(sc, s, req), rs + Entries(sc, s, req))
  {
    var req := ExtPortInfoReq(route, p.node, p.num);
    NothingEntered(sc, s, req, rs);
    ExtReplyStep(sc, s, route, p);
    GoOnOk(s.g, sc.cfg, route, p);
    OtherEntries(sc, s, req, Deliver(sc, s, req), rs);
  }

  // ---------------------------------------------------------------------------
  // What the indexes say

  // The port table is in order in every state.
  lemma TableInOrder(sc: Scan, s: State, rs: seq<PortEntry>, t: seq<seq<PortRef>>)
    requires EntriesOk(sc, s, rs) && TableOf(t, rs)
    ensures PortsFiled(t, s.g.ports)
  {
    forall r | r in rs
      ensures r.port in s.g.ports && s.g.ports[r.port].guid == r.guid
    {
      assert EntryTrue(sc, s.g, r);
    }
    FiledOf(t, rs, s.g.ports);
  }

  // ibnd_find_port_guid finds something.
  ghost predicate GuidIsFound(t: seq<seq<PortRef>>, ports: map<PortRef, Port>, guid: nat) {
    PortsFiled(t, ports) && FindPortIn(ports, t[Bucket(guid)], guid).Some?
  }

  // A LID belongs to a port of the graph.
  predicate HasLid(g: Graph, p: PortRef, lid: nat) {
    p in g.ports && Covers(EntryOf(g, p), lid)
  }

  // The port table finds a GUID exactly when a port has it, and the LID map leads from
  // exactly the LIDs of the ports to a port that has that LID.
  ghost predicate Complete(g: Graph, t: seq<seq<PortRef>>, lids: map<nat, PortRef>) {
    && PortsFiled(t, g.ports)
    && (forall guid :: GuidIsFound(t, g.ports, guid) <==> exists p :: p in g.ports && g.ports[p].guid == guid)
    && (forall lid :: if lid in lids then HasLid(g, lids[lid], lid) else forall p :: !HasLid(g, p, lid))
  }

  // When nothing is outstanding, every port of the graph is entered.
  lemma AllEntered(sc: Scan, s: State, rs: seq<PortEntry>)
    requires Records(sc, s) && EntriesOk(sc, s, rs) && s.pend == multiset{}
    ensures forall p :: ToEnter(sc, s.g, p) ==> IsEntered(s.g, rs, p)
    ensures forall p :: p in s.g.ports ==> IsEntered(s.g, rs, p)
  {
    forall p | ToEnter(sc, s.g, p)
      ensures IsEntered(s.g, rs, p)
    {
      assert !Awaited(s.pend, p);
    }
    forall p | p in s.g.ports
      ensures IsEntered(s.g, rs, p)
    {
      assert ToEnter(sc, s.g, p);
    }
  }

  // At the end of a scan all ports of all switches are known, and the indexes are complete.
  lemma IndexesAtRest(sc: Scan, s: State, rs: seq<PortEntry>, t: seq<seq<PortRef>>)
    requires Records(sc, s) && EntriesOk(sc, s, rs) && TableOf(t, rs) && s.pend == multiset{}
    ensures Complete(s.g, t, RegisterAll(rs))
    ensures forall i, n: nat :: 0 <= i < |s.g.nodes| && s.g.nodes[i].info.kind == Switch && n <= s.g.nodes[i].info.numports ==>
      PortRef(i, n) in s.g.ports
  {
    TableInOrder(sc, s, rs, t);
    AllEntered(sc, s, rs);
    forall guid
      ensures GuidIsFound(t, s.g.ports, guid) <==> exists p :: p in s.g.ports && s.g.ports[p].guid == guid
    {
      GuidFound(sc, s, rs, t, guid);
    }
    forall i, n: nat | 0 <= i < |s.g.nodes| && s.g.nodes[i].info.kind == Switch && n <= s.g.nodes[i].info.numports
      ensures PortRef(i, n) in s.g.ports
    {
      assert NodeTrue(sc, s.g.nodes[i]);
      assert ToEnter(sc, s.g, PortRef(i, n));
    }
    forall lid
      ensures if lid in RegisterAll(rs) then HasLid(s.g, RegisterAll(rs)[lid], lid) else forall p :: !HasLid(s.g, p, lid)
    {
      LidFound(sc, s, rs, lid);
    }
  }

  lemma GuidFound(sc: Scan, s: State, rs: seq<PortEntry>, t: seq<seq<PortRef>>, guid: nat)
    requires PortsFiled(t, s.g.ports) && TableOf(t, rs) && forall p :: p in s.g.ports ==> IsEntered(s.g, rs, p)
    ensures GuidIsFound(t, s.g.ports, guid) <==> exists p :: p in s.g.ports && s.g.ports[p].guid == guid
  {
    PortLookup(t, s.g.ports, guid);
    forall p | p in s.g.ports && s.g.ports[p].guid == guid
      ensures p in t[Bucket(guid)]
    {
      assert EntryOf(s.g, p) in rs;
      ChainHolds(rs, Bucket(guid), p);
    }
  }

  lemma LidFound(sc: Scan, s: State, rs: seq<PortEntry>, lid: nat)
    requires (forall r :: r in rs ==> EntryTrue(sc, s.g, r)) && forall p :: p in s.g.ports ==> IsEntered(s.g, rs, p)
    ensures if lid in RegisterAll(rs) then HasLid(s.g, RegisterAll(rs)[lid], lid) else forall p :: !HasLid(s.g, p, lid)
  {
    LidMapsToFirst(rs, lid);
    FirstCoverCovers(rs, lid);
    if lid in RegisterAll(rs) {
      var r :| r in rs && r.port == RegisterAll(rs)[lid] && Covers(r, lid);
      assert EntryTrue(sc, s.g, r);
    } else {
      forall p | p in s.g.ports
        ensures !Covers(EntryOf(s.g, p), lid)
      {
        assert EntryOf(s.g, p) in rs;
      }
    }
  }

  // ---------------------------------------------------------------------------
  // Whole scans

  // A state of a scan together with what was entered so far
  datatype Snapshot = Snapshot(s: State, entries: seq<PortEntry>)

  ghost predicate IsEntering(sc: Scan, run: seq<Snapshot>) {
    && ScanOk(sc) && run != [] && run[0] == Snapshot(Initial(sc), [])
    && forall k :: 0 < k < |run| ==> IsEnteringStep(sc, run[k - 1], run[k])
  }

  ghost predicate IsEnteringStep(sc: Scan, a: Snapshot, b: Snapshot) {
    ScanOk(sc) && StateOk(a.s)
    && exists req :: req in a.s.pend && b == Snapshot(Deliver(sc, a.s, req), a.entries + Entries(sc, a.s, req))
  }

  lemma InitialEntries(sc: Scan)
    requires ScanOk(sc)
    ensures SwitchGuidsOk(sc.w) ==> Records(sc, Initial(sc)) && EntriesOk(sc, Initial(sc), [])
  {
    if SwitchGuidsOk(sc.w) { InitialRecords(sc); }
  }

  // In every state of every scan of a fabric whose switches have one GUID for all their
  // ports, records and indexes are true.
  lemma {:induction false} RunEntries(sc: Scan, run: seq<Snapshot>)
    requires IsEntering(sc, run) && SwitchGuidsOk(sc.w)
    ensures var last := run[|run| - 1]; Records(sc, last.s) && EntriesOk(sc, last.s, last.entries)
    decreases |run|
  {
    if |run| == 1 {
      InitialEntries(sc);
    } else {
      var before := run[..|run| - 1];
      forall k | 0 < k < |before|
        ensures IsEnteringStep(sc, before[k - 1], before[k])
      {
        assert IsEnteringStep(sc, run[k - 1], run[k]);
      }
      RunEntries(sc, before);
      var a, b := run[|run| - 2], run[|run| - 1];
      assert IsEnteringStep(sc, a, b);
      var req :| req in a.s.pend && b == Snapshot(Deliver(sc, a.s, req), a.entries + Entries(sc, a.s, req));
      DeliverRecords(sc, a.s, req);
      DeliverEntries(sc, a.s, req, a.entries);
    }
  }
}
