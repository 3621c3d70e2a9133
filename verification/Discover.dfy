// ibnd_discover_fabric against a static fabric: the scan as the source runs it, from
// the first query to the last reply.
module Discover {
  import opened Wrappers
  import opened Fabric
  import opened Wiring
  import opened Discovery
  import opened TrueLinks
  import opened Completeness
  import opened Termination
  import opened Scanner
  import SmpEngine
  import opened PortRecords
  import opened PortIndexes

  // LMC fields are three bits wide.
  ghost predicate NetLmcOk(w: Net) {
    forall g, k :: g in w.hw && 0 <= k < |w.hw[g].ports| ==> w.hw[g].ports[k].lmc <= 7
  }

  lemma {:induction false} LoadAtLeast(sc: Scan, pend: multiset<Req>)
    requires ScanOk(sc)
    ensures |pend| <= Load(sc, pend)
    decreases |pend|
  {
    if |pend| > 0 {
      var r :| r in pend && Load(sc, pend) == Cost(sc, r) + Load(sc, pend - multiset{r});
      assert |pend - multiset{r}| == |pend| - 1;
      LoadAtLeast(sc, pend - multiset{r});
      assert Cost(sc, r) >= 1;
      assert |pend| <= Load(sc, pend);
    } else {
      assert |pend| <= Load(sc, pend);
    }
  }

  // What ties the engine to the scan: its pending SMPs are those of the last state of a
  // run, one reply per step.
  ghost predicate Tied(sc: Scan, run: seq<State>, g: Graph, e: SmpEngine.Engine<Req>, maxSmps: nat) {
    && IsRun(sc, run) && Last(run) == State(g, SmpEngine.Pending(e)) && |run| - 1 == |e.done|
    && SmpEngine.Inv(e) && SmpEngine.Saturated(e, maxSmps) && SmpEngine.FewTrids(e) && e.freed == []
  }

  // No run issues so many SMPs that transaction ids could be used twice.
  lemma IssuedBound(sc: Scan, run: seq<State>, g: Graph, e: SmpEngine.Engine<Req>, maxSmps: nat, req: Req, reqs: seq<Req>)
    requires Tied(sc, run, g, e, maxSmps) && req in SmpEngine.Pending(e) && StateOk(Last(run))
    requires reqs == Handle(g, sc.cfg, req, Answer(sc.w, req)).1
    ensures |e.issued| + |reqs| <= Measure(sc, Initial(sc))
  {
    var s := Last(run);
    var s' := Deliver(sc, s, req);
    var run' := run + [s'];
    NextIsRun(sc, run, req);
    ScanEnds(sc, run');
    LoadAtLeast(sc, s'.pend);
    SmpEngine.Conservation(e);
    var none: seq<Req> := [];
    assert multiset(none) == multiset{} && e.freed == none;
    assert |multiset(e.issued)| == |SmpEngine.Pending(e)| + |multiset(e.done)|;
    assert |s'.pend| == |s.pend| - 1 + |reqs|;
  }

  // One reply to an SMP on the wire, on both sides.
  lemma TiedNext(sc: Scan, run: seq<State>, g: Graph, e: SmpEngine.Engine<Req>, maxSmps: nat, ok: nat -> bool, t: nat, req: Req)
    requires Tied(sc, run, g, e, maxSmps) && StateOk(Last(run)) && t in e.wire && (forall n :: ok(n))
    requires req == e.wire[t] && req in Last(run).pend
    requires 2 * Measure(sc, Initial(sc)) < SmpEngine.TID_SPACE
    ensures SmpEngine.Receive(e, t, maxSmps, ok).1
    ensures var (g', reqs, rc) := Handle(g, sc.cfg, req, Answer(sc.w, req));
      Tied(sc, run + [Deliver(sc, Last(run), req)], g', SmpEngine.Turn(e, t, reqs, maxSmps, ok), maxSmps)
  {
    var reqs := Handle(g, sc.cfg, req, Answer(sc.w, req)).1;
    IssuedBound(sc, run, g, e, maxSmps, req, reqs);
    SmpEngine.TurnInv(e, t, reqs, maxSmps, ok);
    NextIsRun(sc, run, req);
  }

  // The reply of a static fabric is one that the callbacks can take.
  lemma AnswerFits(sc: Scan, s: State, req: Req)
    requires Sound(sc, s) && req in s.pend && NetLmcOk(sc.w)
    ensures ReqOk(s.g, req)
    ensures var reply := Answer(sc.w, req);
      ReplyOk(s.g, req, reply) && !NoSuchPort(s.g, req, reply) && (reply.PortInfoReply? ==> reply.pi.lmc <= 7)
  {
    assert ReqTrue(sc, s.g, req);
    WalkIsPlace(sc.w, req.route);
    if s.g.nodes != [] && req.NodeInfoReq? && Walk(sc.w, req.route).Some? {
      ReplyFits(sc, s.g, Walk(sc.w, req.route).value);
    }
  }

  // The scan and its engine in step with a run of the static fabric.
  ghost predicate Scanning(s: FabricScan, sc: Scan, run: seq<State>)
    reads s, s.engine, s.engine.queue, s.engine.queue.Repr
  {
    && s.Valid() && s.LmcOk() && s.engine.Valid() && s.cfg == sc.cfg
    && ScanOk(sc) && NetLmcOk(sc.w)
    && 2 * Measure(sc, Initial(sc)) < SmpEngine.TID_SPACE
    && Tied(sc, run, s.G(), s.engine.State(), s.engine.maxSmps)
    && (SwitchGuidsOk(sc.w) ==> Records(sc, Last(run)) && EntriesOk(sc, Last(run), s.entries))
  }

  // One turn of process_mads: the SMP with id t is answered as the fabric answers it.
  method AnswerOne(s: FabricScan, sc: Scan, ghost run: seq<State>, t: nat) returns (ghost run': seq<State>)
    requires Scanning(s, sc, run) && t in s.engine.onWire && forall n :: s.engine.sendOk(n)
    modifies s, s.engine, s.engine.queue, s.engine.queue.Repr
    ensures forall c :: c in s.engine.queue.Repr ==> c in old(s.engine.queue.Repr) || fresh(c)
    ensures Scanning(s, sc, run')
    ensures run != [] && run' != [] && Measure(sc, Last(run')) < Measure(sc, Last(run))
  {
    var req := s.engine.onWire[t].req;
    SmpEngine.OnWirePending(s.engine.State(), t);
    ScanEnds(sc, run);
    AnswerFits(sc, Last(run), req);
    DeliverDecreases(sc, Last(run), req);
    TiedNext(sc, run, s.G(), s.engine.State(), s.engine.maxSmps, s.engine.sendOk, t, req);
    if SwitchGuidsOk(sc.w) {
      DeliverRecords(sc, Last(run), req);
      DeliverEntries(sc, Last(run), req, s.entries);
    }
    run' := run + [Deliver(sc, Last(run), req)];
    var rc := s.ProcessOneRecv(t, Answer(sc.w, req));
    assert rc;
  }

  lemma FirstTied(sc: Scan, seed: nat, maxSmps: nat, ok: nat -> bool)
    requires ScanOk(sc) && 0 < maxSmps && (forall n :: ok(n))
    ensures Tied(sc, [Initial(sc)], EMPTY, SmpEngine.IssueSmp(SmpEngine.Init(seed), NodeInfoReq(sc.init, None), maxSmps, ok).0, maxSmps)
  {
    SmpEngine.FirstIssue(seed, NodeInfoReq(sc.init, None), maxSmps, ok);
  }

  // query_node_info for the start node.
  method Begin(s: FabricScan, sc: Scan) returns (ghost run: seq<State>)
    requires ScanOk(sc) && NetLmcOk(sc.w) && s.cfg == sc.cfg
    requires s.Valid() && s.LmcOk() && s.G() == EMPTY && s.entries == []
    requires s.engine.Valid() && s.engine.State() == SmpEngine.Init(s.engine.tridCounter)
    requires 0 < s.engine.maxSmps && forall n :: s.engine.sendOk(n)
    requires 2 * Measure(sc, Initial(sc)) < SmpEngine.TID_SPACE
    modifies s.engine, s.engine.queue, s.engine.queue.Repr
    ensures forall c :: c in s.engine.queue.Repr ==> c in old(s.engine.queue.Repr) || fresh(c)
    ensures Scanning(s, sc, run)
  {
    run := [Initial(sc)];
    InitialEntries(sc);
    FirstTied(sc, s.engine.tridCounter, s.engine.maxSmps, s.engine.sendOk);
    var _ := s.engine.IssueSmp(NodeInfoReq(sc.init, None));
    assert s.G() == EMPTY && s.Valid();
  }

  // The wire is empty at the end of the loop.
  lemma AtRest(s: FabricScan, sc: Scan, run: seq<State>)
    requires Scanning(s, sc, run) && s.engine.onWire == map[] && 0 < s.engine.maxSmps
    ensures IsRun(sc, run) && Last(run) == State(s.G(), multiset{})
    ensures s.engine.State().queue == [] && s.engine.State().wire == map[]
    ensures s.engine.totalSmps == |run| - 1 <= Measure(sc, Initial(sc))
  {
    ScanEnds(sc, run);
    EngineEmpty(s.engine.State(), s.engine.maxSmps);
  }

  // process_mads.  The environment picks the next SMP to answer, among those on the
  // wire.  The loop ends, the run was one of the runs of module Completeness, and nothing
  // is left in the engine.
  method ProcessMads(s: FabricScan, sc: Scan, ghost first: seq<State>) returns (ghost run: seq<State>)
    requires Scanning(s, sc, first) && 0 < s.engine.maxSmps && forall n :: s.engine.sendOk(n)
    modifies s, s.engine, s.engine.queue, s.engine.queue.Repr
    ensures s.Valid()
    ensures IsRun(sc, run) && Last(run) == State(s.G(), multiset{})
    ensures s.engine.State().queue == [] && s.engine.State().wire == map[]
    ensures s.engine.totalSmps == |run| - 1 <= Measure(sc, Initial(sc))
    ensures SwitchGuidsOk(sc.w) ==> Complete(s.G(), s.portstbl, s.lids)
    ensures SwitchGuidsOk(sc.w) ==> Records(sc, Last(run)) && EntriesOk(sc, Last(run), s.entries)
  {
    run := first;
    while s.engine.onWire != map[]
      invariant forall c :: c in s.engine.queue.Repr ==> c in old(s.engine.queue.Repr) || fresh(c)
      invariant Scanning(s, sc, run)
      decreases Measure(sc, Last(run))
    {
      var t :| t in s.engine.onWire;
      run := AnswerOne(s, sc, run, t);
    }
    AtRest(s, sc, run);
    if SwitchGuidsOk(sc.w) {
      IndexesAtRest(sc, Last(run), s.entries, s.portstbl);
    }
  }

  // A whole scan: it ends, and what it found is what the theorems of modules
  // Completeness and Paths say of the last state of its run.  The number of hops that it
  // reports counts those of the start path too.
  method DiscoverFabric(s: FabricScan, sc: Scan) returns (ghost run: seq<State>, hops: nat)
    requires ScanOk(sc) && NetLmcOk(sc.w) && s.cfg == sc.cfg
    requires s.Valid() && s.LmcOk() && s.G() == EMPTY && s.entries == []
    requires s.engine.Valid() && s.engine.State() == SmpEngine.Init(s.engine.tridCounter)
    requires 0 < s.engine.maxSmps && forall n :: s.engine.sendOk(n)
    requires 2 * Measure(sc, Initial(sc)) < SmpEngine.TID_SPACE
    modifies s, s.engine, s.engine.queue, s.engine.queue.Repr
    ensures s.Valid() && hops == s.maxhops + |sc.init|
    ensures IsRun(sc, run) && Last(run) == State(s.G(), multiset{})
    ensures s.engine.State().queue == [] && s.engine.State().wire == map[]
    ensures s.engine.totalSmps == |run| - 1 <= Measure(sc, Initial(sc))
    ensures GoodStart(sc) && NotCut(sc, s.G()) && RoutesShort(s.G()) ==>
      && (forall guid :: Found(s.G(), guid) <==> Reachable(sc.w, Start(sc), guid))
      && (forall p: PortRef :: p.node < |s.G().nodes| && Leads(sc.w, Start(sc), At(s.G(), p)) ==> LinkedToPeer(sc, s.G(), p))
    ensures SwitchGuidsOk(sc.w) ==> Complete(s.G(), s.portstbl, s.lids)
    ensures SwitchGuidsOk(sc.w) ==> Records(sc, Last(run)) && EntriesOk(sc, Last(run), s.entries)
  {
    run := Begin(s, sc);
    run := ProcessMads(s, sc, run);
    hops := s.maxhops + s.cfg.initialHops;
    if GoodStart(sc) && NotCut(sc, s.G()) && RoutesShort(s.G()) {
      ScanIsComplete(sc, run);
    }
  }

  lemma EngineEmpty(e: SmpEngine.Engine<Req>, maxSmps: nat)
    requires SmpEngine.Saturated(e, maxSmps) && 0 < maxSmps && |e.wire| == 0
    requires SmpEngine.Conserved(e)
    ensures e.queue == [] && e.wire == map[] && SmpEngine.Pending(e) == multiset{} && e.total == |e.done|
  {
    assert e.wire.Keys == {};
  }
}
