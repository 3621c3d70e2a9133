// The search for a multicast path in a fabric that does not change while it runs: it finds
// the target exactly when the fabric forwards the group to it.
module McReach {
  import opened Wrappers
  import opened McNodes
  import opened McLog
  import opened McTree

  // A node, by its GUID, and the number of one of its ports
  datatype Spot = Spot(guid: nat, port: nat)

  // home is the port that the queries leave from; group holds the ports that a switch
  // forwards the group to, None for a switch that does not say.
  datatype McFabric = McFabric(home: Spot, isSwitch: nat -> bool, numports: nat -> nat, portGuid: Spot -> nat, peer: Spot -> Option<Spot>,
                               up: Spot -> bool, group: nat -> Option<set<nat>>)

  // A cable has two ends, and the ports of a switch share one GUID.
  ghost predicate WellMade(f: McFabric) {
    && (forall s: Spot {:trigger f.peer(s)} :: f.peer(s).Some? ==> f.peer(f.peer(s).value) == Some(s))
    && (forall s: Spot, t: Spot {:trigger f.portGuid(s), f.portGuid(t)} :: s.guid == t.guid && f.isSwitch(s.guid) ==> f.portGuid(s) == f.portGuid(t))
  }

  // Where a route ends: a query is passed on by switches, and leaves home out of the port
  // that it was issued at, unless home is a switch.
  ghost function At(f: McFabric, route: seq<nat>): Option<Spot> {
    if route == [] then Some(f.home)
    else
      var prev := At(f, route[..|route| - 1]);
      if prev.Some? then Step(f, prev.value, route[|route| - 1], |route| == 1) else None
  }

  ghost function Step(f: McFabric, s: Spot, i: nat, first: bool): Option<Spot> {
    if f.isSwitch(s.guid) || (first && i == s.port) then f.peer(Spot(s.guid, i)) else None
  }

  ghost function Info(f: McFabric, s: Option<Spot>): Option<NodeReply> {
    if s.None? then None
    else Some(NodeReply(s.value.guid, f.isSwitch(s.value.guid), f.numports(s.value.guid), f.portGuid(s.value), s.value.port))
  }

  // Every query has got the reply of the fabric.
  ghost predicate Static(f: McFabric, g: Setting, log: seq<Query>) {
    forall q :: 0 <= q < |log| ==> Answered(f, g, log[q], q)
  }

  ghost predicate Answered(f: McFabric, g: Setting, query: Query, q: nat) {
    var s := At(f, query.route);
    match query
    case AskNode(_) => g.nodeReply(q) == Info(f, s)
    case AskLink(_, i) => s.Some? ==> g.linkReply(q) == Some(f.up(Spot(s.value.guid, i)))
    case AskMap(_) => s.Some? ==> g.mapReply(q) == f.group(s.value.guid)
  }

  // The group leaves a switch by the ports that it is forwarded to and that are up, and the
  // CA or router of the start by the port of the start.  That port has just been used, if
  // hops led to the start.
  ghost predicate GoesOut(f: McFabric, start: Spot, over: bool, guid: nat, i: nat) {
    && 1 <= i <= f.numports(guid)
    && if f.isSwitch(guid) then f.group(guid).Some? && i in f.group(guid).value && f.up(Spot(guid, i))
       else guid == start.guid && i == start.port && (over || f.up(Spot(guid, i)))
  }

  // Where the group gets to, out of one port after the other
  ghost function Follow(f: McFabric, start: Spot, over: bool, ports: seq<nat>): Option<Spot> {
    if ports == [] then Some(start)
    else
      var i := ports[|ports| - 1];
      var prev := Follow(f, start, over, ports[..|ports| - 1]);
      if prev.Some? && GoesOut(f, start, over, prev.value.guid, i) then f.peer(Spot(prev.value.guid, i)) else None
  }

  ghost predicate ForwardsTo(f: McFabric, start: Spot, over: bool, target: nat) {
    exists ports :: Follow(f, start, over, ports).Some? && f.portGuid(Follow(f, start, over, ports).value) == target
  }

  // ---------------------------------------------------------------------------
  // A search in such a fabric

  // The tree of a search, at any time after its first reply
  ghost predicate Grows(f: McFabric, g: Setting, log: seq<Query>, nodes: set<McNode>, root: McNode, start: Spot) {
    && WellMade(f) && Static(f, g, log) && Book(g, log, nodes) && log != []
    && (forall n, m {:trigger n.guid, m.guid} :: n in nodes && m in nodes && n.guid == m.guid ==> n == m)
    && (forall n :: n in nodes ==> Rooted(n) && (n.upnode != null ==> n.upnode in nodes))
    && root in nodes && root.level == 0
    && At(f, g.from) == Some(start) && g.rootPort == start.port && (g.leaf <==> !f.isSwitch(start.guid) && g.from != [])
    && (g.from != [] ==> g.hop == g.from[|g.from| - 1])
  }

  // A node is where the route to it ends.
  lemma Located(f: McFabric, g: Setting, log: seq<Query>, nodes: set<McNode>, root: McNode, start: Spot, n: McNode)
    requires Grows(f, g, log, nodes, root, start) && n in nodes
    ensures At(f, RouteOf(n, g.leaf, g.from)) == Some(Spot(n.guid, n.entry))
    ensures n.isSwitch == f.isSwitch(n.guid) && n.numports == f.numports(n.guid)
    ensures n.level == 0 ==> start == Spot(n.guid, n.entry)
  {
    assert BookOf(g, log, nodes);
    var q :| 0 <= q < |log| && BornBy(g, log, q, n);
    assert Answered(f, g, log[q], q);
  }

  // The root is the only node of the start, and of its level.
  lemma RootOnly(f: McFabric, g: Setting, log: seq<Query>, nodes: set<McNode>, root: McNode, start: Spot, n: McNode)
    requires Grows(f, g, log, nodes, root, start) && n in nodes
    ensures n == root <==> n.guid == start.guid
    ensures n == root <==> n.level == 0
  {
    Located(f, g, log, nodes, root, start, root);
    Located(f, g, log, nodes, root, start, n);
  }

  ghost predicate SamePlace(f: McFabric, s: Option<Spot>, t: Option<Spot>) {
    (s.Some? <==> t.Some?) && (s.Some? ==> s.value.guid == t.value.guid && f.portGuid(s.value) == f.portGuid(t.value))
  }

  // The hop over which a start on a leaf was reached is the cable of its port.
  lemma LastHop(f: McFabric, g: Setting, log: seq<Query>, nodes: set<McNode>, root: McNode, start: Spot)
    requires Grows(f, g, log, nodes, root, start) && g.leaf
    ensures var prev := At(f, g.from[..|g.from| - 1]);
      && prev.Some? && f.peer(Spot(prev.value.guid, g.hop)) == Some(start) && f.peer(start) == Some(Spot(prev.value.guid, g.hop))
      && f.portGuid(prev.value) == f.portGuid(Spot(prev.value.guid, g.hop))
  {
  }

  // What lies beyond a port that the search may follow, by the route of the query, is what
  // the cable of the port leads to.
  lemma BeyondIsPeer(f: McFabric, g: Setting, log: seq<Query>, nodes: set<McNode>, root: McNode, start: Spot, n: McNode, i: nat)
    requires Grows(f, g, log, nodes, root, start) && n in nodes
    requires n.isSwitch || (n == root && i == start.port)
    ensures SamePlace(f, At(f, BeyondOf(g, n, i)), f.peer(Spot(n.guid, i)))
    ensures !LeftOverHop(g, n) ==> At(f, BeyondOf(g, n, i)) == f.peer(Spot(n.guid, i))
  {
    Located(f, g, log, nodes, root, start, n);
    if LeftOverHop(g, n) {
      LastHop(f, g, log, nodes, root, start);
    } else {
      var route := RouteOf(n, g.leaf, g.from);
      assert (route + [i])[..|route|] == route;
    }
  }

  lemma PortsAre(f: McFabric, g: Setting, log: seq<Query>, nodes: set<McNode>, root: McNode, start: Spot, n: McNode, i: nat)
    requires Grows(f, g, log, nodes, root, start) && n in nodes && MayFollow(g, log, n, i)
    ensures 1 <= i <= f.numports(n.guid)
    ensures if n.isSwitch then f.group(n.guid).Some? && i in f.group(n.guid).value else n == root && i == start.port
  {
    Located(f, g, log, nodes, root, start, n);
    var ports :| PortsKnown(g, log, n, ports) && i in ports;
    if n.isSwitch {
      var q :| 0 <= q < |log| && log[q] == AskMap(RouteOf(n, g.leaf, g.from)) && g.mapReply(q) == Some(ports);
      assert Answered(f, g, log[q], q);
    } else {
      RootOnly(f, g, log, nodes, root, start, n);
    }
  }

  // ---------------------------------------------------------------------------
  // A target that is found is one that the group is forwarded to.

  // The search enters a port that the group leaves by.
  lemma EnteredGoesOut(f: McFabric, g: Setting, log: seq<Query>, nodes: set<McNode>, root: McNode, start: Spot, q: nat, n: McNode, i: nat)
    requires Grows(f, g, log, nodes, root, start) && n in nodes && q <= |log| && MayEnter(g, log, q, n, i)
    ensures GoesOut(f, start, g.from != [], n.guid, i)
  {
    Located(f, g, log, nodes, root, start, n);
    PortsAre(f, g, log, nodes, root, start, n, i);
    if LeftOverHop(g, n) {
      RootOnly(f, g, log, nodes, root, start, n);
    } else {
      assert Answered(f, g, log[q - 1], q - 1);
    }
  }

  lemma FollowOn(f: McFabric, start: Spot, over: bool, ports: seq<nat>, i: nat)
    requires Follow(f, start, over, ports).Some? && GoesOut(f, start, over, Follow(f, start, over, ports).value.guid, i)
    ensures Follow(f, start, over, ports + [i]) == f.peer(Spot(Follow(f, start, over, ports).value.guid, i))
  {
    assert (ports + [i])[..|ports|] == ports;
  }

  // The ports out of which the search came to a node
  ghost function PortsTo(n: McNode): seq<nat>
    requires Rooted(n)
    decreases n.level
  {
    if n.upnode == null then [] else PortsTo(n.upnode) + [n.outport]
  }

  ghost predicate Arrives(f: McFabric, s: Option<Spot>, guid: nat, portGuid: nat) {
    s.Some? && s.value.guid == guid && f.portGuid(s.value) == portGuid
  }

  lemma {:induction false} NodeIsFollowed(f: McFabric, g: Setting, log: seq<Query>, nodes: set<McNode>, root: McNode, start: Spot, n: McNode)
    requires Grows(f, g, log, nodes, root, start) && n in nodes
    ensures var s := Follow(f, start, g.from != [], PortsTo(n)); s.Some? && s.value.guid == n.guid
    decreases n.level
  {
    if n.upnode == null {
      RootOnly(f, g, log, nodes, root, start, n);
    } else {
      assert BookOf(g, log, nodes);
      var q :| 0 <= q < |log| && BornBy(g, log, q, n);
      NodeIsFollowed(f, g, log, nodes, root, start, n.upnode);
      BornIsFollowed(f, g, log, nodes, root, start, q, n);
    }
  }

  lemma BornIsFollowed(f: McFabric, g: Setting, log: seq<Query>, nodes: set<McNode>, root: McNode, start: Spot, q: nat, n: McNode)
    requires Grows(f, g, log, nodes, root, start) && q < |log| && BornBy(g, log, q, n) && n.upnode != null && n.upnode in nodes
    requires var s := Follow(f, start, g.from != [], PortsTo(n.upnode)); s.Some? && s.value.guid == n.upnode.guid
    ensures g.nodeReply(q).Some?
    ensures Arrives(f, Follow(f, start, g.from != [], PortsTo(n)), n.guid, g.nodeReply(q).value.portGuid)
  {
    var u, i := n.upnode, n.outport;
    EnteredGoesOut(f, g, log, nodes, root, start, q, u, i);
    PortsAre(f, g, log, nodes, root, start, u, i);
    BeyondIsPeer(f, g, log, nodes, root, start, u, i);
    FollowOn(f, start, g.from != [], PortsTo(u), i);
    RouteIsBeyond(g, n);
    assert Answered(f, g, log[q], q);
  }

  lemma RouteIsBeyond(g: Setting, n: McNode)
    requires Rooted(n) && n.upnode != null
    ensures RouteOf(n, g.leaf, g.from) == BeyondOf(g, n.upnode, n.outport)
  {
  }

  lemma FoundIsForwardedTo(f: McFabric, g: Setting, log: seq<Query>, nodes: set<McNode>, root: McNode, start: Spot, n: McNode)
    requires Grows(f, g, log, nodes, root, start) && FoundBy(g, log, n) && n.upnode != null && n.upnode in nodes
    ensures ForwardsTo(f, start, g.from != [], g.target)
  {
    var q :| 0 <= q < |log| && BornBy(g, log, q, n) && g.nodeReply(q).value.portGuid == g.target;
    NodeIsFollowed(f, g, log, nodes, root, start, n.upnode);
    BornIsFollowed(f, g, log, nodes, root, start, q, n);
  }

  // ---------------------------------------------------------------------------
  // A search that comes to its end has been wherever the group is forwarded to.

  // What answered a query over a route is known, and is not the target.
  ghost predicate Known(f: McFabric, g: Setting, nodes: set<McNode>, s: Option<Spot>) {
    s.Some? ==> f.portGuid(s.value) != g.target && HasGuid(nodes, s.value.guid)
  }

  lemma AskedIsKnown(f: McFabric, g: Setting, log: seq<Query>, nodes: set<McNode>, root: McNode, start: Spot, q: nat)
    requires Grows(f, g, log, nodes, root, start) && NoTarget(g, log, nodes) && q < |log| && log[q].AskNode?
    ensures Known(f, g, nodes, At(f, log[q].route))
  {
    assert NoTargetIn(g, log, nodes) && Answered(f, g, log[q], q);
  }

  lemma StartIsKnown(f: McFabric, g: Setting, log: seq<Query>, nodes: set<McNode>, root: McNode, start: Spot)
    requires Grows(f, g, log, nodes, root, start) && NoTarget(g, log, nodes)
    ensures Known(f, g, nodes, Some(start))
  {
    assert BookOf(g, log, nodes) && Grounded(g, log, 0, nodes);
    AskedIsKnown(f, g, log, nodes, root, start, 0);
  }

  // A node that was found is known by the port that it was found by.
  lemma NodeIsKnown(f: McFabric, g: Setting, log: seq<Query>, nodes: set<McNode>, root: McNode, start: Spot, n: McNode)
    requires Grows(f, g, log, nodes, root, start) && NoTarget(g, log, nodes) && n in nodes
    ensures Known(f, g, nodes, Some(Spot(n.guid, n.entry)))
  {
    Located(f, g, log, nodes, root, start, n);
    assert BookOf(g, log, nodes);
    var q :| 0 <= q < |log| && BornBy(g, log, q, n);
    AskedIsKnown(f, g, log, nodes, root, start, q);
  }

  // Beyond a port that has been followed and that the group leaves by
  lemma FollowedIsKnown(f: McFabric, g: Setting, log: seq<Query>, nodes: set<McNode>, root: McNode, start: Spot, n: McNode, i: nat)
    requires Grows(f, g, log, nodes, root, start) && NoTarget(g, log, nodes) && n in nodes && Followed(g, log, n, i)
    requires GoesOut(f, start, g.from != [], n.guid, i)
    ensures Known(f, g, nodes, f.peer(Spot(n.guid, i)))
  {
    Located(f, g, log, nodes, root, start, n);
    RootOnly(f, g, log, nodes, root, start, n);
    BeyondIsPeer(f, g, log, nodes, root, start, n, i);
    var q :| 0 <= q < |log| && FollowedAt(g, log, q, n, i);
    assert Answered(f, g, log[q], q);
    AskedIsKnown(f, g, log, nodes, root, start, if LeftOverHop(g, n) then q else q + 1);
  }

  // The port that is passed over leads back to a node that is known.
  lemma SkippedIsKnown(f: McFabric, g: Setting, log: seq<Query>, nodes: set<McNode>, root: McNode, start: Spot, n: McNode)
    requires Grows(f, g, log, nodes, root, start) && NoTarget(g, log, nodes) && n in nodes && n.level > 0
    ensures Known(f, g, nodes, f.peer(Spot(n.guid, Skip(g, n))))
  {
    Located(f, g, log, nodes, root, start, n);
    if g.leaf && n.level == 1 {
      LastHop(f, g, log, nodes, root, start);
      StartIsKnown(f, g, log, nodes, root, start);
    } else {
      BackIsKnown(f, g, log, nodes, root, start, n);
    }
  }

  lemma BackIsKnown(f: McFabric, g: Setting, log: seq<Query>, nodes: set<McNode>, root: McNode, start: Spot, n: McNode)
    requires Grows(f, g, log, nodes, root, start) && NoTarget(g, log, nodes) && n in nodes && n.level > 0 && !(g.leaf && n.level == 1)
    ensures Known(f, g, nodes, f.peer(Spot(n.guid, n.entry)))
  {
    var u, i := n.upnode, n.outport;
    Located(f, g, log, nodes, root, start, n);
    Located(f, g, log, nodes, root, start, u);
    assert BookOf(g, log, nodes);
    var q :| 0 <= q < |log| && BornBy(g, log, q, n);
    PortsAre(f, g, log, nodes, root, start, u, i);
    BeyondIsPeer(f, g, log, nodes, root, start, u, i);
    RouteIsBeyond(g, n);
    assert f.peer(Spot(n.guid, n.entry)) == Some(Spot(u.guid, i));
    NodeIsKnown(f, g, log, nodes, root, start, u);
    assert f.portGuid(Spot(u.guid, i)) == f.portGuid(Spot(u.guid, u.entry));
  }

  // Every port of a node that the group leaves by leads to a node that is known.
  lemma OutIsKnown(f: McFabric, g: Setting, log: seq<Query>, nodes: set<McNode>, root: McNode, start: Spot, n: McNode, i: nat)
    requires Grows(f, g, log, nodes, root, start) && NoTarget(g, log, nodes) && n in nodes && Done(g, log, n)
    requires GoesOut(f, start, g.from != [], n.guid, i)
    ensures Known(f, g, nodes, f.peer(Spot(n.guid, i)))
  {
    Located(f, g, log, nodes, root, start, n);
    RootOnly(f, g, log, nodes, root, start, n);
    if i == Skip(g, n) {
      SkippedIsKnown(f, g, log, nodes, root, start, n);
    } else {
      if n.isSwitch {
        var q :| 0 <= q < |log| && log[q] == AskMap(RouteOf(n, g.leaf, g.from)) &&
          (g.mapReply(q).Some? ==> AllFollowed(g, log, n, g.mapReply(q).value));
        assert Answered(f, g, log[q], q);
      }
      assert Followed(g, log, n, i);
      FollowedIsKnown(f, g, log, nodes, root, start, n, i);
    }
  }

  lemma {:induction false} FollowIsKnown(f: McFabric, g: Setting, log: seq<Query>, nodes: set<McNode>, root: McNode, start: Spot, ports: seq<nat>)
    requires Grows(f, g, log, nodes, root, start) && NoTarget(g, log, nodes) && forall n :: n in nodes ==> Done(g, log, n)
    ensures Known(f, g, nodes, Follow(f, start, g.from != [], ports))
    decreases |ports|
  {
    if ports == [] {
      StartIsKnown(f, g, log, nodes, root, start);
    } else {
      var i, front := ports[|ports| - 1], ports[..|ports| - 1];
      var prev := Follow(f, start, g.from != [], front);
      if prev.Some? && GoesOut(f, start, g.from != [], prev.value.guid, i) {
        FollowIsKnown(f, g, log, nodes, root, start, front);
        var n :| n in nodes && n.guid == prev.value.guid;
        OutIsKnown(f, g, log, nodes, root, start, n, i);
      }
    }
  }

  lemma NothingIsForwardedTo(f: McFabric, g: Setting, log: seq<Query>, nodes: set<McNode>, root: McNode, start: Spot)
    requires Grows(f, g, log, nodes, root, start) && NoTarget(g, log, nodes) && forall n :: n in nodes ==> Done(g, log, n)
    ensures !ForwardsTo(f, start, g.from != [], g.target)
  {
    if ForwardsTo(f, start, g.from != [], g.target) {
      var ports :| Follow(f, start, g.from != [], ports).Some? && f.portGuid(Follow(f, start, g.from != [], ports).value) == g.target;
      FollowIsKnown(f, g, log, nodes, root, start, ports);
    }
  }

  // A start path ends in a port, unless it is empty.
  predicate Proper(start: DrPath)
    requires PathOk(start) && 0 <= start.cnt < PATH_SIZE
  {
    start.cnt == 0 <==> start.p[start.cnt] == 0
  }

  lemma ScanGrows(f: McFabric, scan: McScan, start: DrPath)
    requires scan.Valid() && PathOk(start) && 0 <= start.cnt < PATH_SIZE && Proper(start) && scan.log != [] && scan.root != null
    requires scan.nodeReply(0).Some? && scan.StartedOn(start)
    requires WellMade(f) && Static(f, scan.Now(), scan.log) && Book(scan.Now(), scan.log, scan.Repr)
    ensures var at := At(f, Hops(start)); at.Some? && Grows(f, scan.Now(), scan.log, scan.Repr, scan.root, at.value)
  {
    var g, log, nodes := scan.Now(), scan.log, scan.Repr;
    assert TreeIs(nodes, scan.root) && TableIs(scan.nodestbl, nodes);
    assert BookOf(g, log, nodes) && Grounded(g, log, 0, nodes);
    assert Answered(f, g, log[0], 0);
    assert scan.from != [] ==> scan.hop == scan.from[|scan.from| - 1];
  }

  // find_mcpath in a fabric that does not change.  A target other than the start is found
  // only where the group is forwarded to it, and a search that ends without it has shown
  // that it is not.  Otherwise a path was full, or the search left nodesdist.
  method FindForwarded(f: McFabric, scan: McScan, start: DrPath) returns (o: Outcome)
    requires scan.Valid() && scan.Repr == {} && scan.root == null && scan.log == [] && scan.asked == 0
    requires PathOk(start) && 0 <= start.cnt < PATH_SIZE && Proper(start)
    modifies scan
    ensures
      var at := At(f, Hops(start));
      WellMade(f) && Static(f, scan.Now(), scan.log) && at.Some? && f.portGuid(at.value) != scan.target ==>
        && (o.Found? ==> ForwardsTo(f, at.value, start.cnt > 0, scan.target))
        && (o == Nothing ==> !ForwardsTo(f, at.value, start.cnt > 0, scan.target))
        && (o == Failed ==> LongRoute(scan.log)) && (o == Overrun ==> MayOverrun(start))
  {
    o := scan.FindMcPath(start);
    if WellMade(f) && Static(f, scan.Now(), scan.log) && At(f, Hops(start)).Some? && f.portGuid(At(f, Hops(start)).value) != scan.target {
      FindsForwarded(f, scan, start, o);
    }
  }

  lemma FindsForwarded(f: McFabric, scan: McScan, start: DrPath, o: Outcome)
    requires scan.Valid() && PathOk(start) && 0 <= start.cnt < PATH_SIZE && Proper(start) && scan.log != [] && scan.log[0] == AskNode(Hops(start))
    requires scan.nodeReply(0).Some? ==> scan.StartedOn(start)
    requires scan.nodeReply(0).Some? && !scan.StartsAtTarget(0) ==>
      Book(scan.Now(), scan.log, scan.Repr) && scan.Result(o) && scan.root != null
    requires o == Nothing ==> scan.Complete()
    requires o.Found? && !scan.StartsAtTarget(0) ==> o.node.upnode != null && o.node.upnode in scan.Repr
    requires WellMade(f) && Static(f, scan.Now(), scan.log)
    requires var at := At(f, Hops(start)); at.Some? && f.portGuid(at.value) != scan.target
    ensures var at := At(f, Hops(start)).value;
      && (o.Found? ==> ForwardsTo(f, at, start.cnt > 0, scan.target))
      && (o == Nothing ==> !ForwardsTo(f, at, start.cnt > 0, scan.target))
      && (o == Failed ==> LongRoute(scan.log))
  {
    var g, log, at := scan.Now(), scan.log, At(f, Hops(start)).value;
    assert Answered(f, g, log[0], 0);
    ScanGrows(f, scan, start);
    match o {
      case Found(n) => FoundIsForwardedTo(f, g, log, scan.Repr, scan.root, at, n);
      case Nothing => NothingIsForwardedTo(f, g, log, scan.Repr, scan.root, at);
      case Failed => StuckIsLong(f, g, log, scan.Repr, scan.root, at);
      case Overrun =>
    }
  }

  // A link was asked for behind at least 62 hops.
  ghost predicate LongRoute(log: seq<Query>) {
    exists q :: 0 <= q < |log| && log[q].AskLink? && |log[q].route| >= 62
  }

  // The fabric answers for every link, so the path was full.
  lemma StuckIsLong(f: McFabric, g: Setting, log: seq<Query>, nodes: set<McNode>, root: McNode, start: Spot)
    requires Grows(f, g, log, nodes, root, start) && Stuck(g, log)
    ensures LongRoute(log)
  {
    var q := |log| - 1;
    assert BookOf(g, log, nodes) && Grounded(g, log, q, nodes);
    if q > 0 {
      var n, i :| n in nodes && Reason(g, log, q, n, i);
      Located(f, g, log, nodes, root, start, n);
      assert Answered(f, g, log[q], q);
    }
  }
}
