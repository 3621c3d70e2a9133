// A static fabric: nodes, their ports, and the cables between ports, together with
// the answers it gives to SMPs on directed routes.
module Wiring {
  import opened Wrappers
  import opened Fabric

  datatype HwPort = HwPort(guid: nat, lid: nat, lmc: nat, qdr: bool)

  // ports[0] to ports[numports]; port 0 is the management port of a switch.
  datatype HwNode = HwNode(kind: Kind, ports: seq<HwPort>, extCapable: bool)

  // A port of a node of the fabric, by GUID.
  datatype Place = Place(guid: nat, num: nat)

  // cable maps both ends of every trained link to each other; home is the port from
  // which the scan sends its SMPs.
  datatype Net = Net(hw: map<nat, HwNode>, cable: map<Place, Place>, home: Place)

  predicate IsPlace(w: Net, p: Place) {
    p.guid in w.hw && p.num < |w.hw[p.guid].ports|
  }

  ghost predicate NetOk(w: Net) {
    && (forall p :: p in w.cable ==>
         && IsPlace(w, p) && 0 < p.num
         && w.cable[p] in w.cable && w.cable[w.cable[p]] == p && w.cable[p] != p)
    && (forall g :: g in w.hw ==> 0 < |w.hw[g].ports|)
    && IsPlace(w, w.home)
    && (IsSwitch(w, w.home.guid) <==> w.home.num == 0)
  }

  predicate IsSwitch(w: Net, guid: nat) {
    guid in w.hw && w.hw[guid].kind == Switch
  }

  function NumPorts(w: Net, guid: nat): nat
    requires guid in w.hw && 0 < |w.hw[guid].ports|
  {
    |w.hw[guid].ports| - 1
  }

  // Where an SMP sent on a directed route arrives: the node and the port it comes in
  // by.  Only switches forward, apart from the first hop out of the home port.
  function Walk(w: Net, route: Route): Option<Place> {
    if route == [] then Some(w.home)
    else
      var back := route[..|route| - 1];
      var out := route[|route| - 1];
      match Walk(w, back)
      case None => None
      case Some(at) =>
        if (IsSwitch(w, at.guid) || (back == [] && out == w.home.num)) && Place(at.guid, out) in w.cable
        then Some(w.cable[Place(at.guid, out)])
        else None
  }

  function NodeInfoAt(w: Net, at: Place): NodeInfo
    requires IsPlace(w, at)
  {
    var n := w.hw[at.guid];
    NodeInfo(at.guid, n.kind, |n.ports| - 1, n.ports[at.num].guid, at.num, n.extCapable)
  }

  // PortInfo of port num of the node reached at `at`.
  function PortInfoAt(w: Net, at: Place, num: nat): PortInfo
    requires IsPlace(w, Place(at.guid, num))
  {
    var p := w.hw[at.guid].ports[num];
    PortInfo(Place(at.guid, num) in w.cable, at.num, p.lid, p.lmc, p.qdr)
  }

  // The attribute modifier of an SMP, which its reply has too
  function Modifier(req: Req): nat {
    if req.PortInfoReq? || req.ExtPortInfoReq? then req.num else 0
  }

  // The reply of the fabric to an SMP; an SMP that does not arrive times out.
  function Answer(w: Net, req: Req): Reply
    requires NetOk(w)
  {
    match Walk(w, req.route)
    case None => Failed(Modifier(req))
    case Some(at) =>
      WalkIsPlace(w, req.route);
      if req.NodeInfoReq? then NodeInfoReply(NodeInfoAt(w, at))
      else if req.PortInfoReq? then
        if IsPlace(w, Place(at.guid, req.num)) then PortInfoReply(req.num, PortInfoAt(w, at, req.num)) else Failed(req.num)
      else Data(Modifier(req))
  }

  lemma WalkIsPlace(w: Net, route: Route)
    requires NetOk(w)
    ensures Walk(w, route).Some? ==> IsPlace(w, Walk(w, route).value)
  {
  }

  // CAs and routers are entered by a numbered port.
  lemma WalkNum(w: Net, route: Route)
    requires NetOk(w)
    ensures Walk(w, route).Some? && Walk(w, route).value.num == 0 ==> IsSwitch(w, Walk(w, route).value.guid)
  {
  }

  lemma WalkOn(w: Net, route: Route, out: nat)
    requires Walk(w, route).Some?
    requires IsSwitch(w, Walk(w, route).value.guid) || (route == [] && out == w.home.num)
    requires Place(Walk(w, route).value.guid, out) in w.cable
    ensures Walk(w, route + [out]) == Some(w.cable[Place(Walk(w, route).value.guid, out)])
  {
    assert (route + [out])[..|route|] == route;
  }

  // ---------------------------------------------------------------------------
  // What a scan from `start` should find.

  // Links are followed out of every port of a switch and out of the start port.
  predicate Leads(w: Net, start: Place, p: Place) {
    p in w.cable && (IsSwitch(w, p.guid) || p == start)
  }

  // The nodes reached from the start node over the links out of `outs`, in order.
  ghost predicate Trail(w: Net, start: Place, outs: seq<Place>, guid: nat) {
    if outs == [] then guid == start.guid
    else
      var last := outs[|outs| - 1];
      && Leads(w, start, last) && w.cable[last].guid == guid
      && Trail(w, start, outs[..|outs| - 1], last.guid)
  }

  ghost predicate Reachable(w: Net, start: Place, guid: nat) {
    exists outs :: Trail(w, start, outs, guid)
  }

  lemma ReachableStart(w: Net, start: Place)
    ensures Reachable(w, start, start.guid)
  {
    assert Trail(w, start, [], start.guid);
  }

  lemma ReachableNext(w: Net, start: Place, p: Place)
    requires Leads(w, start, p) && Reachable(w, start, p.guid)
    ensures Reachable(w, start, w.cable[p].guid)
  {
    var outs :| Trail(w, start, outs, p.guid);
    assert (outs + [p])[..|outs|] == outs;
    assert Trail(w, start, outs + [p], w.cable[p].guid);
  }

  // A set that holds the start node and is closed under the links that a scan follows
  // holds every reachable node.
  lemma {:induction false} ClosedHoldsTrail(w: Net, start: Place, nodes: set<nat>, outs: seq<Place>, guid: nat)
    requires start.guid in nodes
    requires forall p: Place :: p.guid in nodes && Leads(w, start, p) ==> w.cable[p].guid in nodes
    requires Trail(w, start, outs, guid)
    ensures guid in nodes
    decreases |outs|
  {
    if outs != [] {
      var last := outs[|outs| - 1];
      ClosedHoldsTrail(w, start, nodes, outs[..|outs| - 1], last.guid);
    }
  }
}
