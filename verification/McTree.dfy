// The breadth-first search by which src/ibtracert.c traces a multicast path.  What the
// fabric answers is arbitrary: query n gets reply n of its kind.
module McTree {
  import opened Wrappers
  import opened Tables
  import opened McNodes
  import opened McLog

  // The reply to query n in a fabric that is a chain: a CA, then switches with ports 1 to 3
  function ChainReply(target: nat, n: nat): NodeReply {
    NodeReply(n, n > 0, 3, target + 1, 3)
  }

  // The port that leads down the chain, given the one that leads up from the first switch
  function OutOf(hop: nat): nat {
    if hop == 2 then 1 else 2
  }

  // A start path of at most one hop, which ends in a hop
  predicate MayOverrun(start: DrPath)
    requires PathOk(start) && 0 <= start.cnt < PATH_SIZE
  {
    start.cnt <= 1 && start.p[start.cnt] != 0
  }

  ghost function Only(ports: set<nat>): (p: nat)
    requires |ports| == 1
    ensures ports == {p}
  {
    var p :| p in ports;
    assert |ports - {p}| == 0;
    p
  }

  class McScan {
    const target: nat
    const nodeReply: nat -> Option<NodeReply>
    const linkReply: nat -> Option<bool>
    const mapReply: nat -> Option<set<nat>>
    var asked: nat
    ghost var log: seq<Query>

    var nodesdist: seq<seq<McNode>>
    var nodestbl: seq<seq<McNode>>
    ghost var Repr: set<McNode>
    ghost var root: McNode?
    var leafport: nat
    var rootPort: nat
    ghost var leaf: bool
    ghost var from: seq<nat>
    ghost var hop: nat        // the hop by which the start is reached

    ghost predicate Valid()
      reads this
    {
      TableOk(nodestbl, Repr) && LevelsOk(nodesdist, Repr) && TreeOk(Repr, root)
    }

    constructor (target: nat, nodeReply: nat -> Option<NodeReply>, linkReply: nat -> Option<bool>, mapReply: nat -> Option<set<nat>>)
      ensures Valid() && Repr == {} && root == null && asked == 0 && log == []
      ensures this.target == target && this.nodeReply == nodeReply && this.linkReply == linkReply && this.mapReply == mapReply
    {
      this.target, this.nodeReply, this.linkReply, this.mapReply, asked := target, nodeReply, linkReply, mapReply, 0;
      log := [];
      nodesdist, nodestbl := seq(MAXHOPS, d => []), seq(HTSZ, h => []);
      Repr, root, leafport, rootPort, leaf, from, hop := {}, null, 0, 0, false, [], 0;
    }

    // insert_node, up to the insertion
    method IsKnown(guid: nat) returns (known: bool)
      requires Valid()
      ensures known <==> exists n :: n in Repr && n.guid == guid
    {
      assert TableIs(nodestbl, Repr);
      var chain := nodestbl[Bucket(guid)];
      var k := 0;
      while k < |chain|
        invariant 0 <= k <= |chain| && forall j :: 0 <= j < k ==> chain[j].guid != guid
      {
        if chain[k].guid == guid {
          assert chain[k] in Repr;
          return true;
        }
        k := k + 1;
      }
      return false;
    }

    // new_node
    method NewNode(n: McNode, portGuid: nat, dist: nat) returns (r: Placement)
      requires Valid() && n !in Repr && Rooted(n) && n.level == dist && n.dist == if portGuid == target then -1 else dist
      requires dist == 0 ==> Repr == {} && root == null
      requires dist > 0 ==> n.upnode in Repr
      modifies this`nodesdist, this`nodestbl, this`Repr, this`root
      ensures Valid()
      ensures r == Placed ==> Repr == old(Repr) + {n} && forall m :: m in old(Repr) ==> m.guid != n.guid
      ensures r != Placed ==> Repr == old(Repr) && nodesdist == old(nodesdist)
      ensures r == Known ==> exists m :: m in Repr && m.guid == n.guid
      ensures r == FoundTarget <==> portGuid == target
      ensures r == OutOfLevels <==> dist == MAXHOPS && portGuid != target && forall m :: m in old(Repr) ==> m.guid != n.guid
      ensures root == if dist == 0 && r == Placed then n else old(root)
      ensures r == Placed ==> dist < MAXHOPS && nodesdist == old(nodesdist)[dist := [n] + old(nodesdist)[dist]]
    {
      if portGuid == target {
        return FoundTarget;
      }
      var known := IsKnown(n.guid);
      if known {
        return Known;
      }
      LevelsBounded(nodesdist, Repr);
      if dist == MAXHOPS {
        return OutOfLevels;
      }
      Insert(n, dist);
      return Placed;
    }

    // The rest of insert_node and new_node
    method Insert(n: McNode, dist: nat)
      requires Valid() && n !in Repr && Rooted(n) && n.level == n.dist == dist < MAXHOPS
      requires dist == 0 ==> Repr == {} && root == null
      requires dist > 0 ==> n.upnode in Repr
      requires forall m :: m in Repr ==> m.guid != n.guid
      modifies this`nodesdist, this`nodestbl, this`Repr, this`root
      ensures Valid() && Repr == old(Repr) + {n} && root == (if dist == 0 then n else old(root))
      ensures nodesdist == old(nodesdist)[dist := [n] + old(nodesdist)[dist]]
    {
      TableMore(nodestbl, Repr, n);
      LevelsMore(nodesdist, Repr, n);
      TreeMore(Repr, root, n, if dist == 0 then n else root);
      if dist == 0 { root := n; }
      var h := Bucket(n.guid);
      nodestbl := nodestbl[h := [n] + nodestbl[h]];
      nodesdist := nodesdist[dist := [n] + nodesdist[dist]];
      Repr := Repr + {n};
    }

    ghost function Now(): Setting
      reads this`leaf, this`from, this`hop, this`rootPort
    {
      Setting(target, nodeReply, linkReply, mapReply, leaf, from, hop, rootPort)
    }

    ghost predicate Kept()
      reads this
    {
      log != [] && |log| == asked && Book(Now(), log, Repr)
    }

    // A node that has just been found
    ghost predicate Young(n: McNode, dist: nat)
      reads n`upport
    {
      n.level == dist && n.upport == n.entry
    }

    // A port that leads back is the one that is passed over.
    ghost predicate UpportsOk(nodes: set<McNode>)
      reads this`leaf, this`from, this`hop, this`rootPort, nodes`upport
    {
      forall n :: n in nodes ==> (leaf && n.level == 1) || n.upport == Skip(Now(), n)
    }

    // What the log says at the end of a turn
    ghost predicate Result(o: Outcome)
      reads this
    {
      match o
      case Nothing => NoTarget(Now(), log, Repr)
      case Found(n) => FoundBy(Now(), log, n)
      case Failed => Stuck(Now(), log)
      case Overrun => true
    }

    // The path of a node while it is extended by port i
    ghost predicate SteppedOut(n: McNode, i: nat)
      requires Rooted(n)
      reads this, n`path
    {
      && PathOk(n.path) && 0 <= n.path.cnt < PATH_SIZE && Hops(n.path) == BeyondOf(Now(), n, i)
      && (!(leaf && n.level == 0) ==> 0 < n.path.cnt && Hops(n.path.(cnt := n.path.cnt - 1)) == RouteOf(n, leaf, from))
    }

    // The first half of the turn of the port loop for port i of a node: the path is led out
    // of the port, if its link is up.
    method StepOut(node: McNode, i: nat, fromCnt: int) returns (o: Option<bool>)
      requires Rooted(node) && PathLeads(node, leaf, from) && fromCnt == |from| && (leafport != 0 <==> leaf)
      modifies this`asked, this`log, node`path
      ensures log == old(log) + LinkTurn(Now(), node, i) && LinkAnswer(Now(), old(asked), node, o)
      ensures o == Some(true) ==> SteppedOut(node, i)
      ensures o == Some(true) && !(leaf && node.level == 0) ==> node.path.cnt + 1 < PATH_SIZE
      ensures o != Some(true) ==> node.path == old(node.path)
      ensures asked == if leaf && node.level == 0 then old(asked) else old(asked) + 1
      ensures leaf && node.level == 0 ==> o == Some(true) && node.path.cnt == if fromCnt > 0 then old(node.path.cnt) - 1 else old(node.path.cnt)
      ensures !(leaf && node.level == 0) && linkReply(old(asked)) == Some(true) && old(node.path.cnt) + 2 < PATH_SIZE ==>
        o == Some(true) && node.path.cnt == old(node.path.cnt) + 1
    {
      assert node.upnode == null <==> node.level == 0;
      if node.upnode == null && leafport != 0 {
        if fromCnt > 0 {
          node.path := node.path.(cnt := node.path.cnt - 1);
        }
        return Some(true);
      }
      var up := linkReply(asked);
      asked, log := asked + 1, log + [AskLink(Hops(node.path), i)];
      if up.None? {
        return None;
      }
      if !up.value {
        return Some(false);
      }
      var ext := ExtendPath(node.path, i);
      if ext.None? {
        return None;
      }
      ExtendHops(node.path, i);
      node.path := ext.value;
      return Some(true);
    }

    // The head of the list of a level
    ghost function Newest(dist: nat): McNode?
      reads this
    {
      if dist < |nodesdist| && nodesdist[dist] != [] then nodesdist[dist][0] else null
    }

    ghost predicate IsNew(nodes: set<McNode>, info: NodeReply) {
      info.portGuid != target && forall m :: m in nodes ==> m.guid != info.guid
    }

    // A level has one node more, made from a reply to get_node on a path of cnt hops.
    ghost predicate Grown(nodes: set<McNode>, lists: seq<seq<McNode>>, dist: nat, info: NodeReply, cnt: int)
      reads this, Newest(dist)
    {
      var n := Newest(dist);
      && n != null && n.guid == info.guid && n.isSwitch == info.isSwitch && n.numports == info.numports
      && n.upport == info.portnum && n.path.cnt == cnt
      && dist < |lists| && Repr == nodes + {n} && nodesdist == lists[dist := [n] + lists[dist]]
    }

    // The node found beyond port i of a node is placed in the tree.
    method Place(node: McNode, i: nat, dist: nat, info: NodeReply) returns (o: Outcome)
      requires Valid() && node in Repr && node.level == dist < MAXHOPS && SteppedOut(node, i)
      requires PathsOk(Repr - {node}, leaf, from)
      modifies this`nodesdist, this`nodestbl, this`Repr, this`root
      ensures old(Repr) <= Repr && root == old(root) && Valid()
      ensures Settled(Some(info), target, old(Repr), Repr, node, i, o)
      ensures forall n :: n in Repr ==> n in old(Repr) || (fresh(n) && Young(n, dist + 1))
      ensures nodesdist[dist] == old(nodesdist[dist])
      ensures PathsOk(Repr - {node}, leaf, from)
      ensures o == Overrun ==> dist + 1 == MAXHOPS
      ensures o.Found? ==> Rooted(o.node) && o.node.upnode == node && o.node.dist == -1 && PathLeads(o.node, leaf, from)
      ensures o != Failed
      ensures IsNew(old(Repr), info) ==>
        if dist + 1 == MAXHOPS then o == Overrun
        else o == Nothing && Grown(old(Repr), old(nodesdist), dist + 1, info, node.path.cnt)
    {
      var remote := new McNode(info, node, i, node.path, if info.portGuid == target then -1 else dist + 1);
      assert PathLeads(remote, leaf, from);
      ghost var others := Repr - {node};
      var r := NewNode(remote, info.portGuid, dist + 1);
      o := if r == FoundTarget then Found(remote) else if r == OutOfLevels then Overrun else Nothing;
      assert others - {remote} == others;
      PathsWith(others, remote, leaf, from);
      assert Repr - {node} == if r == Placed then others + {remote} else others;
    }

    // The second half of the turn: the node at the end of the path is placed in the tree,
    // and the path steps back.
    method Enter(node: McNode, i: nat, dist: nat) returns (o: Outcome)
      requires Valid() && node in Repr && node.level == dist < MAXHOPS && SteppedOut(node, i)
      requires PathsOk(Repr - {node}, leaf, from)
      modifies this`asked, this`log, this`nodesdist, this`nodestbl, this`Repr, this`root, node`path
      ensures old(Repr) <= Repr && root == old(root) && Valid()
      ensures log == old(log) + [AskNode(BeyondOf(Now(), node, i))]
      ensures Settled(nodeReply(old(asked)), target, old(Repr), Repr, node, i, o)
      ensures forall n :: n in Repr ==> n in old(Repr) || (fresh(n) && Young(n, dist + 1))
      ensures nodesdist[dist] == old(nodesdist[dist])
      ensures o == Nothing ==> PathsOk(Repr, leaf, from)
      ensures o == Overrun ==> dist + 1 == MAXHOPS && |BeyondOf(Now(), node, i)| < PATH_SIZE
      ensures o.Found? ==> Rooted(o.node) && o.node.upnode == node && o.node.dist == -1 && PathLeads(o.node, leaf, from)
      ensures o != Failed && asked == old(asked) + 1
      ensures var info := nodeReply(old(asked));
        info.Some? && IsNew(old(Repr), info.value) ==>
          if dist + 1 == MAXHOPS then o == Overrun
          else o == Nothing && Grown(old(Repr), old(nodesdist), dist + 1, info.value, old(node.path.cnt))
    {
      var info := nodeReply(asked);
      asked, log := asked + 1, log + [AskNode(Hops(node.path))];
      if info.None? {
        StepBack(node, i);
        return Nothing;
      }
      o := EnterReply(node, i, dist, info.value);
    }

    method EnterReply(node: McNode, i: nat, dist: nat, info: NodeReply) returns (o: Outcome)
      requires Valid() && node in Repr && node.level == dist < MAXHOPS && SteppedOut(node, i)
      requires PathsOk(Repr - {node}, leaf, from)
      modifies this`nodesdist, this`nodestbl, this`Repr, this`root, node`path
      ensures old(Repr) <= Repr && root == old(root) && Valid()
      ensures Settled(Some(info), target, old(Repr), Repr, node, i, o)
      ensures forall n :: n in Repr ==> n in old(Repr) || (fresh(n) && Young(n, dist + 1))
      ensures nodesdist[dist] == old(nodesdist[dist])
      ensures o == Nothing ==> PathsOk(Repr, leaf, from)
      ensures o == Overrun ==> dist + 1 == MAXHOPS
      ensures o.Found? ==> Rooted(o.node) && o.node.upnode == node && o.node.dist == -1 && PathLeads(o.node, leaf, from)
      ensures o != Failed
      ensures IsNew(old(Repr), info) ==>
        if dist + 1 == MAXHOPS then o == Overrun
        else o == Nothing && Grown(old(Repr), old(nodesdist), dist + 1, info, old(node.path.cnt))
    {
      o := Place(node, i, dist, info);
      if o == Nothing {
        StepBack(node, i);
      }
    }

    // The path of a node is restored.
    method StepBack(node: McNode, ghost i: nat)
      requires node in Repr && Rooted(node) && SteppedOut(node, i) && PathsOk(Repr - {node}, leaf, from)
      modifies node`path
      ensures PathsOk(Repr, leaf, from)
    {
      node.path := node.path.(cnt := node.path.cnt - 1);
      PathsWith(Repr, node, leaf, from);
    }

    // -------------------------------------------------------------------------
    // A fabric that is a chain of switches behind a CA

    // Every query is answered.  The CA gets its number 0 from the first query, and every
    // switch the number of the query that finds it.
    ghost predicate Chained(hop: nat) {
      forall n :: nodeReply(n) == Some(ChainReply(target, n)) && linkReply(n) == Some(true) && mapReply(n) == Some({OutOf(hop)})
    }

    // The search has got to a node of the chain.
    ghost predicate OnChain(node: McNode, dist: nat)
      reads this, node`path
    {
      && Chained(hop) && leaf && hop != 0 && node.numports == 3 && (node.isSwitch <==> dist > 0)
      && |nodesdist| == MAXHOPS && (forall k :: dist < k < MAXHOPS ==> nodesdist[k] == [])
      && (forall m :: m in Repr ==> m.guid < asked)
      && if dist == 0 then node.path.cnt == |from| <= 1 else node.path.cnt == dist - 1
    }

    // That node is the only one of its level.
    ghost predicate ChainAt(dist: nat)
      reads this, Newest(dist)
    {
      var n := Newest(dist);
      && n != null && OnChain(n, dist) && dist < MAXHOPS && nodesdist[dist] == [n]
      && leafport == (if dist == 0 then 0 else hop)
      && (dist == 0 ==> rootPort == 3 && PathOk(n.path) && n.path.p[n.path.cnt] == hop)
      && (dist > 1 ==> n.upport == 3)
    }

    // The length of the path is known, so a search from a switch stays inside nodesdist.
    predicate LevelsSuffice(leaf: bool, hops: nat) { !leaf || hops > 1 }

    // The number of hops beyond a port of a node whose path has cnt hops
    ghost function Ahead(dist: nat, cnt: int): int
      reads this
    {
      if !(leaf && dist == 0) then cnt + 1 else if from == [] then cnt else cnt - 1
    }

    // Query q finds a new node beyond a port of a node whose path has cnt hops.
    ghost predicate Finds(q: nat, dist: nat, cnt: int, nodes: set<McNode>)
      reads this
    {
      && ((leaf && dist == 0) || (q > 0 && linkReply(q - 1) == Some(true) && cnt + 2 < PATH_SIZE))
      && nodeReply(q).Some? && IsNew(nodes, nodeReply(q).value)
    }

    // The turn of the port loop for port i of a node
    method VisitPort(node: McNode, i: nat, dist: nat, fromCnt: int) returns (o: Outcome)
      requires Valid() && PathsOk(Repr - {node}, leaf, from) && node in Repr && node.level == dist < MAXHOPS
      requires PathLeads(node, leaf, from) && fromCnt == |from| && (leafport != 0 <==> leaf)
      requires Kept() && Result(Nothing) && MayFollow(Now(), log, node, i)
      modifies this`asked, this`log, this`nodesdist, this`nodestbl, this`Repr, this`root, node`path
      ensures old(Repr) <= Repr && root == old(root) && Valid()
      ensures Kept() && old(log) <= log && Result(o) && (o == Nothing ==> Followed(Now(), log, node, i))
      ensures forall n :: n in Repr ==> n in old(Repr) || (fresh(n) && Young(n, dist + 1))
      ensures nodesdist[dist] == old(nodesdist[dist])
      ensures o == Nothing ==> PathsOk(Repr, leaf, from)
      ensures o == Overrun ==> !LevelsSuffice(leaf, |from|)
      ensures o.Found? ==> Rooted(o.node) && o.node.upnode == node && o.node.dist == -1 && PathLeads(o.node, leaf, from)
      ensures var q := if leaf && dist == 0 then old(asked) else old(asked) + 1;
        Finds(q, dist, old(node.path.cnt), old(Repr)) ==>
          if dist + 1 == MAXHOPS then o == Overrun
          else
            o == Nothing && asked == q + 1 && Grown(old(Repr), old(nodesdist), dist + 1, nodeReply(q).value, Ahead(dist, old(node.path.cnt)))
    {
      var go := StepOut(node, i, fromCnt);
      ghost var q := asked;
      assert q == |old(log) + LinkTurn(Now(), node, i)|;
      if go.None? {
        o := Failed;
      } else if !go.value {
        o := Nothing;
        PathsWith(Repr, node, leaf, from);
      } else {
        o := Enter(node, i, dist);
      }
      TurnTaken(Now(), old(log), log, old(Repr), Repr, node, i, go, o, q);
    }

    // VisitPort and, on a chain of switches, what it makes of the search
    method VisitChainPort(node: McNode, i: nat, dist: nat, fromCnt: int) returns (o: Outcome)
      requires Valid() && PathsOk(Repr - {node}, leaf, from) && node in Repr && node.level == dist < MAXHOPS
      requires PathLeads(node, leaf, from) && fromCnt == |from| && (leafport != 0 <==> leaf)
      requires Kept() && Result(Nothing) && MayFollow(Now(), log, node, i)
      modifies this`asked, this`log, this`nodesdist, this`nodestbl, this`Repr, this`root, node`path
      ensures old(Repr) <= Repr && root == old(root) && Valid()
      ensures Kept() && old(log) <= log && Result(o) && (o == Nothing ==> Followed(Now(), log, node, i))
      ensures forall n :: n in Repr ==> n in old(Repr) || (fresh(n) && Young(n, dist + 1))
      ensures nodesdist[dist] == old(nodesdist[dist])
      ensures o == Nothing ==> PathsOk(Repr, leaf, from)
      ensures o == Overrun ==> !LevelsSuffice(leaf, |from|)
      ensures o.Found? ==> Rooted(o.node) && o.node.upnode == node && o.node.dist == -1 && PathLeads(o.node, leaf, from)
      ensures old(OnChain(node, dist)) && leafport == hop ==> if dist + 1 == MAXHOPS then o == Overrun else o == Nothing && ChainAt(dist + 1)
    {
      ghost var n, nodes, lists := asked, Repr, nodesdist;
      o := VisitPort(node, i, dist, fromCnt);
      if old(OnChain(node, dist)) && leafport == hop {
        var q := if dist == 0 then n else n + 1;
        assert nodeReply(q) == Some(ChainReply(target, q));
        assert linkReply(n) == Some(true);
        assert Finds(q, dist, old(node.path.cnt), nodes);
        if dist + 1 < MAXHOPS {
          NextOnChain(nodes, lists, dist + 1, q);
        }
      }
    }

    lemma NextOnChain(nodes: set<McNode>, lists: seq<seq<McNode>>, dist: nat, n: nat)
      requires Chained(hop) && leaf && leafport == hop != 0 && 0 < dist < MAXHOPS == |lists| && 0 < n < asked
      requires (forall k :: dist <= k < MAXHOPS ==> lists[k] == []) && (forall m :: m in nodes ==> m.guid < n)
      requires Grown(nodes, lists, dist, ChainReply(target, n), dist - 1)
      ensures ChainAt(dist)
    {
    }

    // The state between two nodes of the search
    ghost predicate Searching(fromCnt: int)
      reads this, Repr`path
    {
      Valid() && PathsOk(Repr, leaf, from) && fromCnt == |from| && (leafport != 0 ==> leaf)
    }

    // One port leads out of a node of the chain.
    ghost predicate OneWayOn(node: McNode, ports: set<nat>)
      reads this, node`upport
    {
      leafport == hop && node.upport !in ports && |ports| == 1 && ports <= {1, 2, 3}
    }

    // The port loop of a node of the chain, before and after that port
    ghost predicate Along(node: McNode, dist: nat, done: bool)
      reads this, node`path, Newest(dist + 1)
    {
      if done then dist + 1 < MAXHOPS && ChainAt(dist + 1) else OnChain(node, dist)
    }

    // The port loop of a node
    method VisitPorts(node: McNode, dist: nat, ports: set<nat>, fromCnt: int) returns (o: Outcome)
      requires Searching(fromCnt) && node in Repr && node.level == dist < MAXHOPS
      requires (leafport != 0 <==> leaf) && PathLeads(node, leaf, from)
      requires leaf && dist == 0 ==> ports == {rootPort}
      requires Kept() && Result(Nothing) && PortsKnown(Now(), log, node, ports) && node.upport == Skip(Now(), node)
      modifies this`asked, this`log, this`nodesdist, this`nodestbl, this`Repr, this`root, node`path
      ensures old(Repr) <= Repr && root == old(root) && Valid()
      ensures Kept() && old(log) <= log && Result(o) && (o == Nothing ==> Done(Now(), log, node))
      ensures forall n :: n in Repr ==> n in old(Repr) || (fresh(n) && Young(n, dist + 1))
      ensures nodesdist[dist] == old(nodesdist[dist])
      ensures o == Nothing ==> PathsOk(Repr, leaf, from)
      ensures o == Overrun ==> !LevelsSuffice(leaf, |from|)
      ensures o.Found? ==> Rooted(o.node) && o.node.upnode == node && o.node.dist == -1 && PathLeads(o.node, leaf, from)
      ensures old(OnChain(node, dist)) && OneWayOn(node, ports) ==> if dist + 1 == MAXHOPS then o == Overrun else o == Nothing && ChainAt(dist + 1)
    {
      ghost var chain := OnChain(node, dist) && OneWayOn(node, ports);
      ghost var port := if chain then Only(ports) else 0;
      assert chain ==> port !in {node.upport} && 1 <= port <= node.numports && forall i :: i in ports <==> i == port;
      FollowedToNone(Now(), log, node, ports);
      for i := 1 to node.numports + 1
        invariant old(Repr) <= Repr && root == old(root) && old(log) <= log && InPorts(node, ports, i)
        invariant forall n :: n in Repr ==> n in old(Repr) || (fresh(n) && Young(n, dist + 1))
        invariant nodesdist[dist] == old(nodesdist[dist])
        invariant chain ==> Along(node, dist, port < i)
      {
        if i in ports && i != node.upport {
          o := VisitNextPort(node, i, dist, ports, fromCnt);
          if o != Nothing {
            return;
          }
        } else {
          FollowedToSkip(Now(), log, node, ports, i);
        }
      }
      FollowedToAll(Now(), log, node, ports, node.numports + 1);
      NodeDone(Now(), log, node, ports);
      return Nothing;
    }

    // The state before port i of a node
    ghost predicate InPorts(node: McNode, ports: set<nat>, i: nat)
      reads this, Repr`path, node`path
    {
      && Valid() && Kept() && Result(Nothing) && node in Repr && PortsKnown(Now(), log, node, ports) && FollowedTo(Now(), log, node, ports, i)
      && PathsOk(Repr, leaf, from) && (!(leaf && node.level == 0) || forall k :: k in ports && i <= k ==> PathLeads(node, leaf, from))
    }

    method VisitNextPort(node: McNode, i: nat, dist: nat, ghost ports: set<nat>, fromCnt: int) returns (o: Outcome)
      requires InPorts(node, ports, i) && 1 <= i <= node.numports && i in ports && i != Skip(Now(), node)
      requires node.level == dist < MAXHOPS && fromCnt == |from| && (leafport != 0 <==> leaf) && (leaf && dist == 0 ==> ports == {rootPort})
      modifies this`asked, this`log, this`nodesdist, this`nodestbl, this`Repr, this`root, node`path
      ensures old(Repr) <= Repr && root == old(root) && Valid()
      ensures Kept() && old(log) <= log && Result(o) && (o == Nothing ==> InPorts(node, ports, i + 1))
      ensures forall n :: n in Repr ==> n in old(Repr) || (fresh(n) && Young(n, dist + 1))
      ensures nodesdist[dist] == old(nodesdist[dist])
      ensures o == Overrun ==> !LevelsSuffice(leaf, |from|)
      ensures o.Found? ==> Rooted(o.node) && o.node.upnode == node && o.node.dist == -1 && PathLeads(o.node, leaf, from)
      ensures old(OnChain(node, dist)) && leafport == hop ==> if dist + 1 == MAXHOPS then o == Overrun else o == Nothing && ChainAt(dist + 1)
    {
      PathsBut(Repr, node, leaf, from);
      o := VisitChainPort(node, i, dist, fromCnt);
      if o == Nothing {
        PortsKnownLater(Now(), old(log), log, node, ports);
        FollowedToNext(Now(), old(log), log, node, ports, i);
      }
    }

    // The ports that the search follows out of a node: the port of a leaf start, or those
    // that the switch forwards the group to; None for a node that is passed over.
    method PortsOf(node: McNode, dist: nat) returns (ports: Option<set<nat>>)
      requires PathOk(node.path) && 0 <= node.path.cnt < PATH_SIZE && (dist == 0 ==> leafport == 0)
      modifies this`asked, this`log, this`leafport, node`upport
      ensures log == old(log) + if node.isSwitch then [AskMap(Hops(node.path))] else []
      ensures !node.isSwitch && dist > 0 ==> ports.None? && asked == old(asked) && node.upport == old(node.upport)
      ensures dist > 0 ==> leafport == old(leafport)
      ensures !node.isSwitch && dist == 0 ==>
        leafport == node.path.p[node.path.cnt] && node.upport == 0 && asked == old(asked) && ports == Some({rootPort})
      ensures node.isSwitch ==> ports == mapReply(old(asked)) && asked == old(asked) + 1
      ensures node.isSwitch ==> node.upport == if dist == 1 && leafport != 0 then leafport else old(node.upport)
      ensures dist == 0 ==> (leafport != 0 <==> StartsOnLeaf(node)) && (leafport != 0 ==> ports == Some({rootPort}))
    {
      if !node.isSwitch {
        if dist != 0 {
          return None;
        }
        leafport := node.path.p[node.path.cnt];
        node.upport := 0;
        return Some({rootPort});
      }
      if dist == 1 && leafport != 0 {
        node.upport := leafport;
      }
      ports := mapReply(asked);
      asked, log := asked + 1, log + [AskMap(Hops(node.path))];
    }

    // PortsOf, and what it enters in the log
    method OpenNode(node: McNode, dist: nat, fromCnt: int) returns (ports: Option<set<nat>>)
      requires Searching(fromCnt) && node in Repr && node.level == dist < MAXHOPS && PathLeads(node, leaf, from)
      requires dist == 0 ==> leafport == 0 && (leaf <==> StartsOnLeaf(node)) && node.path.p[node.path.cnt] == hop
      requires dist > 0 ==> LeafportSet()
      requires Kept() && Result(Nothing) && ((leaf && dist == 1) || node.upport == Skip(Now(), node))
      modifies this`asked, this`log, this`leafport, node`upport
      ensures Kept() && old(log) <= log && Result(Nothing) && LeafportSet()
      ensures node.upport == Skip(Now(), node) || (node.upport == old(node.upport) && ports.None?)
      ensures if ports.Some? then PortsKnown(Now(), log, node, ports.value) else Done(Now(), log, node)
      ensures leaf && dist == 0 ==> ports == Some({rootPort})
      ensures old(ChainAt(dist)) && node == old(Newest(dist)) ==>
        OnChain(node, dist) && ports.Some? && OneWayOn(node, ports.value)
    {
      ports := PortsOf(node, dist);
      if node.isSwitch {
        MapAsked(Now(), old(log), Repr, node);
        assert log[|old(log)|] == AskMap(RouteOf(node, leaf, from));
        if ports.None? { SwitchDone(Now(), log, |old(log)|, node); }
      } else {
        assert log == old(log);
      }
    }

    // The turn of the search for one node
    method VisitNode(node: McNode, dist: nat, fromCnt: int) returns (o: Outcome)
      requires Searching(fromCnt) && node in Repr && node.level == dist < MAXHOPS && PathLeads(node, leaf, from)
      requires dist == 0 ==> leafport == 0 && (leaf <==> StartsOnLeaf(node)) && node.path.p[node.path.cnt] == hop
      requires dist > 0 ==> LeafportSet()
      requires Kept() && Result(Nothing) && ((leaf && dist == 1) || node.upport == Skip(Now(), node))
      modifies this`asked, this`log, this`leafport, this`nodesdist, this`nodestbl, this`Repr, this`root, node`path, node`upport
      ensures old(Repr) <= Repr && root == old(root) && Valid()
      ensures Kept() && old(log) <= log && Result(o) && (o == Nothing ==> Done(Now(), log, node))
      ensures node.upport == Skip(Now(), node) || node.upport == old(node.upport)
      ensures forall n :: n in Repr ==> n in old(Repr) || (fresh(n) && Young(n, dist + 1))
      ensures nodesdist[dist] == old(nodesdist[dist])
      ensures o == Nothing ==> Searching(fromCnt) && LeafportSet()
      ensures o == Overrun ==> !LevelsSuffice(leaf, |from|)
      ensures o.Found? ==> Rooted(o.node) && o.node.upnode == node && o.node.dist == -1 && PathLeads(o.node, leaf, from)
      ensures old(ChainAt(dist)) && node == old(Newest(dist)) ==> if dist + 1 == MAXHOPS then o == Overrun else o == Nothing && ChainAt(dist + 1)
    {
      var ports := OpenNode(node, dist, fromCnt);
      o := Nothing;
      if ports.Some? {
        o := VisitPorts(node, dist, ports.value, fromCnt);
      }
    }

    // leafport as the visit of the root leaves it
    ghost predicate LeafportSet()
      reads this
    {
      leafport == (if leaf then hop else 0) && (leaf ==> hop != 0)
    }

    // A CA or router that a hop leads to is left over that hop.
    predicate StartsOnLeaf(node: McNode)
      reads node`path
    {
      !node.isSwitch && 0 <= node.path.cnt < |node.path.p| && node.path.p[node.path.cnt] != 0
    }

    // The root before it is visited
    ghost predicate AtStart(n: McNode)
      requires Rooted(n)
      reads this, n`path
    {
      PathLeads(n, leaf, from) && (leaf <==> StartsOnLeaf(n)) && n.path.p[n.path.cnt] == hop
    }

    // The state before a level
    ghost predicate UpTo(dist: nat, fromCnt: int)
      reads this, Repr`path, Repr`upport
    {
      && Searching(fromCnt) && Kept() && Result(Nothing) && UpportsOk(Repr) && DoneTo(Now(), log, Repr, dist, [], 0)
      && if dist == 0 then leafport == 0 && |nodesdist[0]| == 1 && forall n :: n in Repr ==> AtStart(n) else LeafportSet()
    }

    // The state before node k of the list of a level
    ghost predicate InLevel(dist: nat, list: seq<McNode>, k: nat, fromCnt: int)
      requires k <= |list|
      reads this, Repr`path, Repr`upport
    {
      && Searching(fromCnt) && Kept() && Result(Nothing) && UpportsOk(Repr) && DoneTo(Now(), log, Repr, dist, list, k)
      && |nodesdist| == MAXHOPS && dist < MAXHOPS && nodesdist[dist] == list
      && (forall j :: 0 <= j < |list| ==> list[j] in Repr && list[j].level == dist)
      && (dist > 0 || k > 0 ==> LeafportSet())
      && (dist == 0 ==> |list| == 1 && (k == 0 ==> leafport == 0 && AtStart(list[0])))
    }

    ghost predicate ChainInLevel(dist: nat, list: seq<McNode>, k: nat)
      reads this, Newest(dist), Newest(dist + 1)
    {
      |list| == 1 && if k == 0 then ChainAt(dist) && Newest(dist) == list[0] else dist + 1 < MAXHOPS && ChainAt(dist + 1)
    }

    method VisitListed(node: McNode, dist: nat, ghost list: seq<McNode>, ghost k: nat, fromCnt: int) returns (o: Outcome)
      requires k < |list| && node == list[k] && InLevel(dist, list, k, fromCnt)
      modifies this`asked, this`log, this`leafport, this`nodesdist, this`nodestbl, this`Repr, this`root, node`path, node`upport
      ensures Valid() && Kept() && root == old(root) && Result(o)
      ensures forall n :: n in Repr ==> n in old(Repr) || fresh(n)
      ensures o == Nothing ==> InLevel(dist, list, k + 1, fromCnt)
      ensures o == Overrun ==> !LevelsSuffice(leaf, |from|)
      ensures o.Found? ==> Rooted(o.node) && o.node.upnode != null && o.node.upnode in Repr && o.node.dist == -1
      ensures o.Found? ==> PathLeads(o.node, leaf, from) && Printable(o.node) && root != null && Reaches(o.node, root, o.node.level)
      ensures old(ChainInLevel(dist, list, k)) && k == 0 ==> if dist + 1 == MAXHOPS then o == Overrun else o == Nothing && ChainInLevel(dist, list, 1)
    {
      ghost var before, nodes := log, Repr;
      PathsBut(Repr, node, leaf, from);
      o := VisitNode(node, dist, fromCnt);
      if o == Nothing {
        DoneToNext(Now(), before, log, nodes, Repr, dist, list, k);
      }
      TreeHas(Repr, root, node);
    }

    // One level, from the head of its list
    method SearchLevel(dist: nat, fromCnt: int) returns (o: Outcome)
      requires UpTo(dist, fromCnt) && dist < MAXHOPS
      modifies this`asked, this`log, this`leafport, this`nodesdist, this`nodestbl, this`Repr, this`root, Repr`path, Repr`upport
      ensures Valid() && Kept() && root == old(root) && Result(o)
      ensures forall n :: n in Repr ==> n in old(Repr) || fresh(n)
      ensures o == Nothing ==> UpTo(dist + 1, fromCnt)
      ensures o == Overrun ==> !LevelsSuffice(leaf, |from|)
      ensures o.Found? ==> Rooted(o.node) && o.node.upnode != null && o.node.upnode in Repr && o.node.dist == -1
      ensures o.Found? ==> PathLeads(o.node, leaf, from) && Printable(o.node) && root != null && Reaches(o.node, root, o.node.level)
      ensures old(ChainAt(dist)) ==> if dist + 1 == MAXHOPS then o == Overrun else o == Nothing && ChainAt(dist + 1)
    {
      var list := nodesdist[dist];
      LevelOf(nodesdist, Repr, dist);
      DoneFirst(Now(), log, Repr, dist, list);
      var k := 0;
      while k < |list|
        invariant 0 <= k <= |list| && InLevel(dist, list, k, fromCnt) && root == old(root)
        invariant forall j :: 0 <= j < |list| ==> list[j] in old(Repr)
        invariant forall n :: n in Repr ==> n in old(Repr) || fresh(n)
        invariant old(ChainAt(dist)) ==> ChainInLevel(dist, list, k)
      {
        o := VisitListed(list[k], dist, list, k, fromCnt);
        if o != Nothing {
          return;
        }
        k := k + 1;
      }
      LevelDone(Now(), log, Repr, dist, nodesdist);
      return Nothing;
    }

    // The search from a node in the tree, level by level
    method Search(fromCnt: int) returns (o: Outcome)
      requires UpTo(0, fromCnt)
      modifies this, Repr
      ensures Valid() && root == old(root) && Now() == old(Now()) && Book(Now(), log, Repr)
      ensures log != [] && log[0] == AskNode(from)
      ensures o == Nothing ==> Complete()
      ensures Result(o)
      ensures o == Overrun ==> !LevelsSuffice(leaf, |from|)
      ensures o.Found? ==> Rooted(o.node) && o.node.upnode != null && o.node.upnode in Repr && o.node.dist == -1
      ensures o.Found? ==> PathLeads(o.node, leaf, from) && Printable(o.node) && root != null && Reaches(o.node, root, o.node.level)
      ensures old(ChainAt(0)) ==> o == Overrun
    {
      for dist := 0 to MAXHOPS
        invariant UpTo(dist, fromCnt) && root == old(root) && Now() == old(Now())
        invariant forall n :: n in Repr ==> n in old(Repr) || fresh(n)
        invariant old(ChainAt(0)) ==> dist < MAXHOPS && ChainAt(dist)
      {
        o := SearchLevel(dist, fromCnt);
        if o != Nothing {
          FirstIsNode(Now(), log, Repr);
          return;
        }
      }
      FirstIsNode(Now(), log, Repr);
      LevelsBounded(nodesdist, Repr);
      AllDone(Now(), log, Repr);
      return Nothing;
    }

    // The search is through with every node of the tree, and no reply was from the target.
    ghost predicate Complete()
      reads this
    {
      && Valid() && Book(Now(), log, Repr) && NoTarget(Now(), log, Repr)
      && forall n :: n in Repr ==> Done(Now(), log, n)
    }

    // The start node is the root of the tree, unless it is the target.
    method PlaceStart(start: DrPath, info: NodeReply) returns (r: Placement, node: McNode)
      requires Valid() && Repr == {} && root == null && PathOk(start) && 0 <= start.cnt < PATH_SIZE
      modifies this`nodesdist, this`nodestbl, this`Repr, this`root, this`leafport, this`rootPort, this`leaf, this`from, this`hop
      ensures hop == start.p[start.cnt] && rootPort == info.portnum
      ensures node.upnode == null && node.outport == 0 && MadeFrom(Some(info), node) && node.upport == 0
      ensures Valid() && fresh(node) && Rooted(node) && node.level == 0 && node.path == start && node.isSwitch == info.isSwitch
      ensures r == FoundTarget <==> info.portGuid == target
      ensures r != FoundTarget && info == ChainReply(target, 0) && Chained(start.p[start.cnt]) && MayOverrun(start) && 0 < asked ==> ChainAt(0)
      ensures leafport == 0 && from == Hops(start) && (leaf <==> StartsOnLeaf(node))
      ensures r == FoundTarget ==> Repr == {} && root == null && node.dist == -1
      ensures r != FoundTarget ==> Repr == {node} && root == node && |nodesdist[0]| == 1
    {
      EmptyLevels(nodesdist, Repr);
      hop := start.p[start.cnt];
      node := new McNode(info, null, 0, start, if info.portGuid == target then -1 else 0);
      rootPort, leafport := info.portnum, 0;
      from, leaf := Hops(start), !node.isSwitch && start.p[start.cnt] != 0;
      r := NewNode(node, info.portGuid, 0);
    }

    // find_mcpath; Nothing and Failed are NULL.
    method FindMcPath(start: DrPath) returns (o: Outcome)
      requires Valid() && Repr == {} && root == null && PathOk(start) && 0 <= start.cnt < PATH_SIZE && log == [] && asked == 0
      modifies this
      ensures Valid() && log != [] && log[0] == AskNode(Hops(start)) && (nodeReply(0).Some? ==> StartedOn(start))
      ensures o == Nothing ==> Complete()
      ensures nodeReply(0).Some? && !StartsAtTarget(0) ==> Book(Now(), log, Repr) && Result(o) && root != null
      ensures o.Found? && !StartsAtTarget(0) ==> o.node.upnode != null && o.node.upnode in Repr
      ensures o == Overrun ==> root != null && !root.isSwitch && MayOverrun(start)
      ensures o.Found? ==> Rooted(o.node) && o.node.dist == -1 && PathLeads(o.node, leaf, Hops(start))
      ensures StartsAtTarget(0) ==> if TakesIn(0) then o.Found? && o.node.upnode == null else o == Failed
      ensures o.Found? && !StartsAtTarget(0) ==> Printable(o.node) && root != null && Reaches(o.node, root, o.node.level)
      ensures Chained(start.p[start.cnt]) && MayOverrun(start) ==> o == Overrun
    {
      var info := nodeReply(asked);
      asked, log := asked + 1, log + [AskNode(Hops(start))];
      if info.None? {
        return Failed;
      }
      var r, node := PlaceStart(start, info.value);
      if r == FoundTarget {
        o := AtTarget(node);
      } else {
        RootAsked(Now(), log, node);
        o := Search(start.cnt);
      }
    }

    // What the first reply and the start path say of the start
    ghost predicate StartedOn(start: DrPath)
      requires PathOk(start) && 0 <= start.cnt < PATH_SIZE && nodeReply(0).Some?
      reads this
    {
      var info := nodeReply(0).value;
      from == Hops(start) && hop == start.p[start.cnt] && rootPort == info.portnum && (leaf <==> !info.isSwitch && hop != 0)
    }

    // The first reply is from the target.
    predicate StartsAtTarget(n: nat) {
      nodeReply(n).Some? && nodeReply(n).value.portGuid == target
    }

    // It is a switch that forwards the group to its port 0.
    predicate TakesIn(n: nat) {
      nodeReply(n).Some? && nodeReply(n).value.isSwitch && mapReply(n + 1).Some? && 0 in mapReply(n + 1).value
    }

    // The start is the target.
    method AtTarget(node: McNode) returns (o: Outcome)
      requires PathOk(node.path) && 0 <= node.path.cnt < PATH_SIZE
      modifies this`asked, this`log
      ensures old(log) <= log
      ensures o == if node.isSwitch && mapReply(old(asked)).Some? && 0 in mapReply(old(asked)).value then Found(node) else Failed
    {
      if !node.isSwitch {
        return Failed;
      }
      var reply := mapReply(asked);
      asked, log := asked + 1, log + [AskMap(Hops(node.path))];
      if reply.None? || 0 !in reply.value {
        return Failed;
      }
      return Found(node);
    }
  }

  // ---------------------------------------------------------------------------
  // Printing the path

  // The lines of dump_mcpath: one for the start, one for every link, one for the target
  datatype Line = FromLine(guid: nat) | HopLine(outport: nat, guid: nat, upport: nat) | ToLine(guid: nat)

  // The remoteport of the port of a node is the port of upnode that led to it.  The line
  // of a link shows its number: without an upnode it is NULL.
  function LinkLine(node: McNode): Option<Line>
    reads node
  {
    if node.upnode == null then None else Some(HopLine(node.outport, node.guid, node.upport))
  }

  // dump_mcpath calls itself for upnode first.  It prints one line for each node from the
  // root down, and one more for the target.  None stands for a read through NULL, which
  // happens exactly when the node at the root does not have distance 0.
  method DumpMcPath(node: McNode) returns (lines: Option<seq<Line>>)
    requires Rooted(node)
    ensures lines.None? <==> Ancestry(node)[0].dist != 0
    ensures Printable(node) ==> lines.Some? && Prints(lines.value, node)
    decreases node.level
  {
    var above := [];
    if node.upnode != null {
      AncestryOfChild(node);
      lines := DumpMcPath(node.upnode);
      if lines.None? {
        return;
      }
      above := lines.value;
    }
    if node.dist == 0 {
      return Some(above + [FromLine(node.guid)]);
    }
    var link := LinkLine(node);
    if link.None? {
      return None;
    }
    lines := Some(above + [link.value] + if node.dist < 0 then [ToLine(node.guid)] else []);
    if Printable(node) { PrintsMore(above, node); }
  }

  lemma PrintsMore(above: seq<Line>, n: McNode)
    requires Rooted(n) && n.upnode != null && Printable(n) && Prints(above, n.upnode)
    ensures Prints(above + [HopLine(n.outport, n.guid, n.upport)] + (if n.dist < 0 then [ToLine(n.guid)] else []), n)
  {
    AncestryOfChild(n);
    assert forall k :: 0 <= k <= n.upnode.level ==> Ancestry(n)[k] == Ancestry(n.upnode)[k];
  }

  // One line for each node from the root down to n, and one for a target
  ghost predicate Prints(lines: seq<Line>, node: McNode)
    requires Rooted(node)
    reads Ancestry(node)
  {
    && |lines| == node.level + (if node.dist == -1 then 2 else 1)
    && lines[0] == FromLine(Ancestry(node)[0].guid)
    && (forall k :: 1 <= k <= node.level ==>
          lines[k] == HopLine(Ancestry(node)[k].outport, Ancestry(node)[k].guid, Ancestry(node)[k].upport))
    && (node.dist == -1 ==> lines[node.level + 1] == ToLine(node.guid))
  }

  lemma AncestryOfChild(n: McNode)
    requires Rooted(n) && n.upnode != null
    ensures Ancestry(n) == Ancestry(n.upnode) + [n] && Ancestry(n)[0] == Ancestry(n.upnode)[0]
    ensures Printable(n) ==> Counts(n.upnode)
  {
  }

  // ---------------------------------------------------------------------------
  // From the first query to the last line

  // main of ibtracert for a multicast group.  The trace reads through NULL exactly when
  // the start is its own target and a switch that takes the group in.
  method Trace(scan: McScan, start: DrPath) returns (o: Outcome, lines: Option<seq<Line>>)
    requires scan.Valid() && scan.Repr == {} && scan.root == null && PathOk(start) && 0 <= start.cnt < PATH_SIZE && scan.log == [] && scan.asked == 0
    modifies scan
    ensures o.Found? && lines.None? <==> scan.StartsAtTarget(0) && scan.TakesIn(0)
    ensures o.Found? && lines.Some? ==> Rooted(o.node) && Prints(lines.value, o.node)
  {
    lines := None;
    o := scan.FindMcPath(start);
    if o.Found? {
      lines := DumpMcPath(o.node);
    }
  }

  // A switch that traces the path to itself
  method TraceToItself() returns (o: Outcome, lines: Option<seq<Line>>)
    ensures o.Found? && lines.None?
  {
    var reply, group: set<nat>, hops: seq<nat> := NodeReply(1, true, 2, 7, 0), {0}, seq(PATH_SIZE, k => 0);
    var scan := new McScan(7, n => Some(reply), n => Some(true), n => Some(group));
    o, lines := Trace(scan, DrPath(0, hops));
  }

  // Whether the search can leave nodesdist is decided by the start path: against a chain
  // of switches behind a CA it does so exactly for these paths, and against other fabrics
  // for no others.
  method ChainOverruns(target: nat, start: DrPath) returns (o: Outcome)
    requires PathOk(start) && 0 <= start.cnt < PATH_SIZE
    ensures o == Overrun <==> MayOverrun(start)
  {
    var out := OutOf(start.p[start.cnt]);
    var scan := new McScan(target, (n: nat) => Some(ChainReply(target, n)), n => Some(true), n => Some({out}));
    o := scan.FindMcPath(start);
  }
}
