// What a search has asked: the queries in their order, with the routes that they went
// over, and what they and their replies say of the nodes in the tree.
module McLog {
  import opened Wrappers
  import opened McNodes

  // get_node, get_port and switch_mclookup, by the route that the query goes over
  datatype Query = AskNode(route: seq<nat>) | AskLink(route: seq<nat>, port: nat) | AskMap(route: seq<nat>)

  // What a search runs with: the target, the replies by number, and its start
  datatype Setting = Setting(target: nat, nodeReply: nat -> Option<NodeReply>, linkReply: nat -> Option<bool>,
                             mapReply: nat -> Option<set<nat>>, leaf: bool, from: seq<nat>, hop: nat, rootPort: nat)

  // The root of a search that starts on a leaf: it is left over the hop that leads to it.
  ghost predicate LeftOverHop(g: Setting, n: McNode) {
    g.leaf && n.level == 0
  }

  // The route to what lies beyond port i of a node
  ghost function BeyondOf(g: Setting, n: McNode, i: nat): seq<nat>
    requires Rooted(n)
  {
    if LeftOverHop(g, n) then (if g.from == [] then [] else g.from[..|g.from| - 1]) else RouteOf(n, g.leaf, g.from) + [i]
  }

  // The port of a node that is not followed, for it leads back; 0 for none
  ghost function Skip(g: Setting, n: McNode): nat {
    if n.level == 0 then 0 else if g.leaf && n.level == 1 then g.hop else n.entry
  }

  // The ports that the group is forwarded to, as the node said; the root on a CA or router
  // has the port that the search came by.
  ghost predicate PortsKnown(g: Setting, log: seq<Query>, n: McNode, ports: set<nat>) {
    && Rooted(n)
    && if n.isSwitch then exists q :: 0 <= q < |log| && log[q] == AskMap(RouteOf(n, g.leaf, g.from)) && g.mapReply(q) == Some(ports)
       else n.level == 0 && ports == {g.rootPort}
  }

  ghost predicate MayFollow(g: Setting, log: seq<Query>, n: McNode, i: nat) {
    1 <= i <= n.numports && i != Skip(g, n) && exists ports :: PortsKnown(g, log, n, ports) && i in ports
  }

  // The query before query q is for the link of port i, which is up.
  ghost predicate LinkIsUp(g: Setting, log: seq<Query>, q: nat, n: McNode, i: nat) {
    Rooted(n) && 0 < q <= |log| && log[q - 1] == AskLink(RouteOf(n, g.leaf, g.from), i) && g.linkReply(q - 1) == Some(true)
  }

  // The node beyond port i of n may be asked for by query q: the group is forwarded to the
  // port and its link is up.
  ghost predicate MayEnter(g: Setting, log: seq<Query>, q: nat, n: McNode, i: nat) {
    MayFollow(g, log, n, i) && (LeftOverHop(g, n) || LinkIsUp(g, log, q, n, i))
  }

  // The query goes to a node of the tree, to one of its ports, or to what lies beyond it.
  ghost predicate Reason(g: Setting, log: seq<Query>, q: nat, n: McNode, i: nat)
    requires q < |log|
  {
    && Rooted(n)
    && match log[q] {
         case AskMap(route) => n.isSwitch && route == RouteOf(n, g.leaf, g.from)
         case AskLink(route, port) => route == RouteOf(n, g.leaf, g.from) && port == i && !LeftOverHop(g, n) && MayFollow(g, log, n, i)
         case AskNode(route) => route == BeyondOf(g, n, i) && MayEnter(g, log, q, n, i)
       }
  }

  // The first query is for the start; every other one has a reason.
  ghost predicate Grounded(g: Setting, log: seq<Query>, q: nat, nodes: set<McNode>)
    requires q < |log|
  {
    if q == 0 then log[q] == AskNode(g.from) else exists n, i :: n in nodes && Reason(g, log, q, n, i)
  }

  ghost predicate MadeFrom(info: Option<NodeReply>, n: McNode) {
    info.Some? && n.guid == info.value.guid && n.isSwitch == info.value.isSwitch && n.numports == info.value.numports && n.entry == info.value.portnum
  }

  // Query q found the node.
  ghost predicate BornBy(g: Setting, log: seq<Query>, q: nat, n: McNode)
    requires q < |log|
  {
    && Rooted(n) && log[q] == AskNode(RouteOf(n, g.leaf, g.from)) && MadeFrom(g.nodeReply(q), n)
    && if n.upnode == null then q == 0 else MayEnter(g, log, q, n.upnode, n.outport)
  }

  ghost predicate Born(g: Setting, log: seq<Query>, n: McNode) {
    exists q :: 0 <= q < |log| && BornBy(g, log, q, n)
  }

  ghost predicate BookOf(g: Setting, log: seq<Query>, nodes: set<McNode>) {
    && (forall q :: 0 <= q < |log| ==> Grounded(g, log, q, nodes))
    && (forall n :: n in nodes ==> Born(g, log, n))
  }

  // BookOf, unfolded only where it is named
  ghost predicate Book(g: Setting, log: seq<Query>, nodes: set<McNode>) {
    forall h {:trigger BookOf(h, log, nodes)} :: h == g ==> BookOf(h, log, nodes)
  }

  ghost predicate HasGuid(nodes: set<McNode>, guid: nat) {
    exists n :: n in nodes && n.guid == guid
  }

  // No reply is from the target, and every node that answered is in the tree.
  ghost predicate NoTargetIn(g: Setting, log: seq<Query>, nodes: set<McNode>) {
    forall q :: 0 <= q < |log| && log[q].AskNode? && g.nodeReply(q).Some? ==>
      g.nodeReply(q).value.portGuid != g.target && HasGuid(nodes, g.nodeReply(q).value.guid)
  }

  // NoTargetIn, unfolded only where it is named
  ghost predicate NoTarget(g: Setting, log: seq<Query>, nodes: set<McNode>) {
    forall h {:trigger NoTargetIn(h, log, nodes)} :: h == g ==> NoTargetIn(h, log, nodes)
  }

  // A reply made the node, and it is from the target.
  ghost predicate FoundBy(g: Setting, log: seq<Query>, n: McNode) {
    exists q :: 0 <= q < |log| && BornBy(g, log, q, n) && g.nodeReply(q).value.portGuid == g.target
  }

  // Port i of a node has been followed: its link has been asked for and, if it is up, the
  // node beyond it.
  ghost predicate Followed(g: Setting, log: seq<Query>, n: McNode, i: nat) {
    Rooted(n) && exists q :: 0 <= q < |log| && FollowedAt(g, log, q, n, i)
  }

  ghost predicate FollowedAt(g: Setting, log: seq<Query>, q: nat, n: McNode, i: nat)
    requires q < |log| && Rooted(n)
  {
    if LeftOverHop(g, n) then log[q] == AskNode(BeyondOf(g, n, i))
    else
      && log[q] == AskLink(RouteOf(n, g.leaf, g.from), i) && g.linkReply(q).Some?
      && (g.linkReply(q).value ==> q + 1 < |log| && log[q + 1] == AskNode(BeyondOf(g, n, i)))
  }

  ghost predicate AllFollowed(g: Setting, log: seq<Query>, n: McNode, ports: set<nat>) {
    forall i :: 1 <= i <= n.numports && i in ports && i != Skip(g, n) ==> Followed(g, log, n, i)
  }

  // The ports below end
  ghost predicate FollowedTo(g: Setting, log: seq<Query>, n: McNode, ports: set<nat>, end: nat) {
    forall h {:trigger FollowedIn(h, log, n, ports, end)} :: h == g ==> FollowedIn(h, log, n, ports, end)
  }

  ghost predicate FollowedIn(g: Setting, log: seq<Query>, n: McNode, ports: set<nat>, end: nat) {
    forall i :: 1 <= i < end && i <= n.numports && i in ports && i != Skip(g, n) ==> Followed(g, log, n, i)
  }

  // The search is through with a node: a switch has been asked for the ports that it
  // forwards the group to and, if it answered, all of them but the one that leads back have
  // been followed.
  ghost predicate Done(g: Setting, log: seq<Query>, n: McNode) {
    && Rooted(n)
    && if n.isSwitch then
         exists q :: 0 <= q < |log| && log[q] == AskMap(RouteOf(n, g.leaf, g.from)) &&
           (g.mapReply(q).Some? ==> AllFollowed(g, log, n, g.mapReply(q).value))
       else n.level == 0 ==> AllFollowed(g, log, n, {g.rootPort})
  }

  // ---------------------------------------------------------------------------
  // What is known stays known.

  lemma PortsKnownLater(g: Setting, log: seq<Query>, more: seq<Query>, n: McNode, ports: set<nat>)
    requires PortsKnown(g, log, n, ports) && log <= more
    ensures PortsKnown(g, more, n, ports)
  {
    if n.isSwitch {
      var q :| 0 <= q < |log| && log[q] == AskMap(RouteOf(n, g.leaf, g.from)) && g.mapReply(q) == Some(ports);
      assert more[q] == log[q];
    }
  }

  lemma MayFollowLater(g: Setting, log: seq<Query>, more: seq<Query>, n: McNode, i: nat)
    requires MayFollow(g, log, n, i) && log <= more
    ensures MayFollow(g, more, n, i)
  {
    var ports :| PortsKnown(g, log, n, ports) && i in ports;
    PortsKnownLater(g, log, more, n, ports);
  }

  lemma MayEnterLater(g: Setting, log: seq<Query>, more: seq<Query>, q: nat, n: McNode, i: nat)
    requires MayEnter(g, log, q, n, i) && q <= |log| && log <= more
    ensures MayEnter(g, more, q, n, i)
  {
    MayFollowLater(g, log, more, n, i);
    if !LeftOverHop(g, n) { assert more[q - 1] == log[q - 1]; }
  }

  lemma ReasonLater(g: Setting, log: seq<Query>, more: seq<Query>, q: nat, n: McNode, i: nat)
    requires q < |log| && Reason(g, log, q, n, i) && log <= more
    ensures Reason(g, more, q, n, i)
  {
    assert more[q] == log[q];
    match log[q]
    case AskMap(route) =>
    case AskLink(route, port) => MayFollowLater(g, log, more, n, i);
    case AskNode(route) => MayEnterLater(g, log, more, q, n, i);
  }

  lemma GroundedLater(g: Setting, log: seq<Query>, more: seq<Query>, q: nat, nodes: set<McNode>, after: set<McNode>)
    requires q < |log| && Grounded(g, log, q, nodes) && log <= more && nodes <= after
    ensures Grounded(g, more, q, after)
  {
    assert more[q] == log[q];
    if q > 0 {
      var n, i :| n in nodes && Reason(g, log, q, n, i);
      ReasonLater(g, log, more, q, n, i);
    }
  }

  lemma BornByLater(g: Setting, log: seq<Query>, more: seq<Query>, q: nat, n: McNode)
    requires q < |log| && BornBy(g, log, q, n) && log <= more
    ensures BornBy(g, more, q, n)
  {
    assert more[q] == log[q];
    if n.upnode != null { MayEnterLater(g, log, more, q, n.upnode, n.outport); }
  }

  lemma BornLater(g: Setting, log: seq<Query>, more: seq<Query>, n: McNode)
    requires Born(g, log, n) && log <= more
    ensures Born(g, more, n)
  {
    var q :| 0 <= q < |log| && BornBy(g, log, q, n);
    BornByLater(g, log, more, q, n);
  }

  lemma FollowedLater(g: Setting, log: seq<Query>, more: seq<Query>, n: McNode, i: nat)
    requires Followed(g, log, n, i) && log <= more
    ensures Followed(g, more, n, i)
  {
    var q :| 0 <= q < |log| && FollowedAt(g, log, q, n, i);
    assert more[q] == log[q] && (q + 1 < |log| ==> more[q + 1] == log[q + 1]);
    assert FollowedAt(g, more, q, n, i);
  }

  lemma AllFollowedLater(g: Setting, log: seq<Query>, more: seq<Query>, n: McNode, ports: set<nat>)
    requires AllFollowed(g, log, n, ports) && log <= more
    ensures AllFollowed(g, more, n, ports)
  {
    forall i | 1 <= i <= n.numports && i in ports && i != Skip(g, n)
      ensures Followed(g, more, n, i)
    {
      FollowedLater(g, log, more, n, i);
    }
  }

  lemma FollowedToNone(g: Setting, log: seq<Query>, n: McNode, ports: set<nat>)
    ensures FollowedTo(g, log, n, ports, 1)
  {
  }

  lemma FollowedToSkip(g: Setting, log: seq<Query>, n: McNode, ports: set<nat>, end: nat)
    requires FollowedTo(g, log, n, ports, end) && (end in ports ==> end == Skip(g, n))
    ensures FollowedTo(g, log, n, ports, end + 1)
  {
    assert FollowedIn(g, log, n, ports, end);
  }

  lemma FollowedToNext(g: Setting, log: seq<Query>, more: seq<Query>, n: McNode, ports: set<nat>, end: nat)
    requires FollowedTo(g, log, n, ports, end) && log <= more && Followed(g, more, n, end)
    ensures FollowedTo(g, more, n, ports, end + 1)
  {
    assert FollowedIn(g, log, n, ports, end);
    forall i | 1 <= i < end && i <= n.numports && i in ports && i != Skip(g, n)
      ensures Followed(g, more, n, i)
    {
      FollowedLater(g, log, more, n, i);
    }
  }

  lemma FollowedToAll(g: Setting, log: seq<Query>, n: McNode, ports: set<nat>, end: nat)
    requires FollowedTo(g, log, n, ports, end) && n.numports < end
    ensures AllFollowed(g, log, n, ports)
  {
    assert FollowedIn(g, log, n, ports, end);
  }

  lemma DoneLater(g: Setting, log: seq<Query>, more: seq<Query>, n: McNode)
    requires Done(g, log, n) && log <= more
    ensures Done(g, more, n)
  {
    if n.isSwitch {
      var q :| 0 <= q < |log| && log[q] == AskMap(RouteOf(n, g.leaf, g.from)) &&
        (g.mapReply(q).Some? ==> AllFollowed(g, log, n, g.mapReply(q).value));
      assert more[q] == log[q];
      if g.mapReply(q).Some? { AllFollowedLater(g, log, more, n, g.mapReply(q).value); }
    } else if n.level == 0 {
      AllFollowedLater(g, log, more, n, {g.rootPort});
    }
  }

  // ---------------------------------------------------------------------------
  // One query more

  lemma BookMore(g: Setting, log: seq<Query>, nodes: set<McNode>, query: Query, after: set<McNode>)
    requires Book(g, log, nodes) && nodes <= after && Grounded(g, log + [query], |log|, after)
    requires forall n :: n in after - nodes ==> Born(g, log + [query], n)
    ensures Book(g, log + [query], after)
  {
    var more := log + [query];
    assert BookOf(g, log, nodes);
    forall q | 0 <= q < |more|
      ensures Grounded(g, more, q, after)
    {
      if q < |log| { GroundedLater(g, log, more, q, nodes, after); }
    }
    forall n | n in after
      ensures Born(g, more, n)
    {
      if n in nodes { BornLater(g, log, more, n); }
    }
  }

  lemma MapAsked(g: Setting, log: seq<Query>, nodes: set<McNode>, n: McNode)
    requires Book(g, log, nodes) && n in nodes && Rooted(n) && n.isSwitch && log != []
    ensures Book(g, log + [AskMap(RouteOf(n, g.leaf, g.from))], nodes)
    ensures NoTarget(g, log, nodes) ==> NoTarget(g, log + [AskMap(RouteOf(n, g.leaf, g.from))], nodes)
  {
    var query := AskMap(RouteOf(n, g.leaf, g.from));
    assert Reason(g, log + [query], |log|, n, 0);
    BookMore(g, log, nodes, query, nodes);
    if NoTarget(g, log, nodes) { NoTargetMore(g, log, nodes, query, nodes); }
  }

  lemma LinkAsked(g: Setting, log: seq<Query>, nodes: set<McNode>, n: McNode, i: nat)
    requires Book(g, log, nodes) && n in nodes && Rooted(n) && MayFollow(g, log, n, i) && !LeftOverHop(g, n) && log != []
    ensures Book(g, log + [AskLink(RouteOf(n, g.leaf, g.from), i)], nodes)
    ensures NoTarget(g, log, nodes) ==> NoTarget(g, log + [AskLink(RouteOf(n, g.leaf, g.from), i)], nodes)
    ensures MayFollow(g, log + [AskLink(RouteOf(n, g.leaf, g.from), i)], n, i)
  {
    var query := AskLink(RouteOf(n, g.leaf, g.from), i);
    MayFollowLater(g, log, log + [query], n, i);
    assert Reason(g, log + [query], |log|, n, i);
    BookMore(g, log, nodes, query, nodes);
    if NoTarget(g, log, nodes) { NoTargetMore(g, log, nodes, query, nodes); }
  }

  // What the reply to a query for the node beyond port i of n makes of the tree
  ghost predicate Settled(info: Option<NodeReply>, target: nat, before: set<McNode>, after: set<McNode>, n: McNode, i: nat, o: Outcome) {
    && (o.Found? <==> info.Some? && info.value.portGuid == target)
    && (o.Found? ==> after == before && NewBeyond(info, n, i, o.node))
    && before <= after && (forall m :: m in after - before ==> NewBeyond(info, n, i, m))
    && (o == Nothing && info.Some? ==> HasGuid(after, info.value.guid))
  }

  ghost predicate NewBeyond(info: Option<NodeReply>, n: McNode, i: nat, m: McNode) {
    Rooted(m) && m.upnode == n && m.outport == i && MadeFrom(info, m)
  }

  lemma NewBornBy(g: Setting, log: seq<Query>, q: nat, n: McNode, i: nat, m: McNode)
    requires q < |log| && Rooted(n) && log[q] == AskNode(BeyondOf(g, n, i)) && MayEnter(g, log, q, n, i) && NewBeyond(g.nodeReply(q), n, i, m)
    ensures BornBy(g, log, q, m)
  {
  }

  lemma NodeAsked(g: Setting, log: seq<Query>, before: set<McNode>, after: set<McNode>, n: McNode, i: nat, o: Outcome)
    requires Book(g, log, before) && n in before && Rooted(n) && MayEnter(g, log, |log|, n, i) && log != []
    requires Settled(g.nodeReply(|log|), g.target, before, after, n, i, o)
    ensures var more := log + [AskNode(BeyondOf(g, n, i))];
      && Book(g, more, after) && (o.Found? ==> FoundBy(g, more, o.node))
      && (o == Nothing && NoTarget(g, log, before) ==> NoTarget(g, more, after))
  {
    var query := AskNode(BeyondOf(g, n, i));
    var more := log + [query];
    MayEnterLater(g, log, more, |log|, n, i);
    assert more[|log|] == query;
    assert Reason(g, more, |log|, n, i);
    forall m | m in after - before
      ensures Born(g, more, m)
    {
      NewBornBy(g, more, |log|, n, i, m);
    }
    BookMore(g, log, before, query, after);
    if o.Found? { NewBornBy(g, more, |log|, n, i, o.node); }
    if o == Nothing && NoTarget(g, log, before) { NoTargetMore(g, log, before, query, after); }
  }

  lemma NoTargetMore(g: Setting, log: seq<Query>, before: set<McNode>, query: Query, after: set<McNode>)
    requires NoTarget(g, log, before) && before <= after
    requires var info := g.nodeReply(|log|); query.AskNode? && info.Some? ==> info.value.portGuid != g.target && HasGuid(after, info.value.guid)
    ensures NoTarget(g, log + [query], after)
  {
    var more := log + [query];
    assert NoTargetIn(g, log, before);
    forall q | 0 <= q < |more| && more[q].AskNode? && g.nodeReply(q).Some?
      ensures g.nodeReply(q).value.portGuid != g.target && HasGuid(after, g.nodeReply(q).value.guid)
    {
      if q < |log| {
        assert more[q] == log[q];
        var n :| n in before && n.guid == g.nodeReply(q).value.guid;
        assert n in after;
      }
    }
  }

  // The queries of the turn for port i of a node: for its link, unless the search started
  // there on a leaf, and for what lies beyond it
  ghost function LinkTurn(g: Setting, n: McNode, i: nat): seq<Query>
    requires Rooted(n)
  {
    if LeftOverHop(g, n) then [] else [AskLink(RouteOf(n, g.leaf, g.from), i)]
  }

  ghost function NodeTurn(g: Setting, n: McNode, i: nat, go: Option<bool>): seq<Query>
    requires Rooted(n)
  {
    if go == Some(true) then [AskNode(BeyondOf(g, n, i))] else []
  }

  // The answer for the link; None also stands for a path that is full.
  ghost predicate LinkAnswer(g: Setting, q: nat, n: McNode, go: Option<bool>) {
    && Rooted(n)
    && if LeftOverHop(g, n) then go == Some(true)
       else if go.Some? then g.linkReply(q) == go
       else g.linkReply(q).None? || |RouteOf(n, g.leaf, g.from)| + 2 >= PATH_SIZE
  }

  // The last query is for a link: it was not answered, or the path is full.
  ghost predicate Stuck(g: Setting, log: seq<Query>) {
    && log != [] && log[|log| - 1].AskLink?
    && (g.linkReply(|log| - 1).None? || |log[|log| - 1].route| + 2 >= PATH_SIZE)
  }

  lemma LinkTaken(g: Setting, log: seq<Query>, nodes: set<McNode>, n: McNode, i: nat, go: Option<bool>)
    requires Book(g, log, nodes) && NoTarget(g, log, nodes) && n in nodes && Rooted(n) && MayFollow(g, log, n, i) && log != []
    requires LinkAnswer(g, |log|, n, go)
    ensures var mid := log + LinkTurn(g, n, i);
      && Book(g, mid, nodes) && NoTarget(g, mid, nodes)
      && (go == Some(true) ==> MayEnter(g, mid, |mid|, n, i)) && mid != []
      && (go == Some(false) ==> Followed(g, mid, n, i))
  {
    var mid := log + LinkTurn(g, n, i);
    if LeftOverHop(g, n) {
      assert mid == log;
    } else {
      LinkAsked(g, log, nodes, n, i);
      assert mid[|log|] == AskLink(RouteOf(n, g.leaf, g.from), i);
      if go == Some(false) { assert FollowedAt(g, mid, |log|, n, i); }
    }
  }

  lemma NodeTaken(g: Setting, mid: seq<Query>, before: set<McNode>, after: set<McNode>, n: McNode, i: nat, o: Outcome)
    requires Book(g, mid, before) && NoTarget(g, mid, before) && n in before && Rooted(n) && MayEnter(g, mid, |mid|, n, i) && mid != []
    requires Settled(g.nodeReply(|mid|), g.target, before, after, n, i, o)
    ensures var more := mid + [AskNode(BeyondOf(g, n, i))];
      && Book(g, more, after) && (o.Found? ==> FoundBy(g, more, o.node))
      && (o == Nothing ==> NoTarget(g, more, after) && Followed(g, more, n, i))
  {
    NodeAsked(g, mid, before, after, n, i, o);
    var more := mid + [AskNode(BeyondOf(g, n, i))];
    assert more[|mid|] == AskNode(BeyondOf(g, n, i));
    if LeftOverHop(g, n) {
      assert FollowedAt(g, more, |mid|, n, i);
    } else {
      assert more[|mid| - 1] == mid[|mid| - 1];
      assert FollowedAt(g, more, |mid| - 1, n, i);
    }
  }

  lemma UpOrDown(up: bool)
    ensures Some(up) == Some(true) || Some(up) == Some(false)
  {
  }

  lemma TurnTaken(g: Setting, log: seq<Query>, more: seq<Query>, before: set<McNode>, after: set<McNode>, n: McNode, i: nat, go: Option<bool>,
    o: Outcome, q: nat)
    requires Book(g, log, before) && NoTarget(g, log, before) && n in before && Rooted(n) && MayFollow(g, log, n, i) && log != []
    requires LinkAnswer(g, |log|, n, go) && more == log + LinkTurn(g, n, i) + NodeTurn(g, n, i, go)
    requires q == |log + LinkTurn(g, n, i)|
    requires if go == Some(true) then Settled(g.nodeReply(q), g.target, before, after, n, i, o)
             else after == before && o == if go.None? then Failed else Nothing
    ensures log <= more && Book(g, more, after) && (o.Found? ==> FoundBy(g, more, o.node))
    ensures o == Nothing ==> NoTarget(g, more, after) && Followed(g, more, n, i)
    ensures go.None? ==> Stuck(g, more)
  {
    var mid := log + LinkTurn(g, n, i);
    LinkTaken(g, log, before, n, i, go);
    if go == Some(true) {
      NodeTaken(g, mid, before, after, n, i, o);
    } else {
      assert more == mid;
      if go.Some? { UpOrDown(go.value); }
    }
  }

  // ---------------------------------------------------------------------------
  // The nodes that the search is through with

  lemma SwitchDone(g: Setting, log: seq<Query>, q: nat, n: McNode)
    requires q < |log| && Rooted(n) && n.isSwitch && log[q] == AskMap(RouteOf(n, g.leaf, g.from))
    requires g.mapReply(q).Some? ==> AllFollowed(g, log, n, g.mapReply(q).value)
    ensures Done(g, log, n)
  {
  }

  lemma NodeDone(g: Setting, log: seq<Query>, n: McNode, ports: set<nat>)
    requires PortsKnown(g, log, n, ports) && AllFollowed(g, log, n, ports)
    ensures Done(g, log, n)
  {
    if n.isSwitch {
      var q :| 0 <= q < |log| && log[q] == AskMap(RouteOf(n, g.leaf, g.from)) && g.mapReply(q) == Some(ports);
      SwitchDone(g, log, q, n);
    }
  }

  // The levels above dist, and the first k nodes of a list
  ghost predicate DoneTo(g: Setting, log: seq<Query>, nodes: set<McNode>, dist: nat, list: seq<McNode>, k: nat)
    requires k <= |list|
  {
    forall h {:trigger DoneIn(h, log, nodes, dist, list, k)} :: h == g ==> DoneIn(h, log, nodes, dist, list, k)
  }

  ghost predicate DoneIn(g: Setting, log: seq<Query>, nodes: set<McNode>, dist: nat, list: seq<McNode>, k: nat)
    requires k <= |list|
  {
    forall n :: n in nodes && (n.level < dist || n in list[..k]) ==> Done(g, log, n)
  }

  lemma DoneToNext(g: Setting, log: seq<Query>, more: seq<Query>, nodes: set<McNode>, after: set<McNode>, dist: nat, list: seq<McNode>, k: nat)
    requires k < |list| && DoneTo(g, log, nodes, dist, list, k) && log <= more
    requires (forall j :: 0 <= j < |list| ==> list[j] in nodes) && (forall n :: n in after && n !in nodes ==> dist < n.level)
    requires Done(g, more, list[k])
    ensures DoneTo(g, more, after, dist, list, k + 1)
  {
    assert DoneIn(g, log, nodes, dist, list, k);
    forall n | n in after && (n.level < dist || n in list[..k + 1])
      ensures Done(g, more, n)
    {
      if n != list[k] {
        assert n in list[..k + 1] ==> n in list[..k];
        DoneLater(g, log, more, n);
      }
    }
  }

  lemma LevelDone(g: Setting, log: seq<Query>, nodes: set<McNode>, dist: nat, levels: seq<seq<McNode>>)
    requires LevelsOk(levels, nodes) && dist < MAXHOPS && DoneTo(g, log, nodes, dist, levels[dist], |levels[dist]|)
    ensures DoneTo(g, log, nodes, dist + 1, [], 0)
  {
    assert DoneIn(g, log, nodes, dist, levels[dist], |levels[dist]|);
    forall n | n in nodes && n.level < dist + 1
      ensures Done(g, log, n)
    {
      LevelOf(levels, nodes, dist);
      if n.level == dist { assert n in levels[dist][..|levels[dist]|]; }
    }
  }

  lemma DoneFirst(g: Setting, log: seq<Query>, nodes: set<McNode>, dist: nat, list: seq<McNode>)
    requires DoneTo(g, log, nodes, dist, [], 0)
    ensures DoneTo(g, log, nodes, dist, list, 0)
  {
    assert DoneIn(g, log, nodes, dist, [], 0);
  }

  lemma AllDone(g: Setting, log: seq<Query>, nodes: set<McNode>)
    requires DoneTo(g, log, nodes, MAXHOPS, [], 0) && forall n :: n in nodes ==> n.level < MAXHOPS
    ensures forall n :: n in nodes ==> Done(g, log, n)
  {
    assert DoneIn(g, log, nodes, MAXHOPS, [], 0);
  }

  lemma FirstIsNode(g: Setting, log: seq<Query>, nodes: set<McNode>)
    requires Book(g, log, nodes) && log != []
    ensures log[0] == AskNode(g.from)
  {
    assert BookOf(g, log, nodes) && Grounded(g, log, 0, nodes);
  }

  // The first query is for the start, which becomes the root.
  lemma RootAsked(g: Setting, log: seq<Query>, n: McNode)
    requires log == [AskNode(g.from)] && Rooted(n) && n.upnode == null && n.outport == 0 && MadeFrom(g.nodeReply(0), n)
    requires g.nodeReply(0).value.portGuid != g.target
    ensures Book(g, log, {n}) && NoTarget(g, log, {n})
  {
    assert n.level == 0 && BornBy(g, log, 0, n) && log[0] == AskNode(g.from);
  }
}
