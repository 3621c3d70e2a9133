// The tree of switches that src/ibtracert.c grows to trace a multicast path, as data: its
// nodes, the paths to them, and the lists and hash chains that hold them.
module McNodes {
  import opened Wrappers
  import opened Tables

  // MAXHOPS, the length of nodesdist
  const MAXHOPS := 63

  const PATH_SIZE := 64

  // ib_dr_path_t
  datatype DrPath = DrPath(cnt: int, p: seq<nat>)

  ghost predicate PathOk(path: DrPath) { |path.p| == PATH_SIZE }

  // extend_dpath; cnt is compared as an unsigned number.
  function ExtendPath(path: DrPath, port: nat): (r: Option<DrPath>)
    requires PathOk(path)
    ensures r.Some? <==> 0 <= path.cnt + 2 < PATH_SIZE && path.cnt + 1 >= 0
    ensures r.Some? ==> PathOk(r.value) && r.value.cnt == path.cnt + 1
  {
    if path.cnt + 1 < 0 || path.cnt + 2 >= PATH_SIZE then None
    else Some(DrPath(path.cnt + 1, path.p[path.cnt + 1 := port]))
  }

  // The hops of a path
  function Hops(path: DrPath): seq<nat>
    requires 0 <= path.cnt < |path.p|
  {
    path.p[1..path.cnt + 1]
  }

  // Stepping back over a hop
  lemma ExtendHops(path: DrPath, port: nat)
    requires PathOk(path) && 0 <= path.cnt && ExtendPath(path, port).Some?
    ensures var ext := ExtendPath(path, port).value;
      Hops(ext) == Hops(path) + [port] && Hops(ext.(cnt := ext.cnt - 1)) == Hops(path)
  {
  }

  // The reply to get_node: NodeInfo and the PortInfo of the port it came in by
  datatype NodeReply = NodeReply(guid: nat, isSwitch: bool, numports: nat, portGuid: nat, portnum: nat)

  class McNode {
    const guid: nat
    const isSwitch: bool
    const numports: nat
    const upnode: McNode?
    const outport: nat        // the port of upnode that leads here
    ghost const level: nat
    ghost const entry: nat    // the port by which the search came in
    const dist: int           // what new_node sets: the level, or -1 for the target
    var upport: nat
    var path: DrPath

    constructor (info: NodeReply, upnode: McNode?, outport: nat, path: DrPath, dist: int)
      requires upnode != null ==> Rooted(upnode)
      ensures Rooted(this) && this.upnode == upnode && this.outport == outport && this.path == path && this.dist == dist
      ensures level == (if upnode == null then 0 else upnode.level + 1)
      ensures guid == info.guid && isSwitch == info.isSwitch && numports == info.numports
      ensures upport == (if upnode == null then 0 else info.portnum) && entry == info.portnum
    {
      guid, isSwitch, numports := info.guid, info.isSwitch, info.numports;
      this.upnode, this.outport, this.path, this.dist := upnode, outport, path, dist;
      level, entry := if upnode == null then 0 else upnode.level + 1, info.portnum;
      upport := if upnode == null then 0 else info.portnum;
    }
  }

  // Levels count the upnode steps to a node without upnode.
  ghost predicate Rooted(n: McNode)
    decreases n.level
  {
    if n.upnode == null then n.level == 0 else n.level == n.upnode.level + 1 && Rooted(n.upnode)
  }

  // Exactly d upnode steps lead from n to root.
  ghost predicate Reaches(n: McNode, root: McNode, d: nat)
    decreases d
  {
    if d == 0 then n == root else n.upnode != null && Reaches(n.upnode, root, d - 1)
  }

  // The nodes from the root down to n
  ghost function Ancestry(n: McNode): (r: seq<McNode>)
    requires Rooted(n)
    ensures |r| == n.level + 1 && r[n.level] == n
    decreases n.level
  {
    if n.upnode == null then [n] else Ancestry(n.upnode) + [n]
  }

  lemma {:induction false} AncestryLinks(n: McNode, k: nat)
    requires Rooted(n) && k < n.level
    ensures Ancestry(n)[k + 1].upnode == Ancestry(n)[k]
    decreases n.level
  {
    if k + 1 < n.level { AncestryLinks(n.upnode, k); }
  }

  // The route to a node: from the start, out of the ports that lead to it.  A start on a
  // leaf goes back to its switch first.
  ghost function RouteOf(n: McNode, leaf: bool, from: seq<nat>): (r: seq<nat>)
    requires Rooted(n)
    ensures |r| == if leaf && n.level > 0 then (if from == [] then 0 else |from| - 1) + n.level - 1 else |from| + n.level
    decreases n.level
  {
    if n.level == 0 then from
    else if leaf && n.level == 1 then (if from == [] then [] else from[..|from| - 1])
    else RouteOf(n.upnode, leaf, from) + [n.outport]
  }

  // dist counts the upnode steps, for n and all nodes above it.
  ghost predicate Counts(n: McNode)
    requires Rooted(n)
    decreases n.level
  {
    n.dist == n.level && (n.upnode != null ==> Counts(n.upnode))
  }

  // A node that dump_mcpath can print: one of the tree, or a target below it
  ghost predicate Printable(n: McNode)
    requires Rooted(n)
  {
    Counts(n) || (n.dist == -1 && n.upnode != null && Counts(n.upnode))
  }

  // ---------------------------------------------------------------------------
  // The tree

  // The hash chains hold the nodes, and no two of them share a GUID.
  ghost predicate TableIs(table: seq<seq<McNode>>, nodes: set<McNode>) {
    && |table| == HTSZ
    && (forall h, k :: 0 <= h < HTSZ && 0 <= k < |table[h]| ==> table[h][k] in nodes)
    && (forall n :: n in nodes ==> n in table[Bucket(n.guid)])
    && (forall n, m :: n in nodes && m in nodes && n.guid == m.guid ==> n == m)
  }

  // TableIs, and below LevelsAre, TreeIs and PathsLead, unfolded only where they are named
  ghost predicate TableOk(table: seq<seq<McNode>>, nodes: set<McNode>) {
    forall t {:trigger TableIs(t, nodes)} :: t == table ==> TableIs(t, nodes)
  }

  // Every node is on the list of its level and on no other.
  ghost predicate LevelsAre(levels: seq<seq<McNode>>, nodes: set<McNode>) {
    && |levels| == MAXHOPS
    && (forall d, k :: 0 <= d < MAXHOPS && 0 <= k < |levels[d]| ==> levels[d][k] in nodes && levels[d][k].level == d)
    && (forall n :: n in nodes ==> n.level < MAXHOPS && n in levels[n.level])
  }

  ghost predicate LevelsOk(levels: seq<seq<McNode>>, nodes: set<McNode>) {
    |levels| == MAXHOPS && forall l {:trigger LevelsAre(l, nodes)} :: l == levels ==> LevelsAre(l, nodes)
  }

  // Every node reaches the root in as many upnode steps as its dist says.
  ghost predicate TreeIs(nodes: set<McNode>, root: McNode?) {
    && (forall n :: n in nodes ==>
          Rooted(n) && Counts(n) && root != null && Reaches(n, root, n.level) && (n.upnode != null ==> n.upnode in nodes))
    && (root != null ==> root in nodes && root.level == 0)
  }

  ghost predicate TreeOk(nodes: set<McNode>, root: McNode?) {
    (forall n :: n in nodes ==> Rooted(n)) && forall s: set<McNode> {:trigger TreeIs(s, root)} :: s == nodes ==> TreeIs(s, root)
  }

  // The path of every node leads to it, apart from a start on a leaf, whose path is used up.
  ghost predicate PathsOk(nodes: set<McNode>, leaf: bool, from: seq<nat>)
    reads nodes`path
  {
    forall s: set<McNode> {:trigger PathsLead(s, leaf, from)} :: s == nodes ==> PathsLead(s, leaf, from)
  }

  ghost predicate PathsLead(nodes: set<McNode>, leaf: bool, from: seq<nat>)
    reads nodes`path
  {
    forall n :: n in nodes ==> Rooted(n) && ((leaf && n.level == 0) || PathLeads(n, leaf, from))
  }

  ghost predicate PathLeads(n: McNode, leaf: bool, from: seq<nat>)
    requires Rooted(n)
    reads n`path
  {
    PathOk(n.path) && 0 <= n.path.cnt < PATH_SIZE && Hops(n.path) == RouteOf(n, leaf, from)
  }

  lemma TreeMore(nodes: set<McNode>, root: McNode?, n: McNode, top: McNode?)
    requires TreeOk(nodes, root) && Rooted(n) && n.dist == n.level
    requires if n.level == 0 then nodes == {} && top == n else n.upnode in nodes && top == root
    ensures TreeOk(nodes + {n}, top)
  {
    assert TreeIs(nodes, root);
  }

  lemma TreeHas(nodes: set<McNode>, root: McNode?, n: McNode)
    requires TreeOk(nodes, root) && n in nodes
    ensures root != null && Counts(n) && Reaches(n, root, n.level) && (n.upnode != null ==> n.upnode in nodes)
    ensures root in nodes && root.level == 0
  {
    assert TreeIs(nodes, root);
  }

  lemma PathsBut(nodes: set<McNode>, n: McNode, leaf: bool, from: seq<nat>)
    requires PathsOk(nodes, leaf, from)
    ensures PathsOk(nodes - {n}, leaf, from) && (n in nodes && Rooted(n) && !(leaf && n.level == 0) ==> PathLeads(n, leaf, from))
  {
    assert PathsLead(nodes, leaf, from);
  }

  lemma PathsWith(nodes: set<McNode>, n: McNode, leaf: bool, from: seq<nat>)
    requires PathsOk(nodes - {n}, leaf, from) && Rooted(n) && ((leaf && n.level == 0) || PathLeads(n, leaf, from))
    ensures PathsOk(nodes, leaf, from) && PathsOk(nodes + {n}, leaf, from)
  {
    assert PathsLead(nodes - {n}, leaf, from);
  }

  lemma GuidsDiffer(table: seq<seq<McNode>>, nodes: set<McNode>, n: McNode, m: McNode)
    requires TableOk(table, nodes) && n in nodes && m in nodes && n.guid == m.guid
    ensures n == m
  {
    assert TableIs(table, nodes);
  }

  lemma LevelOf(levels: seq<seq<McNode>>, nodes: set<McNode>, d: nat)
    requires LevelsOk(levels, nodes) && d < MAXHOPS
    ensures forall k :: 0 <= k < |levels[d]| ==> levels[d][k] in nodes && levels[d][k].level == d
    ensures forall n :: n in nodes && n.level == d ==> n in levels[d]
  {
    assert LevelsAre(levels, nodes);
  }

  lemma LevelsBounded(levels: seq<seq<McNode>>, nodes: set<McNode>)
    requires LevelsOk(levels, nodes)
    ensures forall n :: n in nodes ==> n.level < MAXHOPS
  {
    assert LevelsAre(levels, nodes);
  }

  lemma EmptyLevels(levels: seq<seq<McNode>>, nodes: set<McNode>)
    requires LevelsOk(levels, nodes)
    ensures forall d :: 0 <= d < MAXHOPS && levels[d] != [] ==> nodes != {}
  {
    forall d | 0 <= d < MAXHOPS && levels[d] != []
      ensures nodes != {}
    {
      LevelOf(levels, nodes, d);
      assert levels[d][0] in nodes;
    }
  }

  lemma TableMore(table: seq<seq<McNode>>, nodes: set<McNode>, n: McNode)
    requires TableOk(table, nodes) && forall m :: m in nodes ==> m.guid != n.guid
    ensures var h := Bucket(n.guid); |table| == HTSZ && TableOk(table[h := [n] + table[h]], nodes + {n})
  {
    assert TableIs(table, nodes);
    var h := Bucket(n.guid);
    var table' := table[h := [n] + table[h]];
    forall m | m in nodes + {n}
      ensures m in table'[Bucket(m.guid)]
    {
      if m != n {
        assert m in table[Bucket(m.guid)];
      } else {
        assert table'[h][0] == n;
      }
    }
  }

  lemma LevelsMore(levels: seq<seq<McNode>>, nodes: set<McNode>, n: McNode)
    requires LevelsOk(levels, nodes) && n.level < MAXHOPS
    ensures LevelsOk(levels[n.level := [n] + levels[n.level]], nodes + {n})
  {
    assert LevelsAre(levels, nodes);
    var levels' := levels[n.level := [n] + levels[n.level]];
    forall m | m in nodes + {n}
      ensures m.level < MAXHOPS && m in levels'[m.level]
    {
      if m != n {
        assert m in levels[m.level];
      } else {
        assert levels'[n.level][0] == n;
      }
    }
  }

  datatype Placement = Known | Placed | FoundTarget | OutOfLevels

  datatype Outcome = Nothing | Failed | Found(node: McNode) | Overrun
}
