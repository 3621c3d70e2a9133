// The grouping of nodes into chassis by GUID class, passes 3 and 4 of group_nodes in
// libibnetdisc/src/chassis.c, in a fabric without Voltaire nodes.
module Chassis {
  import opened Wrappers

  // A node on the list of all nodes: its system image GUID, the class that
  // get_chassisguid puts it in, and whether an earlier pass set ch_found.
  datatype ChNode = ChNode(sysGuid: nat, class_: nat, taken: bool)

  // nodecount and chassisnum are one byte wide; nodes is the list of members, the latest
  // first.
  datatype ChassisRec = ChassisRec(guid: nat, nodecount: nat, num: nat, nodes: seq<nat>)

  const BYTE := 256

  predicate InClass(n: ChNode, guid: nat) { n.sysGuid != 0 && n.class_ == guid }

  // The size of a class among the first n nodes
  function ClassSize(ns: seq<ChNode>, guid: nat, n: nat): nat
    requires n <= |ns|
  {
    if n == 0 then 0 else ClassSize(ns, guid, n - 1) + if InClass(ns[n - 1], guid) then 1 else 0
  }

  // The members of a class among the first n nodes that no earlier pass took, the latest
  // first
  function FreeMembers(ns: seq<ChNode>, guid: nat, n: nat): seq<nat>
    requires n <= |ns|
  {
    if n == 0 then []
    else (if InClass(ns[n - 1], guid) && !ns[n - 1].taken then [n - 1] else []) + FreeMembers(ns, guid, n - 1)
  }

  // A class makes a chassis when its count, kept in a byte, is more than one.
  predicate Big(ns: seq<ChNode>, guid: nat) { ClassSize(ns, guid, |ns|) % BYTE > 1 }

  lemma {:induction false} FreeMembersAre(ns: seq<ChNode>, guid: nat, n: nat)
    requires n <= |ns|
    ensures forall k :: 0 <= k < |FreeMembers(ns, guid, n)| ==> FreeMembers(ns, guid, n)[k] < n
    ensures forall j, k :: 0 <= j < k < |FreeMembers(ns, guid, n)| ==> FreeMembers(ns, guid, n)[j] > FreeMembers(ns, guid, n)[k]
    ensures forall i :: i in FreeMembers(ns, guid, n) ==> i < n && InClass(ns[i], guid) && !ns[i].taken
    ensures forall i :: 0 <= i < n && InClass(ns[i], guid) && !ns[i].taken ==> i in FreeMembers(ns, guid, n)
    decreases n
  {
    if n > 0 { FreeMembersAre(ns, guid, n - 1); }
  }

  lemma {:induction false} ClassSizeGrows(ns: seq<ChNode>, guid: nat, n: nat, m: nat)
    requires n <= m <= |ns|
    ensures ClassSize(ns, guid, n) <= ClassSize(ns, guid, m)
    ensures forall i :: n <= i < m && InClass(ns[i], guid) ==> ClassSize(ns, guid, n) < ClassSize(ns, guid, m)
    decreases m
  {
    if n < m { ClassSizeGrows(ns, guid, n, m - 1); }
  }

  lemma {:induction false} ClassSizePositive(ns: seq<ChNode>, guid: nat, n: nat)
    requires n <= |ns|
    ensures ClassSize(ns, guid, n) > 0 <==> exists i :: 0 <= i < n && InClass(ns[i], guid)
    decreases n
  {
    if n > 0 { ClassSizePositive(ns, guid, n - 1); }
  }

  // ---------------------------------------------------------------------------
  // Invariants of the two passes

  ghost predicate GuidsDistinct(chs: seq<ChassisRec>) {
    forall a, b :: 0 <= a < b < |chs| ==> chs[a].guid != chs[b].guid
  }

  // After n nodes of pass 3 there is one record for each class met.
  ghost predicate Collected(ns: seq<ChNode>, chs: seq<ChassisRec>, n: nat)
    requires n <= |ns|
  {
    && GuidsDistinct(chs)
    && (forall c :: 0 <= c < |chs| ==> chs[c].nodecount == ClassSize(ns, chs[c].guid, n) % BYTE && ClassSize(ns, chs[c].guid, n) > 0)
    && (forall guid {:trigger HasGuid(chs, guid)} :: ClassSize(ns, guid, n) > 0 ==> HasGuid(chs, guid))
    && (forall c :: 0 <= c < |chs| ==> chs[c].num == 0 && chs[c].nodes == [])
  }

  ghost predicate HasGuid(chs: seq<ChassisRec>, guid: nat) {
    exists c :: 0 <= c < |chs| && chs[c].guid == guid
  }

  // The chassis numbers in use
  function Numbered(chs: seq<ChassisRec>): nat {
    if chs == [] then 0 else Numbered(chs[..|chs| - 1]) + if chs[|chs| - 1].num != 0 then 1 else 0
  }

  function CountBig(ns: seq<ChNode>, chs: seq<ChassisRec>): nat {
    if chs == [] then 0 else CountBig(ns, chs[..|chs| - 1]) + if Big(ns, chs[|chs| - 1].guid) then 1 else 0
  }

  // The numbers are 1, ..., last, each once.
  ghost predicate NumbersOk(chs: seq<ChassisRec>, last: nat) {
    && (forall c :: 0 <= c < |chs| ==> chs[c].num <= last)
    && (forall a, b :: 0 <= a < b < |chs| && chs[a].num != 0 ==> chs[a].num != chs[b].num)
    && (forall v :: 1 <= v <= last ==> NumberUsed(chs, v))
    && Numbered(chs) == last
  }

  ghost predicate NumberUsed(chs: seq<ChassisRec>, v: nat) {
    exists c :: 0 <= c < |chs| && chs[c].num == v
  }

  // After n nodes of pass 4 the chassis of big classes that were met are numbered and
  // hold their members.
  ghost predicate Grouped(ns: seq<ChNode>, chs: seq<ChassisRec>, n: nat)
    requires n <= |ns|
  {
    && GuidsDistinct(chs)
    && (forall c :: 0 <= c < |chs| ==> ChassisOk(ns, chs[c], n))
    && (forall guid {:trigger HasGuid(chs, guid)} :: ClassSize(ns, guid, |ns|) > 0 ==> HasGuid(chs, guid))
  }

  ghost predicate ChassisOk(ns: seq<ChNode>, ch: ChassisRec, n: nat)
    requires n <= |ns|
  {
    && ch.nodecount == ClassSize(ns, ch.guid, |ns|) % BYTE && ClassSize(ns, ch.guid, |ns|) > 0
    && (ch.num != 0 <==> Big(ns, ch.guid) && ClassSize(ns, ch.guid, n) > 0)
    && ch.nodes == if Big(ns, ch.guid) then FreeMembers(ns, ch.guid, n) else []
  }

  lemma {:induction false} NumberedSet(chs: seq<ChassisRec>, c: nat, ch: ChassisRec)
    requires c < |chs| && ch.num != 0 && chs[c].num == 0
    ensures Numbered(chs[c := ch]) == Numbered(chs) + 1
    decreases |chs|
  {
    var m := |chs| - 1;
    if c == m {
      assert chs[c := ch][..m] == chs[..m];
    } else {
      assert chs[c := ch][..m] == chs[..m][c := ch];
      NumberedSet(chs[..m], c, ch);
    }
  }

  lemma {:induction false} NumberedSame(chs: seq<ChassisRec>, c: nat, ch: ChassisRec)
    requires c < |chs| && ch.num == chs[c].num
    ensures Numbered(chs[c := ch]) == Numbered(chs)
    decreases |chs|
  {
    var m := |chs| - 1;
    if c == m {
      assert chs[c := ch][..m] == chs[..m];
    } else {
      assert chs[c := ch][..m] == chs[..m][c := ch];
      NumberedSame(chs[..m], c, ch);
    }
  }

  // A chassis of a big class that has no number yet leaves room for one.
  lemma {:induction false} RoomForNumber(ns: seq<ChNode>, chs: seq<ChassisRec>, c: nat)
    requires c < |chs| && Big(ns, chs[c].guid) && chs[c].num == 0
    requires forall k :: 0 <= k < |chs| && chs[k].num != 0 ==> Big(ns, chs[k].guid)
    ensures Numbered(chs) < CountBig(ns, chs)
    decreases |chs|
  {
    var m := |chs| - 1;
    if c < m {
      RoomForNumber(ns, chs[..m], c);
    } else {
      NumberedAreBig(ns, chs[..m]);
    }
  }

  lemma {:induction false} NumberedAreBig(ns: seq<ChNode>, chs: seq<ChassisRec>)
    requires forall k :: 0 <= k < |chs| && chs[k].num != 0 ==> Big(ns, chs[k].guid)
    ensures Numbered(chs) <= CountBig(ns, chs)
    decreases |chs|
  {
    if chs != [] { NumberedAreBig(ns, chs[..|chs| - 1]); }
  }

  // The classes that make a chassis
  ghost function BigClasses(ns: seq<ChNode>): set<nat> {
    set i | 0 <= i < |ns| && Big(ns, ns[i].class_) && ns[i].sysGuid != 0 :: ns[i].class_
  }

  lemma HasGuidMore(chs: seq<ChassisRec>, found: set<nat>)
    requires chs != [] && forall g :: g in found ==> HasGuid(chs[..|chs| - 1], g)
    ensures forall g :: g in found ==> HasGuid(chs, g)
  {
    forall h | h in found
      ensures HasGuid(chs, h)
    {
      var c :| 0 <= c < |chs| - 1 && chs[..|chs| - 1][c].guid == h;
      assert chs[c].guid == h;
    }
  }

  lemma {:induction false} CountBigIs(ns: seq<ChNode>, chs: seq<ChassisRec>) returns (found: set<nat>)
    requires GuidsDistinct(chs) && forall c :: 0 <= c < |chs| ==> ClassSize(ns, chs[c].guid, |ns|) > 0
    ensures CountBig(ns, chs) == |found| && found <= BigClasses(ns)
    ensures forall g :: g in found ==> HasGuid(chs, g)
    decreases |chs|
  {
    found := {};
    if chs != [] {
      var m := |chs| - 1;
      var g := chs[m].guid;
      found := CountBigIs(ns, chs[..m]);
      assert g !in found;
      HasGuidMore(chs, found);
      if Big(ns, g) {
        ClassSizePositive(ns, g, |ns|);
        assert g in BigClasses(ns);
        found := found + {g};
      }
    }
  }

  // No more numbers are needed than there are big classes.
  lemma CountBigBound(ns: seq<ChNode>, chs: seq<ChassisRec>)
    requires GuidsDistinct(chs) && forall c :: 0 <= c < |chs| ==> ClassSize(ns, chs[c].guid, |ns|) > 0
    ensures CountBig(ns, chs) <= |BigClasses(ns)|
  {
    var found := CountBigIs(ns, chs);
    SubsetSize(found, BigClasses(ns));
  }

  lemma {:induction false} SubsetSize(a: set<nat>, b: set<nat>)
    requires a <= b
    ensures |a| <= |b|
  {
    assert b == a + (b - a);
  }

  // ---------------------------------------------------------------------------
  // One node of each pass

  lemma SameGuids(chs: seq<ChassisRec>, chs': seq<ChassisRec>, guid: nat)
    requires |chs'| == |chs| && forall c :: 0 <= c < |chs| ==> chs'[c].guid == chs[c].guid
    ensures HasGuid(chs, guid) ==> HasGuid(chs', guid)
  {
    if HasGuid(chs, guid) {
      var c :| 0 <= c < |chs| && chs[c].guid == guid;
      assert chs'[c].guid == guid;
    }
  }

  lemma CountNext(ns: seq<ChNode>, guid: nat, n: nat)
    requires n < |ns| && InClass(ns[n], guid)
    ensures ClassSize(ns, guid, n + 1) % BYTE == (ClassSize(ns, guid, n) % BYTE + 1) % BYTE
  {
  }

  // Another class member in pass 3
  lemma CountedOne(ns: seq<ChNode>, chs: seq<ChassisRec>, n: nat, c: nat)
    requires n < |ns| && Collected(ns, chs, n) && c < |chs| && InClass(ns[n], chs[c].guid)
    ensures Collected(ns, chs[c := chs[c].(nodecount := (chs[c].nodecount + 1) % BYTE)], n + 1)
  {
    var chs' := chs[c := chs[c].(nodecount := (chs[c].nodecount + 1) % BYTE)];
    CountNext(ns, chs[c].guid, n);
    forall a | 0 <= a < |chs'|
      ensures chs'[a].nodecount == ClassSize(ns, chs'[a].guid, n + 1) % BYTE && ClassSize(ns, chs'[a].guid, n + 1) > 0
    {
      assert a != c ==> chs[a].guid != chs[c].guid;
    }
    forall guid: nat | ClassSize(ns, guid, n + 1) > 0
      ensures HasGuid(chs', guid)
    {
      if guid == chs[c].guid {
        assert chs'[c].guid == guid;
      } else {
        SameGuids(chs, chs', guid);
      }
    }
  }

  // The first member of a class in pass 3
  lemma CountedFirst(ns: seq<ChNode>, chs: seq<ChassisRec>, n: nat)
    requires n < |ns| && Collected(ns, chs, n) && ns[n].sysGuid != 0 && !HasGuid(chs, ns[n].class_)
    ensures Collected(ns, chs + [ChassisRec(ns[n].class_, 1, 0, [])], n + 1)
  {
    var guid := ns[n].class_;
    var chs' := chs + [ChassisRec(guid, 1, 0, [])];
    assert ClassSize(ns, guid, n) == 0;
    forall other: nat | ClassSize(ns, other, n + 1) > 0
      ensures HasGuid(chs', other)
    {
      if other == guid {
        assert chs'[|chs|].guid == other;
      } else {
        assert HasGuid(chs, other);
        var a :| 0 <= a < |chs| && chs[a].guid == other;
        assert chs'[a].guid == other;
      }
    }
  }

  lemma NotCounted(ns: seq<ChNode>, chs: seq<ChassisRec>, n: nat)
    requires n < |ns| && Collected(ns, chs, n) && ns[n].sysGuid == 0
    ensures Collected(ns, chs, n + 1)
  {
  }

  // Where pass 4 starts
  lemma PassThreeDone(ns: seq<ChNode>, chs: seq<ChassisRec>)
    requires Collected(ns, chs, |ns|)
    ensures Grouped(ns, chs, 0) && NumbersOk(chs, 0)
  {
    NoneNumbered(chs);
  }

  lemma {:induction false} NoneNumbered(chs: seq<ChassisRec>)
    requires forall c :: 0 <= c < |chs| ==> chs[c].num == 0
    ensures Numbered(chs) == 0
    decreases |chs|
  {
    if chs != [] { NoneNumbered(chs[..|chs| - 1]); }
  }

  // The record of a chassis after pass 4 met node n of its class
  function Joined(ns: seq<ChNode>, ch: ChassisRec, n: nat, num: nat): ChassisRec
    requires n < |ns|
  {
    ch.(num := num, nodes := if ns[n].taken then ch.nodes else [n] + ch.nodes)
  }

  lemma JoinedChassis(ns: seq<ChNode>, ch: ChassisRec, n: nat, num: nat)
    requires n < |ns| && ChassisOk(ns, ch, n) && InClass(ns[n], ch.guid) && Big(ns, ch.guid) && num != 0
    ensures ChassisOk(ns, Joined(ns, ch, n, num), n + 1)
  {
  }

  lemma OtherChassis(ns: seq<ChNode>, ch: ChassisRec, n: nat)
    requires n < |ns| && ChassisOk(ns, ch, n) && (InClass(ns[n], ch.guid) ==> !Big(ns, ch.guid))
    ensures ChassisOk(ns, ch, n + 1)
  {
  }

  lemma JoinedGrouped(ns: seq<ChNode>, chs: seq<ChassisRec>, n: nat, c: nat, num: nat)
    requires n < |ns| && Grouped(ns, chs, n) && c < |chs| && InClass(ns[n], chs[c].guid)
    requires Big(ns, chs[c].guid) && num != 0
    ensures Grouped(ns, chs[c := Joined(ns, chs[c], n, num)], n + 1)
  {
    var chs' := chs[c := Joined(ns, chs[c], n, num)];
    assert ChassisOk(ns, chs[c], n);
    JoinedChassis(ns, chs[c], n, num);
    forall a | 0 <= a < |chs'|
      ensures ChassisOk(ns, chs'[a], n + 1)
    {
      assert ChassisOk(ns, chs[a], n);
      if a != c { OtherChassis(ns, chs[a], n); }
    }
    forall guid: nat | ClassSize(ns, guid, |ns|) > 0
      ensures HasGuid(chs', guid)
    {
      SameGuids(chs, chs', guid);
    }
  }

  lemma PassedOver(ns: seq<ChNode>, chs: seq<ChassisRec>, n: nat)
    requires n < |ns| && Grouped(ns, chs, n)
    requires forall c :: 0 <= c < |chs| && InClass(ns[n], chs[c].guid) ==> !Big(ns, chs[c].guid)
    ensures Grouped(ns, chs, n + 1)
  {
    forall a | 0 <= a < |chs|
      ensures ChassisOk(ns, chs[a], n + 1)
    {
      assert ChassisOk(ns, chs[a], n);
      OtherChassis(ns, chs[a], n);
    }
  }

  lemma NumberKept(ns: seq<ChNode>, chs: seq<ChassisRec>, last: nat, c: nat, ch: ChassisRec)
    requires NumbersOk(chs, last) && c < |chs| && ch.num == chs[c].num
    ensures NumbersOk(chs[c := ch], last)
  {
    NumberedSame(chs, c, ch);
    var chs' := chs[c := ch];
    forall v | 1 <= v <= last
      ensures NumberUsed(chs', v)
    {
      assert NumberUsed(chs, v);
      var a :| 0 <= a < |chs| && chs[a].num == v;
      assert chs'[a].num == v;
    }
  }

  lemma NumberGiven(ns: seq<ChNode>, chs: seq<ChassisRec>, last: nat, c: nat, ch: ChassisRec)
    requires NumbersOk(chs, last) && c < |chs| && chs[c].num == 0 && ch.num == last + 1
    ensures NumbersOk(chs[c := ch], last + 1)
  {
    NumberedSet(chs, c, ch);
    var chs' := chs[c := ch];
    forall v | 1 <= v <= last + 1
      ensures NumberUsed(chs', v)
    {
      if v <= last {
        assert NumberUsed(chs, v);
        var a :| 0 <= a < |chs| && chs[a].num == v;
        assert chs'[a].num == v;
      } else {
        assert chs'[c].num == v;
      }
    }
  }

  // ---------------------------------------------------------------------------

  // Which nodes are in which chassis after n nodes of pass 4
  ghost predicate Placed(ns: seq<ChNode>, chs: seq<ChassisRec>, found: seq<bool>, chassisOf: map<nat, nat>, n: nat)
    requires n <= |ns|
  {
    && |found| == |ns|
    && (forall i :: 0 <= i < |ns| ==> (found[i] <==> ns[i].taken || i in chassisOf))
    && (forall i :: i in chassisOf ==>
          i < n && !ns[i].taken && chassisOf[i] < |chs| && InClass(ns[i], chs[chassisOf[i]].guid) && Big(ns, ns[i].class_))
    && (forall i :: 0 <= i < n && !ns[i].taken && ns[i].sysGuid != 0 && Big(ns, ns[i].class_) ==> i in chassisOf)
  }

  // Records may be updated but for their GUIDs.
  lemma PlacedKept(ns: seq<ChNode>, chs: seq<ChassisRec>, chs': seq<ChassisRec>, found: seq<bool>, chassisOf: map<nat, nat>, n: nat)
    requires n < |ns| && Placed(ns, chs, found, chassisOf, n)
    requires |chs'| == |chs| && forall c :: 0 <= c < |chs| ==> chs'[c].guid == chs[c].guid
    requires ns[n].taken || ns[n].sysGuid == 0 || !Big(ns, ns[n].class_)
    ensures Placed(ns, chs', found, chassisOf, n + 1)
  {
  }

  lemma PlacedOne(ns: seq<ChNode>, chs: seq<ChassisRec>, chs': seq<ChassisRec>, found: seq<bool>, chassisOf: map<nat, nat>, n: nat, c: nat)
    requires n < |ns| && Placed(ns, chs, found, chassisOf, n)
    requires |chs'| == |chs| && forall a :: 0 <= a < |chs| ==> chs'[a].guid == chs[a].guid
    requires !ns[n].taken && c < |chs| && InClass(ns[n], chs[c].guid) && Big(ns, ns[n].class_)
    ensures Placed(ns, chs', found[n := true], chassisOf[n := c], n + 1)
  {
  }

  // A number is left for a big chassis that has none.
  lemma NumberLeft(ns: seq<ChNode>, chs: seq<ChassisRec>, n: nat, last: nat, c: nat)
    requires n <= |ns| && Grouped(ns, chs, n) && NumbersOk(chs, last) && |BigClasses(ns)| < BYTE
    requires c < |chs| && Big(ns, chs[c].guid) && chs[c].num == 0
    ensures last + 1 < BYTE
  {
    assert forall k :: 0 <= k < |chs| ==> ChassisOk(ns, chs[k], n);
    RoomForNumber(ns, chs, c);
    CountBigBound(ns, chs);
  }

  // ---------------------------------------------------------------------------
  // The passes as functions

  // The list of chassis, the last number given, ch_found and the chassis of each node
  datatype Groups = Groups(chassis: seq<ChassisRec>, last: nat, found: seq<bool>, chassisOf: map<nat, nat>)

  // find_chassisguid
  function FindChassis(chs: seq<ChassisRec>, guid: nat): (r: Option<nat>)
    ensures r.Some? ==> r.value < |chs| && chs[r.value].guid == guid
    ensures r.None? ==> !HasGuid(chs, guid)
  {
    if chs == [] then None
    else if chs[0].guid == guid then Some(0)
    else
      var rest := FindChassis(chs[1..], guid);
      assert HasGuid(chs, guid) ==> HasGuid(chs[1..], guid) by {
        if HasGuid(chs, guid) {
          var c :| 0 <= c < |chs| && chs[c].guid == guid;
          assert chs[1..][c - 1].guid == guid;
        }
      }
      if rest.Some? then Some(rest.value + 1) else None
  }

  function CollectNode(ns: seq<ChNode>, chs: seq<ChassisRec>, n: nat): seq<ChassisRec>
    requires n < |ns|
  {
    if ns[n].sysGuid == 0 then chs
    else match FindChassis(chs, ns[n].class_)
      case Some(c) => chs[c := chs[c].(nodecount := (chs[c].nodecount + 1) % BYTE)]
      case None => chs + [ChassisRec(ns[n].class_, 1, 0, [])]
  }

  // Pass 3 over the first n nodes
  function Collect(ns: seq<ChNode>, n: nat): seq<ChassisRec>
    requires n <= |ns|
  {
    if n == 0 then [] else CollectNode(ns, Collect(ns, n - 1), n - 1)
  }

  // The number of chassis c after a member was met, and the last number given
  function NumberOf(chs: seq<ChassisRec>, last: nat, c: nat): (nat, nat)
    requires c < |chs|
  {
    if chs[c].num == 0 then ((last + 1) % BYTE, last + 1) else (chs[c].num, last)
  }

  function JoinNode(g: Groups, n: nat, c: nat): Groups
    requires n < |g.found| && c < |g.chassis|
  {
    var (num, last) := NumberOf(g.chassis, g.last, c);
    if g.found[n] then g.(chassis := g.chassis[c := g.chassis[c].(num := num)], last := last)
    else Groups(g.chassis[c := g.chassis[c].(num := num, nodes := [n] + g.chassis[c].nodes)], last,
                g.found[n := true], g.chassisOf[n := c])
  }

  function FormNode(ns: seq<ChNode>, g: Groups, n: nat): (r: Groups)
    requires n < |ns| == |g.found|
    ensures |r.found| == |ns|
  {
    var c := FindChassis(g.chassis, ns[n].class_);
    if ns[n].sysGuid != 0 && c.Some? && g.chassis[c.value].nodecount > 1 then JoinNode(g, n, c.value) else g
  }

  function Taken(ns: seq<ChNode>): (r: seq<bool>)
    ensures |r| == |ns|
  {
    seq(|ns|, i requires 0 <= i < |ns| => ns[i].taken)
  }

  // Pass 4 over the first n nodes
  function Form(ns: seq<ChNode>, n: nat): (r: Groups)
    requires n <= |ns|
    ensures |r.found| == |ns|
  {
    if n == 0 then Groups(Collect(ns, |ns|), 0, Taken(ns), map[]) else FormNode(ns, Form(ns, n - 1), n - 1)
  }

  lemma {:induction false} CollectOk(ns: seq<ChNode>, n: nat)
    requires n <= |ns|
    ensures Collected(ns, Collect(ns, n), n)
    decreases n
  {
    if n > 0 {
      CollectOk(ns, n - 1);
      CollectNodeOk(ns, Collect(ns, n - 1), n - 1);
    }
  }

  lemma CollectNodeOk(ns: seq<ChNode>, chs: seq<ChassisRec>, n: nat)
    requires n < |ns| && Collected(ns, chs, n)
    ensures Collected(ns, CollectNode(ns, chs, n), n + 1)
  {
    if ns[n].sysGuid == 0 {
      NotCounted(ns, chs, n);
    } else {
      match FindChassis(chs, ns[n].class_)
      case Some(c) => CountedOne(ns, chs, n, c);
      case None => CountedFirst(ns, chs, n);
    }
  }

  ghost predicate GroupsOk(ns: seq<ChNode>, g: Groups, n: nat)
    requires n <= |ns|
  {
    Grouped(ns, g.chassis, n) && NumbersOk(g.chassis, g.last) && Placed(ns, g.chassis, g.found, g.chassisOf, n)
  }

  lemma JoinNumbers(ns: seq<ChNode>, g: Groups, n: nat, c: nat)
    requires n < |ns| == |g.found| && GroupsOk(ns, g, n) && |BigClasses(ns)| < BYTE
    requires c < |g.chassis| && Big(ns, g.chassis[c].guid)
    ensures var g' := JoinNode(g, n, c); NumbersOk(g'.chassis, g'.last) && g'.chassis[c].num != 0
  {
    var g' := JoinNode(g, n, c);
    if g.chassis[c].num == 0 {
      NumberLeft(ns, g.chassis, n, g.last, c);
      NumberGiven(ns, g.chassis, g.last, c, g'.chassis[c]);
    } else {
      NumberKept(ns, g.chassis, g.last, c, g'.chassis[c]);
    }
  }

  lemma JoinOk(ns: seq<ChNode>, g: Groups, n: nat, c: nat)
    requires n < |ns| == |g.found| && GroupsOk(ns, g, n) && |BigClasses(ns)| < BYTE
    requires c < |g.chassis| && InClass(ns[n], g.chassis[c].guid) && Big(ns, g.chassis[c].guid)
    ensures GroupsOk(ns, JoinNode(g, n, c), n + 1)
  {
    var g' := JoinNode(g, n, c);
    JoinNumbers(ns, g, n, c);
    JoinedGrouped(ns, g.chassis, n, c, g'.chassis[c].num);
    assert g.found[n] == ns[n].taken;
    assert g'.chassis == g.chassis[c := Joined(ns, g.chassis[c], n, g'.chassis[c].num)];
    if g.found[n] {
      PlacedKept(ns, g.chassis, g'.chassis, g.found, g.chassisOf, n);
    } else {
      PlacedOne(ns, g.chassis, g'.chassis, g.found, g.chassisOf, n, c);
    }
  }

  lemma FormNodeOk(ns: seq<ChNode>, g: Groups, n: nat)
    requires n < |ns| == |g.found| && GroupsOk(ns, g, n) && |BigClasses(ns)| < BYTE
    ensures GroupsOk(ns, FormNode(ns, g, n), n + 1)
  {
    var c := FindChassis(g.chassis, ns[n].class_);
    if c.Some? { assert ChassisOk(ns, g.chassis[c.value], n); }
    if ns[n].sysGuid != 0 && c.Some? && g.chassis[c.value].nodecount > 1 {
      JoinOk(ns, g, n, c.value);
    } else {
      SmallClass(ns, g.chassis, n);
      PassedOver(ns, g.chassis, n);
      PlacedKept(ns, g.chassis, g.chassis, g.found, g.chassisOf, n);
    }
  }

  // A node that is in no chassis is in no big class.
  lemma SmallClass(ns: seq<ChNode>, chs: seq<ChassisRec>, n: nat)
    requires n < |ns| && Grouped(ns, chs, n)
    requires var c := FindChassis(chs, ns[n].class_); !(ns[n].sysGuid != 0 && c.Some? && chs[c.value].nodecount > 1)
    ensures ns[n].sysGuid == 0 || !Big(ns, ns[n].class_)
  {
    var c := FindChassis(chs, ns[n].class_);
    if c.Some? { assert ChassisOk(ns, chs[c.value], n); }
    if ClassSize(ns, ns[n].class_, |ns|) > 0 { assert HasGuid(chs, ns[n].class_); }
  }

  lemma {:induction false} FormOk(ns: seq<ChNode>, n: nat)
    requires n <= |ns| && |BigClasses(ns)| < BYTE
    ensures GroupsOk(ns, Form(ns, n), n)
    decreases n
  {
    if n == 0 {
      CollectOk(ns, |ns|);
      PassThreeDone(ns, Collect(ns, |ns|));
    } else {
      FormOk(ns, n - 1);
      FormNodeOk(ns, Form(ns, n - 1), n - 1);
    }
  }

  // Chassis grouping.  There is one record for each class, with the size of the class in
  // its byte; it is numbered if and only if that count is more than one, the numbers are
  // 1, ..., last, and its list holds the free members of the class, each once.
  lemma GroupingIsRight(ns: seq<ChNode>)
    requires |BigClasses(ns)| < BYTE
    ensures var g := Form(ns, |ns|);
      && GuidsDistinct(g.chassis) && NumbersOk(g.chassis, g.last)
      && (forall guid :: HasGuid(g.chassis, guid) <==> ClassSize(ns, guid, |ns|) > 0)
      && (forall c :: 0 <= c < |g.chassis| ==> ChassisOk(ns, g.chassis[c], |ns|))
      && Placed(ns, g.chassis, g.found, g.chassisOf, |ns|)
  {
    FormOk(ns, |ns|);
    var g := Form(ns, |ns|);
    forall guid: nat
      ensures HasGuid(g.chassis, guid) <==> ClassSize(ns, guid, |ns|) > 0
    {
      assert forall c :: 0 <= c < |g.chassis| ==> ChassisOk(ns, g.chassis[c], |ns|);
    }
  }

  // With classes below 256 nodes, exactly the classes of more than one node are big; a
  // class of 256 or 257 nodes is passed over.
  lemma BigIff(ns: seq<ChNode>, guid: nat)
    ensures ClassSize(ns, guid, |ns|) < BYTE ==> (Big(ns, guid) <==> ClassSize(ns, guid, |ns|) > 1)
    ensures (Big(ns, guid) <==> ClassSize(ns, guid, |ns|) > 1) <==> (ClassSize(ns, guid, |ns|) < BYTE || ClassSize(ns, guid, |ns|) % BYTE > 1)
  {
  }

  // ---------------------------------------------------------------------------
  // group_nodes on the lists of a fabric

  class Grouping {
    const ns: seq<ChNode>
    var chassis: seq<ChassisRec>       // fabric->chassis
    var chassisnum: nat
    var found: seq<bool>               // ch_found
    var chassisOf: map<nat, nat>       // node->chassis, as a place on the list of chassis

    constructor (ns: seq<ChNode>)
      ensures this.ns == ns && G() == Groups([], 0, Taken(ns), map[])
    {
      this.ns, chassis, chassisnum, chassisOf, found := ns, [], 0, map[], Taken(ns);
    }

    function G(): Groups
      reads this
    {
      Groups(chassis, chassisnum, found, chassisOf)
    }

    // find_chassisguid
    method FindChassisGuid(guid: nat) returns (r: Option<nat>)
      ensures r == FindChassis(chassis, guid)
    {
      var c := 0;
      while c < |chassis|
        invariant 0 <= c <= |chassis|
        invariant var rest := FindChassis(chassis[c..], guid);
          FindChassis(chassis, guid) == if rest.Some? then Some(rest.value + c) else None
      {
        assert chassis[c..][1..] == chassis[c + 1..];
        if chassis[c].guid == guid {
          return Some(c);
        }
        c := c + 1;
      }
      return None;
    }

    // Pass 3
    method CollectClasses()
      requires chassis == []
      modifies this`chassis
      ensures chassis == Collect(ns, |ns|)
    {
      for n := 0 to |ns|
        invariant chassis == Collect(ns, n)
      {
        if ns[n].sysGuid != 0 {
          var c := FindChassisGuid(ns[n].class_);
          if c.Some? {
            chassis := chassis[c.value := chassis[c.value].(nodecount := (chassis[c.value].nodecount + 1) % BYTE)];
          } else {
            chassis := chassis + [ChassisRec(ns[n].class_, 1, 0, [])];
          }
        }
      }
    }

    // add_node_to_chassis
    method AddNodeToChassis(n: nat, c: nat)
      requires n < |found| && c < |chassis|
      modifies this`chassis, this`chassisOf
      ensures chassisOf == old(chassisOf)[n := c]
      ensures chassis == old(chassis)[c := old(chassis)[c].(nodes := [n] + old(chassis)[c].nodes)]
    {
      chassisOf := chassisOf[n := c];
      chassis := chassis[c := chassis[c].(nodes := [n] + chassis[c].nodes)];
    }

    // The turn of pass 4 for node n
    method FormTurn(n: nat)
      requires n < |ns| == |found|
      modifies this
      ensures G() == FormNode(ns, old(G()), n)
    {
      if ns[n].sysGuid != 0 {
        var c := FindChassisGuid(ns[n].class_);
        if c.Some? && chassis[c.value].nodecount > 1 {
          if chassis[c.value].num == 0 {
            chassisnum := chassisnum + 1;
            chassis := chassis[c.value := chassis[c.value].(num := chassisnum % BYTE)];
          }
          if !found[n] {
            AddNodeToChassis(n, c.value);
            found := found[n := true];
          }
          assert chassis == JoinNode(old(G()), n, c.value).chassis;
        }
      }
    }

    // group_nodes, passes 3 and 4
    method GroupNodes()
      requires G() == Groups([], 0, Taken(ns), map[])
      modifies this
      ensures G() == Form(ns, |ns|)
    {
      CollectClasses();
      for n := 0 to |ns|
        invariant G() == Form(ns, n)
      {
        FormTurn(n);
      }
    }
  }
}
