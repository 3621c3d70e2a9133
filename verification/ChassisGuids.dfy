// get_chassisguid of libibnetdisc/src/chassis.c: which GUID stands for the chassis of a
// node, by the rules of the vendors.
module ChassisGuids {
  import opened Binary
  import opened Chassis

  const TS_VENDOR_ID := 0x5ad
  const SS_VENDOR_ID := 0x66a
  const XS_VENDOR_ID := 0x1397

  // What is known of port 1 of a node: nothing, no link, or the system image GUID of the
  // node at the other end
  datatype PortOne = NoPort | NoPeer | Linked(sysGuid: nat)

  datatype IbNode = IbNode(vendor: nat, sysGuid: nat, portOne: PortOne, taken: bool)

  // guid & 0xffffffff00ffffff
  function MaskSlot(guid: nat): nat {
    guid / 0x1_0000_0000 * 0x1_0000_0000 + guid % 0x100_0000
  }

  predicate IsXsigo(guid: nat) { guid / 0x100_0000_0000 == 0x001397 }
  predicate IsLeafOne(guid: nat) { guid / 0x100_0000 == 0x00_1397_0102 }
  predicate IsXsigoCa(guid: nat) { guid / 0x1_0000_0000 == 0x0013_9702 || guid / 0x1_0000_0000 == 0x0013_9703 }
  predicate IsXsigoSwitch(guid: nat) { guid / 0x1_0000_0000 == 0x0013_9701 }

  function XsigoChassisGuid(n: IbNode): nat {
    if !IsXsigoCa(n.sysGuid) then
      if IsXsigoSwitch(n.sysGuid) then MaskSlot(n.sysGuid) else n.sysGuid
    else match n.portOne
      case NoPort => 0
      case NoPeer => n.sysGuid
      case Linked(guid) => if IsLeafOne(guid) then MaskSlot(guid) else n.sysGuid
  }

  predicate IsTopspin(n: IbNode) { n.vendor == TS_VENDOR_ID || n.vendor == SS_VENDOR_ID }

  function ChassisGuid(n: IbNode): nat {
    if IsTopspin(n) then MaskSlot(n.sysGuid)
    else if n.vendor == XS_VENDOR_ID || IsXsigo(n.sysGuid) then XsigoChassisGuid(n)
    else n.sysGuid
  }

  // A node as the grouping of module Chassis sees it
  function Grouped(n: IbNode): ChNode {
    ChNode(n.sysGuid, ChassisGuid(n), n.taken)
  }

  // Masking forgets the byte of the slot and nothing else.
  lemma SameMask(a: nat, b: nat)
    ensures MaskSlot(a) == MaskSlot(b) <==> a / 0x1_0000_0000 == b / 0x1_0000_0000 && a % 0x100_0000 == b % 0x100_0000
  {
    assert MaskSlot(a) / 0x1_0000_0000 == a / 0x1_0000_0000 && MaskSlot(b) / 0x1_0000_0000 == b / 0x1_0000_0000;
  }

  // Topspin nodes are in one chassis exactly when their GUIDs differ in the slot at most.
  lemma TopspinChassis(a: IbNode, b: IbNode)
    requires IsTopspin(a) && IsTopspin(b)
    ensures ChassisGuid(a) == ChassisGuid(b) <==>
      a.sysGuid / 0x1_0000_0000 == b.sysGuid / 0x1_0000_0000 && a.sysGuid % 0x100_0000 == b.sysGuid % 0x100_0000
  {
    SameMask(a.sysGuid, b.sysGuid);
  }

  lemma LeafOneIsSwitch(guid: nat)
    requires IsLeafOne(guid)
    ensures IsXsigoSwitch(guid) && IsXsigo(guid) && !IsXsigoCa(guid)
  {
  }

  // A Xsigo CA is in the chassis of the switch that it is cabled to exactly when that is a
  // first leaf.
  lemma XsigoCaChassis(ca: IbNode, leaf: IbNode)
    requires !IsTopspin(ca) && !IsTopspin(leaf) && IsXsigoCa(ca.sysGuid) && IsXsigoSwitch(leaf.sysGuid)
    requires ca.portOne == Linked(leaf.sysGuid)
    ensures ChassisGuid(ca) == ChassisGuid(leaf) <==> IsLeafOne(leaf.sysGuid)
  {
    if IsLeafOne(leaf.sysGuid) {
      LeafOneIsSwitch(leaf.sysGuid);
    } else {
      assert MaskSlot(leaf.sysGuid) / 0x1_0000_0000 == 0x0013_9701;
    }
  }

  // ---------------------------------------------------------------------------
  // The GUIDs bit by bit

  // Bits 24 to 31 are the byte of the slot.
  ghost predicate SlotCleared(v: nat, guid: nat) {
    forall k: nat {:trigger Bit(v, k)} :: Bit(v, k) <==> Bit(guid, k) && !(24 <= k < 32)
  }

  lemma MaskSlotBits(guid: nat)
    ensures SlotCleared(MaskSlot(guid), guid)
  {
    MaskIsJoin(guid);
    LowFits(guid);
    forall k: nat
      ensures Bit(MaskSlot(guid), k) <==> Bit(guid, k) && !(24 <= k < 32)
    {
      PartsBit(guid, MaskSlot(guid), 24, 32, k);
    }
  }

  // The bits below lo and from hi on
  lemma PartsBit(guid: nat, v: nat, lo: nat, hi: nat, k: nat)
    requires v == Low(guid, lo) + Pow2(hi) * Shr(guid, hi) && lo <= hi && Low(guid, lo) < Pow2(hi)
    ensures Bit(v, k) <==> Bit(guid, k) && !(lo <= k < hi)
  {
    JoinedBit(Low(guid, lo), hi, Shr(guid, hi), k);
    LowBit(guid, lo, k);
    if k >= hi { ShrBit(guid, hi, k - hi); }
  }

  lemma MaskIsJoin(guid: nat)
    ensures MaskSlot(guid) == Low(guid, 24) + Pow2(32) * Shr(guid, 32)
  {
    Pow2Words();
    Pow2Byte3();
    LowIsMod(guid, 24);
    ShrIsDiv(guid, 32);
  }

  lemma Pow2Byte3()
    ensures Pow2(24) == 0x100_0000
  {
    Pow2Words();
    Pow2Sum(8, 8);
    Pow2Sum(16, 8);
  }

  lemma LowFits(guid: nat)
    ensures Low(guid, 24) < Pow2(32)
  {
    Pow2Words();
    Pow2Byte3();
  }

  // A node of another vendor
  predicate Ordinary(n: IbNode) {
    n.vendor != 0x5ad && n.vendor != 0x66a && n.vendor != 0x1397 && n.sysGuid / 0x100_0000_0000 != 0x1397
  }

  predicate XsigoNode(n: IbNode) {
    n.vendor != 0x5ad && n.vendor != 0x66a && (n.vendor == 0x1397 || n.sysGuid / 0x100_0000_0000 == 0x1397)
  }

  // The GUID of the chassis by the vendor of the node: that of the node; that of the node
  // without the slot, for Topspin nodes and Xsigo switches; and for a Xsigo CA none without
  // port 1, that of the first leaf that it is cabled to without its slot, or its own.
  lemma ChassisGuidBits(n: IbNode)
    ensures Ordinary(n) ==> ChassisGuid(n) == n.sysGuid
    ensures n.vendor == 0x5ad || n.vendor == 0x66a ==> SlotCleared(ChassisGuid(n), n.sysGuid)
    ensures XsigoNode(n) ==>
      match n.sysGuid / 0x1_0000_0000
      case 0x139701 => SlotCleared(ChassisGuid(n), n.sysGuid)
      case 0x139702 => XsigoCaGuid(n)
      case 0x139703 => XsigoCaGuid(n)
      case _ => ChassisGuid(n) == n.sysGuid
  {
    MaskSlotBits(n.sysGuid);
    if n.portOne.Linked? { MaskSlotBits(n.portOne.sysGuid); }
  }

  ghost predicate XsigoCaGuid(n: IbNode) {
    match n.portOne
    case NoPort => ChassisGuid(n) == 0
    case NoPeer => ChassisGuid(n) == n.sysGuid
    case Linked(guid) => if guid / 0x100_0000 == 0x13_9701_02 then SlotCleared(ChassisGuid(n), guid) else ChassisGuid(n) == n.sysGuid
  }

  // ---------------------------------------------------------------------------
  // The chassis of ordinary nodes

  function GroupedAll(ns: seq<IbNode>): seq<ChNode> {
    seq(|ns|, i requires 0 <= i < |ns| => Grouped(ns[i]))
  }

  // The nodes that share a system image GUID
  function Sharing(ns: seq<IbNode>, guid: nat): set<nat> {
    set i | 0 <= i < |ns| && ns[i].sysGuid == guid
  }

  // No node of a vendor with its own rules is in the class of the GUID.
  ghost predicate OrdinaryClass(ns: seq<IbNode>, guid: nat) {
    forall i :: 0 <= i < |ns| && !Ordinary(ns[i]) ==> ChassisGuid(ns[i]) != guid && ns[i].sysGuid != guid
  }

  lemma {:induction false} ClassSizeIs(ns: seq<IbNode>, guid: nat, n: nat)
    requires n <= |ns| && guid != 0 && OrdinaryClass(ns, guid)
    ensures ClassSize(GroupedAll(ns), guid, n) == |set i | 0 <= i < n && ns[i].sysGuid == guid|
  {
    if n > 0 {
      ClassSizeIs(ns, guid, n - 1);
      var before := set i | 0 <= i < n - 1 && ns[i].sysGuid == guid;
      var all := set i | 0 <= i < n && ns[i].sysGuid == guid;
      ChassisGuidBits(ns[n - 1]);
      assert InClass(GroupedAll(ns)[n - 1], guid) <==> ns[n - 1].sysGuid == guid;
      if ns[n - 1].sysGuid == guid {
        assert all == before + {n - 1};
      } else {
        assert all == before;
      }
    }
  }

  // For ordinary nodes there is a numbered chassis of a GUID exactly when more than one node
  // has it as its system image GUID, in a count of one byte; then each free one of them is
  // in it, and no other node.
  lemma OrdinaryNumbered(ns: seq<IbNode>, guid: nat)
    requires guid != 0 && OrdinaryClass(ns, guid) && |BigClasses(GroupedAll(ns))| < BYTE
    ensures var g := Form(GroupedAll(ns), |ns|);
      && ((exists c :: 0 <= c < |g.chassis| && IsNumbered(g.chassis[c], guid)) <==> |Sharing(ns, guid)| % 256 > 1)
      && (forall c :: 0 <= c < |g.chassis| && IsNumbered(g.chassis[c], guid) ==> HoldsFree(ns, g.chassis[c], guid))
  {
    GroupingIsRight(GroupedAll(ns));
    RecordsAre(ns, Form(GroupedAll(ns), |ns|).chassis, guid);
  }

  lemma RecordsAre(ns: seq<IbNode>, chs: seq<ChassisRec>, guid: nat)
    requires guid != 0 && OrdinaryClass(ns, guid)
    requires forall c :: 0 <= c < |chs| ==> ChassisOk(GroupedAll(ns), chs[c], |ns|)
    requires ClassSize(GroupedAll(ns), guid, |ns|) > 0 ==> HasGuid(chs, guid)
    ensures (exists c :: 0 <= c < |chs| && IsNumbered(chs[c], guid)) <==> |Sharing(ns, guid)| % 256 > 1
    ensures forall c :: 0 <= c < |chs| && IsNumbered(chs[c], guid) ==> HoldsFree(ns, chs[c], guid)
  {
    forall c | 0 <= c < |chs| && chs[c].guid == guid
      ensures IsNumbered(chs[c], guid) <==> |Sharing(ns, guid)| % 256 > 1
      ensures IsNumbered(chs[c], guid) ==> HoldsFree(ns, chs[c], guid)
    {
      RecordIs(ns, chs[c], guid);
    }
    if |Sharing(ns, guid)| % 256 > 1 {
      ClassSizeIs(ns, guid, |ns|);
      var c :| 0 <= c < |chs| && chs[c].guid == guid;
      assert IsNumbered(chs[c], guid);
    }
  }

  ghost predicate IsNumbered(ch: ChassisRec, guid: nat) { ch.guid == guid && ch.num != 0 }

  ghost predicate HoldsFree(ns: seq<IbNode>, ch: ChassisRec, guid: nat) {
    forall i :: 0 <= i < |ns| ==> (i in ch.nodes <==> ns[i].sysGuid == guid && !ns[i].taken)
  }

  lemma RecordIs(ns: seq<IbNode>, ch: ChassisRec, guid: nat)
    requires guid != 0 && OrdinaryClass(ns, guid) && ch.guid == guid && ChassisOk(GroupedAll(ns), ch, |ns|)
    ensures IsNumbered(ch, guid) <==> |Sharing(ns, guid)| % 256 > 1
    ensures IsNumbered(ch, guid) ==> HoldsFree(ns, ch, guid)
  {
    ClassSizeIs(ns, guid, |ns|);
    if IsNumbered(ch, guid) { FreeAre(ns, ch, guid); }
  }

  lemma FreeAre(ns: seq<IbNode>, ch: ChassisRec, guid: nat)
    requires guid != 0 && OrdinaryClass(ns, guid) && ch.nodes == FreeMembers(GroupedAll(ns), guid, |ns|)
    ensures HoldsFree(ns, ch, guid)
  {
    var cs := GroupedAll(ns);
    FreeMembersAre(cs, guid, |ns|);
    forall i | 0 <= i < |ns|
      ensures i in ch.nodes <==> ns[i].sysGuid == guid && !ns[i].taken
    {
      ChassisGuidBits(ns[i]);
      assert cs[i] == Grouped(ns[i]);
    }
  }

  // Two ordinary nodes are in one class exactly when they have one system image GUID.
  lemma OrdinaryChassis(a: IbNode, b: IbNode)
    requires Ordinary(a) && Ordinary(b)
    ensures ChassisGuid(a) == ChassisGuid(b) <==> a.sysGuid == b.sysGuid
  {
    ChassisGuidBits(a);
    ChassisGuidBits(b);
  }
}
