// Comparing two fabrics: diff of src/ibnetdiscover.c, which prints what differs. A line
// of the output is an event; what a line says is not modelled.
module Diff {
  import opened Wrappers
  import F = Fabric

  // The place of a port: the GUID of its node, and its number
  datatype End = End(node: nat, num: nat)

  // The port on the other end of a link, its GUID and LID, and the description of its node
  datatype Remote = Remote(end: End, guid: nat, lid: nat, desc: nat)

  datatype Port = Port(guid: nat, lid: nat, remote: Option<Remote>)

  // A node; slot p of its ports array is NULL when p is not a key of `ports`, and desc
  // stands for the 64 bytes of the description.
  datatype Node = Node(guid: nat, kind: F.Kind, numports: nat, smalid: nat, desc: nat, ports: map<nat, Port>) {
    function Slot(p: nat): Option<Port> {
      if p in ports then Some(ports[p]) else None
    }
  }

  // The fabric list, which the type lists follow in their order
  type Nodes = seq<Node>

  // diffcheck_flags
  datatype Flags = Flags(switches: bool, cas: bool, routers: bool, links: bool, lids: bool, descs: bool) {
    predicate Checks(kind: F.Kind) {
      match kind
      case Switch => switches
      case CA => cas
      case Router => routers
      case Other => false
    }

    // The flags of the opposite diff
    function KindsOnly(): Flags {
      this.(links := false, lids := false, descs := false)
    }
  }

  const DEFAULT := Flags(true, true, true, true, false, false)

  // The fabric a line is about, shown by its prefix "< " or "> "
  datatype Side = Old | New {
    function Opposite(): Side {
      if this == Old then New else Old
    }
  }

  datatype Event =
    | Header(side: Side, guid: nat)
    | Detail(side: Side, guid: nat)
    | NumPorts(side: Side, count: nat)
    | PortLine(side: Side, num: nat, port: Port)

  // ibnd_find_node_guid
  function Find(nodes: Nodes, guid: nat): (r: Option<Node>)
    ensures r.Some? ==> r.value in nodes && r.value.guid == guid
    ensures r.None? ==> forall b :: b in nodes ==> b.guid != guid
  {
    if nodes == [] then None
    else if nodes[0].guid == guid then Some(nodes[0])
    else Find(nodes[1..], guid)
  }

  function OfKind(nodes: Nodes, kind: F.Kind): (r: Nodes)
    ensures forall b :: b in r <==> b in nodes && b.kind == kind
  {
    if nodes == [] then []
    else if nodes[0].kind == kind then [nodes[0]] + OfKind(nodes[1..], kind)
    else OfKind(nodes[1..], kind)
  }

  // ---------------------------------------------------------------------------
  // What it means to be the same

  // Two links lead to the same place.
  predicate SameEnd(a: Remote, b: Remote, flags: Flags) {
    && (flags.links ==> a.guid == b.guid)
    && (flags.links && flags.lids ==> a.lid == b.lid)
    && (flags.links && flags.descs ==> a.desc == b.desc)
  }

  predicate SamePort(a: Port, b: Port, flags: Flags) {
    && (flags.lids ==> a.lid == b.lid)
    && (flags.links ==> a.guid == b.guid && a.remote.Some? == b.remote.Some?)
    && (a.remote.Some? && b.remote.Some? ==> SameEnd(a.remote.value, b.remote.value, flags))
  }

  predicate SameSlot(a: Option<Port>, b: Option<Port>, flags: Flags) {
    && (flags.links ==> a.Some? == b.Some?)
    && (a.Some? && b.Some? ==> SamePort(a.value, b.value, flags))
  }

  predicate SameHead(a: Node, b: Node, flags: Flags) {
    (flags.lids ==> a.smalid == b.smalid) && (flags.descs ==> a.desc == b.desc)
  }

  // No slot has to be compared when neither links nor LIDs are.
  predicate SameNode(a: Node, b: Node, flags: Flags) {
    && SameHead(a, b, flags)
    && (flags.links || flags.lids || flags.descs ==> a.numports == b.numports)
    && (flags.links || flags.lids ==> forall p :: 1 <= p <= a.numports ==> SameSlot(a.Slot(p), b.Slot(p), flags))
  }

  // The node has its like in the other fabric.
  predicate Matched(a: Node, other: Nodes, flags: Flags) {
    Find(other, a.guid).Some? && SameNode(a, Find(other, a.guid).value, flags)
  }

  ghost predicate AllMatched(nodes: Nodes, other: Nodes, flags: Flags) {
    forall b :: b in nodes && flags.Checks(b.kind) ==> Matched(b, other, flags)
  }

  // ---------------------------------------------------------------------------
  // diff_ports

  // The two counters for one slot, by the chain of tests on links
  function LinkLines(a: Option<Port>, b: Option<Port>): (r: (nat, nat)) {
    if (a.Some? && b.None?) || (a.Some? && b.Some? && a.value.remote.Some? && b.value.remote.None?) then (1, 0)
    else if (a.None? && b.Some?) || (a.Some? && b.Some? && a.value.remote.None? && b.value.remote.Some?) then (0, 1)
    else if a.Some? && b.Some?
            && (a.value.guid != b.value.guid
                || (a.value.remote.Some? && b.value.remote.Some?
                    && a.value.remote.value.guid != b.value.remote.value.guid)) then (1, 1)
    else (0, 0)
  }

  // The sides that a line is printed for
  method CountLines(a: Option<Port>, b: Option<Port>, flags: Flags) returns (out1: nat, out2: nat)
    ensures out1 == 0 && out2 == 0 <==> SameSlot(a, b, flags)
    ensures out1 > 0 <==> PrintsFirst(a, b, flags)
    ensures out2 > 0 <==> PrintsFirst(b, a, flags)
  {
    out1, out2 := 0, 0;
    if flags.links {
      var lines := LinkLines(a, b);
      out1, out2 := lines.0, lines.1;
    }
    if flags.lids && a.Some? && b.Some? && a.value.lid != b.value.lid {
      out1, out2 := out1 + 1, out2 + 1;
    }
    if flags.links && flags.descs && a.Some? && b.Some? && a.value.remote.Some? && b.value.remote.Some?
       && a.value.remote.value.desc != b.value.remote.value.desc {
      out1, out2 := out1 + 1, out2 + 1;
    }
    if flags.links && flags.descs && a.Some? && b.Some? && a.value.remote.Some? && b.value.remote.Some?
       && a.value.remote.value.desc != b.value.remote.value.desc {
      out1, out2 := out1 + 1, out2 + 1;
    }
    if flags.links && flags.lids && a.Some? && b.Some? && a.value.remote.Some? && b.value.remote.Some?
       && a.value.remote.value.lid != b.value.remote.value.lid {
      out1, out2 := out1 + 1, out2 + 1;
    }
  }

  // A port is printed when it differs and the other port has no more to show than it: a
  // port or a link that only the other fabric has is printed for the other fabric alone,
  // unless the LIDs differ too.
  predicate PrintsFirst(a: Option<Port>, b: Option<Port>, flags: Flags) {
    && a.Some?
    && !SameSlot(a, b, flags)
    && (flags.links && b.Some? && a.value.remote.None? && b.value.remote.Some? ==> flags.lids && a.value.lid != b.value.lid)
  }

  // The lines of slot p
  function SlotEvents(a: Option<Port>, b: Option<Port>, p: nat, flags: Flags, side: Side): seq<Event> {
    (if PrintsFirst(a, b, flags) then [PortLine(side, p, a.value)] else [])
    + (if PrintsFirst(b, a, flags) then [PortLine(side.Opposite(), p, b.value)] else [])
  }

  // The lines of slots 1 to n
  function PortEvents(a: Node, b: Node, n: nat, flags: Flags, side: Side): seq<Event> {
    if n == 0 then []
    else PortEvents(a, b, n - 1, flags, side) + SlotEvents(a.Slot(n), b.Slot(n), n, flags, side)
  }

  // One header in front of whatever there is
  function Headed(side: Side, guid: nat, lines: seq<Event>): seq<Event> {
    if lines == [] then [] else [Header(side, guid)] + lines
  }

  // The lines, with a header unless there is one already
  function Printed(done: bool, side: Side, guid: nat, lines: seq<Event>): seq<Event> {
    if done then lines else Headed(side, guid, lines)
  }

  lemma PrintedMore(done: bool, side: Side, guid: nat, lines: seq<Event>, more: seq<Event>)
    ensures Printed(done, side, guid, lines) + Printed(done || lines != [], side, guid, more) == Printed(done, side, guid, lines + more)
  {
    assert lines == [] ==> lines + more == more;
  }

  // diff_iter_out_header
  method HeaderOnce(side: Side, guid: nat, events: seq<Event>, done: bool) returns (out: seq<Event>)
    ensures out == if done then events else events + [Header(side, guid)]
  {
    out := events;
    if !done {
      out := out + [Header(side, guid)];
    }
  }

  // The lines of one slot in diff_ports
  method DiffSlot(a: Node, b: Node, p: nat, headed: bool, flags: Flags, side: Side) returns (out: seq<Event>)
    ensures out == Printed(headed, side, a.guid, SlotEvents(a.Slot(p), b.Slot(p), p, flags, side))
  {
    out := [];
    var done := headed;
    var out1, out2 := CountLines(a.Slot(p), b.Slot(p), flags);
    if out1 > 0 {
      out := HeaderOnce(side, a.guid, out, done);
      done := true;
      out := out + [PortLine(side, p, a.ports[p])];
    }
    if out2 > 0 {
      out := HeaderOnce(side, a.guid, out, done);
      out := out + [PortLine(side.Opposite(), p, b.ports[p])];
    }
  }

  // diff_ports, where done is out_header_flag
  method DiffPorts(a: Node, b: Node, done: bool, flags: Flags, side: Side) returns (out: seq<Event>)
    ensures out == Printed(done, side, a.guid, PortEvents(a, b, a.numports, flags, side))
  {
    out := [];
    for p := 1 to a.numports + 1
      invariant out == Printed(done, side, a.guid, PortEvents(a, b, p - 1, flags, side))
    {
      PrintedMore(done, side, a.guid, PortEvents(a, b, p - 1, flags, side), SlotEvents(a.Slot(p), b.Slot(p), p, flags, side));
      assert done || out != [] <==> done || PortEvents(a, b, p - 1, flags, side) != [];
      var lines := DiffSlot(a, b, p, done || out != [], flags, side);
      out := out + lines;
    }
  }

  // ---------------------------------------------------------------------------
  // diff_iter_func

  // The lines of the links of a node that the other fabric does not have
  function LinkEvents(a: Node, n: nat, side: Side): seq<Event> {
    if n == 0 then []
    else LinkEvents(a, n - 1, side)
         + (if a.Slot(n).Some? && a.Slot(n).value.remote.Some? then [PortLine(side, n, a.Slot(n).value)] else [])
  }

  // The lines below the header of a node that both fabrics have
  function PairEvents(a: Node, b: Node, flags: Flags, side: Side): seq<Event> {
    (if SameHead(a, b, flags) then [] else [Detail(side.Opposite(), b.guid)])
    + (if a.numports != b.numports then [NumPorts(side, a.numports), NumPorts(side.Opposite(), b.numports)]
       else if flags.links || flags.lids then PortEvents(a, b, a.numports, flags, side)
       else [])
  }

  function NodeEvents(a: Node, other: Nodes, flags: Flags, side: Side): seq<Event> {
    match Find(other, a.guid)
    case None => [Header(side, a.guid)] + LinkEvents(a, a.numports, side)
    case Some(b) =>
      if flags.links || flags.lids || flags.descs then Headed(side, a.guid, PairEvents(a, b, flags, side)) else []
  }

  method DiffMissing(a: Node, side: Side) returns (out: seq<Event>)
    ensures out == [Header(side, a.guid)] + LinkEvents(a, a.numports, side)
  {
    out := [Header(side, a.guid)];
    for p := 1 to a.numports + 1
      invariant out == [Header(side, a.guid)] + LinkEvents(a, p - 1, side)
    {
      if p in a.ports && a.ports[p].remote.Some? {
        out := out + [PortLine(side, p, a.ports[p])];
      }
    }
  }

  // A node that both fabrics have
  method DiffPair(a: Node, b: Node, flags: Flags, side: Side) returns (out: seq<Event>)
    ensures out == Headed(side, a.guid, PairEvents(a, b, flags, side))
  {
    var done := false;
    out := [];
    if (flags.lids && a.smalid != b.smalid) || (flags.descs && a.desc != b.desc) {
      out := [Header(side, a.guid), Detail(side.Opposite(), b.guid)];
      done := true;
    }
    if a.numports != b.numports {
      out := HeaderOnce(side, a.guid, out, done);
      out := out + [NumPorts(side, a.numports), NumPorts(side.Opposite(), b.numports)];
      return;
    }
    if flags.links || flags.lids {
      var lines := DiffPorts(a, b, done, flags, side);
      out := out + lines;
    }
  }

  method DiffNode(a: Node, other: Nodes, flags: Flags, side: Side) returns (out: seq<Event>)
    ensures out == NodeEvents(a, other, flags, side)
  {
    var found := Find(other, a.guid);
    if found.None? {
      out := DiffMissing(a, side);
    } else if flags.links || flags.lids || flags.descs {
      out := DiffPair(a, found.value, flags, side);
    } else {
      out := [];
    }
  }

  // ---------------------------------------------------------------------------
  // diff_common and diff

  function ListEvents(list: Nodes, other: Nodes, flags: Flags, side: Side): seq<Event> {
    if list == [] then []
    else ListEvents(list[..|list| - 1], other, flags, side) + NodeEvents(list[|list| - 1], other, flags, side)
  }

  // ibnd_iter_nodes_type over diff_iter_func
  method DiffList(list: Nodes, other: Nodes, flags: Flags, side: Side) returns (out: seq<Event>)
    ensures out == ListEvents(list, other, flags, side)
  {
    out := [];
    for i := 0 to |list|
      invariant out == ListEvents(list[..i], other, flags, side)
    {
      var lines := DiffNode(list[i], other, flags, side);
      assert list[..i + 1][..i] == list[..i];
      out := out + lines;
    }
    assert list[..|list|] == list;
  }

  function KindEvents(orig: Nodes, later: Nodes, kind: F.Kind, flags: Flags): seq<Event> {
    ListEvents(OfKind(orig, kind), later, flags, Old)
    + ListEvents(OfKind(later, kind), orig, flags.KindsOnly(), New)
  }

  // diff_common
  method DiffCommon(orig: Nodes, later: Nodes, kind: F.Kind, flags: Flags) returns (out: seq<Event>)
    ensures out == KindEvents(orig, later, kind, flags)
  {
    out := DiffList(OfKind(orig, kind), later, flags, Old);
    var back := DiffList(OfKind(later, kind), orig, flags.KindsOnly(), New);
    out := out + back;
  }

  function SelectedEvents(orig: Nodes, later: Nodes, kind: F.Kind, flags: Flags): seq<Event> {
    if flags.Checks(kind) then KindEvents(orig, later, kind, flags) else []
  }

  function DiffEvents(orig: Nodes, later: Nodes, flags: Flags): seq<Event> {
    SelectedEvents(orig, later, F.Switch, flags) + SelectedEvents(orig, later, F.CA, flags)
    + SelectedEvents(orig, later, F.Router, flags)
  }

  // diff: no output at all means that every node has its like on the other side.
  method DiffFabrics(orig: Nodes, later: Nodes, flags: Flags) returns (out: seq<Event>)
    ensures out == DiffEvents(orig, later, flags)
    ensures out == [] <==> AllMatched(orig, later, flags) && AllMatched(later, orig, flags.KindsOnly())
  {
    out := [];
    if flags.switches {
      out := DiffCommon(orig, later, F.Switch, flags);
    }
    assert out == SelectedEvents(orig, later, F.Switch, flags);
    if flags.cas {
      var lines := DiffCommon(orig, later, F.CA, flags);
      out := out + lines;
    }
    assert out == SelectedEvents(orig, later, F.Switch, flags) + SelectedEvents(orig, later, F.CA, flags);
    if flags.routers {
      var lines := DiffCommon(orig, later, F.Router, flags);
      out := out + lines;
    }
    AllQuiet(orig, later, flags);
  }

  // ---------------------------------------------------------------------------
  // What is printed

  // A slot is silent exactly when it is the same on both sides.
  lemma SlotQuiet(a: Option<Port>, b: Option<Port>, p: nat, flags: Flags, side: Side)
    ensures SlotEvents(a, b, p, flags, side) == [] <==> SameSlot(a, b, flags)
  {
    if a.Some? && b.Some? && !SameSlot(a, b, flags) {
      assert PrintsFirst(a, b, flags) || PrintsFirst(b, a, flags);
    }
  }

  lemma {:induction false} PortsQuiet(a: Node, b: Node, n: nat, flags: Flags, side: Side)
    ensures PortEvents(a, b, n, flags, side) == []
            <==> forall p :: 1 <= p <= n ==> SameSlot(a.Slot(p), b.Slot(p), flags)
    decreases n
  {
    if n > 0 {
      PortsQuiet(a, b, n - 1, flags, side);
      SlotQuiet(a.Slot(n), b.Slot(n), n, flags, side);
    }
  }

  lemma NodeQuiet(a: Node, other: Nodes, flags: Flags, side: Side)
    ensures NodeEvents(a, other, flags, side) == [] <==> Matched(a, other, flags)
  {
    var found := Find(other, a.guid);
    if found.Some? {
      PortsQuiet(a, found.value, a.numports, flags, side);
    }
  }

  lemma {:induction false} ListQuiet(list: Nodes, other: Nodes, flags: Flags, side: Side)
    ensures ListEvents(list, other, flags, side) == [] <==> forall b :: b in list ==> Matched(b, other, flags)
    decreases |list|
  {
    if list != [] {
      var front, last := list[..|list| - 1], list[|list| - 1];
      ListQuiet(front, other, flags, side);
      NodeQuiet(last, other, flags, side);
      assert list == front + [last];
    }
  }

  // The nodes of one kind and their likes
  ghost predicate KindMatched(nodes: Nodes, other: Nodes, kind: F.Kind, flags: Flags) {
    forall b :: b in nodes && b.kind == kind ==> Matched(b, other, flags)
  }

  lemma KindQuiet(orig: Nodes, later: Nodes, kind: F.Kind, flags: Flags)
    ensures KindEvents(orig, later, kind, flags) == []
            <==> KindMatched(orig, later, kind, flags) && KindMatched(later, orig, kind, flags.KindsOnly())
  {
    ListQuiet(OfKind(orig, kind), later, flags, Old);
    ListQuiet(OfKind(later, kind), orig, flags.KindsOnly(), New);
  }

  lemma AllQuiet(orig: Nodes, later: Nodes, flags: Flags)
    ensures DiffEvents(orig, later, flags) == []
            <==> AllMatched(orig, later, flags) && AllMatched(later, orig, flags.KindsOnly())
  {
    KindQuiet(orig, later, F.Switch, flags);
    KindQuiet(orig, later, F.CA, flags);
    KindQuiet(orig, later, F.Router, flags);
    ByKind(orig, later, flags, flags);
    ByKind(later, orig, flags.KindsOnly(), flags);
  }

  // Checking kind by kind is checking all.
  lemma ByKind(nodes: Nodes, other: Nodes, compare: Flags, flags: Flags)
    requires forall kind :: compare.Checks(kind) == flags.Checks(kind)
    ensures AllMatched(nodes, other, compare)
            <==> forall kind :: flags.Checks(kind) ==> KindMatched(nodes, other, kind, compare)
  {
    if forall kind :: flags.Checks(kind) ==> KindMatched(nodes, other, kind, compare) {
      forall b | b in nodes && compare.Checks(b.kind)
        ensures Matched(b, other, compare)
      {
        assert KindMatched(nodes, other, b.kind, compare);
      }
    }
  }

  // A port of a node that both fabrics have is on a line of its side exactly when
  // PrintsFirst says so, and with its own number.
  lemma {:induction false} PortLines(a: Node, b: Node, n: nat, flags: Flags, side: Side, p: nat, port: Port)
    ensures PortLine(side, p, port) in PortEvents(a, b, n, flags, side)
            <==> 1 <= p <= n && a.Slot(p) == Some(port) && PrintsFirst(a.Slot(p), b.Slot(p), flags)
    ensures PortLine(side.Opposite(), p, port) in PortEvents(a, b, n, flags, side)
            <==> 1 <= p <= n && b.Slot(p) == Some(port) && PrintsFirst(b.Slot(p), a.Slot(p), flags)
    decreases n
  {
    if n > 0 {
      PortLines(a, b, n - 1, flags, side, p, port);
    }
  }

  // The port lines of a node that the other fabric does not have: its links
  lemma {:induction false} LinkLinesAre(a: Node, n: nat, side: Side, e: Event)
    ensures e in LinkEvents(a, n, side) <==>
      e.PortLine? && e.side == side && 1 <= e.num <= n && a.Slot(e.num) == Some(e.port) && e.port.remote.Some?
    decreases n
  {
    if n > 0 { LinkLinesAre(a, n - 1, side, e); }
  }

  lemma {:induction false} OnlyPortLines(a: Node, b: Node, n: nat, flags: Flags, side: Side, e: Event)
    requires e in PortEvents(a, b, n, flags, side)
    ensures e.PortLine?
    decreases n
  {
    if n > 0 && e in PortEvents(a, b, n - 1, flags, side) { OnlyPortLines(a, b, n - 1, flags, side, e); }
  }

  predicate Compares(flags: Flags) { flags.links || flags.lids || flags.descs }

  // A line that belongs below the header of a node, whose like in the other fabric is b:
  // for each side its own number of ports, and its own port
  ghost predicate LineOfPair(a: Node, b: Node, flags: Flags, side: Side, e: Event) {
    match e
    case Header(_, _) => false
    case Detail(s, guid) => s != side && guid == b.guid && ((flags.lids && a.smalid != b.smalid) || (flags.descs && a.desc != b.desc))
    case NumPorts(s, count) => a.numports != b.numports && count == if s == side then a.numports else b.numports
    case PortLine(s, p, port) =>
      && (flags.links || flags.lids) && a.numports == b.numports && 1 <= p <= a.numports
      && if s == side then a.Slot(p) == Some(port) && PrintsFirst(a.Slot(p), b.Slot(p), flags)
         else b.Slot(p) == Some(port) && PrintsFirst(b.Slot(p), a.Slot(p), flags)
  }

  lemma PortLinesOfPair(a: Node, b: Node, flags: Flags, side: Side, e: Event)
    requires e.PortLine?
    ensures e in PairEvents(a, b, flags, side) <==>
      (flags.links || flags.lids) && a.numports == b.numports && e in PortEvents(a, b, a.numports, flags, side)
  {
  }

  lemma PairLines(a: Node, b: Node, flags: Flags, side: Side, e: Event)
    ensures e in PairEvents(a, b, flags, side) <==> LineOfPair(a, b, flags, side, e)
  {
    if e.PortLine? {
      PortLines(a, b, a.numports, flags, side, e.num, e.port);
      assert e == PortLine(if e.side == side then side else side.Opposite(), e.num, e.port);
      PortLinesOfPair(a, b, flags, side, e);
    } else if e in PortEvents(a, b, a.numports, flags, side) {
      OnlyPortLines(a, b, a.numports, flags, side, e);
    }
  }

  lemma HeadedHas(side: Side, guid: nat, lines: seq<Event>, e: Event)
    ensures e in Headed(side, guid, lines) <==> lines != [] && (e == Header(side, guid) || e in lines)
  {
  }

  // All lines about a node: a missing one has its header and its links; a node that differs
  // has its header and the lines of the pair.
  lemma NodeLines(a: Node, other: Nodes, flags: Flags, side: Side, e: Event)
    ensures var found := Find(other, a.guid);
      e in NodeEvents(a, other, flags, side) <==>
        if e.Header? then e.side == side && e.guid == a.guid && (found.None? || (Compares(flags) && !SameNode(a, found.value, flags)))
        else if found.None? then
          e.PortLine? && e.side == side && 1 <= e.num <= a.numports && a.Slot(e.num) == Some(e.port) && e.port.remote.Some?
        else Compares(flags) && LineOfPair(a, found.value, flags, side, e)
    ensures NodeEvents(a, other, flags, side) != [] ==> NodeEvents(a, other, flags, side)[0] == Header(side, a.guid)
  {
    match Find(other, a.guid)
    case None => LinkLinesAre(a, a.numports, side, e);
    case Some(b) =>
      var lines := PairEvents(a, b, flags, side);
      PairLines(a, b, flags, side, e);
      NodeQuiet(a, other, flags, side);
      HeadedHas(side, a.guid, lines, e);
      if Compares(flags) {
        assert NodeEvents(a, other, flags, side) == Headed(side, a.guid, lines);
        assert lines == [] <==> SameNode(a, b, flags);
      }
  }

  // ---------------------------------------------------------------------------
  // Unique GUIDs

  ghost predicate Unique(nodes: Nodes) {
    forall i, j :: 0 <= i < |nodes| && 0 <= j < |nodes| && nodes[i].guid == nodes[j].guid ==> i == j
  }

  // create_node puts switches, CAs and routers in the type lists.
  predicate Typed(nodes: Nodes) {
    forall b :: b in nodes ==> b.kind != F.Other
  }

  function Guids(nodes: Nodes): set<nat> {
    set b | b in nodes :: b.guid
  }

  lemma {:induction false} FindUnique(nodes: Nodes, b: Node)
    requires Unique(nodes) && b in nodes
    ensures Find(nodes, b.guid) == Some(b)
    decreases |nodes|
  {
    var i :| 0 <= i < |nodes| && nodes[i] == b;
    if i > 0 {
      assert nodes[0].guid != nodes[i].guid;
      assert nodes[1..][i - 1] == b;
      FindUnique(nodes[1..], b);
    }
  }

  // Every two nodes with one GUID are the same.
  ghost predicate Agree(orig: Nodes, later: Nodes, flags: Flags) {
    forall a, b :: a in orig && b in later && a.guid == b.guid ==> SameNode(a, b, flags)
  }

  // The output is empty exactly when both fabrics have the same GUIDs and what the flags
  // select is equal.
  lemma QuietIff(orig: Nodes, later: Nodes, flags: Flags)
    requires Unique(orig) && Unique(later) && Typed(orig) && Typed(later)
    requires flags.switches && flags.cas && flags.routers
    ensures AllMatched(orig, later, flags) && AllMatched(later, orig, flags.KindsOnly())
            <==> Guids(orig) == Guids(later) && Agree(orig, later, flags)
  {
    if AllMatched(orig, later, flags) && AllMatched(later, orig, flags.KindsOnly()) {
      SameGuids(orig, later, flags);
      forall a, b | a in orig && b in later && a.guid == b.guid
        ensures SameNode(a, b, flags)
      {
        FindUnique(later, b);
        assert Matched(a, later, flags);
      }
    }
    if Guids(orig) == Guids(later) && Agree(orig, later, flags) {
      forall a | a in orig
        ensures Matched(a, later, flags)
      {
        assert a.guid in Guids(later);
      }
      forall b | b in later
        ensures Matched(b, orig, flags.KindsOnly())
      {
        assert b.guid in Guids(orig);
      }
    }
  }

  // diff prints nothing exactly when both fabrics have the same GUIDs and every node
  // agrees with its like.
  lemma SilentIff(orig: Nodes, later: Nodes, flags: Flags)
    requires Unique(orig) && Unique(later) && Typed(orig) && Typed(later)
    requires flags.switches && flags.cas && flags.routers
    ensures DiffEvents(orig, later, flags) == [] <==> Guids(orig) == Guids(later) && Agree(orig, later, flags)
  {
    AllQuiet(orig, later, flags);
    QuietIff(orig, later, flags);
  }

  // With the default flags a slot is compared by its port, the GUID of the port, its link
  // and the GUID at the other end; which port of the other node the link goes to is not.
  predicate SameByDefault(a: Option<Port>, b: Option<Port>) {
    match (a, b)
    case (None, None) => true
    case (Some(p), Some(q)) =>
      && p.guid == q.guid && p.remote.Some? == q.remote.Some?
      && (p.remote.Some? ==> p.remote.value.guid == q.remote.value.guid)
    case (_, _) => false
  }

  lemma DefaultSilentIff(orig: Nodes, later: Nodes)
    requires Unique(orig) && Unique(later) && Typed(orig) && Typed(later)
    ensures DiffEvents(orig, later, DEFAULT) == [] <==>
      && Guids(orig) == Guids(later)
      && forall a, b :: a in orig && b in later && a.guid == b.guid ==> SameNodeByDefault(a, b)
  {
    SilentIff(orig, later, DEFAULT);
    DefaultAgree(orig, later);
  }

  predicate SameNodeByDefault(a: Node, b: Node) {
    a.numports == b.numports && forall p :: 1 <= p <= a.numports ==> SameByDefault(a.Slot(p), b.Slot(p))
  }

  lemma DefaultAgree(orig: Nodes, later: Nodes)
    ensures Agree(orig, later, DEFAULT) <==>
      forall a, b :: a in orig && b in later && a.guid == b.guid ==> SameNodeByDefault(a, b)
  {
    forall a, b | a in orig && b in later
      ensures SameNode(a, b, DEFAULT) <==> SameNodeByDefault(a, b)
    {
      DefaultNode(a, b);
    }
  }

  lemma DefaultNode(a: Node, b: Node)
    ensures SameNode(a, b, DEFAULT) <==> SameNodeByDefault(a, b)
  {
    assert forall p :: SameSlot(a.Slot(p), b.Slot(p), DEFAULT) <==> SameByDefault(a.Slot(p), b.Slot(p));
  }

  lemma SameGuids(orig: Nodes, later: Nodes, flags: Flags)
    requires Typed(orig) && Typed(later) && flags.switches && flags.cas && flags.routers
    requires AllMatched(orig, later, flags) && AllMatched(later, orig, flags.KindsOnly())
    ensures Guids(orig) == Guids(later)
  {
    forall a | a in orig
      ensures a.guid in Guids(later)
    {
      assert Matched(a, later, flags);
    }
    forall b | b in later
      ensures b.guid in Guids(orig)
    {
      assert Matched(b, orig, flags.KindsOnly());
    }
  }

  // Whether there is any output does not depend on which fabric is the original.
  lemma SilentBothWays(orig: Nodes, later: Nodes, flags: Flags)
    requires Unique(orig) && Unique(later) && Typed(orig) && Typed(later)
    requires flags.switches && flags.cas && flags.routers
    ensures DiffEvents(orig, later, flags) == [] <==> DiffEvents(later, orig, flags) == []
  {
    SilentIff(orig, later, flags);
    SilentIff(later, orig, flags);
    if Agree(orig, later, flags) {
      AgreeBothWays(orig, later, flags);
    }
    if Agree(later, orig, flags) {
      AgreeBothWays(later, orig, flags);
    }
  }

  lemma AgreeBothWays(orig: Nodes, later: Nodes, flags: Flags)
    requires Agree(orig, later, flags)
    ensures Agree(later, orig, flags)
  {
    forall b, a | b in later && a in orig && b.guid == a.guid
      ensures SameNode(b, a, flags)
    {
      SameNodeBothWays(a, b, flags);
    }
  }

  lemma SameNodeBothWays(a: Node, b: Node, flags: Flags)
    requires SameNode(a, b, flags)
    ensures SameNode(b, a, flags)
  {
    if flags.links || flags.lids {
      forall p | 1 <= p <= b.numports
        ensures SameSlot(b.Slot(p), a.Slot(p), flags)
      {
        assert SameSlot(a.Slot(p), b.Slot(p), flags);
      }
    }
  }

  // ---------------------------------------------------------------------------
  // Changes that diff does not report

  function PortAt(nodes: Nodes, e: End): Option<Port> {
    match Find(nodes, e.node)
    case None => None
    case Some(a) => a.Slot(e.num)
  }

  function LinkAt(nodes: Nodes, e: End): Option<Remote> {
    match PortAt(nodes, e)
    case None => None
    case Some(port) => port.remote
  }

  // Where the link of a port leads
  function FarEnd(nodes: Nodes, e: End): Option<End> {
    match LinkAt(nodes, e)
    case None => None
    case Some(r) => Some(r.end)
  }

  // The link of port e is seen from its other end too, and says what is there.
  predicate LinkOk(nodes: Nodes, e: End) {
    match LinkAt(nodes, e)
    case None => true
    case Some(r) =>
      && FarEnd(nodes, r.end) == Some(e) && r.end != e
      && PortAt(nodes, r.end).Some? && r.guid == PortAt(nodes, r.end).value.guid && r.lid == PortAt(nodes, r.end).value.lid
      && Find(nodes, r.end.node).Some? && r.desc == Find(nodes, r.end.node).value.desc
      && Find(nodes, e.node).Some? && 1 <= e.num <= Find(nodes, e.node).value.numports
  }

  // A fabric as a scan leaves it: its links are cables.
  ghost predicate FabricOk(nodes: Nodes) {
    Unique(nodes) && Typed(nodes) && forall e :: LinkOk(nodes, e)
  }

  ghost predicate SameWiring(orig: Nodes, later: Nodes) {
    forall e :: FarEnd(orig, e) == FarEnd(later, e)
  }

  // How a linked port is seen from the other end
  function Seen(nodes: Nodes, e: End): Option<Remote> {
    match FarEnd(nodes, e)
    case None => None
    case Some(f) => LinkAt(nodes, f)
  }

  // Two cables that look alike from both of their sides
  predicate Twins(nodes: Nodes, p: End, q: End, flags: Flags) {
    match (LinkAt(nodes, p), LinkAt(nodes, q), Seen(nodes, p), Seen(nodes, q))
    case (Some(r), Some(t), Some(back), Some(other)) => q != p && q != r.end && SameEnd(r, t, flags) && SameEnd(back, other, flags)
    case _ => false
  }

  predicate ChecksLinks(flags: Flags) {
    flags.switches && flags.cas && flags.routers && flags.links
  }

  // What silence says of one node
  lemma SilentNode(orig: Nodes, later: Nodes, guid: nat, flags: Flags)
    requires Unique(orig) && Unique(later) && Typed(orig) && Typed(later) && ChecksLinks(flags) && DiffEvents(orig, later, flags) == []
    ensures Find(orig, guid).Some? <==> Find(later, guid).Some?
    ensures Find(orig, guid).Some? ==> SameNode(Find(orig, guid).value, Find(later, guid).value, flags)
  {
    SilentIff(orig, later, flags);
    assert Find(orig, guid).Some? ==> guid in Guids(later);
    assert Find(later, guid).Some? ==> guid in Guids(orig);
  }

  // What silence says of one port
  lemma SilentAt(orig: Nodes, later: Nodes, e: End, flags: Flags)
    requires FabricOk(orig) && FabricOk(later) && ChecksLinks(flags) && DiffEvents(orig, later, flags) == []
    ensures LinkAt(orig, e).Some? <==> LinkAt(later, e).Some?
    ensures LinkAt(orig, e).Some? ==>
      && SamePort(PortAt(orig, e).value, PortAt(later, e).value, flags)
      && SameHead(Find(orig, e.node).value, Find(later, e.node).value, flags)
  {
    SilentNode(orig, later, e.node, flags);
    assert LinkOk(orig, e) && LinkOk(later, e);
    if LinkAt(orig, e).Some? || LinkAt(later, e).Some? {
      assert SameSlot(Find(orig, e.node).value.Slot(e.num), Find(later, e.node).value.Slot(e.num), flags);
    }
  }

  lemma SeenOk(nodes: Nodes, e: End)
    requires FabricOk(nodes) && LinkAt(nodes, e).Some?
    ensures var r := Seen(nodes, e);
      && r.Some? && r.value.end == e && r.value.guid == PortAt(nodes, e).value.guid && r.value.lid == PortAt(nodes, e).value.lid
      && r.value.desc == Find(nodes, e.node).value.desc
    ensures var f := FarEnd(nodes, e).value; f != e && FarEnd(nodes, f) == Some(e) && Seen(nodes, f) == LinkAt(nodes, e)
  {
    assert LinkOk(nodes, e) && LinkOk(nodes, FarEnd(nodes, e).value);
  }

  // Both fabrics say the same of a linked port and of what it is linked to.
  lemma SameViews(orig: Nodes, later: Nodes, e: End, flags: Flags)
    requires FabricOk(orig) && FabricOk(later) && ChecksLinks(flags) && DiffEvents(orig, later, flags) == []
    requires LinkAt(orig, e).Some? || LinkAt(later, e).Some?
    ensures LinkAt(orig, e).Some? && LinkAt(later, e).Some? && SameEnd(LinkAt(orig, e).value, LinkAt(later, e).value, flags)
    ensures Seen(orig, e).Some? && Seen(later, e).Some? && SameEnd(Seen(orig, e).value, Seen(later, e).value, flags)
  {
    SilentAt(orig, later, e, flags);
    SeenOk(orig, e);
    SeenOk(later, e);
  }

  // A link that changed without a report has a twin: the cable that its new far end had.
  lemma MovedHasTwin(orig: Nodes, later: Nodes, p: End, flags: Flags) returns (q: End)
    requires FabricOk(orig) && FabricOk(later) && ChecksLinks(flags) && DiffEvents(orig, later, flags) == []
    requires FarEnd(orig, p) != FarEnd(later, p)
    ensures Twins(orig, p, q, flags)
  {
    SameViews(orig, later, p, flags);
    var after := FarEnd(later, p).value;
    SeenOk(later, p);
    SameViews(orig, later, after, flags);
    SeenOk(orig, p);
    SeenOk(orig, after);
    q := FarEnd(orig, after).value;
  }

  // The port whose link port e gets when the far ends of the cables at p and q are exchanged
  function Giver(nodes: Nodes, p: End, q: End, e: End): End {
    if e == p then q
    else if e == q then p
    else if FarEnd(nodes, p) == Some(e) && FarEnd(nodes, q).Some? then FarEnd(nodes, q).value
    else if FarEnd(nodes, q) == Some(e) && FarEnd(nodes, p).Some? then FarEnd(nodes, p).value
    else e
  }

  function Swapped(nodes: Nodes, p: End, q: End, e: End): Option<Remote> {
    LinkAt(nodes, Giver(nodes, p, q, e))
  }

  function Rewired(nodes: Nodes, p: End, q: End, a: Node): Node {
    a.(ports := map n | n in a.ports :: a.ports[n].(remote := Swapped(nodes, p, q, End(a.guid, n))))
  }

  function Exchanged(nodes: Nodes, p: End, q: End): (later: Nodes)
    ensures |later| == |nodes| && forall i :: 0 <= i < |nodes| ==> later[i] == Rewired(nodes, p, q, nodes[i])
  {
    seq(|nodes|, i requires 0 <= i < |nodes| => Rewired(nodes, p, q, nodes[i]))
  }

  lemma ExchangedNode(nodes: Nodes, p: End, q: End, guid: nat)
    requires Unique(nodes)
    ensures Unique(Exchanged(nodes, p, q))
    ensures Find(nodes, guid).None? ==> Find(Exchanged(nodes, p, q), guid).None?
    ensures Find(nodes, guid).Some? ==> Find(Exchanged(nodes, p, q), guid) == Some(Rewired(nodes, p, q, Find(nodes, guid).value))
  {
    var later := Exchanged(nodes, p, q);
    assert Unique(later);
    if Find(nodes, guid).Some? {
      var i :| 0 <= i < |nodes| && nodes[i] == Find(nodes, guid).value;
      FindUnique(later, later[i]);
    }
    if Find(later, guid).Some? {
      var i :| 0 <= i < |later| && later[i] == Find(later, guid).value;
      FindUnique(nodes, nodes[i]);
    }
  }

  lemma ExchangedPort(nodes: Nodes, p: End, q: End, e: End)
    requires Unique(nodes)
    ensures var later := Exchanged(nodes, p, q);
      && (PortAt(nodes, e).Some? <==> PortAt(later, e).Some?)
      && (PortAt(nodes, e).Some? ==> PortAt(later, e).value == PortAt(nodes, e).value.(remote := Swapped(nodes, p, q, e)))
  {
    ExchangedNode(nodes, p, q, e.node);
  }

  lemma ExchangedAt(nodes: Nodes, p: End, q: End, e: End)
    requires FabricOk(nodes) && LinkAt(nodes, p).Some? && LinkAt(nodes, q).Some?
    ensures LinkAt(Exchanged(nodes, p, q), e) == Swapped(nodes, p, q, e)
  {
    ExchangedPort(nodes, p, q, e);
    SeenOk(nodes, p);
    SeenOk(nodes, q);
  }

  lemma ExchangeOk(nodes: Nodes, p: End, q: End, flags: Flags)
    requires FabricOk(nodes) && Twins(nodes, p, q, flags)
    ensures FabricOk(Exchanged(nodes, p, q)) && !SameWiring(nodes, Exchanged(nodes, p, q))
  {
    var later := Exchanged(nodes, p, q);
    ExchangedNode(nodes, p, q, 0);
    forall e
      ensures LinkOk(later, e)
    {
      ExchangedLink(nodes, p, q, e, flags);
    }
    ExchangedAt(nodes, p, q, p);
    assert LinkOk(nodes, p) && LinkOk(nodes, q);
    assert FarEnd(later, p) != FarEnd(nodes, p);
  }

  // The ends of two cables
  lemma FourEnds(nodes: Nodes, p: End, q: End, flags: Flags) returns (r: End, t: End)
    requires FabricOk(nodes) && Twins(nodes, p, q, flags)
    ensures FarEnd(nodes, p) == Some(r) && FarEnd(nodes, r) == Some(p) && FarEnd(nodes, q) == Some(t) && FarEnd(nodes, t) == Some(q)
    ensures p != q && p != r && p != t && q != r && q != t && r != t
  {
    r, t := FarEnd(nodes, p).value, FarEnd(nodes, q).value;
    SeenOk(nodes, p);
    SeenOk(nodes, q);
  }

  // The new links come in pairs.
  lemma GiversPaired(nodes: Nodes, p: End, q: End, e: End, flags: Flags)
    requires FabricOk(nodes) && Twins(nodes, p, q, flags) && Swapped(nodes, p, q, e).Some?
    ensures var f := Swapped(nodes, p, q, e).value.end;
      f != e && LinkAt(nodes, e).Some? && LinkAt(nodes, f).Some? && FarEnd(nodes, Giver(nodes, p, q, f)) == Some(e)
  {
    var r, t := FourEnds(nodes, p, q, flags);
    if e !in {p, q, r, t} {
      SeenOk(nodes, e);
    }
  }

  lemma ExchangedLink(nodes: Nodes, p: End, q: End, e: End, flags: Flags)
    requires FabricOk(nodes) && Twins(nodes, p, q, flags)
    ensures LinkOk(Exchanged(nodes, p, q), e)
  {
    ExchangedAt(nodes, p, q, e);
    if Swapped(nodes, p, q, e).Some? {
      var g := Giver(nodes, p, q, e);
      var f := LinkAt(nodes, g).value.end;
      GiversPaired(nodes, p, q, e, flags);
      SeenOk(nodes, g);
      SeenOk(nodes, f);
      ExchangedAt(nodes, p, q, f);
      ExchangedPort(nodes, p, q, f);
      ExchangedNode(nodes, p, q, e.node);
      ExchangedNode(nodes, p, q, f.node);
      assert LinkOk(nodes, e);
    }
  }

  // An exchange of twins is not reported.
  lemma ExchangeSilent(nodes: Nodes, p: End, q: End, flags: Flags)
    requires FabricOk(nodes) && ChecksLinks(flags) && Twins(nodes, p, q, flags)
    ensures DiffEvents(nodes, Exchanged(nodes, p, q), flags) == []
  {
    var later := Exchanged(nodes, p, q);
    ExchangeOk(nodes, p, q, flags);
    SilentIff(nodes, later, flags);
    forall g
      ensures g in Guids(nodes) <==> g in Guids(later)
    {
      ExchangedNode(nodes, p, q, g);
    }
    forall a, b | a in nodes && b in later && a.guid == b.guid
      ensures SameNode(a, b, flags)
    {
      FindUnique(nodes, a);
      FindUnique(later, b);
      ExchangedNode(nodes, p, q, a.guid);
      RewiredSame(nodes, p, q, a, flags);
    }
  }

  lemma RewiredSame(nodes: Nodes, p: End, q: End, a: Node, flags: Flags)
    requires FabricOk(nodes) && Twins(nodes, p, q, flags) && Find(nodes, a.guid) == Some(a)
    ensures SameNode(a, Rewired(nodes, p, q, a), flags)
  {
    forall n | 1 <= n <= a.numports
      ensures SameSlot(a.Slot(n), Rewired(nodes, p, q, a).Slot(n), flags)
    {
      SwappedSame(nodes, p, q, End(a.guid, n), flags);
    }
  }

  lemma SwappedSame(nodes: Nodes, p: End, q: End, e: End, flags: Flags)
    requires FabricOk(nodes) && Twins(nodes, p, q, flags)
    ensures LinkAt(nodes, e).Some? <==> Swapped(nodes, p, q, e).Some?
    ensures LinkAt(nodes, e).Some? ==> SameEnd(LinkAt(nodes, e).value, Swapped(nodes, p, q, e).value, flags)
  {
    assert LinkOk(nodes, p) && LinkOk(nodes, q);
  }

  // A diff that compares links can miss a change of the wiring exactly when two cables of
  // the original look alike from both sides: with the default flags, when they join ports
  // of the same two GUIDs, as all cables between two switches do.
  lemma MissesChangeIff(orig: Nodes, flags: Flags)
    requires FabricOk(orig) && ChecksLinks(flags)
    ensures (exists later :: FabricOk(later) && DiffEvents(orig, later, flags) == [] && !SameWiring(orig, later))
            <==> exists p, q :: Twins(orig, p, q, flags)
  {
    if later :| FabricOk(later) && DiffEvents(orig, later, flags) == [] && !SameWiring(orig, later) {
      var p :| FarEnd(orig, p) != FarEnd(later, p);
      var q := MovedHasTwin(orig, later, p, flags);
    }
    if p, q :| Twins(orig, p, q, flags) {
      ExchangeOk(orig, p, q, flags);
      ExchangeSilent(orig, p, q, flags);
    }
  }

  // Switches 1 and 2 with a cable between their ports 1 and one between their ports 2
  const TWO_CABLES: Nodes :=
    [Node(1, F.Switch, 2, 0, 0, map[1 := Port(1, 0, Some(Remote(End(2, 1), 2, 0, 0))), 2 := Port(1, 0, Some(Remote(End(2, 2), 2, 0, 0)))]),
     Node(2, F.Switch, 2, 0, 0, map[1 := Port(2, 0, Some(Remote(End(1, 1), 1, 0, 0))), 2 := Port(2, 0, Some(Remote(End(1, 2), 1, 0, 0)))])]

  lemma FindTwo(guid: nat)
    ensures Find(TWO_CABLES, guid) == if guid == 1 then Some(TWO_CABLES[0]) else if guid == 2 then Some(TWO_CABLES[1]) else None
  {
    assert TWO_CABLES[1..] == [TWO_CABLES[1]];
    assert TWO_CABLES[1..][1..] == [];
  }

  lemma TwoCablesOk()
    ensures FabricOk(TWO_CABLES) && Twins(TWO_CABLES, End(1, 1), End(1, 2), DEFAULT)
  {
    FindTwo(1);
    FindTwo(2);
    forall e
      ensures LinkOk(TWO_CABLES, e)
    {
      FindTwo(e.node);
    }
  }

  // Exchanged at one side, they are not reported: port 1 of switch 1 is then linked to
  // port 2 of switch 2.
  lemma ExchangeIsNotReported()
    ensures var later := Exchanged(TWO_CABLES, End(1, 1), End(1, 2));
      && FabricOk(TWO_CABLES) && FabricOk(later) && DiffEvents(TWO_CABLES, later, DEFAULT) == []
      && FarEnd(TWO_CABLES, End(1, 1)) == Some(End(2, 1)) && FarEnd(later, End(1, 1)) == Some(End(2, 2))
  {
    TwoCablesOk();
    FindTwo(1);
    ExchangeOk(TWO_CABLES, End(1, 1), End(1, 2), DEFAULT);
    ExchangeSilent(TWO_CABLES, End(1, 1), End(1, 2), DEFAULT);
    ExchangedAt(TWO_CABLES, End(1, 1), End(1, 2), End(1, 1));
  }
}
