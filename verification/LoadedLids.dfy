// The LID map of a scan and the one that is rebuilt when its cache is loaded.  The cache
// holds the ports chain by chain, each chain from its head on, and the loader registers
// them from the last to the first.
module LoadedLids {
  import opened Wrappers
  import opened Fabric
  import opened Tables
  import W = CacheWriter

  // What is registered for a list of ports from its end on
  ghost function BackEntries(g: Graph, ps: seq<PortRef>): (r: seq<PortEntry>)
    requires forall p :: p in ps ==> p in g.ports
    ensures |r| == |ps| && forall i :: 0 <= i < |r| ==> r[i] == EntryOf(g, ps[|ps| - 1 - i])
  {
    seq(|ps|, i requires 0 <= i < |ps| => EntryOf(g, ps[|ps| - 1 - i]))
  }

  // Entries say what the ports say.
  ghost predicate EntriesTrue(g: Graph, rs: seq<PortEntry>) {
    forall r :: r in rs ==> r.port in g.ports && r == EntryOf(g, r.port)
  }

  // The first entry of a bucket that covers a LID
  ghost function FirstIn(rs: seq<PortEntry>, h: nat, lid: nat): Option<PortRef> {
    if rs == [] then None
    else if Covers(rs[0], lid) && Bucket(rs[0].guid) == h then Some(rs[0].port)
    else FirstIn(rs[1..], h, lid)
  }

  lemma {:induction false} FirstInSnoc(rs: seq<PortEntry>, r: PortEntry, h: nat, lid: nat)
    ensures FirstIn(rs + [r], h, lid) ==
      if FirstIn(rs, h, lid).Some? then FirstIn(rs, h, lid)
      else if Covers(r, lid) && Bucket(r.guid) == h then Some(r.port) else None
    decreases |rs|
  {
    if rs == [] {
      assert (rs + [r])[1..] == [];
    } else {
      assert (rs + [r])[1..] == rs[1..] + [r];
      FirstInSnoc(rs[1..], r, h, lid);
    }
  }

  lemma {:induction false} FirstInCovers(g: Graph, rs: seq<PortEntry>, h: nat, lid: nat)
    requires EntriesTrue(g, rs)
    ensures match FirstIn(rs, h, lid)
      case Some(p) => p in g.ports && EntryOf(g, p) in rs && Covers(EntryOf(g, p), lid) && Bucket(EntryOf(g, p).guid) == h
      case None => forall r :: r in rs && Covers(r, lid) ==> Bucket(r.guid) != h
    decreases |rs|
  {
    if rs != [] && !(Covers(rs[0], lid) && Bucket(rs[0].guid) == h) {
      FirstInCovers(g, rs[1..], h, lid);
    }
  }

  // The first entry of all is the first of its bucket.
  lemma {:induction false} FirstOfAll(g: Graph, rs: seq<PortEntry>, lid: nat)
    requires EntriesTrue(g, rs)
    ensures match FirstCover(rs, lid)
      case Some(p) => p in g.ports && FirstIn(rs, Bucket(EntryOf(g, p).guid), lid) == Some(p)
      case None => forall r :: r in rs ==> !Covers(r, lid)
    decreases |rs|
  {
    if rs != [] {
      assert rs[0] in rs;
      if !Covers(rs[0], lid) {
        FirstOfAll(g, rs[1..], lid);
      }
    }
  }

  lemma {:induction false} FirstCoverConcat(a: seq<PortEntry>, b: seq<PortEntry>, lid: nat)
    ensures FirstCover(a + b, lid) == if FirstCover(a, lid).Some? then FirstCover(a, lid) else FirstCover(b, lid)
    decreases |a|
  {
    if a == [] {
      assert a + b == b;
    } else {
      assert (a + b)[1..] == a[1..] + b;
      FirstCoverConcat(a[1..], b, lid);
    }
  }

  // The port that gets a LID when a list of ports is registered from its end on
  ghost function FirstBack(g: Graph, ps: seq<PortRef>, lid: nat): Option<PortRef>
    requires forall p :: p in ps ==> p in g.ports
  {
    FirstCover(BackEntries(g, ps), lid)
  }

  lemma FirstBackConcat(g: Graph, a: seq<PortRef>, b: seq<PortRef>, lid: nat)
    requires forall p :: p in a + b ==> p in g.ports
    ensures (forall p :: p in a ==> p in g.ports) && (forall p :: p in b ==> p in g.ports)
    ensures FirstBack(g, a + b, lid) == if FirstBack(g, b, lid).Some? then FirstBack(g, b, lid) else FirstBack(g, a, lid)
  {
    assert forall p :: p in a || p in b ==> p in a + b;
    assert BackEntries(g, a + b) == BackEntries(g, b) + BackEntries(g, a);
    FirstCoverConcat(BackEntries(g, b), BackEntries(g, a), lid);
  }

  lemma FirstBackOne(g: Graph, p: PortRef, lid: nat)
    requires p in g.ports
    ensures FirstBack(g, [p], lid) == if Covers(EntryOf(g, p), lid) then Some(p) else None
  {
    var one := [EntryOf(g, p)];
    assert BackEntries(g, [p]) == one;
    assert FirstCover(one[1..], lid) == None;
  }

  lemma ChainKnown(g: Graph, rs: seq<PortEntry>, h: nat)
    requires EntriesTrue(g, rs)
    ensures forall p :: p in ChainOf(rs, h) ==> p in g.ports && Bucket(EntryOf(g, p).guid) == h && EntryOf(g, p) in rs
  {
    forall p | p in ChainOf(rs, h)
      ensures p in g.ports && Bucket(EntryOf(g, p).guid) == h && EntryOf(g, p) in rs
    {
      ChainHolds(rs, h, p);
    }
  }

  // A chain of the port table, from its end on, keeps the order in which its ports were
  // first entered.
  lemma {:induction false} ChainKeepsFirst(g: Graph, rs: seq<PortEntry>, h: nat, lid: nat)
    requires EntriesTrue(g, rs)
    ensures forall p :: p in ChainOf(rs, h) ==> p in g.ports
    ensures FirstBack(g, ChainOf(rs, h), lid) == FirstIn(rs, h, lid)
    decreases |rs|
  {
    ChainKnown(g, rs, h);
    if rs != [] {
      var front, r := rs[..|rs| - 1], rs[|rs| - 1];
      assert rs == front + [r] && r in rs;
      ChainKeepsFirst(g, front, h, lid);
      ChainNext(g, front, r, h, lid);
    }
  }

  lemma ChainNext(g: Graph, front: seq<PortEntry>, r: PortEntry, h: nat, lid: nat)
    requires EntriesTrue(g, front + [r]) && forall p :: p in ChainOf(front, h) ==> p in g.ports
    requires FirstBack(g, ChainOf(front, h), lid) == FirstIn(front, h, lid)
    ensures forall p :: p in ChainOf(front + [r], h) ==> p in g.ports
    ensures FirstBack(g, ChainOf(front + [r], h), lid) == FirstIn(front + [r], h, lid)
  {
    ChainKnown(g, front + [r], h);
    assert (front + [r])[..|front|] == front && r in front + [r];
    FirstInSnoc(front, r, h, lid);
    if Bucket(r.guid) == h && r.port !in ChainOf(front, h) {
      FirstBackConcat(g, [r.port], ChainOf(front, h), lid);
      FirstBackOne(g, r.port, lid);
    } else {
      NothingNew(g, front, r, h, lid);
    }
  }

  // An entry that does not enlarge the chain covers nothing new in it.
  lemma NothingNew(g: Graph, front: seq<PortEntry>, r: PortEntry, h: nat, lid: nat)
    requires EntriesTrue(g, front + [r]) && (Bucket(r.guid) != h || r.port in ChainOf(front, h))
    ensures Covers(r, lid) && Bucket(r.guid) == h ==> FirstIn(front, h, lid).Some?
  {
    var all := front + [r];
    assert r in all && forall q :: q in front ==> q in all;
    ChainKnown(g, front, h);
    FirstInCovers(g, front, h, lid);
  }

  lemma {:induction false} TableKnown(g: Graph, rs: seq<PortEntry>, t: seq<seq<PortRef>>, m: nat)
    requires EntriesTrue(g, rs) && TableOf(t, rs) && m <= HTSZ
    ensures forall p :: p in W.Concat(t[..m]) ==> p in g.ports
    decreases m
  {
    if m > 0 {
      TableKnown(g, rs, t, m - 1);
      ChainKnown(g, rs, m - 1);
      assert t[..m][..m - 1] == t[..m - 1];
    }
  }

  // The first entry of the highest bucket below m that has one
  ghost function Top(rs: seq<PortEntry>, lid: nat, m: nat): Option<PortRef> {
    if m == 0 then None else if FirstIn(rs, m - 1, lid).Some? then FirstIn(rs, m - 1, lid) else Top(rs, lid, m - 1)
  }

  lemma {:induction false} TableKeepsTop(g: Graph, rs: seq<PortEntry>, t: seq<seq<PortRef>>, lid: nat, m: nat)
    requires EntriesTrue(g, rs) && TableOf(t, rs) && m <= HTSZ
    ensures forall p :: p in W.Concat(t[..m]) ==> p in g.ports
    ensures FirstBack(g, W.Concat(t[..m]), lid) == Top(rs, lid, m)
    decreases m
  {
    TableKnown(g, rs, t, m);
    if m > 0 {
      TableKeepsTop(g, rs, t, lid, m - 1);
      W.ConcatPrefix(t, m - 1);
      FirstBackConcat(g, W.Concat(t[..m - 1]), t[m - 1], lid);
      ChainKeepsFirst(g, rs, m - 1, lid);
    }
  }

  lemma {:induction false} TopIs(g: Graph, rs: seq<PortEntry>, lid: nat, m: nat)
    requires EntriesTrue(g, rs)
    ensures match Top(rs, lid, m)
      case Some(q) =>
        && q in g.ports && Bucket(EntryOf(g, q).guid) < m && FirstIn(rs, Bucket(EntryOf(g, q).guid), lid) == Some(q)
        && forall r :: r in rs && Covers(r, lid) && Bucket(r.guid) < m ==> Bucket(r.guid) <= Bucket(EntryOf(g, q).guid)
      case None => forall r :: r in rs && Covers(r, lid) ==> Bucket(r.guid) >= m
    decreases m
  {
    if m > 0 {
      FirstInCovers(g, rs, m - 1, lid);
      TopIs(g, rs, lid, m - 1);
    }
  }

  // No port with the LID is in a later chain than p.
  ghost predicate InLastChain(g: Graph, rs: seq<PortEntry>, lid: nat, p: PortRef)
    requires p in g.ports
  {
    forall r :: r in rs && Covers(r, lid) ==> Bucket(r.guid) <= Bucket(EntryOf(g, p).guid)
  }

  lemma TopIsFirst(g: Graph, rs: seq<PortEntry>, lid: nat)
    requires EntriesTrue(g, rs)
    ensures Top(rs, lid, HTSZ).Some? <==> FirstCover(rs, lid).Some?
    ensures FirstCover(rs, lid).Some? ==>
      var p := FirstCover(rs, lid).value;
      p in g.ports && (Top(rs, lid, HTSZ) == Some(p) <==> InLastChain(g, rs, lid, p))
  {
    FirstOfAll(g, rs, lid);
    TopIs(g, rs, lid, HTSZ);
    if FirstCover(rs, lid).Some? {
      FirstInCovers(g, rs, Bucket(EntryOf(g, FirstCover(rs, lid).value).guid), lid);
    }
    if Top(rs, lid, HTSZ).Some? {
      FirstInCovers(g, rs, Bucket(EntryOf(g, Top(rs, lid, HTSZ).value).guid), lid);
    }
  }

  // The entries of b in a, where a port has its place in the list as its name
  ghost predicate SameEntries(a: seq<IndexEntry<nat>>, b: seq<PortEntry>) {
    |a| == |b| && forall i :: 0 <= i < |a| ==> a[i].base == b[i].base && a[i].lmc == b[i].lmc && a[i].port == |b| - 1 - i
  }

  // The same ports under other names
  lemma {:induction false} FirstCoverRenamed(a: seq<IndexEntry<nat>>, b: seq<PortEntry>, names: seq<PortRef>, lid: nat)
    requires |a| == |b| && forall i :: 0 <= i < |a| ==>
      a[i].base == b[i].base && a[i].lmc == b[i].lmc && a[i].port < |names| && names[a[i].port] == b[i].port
    ensures FirstCover(a, lid).Some? <==> FirstCover(b, lid).Some?
    ensures FirstCover(a, lid).Some? ==> FirstCover(a, lid).value < |names| && names[FirstCover(a, lid).value] == FirstCover(b, lid).value
    decreases |a|
  {
    if a != [] {
      FirstCoverRenamed(a[1..], b[1..], names, lid);
    }
  }

  // Both maps have the same LIDs.  They lead to the same port exactly when the port that
  // the scan registered first is in the last chain that has a port with the LID.
  lemma LidsRestored(g: Graph, rs: seq<PortEntry>, t: seq<seq<PortRef>>, lid: nat, loaded: seq<IndexEntry<nat>>)
    requires EntriesTrue(g, rs) && TableOf(t, rs)
    requires forall p :: p in W.Concat(t) ==> p in g.ports
    requires SameEntries(loaded, BackEntries(g, W.Concat(t)))
    ensures lid in RegisterAll(loaded) <==> lid in RegisterAll(rs)
    ensures lid in RegisterAll(rs) ==>
      var p, k := RegisterAll(rs)[lid], RegisterAll(loaded)[lid];
      p in g.ports && k < |W.Concat(t)| && (W.Concat(t)[k] == p <==> InLastChain(g, rs, lid, p))
  {
    assert t[..HTSZ] == t;
    TableKeepsTop(g, rs, t, lid, HTSZ);
    TopIsFirst(g, rs, lid);
    FirstCoverRenamed(loaded, BackEntries(g, W.Concat(t)), W.Concat(t), lid);
    LidMapsToFirst(loaded, lid);
    LidMapsToFirst(rs, lid);
  }
}
