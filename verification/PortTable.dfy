// The table of ports by GUID as libibnetdisc/src/ibnetdisc.c keeps it: chains threaded
// through the ports themselves.
module PortTable {
  import opened Tables

  class PortCell {
    var guid: nat
    var htnext: PortCell?

    constructor (guid: nat)
      ensures this.guid == guid && htnext == null
    {
      this.guid, htnext := guid, null;
    }
  }

  // What follows element k of a chain
  function Next(chain: seq<PortCell>, k: nat): PortCell? {
    if k + 1 < |chain| then chain[k + 1] else null
  }

  // A finite chain without repetition: the cells from the head along htnext
  ghost predicate Linked(head: PortCell?, chain: seq<PortCell>)
    reads chain`htnext
  {
    && head == (if chain == [] then null else chain[0])
    && (forall k :: 0 <= k < |chain| ==> chain[k].htnext == Next(chain, k))
    && (forall j, k :: 0 <= j < k < |chain| ==> chain[j] != chain[k])
  }

  lemma LinkedFront(port: PortCell, chain: seq<PortCell>)
    requires Linked(port.htnext, chain) && forall k :: 0 <= k < |chain| ==> chain[k] != port
    ensures Linked(port, [port] + chain)
  {
    var longer := [port] + chain;
    forall k | 0 <= k < |longer|
      ensures longer[k].htnext == Next(longer, k)
    {
      if k > 0 {
        assert chain[k - 1].htnext == Next(chain, k - 1);
      }
    }
  }

  // Every port that was put in is on the chain of its GUID and on no other.
  ghost predicate Indexed(chains: seq<seq<PortCell>>, ports: set<PortCell>)
    reads ports`guid
  {
    && |chains| == HTSZ
    && (forall h, k :: 0 <= h < HTSZ && 0 <= k < |chains[h]| ==> chains[h][k] in ports && Bucket(chains[h][k].guid) == h)
    && (forall c :: c in ports ==> c in chains[Bucket(c.guid)])
  }

  lemma IndexedFront(chains: seq<seq<PortCell>>, ports: set<PortCell>, port: PortCell)
    requires Indexed(chains, ports)
    ensures Indexed(InFront(chains, Bucket(port.guid), port), ports + {port})
  {
    var h := Bucket(port.guid);
    var more := InFront(chains, h, port);
    forall i, k | 0 <= i < HTSZ && 0 <= k < |more[i]|
      ensures more[i][k] in ports + {port} && Bucket(more[i][k].guid) == i
    {
      if i == h && k > 0 { assert more[i][k] == chains[i][k - 1]; }
    }
    forall c | c in ports + {port}
      ensures c in more[Bucket(c.guid)]
    {
      if c == port {
        assert more[h][0] == port;
      } else {
        var k :| 0 <= k < |chains[Bucket(c.guid)]| && chains[Bucket(c.guid)][k] == c;
        assert c == if Bucket(c.guid) == h then more[h][k + 1] else more[Bucket(c.guid)][k];
      }
    }
  }

  // The chains are those that the table leads to.
  ghost predicate LeadsTo(tbl: array<PortCell?>, chains: seq<seq<PortCell>>, ports: set<PortCell>)
    reads tbl, ports`htnext
  {
    && tbl.Length == HTSZ == |chains|
    && (forall h, k :: 0 <= h < HTSZ && 0 <= k < |chains[h]| ==> chains[h][k] in ports)
    && (forall h :: 0 <= h < HTSZ ==> Linked(tbl[h], chains[h]))
  }

  // The chains with a port in front of chain h
  function InFront(chains: seq<seq<PortCell>>, h: nat, port: PortCell): seq<seq<PortCell>>
    requires h < |chains|
  {
    chains[h := [port] + chains[h]]
  }

  class PortHash {
    const tbl: array<PortCell?>
    ghost var chains: seq<seq<PortCell>>
    ghost var Repr: set<PortCell>

    ghost predicate Valid()
      reads this, tbl, Repr
    {
      LeadsTo(tbl, chains, Repr) && Indexed(chains, Repr)
    }

    constructor ()
      ensures Valid() && fresh(tbl) && Repr == {}
    {
      tbl := new PortCell?[HTSZ](h => null);
      chains, Repr := seq(HTSZ, h => []), {};
    }

    // The walk of add_to_portguid_hash
    method IsChained(port: PortCell) returns (found: bool)
      requires Valid()
      ensures found <==> port in Repr
    {
      var h := Bucket(port.guid);
      var cell := tbl[h];
      ghost var k := 0;
      while cell != null
        invariant 0 <= k <= |chains[h]| && cell == (if k < |chains[h]| then chains[h][k] else null)
        invariant forall j :: 0 <= j < k ==> chains[h][j] != port
        decreases |chains[h]| - k
      {
        if cell == port {
          return true;
        }
        cell := cell.htnext;
        k := k + 1;
      }
      return false;
    }

    // add_to_portguid_hash
    method Add(port: PortCell) returns (rc: bool)
      requires Valid()
      modifies this`chains, this`Repr, tbl, port`htnext
      ensures Valid() && Repr == old(Repr) + {port}
      ensures rc <==> port !in old(Repr)
      ensures chains == EnterChain(old(chains), port, Bucket(port.guid))
    {
      var found := IsChained(port);
      assert found <==> port in chains[Bucket(port.guid)];
      if !found {
        Thread(port, Bucket(port.guid));
      }
      return !found;
    }

    // The end of add_to_portguid_hash
    method Thread(port: PortCell, h: nat)
      requires Valid() && h == Bucket(port.guid) && port !in Repr
      modifies this`chains, this`Repr, tbl, port`htnext
      ensures Valid() && Repr == old(Repr) + {port} && chains == InFront(old(chains), h, port)
    {
      ghost var before, ports := chains, Repr;
      IndexedFront(chains, Repr, port);
      chains := InFront(chains, h, port);
      Repr := Repr + {port};
      Splice(port, h, before, ports);
    }

    // The two assignments to the chain
    method Splice(port: PortCell, h: nat, ghost before: seq<seq<PortCell>>, ghost ports: set<PortCell>)
      requires LeadsTo(tbl, before, ports) && h < HTSZ && port !in ports
      modifies tbl, port`htnext
      ensures LeadsTo(tbl, InFront(before, h, port), ports + {port})
    {
      port.htnext := tbl[h];
      tbl[h] := port;
      forall i | 0 <= i < HTSZ
        ensures Linked(if i == h then port.htnext else tbl[i], before[i])
      {
        assert old(Linked(tbl[i], before[i]));
        assert forall k :: 0 <= k < |before[i]| ==> before[i][k] != port;
      }
      LinkedFront(port, before[h]);
    }

    // ibnd_find_port_guid finds a port if and only if one with the GUID was put in.
    method Find(guid: nat) returns (r: PortCell?)
      requires Valid()
      ensures r != null ==> r in Repr && r.guid == guid
      ensures r == null ==> forall c :: c in Repr ==> c.guid != guid
    {
      var h := Bucket(guid);
      var cell := tbl[h];
      ghost var k := 0;
      while cell != null
        invariant 0 <= k <= |chains[h]| && cell == (if k < |chains[h]| then chains[h][k] else null)
        invariant forall j :: 0 <= j < k ==> chains[h][j].guid != guid
        decreases |chains[h]| - k
      {
        if cell.guid == guid {
          return cell;
        }
        cell := cell.htnext;
        k := k + 1;
      }
      return null;
    }

    // recv_node_info stores the GUID that a reply gives for a port, also when the port is
    // in the table.  The table stays in order if and only if the port is not in it, or the
    // new GUID belongs to the same chain.
    method StoreGuid(port: PortCell, guid: nat)
      requires Valid()
      modifies port`guid
      ensures port.guid == guid
      ensures Valid() <==> (port !in Repr || Bucket(guid) == Bucket(old(port.guid)))
    {
      port.guid := guid;
    }
  }
}
