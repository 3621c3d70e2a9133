// The engine of libibnetdisc/src/query_smp.c over linked SMP objects, proved to do
// what the state machine of module SmpEngine does.
module SmpWire {
  import opened SmpEngine

  // ibnd_smp_t.  An id that mad_encode draws at send time is kept as the key of the
  // wire map only.
  class SmpCell<R> {
    var qnext: SmpCell?<R>
    const trid: nat
    const req: R

    constructor (req: R, trid: nat)
      ensures this.req == req && this.trid == trid && qnext == null
    {
      this.req := req;
      this.trid := trid;
      qnext := null;
    }
  }

  // The fields smp_queue_head and smp_queue_tail of smp_engine_t.
  class SmpQueue<R> {
    var head: SmpCell?<R>
    var tail: SmpCell?<R>
    ghost var Repr: set<SmpCell<R>>    // the cells that were ever queued
    ghost var cells: seq<SmpCell<R>>   // the cells from head to tail
    ghost var smps: seq<Smp<R>>        // what they hold

    // The cells are linked from head to tail, each but the last by qnext.
    ghost predicate Valid()
      reads this, Repr
    {
      && (forall c :: c in cells ==> c in Repr)
      && (if cells == [] then head == null && tail == null
          else head == cells[0] && tail == cells[|cells| - 1] && tail.qnext == null)
      && (forall i :: 0 <= i < |cells| - 1 ==> cells[i].qnext == cells[i + 1])
      && (forall i, j :: 0 <= i < j < |cells| ==> cells[i] != cells[j])
      && |smps| == |cells| && (forall i :: 0 <= i < |cells| ==> smps[i] == Smp(cells[i].trid, cells[i].req))
    }

    constructor ()
      ensures Valid() && fresh(Repr) && smps == []
    {
      head, tail := null, null;
      Repr, cells, smps := {}, [], [];
    }

    // queue_smp
    method Put(smp: SmpCell<R>)
      requires Valid() && smp !in Repr
      modifies this, Repr, smp
      ensures Valid() && Repr == old(Repr) + {smp}
      ensures smps == old(smps) + [Smp(smp.trid, smp.req)]
    {
      smp.qnext := null;
      if head == null {
        head := smp;
        tail := smp;
      } else {
        tail.qnext := smp;
        tail := smp;
      }
      cells, smps := cells + [smp], smps + [Smp(smp.trid, smp.req)];
      Repr := Repr + {smp};
    }

    // get_smp
    method Get() returns (smp: SmpCell?<R>)
      requires Valid()
      modifies this
      ensures Valid() && Repr == old(Repr)
      ensures old(smps) == [] ==> smp == null && smps == []
      ensures old(smps) != [] ==> smp != null && old(smps)[0] == Smp(smp.trid, smp.req) && smps == old(smps)[1..]
    {
      smp := head;
      if smp != null {
        if tail == head {
          tail := null;
        }
        head := head.qnext;
        cells, smps := cells[1..], smps[1..];
      }
    }
  }

  function ReqsOf<R>(m: map<nat, SmpCell<R>>): map<nat, R> {
    map t | t in m :: m[t].req
  }

  lemma ReqsOfSize<R>(m: map<nat, SmpCell<R>>)
    ensures |ReqsOf(m)| == |m|
  {
    assert ReqsOf(m).Keys == m.Keys && |ReqsOf(m).Keys| == |ReqsOf(m)| && |m.Keys| == |m|;
  }

  lemma ReqsOfInsert<R>(m: map<nat, SmpCell<R>>, t: nat, c: SmpCell<R>)
    ensures ReqsOf(m[t := c]) == ReqsOf(m)[t := c.req]
  {
  }

  lemma ReqsOfRemove<R>(m: map<nat, SmpCell<R>>, t: nat)
    ensures ReqsOf(m - {t}) == ReqsOf(m) - {t}
  {
  }

  // smp_engine_t, with the counter of mad_trid.  sends counts the sends attempted, and
  // sendOk says which of them succeed.
  class Wire<R> {
    const queue: SmpQueue<R>
    var onWire: map<nat, SmpCell<R>>
    var totalSmps: nat
    var tridCounter: nat
    var sends: nat
    const maxSmps: nat
    const sendOk: nat -> bool

    ghost var base: nat
    ghost var issued: seq<R>
    ghost var taken: seq<R>
    ghost var freed: seq<R>
    ghost var done: seq<R>

    ghost predicate Valid()
      reads this, queue, queue.Repr
    {
      queue.Valid() && sends == |taken|
    }

    ghost function State(): Engine<R>
      reads this, queue
    {
      Engine(queue.smps, ReqsOf(onWire), totalSmps, tridCounter, base, issued, taken, freed, done)
    }

    // The SMPs were issued one after another since the engine was in state e; the equation
    // is unfolded only where a list of SMPs is at hand.
    ghost predicate Advanced(e: Engine<R>, reqs: seq<R>)
      reads this, queue
    {
      forall rs {:trigger IssueAll(e, rs, maxSmps, sendOk)} :: rs == reqs ==> State() == IssueAll(e, rs, maxSmps, sendOk)
    }

    constructor (seed: nat, maxSmps: nat, sendOk: nat -> bool)
      ensures Valid() && fresh(queue) && fresh(queue.Repr) && State() == Init(seed)
      ensures this.maxSmps == maxSmps && this.sendOk == sendOk
    {
      queue := new SmpQueue();
      onWire := map[];
      totalSmps, tridCounter, sends := 0, seed, 0;
      this.maxSmps, this.sendOk := maxSmps, sendOk;
      base, issued, taken, freed, done := seed, [], [], [], [];
      new;
      assert ReqsOf(onWire).Keys == {};
    }

    // mad_trid
    method MadTrid() returns (t: nat)
      modifies this`tridCounter
      ensures tridCounter == old(tridCounter) + 1 && t == Trid(tridCounter)
    {
      tridCounter := tridCounter + 1;
      t := tridCounter % TID_SPACE;
    }

    // send_smp: mad_encode gives an SMP with id zero a new one; whether umad_send then
    // succeeds is up to the environment.
    method SendSmp(smp: SmpCell<R>) returns (rc: bool, trid: nat)
      modifies this`tridCounter, this`sends
      ensures rc == sendOk(old(sends)) && sends == old(sends) + 1
      ensures tridCounter == (if smp.trid == 0 then old(tridCounter) + 1 else old(tridCounter))
      ensures trid == if smp.trid == 0 then Trid(tridCounter) else smp.trid
    {
      trid := smp.trid;
      if trid == 0 {
        trid := MadTrid();
      }
      rc := sendOk(sends);
      sends := sends + 1;
    }

    // cl_qmap_insert, which keeps the entry of a key that is taken.
    method PutOnWire(smp: SmpCell<R>, trid: nat)
      modifies this`onWire, this`totalSmps
      ensures ReqsOf(onWire) == (if trid in old(ReqsOf(onWire)) then old(ReqsOf(onWire)) else old(ReqsOf(onWire))[trid := smp.req])
      ensures totalSmps == old(totalSmps) + 1
    {
      if trid !in onWire {
        ReqsOfInsert(onWire, trid, smp);
        onWire := onWire[trid := smp];
      }
      totalSmps := totalSmps + 1;
    }

    method SendTaken(smp: SmpCell<R>) returns (rc: bool)
      requires Valid()
      modifies this`onWire, this`totalSmps, this`tridCounter, this`sends, this`taken, this`freed
      ensures Valid() && rc == sendOk(|old(taken)|)
      ensures State() == if rc then Sent(old(State()), Smp(smp.trid, smp.req)) else Freed(old(State()), Smp(smp.trid, smp.req))
    {
      var trid;
      rc, trid := SendSmp(smp);
      taken := taken + [smp.req];
      if rc {
        PutOnWire(smp, trid);
      } else {
        freed := freed + [smp.req];
      }
    }

    // One turn of the loop of process_smp_queue.
    method SendNext() returns (found: bool, rc: bool)
      requires Valid()
      modifies this, queue
      ensures Valid() && queue.Repr == old(queue.Repr)
      ensures found <==> old(State()).queue != []
      ensures !found ==> rc && State() == old(State())
      ensures found ==> State() == SendHead(old(State()), sendOk).0 && rc == SendHead(old(State()), sendOk).1
    {
      var smp := queue.Get();
      if smp == null {
        return false, true;
      }
      found := true;
      assert State() == old(State()).(queue := old(State()).queue[1..]);
      rc := SendTaken(smp);
    }

    // process_smp_queue
    method ProcessSmpQueue() returns (rc: bool)
      requires Valid()
      modifies this, queue
      ensures Valid() && queue.Repr == old(queue.Repr)
      ensures State() == ProcessQueue(old(State()), maxSmps, sendOk).0 && rc == ProcessQueue(old(State()), maxSmps, sendOk).1
    {
      rc := true;
      ReqsOfSize(onWire);
      while |onWire| < maxSmps
        invariant Valid() && queue.Repr == old(queue.Repr) && rc
        invariant |onWire| == |State().wire|
        invariant ProcessQueue(old(State()), maxSmps, sendOk) == ProcessQueue(State(), maxSmps, sendOk)
        decreases |State().queue|
      {
        var found;
        found, rc := SendNext();
        ReqsOfSize(onWire);
        if !found || !rc {
          return;
        }
      }
    }

    // issue_smp
    method IssueSmp(req: R) returns (rc: bool)
      requires Valid()
      modifies this, queue, queue.Repr
      ensures Valid() && forall c :: c in queue.Repr ==> c in old(queue.Repr) || fresh(c)
      ensures State() == SmpEngine.IssueSmp(old(State()), req, maxSmps, sendOk).0
    {
      var trid := MadTrid();
      var smp := new SmpCell(req, trid);
      queue.Put(smp);
      issued := issued + [req];
      assert State() == Enqueue(old(State()), req);
      rc := ProcessSmpQueue();
    }

    // The part of process_one_recv before the callback: the SMP with the id of the
    // reply leaves the wire, and the queue refills it.
    method Receive(t: nat) returns (smp: SmpCell?<R>, rc: bool)
      requires Valid()
      modifies this, queue
      ensures Valid() && queue.Repr == old(queue.Repr)
      ensures t !in old(State()).wire ==> smp == null && !rc && State() == old(State())
      ensures t in old(State()).wire ==> smp != null && smp.req == old(State()).wire[t]
      ensures t in old(State()).wire ==>
        State() == SmpEngine.Receive(old(State()), t, maxSmps, sendOk).0 && rc == SmpEngine.Receive(old(State()), t, maxSmps, sendOk).1
    {
      if t !in onWire {
        return null, false;
      }
      smp := onWire[t];
      ReqsOfRemove(onWire, t);
      onWire := onWire - {t};
      done := done + [smp.req];
      rc := ProcessSmpQueue();
    }
  }
}
