// Multisets collected from finite maps.
module Bags {

  // The bag of values that a map holds at the given keys.
  ghost function At<V>(ks: set<nat>, m: map<nat, V>): multiset<V>
    requires ks <= m.Keys
    decreases |ks|
  {
    if ks == {} then multiset{}
    else
      var k :| k in ks;
      multiset{m[k]} + At(ks - {k}, m)
  }

  // The bag of all values of a map.
  ghost function Values<V>(m: map<nat, V>): multiset<V> {
    At(m.Keys, m)
  }

  lemma {:induction false} AtRemove<V>(ks: set<nat>, m: map<nat, V>, k: nat)
    requires k in ks && ks <= m.Keys
    ensures At(ks, m) == At(ks - {k}, m) + multiset{m[k]}
    decreases |ks|
  {
    var c :| c in ks && At(ks, m) == multiset{m[c]} + At(ks - {c}, m);
    if c != k {
      AtRemove(ks - {c}, m, k);
      AtRemove(ks - {k}, m, c);
      assert ks - {c} - {k} == ks - {k} - {c};
    }
  }

  lemma {:induction false} AtSame<V>(ks: set<nat>, m: map<nat, V>, m': map<nat, V>)
    requires ks <= m.Keys && ks <= m'.Keys
    requires forall k :: k in ks ==> m[k] == m'[k]
    ensures At(ks, m) == At(ks, m')
    decreases |ks|
  {
    if ks != {} {
      var c :| c in ks && At(ks, m) == multiset{m[c]} + At(ks - {c}, m);
      AtSame(ks - {c}, m, m');
      AtRemove(ks, m', c);
    }
  }

  lemma ValuesRemove<V>(m: map<nat, V>, k: nat)
    requires k in m
    ensures Values(m) == Values(m - {k}) + multiset{m[k]}
    ensures |m - {k}| == |m| - 1
  {
    var mk := m - {k};
    assert mk.Keys == m.Keys - {k} && |mk.Keys| == |mk| && |m.Keys| == |m|;
    AtRemove(m.Keys, m, k);
    AtSame(mk.Keys, m, mk);
  }

  lemma ValuesInsert<V>(m: map<nat, V>, k: nat, v: V)
    requires k !in m
    ensures Values(m[k := v]) == Values(m) + multiset{v}
    ensures |m[k := v]| == |m| + 1
  {
    ValuesRemove(m[k := v], k);
    assert m[k := v] - {k} == m;
  }

  lemma {:induction false} AtMember<V>(ks: set<nat>, m: map<nat, V>, v: V)
    requires ks <= m.Keys
    ensures |At(ks, m)| == |ks|
    ensures v in At(ks, m) <==> exists k :: k in ks && m[k] == v
    decreases |ks|
  {
    if ks != {} {
      var c :| c in ks && At(ks, m) == multiset{m[c]} + At(ks - {c}, m);
      AtMember(ks - {c}, m, v);
    }
  }
}

// The engine of libibnetdisc/src/query_smp.c: SMPs are issued into a FIFO and a
// bounded window of them is kept on the wire.  Sending is the one foreign call;
// `ok(n)` says whether the n-th send of a run succeeds.
module SmpEngine {
  import opened Bags

  // Userland transaction ids are the low 32 bits of the counter in mad_trid.
  const TID_SPACE := 0x1_0000_0000

  datatype Smp<R> = Smp(trid: nat, req: R)

  // queue, wire and total are the fields of smp_engine_t; ctr is the counter of
  // mad_trid and base its value when the engine started.  The last four fields
  // are the history of the run: the SMPs issued, taken off the queue, freed
  // because their send failed, and answered.
  datatype Engine<R> = Engine(
    queue: seq<Smp<R>>, wire: map<nat, R>, total: nat, ctr: nat, base: nat,
    issued: seq<R>, taken: seq<R>, freed: seq<R>, done: seq<R>)

  function Reqs<R>(q: seq<Smp<R>>): (r: seq<R>)
    ensures |r| == |q|
  {
    seq(|q|, i requires 0 <= i < |q| => q[i].req)
  }

  // SMPs that are issued and not yet answered or freed.
  ghost function Pending<R>(e: Engine<R>): multiset<R> {
    multiset(Reqs(e.queue)) + Values(e.wire)
  }

  function Init<R>(seed: nat): Engine<R> {
    Engine([], map[], 0, seed, seed, [], [], [], [])
  }

  function Trid(ctr: nat): nat { ctr % TID_SPACE }

  // An SMP that was taken off the queue is sent.  mad_encode draws a new id for an SMP
  // whose id is zero, and cl_qmap_insert keeps the old entry of a key that is taken.
  function Sent<R>(e: Engine<R>, smp: Smp<R>): Engine<R> {
    var ctr := if smp.trid == 0 then e.ctr + 1 else e.ctr;
    var t := if smp.trid == 0 then Trid(ctr) else smp.trid;
    e.(taken := e.taken + [smp.req], ctr := ctr,
       wire := if t in e.wire then e.wire else e.wire[t := smp.req], total := e.total + 1)
  }

  // The send fails and the SMP is freed.
  function Freed<R>(e: Engine<R>, smp: Smp<R>): Engine<R> {
    e.(taken := e.taken + [smp.req], ctr := if smp.trid == 0 then e.ctr + 1 else e.ctr,
       freed := e.freed + [smp.req])
  }

  // One turn of the loop in process_smp_queue.
  function SendHead<R>(e: Engine<R>, ok: nat -> bool): (Engine<R>, bool)
    requires e.queue != []
  {
    var rest := e.(queue := e.queue[1..]);
    if ok(|e.taken|) then (Sent(rest, e.queue[0]), true) else (Freed(rest, e.queue[0]), false)
  }

  // process_smp_queue; the flag is false when it returns an error.
  function ProcessQueue<R>(e: Engine<R>, maxSmps: nat, ok: nat -> bool): (Engine<R>, bool)
    decreases |e.queue|
  {
    if |e.wire| < maxSmps && e.queue != [] then
      var (e1, sent) := SendHead(e, ok);
      if sent then ProcessQueue(e1, maxSmps, ok) else (e1, false)
    else
      (e, true)
  }

  function Enqueue<R>(e: Engine<R>, req: R): Engine<R> {
    e.(queue := e.queue + [Smp(Trid(e.ctr + 1), req)], ctr := e.ctr + 1, issued := e.issued + [req])
  }

  // issue_smp
  function IssueSmp<R>(e: Engine<R>, req: R, maxSmps: nat, ok: nat -> bool): (Engine<R>, bool) {
    ProcessQueue(Enqueue(e, req), maxSmps, ok)
  }

  // Issuing a list of SMPs one after another, as the callbacks do, which ignore
  // the results.
  function IssueAll<R>(e: Engine<R>, reqs: seq<R>, maxSmps: nat, ok: nat -> bool): Engine<R>
    decreases |reqs|
  {
    if reqs == [] then e
    else
      var last := |reqs| - 1;
      IssueSmp(IssueAll(e, reqs[..last], maxSmps, ok), reqs[last], maxSmps, ok).0
  }

  // The part of process_one_recv before the callback: the answered SMP leaves the
  // wire and the queue refills the window.
  function Receive<R>(e: Engine<R>, t: nat, maxSmps: nat, ok: nat -> bool): (Engine<R>, bool)
    requires t in e.wire
  {
    ProcessQueue(e.(wire := e.wire - {t}, done := e.done + [e.wire[t]]), maxSmps, ok)
  }

  // ---------------------------------------------------------------------------
  // What every step keeps.

  // SMPs leave the queue in issue order; every SMP that left it is on the wire,
  // answered or freed, exactly once; total_smps counts the successful sends.
  ghost predicate Conserved<R>(e: Engine<R>) {
    && e.taken + Reqs(e.queue) == e.issued
    && Balanced(e)
  }

  ghost predicate Balanced<R>(e: Engine<R>) {
    && multiset(e.taken) == Values(e.wire) + multiset(e.done) + multiset(e.freed)
    && e.total == |e.wire| + |e.done|
  }

  // SMPs wait only while the window is full.
  ghost predicate Saturated<R>(e: Engine<R>, maxSmps: nat) {
    && |e.wire| <= maxSmps
    && (e.queue != [] ==> |e.wire| == maxSmps)
  }

  // t was drawn by mad_trid since the engine started.
  predicate Drawn(t: nat, base: nat, ctr: nat) {
    t < TID_SPACE && 0 < (t - base) % TID_SPACE <= ctr - base
  }

  // Outstanding ids are distinct and were all drawn in this run.
  ghost predicate TidsDistinct<R>(e: Engine<R>) {
    && e.base <= e.ctr
    && (forall t :: t in e.wire ==> Drawn(t, e.base, e.ctr))
    && (forall i :: 0 <= i < |e.queue| ==> Drawn(e.queue[i].trid, e.base, e.ctr) && e.queue[i].trid !in e.wire)
    && (forall i, j :: 0 <= i < j < |e.queue| ==> e.queue[i].trid != e.queue[j].trid)
  }

  ghost predicate Inv<R>(e: Engine<R>) {
    Conserved(e) && TidsDistinct(e)
  }

  // Fewer than 2^32 transaction ids were drawn.
  predicate TidBudget<R>(e: Engine<R>) {
    e.ctr - e.base < TID_SPACE
  }

  lemma FreshTrid(base: nat, ctr: nat)
    requires base <= ctr && ctr + 1 - base < TID_SPACE
    ensures Drawn(Trid(ctr + 1), base, ctr + 1)
    ensures !Drawn(Trid(ctr + 1), base, ctr)
  {
    assert (Trid(ctr + 1) - base) % TID_SPACE == ctr + 1 - base;
  }

  lemma SendHeadTids<R>(e: Engine<R>, ok: nat -> bool)
    requires e.queue != [] && TidsDistinct(e) && TidBudget(SendHead(e, ok).0)
    ensures TidsDistinct(SendHead(e, ok).0)
    ensures e.queue[0].trid == 0 ==> Trid(e.ctr + 1) !in e.wire
  {
    var (e', sent) := SendHead(e, ok);
    assert forall i :: 0 <= i < |e'.queue| ==> e'.queue[i] == e.queue[i + 1];
    if e.queue[0].trid == 0 { FreshTrid(e.base, e.ctr); }
  }

  lemma PopOrder<R>(taken: seq<R>, q: seq<Smp<R>>)
    requires q != []
    ensures taken + [q[0].req] + Reqs(q[1..]) == taken + Reqs(q)
  {
    assert Reqs(q) == [q[0].req] + Reqs(q[1..]);
  }

  lemma SentBalance<R>(taken: seq<R>, wire: map<nat, R>, rest: multiset<R>, t: nat, x: R)
    requires multiset(taken) == Values(wire) + rest && t !in wire
    ensures multiset(taken + [x]) == Values(wire[t := x]) + rest
    ensures |wire[t := x]| == |wire| + 1
  {
    ValuesInsert(wire, t, x);
  }

  lemma FreedBalance<R>(taken: seq<R>, freed: seq<R>, rest: multiset<R>, x: R)
    requires multiset(taken) == rest + multiset(freed)
    ensures multiset(taken + [x]) == rest + multiset(freed + [x])
  {
  }

  lemma SendHeadBalanced<R>(e: Engine<R>, ok: nat -> bool)
    requires e.queue != [] && Balanced(e)
    requires e.queue[0].trid !in e.wire
    requires e.queue[0].trid == 0 ==> Trid(e.ctr + 1) !in e.wire
    ensures var (e', sent) := SendHead(e, ok);
      Balanced(e') && |e'.wire| == if sent then |e.wire| + 1 else |e.wire|
  {
    var smp := e.queue[0];
    if ok(|e.taken|) {
      SentHeadBalanced(e, ok, if smp.trid == 0 then Trid(e.ctr + 1) else smp.trid);
    } else {
      FreedBalance(e.taken, e.freed, Values(e.wire) + multiset(e.done), smp.req);
    }
  }

  // t is the transaction id that the SMP at the head gets.
  lemma SentHeadBalanced<R>(e: Engine<R>, ok: nat -> bool, t: nat)
    requires e.queue != [] && Balanced(e) && ok(|e.taken|) && t !in e.wire
    requires t == if e.queue[0].trid == 0 then Trid(e.ctr + 1) else e.queue[0].trid
    ensures var e' := SendHead(e, ok).0; Balanced(e') && |e'.wire| == |e.wire| + 1
  {
    SentBalance(e.taken, e.wire, multiset(e.done) + multiset(e.freed), t, e.queue[0].req);
    assert SendHead(e, ok).0.wire == e.wire[t := e.queue[0].req];
  }

  lemma SendHeadConserved<R>(e: Engine<R>, ok: nat -> bool)
    requires e.queue != [] && Conserved(e)
    requires e.queue[0].trid !in e.wire
    requires e.queue[0].trid == 0 ==> Trid(e.ctr + 1) !in e.wire
    ensures var (e', sent) := SendHead(e, ok);
      Conserved(e') && |e'.wire| == if sent then |e.wire| + 1 else |e.wire|
  {
    PopOrder(e.taken, e.queue);
    SendHeadBalanced(e, ok);
  }

  // What process_smp_queue leaves alone, for any outcome of the sends.
  lemma {:induction false} ProcessQueueFrame<R>(e: Engine<R>, maxSmps: nat, ok: nat -> bool)
    ensures var (e', rc) := ProcessQueue(e, maxSmps, ok);
      && e'.issued == e.issued && e'.done == e.done && e'.base == e.base && e.ctr <= e'.ctr
      && (rc ==> e'.freed == e.freed)
      && (!rc ==> exists n :: !ok(n))
    decreases |e.queue|
  {
    if |e.wire| < maxSmps && e.queue != [] {
      var (e1, sent) := SendHead(e, ok);
      if sent { ProcessQueueFrame(e1, maxSmps, ok); }
    }
  }

  lemma {:induction false} ProcessQueueInv<R>(e: Engine<R>, maxSmps: nat, ok: nat -> bool)
    requires Inv(e) && |e.wire| <= maxSmps && TidBudget(ProcessQueue(e, maxSmps, ok).0)
    ensures var (e', rc) := ProcessQueue(e, maxSmps, ok);
      Inv(e') && |e'.wire| <= maxSmps && (rc ==> Saturated(e', maxSmps))
    decreases |e.queue|
  {
    if |e.wire| < maxSmps && e.queue != [] {
      var (e1, sent) := SendHead(e, ok);
      ProcessQueueFrame(e1, maxSmps, ok);
      SendHeadTids(e, ok);
      SendHeadConserved(e, ok);
      if sent { ProcessQueueInv(e1, maxSmps, ok); }
    }
  }

  lemma EnqueueInv<R>(e: Engine<R>, req: R)
    requires Inv(e) && TidBudget(Enqueue(e, req))
    ensures Inv(Enqueue(e, req))
  {
    var q := Enqueue(e, req);
    FreshTrid(e.base, e.ctr);
    assert Reqs(q.queue) == Reqs(e.queue) + [req];
    assert q.taken + Reqs(q.queue) == q.issued;
  }

  // issue_smp keeps the invariant and saturation even when its send fails: a send
  // is attempted only when the window has room, and then the queue was empty.
  lemma IssueSmpInv<R>(e: Engine<R>, req: R, maxSmps: nat, ok: nat -> bool)
    requires Inv(e) && Saturated(e, maxSmps) && TidBudget(IssueSmp(e, req, maxSmps, ok).0)
    ensures var e' := IssueSmp(e, req, maxSmps, ok).0;
      Inv(e') && Saturated(e', maxSmps) && e'.issued == e.issued + [req] && e'.done == e.done
  {
    var q := Enqueue(e, req);
    ProcessQueueFrame(q, maxSmps, ok);
    EnqueueInv(e, req);
    ProcessQueueInv(q, maxSmps, ok);
  }

  lemma ReceiveInv<R>(e: Engine<R>, t: nat, maxSmps: nat, ok: nat -> bool)
    requires t in e.wire && Inv(e) && Saturated(e, maxSmps) && TidBudget(Receive(e, t, maxSmps, ok).0)
    ensures var (e', rc) := Receive(e, t, maxSmps, ok);
      && Inv(e') && |e'.wire| <= maxSmps && (rc ==> Saturated(e', maxSmps))
      && e'.issued == e.issued && e'.done == e.done + [e.wire[t]]
  {
    var r := e.(wire := e.wire - {t}, done := e.done + [e.wire[t]]);
    ValuesRemove(e.wire, t);
    assert multiset(r.done) == multiset(e.done) + multiset{e.wire[t]};
    ProcessQueueFrame(r, maxSmps, ok);
    ProcessQueueInv(r, maxSmps, ok);
  }

  // Conservation: an issued SMP is pending, answered or freed, and nothing else is.
  lemma Conservation<R>(e: Engine<R>)
    requires Conserved(e)
    ensures multiset(e.issued) == Pending(e) + multiset(e.done) + multiset(e.freed)
  {
    assert multiset(e.taken + Reqs(e.queue)) == multiset(e.taken) + multiset(Reqs(e.queue));
  }

  // ---------------------------------------------------------------------------
  // Whole runs.

  datatype Event<R> = Issue(req: R) | Answer(trid: nat)

  // The state after a sequence of issues and answers, and whether the run is still
  // going: process_mads stops at an unknown id and at a send error in the refill.
  function Run<R>(events: seq<Event<R>>, seed: nat, maxSmps: nat, ok: nat -> bool): (Engine<R>, bool)
    decreases |events|
  {
    if events == [] then (Init(seed), true)
    else
      var last := |events| - 1;
      var (e, going) := Run(events[..last], seed, maxSmps, ok);
      if !going then (e, false)
      else match events[last]
        case Issue(req) => (IssueSmp(e, req, maxSmps, ok).0, true)
        case Answer(t) => if t in e.wire then Receive(e, t, maxSmps, ok) else (e, false)
  }

  lemma {:induction false} RunInv<R>(events: seq<Event<R>>, seed: nat, maxSmps: nat, ok: nat -> bool)
    requires TidBudget(Run(events, seed, maxSmps, ok).0)
    ensures var (e, going) := Run(events, seed, maxSmps, ok);
      Inv(e) && |e.wire| <= maxSmps && (going ==> Saturated(e, maxSmps))
    decreases |events|
  {
    if events != [] {
      var last := |events| - 1;
      var (e, going) := Run(events[..last], seed, maxSmps, ok);
      if going {
        match events[last] {
          case Issue(req) =>
            ProcessQueueFrame(Enqueue(e, req), maxSmps, ok);
            RunInv(events[..last], seed, maxSmps, ok);
            IssueSmpInv(e, req, maxSmps, ok);
          case Answer(t) =>
            if t in e.wire {
              ProcessQueueFrame(e.(wire := e.wire - {t}, done := e.done + [e.wire[t]]), maxSmps, ok);
              RunInv(events[..last], seed, maxSmps, ok);
              ReceiveInv(e, t, maxSmps, ok);
            } else {
              RunInv(events[..last], seed, maxSmps, ok);
            }
        }
      } else {
        RunInv(events[..last], seed, maxSmps, ok);
      }
    }
  }

  // process_mads returning 0 leaves nothing behind: when the wire is empty in a run
  // that was not cut short, the queue is empty too, so every issued SMP was sent in
  // issue order and answered, or freed by a failed send.
  lemma Quiescence<R>(events: seq<Event<R>>, seed: nat, maxSmps: nat, ok: nat -> bool)
    requires 0 < maxSmps && TidBudget(Run(events, seed, maxSmps, ok).0)
    requires Run(events, seed, maxSmps, ok).1 && Run(events, seed, maxSmps, ok).0.wire == map[]
    ensures var e := Run(events, seed, maxSmps, ok).0;
      && e.queue == [] && e.taken == e.issued && e.total == |e.done|
      && multiset(e.issued) == multiset(e.done) + multiset(e.freed)
  {
    var e := Run(events, seed, maxSmps, ok).0;
    RunInv(events, seed, maxSmps, ok);
    Conservation(e);
    assert e.taken == e.issued;
  }

  // ---------------------------------------------------------------------------
  // The engine between the callbacks of a scan.

  lemma {:induction false} IssueAllFrame<R>(e: Engine<R>, reqs: seq<R>, maxSmps: nat, ok: nat -> bool)
    ensures var e' := IssueAll(e, reqs, maxSmps, ok);
      e'.issued == e.issued + reqs && e'.done == e.done && e'.base == e.base && e.ctr <= e'.ctr
    ensures (forall n :: ok(n)) ==> IssueAll(e, reqs, maxSmps, ok).freed == e.freed
    decreases |reqs|
  {
    if reqs != [] {
      var last := |reqs| - 1;
      IssueAllFrame(e, reqs[..last], maxSmps, ok);
      ProcessQueueFrame(Enqueue(IssueAll(e, reqs[..last], maxSmps, ok), reqs[last]), maxSmps, ok);
      assert reqs == reqs[..last] + [reqs[last]];
    }
  }

  lemma {:induction false} IssueAllInv<R>(e: Engine<R>, reqs: seq<R>, maxSmps: nat, ok: nat -> bool)
    requires Inv(e) && Saturated(e, maxSmps) && TidBudget(IssueAll(e, reqs, maxSmps, ok))
    ensures Inv(IssueAll(e, reqs, maxSmps, ok)) && Saturated(IssueAll(e, reqs, maxSmps, ok), maxSmps)
    decreases |reqs|
  {
    if reqs != [] {
      var last := |reqs| - 1;
      var e1 := IssueAll(e, reqs[..last], maxSmps, ok);
      ProcessQueueFrame(Enqueue(e1, reqs[last]), maxSmps, ok);
      IssueAllInv(e, reqs[..last], maxSmps, ok);
      IssueSmpInv(e1, reqs[last], maxSmps, ok);
    }
  }

  // At most one id is drawn when an SMP is issued and one when it is sent.
  ghost predicate FewTrids<R>(e: Engine<R>) {
    && |e.taken| + |e.queue| == |e.issued|
    && e.base <= e.ctr <= e.base + |e.issued| + |e.taken|
  }

  lemma {:induction false} ProcessQueueTrids<R>(e: Engine<R>, maxSmps: nat, ok: nat -> bool)
    requires FewTrids(e)
    ensures FewTrids(ProcessQueue(e, maxSmps, ok).0)
    decreases |e.queue|
  {
    if |e.wire| < maxSmps && e.queue != [] {
      var (e1, sent) := SendHead(e, ok);
      if sent { ProcessQueueTrids(e1, maxSmps, ok); }
    }
  }

  lemma {:induction false} IssueAllTrids<R>(e: Engine<R>, reqs: seq<R>, maxSmps: nat, ok: nat -> bool)
    requires FewTrids(e)
    ensures FewTrids(IssueAll(e, reqs, maxSmps, ok))
    decreases |reqs|
  {
    if reqs != [] {
      var last := |reqs| - 1;
      IssueAllTrids(e, reqs[..last], maxSmps, ok);
      ProcessQueueTrids(Enqueue(IssueAll(e, reqs[..last], maxSmps, ok), reqs[last]), maxSmps, ok);
    }
  }

  // One turn of process_mads in a run whose sends succeed: an answered SMP and the SMPs
  // that its callback issues.
  function Turn<R>(e: Engine<R>, t: nat, reqs: seq<R>, maxSmps: nat, ok: nat -> bool): Engine<R>
    requires t in e.wire
  {
    IssueAll(Receive(e, t, maxSmps, ok).0, reqs, maxSmps, ok)
  }

  // The pending SMPs change by exactly the answered one and the ones issued.
  lemma TurnInv<R>(e: Engine<R>, t: nat, reqs: seq<R>, maxSmps: nat, ok: nat -> bool)
    requires t in e.wire && Inv(e) && Saturated(e, maxSmps) && FewTrids(e) && e.freed == []
    requires forall n :: ok(n)
    requires 2 * (|e.issued| + |reqs|) < TID_SPACE
    ensures var e' := Turn(e, t, reqs, maxSmps, ok);
      && Receive(e, t, maxSmps, ok).1
      && Inv(e') && Saturated(e', maxSmps) && FewTrids(e') && e'.freed == []
      && e'.issued == e.issued + reqs && e'.done == e.done + [e.wire[t]]
      && e.wire[t] in Pending(e)
      && Pending(e') == Pending(e) - multiset{e.wire[t]} + multiset(reqs)
  {
    var r := e.(wire := e.wire - {t}, done := e.done + [e.wire[t]]);
    var (e1, rc) := Receive(e, t, maxSmps, ok);
    var e' := Turn(e, t, reqs, maxSmps, ok);
    ProcessQueueFrame(r, maxSmps, ok);
    ProcessQueueTrids(r, maxSmps, ok);
    IssueAllFrame(e1, reqs, maxSmps, ok);
    IssueAllTrids(e1, reqs, maxSmps, ok);
    ReceiveInv(e, t, maxSmps, ok);
    IssueAllInv(e1, reqs, maxSmps, ok);
    PendingAfter(e, e', e.wire[t], reqs);
    ValuesRemove(e.wire, t);
  }

  lemma BagCancel<R>(p: multiset<R>, p': multiset<R>, done: multiset<R>, x: R, reqs: multiset<R>)
    requires p' + (done + multiset{x}) == (p + done) + reqs
    ensures x in p ==> p' == p - multiset{x} + reqs
  {
    if x in p {
      forall r
        ensures p'[r] == (p - multiset{x} + reqs)[r]
      {
        assert (p' + (done + multiset{x}))[r] == ((p + done) + reqs)[r];
      }
    }
  }

  lemma PendingAfter<R>(e: Engine<R>, e': Engine<R>, x: R, reqs: seq<R>)
    requires Conserved(e) && Conserved(e') && e.freed == [] && e'.freed == []
    requires e'.issued == e.issued + reqs && e'.done == e.done + [x]
    ensures x in Pending(e) ==> Pending(e') == Pending(e) - multiset{x} + multiset(reqs)
  {
    Conservation(e);
    Conservation(e');
    assert multiset(e'.issued) == multiset(e.issued) + multiset(reqs);
    assert multiset(e'.done) == multiset(e.done) + multiset{x};
    var none: seq<R> := [];
    assert multiset(none) == multiset{};
    assert multiset(e.issued) == Pending(e) + multiset(e.done);
    assert multiset(e'.issued) == Pending(e') + multiset(e'.done);
    BagCancel(Pending(e), Pending(e'), multiset(e.done), x, multiset(reqs));
  }

  // The first SMP of a run.
  lemma FirstIssue<R>(seed: nat, req: R, maxSmps: nat, ok: nat -> bool)
    requires forall n :: ok(n)
    ensures var (e, rc) := IssueSmp(Init(seed), req, maxSmps, ok);
      rc && Inv(e) && Saturated(e, maxSmps) && FewTrids(e) && e.freed == [] && e.done == [] && e.issued == [req]
      && Pending(e) == multiset{req}
  {
    var q := Enqueue<R>(Init(seed), req);
    var e := IssueSmp(Init(seed), req, maxSmps, ok).0;
    ProcessQueueFrame(q, maxSmps, ok);
    ProcessQueueTrids(q, maxSmps, ok);
    IssueSmpInv(Init(seed), req, maxSmps, ok);
    Conservation(e);
    var none: seq<R> := [];
    assert multiset(none) == multiset{};
    assert e.issued == [req] && e.done == none && e.freed == none;
    assert multiset(e.issued) == multiset{req};
  }

  lemma OnWirePending<R>(e: Engine<R>, t: nat)
    requires t in e.wire
    ensures e.wire[t] in Pending(e)
  {
    ValuesRemove(e.wire, t);
  }
}
