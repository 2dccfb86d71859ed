/** The invariant of the ownership protocol, and what follows from it in every run. */
module OwnershipSafety {
  import opened Ranges
  import opened LockTable
  import opened PlockNode
  import opened Ownership
  import opened OwnershipLog
  import opened OwnershipPhases

  // ---------- streams under the events

  lemma StreamAfterDeliver(n: int, nd: Node, nd': Node, log: seq<Entry>, sent: seq<Msg>)
    requires nd.next < |log| && nd'.next == nd.next + 1 && nd'.queue == nd.queue + sent
    ensures log[nd.next].from == n ==> Stream(n, nd, log) != [] && Stream(n, nd, log)[0] == log[nd.next].msg
    ensures Stream(n, nd', log) == Pop(n, Stream(n, nd, log), log[nd.next], sent)
  {
    var e := log[nd.next];
    assert log[nd.next..][0] == e && log[nd.next..][1..] == log[nd.next + 1..];
    var tail := FromNode(n, log[nd.next + 1..]);
    if e.from == n {
      assert Stream(n, nd, log) == [e.msg] + (tail + nd.queue);
      assert (tail + nd.queue) + sent == tail + (nd.queue + sent);
    } else {
      assert FromNode(n, log[nd.next..]) == tail;
      assert (tail + nd.queue) + sent == tail + (nd.queue + sent);
    }
  }

  lemma SentOpsAfter(n: int, nd: Node, nd': Node, log: seq<Entry>, sent: seq<Msg>)
    requires nd'.queue == nd.queue + sent
    ensures SentOps(n, nd', log) == SentOps(n, nd, log) + OpsIn(sent)
  {
    var f := FromNode(n, log);
    assert f + nd'.queue == (f + nd.queue) + sent;
    OpsInConcat(f + nd.queue, sent);
  }

  lemma {:induction false} NoLogOpsNoSentOps(n: int, log: seq<Entry>)
    requires LogOps(log) == []
    ensures OpsIn(FromNode(n, log)) == []
    decreases |log|
  {
    if log == [] { return; }
    var shorter, e := log[..|log| - 1], log[|log| - 1];
    NoLogOpsNoSentOps(n, shorter);
    assert log == shorter + [e];
    FromNodeSnoc(n, shorter, e);
    OpsInConcat(FromNode(n, shorter), if e.from == n then [e.msg] else []);
    assert [e.msg][1..] == [];
  }

  /** Before the resource is unowned in the log nobody has sent an operation. */
  lemma NothingSentYet(n: int, nd: Node, log: seq<Entry>, local: seq<Op>)
    requires LogOk(log, local) && ViewOf(log).owner != UNOWNED && OpsIn(nd.queue) == []
    ensures SentOps(n, nd, log) == []
  {
    ViewShape(log, local);
    NoLogOpsNoSentOps(n, log);
    OpsInConcat(FromNode(n, log), nd.queue);
  }

  // ---------- one event keeps the node in order

  lemma NodeInv(s: State, n: int)
    requires Inv(s) && n in s.nodes
    ensures NodeOk(n, s.nodes[n], s.log, s.local) && LogOk(s.log, s.local)
  {
  }

  /** A node that becomes the owner finds an empty local history. */
  lemma FreshOwner(s: State, n: int)
    requires Inv(s) && n in s.nodes && s.nodes[n].next < |s.log|
    requires ViewOf(s.log[..s.nodes[n].next]).owner == UNKNOWN && s.log[s.nodes[n].next] == Entry(n, Own(n))
    ensures s.local == []
  {
    var k := s.nodes[n].next;
    assert NodeOk(n, s.nodes[n], s.log, s.local);
    LogOkPrefix(s.log, s.local, k);
    LogOkAt(s.log, s.local, k);
    ViewShape(s.log[..k], s.local);
    ViewMonotone(s.log, s.local, k + 1);
    if s.local != [] { var x := LocalOwner(s); }
  }

  /** Operations executed locally are those of the first owner in the log. */
  lemma LocalOwner(s: State) returns (x: int)
    requires Inv(s) && s.local != []
    ensures x in s.nodes && s.nodes[x].next <= |s.log| && s.nodes[x].handled == s.local
    ensures ViewOf(s.log[..s.nodes[x].next]).first == x && ViewOf(s.log).first == x
  {
    x :| x in s.nodes && s.nodes[x].handled == s.local;
    assert NodeOk(x, s.nodes[x], s.log, s.local);
    ViewMonotone(s.log, s.local, s.nodes[x].next);
  }

  /** Before the resource becomes unowned, the local operations are the first owner's. */
  lemma LocalFromFirst(s: State, k: nat)
    requires Inv(s) && k <= |s.log| && ViewOf(s.log[..k]).owner > 0
    ensures AllFrom(ViewOf(s.log[..k]).owner, s.local) && LogOps(s.log[..k]) == []
  {
    LogOkPrefix(s.log, s.local, k);
    ViewShape(s.log[..k], s.local);
    ViewMonotone(s.log, s.local, k);
  }

  /** An event passes operations on: from pending (and just read) to sent. */
  ghost predicate PassesOn(nd: Node, eff: Effect, read: seq<Op>) {
    eff.handled == [] && OpsIn(eff.sent) + eff.res.pending == nd.res.pending + read
  }

  /** An event executes operations here, as the owner. */
  ghost predicate Executes(nd: Node, eff: Effect, read: seq<Op>) {
    eff.handled == nd.res.pending + read && eff.res.pending == [] && eff.sent == []
  }

  lemma OpsInRelinquish(r: Res)
    ensures OpsIn(Relinquish(r).sent) == []
  {
    var t := r.table;
    OpsInSyncs(t.locks, t.waiters);
    OpsInConcat(LockSyncs(t.locks), WaiterSyncs(t.waiters));
    OpsInConcat(LockSyncs(t.locks) + WaiterSyncs(t.waiters), SendOwn(r, UNOWNED));
    assert [Own(UNOWNED)][1..] == [];
  }

  function OpsAfter(lops: seq<Op>, e: Entry): seq<Op> {
    lops + if e.msg.Plock? then [e.msg.op] else []
  }

  /** What a delivery does to a node, given what the log says before (`v`, `lops`). */
  ghost predicate Delivered(n: int, nd: Node, v: View, stream: seq<Msg>, e: Entry, local: seq<Op>, lops: seq<Op>)
    requires e.from == n ==> stream != []
  {
    var eff := Receive(n, nd.res, e.from, e.msg);
    var nd', local' := Advance(nd, eff, [], 1), local + eff.handled;
    && !eff.unexpected && (e.msg.Plock? ==> nd.res.known && nd.res.owner == UNOWNED)
    && PhaseOk(n, nd', ViewStep(v, e), Pop(n, stream, e, eff.sent), local', ApplyAll(EmptyTable, local' + OpsAfter(lops, e)))
    && (PassesOn(nd, eff, []) || (Executes(nd, eff, []) && local == [] && nd'.res.owner == n && ViewStep(v, e).owner == n))
  }

  ghost predicate Consistent(n: int, nd: Node, v: View, stream: seq<Msg>, e: Entry, local: seq<Op>, lops: seq<Op>) {
    && PhaseOk(n, nd, v, stream, local, ApplyAll(EmptyTable, local + lops)) && Delivers(n, v, stream, e)
    && v.owner >= UNKNOWN && (v.owner != UNOWNED ==> lops == [])
    && (v.owner == UNKNOWN <==> v.first == UNKNOWN) && (v.owner > 0 ==> v.owner == v.first)
  }

  lemma UnknownDelivered(n: int, nd: Node, v: View, stream: seq<Msg>, e: Entry, local: seq<Op>)
    requires Consistent(n, nd, v, stream, e, local, []) && v.owner == UNKNOWN
    requires e == Entry(n, Own(n)) ==> local == []
    ensures Delivered(n, nd, v, stream, e, local, [])
  {
    hide Apply, ApplyAll, Receive;
    DeliverUnknown(n, nd, v, stream, e);
    assert [] + nd.res.pending == nd.res.pending + [] == nd.res.pending;
    assert local + [] == local;
  }

  lemma ForeignDelivered(n: int, nd: Node, v: View, stream: seq<Msg>, e: Entry, local: seq<Op>)
    requires Consistent(n, nd, v, stream, e, local, []) && v.owner > 0 && v.owner != n
    requires AllFrom(v.owner, local)
    ensures Delivered(n, nd, v, stream, e, local, [])
  {
    hide Apply, ApplyAll, Receive, ViewStep, PhaseUnknown, PhaseOwner, PhaseSyncing, PhaseUnowned,
         PhaseForeign, Pop, OwnAnswers, AllFrom;
    assert local + [] == local && nd.res.pending + [] == nd.res.pending;
    ForeignAnswersNone(n, v.owner, local);
    DeliverForeign(n, nd, v, stream, e, local, ApplyAll(EmptyTable, local));
    OpsInPlockMsgs(nd.res.pending);
  }

  lemma OwnerDelivered(n: int, nd: Node, v: View, stream: seq<Msg>, e: Entry, local: seq<Op>)
    requires Consistent(n, nd, v, stream, e, local, []) && v.owner == n && PhaseOwner(n, nd, v, stream, local)
    ensures Delivered(n, nd, v, stream, e, local, [])
  {
    hide Apply, ApplyAll, Receive, Relinquish, ViewStep, PhaseSyncing, PhaseUnowned, OpsIn;
    assert local + [] == local;
    assert stream == [];
    DeliverOwner(n, nd, v, e, local);
    OpsInRelinquish(nd.res);
    assert [] + Relinquish(nd.res).sent == Relinquish(nd.res).sent;
  }

  lemma SyncingDelivered(n: int, nd: Node, v: View, stream: seq<Msg>, e: Entry, local: seq<Op>)
    requires Consistent(n, nd, v, stream, e, local, []) && v.owner == n && PhaseSyncing(n, nd, v, stream, local)
    ensures Delivered(n, nd, v, stream, e, local, [])
  {
    hide Apply, ApplyAll, Receive;
    assert local + [] == local;
    DeliverSyncing(n, nd, v, stream, e, local);
  }

  lemma UnownedDelivered(n: int, nd: Node, v: View, stream: seq<Msg>, e: Entry, local: seq<Op>, lops: seq<Op>)
    requires Consistent(n, nd, v, stream, e, local, lops) && v.owner == UNOWNED
    requires v.table == ApplyAll(EmptyTable, local + lops).table
    ensures Delivered(n, nd, v, stream, e, local, lops)
  {
    hide Apply, ApplyAll, Receive, ViewStep, PhaseUnknown, PhaseForeign, PhaseOwner, PhaseSyncing, PhaseUnowned;
    assert local + [] == local && lops + [] == lops;
    DeliverUnowned(n, nd, v, stream, e, ApplyAll(EmptyTable, local + lops), local + lops);
    if e.msg.Plock? {
      assert local + (lops + [e.msg.op]) == (local + lops) + [e.msg.op];
    }
  }

  /** Every delivery in a state that satisfies the invariant is an expected one. */
  lemma DeliverNode(s: State, n: int)
    requires Inv(s) && n in s.nodes && s.nodes[n].next < |s.log|
    ensures var nd := s.nodes[n];
            var e := s.log[nd.next];
            && Delivers(n, ViewOf(s.log[..nd.next]), Stream(n, nd, s.log), e)
            && Delivered(n, nd, ViewOf(s.log[..nd.next]), Stream(n, nd, s.log), e, s.local, LogOps(s.log[..nd.next]))
  {
    hide Inv, Apply, ApplyAll, Delivered, ViewOf, LogOps, FromNode, ViewStep;
    hide PhaseUnknown, PhaseForeign, PhaseOwner, PhaseSyncing, PhaseUnowned;
    var nd, log, local := s.nodes[n], s.log, s.local;
    var k, e := nd.next, log[nd.next];
    var v, stream := ViewOf(log[..k]), Stream(n, nd, log);
    NodeInv(s, n);
    LogOkAt(log, local, k);
    ViewShape(log[..k], local);
    StreamAfterDeliver(n, nd, nd.(next := k + 1, queue := nd.queue + []), log, []);
    assert Consistent(n, nd, v, stream, e, local, LogOps(log[..k]));
    if v.owner == UNKNOWN {
      if e == Entry(n, Own(n)) { FreshOwner(s, n); }
      UnknownDelivered(n, nd, v, stream, e, local);
    } else if v.owner == UNOWNED {
      UnownedTable(log[..k], local);
      UnownedDelivered(n, nd, v, stream, e, local, LogOps(log[..k]));
    } else if v.owner != n {
      LocalFromFirst(s, k);
      ForeignDelivered(n, nd, v, stream, e, local);
    } else if PhaseOwner(n, nd, v, stream, local) {
      OwnerDelivered(n, nd, v, stream, e, local);
    } else {
      SyncingDelivered(n, nd, v, stream, e, local);
    }
  }

  // ---------- reading an operation, and dropping an unused resource

  /** The node after an event that delivers nothing. */
  ghost predicate Reacted(n: int, nd: Node, v: View, stream: seq<Msg>, eff: Effect, read: seq<Op>, local: seq<Op>, lops: seq<Op>) {
    var nd', local' := Advance(nd, eff, read, 0), local + eff.handled;
    && !eff.unexpected
    && PhaseOk(n, nd', v, stream + eff.sent, local', ApplyAll(EmptyTable, local' + lops))
    && (PassesOn(nd, eff, read) || (Executes(nd, eff, read) && nd'.res.owner == n && v.owner == n))
  }

  lemma WithNodeFrom(op: Op, n: int)
    ensures WithNode(op, n).req.key.nodeid == n
  {
  }

  lemma SaveOne(n: int, nd: Node, op: Op)
    requires nd.res.owner != UNOWNED && nd.res.owner != n
    ensures var eff := ProcessPlock(n, nd.res, op);
            && eff == Quiet(nd.res.(known := true, pending := nd.res.pending + [WithNode(op, n)]))
                      .(sent := if nd.res.pending == [] then [Own(n)] else [])
            && PassesOn(nd, eff, [WithNode(op, n)])
  {
    var eff := ProcessPlock(n, nd.res, op);
    assert OpsIn(eff.sent) == [] by { assert [Own(n)][1..] == []; }
    assert [] + eff.res.pending == eff.res.pending;
  }

  lemma ReadBeforeOwner(n: int, nd: Node, v: View, stream: seq<Msg>, op: Op, local: seq<Op>, lops: seq<Op>)
    requires n > 0 && PhaseOk(n, nd, v, stream, local, ApplyAll(EmptyTable, local + lops))
    requires v.owner == UNKNOWN || (v.owner > 0 && v.owner != n)
    ensures Reacted(n, nd, v, stream, ProcessPlock(n, nd.res, op), [WithNode(op, n)], local, lops)
  {
    hide Apply, ApplyAll, ProcessPlock, WithNode, PassesOn;
    SaveOne(n, nd, op);
    assert nd.handled + [] == nd.handled && nd.written + [] == nd.written;
    assert WithNode(op, n).req.key.nodeid == n by { WithNodeFrom(op, n); }
    assert local + [] == local && stream + [] == stream && [] + [Own(n)] == [Own(n)];
  }

  lemma ReadAsOwner(n: int, nd: Node, v: View, stream: seq<Msg>, op: Op, local: seq<Op>)
    requires n > 0 && v.owner == v.first == n && PhaseOk(n, nd, v, stream, local, ApplyAll(EmptyTable, local + []))
    requires PhaseOwner(n, nd, v, stream, local)
    ensures Reacted(n, nd, v, stream, ProcessPlock(n, nd.res, op), [WithNode(op, n)], local, [])
  {
    hide Apply, ApplyAll;
    var me := WithNode(op, n);
    ApplyAllSnoc(EmptyTable, local, me);
    OwnAnswersConcat(n, ApplyAll(EmptyTable, local).answers, Apply(nd.res.table, me).answers);
    assert nd.res.pending + [me] == [me] && stream + [] == stream;
  }

  lemma SendOne(n: int, nd: Node, op: Op)
    requires nd.res.known && nd.res.owner == UNOWNED && nd.res.pending == []
    ensures var eff := ProcessPlock(n, nd.res, op);
            && eff == Quiet(nd.res).(sent := [Plock(WithNode(op, n))])
            && PassesOn(nd, eff, [WithNode(op, n)])
  {
    var sent := [Plock(WithNode(op, n))];
    assert sent[1..] == [] && OpsIn(sent) == [WithNode(op, n)] + OpsIn([]);
  }

  lemma ReadWhileSyncing(n: int, nd: Node, v: View, stream: seq<Msg>, op: Op, local: seq<Op>)
    requires n > 0 && v.owner == n && PhaseSyncing(n, nd, v, stream, local)
    requires PhaseOk(n, nd, v, stream, local, ApplyAll(EmptyTable, local + []))
    ensures Reacted(n, nd, v, stream, ProcessPlock(n, nd.res, op), [WithNode(op, n)], local, [])
  {
    hide Apply, ApplyAll, ProcessPlock, WithNode, PassesOn, SyncedUpTo;
    var sent := [Plock(WithNode(op, n))];
    SendOne(n, nd, op);
    WithNodeFrom(op, n);
    assert local + [] == local;
    SyncedMore(n, nd.res.table, v.table, stream, ApplyAll(EmptyTable, local).table, WithNode(op, n));
    var eff := ProcessPlock(n, nd.res, op);
    assert nd.written + [] == nd.written && nd.handled + [] == nd.handled;
    var nd' := Advance(nd, eff, [WithNode(op, n)], 0);
    assert nd'.res == nd.res && nd'.handled == nd.handled && nd'.written == nd.written;
    assert PhaseSyncing(n, nd', v, stream + sent, local);
  }

  lemma SyncedMore(n: int, here: Table, done: Table, stream: seq<Msg>, t: Table, op: Op)
    requires SyncedUpTo(n, here, done, stream, t) && op.req.key.nodeid == n
    ensures SyncedUpTo(n, here, done, stream + [Plock(op)], t)
  {
    hide FlagLocks, FlagWaiters, LockSyncs, WaiterSyncs;
    var syncs, sent := LockSyncs(t.locks[|done.locks|..]) + WaiterSyncs(t.waiters[|done.waiters|..]), [Plock(op)];
    var k := |syncs|;
    assert (stream + sent)[..k] == stream[..k];
    assert (stream + sent)[k + 1..] == stream[k + 1..] + sent;
  }

  lemma ReadUnowned(n: int, nd: Node, v: View, stream: seq<Msg>, op: Op, local: seq<Op>, lops: seq<Op>)
    requires n > 0 && v.owner == UNOWNED
    requires PhaseOk(n, nd, v, stream, local, ApplyAll(EmptyTable, local + lops))
    ensures Reacted(n, nd, v, stream, ProcessPlock(n, nd.res, op), [WithNode(op, n)], local, lops)
  {
    hide Apply, ApplyAll, ProcessPlock, WithNode, PassesOn;
    var sent := [Plock(WithNode(op, n))];
    SendOne(n, nd, op);
    WithNodeFrom(op, n);
    assert local + [] == local;
    if AllPlocks(n, stream) {
      assert AllPlocks(n, stream + sent);
    } else {
      assert (stream + sent)[1..] == stream[1..] + sent;
      assert AllPlocks(n, (stream + sent)[1..]);
    }
    var eff := ProcessPlock(n, nd.res, op);
    assert nd.written + [] == nd.written && nd.handled + [] == nd.handled;
    var nd' := Advance(nd, eff, [WithNode(op, n)], 0);
    assert nd'.res == nd.res && nd'.handled == nd.handled && nd'.written == nd.written;
    assert PhaseUnowned(n, nd', v, stream + sent, ApplyAll(EmptyTable, local + lops));
  }

  lemma DropReacted(n: int, nd: Node, v: View, stream: seq<Msg>, local: seq<Op>)
    requires n > 0 && v.owner == v.first == n && PhaseOk(n, nd, v, stream, local, ApplyAll(EmptyTable, local + []))
    requires PhaseOwner(n, nd, v, stream, local) && nd.res.table == EmptyTable
    ensures Reacted(n, nd, v, stream, DropOwnership(nd.res), [], local, [])
  {
    RelinquishPhase(n, nd, v, local, 0);
    OpsInRelinquish(nd.res);
    assert local + [] == local;
    assert LockSyncs([]) + WaiterSyncs([]) + SendOwn(nd.res, UNOWNED) == SendOwn(nd.res, UNOWNED);
    assert DropOwnership(nd.res) == Relinquish(nd.res);
    assert stream + Relinquish(nd.res).sent == Relinquish(nd.res).sent;
  }

  /** A node holds itself for the owner only where the log says so too. */
  lemma SelfOwner(s: State, n: int)
    requires Inv(s) && n in s.nodes && s.nodes[n].res.owner == n
    ensures var v := ViewOf(s.log[..s.nodes[n].next]);
            && v.owner == v.first == n && LogOps(s.log[..s.nodes[n].next]) == []
            && PhaseOwner(n, s.nodes[n], v, Stream(n, s.nodes[n], s.log), s.local)
  {
    assert NodeOk(n, s.nodes[n], s.log, s.local);
    LogOkPrefix(s.log, s.local, s.nodes[n].next);
    ViewShape(s.log[..s.nodes[n].next], s.local);
  }

  lemma ReactNode(s: State, e: Event)
    requires Inv(s) && Enabled(s, e) && (e.Read? || e.Drop?)
    ensures var nd := s.nodes[e.n];
            Reacted(e.n, nd, ViewOf(s.log[..nd.next]), Stream(e.n, nd, s.log), EffectOf(s, e),
                    if e.Read? then [WithNode(e.op, e.n)] else [], s.local, LogOps(s.log[..nd.next]))
  {
    hide Inv, Apply, ApplyAll, Reacted;
    var n, nd := e.n, s.nodes[e.n];
    NodeInv(s, n);
    var v, stream := ViewOf(s.log[..nd.next]), Stream(n, nd, s.log);
    LogOkPrefix(s.log, s.local, nd.next);
    ViewShape(s.log[..nd.next], s.local);
    if nd.res.owner == n {
      SelfOwner(s, n);
      if e.Read? { ReadAsOwner(n, nd, v, stream, e.op, s.local); } else { DropReacted(n, nd, v, stream, s.local); }
    } else if nd.res.owner == UNOWNED {
      if v.owner == n {
        ReadWhileSyncing(n, nd, v, stream, e.op, s.local);
      } else {
        ReadUnowned(n, nd, v, stream, e.op, s.local, LogOps(s.log[..nd.next]));
      }
    } else {
      ReadBeforeOwner(n, nd, v, stream, e.op, s.local, LogOps(s.log[..nd.next]));
    }
  }

  // ---------- the invariant

  lemma ConservedAfter(n: int, nd: Node, eff: Effect, read: seq<Op>, delivered: nat, log: seq<Entry>)
    requires Conserved(n, nd, log)
    requires PassesOn(nd, eff, read) || (Executes(nd, eff, read) && SentOps(n, nd, log) == [])
    ensures Conserved(n, Advance(nd, eff, read, delivered), log)
  {
    var nd' := Advance(nd, eff, read, delivered);
    SentOpsAfter(n, nd, nd', log, eff.sent);
    var h, p, q := nd.handled, SentOps(n, nd, log), nd.res.pending;
    if PassesOn(nd, eff, read) {
      var x := OpsIn(eff.sent);
      assert (h + p + q) + read == h + p + (q + read);
      assert h + p + (x + eff.res.pending) == (h + []) + (p + x) + eff.res.pending;
    } else {
      assert (h + [] + q) + read == (h + (q + read)) + ([] + []) + [];
    }
  }

  /** A node that holds itself for the owner is the owner in the whole log. */
  lemma OwnerInLog(n: int, nd: Node, log: seq<Entry>, local: seq<Op>, local': seq<Op>)
    requires n > 0 && LogOk(log, local) && nd.next <= |log| && ViewOf(log[..nd.next]).owner == n && nd.res.owner == n
    requires PhaseOk(n, nd, ViewOf(log[..nd.next]), Stream(n, nd, log), local', Serial(local', log[..nd.next]))
    ensures ViewOf(log).owner == ViewOf(log).first == n && nd.queue == []
  {
    assert Stream(n, nd, log) == [];
    OwnedUntilOwnZero(log, local, nd.next, n);
    ViewShape(log, local);
  }

  /** Other nodes do not mind the owner's history growing. */
  lemma OthersUnaffected(m: int, nd: Node, log: seq<Entry>, local: seq<Op>, local': seq<Op>, n: int)
    requires NodeOk(m, nd, log, local) && LogOk(log, local) && m != n
    requires ViewOf(log).owner == ViewOf(log).first == n > 0
    ensures NodeOk(m, nd, log, local')
  {
    LogOkPrefix(log, local, nd.next);
    ViewShape(log[..nd.next], local);
    ViewMonotone(log, local, nd.next);
  }

  /** The state after node `n` took a step with effect `eff`. */
  function Stepped(s: State, n: int, eff: Effect, read: seq<Op>, delivered: nat): State
    requires n in s.nodes
  {
    State(s.nodes[n := Advance(s.nodes[n], eff, read, delivered)], s.log, s.local + eff.handled)
  }

  ghost predicate StepOk(s: State, n: int, eff: Effect, read: seq<Op>, delivered: nat)
    requires n in s.nodes
  {
    var nd', local' := Advance(s.nodes[n], eff, read, delivered), s.local + eff.handled;
    && nd'.next <= |s.log|
    && PhaseOk(n, nd', ViewOf(s.log[..nd'.next]), Stream(n, nd', s.log), local', Serial(local', s.log[..nd'.next]))
  }

  lemma PassKeepsInv(s: State, n: int, eff: Effect, read: seq<Op>, delivered: nat)
    requires Inv(s) && n in s.nodes && StepOk(s, n, eff, read, delivered) && PassesOn(s.nodes[n], eff, read)
    ensures Inv(Stepped(s, n, eff, read, delivered))
  {
    hide Apply, ApplyAll, PhaseOk, Serial, ViewOf, LogOps;
    var t := Stepped(s, n, eff, read, delivered);
    assert NodeOk(n, s.nodes[n], s.log, s.local);
    assert s.local + [] == s.local && s.nodes[n].handled + [] == s.nodes[n].handled;
    ConservedAfter(n, s.nodes[n], eff, read, delivered, s.log);
    if s.local != [] {
      var x :| x in s.nodes && s.nodes[x].handled == s.local;
      assert t.nodes[x].handled == t.local;
    }
    forall m | m in t.nodes ensures NodeOk(m, t.nodes[m], t.log, t.local) {
      if m != n { assert NodeOk(m, s.nodes[m], s.log, s.local); }
    }
  }

  ghost predicate ExecutesAsOwner(s: State, n: int, eff: Effect, read: seq<Op>, delivered: nat) {
    && n in s.nodes && StepOk(s, n, eff, read, delivered) && Executes(s.nodes[n], eff, read)
    && eff.res.owner == n && ViewOf(s.log[..s.nodes[n].next + delivered]).owner == n
  }

  lemma ExecutorOwnsLog(s: State, n: int, eff: Effect, read: seq<Op>, delivered: nat)
    requires Inv(s) && ExecutesAsOwner(s, n, eff, read, delivered)
    ensures ViewOf(s.log).owner == ViewOf(s.log).first == n > 0 && s.nodes[n].queue == []
    ensures ViewOf(s.log[..s.nodes[n].next + delivered]).first == n
  {
    hide Apply, ApplyAll;
    var nd' := Advance(s.nodes[n], eff, read, delivered);
    assert NodeOk(n, s.nodes[n], s.log, s.local);
    OwnerInLog(n, nd', s.log, s.local, s.local + eff.handled);
    assert nd'.queue == s.nodes[n].queue + [];
    LogOkPrefix(s.log, s.local, nd'.next);
    ViewShape(s.log[..nd'.next], s.local);
  }

  lemma ExecuteNodeOk(s: State, n: int, eff: Effect, read: seq<Op>, delivered: nat)
    requires Inv(s) && ExecutesAsOwner(s, n, eff, read, delivered)
    ensures var nd' := Advance(s.nodes[n], eff, read, delivered);
            NodeOk(n, nd', s.log, s.local + eff.handled) && nd'.handled == s.local + eff.handled
            && AllFrom(n, s.local + eff.handled)
  {
    hide Apply, ApplyAll, Serial;
    assert NodeOk(n, s.nodes[n], s.log, s.local);
    ExecutorOwnsLog(s, n, eff, read, delivered);
    NothingSentYet(n, s.nodes[n], s.log, s.local);
    ConservedAfter(n, s.nodes[n], eff, read, delivered, s.log);
  }

  lemma ExecuteKeepsInv(s: State, n: int, eff: Effect, read: seq<Op>, delivered: nat)
    requires Inv(s) && ExecutesAsOwner(s, n, eff, read, delivered)
    ensures Inv(Stepped(s, n, eff, read, delivered))
  {
    hide Apply, ApplyAll, Serial, PhaseOk, LogOps;
    var t := Stepped(s, n, eff, read, delivered);
    ExecutorOwnsLog(s, n, eff, read, delivered);
    ExecuteNodeOk(s, n, eff, read, delivered);
    LocalMayGrow(s.log, s.local, t.local);
    forall m | m in t.nodes ensures NodeOk(m, t.nodes[m], t.log, t.local) {
      if m != n {
        assert NodeOk(m, s.nodes[m], s.log, s.local);
        OthersUnaffected(m, s.nodes[m], s.log, s.local, t.local, n);
      }
    }
    assert n in t.nodes && t.nodes[n].handled == t.local;
  }

  lemma DeliverStepOk(s: State, n: int)
    requires Inv(s) && Enabled(s, Deliver(n))
    ensures var eff := EffectOf(s, Deliver(n));
            && StepOk(s, n, eff, [], 1) && !eff.unexpected
            && (PassesOn(s.nodes[n], eff, []) || ExecutesAsOwner(s, n, eff, [], 1))
            && (s.log[s.nodes[n].next].msg.Plock? ==> s.nodes[n].res.known && s.nodes[n].res.owner == UNOWNED)
  {
    hide Inv, Receive, Delivered, Delivers, StepOk, ExecutesAsOwner, PassesOn, ViewStep, LogOps, Stream, Pop, MsgOk;
    hide NodeOk, PhaseOk, LogOk, ViewOf, OpsAfter;
    var nd, eff := s.nodes[n], EffectOf(s, Deliver(n));
    NodeInv(s, n);
    DeliverNode(s, n);
    LogOkAt(s.log, s.local, nd.next);
    StreamAfterDeliver(n, nd, Advance(nd, eff, [], 1), s.log, eff.sent);
    LogOpsSnoc(s.log, nd.next);
    DeliveredIsStep(s, n, eff);
  }

  lemma DeliveredIsStep(s: State, n: int, eff: Effect)
    requires n in s.nodes && s.nodes[n].next < |s.log|
    requires var nd := s.nodes[n];
             var k, e := nd.next, s.log[nd.next];
             var v, stream := ViewOf(s.log[..k]), Stream(n, nd, s.log);
             && (e.from == n ==> stream != []) && Delivered(n, nd, v, stream, e, s.local, LogOps(s.log[..k]))
             && eff == Receive(n, nd.res, e.from, e.msg) && ViewOf(s.log[..k + 1]) == ViewStep(v, e)
             && LogOps(s.log[..k + 1]) == OpsAfter(LogOps(s.log[..k]), e)
             && Stream(n, Advance(nd, eff, [], 1), s.log) == Pop(n, stream, e, eff.sent)
    ensures StepOk(s, n, eff, [], 1) && !eff.unexpected
    ensures PassesOn(s.nodes[n], eff, []) || ExecutesAsOwner(s, n, eff, [], 1)
    ensures s.log[s.nodes[n].next].msg.Plock? ==> s.nodes[n].res.known && s.nodes[n].res.owner == UNOWNED
  {
    hide Apply, ApplyAll, Receive, PhaseOk, PassesOn, Executes, ViewStep, ViewOf, LogOps, Stream, Pop, OpsAfter;
  }

  lemma LogOpsSnoc(log: seq<Entry>, k: nat)
    requires k < |log|
    ensures LogOps(log[..k + 1]) == OpsAfter(LogOps(log[..k]), log[k])
  {
    assert log[..k + 1][..k] == log[..k];
  }

  lemma DeliverKeepsInv(s: State, n: int)
    requires Inv(s) && Enabled(s, Deliver(n))
    ensures Inv(Next(s, Deliver(n)))
  {
    hide Inv, Receive, StepOk;
    var eff := EffectOf(s, Deliver(n));
    DeliverStepOk(s, n);
    if PassesOn(s.nodes[n], eff, []) { PassKeepsInv(s, n, eff, [], 1); } else { ExecuteKeepsInv(s, n, eff, [], 1); }
  }

  lemma ReactStepOk(s: State, e: Event, read: seq<Op>)
    requires Inv(s) && Enabled(s, e) && (e.Read? || e.Drop?)
    requires read == if e.Read? then [WithNode(e.op, e.n)] else []
    ensures var eff := EffectOf(s, e);
            && StepOk(s, e.n, eff, read, 0)
            && (PassesOn(s.nodes[e.n], eff, read) || ExecutesAsOwner(s, e.n, eff, read, 0))
  {
    hide Inv, EffectOf, Reacted, StepOk, ExecutesAsOwner, PassesOn, ViewOf, LogOps;
    NodeInv(s, e.n);
    ReactNode(s, e);
    ReactedIsStep(s, e.n, EffectOf(s, e), read);
  }

  lemma ReactedIsStep(s: State, n: int, eff: Effect, read: seq<Op>)
    requires n in s.nodes && s.nodes[n].next <= |s.log|
    requires var nd := s.nodes[n];
             Reacted(n, nd, ViewOf(s.log[..nd.next]), Stream(n, nd, s.log), eff, read, s.local, LogOps(s.log[..nd.next]))
    ensures StepOk(s, n, eff, read, 0) && (PassesOn(s.nodes[n], eff, read) || ExecutesAsOwner(s, n, eff, read, 0))
  {
    hide Apply, ApplyAll, PhaseOk, ViewOf, PassesOn, Executes, LogOps, FromNode;
    var nd := s.nodes[n];
    var f := FromNode(n, s.log[nd.next..]);
    assert f + (nd.queue + eff.sent) == (f + nd.queue) + eff.sent;
  }

  lemma ReactKeepsInv(s: State, e: Event)
    requires Inv(s) && Enabled(s, e) && (e.Read? || e.Drop?)
    ensures Inv(Next(s, e))
  {
    hide Inv, EffectOf, StepOk;
    var eff, read := EffectOf(s, e), if e.Read? then [WithNode(e.op, e.n)] else [];
    ReactStepOk(s, e, read);
    if PassesOn(s.nodes[e.n], eff, read) { PassKeepsInv(s, e.n, eff, read, 0); } else { ExecuteKeepsInv(s, e.n, eff, read, 0); }
  }

  // ---------- a message enters the log

  lemma {:induction false} AddSyncsLocks(t: Table, locks: seq<PosixLock>, more: seq<Msg>)
    requires UnflaggedLocks(locks)
    ensures AddSyncs(t, LockSyncs(locks) + more) == AddSyncs(Table(t.locks + locks, t.waiters), more)
    decreases |locks|
  {
    if locks == [] {
      assert LockSyncs(locks) + more == more && t.locks + locks == t.locks;
    } else {
      var po, rest, msgs := locks[0], locks[1..], LockSyncs(locks) + more;
      var next := Table(t.locks + [po], t.waiters);
      assert msgs[0] == SyncLock(ReqOf(po)) && msgs[1..] == LockSyncs(rest) + more && NewLock(ReqOf(po)) == po;
      AddSyncsLocks(next, rest, more);
      assert AddSyncs(t, msgs) == AddSyncs(next, msgs[1..]);
      assert (t.locks + [po]) + rest == t.locks + locks;
    }
  }

  lemma {:induction false} AddSyncsWaiters(t: Table, ws: seq<Waiter>)
    requires forall i :: 0 <= i < |ws| ==> !ws[i].syncing
    ensures AddSyncs(t, WaiterSyncs(ws)) == Table(t.locks, t.waiters + ws)
    decreases |ws|
  {
    if ws == [] {
      assert t.waiters + ws == t.waiters;
    } else {
      var w, rest, msgs := ws[0], ws[1..], WaiterSyncs(ws);
      var next := Table(t.locks, t.waiters + [w]);
      assert msgs[0] == SyncWaiter(w.req) && msgs[1..] == WaiterSyncs(rest) && Waiter(w.req, false) == w;
      AddSyncsWaiters(next, rest);
      assert AddSyncs(t, msgs) == AddSyncs(next, msgs[1..]);
      assert (t.waiters + [w]) + rest == t.waiters + ws;
    }
  }

  /** When all sync messages are in the log, the log holds the owner's table. */
  lemma SyncsAddUp(t: Table, a: nat, b: nat)
    requires Unflagged(t) && a <= |t.locks| && b <= |t.waiters|
    ensures AddSyncs(Table(t.locks[..a], t.waiters[..b]), LockSyncs(t.locks[a..]) + WaiterSyncs(t.waiters[b..])) == t
  {
    hide AddSyncs, LockSyncs, WaiterSyncs;
    AddSyncsLocks(Table(t.locks[..a], t.waiters[..b]), t.locks[a..], WaiterSyncs(t.waiters[b..]));
    assert t.locks[..a] + t.locks[a..] == t.locks;
    AddSyncsWaiters(Table(t.locks, t.waiters[..b]), t.waiters[b..]);
    assert t.waiters[..b] + t.waiters[b..] == t.waiters;
  }

  lemma {:induction false} SyncsAreSyncs(locks: seq<PosixLock>, ws: seq<Waiter>)
    ensures forall i :: 0 <= i < |LockSyncs(locks)| ==> LockSyncs(locks)[i].SyncLock?
    ensures forall i :: 0 <= i < |WaiterSyncs(ws)| ==> WaiterSyncs(ws)[i].SyncWaiter?
  {
    FlagLocksAt(locks);
    FlagWaitersAt(ws);
  }

  /** What the next message of a syncing node may be, by how far its stream is in the log. */
  lemma SyncingOrder(n: int, nd: Node, log: seq<Entry>, local: seq<Op>)
    requires LogOk(log, local) && NodeOk(n, nd, log, local) && nd.queue != []
    requires ViewOf(log[..nd.next]).owner == n && PhaseSyncing(n, nd, ViewOf(log[..nd.next]), Stream(n, nd, log), local)
    ensures MsgOk(ViewOf(log), Entry(n, nd.queue[0]))
    ensures nd.queue[0] == Own(UNOWNED) ==> ViewOf(log).table == ApplyAll(EmptyTable, local).table && ViewOf(log).owner != UNOWNED
  {
    hide Apply, ApplyAll, PhaseOk, Conserved;
    var v, stream, t := ViewOf(log[..nd.next]), Stream(n, nd, log), ApplyAll(EmptyTable, local).table;
    var sent := FromNode(n, log[nd.next..]);
    var syncs := LockSyncs(t.locks[|v.table.locks|..]) + WaiterSyncs(t.waiters[|v.table.waiters|..]);
    SyncsAreSyncs(t.locks[|v.table.locks|..], t.waiters[|v.table.waiters|..]);
    ApplyAllUnflagged(local);
    assert nd.queue[0] == stream[|sent|];
    if |sent| > |syncs| {
      assert sent[|syncs|] == stream[|syncs|];
      OwnZeroSeen(log, local, nd.next, n, |syncs|);
      assert stream[|sent|] == stream[|syncs| + 1..][|sent| - |syncs| - 1];
    } else {
      assert sent == stream[..|syncs|][..|sent|];
      assert forall i :: 0 <= i < |sent| ==> sent[i] == syncs[i];
      OwnedUntilOwnZero(log, local, nd.next, n);
      if |sent| == |syncs| {
        assert sent == syncs;
        SyncsAddUp(t, |v.table.locks|, |v.table.waiters|);
      } else {
        assert stream[|sent|] == syncs[|sent|];
      }
    }
  }

  lemma OrderMsgOk(n: int, nd: Node, log: seq<Entry>, local: seq<Op>)
    requires LogOk(log, local) && NodeOk(n, nd, log, local) && nd.queue != []
    ensures MsgOk(ViewOf(log), Entry(n, nd.queue[0]))
    ensures nd.queue[0] == Own(UNOWNED) ==> ViewOf(log).table == ApplyAll(EmptyTable, local).table && ViewOf(log).owner != UNOWNED
  {
    hide Apply, ApplyAll, Conserved, Serial;
    var v, stream := ViewOf(log[..nd.next]), Stream(n, nd, log);
    var sent := FromNode(n, log[nd.next..]);
    assert nd.queue[0] == stream[|sent|];
    LogOkPrefix(log, local, nd.next);
    ViewShape(log[..nd.next], local);
    if v.owner == UNOWNED {
      ViewMonotone(log, local, nd.next);
      if |sent| > 0 { assert stream[|sent|] == stream[1..][|sent| - 1]; }
    } else if v.owner == n && PhaseSyncing(n, nd, v, stream, local) {
      SyncingOrder(n, nd, log, local);
    }
  }

  lemma OrderLogOk(n: int, m: Msg, log: seq<Entry>, local: seq<Op>)
    requires LogOk(log, local) && MsgOk(ViewOf(log), Entry(n, m))
    requires m == Own(UNOWNED) ==> ViewOf(log).table == ApplyAll(EmptyTable, local).table && ViewOf(log).owner != UNOWNED
    ensures LogOk(log + [Entry(n, m)], local)
  {
    hide Apply, ApplyAll;
    var e := Entry(n, m);
    var longer := log + [e];
    assert longer[..|log|] == log && longer[|log|] == e;
    ViewShape(log, local);
    assert local + [] == local;
    LogOpsSnoc(longer, |log|);
    assert longer[..|log| + 1] == longer;
    if m.Plock? {
      UnownedTable(log, local);
      ApplyAllSnoc(EmptyTable, local + LogOps(log), m.op);
      assert local + (LogOps(log) + [m.op]) == (local + LogOps(log)) + [m.op];
    } else if ViewOf(log).owner == UNOWNED {
      UnownedTable(log, local);
      assert LogOps(log) + [] == LogOps(log);
    }
  }

  /** A longer log with the same own messages does not change a node. */
  lemma NodeOkLonger(n: int, nd: Node, nd': Node, log: seq<Entry>, local: seq<Op>, e: Entry)
    requires NodeOk(n, nd, log, local)
    requires if e.from == n then nd.queue != [] && e.msg == nd.queue[0] && nd' == nd.(queue := nd.queue[1..]) else nd' == nd
    ensures NodeOk(n, nd', log + [e], local)
  {
    hide PhaseOk, ViewOf, Serial, OpsIn, FromNode;
    var longer := log + [e];
    assert longer[..nd.next] == log[..nd.next] && longer[nd.next..] == log[nd.next..] + [e];
    FromNodeSnoc(n, log[nd.next..], e);
    FromNodeSnoc(n, log, e);
    if e.from == n {
      assert [e.msg] + nd.queue[1..] == nd.queue;
      assert FromNode(n, longer) + nd'.queue == FromNode(n, log) + nd.queue;
      assert Stream(n, nd', longer) == Stream(n, nd, log);
    } else {
      assert FromNode(n, longer) == FromNode(n, log);
      assert Stream(n, nd', longer) == Stream(n, nd, log);
    }
    PhaseOkQueue(n, nd, nd', ViewOf(log[..nd.next]), Stream(n, nd, log), local, Serial(local, log[..nd.next]));
  }

  lemma PhaseOkQueue(n: int, nd: Node, nd': Node, v: View, stream: seq<Msg>, local: seq<Op>, serial: Outcome)
    requires PhaseOk(n, nd, v, stream, local, serial) && nd' == nd.(queue := nd'.queue)
    ensures PhaseOk(n, nd', v, stream, local, serial)
  {
    hide Apply, ApplyAll;
  }

  lemma OrderKeepsInv(s: State, n: int)
    requires Inv(s) && Enabled(s, Order(n))
    ensures Inv(Next(s, Order(n)))
  {
    hide Apply, ApplyAll, NodeOk, LogOk;
    var t, nd := Next(s, Order(n)), s.nodes[n];
    var e := Entry(n, nd.queue[0]);
    NodeInv(s, n);
    OrderMsgOk(n, nd, s.log, s.local);
    OrderLogOk(n, nd.queue[0], s.log, s.local);
    forall m | m in t.nodes ensures NodeOk(m, t.nodes[m], t.log, t.local) {
      NodeInv(s, m);
      NodeOkLonger(m, s.nodes[m], t.nodes[m], s.log, s.local, e);
    }
    if s.local != [] {
      var x :| x in s.nodes && s.nodes[x].handled == s.local;
      assert t.nodes[x].handled == t.local;
      HandledByFirst(s, x);
      ViewMonotone(t.log, s.local, |s.log|);
      assert t.log[..|s.log|] == s.log;
    }
  }

  /** Whoever executed operations locally is the first owner in the log. */
  lemma HandledByFirst(s: State, x: int)
    requires Inv(s) && x in s.nodes && s.nodes[x].handled != []
    ensures ViewOf(s.log).first == x != UNKNOWN
  {
    hide Apply, ApplyAll;
    NodeInv(s, x);
    ViewMonotone(s.log, s.local, s.nodes[x].next);
  }

  /** The invariant holds initially and after every event. */
  lemma InitInv(s: State)
    requires Init(s)
    ensures Inv(s)
  {
    forall n | n in s.nodes ensures NodeOk(n, s.nodes[n], s.log, s.local) {
      assert s.log[..0] == [] && s.log[0..] == [];
    }
  }

  lemma NextInv(s: State, e: Event)
    requires Inv(s) && Enabled(s, e)
    ensures Inv(Next(s, e))
  {
    hide Inv;
    match e
    case Order(n) => OrderKeepsInv(s, n);
    case Deliver(n) => DeliverKeepsInv(s, n);
    case _ => ReactKeepsInv(s, e);
  }
}
