/** Every operation a node has read gets its one result, in every run. */
module OwnershipResults {
  import opened Ranges
  import opened LockTable
  import opened PlockNode
  import opened Ownership
  import opened OwnershipLog
  import opened OwnershipPhases
  import opened OwnershipSafety
  import opened OwnershipTheorems

  lemma {:induction false} SubmittedConcat(a: seq<Op>, c: seq<Op>, req: Request)
    ensures Submitted(a + c, req) == Submitted(a, req) + Submitted(c, req)
    decreases |c|
  {
    if c == [] {
      assert a + c == a;
    } else {
      assert (a + c)[..|a + c| - 1] == a + c[..|c| - 1];
      SubmittedConcat(a, c[..|c| - 1], req);
    }
  }

  lemma OneSubmitted(op: Op, req: Request)
    ensures Submitted([op], req) == if op.req == req then 1 else 0
  {
    assert [op][..0] == [];
  }

  /** Of the replicated operations, those of a request of `n` came from `n`. */
  lemma {:induction false} OwnLogOps(n: int, log: seq<Entry>, local: seq<Op>, req: Request)
    requires LogOk(log, local) && req.key.nodeid == n
    ensures Submitted(LogOps(log), req) == Submitted(OpsIn(FromNode(n, log)), req)
    decreases |log|
  {
    hide Apply, ApplyAll, ViewOf, FromNode, OpsIn;
    if log == [] {
      EmptyLog(n);
      return;
    }
    var shorter, e := log[..|log| - 1], log[|log| - 1];
    assert log == shorter + [e];
    OwnLogOps(n, shorter, local, req);
    FromNodeSnoc(n, shorter, e);
    OpsInConcat(FromNode(n, shorter), if e.from == n then [e.msg] else []);
    OpsOfOne(e.msg);
    SubmittedConcat(LogOps(shorter), if e.msg.Plock? then [e.msg.op] else [], req);
    SubmittedConcat(OpsIn(FromNode(n, shorter)), if e.from == n then OpsIn([e.msg]) else [], req);
    if e.msg.Plock? { OneSubmitted(e.msg.op, req); }
  }

  lemma EmptyLog(n: int)
    ensures FromNode(n, []) == [] && OpsIn([]) == []
  {
  }

  lemma OpsOfOne(m: Msg)
    ensures OpsIn([m]) == (if m.Plock? then [m.op] else []) && OpsIn([]) == []
  {
    assert [m][1..] == [];
  }

  lemma {:induction false} FromNodeSplit(n: int, log: seq<Entry>, k: nat)
    requires k <= |log|
    ensures FromNode(n, log) == FromNode(n, log[..k]) + FromNode(n, log[k..])
  {
    if k == 0 {
      assert log[..0] == [] && log[0..] == log;
    } else {
      FromNodeSplit(n, log[1..], k - 1);
      assert log[..k][1..] == log[1..][..k - 1] && log[1..][k - 1..] == log[k..];
    }
  }

  lemma {:induction false} WaitingConcat(a: seq<Waiter>, c: seq<Waiter>, req: Request)
    ensures Waiting(a + c, req) == Waiting(a, req) + Waiting(c, req)
  {
    if a == [] { assert a + c == c; } else { assert (a + c)[1..] == a[1..] + c; WaitingConcat(a[1..], c, req); }
  }

  lemma {:induction false} WaitingFlagged(ws: seq<Waiter>, req: Request)
    ensures Waiting(FlagWaiters(ws), req) == Waiting(ws, req)
  {
    if ws != [] {
      WaitingFlagged(ws[1..], req);
      assert FlagWaiters(ws)[1..] == FlagWaiters(ws[1..]);
    }
  }

  /** The syncing flags do not matter to who is waiting. */
  lemma SyncingWaits(n: int, here: Table, done: Table, stream: seq<Msg>, t: Table, req: Request)
    requires SyncedUpTo(n, here, done, stream, t)
    ensures Waiting(here.waiters, req) == Waiting(t.waiters, req)
  {
    hide IsSyncStream, FlagWaiters, FlagLocks, LockSyncs, WaiterSyncs;
    var b := |done.waiters|;
    WaitingConcat(t.waiters[..b], FlagWaiters(t.waiters[b..]), req);
    WaitingFlagged(t.waiters[b..], req);
    WaitingConcat(t.waiters[..b], t.waiters[b..], req);
    assert t.waiters[..b] + t.waiters[b..] == t.waiters;
  }

  /** A node waits for its requests in its table once it is the owner, or the
      resource is unowned; before that it has executed nothing. */
  function WaitingAt(n: int, r: Res, req: Request): nat {
    if r.owner == n || r.owner == UNOWNED then Waiting(r.table.waiters, req) else 0
  }

  /** What the node has executed so far: handled as the owner, or received back. */
  function Executed(n: int, nd: Node, log: seq<Entry>): seq<Op>
    requires nd.next <= |log|
  {
    nd.handled + OpsIn(FromNode(n, log[..nd.next]))
  }

  lemma ReadSplits(n: int, nd: Node, log: seq<Entry>, req: Request)
    requires nd.next <= |log| && Conserved(n, nd, log)
    ensures Submitted(nd.read, req) ==
            Submitted(Executed(n, nd, log), req) + Submitted(OpsIn(Stream(n, nd, log)), req) + Submitted(nd.res.pending, req)
  {
    hide FromNode, OpsIn, Submitted;
    var back, ahead := FromNode(n, log[..nd.next]), FromNode(n, log[nd.next..]);
    FromNodeSplit(n, log, nd.next);
    assert back + ahead + nd.queue == back + (ahead + nd.queue);
    OpsInConcat(back, ahead + nd.queue);
    SubmittedConcat(nd.handled + SentOps(n, nd, log), nd.res.pending, req);
    SubmittedConcat(nd.handled, OpsIn(back) + OpsIn(ahead + nd.queue), req);
    SubmittedConcat(OpsIn(back), OpsIn(ahead + nd.queue), req);
    SubmittedConcat(nd.handled, OpsIn(back), req);
  }

  /** An operation the owner executed is one of its own. */
  lemma HandledIsLocal(n: int, nd: Node, v: View, local: seq<Op>, req: Request)
    requires nd.handled == (if v.first == n then local else []) && AllFrom(v.first, local) && req.key.nodeid == n
    ensures Submitted(nd.handled, req) == Submitted(local, req)
  {
    if v.first != n { SubmittedFrom(v.first, local, req); }
  }

  /** While the log is not unowned, no operation of the node has come back. */
  lemma NothingBack(n: int, log: seq<Entry>, local: seq<Op>)
    requires LogOk(log, local) && ViewOf(log).owner != UNOWNED
    ensures OpsIn(FromNode(n, log)) == []
  {
    hide Apply, ApplyAll;
    ViewShape(log, local);
    NoLogOpsNoSentOps(n, log);
  }

  lemma AnsweredOwn(n: int, o: Outcome, ops: seq<Op>, req: Request)
    requires o == ApplyAll(EmptyTable, ops) && req.key.nodeid == n
    ensures Submitted(ops, req) == Waiting(o.table.waiters, req) + Answered(OwnAnswers(n, o.answers), req)
  {
    hide ApplyAll, OwnAnswers;
    AnsweredOnce(ops, req);
    OwnAnswersCount(n, o.answers, req);
  }

  lemma ExecutedUnowned(n: int, nd: Node, log: seq<Entry>, local: seq<Op>, req: Request)
    requires NodeOk(n, nd, log, local) && LogOk(log[..nd.next], local) && ViewOf(log[..nd.next]).owner == UNOWNED
    requires AllFrom(ViewOf(log[..nd.next]).first, local) && req.key.nodeid == n
    ensures Submitted(Executed(n, nd, log), req) == WaitingAt(n, nd.res, req) + Answered(nd.written, req)
  {
    hide ApplyAll, LogOps, FromNode, OpsIn, Submitted, Waiting, Answered, OwnAnswers, LogOk, AllFrom, Stream, Conserved;
    var before := log[..nd.next];
    UnownedTable(before, local);
    AnsweredOwn(n, Serial(local, before), local + LogOps(before), req);
    SubmittedConcat(local, LogOps(before), req);
    OwnLogOps(n, before, local, req);
    HandledIsLocal(n, nd, ViewOf(before), local, req);
    SubmittedConcat(nd.handled, OpsIn(FromNode(n, before)), req);
  }

  lemma ExecutedOwner(n: int, nd: Node, log: seq<Entry>, local: seq<Op>, req: Request)
    requires NodeOk(n, nd, log, local) && LogOk(log[..nd.next], local) && ViewOf(log[..nd.next]).owner == n
    requires req.key.nodeid == n
    ensures Submitted(Executed(n, nd, log), req) == WaitingAt(n, nd.res, req) + Answered(nd.written, req)
  {
    hide ApplyAll, LogOps, FromNode, OpsIn, Submitted, Waiting, Answered, OwnAnswers, LogOk, AllFrom, SyncedUpTo, Conserved;
    var before, o := log[..nd.next], ApplyAll(EmptyTable, local);
    NothingBack(n, before, local);
    assert nd.handled + [] == nd.handled;
    AnsweredOwn(n, o, local, req);
    var v, stream := ViewOf(before), Stream(n, nd, log);
    if !PhaseOwner(n, nd, v, stream, local) {
      SyncingWaits(n, nd.res.table, v.table, stream, o.table, req);
    }
  }

  lemma ExecutedBefore(n: int, nd: Node, log: seq<Entry>, local: seq<Op>, req: Request)
    requires NodeOk(n, nd, log, local) && LogOk(log[..nd.next], local)
    requires ViewOf(log[..nd.next]).owner != UNOWNED && ViewOf(log[..nd.next]).owner != n
    ensures Submitted(Executed(n, nd, log), req) == WaitingAt(n, nd.res, req) + Answered(nd.written, req)
  {
    hide ApplyAll, LogOps, FromNode, OpsIn, OwnAnswers, LogOk, AllFrom, Conserved;
    NothingBack(n, log[..nd.next], local);
    assert nd.handled + [] == nd.handled;
  }

  /** In every run, each operation a node has read is pending, on its way, waiting in
      the node's table, or answered by exactly one result written to the node's own
      kernel; and no result is written for another node's request. */
  lemma EveryOpHasOneResult(states: seq<State>, i: nat, n: int, req: Request)
    requires Run(states) && i < |states| && n in states[i].nodes
    ensures states[i].nodes[n].next <= |states[i].log|
    ensures var nd, log := states[i].nodes[n], states[i].log;
            if req.key.nodeid == n then
              Submitted(nd.read, req) == Submitted(nd.res.pending, req) + Submitted(OpsIn(Stream(n, nd, log)), req)
                                         + WaitingAt(n, nd.res, req) + Answered(nd.written, req)
            else Answered(nd.written, req) == 0
  {
    hide Inv, ApplyAll, LogOps, FromNode, OpsIn, Submitted, Waiting, Stream, Executed, WaitingAt, AllFrom, OwnAnswers, LogOk, NodeOk;
    var s, nd := states[i], states[i].nodes[n];
    RunInv(states, i);
    NodeBasics(s, n);
    if req.key.nodeid == n {
      ReadSplits(n, nd, s.log, req);
      var v := ViewOf(s.log[..nd.next]);
      if v.owner == UNOWNED {
        ExecutedUnowned(n, nd, s.log, s.local, req);
      } else if v.owner == n {
        ExecutedOwner(n, nd, s.log, s.local, req);
      } else {
        ExecutedBefore(n, nd, s.log, s.local, req);
      }
    } else {
      OnlyOwnWritten(n, nd, s.log, s.local, req);
    }
  }

  lemma NodeBasics(s: State, n: int)
    requires Inv(s) && n in s.nodes
    ensures var nd := s.nodes[n];
            && nd.next <= |s.log| && NodeOk(n, nd, s.log, s.local) && Conserved(n, nd, s.log) && LogOk(s.log[..nd.next], s.local)
            && (ViewOf(s.log[..nd.next]).owner == UNOWNED ==> AllFrom(ViewOf(s.log[..nd.next]).first, s.local))
  {
    hide ApplyAll, LogOps, FromNode, OpsIn, PhaseOk, AllFrom, LogOk, ViewOf;
    var nd := s.nodes[n];
    assert NodeOk(n, nd, s.log, s.local);
    LogOkPrefix(s.log, s.local, nd.next);
    ViewMonotone(s.log, s.local, nd.next);
    ViewShape(s.log[..nd.next], s.local);
  }

  lemma OnlyOwnWritten(n: int, nd: Node, log: seq<Entry>, local: seq<Op>, req: Request)
    requires NodeOk(n, nd, log, local) && req.key.nodeid != n
    ensures Answered(nd.written, req) == 0
  {
    hide ApplyAll, LogOps, FromNode, OpsIn, OwnAnswers, AllFrom, Conserved, SyncedUpTo;
    OwnAnswersCount(n, Serial(local, log[..nd.next]).answers, req);
    OwnAnswersCount(n, ApplyAll(EmptyTable, local).answers, req);
  }

  /** Once all messages are delivered, every operation a node has read waits in its
      table or has its one result. */
  lemma AtRestAnswered(states: seq<State>, i: nat, n: int, req: Request)
    requires Run(states) && i < |states| && n in states[i].nodes && Quiescent(states[i]) && req.key.nodeid == n
    ensures var nd := states[i].nodes[n];
            Submitted(nd.read, req) == WaitingAt(n, nd.res, req) + Answered(nd.written, req)
  {
    hide Inv, ApplyAll, Waiting, WaitingAt, OwnAnswers;
    EveryOpHasOneResult(states, i, n, req);
    NothingStuck(states, i, n);
    var s, nd := states[i], states[i].nodes[n];
    assert s.log[nd.next..] == [] && Stream(n, nd, s.log) == [];
  }

  /** In every run an owner with nothing locked and nobody waiting can give the
      resource up: it then holds it for unowned and has told everyone. */
  lemma OwnerCanGiveUp(states: seq<State>, i: nat, n: int)
    requires Run(states) && i < |states| && n in states[i].nodes
    requires var r := states[i].nodes[n].res; r.owner == n && r.table.locks == [] && r.table.waiters == []
    ensures Enabled(states[i], Drop(n))
    ensures var nd, after := states[i].nodes[n], Next(states[i], Drop(n)).nodes[n];
            after.res.owner == UNOWNED && after.queue == nd.queue + [Own(UNOWNED)] && after.res.pending == []
  {
    hide Inv, Apply, ApplyAll;
    RunInv(states, i);
    SelfOwner(states[i], n);
  }
}
