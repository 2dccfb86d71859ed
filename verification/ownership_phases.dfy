/** How one event moves a single node between its phases. */
module OwnershipPhases {
  import opened Ranges
  import opened LockTable
  import opened PlockNode
  import opened Ownership
  import opened OwnershipLog

  // ---------- tables without sync flags

  ghost predicate Unflagged(t: Table) {
    && (forall i :: 0 <= i < |t.locks| ==> !t.locks[i].syncing)
    && (forall i :: 0 <= i < |t.waiters| ==> !t.waiters[i].syncing)
  }

  ghost predicate UnflaggedLocks(locks: seq<PosixLock>) {
    forall i :: 0 <= i < |locks| ==> !locks[i].syncing
  }

  lemma {:induction false} RangesUnflagged(locks: seq<PosixLock>, req: Request)
    requires UnflaggedLocks(locks)
    ensures UnflaggedLocks(LockRange(locks, req)) && UnflaggedLocks(UnlockRange(locks, req))
    decreases |locks|
  {
    if locks != [] { RangesUnflagged(locks[1..], req); }
  }

  lemma {:induction false} DoWaitersUnflagged(locks: seq<PosixLock>, ws: seq<Waiter>)
    requires Unflagged(Table(locks, ws))
    ensures var p := DoWaiters(locks, ws); Unflagged(Table(p.locks, p.kept))
    decreases |ws|
  {
    if ws == [] { return; }
    if IsConflict(locks, ws[0].req) {
      DoWaitersUnflagged(locks, ws[1..]);
    } else {
      RangesUnflagged(locks, ws[0].req);
      DoWaitersUnflagged(LockRange(locks, ws[0].req), ws[1..]);
    }
  }

  lemma ApplyUnflagged(t: Table, op: Op)
    requires Unflagged(t)
    ensures Unflagged(Apply(t, op).table)
  {
    RangesUnflagged(t.locks, op.req);
    match op
    case Lock(req, wait) =>
      if !IsConflict(t.locks, req) {
        DoWaitersUnflagged(LockRange(t.locks, req), t.waiters);
      } else if wait {
        DoWaitersUnflagged(t.locks, t.waiters + [Waiter(req, false)]);
      } else {
        DoWaitersUnflagged(t.locks, t.waiters);
      }
    case Unlock(req) => DoWaitersUnflagged(UnlockRange(t.locks, req), t.waiters);
    case _ =>
  }

  lemma {:induction false} ApplyAllUnflagged(ops: seq<Op>)
    ensures Unflagged(ApplyAll(EmptyTable, ops).table)
    decreases |ops|
  {
    if ops != [] {
      ApplyAllUnflagged(ops[..|ops| - 1]);
      ApplyUnflagged(ApplyAll(EmptyTable, ops[..|ops| - 1]).table, ops[|ops| - 1]);
    }
  }

  // ---------- histories

  lemma ApplyAllSnoc(t: Table, ops: seq<Op>, op: Op)
    ensures var o := ApplyAll(t, ops);
            var next := Apply(o.table, op);
            ApplyAll(t, ops + [op]) == Outcome(next.table, o.answers + next.answers)
  {
    assert (ops + [op])[..|ops|] == ops;
  }

  lemma {:induction false} SubmittedFrom(n: int, ops: seq<Op>, req: Request)
    requires AllFrom(n, ops) && req.key.nodeid != n
    ensures Submitted(ops, req) == 0
    decreases |ops|
  {
    if ops != [] { SubmittedFrom(n, ops[..|ops| - 1], req); }
  }

  lemma {:induction false} AnsweredPositive(answers: seq<Answer>, i: nat)
    requires i < |answers|
    ensures Answered(answers, answers[i].req) > 0
  {
    if i > 0 { AnsweredPositive(answers[1..], i - 1); }
  }

  lemma {:induction false} OwnAnswersNone(n: int, answers: seq<Answer>)
    requires forall i :: 0 <= i < |answers| ==> answers[i].req.key.nodeid != n
    ensures OwnAnswers(n, answers) == []
  {
    if answers != [] { OwnAnswersNone(n, answers[1..]); }
  }

  /** Executing one node's operations produces no answer for another node. */
  lemma ForeignAnswersNone(n: int, owner: int, ops: seq<Op>)
    requires AllFrom(owner, ops) && n != owner
    ensures OwnAnswers(n, ApplyAll(EmptyTable, ops).answers) == []
  {
    var answers := ApplyAll(EmptyTable, ops).answers;
    forall i | 0 <= i < |answers| ensures answers[i].req.key.nodeid != n {
      if answers[i].req.key.nodeid == n {
        AnsweredPositive(answers, i);
        AnsweredOnce(ops, answers[i].req);
        SubmittedFrom(owner, ops, answers[i].req);
      }
    }
    OwnAnswersNone(n, answers);
  }

  // ---------- one event, phase by phase

  /** The node's stream after it received `e` and sent `sent`. */
  function Pop(n: int, stream: seq<Msg>, e: Entry, sent: seq<Msg>): seq<Msg>
    requires e.from == n ==> stream != []
  {
    (if e.from == n then stream[1..] else stream) + sent
  }

  ghost predicate Delivers(n: int, v: View, stream: seq<Msg>, e: Entry) {
    n > 0 && MsgOk(v, e) && (e.from == n ==> stream != [] && stream[0] == e.msg)
  }

  /** Nobody is the owner yet: the first own message decides. */
  lemma DeliverUnknown(n: int, nd: Node, v: View, stream: seq<Msg>, e: Entry)
    requires v.owner == UNKNOWN && PhaseUnknown(n, nd, v, stream) && Delivers(n, v, stream, e)
    requires AllFrom(n, nd.res.pending)
    ensures var eff := Receive(n, nd.res, e.from, e.msg);
            var nd', v', s' := Advance(nd, eff, [], 1), ViewStep(v, e), Pop(n, stream, e, eff.sent);
            && !eff.unexpected && v'.owner == v'.first == e.from && AllFrom(n, nd'.res.pending)
            && e.msg == Own(e.from) && eff.sent == [] && (e.from != n ==> eff.handled == [] && nd'.res.pending == nd.res.pending)
            && if e.from == n then eff.handled == nd.res.pending && PhaseOwner(n, nd', v', s', nd.res.pending)
               else PhaseForeign(n, nd', v', s')
  {
  }

  /** Another node is the owner: its table arrives by sync messages, then own-0. */
  lemma DeliverForeign(n: int, nd: Node, v: View, stream: seq<Msg>, e: Entry, local: seq<Op>, serial: Outcome)
    requires v.owner > 0 && v.owner != n && PhaseForeign(n, nd, v, stream) && Delivers(n, v, stream, e)
    requires AllFrom(n, nd.res.pending)
    requires OwnAnswers(n, serial.answers) == []
    ensures var eff := Receive(n, nd.res, e.from, e.msg);
            var nd', v', s' := Advance(nd, eff, [], 1), ViewStep(v, e), Pop(n, stream, e, eff.sent);
            && !eff.unexpected && v'.first == v.first && AllFrom(n, nd'.res.pending) && eff.handled == []
            && if v'.owner == UNOWNED then eff.sent == PlockMsgs(nd.res.pending) && PhaseUnowned(n, nd', v', s', serial)
               else v'.owner == v.owner && eff.sent == [] && nd'.res.pending == nd.res.pending && PhaseForeign(n, nd', v', s')
  {
    PlockMsgsFrom(n, nd.res.pending);
    var eff := Receive(n, nd.res, e.from, e.msg);
    if e.msg == Own(UNOWNED) {
      var s' := stream + PlockMsgs(nd.res.pending);
      if stream == [Own(n)] {
        assert s'[1..] == PlockMsgs(nd.res.pending);
      } else {
        assert s' == PlockMsgs(nd.res.pending);
      }
    }
  }

  /** Relinquishing starts the sync phase with nothing synced yet. */
  lemma RelinquishPhase(n: int, nd: Node, v: View, local: seq<Op>, delivered: nat)
    requires PhaseOwner(n, nd, v, [], local)
    ensures var eff := Relinquish(nd.res);
            PhaseSyncing(n, Advance(nd, eff, [], delivered), v, eff.sent, local)
  {
    var t := nd.res.table;
    var syncs := LockSyncs(t.locks) + WaiterSyncs(t.waiters);
    var sent := syncs + [Own(UNOWNED)];
    assert t.locks[0..] == t.locks && t.waiters[0..] == t.waiters && t.locks[..0] == [] && t.waiters[..0] == [];
    assert sent[..|syncs|] == syncs && sent[|syncs| + 1..] == [];
    assert [] + FlagLocks(t.locks) == FlagLocks(t.locks) && [] + FlagWaiters(t.waiters) == FlagWaiters(t.waiters);
  }

  /** We are the owner: another node's own message makes us give up. */
  lemma DeliverOwner(n: int, nd: Node, v: View, e: Entry, local: seq<Op>)
    requires v.owner == n && PhaseOwner(n, nd, v, [], local) && Delivers(n, v, [], e)
    ensures var eff := Receive(n, nd.res, e.from, e.msg);
            && !eff.unexpected && ViewStep(v, e) == v && eff == Relinquish(nd.res) && e.from != n
            && eff.handled == [] && eff.res.pending == nd.res.pending == [] && nd.handled == local
            && PhaseSyncing(n, Advance(nd, eff, [], 1), v, eff.sent, local)
  {
    RelinquishPhase(n, nd, v, local, 1);
  }

  lemma {:induction false} FlagLocksAt(locks: seq<PosixLock>)
    ensures |FlagLocks(locks)| == |locks| == |LockSyncs(locks)|
    ensures forall i :: 0 <= i < |locks| ==> FlagLocks(locks)[i] == locks[i].(syncing := true)
    ensures forall i :: 0 <= i < |locks| ==> LockSyncs(locks)[i] == SyncLock(ReqOf(locks[i]))
  {
    if locks != [] { FlagLocksAt(locks[1..]); }
  }

  lemma {:induction false} FlagWaitersAt(ws: seq<Waiter>)
    ensures |FlagWaiters(ws)| == |ws| == |WaiterSyncs(ws)|
    ensures forall i :: 0 <= i < |ws| ==> FlagWaiters(ws)[i] == ws[i].(syncing := true)
    ensures forall i :: 0 <= i < |ws| ==> WaiterSyncs(ws)[i] == SyncWaiter(ws[i].req)
  {
    if ws != [] { FlagWaitersAt(ws[1..]); }
  }

  lemma FlagSplit(locks: seq<PosixLock>, a: nat)
    requires a < |locks|
    ensures FlagLocks(locks[a..]) == [locks[a].(syncing := true)] + FlagLocks(locks[a + 1..])
    ensures LockSyncs(locks[a..]) == [SyncLock(ReqOf(locks[a]))] + LockSyncs(locks[a + 1..])
  {
    assert locks[a..][0] == locks[a] && locks[a..][1..] == locks[a + 1..];
  }

  lemma FlagSplitWaiter(ws: seq<Waiter>, b: nat)
    requires b < |ws|
    ensures FlagWaiters(ws[b..]) == [ws[b].(syncing := true)] + FlagWaiters(ws[b + 1..])
    ensures WaiterSyncs(ws[b..]) == [SyncWaiter(ws[b].req)] + WaiterSyncs(ws[b + 1..])
  {
    assert ws[b..][0] == ws[b] && ws[b..][1..] == ws[b + 1..];
  }

  /** Our next sync message of a lock clears exactly the next flagged lock. */
  lemma ClearNextLock(front: seq<PosixLock>, po: PosixLock, back: seq<PosixLock>)
    requires UnflaggedLocks(front) && !po.syncing
    ensures var locks := front + ([po.(syncing := true)] + back);
            && FlaggedLock(locks, ReqOf(po)) == |front|
            && locks[|front| := po] == (front + [po]) + back
  {
    var locks := front + ([po.(syncing := true)] + back);
    assert locks[|front|] == po.(syncing := true);
    assert forall i :: 0 <= i < |front| ==> locks[i] == front[i];
  }

  /** ... and of a waiter, the next flagged waiter. */
  lemma ClearNextWaiter(front: seq<Waiter>, w: Waiter, back: seq<Waiter>)
    requires (forall i :: 0 <= i < |front| ==> !front[i].syncing) && !w.syncing
    ensures var ws := front + ([w.(syncing := true)] + back);
            && FlaggedWaiter(ws, w.req) == |front|
            && ws[|front| := w] == (front + [w]) + back
  {
    var ws := front + ([w.(syncing := true)] + back);
    assert ws[|front|] == w.(syncing := true);
    assert forall i :: 0 <= i < |front| ==> ws[i] == front[i];
  }

  lemma SyncStreamPop(n: int, stream: seq<Msg>, m: Msg, syncs: seq<Msg>)
    requires IsSyncStream(n, stream, [m] + syncs)
    ensures stream[0] == m && IsSyncStream(n, stream[1..], syncs)
  {
    assert stream[0] == stream[..|syncs| + 1][0];
    assert stream[1..][..|syncs|] == stream[..|syncs| + 1][1..];
    assert stream[1..][|syncs| + 1..] == stream[|syncs| + 2..];
  }

  lemma SyncLockStep(n: int, r: Res, done: Table, stream: seq<Msg>, t: Table)
    requires SyncedUpTo(n, r.table, done, stream, t) && Unflagged(t) && |done.locks| < |t.locks|
    ensures var po := t.locks[|done.locks|];
            var done' := Table(done.locks + [NewLock(ReqOf(po))], done.waiters);
            var eff := ClearSyncing(r, ReqOf(po));
            && stream[0] == SyncLock(ReqOf(po)) && eff == Quiet(r.(table := eff.res.table))
            && SyncedUpTo(n, eff.res.table, done', stream[1..], t)
  {
    var a := |done.locks|;
    var po := t.locks[a];
    FlagSplit(t.locks, a);
    ClearNextLock(t.locks[..a], po, FlagLocks(t.locks[a + 1..]));
    var rest := LockSyncs(t.locks[a + 1..]) + WaiterSyncs(t.waiters[0..]);
    assert LockSyncs(t.locks[a..]) + WaiterSyncs(t.waiters[0..]) == [SyncLock(ReqOf(po))] + rest;
    SyncStreamPop(n, stream, SyncLock(ReqOf(po)), rest);
    assert t.locks[..a] + [po] == t.locks[..a + 1] && NewLock(ReqOf(po)) == po;
  }

  lemma SyncWaiterStep(n: int, r: Res, done: Table, stream: seq<Msg>, t: Table)
    requires SyncedUpTo(n, r.table, done, stream, t) && Unflagged(t)
    requires |done.locks| == |t.locks| && |done.waiters| < |t.waiters|
    ensures var w := t.waiters[|done.waiters|];
            var done' := Table(done.locks, done.waiters + [Waiter(w.req, false)]);
            var eff := ClearSyncing(r, w.req);
            && stream[0] == SyncWaiter(w.req) && eff == Quiet(r.(table := eff.res.table))
            && SyncedUpTo(n, eff.res.table, done', stream[1..], t)
  {
    var b := |done.waiters|;
    var w := t.waiters[b];
    assert t.locks[..|t.locks|] == t.locks && t.locks[|t.locks|..] == [];
    assert t.locks + FlagLocks([]) == t.locks;
    FlagSplitWaiter(t.waiters, b);
    ClearNextWaiter(t.waiters[..b], w, FlagWaiters(t.waiters[b + 1..]));
    assert FlaggedLock(t.locks, w.req) == |t.locks|;
    var rest := WaiterSyncs(t.waiters[b + 1..]);
    assert LockSyncs([]) + WaiterSyncs(t.waiters[b..]) == [SyncWaiter(w.req)] + rest;
    assert LockSyncs([]) + rest == rest;
    SyncStreamPop(n, stream, SyncWaiter(w.req), rest);
    assert t.waiters[..b] + [w] == t.waiters[..b + 1] && Waiter(w.req, false) == w;
  }

  lemma SyncDone(n: int, here: Table, done: Table, stream: seq<Msg>, t: Table)
    requires SyncedUpTo(n, here, done, stream, t) && |done.locks| == |t.locks| && |done.waiters| == |t.waiters|
    ensures here == done == t && stream != [] && stream[0] == Own(UNOWNED) && AllPlocks(n, stream[1..])
  {
    assert t.locks[..|t.locks|] == t.locks && t.locks[|t.locks|..] == [];
    assert t.waiters[..|t.waiters|] == t.waiters && t.waiters[|t.waiters|..] == [];
    assert LockSyncs([]) + WaiterSyncs([]) == [];
    assert t.locks + FlagLocks([]) == t.locks && t.waiters + FlagWaiters([]) == t.waiters;
  }

  /** We have given up ownership: our own messages come back one by one. */
  lemma DeliverSyncing(n: int, nd: Node, v: View, stream: seq<Msg>, e: Entry, local: seq<Op>)
    requires v.owner == n && PhaseSyncing(n, nd, v, stream, local) && Delivers(n, v, stream, e)
    ensures var eff := Receive(n, nd.res, e.from, e.msg);
            var nd', v', s' := Advance(nd, eff, [], 1), ViewStep(v, e), Pop(n, stream, e, eff.sent);
            && !eff.unexpected && eff.sent == [] && eff.handled == [] && nd'.res.pending == [] && v'.first == v.first
            && if v'.owner == UNOWNED then
                 e.msg.Own? && PhaseUnowned(n, nd', v', s', ApplyAll(EmptyTable, local))
               else v'.owner == n && PhaseSyncing(n, nd', v', s', local)
  {
    var t := ApplyAll(EmptyTable, local).table;
    ApplyAllUnflagged(local);
    hide ApplyAll, Apply;
    if e.from == n {
      assert stream[1..] + [] == stream[1..];
      if |v.table.locks| < |t.locks| {
        SyncLockStep(n, nd.res, v.table, stream, t);
      } else if |v.table.waiters| < |t.waiters| {
        SyncWaiterStep(n, nd.res, v.table, stream, t);
      } else {
        SyncDone(n, nd.res.table, v.table, stream, t);
      }
    } else {
      assert stream + [] == stream;
    }
  }

  /** The resource is unowned: operations are executed on delivery, everywhere. */
  lemma DeliverUnowned(n: int, nd: Node, v: View, stream: seq<Msg>, e: Entry, serial: Outcome, ops: seq<Op>)
    requires v.owner == UNOWNED && PhaseUnowned(n, nd, v, stream, serial) && Delivers(n, v, stream, e)
    requires serial == ApplyAll(EmptyTable, ops) && v.table == serial.table
    ensures var eff := Receive(n, nd.res, e.from, e.msg);
            var nd', v', s' := Advance(nd, eff, [], 1), ViewStep(v, e), Pop(n, stream, e, eff.sent);
            && !eff.unexpected && eff.sent == [] && eff.handled == [] && nd'.res.pending == [] && v'.owner == UNOWNED && v'.first == v.first
            && nd.res.known && nd.res.owner == UNOWNED && nd.res.pending == []
            && PhaseUnowned(n, nd', v', s', if e.msg.Plock? then ApplyAll(EmptyTable, ops + [e.msg.op]) else serial)
  {
    var eff := Receive(n, nd.res, e.from, e.msg);
    var s := if e.from == n then stream[1..] else stream;
    assert s + [] == s;
    if e.msg.Plock? {
      var op := e.msg.op;
      var o := Apply(v.table, op);
      ApplyAllSnoc(EmptyTable, ops, op);
      OwnAnswersConcat(n, serial.answers, o.answers);
      if op.Get? && e.from != n {
        OwnAnswersNone(n, o.answers);
        assert nd.written + [] == nd.written;
      }
    } else {
      assert nd.written + [] == nd.written;
    }
  }
}
