/**
 A resource as the daemon keeps it: lists and fields updated in place by loops.
 Each method is proved against the function that specifies it.
 */
module PlockResource {
  import opened Ranges
  import opened LockTable
  import opened PlockNode
  import opened Checkpoint

  class Resource {
    const ourNode: int
    var known: bool
    var owner: int
    var gotUnown: bool
    var locks: seq<PosixLock>
    var waiters: seq<Waiter>
    var pending: seq<Op>
    // what has been sent to the group and written to the kernel
    var sent: seq<Msg>
    var written: seq<Answer>

    function State(): Res
      reads this
    {
      Res(known, owner, gotUnown, Table(locks, waiters), pending)
    }

    /** The object has gone through `eff`, starting from messages `s` and results `w`. */
    ghost predicate After(eff: Effect, s: seq<Msg>, w: seq<Answer>)
      reads this
    {
      State() == eff.res && sent == s + eff.sent && written == w + eff.written
    }

    constructor (me: int)
      ensures State() == NoResource && ourNode == me && sent == [] && written == []
    {
      ourNode := me;
      known, owner, gotUnown := false, UNKNOWN, false;
      locks, waiters, pending := [], [], [];
      sent, written := [], [];
    }

    // ---------- the byte-range engine

    /** The first lock of another owner that overlaps and excludes the request. */
    method FindConflict(req: Request) returns (found: Option<PosixLock>)
      ensures found == FirstConflict(locks, req)
    {
      var i := 0;
      while i < |locks|
        invariant 0 <= i <= |locks|
        invariant FirstConflict(locks[i..], req) == FirstConflict(locks, req)
      {
        var po := locks[i];
        if po.key != req.key && RangesOverlap(po.start, po.end, req.start, req.end) && (req.ex || po.ex) {
          return Some(po);
        }
        assert locks[i..][1..] == locks[i + 1..];
        i := i + 1;
      }
      return None;
    }

    method AddLock(key: Key, pid: int, ex: bool, start: Offset, end: Offset)
      modifies this`locks
      ensures locks == old(locks) + [PosixLock(key, pid, ex, start, end, false)]
    {
      locks := locks + [PosixLock(key, pid, ex, start, end, false)];
    }

    method LockInternal(req: Request) returns (rv: int)
      modifies this`locks
      ensures locks == LockRange(old(locks), req) && rv == 0
    {
      hide LockRange;
      var i := 0;
      rv := 0;
      assert locks[..0] + LockRange(locks[0..], req) == LockRange(locks, req) by { assert locks[0..] == locks; }
      while i < |locks|
        invariant 0 <= i <= |locks| && rv == 0
        invariant locks[..i] + LockRange(locks[i..], req) == LockRange(old(locks), req)
        decreases |locks| - i
      {
        var po := locks[i];
        ghost var front, rest := locks[..i], locks[i + 1..];
        SplitAt(locks, i, po);
        LockRound(front, po, rest, req);
        if po.key != req.key || !RangesOverlap(po.start, po.end, req.start, req.end) {
          i := i + 1;
          continue;
        }
        match OverlapType(req.start, req.end, po.start, po.end) {
          case 0 =>
            if po.ex == req.ex { return; }
            SplitAt(locks, i, po.(ex := req.ex));
            locks := locks[i := po.(ex := req.ex)];
            return;
          case 1 =>
            if po.ex == req.ex { return; }
            rv := ConvertAndAdd(i, req);
            return;
          case 2 =>
            if po.ex == req.ex { return; }
            SplitInThree(i, req);
            return;
          case 3 =>
            locks := locks[..i] + locks[i + 1..];
          case 4 =>
            var kept := if po.start < req.start then po.(end := req.start - 1) else po.(start := req.end + 1);
            SplitAt(locks, i, kept);
            locks := locks[i := kept];
            i := i + 1;
          case _ => return -1;
        }
      }
      assert locks[..i] == locks && LockRange(locks[i..], req) == [NewLock(req)] by { LockRangeNil(req); assert locks[i..] == []; }
      AddLock(req.key, req.pid, req.ex, req.start, req.end);
    }

    /** lock_case1 on the lock at index i. */
    method ConvertAndAdd(i: nat, req: Request) returns (rv: int)
      requires i < |locks| && OverlapType(req.start, req.end, locks[i].start, locks[i].end) == 1
      modifies this`locks
      ensures locks == old(locks)[..i] + LockCase1(old(locks)[i], old(locks)[i + 1..], req) && rv == 0
    {
      var po := locks[i];
      match ShrinkRange(po.start, po.end, req.start, req.end) {
        case None => return -1;
        case Some((start2, end2)) =>
          SplitAt(locks, i, po.(start := req.start, end := req.end, ex := req.ex));
          locks := locks[i := po.(start := req.start, end := req.end, ex := req.ex)];
          AddLock(req.key, req.pid, !req.ex, start2, end2);
          return 0;
      }
    }

    /** lock_case2 on the lock at index i. */
    method SplitInThree(i: nat, req: Request)
      requires i < |locks| && OverlapType(req.start, req.end, locks[i].start, locks[i].end) == 2
      modifies this`locks
      ensures locks == old(locks)[..i] + LockCase2(old(locks)[i], old(locks)[i + 1..], req)
    {
      var po := locks[i];
      SplitAt(locks, i, po.(start := req.start, end := req.end, ex := req.ex));
      AddLock(req.key, req.pid, !req.ex, po.start, req.start - 1);
      AddLock(req.key, req.pid, !req.ex, req.end + 1, po.end);
      locks := locks[i := po.(start := req.start, end := req.end, ex := req.ex)];
    }

    method UnlockInternal(req: Request) returns (rv: int)
      modifies this`locks
      ensures locks == UnlockRange(old(locks), req) && rv == 0
    {
      hide UnlockRange, OverlapType, ShrinkRange, Shrunk;
      var i := 0;
      rv := 0;
      assert locks[..0] + UnlockRange(locks[0..], req) == UnlockRange(locks, req) by { assert locks[0..] == locks; }
      while i < |locks|
        invariant 0 <= i <= |locks| && rv == 0
        invariant locks[..i] + UnlockRange(locks[i..], req) == UnlockRange(old(locks), req)
        decreases |locks| - i
      {
        var po := locks[i];
        ghost var front, rest := locks[..i], locks[i + 1..];
        SplitAt(locks, i, Shrunk(po, req));
        UnlockRound(front, po, rest, req);
        if po.key != req.key || !RangesOverlap(po.start, po.end, req.start, req.end) {
          i := i + 1;
          continue;
        }
        match OverlapType(req.start, req.end, po.start, po.end) {
          case 0 =>
            locks := locks[..i] + locks[i + 1..];
            return;
          case 1 =>
            rv := Shrink(i, req);
            return;
          case 2 =>
            CutMiddle(i, req);
            return;
          case 3 =>
            locks := locks[..i] + locks[i + 1..];
          case 4 =>
            rv := Shrink(i, req);
            i := i + 1;
          case _ => return -1;
        }
      }
      assert locks[..i] == locks && UnlockRange(locks[i..], req) == [] by { UnlockRangeNil(req); assert locks[i..] == []; }
    }

    /** The middle of the lock at index i is cleared; the back becomes a new lock. */
    method CutMiddle(i: nat, req: Request)
      requires i < |locks| && locks[i].start < req.start && req.end < locks[i].end
      modifies this`locks
      ensures locks == old(locks)[..i] + Middle(old(locks)[i], old(locks)[i + 1..], req)
    {
      var po := locks[i];
      SplitAt(locks, i, po.(end := req.start - 1));
      AddLock(req.key, req.pid, po.ex, req.end + 1, po.end);
      locks := locks[i := po.(end := req.start - 1)];
    }

    /** shrink_range on the lock at index i; it fails only if nothing would be left. */
    method Shrink(i: nat, req: Request) returns (rv: int)
      requires i < |locks|
      modifies this`locks
      ensures locks == old(locks)[i := Shrunk(old(locks)[i], req)]
      ensures rv == if ShrinkRange(old(locks)[i].start, old(locks)[i].end, req.start, req.end).None? then -1 else 0
    {
      match ShrinkRange(locks[i].start, locks[i].end, req.start, req.end) {
        case None => rv := -1;
        case Some((s, e)) =>
          locks := locks[i := locks[i].(start := s, end := e)];
          rv := 0;
      }
    }

    // ---------- operations on the table

    /** Results go only to the node the request came from. */
    method WriteResult(a: Answer)
      modifies this`written
      ensures written == old(written) + OwnAnswers(ourNode, [a])
    {
      if a.req.key.nodeid == ourNode { written := written + [a]; }
      assert [a][1..] == [] && [a] + [] == [a];
    }

    method GrantWaiters()
      modifies this`locks, this`waiters, this`written
      ensures var p := DoWaiters(old(locks), old(waiters));
              locks == p.locks && waiters == p.kept && written == old(written) + OwnAnswers(ourNode, p.granted)
    {
      hide DoWaiters, LockRange, FirstConflict, OwnAnswers;
      var i := 0;
      ghost var p := DoWaiters(locks, waiters);
      ghost var done: seq<Answer> := [];
      assert waiters[0..] == waiters;
      NoWaiters(ourNode, locks);
      while i < |waiters|
        invariant 0 <= i <= |waiters|
        invariant var q := DoWaiters(locks, waiters[i..]);
                  p.locks == q.locks && p.kept == waiters[..i] + q.kept && p.granted == done + q.granted
        invariant written == old(written) + OwnAnswers(ourNode, done)
        decreases |waiters| - i
      {
        var w := waiters[i];
        SplitAt(waiters, i, w);
        PassRound(locks, w, waiters[i + 1..]);
        var found := FindConflict(w.req);
        if found.Some? {
          i := i + 1;
        } else {
          waiters := waiters[..i] + waiters[i + 1..];
          var rv := LockInternal(w.req);
          WriteResult(Answer(w.req, rv, None));
          OwnAnswersConcat(ourNode, done, [Answer(w.req, rv, None)]);
          done := done + [Answer(w.req, rv, None)];
        }
      }
      assert waiters[..i] == waiters && waiters[i..] == [] && done + [] == done;
      NoWaiters(ourNode, locks);
    }

    method LockOp(req: Request, wait: bool)
      modifies this`locks, this`waiters, this`written
      ensures var o := DoLock(Table(old(locks), old(waiters)), req, wait);
              locks == o.table.locks && waiters == o.table.waiters && written == old(written) + OwnAnswers(ourNode, o.answers)
    {
      hide DoWaiters, LockRange, FirstConflict;
      ghost var first: seq<Answer> := [];
      var found := FindConflict(req);
      if found.Some? {
        if !wait {
          first := [Answer(req, -EAGAIN, None)];
          WriteResult(Answer(req, -EAGAIN, None));
        } else {
          waiters := waiters + [Waiter(req, false)];
        }
      } else {
        var rv := LockInternal(req);
        first := [Answer(req, rv, None)];
        WriteResult(Answer(req, rv, None));
      }
      assert written == old(written) + OwnAnswers(ourNode, first);
      assert DoLock(Table(old(locks), old(waiters)), req, wait) == AfterPass(locks, waiters, first);
      OwnAnswersConcat(ourNode, first, DoWaiters(locks, waiters).granted);
      GrantWaiters();
    }

    method UnlockOp(req: Request)
      modifies this`locks, this`waiters, this`written
      ensures var o := DoUnlock(Table(old(locks), old(waiters)), req);
              locks == o.table.locks && waiters == o.table.waiters && written == old(written) + OwnAnswers(ourNode, o.answers)
    {
      hide DoWaiters, UnlockRange;
      var rv := UnlockInternal(req);
      WriteResult(Answer(req, rv, None));
      OwnAnswersConcat(ourNode, [Answer(req, rv, None)], DoWaiters(locks, waiters).granted);
      GrantWaiters();
    }

    /** __receive_plock. */
    method Execute(op: Op)
      modifies this`locks, this`waiters, this`written
      ensures var o := Apply(Table(old(locks), old(waiters)), op);
              Table(locks, waiters) == o.table && written == old(written) + OwnAnswers(ourNode, o.answers)
    {
      match op
      case Lock(req, wait) => LockOp(req, wait);
      case Unlock(req) => UnlockOp(req);
      case Get(req) =>
        var found := FindConflict(req);
        WriteResult(Answer(req, if found.Some? then 1 else 0, found));
      case Other(req) => WriteResult(Answer(req, -EINVAL, None));
    }

    method PurgeLockList(nodeid: int, unmount: bool)
      modifies this`locks
      ensures locks == PurgeLocks(old(locks), nodeid, unmount)
    {
      var i := 0;
      assert locks[0..] == locks;
      hide PurgeLocks;
      while i < |locks|
        invariant 0 <= i <= |locks|
        invariant locks[..i] + PurgeLocks(locks[i..], nodeid, unmount) == PurgeLocks(old(locks), nodeid, unmount)
        decreases |locks| - i
      {
        SplitAt(locks, i, locks[i]);
        PurgeLockRound(locks[..i], locks[i], locks[i + 1..], nodeid, unmount);
        if locks[i].key.nodeid == nodeid || unmount {
          locks := locks[..i] + locks[i + 1..];
        } else {
          i := i + 1;
        }
      }
      assert locks[..i] == locks && locks[i..] == [];
      PurgeNil(nodeid, unmount);
    }

    method PurgeWaiterList(nodeid: int, unmount: bool)
      modifies this`waiters
      ensures waiters == PurgeWaiters(old(waiters), nodeid, unmount)
    {
      var i := 0;
      assert waiters[0..] == waiters;
      hide PurgeWaiters;
      while i < |waiters|
        invariant 0 <= i <= |waiters|
        invariant waiters[..i] + PurgeWaiters(waiters[i..], nodeid, unmount) == PurgeWaiters(old(waiters), nodeid, unmount)
        decreases |waiters| - i
      {
        SplitAt(waiters, i, waiters[i]);
        PurgeWaiterRound(waiters[..i], waiters[i], waiters[i + 1..], nodeid, unmount);
        if waiters[i].req.key.nodeid == nodeid || unmount {
          waiters := waiters[..i] + waiters[i + 1..];
        } else {
          i := i + 1;
        }
      }
      assert waiters[..i] == waiters && waiters[i..] == [];
      PurgeNil(nodeid, unmount);
    }

    /** purge_plocks on this resource: drop the node's locks and waiters, take
        its ownership away, and grant what can now be granted. */
    method PurgePlocks(nodeid: int, unmount: bool)
      modifies this
      ensures var o := Purge(Table(old(locks), old(waiters)), nodeid, unmount);
              Table(locks, waiters) == o.table && written == old(written) + OwnAnswers(ourNode, o.answers)
      ensures known == old(known) && gotUnown == old(gotUnown)
      ensures if old(owner) == nodeid then owner == UNOWNED && pending == [] && sent == old(sent) + PlockMsgs(old(pending))
              else owner == old(owner) && pending == old(pending) && sent == old(sent)
    {
      hide DoWaiters, PurgeLocks, PurgeWaiters, OwnAnswers;
      PurgeLockList(nodeid, unmount);
      PurgeWaiterList(nodeid, unmount);
      NoWaiters(ourNode, locks);
      if owner == nodeid {
        owner := UNOWNED;
        SendPendingPlocks();
      }
      assert [] + DoWaiters(locks, waiters).granted == DoWaiters(locks, waiters).granted;
      if waiters != [] { GrantWaiters(); }
    }

    // ---------- the ownership protocol

    method Send(m: Msg)
      modifies this`sent
      ensures sent == old(sent) + [m]
    {
      sent := sent + [m];
    }

    method SendOwnMsg(newOwner: int)
      modifies this`sent
      ensures sent == old(sent) + SendOwn(State(), newOwner)
    {
      if pending == [] { Send(Own(newOwner)); }
    }

    /** Sends every lock and marks it as being synced. */
    method SendLockSyncs()
      modifies this`sent, this`locks
      ensures locks == FlagLocks(old(locks)) && sent == old(sent) + LockSyncs(old(locks))
    {
      var i := 0;
      assert locks[0..] == locks;
      while i < |locks|
        invariant 0 <= i <= |locks|
        invariant locks[..i] + FlagLocks(locks[i..]) == FlagLocks(old(locks))
        invariant sent + LockSyncs(locks[i..]) == old(sent) + LockSyncs(old(locks))
      {
        var po := locks[i];
        ghost var front, rest := locks[..i], locks[i + 1..];
        SplitAt(locks, i, po.(syncing := true));
        LockSyncRound(front, sent, po, rest);
        Send(SyncLock(ReqOf(po)));
        locks := locks[i := po.(syncing := true)];
        i := i + 1;
      }
      assert locks[i..] == [] && locks[..i] == locks;
    }

    /** Sends every waiter and marks it as being synced. */
    method SendWaiterSyncs()
      modifies this`sent, this`waiters
      ensures waiters == FlagWaiters(old(waiters)) && sent == old(sent) + WaiterSyncs(old(waiters))
    {
      var i := 0;
      assert waiters[0..] == waiters;
      while i < |waiters|
        invariant 0 <= i <= |waiters|
        invariant waiters[..i] + FlagWaiters(waiters[i..]) == FlagWaiters(old(waiters))
        invariant sent + WaiterSyncs(waiters[i..]) == old(sent) + WaiterSyncs(old(waiters))
      {
        var w := waiters[i];
        ghost var front, rest := waiters[..i], waiters[i + 1..];
        SplitAt(waiters, i, w.(syncing := true));
        WaiterSyncRound(front, sent, w, rest);
        Send(SyncWaiter(w.req));
        waiters := waiters[i := w.(syncing := true)];
        i := i + 1;
      }
      assert waiters[i..] == [] && waiters[..i] == waiters;
    }

    method SendSyncs()
      modifies this`sent, this`locks, this`waiters
      ensures locks == FlagLocks(old(locks)) && waiters == FlagWaiters(old(waiters))
      ensures sent == old(sent) + LockSyncs(old(locks)) + WaiterSyncs(old(waiters))
    {
      SendLockSyncs();
      SendWaiterSyncs();
    }

    method SavePending(op: Op)
      modifies this`pending
      ensures pending == old(pending) + [op]
    {
      pending := pending + [op];
    }

    /** We have become the owner: execute what was waiting for that. */
    method AddPendingPlocks()
      modifies this`pending, this`locks, this`waiters, this`written
      ensures After(HandlePending(ourNode, old(State())), sent, old(written))
    {
      hide Apply, ApplyAll, OwnAnswers;
      ghost var all, t0 := pending, Table(locks, waiters);
      ghost var done: seq<Op> := [];
      NothingPending(ourNode, t0);
      while pending != []
        invariant done + pending == all
        invariant Table(locks, waiters) == ApplyAll(t0, done).table
        invariant written == old(written) + OwnAnswers(ourNode, ApplyAll(t0, done).answers)
        decreases |pending|
      {
        var op := pending[0];
        ghost var o := ApplyAll(t0, done);
        Execute(op);
        pending := pending[1..];
        PendingRound(ourNode, t0, done, op, old(written));
        done := done + [op];
      }
      assert done == all;
    }

    /** The resource has become unowned: send what was waiting for that. */
    method SendPendingPlocks()
      modifies this`pending, this`sent
      ensures pending == [] && sent == old(sent) + PlockMsgs(old(pending))
    {
      while pending != []
        invariant sent + PlockMsgs(pending) == old(sent) + PlockMsgs(old(pending))
        decreases |pending|
      {
        assert sent + ([Plock(pending[0])] + PlockMsgs(pending[1..])) == sent + [Plock(pending[0])] + PlockMsgs(pending[1..]);
        Send(Plock(pending[0]));
        pending := pending[1..];
      }
    }

    /** process_plocks. */
    method ProcessPlocks(op0: Op)
      modifies this
      ensures After(ProcessPlock(ourNode, old(State()), op0), old(sent), old(written))
    {
      var op := WithNode(op0, ourNode);
      known := true;
      if owner == UNOWNED {
        Send(Plock(op));
      } else if owner == ourNode {
        Execute(op);
      } else {
        SendOwnMsg(ourNode);
        SavePending(op);
      }
    }

    method ReceivePlockMsg(from: int, op: Op) returns (unexpected: bool)
      modifies this
      ensures var eff := ReceivePlock(ourNode, old(State()), from, op);
              After(eff, old(sent), old(written)) && unexpected == eff.unexpected
    {
      unexpected := false;
      if op.Get? && from != ourNode { return; }
      if from != op.req.key.nodeid { return true; }
      if !known {
        if from == ourNode {
          known := true;
          SendOwnMsg(ourNode);
          SavePending(op);
        }
        return true;
      }
      if owner == UNOWNED {
        Execute(op);
      } else if owner == UNKNOWN || owner != ourNode {
        if from == ourNode { SavePending(op); }
        unexpected := true;
      } else {
        if from == ourNode { Execute(op); }
        unexpected := true;
      }
    }

    method ReceiveOwnMsg(from: int, newOwner: int) returns (unexpected: bool)
      modifies this
      ensures var eff := ReceiveOwn(ourNode, old(State()), from, newOwner);
              After(eff, old(sent), old(written)) && unexpected == eff.unexpected
    {
      unexpected := false;
      known := true;
      if from == ourNode {
        if newOwner == UNOWNED {
          if owner == UNOWNED { gotUnown := true; } else { unexpected := true; }
        } else if newOwner == ourNode {
          if owner == UNKNOWN {
            owner := ourNode;
            AddPendingPlocks();
          } else if owner == ourNode {
            unexpected := true;
          } else if owner == UNOWNED {
            SendPendingPlocks();
          }
        } else {
          unexpected := true;
        }
      } else {
        if newOwner == UNOWNED {
          if owner == UNKNOWN || owner == ourNode || owner == UNOWNED {
            unexpected := true;
          } else {
            owner, gotUnown := UNOWNED, true;
            SendPendingPlocks();
          }
        } else if newOwner == from {
          if owner == UNKNOWN {
            owner := from;
          } else if owner == ourNode {
            SendSyncs();
            SendOwnMsg(UNOWNED);
            owner := UNOWNED;
          }
        } else {
          unexpected := true;
        }
      }
    }

    method ClearSyncingFlag(req: Request) returns (unexpected: bool)
      modifies this`locks, this`waiters
      ensures var eff := ClearSyncing(old(State()), req);
              State() == eff.res && unexpected == eff.unexpected
    {
      unexpected := false;
      var i := 0;
      while i < |locks|
        invariant 0 <= i <= |locks| && locks == old(locks)
        invariant FlaggedLock(locks, req) == i + FlaggedLock(locks[i..], req)
      {
        if locks[i].syncing && req == ReqOf(locks[i]) {
          locks := locks[i := locks[i].(syncing := false)];
          return;
        }
        assert locks[i..][1..] == locks[i + 1..];
        i := i + 1;
      }
      i := 0;
      while i < |waiters|
        invariant 0 <= i <= |waiters| && waiters == old(waiters) && locks == old(locks)
        invariant FlaggedWaiter(waiters, req) == i + FlaggedWaiter(waiters[i..], req)
      {
        if waiters[i].syncing && req == waiters[i].req {
          waiters := waiters[i := waiters[i].(syncing := false)];
          return;
        }
        assert waiters[i..][1..] == waiters[i + 1..];
        i := i + 1;
      }
      unexpected := true;
    }

    method ReceiveSyncMsg(from: int, m: Msg) returns (unexpected: bool)
      requires m.SyncLock? || m.SyncWaiter?
      modifies this
      ensures var eff := ReceiveSync(ourNode, old(State()), from, m);
              After(eff, old(sent), old(written)) && unexpected == eff.unexpected
    {
      if !known { return true; }
      unexpected := false;
      if from == ourNode {
        unexpected := ClearSyncingFlag(m.req);
      } else if m.SyncLock? {
        AddLock(m.req.key, m.req.pid, m.req.ex, m.req.start, m.req.end);
      } else {
        waiters := waiters + [Waiter(m.req, false)];
      }
    }

    /** drop_resources on a resource that we own and that is unused. */
    method GiveUpUnused() returns (gaveUp: bool)
      modifies this`owner, this`sent
      ensures gaveUp == CanDropOwnership(ourNode, old(State()))
      ensures if gaveUp then After(DropOwnership(old(State())), old(sent), written)
              else State() == old(State()) && sent == old(sent)
    {
      gaveUp := known && owner == ourNode && locks == [] && waiters == [];
      if gaveUp {
        SendOwnMsg(UNOWNED);
        owner := UNOWNED;
      }
    }

    // ---------- the checkpoint

    method PackSection() returns (entries: seq<Packed>)
      ensures entries == Pack(ourNode, State())
    {
      hide PackLocks, PackWaiters;
      entries := [];
      if owner == ourNode { return; }
      var i := 0;
      PackEnds(locks, waiters);
      while i < |locks|
        invariant 0 <= i <= |locks|
        invariant entries + PackLocks(locks[i..]) == PackLocks(locks)
      {
        PackLocksRound(entries, locks, i);
        if !locks[i].syncing { entries := entries + [Packed(ReqOf(locks[i]), false)]; }
        i := i + 1;
      }
      i := 0;
      while i < |waiters|
        invariant 0 <= i <= |waiters|
        invariant entries + PackWaiters(waiters[i..]) == PackLocks(locks) + PackWaiters(waiters)
      {
        PackWaitersRound(entries, waiters, i);
        if !waiters[i].syncing { entries := entries + [Packed(waiters[i].req, true)]; }
        i := i + 1;
      }
    }

    /** A resource rebuilt from a checkpoint section. */
    constructor FromSection(me: int, section: Section)
      ensures State() == Unpack(section) && ourNode == me && sent == [] && written == []
    {
      ourNode := me;
      known, owner, gotUnown := true, section.owner, false;
      locks, waiters, pending := [], [], [];
      sent, written := [], [];
      new;
      var i := 0;
      while i < |section.entries|
        invariant 0 <= i <= |section.entries|
        invariant State() == Unpack(section).(table := UnpackTable(section.entries[..i])) && sent == [] && written == []
      {
        var e := section.entries[i];
        assert section.entries[..i + 1][..i] == section.entries[..i];
        if e.waiter {
          waiters := waiters + [Waiter(e.req, false)];
        } else {
          locks := locks + [NewLock(e.req)];
        }
        i := i + 1;
      }
      assert section.entries[..i] == section.entries;
    }
  }

  // ---------- one round of the loops

  lemma PackEnds(locks: seq<PosixLock>, waiters: seq<Waiter>)
    ensures PackLocks(locks[|locks|..]) == [] && PackWaiters(waiters[|waiters|..]) == []
    ensures locks[0..] == locks && waiters[0..] == waiters
  {
  }

  lemma PackLocksRound(entries: seq<Packed>, locks: seq<PosixLock>, i: nat)
    requires i < |locks|
    ensures entries + PackLocks(locks[i..]) ==
            entries + (if locks[i].syncing then [] else [Packed(ReqOf(locks[i]), false)]) + PackLocks(locks[i + 1..])
  {
    assert locks[i..][1..] == locks[i + 1..] && locks[i..][0] == locks[i];
  }

  lemma PackWaitersRound(entries: seq<Packed>, waiters: seq<Waiter>, i: nat)
    requires i < |waiters|
    ensures entries + PackWaiters(waiters[i..]) ==
            entries + (if waiters[i].syncing then [] else [Packed(waiters[i].req, true)]) + PackWaiters(waiters[i + 1..])
  {
    assert waiters[i..][1..] == waiters[i + 1..] && waiters[i..][0] == waiters[i];
  }

  /** What LockRange makes of the list from the lock at hand on. */
  lemma LockRound(front: seq<PosixLock>, po: PosixLock, rest: seq<PosixLock>, req: Request)
    ensures var all, t := front + LockRange([po] + rest, req), OverlapType(req.start, req.end, po.start, po.end);
            && 0 <= t <= 4
            && (po.key != req.key || !Overlaps(po, req) ==> all == front + [po] + LockRange(rest, req))
            && (po.key == req.key && Overlaps(po, req) ==>
                  && (t == 0 ==> all == front + [po.(ex := req.ex)] + rest)
                  && (t in {1, 2} && po.ex == req.ex ==> all == front + [po] + rest)
                  && (t == 1 && po.ex != req.ex ==> all == front + LockCase1(po, rest, req))
                  && (t == 2 && po.ex != req.ex ==> all == front + LockCase2(po, rest, req))
                  && (t == 3 ==> all == front + LockRange(rest, req))
                  && (t == 4 ==> all == front + [if po.start < req.start then po.(end := req.start - 1) else po.(start := req.end + 1)]
                                        + LockRange(rest, req)))
  {
    var locks := [po] + rest;
    assert locks[0] == po && locks[1..] == rest;
  }

  lemma UnlockRound(front: seq<PosixLock>, po: PosixLock, rest: seq<PosixLock>, req: Request)
    ensures var all, t := front + UnlockRange([po] + rest, req), OverlapType(req.start, req.end, po.start, po.end);
            && 0 <= t <= 4
            && (po.key != req.key || !Overlaps(po, req) ==> all == front + [po] + UnlockRange(rest, req))
            && (po.key == req.key && Overlaps(po, req) ==>
                  && (t in {1, 4} ==> ShrinkRange(po.start, po.end, req.start, req.end).Some?)
                  && (t == 2 ==> po.start < req.start && req.end < po.end)
                  && (t == 0 ==> all == front + rest)
                  && (t == 1 ==> all == front + [Shrunk(po, req)] + rest)
                  && (t == 2 ==> all == front + Middle(po, rest, req))
                  && (t == 3 ==> all == front + UnlockRange(rest, req))
                  && (t == 4 ==> all == front + [Shrunk(po, req)] + UnlockRange(rest, req)))
  {
    var locks := [po] + rest;
    assert locks[0] == po && locks[1..] == rest;
  }

  lemma PurgeLockRound(front: seq<PosixLock>, po: PosixLock, rest: seq<PosixLock>, nodeid: int, unmount: bool)
    ensures front + PurgeLocks([po] + rest, nodeid, unmount) ==
            (if po.key.nodeid == nodeid || unmount then front else front + [po]) + PurgeLocks(rest, nodeid, unmount)
  {
    assert ([po] + rest)[1..] == rest;
  }

  lemma PurgeWaiterRound(front: seq<Waiter>, w: Waiter, rest: seq<Waiter>, nodeid: int, unmount: bool)
    ensures front + PurgeWaiters([w] + rest, nodeid, unmount) ==
            (if w.req.key.nodeid == nodeid || unmount then front else front + [w]) + PurgeWaiters(rest, nodeid, unmount)
  {
    assert ([w] + rest)[1..] == rest;
  }

  lemma PurgeNil(nodeid: int, unmount: bool)
    ensures PurgeLocks([], nodeid, unmount) == [] && PurgeWaiters([], nodeid, unmount) == []
  {
  }

  /** One waiter of a pass. */
  lemma PassRound(locks: seq<PosixLock>, w: Waiter, rest: seq<Waiter>)
    ensures DoWaiters(locks, [w] + rest) ==
            if IsConflict(locks, w.req) then
              var q := DoWaiters(locks, rest); q.(kept := [w] + q.kept)
            else
              var q := DoWaiters(LockRange(locks, w.req), rest); q.(granted := [Answer(w.req, 0, None)] + q.granted)
  {
    assert ([w] + rest)[0] == w && ([w] + rest)[1..] == rest;
  }

  lemma NothingPending(me: int, t: Table)
    ensures ApplyAll(t, []).table == t && OwnAnswers(me, ApplyAll(t, []).answers) == []
  {
  }

  /** One more pending operation executed. */
  lemma PendingRound(me: int, t: Table, done: seq<Op>, op: Op, before: seq<Answer>)
    ensures var o := ApplyAll(t, done);
            var last := Apply(o.table, op);
            && ApplyAll(t, done + [op]).table == last.table
            && before + OwnAnswers(me, ApplyAll(t, done + [op]).answers) ==
               before + OwnAnswers(me, o.answers) + OwnAnswers(me, last.answers)
  {
    hide Apply, OwnAnswers;
    assert (done + [op])[..|done|] == done;
    var o := ApplyAll(t, done);
    OwnAnswersConcat(me, o.answers, Apply(o.table, op).answers);
  }

  lemma LockSyncRound(front: seq<PosixLock>, sent: seq<Msg>, po: PosixLock, rest: seq<PosixLock>)
    ensures front + FlagLocks([po] + rest) == front + [po.(syncing := true)] + FlagLocks(rest)
    ensures sent + LockSyncs([po] + rest) == sent + [SyncLock(ReqOf(po))] + LockSyncs(rest)
  {
    assert ([po] + rest)[1..] == rest;
  }

  lemma WaiterSyncRound(front: seq<Waiter>, sent: seq<Msg>, w: Waiter, rest: seq<Waiter>)
    ensures front + FlagWaiters([w] + rest) == front + [w.(syncing := true)] + FlagWaiters(rest)
    ensures sent + WaiterSyncs([w] + rest) == sent + [SyncWaiter(w.req)] + WaiterSyncs(rest)
  {
    assert ([w] + rest)[1..] == rest;
  }

  lemma NoWaiters(n: int, locks: seq<PosixLock>)
    ensures DoWaiters(locks, []) == Pass(locks, [], []) && OwnAnswers(n, []) == []
  {
  }

  lemma LockRangeNil(req: Request)
    ensures LockRange([], req) == [NewLock(req)]
  {
  }

  lemma UnlockRangeNil(req: Request)
    ensures UnlockRange([], req) == []
  {
  }

  lemma SplitAt<T>(s: seq<T>, i: nat, x: T)
    requires i < |s|
    ensures s[i..] == [s[i]] + s[i + 1..] && s == s[..i] + [s[i]] + s[i + 1..]
    ensures s[..i + 1] == s[..i] + [s[i]] && s[i := x] == s[..i] + [x] + s[i + 1..]
    ensures (s[..i] + s[i + 1..])[..i] == s[..i] && (s[..i] + s[i + 1..])[i..] == s[i + 1..]
    ensures s[i := x][..i + 1] == s[..i] + [x] && s[i := x][i + 1..] == s[i + 1..]
  {
  }
}
