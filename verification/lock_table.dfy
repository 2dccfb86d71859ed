/**
 The lock table of one resource: granted ranges, the FIFO list of waiters, and
 the operations that __receive_plock and purge_plocks apply to it.
 */
module LockTable {
  import opened Ranges

  const EAGAIN := 11
  const EINVAL := 22

  datatype Waiter = Waiter(req: Request, syncing: bool)

  /** A plock operation read from the kernel; `Other` stands for an unknown optype. */
  datatype Op = Lock(req: Request, wait: bool) | Unlock(req: Request) | Get(req: Request) | Other(req: Request)

  /** A result written back for `req`; `found` is the lock a query reports. */
  datatype Answer = Answer(req: Request, rv: int, found: Option<PosixLock>)

  datatype Table = Table(locks: seq<PosixLock>, waiters: seq<Waiter>)

  datatype Outcome = Outcome(table: Table, answers: seq<Answer>)

  const EmptyTable := Table([], [])

  predicate Conflicts(po: PosixLock, req: Request) {
    po.key != req.key && Overlaps(po, req) && (req.ex || po.ex)
  }

  /** The lock that is_conflict stops at. */
  function FirstConflict(locks: seq<PosixLock>, req: Request): Option<PosixLock> {
    if locks == [] then None
    else if Conflicts(locks[0], req) then Some(locks[0])
    else FirstConflict(locks[1..], req)
  }

  predicate IsConflict(locks: seq<PosixLock>, req: Request) {
    FirstConflict(locks, req).Some?
  }

  /** Some byte of the request is held by another owner in a mode that excludes it. */
  ghost predicate BlockedAt(locks: seq<PosixLock>, req: Request, key: Key, b: int) {
    && key != req.key && req.start <= b <= req.end
    && ModeAt(locks, key, b).Some? && (req.ex || ModeAt(locks, key, b).value)
  }

  ghost predicate Blocked(locks: seq<PosixLock>, req: Request) {
    exists key, b :: BlockedAt(locks, req, key, b)
  }

  /** No two owners hold one byte with either of them exclusive. */
  ghost predicate ConflictFree(locks: seq<PosixLock>) {
    forall k1, k2, b ::
      k1 != k2 && ModeAt(locks, k1, b).Some? && ModeAt(locks, k2, b).Some?
      ==> !ModeAt(locks, k1, b).value && !ModeAt(locks, k2, b).value
  }

  /** How often a request is waiting, answered or submitted. */
  function Waiting(ws: seq<Waiter>, req: Request): nat {
    if ws == [] then 0 else (if ws[0].req == req then 1 else 0) + Waiting(ws[1..], req)
  }

  function Answered(answers: seq<Answer>, req: Request): nat {
    if answers == [] then 0 else (if answers[0].req == req then 1 else 0) + Answered(answers[1..], req)
  }

  function Submitted(ops: seq<Op>, req: Request): nat {
    if ops == [] then 0
    else Submitted(ops[..|ops| - 1], req) + if ops[|ops| - 1].req == req then 1 else 0
  }

  // ---------- the operations

  datatype Pass = Pass(locks: seq<PosixLock>, kept: seq<Waiter>, granted: seq<Answer>)

  /** One pass over the waiters: each is granted at once if it does not conflict
      with what has been granted so far. */
  function DoWaiters(locks: seq<PosixLock>, waiters: seq<Waiter>): Pass
    decreases |waiters|
  {
    if waiters == [] then Pass(locks, [], [])
    else
      var w := waiters[0];
      if IsConflict(locks, w.req) then
        var p := DoWaiters(locks, waiters[1..]);
        p.(kept := [w] + p.kept)
      else
        var p := DoWaiters(LockRange(locks, w.req), waiters[1..]);
        p.(granted := [Answer(w.req, 0, None)] + p.granted)
  }

  function AfterPass(locks: seq<PosixLock>, waiters: seq<Waiter>, answers: seq<Answer>): Outcome {
    var p := DoWaiters(locks, waiters);
    Outcome(Table(p.locks, p.kept), answers + p.granted)
  }

  function DoLock(t: Table, req: Request, wait: bool): Outcome {
    if IsConflict(t.locks, req) then
      if !wait then AfterPass(t.locks, t.waiters, [Answer(req, -EAGAIN, None)])
      else AfterPass(t.locks, t.waiters + [Waiter(req, false)], [])
    else AfterPass(LockRange(t.locks, req), t.waiters, [Answer(req, 0, None)])
  }

  function DoUnlock(t: Table, req: Request): Outcome {
    AfterPass(UnlockRange(t.locks, req), t.waiters, [Answer(req, 0, None)])
  }

  function DoGet(t: Table, req: Request): Answer {
    var found := FirstConflict(t.locks, req);
    Answer(req, if found.Some? then 1 else 0, found)
  }

  /** The switch of __receive_plock. */
  function Apply(t: Table, op: Op): Outcome {
    match op
    case Lock(req, wait) => DoLock(t, req, wait)
    case Unlock(req) => DoUnlock(t, req)
    case Get(req) => Outcome(t, [DoGet(t, req)])
    case Other(req) => Outcome(t, [Answer(req, -EINVAL, None)])
  }

  function ApplyAll(t: Table, ops: seq<Op>): Outcome
    decreases |ops|
  {
    if ops == [] then Outcome(t, [])
    else
      var before := ApplyAll(t, ops[..|ops| - 1]);
      var last := Apply(before.table, ops[|ops| - 1]);
      Outcome(last.table, before.answers + last.answers)
  }

  function PurgeWaiters(ws: seq<Waiter>, nodeid: int, unmount: bool): seq<Waiter> {
    if ws == [] then []
    else (if ws[0].req.key.nodeid == nodeid || unmount then [] else [ws[0]]) + PurgeWaiters(ws[1..], nodeid, unmount)
  }

  function Purge(t: Table, nodeid: int, unmount: bool): Outcome {
    AfterPass(PurgeLocks(t.locks, nodeid, unmount), PurgeWaiters(t.waiters, nodeid, unmount), [])
  }

  // ---------- conflicts, by range and by byte

  lemma {:induction false} FirstConflictFound(locks: seq<PosixLock>, req: Request) returns (i: nat)
    requires IsConflict(locks, req)
    ensures i < |locks| && Conflicts(locks[i], req) && FirstConflict(locks, req) == Some(locks[i])
    ensures forall j :: 0 <= j < i ==> !Conflicts(locks[j], req)
  {
    if Conflicts(locks[0], req) {
      i := 0;
    } else {
      i := FirstConflictFound(locks[1..], req);
      assert forall j :: 0 < j < i + 1 ==> locks[j] == locks[1..][j - 1];
      i := i + 1;
    }
  }

  lemma {:induction false} ConflictDetected(locks: seq<PosixLock>, req: Request, i: nat)
    requires i < |locks| && Conflicts(locks[i], req)
    ensures IsConflict(locks, req)
  {
    if !Conflicts(locks[0], req) { ConflictDetected(locks[1..], req, i - 1); }
  }

  /** The range test of is_conflict says exactly that a byte is blocked. */
  lemma ConflictIsBlocked(locks: seq<PosixLock>, req: Request)
    requires WellFormed(locks) && ValidRequest(req)
    ensures IsConflict(locks, req) <==> Blocked(locks, req)
  {
    if IsConflict(locks, req) {
      var i := FirstConflictFound(locks, req);
      var b := if locks[i].start < req.start then req.start else locks[i].start;
      ModeAtUnique(locks, i, locks[i].key, b);
      assert BlockedAt(locks, req, locks[i].key, b);
    }
    if Blocked(locks, req) {
      var key, b :| BlockedAt(locks, req, key, b);
      var i := ModeAtWitness(locks, key, b);
      ConflictDetected(locks, req, i);
    }
  }

  /** Byte-level freedom from conflicts, read off the ranges. */
  lemma ConflictFreeRanges(locks: seq<PosixLock>)
    requires WellFormed(locks) && ConflictFree(locks)
    ensures forall i, j :: 0 <= i < |locks| && 0 <= j < |locks| && locks[i].key != locks[j].key &&
                           RangesOverlap(locks[i].start, locks[i].end, locks[j].start, locks[j].end)
                           ==> !locks[i].ex && !locks[j].ex
  {
    forall i, j | 0 <= i < |locks| && 0 <= j < |locks| && locks[i].key != locks[j].key &&
                  RangesOverlap(locks[i].start, locks[i].end, locks[j].start, locks[j].end)
      ensures !locks[i].ex && !locks[j].ex
    {
      var b := if locks[i].start < locks[j].start then locks[j].start else locks[i].start;
      ModeAtUnique(locks, i, locks[i].key, b);
      ModeAtUnique(locks, j, locks[j].key, b);
    }
  }

  // ---------- what every step keeps

  ghost predicate Sound(locks: seq<PosixLock>) {
    WellFormed(locks) && ConflictFree(locks)
  }

  ghost predicate ValidWaiters(ws: seq<Waiter>) {
    forall i :: 0 <= i < |ws| ==> ValidRequest(ws[i].req)
  }

  ghost predicate ValidTable(t: Table) {
    Sound(t.locks) && ValidWaiters(t.waiters)
  }

  /** Granting a request that does not conflict. */
  lemma GrantSound(locks: seq<PosixLock>, req: Request)
    requires Sound(locks) && ValidRequest(req) && !IsConflict(locks, req)
    ensures Sound(LockRange(locks, req))
  {
    LockRangeWellFormed(locks, req);
    ConflictIsBlocked(locks, req);
    var after := LockRange(locks, req);
    forall k1, k2, b | k1 != k2 && ModeAt(after, k1, b).Some? && ModeAt(after, k2, b).Some?
      ensures !ModeAt(after, k1, b).value && !ModeAt(after, k2, b).value
    {
      LockRangeBytes(locks, req, k1, b);
      LockRangeBytes(locks, req, k2, b);
      assert !BlockedAt(locks, req, k1, b) && !BlockedAt(locks, req, k2, b);
    }
  }

  /** Losing bytes never creates a conflict. */
  lemma FewerBytesSound(locks: seq<PosixLock>, fewer: seq<PosixLock>)
    requires Sound(locks) && WellFormed(fewer)
    requires forall k, b :: ModeAt(fewer, k, b).Some? ==> ModeAt(fewer, k, b) == ModeAt(locks, k, b)
    ensures Sound(fewer)
  {
  }

  lemma UnlockSound(locks: seq<PosixLock>, req: Request)
    requires Sound(locks) && ValidRequest(req)
    ensures Sound(UnlockRange(locks, req))
  {
    UnlockRangeWellFormed(locks, req);
    forall k, b ensures ModeAt(UnlockRange(locks, req), k, b) == if InRequest(req, k, b) then None else ModeAt(locks, k, b) {
      UnlockRangeBytes(locks, req, k, b);
    }
    FewerBytesSound(locks, UnlockRange(locks, req));
  }

  lemma PurgeSound(locks: seq<PosixLock>, nodeid: int, unmount: bool)
    requires Sound(locks)
    ensures Sound(PurgeLocks(locks, nodeid, unmount))
  {
    var after := PurgeLocks(locks, nodeid, unmount);
    PurgeLocksWellFormed(locks, nodeid, unmount);
    forall k, b ensures ModeAt(after, k, b).Some? ==> ModeAt(after, k, b) == ModeAt(locks, k, b) {
      PurgeLocksBytes(locks, nodeid, unmount, k, b);
    }
    FewerBytesSound(locks, after);
  }

  lemma {:induction false} PurgeWaitersValid(ws: seq<Waiter>, nodeid: int, unmount: bool)
    requires ValidWaiters(ws)
    ensures ValidWaiters(PurgeWaiters(ws, nodeid, unmount))
  {
    if ws != [] { PurgeWaitersValid(ws[1..], nodeid, unmount); }
  }

  lemma {:induction false} DoWaitersSound(locks: seq<PosixLock>, waiters: seq<Waiter>)
    requires Sound(locks) && ValidWaiters(waiters)
    ensures Sound(DoWaiters(locks, waiters).locks) && ValidWaiters(DoWaiters(locks, waiters).kept)
    decreases |waiters|
  {
    if waiters == [] { return; }
    var w := waiters[0];
    if IsConflict(locks, w.req) {
      DoWaitersSound(locks, waiters[1..]);
    } else {
      GrantSound(locks, w.req);
      DoWaitersSound(LockRange(locks, w.req), waiters[1..]);
    }
  }

  lemma ApplySound(t: Table, op: Op)
    requires ValidTable(t) && ValidRequest(op.req)
    ensures ValidTable(Apply(t, op).table)
  {
    match op
    case Lock(req, wait) =>
      if !IsConflict(t.locks, req) {
        GrantSound(t.locks, req);
        DoWaitersSound(LockRange(t.locks, req), t.waiters);
      } else {
        DoWaitersSound(t.locks, t.waiters);
        DoWaitersSound(t.locks, t.waiters + [Waiter(req, false)]);
      }
    case Unlock(req) =>
      UnlockSound(t.locks, req);
      DoWaitersSound(UnlockRange(t.locks, req), t.waiters);
    case _ =>
  }

  datatype TableStep = Operate(op: Op) | PurgeNode(nodeid: int, unmount: bool)

  function DoStep(t: Table, step: TableStep): Table {
    match step
    case Operate(op) => Apply(t, op).table
    case PurgeNode(nodeid, unmount) => Purge(t, nodeid, unmount).table
  }

  /** The table after a run of operations and purges. */
  function Exec(t: Table, steps: seq<TableStep>): Table
    decreases |steps|
  {
    if steps == [] then t else DoStep(Exec(t, steps[..|steps| - 1]), steps[|steps| - 1])
  }

  /** In every run from an empty resource no two owners ever hold overlapping
      ranges of which one is exclusive. */
  lemma {:induction false} RunsConflictFree(steps: seq<TableStep>)
    requires forall i :: 0 <= i < |steps| && steps[i].Operate? ==> ValidRequest(steps[i].op.req)
    ensures ValidTable(Exec(EmptyTable, steps))
    ensures var locks := Exec(EmptyTable, steps).locks;
            forall i, j :: 0 <= i < |locks| && 0 <= j < |locks| && locks[i].key != locks[j].key &&
                           RangesOverlap(locks[i].start, locks[i].end, locks[j].start, locks[j].end)
                           ==> !locks[i].ex && !locks[j].ex
    decreases |steps|
  {
    if steps != [] {
      var before, last := steps[..|steps| - 1], steps[|steps| - 1];
      RunsConflictFree(before);
      var t := Exec(EmptyTable, before);
      match last {
        case Operate(op) => ApplySound(t, op);
        case PurgeNode(nodeid, unmount) =>
          PurgeSound(t.locks, nodeid, unmount);
          PurgeWaitersValid(t.waiters, nodeid, unmount);
          DoWaitersSound(PurgeLocks(t.locks, nodeid, unmount), PurgeWaiters(t.waiters, nodeid, unmount));
      }
    }
    ConflictFreeRanges(Exec(EmptyTable, steps).locks);
  }

  // ---------- every request is answered exactly once

  lemma {:induction false} DoWaitersConserves(locks: seq<PosixLock>, waiters: seq<Waiter>, req: Request)
    ensures var p := DoWaiters(locks, waiters);
            Waiting(waiters, req) == Waiting(p.kept, req) + Answered(p.granted, req)
    decreases |waiters|
  {
    if waiters == [] { return; }
    var w := waiters[0];
    var p := DoWaiters(locks, waiters);
    if IsConflict(locks, w.req) {
      DoWaitersConserves(locks, waiters[1..], req);
      assert p.kept[1..] == DoWaiters(locks, waiters[1..]).kept;
    } else {
      DoWaitersConserves(LockRange(locks, w.req), waiters[1..], req);
      assert p.granted[1..] == DoWaiters(LockRange(locks, w.req), waiters[1..]).granted;
    }
  }

  lemma {:induction false} AnsweredConcat(a: seq<Answer>, c: seq<Answer>, req: Request)
    ensures Answered(a + c, req) == Answered(a, req) + Answered(c, req)
  {
    if a == [] { assert a + c == c; } else { assert (a + c)[1..] == a[1..] + c; AnsweredConcat(a[1..], c, req); }
  }

  lemma {:induction false} WaitingSnoc(ws: seq<Waiter>, w: Waiter, req: Request)
    ensures Waiting(ws + [w], req) == Waiting(ws, req) + if w.req == req then 1 else 0
  {
    if ws == [] {
      assert ws + [w] == [w] && [w][1..] == [];
    } else {
      assert (ws + [w])[1..] == ws[1..] + [w];
      WaitingSnoc(ws[1..], w, req);
    }
  }

  function Accounted(o: Outcome, req: Request): nat {
    Waiting(o.table.waiters, req) + Answered(o.answers, req)
  }

  lemma AfterPassConserves(locks: seq<PosixLock>, waiters: seq<Waiter>, answers: seq<Answer>, req: Request)
    ensures Accounted(AfterPass(locks, waiters, answers), req) == Waiting(waiters, req) + Answered(answers, req)
  {
    DoWaitersConserves(locks, waiters, req);
    AnsweredConcat(answers, DoWaiters(locks, waiters).granted, req);
  }

  lemma OneAnswer(a: Answer, req: Request)
    ensures Answered([a], req) == if a.req == req then 1 else 0
  {
    assert [a][1..] == [];
  }

  lemma ApplyConserves(t: Table, op: Op, req: Request)
    ensures Accounted(Apply(t, op), req) == Waiting(t.waiters, req) + if op.req == req then 1 else 0
  {
    match op
    case Lock(r, wait) =>
      if IsConflict(t.locks, r) && wait {
        AfterPassConserves(t.locks, t.waiters + [Waiter(r, false)], [], req);
        WaitingSnoc(t.waiters, Waiter(r, false), req);
      } else {
        var locks := if IsConflict(t.locks, r) then t.locks else LockRange(t.locks, r);
        var a := Answer(r, if IsConflict(t.locks, r) then -EAGAIN else 0, None);
        AfterPassConserves(locks, t.waiters, [a], req);
        OneAnswer(a, req);
      }
    case Unlock(r) =>
      AfterPassConserves(UnlockRange(t.locks, r), t.waiters, [Answer(r, 0, None)], req);
      OneAnswer(Answer(r, 0, None), req);
    case Get(r) => OneAnswer(DoGet(t, r), req);
    case Other(r) => OneAnswer(Answer(r, -EINVAL, None), req);
  }

  /** Over any sequence of operations each submitted request is either answered
      once or still waiting: none is lost and none is answered twice. */
  lemma {:induction false} AnsweredOnce(ops: seq<Op>, req: Request)
    ensures Submitted(ops, req) == Waiting(ApplyAll(EmptyTable, ops).table.waiters, req)
                                   + Answered(ApplyAll(EmptyTable, ops).answers, req)
    decreases |ops|
  {
    if ops == [] { return; }
    var before, last := ops[..|ops| - 1], ops[|ops| - 1];
    AnsweredOnce(before, req);
    var o := ApplyAll(EmptyTable, before);
    ApplyConserves(o.table, last, req);
    AnsweredConcat(o.answers, Apply(o.table, last).answers, req);
  }

  // ---------- what one waiter pass achieves

  /** The queue keeps its relative order. */
  ghost predicate Subsequence(a: seq<Waiter>, c: seq<Waiter>) {
    if a == [] then true
    else if c == [] then false
    else if a[0] == c[0] && Subsequence(a[1..], c[1..]) then true
    else Subsequence(a, c[1..])
  }

  lemma {:induction false} DoWaitersKeepsOrder(locks: seq<PosixLock>, waiters: seq<Waiter>)
    ensures Subsequence(DoWaiters(locks, waiters).kept, waiters)
    decreases |waiters|
  {
    if waiters == [] { return; }
    if IsConflict(locks, waiters[0].req) {
      DoWaitersKeepsOrder(locks, waiters[1..]);
      assert DoWaiters(locks, waiters).kept[1..] == DoWaiters(locks, waiters[1..]).kept;
    } else {
      DoWaitersKeepsOrder(LockRange(locks, waiters[0].req), waiters[1..]);
    }
  }

  /** Granting `req` turns no exclusive byte of its own owner into a read byte. */
  ghost predicate NoDowngrade(locks: seq<PosixLock>, req: Request) {
    !req.ex ==> forall b :: req.start <= b <= req.end ==> ModeAt(locks, req.key, b) != Some(true)
  }

  /** No read waiter overlaps bytes that its own owner holds or awaits exclusively. */
  ghost predicate NoSelfDowngrade(locks: seq<PosixLock>, waiters: seq<Waiter>) {
    && (forall i :: 0 <= i < |waiters| ==> NoDowngrade(locks, waiters[i].req))
    && (forall i, j :: 0 <= i < |waiters| && 0 <= j < |waiters| && waiters[i].req.key == waiters[j].req.key &&
                       !waiters[i].req.ex && waiters[j].req.ex
                       ==> !RangesOverlap(waiters[i].req.start, waiters[i].req.end,
                                          waiters[j].req.start, waiters[j].req.end))
  }

  /** A grant that downgrades nothing leaves every conflict in place. */
  lemma ConflictPersists(locks: seq<PosixLock>, req: Request, grant: Request)
    requires WellFormed(locks) && ValidRequest(req) && ValidRequest(grant)
    requires IsConflict(locks, req) && !IsConflict(locks, grant) && NoDowngrade(locks, grant)
    ensures IsConflict(LockRange(locks, grant), req)
  {
    ConflictIsBlocked(locks, req);
    var key, b :| BlockedAt(locks, req, key, b);
    LockRangeBytes(locks, grant, key, b);
    LockRangeWellFormed(locks, grant);
    assert BlockedAt(LockRange(locks, grant), req, key, b);
    ConflictIsBlocked(LockRange(locks, grant), req);
  }

  lemma NoSelfDowngradeStep(locks: seq<PosixLock>, waiters: seq<Waiter>)
    requires WellFormed(locks) && ValidWaiters(waiters) && waiters != [] && NoSelfDowngrade(locks, waiters)
    ensures NoSelfDowngrade(locks, waiters[1..])
    ensures NoSelfDowngrade(LockRange(locks, waiters[0].req), waiters[1..])
  {
    var grant, rest := waiters[0].req, waiters[1..];
    assert forall i :: 0 <= i < |rest| ==> rest[i] == waiters[i + 1];
    forall i | 0 <= i < |rest| ensures NoDowngrade(LockRange(locks, grant), rest[i].req) {
      var req := rest[i].req;
      if !req.ex {
        forall b | req.start <= b <= req.end ensures ModeAt(LockRange(locks, grant), req.key, b) != Some(true) {
          LockRangeBytes(locks, grant, req.key, b);
          assert NoDowngrade(locks, waiters[i + 1].req);
          assert waiters[i + 1].req == req && waiters[0].req == grant;
        }
      }
    }
  }

  lemma {:induction false} ConflictSurvivesPass(locks: seq<PosixLock>, waiters: seq<Waiter>, req: Request)
    requires WellFormed(locks) && ValidWaiters(waiters) && ValidRequest(req)
    requires NoSelfDowngrade(locks, waiters) && IsConflict(locks, req)
    ensures IsConflict(DoWaiters(locks, waiters).locks, req)
    decreases |waiters|
  {
    if waiters == [] { return; }
    NoSelfDowngradeStep(locks, waiters);
    if IsConflict(locks, waiters[0].req) {
      ConflictSurvivesPass(locks, waiters[1..], req);
    } else {
      assert NoDowngrade(locks, waiters[0].req);
      ConflictPersists(locks, req, waiters[0].req);
      LockRangeWellFormed(locks, waiters[0].req);
      ConflictSurvivesPass(LockRange(locks, waiters[0].req), waiters[1..], req);
    }
  }

  ghost predicate PassComplete(locks: seq<PosixLock>, waiters: seq<Waiter>) {
    var p := DoWaiters(locks, waiters);
    forall i :: 0 <= i < |p.kept| ==> IsConflict(p.locks, p.kept[i].req)
  }

  /** If no waiter downgrades its own owner, one pass grants everything that can
      be granted: each waiter still queued conflicts with the final table. */
  lemma {:induction false} PassIsComplete(locks: seq<PosixLock>, waiters: seq<Waiter>)
    requires WellFormed(locks) && ValidWaiters(waiters) && NoSelfDowngrade(locks, waiters)
    ensures PassComplete(locks, waiters)
    decreases |waiters|
  {
    if waiters == [] { return; }
    NoSelfDowngradeStep(locks, waiters);
    if IsConflict(locks, waiters[0].req) {
      PassIsComplete(locks, waiters[1..]);
      ConflictSurvivesPass(locks, waiters[1..], waiters[0].req);
    } else {
      LockRangeWellFormed(locks, waiters[0].req);
      PassIsComplete(LockRange(locks, waiters[0].req), waiters[1..]);
    }
  }

  /** Waiters that are all blocked as things stand. */
  ghost predicate AllBlocked(locks: seq<PosixLock>, ahead: seq<Waiter>) {
    forall i :: 0 <= i < |ahead| ==> ValidRequest(ahead[i].req) && IsConflict(locks, ahead[i].req)
  }

  /** A pass over blocked waiters and one grantable request behind them. */
  lemma {:induction false} BlockedPass(locks: seq<PosixLock>, ahead: seq<Waiter>, grant: Request)
    requires AllBlocked(locks, ahead) && !IsConflict(locks, grant)
    ensures DoWaiters(locks, ahead + [Waiter(grant, false)]) ==
            Pass(LockRange(locks, grant), ahead, [Answer(grant, 0, None)])
    decreases |ahead|
  {
    var q := ahead + [Waiter(grant, false)];
    if ahead == [] {
      assert q[1..] == [] && [Answer(grant, 0, None)] + [] == [Answer(grant, 0, None)];
    } else {
      assert q[1..] == ahead[1..] + [Waiter(grant, false)];
      BlockedPass(locks, ahead[1..], grant);
      assert [ahead[0]] + ahead[1..] == ahead;
    }
  }

  /** The hypothesis is exactly what is needed: whatever blocked waiters stand in
      front of a grantable request, one pass deals with all of them correctly, if
      and only if granting it downgrades no byte of its own owner. */
  lemma DowngradeIsTheGap(locks: seq<PosixLock>, grant: Request)
    requires Sound(locks) && ValidRequest(grant) && !IsConflict(locks, grant)
    ensures NoDowngrade(locks, grant) <==>
            forall ahead :: AllBlocked(locks, ahead) ==> PassComplete(locks, ahead + [Waiter(grant, false)])
  {
    if NoDowngrade(locks, grant) {
      forall ahead | AllBlocked(locks, ahead) ensures PassComplete(locks, ahead + [Waiter(grant, false)]) {
        BlockedPass(locks, ahead, grant);
        forall i | 0 <= i < |ahead| ensures IsConflict(LockRange(locks, grant), ahead[i].req) {
          ConflictPersists(locks, ahead[i].req, grant);
        }
      }
    } else {
      var b :| grant.start <= b <= grant.end && ModeAt(locks, grant.key, b) == Some(true);
      var other := Key(grant.key.nodeid + 1, grant.key.owner);
      var ahead := [Waiter(Request(other, 0, false, b, b), false)];
      var first := ahead[0].req;
      assert BlockedAt(locks, first, grant.key, b);
      ConflictIsBlocked(locks, first);
      assert AllBlocked(locks, ahead);
      BlockedPass(locks, ahead, grant);
      var after := LockRange(locks, grant);
      LockRangeWellFormed(locks, grant);
      forall key ensures !BlockedAt(after, first, key, b) {
        LockRangeBytes(locks, grant, key, b);
      }
      ConflictIsBlocked(after, first);
      assert !PassComplete(locks, ahead + [Waiter(grant, false)]);
    }
  }

  /** A run of five operations on byte 0 that leaves a waiter behind.  C holds the
      byte; A waits for it exclusively, B to read it, A to read it.  When C unlocks,
      the pass grants A's write, keeps B, and lets A's read downgrade its write. */
  function MissingRun(): seq<Op> {
    var a, b, c := Key(1, 1), Key(2, 1), Key(3, 1);
    [Lock(Request(c, 3, true, 0, 0), true), Lock(Request(a, 1, true, 0, 0), true),
     Lock(Request(b, 2, false, 0, 0), true), Lock(Request(a, 1, false, 0, 0), true), Unlock(Request(c, 3, true, 0, 0))]
  }

  lemma PassCanMissAWaiter()
    ensures var t, req := ApplyAll(EmptyTable, MissingRun()).table, Request(Key(2, 1), 2, false, 0, 0);
            t.waiters == [Waiter(req, false)] && !IsConflict(t.locks, req)
  {
    hide ApplyAll;
    var a, b, c := Key(1, 1), Key(2, 1), Key(3, 1);
    var ra, rb, rx, rc := Request(a, 1, true, 0, 0), Request(b, 2, false, 0, 0), Request(a, 1, false, 0, 0), Request(c, 3, true, 0, 0);
    var ops := MissingRun();
    var held, queue := [NewLock(rc)], [Waiter(ra, false), Waiter(rb, false), Waiter(rx, false)];
    assert ops[..0] == [] && ops[..5] == ops;
    AfterOne(ops, 0, EmptyTable, Table(held, []), DoLock(EmptyTable, rc, true)) by { FirstLock(rc); NothingApplied(); }
    QueuedBehind(held, [], rc, ra);
    AfterOne(ops, 1, Table(held, []), Table(held, queue[..1]), DoLock(Table(held, []), ra, true));
    QueuedBehind(held, queue[..1], rc, rb);
    AfterOne(ops, 2, Table(held, queue[..1]), Table(held, queue[..2]), DoLock(Table(held, queue[..1]), rb, true));
    QueuedBehind(held, queue[..2], rc, rx);
    AfterOne(ops, 3, Table(held, queue[..2]), Table(held, queue), DoLock(Table(held, queue[..2]), rx, true));
    LastUnlock(rc, ra, rb, rx);
    AfterOne(ops, 4, Table(held, queue), Table([NewLock(rx)], [Waiter(rb, false)]), DoUnlock(Table(held, queue), rc));
    NoConflictOne(NewLock(rx), rb);
  }

  lemma NothingApplied()
    ensures ApplyAll(EmptyTable, []).table == EmptyTable
  {
  }

  /** Operation `i` of a run takes the table from `before` to `after`. */
  lemma AfterOne(ops: seq<Op>, i: nat, before: Table, after: Table, o: Outcome)
    requires i < |ops| && ApplyAll(EmptyTable, ops[..i]).table == before
    requires o == Apply(before, ops[i]) && o.table == after
    ensures ApplyAll(EmptyTable, ops[..i + 1]).table == after
  {
    assert ops[..i + 1][..i] == ops[..i];
  }

  lemma FirstLock(rc: Request)
    ensures DoLock(EmptyTable, rc, true).table == Table([NewLock(rc)], [])
  {
  }

  lemma BlockedByHolder(rc: Request, req: Request)
    requires rc.ex && rc.key != req.key && rc.start == rc.end == req.start == req.end
    ensures IsConflict([NewLock(rc)], req)
  {
  }

  /** Blocked waiters stay as they are in a pass. */
  lemma {:induction false} AllStay(locks: seq<PosixLock>, ws: seq<Waiter>)
    requires forall i :: 0 <= i < |ws| ==> IsConflict(locks, ws[i].req)
    ensures DoWaiters(locks, ws) == Pass(locks, ws, [])
  {
    if ws != [] {
      AllStay(locks, ws[1..]);
      assert [ws[0]] + ws[1..] == ws;
    }
  }

  lemma QueuedBehind(held: seq<PosixLock>, queue: seq<Waiter>, rc: Request, req: Request)
    requires held == [NewLock(rc)] && rc.ex && rc.key != req.key && rc.start == rc.end == req.start == req.end
    requires forall i :: 0 <= i < |queue| ==> queue[i].req.key != rc.key && queue[i].req.start == queue[i].req.end == rc.start
    ensures DoLock(Table(held, queue), req, true).table == Table(held, queue + [Waiter(req, false)])
  {
    BlockedByHolder(rc, req);
    var all := queue + [Waiter(req, false)];
    forall i | 0 <= i < |all| ensures IsConflict(held, all[i].req) { BlockedByHolder(rc, all[i].req); }
    AllStay(held, all);
  }

  lemma LastUnlock(rc: Request, ra: Request, rb: Request, rx: Request)
    requires ra.key == rx.key && ra.pid == rx.pid && rb.key != ra.key && rc.key != ra.key && rc.key != rb.key
    requires ra.ex && !rb.ex && !rx.ex
    requires ra.start == ra.end == rb.start == rb.end == rx.start == rx.end == rc.start == rc.end
    ensures DoUnlock(Table([NewLock(rc)], [Waiter(ra, false), Waiter(rb, false), Waiter(rx, false)]), rc).table ==
            Table([NewLock(rx)], [Waiter(rb, false)])
  {
    var queue := [Waiter(ra, false), Waiter(rb, false), Waiter(rx, false)];
    assert UnlockRange([NewLock(rc)], rc) == [];
    assert queue[1..] == [Waiter(rb, false)] + [Waiter(rx, false)];
    assert !IsConflict([], ra) && LockRange([], ra) == [NewLock(ra)];
    BlockedByHolder(ra, rb);
    NoConflictOne(NewLock(ra), rx);
    BlockedPass([NewLock(ra)], [Waiter(rb, false)], rx);
    assert LockRange([NewLock(ra)], rx) == [NewLock(rx)];
  }

  lemma NoConflictOne(po: PosixLock, req: Request)
    requires !Conflicts(po, req)
    ensures !IsConflict([po], req)
  {
    assert [po][1..] == [];
    assert FirstConflict([po], req) == FirstConflict([po][1..], req);
  }

  // ---------- how a hold on a byte can end

  /** Mode `m` is less than a hold that was exclusive, or not, as `ex` says. */
  predicate Lost(m: Option<bool>, ex: bool) {
    m.None? || (ex && !m.value)
  }

  /** Granting `req` makes an exclusive hold of `key` on byte `b` a read hold. */
  predicate Downgrades(req: Request, key: Key, b: int, ex: bool) {
    ex && InRequest(req, key, b) && !req.ex
  }

  predicate Releases(op: Op, key: Key, b: int, ex: bool) {
    (op.Unlock? && InRequest(op.req, key, b)) || (op.Lock? && Downgrades(op.req, key, b, ex))
  }

  /** `a` grants one of `waiters`. */
  ghost predicate IsGrant(waiters: seq<Waiter>, a: Answer) {
    exists w :: w in waiters && a == Answer(w.req, 0, None)
  }

  lemma {:induction false} PassKeepsHold(locks: seq<PosixLock>, waiters: seq<Waiter>, key: Key, b: int, ex: bool)
    requires WellFormed(locks) && ValidWaiters(waiters) && !Lost(ModeAt(locks, key, b), ex)
    ensures var p := DoWaiters(locks, waiters);
            && (forall w :: w in p.kept ==> w in waiters)
            && (forall a :: a in p.granted ==> IsGrant(waiters, a))
            && (Lost(ModeAt(p.locks, key, b), ex) ==> exists a :: a in p.granted && Downgrades(a.req, key, b, ex))
    decreases |waiters|
  {
    if waiters == [] { return; }
    var w, rest := waiters[0], waiters[1..];
    assert waiters == [w] + rest;
    assert forall a :: IsGrant(rest, a) ==> IsGrant(waiters, a);
    assert IsGrant(waiters, Answer(w.req, 0, None));
    if IsConflict(locks, w.req) {
      PassKeepsHold(locks, rest, key, b, ex);
    } else {
      var after := LockRange(locks, w.req);
      LockRangeWellFormed(locks, w.req);
      LockRangeBytes(locks, w.req, key, b);
      var p := DoWaiters(locks, waiters);
      assert p.granted == [Answer(w.req, 0, None)] + DoWaiters(after, rest).granted;
      assert Answer(w.req, 0, None) in p.granted && w in waiters;
      if !Downgrades(w.req, key, b, ex) {
        PassKeepsHold(after, rest, key, b, ex);
      } else {
        GrantedFrom(after, rest);
      }
    }
  }

  lemma {:induction false} GrantedFrom(locks: seq<PosixLock>, waiters: seq<Waiter>)
    ensures var p := DoWaiters(locks, waiters);
            && (forall w :: w in p.kept ==> w in waiters)
            && (forall a :: a in p.granted ==> IsGrant(waiters, a))
    decreases |waiters|
  {
    if waiters == [] { return; }
    var w, rest := waiters[0], waiters[1..];
    assert waiters == [w] + rest;
    assert forall a :: IsGrant(rest, a) ==> IsGrant(waiters, a);
    assert IsGrant(waiters, Answer(w.req, 0, None));
    if IsConflict(locks, w.req) {
      GrantedFrom(locks, rest);
    } else {
      GrantedFrom(LockRange(locks, w.req), rest);
      assert DoWaiters(locks, waiters).granted == [Answer(w.req, 0, None)] + DoWaiters(LockRange(locks, w.req), rest).granted;
    }
  }

  /** A queued read that would downgrade the hold, granted by these answers. */
  ghost predicate GrantsDowngrade(waiters: seq<Waiter>, answers: seq<Answer>, key: Key, b: int, ex: bool) {
    exists w :: w in waiters && Downgrades(w.req, key, b, ex) && Answer(w.req, 0, None) in answers
  }

  /** Queued reads that would downgrade the hold are all from `from`. */
  ghost predicate DowngradersFrom(waiters: seq<Waiter>, from: seq<Waiter>, key: Key, b: int, ex: bool) {
    forall w :: w in waiters && Downgrades(w.req, key, b, ex) ==> w in from
  }

  lemma AfterPassKeepsHold(locks: seq<PosixLock>, waiters: seq<Waiter>, answers: seq<Answer>, from: seq<Waiter>,
                           key: Key, b: int, ex: bool)
    requires WellFormed(locks) && ValidWaiters(waiters) && !Lost(ModeAt(locks, key, b), ex)
    requires DowngradersFrom(waiters, from, key, b, ex)
    ensures var o := AfterPass(locks, waiters, answers);
            && DowngradersFrom(o.table.waiters, from, key, b, ex)
            && (Lost(ModeAt(o.table.locks, key, b), ex) ==> GrantsDowngrade(from, o.answers, key, b, ex))
  {
    hide DoWaiters;
    PassKeepsHold(locks, waiters, key, b, ex);
    var p := DoWaiters(locks, waiters);
    if Lost(ModeAt(p.locks, key, b), ex) {
      var a :| a in p.granted && Downgrades(a.req, key, b, ex);
      var w :| w in waiters && a == Answer(w.req, 0, None);
      assert w in from && Answer(w.req, 0, None) in answers + p.granted;
    }
  }

  lemma ApplyKeepsHold(t: Table, op: Op, from: seq<Waiter>, key: Key, b: int, ex: bool)
    requires ValidTable(t) && ValidRequest(op.req) && !Lost(ModeAt(t.locks, key, b), ex) && !Releases(op, key, b, ex)
    requires DowngradersFrom(t.waiters, from, key, b, ex)
    ensures var o := Apply(t, op);
            && DowngradersFrom(o.table.waiters, from, key, b, ex)
            && (Lost(ModeAt(o.table.locks, key, b), ex) ==> GrantsDowngrade(from, o.answers, key, b, ex))
  {
    hide AfterPass, ModeAt, IsConflict;
    match op
    case Lock(req, wait) =>
      if IsConflict(t.locks, req) {
        AfterPassKeepsHold(t.locks, t.waiters, [Answer(req, -EAGAIN, None)], from, key, b, ex);
        AfterPassKeepsHold(t.locks, t.waiters + [Waiter(req, false)], [], from, key, b, ex);
      } else {
        LockRangeWellFormed(t.locks, req);
        LockRangeBytes(t.locks, req, key, b);
        AfterPassKeepsHold(LockRange(t.locks, req), t.waiters, [Answer(req, 0, None)], from, key, b, ex);
      }
    case Unlock(req) =>
      UnlockRangeWellFormed(t.locks, req);
      UnlockRangeBytes(t.locks, req, key, b);
      AfterPassKeepsHold(UnlockRange(t.locks, req), t.waiters, [Answer(req, 0, None)], from, key, b, ex);
    case _ =>
  }

  /** Over any run a hold on a byte ends only by an operation of its own owner: an
      unlock or a read lock submitted in the run, or a read lock that was queued and
      is granted in the run. */
  lemma {:induction false} HoldEndsByOwner(t: Table, ops: seq<Op>, key: Key, b: int, ex: bool)
    requires ValidTable(t) && (forall i :: 0 <= i < |ops| ==> ValidRequest(ops[i].req)) && !Lost(ModeAt(t.locks, key, b), ex)
    requires forall i :: 0 <= i < |ops| ==> !Releases(ops[i], key, b, ex)
    ensures var o := ApplyAll(t, ops);
            && ValidTable(o.table)
            && (GrantsDowngrade(t.waiters, o.answers, key, b, ex) ||
                (!Lost(ModeAt(o.table.locks, key, b), ex) && DowngradersFrom(o.table.waiters, t.waiters, key, b, ex)))
    decreases |ops|
  {
    hide Apply, ModeAt, ValidTable, Releases, DowngradersFrom;
    if ops == [] {
      NoDowngraders(t.waiters, key, b, ex);
      return;
    }
    var before, last := ops[..|ops| - 1], ops[|ops| - 1];
    HoldEndsByOwner(t, before, key, b, ex);
    var o := ApplyAll(t, before);
    ApplySound(o.table, last);
    if GrantsDowngrade(t.waiters, o.answers, key, b, ex) {
      MoreAnswers(t.waiters, o.answers, Apply(o.table, last).answers, key, b, ex);
    } else {
      ApplyKeepsHold(o.table, last, t.waiters, key, b, ex);
      if GrantsDowngrade(t.waiters, Apply(o.table, last).answers, key, b, ex) {
        MoreAnswers(t.waiters, o.answers, Apply(o.table, last).answers, key, b, ex);
      }
    }
  }

  lemma NoDowngraders(ws: seq<Waiter>, key: Key, b: int, ex: bool)
    ensures DowngradersFrom(ws, ws, key, b, ex)
  {
  }

  lemma MoreAnswers(ws: seq<Waiter>, x: seq<Answer>, y: seq<Answer>, key: Key, b: int, ex: bool)
    requires GrantsDowngrade(ws, x, key, b, ex) || GrantsDowngrade(ws, y, key, b, ex)
    ensures GrantsDowngrade(ws, x + y, key, b, ex)
  {
    if GrantsDowngrade(ws, x, key, b, ex) {
      var w :| w in ws && Downgrades(w.req, key, b, ex) && Answer(w.req, 0, None) in x;
      assert Answer(w.req, 0, None) in x + y;
    } else {
      var w :| w in ws && Downgrades(w.req, key, b, ex) && Answer(w.req, 0, None) in y;
      assert Answer(w.req, 0, None) in x + y;
    }
  }

  lemma {:induction false} ApplyAllConcat(t: Table, a: seq<Op>, c: seq<Op>)
    ensures ApplyAll(t, a + c).table == ApplyAll(ApplyAll(t, a).table, c).table
    decreases |c|
  {
    hide Apply;
    if c == [] {
      assert a + c == a;
    } else {
      assert (a + c)[..|a + c| - 1] == a + c[..|c| - 1];
      ApplyAllConcat(t, a, c[..|c| - 1]);
    }
  }
}
