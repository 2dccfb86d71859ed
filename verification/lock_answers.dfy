/**
 What each operation on a resource answers and does, byte by byte: a description
 that knows nothing of ranges, met by every operation and leaving no choice.
 */
module LockAnswers {
  import opened Ranges
  import opened LockTable

  // ---------- the description

  ghost predicate SameBytes(a: seq<PosixLock>, c: seq<PosixLock>) {
    forall key, b :: ModeAt(a, key, b) == ModeAt(c, key, b)
  }

  /** `after` has exactly the requested bytes of the requester in the requested mode. */
  ghost predicate BytesSet(locks: seq<PosixLock>, after: seq<PosixLock>, req: Request) {
    forall key, b :: ModeAt(after, key, b) == if InRequest(req, key, b) then Some(req.ex) else ModeAt(locks, key, b)
  }

  ghost predicate BytesCleared(locks: seq<PosixLock>, after: seq<PosixLock>, req: Request) {
    forall key, b :: ModeAt(after, key, b) == if InRequest(req, key, b) then None else ModeAt(locks, key, b)
  }

  ghost predicate BytesPurged(locks: seq<PosixLock>, after: seq<PosixLock>, nodeid: int, unmount: bool) {
    forall key, b :: ModeAt(after, key, b) == if key.nodeid == nodeid || unmount then None else ModeAt(locks, key, b)
  }

  /** The waiters in turn: one with a blocked byte is kept, any other is answered 0
      and gets its bytes before the next is looked at. */
  ghost predicate Passes(locks: seq<PosixLock>, waiters: seq<Waiter>, t: Table, granted: seq<Answer>)
    decreases |waiters|, 0
  {
    if waiters == [] then SameBytes(locks, t.locks) && t.waiters == [] && granted == []
    else
      var w, rest := waiters[0], waiters[1..];
      if Blocked(locks, w.req) then
        t.waiters != [] && t.waiters[0] == w && Passes(locks, rest, t.(waiters := t.waiters[1..]), granted)
      else
        granted != [] && granted[0] == Answer(w.req, 0, None) && PassesSet(locks, w.req, rest, t, granted[1..])
  }

  ghost predicate PassesSet(locks: seq<PosixLock>, req: Request, waiters: seq<Waiter>, t: Table, granted: seq<Answer>)
    decreases |waiters|, 1
  {
    exists after :: BytesSet(locks, after, req) && Passes(after, waiters, t, granted)
  }

  /** A lock of another owner on a requested byte, with either of the two exclusive. */
  ghost predicate Excludes(po: PosixLock, req: Request) {
    po.key != req.key && (po.ex || req.ex) && exists b :: Covers(po, po.key, b) && InRequest(req, req.key, b)
  }

  ghost predicate FirstExcluding(locks: seq<PosixLock>, req: Request, po: PosixLock) {
    exists i :: 0 <= i < |locks| && locks[i] == po && Excludes(po, req) && forall j :: 0 <= j < i ==> !Excludes(locks[j], req)
  }

  /** The outcome starts with this answer, and the pass from `locks` accounts for the rest. */
  ghost predicate Answers(o: Outcome, a: Answer, locks: seq<PosixLock>, waiters: seq<Waiter>) {
    o.answers != [] && o.answers[0] == a && Passes(locks, waiters, o.table, o.answers[1..])
  }

  ghost predicate Grants(t: Table, req: Request, o: Outcome) {
    exists after :: BytesSet(t.locks, after, req) && Answers(o, Answer(req, 0, None), after, t.waiters)
  }

  ghost predicate Clears(t: Table, req: Request, o: Outcome) {
    exists after :: BytesCleared(t.locks, after, req) && Answers(o, Answer(req, 0, None), after, t.waiters)
  }

  /** What a request is answered and what it does to the bytes and the queue. */
  ghost predicate Meets(t: Table, op: Op, o: Outcome) {
    match op
    case Lock(req, wait) =>
      if !Blocked(t.locks, req) then Grants(t, req, o)
      else if wait then Passes(t.locks, t.waiters + [Waiter(req, false)], o.table, o.answers)
      else Answers(o, Answer(req, -EAGAIN, None), t.locks, t.waiters)
    case Unlock(req) => Clears(t, req, o)
    case Get(req) =>
      && o.table == t && |o.answers| == 1 && o.answers[0].req == req
      && if Blocked(t.locks, req) then
           o.answers[0].rv == 1 && o.answers[0].found.Some? && FirstExcluding(t.locks, req, o.answers[0].found.value)
         else o.answers[0].rv == 0 && o.answers[0].found.None?
    case Other(req) => o == Outcome(t, [Answer(req, -EINVAL, None)])
  }

  // ---------- the operations meet it

  lemma LockSets(locks: seq<PosixLock>, req: Request)
    requires WellFormed(locks) && ValidRequest(req)
    ensures BytesSet(locks, LockRange(locks, req), req)
  {
    forall key, b
      ensures ModeAt(LockRange(locks, req), key, b) == if InRequest(req, key, b) then Some(req.ex) else ModeAt(locks, key, b)
    {
      LockRangeBytes(locks, req, key, b);
    }
  }

  lemma UnlockClears(locks: seq<PosixLock>, req: Request)
    requires WellFormed(locks) && ValidRequest(req)
    ensures BytesCleared(locks, UnlockRange(locks, req), req)
  {
    forall key, b
      ensures ModeAt(UnlockRange(locks, req), key, b) == if InRequest(req, key, b) then None else ModeAt(locks, key, b)
    {
      UnlockRangeBytes(locks, req, key, b);
    }
  }

  lemma PurgeClears(locks: seq<PosixLock>, nodeid: int, unmount: bool)
    ensures BytesPurged(locks, PurgeLocks(locks, nodeid, unmount), nodeid, unmount)
  {
    forall key, b
      ensures ModeAt(PurgeLocks(locks, nodeid, unmount), key, b) ==
              if key.nodeid == nodeid || unmount then None else ModeAt(locks, key, b)
    {
      PurgeLocksBytes(locks, nodeid, unmount, key, b);
    }
  }

  lemma {:induction false} PassMeets(locks: seq<PosixLock>, waiters: seq<Waiter>)
    requires Sound(locks) && ValidWaiters(waiters)
    ensures var p := DoWaiters(locks, waiters); Passes(locks, waiters, Table(p.locks, p.kept), p.granted)
    decreases |waiters|
  {
    hide Blocked, BytesSet, IsConflict;
    if waiters == [] { return; }
    var w, rest := waiters[0], waiters[1..];
    var p := DoWaiters(locks, waiters);
    ConflictIsBlocked(locks, w.req);
    if IsConflict(locks, w.req) {
      PassMeets(locks, rest);
      assert p.kept[1..] == DoWaiters(locks, rest).kept;
      assert Table(p.locks, p.kept).(waiters := p.kept[1..]) == Table(p.locks, p.kept[1..]);
    } else {
      var after := LockRange(locks, w.req);
      GrantSound(locks, w.req);
      LockSets(locks, w.req);
      PassMeets(after, rest);
      assert p.granted[1..] == DoWaiters(after, rest).granted;
      assert PassesSet(locks, w.req, rest, Table(p.locks, p.kept), p.granted[1..]);
    }
  }

  lemma AfterPassMeets(locks: seq<PosixLock>, waiters: seq<Waiter>, answers: seq<Answer>)
    requires Sound(locks) && ValidWaiters(waiters) && |answers| <= 1
    ensures var o := AfterPass(locks, waiters, answers);
            && answers <= o.answers && Passes(locks, waiters, o.table, o.answers[|answers|..])
  {
    hide Passes, DoWaiters;
    PassMeets(locks, waiters);
    var o := AfterPass(locks, waiters, answers);
    assert o.answers[|answers|..] == DoWaiters(locks, waiters).granted;
  }

  lemma ConflictExcludes(po: PosixLock, req: Request)
    requires po.start <= po.end && ValidRequest(req)
    ensures Conflicts(po, req) <==> Excludes(po, req)
  {
    if Conflicts(po, req) {
      var b := if po.start < req.start then req.start else po.start;
      assert Covers(po, po.key, b) && InRequest(req, req.key, b);
    }
  }

  lemma GetMeets(t: Table, req: Request)
    requires ValidTable(t) && ValidRequest(req)
    ensures Meets(t, Get(req), Apply(t, Get(req)))
  {
    ConflictIsBlocked(t.locks, req);
    if IsConflict(t.locks, req) {
      var i := FirstConflictFound(t.locks, req);
      forall j | 0 <= j <= i ensures Conflicts(t.locks[j], req) <==> Excludes(t.locks[j], req) {
        ConflictExcludes(t.locks[j], req);
      }
      assert FirstExcluding(t.locks, req, t.locks[i]) by { hide Excludes, Conflicts; }
    }
  }

  /** Every operation on a valid table answers, and leaves behind, what the
      description says. */
  lemma ApplyMeets(t: Table, op: Op)
    requires ValidTable(t) && ValidRequest(op.req)
    ensures Meets(t, op, Apply(t, op))
  {
    hide Passes, Blocked, BytesSet, BytesCleared, AfterPass, IsConflict, LockRange, UnlockRange;
    match op
    case Lock(req, wait) =>
      ConflictIsBlocked(t.locks, req);
      if !Blocked(t.locks, req) {
        GrantSound(t.locks, req);
        LockSets(t.locks, req);
        AfterPassMeets(LockRange(t.locks, req), t.waiters, [Answer(req, 0, None)]);
        assert Grants(t, req, Apply(t, op));
      } else if wait {
        AfterPassMeets(t.locks, t.waiters + [Waiter(req, false)], []);
        assert Apply(t, op).answers[0..] == Apply(t, op).answers;
      } else {
        AfterPassMeets(t.locks, t.waiters, [Answer(req, -EAGAIN, None)]);
      }
    case Unlock(req) =>
      UnlockSound(t.locks, req);
      UnlockClears(t.locks, req);
      AfterPassMeets(UnlockRange(t.locks, req), t.waiters, [Answer(req, 0, None)]);
      assert Clears(t, req, Apply(t, op));
    case Get(req) => GetMeets(t, req);
    case Other(req) =>
  }

  // ---------- it leaves no choice

  lemma BlockedByBytes(a: seq<PosixLock>, c: seq<PosixLock>, req: Request)
    requires SameBytes(a, c)
    ensures Blocked(a, req) <==> Blocked(c, req)
  {
    if Blocked(a, req) {
      var key, b :| BlockedAt(a, req, key, b);
      assert BlockedAt(c, req, key, b);
    }
    if Blocked(c, req) {
      var key, b :| BlockedAt(c, req, key, b);
      assert BlockedAt(a, req, key, b);
    }
  }

  /** The same tables but for the way the ranges are cut up. */
  ghost predicate SameTables(a: Table, c: Table) {
    SameBytes(a.locks, c.locks) && a.waiters == c.waiters
  }

  lemma {:induction false} PassDetermined(l1: seq<PosixLock>, l2: seq<PosixLock>, waiters: seq<Waiter>, t1: Table, t2: Table,
                                          g1: seq<Answer>, g2: seq<Answer>)
    requires SameBytes(l1, l2) && Passes(l1, waiters, t1, g1) && Passes(l2, waiters, t2, g2)
    ensures SameTables(t1, t2) && g1 == g2
    decreases |waiters|
  {
    hide Blocked;
    if waiters == [] { return; }
    var w, rest := waiters[0], waiters[1..];
    BlockedByBytes(l1, l2, w.req);
    if Blocked(l1, w.req) {
      PassDetermined(l1, l2, rest, t1.(waiters := t1.waiters[1..]), t2.(waiters := t2.waiters[1..]), g1, g2);
      assert t1.waiters == [w] + t1.waiters[1..] && t2.waiters == [w] + t2.waiters[1..];
    } else {
      var a1 :| BytesSet(l1, a1, w.req) && Passes(a1, rest, t1, g1[1..]);
      var a2 :| BytesSet(l2, a2, w.req) && Passes(a2, rest, t2, g2[1..]);
      PassDetermined(a1, a2, rest, t1, t2, g1[1..], g2[1..]);
      assert g1 == [g1[0]] + g1[1..] && g2 == [g2[0]] + g2[1..];
    }
  }

  lemma AnswersDetermined(o1: Outcome, o2: Outcome, a: Answer, l1: seq<PosixLock>, l2: seq<PosixLock>, waiters: seq<Waiter>)
    requires SameBytes(l1, l2) && Answers(o1, a, l1, waiters) && Answers(o2, a, l2, waiters)
    ensures SameTables(o1.table, o2.table) && o1.answers == o2.answers
  {
    hide Passes, SameBytes;
    PassDetermined(l1, l2, waiters, o1.table, o2.table, o1.answers[1..], o2.answers[1..]);
    assert o1.answers == [a] + o1.answers[1..] && o2.answers == [a] + o2.answers[1..];
  }

  lemma FirstIsOne(locks: seq<PosixLock>, req: Request, a: PosixLock, c: PosixLock)
    requires FirstExcluding(locks, req, a) && FirstExcluding(locks, req, c)
    ensures a == c
  {
    hide Excludes;
    var i :| 0 <= i < |locks| && locks[i] == a && Excludes(a, req) && forall j :: 0 <= j < i ==> !Excludes(locks[j], req);
    var k :| 0 <= k < |locks| && locks[k] == c && Excludes(c, req) && forall j :: 0 <= j < k ==> !Excludes(locks[j], req);
    assert i == k;
  }

  /** Whatever meets the description of an operation has the same answers in the same
      order, the same queue and the same bytes. */
  lemma MeetsDetermines(t: Table, op: Op, o1: Outcome, o2: Outcome)
    requires Meets(t, op, o1) && Meets(t, op, o2)
    ensures SameTables(o1.table, o2.table) && o1.answers == o2.answers
  {
    hide Passes, Blocked;
    match op
    case Lock(req, wait) =>
      if !Blocked(t.locks, req) {
        var a1 :| BytesSet(t.locks, a1, req) && Answers(o1, Answer(req, 0, None), a1, t.waiters);
        var a2 :| BytesSet(t.locks, a2, req) && Answers(o2, Answer(req, 0, None), a2, t.waiters);
        AnswersDetermined(o1, o2, Answer(req, 0, None), a1, a2, t.waiters);
      } else if wait {
        PassDetermined(t.locks, t.locks, t.waiters + [Waiter(req, false)], o1.table, o2.table, o1.answers, o2.answers);
      } else {
        AnswersDetermined(o1, o2, Answer(req, -EAGAIN, None), t.locks, t.locks, t.waiters);
      }
    case Unlock(req) =>
      var a1 :| BytesCleared(t.locks, a1, req) && Answers(o1, Answer(req, 0, None), a1, t.waiters);
      var a2 :| BytesCleared(t.locks, a2, req) && Answers(o2, Answer(req, 0, None), a2, t.waiters);
      AnswersDetermined(o1, o2, Answer(req, 0, None), a1, a2, t.waiters);
    case Get(req) =>
      if Blocked(t.locks, req) { FirstIsOne(t.locks, req, o1.answers[0].found.value, o2.answers[0].found.value); }
      assert o1.answers == [o1.answers[0]] && o2.answers == [o2.answers[0]];
    case Other(req) =>
  }

  // ---------- purging a node

  lemma {:induction false} PurgeWaitersLeaves(ws: seq<Waiter>, nodeid: int, unmount: bool, req: Request)
    ensures Waiting(PurgeWaiters(ws, nodeid, unmount), req) ==
            if req.key.nodeid == nodeid || unmount then 0 else Waiting(ws, req)
    ensures Subsequence(PurgeWaiters(ws, nodeid, unmount), ws)
  {
    if ws == [] { return; }
    PurgeWaitersLeaves(ws[1..], nodeid, unmount, req);
    var tail := PurgeWaiters(ws[1..], nodeid, unmount);
    if ws[0].req.key.nodeid == nodeid || unmount {
      assert [] + tail == tail;
    } else {
      assert ([ws[0]] + tail)[1..] == tail;
    }
  }

  lemma {:induction false} NoneWaiting(ws: seq<Waiter>, w: Waiter)
    requires w in ws
    ensures Waiting(ws, w.req) > 0
  {
    if ws[0] != w { NoneWaiting(ws[1..], w); }
  }

  /** The waiters of the node, or all on unmount, gone; the others in their order. */
  ghost predicate Survive(waiters: seq<Waiter>, left: seq<Waiter>, nodeid: int, unmount: bool) {
    && Subsequence(left, waiters)
    && forall req :: Waiting(left, req) == if req.key.nodeid == nodeid || unmount then 0 else Waiting(waiters, req)
  }

  /** The node's bytes and waiters go, then the waiters left are looked at in turn. */
  ghost predicate MeetsPurge(t: Table, nodeid: int, unmount: bool, o: Outcome) {
    exists locks, left ::
      BytesPurged(t.locks, locks, nodeid, unmount) && Survive(t.waiters, left, nodeid, unmount) && Passes(locks, left, o.table, o.answers)
  }

  lemma PurgeMeets(t: Table, nodeid: int, unmount: bool)
    requires ValidTable(t)
    ensures MeetsPurge(t, nodeid, unmount, Purge(t, nodeid, unmount))
  {
    hide Passes, Subsequence, AfterPass, PurgeLocks, PurgeWaiters;
    var locks, left := PurgeLocks(t.locks, nodeid, unmount), PurgeWaiters(t.waiters, nodeid, unmount);
    PurgeSound(t.locks, nodeid, unmount);
    PurgeClears(t.locks, nodeid, unmount);
    PurgeWaitersValid(t.waiters, nodeid, unmount);
    forall req ensures Waiting(left, req) == if req.key.nodeid == nodeid || unmount then 0 else Waiting(t.waiters, req) {
      PurgeWaitersLeaves(t.waiters, nodeid, unmount, req);
    }
    assert Survive(t.waiters, left, nodeid, unmount) by {
      PurgeWaitersLeaves(t.waiters, nodeid, unmount, Request(Key(0, 0), 0, false, 0, 0));
    }
    AfterPassMeets(locks, left, []);
    var o := Purge(t, nodeid, unmount);
    assert o.answers[0..] == o.answers;
  }

  /** No byte held, no waiter queued by a node -- by anyone, if `all`. */
  ghost predicate NothingOf(t: Table, nodeid: int, all: bool) {
    && (forall key: Key, b :: key.nodeid == nodeid || all ==> ModeAt(t.locks, key, b).None?)
    && forall w :: w in t.waiters ==> w.req.key.nodeid != nodeid && !all
  }

  lemma {:induction false} PassLeavesNothing(locks: seq<PosixLock>, waiters: seq<Waiter>, nodeid: int, all: bool)
    requires WellFormed(locks) && ValidWaiters(waiters) && NothingOf(Table(locks, waiters), nodeid, all)
    ensures var p := DoWaiters(locks, waiters);
            NothingOf(Table(p.locks, p.kept), nodeid, all) && forall a :: a in p.granted ==> a.req.key.nodeid != nodeid && !all
    decreases |waiters|
  {
    hide ModeAt, IsConflict, LockRange;
    if waiters == [] { return; }
    var w, rest := waiters[0], waiters[1..];
    assert w in waiters && forall v :: v in rest ==> v in waiters;
    if IsConflict(locks, w.req) {
      PassLeavesNothing(locks, rest, nodeid, all);
    } else {
      var after := LockRange(locks, w.req);
      LockRangeWellFormed(locks, w.req);
      LockSets(locks, w.req);
      PassLeavesNothing(after, rest, nodeid, all);
    }
  }

  /** After a purge nothing of the node is left, nor at all after an unmount: the pass
      hands it nothing. Requests of other nodes lose nothing. */
  lemma PurgeLeavesNothing(t: Table, nodeid: int, unmount: bool, req: Request)
    requires ValidTable(t)
    ensures var o := Purge(t, nodeid, unmount);
            && NothingOf(o.table, nodeid, unmount)
            && (forall a :: a in o.answers ==> a.req.key.nodeid != nodeid && !unmount && a.rv == 0)
            && (req.key.nodeid != nodeid && !unmount ==>
                  Waiting(t.waiters, req) == Waiting(o.table.waiters, req) + Answered(o.answers, req))
  {
    hide DoWaiters, PurgeLocks, PurgeWaiters, ModeAt;
    var locks, left := PurgeLocks(t.locks, nodeid, unmount), PurgeWaiters(t.waiters, nodeid, unmount);
    PurgeSound(t.locks, nodeid, unmount);
    PurgeClears(t.locks, nodeid, unmount);
    PurgeWaitersValid(t.waiters, nodeid, unmount);
    PurgeWaitersLeaves(t.waiters, nodeid, unmount, req);
    forall w | w in left ensures w.req.key.nodeid != nodeid && !unmount {
      PurgeWaitersLeaves(t.waiters, nodeid, unmount, w.req);
      NoneWaiting(left, w);
    }
    PassLeavesNothing(locks, left, nodeid, unmount);
    GrantedFrom(locks, left);
    AfterPassConserves(locks, left, [], req);
  }

  lemma ApplyLeavesNothing(t: Table, op: Op, nodeid: int)
    requires ValidTable(t) && ValidRequest(op.req) && NothingOf(t, nodeid, false) && op.req.key.nodeid != nodeid
    ensures NothingOf(Apply(t, op).table, nodeid, false)
    ensures forall a :: a in Apply(t, op).answers ==> a.req.key.nodeid != nodeid
  {
    hide ModeAt, IsConflict, LockRange, UnlockRange, DoWaiters;
    match op
    case Lock(req, wait) =>
      ConflictIsBlocked(t.locks, req);
      PassLeavesNothing(t.locks, t.waiters, nodeid, false);
      PassLeavesNothing(t.locks, t.waiters + [Waiter(req, false)], nodeid, false);
      LockRangeWellFormed(t.locks, req);
      LockSets(t.locks, req);
      PassLeavesNothing(LockRange(t.locks, req), t.waiters, nodeid, false);
    case Unlock(req) =>
      UnlockRangeWellFormed(t.locks, req);
      UnlockClears(t.locks, req);
      PassLeavesNothing(UnlockRange(t.locks, req), t.waiters, nodeid, false);
    case _ =>
  }

  /** ... and as long as the node asks for nothing it stays so: whatever the others do,
      it holds nothing, waits for nothing and is answered nothing. */
  lemma {:induction false} PurgedStaysGone(t: Table, ops: seq<Op>, nodeid: int)
    requires ValidTable(t) && NothingOf(t, nodeid, false)
    requires forall i :: 0 <= i < |ops| ==> ValidRequest(ops[i].req) && ops[i].req.key.nodeid != nodeid
    ensures var o := ApplyAll(t, ops);
            && ValidTable(o.table) && NothingOf(o.table, nodeid, false) && forall a :: a in o.answers ==> a.req.key.nodeid != nodeid
    decreases |ops|
  {
    hide Apply, NothingOf, ValidTable;
    if ops != [] {
      var before := ops[..|ops| - 1];
      PurgedStaysGone(t, before, nodeid);
      var o := ApplyAll(t, before);
      ApplySound(o.table, ops[|ops| - 1]);
      ApplyLeavesNothing(o.table, ops[|ops| - 1], nodeid);
    }
  }

  // ---------- whose process a lock names

  predicate PidsIn(locks: seq<PosixLock>, who: set<(Key, int)>) {
    forall i :: 0 <= i < |locks| ==> (locks[i].key, locks[i].pid) in who
  }

  predicate WaitersIn(ws: seq<Waiter>, who: set<(Key, int)>) {
    forall i :: 0 <= i < |ws| ==> (ws[i].req.key, ws[i].req.pid) in who
  }

  lemma {:induction false} LockPids(locks: seq<PosixLock>, req: Request, who: set<(Key, int)>)
    requires PidsIn(locks, who) && (req.key, req.pid) in who
    ensures PidsIn(LockRange(locks, req), who) && PidsIn(UnlockRange(locks, req), who)
    decreases |locks|
  {
    if locks != [] {
      assert locks == [locks[0]] + locks[1..];
      LockPids(locks[1..], req, who);
    }
  }

  lemma {:induction false} PassPids(locks: seq<PosixLock>, ws: seq<Waiter>, who: set<(Key, int)>)
    requires PidsIn(locks, who) && WaitersIn(ws, who)
    ensures PidsIn(DoWaiters(locks, ws).locks, who) && WaitersIn(DoWaiters(locks, ws).kept, who)
    decreases |ws|
  {
    hide LockRange, UnlockRange;
    if ws != [] {
      PassPids(locks, ws[1..], who);
      LockPids(locks, ws[0].req, who);
      PassPids(LockRange(locks, ws[0].req), ws[1..], who);
    }
  }

  lemma ApplyPids(t: Table, op: Op, who: set<(Key, int)>)
    requires PidsIn(t.locks, who) && WaitersIn(t.waiters, who) && (op.req.key, op.req.pid) in who
    ensures PidsIn(Apply(t, op).table.locks, who) && WaitersIn(Apply(t, op).table.waiters, who)
  {
    hide LockRange, UnlockRange, DoWaiters, IsConflict, PidsIn;
    LockPids(t.locks, op.req, who);
    PassPids(t.locks, t.waiters, who);
    PassPids(t.locks, t.waiters + [Waiter(op.req, false)], who);
    PassPids(LockRange(t.locks, op.req), t.waiters, who);
    PassPids(UnlockRange(t.locks, op.req), t.waiters, who);
  }

  /** However ranges are cut up and merged, a lock names an owner and a process that
      belong together in some request. */
  lemma {:induction false} PidsOfRequests(ops: seq<Op>, who: set<(Key, int)>)
    requires forall i :: 0 <= i < |ops| ==> (ops[i].req.key, ops[i].req.pid) in who
    ensures var t := ApplyAll(EmptyTable, ops).table; PidsIn(t.locks, who) && WaitersIn(t.waiters, who)
    decreases |ops|
  {
    hide Apply;
    if ops != [] {
      PidsOfRequests(ops[..|ops| - 1], who);
      ApplyPids(ApplyAll(EmptyTable, ops[..|ops| - 1]).table, ops[|ops| - 1], who);
    }
  }
}
