/** Facts about the log of the ownership protocol and the streams of messages in it. */
module OwnershipLog {
  import opened Ranges
  import opened LockTable
  import opened PlockNode
  import opened Ownership

  // ---------- streams

  lemma {:induction false} FromNodeSnoc(n: int, log: seq<Entry>, e: Entry)
    ensures FromNode(n, log + [e]) == FromNode(n, log) + if e.from == n then [e.msg] else []
  {
    if log == [] {
      assert log + [e] == [e] && [e][1..] == [];
    } else {
      assert (log + [e])[0] == log[0] && (log + [e])[1..] == log[1..] + [e];
      FromNodeSnoc(n, log[1..], e);
      var head, last := if log[0].from == n then [log[0].msg] else [], if e.from == n then [e.msg] else [];
      assert head + (FromNode(n, log[1..]) + last) == (head + FromNode(n, log[1..])) + last;
    }
  }

  lemma {:induction false} OpsInConcat(a: seq<Msg>, c: seq<Msg>)
    ensures OpsIn(a + c) == OpsIn(a) + OpsIn(c)
  {
    if a == [] {
      assert a + c == c;
    } else {
      assert (a + c)[0] == a[0] && (a + c)[1..] == a[1..] + c;
      OpsInConcat(a[1..], c);
      var head := if a[0].Plock? then [a[0].op] else [];
      assert head + (OpsIn(a[1..]) + OpsIn(c)) == (head + OpsIn(a[1..])) + OpsIn(c);
    }
  }

  lemma {:induction false} OpsInPlockMsgs(ops: seq<Op>)
    ensures OpsIn(PlockMsgs(ops)) == ops
  {
    if ops != [] {
      assert PlockMsgs(ops)[1..] == PlockMsgs(ops[1..]);
      OpsInPlockMsgs(ops[1..]);
    }
  }

  lemma {:induction false} PlockMsgsFrom(n: int, ops: seq<Op>)
    requires AllFrom(n, ops)
    ensures AllPlocks(n, PlockMsgs(ops))
  {
    if ops != [] {
      PlockMsgsFrom(n, ops[1..]);
    }
  }

  lemma {:induction false} OpsInSyncs(locks: seq<PosixLock>, ws: seq<Waiter>)
    ensures OpsIn(LockSyncs(locks)) == [] && OpsIn(WaiterSyncs(ws)) == []
    decreases |locks| + |ws|
  {
    if locks != [] {
      assert LockSyncs(locks)[1..] == LockSyncs(locks[1..]);
      OpsInSyncs(locks[1..], ws);
    } else if ws != [] {
      assert WaiterSyncs(ws)[1..] == WaiterSyncs(ws[1..]);
      OpsInSyncs(locks, ws[1..]);
    }
  }

  // ---------- the log

  /** Every entry was acceptable where it stands. */
  lemma {:induction false} LogOkAt(log: seq<Entry>, local: seq<Op>, k: nat)
    requires LogOk(log, local) && k < |log|
    ensures LogOk(log[..k], local) && MsgOk(ViewOf(log[..k]), log[k])
    ensures ViewOf(log[..k + 1]) == ViewStep(ViewOf(log[..k]), log[k])
    decreases |log|
  {
    var shorter := log[..|log| - 1];
    if k < |shorter| {
      LogOkAt(shorter, local, k);
      assert shorter[..k] == log[..k] && shorter[..k + 1] == log[..k + 1];
    } else {
      assert log[..k + 1] == log;
    }
  }

  lemma LogOkPrefix(log: seq<Entry>, local: seq<Op>, k: nat)
    requires LogOk(log, local) && k <= |log|
    ensures LogOk(log[..k], local)
  {
    if k < |log| { LogOkAt(log, local, k); } else { assert log[..k] == log; }
  }

  /** The owner goes from unknown to the first owner to unowned; operations are
      replicated only when unowned. */
  lemma {:induction false} ViewShape(log: seq<Entry>, local: seq<Op>)
    requires LogOk(log, local)
    ensures var v := ViewOf(log);
            && v.owner >= UNKNOWN && (v.owner == UNKNOWN <==> v.first == UNKNOWN)
            && (v.owner > 0 ==> v.owner == v.first) && (v.owner != UNKNOWN ==> v.first > 0)
            && (v.owner == UNKNOWN ==> v.table == EmptyTable)
            && (v.owner != UNOWNED ==> LogOps(log) == [])
    decreases |log|
  {
    if log != [] { ViewShape(log[..|log| - 1], local); }
  }

  /** The first owner never changes, and unowned is final. */
  lemma {:induction false} ViewMonotone(log: seq<Entry>, local: seq<Op>, k: nat)
    requires LogOk(log, local) && k <= |log|
    ensures ViewOf(log[..k]).first != UNKNOWN ==> ViewOf(log).first == ViewOf(log[..k]).first
    ensures ViewOf(log[..k]).owner == UNOWNED ==> ViewOf(log).owner == UNOWNED
    decreases |log|
  {
    if k == |log| {
      assert log[..k] == log;
    } else {
      var shorter := log[..|log| - 1];
      ViewMonotone(shorter, local, k);
      ViewShape(shorter, local);
      assert shorter[..k] == log[..k];
    }
  }

  /** The table is replicated from the unowned point on. */
  lemma UnownedTable(log: seq<Entry>, local: seq<Op>)
    requires LogOk(log, local) && ViewOf(log).owner == UNOWNED
    ensures ViewOf(log).table == Serial(local, log).table
  {
  }

  /** Unowned is reached exactly by an own-0 message. */
  lemma {:induction false} UnownedIffOwnZero(log: seq<Entry>, local: seq<Op>)
    requires LogOk(log, local)
    ensures ViewOf(log).owner == UNOWNED <==> exists i :: 0 <= i < |log| && log[i].msg == Own(UNOWNED)
    decreases |log|
  {
    if log == [] { return; }
    var shorter := log[..|log| - 1];
    UnownedIffOwnZero(shorter, local);
    ViewShape(shorter, local);
    if exists i :: 0 <= i < |log| && log[i].msg == Own(UNOWNED) {
      var i :| 0 <= i < |log| && log[i].msg == Own(UNOWNED);
      if i < |shorter| { assert shorter[i].msg == Own(UNOWNED); }
    }
    if ViewOf(log).owner == UNOWNED && ViewOf(shorter).owner == UNOWNED {
      var i :| 0 <= i < |shorter| && shorter[i].msg == Own(UNOWNED);
      assert log[i].msg == Own(UNOWNED);
    } else if ViewOf(log).owner == UNOWNED {
      assert log[|log| - 1].msg == Own(UNOWNED);
    }
  }

  /** As long as nothing is unowned, the local history may still grow. */
  lemma {:induction false} LocalMayGrow(log: seq<Entry>, local: seq<Op>, local': seq<Op>)
    requires LogOk(log, local) && ViewOf(log).owner != UNOWNED
    ensures LogOk(log, local')
    decreases |log|
  {
    if log != [] {
      ViewShape(log[..|log| - 1], local);
      LocalMayGrow(log[..|log| - 1], local, local');
    }
  }

  /** The table that a list of sync messages adds up to. */
  function AddSyncs(t: Table, msgs: seq<Msg>): Table
    decreases |msgs|
  {
    if msgs == [] then t
    else match msgs[0]
      case SyncLock(req) => AddSyncs(Table(t.locks + [NewLock(req)], t.waiters), msgs[1..])
      case SyncWaiter(req) => AddSyncs(Table(t.locks, t.waiters + [Waiter(req, false)]), msgs[1..])
      case _ => AddSyncs(t, msgs[1..])
  }

  lemma {:induction false} AddSyncsSnoc(t: Table, msgs: seq<Msg>, m: Msg)
    ensures AddSyncs(t, msgs + [m]) == AddSyncs(AddSyncs(t, msgs), [m])
    decreases |msgs|
  {
    if msgs == [] {
      assert msgs + [m] == [m];
    } else {
      assert (msgs + [m])[1..] == msgs[1..] + [m] && (msgs + [m])[0] == msgs[0];
      match msgs[0]
      case SyncLock(req) => AddSyncsSnoc(Table(t.locks + [NewLock(req)], t.waiters), msgs[1..], m);
      case SyncWaiter(req) => AddSyncsSnoc(Table(t.locks, t.waiters + [Waiter(req, false)]), msgs[1..], m);
      case _ => AddSyncsSnoc(t, msgs[1..], m);
    }
  }

  lemma AddSyncsOne(t: Table, m: Msg)
    ensures AddSyncs(t, [m]) ==
            match m
            case SyncLock(req) => Table(t.locks + [NewLock(req)], t.waiters)
            case SyncWaiter(req) => Table(t.locks, t.waiters + [Waiter(req, false)])
            case _ => t
  {
    assert [m][1..] == [];
  }

  /** While the owner's own-0 message is not in the log, it stays the owner in
      the log, and only its sync messages change the table. */
  lemma {:induction false} OwnedUntilOwnZero(log: seq<Entry>, local: seq<Op>, d: nat, n: int)
    requires LogOk(log, local) && d <= |log| && n > 0 && ViewOf(log[..d]).owner == n
    requires Own(UNOWNED) !in FromNode(n, log[d..])
    ensures ViewOf(log).owner == n
    ensures ViewOf(log).table == AddSyncs(ViewOf(log[..d]).table, FromNode(n, log[d..]))
    decreases |log|
  {
    hide Apply, ApplyAll;
    if d == |log| {
      assert log[..d] == log && log[d..] == [];
      return;
    }
    var shorter, e := log[..|log| - 1], log[|log| - 1];
    assert log[d..] == shorter[d..] + [e] && shorter[..d] == log[..d];
    FromNodeSnoc(n, shorter[d..], e);
    OwnedUntilOwnZero(shorter, local, d, n);
    if e.from == n {
      assert FromNode(n, log[d..])[|FromNode(n, shorter[d..])|] == e.msg;
      AddSyncsSnoc(ViewOf(log[..d]).table, FromNode(n, shorter[d..]), e.msg);
      AddSyncsOne(ViewOf(shorter).table, e.msg);
    } else {
      assert FromNode(n, log[d..]) == FromNode(n, shorter[d..]);
    }
  }

  /** Once the owner's own-0 message is in the log, the log says unowned. */
  lemma {:induction false} OwnZeroSeen(log: seq<Entry>, local: seq<Op>, d: nat, n: int, i: nat)
    requires LogOk(log, local) && d <= |log|
    requires i < |FromNode(n, log[d..])| && FromNode(n, log[d..])[i] == Own(UNOWNED)
    ensures ViewOf(log).owner == UNOWNED
    decreases |log|
  {
    assert log[d..] != [];
    var shorter, e := log[..|log| - 1], log[|log| - 1];
    assert log[d..] == shorter[d..] + [e];
    FromNodeSnoc(n, shorter[d..], e);
    if i < |FromNode(n, shorter[d..])| {
      OwnZeroSeen(shorter, local, d, n, i);
      ViewMonotone(log, local, |log| - 1);
    }
  }
}
