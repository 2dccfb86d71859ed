/**
 The checkpoint through which a joining node gets the lock state, and the replay
 of the messages it saved meanwhile.
 */
module Checkpoint {
  import opened Ranges
  import opened LockTable
  import opened PlockNode
  import opened Ownership
  import opened OwnershipLog
  import opened OwnershipPhases
  import opened OwnershipSafety
  import opened OwnershipTheorems

  datatype Packed = Packed(req: Request, waiter: bool)

  /** A checkpoint section: the owner in its name, the packed entries as data. */
  datatype Section = Section(owner: int, entries: seq<Packed>)

  function PackLocks(locks: seq<PosixLock>): seq<Packed> {
    if locks == [] then []
    else (if locks[0].syncing then [] else [Packed(ReqOf(locks[0]), false)]) + PackLocks(locks[1..])
  }

  function PackWaiters(ws: seq<Waiter>): seq<Packed> {
    if ws == [] then []
    else (if ws[0].syncing then [] else [Packed(ws[0].req, true)]) + PackWaiters(ws[1..])
  }

  /** Locks on a resource we own are not replicated; entries still being synced
      will reach the new node as sync messages. */
  function Pack(me: int, r: Res): seq<Packed> {
    if r.owner == me then [] else PackLocks(r.table.locks) + PackWaiters(r.table.waiters)
  }

  /** store_plocks for one resource; nothing is stored while no owner is known. */
  function Store(me: int, r: Res): Option<Section> {
    if r.owner == UNKNOWN then None
    else if r.owner == me then Some(Section(me, Pack(me, r)))
    else if r.owner != UNOWNED then Some(Section(r.owner, Pack(me, r)))
    else if !r.gotUnown then Some(Section(me, Pack(me, r)))
    else Some(Section(UNOWNED, Pack(me, r)))
  }

  function UnpackTable(entries: seq<Packed>): Table
    decreases |entries|
  {
    if entries == [] then EmptyTable
    else
      var t, last := UnpackTable(entries[..|entries| - 1]), entries[|entries| - 1];
      if last.waiter then Table(t.locks, t.waiters + [Waiter(last.req, false)])
      else Table(t.locks + [NewLock(last.req)], t.waiters)
  }

  function Unpack(s: Section): Res {
    Res(true, s.owner, false, UnpackTable(s.entries), [])
  }

  /** What a node with no prior resources has after reading the checkpoint. */
  function Restored(me: int, r: Res): Res {
    match Store(me, r)
    case None => NoResource
    case Some(section) => Unpack(section)
  }

  // ---------- packing and unpacking

  function UnsyncedLocks(locks: seq<PosixLock>): seq<PosixLock> {
    if locks == [] then [] else (if locks[0].syncing then [] else [locks[0]]) + UnsyncedLocks(locks[1..])
  }

  function UnsyncedWaiters(ws: seq<Waiter>): seq<Waiter> {
    if ws == [] then [] else (if ws[0].syncing then [] else [ws[0]]) + UnsyncedWaiters(ws[1..])
  }

  lemma {:induction false} UnpackConcat(a: seq<Packed>, c: seq<Packed>)
    ensures UnpackTable(a + c) == Table(UnpackTable(a).locks + UnpackTable(c).locks,
                                        UnpackTable(a).waiters + UnpackTable(c).waiters)
    decreases |c|
  {
    if c == [] {
      assert a + c == a;
    } else {
      var c', last := c[..|c| - 1], c[|c| - 1];
      assert (a + c)[..|a + c| - 1] == a + c' && (a + c)[|a + c| - 1] == last;
      UnpackConcat(a, c');
    }
  }

  lemma UnpackOne(p: Packed)
    ensures UnpackTable([p]) == if p.waiter then Table([], [Waiter(p.req, false)]) else Table([NewLock(p.req)], [])
  {
    assert [p][..0] == [];
  }

  lemma {:induction false} UnpackLocks(locks: seq<PosixLock>)
    ensures UnpackTable(PackLocks(locks)) == Table(UnsyncedLocks(locks), [])
  {
    if locks != [] {
      UnpackLocks(locks[1..]);
      if locks[0].syncing {
        assert [] + PackLocks(locks[1..]) == PackLocks(locks[1..]);
      } else {
        UnpackConcat([Packed(ReqOf(locks[0]), false)], PackLocks(locks[1..]));
        UnpackOne(Packed(ReqOf(locks[0]), false));
        assert NewLock(ReqOf(locks[0])) == locks[0];
      }
    }
  }

  lemma {:induction false} UnpackWaiters(ws: seq<Waiter>)
    ensures UnpackTable(PackWaiters(ws)) == Table([], UnsyncedWaiters(ws))
  {
    if ws != [] {
      UnpackWaiters(ws[1..]);
      if ws[0].syncing {
        assert [] + PackWaiters(ws[1..]) == PackWaiters(ws[1..]);
      } else {
        UnpackConcat([Packed(ws[0].req, true)], PackWaiters(ws[1..]));
        UnpackOne(Packed(ws[0].req, true));
        assert Waiter(ws[0].req, false) == ws[0];
      }
    }
  }

  /** Packing and unpacking a resource owned elsewhere keeps exactly the entries
      that are not being synced, in order. */
  lemma PackRoundTrip(me: int, r: Res)
    ensures UnpackTable(Pack(me, r)) ==
            if r.owner == me then EmptyTable
            else Table(UnsyncedLocks(r.table.locks), UnsyncedWaiters(r.table.waiters))
  {
    UnpackLocks(r.table.locks);
    UnpackWaiters(r.table.waiters);
    UnpackConcat(PackLocks(r.table.locks), PackWaiters(r.table.waiters));
  }

  lemma {:induction false} UnsyncedAll(t: Table)
    requires Unflagged(t)
    ensures UnsyncedLocks(t.locks) == t.locks && UnsyncedWaiters(t.waiters) == t.waiters
    decreases |t.locks| + |t.waiters|
  {
    if t.locks != [] {
      UnsyncedAll(Table(t.locks[1..], t.waiters));
      assert [t.locks[0]] + t.locks[1..] == t.locks;
    } else if t.waiters != [] {
      UnsyncedAll(Table(t.locks, t.waiters[1..]));
      assert [t.waiters[0]] + t.waiters[1..] == t.waiters;
    }
  }

  lemma {:induction false} UnsyncedHalfLocks(front: seq<PosixLock>, back: seq<PosixLock>)
    requires UnflaggedLocks(front)
    ensures UnsyncedLocks(front + FlagLocks(back)) == front
    decreases |front| + |back|
  {
    var all := front + FlagLocks(back);
    if front != [] {
      assert all[0] == front[0] && all[1..] == front[1..] + FlagLocks(back);
      UnsyncedHalfLocks(front[1..], back);
      assert [front[0]] + front[1..] == front;
    } else if back != [] {
      assert all[0] == back[0].(syncing := true) && all[1..] == [] + FlagLocks(back[1..]);
      UnsyncedHalfLocks([], back[1..]);
    }
  }

  lemma {:induction false} UnsyncedHalfWaiters(front: seq<Waiter>, back: seq<Waiter>)
    requires forall i :: 0 <= i < |front| ==> !front[i].syncing
    ensures UnsyncedWaiters(front + FlagWaiters(back)) == front
    decreases |front| + |back|
  {
    var all := front + FlagWaiters(back);
    if front != [] {
      assert all[0] == front[0] && all[1..] == front[1..] + FlagWaiters(back);
      UnsyncedHalfWaiters(front[1..], back);
      assert [front[0]] + front[1..] == front;
    } else if back != [] {
      assert all[0] == back[0].(syncing := true) && all[1..] == [] + FlagWaiters(back[1..]);
      UnsyncedHalfWaiters([], back[1..]);
    }
  }

  // ---------- the checkpoint of a full member

  /** `r` agrees with what the log says, up to R_GOT_UNOWN. */
  ghost predicate Matches(r: Res, v: View) {
    r.owner == v.owner && r.table == v.table && r.pending == [] && (r.known || v.owner == UNKNOWN)
  }

  lemma {:induction false} ViewUnflagged(log: seq<Entry>)
    ensures Unflagged(ViewOf(log).table)
    decreases |log|
  {
    hide Apply;
    if log != [] {
      var v, e := ViewOf(log[..|log| - 1]), log[|log| - 1];
      ViewUnflagged(log[..|log| - 1]);
      if e.msg.Plock? { ApplyUnflagged(v.table, e.msg.op); }
    }
  }

  lemma SyncingRestored(n: int, nd: Node, v: View, stream: seq<Msg>, local: seq<Op>)
    requires n > 0 && v.owner == n && PhaseSyncing(n, nd, v, stream, local)
    ensures Matches(Restored(n, nd.res), v)
  {
    hide Apply, ApplyAll;
    var t, a, b := ApplyAll(EmptyTable, local).table, |v.table.locks|, |v.table.waiters|;
    ApplyAllUnflagged(local);
    PackRoundTrip(n, nd.res);
    UnsyncedHalfLocks(t.locks[..a], t.locks[a..]);
    UnsyncedHalfWaiters(t.waiters[..b], t.waiters[b..]);
  }

  /** Whatever a full member is doing -- listening, being the owner, or half way
      through its own sync messages -- the checkpoint it writes is exactly what
      the log says at its position. */
  lemma CheckpointExact(states: seq<State>, i: nat, n: int)
    requires Run(states) && i < |states| && n in states[i].nodes
    ensures states[i].nodes[n].next <= |states[i].log|
    ensures Matches(Restored(n, states[i].nodes[n].res), ViewOf(states[i].log[..states[i].nodes[n].next]))
  {
    hide Inv, Apply, ApplyAll, ViewOf, LogOps, FromNode, UnpackTable;
    var s, nd := states[i], states[i].nodes[n];
    RunInv(states, i);
    NodeInv(s, n);
    var v := ViewOf(s.log[..nd.next]);
    LogOkPrefix(s.log, s.local, nd.next);
    ViewShape(s.log[..nd.next], s.local);
    PackRoundTrip(n, nd.res);
    ViewUnflagged(s.log[..nd.next]);
    UnsyncedAll(v.table);
    if v.owner == n && PhaseSyncing(n, nd, v, Stream(n, nd, s.log), s.local) {
      SyncingRestored(n, nd, v, Stream(n, nd, s.log), s.local);
    }
  }

  /** ... which is the owner and the table of every other full member there that
      is not the owner itself. */
  lemma ListenersMatch(states: seq<State>, i: nat, m: int)
    requires Run(states) && i < |states| && m in states[i].nodes
    ensures states[i].nodes[m].next <= |states[i].log|
    ensures var v := ViewOf(states[i].log[..states[i].nodes[m].next]);
            v.owner != m ==> states[i].nodes[m].res.owner == v.owner && states[i].nodes[m].res.table == v.table
  {
    hide Inv, Apply, ApplyAll;
    RunInv(states, i);
    NodeInv(states[i], m);
  }

  // ---------- catching up

  /** process_saved_plocks: the messages log[..] handled in order. */
  function Replay(me: int, r: Res, log: seq<Entry>): Res
    decreases |log|
  {
    if log == [] then r
    else
      var before, e := Replay(me, r, log[..|log| - 1]), log[|log| - 1];
      Receive(me, before, e.from, e.msg).res
  }

  /** A node that has sent nothing follows the log. */
  lemma ListenerStep(me: int, r: Res, v: View, e: Entry)
    requires me > 0 && Matches(r, v) && MsgOk(v, e) && e.from != me && v.owner != me
    ensures var eff := Receive(me, r, e.from, e.msg);
            !eff.unexpected && eff.sent == [] && eff.handled == [] && Matches(eff.res, ViewStep(v, e))
  {
  }

  lemma {:induction false} ReplayFollows(me: int, r: Res, log: seq<Entry>, local: seq<Op>, p: nat, q: nat)
    requires me > 0 && p <= q <= |log| && LogOk(log, local) && Matches(r, ViewOf(log[..p])) && ViewOf(log[..p]).owner != me
    requires forall k :: p <= k < q ==> log[k].from != me
    ensures Matches(Replay(me, r, log[p..q]), ViewOf(log[..q])) && ViewOf(log[..q]).owner != me
    decreases q - p
  {
    hide Apply, ApplyAll, Receive;
    if p == q {
      assert log[p..q] == [];
    } else {
      ReplayFollows(me, r, log, local, p, q - 1);
      assert log[p..q][..q - p - 1] == log[p..q - 1] && log[p..q][q - p - 1] == log[q - 1];
      LogOkAt(log, local, q - 1);
      ListenerStep(me, Replay(me, r, log[p..q - 1]), ViewOf(log[..q - 1]), log[q - 1]);
    }
  }

  lemma {:induction false} LogGrows(states: seq<State>, i: nat, j: nat)
    requires Run(states) && i <= j < |states|
    ensures states[i].log <= states[j].log && states[i].nodes.Keys == states[j].nodes.Keys
    decreases j
  {
    hide EffectOf;
    if i < j {
      LogGrows(states, i, j - 1);
      assert Step(states[j - 1], states[j]);
    }
  }

  /** Only members send, so an outsider is never the owner. */
  lemma OutsiderSilent(states: seq<State>, j: nat, joiner: int, p: nat)
    requires Run(states) && j < |states| && joiner > 0 && joiner !in states[j].nodes && p <= |states[j].log|
    ensures forall k :: 0 <= k < |states[j].log| ==> states[j].log[k].from != joiner
    ensures ViewOf(states[j].log[..p]).owner != joiner
  {
    hide Apply, ApplyAll, NodeOk;
    var s := states[j];
    RunInv(states, j);
    RunProgress(states, j);
    LogOkPrefix(s.log, s.local, p);
    if ViewOf(s.log[..p]).owner == joiner {
      OwnerIsNode(s.log[..p], s.local);
    }
  }

  /** A joining node that reads the checkpoint a full member wrote at position p
      and replays the messages it saved up to position q has the same owner and
      the same table as any full member at q that is not the owner itself. */
  lemma CatchUp(states: seq<State>, i: nat, j: nat, writer: int, m: int, joiner: int)
    requires Run(states) && i <= j < |states| && writer in states[i].nodes && m in states[j].nodes
    requires joiner > 0 && joiner !in states[j].nodes
    requires states[i].nodes[writer].next <= states[j].nodes[m].next <= |states[j].log|
    requires ViewOf(states[j].log[..states[j].nodes[m].next]).owner != m
    ensures var p, q, log := states[i].nodes[writer].next, states[j].nodes[m].next, states[j].log;
            var r := Replay(joiner, Restored(writer, states[i].nodes[writer].res), log[p..q]);
            r.owner == states[j].nodes[m].res.owner && r.table == states[j].nodes[m].res.table
  {
    hide Apply, ApplyAll, Restored;
    var p, q, log := states[i].nodes[writer].next, states[j].nodes[m].next, states[j].log;
    CheckpointExact(states, i, writer);
    LogGrows(states, i, j);
    assert states[i].log[..p] == log[..p];
    RunInv(states, j);
    OutsiderSilent(states, j, joiner, p);
    ReplayFollows(joiner, Restored(writer, states[i].nodes[writer].res), log, states[j].local, p, q);
    ListenersMatch(states, j, m);
  }

  /** R_GOT_UNOWN is not in the checkpoint.  A node that follows the log can
      itself write a correct checkpoint if and only if the resource is not
      unowned or the node has seen the own-0 message. */
  lemma RewriteNeedsGotUnown(me: int, r: Res, v: View)
    requires me > 0 && v.owner >= UNKNOWN && Matches(r, v) && Unflagged(v.table) && v.owner != me
    requires v.owner == UNKNOWN ==> v.table == EmptyTable
    ensures Matches(Restored(me, r), v) <==> v.owner != UNOWNED || r.gotUnown
  {
    PackRoundTrip(me, r);
    UnsyncedAll(v.table);
  }

  lemma ListenerFlag(me: int, r: Res, v: View, e: Entry)
    requires me > 0 && Matches(r, v) && MsgOk(v, e) && e.from != me && v.owner != me
    ensures Receive(me, r, e.from, e.msg).res.gotUnown <==> r.gotUnown || (v.owner != UNOWNED && ViewStep(v, e).owner == UNOWNED)
    ensures v.owner == UNOWNED ==> ViewStep(v, e).owner == UNOWNED
  {
  }

  lemma {:induction false} ReplayFlag(me: int, r: Res, log: seq<Entry>, local: seq<Op>, p: nat, q: nat)
    requires me > 0 && p <= q <= |log| && LogOk(log, local) && Matches(r, ViewOf(log[..p])) && ViewOf(log[..p]).owner != me
    requires !r.gotUnown && forall k :: p <= k < q ==> log[k].from != me
    ensures Replay(me, r, log[p..q]).gotUnown <==> ViewOf(log[..p]).owner != UNOWNED && ViewOf(log[..q]).owner == UNOWNED
    ensures ViewOf(log[..p]).owner == UNOWNED ==> ViewOf(log[..q]).owner == UNOWNED
    decreases q - p
  {
    hide Receive, Matches, ViewOf, ViewStep, LogOk, MsgOk;
    if p == q {
      assert log[p..q] == [];
    } else {
      ReplayFlag(me, r, log, local, p, q - 1);
      ReplayFollows(me, r, log, local, p, q - 1);
      assert log[p..q][..q - p - 1] == log[p..q - 1] && log[p..q][q - p - 1] == log[q - 1];
      LogOkAt(log, local, q - 1);
      ListenerFlag(me, Replay(me, r, log[p..q - 1]), ViewOf(log[..q - 1]), log[q - 1]);
    }
  }

  lemma RestoredFlag(me: int, r: Res)
    ensures !Restored(me, r).gotUnown
  {
  }

  /** A joiner that has caught up would itself write a correct checkpoint if and only
      if the resource is not unowned, or was not yet when the checkpoint it joined
      from was written: one written after own-0 leaves it without the flag for ever. */
  lemma JoinerRewrite(states: seq<State>, i: nat, j: nat, writer: int, q: nat, joiner: int)
    requires Run(states) && i <= j < |states| && writer in states[i].nodes && joiner > 0 && joiner !in states[j].nodes
    requires states[i].nodes[writer].next <= q <= |states[j].log|
    ensures var p, log := states[i].nodes[writer].next, states[j].log;
            var r := Replay(joiner, Restored(writer, states[i].nodes[writer].res), log[p..q]);
            Matches(Restored(joiner, r), ViewOf(log[..q])) <==>
              ViewOf(log[..q]).owner != UNOWNED || ViewOf(log[..p]).owner != UNOWNED
  {
    hide Apply, ApplyAll, Restored, Matches, Inv;
    var p, log := states[i].nodes[writer].next, states[j].log;
    var r0 := Restored(writer, states[i].nodes[writer].res);
    CheckpointExact(states, i, writer);
    LogGrows(states, i, j);
    assert states[i].log[..p] == log[..p];
    RunInv(states, j);
    InvLog(states[j]);
    OutsiderSilent(states, j, joiner, p);
    OutsiderSilent(states, j, joiner, q);
    RestoredFlag(writer, states[i].nodes[writer].res);
    ReplayFollows(joiner, r0, log, states[j].local, p, q);
    ReplayFlag(joiner, r0, log, states[j].local, p, q);
    LogOkPrefix(log, states[j].local, q);
    ViewShape(log[..q], states[j].local);
    ViewUnflagged(log[..q]);
    RewriteNeedsGotUnown(joiner, Replay(joiner, r0, log[p..q]), ViewOf(log[..q]));
  }

  lemma InvLog(s: State)
    requires Inv(s)
    ensures LogOk(s.log, s.local)
  {
    hide NodeOk, LogOk;
  }
}
