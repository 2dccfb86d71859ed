/**
 Over every run of the cluster: a node starts a change exactly when it has read
 the starts for it and no older pending change has taken them away.
 */
module BarrierProgress {
  import opened Membership
  import opened Gates
  import opened Cluster
  import opened Barrier
  import opened BarrierSteps
  import opened StartBarrier
  import opened BarrierCredit

  predicate Marked(m: Member) {
    m.start || m.disallowed
  }

  /** The current change shows a mark for every start about it that was read; but if
      an older pending change looks like it, no member of it is shown as started. */
  ghost predicate MarksOk(log: seq<Entry>, peer: Peer)
    requires peer.next <= |log|
  {
    var cs := peer.ls.changes;
    cs != [] ==>
      var cg := cs[0];
      if NoOlderAlike(log, cs, cg.id)
      then forall i :: 0 <= i < |cg.members| && HasMsg(log, peer.next, cg.id, cg.members[i].nodeid) ==> Marked(cg.members[i])
      else forall i :: 0 <= i < |cg.members| ==> !cg.members[i].start
  }

  // ---------- one start message

  /** What a start message does to the current change. */
  lemma HeadAfter(ls: Lockspace, m: StartMsg, now: nat)
    requires ls.changes != []
    ensures var cg, cs := ls.changes[0], ReceiveStart(ls, m, now).changes;
            var i := MembIndex(cg.members, m.nodeid);
            && cs != []
            && if FindChange(ls.changes, m, ls.our) != 0 then cs[0] == cg
               else i < |cg.members| &&
                    (cs[0] == cg.(members := cg.members[i := cg.members[i].(start := true)]) ||
                     cs[0] == cg.(members := cg.members[i := cg.members[i].(disallowed := true)]))
  {
    hide FindChange, IsAdded, MembIndex, HistoryStart;
    var k := FindChange(ls.changes, m, ls.our);
    if k < |ls.changes| { MatchedMember(ls.changes[k], m, ls.our); }
  }

  lemma SameAlike(log: seq<Entry>, cs: seq<Change>, ds: seq<Change>, c: nat)
    requires SameChanges(cs, ds)
    ensures NoOlderAlike(log, cs, c) <==> NoOlderAlike(log, ds, c)
  {
    hide Alike;
    assert forall k :: 0 <= k < |cs| ==> SameChange(cs[k], ds[k]) && cs[k].id == ds[k].id;
    assert Pends(cs, c) <==> Pends(ds, c) by {
      if Pends(cs, c) { var k :| 0 <= k < |cs| && cs[k].id == c; assert ds[k].id == c; }
      if Pends(ds, c) { var k :| 0 <= k < |ds| && ds[k].id == c; assert cs[k].id == c; }
    }
  }

  /** Only the first of equal ids is found, and there are no equal ids. */
  lemma TheMember(w: World, p: nat, i: nat)
    requires Inv(w) && p < |w.peers| && w.peers[p].ls.changes != [] && i < |w.peers[p].ls.changes[0].members|
    ensures var ms := w.peers[p].ls.changes[0].members; MembIndex(ms, ms[i].nodeid) == i
  {
    hide Inv, MembIndex;
    var cg := w.peers[p].ls.changes[0];
    ReaderInPending(w, p, 0);
    InvLog(w);
    DistinctMembers(w.log, cg.id);
    var j := MembIndex(cg.members, cg.members[i].nodeid);
    assert j <= i && Ids(cg.members)[j] == Ids(cg.members)[i];
  }

  /** A start about the current change, if no older change takes it away. */
  lemma CreditedToHead(w: World, p: nat, i: nat)
    requires Inv(w) && p < |w.peers| && i < |w.log| && w.log[i].Msg?
    requires var cs := w.peers[p].ls.changes; cs != [] && cs[0].id == w.log[i].about && NoOlderAlike(w.log, cs, cs[0].id)
    ensures FindChange(w.peers[p].ls.changes, w.log[i].msg, w.peers[p].ls.our) == 0
  {
    hide Inv, FindChange, NoOlderAlike;
    CreditIffNoOlderAlike(w, p, i);
    NewestFirst(w, p);
  }

  lemma HasMsgNext(log: seq<Entry>, n: nat, about: nat, x: int)
    requires n < |log| && HasMsg(log, n + 1, about, x)
    ensures HasMsg(log, n, about, x) || IsMsg(log[n], about, x)
  {
  }

  lemma MarksAfterMsg(w: World, a: Act)
    requires Inv(w) && a.Deliver? && Enabled(w, a) && w.log[w.peers[a.p].next].Msg? && MarksOk(w.log, w.peers[a.p])
    ensures MarksOk(w.log, Handled(w, a))
  {
    hide Inv, NoOlderAlike, HasMsg, FindChange, MembIndex, ReceiveStart, SameChanges, Leaves, Stays;
    var peer, mid := w.peers[a.p], Handled(w, a);
    var m, cs := w.log[peer.next].msg, peer.ls.changes;
    ReceivedChanges(peer.ls, m, a.env.now);
    SameHead(cs, mid.ls.changes);
    if cs != [] {
      var cg, cg1 := cs[0], mid.ls.changes[0];
      HeadAfter(peer.ls, m, a.env.now);
      SameAlike(w.log, cs, mid.ls.changes, cg.id);
      if NoOlderAlike(w.log, cs, cg.id) {
        forall i | 0 <= i < |cg1.members| && HasMsg(w.log, mid.next, cg1.id, cg1.members[i].nodeid)
          ensures Marked(cg1.members[i])
        {
          HasMsgNext(w.log, peer.next, cg.id, cg.members[i].nodeid);
          TheMember(w, a.p, i);
          if IsMsg(w.log[peer.next], cg.id, cg.members[i].nodeid) { CreditedToHead(w, a.p, peer.next); }
        }
      } else {
        OlderAlikeTakesAll(w, a.p, peer.next);
      }
    }
  }

  // ---------- one step of a node

  /** Nothing read so far is about the change just delivered. */
  lemma NothingYet(w: World, n: nat, x: int)
    requires Inv(w) && n < |w.log| && w.log[n].Conf?
    ensures !HasMsg(w.log, n + 1, n, x)
  {
    hide Inv;
    if HasMsg(w.log, n + 1, n, x) {
      var k :| 0 <= k < n + 1 && IsMsg(w.log[k], n, x);
      SenderInOwnChange(w, k);
    }
  }

  lemma JoinedConf(w: World, n: nat)
    requires Inv(w) && n < |w.log| && w.log[n].Conf?
    ensures forall x :: x in w.log[n].cc.joined ==> x in w.log[n].cc.members
  {
    hide MembersAt, LogMsgsOk, LogOrder, PeersDistinct, PeerOk;
    assert NextConf(MembersAt(w.log, n), w.log[n].cc);
  }

  lemma MarksAfterConf(w: World, a: Act)
    requires Inv(w) && a.Deliver? && Enabled(w, a) && w.log[w.peers[a.p].next].Conf?
    ensures MarksOk(w.log, Handled(w, a))
  {
    hide Inv, NoOlderAlike, HasMsg, AddChange, Leaves, Stays, Describes;
    var peer, mid := w.peers[a.p], Handled(w, a);
    JoinedConf(w, peer.next);
    AddedChange(peer.ls, w.log[peer.next].cc, peer.next);
    var cg := mid.ls.changes[0];
    forall i | 0 <= i < |cg.members| ensures !HasMsg(w.log, mid.next, cg.id, cg.members[i].nodeid) {
      NothingYet(w, peer.next, cg.members[i].nodeid);
    }
  }

  lemma MarksHandled(w: World, a: Act)
    requires Inv(w) && Enabled(w, a) && (a.Deliver? || a.Poll?) && w.peers[a.p].next <= |w.log| && MarksOk(w.log, w.peers[a.p])
    ensures MarksOk(w.log, Handled(w, a))
  {
    hide Inv, MarksOk, Handle, Leaves;
    if a.Poll? {
      NothingHandled(w.peers[a.p].ls, a.env);
    } else if w.log[w.peers[a.p].next].Conf? {
      MarksAfterConf(w, a);
    } else {
      MarksAfterMsg(w, a);
    }
  }

  lemma MarksApplied(log: seq<Entry>, mid: Peer, p: nat, env: Env)
    requires mid.next <= |log| && MarksOk(log, mid)
    ensures mid.next == Finish(mid, p, env).next && MarksOk(log, Finish(mid, p, env))
  {
    hide ApplyChanges, NoOlderAlike, HasMsg, Ids;
    AppliedChanges(mid.ls, env);
    var cs, ds := mid.ls.changes, ApplyChanges(mid.ls, env).0.changes;
    if ds != [] {
      assert SameChanges(cs, ds);
      SameAlike(log, cs, ds, cs[0].id);
    }
  }

  lemma MarksGrow(w: World, e: Entry, p: nat, peer1: Peer)
    requires Inv(w) && p < |w.peers| && w.peers[p].next <= |w.log| && MarksOk(w.log, w.peers[p])
    requires peer1.next == w.peers[p].next && peer1.ls == w.peers[p].ls
    ensures MarksOk(w.log + [e], peer1)
  {
    hide Inv;
    var all, cs := w.log + [e], peer1.ls.changes;
    if cs != [] {
      forall k | 0 <= k < |cs| ensures Alike(all, cs[0].id, cs[k].id) <==> Alike(w.log, cs[0].id, cs[k].id) {
        ReaderInPending(w, p, 0);
        ReaderInPending(w, p, k);
      }
      assert NoOlderAlike(all, cs, cs[0].id) <==> NoOlderAlike(w.log, cs, cs[0].id) by { hide Alike; }
      assert forall k :: 0 <= k < |w.log| ==> all[k] == w.log[k];
    }
  }

  /** Every step of the cluster keeps every node's marks right. */
  lemma MarksStep(w: World, a: Act, p: nat)
    requires Inv(w) && Enabled(w, a) && p < |w.peers| && w.peers[p].next <= |w.log| && MarksOk(w.log, w.peers[p])
    ensures p < |Next(w, a).peers| && Next(w, a).peers[p].next <= |Next(w, a).log|
    ensures MarksOk(Next(w, a).log, Next(w, a).peers[p])
  {
    hide Inv, MarksOk, Advance, Finish, NextConf, Leaves, Stays;
    match a {
      case Reconfigure(cc, newcomers) => MarksGrow(w, Conf(cc), p, w.peers[p]);
      case Flush(q) => MarksGrow(w, w.peers[q].outbox[0], p, Next(w, a).peers[p]);
      case Deliver(q, env) => if q == p { MarksOwnStep(w, a); }
      case Poll(q, env) => if q == p { MarksOwnStep(w, a); }
    }
  }

  lemma MarksOwnStep(w: World, a: Act)
    requires Inv(w) && Enabled(w, a) && (a.Deliver? || a.Poll?) && w.peers[a.p].next <= |w.log| && MarksOk(w.log, w.peers[a.p])
    ensures Next(w, a).peers[a.p].next <= |w.log| && MarksOk(w.log, Next(w, a).peers[a.p])
  {
    hide Inv, MarksOk, Advance, Handle, LocalOk, AllBefore, Finish, Leaves;
    HandledOk(w, a);
    AdvanceIsFinish(w, a);
    MarksHandled(w, a);
    MarksApplied(w.log, Handled(w, a), a.p, a.env);
  }

  lemma NewcomerMarks(w: World, a: Act, p: nat)
    requires Enabled(w, a) && |w.peers| <= p < |Next(w, a).peers|
    ensures Next(w, a).peers[p].next <= |Next(w, a).log| && MarksOk(Next(w, a).log, Next(w, a).peers[p])
  {
    hide NextConf, Advance, Leaves, Stays, HasMsg, NoOlderAlike;
  }

  lemma {:induction false} RunMarks(ws: seq<World>, acts: seq<Act>, k: nat, p: nat)
    requires IsRun(ws, acts) && k <= |acts| && p < |ws[k].peers|
    ensures ws[k].peers[p].next <= |ws[k].log| && MarksOk(ws[k].log, ws[k].peers[p])
    decreases k
  {
    hide Enabled, Next, MarksOk, Inv;
    if k == 0 {
    } else if p >= |ws[k - 1].peers| {
      NewcomerMarks(ws[k - 1], acts[k - 1], p);
    } else {
      RunInv(ws, acts, k - 1);
      RunMarks(ws, acts, k - 1, p);
      MarksStep(ws[k - 1], acts[k - 1], p);
    }
  }

  // ---------- a member speaks once about a change

  /** A start that was refused is from the one message its sender had about the
      change. */
  ghost predicate RefusedOk(log: seq<Entry>, peer: Peer)
    requires peer.next <= |log|
  {
    peer.ls.changes != [] ==>
      var cg := peer.ls.changes[0];
      forall i :: 0 <= i < |cg.members| && cg.members[i].disallowed ==>
        !cg.members[i].start && HasMsg(log, peer.next, cg.id, cg.members[i].nodeid)
  }

  lemma SaidOnce(w: World, n: nat)
    requires Inv(w) && n < |w.log| && w.log[n].Msg?
    ensures !HasMsg(w.log, n, w.log[n].about, w.log[n].msg.nodeid)
  {
    hide Inv;
    if HasMsg(w.log, n, w.log[n].about, w.log[n].msg.nodeid) {
      var k :| 0 <= k < n && IsMsg(w.log[k], w.log[n].about, w.log[n].msg.nodeid);
      LaterIsNewer(w, k, n);
    }
  }

  lemma RefusedAfterMsg(w: World, a: Act)
    requires Inv(w) && a.Deliver? && Enabled(w, a) && w.log[w.peers[a.p].next].Msg? && ReadsFresh(w, a)
    requires EvidenceOk(w.log, w.peers[a.p]) && RefusedOk(w.log, w.peers[a.p])
    ensures RefusedOk(w.log, Handled(w, a))
  {
    hide Inv, HasMsg, FindChange, MembIndex, ReceiveStart, SameChanges, Leaves, Stays, Stale;
    var peer, mid := w.peers[a.p], Handled(w, a);
    var m, cs := w.log[peer.next].msg, peer.ls.changes;
    ReceivedChanges(peer.ls, m, a.env.now);
    SameHead(cs, mid.ls.changes);
    if cs != [] {
      var cg, cg1 := cs[0], mid.ls.changes[0];
      HeadAfter(peer.ls, m, a.env.now);
      var matched := FindChange(cs, m, peer.ls.our) == 0;
      if matched {
        MatchIsExact(w, a.p);
        SaidOnce(w, peer.next);
        JustRead(w.log, peer.next, cg.id, m.nodeid);
      }
      forall i | 0 <= i < |cg1.members| && cg1.members[i].disallowed
        ensures !cg1.members[i].start && HasMsg(w.log, mid.next, cg1.id, cg1.members[i].nodeid)
      {
        if cg.members[i].disallowed { HasMsgLonger(w.log, peer.next, mid.next, cg.id, cg.members[i].nodeid); }
      }
    }
  }

  lemma RefusedHandled(w: World, a: Act)
    requires Inv(w) && Enabled(w, a) && (a.Deliver? || a.Poll?) && w.peers[a.p].next <= |w.log| && ReadsFresh(w, a)
    requires EvidenceOk(w.log, w.peers[a.p]) && RefusedOk(w.log, w.peers[a.p])
    ensures RefusedOk(w.log, Handled(w, a))
  {
    hide Inv, EvidenceOk, AddChange, Leaves, Stays, Describes, HasMsg, Stale, ReceiveStart;
    if a.Deliver? && w.log[w.peers[a.p].next].Conf? {
      JoinedConf(w, w.peers[a.p].next);
      AddedChange(w.peers[a.p].ls, w.log[w.peers[a.p].next].cc, w.peers[a.p].next);
    } else if a.Deliver? {
      RefusedAfterMsg(w, a);
    }
  }

  lemma RefusedGrow(log: seq<Entry>, e: Entry, peer: Peer, peer1: Peer)
    requires peer.next <= |log| && RefusedOk(log, peer) && peer1.next == peer.next && peer1.ls == peer.ls
    ensures RefusedOk(log + [e], peer1)
  {
    hide HasMsg;
    forall about, x | HasMsg(log, peer.next, about, x) ensures HasMsg(log + [e], peer.next, about, x) {
      HasMsgGrow(log, e, peer.next, about, x);
    }
  }

  lemma RefusedOwnStep(w: World, a: Act)
    requires Inv(w) && Enabled(w, a) && (a.Deliver? || a.Poll?) && w.peers[a.p].next <= |w.log| && ReadsFresh(w, a)
    requires EvidenceOk(w.log, w.peers[a.p]) && RefusedOk(w.log, w.peers[a.p])
    ensures Next(w, a).peers[a.p].next <= |w.log| && RefusedOk(w.log, Next(w, a).peers[a.p])
  {
    hide Inv, EvidenceOk, RefusedOk, Advance, Handle, LocalOk, AllBefore, Finish, Leaves, ReadsFresh;
    HandledOk(w, a);
    AdvanceIsFinish(w, a);
    RefusedHandled(w, a);
    RefusedApplied(w.log, Handled(w, a), a.p, a.env);
  }

  lemma RefusedApplied(log: seq<Entry>, mid: Peer, p: nat, env: Env)
    requires mid.next <= |log| && RefusedOk(log, mid)
    ensures mid.next == Finish(mid, p, env).next && RefusedOk(log, Finish(mid, p, env))
  {
    hide ApplyChanges, HasMsg;
    AppliedChanges(mid.ls, env);
    var cs, ds := mid.ls.changes, ApplyChanges(mid.ls, env).0.changes;
    assert ds == [] || (cs != [] && ds[0].id == cs[0].id && ds[0].members == cs[0].members);
  }

  lemma RefusedStep(w: World, a: Act, p: nat)
    requires Inv(w) && Enabled(w, a) && p < |w.peers| && w.peers[p].next <= |w.log|
    requires a.Deliver? && a.p == p ==> !Stale(w.log, w.peers[p].nodeid, w.peers[p].born, w.peers[p].next)
    requires EvidenceOk(w.log, w.peers[p]) && RefusedOk(w.log, w.peers[p])
    ensures p < |Next(w, a).peers| && Next(w, a).peers[p].next <= |Next(w, a).log|
    ensures RefusedOk(Next(w, a).log, Next(w, a).peers[p])
  {
    hide Inv, EvidenceOk, RefusedOk, Advance, NextConf, Leaves, Stays, Stale;
    match a {
      case Reconfigure(cc, newcomers) => RefusedGrow(w.log, Conf(cc), w.peers[p], w.peers[p]);
      case Flush(q) => RefusedGrow(w.log, w.peers[q].outbox[0], w.peers[p], Next(w, a).peers[p]);
      case Deliver(q, env) => if q == p { RefusedOwnStep(w, a); }
      case Poll(q, env) => if q == p { RefusedOwnStep(w, a); }
    }
  }

  lemma NewcomerRefused(w: World, a: Act, p: nat)
    requires Enabled(w, a) && |w.peers| <= p < |Next(w, a).peers|
    ensures Next(w, a).peers[p].next <= |Next(w, a).log| && RefusedOk(Next(w, a).log, Next(w, a).peers[p])
  {
    hide NextConf, Advance, Leaves, Stays, HasMsg;
  }

  lemma {:induction false} RunRefused(ws: seq<World>, acts: seq<Act>, k: nat, p: nat)
    requires IsRun(ws, acts) && k <= |acts| && p < |ws[k].peers| && ws[k].peers[p].next <= |ws[k].log|
    requires NoneStale(ws[k].log, ws[k].peers[p].nodeid, ws[k].peers[p].born, ws[k].peers[p].next)
    ensures RefusedOk(ws[k].log, ws[k].peers[p])
    decreases k
  {
    hide Enabled, Next, NoneStale, EvidenceOk, RefusedOk, Stale, Inv;
    if k == 0 { return; }
    var w, a := ws[k - 1], acts[k - 1];
    if p >= |w.peers| {
      NewcomerRefused(w, a, p);
    } else {
      RunInv(ws, acts, k - 1);
      InvNext(w, p);
      NextPeer(w, a, p);
      var x, born := w.peers[p].nodeid, w.peers[p].born;
      NoneStalePrefix(w.log, ws[k].log, x, born, w.peers[p].next, ws[k].peers[p].next);
      RunRefused(ws, acts, k - 1, p);
      RunEvidence(ws, acts, k - 1, p);
      if a.Deliver? && a.p == p {
        StaleAt(ws[k].log, x, born, ws[k].peers[p].next, w.peers[p].next);
        ReadInLog(w, a);
        StalePrefix(w.log, ws[k].log, x, born, w.peers[p].next);
      }
      RefusedStep(w, a, p);
    }
  }

  // ---------- when a node starts

  /** Each member's start about `cg` has been read and none was refused. */
  ghost predicate AllHeard(log: seq<Entry>, n: nat, cg: Change)
    requires n <= |log|
  {
    forall i :: 0 <= i < |cg.members| ==> HasMsg(log, n, cg.id, cg.members[i].nodeid) && !cg.members[i].disallowed
  }

  /** Apply_changes starts the kernel exactly when all members are marked. */
  lemma StartsWhenMarked(w: World, a: Act)
    requires Inv(w) && Enabled(w, a) && (a.Deliver? || a.Poll?) && Handled(w, a).ls.changes != []
    ensures var cg := Handled(w, a).ls.changes[0];
            var out := Step(w.peers[a.p].ls, LocalEvent(w, a)).1;
            && (out.StartKernel? <==> cg.phase == WaitMessages && AllStarted(cg.members))
            && (out.StartKernel? ==> out.cg == cg) && cg.members != [] && Handled(w, a).next <= |w.log|
  {
    hide Inv, Handle, Leaves, AllBefore, AllStarted, WaitConditionsDone, PendingOk, Stays;
    HandledOk(w, a);
    var mid := Handled(w, a);
    HeadHasMembers(w, a);
    ApplyGates(mid.ls, a.env);
  }

  lemma HeadHasMembers(w: World, a: Act)
    requires Inv(w) && Enabled(w, a) && (a.Deliver? || a.Poll?) && Handled(w, a).ls.changes != []
    requires LocalOk(w.log, Handled(w, a))
    ensures Handled(w, a).ls.changes[0].members != []
  {
    hide Inv, Handle, Leaves, NextConf;
    var mid := Handled(w, a);
    var cg := mid.ls.changes[0];
    InvLog(w);
    assert Floor(mid) <= cg.id < mid.next && ConfAt(w.log, cg);
    StaysIsMember(w.log, mid.nodeid, mid.born, cg.id + 1);
    assert mid.nodeid in Ids(cg.members);
  }

  /** Progress: a node that has read every member's start about its current change,
      none of them refused, starts at once if no older pending change looks like
      it. */
  lemma AllHeardStarts(ws: seq<World>, acts: seq<Act>, k: nat)
    requires IsRun(ws, acts) && k < |acts| && (acts[k].Deliver? || acts[k].Poll?)
    requires var mid := Handled(ws[k], acts[k]);
             && mid.next <= |ws[k].log| && mid.ls.changes != [] && mid.ls.changes[0].phase == WaitMessages
             && NoOlderAlike(ws[k].log, mid.ls.changes, mid.ls.changes[0].id)
             && AllHeard(ws[k].log, mid.next, mid.ls.changes[0])
    ensures Step(ws[k].peers[acts[k].p].ls, LocalEvent(ws[k], acts[k])).1 == StartKernel(Handled(ws[k], acts[k]).ls.changes[0])
  {
    hide Inv, Handled, Step, NoOlderAlike, HasMsg, Leaves, Next;
    RunInv(ws, acts, k);
    RunMarks(ws, acts, k, acts[k].p);
    MarksHandled(ws[k], acts[k]);
    StartsWhenMarked(ws[k], acts[k]);
  }

  /** While an older pending change looks like the current one, the node does not
      start. */
  lemma OlderAlikeHolds(ws: seq<World>, acts: seq<Act>, k: nat)
    requires IsRun(ws, acts) && k < |acts| && (acts[k].Deliver? || acts[k].Poll?)
    requires var cs := Handled(ws[k], acts[k]).ls.changes; cs != [] && !NoOlderAlike(ws[k].log, cs, cs[0].id)
    ensures !Step(ws[k].peers[acts[k].p].ls, LocalEvent(ws[k], acts[k])).1.StartKernel?
  {
    hide Inv, Handled, Step, NoOlderAlike, HasMsg, Leaves, Next;
    RunInv(ws, acts, k);
    RunMarks(ws, acts, k, acts[k].p);
    MarksHandled(ws[k], acts[k]);
    StartsWhenMarked(ws[k], acts[k]);
    assert !Handled(ws[k], acts[k]).ls.changes[0].members[0].start;
  }

  /** In every run, a node none of whose messages was stale starts its current change
      exactly when it waits for messages, has read every member's start about that
      change and refused none, and no older pending change looks like it. */
  lemma StartsExactlyWhen(ws: seq<World>, acts: seq<Act>, k: nat)
    requires IsRun(ws, acts) && k < |acts| && (acts[k].Deliver? || acts[k].Poll?)
    requires ReadUpTo(ws[k], acts[k]) <= |ws[k].log|
    requires var peer := ws[k].peers[acts[k].p];
             NoneStale(ws[k].log, peer.nodeid, peer.born, ReadUpTo(ws[k], acts[k]))
    requires Handled(ws[k], acts[k]).ls.changes != []
    ensures var cs := Handled(ws[k], acts[k]).ls.changes;
            Step(ws[k].peers[acts[k].p].ls, LocalEvent(ws[k], acts[k])).1.StartKernel? <==>
            && cs[0].phase == WaitMessages && NoOlderAlike(ws[k].log, cs, cs[0].id)
            && AllHeard(ws[k].log, ReadUpTo(ws[k], acts[k]), cs[0])
  {
    hide Step, NoneStale, Stale, Inv, Next, EvidenceOk, RefusedOk, NoOlderAlike, AllHeard, Handle, Leaves;
    var w, a := ws[k], acts[k];
    var peer, mid := w.peers[a.p], Handled(w, a);
    RunInv(ws, acts, k);
    InvNext(w, a.p);
    NoneStalePrefix(w.log, w.log, peer.nodeid, peer.born, peer.next, ReadUpTo(w, a));
    RunEvidence(ws, acts, k, a.p);
    RunRefused(ws, acts, k, a.p);
    if a.Deliver? { StaleAt(w.log, peer.nodeid, peer.born, ReadUpTo(w, a), peer.next); }
    StartsWhenMarked(w, a);
    var cg := mid.ls.changes[0];
    if cg.phase == WaitMessages && NoOlderAlike(w.log, mid.ls.changes, cg.id) && AllHeard(w.log, mid.next, cg) {
      AllHeardStarts(ws, acts, k);
    }
    if !NoOlderAlike(w.log, mid.ls.changes, cg.id) { OlderAlikeHolds(ws, acts, k); }
    if AllStarted(cg.members) { StartedHeard(w, a); }
  }

  lemma StartedHeard(w: World, a: Act)
    requires Inv(w) && Enabled(w, a) && (a.Deliver? || a.Poll?) && w.peers[a.p].next <= |w.log| && ReadsFresh(w, a)
    requires EvidenceOk(w.log, w.peers[a.p]) && RefusedOk(w.log, w.peers[a.p])
    requires Handled(w, a).next <= |w.log| && Handled(w, a).ls.changes != [] && AllStarted(Handled(w, a).ls.changes[0].members)
    ensures AllHeard(w.log, Handled(w, a).next, Handled(w, a).ls.changes[0])
  {
    hide Inv, Handled, HasMsg, ReadsFresh, Leaves, Stays;
    assert EvidenceOk(w.log, Handled(w, a)) by { hide EvidenceOk, LocalOk, AllBefore, RefusedOk; HandledOk(w, a); }
    RefusedHandled(w, a);
  }

  // ---------- a node that is held up stays so

  ghost predicate HeldUp(log: seq<Entry>, peer: Peer) {
    peer.ls.changes != [] && !NoOlderAlike(log, peer.ls.changes, peer.ls.changes[0].id)
  }

  /** In this step node `p` reads a configuration change. */
  predicate ReadsConf(w: World, a: Act, p: nat) {
    a.Deliver? && a.p == p < |w.peers| && w.peers[p].next < |w.log| && w.log[w.peers[p].next].Conf?
  }

  /** The same pending changes, and no start. */
  predicate NoNews(peer: Peer, after: Peer) {
    SameChanges(peer.ls.changes, after.ls.changes) && after.ls.started == peer.ls.started
  }

  lemma NoNewsTwice(a: Peer, b: Peer, c: Peer)
    requires NoNews(a, b) && NoNews(b, c)
    ensures NoNews(a, c)
  {
    var cs, ds, es := a.ls.changes, b.ls.changes, c.ls.changes;
    forall k | 0 <= k < |cs| ensures SameChange(cs[k], es[k]) {
      assert SameChange(cs[k], ds[k]) && SameChange(ds[k], es[k]);
    }
  }

  lemma HandledNoNews(w: World, a: Act)
    requires Enabled(w, a) && (a.Deliver? || a.Poll?) && !ReadsConf(w, a, a.p)
    ensures NoNews(w.peers[a.p], Handled(w, a))
  {
    hide ReceiveStart, Leaves, Stays;
    var peer := w.peers[a.p];
    if a.Deliver? {
      assert w.log[peer.next].Msg?;
      ReceivedChanges(peer.ls, w.log[peer.next].msg, a.env.now);
    }
  }

  lemma HeldUpSame(log: seq<Entry>, peer: Peer, after: Peer)
    requires HeldUp(log, peer) && NoNews(peer, after)
    ensures HeldUp(log, after)
  {
    hide NoOlderAlike;
    SameHead(peer.ls.changes, after.ls.changes);
    SameAlike(log, peer.ls.changes, after.ls.changes, peer.ls.changes[0].id);
  }

  lemma HeldUpGrows(log: seq<Entry>, all: seq<Entry>, peer: Peer)
    requires log <= all && HeldUp(log, peer)
    ensures HeldUp(all, peer)
  {
    var cs := peer.ls.changes;
    assert forall i :: 0 <= i < |log| ==> all[i] == log[i];
    var k :| 0 <= k < |cs| && (Pends(cs, cs[0].id) ==> cs[k].id < cs[0].id) && Alike(log, cs[0].id, cs[k].id);
    assert Alike(all, cs[0].id, cs[k].id);
  }

  lemma AppliedNoNews(mid: Peer, p: nat, env: Env)
    requires var out := ApplyChanges(mid.ls, env).1; !out.StartKernel? && !out.StartError?
    ensures NoNews(mid, Finish(mid, p, env))
  {
    hide ApplyChanges;
    AppliedChanges(mid.ls, env);
  }

  lemma OutputOfStep(w: World, a: Act)
    requires Inv(w) && Enabled(w, a) && (a.Deliver? || a.Poll?)
    ensures var out := ApplyChanges(Handled(w, a).ls, a.env).1;
            out == Step(w.peers[a.p].ls, LocalEvent(w, a)).1 && !out.StartError?
    ensures Next(w, a).peers[a.p] == Finish(Handled(w, a), a.p, a.env)
  {
    hide Inv, Handle, Leaves, AllBefore, ApplyChanges, PendingOk, Stays, Advance, Finish, GateInv;
    HandledOk(w, a);
    AdvanceIsFinish(w, a);
    ApplyGates(Handled(w, a).ls, a.env);
  }

  lemma HeldUpOwnStep(ws: seq<World>, acts: seq<Act>, i: nat)
    requires IsRun(ws, acts) && i < |acts| && (acts[i].Deliver? || acts[i].Poll?)
    requires HeldUp(ws[i].log, ws[i].peers[acts[i].p]) && !ReadsConf(ws[i], acts[i], acts[i].p)
    ensures NoNews(ws[i].peers[acts[i].p], Next(ws[i], acts[i]).peers[acts[i].p])
  {
    hide Inv, Next, Handled, Finish, Step, Leaves, NoNews, ReadsConf, NoOlderAlike;
    var w, a := ws[i], acts[i];
    RunInv(ws, acts, i);
    HandledNoNews(w, a);
    HeldUpSame(w.log, w.peers[a.p], Handled(w, a));
    OlderAlikeHolds(ws, acts, i);
    OutputOfStep(w, a);
    AppliedNoNews(Handled(w, a), a.p, a.env);
    NoNewsTwice(w.peers[a.p], Handled(w, a), Finish(Handled(w, a), a.p, a.env));
  }

  lemma HeldUpStep(ws: seq<World>, acts: seq<Act>, i: nat, p: nat)
    requires IsRun(ws, acts) && i < |acts| && p < |ws[i].peers|
    requires HeldUp(ws[i].log, ws[i].peers[p]) && !ReadsConf(ws[i], acts[i], p)
    ensures p < |ws[i + 1].peers| && HeldUp(ws[i + 1].log, ws[i + 1].peers[p]) && NoNews(ws[i].peers[p], ws[i + 1].peers[p])
  {
    hide Inv, HeldUp, ReadsConf, Advance, NextConf, Leaves, Stays;
    var w, a := ws[i], acts[i];
    assert Enabled(w, a) && ws[i + 1] == Next(w, a);
    if (a.Deliver? || a.Poll?) && a.p == p { HeldUpOwnStep(ws, acts, i); }
    HeldUpGrows(w.log, ws[i + 1].log, w.peers[p]);
    HeldUpSame(ws[i + 1].log, w.peers[p], ws[i + 1].peers[p]);
  }

  /** Once an older pending change looks like its current one, a node starts nothing,
      whatever it reads, until the next configuration change. */
  lemma {:induction false} HeldUpUntilReconfigured(ws: seq<World>, acts: seq<Act>, k: nat, j: nat, p: nat)
    requires IsRun(ws, acts) && k <= j <= |acts| && p < |ws[k].peers| && HeldUp(ws[k].log, ws[k].peers[p])
    requires forall i :: k <= i < j ==> !ReadsConf(ws[i], acts[i], p)
    ensures p < |ws[j].peers| && HeldUp(ws[j].log, ws[j].peers[p]) && NoNews(ws[k].peers[p], ws[j].peers[p])
    decreases j
  {
    hide HeldUp, NoNews, ReadsConf, Enabled, Next;
    if k == j {
      NoNewsSelf(ws[k].peers[p]);
    } else {
      HeldUpUntilReconfigured(ws, acts, k, j - 1, p);
      HeldUpStep(ws, acts, j - 1, p);
      NoNewsTwice(ws[k].peers[p], ws[j - 1].peers[p], ws[j].peers[p]);
    }
  }

  lemma NoNewsSelf(peer: Peer)
    ensures NoNews(peer, peer)
  {
  }
}
