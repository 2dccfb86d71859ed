/** Every step of the cluster keeps the barrier's invariant. */
module BarrierSteps {
  import opened Ranges
  import opened Membership
  import opened Gates
  import opened Cluster
  import opened Barrier

  // ---------- what one node's handlers do to its list of changes

  lemma {:induction false} JoinAllIds(j: Joining, joined: seq<int>, n: nat, our: int)
    requires n <= |joined|
    ensures var ms := JoinAll(j, joined, n, our).members;
            |ms| == |j.members| && forall i :: 0 <= i < |ms| ==> ms[i] == j.members[i].(added := ms[i].added)
  {
    hide MembIndex, HistoryInit;
    if n > 0 { JoinAllIds(j, joined, n - 1, our); }
  }

  lemma AddedChange(ls: Lockspace, cc: ConfChg, id: nat)
    requires forall x :: x in cc.joined ==> x in cc.members
    ensures var (after, ok) := AddChange(ls, cc, id);
            && ok && |after.changes| == |ls.changes| + 1 && after.changes[1..] == ls.changes
            && after.started == ls.started && after.our == ls.our
            && var cg := after.changes[0];
               && cg.id == id && Describes(cg, cc) && cg.phase == WaitConditions
               && forall i :: 0 <= i < |cg.members| ==> !cg.members[i].start && !cg.members[i].disallowed
  {
    hide JoinAll, HistoryRemoveAll, HistoryInitAll;
    AddChangeWorks(ls, cc, id);
    var h1 := HistoryRemoveAll(ls.history, cc.left, |cc.left|, ls.fencing, ls.quorum);
    var j0 := Joining(NewMembers(cc.members), h1, false, false);
    JoinAllIds(j0, cc.joined, |cc.joined|, ls.our);
    assert Ids(JoinAll(j0, cc.joined, |cc.joined|, ls.our).members) == cc.members;
  }

  /** Nothing but flags and phases differs. */
  predicate SameChange(a: Change, b: Change) {
    && a.id == b.id && Ids(a.members) == Ids(b.members) && a.memberCount == b.memberCount && a.joinedCount == b.joinedCount
    && a.removeCount == b.removeCount && a.failedCount == b.failedCount
  }

  predicate SameChanges(cs: seq<Change>, ds: seq<Change>) {
    |cs| == |ds| && forall k :: 0 <= k < |cs| ==> SameChange(cs[k], ds[k])
  }

  /** Of the current change, only the entry of `x` may have been marked started. */
  predicate OnlyMarks(cs: seq<Change>, ds: seq<Change>, x: int, matched: bool) {
    cs != [] && ds != [] ==>
      && ds[0].phase == cs[0].phase && |ds[0].members| == |cs[0].members|
      && forall i :: 0 <= i < |cs[0].members| && ds[0].members[i].start ==>
           cs[0].members[i].start || (matched && cs[0].members[i].nodeid == x)
  }

  lemma SetFlag(cs: seq<Change>, k: nat, i: nat, m: Member)
    requires k < |cs| && i < |cs[k].members| && m.nodeid == cs[k].members[i].nodeid
    ensures SameChanges(cs, SetMember(cs, k, i, m)) && OnlyMarks(cs, SetMember(cs, k, i, m), m.nodeid, k == 0)
  {
    var ms := cs[k].members;
    assert Ids(ms[i := m]) == Ids(ms);
  }

  lemma ReceivedChanges(ls: Lockspace, m: StartMsg, now: nat)
    ensures var after := ReceiveStart(ls, m, now);
            && SameChanges(ls.changes, after.changes) && after.started == ls.started && after.our == ls.our
            && OnlyMarks(ls.changes, after.changes, m.nodeid, FindChange(ls.changes, m, ls.our) == 0)
  {
    hide IsAdded, FindChange, SetMember;
    var k := FindChange(ls.changes, m, ls.our);
    if k < |ls.changes| {
      MatchedMember(ls.changes[k], m, ls.our);
      var i := MembIndex(ls.changes[k].members, m.nodeid);
      var x := ls.changes[k].members[i];
      SetFlag(ls.changes, k, i, x.(disallowed := true));
      SetFlag(ls.changes, k, i, x.(start := true));
    }
  }

  lemma MatchedMember(cg: Change, m: StartMsg, our: int)
    requires MatchChange(cg, m, our)
    ensures MembIndex(cg.members, m.nodeid) < |cg.members|
  {
  }

  lemma DescribesSame(a: Change, b: Change, cc: ConfChg)
    requires SameChange(a, b) && Describes(a, cc)
    ensures Describes(b, cc)
  {
  }

  /** The list stays what it should be when only flags and phases change. */
  lemma PendingSame(log: seq<Entry>, peer: Peer, peer1: Peer)
    requires peer.next <= peer1.next <= |log| && PendingOk(log, peer) && SameChanges(peer.ls.changes, peer1.ls.changes)
    requires peer1.ls.started == peer.ls.started && peer1.born == peer.born
    requires forall i :: peer.next <= i < peer1.next ==> !log[i].Conf?
    ensures PendingOk(log, peer1)
  {
    hide Describes;
    var cs, ds := peer.ls.changes, peer1.ls.changes;
    forall k | 0 <= k < |ds| ensures Floor(peer1) <= ds[k].id < peer1.next && ConfAt(log, ds[k]) {
      assert SameChange(cs[k], ds[k]) && ConfAt(log, cs[k]);
      DescribesSame(cs[k], ds[k], log[cs[k].id].cc);
    }
    forall i | Floor(peer1) <= i < peer1.next && log[i].Conf? ensures Pends(ds, i) {
      assert Pends(cs, i);
      var k :| 0 <= k < |cs| && cs[k].id == i;
      assert SameChange(cs[k], ds[k]);
    }
    forall k, m | 0 <= k < m < |ds| ensures ds[m].id < ds[k].id {
      assert SameChange(cs[k], ds[k]) && SameChange(cs[m], ds[m]);
    }
  }

  // ---------- one node delivers a configuration change

  lemma PendingPushed(log: seq<Entry>, peer: Peer, peer1: Peer)
    requires peer.next < |log| && log[peer.next].Conf? && PendingOk(log, peer) && Floor(peer) <= peer.next
    requires peer1.next == peer.next + 1 && peer1.born == peer.born && peer1.ls.started == peer.ls.started
    requires peer1.ls.changes != [] && peer1.ls.changes[1..] == peer.ls.changes
    requires peer1.ls.changes[0].id == peer.next && Describes(peer1.ls.changes[0], log[peer.next].cc)
    ensures PendingOk(log, peer1)
  {
    hide Describes;
    var cs, ds := peer.ls.changes, peer1.ls.changes;
    assert forall k :: 0 < k < |ds| ==> ds[k] == cs[k - 1];
    forall i | Floor(peer1) <= i < peer1.next && log[i].Conf? ensures Pends(ds, i) {
      if i == peer.next {
        assert ds[0].id == i;
      } else {
        assert Pends(cs, i);
        var k :| 0 <= k < |cs| && cs[k].id == i;
        assert ds[k + 1].id == i;
      }
    }
  }

  lemma HasMsgLonger(log: seq<Entry>, n: nat, m: nat, about: nat, x: int)
    requires n <= m <= |log| && HasMsg(log, n, about, x)
    ensures HasMsg(log, m, about, x)
  {
  }

  lemma DeliverConf(log: seq<Entry>, peer: Peer, env: Env)
    requires LocalOk(log, peer) && LogOk(log) && peer.next < |log| && log[peer.next].Conf?
    requires peer.next == peer.born || !Leaves(log[peer.next], peer.nodeid)
    ensures var ev := EventOf(log[peer.next], peer.next, env);
            var peer1 := peer.(ls := Handle(peer.ls, ev).0, next := peer.next + 1);
            && WellFormedChange(ev) && LocalOk(log, peer1) && (EvidenceOk(log, peer) ==> EvidenceOk(log, peer1))
            && peer1.ls.changes != [] && peer1.ls.changes[0].id == peer.next && peer1.ls.changes[0].phase == WaitConditions
  {
    hide AddChange, GateInv, Describes, HasMsg;
    var cc := log[peer.next].cc;
    var ev := EventOf(log[peer.next], peer.next, env);
    assert NextConf(MembersAt(log, peer.next), cc);
    AddedChange(peer.ls, cc, peer.next);
    HandleGates(peer.ls, ev);
    var peer1 := peer.(ls := Handle(peer.ls, ev).0, next := peer.next + 1);
    PendingPushed(log, peer, peer1);
    if EvidenceOk(log, peer) && peer.ls.started.Some? {
      var s := peer.ls.started.value;
      forall i | 0 <= i < |s.members| ensures HasMsg(log, peer1.next, s.id, s.members[i].nodeid) {
        HasMsgLonger(log, peer.next, peer1.next, s.id, s.members[i].nodeid);
      }
    }
  }

  // ---------- one node delivers a start message

  /** If the next entry is credited to the current change, it is about that change. */
  predicate CreditRight(log: seq<Entry>, peer: Peer)
    requires peer.next < |log| && log[peer.next].Msg?
  {
    peer.ls.changes != [] && FindChange(peer.ls.changes, log[peer.next].msg, peer.ls.our) == 0 ==>
      log[peer.next].about == peer.ls.changes[0].id
  }

  lemma DeliverMsg(log: seq<Entry>, peer: Peer, env: Env)
    requires LocalOk(log, peer) && peer.next < |log| && log[peer.next].Msg?
    ensures var ev := EventOf(log[peer.next], peer.next, env);
            var peer1 := peer.(ls := Handle(peer.ls, ev).0, next := peer.next + 1);
            && WellFormedChange(ev) && LocalOk(log, peer1)
            && (EvidenceOk(log, peer) && CreditRight(log, peer) ==> EvidenceOk(log, peer1))
            && SameChanges(peer.ls.changes, peer1.ls.changes)
            && (peer.ls.changes != [] ==> peer1.ls.changes[0].phase == peer.ls.changes[0].phase)
  {
    hide ReceiveStart, GateInv, Describes, HasMsg, FindChange, SameChange, PendingOk, OnlyMarks, EvidenceOk;
    var m := log[peer.next].msg;
    var ev := EventOf(log[peer.next], peer.next, env);
    ReceivedChanges(peer.ls, m, env.now);
    HandleGates(peer.ls, ev);
    var peer1 := peer.(ls := Handle(peer.ls, ev).0, next := peer.next + 1);
    PendingSame(log, peer, peer1);
    MarkedPhase(peer.ls.changes, peer1.ls.changes, m.nodeid, FindChange(peer.ls.changes, m, peer.ls.our) == 0);
    if EvidenceOk(log, peer) && CreditRight(log, peer) {
      EvidenceAfterMsg(log, peer, peer1, FindChange(peer.ls.changes, m, peer.ls.our) == 0);
    }
  }

  lemma MarkedPhase(cs: seq<Change>, ds: seq<Change>, x: int, matched: bool)
    requires OnlyMarks(cs, ds, x, matched)
    ensures cs != [] && ds != [] ==> ds[0].phase == cs[0].phase
  {
  }

  lemma EvidenceAfterMsg(log: seq<Entry>, peer: Peer, peer1: Peer, matched: bool)
    requires peer.next < |log| && log[peer.next].Msg? && EvidenceOk(log, peer) && peer1.next == peer.next + 1
    requires SameChanges(peer.ls.changes, peer1.ls.changes) && peer1.ls.started == peer.ls.started
    requires OnlyMarks(peer.ls.changes, peer1.ls.changes, log[peer.next].msg.nodeid, matched)
    requires peer.ls.changes != [] && matched ==> log[peer.next].about == peer.ls.changes[0].id
    ensures EvidenceOk(log, peer1)
  {
    hide HasMsg;
    if peer.ls.started.Some? {
      var s := peer.ls.started.value;
      forall i | 0 <= i < |s.members| ensures HasMsg(log, peer1.next, s.id, s.members[i].nodeid) {
        HasMsgLonger(log, peer.next, peer1.next, s.id, s.members[i].nodeid);
      }
    }
    if peer.ls.changes != [] {
      var cg, cg1 := peer.ls.changes[0], peer1.ls.changes[0];
      assert SameChange(cg, cg1);
      forall i | 0 <= i < |cg1.members| && cg1.members[i].start ensures HasMsg(log, peer1.next, cg1.id, cg1.members[i].nodeid) {
        assert Ids(cg.members)[i] == Ids(cg1.members)[i];
        if cg.members[i].start {
          HasMsgLonger(log, peer.next, peer1.next, cg.id, cg.members[i].nodeid);
        } else {
          JustRead(log, peer.next, cg.id, cg.members[i].nodeid);
        }
      }
    }
  }

  lemma JustRead(log: seq<Entry>, n: nat, about: nat, x: int)
    requires n < |log| && IsMsg(log[n], about, x)
    ensures HasMsg(log, n + 1, about, x)
  {
  }

  // ---------- one node looks at its pending changes

  /** The list after apply_changes: untouched but for a phase, or started and cleared. */
  lemma AppliedChanges(ls: Lockspace, env: Env)
    ensures var (after, out) := ApplyChanges(ls, env);
            && after.our == ls.our
            && (out.Nothing? ==> after.changes == ls.changes && after.started == ls.started)
            && (out.SendStart? ==>
                  && ls.changes != [] && ls.changes[0].phase == WaitConditions && after.started == ls.started
                  && after.changes == ls.changes[0 := ls.changes[0].(phase := WaitMessages)]
                  && out.msg == StartInfo(ls, ls.changes[0]))
            && (out.StartKernel? || out.StartError? ==>
                  && ls.changes != [] && AllStarted(ls.changes[0].members)
                  && after.changes == [] && after.started == Some(ls.changes[0]))
  {
    hide WaitConditionsDone;
  }

  lemma ApplyLocal(log: seq<Entry>, peer: Peer, env: Env)
    requires LocalOk(log, peer)
    ensures var peer1 := peer.(ls := ApplyChanges(peer.ls, env).0);
            LocalOk(log, peer1) && (EvidenceOk(log, peer) ==> EvidenceOk(log, peer1))
  {
    hide ApplyChanges, GateInv, Describes, HasMsg;
    var (after, out) := ApplyChanges(peer.ls, env);
    var peer1 := peer.(ls := after);
    AppliedChanges(peer.ls, env);
    ApplyGates(peer.ls, env);
    if out.SendStart? {
      assert SameChanges(peer.ls.changes, after.changes);
      PendingSame(log, peer, peer1);
    } else if !out.Nothing? {
      NothingPends(log, peer, peer1);
    }
  }

  lemma NothingPends(log: seq<Entry>, peer: Peer, peer1: Peer)
    requires LocalOk(log, peer) && peer.ls.changes != [] && peer1.next == peer.next && peer1.ls.changes == []
    requires peer1.ls.started == Some(peer.ls.changes[0])
    ensures PendingOk(log, peer1)
  {
    hide Describes, GateInv;
    var cs := peer.ls.changes;
    assert forall k :: 0 < k < |cs| ==> cs[k].id < cs[0].id;
    forall i | cs[0].id < i < peer.next ensures !log[i].Conf? {
      assert !Pends(cs, i);
    }
  }

  // ---------- a step of one node, seen by the cluster

  /** The node after its event, before it looks at its pending changes. */
  function Handled(w: World, a: Act): Peer
    requires a.Deliver? || a.Poll?
    requires a.p < |w.peers| && (a.Deliver? ==> w.peers[a.p].next < |w.log|)
  {
    var peer := w.peers[a.p];
    peer.(ls := Handle(peer.ls, LocalEvent(w, a)).0, next := peer.next + if a.Deliver? then 1 else 0)
  }

  /** All that `p` has sent so far is about changes before `c`. */
  ghost predicate AllBefore(log: seq<Entry>, p: nat, outbox: seq<Entry>, c: nat) {
    && (forall i :: 0 <= i < |log| && log[i].Msg? && log[i].peer == p ==> log[i].about < c)
    && (forall k :: 0 <= k < |outbox| && outbox[k].Msg? ==> outbox[k].about < c)
  }

  lemma SentBeforeNext(w: World, p: nat)
    requires Inv(w) && p < |w.peers|
    ensures AllBefore(w.log, p, w.peers[p].outbox, w.peers[p].next)
  {
    hide LocalOk, QuietOk;
    assert PeerOk(w.log, w.peers, p);
    forall i | 0 <= i < |w.log| && w.log[i].Msg? && w.log[i].peer == p ensures w.log[i].about < w.peers[p].next {
      assert MsgOk(w.log, w.peers, w.log[i]);
    }
  }

  /** The step does not read a stale message. */
  ghost predicate ReadsFresh(w: World, a: Act)
    requires a.Deliver? || a.Poll?
    requires a.p < |w.peers| && (a.Deliver? ==> w.peers[a.p].next < |w.log|)
  {
    a.Deliver? ==> !Stale(w.log, w.peers[a.p].nodeid, w.peers[a.p].born, w.peers[a.p].next)
  }

  lemma HandledOk(w: World, a: Act)
    requires Inv(w) && Enabled(w, a) && (a.Deliver? || a.Poll?)
    ensures var mid := Handled(w, a);
            && Handle(w.peers[a.p].ls, LocalEvent(w, a)).1 && LocalOk(w.log, mid)
            && (EvidenceOk(w.log, w.peers[a.p]) && ReadsFresh(w, a) ==> EvidenceOk(w.log, mid))
            && (mid.ls.changes != [] && mid.ls.changes[0].phase == WaitConditions ==>
                  AllBefore(w.log, a.p, mid.outbox, mid.ls.changes[0].id))
  {
    hide Handle, LocalOk, EvidenceOk, OutboxOk, LogOk, LogMsgsOk, LogOrder, PeersDistinct, Stale, SameChange;
    var peer := w.peers[a.p];
    assert PeerOk(w.log, w.peers, a.p);
    LocalParts(w.log, peer);
    if a.Poll? {
      NothingHandled(peer.ls, a.env);
    } else if w.log[peer.next].Conf? {
      DeliverConf(w.log, peer, a.env);
      HandleGates(peer.ls, LocalEvent(w, a));
      SentBeforeNext(w, a.p);
    } else {
      if EvidenceOk(w.log, peer) && peer.ls.changes != [] &&
         FindChange(peer.ls.changes, w.log[peer.next].msg, peer.ls.our) == 0 {
        MatchIsExact(w, a.p);
      }
      DeliverMsg(w.log, peer, a.env);
      HandleGates(peer.ls, LocalEvent(w, a));
      SameHead(peer.ls.changes, Handled(w, a).ls.changes);
    }
  }

  lemma LocalParts(log: seq<Entry>, peer: Peer)
    requires LocalOk(log, peer)
    ensures peer.next <= |log| && GateInv(peer.ls) && peer.ls.our == peer.nodeid
  {
  }

  lemma NothingHandled(ls: Lockspace, env: Env)
    ensures Handle(ls, Tick(env)) == (ls, true)
  {
  }

  lemma SameHead(cs: seq<Change>, ds: seq<Change>)
    requires SameChanges(cs, ds)
    ensures |cs| == |ds| && (cs != [] ==> ds[0].id == cs[0].id)
  {
    if cs != [] { assert SameChange(cs[0], ds[0]); }
  }

  /** A start message as its sender makes it: about its current change, newer than
      all it sent before. */
  ghost predicate NewMsgOk(log: seq<Entry>, peer: Peer, p: nat, e: Entry) {
    && e.Msg? && e.peer == p && e.msg.nodeid == peer.nodeid && peer.born <= e.about < peer.next <= |log|
    && log[e.about].Conf? && Content(e.msg, log[e.about].cc) && AllBefore(log, p, peer.outbox, e.about)
  }

  ghost predicate QuietPeer(log: seq<Entry>, peer: Peer, p: nat) {
    peer.ls.changes != [] && peer.ls.changes[0].phase == WaitConditions ==>
      AllBefore(log, p, peer.outbox, peer.ls.changes[0].id)
  }

  /** From the handled event to the end of the step. */
  function Finish(mid: Peer, p: nat, env: Env): Peer {
    var (ls, out) := ApplyChanges(mid.ls, env);
    mid.(ls := ls, outbox := mid.outbox + if out.SendStart? && ls.changes != [] then [Msg(p, ls.changes[0].id, out.msg)] else [])
  }

  lemma FinishOk(log: seq<Entry>, mid: Peer, p: nat, env: Env)
    requires LocalOk(log, mid) && QuietPeer(log, mid, p)
    ensures var peer1 := Finish(mid, p, env);
            && LocalOk(log, peer1) && (EvidenceOk(log, mid) ==> EvidenceOk(log, peer1)) && QuietPeer(log, peer1, p)
            && (peer1.outbox == mid.outbox ||
                (|peer1.outbox| == |mid.outbox| + 1 && peer1.outbox[..|mid.outbox|] == mid.outbox &&
                 NewMsgOk(log, mid, p, peer1.outbox[|mid.outbox|])))
  {
    hide ApplyChanges, GateInv, HasMsg, AllBefore, Describes;
    ApplyLocal(log, mid, env);
    AppliedChanges(mid.ls, env);
    var (ls, out) := ApplyChanges(mid.ls, env);
    var peer1 := Finish(mid, p, env);
    if out.SendStart? {
      var cg := mid.ls.changes[0];
      assert Floor(mid) <= cg.id < mid.next && ConfAt(log, cg);
      SentContent(mid.ls, cg, log[cg.id].cc);
      assert peer1.outbox == mid.outbox + [Msg(p, cg.id, out.msg)];
    } else {
      assert peer1.outbox == mid.outbox;
    }
  }

  lemma SentContent(ls: Lockspace, cg: Change, cc: ConfChg)
    requires Describes(cg, cc)
    ensures Content(StartInfo(ls, cg), cc)
  {
  }

  lemma AdvanceIsFinish(w: World, a: Act)
    requires Enabled(w, a) && (a.Deliver? || a.Poll?) && Handle(w.peers[a.p].ls, LocalEvent(w, a)).1
    ensures Advance(w.peers[a.p], a.p, LocalEvent(w, a), if a.Deliver? then 1 else 0) == Finish(Handled(w, a), a.p, a.env)
  {
    hide Handle, ApplyChanges, Leaves;
  }

  // ---------- the other nodes and the log

  /** Identities are fixed and positions only advance. */
  predicate Continues(ps: seq<Peer>, qs: seq<Peer>) {
    && |ps| <= |qs|
    && forall p :: 0 <= p < |ps| ==> ps[p].nodeid == qs[p].nodeid && ps[p].born == qs[p].born && ps[p].next <= qs[p].next
  }

  lemma MsgContinues(log: seq<Entry>, log1: seq<Entry>, ps: seq<Peer>, qs: seq<Peer>, e: Entry)
    requires MsgOk(log, ps, e) && Continues(ps, qs) && log <= log1 && qs[e.peer].next <= |log1|
    ensures MsgOk(log1, qs, e)
  {
  }

  lemma LogMsgsContinue(w: World, qs: seq<Peer>)
    requires Inv(w) && Continues(w.peers, qs) && forall q :: 0 <= q < |qs| ==> qs[q].next <= |w.log|
    ensures LogMsgsOk(w.log, qs)
  {
    hide PeerOk, Content;
    forall k | 0 <= k < |w.log| && w.log[k].Msg?
      ensures MsgOk(w.log, qs, w.log[k]) && w.log[k].about < k &&
              Stays(w.log, qs[w.log[k].peer].nodeid, qs[w.log[k].peer].born, k)
    {
      assert MsgOk(w.log, w.peers, w.log[k]);
      MsgContinues(w.log, w.log, w.peers, qs, w.log[k]);
    }
  }

  /** A node whose own record is unchanged is not disturbed. */
  lemma BystanderOk(w: World, qs: seq<Peer>, q: nat)
    requires Inv(w) && Continues(w.peers, qs) && (forall q :: 0 <= q < |qs| ==> qs[q].next <= |w.log|)
    requires q < |w.peers| && qs[q] == w.peers[q]
    ensures PeerOk(w.log, qs, q)
  {
    hide LocalOk, OutboxOk;
    assert PeerOk(w.log, w.peers, q);
    OutboxSame(w, qs, q);
  }

  /** The outbox of a node that has sent one more message. */
  lemma OutboxMore(w: World, qs: seq<Peer>, p: nat, e: Entry)
    requires Inv(w) && p < |w.peers| && Continues(w.peers, qs) && (forall q :: 0 <= q < |qs| ==> qs[q].next <= |w.log|)
    requires NewMsgOk(w.log, qs[p].(outbox := w.peers[p].outbox), p, e) && qs[p].outbox == w.peers[p].outbox + [e]
    ensures OutboxOk(w.log, qs, p)
  {
    hide LocalOk, Content, QuietOk;
    var box, box1 := w.peers[p].outbox, qs[p].outbox;
    assert PeerOk(w.log, w.peers, p);
    forall k | 0 <= k < |box1| ensures MsgOk(w.log, qs, box1[k]) && box1[k].peer == p {
      if k < |box| {
        MsgContinues(w.log, w.log, w.peers, qs, box[k]);
      }
    }
  }

  lemma OutboxSame(w: World, qs: seq<Peer>, p: nat)
    requires Inv(w) && p < |w.peers| && Continues(w.peers, qs) && (forall q :: 0 <= q < |qs| ==> qs[q].next <= |w.log|)
    requires qs[p].outbox == w.peers[p].outbox
    ensures OutboxOk(w.log, qs, p)
  {
    hide LocalOk, Content, QuietOk;
    var box := w.peers[p].outbox;
    assert PeerOk(w.log, w.peers, p);
    forall k | 0 <= k < |box| ensures MsgOk(w.log, qs, box[k]) && box[k].peer == p {
      MsgContinues(w.log, w.log, w.peers, qs, box[k]);
    }
  }

  lemma QuietIs(log: seq<Entry>, peers: seq<Peer>, p: nat)
    requires p < |peers| && QuietPeer(log, peers[p], p)
    ensures QuietOk(log, peers, p)
  {
  }

  /** One node's record is replaced by what its step made of it. */
  lemma ReplaceKeepsInv(w: World, p: nat, peer1: Peer)
    requires Inv(w) && p < |w.peers| && LocalOk(w.log, peer1) && QuietPeer(w.log, peer1, p)
    requires peer1.nodeid == w.peers[p].nodeid && peer1.born == w.peers[p].born && w.peers[p].next <= peer1.next
    requires
      var box, box1 := w.peers[p].outbox, peer1.outbox;
      box1 == box || (|box1| == |box| + 1 && box1[..|box|] == box && NewMsgOk(w.log, peer1.(outbox := box), p, box1[|box|]))
    ensures Inv(w.(peers := w.peers[p := peer1]))
  {
    hide LocalOk, QuietPeer, NewMsgOk, LogOk, LogMsgsOk, LogOrder, OutboxOk, QuietOk;
    var qs := w.peers[p := peer1];
    forall q | 0 <= q < |qs| ensures qs[q].next <= |w.log| {
      if q != p { assert PeerOk(w.log, w.peers, q); }
      LocalParts(w.log, qs[q]);
    }
    LogMsgsContinue(w, qs);
    QuietIs(w.log, qs, p);
    var box, box1 := w.peers[p].outbox, peer1.outbox;
    if box1 == box {
      OutboxSame(w, qs, p);
    } else {
      assert box1 == box + [box1[|box|]];
      OutboxMore(w, qs, p, box1[|box|]);
    }
    forall q | 0 <= q < |qs| ensures PeerOk(w.log, qs, q) {
      if q != p { BystanderOk(w, qs, q); }
    }
  }

  lemma NodeStepKeepsInv(w: World, a: Act)
    requires Inv(w) && Enabled(w, a) && (a.Deliver? || a.Poll?)
    ensures Inv(Next(w, a))
    ensures w.peers[a.p].next <= |w.log| && Next(w, a).peers[a.p].next <= |w.log|
    ensures EvidenceOk(w.log, w.peers[a.p]) && ReadsFresh(w, a) ==> EvidenceOk(w.log, Next(w, a).peers[a.p])
  {
    hide Inv, Handle, Finish, LocalOk, EvidenceOk, NewMsgOk, ReadsFresh, Advance, AllBefore, Leaves;
    InvNext(w, a.p);
    HandledOk(w, a);
    var mid := Handled(w, a);
    FinishOk(w.log, mid, a.p, a.env);
    AdvanceIsFinish(w, a);
    var peer1 := Finish(mid, a.p, a.env);
    FinishIdentity(mid, a.p, a.env);
    NewMsgSame(w.log, mid, peer1, a.p);
    ReplaceKeepsInv(w, a.p, peer1);
    LocalBorn(w.log, peer1);
  }

  lemma InvNext(w: World, p: nat)
    requires Inv(w) && p < |w.peers|
    ensures w.peers[p].born < |w.log| && w.peers[p].born <= w.peers[p].next <= |w.log|
  {
    hide OutboxOk, QuietOk, PendingOk, GateInv;
    assert PeerOk(w.log, w.peers, p);
  }

  lemma FinishIdentity(mid: Peer, p: nat, env: Env)
    ensures var peer1 := Finish(mid, p, env); peer1.nodeid == mid.nodeid && peer1.born == mid.born && peer1.next == mid.next
  {
    hide ApplyChanges;
  }

  lemma NewMsgSame(log: seq<Entry>, mid: Peer, peer1: Peer, p: nat)
    requires peer1.nodeid == mid.nodeid && peer1.born == mid.born && peer1.next == mid.next
    ensures forall e :: NewMsgOk(log, mid, p, e) ==> NewMsgOk(log, peer1.(outbox := mid.outbox), p, e)
  {
  }

  // ---------- the log grows

  lemma StaysGrow(log: seq<Entry>, e: Entry, x: int, born: nat, n: nat)
    requires n <= |log|
    ensures Stays(log + [e], x, born, n) <==> Stays(log, x, born, n)
  {
    var all := log + [e];
    assert forall i :: 0 <= i < |log| ==> all[i] == log[i];
  }

  lemma LocalGrow(log: seq<Entry>, e: Entry, peer: Peer)
    requires LocalOk(log, peer)
    ensures LocalOk(log + [e], peer) && (EvidenceOk(log, peer) ==> EvidenceOk(log + [e], peer))
  {
    hide GateInv, Describes, HasMsg, Stays;
    var all := log + [e];
    StaysGrow(log, e, peer.nodeid, peer.born, peer.next);
    forall about, x | HasMsg(log, peer.next, about, x) ensures HasMsg(all, peer.next, about, x) {
      HasMsgGrow(log, e, peer.next, about, x);
    }
  }

  lemma HasMsgGrow(log: seq<Entry>, e: Entry, n: nat, about: nat, x: int)
    requires n <= |log| && HasMsg(log, n, about, x)
    ensures HasMsg(log + [e], n, about, x)
  {
    var k :| 0 <= k < n && IsMsg(log[k], about, x);
    assert (log + [e])[k] == log[k];
  }

  lemma LogMsgsGrow(w: World, e: Entry, qs: seq<Peer>)
    requires Inv(w) && Continues(w.peers, qs) && forall q :: 0 <= q < |qs| ==> qs[q].next <= |w.log| + 1
    requires e.Msg? ==> MsgOk(w.log + [e], qs, e) && e.about < |w.log| &&
                        Stays(w.log, qs[e.peer].nodeid, qs[e.peer].born, |w.log|)
    ensures LogMsgsOk(w.log + [e], qs)
  {
    hide PeerOk, Content, Stays;
    var all := w.log + [e];
    forall k | 0 <= k < |all| && all[k].Msg?
      ensures MsgOk(all, qs, all[k]) && all[k].about < k && Stays(all, qs[all[k].peer].nodeid, qs[all[k].peer].born, k)
    {
      if k < |w.log| {
        assert MsgOk(w.log, w.peers, w.log[k]);
        MsgContinues(w.log, all, w.peers, qs, w.log[k]);
      }
      StaysGrow(w.log, e, qs[all[k].peer].nodeid, qs[all[k].peer].born, k);
    }
  }

  /** The log grows by a configuration change. */
  lemma ReconfigureKeepsInv(w: World, cc: ConfChg, newcomers: seq<Lockspace>)
    requires Inv(w) && Enabled(w, Reconfigure(cc, newcomers))
    ensures Inv(Next(w, Reconfigure(cc, newcomers)))
  {
    hide LocalOk, LogOk, LogMsgsOk, OutboxOk, QuietOk, NextConf;
    var e, all := Conf(cc), w.log + [Conf(cc)];
    var qs := w.peers + NewPeers(cc.joined, newcomers, |w.log|);
    LogGrow(w.log, e);
    forall q | 0 <= q < |w.peers| ensures w.peers[q].next <= |w.log| && w.peers[q].born < |w.log| {
      assert PeerOk(w.log, w.peers, q);
      LocalBorn(w.log, w.peers[q]);
    }
    LogMsgsGrow(w, e, qs);
    JoinedDistinct(MembersAt(w.log, |w.log|), cc);
    assert PeersDistinct(qs);
    forall q | 0 <= q < |qs| ensures PeerOk(all, qs, q) {
      if q < |w.peers| {
        assert PeerOk(w.log, w.peers, q);
        LocalGrow(w.log, e, w.peers[q]);
        BystanderGrow(w, e, qs, q);
      } else {
        NewcomerOk(all, qs, q, cc);
      }
    }
  }

  lemma JoinedDistinct(now: set<int>, cc: ConfChg)
    requires NextConf(now, cc)
    ensures DistinctIds(cc.joined)
  {
  }

  lemma LocalBorn(log: seq<Entry>, peer: Peer)
    requires LocalOk(log, peer)
    ensures peer.born < |log| && peer.next <= |log|
  {
  }

  lemma BystanderGrow(w: World, e: Entry, qs: seq<Peer>, q: nat)
    requires Inv(w) && Continues(w.peers, qs) && q < |w.peers| && qs[q] == w.peers[q] && e.Conf?
    requires forall q :: 0 <= q < |qs| ==> qs[q].next <= |w.log| + 1
    ensures OutboxOk(w.log + [e], qs, q) && QuietOk(w.log + [e], qs, q)
  {
    hide LocalOk, Content;
    var all, box := w.log + [e], qs[q].outbox;
    assert PeerOk(w.log, w.peers, q);
    assert forall i :: 0 <= i < |all| && all[i].Msg? ==> i < |w.log| && all[i] == w.log[i];
    forall k | 0 <= k < |box| ensures MsgOk(all, qs, box[k]) && box[k].peer == q {
      MsgContinues(w.log, all, w.peers, qs, box[k]);
    }
  }

  lemma NewcomerOk(log: seq<Entry>, qs: seq<Peer>, q: nat, cc: ConfChg)
    requires q < |qs| && log != [] && log[|log| - 1] == Conf(cc) && qs[q].outbox == []
    requires qs[q].born == qs[q].next == |log| - 1 && qs[q].nodeid in cc.joined && Initial(qs[q].ls) && qs[q].ls.our == qs[q].nodeid
    ensures PeerOk(log, qs, q)
  {
  }

  /** The log grows by the oldest message of an outbox. */
  lemma FlushKeepsInv(w: World, p: nat)
    requires Inv(w) && Enabled(w, Flush(p))
    ensures Inv(Next(w, Flush(p)))
  {
    hide LocalOk, LogOk, LogMsgsOk, OutboxOk, QuietOk, MsgOk, Stays;
    var e, all := w.peers[p].outbox[0], w.log + [w.peers[p].outbox[0]];
    var qs := w.peers[p := w.peers[p].(outbox := w.peers[p].outbox[1..])];
    forall q | 0 <= q < |w.peers| ensures w.peers[q].next <= |w.log| {
      assert PeerOk(w.log, w.peers, q);
      LocalBorn(w.log, w.peers[q]);
    }
    FlushedMsg(w, p, qs);
    LogGrow(w.log, e);
    LogMsgsGrow(w, e, qs);
    forall q | 0 <= q < |qs| ensures PeerOk(all, qs, q) {
      assert PeerOk(w.log, w.peers, q);
      LocalGrow(w.log, e, w.peers[q]);
      if q == p {
        SameLocal(all, w.peers[p], qs[p]);
        FlushedOutbox(w, p, qs);
      } else {
        FlushBystander(w, p, qs, q);
      }
    }
  }

  lemma SameLocal(log: seq<Entry>, peer: Peer, peer1: Peer)
    requires LocalOk(log, peer) && peer1 == peer.(outbox := peer1.outbox)
    ensures LocalOk(log, peer1) && (EvidenceOk(log, peer) ==> EvidenceOk(log, peer1))
  {
    hide GateInv, HasMsg, Describes;
  }

  lemma FlushedMsg(w: World, p: nat, qs: seq<Peer>)
    requires Inv(w) && p < |w.peers| && w.peers[p].outbox != [] && w.peers[p].next <= |w.log|
    requires qs == w.peers[p := w.peers[p].(outbox := w.peers[p].outbox[1..])]
    ensures var e := w.peers[p].outbox[0];
            && e.Msg? && e.peer == p && MsgOk(w.log + [e], qs, e) && e.about < |w.log| && LogOrder(w.log + [e])
  {
    hide LocalOk, QuietOk, Content;
    var e := w.peers[p].outbox[0];
    assert PeerOk(w.log, w.peers, p);
    assert MsgOk(w.log, w.peers, e);
    MsgContinues(w.log, w.log + [e], w.peers, qs, e);
  }

  lemma FlushedOutbox(w: World, p: nat, qs: seq<Peer>)
    requires Inv(w) && p < |w.peers| && w.peers[p].outbox != []
    requires qs == w.peers[p := w.peers[p].(outbox := w.peers[p].outbox[1..])]
    requires forall q :: 0 <= q < |qs| ==> qs[q].next <= |w.log|
    ensures var e := w.peers[p].outbox[0]; OutboxOk(w.log + [e], qs, p) && QuietOk(w.log + [e], qs, p)
  {
    hide LocalOk, Content;
    var e, box, box1 := w.peers[p].outbox[0], w.peers[p].outbox, qs[p].outbox;
    var all := w.log + [e];
    assert PeerOk(w.log, w.peers, p);
    assert forall k :: 0 <= k < |box1| ==> box1[k] == box[k + 1];
    forall k | 0 <= k < |box1| ensures MsgOk(all, qs, box1[k]) && box1[k].peer == p {
      MsgContinues(w.log, all, w.peers, qs, box[k + 1]);
    }
  }

  lemma FlushBystander(w: World, p: nat, qs: seq<Peer>, q: nat)
    requires Inv(w) && p < |w.peers| && q < |w.peers| && q != p && w.peers[p].outbox != []
    requires qs == w.peers[p := w.peers[p].(outbox := w.peers[p].outbox[1..])]
    requires w.peers[p].outbox[0].Msg? && w.peers[p].outbox[0].peer == p && forall q :: 0 <= q < |qs| ==> qs[q].next <= |w.log|
    ensures var e := w.peers[p].outbox[0]; OutboxOk(w.log + [e], qs, q) && QuietOk(w.log + [e], qs, q)
  {
    hide LocalOk, Content;
    var e, box := w.peers[p].outbox[0], qs[q].outbox;
    var all := w.log + [e];
    assert PeerOk(w.log, w.peers, q);
    forall k | 0 <= k < |box| ensures MsgOk(all, qs, box[k]) && box[k].peer == q {
      MsgContinues(w.log, all, w.peers, qs, box[k]);
    }
  }
}
