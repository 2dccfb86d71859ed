/**
 The start barrier: what every step of the cluster keeps, so that a node that
 starts its kernel for a change knows all members stood at that very change.
 */
module Barrier {
  import opened Membership
  import opened Gates
  import opened Cluster

  // ---------- the invariant

  predicate Describes(cg: Change, cc: ConfChg) {
    && Ids(cg.members) == cc.members && cg.memberCount == |cc.members| && cg.joinedCount == |cc.joined|
    && cg.removeCount == |cc.left| && cg.failedCount == FailedCount(cc.left, |cc.left|)
  }

  predicate ConfAt(log: seq<Entry>, cg: Change) {
    cg.id < |log| && log[cg.id].Conf? && Describes(cg, log[cg.id].cc)
  }

  /** Changes below this position are done with. */
  function Floor(peer: Peer): nat {
    if peer.ls.started.Some? then peer.ls.started.value.id + 1 else peer.born
  }

  ghost predicate Pends(changes: seq<Change>, i: nat) {
    exists k :: 0 <= k < |changes| && changes[k].id == i
  }

  /** The pending changes are those delivered since the last start, newest first. */
  ghost predicate PendingOk(log: seq<Entry>, peer: Peer)
    requires peer.next <= |log|
  {
    var cs := peer.ls.changes;
    && (forall k :: 0 <= k < |cs| ==> Floor(peer) <= cs[k].id < peer.next && ConfAt(log, cs[k]))
    && (forall k, m :: 0 <= k < m < |cs| ==> cs[m].id < cs[k].id)
    && (forall i :: Floor(peer) <= i < peer.next && log[i].Conf? ==> Pends(cs, i))
  }

  ghost predicate LocalOk(log: seq<Entry>, peer: Peer) {
    && peer.born < |log| && log[peer.born].Conf? && peer.nodeid in log[peer.born].cc.joined
    && peer.born <= peer.next <= |log| && peer.ls.our == peer.nodeid
    && Stays(log, peer.nodeid, peer.born, peer.next)
    && GateInv(peer.ls) && PendingOk(log, peer)
    && (peer.ls.started.Some? ==>
          peer.born <= peer.ls.started.value.id < peer.next && ConfAt(log, peer.ls.started.value))
  }

  predicate IsMsg(e: Entry, about: nat, x: int) {
    e.Msg? && e.about == about && e.msg.nodeid == x
  }

  /** A start message of `x` for change `about` is among the first `n` entries. */
  ghost predicate HasMsg(log: seq<Entry>, n: nat, about: nat, x: int)
    requires n <= |log|
  {
    exists k :: 0 <= k < n && IsMsg(log[k], about, x)
  }

  /** Every start flag of the current change, and every member of the started one,
      goes back to a message sent for that very change. */
  ghost predicate EvidenceOk(log: seq<Entry>, peer: Peer)
    requires peer.next <= |log|
  {
    && (peer.ls.changes != [] ==>
          var cg := peer.ls.changes[0];
          forall i :: 0 <= i < |cg.members| && cg.members[i].start ==> HasMsg(log, peer.next, cg.id, cg.members[i].nodeid))
    && (peer.ls.started.Some? ==>
          var cg := peer.ls.started.value;
          forall i :: 0 <= i < |cg.members| ==> HasMsg(log, peer.next, cg.id, cg.members[i].nodeid))
  }

  predicate Content(m: StartMsg, cc: ConfChg) {
    && m.ids == cc.members && m.memberCount == |cc.members| && m.joinedCount == |cc.joined|
    && m.removeCount == |cc.left| && m.failedCount == FailedCount(cc.left, |cc.left|)
  }

  ghost predicate MsgOk(log: seq<Entry>, peers: seq<Peer>, e: Entry) {
    && e.Msg? && e.peer < |peers| && e.msg.nodeid == peers[e.peer].nodeid
    && peers[e.peer].born <= e.about < peers[e.peer].next <= |log|
    && log[e.about].Conf? && Content(e.msg, log[e.about].cc)
  }

  ghost predicate LogMsgsOk(log: seq<Entry>, peers: seq<Peer>) {
    forall k :: 0 <= k < |log| && log[k].Msg? ==>
      MsgOk(log, peers, log[k]) && log[k].about < k &&
      Stays(log, peers[log[k].peer].nodeid, peers[log[k].peer].born, k)
  }

  ghost predicate OutboxOk(log: seq<Entry>, peers: seq<Peer>, p: nat)
    requires p < |peers|
  {
    var box := peers[p].outbox;
    && (forall k :: 0 <= k < |box| ==> MsgOk(log, peers, box[k]) && box[k].peer == p)
    && (forall k, m :: 0 <= k < m < |box| ==> box[k].Msg? && box[m].Msg? && box[k].about < box[m].about)
    && (forall i, k :: 0 <= i < |log| && 0 <= k < |box| && log[i].Msg? && log[i].peer == p ==>
          box[k].Msg? && log[i].about < box[k].about)
  }

  ghost predicate LogOrder(log: seq<Entry>) {
    forall i, j :: 0 <= i < j < |log| && log[i].Msg? && log[j].Msg? && log[i].peer == log[j].peer ==>
      log[i].about < log[j].about
  }

  /** While a node waits for its conditions it has said nothing about the change yet. */
  ghost predicate QuietOk(log: seq<Entry>, peers: seq<Peer>, p: nat)
    requires p < |peers|
  {
    var peer := peers[p];
    peer.ls.changes != [] && peer.ls.changes[0].phase == WaitConditions ==>
      && (forall i :: 0 <= i < |log| && log[i].Msg? && log[i].peer == p ==> log[i].about < peer.ls.changes[0].id)
      && (forall k :: 0 <= k < |peer.outbox| && peer.outbox[k].Msg? ==> peer.outbox[k].about < peer.ls.changes[0].id)
  }

  ghost predicate PeerOk(log: seq<Entry>, peers: seq<Peer>, p: nat)
    requires p < |peers|
  {
    LocalOk(log, peers[p]) && OutboxOk(log, peers, p) && QuietOk(log, peers, p)
  }

  ghost predicate PeersDistinct(peers: seq<Peer>) {
    forall p, q :: 0 <= p < q < |peers| ==> peers[p].nodeid != peers[q].nodeid || peers[p].born != peers[q].born
  }

  ghost predicate Inv(w: World) {
    && LogOk(w.log) && LogMsgsOk(w.log, w.peers) && LogOrder(w.log) && PeersDistinct(w.peers)
    && forall p :: 0 <= p < |w.peers| ==> PeerOk(w.log, w.peers, p)
  }

  // ---------- a message for the current change is about the current change

  /** A message still to come is not about a change its reader has started past. */
  lemma NotStale(w: World, p: nat)
    requires Inv(w) && p < |w.peers| && w.peers[p].next < |w.log| && w.log[w.peers[p].next].Msg?
    requires EvidenceOk(w.log, w.peers[p])
    ensures var c := w.log[w.peers[p].next].about; c < w.peers[p].born || Floor(w.peers[p]) <= c
  {
    var peer, e := w.peers[p], w.log[w.peers[p].next];
    assert PeerOk(w.log, w.peers, p);
    if peer.ls.started.Some? && peer.born <= e.about <= peer.ls.started.value.id {
      var s, q := peer.ls.started.value, w.peers[e.peer];
      assert MsgOk(w.log, w.peers, e) && PeerOk(w.log, w.peers, e.peer);
      SenderIsMember(w, e.peer, s.id, peer.next);
      var i :| 0 <= i < |s.members| && Ids(s.members)[i] == q.nodeid;
      assert HasMsg(w.log, peer.next, s.id, s.members[i].nodeid);
      var k :| 0 <= k < peer.next && IsMsg(w.log[k], s.id, q.nodeid);
      LaterIsNewer(w, k, peer.next);
    }
  }

  /** A sender that is still there belongs to every change since it was added. */
  lemma SenderIsMember(w: World, q: nat, c: nat, k: nat)
    requires Inv(w) && q < |w.peers| && w.peers[q].born <= c < k <= |w.log| && w.log[c].Conf?
    requires Stays(w.log, w.peers[q].nodeid, w.peers[q].born, k)
    ensures w.peers[q].nodeid in w.log[c].cc.members
  {
    hide OutboxOk, QuietOk, PendingOk, GateInv, LogMsgsOk, LogOrder, PeersDistinct, NextConf, Leaves;
    assert PeerOk(w.log, w.peers, q);
    StaysIsMember(w.log, w.peers[q].nodeid, w.peers[q].born, c + 1);
  }

  /** The messages a node is heard with are about newer and newer changes, even
      across its stays. */
  lemma LaterIsNewer(w: World, i: nat, j: nat)
    requires Inv(w) && i < j < |w.log| && w.log[i].Msg? && w.log[j].Msg? && w.log[i].msg.nodeid == w.log[j].msg.nodeid
    ensures w.log[i].about < w.log[j].about
  {
    var p, q, c := w.log[i].peer, w.log[j].peer, w.log[i].about;
    assert MsgOk(w.log, w.peers, w.log[i]) && MsgOk(w.log, w.peers, w.log[j]);
    assert PeerOk(w.log, w.peers, p) && PeerOk(w.log, w.peers, q);
    if w.log[j].about <= c {
      OneAtATime(w.log, w.peers[p].nodeid, w.peers[p].born, w.peers[q].born, c + 1);
    }
  }

  /** A pending change matches the messages sent for it. */
  lemma OwnChangeMatches(w: World, p: nat, k: nat)
    requires Inv(w) && p < |w.peers| && w.peers[p].next < |w.log| && w.log[w.peers[p].next].Msg?
    requires k < |w.peers[p].ls.changes| && w.peers[p].ls.changes[k].id == w.log[w.peers[p].next].about
    requires w.peers[p].nodeid in w.log[w.peers[p].next].msg.ids
    ensures MatchChange(w.peers[p].ls.changes[k], w.log[w.peers[p].next].msg, w.peers[p].ls.our)
  {
    var peer, e := w.peers[p], w.log[w.peers[p].next];
    var cg := peer.ls.changes[k];
    assert PeerOk(w.log, w.peers, p) && MsgOk(w.log, w.peers, e);
    SenderIsMember(w, e.peer, cg.id, peer.next);
    MemberIds(cg.members, e.msg.nodeid);
    forall i | 0 <= i < |e.msg.ids| ensures IsMember(cg.members, e.msg.ids[i]) {
      MemberIds(cg.members, e.msg.ids[i]);
    }
  }

  lemma MemberIds(members: seq<Member>, x: int)
    ensures IsMember(members, x) <==> x in Ids(members)
  {
    if x in Ids(members) {
      var i :| 0 <= i < |members| && Ids(members)[i] == x;
      assert members[i].nodeid == x;
    }
    if IsMember(members, x) {
      assert Ids(members)[MembIndex(members, x)] == x;
    }
  }

  /** Matching means looking alike. */
  lemma MatchIsSignature(log: seq<Entry>, cg: Change, m: StartMsg, c: nat, our: int)
    requires LogOk(log) && c < |log| && log[c].Conf? && Content(m, log[c].cc) && ConfAt(log, cg) && MatchChange(cg, m, our)
    ensures SameSignature(log[c].cc, log[cg.id].cc)
  {
    var a, b := log[c].cc, log[cg.id].cc;
    assert NextConf(MembersAt(log, c), a) && NextConf(MembersAt(log, cg.id), b);
    forall i | 0 <= i < |a.members| ensures a.members[i] in b.members {
      MemberIds(cg.members, m.ids[i]);
    }
    MatchForcesSameMembers(a, b);
  }

  /** Without any hypothesis: a message credited to the current change is about it
      exactly when it is about a change not yet done with. */
  lemma CreditIffPending(w: World, p: nat)
    requires Inv(w) && p < |w.peers| && w.peers[p].next < |w.log| && w.log[w.peers[p].next].Msg?
    requires w.peers[p].ls.changes != [] &&
             FindChange(w.peers[p].ls.changes, w.log[w.peers[p].next].msg, w.peers[p].ls.our) == 0
    ensures w.log[w.peers[p].next].about == w.peers[p].ls.changes[0].id <==>
            Floor(w.peers[p]) <= w.log[w.peers[p].next].about
  {
    hide FindChange, MatchChange;
    var peer, e := w.peers[p], w.log[w.peers[p].next];
    var cs := peer.ls.changes;
    assert PeerOk(w.log, w.peers, p) && MsgOk(w.log, w.peers, e);
    OursInIds(cs[0], e.msg, peer.ls.our);
    if Floor(peer) <= e.about {
      assert Pends(cs, e.about);
      var k :| 0 <= k < |cs| && cs[k].id == e.about;
      OwnChangeMatches(w, p, k);
    }
  }

  /** The oldest-first search credits the current change with a message sent for it
      if and only if the message is not a stale lookalike. */
  lemma MatchIsExact(w: World, p: nat)
    requires Inv(w) && p < |w.peers| && w.peers[p].next < |w.log| && w.log[w.peers[p].next].Msg?
    requires EvidenceOk(w.log, w.peers[p])
    requires w.peers[p].ls.changes != [] &&
             FindChange(w.peers[p].ls.changes, w.log[w.peers[p].next].msg, w.peers[p].ls.our) == 0
    ensures w.log[w.peers[p].next].about == w.peers[p].ls.changes[0].id <==>
            !Stale(w.log, w.peers[p].nodeid, w.peers[p].born, w.peers[p].next)
  {
    hide FindChange, SameSignature, MatchChange, EvidenceOk;
    var peer, e := w.peers[p], w.log[w.peers[p].next];
    var cs := peer.ls.changes;
    assert PeerOk(w.log, w.peers, p) && MsgOk(w.log, w.peers, e);
    OursInIds(cs[0], e.msg, peer.ls.our);
    NotStale(w, p);
    CreditIffPending(w, p);
    if e.about < peer.born {
      MatchIsSignature(w.log, cs[0], e.msg, e.about, peer.ls.our);
      assert LooksLike(w.log, e.about, cs[0].id);
    }
  }

  lemma OursInIds(cg: Change, m: StartMsg, our: int)
    requires MatchChange(cg, m, our)
    ensures our in m.ids
  {
  }
}
