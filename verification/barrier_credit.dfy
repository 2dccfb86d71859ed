/**
 Which pending change a start message goes to, and exactly when the starts a node
 has read let it start.
 */
module BarrierCredit {
  import opened Membership
  import opened Cluster
  import opened Barrier
  import opened StartBarrier

  // ---------- one message

  /** Changes `c` and `h` say the same in a start message. */
  ghost predicate Alike(log: seq<Entry>, c: nat, h: nat) {
    c < |log| && h < |log| && log[c].Conf? && LooksLike(log, c, h)
  }

  /** The pending change `c`, or none if `c` is not pending. */
  ghost predicate CreditedRight(cs: seq<Change>, k: nat, c: nat) {
    if Pends(cs, c) then k < |cs| && cs[k].id == c else k == |cs|
  }

  /** Of the pending changes older than `c` -- of all of them, if `c` is not pending
      -- none looks like `c`. */
  ghost predicate NoOlderAlike(log: seq<Entry>, cs: seq<Change>, c: nat) {
    forall k :: 0 <= k < |cs| && (Pends(cs, c) ==> cs[k].id < c) ==> !Alike(log, c, cs[k].id)
  }

  lemma SenderInOwnChange(w: World, k: nat)
    requires Inv(w) && k < |w.log| && w.log[k].Msg?
    ensures var e := w.log[k];
            && e.about < k && w.log[e.about].Conf? && Content(e.msg, w.log[e.about].cc)
            && e.msg.nodeid in w.log[e.about].cc.members
  {
    hide PeerOk, NextConf, Content;
    var e := w.log[k];
    assert MsgOk(w.log, w.peers, e);
    SenderIsMember(w, e.peer, e.about, k);
  }

  lemma ReaderInPending(w: World, p: nat, k: nat)
    requires Inv(w) && p < |w.peers| && k < |w.peers[p].ls.changes|
    ensures var cg := w.peers[p].ls.changes[k];
            && ConfAt(w.log, cg) && w.peers[p].nodeid in w.log[cg.id].cc.members && w.peers[p].ls.our == w.peers[p].nodeid
  {
    hide NextConf, Describes, OutboxOk, QuietOk, LogMsgsOk;
    var peer := w.peers[p];
    assert PeerOk(w.log, w.peers, p);
    var cg := peer.ls.changes[k];
    assert Floor(peer) <= cg.id < peer.next && ConfAt(w.log, cg);
    SenderIsMember(w, p, cg.id, peer.next);
  }

  lemma DistinctMembers(log: seq<Entry>, c: nat)
    requires LogOk(log) && c < |log| && log[c].Conf?
    ensures DistinctIds(log[c].cc.members)
  {
    hide MembersAt;
    assert NextConf(MembersAt(log, c), log[c].cc);
  }

  /** A pending change matches a message in the log exactly when it looks like the
      change the message is about. */
  lemma PendingMatches(w: World, p: nat, k: nat, i: nat)
    requires Inv(w) && p < |w.peers| && k < |w.peers[p].ls.changes| && i < |w.log| && w.log[i].Msg?
    ensures var cg := w.peers[p].ls.changes[k];
            MatchChange(cg, w.log[i].msg, w.peers[p].ls.our) <==> Alike(w.log, w.log[i].about, cg.id)
  {
    hide Inv, MatchChange;
    var e, cg := w.log[i], w.peers[p].ls.changes[k];
    SenderInOwnChange(w, i);
    ReaderInPending(w, p, k);
    InvLog(w);
    DistinctMembers(w.log, e.about);
    DistinctMembers(w.log, cg.id);
    var a, b := w.log[e.about].cc, w.log[cg.id].cc;
    MatchIffLookalike(a, b, cg, e.msg, w.peers[p].ls.our);
    if SameSignature(a, b) {
      assert w.peers[p].ls.our in AsSet(b.members) && e.msg.nodeid in AsSet(a.members);
    }
  }

  lemma InvLog(w: World)
    requires Inv(w)
    ensures LogOk(w.log)
  {
    hide LogOk, LogMsgsOk, LogOrder, PeersDistinct, PeerOk;
  }

  lemma NewestFirst(w: World, p: nat)
    requires Inv(w) && p < |w.peers|
    ensures var cs := w.peers[p].ls.changes; forall k, m :: 0 <= k < m < |cs| ==> cs[m].id < cs[k].id
  {
    hide NextConf, ConfAt, OutboxOk, QuietOk, LogMsgsOk, Stays;
    assert PeerOk(w.log, w.peers, p);
  }

  /** Every start message is credited to the pending change it is about, and to none
      if that change is not pending, if and only if no older pending change -- in
      the second case, no pending change at all -- looks like that change. */
  lemma CreditIffNoOlderAlike(w: World, p: nat, i: nat)
    requires Inv(w) && p < |w.peers| && i < |w.log| && w.log[i].Msg?
    ensures var ls := w.peers[p].ls;
            CreditedRight(ls.changes, FindChange(ls.changes, w.log[i].msg, ls.our), w.log[i].about) <==>
            NoOlderAlike(w.log, ls.changes, w.log[i].about)
  {
    hide Inv, MatchChange, FindChange, LooksLike;
    var ls, e := w.peers[p].ls, w.log[i];
    var cs, f := ls.changes, FindChange(ls.changes, e.msg, ls.our);
    forall k | 0 <= k < |cs| ensures MatchChange(cs[k], e.msg, ls.our) <==> Alike(w.log, e.about, cs[k].id) {
      PendingMatches(w, p, k, i);
    }
    NewestFirst(w, p);
    if Pends(cs, e.about) {
      var j :| 0 <= j < |cs| && cs[j].id == e.about;
      ReaderInPending(w, p, j);
      AlikeSelf(w.log, e.about);
      assert MatchChange(cs[j], e.msg, ls.our);
    }
  }

  lemma AlikeSelf(log: seq<Entry>, c: nat)
    requires c < |log| && log[c].Conf?
    ensures Alike(log, c, c)
  {
  }

  lemma AlikeTransitive(log: seq<Entry>, a: nat, b: nat, c: nat)
    requires Alike(log, a, b) && Alike(log, b, c)
    ensures Alike(log, a, c)
  {
  }

  /** If an older pending change looks like the current one, the current change is
      never credited with anything. */
  lemma OlderAlikeTakesAll(w: World, p: nat, i: nat)
    requires Inv(w) && p < |w.peers| && i < |w.log| && w.log[i].Msg?
    requires var cs := w.peers[p].ls.changes; cs != [] && !NoOlderAlike(w.log, cs, cs[0].id)
    ensures FindChange(w.peers[p].ls.changes, w.log[i].msg, w.peers[p].ls.our) != 0
  {
    hide Inv, MatchChange, FindChange, Alike;
    var ls, e := w.peers[p].ls, w.log[i];
    var cs := ls.changes;
    NewestFirst(w, p);
    assert cs[0].id == cs[0].id && Pends(cs, cs[0].id);
    var m :| 0 <= m < |cs| && cs[m].id < cs[0].id && Alike(w.log, cs[0].id, cs[m].id);
    PendingMatches(w, p, 0, i);
    PendingMatches(w, p, m, i);
    if MatchChange(cs[0], e.msg, ls.our) { AlikeTransitive(w.log, e.about, cs[0].id, cs[m].id); }
  }
}
