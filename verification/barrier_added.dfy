/**
 Which start messages are refused: exactly those of a node that has started before
 and that a pending change adds.
 */
module BarrierAdded {
  import opened Membership
  import opened Cluster
  import opened Barrier
  import opened BarrierSteps
  import opened StartBarrier
  import opened BarrierCredit
  import opened BarrierProgress

  /** The members marked as added are those that joined. */
  predicate AddedMatch(members: seq<Member>, joined: seq<int>) {
    forall i :: 0 <= i < |members| ==> (members[i].added <==> members[i].nodeid in joined)
  }

  ghost predicate AddedOk(log: seq<Entry>, cs: seq<Change>) {
    forall k :: 0 <= k < |cs| ==> cs[k].id < |log| && log[cs[k].id].Conf? && AddedMatch(cs[k].members, log[cs[k].id].cc.joined)
  }

  // ---------- making a change

  predicate DistinctMembs(members: seq<Member>) {
    forall i, j :: 0 <= i < j < |members| ==> members[i].nodeid != members[j].nodeid
  }

  lemma JoinOneAdds(j: Joining, x: int, our: int, joined: seq<int>)
    requires DistinctMembs(j.members) && AddedMatch(j.members, joined) && !JoinOne(j, x, our).missing
    ensures DistinctMembs(JoinOne(j, x, our).members) && AddedMatch(JoinOne(j, x, our).members, joined + [x])
  {
    hide HistoryInit;
    var i, after := MembIndex(j.members, x), JoinOne(j, x, our).members;
    assert |after| == |j.members| && forall k :: 0 <= k < |after| ==> after[k].nodeid == j.members[k].nodeid;
  }

  lemma JoinMissing(j: Joining, joined: seq<int>, n: nat, our: int)
    requires n < |joined| && !JoinAll(j, joined, n + 1, our).missing
    ensures !JoinAll(j, joined, n, our).missing
  {
  }

  lemma {:induction false} JoinAllAdds(j: Joining, joined: seq<int>, n: nat, our: int)
    requires n <= |joined| && DistinctMembs(j.members) && AddedMatch(j.members, []) && !JoinAll(j, joined, n, our).missing
    ensures DistinctMembs(JoinAll(j, joined, n, our).members) && AddedMatch(JoinAll(j, joined, n, our).members, joined[..n])
  {
    hide JoinOne;
    if n > 0 {
      JoinMissing(j, joined, n - 1, our);
      JoinAllAdds(j, joined, n - 1, our);
      JoinOneAdds(JoinAll(j, joined, n - 1, our), joined[n - 1], our, joined[..n - 1]);
      assert joined[..n] == joined[..n - 1] + [joined[n - 1]];
    }
  }

  lemma AddChangeAdds(ls: Lockspace, cc: ConfChg, id: nat)
    requires DistinctIds(cc.members) && AddChange(ls, cc, id).1
    ensures var cs := AddChange(ls, cc, id).0.changes;
            |cs| == |ls.changes| + 1 && cs[1..] == ls.changes && cs[0].id == id && AddedMatch(cs[0].members, cc.joined)
  {
    hide JoinAll, HistoryRemoveAll, HistoryInitAll;
    var h1 := HistoryRemoveAll(ls.history, cc.left, |cc.left|, ls.fencing, ls.quorum);
    var j0 := Joining(NewMembers(cc.members), h1, false, false);
    JoinAllAdds(j0, cc.joined, |cc.joined|, ls.our);
    assert cc.joined[..|cc.joined|] == cc.joined;
  }

  // ---------- nothing else touches the marks

  /** The same changes with the same members, marked as added alike. */
  predicate SameAdded(cs: seq<Change>, ds: seq<Change>) {
    |cs| == |ds| && forall k :: 0 <= k < |cs| ==>
      && ds[k].id == cs[k].id && |ds[k].members| == |cs[k].members|
      && forall i :: 0 <= i < |cs[k].members| ==>
           ds[k].members[i].nodeid == cs[k].members[i].nodeid && ds[k].members[i].added == cs[k].members[i].added
  }

  lemma ReceiveKeepsAdded(ls: Lockspace, m: StartMsg, now: nat)
    ensures SameAdded(ls.changes, ReceiveStart(ls, m, now).changes)
  {
    hide FindChange, IsAdded, MembIndex, HistoryStart;
    var k := FindChange(ls.changes, m, ls.our);
    if k < |ls.changes| { MatchedMember(ls.changes[k], m, ls.our); }
  }

  lemma SameAddedOk(log: seq<Entry>, cs: seq<Change>, ds: seq<Change>)
    requires AddedOk(log, cs) && SameAdded(cs, ds)
    ensures AddedOk(log, ds)
  {
    forall k | 0 <= k < |ds| ensures AddedMatch(ds[k].members, log[ds[k].id].cc.joined) {
      assert AddedMatch(cs[k].members, log[cs[k].id].cc.joined);
    }
  }

  lemma ConfKeepsAdded(w: World, a: Act)
    requires Inv(w) && a.Deliver? && Enabled(w, a) && w.log[w.peers[a.p].next].Conf? && AddedOk(w.log, w.peers[a.p].ls.changes)
    ensures AddedOk(w.log, Handled(w, a).ls.changes)
  {
    hide Inv, AddChange, AddedMatch, Leaves;
    var peer, mid := w.peers[a.p], Handled(w, a);
    var cs := mid.ls.changes;
    JoinedConf(w, peer.next);
    AddedChange(peer.ls, w.log[peer.next].cc, peer.next) by { hide AddedOk; }
    InvLog(w);
    DistinctMembers(w.log, peer.next);
    AddChangeAdds(peer.ls, w.log[peer.next].cc, peer.next);
    assert forall k :: 0 < k < |cs| ==> cs[k] == peer.ls.changes[k - 1];
  }

  lemma OwnStepKeepsAdded(w: World, a: Act)
    requires Inv(w) && Enabled(w, a) && (a.Deliver? || a.Poll?) && AddedOk(w.log, w.peers[a.p].ls.changes)
    ensures AddedOk(w.log, Next(w, a).peers[a.p].ls.changes)
  {
    hide Inv, AddedOk, Advance, Leaves, ReceiveStart, AddChange, ApplyChanges, Stays;
    var peer, mid := w.peers[a.p], Handled(w, a);
    if ReadsConf(w, a, a.p) {
      ConfKeepsAdded(w, a);
    } else if a.Deliver? {
      ReceiveKeepsAdded(peer.ls, w.log[peer.next].msg, a.env.now);
      SameAddedOk(w.log, peer.ls.changes, mid.ls.changes);
    }
    OutputOfStep(w, a);
    AppliedKeepsAdded(w.log, mid, a.p, a.env);
  }

  lemma AppliedKeepsAdded(log: seq<Entry>, mid: Peer, p: nat, env: Env)
    requires AddedOk(log, mid.ls.changes)
    ensures AddedOk(log, Finish(mid, p, env).ls.changes)
  {
    hide ApplyChanges, AddedOk;
    AppliedChanges(mid.ls, env);
    var cs, ds := mid.ls.changes, ApplyChanges(mid.ls, env).0.changes;
    if ds == [] { NoneAdded(log); } else { SameAddedOk(log, cs, ds); }
  }

  lemma NoneAdded(log: seq<Entry>)
    ensures AddedOk(log, [])
  {
  }

  lemma AddedGrows(log: seq<Entry>, all: seq<Entry>, cs: seq<Change>)
    requires log <= all && AddedOk(log, cs)
    ensures AddedOk(all, cs)
  {
    hide AddedMatch;
  }

  lemma AddedStep(w: World, a: Act, p: nat)
    requires Inv(w) && Enabled(w, a) && p < |w.peers| && AddedOk(w.log, w.peers[p].ls.changes)
    ensures p < |Next(w, a).peers| && AddedOk(Next(w, a).log, Next(w, a).peers[p].ls.changes)
  {
    hide Inv, AddedOk, Advance, NextConf, Leaves, Stays;
    AddedGrows(w.log, Next(w, a).log, w.peers[p].ls.changes);
    if (a.Deliver? || a.Poll?) && a.p == p { OwnStepKeepsAdded(w, a); }
  }

  lemma NewcomerAdded(w: World, a: Act, p: nat)
    requires Enabled(w, a) && |w.peers| <= p < |Next(w, a).peers|
    ensures AddedOk(Next(w, a).log, Next(w, a).peers[p].ls.changes)
  {
    hide NextConf, Advance, Leaves, Stays, AddedMatch;
  }

  lemma {:induction false} RunAdded(ws: seq<World>, acts: seq<Act>, k: nat, p: nat)
    requires IsRun(ws, acts) && k <= |acts| && p < |ws[k].peers|
    ensures AddedOk(ws[k].log, ws[k].peers[p].ls.changes)
    decreases k
  {
    hide Enabled, Next, AddedOk, Inv;
    if k == 0 {
    } else if p >= |ws[k - 1].peers| {
      NewcomerAdded(ws[k - 1], acts[k - 1], p);
    } else {
      RunInv(ws, acts, k - 1);
      RunAdded(ws, acts, k - 1, p);
      AddedStep(ws[k - 1], acts[k - 1], p);
    }
  }

  /** Some pending change of the list has `x` among those that joined. */
  ghost predicate JoinsInPending(log: seq<Entry>, cs: seq<Change>, x: int) {
    exists k :: 0 <= k < |cs| && cs[k].id < |log| && log[cs[k].id].Conf? && x in log[cs[k].id].cc.joined
  }

  /** In every run the test for a node being added says exactly that a pending change
      reports it as joined. */
  lemma AddedIffJoins(ws: seq<World>, acts: seq<Act>, k: nat, p: nat, x: int)
    requires IsRun(ws, acts) && k <= |acts| && p < |ws[k].peers|
    ensures IsAdded(ws[k].peers[p].ls.changes, x) <==> JoinsInPending(ws[k].log, ws[k].peers[p].ls.changes, x)
  {
    hide Inv, Enabled, Next, MembIndex;
    RunAdded(ws, acts, k, p);
    RunInv(ws, acts, k);
    var w, cs := ws[k], ws[k].peers[p].ls.changes;
    forall m | 0 <= m < |cs| ensures
      var ms := cs[m].members;
      x in w.log[cs[m].id].cc.joined <==> IsMember(ms, x) && ms[MembIndex(ms, x)].added
    {
      ReaderInPending(w, p, m);
      JoinedConf(w, cs[m].id);
      MemberIds(cs[m].members, x);
      assert AddedMatch(cs[m].members, w.log[cs[m].id].cc.joined);
    }
  }

  /** A start message that matches a pending change is refused if and only if its
      sender says that it has started before and a pending change reports it as
      joined; otherwise the sender is marked started and its add time set. */
  lemma RefusedIff(ws: seq<World>, acts: seq<Act>, k: nat, p: nat, m: StartMsg, now: nat)
    requires IsRun(ws, acts) && k <= |acts| && p < |ws[k].peers|
    requires FindChange(ws[k].peers[p].ls.changes, m, ws[k].peers[p].ls.our) < |ws[k].peers[p].ls.changes|
    ensures var ls := ws[k].peers[p].ls;
            var f := FindChange(ls.changes, m, ls.our);
            var after := ReceiveStart(ls, m, now);
            var i := MembIndex(ls.changes[f].members, m.nodeid);
            && |after.changes| == |ls.changes| && |after.changes[f].members| == |ls.changes[f].members| && i < |ls.changes[f].members|
            && var x := ls.changes[f].members[i];
               if m.startedCount != 0 && JoinsInPending(ws[k].log, ls.changes, m.nodeid)
               then after.changes[f].members[i] == x.(disallowed := true) && after.history == ls.history
               else after.changes[f].members[i] == x.(start := true) && after.history == HistoryStart(ls.history, m.nodeid, now)
  {
    hide Enabled, Next, FindChange, IsAdded, HistoryStart, MembIndex, JoinsInPending;
    var ls := ws[k].peers[p].ls;
    AddedIffJoins(ws, acts, k, p, m.nodeid);
    MatchedMember(ls.changes[FindChange(ls.changes, m, ls.our)], m, ls.our);
  }
}
