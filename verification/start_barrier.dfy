/** Theorems about whole runs of the cluster: no node starts a change alone. */
module StartBarrier {
  import opened Membership
  import opened Gates
  import opened Cluster
  import opened Barrier
  import opened BarrierSteps

  // ---------- the invariant over a run

  lemma NextKeepsInv(w: World, a: Act)
    requires Inv(w) && Enabled(w, a)
    ensures Inv(Next(w, a))
  {
    hide Inv, Advance, NextConf;
    match a {
      case Reconfigure(cc, newcomers) => ReconfigureKeepsInv(w, cc, newcomers);
      case Flush(p) => FlushKeepsInv(w, p);
      case Deliver(p, env) => NodeStepKeepsInv(w, a);
      case Poll(p, env) => NodeStepKeepsInv(w, a);
    }
  }

  lemma {:induction false} RunInv(ws: seq<World>, acts: seq<Act>, k: nat)
    requires IsRun(ws, acts) && k <= |acts|
    ensures Inv(ws[k])
    decreases k
  {
    hide Enabled, Next;
    if k > 0 {
      RunInv(ws, acts, k - 1);
      NextKeepsInv(ws[k - 1], acts[k - 1]);
    }
  }

  // ---------- the evidence of one node over a run

  /** What a step leaves of a node's record: who it is, and how far it has read. */
  lemma NextPeer(w: World, a: Act, p: nat)
    requires Enabled(w, a) && p < |w.peers|
    ensures var after := Next(w, a);
            && w.log <= after.log && p < |after.peers|
            && after.peers[p].nodeid == w.peers[p].nodeid && after.peers[p].born == w.peers[p].born
            && w.peers[p].next <= after.peers[p].next <= w.peers[p].next + 1
            && ((a.Deliver? && a.p == p) <==> after.peers[p].next == w.peers[p].next + 1)
  {
    hide Step, NextConf, Leaves, Stays;
  }

  lemma StalePrefix(log: seq<Entry>, all: seq<Entry>, x: int, born: nat, i: nat)
    requires log <= all && i < |log|
    ensures Stale(log, x, born, i) <==> Stale(all, x, born, i)
  {
    hide SameSignature;
    assert forall k :: 0 <= k < |log| ==> all[k] == log[k];
    if log[i].Msg? && log[i].about < i && log[log[i].about].Conf? {
      assert forall h :: 0 <= h < i ==> (LooksLike(log, log[i].about, h) <==> LooksLike(all, log[i].about, h));
      assert Stays(log, log[i].msg.nodeid, log[i].about, i) <==> Stays(all, log[i].msg.nodeid, log[i].about, i);
    }
  }

  lemma NoneStalePrefix(log: seq<Entry>, all: seq<Entry>, x: int, born: nat, n: nat, m: nat)
    requires log <= all && n <= |log| && n <= m <= |all| && NoneStale(all, x, born, m)
    ensures NoneStale(log, x, born, n)
  {
    hide Stale;
    forall i | born <= i < n ensures !Stale(log, x, born, i) {
      StalePrefix(log, all, x, born, i);
    }
  }

  /** A step keeps a node's evidence, unless the node reads a stale message in it. */
  lemma EvidenceStep(w: World, a: Act, p: nat)
    requires Inv(w) && Enabled(w, a) && p < |w.peers| && w.peers[p].next <= |w.log| && EvidenceOk(w.log, w.peers[p])
    requires a.Deliver? && a.p == p ==> !Stale(w.log, w.peers[p].nodeid, w.peers[p].born, w.peers[p].next)
    ensures p < |Next(w, a).peers| && Next(w, a).peers[p].next <= |Next(w, a).log|
    ensures EvidenceOk(Next(w, a).log, Next(w, a).peers[p])
  {
    hide Inv, EvidenceOk, Stale, Advance, NextConf, Leaves, Stays;
    InvNext(w, p);
    PeerLocal(w, p);
    if a.Deliver? || a.Poll? {
      NodeStepKeepsInv(w, a);
    } else if a.Flush? {
      var e := w.peers[a.p].outbox[0];
      LocalGrow(w.log, e, w.peers[p]);
      SameLocal(w.log + [e], w.peers[p], Next(w, a).peers[p]);
    } else {
      LocalGrow(w.log, Conf(a.cc), w.peers[p]);
    }
  }

  lemma PeerLocal(w: World, p: nat)
    requires Inv(w) && p < |w.peers|
    ensures LocalOk(w.log, w.peers[p])
  {
    hide LocalOk, OutboxOk, QuietOk;
    assert PeerOk(w.log, w.peers, p);
  }

  lemma NewcomerEvidence(w: World, a: Act, p: nat)
    requires Enabled(w, a) && |w.peers| <= p < |Next(w, a).peers|
    ensures Next(w, a).peers[p].next <= |Next(w, a).log| && EvidenceOk(Next(w, a).log, Next(w, a).peers[p])
  {
    hide NextConf, Advance, Leaves, Stays, HasMsg;
  }

  lemma {:induction false} RunEvidence(ws: seq<World>, acts: seq<Act>, k: nat, p: nat)
    requires IsRun(ws, acts) && k <= |acts| && p < |ws[k].peers| && ws[k].peers[p].next <= |ws[k].log|
    requires NoneStale(ws[k].log, ws[k].peers[p].nodeid, ws[k].peers[p].born, ws[k].peers[p].next)
    ensures EvidenceOk(ws[k].log, ws[k].peers[p])
    decreases k
  {
    hide Enabled, Next, NoneStale, EvidenceOk, Stale, Inv;
    if k == 0 { return; }
    var w, a := ws[k - 1], acts[k - 1];
    if p >= |w.peers| {
      NewcomerEvidence(w, a, p);
    } else {
      RunInv(ws, acts, k - 1);
      InvNext(w, p);
      NextPeer(w, a, p);
      var x, born := w.peers[p].nodeid, w.peers[p].born;
      NoneStalePrefix(w.log, ws[k].log, x, born, w.peers[p].next, ws[k].peers[p].next);
      RunEvidence(ws, acts, k - 1, p);
      if a.Deliver? && a.p == p {
        StaleAt(ws[k].log, x, born, ws[k].peers[p].next, w.peers[p].next);
        ReadInLog(w, a);
        StalePrefix(w.log, ws[k].log, x, born, w.peers[p].next);
      }
      EvidenceStep(w, a, p);
    }
  }

  lemma StaleAt(log: seq<Entry>, x: int, born: nat, n: nat, i: nat)
    requires n <= |log| && born <= i < n && NoneStale(log, x, born, n)
    ensures !Stale(log, x, born, i)
  {
  }

  lemma ReadInLog(w: World, a: Act)
    requires a.Deliver? && Enabled(w, a)
    ensures w.peers[a.p].next < |w.log|
  {
  }

  // ---------- where messages come from

  predicate InWorld(w: World, e: Entry) {
    e.Msg? && (e in w.log || exists p :: 0 <= p < |w.peers| && e in w.peers[p].outbox)
  }

  /** In this step a node sends `e`: it stands at the change `e` is about, its
      conditions just met, its kernel stopped, nobody left to fence or to miss. */
  ghost predicate SentHere(w: World, a: Act, e: Entry)
    requires Enabled(w, a)
  {
    && (a.Deliver? || a.Poll?) && e.Msg? && e.peer == a.p && e.msg.nodeid == w.peers[a.p].nodeid
    && var (after, out) := Step(w.peers[a.p].ls, LocalEvent(w, a));
       && out == SendStart(e.msg) && after.changes != [] && after.changes[0].id == e.about
       && after.changes[0].phase == WaitMessages && after.stopped && NoFencing(after.history) && NoQuorum(after.history)
  }

  lemma SentFacts(w: World, a: Act)
    requires Inv(w) && Enabled(w, a) && (a.Deliver? || a.Poll?)
    ensures var (after, out) := Step(w.peers[a.p].ls, LocalEvent(w, a));
            out.SendStart? ==>
              && out.msg.nodeid == w.peers[a.p].nodeid && after.changes != [] && after.changes[0].phase == WaitMessages
              && after.stopped && NoFencing(after.history) && NoQuorum(after.history)
  {
    hide Inv, Handle, ApplyChanges, Leaves, PendingOk, EvidenceOk;
    HandledOk(w, a);
    var mid := Handled(w, a);
    AppliedChanges(mid.ls, a.env);
    ApplyGates(mid.ls, a.env);
  }

  lemma NewInOutbox(w: World, a: Act, e: Entry, q: nat)
    requires Inv(w) && Enabled(w, a) && (a.Deliver? || a.Poll?)
    requires q < |w.peers| && e in Next(w, a).peers[q].outbox && e !in w.peers[q].outbox
    ensures SentHere(w, a, e)
  {
    hide Inv, Step, Leaves;
    SentFacts(w, a);
  }

  lemma StepProvenance(w: World, a: Act, e: Entry)
    requires Inv(w) && Enabled(w, a) && InWorld(Next(w, a), e)
    ensures InWorld(w, e) || SentHere(w, a, e)
  {
    hide Inv, Leaves, NextConf, SentHere, Advance, Stays;
    var after := Next(w, a);
    if e in after.log {
      assert e in w.log || (a.Flush? && e == w.peers[a.p].outbox[0]);
      if e !in w.log { assert w.peers[a.p].outbox[0] in w.peers[a.p].outbox; }
    } else {
      var q :| 0 <= q < |after.peers| && e in after.peers[q].outbox;
      if q < |w.peers| && e !in w.peers[q].outbox {
        if a.Deliver? || a.Poll? { NewInOutbox(w, a, e, q); }
      }
    }
  }

  /** Every start message around was sent in an earlier step. */
  lemma {:induction false} WasSent(ws: seq<World>, acts: seq<Act>, k: nat, e: Entry) returns (j: nat)
    requires IsRun(ws, acts) && k <= |acts| && InWorld(ws[k], e)
    ensures j < k && Enabled(ws[j], acts[j]) && SentHere(ws[j], acts[j], e)
    decreases k
  {
    hide Enabled, Next, Inv, SentHere;
    if k == 0 {
      assert false;
    } else {
      RunInv(ws, acts, k - 1);
      StepProvenance(ws[k - 1], acts[k - 1], e);
      if SentHere(ws[k - 1], acts[k - 1], e) {
        j := k - 1;
      } else {
        j := WasSent(ws, acts, k - 1, e);
      }
    }
  }

  // ---------- the barrier

  /** In an earlier step, node `x` stood at change `c` and said so. */
  ghost predicate StoodAt(ws: seq<World>, acts: seq<Act>, k: nat, c: nat, x: int)
    requires IsRun(ws, acts) && k <= |acts|
  {
    exists j, e :: 0 <= j < k && IsMsg(e, c, x) && SentHere(ws[j], acts[j], e)
  }

  lemma StartHasEvidence(w: World, a: Act, i: nat)
    requires Inv(w) && Enabled(w, a) && (a.Deliver? || a.Poll?) && ReadsFresh(w, a)
    requires w.peers[a.p].next <= |w.log| && EvidenceOk(w.log, w.peers[a.p])
    requires var out := Step(w.peers[a.p].ls, LocalEvent(w, a)).1; out.StartKernel? && i < |out.cg.members|
    ensures var cg := Step(w.peers[a.p].ls, LocalEvent(w, a)).1.cg; HasMsg(w.log, |w.log|, cg.id, cg.members[i].nodeid)
  {
    hide Inv, Handle, ReadsFresh, Leaves, PendingOk, GateInv, HasMsg, WaitConditionsDone;
    HandledOk(w, a);
    var mid := Handled(w, a);
    var cg := mid.ls.changes[0];
    HasMsgLonger(w.log, mid.next, |w.log|, cg.id, cg.members[i].nodeid);
  }

  /** How far a node has read when its step is done. */
  function ReadUpTo(w: World, a: Act): nat
    requires (a.Deliver? || a.Poll?) && a.p < |w.peers|
  {
    w.peers[a.p].next + if a.Deliver? then 1 else 0
  }

  /** If a node starts its kernel for a change, then every member of that change had
      already sent its start with that very change at the head of its list, its
      kernel stopped and its own conditions met -- provided none of the messages the
      node itself has read since it joined is stale. */
  lemma NoneStartsAlone(ws: seq<World>, acts: seq<Act>, k: nat, i: nat)
    requires IsRun(ws, acts) && k < |acts| && (acts[k].Deliver? || acts[k].Poll?)
    requires ReadUpTo(ws[k], acts[k]) <= |ws[k].log|
    requires var peer := ws[k].peers[acts[k].p];
             NoneStale(ws[k].log, peer.nodeid, peer.born, ReadUpTo(ws[k], acts[k]))
    requires var out := Step(ws[k].peers[acts[k].p].ls, LocalEvent(ws[k], acts[k])).1; out.StartKernel? && i < |out.cg.members|
    ensures var cg := Step(ws[k].peers[acts[k].p].ls, LocalEvent(ws[k], acts[k])).1.cg;
            StoodAt(ws, acts, k, cg.id, cg.members[i].nodeid)
  {
    hide Step, NoneStale, Stale, Inv, SentHere, Next, EvidenceOk;
    var w, a := ws[k], acts[k];
    var peer := w.peers[a.p];
    RunInv(ws, acts, k);
    InvNext(w, a.p);
    NoneStalePrefix(w.log, w.log, peer.nodeid, peer.born, peer.next, ReadUpTo(w, a));
    RunEvidence(ws, acts, k, a.p);
    PeerLocal(w, a.p);
    if a.Deliver? { StaleAt(w.log, peer.nodeid, peer.born, ReadUpTo(w, a), peer.next); }
    StartHasEvidence(w, a, i);
    var cg := Step(peer.ls, LocalEvent(w, a)).1.cg;
    var n :| 0 <= n < |w.log| && IsMsg(w.log[n], cg.id, cg.members[i].nodeid);
    assert InWorld(w, w.log[n]);
    var j := WasSent(ws, acts, k, w.log[n]);
    assert IsMsg(w.log[n], cg.id, cg.members[i].nodeid) && SentHere(ws[j], acts[j], w.log[n]);
  }

  /** A start message tells its change apart exactly from those that do not look
      like it. */
  lemma MatchIffLookalike(a: ConfChg, b: ConfChg, cg: Change, m: StartMsg, our: int)
    requires DistinctIds(a.members) && DistinctIds(b.members) && Content(m, a) && Describes(cg, b)
    ensures MatchChange(cg, m, our) <==> SameSignature(a, b) && our in a.members && m.nodeid in b.members
  {
    hide FailedCount;
    MemberIds(cg.members, m.nodeid);
    forall x ensures IsMember(cg.members, x) <==> x in b.members { MemberIds(cg.members, x); }
    if MatchChange(cg, m, our) {
      forall i | 0 <= i < |a.members| ensures a.members[i] in b.members {
        assert IsMember(cg.members, m.ids[i]);
      }
      MatchForcesSameMembers(a, b);
    }
    if SameSignature(a, b) {
      forall i | 0 <= i < |m.ids| ensures IsMember(cg.members, m.ids[i]) {
        assert m.ids[i] in AsSet(a.members);
      }
    }
  }
}
