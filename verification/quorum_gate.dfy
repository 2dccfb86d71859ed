/**
 No start before the quorum service has noticed a failure, and none without the
 conditions met since the last change.
 */
module QuorumGate {
  import opened Membership
  import opened Gates
  import opened Fencing

  /** The quorum service has still to notice that `x` failed. */
  predicate Unnoticed(h: seq<Node>, x: int) {
    var i := NodeIndex(h, x);
    i < |h| && h[i].checkQuorum
  }

  predicate HasEntry(h: seq<Node>, x: int) {
    NodeIndex(h, x) < |h|
  }

  // ---------- a failure raises the flag

  lemma RemoveOneFlag(h: seq<Node>, y: Left, fencing: bool, quorum: bool, x: int)
    ensures var after := HistoryRemove(h, y, fencing, quorum);
            && (HasEntry(h, x) ==> HasEntry(after, x)) && (Unnoticed(h, x) ==> Unnoticed(after, x))
            && (HasEntry(h, x) && quorum && !fencing && y == Left(x, true) ==> Unnoticed(after, x))
  {
    var k := NodeIndex(h, y.nodeid);
    if k < |h| {
      var n := if y.failed then Failed(h[k], fencing, quorum) else h[k].(addTime := 0);
      IndexUpdate(h, k, n, x);
    }
  }

  lemma {:induction false} RemoveFlags(h: seq<Node>, left: seq<Left>, n: nat, fencing: bool, quorum: bool, x: int)
    requires n <= |left|
    ensures var after := HistoryRemoveAll(h, left, n, fencing, quorum);
            && (HasEntry(h, x) ==> HasEntry(after, x)) && (Unnoticed(h, x) ==> Unnoticed(after, x))
            && (HasEntry(h, x) && quorum && !fencing && Left(x, true) in left[..n] ==> Unnoticed(after, x))
  {
    hide HistoryRemove, Unnoticed, HasEntry;
    if n > 0 {
      RemoveFlags(h, left, n - 1, fencing, quorum, x);
      assert left[..n] == left[..n - 1] + [left[n - 1]];
      RemoveOneFlag(HistoryRemoveAll(h, left, n - 1, fencing, quorum), left[n - 1], fencing, quorum, x);
    }
  }

  // ---------- and nothing but the quorum service lowers it

  lemma InitKeeps(h: seq<Node>, y: int, x: int)
    requires Unnoticed(h, x)
    ensures Unnoticed(HistoryInit(h, y), x)
  {
    IndexAppend(h, Node(y, false, false, 0), x);
  }

  lemma {:induction false} InitAllKeeps(h: seq<Node>, ids: seq<int>, n: nat, x: int)
    requires n <= |ids| && Unnoticed(h, x)
    ensures Unnoticed(HistoryInitAll(h, ids, n), x)
  {
    hide Unnoticed, HistoryInit;
    if n > 0 {
      InitAllKeeps(h, ids, n - 1, x);
      InitKeeps(HistoryInitAll(h, ids, n - 1), ids[n - 1], x);
    }
  }

  lemma {:induction false} JoinKeeps(j: Joining, joined: seq<int>, n: nat, our: int, x: int)
    requires n <= |joined| && Unnoticed(j.history, x)
    ensures Unnoticed(JoinAll(j, joined, n, our).history, x)
  {
    hide Unnoticed, HistoryInit, MembIndex;
    if n > 0 {
      JoinKeeps(j, joined, n - 1, our, x);
      InitKeeps(JoinAll(j, joined, n - 1, our).history, joined[n - 1], x);
    }
  }

  lemma AddChangeRaises(ls: Lockspace, cc: ConfChg, id: nat, x: int)
    requires Unnoticed(ls.history, x) ||
             (HasEntry(ls.history, x) && ls.quorum && !ls.fencing && Left(x, true) in cc.left)
    ensures Unnoticed(AddChange(ls, cc, id).0.history, x)
  {
    hide Unnoticed, HasEntry, HistoryRemoveAll, JoinAll, HistoryInitAll;
    assert cc.left[..|cc.left|] == cc.left;
    var h1 := HistoryRemoveAll(ls.history, cc.left, |cc.left|, ls.fencing, ls.quorum);
    RemoveFlags(ls.history, cc.left, |cc.left|, ls.fencing, ls.quorum, x);
    var j0 := Joining(NewMembers(cc.members), h1, false, false);
    JoinKeeps(j0, cc.joined, |cc.joined|, ls.our, x);
    InitAllKeeps(JoinAll(j0, cc.joined, |cc.joined|, ls.our).history, cc.members, |cc.members|, x);
  }

  lemma StartKeeps(h: seq<Node>, y: int, now: nat, x: int)
    requires Unnoticed(h, x)
    ensures Unnoticed(HistoryStart(h, y, now), x)
  {
    var k := NodeIndex(h, y);
    if k < |h| { IndexUpdate(h, k, h[k].(addTime := now), x); }
  }

  lemma HandleKeeps(ls: Lockspace, ev: Event, x: int)
    requires Unnoticed(ls.history, x)
    ensures Unnoticed(Handle(ls, ev).0.history, x)
  {
    hide Unnoticed, AddChange, HistoryStart, FindChange, IsAdded, MembIndex;
    match ev {
      case Confchg(cc, id, env) => AddChangeRaises(ls, cc, id, x);
      case Start(msg, env) => StartKeeps(ls.history, msg.nodeid, env.now, x);
      case Tick(env) =>
    }
  }

  /** apply_changes does no more to the history than the two checks do. */
  lemma AppliedHistory(ls: Lockspace, env: Env)
    ensures var h, after := ls.history, ApplyChanges(ls, env).0.history;
            after == h || after == UnfenceAll(h, env) || after == UnquorumAll(h, env) || after == UnquorumAll(UnfenceAll(h, env), env)
  {
    hide UnfenceAll, UnquorumAll, NoFencing, NoQuorum, AllStarted;
  }

  lemma AppliedIndex(ls: Lockspace, env: Env, x: int)
    ensures NodeIndex(ApplyChanges(ls, env).0.history, x) == NodeIndex(ls.history, x)
    ensures |ApplyChanges(ls, env).0.history| == |ls.history|
  {
    hide ApplyChanges;
    AppliedHistory(ls, env);
    var h1 := UnfenceAll(ls.history, env);
    SameNodes(ls.history, h1, x);
    SameNodes(h1, UnquorumAll(h1, env), x);
    SameNodes(ls.history, UnquorumAll(ls.history, env), x);
  }

  lemma AppliedEntry(ls: Lockspace, env: Env, i: nat)
    requires i < |ls.history|
    ensures var n, after := ls.history[i], ApplyChanges(ls, env).0.history;
            && i < |after|
            && (after[i] == n || after[i] == Unfence(n, env) || after[i] == Unquorum(n, env) ||
                after[i] == Unquorum(Unfence(n, env), env))
  {
    hide ApplyChanges, Unfence, Unquorum;
    AppliedHistory(ls, env);
  }

  lemma ApplyKeeps(ls: Lockspace, env: Env, x: int)
    requires Unnoticed(ls.history, x)
    ensures Unnoticed(ApplyChanges(ls, env).0.history, x) || x !in env.inCluster
  {
    hide ApplyChanges;
    AppliedIndex(ls, env, x);
    AppliedEntry(ls, env, NodeIndex(ls.history, x));
  }

  ghost predicate NoticedIn(evs: seq<Event>, i: nat, k: nat, x: int)
    requires k <= |evs|
  {
    exists m :: i <= m < k && x !in evs[m].env.inCluster
  }

  lemma {:induction false} UnnoticedUntil(ls: Lockspace, evs: seq<Event>, i: nat, k: nat, x: int)
    requires i < k <= |evs| && Unnoticed(Handle(After(ls, evs[..i]), evs[i]).0.history, x)
    ensures Unnoticed(After(ls, evs[..k]).history, x) || NoticedIn(evs, i, k, x)
    decreases k
  {
    hide Unnoticed, Handle, ApplyChanges;
    assert evs[..k][..k - 1] == evs[..k - 1];
    var before := After(ls, evs[..k - 1]);
    if k > i + 1 {
      UnnoticedUntil(ls, evs, i, k - 1, x);
      if Unnoticed(before.history, x) { HandleKeeps(before, evs[k - 1], x); }
    }
    if Unnoticed(Handle(before, evs[k - 1]).0.history, x) { ApplyKeeps(Handle(before, evs[k - 1]).0, evs[k - 1].env, x); }
  }

  lemma StartNotUnnoticed(ls: Lockspace, ev: Event, x: int)
    requires GateInv(ls) && WellFormedChange(ev) && Step(ls, ev).1.StartKernel?
    ensures !Unnoticed(ls.history, x)
  {
    hide Handle, ApplyChanges;
    HandleGates(ls, ev);
    ApplyGates(Handle(ls, ev).0, ev.env);
    if Unnoticed(ls.history, x) { HandleKeeps(ls, ev, x); }
  }

  lemma WellFormedPrefix(evs: seq<Event>, j: nat)
    requires j < |evs| && forall ev :: ev in evs ==> WellFormedChange(ev)
    ensures WellFormedChange(evs[j]) && forall ev :: ev in evs[..j] ==> WellFormedChange(ev)
  {
    hide WellFormedChange;
    assert evs[j] in evs;
    forall ev | ev in evs[..j] ensures WellFormedChange(ev) { assert ev in evs; }
  }

  /** With quorum and without fencing: if `x`, on record, fails in event `i` and event
      `j` starts the kernel, then before that the quorum service no longer had `x`
      among the members. */
  lemma NoticedBeforeStart(ls: Lockspace, evs: seq<Event>, i: nat, j: nat, x: int)
    requires Initial(ls) && ls.quorum && !ls.fencing && (forall ev :: ev in evs ==> WellFormedChange(ev))
    requires i < j < |evs| && evs[i].Confchg? && Left(x, true) in evs[i].cc.left && HasEntry(After(ls, evs[..i]).history, x)
    requires Step(After(ls, evs[..j]), evs[j]).1.StartKernel?
    ensures NoticedIn(evs, i, j, x)
  {
    hide Step, Initial, AddChange, Unnoticed, WellFormedChange;
    ConstantFlags(ls, evs[..i]);
    AddChangeRaises(After(ls, evs[..i]), evs[i].cc, evs[i].id, x);
    UnnoticedUntil(ls, evs, i, j, x);
    WellFormedPrefix(evs, j);
    RunGates(ls, evs[..j]);
    StartNotUnnoticed(After(ls, evs[..j]), evs[j], x);
  }

  // ---------- when a node says start, and what a start goes back to

  /** Nothing is being fenced and the cluster is quorate, as far as the settings ask. */
  predicate Clear(ls: Lockspace, env: Env) {
    (ls.fencing ==> !env.fenceBusy) && (ls.quorum ==> env.quorate)
  }

  lemma SendsWhenClear(ls: Lockspace, ev: Event)
    ensures Step(ls, ev).1.SendStart? ==> Clear(ls, ev.env)
  {
    hide Handle;
    HandleConfig(ls, ev);
  }

  /** In every run a node says start only in an event that finds the cluster quorate
      and no fencing under way. */
  lemma RunSendsWhenClear(ls: Lockspace, evs: seq<Event>, k: nat)
    requires k < |evs| && Step(After(ls, evs[..k]), evs[k]).1.SendStart?
    ensures Clear(ls, evs[k].env)
  {
    hide Step;
    ConstantFlags(ls, evs[..k]);
    SendsWhenClear(After(ls, evs[..k]), evs[k]);
  }

  predicate Awaits(ls: Lockspace) {
    ls.changes != [] && ls.changes[0].phase == WaitMessages
  }

  /** Event `m` said start for the change that was current until `k`. */
  ghost predicate SaidAt(ls: Lockspace, evs: seq<Event>, m: nat, k: nat)
    requires k <= |evs|
  {
    m < k && Step(After(ls, evs[..m]), evs[m]).1.SendStart? && forall i :: m < i < k ==> !evs[i].Confchg?
  }

  ghost predicate HasSaid(ls: Lockspace, evs: seq<Event>, k: nat)
    requires k <= |evs|
  {
    exists m: nat :: SaidAt(ls, evs, m, k)
  }

  /** A node awaits starts only after saying its own, or without a change by going on. */
  lemma AwaitsAfter(ls: Lockspace, ev: Event)
    requires Awaits(Step(ls, ev).0) && WellFormedChange(ev)
    ensures Step(ls, ev).1.SendStart? || (Awaits(ls) && !ev.Confchg?)
  {
    hide WaitConditionsDone, FindChange, IsAdded, MembIndex, HistoryStart, JoinAll, HistoryRemoveAll, HistoryInitAll;
    if ev.Confchg? { AddChangeWorks(ls, ev.cc, ev.id); }
  }

  lemma {:induction false} AwaitsHasSaid(ls: Lockspace, evs: seq<Event>, k: nat)
    requires Initial(ls) && k <= |evs| && Awaits(After(ls, evs[..k])) && forall ev :: ev in evs ==> WellFormedChange(ev)
    ensures HasSaid(ls, evs, k)
    decreases k
  {
    hide Step;
    if k > 0 {
      assert evs[..k][..k - 1] == evs[..k - 1] && evs[k - 1] in evs;
      AwaitsAfter(After(ls, evs[..k - 1]), evs[k - 1]);
      if Step(After(ls, evs[..k - 1]), evs[k - 1]).1.SendStart? {
        assert SaidAt(ls, evs, k - 1, k);
      } else {
        AwaitsHasSaid(ls, evs, k - 1);
        var m :| SaidAt(ls, evs, m, k - 1);
        assert SaidAt(ls, evs, m, k);
      }
    }
  }

  lemma StartAwaits(ls: Lockspace, ev: Event)
    requires Step(ls, ev).1.StartKernel? && WellFormedChange(ev)
    ensures Awaits(ls) && !ev.Confchg?
  {
    hide WaitConditionsDone, FindChange, IsAdded, MembIndex, HistoryStart, JoinAll, HistoryRemoveAll, HistoryInitAll;
    if ev.Confchg? { AddChangeWorks(ls, ev.cc, ev.id); }
  }

  /** Every start of the kernel goes back to an event since the last configuration
      change in which the node said start, with the cluster quorate and no fencing
      under way. */
  lemma StartGoesBack(ls: Lockspace, evs: seq<Event>, j: nat)
    requires Initial(ls) && (forall ev :: ev in evs ==> WellFormedChange(ev))
    requires j < |evs| && Step(After(ls, evs[..j]), evs[j]).1.StartKernel?
    ensures exists m: nat :: SaidAt(ls, evs, m, j + 1) && Clear(ls, evs[m].env)
  {
    hide Step, Clear, WellFormedChange, Initial;
    WellFormedPrefix(evs, j);
    StartAwaits(After(ls, evs[..j]), evs[j]);
    AwaitsHasSaid(ls, evs, j);
    var m :| SaidAt(ls, evs, m, j);
    RunSendsWhenClear(ls, evs, m);
    assert SaidAt(ls, evs, m, j + 1);
  }
}
