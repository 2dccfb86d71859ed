/**
 No start before the fence: a node that fails after it took part is reported
 fenced, later than it was added, before the kernel starts again.
 */
module Fencing {
  import opened Membership
  import opened Gates

  /** `x` waits to be fenced, and only a fence later than `a` will do. */
  predicate Pending(h: seq<Node>, x: int, a: nat) {
    var i := NodeIndex(h, x);
    i < |h| && h[i].checkFencing && h[i].addTime >= a
  }

  predicate HasTime(h: seq<Node>, x: int, a: nat) {
    var i := NodeIndex(h, x);
    i < |h| && h[i].addTime == a
  }

  predicate TimesBounded(h: seq<Node>, t: nat) {
    forall i :: 0 <= i < |h| ==> h[i].addTime <= t
  }

  /** `x` does not leave normally in this event. */
  predicate NoLeave(ev: Event, x: int) {
    ev.Confchg? ==> Left(x, false) !in ev.cc.left
  }

  lemma IndexUpdate(h: seq<Node>, k: nat, n: Node, x: int)
    requires k < |h| && n.nodeid == h[k].nodeid
    ensures NodeIndex(h[k := n], x) == NodeIndex(h, x)
  {
    var after := h[k := n];
    assert forall i :: 0 <= i < |h| ==> after[i].nodeid == h[i].nodeid;
    var i, j := NodeIndex(after, x), NodeIndex(h, x);
    assert i >= j && j >= i;
  }

  lemma IndexAppend(h: seq<Node>, n: Node, x: int)
    requires NodeIndex(h, x) < |h|
    ensures NodeIndex(h + [n], x) == NodeIndex(h, x)
  {
    var after := h + [n];
    var i, j := NodeIndex(after, x), NodeIndex(h, x);
    assert after[j].nodeid == x;
    assert i >= j;
  }

  /** What one entry of the left list does for `x`. */
  lemma RemoveOne(h: seq<Node>, y: Left, fencing: bool, quorum: bool, x: int, a: nat)
    requires y != Left(x, false) || a == 0
    ensures var after := HistoryRemove(h, y, fencing, quorum);
            && (Pending(h, x, a) ==> Pending(after, x, a))
            && (HasTime(h, x, a) ==> HasTime(after, x, a))
            && (HasTime(h, x, a) && a != 0 && fencing && y == Left(x, true) ==> Pending(after, x, a))
  {
    var k := NodeIndex(h, y.nodeid);
    if k < |h| {
      var n := if y.failed then Failed(h[k], fencing, quorum) else h[k].(addTime := 0);
      IndexUpdate(h, k, n, x);
    }
  }

  lemma {:induction false} RemovePending(h: seq<Node>, left: seq<Left>, n: nat, fencing: bool, quorum: bool, x: int, a: nat)
    requires n <= |left| && (Left(x, false) !in left || a == 0)
    ensures var after := HistoryRemoveAll(h, left, n, fencing, quorum);
            && (Pending(h, x, a) ==> Pending(after, x, a))
            && (HasTime(h, x, a) ==> HasTime(after, x, a))
            && (HasTime(h, x, a) && a != 0 && fencing && Left(x, true) in left[..n] ==> Pending(after, x, a))
  {
    hide HistoryRemove, Pending, HasTime;
    if n > 0 {
      RemovePending(h, left, n - 1, fencing, quorum, x, a);
      assert left[n - 1] in left && left[..n] == left[..n - 1] + [left[n - 1]];
      RemoveOne(HistoryRemoveAll(h, left, n - 1, fencing, quorum), left[n - 1], fencing, quorum, x, a);
    }
  }

  lemma InitPending(h: seq<Node>, y: int, x: int, a: nat)
    requires Pending(h, x, a)
    ensures Pending(HistoryInit(h, y), x, a)
  {
    IndexAppend(h, Node(y, false, false, 0), x);
  }

  lemma {:induction false} InitAllPending(h: seq<Node>, ids: seq<int>, n: nat, x: int, a: nat)
    requires n <= |ids| && Pending(h, x, a)
    ensures Pending(HistoryInitAll(h, ids, n), x, a)
  {
    hide Pending, HistoryInit;
    if n > 0 {
      InitAllPending(h, ids, n - 1, x, a);
      InitPending(HistoryInitAll(h, ids, n - 1), ids[n - 1], x, a);
    }
  }

  lemma {:induction false} JoinPending(j: Joining, joined: seq<int>, n: nat, our: int, x: int, a: nat)
    requires n <= |joined| && Pending(j.history, x, a)
    ensures Pending(JoinAll(j, joined, n, our).history, x, a)
  {
    hide Pending, HistoryInit, MembIndex;
    if n > 0 {
      JoinPending(j, joined, n - 1, our, x, a);
      InitPending(JoinAll(j, joined, n - 1, our).history, joined[n - 1], x, a);
    }
  }

  lemma AddChangePending(ls: Lockspace, cc: ConfChg, id: nat, x: int, a: nat)
    requires Left(x, false) !in cc.left || a == 0
    requires Pending(ls.history, x, a) || (HasTime(ls.history, x, a) && a != 0 && ls.fencing && Left(x, true) in cc.left)
    ensures Pending(AddChange(ls, cc, id).0.history, x, a)
  {
    hide Pending, HasTime, HistoryRemoveAll, JoinAll, HistoryInitAll;
    assert cc.left[..|cc.left|] == cc.left;
    var h1 := HistoryRemoveAll(ls.history, cc.left, |cc.left|, ls.fencing, ls.quorum);
    RemovePending(ls.history, cc.left, |cc.left|, ls.fencing, ls.quorum, x, a);
    var j0 := Joining(NewMembers(cc.members), h1, false, false);
    JoinPending(j0, cc.joined, |cc.joined|, ls.our, x, a);
    InitAllPending(JoinAll(j0, cc.joined, |cc.joined|, ls.our).history, cc.members, |cc.members|, x, a);
  }

  lemma StartPending(h: seq<Node>, y: int, now: nat, x: int, a: nat)
    requires Pending(h, x, a) && now >= a
    ensures Pending(HistoryStart(h, y, now), x, a)
  {
    var k := NodeIndex(h, y);
    if k < |h| { IndexUpdate(h, k, h[k].(addTime := now), x); }
  }

  lemma HandlePending(ls: Lockspace, ev: Event, x: int, a: nat)
    requires Pending(ls.history, x, a) && ev.env.now >= a && (NoLeave(ev, x) || a == 0)
    ensures Pending(Handle(ls, ev).0.history, x, a)
  {
    hide Pending, AddChange, HistoryStart, FindChange, IsAdded, MembIndex;
    match ev {
      case Confchg(cc, id, env) => AddChangePending(ls, cc, id, x, a);
      case Start(msg, env) => StartPending(ls.history, msg.nodeid, env.now, x, a);
      case Tick(env) =>
    }
  }

  lemma SameNodes(h: seq<Node>, g: seq<Node>, x: int)
    requires |g| == |h| && forall i :: 0 <= i < |h| ==> g[i].nodeid == h[i].nodeid
    ensures NodeIndex(g, x) == NodeIndex(h, x)
  {
    var i, j := NodeIndex(g, x), NodeIndex(h, x);
    assert i >= j && j >= i;
  }

  /** Only a fence time later than `a` takes `x` off the waiting list. */
  lemma ApplyPending(ls: Lockspace, env: Env, x: int, a: nat)
    requires Pending(ls.history, x, a)
    ensures Pending(ApplyChanges(ls, env).0.history, x, a) || FenceTime(env, x) > a
  {
    var h1 := UnfenceAll(ls.history, env);
    var h2 := UnquorumAll(h1, env);
    var h3 := UnquorumAll(ls.history, env);
    SameNodes(ls.history, h1, x);
    SameNodes(h1, h2, x);
    SameNodes(ls.history, h3, x);
  }

  lemma StepPending(ls: Lockspace, ev: Event, x: int, a: nat)
    requires Pending(ls.history, x, a) && ev.env.now >= a && NoLeave(ev, x)
    ensures Pending(Step(ls, ev).0.history, x, a) || FenceTime(ev.env, x) > a
  {
    hide Pending, Handle, ApplyChanges;
    HandlePending(ls, ev, x, a);
    ApplyPending(Handle(ls, ev).0, ev.env, x, a);
  }

  lemma FailPending(ls: Lockspace, ev: Event, x: int, a: nat)
    requires ev.Confchg? && NoLeave(ev, x) && Left(x, true) in ev.cc.left && ls.fencing && a != 0 && HasTime(ls.history, x, a)
    ensures Pending(Step(ls, ev).0.history, x, a) || FenceTime(ev.env, x) > a
  {
    hide Pending, AddChange, ApplyChanges;
    AddChangePending(ls, ev.cc, ev.id, x, a);
    ApplyPending(Handle(ls, ev).0, ev.env, x, a);
  }

  // ---------- the clock

  lemma {:induction false} RemoveTimes(h: seq<Node>, left: seq<Left>, n: nat, fencing: bool, quorum: bool, t: nat)
    requires n <= |left| && TimesBounded(h, t)
    ensures TimesBounded(HistoryRemoveAll(h, left, n, fencing, quorum), t)
  {
    if n > 0 { RemoveTimes(h, left, n - 1, fencing, quorum, t); }
  }

  lemma {:induction false} InitTimes(h: seq<Node>, ids: seq<int>, n: nat, t: nat)
    requires n <= |ids| && TimesBounded(h, t)
    ensures TimesBounded(HistoryInitAll(h, ids, n), t)
  {
    if n > 0 { InitTimes(h, ids, n - 1, t); }
  }

  lemma {:induction false} JoinTimes(j: Joining, joined: seq<int>, n: nat, our: int, t: nat)
    requires n <= |joined| && TimesBounded(j.history, t)
    ensures TimesBounded(JoinAll(j, joined, n, our).history, t)
  {
    hide MembIndex;
    if n > 0 { JoinTimes(j, joined, n - 1, our, t); }
  }

  lemma StepTimes(ls: Lockspace, ev: Event, t: nat)
    requires TimesBounded(ls.history, t) && t <= ev.env.now
    ensures TimesBounded(Step(ls, ev).0.history, ev.env.now)
  {
    hide HistoryRemoveAll, JoinAll, HistoryInitAll, FindChange, IsAdded, MembIndex, ApplyChanges;
    var now := ev.env.now;
    match ev {
      case Confchg(cc, id, env) =>
        var h1 := HistoryRemoveAll(ls.history, cc.left, |cc.left|, ls.fencing, ls.quorum);
        RemoveTimes(ls.history, cc.left, |cc.left|, ls.fencing, ls.quorum, now);
        var j0 := Joining(NewMembers(cc.members), h1, false, false);
        JoinTimes(j0, cc.joined, |cc.joined|, ls.our, now);
        InitTimes(JoinAll(j0, cc.joined, |cc.joined|, ls.our).history, cc.members, |cc.members|, now);
      case Start(msg, env) =>
      case Tick(env) =>
    }
    ApplyTimes(Handle(ls, ev).0, ev.env, now);
  }

  lemma ApplyTimes(ls: Lockspace, env: Env, t: nat)
    requires TimesBounded(ls.history, t)
    ensures TimesBounded(ApplyChanges(ls, env).0.history, t)
  {
  }

  ghost predicate Monotone(evs: seq<Event>) {
    forall i, j :: 0 <= i <= j < |evs| ==> evs[i].env.now <= evs[j].env.now
  }

  /** No entry is from the future. */
  lemma {:induction false} RunTimes(ls: Lockspace, evs: seq<Event>, k: nat)
    requires Initial(ls) && Monotone(evs) && k < |evs|
    ensures TimesBounded(After(ls, evs[..k]).history, evs[k].env.now)
    decreases k
  {
    if k > 0 {
      RunTimes(ls, evs, k - 1);
      assert evs[..k][..k - 1] == evs[..k - 1];
      StepTimes(After(ls, evs[..k - 1]), evs[k - 1], evs[k - 1].env.now);
    }
  }

  // ---------- over a run

  ghost predicate FencedIn(evs: seq<Event>, i: nat, k: nat, x: int, a: nat)
    requires k <= |evs|
  {
    exists m :: i <= m < k && FenceTime(evs[m].env, x) > a
  }

  /** From the failure on, `x` stays on the waiting list until it has been fenced. */
  lemma {:induction false} PendingUntilFenced(ls: Lockspace, evs: seq<Event>, i: nat, k: nat, x: int, a: nat)
    requires i < k <= |evs| && Monotone(evs) && a <= evs[i].env.now
    requires forall m :: i < m < k ==> NoLeave(evs[m], x)
    requires Pending(After(ls, evs[..i + 1]).history, x, a) || FenceTime(evs[i].env, x) > a
    ensures Pending(After(ls, evs[..k]).history, x, a) || FencedIn(evs, i, k, x, a)
    decreases k
  {
    hide Pending, Step;
    if k > i + 1 {
      PendingUntilFenced(ls, evs, i, k - 1, x, a);
      assert evs[..k][..k - 1] == evs[..k - 1];
      if Pending(After(ls, evs[..k - 1]).history, x, a) {
        StepPending(After(ls, evs[..k - 1]), evs[k - 1], x, a);
      }
    }
  }

  /** Node `x` was added at time `a` and fails in event `i`. If event `j` starts the
      kernel and `x` has not left normally in between, then the fence daemon had
      reported `x` fenced later than `a`. */
  lemma FencedBeforeStart(ls: Lockspace, evs: seq<Event>, i: nat, j: nat, x: int, a: nat)
    requires Initial(ls) && ls.fencing && Monotone(evs) && (forall ev :: ev in evs ==> WellFormedChange(ev))
    requires i < j < |evs| && evs[i].Confchg? && Left(x, true) in evs[i].cc.left
    requires a != 0 && HasTime(After(ls, evs[..i]).history, x, a)
    requires forall m :: i <= m <= j ==> NoLeave(evs[m], x)
    requires Step(After(ls, evs[..j]), evs[j]).1.StartKernel?
    ensures FencedIn(evs, i, j, x, a)
  {
    hide Step, Initial;
    RunTimes(ls, evs, i);
    ConstantFlags(ls, evs[..i]);
    assert evs[..i + 1][..i] == evs[..i];
    FailPending(After(ls, evs[..i]), evs[i], x, a);
    PendingUntilFenced(ls, evs, i, j, x, a);
    assert evs[j] in evs;
    forall ev | ev in evs[..j] ensures WellFormedChange(ev) { assert ev in evs; }
    RunGates(ls, evs[..j]);
    if Pending(After(ls, evs[..j]).history, x, a) {
      StartNotPending(After(ls, evs[..j]), evs[j], x, a);
    }
  }

  /** In this event the fence daemon reports `x` fenced later than the add time on
      record, and `x` was waiting for it. */
  predicate Clears(ls: Lockspace, ev: Event, x: int) {
    var h := Handle(ls, ev).0.history;
    var i := NodeIndex(h, x);
    i < |h| && h[i].checkFencing && FenceTime(ev.env, x) > h[i].addTime
  }

  lemma ApplyFlag(ls: Lockspace, env: Env, x: int, i: nat)
    requires i == NodeIndex(ls.history, x) < |ls.history| && ls.history[i].checkFencing
    ensures Pending(ApplyChanges(ls, env).0.history, x, 0) || FenceTime(env, x) > ls.history[i].addTime
  {
    ApplyPending(ls, env, x, ls.history[i].addTime);
  }

  lemma StepFlag(ls: Lockspace, ev: Event, x: int)
    requires Pending(Handle(ls, ev).0.history, x, 0)
    ensures Pending(Step(ls, ev).0.history, x, 0) || Clears(ls, ev, x)
  {
    hide Handle, ApplyChanges;
    var h := Handle(ls, ev).0.history;
    ApplyFlag(Handle(ls, ev).0, ev.env, x, NodeIndex(h, x));
  }

  ghost predicate ClearedIn(ls: Lockspace, evs: seq<Event>, i: nat, k: nat, x: int)
    requires k <= |evs|
  {
    exists m :: i <= m < k && Clears(After(ls, evs[..m]), evs[m], x)
  }

  /** Once `x` has to be fenced, only such a report takes it off the waiting list. */
  lemma {:induction false} FlaggedUntilCleared(ls: Lockspace, evs: seq<Event>, i: nat, k: nat, x: int)
    requires i < k <= |evs| && Pending(Handle(After(ls, evs[..i]), evs[i]).0.history, x, 0)
    ensures Pending(After(ls, evs[..k]).history, x, 0) || ClearedIn(ls, evs, i, k, x)
    decreases k
  {
    hide Pending, Step, Handle, Clears;
    assert evs[..k][..k - 1] == evs[..k - 1];
    var before := After(ls, evs[..k - 1]);
    if k > i + 1 {
      FlaggedUntilCleared(ls, evs, i, k - 1, x);
      if Pending(before.history, x, 0) { HandlePending(before, evs[k - 1], x, 0); }
    }
    if Pending(Handle(before, evs[k - 1]).0.history, x, 0) { StepFlag(before, evs[k - 1], x); }
  }

  /** Whoever leaves in between and whatever the clock does: if `x` fails in event `i`
      with a non-zero add time and event `j` starts the kernel, then before that `x`
      was reported fenced later than its add time on record at that moment. */
  lemma FencedAfterRecorded(ls: Lockspace, evs: seq<Event>, i: nat, j: nat, x: int, a: nat)
    requires Initial(ls) && ls.fencing && (forall ev :: ev in evs ==> WellFormedChange(ev))
    requires i < j < |evs| && evs[i].Confchg? && Left(x, true) in evs[i].cc.left && NoLeave(evs[i], x)
    requires a != 0 && HasTime(After(ls, evs[..i]).history, x, a)
    requires Step(After(ls, evs[..j]), evs[j]).1.StartKernel?
    ensures ClearedIn(ls, evs, i, j, x)
  {
    hide Step, Initial, Clears, AddChange;
    ConstantFlags(ls, evs[..i]);
    AddChangePending(After(ls, evs[..i]), evs[i].cc, evs[i].id, x, a);
    assert Pending(Handle(After(ls, evs[..i]), evs[i]).0.history, x, 0);
    FlaggedUntilCleared(ls, evs, i, j, x);
    assert evs[j] in evs;
    forall ev | ev in evs[..j] ensures WellFormedChange(ev) { assert ev in evs; }
    RunGates(ls, evs[..j]);
    StartNotPending(After(ls, evs[..j]), evs[j], x, 0);
  }

  lemma StartNotPending(ls: Lockspace, ev: Event, x: int, a: nat)
    requires GateInv(ls) && WellFormedChange(ev) && ev.env.now >= a && (NoLeave(ev, x) || a == 0)
    requires Step(ls, ev).1.StartKernel?
    ensures !Pending(ls.history, x, a)
  {
    hide Handle, ApplyChanges;
    HandleGates(ls, ev);
    ApplyGates(Handle(ls, ev).0, ev.env);
    if Pending(ls.history, x, a) { HandlePending(ls, ev, x, a); }
  }

  lemma {:induction false} ConstantFlags(ls: Lockspace, evs: seq<Event>)
    ensures SameSettings(ls, After(ls, evs))
    decreases |evs|
  {
    hide Step;
    if evs != [] {
      ConstantFlags(ls, evs[..|evs| - 1]);
      SameConfig(After(ls, evs[..|evs| - 1]), evs[|evs| - 1]);
    }
  }

  predicate SameSettings(ls: Lockspace, after: Lockspace) {
    after.fencing == ls.fencing && after.quorum == ls.quorum && after.our == ls.our
  }

  lemma SameConfig(ls: Lockspace, ev: Event)
    ensures SameSettings(ls, Step(ls, ev).0)
  {
    hide Handle, ApplyChanges;
    HandleConfig(ls, ev);
    ApplyConfig(Handle(ls, ev).0, ev.env);
  }

  lemma HandleConfig(ls: Lockspace, ev: Event)
    ensures SameSettings(ls, Handle(ls, ev).0)
  {
    hide FindChange, IsAdded, MembIndex, JoinAll, HistoryRemoveAll, HistoryInitAll, HistoryStart, SetMember;
  }

  lemma ApplyConfig(ls: Lockspace, env: Env)
    ensures SameSettings(ls, ApplyChanges(ls, env).0)
  {
    hide WaitConditionsDone;
  }
}
