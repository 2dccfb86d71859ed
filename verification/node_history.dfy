/**
 What a node keeps on record about the others, over every run: who gets an entry,
 what its add time and flags go back to, and what a failure then costs.
 */
module NodeHistory {
  import opened Membership
  import opened Gates
  import opened Fencing
  import opened QuorumGate

  // ---------- who is on record

  /** `x` joins us, or is there when we join. */
  predicate Meets(ev: Event, our: int, x: int) {
    ev.Confchg? && ((x in ev.cc.joined && x != our) || (our in ev.cc.joined && x in ev.cc.members))
  }

  lemma InitEntry(h: seq<Node>, y: int, x: int)
    ensures HasEntry(HistoryInit(h, y), x) <==> HasEntry(h, x) || x == y
  {
    var after := HistoryInit(h, y);
    if HasEntry(h, x) { IndexAppend(h, Node(y, false, false, 0), x); }
    if x == y && !HasEntry(h, x) { assert after[|h|].nodeid == x; }
  }

  lemma {:induction false} InitAllEntries(h: seq<Node>, ids: seq<int>, n: nat, x: int)
    requires n <= |ids|
    ensures HasEntry(HistoryInitAll(h, ids, n), x) <==> HasEntry(h, x) || x in ids[..n]
  {
    hide HistoryInit, HasEntry;
    if n > 0 {
      InitAllEntries(h, ids, n - 1, x);
      InitEntry(HistoryInitAll(h, ids, n - 1), ids[n - 1], x);
      assert ids[..n] == ids[..n - 1] + [ids[n - 1]];
    }
  }

  lemma {:induction false} JoinEntries(j: Joining, joined: seq<int>, n: nat, our: int, x: int)
    requires n <= |joined| && !JoinAll(j, joined, n, our).missing
    ensures var after := JoinAll(j, joined, n, our);
            && (HasEntry(after.history, x) <==> HasEntry(j.history, x) || (x in joined[..n] && x != our))
            && (after.weJoined <==> j.weJoined || our in joined[..n]) && !j.missing
  {
    hide HistoryInit, HasEntry, MembIndex;
    if n > 0 {
      JoinEntries(j, joined, n - 1, our, x);
      InitEntry(JoinAll(j, joined, n - 1, our).history, joined[n - 1], x);
      assert joined[..n] == joined[..n - 1] + [joined[n - 1]];
    }
  }

  lemma {:induction false} RemoveEntries(h: seq<Node>, left: seq<Left>, n: nat, fencing: bool, quorum: bool, x: int)
    requires n <= |left|
    ensures HasEntry(HistoryRemoveAll(h, left, n, fencing, quorum), x) <==> HasEntry(h, x)
  {
    if n > 0 {
      RemoveEntries(h, left, n - 1, fencing, quorum, x);
      var before := HistoryRemoveAll(h, left, n - 1, fencing, quorum);
      var k := NodeIndex(before, left[n - 1].nodeid);
      if k < |before| {
        IndexUpdate(before, k, Failed(before[k], fencing, quorum), x);
        IndexUpdate(before, k, before[k].(addTime := 0), x);
      }
    }
  }

  lemma AddChangeEntries(ls: Lockspace, cc: ConfChg, id: nat, env: Env, x: int)
    requires AddChange(ls, cc, id).1
    ensures HasEntry(AddChange(ls, cc, id).0.history, x) <==> HasEntry(ls.history, x) || Meets(Confchg(cc, id, env), ls.our, x)
  {
    hide HasEntry, HistoryRemoveAll, JoinAll, HistoryInitAll;
    var h1 := HistoryRemoveAll(ls.history, cc.left, |cc.left|, ls.fencing, ls.quorum);
    RemoveEntries(ls.history, cc.left, |cc.left|, ls.fencing, ls.quorum, x);
    var j0 := Joining(NewMembers(cc.members), h1, false, false);
    JoinEntries(j0, cc.joined, |cc.joined|, ls.our, x);
    InitAllEntries(JoinAll(j0, cc.joined, |cc.joined|, ls.our).history, cc.members, |cc.members|, x);
    assert cc.joined[..|cc.joined|] == cc.joined && cc.members[..|cc.members|] == cc.members;
  }

  lemma StartEntry(h: seq<Node>, y: int, now: nat, x: int)
    ensures HasEntry(HistoryStart(h, y, now), x) <==> HasEntry(h, x)
  {
    var k := NodeIndex(h, y);
    if k < |h| { IndexUpdate(h, k, h[k].(addTime := now), x); }
  }

  lemma ApplyEntries(ls: Lockspace, env: Env, x: int)
    ensures HasEntry(ApplyChanges(ls, env).0.history, x) <==> HasEntry(ls.history, x)
  {
    hide ApplyChanges;
    AppliedIndex(ls, env, x);
  }

  lemma StepEntries(ls: Lockspace, ev: Event, x: int)
    requires WellFormedChange(ev)
    ensures HasEntry(Step(ls, ev).0.history, x) <==> HasEntry(ls.history, x) || Meets(ev, ls.our, x)
  {
    hide HasEntry, AddChange, ApplyChanges, FindChange, IsAdded, MembIndex, HistoryStart;
    ApplyEntries(Handle(ls, ev).0, ev.env, x);
    match ev {
      case Confchg(cc, id, env) =>
        AddChangeWorks(ls, cc, id);
        AddChangeEntries(ls, cc, id, env, x);
      case Start(msg, env) => StartEntry(ls.history, msg.nodeid, env.now, x);
      case Tick(env) =>
    }
  }

  /** In every run exactly those nodes are on record that have joined us, or were
      there when we joined. */
  lemma {:induction false} OnRecordIff(ls: Lockspace, evs: seq<Event>, x: int)
    requires Initial(ls) && forall ev :: ev in evs ==> WellFormedChange(ev)
    ensures HasEntry(After(ls, evs).history, x) <==> exists e :: 0 <= e < |evs| && Meets(evs[e], ls.our, x)
    decreases |evs|
  {
    hide HasEntry, Step, WellFormedChange;
    if evs == [] {
      NoEntries(ls, x);
    } else {
      var front, last := evs[..|evs| - 1], evs[|evs| - 1];
      assert last in evs && forall ev :: ev in front ==> ev in evs;
      OnRecordIff(ls, front, x);
      ConstantFlags(ls, front);
      StepEntries(After(ls, front), last, x);
      assert forall e :: 0 <= e < |front| ==> front[e] == evs[e];
      if exists e :: 0 <= e < |evs| && Meets(evs[e], ls.our, x) {
        var e :| 0 <= e < |evs| && Meets(evs[e], ls.our, x);
        assert e < |front| ==> Meets(front[e], ls.our, x);
      }
      if Meets(last, ls.our, x) { assert Meets(evs[|evs| - 1], ls.our, x); }
    }
  }

  lemma NoEntries(ls: Lockspace, x: int)
    requires Initial(ls)
    ensures !HasEntry(ls.history, x)
  {
  }

  /** `x` has met us before event `i`. */
  ghost predicate MetBefore(evs: seq<Event>, our: int, x: int, i: nat) {
    exists e :: 0 <= e < i && e < |evs| && Meets(evs[e], our, x)
  }

  lemma MetHasEntry(ls: Lockspace, evs: seq<Event>, x: int, i: nat)
    requires Initial(ls) && (forall ev :: ev in evs ==> WellFormedChange(ev)) && i < |evs| && MetBefore(evs, ls.our, x, i)
    ensures HasEntry(After(ls, evs[..i]).history, x)
  {
    hide HasEntry, WellFormedChange;
    WellFormedPrefix(evs, i);
    OnRecordIff(ls, evs[..i], x);
    var e :| 0 <= e < i && Meets(evs[e], ls.our, x);
    assert Meets(evs[..i][e], ls.our, x);
  }

  /** In terms of what was delivered alone: with quorum and without fencing, a node
      that has met us and fails is noticed by the quorum service before the kernel
      starts again. */
  lemma MetIsNoticed(ls: Lockspace, evs: seq<Event>, i: nat, j: nat, x: int)
    requires Initial(ls) && ls.quorum && !ls.fencing && (forall ev :: ev in evs ==> WellFormedChange(ev))
    requires i < j < |evs| && MetBefore(evs, ls.our, x, i) && evs[i].Confchg? && Left(x, true) in evs[i].cc.left
    requires Step(After(ls, evs[..j]), evs[j]).1.StartKernel?
    ensures NoticedIn(evs, i, j, x)
  {
    hide Step, WellFormedChange, HasEntry, MetBefore;
    MetHasEntry(ls, evs, x, i);
    NoticedBeforeStart(ls, evs, i, j, x);
  }

  // ---------- a start that counts sets the add time

  /** The start message of `x` is credited to a pending change and not refused. */
  predicate Counted(ls: Lockspace, ev: Event, x: int) {
    && ev.Start? && ev.msg.nodeid == x && FindChange(ls.changes, ev.msg, ls.our) < |ls.changes|
    && (IsAdded(ls.changes, x) ==> ev.msg.startedCount == 0)
  }

  predicate AtLeast(h: seq<Node>, x: int, a: nat) {
    var i := NodeIndex(h, x);
    i < |h| && h[i].addTime >= a
  }

  lemma CountedSets(ls: Lockspace, ev: Event, x: int)
    requires Counted(ls, ev, x) && HasEntry(ls.history, x)
    ensures HasTime(Handle(ls, ev).0.history, x, ev.env.now)
  {
    hide FindChange, IsAdded, MembIndex, SetMember;
    var h, k := ls.history, NodeIndex(ls.history, x);
    IndexUpdate(h, k, h[k].(addTime := ev.env.now), x);
  }

  lemma RemoveOneKeeps(h: seq<Node>, y: Left, fencing: bool, quorum: bool, x: int, a: nat)
    requires y != Left(x, false) && AtLeast(h, x, a)
    ensures AtLeast(HistoryRemove(h, y, fencing, quorum), x, a)
  {
    var k := NodeIndex(h, y.nodeid);
    if k < |h| {
      var n := if y.failed then Failed(h[k], fencing, quorum) else h[k].(addTime := 0);
      IndexUpdate(h, k, n, x);
    }
  }

  lemma {:induction false} RemoveKeeps(h: seq<Node>, left: seq<Left>, n: nat, fencing: bool, quorum: bool, x: int, a: nat)
    requires n <= |left| && Left(x, false) !in left && AtLeast(h, x, a)
    ensures AtLeast(HistoryRemoveAll(h, left, n, fencing, quorum), x, a)
  {
    hide HistoryRemove, AtLeast;
    if n > 0 {
      RemoveKeeps(h, left, n - 1, fencing, quorum, x, a);
      assert left[n - 1] in left;
      RemoveOneKeeps(HistoryRemoveAll(h, left, n - 1, fencing, quorum), left[n - 1], fencing, quorum, x, a);
    }
  }

  lemma InitTime(h: seq<Node>, y: int, x: int, a: nat)
    requires AtLeast(h, x, a)
    ensures AtLeast(HistoryInit(h, y), x, a)
  {
    IndexAppend(h, Node(y, false, false, 0), x);
  }

  lemma {:induction false} InitAllTime(h: seq<Node>, ids: seq<int>, n: nat, x: int, a: nat)
    requires n <= |ids| && AtLeast(h, x, a)
    ensures AtLeast(HistoryInitAll(h, ids, n), x, a)
  {
    hide AtLeast, HistoryInit;
    if n > 0 {
      InitAllTime(h, ids, n - 1, x, a);
      InitTime(HistoryInitAll(h, ids, n - 1), ids[n - 1], x, a);
    }
  }

  lemma {:induction false} JoinTime(j: Joining, joined: seq<int>, n: nat, our: int, x: int, a: nat)
    requires n <= |joined| && AtLeast(j.history, x, a)
    ensures AtLeast(JoinAll(j, joined, n, our).history, x, a)
  {
    hide AtLeast, HistoryInit, MembIndex;
    if n > 0 {
      JoinTime(j, joined, n - 1, our, x, a);
      InitTime(JoinAll(j, joined, n - 1, our).history, joined[n - 1], x, a);
    }
  }

  lemma AddChangeKeepsTime(ls: Lockspace, cc: ConfChg, id: nat, x: int, a: nat)
    requires Left(x, false) !in cc.left && AtLeast(ls.history, x, a)
    ensures AtLeast(AddChange(ls, cc, id).0.history, x, a)
  {
    hide AtLeast, HistoryRemoveAll, JoinAll, HistoryInitAll;
    var h1 := HistoryRemoveAll(ls.history, cc.left, |cc.left|, ls.fencing, ls.quorum);
    RemoveKeeps(ls.history, cc.left, |cc.left|, ls.fencing, ls.quorum, x, a);
    var j0 := Joining(NewMembers(cc.members), h1, false, false);
    JoinTime(j0, cc.joined, |cc.joined|, ls.our, x, a);
    InitAllTime(JoinAll(j0, cc.joined, |cc.joined|, ls.our).history, cc.members, |cc.members|, x, a);
  }

  lemma StartKeepsTime(h: seq<Node>, y: int, now: nat, x: int, a: nat)
    requires AtLeast(h, x, a) && now >= a
    ensures AtLeast(HistoryStart(h, y, now), x, a)
  {
    var k := NodeIndex(h, y);
    if k < |h| { IndexUpdate(h, k, h[k].(addTime := now), x); }
  }

  lemma HandleKeepsTime(ls: Lockspace, ev: Event, x: int, a: nat)
    requires AtLeast(ls.history, x, a) && ev.env.now >= a && NoLeave(ev, x)
    ensures AtLeast(Handle(ls, ev).0.history, x, a)
  {
    hide AtLeast, AddChange, HistoryStart, FindChange, IsAdded, MembIndex;
    match ev {
      case Confchg(cc, id, env) => AddChangeKeepsTime(ls, cc, id, x, a);
      case Start(msg, env) => StartKeepsTime(ls.history, msg.nodeid, env.now, x, a);
      case Tick(env) =>
    }
  }

  lemma ApplyKeepsTime(ls: Lockspace, env: Env, x: int, a: nat)
    requires AtLeast(ls.history, x, a)
    ensures AtLeast(ApplyChanges(ls, env).0.history, x, a) || FenceTime(env, x) > a
  {
    hide ApplyChanges;
    AppliedIndex(ls, env, x);
    AppliedEntry(ls, env, NodeIndex(ls.history, x));
  }

  lemma {:induction false} TimeUntilFenced(ls: Lockspace, evs: seq<Event>, h: nat, k: nat, x: int, a: nat)
    requires h < k <= |evs| && Monotone(evs) && a <= evs[h].env.now
    requires forall m :: h < m < k ==> NoLeave(evs[m], x)
    requires AtLeast(Handle(After(ls, evs[..h]), evs[h]).0.history, x, a)
    ensures AtLeast(After(ls, evs[..k]).history, x, a) || FencedIn(evs, h, k, x, a)
    decreases k
  {
    hide AtLeast, Handle, ApplyChanges;
    assert evs[..k][..k - 1] == evs[..k - 1];
    var before := After(ls, evs[..k - 1]);
    if k > h + 1 {
      TimeUntilFenced(ls, evs, h, k - 1, x, a);
      if AtLeast(before.history, x, a) { HandleKeepsTime(before, evs[k - 1], x, a); }
    }
    if AtLeast(Handle(before, evs[k - 1]).0.history, x, a) { ApplyKeepsTime(Handle(before, evs[k - 1]).0, evs[k - 1].env, x, a); }
  }

  lemma ExactTime(h: seq<Node>, x: int, a: nat) returns (b: nat)
    requires AtLeast(h, x, a)
    ensures b >= a && HasTime(h, x, b)
  {
    b := h[NodeIndex(h, x)].addTime;
  }

  /** What is delivered decides: `x` has met us, its start counts at event `h` at a
      non-zero time, and it fails at event `i` without having left in between. If
      event `j` starts the kernel, `x` was reported fenced later than that start. */
  lemma FencedOnceCounted(ls: Lockspace, evs: seq<Event>, h: nat, i: nat, j: nat, x: int)
    requires Initial(ls) && ls.fencing && Monotone(evs) && (forall ev :: ev in evs ==> WellFormedChange(ev))
    requires h < i < j < |evs| && MetBefore(evs, ls.our, x, h) && Counted(After(ls, evs[..h]), evs[h], x) && evs[h].env.now != 0
    requires evs[i].Confchg? && Left(x, true) in evs[i].cc.left && forall m :: h < m <= j ==> NoLeave(evs[m], x)
    requires Step(After(ls, evs[..j]), evs[j]).1.StartKernel?
    ensures FencedIn(evs, h, j, x, evs[h].env.now)
  {
    hide Step, Initial, Counted, MetBefore, AtLeast, WellFormedChange, Pending, Handle;
    var a := evs[h].env.now;
    MetHasEntry(ls, evs, x, h);
    CountedSets(After(ls, evs[..h]), evs[h], x);
    TimeIsLeast(Handle(After(ls, evs[..h]), evs[h]).0.history, x, a);
    TimeUntilFenced(ls, evs, h, i, x, a);
    if !FencedIn(evs, h, i, x, a) {
      var b := ExactTime(After(ls, evs[..i]).history, x, a);
      FencedBeforeStart(ls, evs, i, j, x, b);
    }
  }

  lemma TimeIsLeast(h: seq<Node>, x: int, a: nat)
    requires HasTime(h, x, a)
    ensures AtLeast(h, x, a)
  {
  }

  // ---------- what the conditions wait for, exactly

  /** Nothing on record is left to wait for. */
  predicate Settled(h: seq<Node>, env: Env) {
    forall i :: 0 <= i < |h| ==>
      (h[i].checkFencing ==> FenceTime(env, h[i].nodeid) > h[i].addTime) && (h[i].checkQuorum ==> h[i].nodeid !in env.inCluster)
  }

  lemma ConditionsExact(ls: Lockspace, env: Env)
    requires FlagsAllowed(ls.history, ls.fencing, ls.quorum)
    ensures WaitConditionsDone(ls, env).1 <==> Settled(ls.history, env) && Clear(ls, env)
  {
    var h := ls.history;
    var h1 := UnfenceAll(h, env);
    assert NoFencing(h1) <==> forall i :: 0 <= i < |h| ==> h[i].checkFencing ==> FenceTime(env, h[i].nodeid) > h[i].addTime by {
      if NoFencing(h1) {
        forall i | 0 <= i < |h| ensures h[i].checkFencing ==> FenceTime(env, h[i].nodeid) > h[i].addTime { assert !h1[i].checkFencing; }
      }
    }
    var g := CheckFencing(ls, env).0;
    assert |g| == |h| && forall i :: 0 <= i < |h| ==> g[i].nodeid == h[i].nodeid && g[i].checkQuorum == h[i].checkQuorum;
    var r := UnquorumAll(g, env);
    assert NoQuorum(r) <==> forall i :: 0 <= i < |h| ==> h[i].checkQuorum ==> h[i].nodeid !in env.inCluster by {
      if NoQuorum(r) {
        forall i | 0 <= i < |h| ensures h[i].checkQuorum ==> h[i].nodeid !in env.inCluster { assert !r[i].checkQuorum; }
      }
    }
  }

  /** A node says start exactly when its current change waits for conditions, every
      flagged node has been fenced since its add time or noticed by the quorum
      service, nothing is being fenced and the cluster is quorate. */
  lemma SendsExactlyWhen(ls: Lockspace, ev: Event)
    requires GateInv(ls) && WellFormedChange(ev)
    ensures var mid := Handle(ls, ev).0;
            Step(ls, ev).1.SendStart? <==>
            mid.changes != [] && mid.changes[0].phase == WaitConditions && Settled(mid.history, ev.env) && Clear(ls, ev.env)
  {
    hide Handle, WaitConditionsDone, Settled, FlagsAllowed;
    HandleGates(ls, ev);
    HandleConfig(ls, ev);
    ConditionsExact(Handle(ls, ev).0, ev.env);
  }

  // ---------- what flags and times go back to

  /** Entry `x` of the history with its flags and its time, all clear if there is none. */
  function EntryOf(h: seq<Node>, x: int): Node {
    var i := NodeIndex(h, x);
    if i < |h| then h[i] else Node(x, false, false, 0)
  }

  /** No flag raised and no time set between `a` and `c`. */
  predicate NoMore(a: Node, c: Node) {
    (c.checkFencing ==> a.checkFencing) && (c.checkQuorum ==> a.checkQuorum) && (c.addTime == 0 || c.addTime == a.addTime)
  }

  lemma EntryUpdate(h: seq<Node>, k: nat, n: Node, x: int)
    requires k < |h| && k == NodeIndex(h, n.nodeid)
    ensures EntryOf(h[k := n], x) == if x == n.nodeid then n else EntryOf(h, x)
  {
    IndexUpdate(h, k, n, x);
  }

  lemma RemoveOneCause(h: seq<Node>, y: Left, fencing: bool, quorum: bool, x: int)
    ensures var a, c := EntryOf(h, x), EntryOf(HistoryRemove(h, y, fencing, quorum), x);
            && (c.checkFencing && !a.checkFencing ==> y == Left(x, true) && fencing && a.addTime != 0)
            && (c.checkQuorum && !a.checkQuorum ==> y == Left(x, true) && quorum && !fencing)
            && (c.addTime == 0 || (c.addTime == a.addTime && y != Left(x, false)))
  {
    var k := NodeIndex(h, y.nodeid);
    if k < |h| { EntryUpdate(h, k, if y.failed then Failed(h[k], fencing, quorum) else h[k].(addTime := 0), x); }
  }

  lemma {:induction false} RemoveCause(h: seq<Node>, left: seq<Left>, n: nat, fencing: bool, quorum: bool, x: int)
    requires n <= |left|
    ensures var a, c := EntryOf(h, x), EntryOf(HistoryRemoveAll(h, left, n, fencing, quorum), x);
            && (c.checkFencing && !a.checkFencing ==> Left(x, true) in left && fencing && a.addTime != 0)
            && (c.checkQuorum && !a.checkQuorum ==> Left(x, true) in left && quorum && !fencing)
            && (c.addTime == 0 || (c.addTime == a.addTime && Left(x, false) !in left[..n]))
  {
    hide HistoryRemove, EntryOf;
    if n > 0 {
      RemoveCause(h, left, n - 1, fencing, quorum, x);
      assert left[n - 1] in left && left[..n] == left[..n - 1] + [left[n - 1]];
      RemoveOneCause(HistoryRemoveAll(h, left, n - 1, fencing, quorum), left[n - 1], fencing, quorum, x);
    }
  }

  lemma InitEntryOf(h: seq<Node>, y: int, x: int)
    ensures EntryOf(HistoryInit(h, y), x) == EntryOf(h, x)
  {
    InitEntry(h, y, x);
    if NodeIndex(h, x) < |h| { IndexAppend(h, Node(y, false, false, 0), x); }
  }

  lemma {:induction false} InitAllEntryOf(h: seq<Node>, ids: seq<int>, n: nat, x: int)
    requires n <= |ids|
    ensures EntryOf(HistoryInitAll(h, ids, n), x) == EntryOf(h, x)
  {
    hide EntryOf, HistoryInit;
    if n > 0 {
      InitAllEntryOf(h, ids, n - 1, x);
      InitEntryOf(HistoryInitAll(h, ids, n - 1), ids[n - 1], x);
    }
  }

  lemma {:induction false} JoinEntryOf(j: Joining, joined: seq<int>, n: nat, our: int, x: int)
    requires n <= |joined|
    ensures EntryOf(JoinAll(j, joined, n, our).history, x) == EntryOf(j.history, x)
  {
    hide EntryOf, HistoryInit, MembIndex;
    if n > 0 {
      JoinEntryOf(j, joined, n - 1, our, x);
      InitEntryOf(JoinAll(j, joined, n - 1, our).history, joined[n - 1], x);
    }
  }

  /** `x` fails in this event. */
  predicate Fails(ev: Event, x: int) {
    ev.Confchg? && Left(x, true) in ev.cc.left
  }

  /** A change leaves an entry as the list of those who left makes it. */
  lemma AddChangeEntryOf(ls: Lockspace, cc: ConfChg, id: nat, x: int)
    ensures EntryOf(AddChange(ls, cc, id).0.history, x) ==
            EntryOf(HistoryRemoveAll(ls.history, cc.left, |cc.left|, ls.fencing, ls.quorum), x)
  {
    hide EntryOf, HistoryRemoveAll, JoinAll, HistoryInitAll;
    var h1 := HistoryRemoveAll(ls.history, cc.left, |cc.left|, ls.fencing, ls.quorum);
    var j0 := Joining(NewMembers(cc.members), h1, false, false);
    JoinEntryOf(j0, cc.joined, |cc.joined|, ls.our, x);
    InitAllEntryOf(JoinAll(j0, cc.joined, |cc.joined|, ls.our).history, cc.members, |cc.members|, x);
  }

  lemma StartEntryOf(h: seq<Node>, y: int, now: nat, x: int)
    ensures EntryOf(HistoryStart(h, y, now), x) ==
            if y == x && HasEntry(h, x) then EntryOf(h, x).(addTime := now) else EntryOf(h, x)
  {
    var k := NodeIndex(h, y);
    if k < |h| { EntryUpdate(h, k, h[k].(addTime := now), x); }
  }

  lemma HandleCause(ls: Lockspace, ev: Event, x: int)
    ensures var a, c := EntryOf(ls.history, x), EntryOf(Handle(ls, ev).0.history, x);
            && (c.checkFencing && !a.checkFencing ==> Fails(ev, x) && ls.fencing && a.addTime != 0)
            && (c.checkQuorum && !a.checkQuorum ==> Fails(ev, x) && ls.quorum && !ls.fencing)
            && (c.addTime != 0 ==> NoLeave(ev, x))
            && (c.addTime != 0 && c.addTime != a.addTime ==> Counted(ls, ev, x) && c.addTime == ev.env.now)
  {
    hide EntryOf, AddChange, HistoryRemoveAll, FindChange, IsAdded, MembIndex, HistoryStart, HasEntry;
    match ev {
      case Confchg(cc, id, env) =>
        AddChangeEntryOf(ls, cc, id, x);
        RemoveCause(ls.history, cc.left, |cc.left|, ls.fencing, ls.quorum, x);
        assert cc.left[..|cc.left|] == cc.left;
      case Start(msg, env) => StartEntryOf(ls.history, msg.nodeid, env.now, x);
      case Tick(env) =>
    }
  }

  lemma ApplyCause(ls: Lockspace, env: Env, x: int)
    ensures NoMore(EntryOf(ls.history, x), EntryOf(ApplyChanges(ls, env).0.history, x))
  {
    hide ApplyChanges;
    AppliedIndex(ls, env, x);
    if HasEntry(ls.history, x) { AppliedEntry(ls, env, NodeIndex(ls.history, x)); }
  }

  /** This event takes `x` off the list of those to be fenced. */
  predicate Lowers(ls: Lockspace, ev: Event, x: int) {
    EntryOf(Handle(ls, ev).0.history, x).checkFencing && !EntryOf(Step(ls, ev).0.history, x).checkFencing
  }

  lemma LoweredForgets(ls: Lockspace, ev: Event, x: int)
    requires Lowers(ls, ev, x)
    ensures EntryOf(Step(ls, ev).0.history, x).addTime == 0
  {
    hide Handle, ApplyChanges;
    var mid := Handle(ls, ev).0;
    AppliedIndex(mid, ev.env, x);
    AppliedEntry(mid, ev.env, NodeIndex(mid.history, x));
  }

  /** A start of `x` counted at event `i` at time `t`, and since then `x` has neither
      left normally nor been taken off the list after a fence. */
  ghost predicate CountedSince(ls: Lockspace, evs: seq<Event>, x: int, t: nat, i: nat) {
    && i < |evs| && Counted(After(ls, evs[..i]), evs[i], x) && evs[i].env.now == t
    && forall m :: i <= m < |evs| ==> NoLeave(evs[m], x) && !Lowers(After(ls, evs[..m]), evs[m], x)
  }

  ghost predicate CountedAt(ls: Lockspace, evs: seq<Event>, x: int, t: nat) {
    exists i: nat :: CountedSince(ls, evs, x, t, i)
  }

  /** `x` failed in an event with a start of it still counting. */
  ghost predicate FailedCounted(ls: Lockspace, evs: seq<Event>, x: int) {
    exists i, t :: 0 <= i < |evs| && Fails(evs[i], x) && CountedAt(ls, evs[..i], x, t)
  }

  ghost predicate FailedIn(evs: seq<Event>, x: int) {
    exists i :: 0 <= i < |evs| && Fails(evs[i], x)
  }

  /** In every run a node waits for another to be fenced only if a start of that one
      counted when it failed, and for the quorum service only without fencing and if
      the other failed; an add time on record is that of a start that counts. */
  lemma {:induction false} RecordHasCause(ls: Lockspace, evs: seq<Event>, x: int)
    requires Initial(ls)
    ensures var c := EntryOf(After(ls, evs).history, x);
            && (c.checkFencing ==> ls.fencing && FailedCounted(ls, evs, x))
            && (c.checkQuorum ==> ls.quorum && !ls.fencing && FailedIn(evs, x))
            && (c.addTime != 0 ==> CountedAt(ls, evs, x, c.addTime))
    decreases |evs|
  {
    hide Handle, ApplyChanges, Counted, Fails, EntryOf, NoLeave, Lowers;
    if evs == [] {
      EmptyEntry(ls, x);
    } else {
      var front, last := evs[..|evs| - 1], evs[|evs| - 1];
      assert evs == front + [last];
      RecordHasCause(ls, front, x);
      ConstantFlags(ls, front);
      var before := After(ls, front);
      HandleCause(before, last, x);
      StepEntryOf(before, last, x);
      LongerFailed(ls, front, last, x);
      var c := EntryOf(After(ls, evs).history, x);
      if c.addTime != 0 {
        if Lowers(before, last, x) { LoweredForgets(before, last, x); }
        LongerCounted(ls, front, last, x, c.addTime);
      }
    }
  }

  lemma EmptyEntry(ls: Lockspace, x: int)
    requires Initial(ls)
    ensures EntryOf(ls.history, x) == Node(x, false, false, 0)
  {
  }

  lemma StepEntryOf(ls: Lockspace, ev: Event, x: int)
    ensures NoMore(EntryOf(Handle(ls, ev).0.history, x), EntryOf(Step(ls, ev).0.history, x))
  {
    hide Handle, ApplyChanges, EntryOf;
    ApplyCause(Handle(ls, ev).0, ev.env, x);
  }

  lemma LongerFailed(ls: Lockspace, front: seq<Event>, last: Event, x: int)
    ensures FailedIn(front, x) || Fails(last, x) ==> FailedIn(front + [last], x)
    ensures FailedCounted(ls, front, x) ==> FailedCounted(ls, front + [last], x)
    ensures forall t :: Fails(last, x) && CountedAt(ls, front, x, t) ==> FailedCounted(ls, front + [last], x)
  {
    hide CountedAt, Fails;
    var evs := front + [last];
    assert evs[|front|] == last && evs[..|front|] == front;
    if FailedIn(front, x) {
      var i :| 0 <= i < |front| && Fails(front[i], x);
      assert Fails(evs[i], x);
    }
    if FailedCounted(ls, front, x) {
      var i, t :| 0 <= i < |front| && Fails(front[i], x) && CountedAt(ls, front[..i], x, t);
      assert evs[..i] == front[..i] && Fails(evs[i], x);
    }
  }

  lemma LongerCounted(ls: Lockspace, front: seq<Event>, last: Event, x: int, t: nat)
    requires NoLeave(last, x) && !Lowers(After(ls, front), last, x)
    requires CountedAt(ls, front, x, t) || (Counted(After(ls, front), last, x) && last.env.now == t)
    ensures CountedAt(ls, front + [last], x, t)
  {
    hide Counted, Lowers, After, NoLeave;
    var evs := front + [last];
    assert evs[|front|] == last && evs[..|front|] == front;
    if CountedAt(ls, front, x, t) {
      var i: nat :| CountedSince(ls, front, x, t, i);
      forall m | 0 <= m < |front| ensures evs[..m] == front[..m] && evs[m] == front[m] {
      }
      assert CountedSince(ls, evs, x, t, i);
    } else {
      assert CountedSince(ls, evs, x, t, |front|);
    }
  }

  // ---------- the count of starts

  /** How often the kernel was started. */
  function Starts(ls: Lockspace, evs: seq<Event>): nat
    decreases |evs|
  {
    if evs == [] then 0
    else
      var front := evs[..|evs| - 1];
      Starts(ls, front) + if Step(After(ls, front), evs[|evs| - 1]).1.StartKernel? then 1 else 0
  }

  /** The `n`th start in 32 bits, never again zero. */
  function CountOf(n: nat): nat {
    if n == 0 then 0 else (n - 1) % 0xffff_ffff + 1
  }

  lemma CountNext(n: nat)
    ensures NextCount(CountOf(n)) == CountOf(n + 1)
  {
    if n > 0 { assert (n - 1) / 0xffff_ffff * 0xffff_ffff + (n - 1) % 0xffff_ffff == n - 1; }
  }

  /** The count a node puts into its start messages is the number of its starts. */
  lemma {:induction false} CountIsStarts(ls: Lockspace, evs: seq<Event>)
    requires Initial(ls) && forall ev :: ev in evs ==> WellFormedChange(ev)
    ensures After(ls, evs).startedCount == CountOf(Starts(ls, evs))
    decreases |evs|
  {
    hide Step, WellFormedChange, CountOf, NextCount, GateInv, SafeStep;
    if evs == [] {
      CountZero();
    } else {
      var front, last := evs[..|evs| - 1], evs[|evs| - 1];
      assert last in evs && forall ev :: ev in front ==> ev in evs;
      CountIsStarts(ls, front);
      RunGates(ls, front);
      StepCounts(After(ls, front), last);
      CountNext(Starts(ls, front));
    }
  }

  lemma CountZero()
    ensures CountOf(0) == 0
  {
  }

  lemma StepCounts(ls: Lockspace, ev: Event)
    requires GateInv(ls) && WellFormedChange(ev)
    ensures var (after, out) := Step(ls, ev);
            after.startedCount == if out.StartKernel? then NextCount(ls.startedCount) else ls.startedCount
  {
    hide Handle, WaitConditionsDone, AllStarted, GateInv;
    HandleCount(ls, ev);
    HandleGates(ls, ev);
    ApplyGates(Handle(ls, ev).0, ev.env);
  }

  // ---------- when the kernel runs

  /** In every run the kernel runs exactly when it has been started and no change is
      pending. */
  lemma {:induction false} RunsIff(ls: Lockspace, evs: seq<Event>)
    requires Initial(ls) && forall ev :: ev in evs ==> WellFormedChange(ev)
    ensures var after := After(ls, evs); !after.stopped <==> after.started.Some? && after.changes == []
    decreases |evs|
  {
    hide Step, WellFormedChange;
    if evs != [] {
      var front, last := evs[..|evs| - 1], evs[|evs| - 1];
      assert last in evs && forall ev :: ev in front ==> ev in evs;
      RunsIff(ls, front);
      RunsStep(After(ls, front), last);
    }
  }

  predicate RunsRight(ls: Lockspace) {
    !ls.stopped <==> ls.started.Some? && ls.changes == []
  }

  lemma RunsStep(ls: Lockspace, ev: Event)
    requires WellFormedChange(ev) && RunsRight(ls)
    ensures RunsRight(Step(ls, ev).0)
  {
    hide Handle, ApplyChanges, RunsRight;
    RunsHandle(ls, ev);
    RunsApply(Handle(ls, ev).0, ev.env);
  }

  lemma RunsHandle(ls: Lockspace, ev: Event)
    requires WellFormedChange(ev) && RunsRight(ls)
    ensures RunsRight(Handle(ls, ev).0)
  {
    hide FindChange, IsAdded, MembIndex, HistoryStart, JoinAll, HistoryRemoveAll, HistoryInitAll;
    if ev.Confchg? { AddChangeWorks(ls, ev.cc, ev.id); }
  }

  lemma RunsApply(ls: Lockspace, env: Env)
    requires RunsRight(ls)
    ensures RunsRight(ApplyChanges(ls, env).0)
  {
    hide WaitConditionsDone, AllStarted;
  }
}
