/**
 The recovery gates of one node: over every run, the kernel starts only from a
 stopped state, with no failed node left to be fenced or noticed by the quorum
 service.
 */
module Gates {
  import opened Membership

  /** Flags are only raised where the configuration asks for them. */
  predicate FlagsAllowed(h: seq<Node>, fencing: bool, quorum: bool) {
    forall i :: 0 <= i < |h| ==> (h[i].checkFencing ==> fencing) && (h[i].checkQuorum ==> quorum)
  }

  ghost predicate GateInv(ls: Lockspace) {
    && FlagsAllowed(ls.history, ls.fencing, ls.quorum)
    && (ls.changes != [] ==> ls.stopped)
    && (ls.changes != [] && ls.changes[0].phase == WaitMessages ==> NoFencing(ls.history) && NoQuorum(ls.history))
  }

  lemma {:induction false} RemoveAllFlags(h: seq<Node>, left: seq<Left>, n: nat, fencing: bool, quorum: bool)
    requires n <= |left| && FlagsAllowed(h, fencing, quorum)
    ensures FlagsAllowed(HistoryRemoveAll(h, left, n, fencing, quorum), fencing, quorum)
  {
    if n > 0 { RemoveAllFlags(h, left, n - 1, fencing, quorum); }
  }

  lemma {:induction false} InitAllFlags(h: seq<Node>, ids: seq<int>, n: nat, fencing: bool, quorum: bool)
    requires n <= |ids| && FlagsAllowed(h, fencing, quorum)
    ensures FlagsAllowed(HistoryInitAll(h, ids, n), fencing, quorum)
  {
    if n > 0 { InitAllFlags(h, ids, n - 1, fencing, quorum); }
  }

  lemma {:induction false} JoinAllFlags(j: Joining, joined: seq<int>, n: nat, our: int, fencing: bool, quorum: bool)
    requires n <= |joined| && FlagsAllowed(j.history, fencing, quorum)
    ensures FlagsAllowed(JoinAll(j, joined, n, our).history, fencing, quorum)
  {
    if n > 0 { JoinAllFlags(j, joined, n - 1, our, fencing, quorum); }
  }

  lemma MarkAdded(members: seq<Member>, i: nat, m: Member, nodeid: int)
    requires i < |members| && m.nodeid == members[i].nodeid
    ensures IsMember(members[i := m], nodeid) <==> IsMember(members, nodeid)
  {
    var after := members[i := m];
    assert forall k :: 0 <= k < |members| ==> after[k].nodeid == members[k].nodeid;
  }

  /** Working off the joined list keeps the members, and misses no one if all are there. */
  lemma {:induction false} JoinAllMembers(j: Joining, joined: seq<int>, n: nat, our: int, x: int)
    requires n <= |joined| && !j.missing
    ensures IsMember(JoinAll(j, joined, n, our).members, x) <==> IsMember(j.members, x)
  {
    if n > 0 {
      JoinAllMembers(j, joined, n - 1, our, x);
      var k := JoinAll(j, joined, n - 1, our);
      var i := MembIndex(k.members, joined[n - 1]);
      if i < |k.members| { MarkAdded(k.members, i, k.members[i].(added := true), x); }
    }
  }

  lemma JoinOneFinds(j: Joining, nodeid: int, our: int)
    requires !j.missing && IsMember(j.members, nodeid)
    ensures !JoinOne(j, nodeid, our).missing
  {
  }

  lemma {:induction false} JoinAllFinds(j: Joining, joined: seq<int>, n: nat, our: int)
    requires n <= |joined| && !j.missing && forall i :: 0 <= i < n ==> IsMember(j.members, joined[i])
    ensures !JoinAll(j, joined, n, our).missing
  {
    hide JoinOne, IsMember;
    if n > 0 {
      JoinAllFinds(j, joined, n - 1, our);
      JoinAllMembers(j, joined, n - 1, our, joined[n - 1]);
      JoinOneFinds(JoinAll(j, joined, n - 1, our), joined[n - 1], our);
    }
  }

  lemma NewIsMember(ids: seq<int>, x: int)
    ensures IsMember(NewMembers(ids), x) <==> x in ids
  {
    if x in ids {
      var i :| 0 <= i < |ids| && ids[i] == x;
      assert NewMembers(ids)[i].nodeid == x;
    }
  }

  lemma AddChangeWorks(ls: Lockspace, cc: ConfChg, id: nat)
    requires forall x :: x in cc.joined ==> x in cc.members
    ensures AddChange(ls, cc, id).1
  {
    forall i | 0 <= i < |cc.joined| ensures IsMember(NewMembers(cc.members), cc.joined[i]) {
      assert cc.joined[i] in cc.joined;
      NewIsMember(cc.members, cc.joined[i]);
    }
    var h1 := HistoryRemoveAll(ls.history, cc.left, |cc.left|, ls.fencing, ls.quorum);
    JoinAllFinds(Joining(NewMembers(cc.members), h1, false, false), cc.joined, |cc.joined|, ls.our);
  }

  lemma AddChangeFlags(ls: Lockspace, cc: ConfChg, id: nat)
    requires FlagsAllowed(ls.history, ls.fencing, ls.quorum)
    ensures FlagsAllowed(AddChange(ls, cc, id).0.history, ls.fencing, ls.quorum)
  {
    var h1 := HistoryRemoveAll(ls.history, cc.left, |cc.left|, ls.fencing, ls.quorum);
    RemoveAllFlags(ls.history, cc.left, |cc.left|, ls.fencing, ls.quorum);
    var j0 := Joining(NewMembers(cc.members), h1, false, false);
    JoinAllFlags(j0, cc.joined, |cc.joined|, ls.our, ls.fencing, ls.quorum);
    var j := JoinAll(j0, cc.joined, |cc.joined|, ls.our);
    InitAllFlags(j.history, cc.members, |cc.members|, ls.fencing, ls.quorum);
  }

  lemma HandleGates(ls: Lockspace, ev: Event)
    requires GateInv(ls) && WellFormedChange(ev)
    ensures Handle(ls, ev).1 && GateInv(Handle(ls, ev).0)
  {
    hide FindChange, IsAdded, MembIndex, JoinAll, HistoryRemoveAll, HistoryInitAll;
    match ev {
      case Confchg(cc, id, env) =>
        AddChangeWorks(ls, cc, id);
        AddChangeFlags(ls, cc, id);
      case Start(msg, env) =>
      case Tick(env) =>
    }
  }

  /** When the conditions are done, no flag is left. */
  lemma ConditionsClear(ls: Lockspace, env: Env)
    requires FlagsAllowed(ls.history, ls.fencing, ls.quorum)
    ensures var (h, done) := WaitConditionsDone(ls, env);
            FlagsAllowed(h, ls.fencing, ls.quorum) && (done ==> NoFencing(h) && NoQuorum(h))
  {
  }

  lemma ApplyGates(ls: Lockspace, env: Env)
    requires GateInv(ls)
    ensures var (after, out) := ApplyChanges(ls, env);
            && GateInv(after) && out != StartError
            && (out.StartKernel? ==> ls.stopped && NoFencing(ls.history) && NoQuorum(ls.history))
            && (out.SendStart? ==> after.stopped && NoFencing(after.history) && NoQuorum(after.history))
  {
    hide WaitConditionsDone;
    ConditionsClear(ls, env);
  }

  /** One event keeps the gates; the kernel is started only when it is stopped and
      no history entry waits for fencing or quorum. */
  lemma StepGates(ls: Lockspace, ev: Event)
    requires GateInv(ls) && WellFormedChange(ev)
    ensures GateInv(Step(ls, ev).0) && SafeStep(ls, ev)
  {
    hide Handle, ApplyChanges;
    HandleGates(ls, ev);
    ApplyGates(Handle(ls, ev).0, ev.env);
    StartKeepsHistory(Handle(ls, ev).0, ev.env);
  }

  lemma StartKeepsHistory(ls: Lockspace, env: Env)
    ensures var (after, out) := ApplyChanges(ls, env); out.StartKernel? ==> after.history == ls.history
  {
  }

  /** ... over every run: the gates hold, start_kernel never finds the kernel
      running, and no start leaves a node waiting for fencing or quorum. */
  lemma {:induction false} RunGates(ls: Lockspace, evs: seq<Event>)
    requires Initial(ls) && forall ev :: ev in evs ==> WellFormedChange(ev)
    ensures GateInv(After(ls, evs))
    ensures forall k :: 0 <= k < |evs| ==> SafeStep(After(ls, evs[..k]), evs[k])
    decreases |evs|
  {
    hide Step;
    if evs != [] {
      var front, ev := evs[..|evs| - 1], evs[|evs| - 1];
      assert ev in evs && forall e :: e in front ==> e in evs;
      RunGates(ls, front);
      StepGates(After(ls, front), ev);
      forall k | 0 <= k < |evs| ensures SafeStep(After(ls, evs[..k]), evs[k]) {
        if k < |front| { assert evs[..k] == front[..k] && evs[k] == front[k]; } else { assert evs[..k] == front; }
      }
    }
  }

  /** No error at the start, and what a start or a start message leaves behind. */
  ghost predicate SafeStep(ls: Lockspace, ev: Event) {
    var (after, out) := Step(ls, ev);
    && out != StartError
    && (out.StartKernel? ==> NoFencing(after.history) && NoQuorum(after.history))
    && (out.SendStart? ==> after.stopped && NoFencing(after.history) && NoQuorum(after.history))
  }

  // ---------- nodes that come back without having been reset

  /** The count in a start message is non-zero exactly for a node that has started. */
  predicate CountOk(ls: Lockspace) {
    ls.started.Some? <==> ls.startedCount != 0
  }

  lemma {:induction false} RunCount(ls: Lockspace, evs: seq<Event>)
    requires Initial(ls)
    ensures CountOk(After(ls, evs))
    decreases |evs|
  {
    hide Step;
    if evs != [] {
      var before, ev := After(ls, evs[..|evs| - 1]), evs[|evs| - 1];
      RunCount(ls, evs[..|evs| - 1]);
      StepCount(before, ev);
    }
  }

  lemma StepCount(ls: Lockspace, ev: Event)
    requires CountOk(ls)
    ensures CountOk(Step(ls, ev).0)
  {
    hide Handle, WaitConditionsDone, AllStarted;
    HandleCount(ls, ev);
  }

  lemma HandleCount(ls: Lockspace, ev: Event)
    ensures var after := Handle(ls, ev).0; after.started == ls.started && after.startedCount == ls.startedCount
  {
    hide JoinAll, HistoryRemoveAll, HistoryInitAll, FindChange, IsAdded, MembIndex, SetMember, HistoryStart;
  }

  /** A node that was never reset since it started, and is being added again, gets
      neither a start mark nor a new add time from its start message. */
  lemma RemergeIgnored(ls: Lockspace, evs: seq<Event>, cg: Change, here: Lockspace, now: nat)
    requires Initial(ls) && After(ls, evs).started.Some? && IsAdded(here.changes, After(ls, evs).our)
    ensures var after := ReceiveStart(here, StartInfo(After(ls, evs), cg), now);
            && after.history == here.history && |after.changes| == |here.changes|
            && forall k, i :: 0 <= k < |here.changes| && 0 <= i < |here.changes[k].members| ==>
                 |after.changes[k].members| == |here.changes[k].members| &&
                 after.changes[k].members[i].start == here.changes[k].members[i].start
  {
    hide After, FindChange, IsAdded;
    RunCount(ls, evs);
  }
}
