/**
 The callbacks of one lockspace as they update it in place, each proved to do
 what the functions of Membership say.
 */
module LockspaceGroup {
  import opened Ranges
  import opened Membership

  class Group {
    const our: int
    const fencing: bool
    const quorum: bool
    var changes: seq<Change>
    var history: seq<Node>
    var stopped: bool
    var startedCount: nat
    var started: Option<Change>

    function View(): Lockspace
      reads this
    {
      Lockspace(our, fencing, quorum, changes, history, stopped, startedCount, started)
    }

    constructor (ourNode: int, enableFencing: bool, enableQuorum: bool)
      ensures Initial(View()) && our == ourNode && fencing == enableFencing && quorum == enableQuorum
    {
      our, fencing, quorum := ourNode, enableFencing, enableQuorum;
      changes, history, stopped, startedCount, started := [], [], true, 0, None;
    }

    // ---------- node history

    method GetNodeHistory(nodeid: int) returns (i: nat)
      ensures i == NodeIndex(history, nodeid)
    {
      i := 0;
      while i < |history| && history[i].nodeid != nodeid
        invariant 0 <= i <= |history|
        invariant NodeIndex(history, nodeid) == i + NodeIndex(history[i..], nodeid)
      {
        i := i + 1;
      }
    }

    method NodeHistoryInit(nodeid: int)
      modifies `history
      ensures history == HistoryInit(old(history), nodeid)
    {
      var i := GetNodeHistory(nodeid);
      if i == |history| {
        history := history + [Node(nodeid, false, false, 0)];
      }
    }

    method NodeHistoryStart(nodeid: int, now: nat)
      modifies `history
      ensures history == HistoryStart(old(history), nodeid, now)
    {
      var i := GetNodeHistory(nodeid);
      if i < |history| {
        history := history[i := history[i].(addTime := now)];
      }
    }

    method NodeHistoryLeft(nodeid: int)
      modifies `history
      ensures history == HistoryLeft(old(history), nodeid)
    {
      var i := GetNodeHistory(nodeid);
      if i < |history| {
        history := history[i := history[i].(addTime := 0)];
      }
    }

    method NodeHistoryFail(nodeid: int)
      modifies `history
      ensures history == HistoryFail(old(history), nodeid, fencing, quorum)
    {
      var i := GetNodeHistory(nodeid);
      if i == |history| {
        return;
      }
      if fencing && history[i].addTime != 0 {
        history := history[i := history[i].(checkFencing := true)];
      }
      if quorum && !fencing {
        history := history[i := history[i].(checkQuorum := true)];
      }
    }

    // ---------- conditions

    method CheckFencingDone(env: Env) returns (done: bool)
      modifies `history
      ensures (history, done) == CheckFencing(old(View()), env)
    {
      if !fencing {
        return true;
      }
      var i, waiting := 0, 0;
      while i < |history|
        invariant 0 <= i <= |history| == |old(history)|
        invariant forall k :: 0 <= k < i ==> history[k] == Unfence(old(history)[k], env)
        invariant forall k :: i <= k < |history| ==> history[k] == old(history)[k]
        invariant waiting >= 0 && (waiting == 0 <==> forall k :: 0 <= k < i ==> !history[k].checkFencing)
      {
        if history[i].checkFencing {
          var fenced := FenceTime(env, history[i].nodeid);
          if fenced > history[i].addTime {
            history := history[i := history[i].(checkFencing := false, addTime := 0)];
          } else {
            waiting := waiting + 1;
          }
        }
        i := i + 1;
      }
      assert history == UnfenceAll(old(history), env);
      if waiting != 0 {
        return false;
      }
      return !env.fenceBusy;
    }

    method CheckQuorumDone(env: Env) returns (done: bool)
      modifies `history
      ensures (history, done) == CheckQuorum(old(View()), old(history), env)
    {
      if !quorum {
        return true;
      }
      var i, waiting := 0, 0;
      while i < |history|
        invariant 0 <= i <= |history| == |old(history)|
        invariant forall k :: 0 <= k < i ==> history[k] == Unquorum(old(history)[k], env)
        invariant forall k :: i <= k < |history| ==> history[k] == old(history)[k]
        invariant waiting >= 0 && (waiting == 0 <==> forall k :: 0 <= k < i ==> !history[k].checkQuorum)
      {
        if history[i].checkQuorum {
          if history[i].nodeid !in env.inCluster {
            history := history[i := history[i].(checkQuorum := false)];
          } else {
            waiting := waiting + 1;
          }
        }
        i := i + 1;
      }
      assert history == UnquorumAll(old(history), env);
      if waiting != 0 {
        return false;
      }
      return env.quorate;
    }

    method ConditionsDone(env: Env) returns (done: bool)
      modifies `history
      ensures (history, done) == WaitConditionsDone(old(View()), env)
    {
      done := CheckFencingDone(env);
      if !done {
        return false;
      }
      done := CheckQuorumDone(env);
    }

    method WaitMessagesDone() returns (done: bool)
      requires changes != []
      ensures done <==> AllStarted(changes[0].members)
    {
      var i, need := 0, 0;
      while i < |changes[0].members|
        invariant 0 <= i <= |changes[0].members| && need >= 0
        invariant need == 0 <==> forall k :: 0 <= k < i ==> changes[0].members[k].start
      {
        if !changes[0].members[i].start {
          need := need + 1;
        }
        i := i + 1;
      }
      return need == 0;
    }

    // ---------- start messages

    static method FindMemb(members: seq<Member>, nodeid: int) returns (i: nat)
      ensures i == MembIndex(members, nodeid)
    {
      i := 0;
      while i < |members| && members[i].nodeid != nodeid
        invariant 0 <= i <= |members|
        invariant MembIndex(members, nodeid) == i + MembIndex(members[i..], nodeid)
      {
        i := i + 1;
      }
    }

    method Matches(cg: Change, msg: StartMsg) returns (ok: bool)
      ensures ok <==> MatchChange(cg, msg, our)
    {
      var i := 0;
      while i < |msg.ids| && msg.ids[i] != our
        invariant 0 <= i <= |msg.ids| && forall k :: 0 <= k < i ==> msg.ids[k] != our
      {
        i := i + 1;
      }
      if i == |msg.ids| {
        return false;
      }
      var m := FindMemb(cg.members, msg.nodeid);
      if m == |cg.members| {
        return false;
      }
      if msg.memberCount != cg.memberCount || msg.joinedCount != cg.joinedCount ||
         msg.removeCount != cg.removeCount || msg.failedCount != cg.failedCount {
        return false;
      }
      i := 0;
      while i < |msg.ids|
        invariant 0 <= i <= |msg.ids| && forall k :: 0 <= k < i ==> IsMember(cg.members, msg.ids[k])
      {
        m := FindMemb(cg.members, msg.ids[i]);
        if m == |cg.members| {
          return false;
        }
        i := i + 1;
      }
      return true;
    }

    /** Searches from the oldest change. */
    method Find(msg: StartMsg) returns (i: nat)
      ensures i == FindChange(changes, msg, our)
    {
      i := |changes|;
      while i > 0
        invariant 0 <= i <= |changes| && forall k :: i <= k < |changes| ==> !MatchChange(changes[k], msg, our)
      {
        var ok := Matches(changes[i - 1], msg);
        if ok {
          return i - 1;
        }
        i := i - 1;
      }
      return |changes|;
    }

    method Added(nodeid: int) returns (added: bool)
      ensures added <==> IsAdded(changes, nodeid)
    {
      var k := 0;
      while k < |changes|
        invariant 0 <= k <= |changes|
        invariant forall n :: 0 <= n < k && IsMember(changes[n].members, nodeid) ==>
          !changes[n].members[MembIndex(changes[n].members, nodeid)].added
      {
        var i := FindMemb(changes[k].members, nodeid);
        if i < |changes[k].members| && changes[k].members[i].added {
          return true;
        }
        k := k + 1;
      }
      return false;
    }

    method ReceiveStartMsg(msg: StartMsg, now: nat)
      modifies `changes, `history
      ensures View() == ReceiveStart(old(View()), msg, now)
    {
      var k := Find(msg);
      if k == |changes| {
        return;
      }
      var i := FindMemb(changes[k].members, msg.nodeid);
      var added := Added(msg.nodeid);
      if added && msg.startedCount != 0 {
        changes := SetMember(changes, k, i, changes[k].members[i].(disallowed := true));
        return;
      }
      NodeHistoryStart(msg.nodeid, now);
      changes := SetMember(changes, k, i, changes[k].members[i].(start := true));
    }

    // ---------- applying changes

    method StartKernelNow() returns (ok: bool)
      requires changes != []
      modifies `stopped
      ensures ok == old(stopped) && !stopped
    {
      if !stopped {
        return false;
      }
      stopped := false;
      return true;
    }

    method StopKernel()
      modifies `stopped
      ensures stopped
    {
      if !stopped {
        stopped := true;
      }
    }

    method CleanupChanges()
      requires changes != []
      modifies `changes, `started, `startedCount
      ensures changes == [] && started == Some(old(changes)[0]) && startedCount == NextCount(old(startedCount))
    {
      started := Some(changes[0]);
      changes := changes[1..];
      startedCount := if startedCount + 1 == 0x1_0000_0000 then 0 else startedCount + 1;
      if startedCount == 0 {
        startedCount := startedCount + 1;
      }
      while changes != []
        invariant started == Some(old(changes)[0]) && startedCount == NextCount(old(startedCount))
        decreases |changes|
      {
        changes := changes[1..];
      }
    }

    method Apply(env: Env) returns (out: Output)
      modifies this
      ensures (View(), out) == ApplyChanges(old(View()), env)
    {
      if changes == [] {
        return Nothing;
      }
      var cg := changes[0];
      match cg.phase {
        case WaitConditions =>
          var done := ConditionsDone(env);
          if !done {
            return Nothing;
          }
          changes := changes[0 := cg.(phase := WaitMessages)];
          return SendStart(StartMsg(our, cg.memberCount, cg.joinedCount, cg.removeCount, cg.failedCount, Ids(cg.members), startedCount));
        case WaitMessages =>
          var done := WaitMessagesDone();
          if !done {
            return Nothing;
          }
          var ok := StartKernelNow();
          CleanupChanges();
          return if ok then StartKernel(cg) else StartError;
      }
    }

    // ---------- the callbacks

    /** The left list: each node failed or went of its own accord. */
    method RemoveLeft(left: seq<Left>) returns (failed: nat)
      modifies `history
      ensures history == HistoryRemoveAll(old(history), left, |left|, fencing, quorum)
      ensures failed == FailedCount(left, |left|)
    {
      failed := 0;
      var i := 0;
      while i < |left|
        invariant 0 <= i <= |left| && failed == FailedCount(left, i)
        invariant history == HistoryRemoveAll(old(history), left, i, fencing, quorum)
      {
        if left[i].failed {
          failed := failed + 1;
          NodeHistoryFail(left[i].nodeid);
        } else {
          NodeHistoryLeft(left[i].nodeid);
        }
        i := i + 1;
      }
    }

    /** The joined list, up to the first node that is not among the members. */
    method AddJoined(ids: seq<int>, joined: seq<int>) returns (members: seq<Member>, weJoined: bool, missing: bool)
      modifies `history
      ensures Joining(members, history, weJoined, missing) ==
              JoinAll(Joining(NewMembers(ids), old(history), false, false), joined, |joined|, our)
    {
      hide MembIndex, HistoryInit;
      members, weJoined, missing := NewMembers(ids), false, false;
      ghost var j0 := Joining(members, history, false, false);
      var i := 0;
      while i < |joined|
        invariant 0 <= i <= |joined| && !missing
        invariant Joining(members, history, weJoined, missing) == JoinAll(j0, joined, i, our)
      {
        var m := FindMemb(members, joined[i]);
        if m == |members| {
          missing := true;
          StaysMissing(j0, joined, i + 1, our);
          return;
        }
        members := members[m := members[m].(added := true)];
        if joined[i] == our {
          weJoined := true;
        } else {
          NodeHistoryInit(joined[i]);
        }
        i := i + 1;
      }
    }

    method InitAll(ids: seq<int>)
      modifies `history
      ensures history == HistoryInitAll(old(history), ids, |ids|)
    {
      var i := 0;
      while i < |ids|
        invariant 0 <= i <= |ids| && history == HistoryInitAll(old(history), ids, i)
      {
        NodeHistoryInit(ids[i]);
        i := i + 1;
      }
    }

    method NewChange(cc: ConfChg, id: nat) returns (ok: bool)
      modifies `changes, `history
      ensures (View(), ok) == AddChange(old(View()), cc, id)
    {
      hide JoinAll, HistoryRemoveAll, HistoryInitAll, FailedCount;
      var failed := RemoveLeft(cc.left);
      var members, weJoined, missing := AddJoined(cc.members, cc.joined);
      if missing {
        return false;
      }
      if weJoined {
        InitAll(cc.members);
      }
      changes := [Change(id, members, |cc.members|, |cc.joined|, |cc.left|, failed, WaitConditions, weJoined)] + changes;
      return true;
    }

    method ConfchgCb(cc: ConfChg, id: nat, env: Env) returns (out: Output)
      modifies this
      ensures (View(), out) == Step(old(View()), Confchg(cc, id, env))
    {
      hide AddChange, ApplyChanges;
      var ok := NewChange(cc, id);
      if !ok {
        return Nothing;
      }
      StopKernel();
      out := Apply(env);
    }

    method DeliverCb(msg: StartMsg, env: Env) returns (out: Output)
      modifies this
      ensures (View(), out) == Step(old(View()), Start(msg, env))
    {
      hide ReceiveStart, ApplyChanges;
      ReceiveStartMsg(msg, env.now);
      out := Apply(env);
    }

    method ProcessChanges(env: Env) returns (out: Output)
      modifies this
      ensures (View(), out) == Step(old(View()), Tick(env))
    {
      hide ApplyChanges;
      out := Apply(env);
    }
  }

  lemma {:induction false} StaysMissing(j: Joining, joined: seq<int>, n: nat, our: int)
    requires n <= |joined| && JoinAll(j, joined, n, our).missing
    ensures JoinAll(j, joined, |joined|, our) == JoinAll(j, joined, n, our)
    decreases |joined| - n
  {
    if n < |joined| { StaysMissing(j, joined, n + 1, our); }
  }
}
