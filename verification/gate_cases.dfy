/**
 Two runs of one node, node 1 with fencing, that show what the gates rely on: a
 refused change, and a normal leave of a node that is to be fenced.
 */
module GateCases {
  import opened Ranges
  import opened Membership
  import opened Fencing

  /** Node 2 was last fenced at 3, before it joined. */
  function At(now: nat): Env { Env(now, map[2 := 3], false, {}, true) }

  const Fresh1 := Lockspace(1, true, false, [], [], true, 0, None)

  const N1 := Node(1, false, false, 0)
  const N2 := Node(2, false, false, 0)

  // ---------- both join, and node 2 is heard

  const Both := Confchg(ConfChg([1, 2], [], [1, 2]), 0, At(5))
  const Heard := Start(StartMsg(2, 2, 2, 0, 0, [1, 2], 0), At(6))

  function BothChange(one: bool, two: bool): Change {
    Change(0, [Member(1, one, true, false), Member(2, two, true, false)], 2, 2, 0, 0, WaitMessages, true)
  }

  const Joined1 := Fresh1.(changes := [BothChange(false, false)], history := [N2, N1])
  const Heard1 := Fresh1.(changes := [BothChange(false, true)], history := [N2.(addTime := 6), N1])

  lemma PairIndex(ms: seq<Member>)
    requires |ms| == 2 && ms[0].nodeid == 1 && ms[1].nodeid == 2
    ensures MembIndex(ms, 1) == 0 && MembIndex(ms, 2) == 1
  {
  }

  lemma BothJoin()
    ensures JoinAll(Joining(NewMembers([1, 2]), [], false, false), [1, 2], 2, 1) ==
            Joining([Member(1, false, true, false), Member(2, false, true, false)], [N2], true, false)
  {
    var j0 := Joining(NewMembers([1, 2]), [], false, false);
    assert j0.members == [Member(1, false, false, false), Member(2, false, false, false)];
    PairIndex(j0.members);
    assert JoinAll(j0, [1, 2], 0, 1) == j0;
    var j1 := JoinOne(j0, 1, 1);
    assert j1.members == [Member(1, false, true, false), Member(2, false, false, false)];
    assert JoinAll(j0, [1, 2], 1, 1) == j1;
    PairIndex(j1.members);
    assert HistoryInit([], 2) == [] + [N2];
    assert JoinOne(j1, 2, 1).members == [Member(1, false, true, false), Member(2, false, true, false)];
  }

  lemma Inits()
    ensures HistoryInitAll([N2], [1, 2], 2) == [N2, N1]
  {
    assert HistoryInitAll([N2], [1, 2], 0) == [N2];
    assert NodeIndex([N2], 1) == 1;
    assert HistoryInitAll([N2], [1, 2], 1) == HistoryInit([N2], 1) == [N2] + [N1];
    assert NodeIndex([N2, N1], 2) == 0;
  }

  lemma StepBoth()
    ensures Step(Fresh1, Both).0 == Joined1
  {
    hide JoinAll, HistoryInitAll;
    BothJoin();
    Inits();
    var cg := BothChange(false, false).(phase := WaitConditions);
    assert AddChange(Fresh1, Both.cc, 0) == (Fresh1.(history := [N2, N1], changes := [cg] + []), true);
    assert [cg] + [] == [cg] && [cg][0 := BothChange(false, false)] == Joined1.changes;
    assert UnfenceAll([N2, N1], At(5)) == [N2, N1];
  }

  lemma Credited(one: bool, two: bool, m: StartMsg)
    requires m == StartMsg(m.nodeid, 2, 2, 0, 0, [1, 2], 0) && (m.nodeid == 1 || m.nodeid == 2)
    ensures FindChange([BothChange(one, two)], m, 1) == 0
  {
    var cg := BothChange(one, two);
    PairIndex(cg.members);
    assert MatchChange(cg, m, 1) && [cg][0] == cg;
  }

  lemma StepHeard()
    ensures Step(Joined1, Heard).0 == Heard1
  {
    var cg, after := BothChange(false, false), BothChange(false, true);
    Credited(false, false, Heard.msg);
    PairIndex(cg.members);
    assert cg.members[1 := Member(2, true, true, false)] == after.members;
    assert SetMember([cg], 0, 1, Member(2, true, true, false)) == [cg][0 := after] == [after];
    assert HistoryStart([N2, N1], 2, 6) == [N2.(addTime := 6), N1];
    assert ReceiveStart(Joined1, Heard.msg, 6) == Heard1;
    assert !after.members[0].start && !AllStarted(after.members);
  }

  lemma AfterNext(ls: Lockspace, evs: seq<Event>, k: nat)
    requires k < |evs|
    ensures After(ls, evs[..k + 1]) == Step(After(ls, evs[..k]), evs[k]).0
  {
    assert evs[..k + 1][..k] == evs[..k];
  }

  lemma AfterHeard(evs: seq<Event>)
    requires |evs| >= 2 && evs[0] == Both && evs[1] == Heard
    ensures After(Fresh1, evs[..2]) == Heard1
  {
    hide Step;
    StepBoth();
    StepHeard();
    assert evs[..0] == [] && After(Fresh1, []) == Fresh1;
    AfterNext(Fresh1, evs, 0);
    AfterNext(Fresh1, evs, 1);
  }

  lemma FailTwo()
    ensures HistoryRemoveAll([N2.(addTime := 6), N1], [Left(2, true)], 1, true, false) ==
            [N2.(addTime := 6, checkFencing := true), N1]
  {
    var h := [N2.(addTime := 6), N1];
    assert HistoryRemoveAll(h, [Left(2, true)], 0, true, false) == h;
    assert HistoryFail(h, 2, true, false) == [N2.(addTime := 6, checkFencing := true), N1];
  }

  // ---------- a refused change

  /** The change says that node 3 joined but does not count it as a member. */
  const Refused := Confchg(ConfChg([1], [Left(2, true)], [3]), 1, At(7))
  const OwnBoth := Start(StartMsg(1, 2, 2, 0, 0, [1, 2], 0), At(8))
  const RefusedRun := [Both, Heard, Refused, OwnBoth]

  const Refused1 := Heard1.(history := [N2.(addTime := 6, checkFencing := true), N1])

  lemma StepRefused()
    ensures Step(Heard1, Refused) == (Refused1, Nothing)
  {
    FailTwo();
    var j0 := Joining(NewMembers([1]), Refused1.history, false, false);
    assert j0.members == [Member(1, false, false, false)];
    assert JoinAll(j0, [3], 0, 1) == j0;
    assert JoinAll(j0, [3], 1, 1) == j0.(missing := true);
  }

  lemma StepStarts()
    ensures var (after, out) := Step(Refused1, OwnBoth);
            out == StartKernel(BothChange(true, true)) && |after.history| == 2 && after.history[0].checkFencing
  {
    var cg, after := BothChange(false, true), BothChange(true, true);
    Credited(false, true, OwnBoth.msg);
    PairIndex(cg.members);
    assert cg.members[0 := Member(1, true, true, false)] == after.members;
    assert SetMember([cg], 0, 0, Member(1, true, true, false)) == [cg][0 := after] == [after];
    assert NodeIndex(Refused1.history, 1) == 1;
    assert HistoryStart(Refused1.history, 1, 8) == [Refused1.history[0], N1.(addTime := 8)];
  }

  /** A change that names a joined node outside its members is refused half way:
      its failures are recorded but nothing is stopped. From a fresh lockspace that
      leads to a kernel start with a node still to be fenced. */
  lemma RefusedChangeStarts()
    ensures Initial(Fresh1) && !WellFormedChange(Refused)
    ensures var (after, out) := Step(After(Fresh1, RefusedRun[..3]), RefusedRun[3]);
            out.StartKernel? && !NoFencing(after.history)
  {
    hide Step;
    AfterHeard(RefusedRun);
    StepRefused();
    AfterNext(Fresh1, RefusedRun, 2);
    StepStarts();
    assert 3 in Refused.cc.joined && 3 !in Refused.cc.members;
  }

  // ---------- a normal leave in between

  /** Node 2 fails, is back before it was fenced, and then leaves normally. */
  const Fails := Confchg(ConfChg([1], [Left(2, true)], []), 1, At(7))
  const Returns := Confchg(ConfChg([1, 2], [], [2]), 2, At(8))
  const Quits := Confchg(ConfChg([1], [Left(2, false)], []), 3, At(9))
  const OwnAlone := Start(StartMsg(1, 1, 0, 1, 0, [1], 0), At(10))
  const LeaveRun := [Both, Heard, Fails, Returns, Quits, OwnAlone]

  const Pending2 := N2.(addTime := 6, checkFencing := true)
  const FailsChange := Change(1, [Member(1, false, false, false)], 1, 0, 1, 1, WaitConditions, false)
  const ReturnsChange := Change(2, [Member(1, false, false, false), Member(2, false, true, false)], 2, 1, 0, 0, WaitConditions, false)

  function QuitsChange(one: bool): Change {
    Change(3, [Member(1, one, false, false)], 1, 0, 1, 0, WaitMessages, false)
  }

  const Failed1 := Heard1.(changes := [FailsChange, BothChange(false, true)], history := [Pending2, N1])
  const Returned1 := Failed1.(changes := [ReturnsChange, FailsChange, BothChange(false, true)])
  const Quit1 := Returned1.(changes := [QuitsChange(false), ReturnsChange, FailsChange, BothChange(false, true)],
                            history := [N2, N1])

  lemma StillPending(now: nat)
    ensures UnfenceAll([Pending2, N1], At(now)) == [Pending2, N1] && !NoFencing([Pending2, N1])
  {
    assert [Pending2, N1][0].checkFencing;
  }

  lemma NoJoin(h: seq<Node>)
    ensures NewMembers([1]) == [Member(1, false, false, false)]
    ensures JoinAll(Joining(NewMembers([1]), h, false, false), [], 0, 1) == Joining([Member(1, false, false, false)], h, false, false)
  {
  }

  lemma StepFails()
    ensures Step(Heard1, Fails).0 == Failed1
  {
    FailTwo();
    NoJoin([Pending2, N1]);
    assert FailedCount([Left(2, true)], 1) == FailedCount([Left(2, true)], 0) + 1;
    assert AddChange(Heard1, Fails.cc, 1) == (Heard1.(history := [Pending2, N1], changes := [FailsChange] + Heard1.changes), true);
    assert [FailsChange] + Heard1.changes == Failed1.changes;
    StillPending(7);
  }

  lemma ReturnJoin()
    ensures JoinAll(Joining(NewMembers([1, 2]), [Pending2, N1], false, false), [2], 1, 1) ==
            Joining(ReturnsChange.members, [Pending2, N1], false, false)
  {
    var j0 := Joining(NewMembers([1, 2]), [Pending2, N1], false, false);
    assert j0.members == [Member(1, false, false, false), Member(2, false, false, false)];
    PairIndex(j0.members);
    assert JoinAll(j0, [2], 0, 1) == j0;
    assert NodeIndex([Pending2, N1], 2) == 0;
    assert j0.members[1 := Member(2, false, true, false)] == ReturnsChange.members;
  }

  lemma StepReturns()
    ensures Step(Failed1, Returns).0 == Returned1
  {
    hide JoinAll;
    ReturnJoin();
    assert HistoryRemoveAll([Pending2, N1], [], 0, true, false) == [Pending2, N1];
    assert AddChange(Failed1, Returns.cc, 2) == (Failed1.(changes := [ReturnsChange] + Failed1.changes), true);
    assert [ReturnsChange] + Failed1.changes == Returned1.changes;
    StillPending(8);
  }

  lemma ForgetTwo()
    ensures HistoryRemoveAll([Pending2, N1], [Left(2, false)], 1, true, false) == [Pending2.(addTime := 0), N1]
    ensures UnfenceAll([Pending2.(addTime := 0), N1], At(9)) == [N2, N1] && FailedCount([Left(2, false)], 1) == 0
  {
    assert HistoryRemoveAll([Pending2, N1], [Left(2, false)], 0, true, false) == [Pending2, N1];
    assert HistoryLeft([Pending2, N1], 2) == [Pending2.(addTime := 0), N1];
    assert FailedCount([Left(2, false)], 0) == 0;
  }

  lemma StepQuits()
    ensures Step(Returned1, Quits).0 == Quit1
  {
    hide HistoryRemoveAll, UnfenceAll, JoinAll, FailedCount;
    ForgetTwo();
    var h := [Pending2.(addTime := 0), N1];
    NoJoin(h);
    var cg := QuitsChange(false).(phase := WaitConditions);
    var ls := Returned1.(history := h, changes := [cg] + Returned1.changes);
    assert AddChange(Returned1, Quits.cc, 3) == (ls, true);
    assert NoFencing([N2, N1]);
    assert ls.changes[0 := QuitsChange(false)] == Quit1.changes;
    assert WaitConditionsDone(ls, At(9)) == ([N2, N1], true);
  }

  lemma CreditedAlone()
    ensures FindChange(Quit1.changes, OwnAlone.msg, 1) == 0
  {
    var m, cs := OwnAlone.msg, Quit1.changes;
    assert MembIndex(cs[0].members, 1) == 0;
    assert MatchChange(cs[0], m, 1);
    assert !MatchChange(cs[1], m, 1) && !MatchChange(cs[2], m, 1) && !MatchChange(cs[3], m, 1);
  }

  lemma StepAlone()
    ensures Step(Quit1, OwnAlone).1 == StartKernel(QuitsChange(true))
  {
    hide FindChange;
    CreditedAlone();
    var cs := Quit1.changes;
    assert MembIndex(cs[0].members, 1) == 0;
    assert cs[0].members[0 := Member(1, true, false, false)] == QuitsChange(true).members;
    assert SetMember(cs, 0, 0, Member(1, true, false, false))[0] == QuitsChange(true);
  }

  lemma AfterLeave()
    ensures After(Fresh1, LeaveRun[..2]) == Heard1 && After(Fresh1, LeaveRun[..5]) == Quit1
  {
    hide Step;
    AfterHeard(LeaveRun);
    StepFails();
    StepReturns();
    StepQuits();
    AfterNext(Fresh1, LeaveRun, 2);
    AfterNext(Fresh1, LeaveRun, 3);
    AfterNext(Fresh1, LeaveRun, 4);
  }

  /** A normal leave forgets when the node was added. In this run node 2, added at
      6, fails in event 2 and the kernel starts in event 5; the clock is monotone
      and all changes are well formed; only in event 4 node 2 leaves normally. The
      one fence report there ever was is from before it joined. */
  lemma LeaveForgets()
    ensures Initial(Fresh1) && Fresh1.fencing && Monotone(LeaveRun) && forall ev :: ev in LeaveRun ==> WellFormedChange(ev)
    ensures LeaveRun[2].Confchg? && Left(2, true) in LeaveRun[2].cc.left && HasTime(After(Fresh1, LeaveRun[..2]).history, 2, 6)
    ensures forall m :: 2 <= m <= 5 ==> (NoLeave(LeaveRun[m], 2) <==> m != 4)
    ensures Step(After(Fresh1, LeaveRun[..5]), LeaveRun[5]).1.StartKernel?
    ensures !FencedIn(LeaveRun, 2, 6, 2, 6)
  {
    hide Step, After;
    AfterLeave();
    StepAlone();
    assert Left(2, false) in Quits.cc.left;
    forall ev | ev in LeaveRun ensures WellFormedChange(ev) {
      var i :| 0 <= i < |LeaveRun| && LeaveRun[i] == ev;
    }
    forall m | 0 <= m < 6 ensures LeaveRun[m].env == At(5 + m) {
    }
  }
}
