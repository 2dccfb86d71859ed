/**
 A run in which a node hangs: the starts for its current change are credited to an
 older pending one that looks the same, while the other member starts.
 */
module BarrierHang {
  import opened Membership
  import opened Cluster
  import opened Barrier
  import opened BarrierCase
  import opened BarrierCredit
  import opened BarrierProgress

  const Bye := ConfChg([2], [Left(1, false)], [])
  const ByeChange := Change(2, [Member(2, false, false, false)], 1, 0, 1, 0, WaitConditions, false)

  /** Node 1's first join as node 2 has it: never got past its conditions. */
  function Older(one: bool, two: bool): Change {
    PairChange(1, one, two, false).(phase := WaitConditions)
  }

  function Pending(one: bool, two: bool): seq<Change> {
    [PairChange(3, false, false, false), ByeChange, Older(one, two), Waits]
  }

  /** Node 2 after each of its four changes, then after reading `Two` and `One`. */
  const Both := [Node2, Node1]
  const LsB := NewLs(2).(changes := [Older(false, false), Waits], history := Both)
  const LsC := NewLs(2).(changes := [ByeChange, Older(false, false), Waits], history := Both)
  const LsD := NewLs(2).(changes := Pending(false, false), history := Both)
  const LsE := NewLs(2).(changes := Pending(false, true), history := [Node2.(addTime := 1), Node1])
  const LsF := NewLs(2).(changes := Pending(true, true), history := [Node2.(addTime := 1), Node1.(addTime := 1)])

  // ---------- what node 2 does

  lemma NotQuorate(ls: Lockspace)
    requires ls.changes != [] && ls.changes[0].phase == WaitConditions && !ls.fencing && ls.quorum
    requires forall i :: 0 <= i < |ls.history| ==> !ls.history[i].checkQuorum
    ensures ApplyChanges(ls, No) == (ls, Nothing)
  {
    Unflagged(ls.history, No);
  }

  lemma StepB()
    ensures Step(Ls2a, Confchg(Pair, 1, No)) == (LsB, Nothing)
  {
    hide AddChange, ApplyChanges;
    PairAdded(Ls2a, 1);
    Inits();
    assert LsB.changes == [Older(false, false)] + [Waits];
    NotQuorate(LsB);
  }

  lemma ByeAdded()
    ensures AddChange(LsB, Bye, 2) == (LsC, true)
  {
    var left := Bye.left;
    assert HistoryRemoveAll(Both, left, 0, false, true) == Both;
    assert HistoryRemoveAll(Both, left, 1, false, true) == HistoryLeft(Both, 1) == Both;
    assert NewMembers([2]) == ByeChange.members;
    var j0 := Joining(ByeChange.members, Both, false, false);
    assert JoinAll(j0, [], 0, 2) == j0;
    assert FailedCount(left, 0) == 0 && FailedCount(left, 1) == 0;
    assert [ByeChange] + LsB.changes == LsC.changes;
  }

  lemma StepC()
    ensures Step(LsB, Confchg(Bye, 2, No)) == (LsC, Nothing)
  {
    hide AddChange, ApplyChanges;
    ByeAdded();
    NotQuorate(LsC);
  }

  lemma StepD()
    ensures Step(LsC, Confchg(Pair, 3, Yes)) == (LsD, SendStart(Two))
  {
    hide AddChange, ApplyChanges;
    PairAdded(LsC, 3);
    assert Both[1].nodeid == 1;
    assert HistoryInit(Both, 1) == Both;
    var ls := AddChange(LsC, Pair, 3).0;
    PairSends(ls.(stopped := true), 3, LsC.changes);
    assert LsD.changes == [PairChange(3, false, false, false)] + LsC.changes;
  }

  /** Both starts go to the older change. */
  lemma CreditedToOlder(one: bool, two: bool, m: StartMsg)
    requires m == One || m == Two
    ensures FindChange(Pending(one, two), m, 2) == 2
  {
    hide FindChange;
    var cs := Pending(one, two);
    FirstOfPair(cs[2].members);
    assert MatchChange(cs[2], m, 2);
    assert !MatchChange(cs[3], m, 2);
  }

  lemma StepE()
    ensures Step(LsD, Start(Two, Yes)) == (LsE, Nothing)
  {
    hide FindChange, IsAdded;
    CreditedToOlder(false, false, Two);
    FirstOfPair(Older(false, false).members);
    var cs := Pending(false, false);
    assert cs[2].members[1 := Member(2, true, false, false)] == Older(false, true).members;
    assert SetMember(cs, 2, 1, Member(2, true, false, false)) == cs[2 := Older(false, true)] == Pending(false, true);
    assert HistoryStart(Both, 2, 1) == LsE.history;
    assert ReceiveStart(LsD, Two, 1) == LsE;
    StillWaiting(LsE, Yes);
  }

  lemma StepF()
    ensures Step(LsE, Start(One, Yes)) == (LsF, Nothing)
  {
    hide FindChange, IsAdded;
    CreditedToOlder(false, true, One);
    FirstOfPair(Older(false, true).members);
    var cs := Pending(false, true);
    assert cs[2].members[0 := Member(1, true, true, false)] == Older(true, true).members;
    assert SetMember(cs, 2, 0, Member(1, true, true, false)) == cs[2 := Older(true, true)] == Pending(true, true);
    assert NodeIndex(LsE.history, 1) == 1;
    assert HistoryStart(LsE.history, 1, 1) == LsF.history;
    assert ReceiveStart(LsE, One, 1) == LsF;
    StillWaiting(LsF, Yes);
  }

  lemma StillWaiting(ls: Lockspace, env: Env)
    requires ls.changes != [] && ls.changes[0] == PairChange(3, false, false, false)
    ensures ApplyChanges(ls, env) == (ls, Nothing)
  {
    assert !ls.changes[0].members[0].start;
  }

  // ---------- the run

  const Confs := [Conf(Alone), Conf(Pair), Conf(Bye), Conf(Pair)]
  const FromTwo := Msg(0, 3, Two)
  const FromOne := Msg(2, 3, One)
  const Log5 := Confs + [FromTwo]
  const Log6 := Confs + [FromTwo, FromOne]

  function At2(ls: Lockspace, next: nat, outbox: seq<Entry>): Peer { Peer(2, 0, ls, next, outbox) }

  function Three(two: Peer, one: Peer): seq<Peer> { [two, First1, one] }

  const Sent1 := Back1.(ls := Ls1a, next := 4, outbox := [FromOne])

  function HangWorlds(): seq<World> {
    [World([], []),
     World(Confs[..1], [At2(NewLs(2), 0, [])]),
     World(Confs[..2], [At2(NewLs(2), 0, []), First1]),
     World(Confs[..3], [At2(NewLs(2), 0, []), First1]),
     World(Confs, Three(At2(NewLs(2), 0, []), Back1)),
     World(Confs, Three(At2(Ls2a, 1, []), Back1)),
     World(Confs, Three(At2(LsB, 2, []), Back1)),
     World(Confs, Three(At2(LsC, 3, []), Back1)),
     World(Confs, Three(At2(LsD, 4, [FromTwo]), Back1)),
     World(Confs, Three(At2(LsD, 4, [FromTwo]), Sent1)),
     World(Log5, Three(At2(LsD, 4, []), Sent1)),
     World(Log6, Three(At2(LsD, 4, []), Sent1.(outbox := []))),
     World(Log6, Three(At2(LsE, 5, []), Sent1.(outbox := []))),
     World(Log6, Three(At2(LsF, 6, []), Sent1.(outbox := []))),
     World(Log6, Three(At2(LsF, 6, []), Back1.(ls := Ls1b, next := 5))),
     World(Log6, Three(At2(LsF, 6, []), Back1.(ls := Ls1c, next := 6)))]
  }

  function HangActs(): seq<Act> {
    [Reconfigure(Alone, [NewLs(2)]), Reconfigure(Pair, [NewLs(1)]), Reconfigure(Bye, []), Reconfigure(Pair, [NewLs(1)]),
     Deliver(0, No), Deliver(0, No), Deliver(0, No), Deliver(0, Yes), Deliver(2, Yes), Flush(0), Flush(2),
     Deliver(0, Yes), Deliver(0, Yes), Deliver(2, Yes), Deliver(2, Yes)]
  }

  ghost predicate Moves(w: World, a: Act, after: World) {
    Enabled(w, a) && after == Next(w, a)
  }

  lemma GroupAt(n: nat)
    requires n <= 4
    ensures MembersAt(Confs[..n], |Confs[..n]|) == (if n == 0 then {} else if n == 1 || n == 3 then {2} else {1, 2})
  {
  }

  lemma Grows0()
    ensures Moves(World([], []), Reconfigure(Alone, [NewLs(2)]), World(Confs[..1], [At2(NewLs(2), 0, [])]))
  {
    assert NewPeers([2], [NewLs(2)], 0) == [At2(NewLs(2), 0, [])];
    assert [] + [Conf(Alone)] == Confs[..1];
  }

  lemma Grows1(two: Peer)
    ensures Moves(World(Confs[..1], [two]), Reconfigure(Pair, [NewLs(1)]), World(Confs[..2], [two, First1]))
  {
    GroupAt(1);
    assert NewPeers([1], [NewLs(1)], 1) == [First1];
    assert Confs[..1] + [Conf(Pair)] == Confs[..2];
  }

  lemma Grows2(ps: seq<Peer>)
    ensures Moves(World(Confs[..2], ps), Reconfigure(Bye, []), World(Confs[..3], ps))
  {
    GroupAt(2);
    assert Bye.left[0].nodeid == 1;
    assert Confs[..2] + [Conf(Bye)] == Confs[..3];
    assert ps + NewPeers([], [], 2) == ps;
  }

  lemma Grows3(two: Peer)
    ensures Moves(World(Confs[..3], [two, First1]), Reconfigure(Pair, [NewLs(1)]), World(Confs, Three(two, Back1)))
  {
    GroupAt(3);
    assert NewPeers([1], [NewLs(1)], 3) == [Back1];
    assert Confs[..3] + [Conf(Pair)] == Confs;
  }

  lemma TwoDelivers(log: seq<Entry>, ls: Lockspace, next: nat, env: Env, one: Peer, ls1: Lockspace, out: Output)
    requires next < |log| && !Leaves(log[next], 2) && Step(ls, EventOf(log[next], next, env)) == (ls1, out)
    requires out == Nothing || (out.SendStart? && ls1.changes != [])
    ensures var box := if out.SendStart? then [Msg(0, ls1.changes[0].id, out.msg)] else [];
            Moves(World(log, Three(At2(ls, next, []), one)), Deliver(0, env), World(log, Three(At2(ls1, next + 1, box), one)))
  {
    hide Step, Leaves;
    var box := if out.SendStart? then [Msg(0, ls1.changes[0].id, out.msg)] else [];
    assert [] + box == box;
  }

  lemma OneDelivers(log: seq<Entry>, two: Peer, one: Peer, env: Env, ls1: Lockspace, out: Output)
    requires one.nodeid == 1 && one.next < |log| && (one.next == one.born || !Leaves(log[one.next], 1))
    requires Step(one.ls, EventOf(log[one.next], one.next, env)) == (ls1, out)
    requires out.SendStart? ==> ls1.changes != []
    ensures var box := if out.SendStart? then [Msg(2, ls1.changes[0].id, out.msg)] else [];
            Moves(World(log, Three(two, one)), Deliver(2, env),
                  World(log, Three(two, one.(ls := ls1, next := one.next + 1, outbox := one.outbox + box))))
  {
    hide Step, Leaves;
  }

  lemma TwoFlushes()
    ensures Moves(World(Confs, Three(At2(LsD, 4, [FromTwo]), Sent1)), Flush(0), World(Log5, Three(At2(LsD, 4, []), Sent1)))
  {
    assert [FromTwo][1..] == [];
    assert !Leaves(Confs[1], 2) && !Leaves(Confs[2], 2) && !Leaves(Confs[3], 2);
  }

  lemma OneFlushes()
    ensures Moves(World(Log5, Three(At2(LsD, 4, []), Sent1)), Flush(2),
                  World(Log6, Three(At2(LsD, 4, []), Sent1.(outbox := []))))
  {
    assert [FromOne][1..] == [];
    assert Log5 + [FromOne] == Log6 && Log5[4] == FromTwo;
    assert !Leaves(Log5[4], 1);
  }

  ghost predicate Runs(i: nat)
    requires i < 15
  {
    Moves(HangWorlds()[i], HangActs()[i], HangWorlds()[i + 1])
  }

  lemma RunsFirst()
    ensures Runs(0) && Runs(1) && Runs(2) && Runs(3)
  {
    hide Moves;
    Grows0();
    Grows1(At2(NewLs(2), 0, []));
    Grows2([At2(NewLs(2), 0, []), First1]);
    Grows3(At2(NewLs(2), 0, []));
  }

  lemma RunsJoins()
    ensures Runs(4) && Runs(5) && Runs(6)
  {
    hide Moves, Step;
    Step2a();
    StepB();
    StepC();
    TwoDelivers(Confs, NewLs(2), 0, No, Back1, Ls2a, Nothing);
    TwoDelivers(Confs, Ls2a, 1, No, Back1, LsB, Nothing);
    TwoDelivers(Confs, LsB, 2, No, Back1, LsC, Nothing);
  }

  lemma RunsSends()
    ensures Runs(7) && Runs(8) && Runs(9) && Runs(10)
  {
    hide Moves, Step;
    StepD();
    TwoDelivers(Confs, LsC, 3, Yes, Back1, LsD, SendStart(Two));
    Step1a();
    OneDelivers(Confs, At2(LsD, 4, [FromTwo]), Back1, Yes, Ls1a, SendStart(One));
    assert [] + [FromOne] == [FromOne];
    TwoFlushes();
    OneFlushes();
  }

  lemma RunsTwoReads()
    ensures Runs(11) && Runs(12)
  {
    hide Moves, Step;
    var one := Sent1.(outbox := []);
    assert Log6[4] == FromTwo && Log6[5] == FromOne;
    StepE();
    StepF();
    TwoDelivers(Log6, LsD, 4, Yes, one, LsE, Nothing);
    TwoDelivers(Log6, LsE, 5, Yes, one, LsF, Nothing);
  }

  lemma RunsOneReads()
    ensures Runs(13) && Runs(14)
  {
    hide Moves, Step;
    var two := At2(LsF, 6, []);
    assert Log6[4] == FromTwo && Log6[5] == FromOne;
    NothingSent([]);
    Step1b();
    OneDelivers(Log6, two, Sent1.(outbox := []), Yes, Ls1b, Nothing);
    Step1c();
    OneDelivers(Log6, two, Back1.(ls := Ls1b, next := 5), Yes, Ls1c, StartKernel(PairChange(3, true, true, true)));
  }

  lemma HangIsARun()
    ensures IsRun(HangWorlds(), HangActs())
  {
    hide Runs, HangWorlds, HangActs;
    RunsFirst();
    RunsJoins();
    RunsSends();
    RunsTwoReads();
    RunsOneReads();
    forall i | 0 <= i < 15 ensures Runs(i) {
    }
    RunOfMoves();
  }

  lemma RunOfMoves()
    requires forall i :: 0 <= i < 15 ==> Runs(i)
    ensures IsRun(HangWorlds(), HangActs())
  {
    hide Enabled, Next;
    assert |HangWorlds()| == 16 && |HangActs()| == 15 && HangWorlds()[0] == World([], []);
    forall i | 0 <= i < 15
      ensures Enabled(HangWorlds()[i], HangActs()[i]) && HangWorlds()[i + 1] == Next(HangWorlds()[i], HangActs()[i])
    {
      assert Runs(i);
    }
  }

  /** Every message has been read, none of them stale or refused, and node 1 has
      started change 3; node 2 has read both starts for it, waits for messages and
      goes on waiting whatever it learns, held up by the older change. */
  lemma OlderChangeHangs()
    ensures var ws, acts := HangWorlds(), HangActs();
            && IsRun(ws, acts) && |acts| == 15 && |ws[15].peers| == 3 && |ws[15].log| == 6
            && var two, one, log := ws[15].peers[0], ws[15].peers[2], ws[15].log;
               && two.nodeid == 2 && two.next == 6 && two.outbox == [] && one.nodeid == 1 && one.next == 6 && one.outbox == []
               && one.ls.started.Some? && one.ls.started.value.id == 3
               && two.ls.changes != [] && two.ls.changes[0].id == 3 && two.ls.changes[0].phase == WaitMessages
               && two.ls.started.None? && AllHeard(log, 6, two.ls.changes[0]) && NoneStale(log, 2, two.born, 6)
               && HeldUp(log, two) && forall env :: Step(two.ls, Tick(env)) == (two.ls, Nothing)
  {
    hide IsRun;
    HangIsARun();
    HeardBoth();
    OlderIsAlike(At2(LsF, 6, []));
    forall env ensures Step(LsF, Tick(env)) == (LsF, Nothing) {
      StillWaiting(LsF, env);
    }
  }

  lemma HeardBoth()
    ensures AllHeard(Log6, 6, PairChange(3, false, false, false)) && NoneStale(Log6, 2, 0, 6)
  {
    assert IsMsg(Log6[4], 3, 2) && IsMsg(Log6[5], 3, 1);
  }

  lemma OlderIsAlike(two: Peer)
    requires two.ls.changes == Pending(true, true)
    ensures HeldUp(Log6, two)
  {
    var cs := two.ls.changes;
    assert Log6[1] == Conf(Pair) && Log6[3] == Conf(Pair);
    assert cs[2].id == 1 && Alike(Log6, 3, cs[2].id);
  }
}
