/**
 A run in which a node starts alone: it rejoins a group whose change looks like
 the one it was added by before, and a start message for the older change is
 still on its way.
 */
module BarrierCase {
  import opened Ranges
  import opened Membership
  import opened Cluster
  import opened Barrier
  import opened StartBarrier

  const No := Env(1, map[], false, {}, false)
  const Yes := Env(1, map[], false, {}, true)

  function NewLs(our: int): Lockspace { Lockspace(our, false, true, [], [], true, 0, None) }

  const Alone := ConfChg([2], [], [2])
  const Pair := ConfChg([1, 2], [], [1])
  const Gone := ConfChg([2], [Left(1, true)], [])

  function PairChange(id: nat, one: bool, two: bool, weJoined: bool): Change {
    Change(id, [Member(1, one, true, false), Member(2, two, false, false)], 2, 1, 0, 0, WaitMessages, weJoined)
  }

  const Waits := Change(0, [Member(2, false, true, false)], 1, 1, 0, 0, WaitConditions, true)
  const Node1 := Node(1, false, false, 0)
  const Node2 := Node(2, false, false, 0)

  /** Node 2 after its own join, then after node 1's, for which it sends `Two`. */
  const Ls2a := NewLs(2).(changes := [Waits], history := [Node2])
  const Ls2b := NewLs(2).(changes := [PairChange(1, false, false, false), Waits], history := [Node2, Node1])
  const Two := StartMsg(2, 2, 1, 0, 0, [1, 2], 0)

  /** Node 1 back again: after its join, for which it sends `One`, after reading
      `Two`, after reading `One`. */
  const Ls1a := NewLs(1).(changes := [PairChange(3, false, false, true)], history := [Node1, Node2])
  const Ls1b := NewLs(1).(changes := [PairChange(3, false, true, true)], history := [Node1, Node2.(addTime := 1)])
  const One := StartMsg(1, 2, 1, 0, 0, [1, 2], 0)
  const Ls1c := NewLs(1).(history := [Node1.(addTime := 1), Node2.(addTime := 1)], stopped := false, startedCount := 1,
                          started := Some(PairChange(3, true, true, true)))

  // ---------- what the nodes do

  lemma FirstOfPair(ms: seq<Member>)
    requires |ms| == 2 && ms[0].nodeid == 1 && ms[1].nodeid == 2
    ensures MembIndex(ms, 1) == 0 && MembIndex(ms, 2) == 1
  {
  }

  lemma PairJoin(h: seq<Node>, our: int)
    ensures var j := JoinAll(Joining(NewMembers([1, 2]), h, false, false), [1], 1, our);
            var ms := [Member(1, false, true, false), Member(2, false, false, false)];
            j == Joining(ms, if our == 1 then h else HistoryInit(h, 1), our == 1, false)
  {
    var j0 := Joining(NewMembers([1, 2]), h, false, false);
    assert j0.members == [Member(1, false, false, false), Member(2, false, false, false)];
    FirstOfPair(j0.members);
    assert JoinAll(j0, [1], 0, our) == j0;
    assert j0.members[0 := Member(1, false, true, false)] == [Member(1, false, true, false), Member(2, false, false, false)];
  }

  lemma Inits()
    ensures HistoryInitAll([], [2], 1) == [Node2] && HistoryInit([Node2], 1) == [Node2, Node1]
    ensures HistoryInitAll([], [1, 2], 2) == [Node1, Node2]
  {
    assert HistoryInitAll([], [2], 0) == [] && HistoryInit([], 2) == [] + [Node2];
    assert NodeIndex([Node2], 1) == 1;
    assert HistoryInitAll([], [1, 2], 0) == [] && HistoryInitAll([], [1, 2], 1) == HistoryInit([], 1) == [] + [Node1];
    assert NodeIndex([Node1], 2) == 1;
    assert HistoryInitAll([], [1, 2], 2) == HistoryInit([Node1], 2) == [Node1] + [Node2];
  }

  lemma Unflagged(h: seq<Node>, env: Env)
    requires forall i :: 0 <= i < |h| ==> !h[i].checkQuorum
    ensures UnquorumAll(h, env) == h && NoQuorum(h)
  {
  }

  lemma Step2a()
    ensures Step(NewLs(2), Confchg(Alone, 0, No)) == (Ls2a, Nothing)
  {
    var ls := NewLs(2);
    var j0 := Joining(NewMembers([2]), [], false, false);
    assert j0.members == [Member(2, false, false, false)];
    assert JoinAll(j0, [2], 0, 2) == j0;
    assert JoinAll(j0, [2], 1, 2) == JoinOne(j0, 2, 2) == Joining([Member(2, false, true, false)], [], true, false);
    Inits();
    assert AddChange(ls, Alone, 0) == (ls.(history := [Node2], changes := [Waits] + []), true);
    assert [Waits] + [] == [Waits];
    Unflagged([Node2], No);
  }

  /** The change that adds node 1 to node 2, as either of them makes it. */
  lemma PairAdded(ls: Lockspace, id: nat)
    ensures AddChange(ls, Pair, id) ==
            (ls.(history := if ls.our == 1 then HistoryInitAll(ls.history, [1, 2], 2) else HistoryInit(ls.history, 1),
                 changes := [PairChange(id, false, false, ls.our == 1).(phase := WaitConditions)] + ls.changes), true)
  {
    hide HistoryInitAll, HistoryInit, JoinAll;
    PairJoin(ls.history, ls.our);
  }

  lemma PairSends(ls: Lockspace, id: nat, rest: seq<Change>)
    requires ls.changes == [PairChange(id, false, false, ls.our == 1).(phase := WaitConditions)] + rest
    requires !ls.fencing && ls.quorum && forall i :: 0 <= i < |ls.history| ==> !ls.history[i].checkQuorum
    ensures ApplyChanges(ls, Yes) == (ls.(changes := [PairChange(id, false, false, ls.our == 1)] + rest),
                                      SendStart(StartMsg(ls.our, 2, 1, 0, 0, [1, 2], ls.startedCount)))
  {
    var cg := ls.changes[0];
    Unflagged(ls.history, Yes);
    assert ls.changes[0 := cg.(phase := WaitMessages)] == [cg.(phase := WaitMessages)] + rest;
    assert Ids(cg.members) == [1, 2];
  }

  lemma Step2b()
    ensures Step(Ls2a, Confchg(Pair, 1, Yes)) == (Ls2b, SendStart(Two))
  {
    hide AddChange, ApplyChanges;
    PairAdded(Ls2a, 1);
    Inits();
    var ls := AddChange(Ls2a, Pair, 1).0;
    PairSends(ls.(stopped := true), 1, [Waits]);
    assert Ls2b.changes == [PairChange(1, false, false, false)] + [Waits];
  }

  lemma Step1a()
    ensures Step(NewLs(1), Confchg(Pair, 3, Yes)) == (Ls1a, SendStart(One))
  {
    hide AddChange, ApplyChanges;
    PairAdded(NewLs(1), 3);
    Inits();
    var ls := AddChange(NewLs(1), Pair, 3).0;
    PairSends(ls.(stopped := true), 3, []);
    assert Ls1a.changes == [PairChange(3, false, false, true)] + [];
  }

  lemma Credited(one: bool, two: bool, m: StartMsg)
    requires m == One || m == Two
    ensures FindChange([PairChange(3, one, two, true)], m, 1) == 0
  {
    var cg := PairChange(3, one, two, true);
    FirstOfPair(cg.members);
    assert MatchChange(cg, m, 1);
    assert [cg][0] == cg;
  }

  lemma Step1b()
    ensures Step(Ls1a, Start(Two, Yes)) == (Ls1b, Nothing)
  {
    var cg := PairChange(3, false, false, true);
    Credited(false, false, Two);
    FirstOfPair(cg.members);
    assert !IsAdded([cg], 2);
    var after := PairChange(3, false, true, true);
    assert cg.members[1 := Member(2, true, false, false)] == after.members;
    assert SetMember([cg], 0, 1, Member(2, true, false, false)) == [cg][0 := after] == [after];
    assert NodeIndex([Node1, Node2], 2) == 1;
    assert HistoryStart([Node1, Node2], 2, 1) == Ls1b.history;
    assert ReceiveStart(Ls1a, Two, 1) == Ls1b;
    assert !after.members[0].start && !AllStarted(after.members);
  }

  lemma Step1c()
    ensures Step(Ls1b, Start(One, Yes)) == (Ls1c, StartKernel(PairChange(3, true, true, true)))
  {
    var cg := PairChange(3, false, true, true);
    Credited(false, true, One);
    FirstOfPair(cg.members);
    var after := PairChange(3, true, true, true);
    assert cg.members[0 := Member(1, true, true, false)] == after.members;
    assert SetMember([cg], 0, 0, Member(1, true, true, false)) == [cg][0 := after] == [after];
    assert HistoryStart(Ls1b.history, 1, 1) == Ls1c.history;
  }

  // ---------- the run

  const Log4 := [Conf(Alone), Conf(Pair), Conf(Gone), Conf(Pair)]
  const Late := Msg(0, 1, Two)
  const Own := Msg(2, 3, One)
  const First1 := Peer(1, 1, NewLs(1), 1, [])
  const Back1 := Peer(1, 3, NewLs(1), 3, [])
  const Done2 := Peer(2, 0, Ls2b, 2, [])

  function Worlds(): seq<World> {
    [World([], []),
     World(Log4[..1], [Peer(2, 0, NewLs(2), 0, [])]),
     World(Log4[..2], [Peer(2, 0, NewLs(2), 0, []), First1]),
     World(Log4[..2], [Peer(2, 0, Ls2a, 1, []), First1]),
     World(Log4[..2], [Done2.(outbox := [Late]), First1]),
     World(Log4[..3], [Done2.(outbox := [Late]), First1]),
     World(Log4, [Done2.(outbox := [Late]), First1, Back1]),
     World(Log4 + [Late], [Done2, First1, Back1]),
     World(Log4 + [Late], [Done2, First1, Back1.(ls := Ls1a, next := 4, outbox := [Own])]),
     World(Log4 + [Late], [Done2, First1, Back1.(ls := Ls1b, next := 5, outbox := [Own])]),
     World(Log4 + [Late, Own], [Done2, First1, Back1.(ls := Ls1b, next := 5)]),
     World(Log4 + [Late, Own], [Done2, First1, Back1.(ls := Ls1c, next := 6)])]
  }

  function Acts(): seq<Act> {
    [Reconfigure(Alone, [NewLs(2)]), Reconfigure(Pair, [NewLs(1)]), Deliver(0, No), Deliver(0, Yes),
     Reconfigure(Gone, []), Reconfigure(Pair, [NewLs(1)]), Flush(0), Deliver(2, Yes), Deliver(2, Yes), Flush(2),
     Deliver(2, Yes)]
  }

  ghost predicate Goes(i: nat)
    requires i < 11
  {
    Enabled(Worlds()[i], Acts()[i]) && Worlds()[i + 1] == Next(Worlds()[i], Acts()[i])
  }

  lemma Members(n: nat)
    requires n <= 4
    ensures MembersAt(Log4[..n], |Log4[..n]|) == (if n == 0 then {} else if n == 1 || n == 3 then {2} else {1, 2})
  {
  }

  lemma NothingSent(outbox: seq<Entry>)
    ensures outbox + [] == outbox
  {
  }

  lemma Goes0()
    ensures Goes(0)
  {
    assert NewPeers([2], [NewLs(2)], 0) == [Peer(2, 0, NewLs(2), 0, [])];
    assert [] + [Conf(Alone)] == Log4[..1];
  }

  lemma Goes1()
    ensures Goes(1)
  {
    Members(1);
    assert NewPeers([1], [NewLs(1)], 1) == [First1];
    assert Log4[..1] + [Conf(Pair)] == Log4[..2];
  }

  lemma Goes2()
    ensures Goes(2)
  {
    hide Step;
    Step2a();
    NothingSent([]);
    assert Log4[..2][0] == Conf(Alone);
  }

  lemma Goes3()
    ensures Goes(3)
  {
    hide Step;
    Step2b();
    assert Log4[..2][1] == Conf(Pair);
    assert [] + [Late] == [Late];
  }

  lemma Goes4()
    ensures Goes(4)
  {
    Members(2);
    assert Gone.left[0].nodeid == 1;
    assert Log4[..2] + [Conf(Gone)] == Log4[..3];
  }

  lemma Goes5()
    ensures Goes(5)
  {
    Members(3);
    assert NewPeers([1], [NewLs(1)], 3) == [Back1];
    assert Log4[..3] + [Conf(Pair)] == Log4;
  }

  lemma Goes6()
    ensures Goes(6)
  {
    assert [Late][1..] == [];
  }

  lemma Goes7()
    ensures Goes(7)
  {
    hide Step;
    Step1a();
    assert [] + [Own] == [Own];
  }

  lemma Goes8()
    ensures Goes(8)
  {
    hide Step;
    Step1b();
    NothingSent([Own]);
    assert (Log4 + [Late])[4] == Late;
  }

  lemma Goes9()
    ensures Goes(9)
  {
    assert [Own][1..] == [];
    assert Log4 + [Late] + [Own] == Log4 + [Late, Own];
  }

  lemma Goes10()
    ensures Goes(10)
  {
    hide Step;
    Step1c();
    NothingSent([]);
    assert (Log4 + [Late, Own])[5] == Own;
  }

  lemma ItIsARun()
    ensures IsRun(Worlds(), Acts())
  {
    hide Goes, Worlds, Acts;
    Goes0();
    Goes1();
    Goes2();
    Goes3();
    Goes4();
    Goes5();
    Goes6();
    Goes7();
    Goes8();
    Goes9();
    Goes10();
    forall i | 0 <= i < 11 ensures Goes(i) {
    }
    RunFromSteps();
  }

  lemma RunFromSteps()
    requires forall i :: 0 <= i < 11 ==> Goes(i)
    ensures IsRun(Worlds(), Acts())
  {
    hide Enabled, Next;
    assert |Worlds()| == 12 && |Acts()| == 11 && Worlds()[0] == World([], []);
    forall i | 0 <= i < 11 ensures Enabled(Worlds()[i], Acts()[i]) && Worlds()[i + 1] == Next(Worlds()[i], Acts()[i]) {
      assert Goes(i);
    }
  }

  /** Node 2 never says anything about change 3. */
  lemma NeverSaid(j: nat, e: Entry)
    requires j < 10 && Goes(j) && IsMsg(e, 3, 2)
    ensures !SentHere(Worlds()[j], Acts()[j], e)
  {
    hide Step, Enabled, Next;
    if j == 2 {
      Step2a();
      assert Log4[..2][0] == Conf(Alone);
    } else if j == 3 {
      Step2b();
      assert Log4[..2][1] == Conf(Pair);
    }
  }

  /** The hypothesis of the barrier cannot be dropped: in this run the last step
      starts node 1's kernel for change 3, of which node 2 is a member, and node 2
      has never stood at that change. The message it read in between is stale. */
  lemma RejoinBreaksBarrier()
    ensures var ws, acts := Worlds(), Acts();
            && IsRun(ws, acts) && |acts| == 11 && acts[10] == Deliver(2, Yes)
            && 2 < |ws[10].peers| && ws[10].peers[2].next < |ws[10].log|
            && var out := Step(ws[10].peers[2].ls, LocalEvent(ws[10], acts[10])).1;
               && out.StartKernel? && out.cg.id == 3 && |out.cg.members| == 2 && out.cg.members[1].nodeid == 2
               && !StoodAt(ws, acts, 10, 3, 2) && Stale(ws[10].log, 1, 3, 4)
  {
    hide Step, Next, Enabled;
    ItIsARun();
    Step1c();
    var ws, acts := Worlds(), Acts();
    assert ws[10].log[5] == Own;
    forall j, e | 0 <= j < 10 && IsMsg(e, 3, 2) ensures !SentHere(ws[j], acts[j], e) {
      assert Goes(j);
      NeverSaid(j, e);
    }
    LateIsStale();
  }

  lemma LateIsStale()
    ensures Stale(Log4 + [Late, Own], 1, 3, 4)
  {
    var log := Log4 + [Late, Own];
    assert log[4] == Late && log[1] == Conf(Pair) && log[3] == Conf(Pair) && log[2] == Conf(Gone);
    assert !Leaves(log[2], 2) && !Leaves(log[3], 2);
    assert LooksLike(log, 1, 3);
  }
}
