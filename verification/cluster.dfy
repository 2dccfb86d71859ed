/**
 A lockspace across nodes: one totally ordered log of configuration changes and
 start messages, which every node works off at its own pace.
 */
module Cluster {
  import opened Membership

  /** `peer` and `about` say who sent a message and for which change; no receiver
      looks at them. */
  datatype Entry = Conf(cc: ConfChg) | Msg(peer: nat, about: nat, msg: StartMsg)

  /** A node from one join on: `born` is the log position of the change that added
      it, `next` the position it delivers next. */
  datatype Peer = Peer(nodeid: int, born: nat, ls: Lockspace, next: nat, outbox: seq<Entry>)

  datatype World = World(log: seq<Entry>, peers: seq<Peer>)

  datatype Act =
    | Reconfigure(cc: ConfChg, newcomers: seq<Lockspace>)
    | Flush(p: nat)
    | Deliver(p: nat, env: Env)
    | Poll(p: nat, env: Env)

  // ---------- what the group service guarantees

  function AsSet(ids: seq<int>): set<int> {
    set x | x in ids
  }

  predicate DistinctIds(ids: seq<int>) {
    forall i, j :: 0 <= i < j < |ids| ==> ids[i] != ids[j]
  }

  predicate LeavesIn(left: seq<Left>, x: int) {
    exists i :: 0 <= i < |left| && left[i].nodeid == x
  }

  /** Entry `e` reports that `x` is gone. */
  predicate Leaves(e: Entry, x: int) {
    e.Conf? && LeavesIn(e.cc.left, x)
  }

  /** The members after the first `n` entries. */
  function MembersAt(log: seq<Entry>, n: nat): set<int>
    requires n <= |log|
  {
    if n == 0 then {} else if log[n - 1].Conf? then AsSet(log[n - 1].cc.members) else MembersAt(log, n - 1)
  }

  /** `cc` is the next change after a group of members `now`. */
  ghost predicate NextConf(now: set<int>, cc: ConfChg) {
    && DistinctIds(cc.members) && DistinctIds(cc.joined)
    && (forall x :: x in cc.joined ==> x !in now && x in cc.members)
    && (forall x :: x in now ==> (x in cc.members <==> !LeavesIn(cc.left, x)))
  }

  ghost predicate LogOk(log: seq<Entry>) {
    forall i :: 0 <= i < |log| && log[i].Conf? ==> NextConf(MembersAt(log, i), log[i].cc)
  }

  /** `x`, added at `born`, has not left before position `n`. */
  ghost predicate Stays(log: seq<Entry>, x: int, born: nat, n: nat)
    requires n <= |log|
  {
    forall i :: born < i < n ==> !Leaves(log[i], x)
  }

  // ---------- steps

  function NewPeers(joined: seq<int>, newcomers: seq<Lockspace>, at: nat): (ps: seq<Peer>)
    requires |newcomers| == |joined|
    ensures |ps| == |joined| && forall i :: 0 <= i < |ps| ==> ps[i] == Peer(joined[i], at, newcomers[i], at, [])
  {
    seq(|joined|, i requires 0 <= i < |joined| => Peer(joined[i], at, newcomers[i], at, []))
  }

  function EventOf(e: Entry, at: nat, env: Env): Event {
    match e case Conf(cc) => Confchg(cc, at, env) case Msg(_, _, msg) => Start(msg, env)
  }

  /** The event of the node's own that a step amounts to. */
  function LocalEvent(w: World, a: Act): Event
    requires a.Deliver? || a.Poll?
    requires a.p < |w.peers| && (a.Deliver? ==> w.peers[a.p].next < |w.log|)
  {
    if a.Deliver? then EventOf(w.log[w.peers[a.p].next], w.peers[a.p].next, a.env) else Tick(a.env)
  }

  ghost predicate Enabled(w: World, a: Act) {
    match a
    case Reconfigure(cc, newcomers) =>
      && NextConf(MembersAt(w.log, |w.log|), cc) && |newcomers| == |cc.joined|
      && forall i :: 0 <= i < |newcomers| ==> Initial(newcomers[i]) && newcomers[i].our == cc.joined[i]
    case Flush(p) =>
      p < |w.peers| && w.peers[p].outbox != [] && Stays(w.log, w.peers[p].nodeid, w.peers[p].born, |w.log|)
    case Deliver(p, env) =>
      p < |w.peers| && w.peers[p].next < |w.log| &&
      (w.peers[p].next == w.peers[p].born || !Leaves(w.log[w.peers[p].next], w.peers[p].nodeid))
    case Poll(p, env) => p < |w.peers|
  }

  /** What a node does with its own event; a start message goes to its outbox. */
  function Advance(peer: Peer, p: nat, ev: Event, delivered: nat): Peer {
    var (ls, out) := Step(peer.ls, ev);
    var sent := if out.SendStart? && ls.changes != [] then [Msg(p, ls.changes[0].id, out.msg)] else [];
    peer.(ls := ls, next := peer.next + delivered, outbox := peer.outbox + sent)
  }

  ghost function Next(w: World, a: Act): World
    requires Enabled(w, a)
  {
    match a
    case Reconfigure(cc, newcomers) => World(w.log + [Conf(cc)], w.peers + NewPeers(cc.joined, newcomers, |w.log|))
    case Flush(p) =>
      World(w.log + [w.peers[p].outbox[0]], w.peers[p := w.peers[p].(outbox := w.peers[p].outbox[1..])])
    case Deliver(p, env) => w.(peers := w.peers[p := Advance(w.peers[p], p, LocalEvent(w, a), 1)])
    case Poll(p, env) => w.(peers := w.peers[p := Advance(w.peers[p], p, LocalEvent(w, a), 0)])
  }

  ghost predicate IsRun(ws: seq<World>, acts: seq<Act>) {
    && |ws| == |acts| + 1 && ws[0] == World([], [])
    && forall i :: 0 <= i < |acts| ==> Enabled(ws[i], acts[i]) && ws[i + 1] == Next(ws[i], acts[i])
  }

  // ---------- lookalikes

  /** Same counts and same members: all a start message says about its change. */
  predicate SameSignature(a: ConfChg, b: ConfChg) {
    && AsSet(a.members) == AsSet(b.members) && |a.members| == |b.members| && |a.joined| == |b.joined|
    && |a.left| == |b.left| && FailedCount(a.left, |a.left|) == FailedCount(b.left, |b.left|)
  }

  /** Entry `i` is a start message that node `x`, added at `born`, takes for one
      about a change of its present stay: its sender has been there since the
      change it is about, `x` was part of that change in an earlier stay, and a
      change `x` has seen since looks the same. */
  ghost predicate Stale(log: seq<Entry>, x: int, born: nat, i: nat)
    requires i < |log|
  {
    && log[i].Msg? && log[i].about < born && log[i].about < i && log[log[i].about].Conf?
    && x in log[log[i].about].cc.members && Stays(log, log[i].msg.nodeid, log[i].about, i)
    && exists h :: born <= h < i && LooksLike(log, log[i].about, h)
  }

  ghost predicate LooksLike(log: seq<Entry>, c: nat, h: nat)
    requires c < |log| && log[c].Conf? && h < |log|
  {
    log[h].Conf? && SameSignature(log[c].cc, log[h].cc)
  }

  /** Among the entries `x` has delivered in this stay, up to `n`, none is stale. */
  ghost predicate NoneStale(log: seq<Entry>, x: int, born: nat, n: nat)
    requires n <= |log|
  {
    forall i :: born <= i < n ==> !Stale(log, x, born, i)
  }

  // ---------- facts about the log

  /** Who was added and has not left is a member. */
  lemma {:induction false} StaysIsMember(log: seq<Entry>, x: int, born: nat, n: nat)
    requires LogOk(log) && born < n <= |log| && log[born].Conf? && x in log[born].cc.joined && Stays(log, x, born, n)
    ensures x in MembersAt(log, n)
    decreases n
  {
    if n == born + 1 {
      assert NextConf(MembersAt(log, born), log[born].cc);
    } else {
      StaysIsMember(log, x, born, n - 1);
      if log[n - 1].Conf? {
        assert NextConf(MembersAt(log, n - 1), log[n - 1].cc) && !Leaves(log[n - 1], x);
      }
    }
  }

  /** At no time are there two of a node. */
  lemma OneAtATime(log: seq<Entry>, x: int, b1: nat, b2: nat, n: nat)
    requires LogOk(log) && n <= |log| && b1 < n && b2 < n
    requires log[b1].Conf? && x in log[b1].cc.joined && Stays(log, x, b1, n)
    requires log[b2].Conf? && x in log[b2].cc.joined && Stays(log, x, b2, n)
    ensures b1 == b2
  {
    assert NextConf(MembersAt(log, b1), log[b1].cc) && NextConf(MembersAt(log, b2), log[b2].cc);
    if b1 < b2 {
      StaysIsMember(log, x, b1, b2);
    } else if b2 < b1 {
      StaysIsMember(log, x, b2, b1);
    }
  }

  lemma {:induction false} MembersGrow(log: seq<Entry>, e: Entry, n: nat)
    requires n <= |log|
    ensures MembersAt(log + [e], n) == MembersAt(log, n)
  {
    if n > 0 { MembersGrow(log, e, n - 1); }
  }

  lemma LogGrow(log: seq<Entry>, e: Entry)
    requires LogOk(log) && (e.Conf? ==> NextConf(MembersAt(log, |log|), e.cc))
    ensures LogOk(log + [e])
  {
    hide NextConf, MembersAt;
    var all := log + [e];
    forall i | 0 <= i < |all| && all[i].Conf? ensures NextConf(MembersAt(all, i), all[i].cc) {
      MembersGrow(log, e, i);
      if i < |log| { assert NextConf(MembersAt(log, i), log[i].cc); }
    }
  }

  lemma {:induction false} DistinctSize(ids: seq<int>)
    requires DistinctIds(ids)
    ensures |AsSet(ids)| == |ids|
  {
    if ids != [] {
      var front := ids[..|ids| - 1];
      DistinctSize(front);
      assert ids == front + [ids[|ids| - 1]];
      assert AsSet(ids) == AsSet(front) + {ids[|ids| - 1]};
      assert ids[|ids| - 1] !in front;
    }
  }

  lemma SubsetSameSize(a: set<int>, b: set<int>)
    requires a <= b && |a| == |b|
    ensures a == b
  {
    assert |b - a| == |b| - |a|;
    assert b == a + (b - a);
  }

  /** Equal counts and one-way inclusion force equal member sets. */
  lemma MatchForcesSameMembers(a: ConfChg, b: ConfChg)
    requires DistinctIds(a.members) && DistinctIds(b.members) && |a.members| == |b.members|
    requires forall i :: 0 <= i < |a.members| ==> a.members[i] in b.members
    ensures AsSet(a.members) == AsSet(b.members)
  {
    DistinctSize(a.members);
    DistinctSize(b.members);
    SubsetSameSize(AsSet(a.members), AsSet(b.members));
  }
}
