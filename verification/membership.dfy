/**
 Membership changes of a lockspace on one node: each change waits for its
 conditions, then for a start message from every member, then the kernel starts.
 */
module Membership {
  import opened Ranges

  datatype Left = Left(nodeid: int, failed: bool)

  /** A configuration change as the group service reports it. */
  datatype ConfChg = ConfChg(members: seq<int>, left: seq<Left>, joined: seq<int>)

  datatype Member = Member(nodeid: int, start: bool, added: bool, disallowed: bool)

  datatype Phase = WaitConditions | WaitMessages

  /** `id` names the configuration change this one was made for. */
  datatype Change = Change(id: nat, members: seq<Member>, memberCount: int, joinedCount: int, removeCount: int,
                           failedCount: int, phase: Phase, weJoined: bool)

  datatype Node = Node(nodeid: int, checkFencing: bool, checkQuorum: bool, addTime: nat)

  /** The part of a start message that the receiver looks at. */
  datatype StartMsg = StartMsg(nodeid: int, memberCount: int, joinedCount: int, removeCount: int, failedCount: int,
                               ids: seq<int>, startedCount: nat)

  datatype Lockspace = Lockspace(our: int, fencing: bool, quorum: bool, changes: seq<Change>, history: seq<Node>,
                                 stopped: bool, startedCount: nat, started: Option<Change>)

  /** What the node learns from outside: the clock, the fence daemon, the quorum service. */
  datatype Env = Env(now: nat, fencedAt: map<int, nat>, fenceBusy: bool, inCluster: set<int>, quorate: bool)

  datatype Output = Nothing | SendStart(msg: StartMsg) | StartKernel(cg: Change) | StartError

  datatype Event = Confchg(cc: ConfChg, id: nat, env: Env) | Start(msg: StartMsg, env: Env) | Tick(env: Env)

  function FenceTime(env: Env, nodeid: int): nat {
    if nodeid in env.fencedAt then env.fencedAt[nodeid] else 0
  }

  // ---------- node history

  function NodeIndex(h: seq<Node>, nodeid: int): (i: nat)
    ensures i <= |h| && (i < |h| ==> h[i].nodeid == nodeid)
    ensures forall j :: 0 <= j < i ==> h[j].nodeid != nodeid
  {
    if h == [] || h[0].nodeid == nodeid then 0 else 1 + NodeIndex(h[1..], nodeid)
  }

  function HistoryInit(h: seq<Node>, nodeid: int): seq<Node> {
    if NodeIndex(h, nodeid) < |h| then h else h + [Node(nodeid, false, false, 0)]
  }

  function HistoryStart(h: seq<Node>, nodeid: int, now: nat): seq<Node> {
    var i := NodeIndex(h, nodeid);
    if i < |h| then h[i := h[i].(addTime := now)] else h
  }

  function HistoryLeft(h: seq<Node>, nodeid: int): seq<Node> {
    var i := NodeIndex(h, nodeid);
    if i < |h| then h[i := h[i].(addTime := 0)] else h
  }

  function Failed(n: Node, fencing: bool, quorum: bool): Node {
    n.(checkFencing := n.checkFencing || (fencing && n.addTime != 0), checkQuorum := n.checkQuorum || (quorum && !fencing))
  }

  function HistoryFail(h: seq<Node>, nodeid: int, fencing: bool, quorum: bool): seq<Node> {
    var i := NodeIndex(h, nodeid);
    if i < |h| then h[i := Failed(h[i], fencing, quorum)] else h
  }

  function HistoryRemove(h: seq<Node>, x: Left, fencing: bool, quorum: bool): seq<Node> {
    if x.failed then HistoryFail(h, x.nodeid, fencing, quorum) else HistoryLeft(h, x.nodeid)
  }

  /** The history after the first `n` entries of the left list. */
  function HistoryRemoveAll(h: seq<Node>, left: seq<Left>, n: nat, fencing: bool, quorum: bool): seq<Node>
    requires n <= |left|
  {
    if n == 0 then h else HistoryRemove(HistoryRemoveAll(h, left, n - 1, fencing, quorum), left[n - 1], fencing, quorum)
  }

  function HistoryInitAll(h: seq<Node>, ids: seq<int>, n: nat): seq<Node>
    requires n <= |ids|
  {
    if n == 0 then h else HistoryInit(HistoryInitAll(h, ids, n - 1), ids[n - 1])
  }

  // ---------- making a change

  function MembIndex(members: seq<Member>, nodeid: int): (i: nat)
    ensures i <= |members| && (i < |members| ==> members[i].nodeid == nodeid)
    ensures forall j :: 0 <= j < i ==> members[j].nodeid != nodeid
  {
    if members == [] || members[0].nodeid == nodeid then 0 else 1 + MembIndex(members[1..], nodeid)
  }

  predicate IsMember(members: seq<Member>, nodeid: int) {
    MembIndex(members, nodeid) < |members|
  }

  function NewMembers(ids: seq<int>): (ms: seq<Member>)
    ensures |ms| == |ids| && forall i :: 0 <= i < |ids| ==> ms[i] == Member(ids[i], false, false, false)
  {
    seq(|ids|, i requires 0 <= i < |ids| => Member(ids[i], false, false, false))
  }

  function FailedCount(left: seq<Left>, n: nat): nat
    requires n <= |left|
  {
    if n == 0 then 0 else FailedCount(left, n - 1) + if left[n - 1].failed then 1 else 0
  }

  /** How far the joined list has been worked off; `missing` when an entry is not
      among the members. */
  datatype Joining = Joining(members: seq<Member>, history: seq<Node>, weJoined: bool, missing: bool)

  function JoinOne(j: Joining, nodeid: int, our: int): Joining {
    var i := MembIndex(j.members, nodeid);
    if j.missing then j
    else if i == |j.members| then j.(missing := true)
    else
      var members := j.members[i := j.members[i].(added := true)];
      if nodeid == our then j.(members := members, weJoined := true)
      else j.(members := members, history := HistoryInit(j.history, nodeid))
  }

  function JoinAll(j: Joining, joined: seq<int>, n: nat, our: int): Joining
    requires n <= |joined|
  {
    if n == 0 then j else JoinOne(JoinAll(j, joined, n - 1, our), joined[n - 1], our)
  }

  /** add_change, with false for the error return. */
  function AddChange(ls: Lockspace, cc: ConfChg, id: nat): (Lockspace, bool) {
    var h1 := HistoryRemoveAll(ls.history, cc.left, |cc.left|, ls.fencing, ls.quorum);
    var j := JoinAll(Joining(NewMembers(cc.members), h1, false, false), cc.joined, |cc.joined|, ls.our);
    if j.missing then (ls.(history := j.history), false)
    else
      var h2 := if j.weJoined then HistoryInitAll(j.history, cc.members, |cc.members|) else j.history;
      var cg := Change(id, j.members, |cc.members|, |cc.joined|, |cc.left|, FailedCount(cc.left, |cc.left|),
                       WaitConditions, j.weJoined);
      (ls.(history := h2, changes := [cg] + ls.changes), true)
  }

  // ---------- start messages

  predicate AllMembers(members: seq<Member>, ids: seq<int>) {
    forall i :: 0 <= i < |ids| ==> IsMember(members, ids[i])
  }

  predicate MatchChange(cg: Change, msg: StartMsg, our: int) {
    && our in msg.ids && IsMember(cg.members, msg.nodeid)
    && msg.memberCount == cg.memberCount && msg.joinedCount == cg.joinedCount
    && msg.removeCount == cg.removeCount && msg.failedCount == cg.failedCount
    && AllMembers(cg.members, msg.ids)
  }

  /** The oldest change on the list that the message matches, or the length. */
  function FindChange(changes: seq<Change>, msg: StartMsg, our: int): (i: nat)
    ensures i <= |changes| && (i < |changes| ==> MatchChange(changes[i], msg, our))
    ensures forall j :: (if i < |changes| then i < j else 0 <= j) && j < |changes| ==> !MatchChange(changes[j], msg, our)
    decreases |changes|
  {
    if changes == [] then 0
    else if MatchChange(changes[|changes| - 1], msg, our) then |changes| - 1
    else
      var i := FindChange(changes[..|changes| - 1], msg, our);
      if i == |changes| - 1 then |changes| else i
  }

  predicate IsAdded(changes: seq<Change>, nodeid: int) {
    exists k :: 0 <= k < |changes| && IsMember(changes[k].members, nodeid) &&
                changes[k].members[MembIndex(changes[k].members, nodeid)].added
  }

  function SetMember(changes: seq<Change>, k: nat, i: nat, m: Member): seq<Change>
    requires k < |changes| && i < |changes[k].members|
  {
    changes[k := changes[k].(members := changes[k].members[i := m])]
  }

  function ReceiveStart(ls: Lockspace, msg: StartMsg, now: nat): Lockspace {
    var k := FindChange(ls.changes, msg, ls.our);
    if k == |ls.changes| then ls
    else
      var i := MembIndex(ls.changes[k].members, msg.nodeid);
      var m := ls.changes[k].members[i];
      if IsAdded(ls.changes, msg.nodeid) && msg.startedCount != 0
      then ls.(changes := SetMember(ls.changes, k, i, m.(disallowed := true)))
      else ls.(changes := SetMember(ls.changes, k, i, m.(start := true)),
               history := HistoryStart(ls.history, msg.nodeid, now))
  }

  // ---------- conditions

  function Unfence(n: Node, env: Env): Node {
    if n.checkFencing && FenceTime(env, n.nodeid) > n.addTime then n.(checkFencing := false, addTime := 0) else n
  }

  function UnfenceAll(h: seq<Node>, env: Env): (r: seq<Node>)
    ensures |r| == |h| && forall i :: 0 <= i < |h| ==> r[i] == Unfence(h[i], env)
  {
    seq(|h|, i requires 0 <= i < |h| => Unfence(h[i], env))
  }

  function Unquorum(n: Node, env: Env): Node {
    if n.checkQuorum && n.nodeid !in env.inCluster then n.(checkQuorum := false) else n
  }

  function UnquorumAll(h: seq<Node>, env: Env): (r: seq<Node>)
    ensures |r| == |h| && forall i :: 0 <= i < |h| ==> r[i] == Unquorum(h[i], env)
  {
    seq(|h|, i requires 0 <= i < |h| => Unquorum(h[i], env))
  }

  predicate NoFencing(h: seq<Node>) {
    forall i :: 0 <= i < |h| ==> !h[i].checkFencing
  }

  predicate NoQuorum(h: seq<Node>) {
    forall i :: 0 <= i < |h| ==> !h[i].checkQuorum
  }

  function CheckFencing(ls: Lockspace, env: Env): (seq<Node>, bool) {
    if !ls.fencing then (ls.history, true)
    else var h := UnfenceAll(ls.history, env); (h, NoFencing(h) && !env.fenceBusy)
  }

  function CheckQuorum(ls: Lockspace, h: seq<Node>, env: Env): (seq<Node>, bool) {
    if !ls.quorum then (h, true)
    else var r := UnquorumAll(h, env); (r, NoQuorum(r) && env.quorate)
  }

  function WaitConditionsDone(ls: Lockspace, env: Env): (seq<Node>, bool) {
    var (h, done) := CheckFencing(ls, env);
    if done then CheckQuorum(ls, h, env) else (h, false)
  }

  predicate AllStarted(members: seq<Member>) {
    forall i :: 0 <= i < |members| ==> members[i].start
  }

  function Ids(members: seq<Member>): (ids: seq<int>)
    ensures |ids| == |members| && forall i :: 0 <= i < |ids| ==> ids[i] == members[i].nodeid
  {
    seq(|members|, i requires 0 <= i < |members| => members[i].nodeid)
  }

  function StartInfo(ls: Lockspace, cg: Change): StartMsg {
    StartMsg(ls.our, cg.memberCount, cg.joinedCount, cg.removeCount, cg.failedCount, Ids(cg.members), ls.startedCount)
  }

  /** A 32-bit counter that never shows zero again. */
  function NextCount(n: nat): nat {
    if n + 1 == 0x1_0000_0000 then 1 else n + 1
  }

  function ApplyChanges(ls: Lockspace, env: Env): (Lockspace, Output) {
    if ls.changes == [] then (ls, Nothing)
    else
      var cg := ls.changes[0];
      match cg.phase
      case WaitConditions =>
        var (h, done) := WaitConditionsDone(ls, env);
        if done then (ls.(history := h, changes := ls.changes[0 := cg.(phase := WaitMessages)]), SendStart(StartInfo(ls, cg)))
        else (ls.(history := h), Nothing)
      case WaitMessages =>
        if AllStarted(cg.members)
        then (ls.(stopped := false, changes := [], started := Some(cg), startedCount := NextCount(ls.startedCount)),
              if ls.stopped then StartKernel(cg) else StartError)
        else (ls, Nothing)
  }

  // ---------- one event

  /** What happens before the pending changes are looked at again. */
  function Handle(ls: Lockspace, ev: Event): (Lockspace, bool) {
    match ev
    case Confchg(cc, id, env) =>
      var (ls1, ok) := AddChange(ls, cc, id);
      if ok then (ls1.(stopped := true), true) else (ls1, false)
    case Start(msg, env) => (ReceiveStart(ls, msg, env.now), true)
    case Tick(env) => (ls, true)
  }

  function Step(ls: Lockspace, ev: Event): (Lockspace, Output) {
    var (ls1, go) := Handle(ls, ev);
    if go then ApplyChanges(ls1, ev.env) else (ls1, Nothing)
  }

  /** The state after all of `evs`. */
  function After(ls: Lockspace, evs: seq<Event>): Lockspace
    decreases |evs|
  {
    if evs == [] then ls else Step(After(ls, evs[..|evs| - 1]), evs[|evs| - 1]).0
  }

  predicate Initial(ls: Lockspace) {
    ls.changes == [] && ls.history == [] && ls.stopped && ls.startedCount == 0 && ls.started.None?
  }

  /** Who joins is among the members. */
  predicate WellFormedChange(ev: Event) {
    ev.Confchg? ==> forall x :: x in ev.cc.joined ==> x in ev.cc.members
  }
}
