/**
 The ownership protocol over totally ordered broadcast.  Each node has a FIFO
 queue of sent messages; `Order` moves the head of a queue to the one global
 log; `Deliver` lets a node process the next log entry, each at its own pace.
 Membership is fixed, and no drop messages are sent.
 */
module Ownership {
  import opened Ranges
  import opened LockTable
  import opened PlockNode

  datatype Entry = Entry(from: int, msg: Msg)

  /** `read`, `handled` and `written` are histories: the operations read from the
      kernel, those executed while owner, and the results written back. */
  datatype Node = Node(res: Res, queue: seq<Msg>, next: nat, read: seq<Op>, handled: seq<Op>, written: seq<Answer>)

  /** `local` is the history of all operations executed by the owner of the time. */
  datatype State = State(nodes: map<int, Node>, log: seq<Entry>, local: seq<Op>)

  datatype Event = Read(n: int, op: Op) | Drop(n: int) | Order(n: int) | Deliver(n: int)

  const NewNode := Node(NoResource, [], 0, [], [], [])

  ghost predicate Init(s: State) {
    s.log == [] && s.local == [] && forall n :: n in s.nodes ==> n > 0 && s.nodes[n] == NewNode
  }

  predicate Enabled(s: State, e: Event) {
    && e.n in s.nodes
    && match e
       case Read(n, op) => true
       case Drop(n) => CanDropOwnership(n, s.nodes[n].res)
       case Order(n) => s.nodes[n].queue != []
       case Deliver(n) => s.nodes[n].next < |s.log|
  }

  function EffectOf(s: State, e: Event): Effect
    requires Enabled(s, e) && !e.Order?
  {
    var r := s.nodes[e.n].res;
    match e
    case Read(n, op) => ProcessPlock(n, r, op)
    case Drop(n) => DropOwnership(r)
    case Deliver(n) =>
      var entry := s.log[s.nodes[n].next];
      Receive(n, r, entry.from, entry.msg)
  }

  function Advance(nd: Node, eff: Effect, read: seq<Op>, delivered: nat): Node {
    Node(eff.res, nd.queue + eff.sent, nd.next + delivered, nd.read + read,
         nd.handled + eff.handled, nd.written + eff.written)
  }

  function Next(s: State, e: Event): State
    requires Enabled(s, e)
  {
    var nd := s.nodes[e.n];
    if e.Order? then
      s.(nodes := s.nodes[e.n := nd.(queue := nd.queue[1..])], log := s.log + [Entry(e.n, nd.queue[0])])
    else
      var eff := EffectOf(s, e);
      var read := if e.Read? then [WithNode(e.op, e.n)] else [];
      var nd1 := Advance(nd, eff, read, if e.Deliver? then 1 else 0);
      s.(nodes := s.nodes[e.n := nd1], local := s.local + eff.handled)
  }

  ghost predicate Step(s: State, t: State) {
    exists e :: Enabled(s, e) && t == Next(s, e)
  }

  ghost predicate Run(states: seq<State>) {
    && states != [] && Init(states[0])
    && forall i :: 0 < i < |states| ==> Step(states[i - 1], states[i])
  }

  // ---------- what the log says

  /** What a member that only listens knows: the owner, the first owner, the table. */
  datatype View = View(owner: int, first: int, table: Table)

  function ViewStep(v: View, e: Entry): View {
    match e.msg
    case Own(owner) =>
      if owner == UNOWNED then v.(owner := UNOWNED)
      else if v.owner == UNKNOWN then v.(owner := e.from, first := e.from)
      else v
    case SyncLock(req) => v.(table := Table(v.table.locks + [NewLock(req)], v.table.waiters))
    case SyncWaiter(req) => v.(table := Table(v.table.locks, v.table.waiters + [Waiter(req, false)]))
    case Plock(op) => v.(table := Apply(v.table, op).table)
  }

  function ViewOf(log: seq<Entry>): View
    decreases |log|
  {
    if log == [] then View(UNKNOWN, UNKNOWN, EmptyTable)
    else ViewStep(ViewOf(log[..|log| - 1]), log[|log| - 1])
  }

  /** The replicated operations of the log, in order. */
  function LogOps(log: seq<Entry>): seq<Op>
    decreases |log|
  {
    if log == [] then []
    else LogOps(log[..|log| - 1]) + if log[|log| - 1].msg.Plock? then [log[|log| - 1].msg.op] else []
  }

  /** The one serial history: the owner's operations, then the replicated ones. */
  function Serial(local: seq<Op>, log: seq<Entry>): Outcome {
    ApplyAll(EmptyTable, local + LogOps(log))
  }

  /** A message arrives in a state of the log in which the protocol allows it. */
  predicate MsgOk(v: View, e: Entry) {
    && e.from > 0
    && match e.msg
       case Plock(op) => v.owner == UNOWNED && op.req.key.nodeid == e.from
       case Own(owner) => owner == e.from || (owner == UNOWNED && v.owner == e.from)
       case _ => v.owner == e.from
  }

  ghost predicate LogOk(log: seq<Entry>, local: seq<Op>)
    decreases |log|
  {
    log == [] ||
    (&& LogOk(log[..|log| - 1], local)
     && MsgOk(ViewOf(log[..|log| - 1]), log[|log| - 1])
     && (ViewOf(log).owner == UNOWNED ==> ViewOf(log).table == Serial(local, log).table))
  }

  // ---------- what one node has sent

  function FromNode(n: int, log: seq<Entry>): seq<Msg> {
    if log == [] then []
    else (if log[0].from == n then [log[0].msg] else []) + FromNode(n, log[1..])
  }

  /** The node's own messages that it has not received back yet. */
  function Stream(n: int, nd: Node, log: seq<Entry>): seq<Msg>
    requires nd.next <= |log|
  {
    FromNode(n, log[nd.next..]) + nd.queue
  }

  function OpsIn(msgs: seq<Msg>): seq<Op> {
    if msgs == [] then [] else (if msgs[0].Plock? then [msgs[0].op] else []) + OpsIn(msgs[1..])
  }

  /** All replicated operations the node has ever sent. */
  function SentOps(n: int, nd: Node, log: seq<Entry>): seq<Op> {
    OpsIn(FromNode(n, log) + nd.queue)
  }

  ghost predicate AllFrom(n: int, ops: seq<Op>) {
    forall i :: 0 <= i < |ops| ==> ops[i].req.key.nodeid == n
  }

  ghost predicate AllPlocks(n: int, msgs: seq<Msg>) {
    forall i :: 0 <= i < |msgs| ==> msgs[i].Plock? && msgs[i].op.req.key.nodeid == n
  }

  // ---------- the five phases of a node

  ghost predicate Untouched(nd: Node) {
    !nd.res.gotUnown && nd.handled == [] && nd.written == []
  }

  /** No owner is known yet. */
  ghost predicate PhaseUnknown(n: int, nd: Node, v: View, stream: seq<Msg>) {
    && nd.res.owner == UNKNOWN && Untouched(nd) && nd.res.table == v.table == EmptyTable
    && (nd.res.pending != [] ==> nd.res.known)
    && stream == if nd.res.pending == [] then [] else [Own(n)]
  }

  /** Another node is the owner. */
  ghost predicate PhaseForeign(n: int, nd: Node, v: View, stream: seq<Msg>) {
    && nd.res.known && nd.res.owner == v.owner && Untouched(nd) && nd.res.table == v.table
    && (stream == [] || (stream == [Own(n)] && nd.res.pending != []))
  }

  ghost predicate LocalHistory(n: int, nd: Node, local: seq<Op>) {
    && nd.res.known && !nd.res.gotUnown && nd.res.pending == [] && nd.handled == local
    && nd.written == OwnAnswers(n, ApplyAll(EmptyTable, local).answers)
  }

  /** We are the owner. */
  ghost predicate PhaseOwner(n: int, nd: Node, v: View, stream: seq<Msg>, local: seq<Op>) {
    && LocalHistory(n, nd, local) && nd.res.owner == n && stream == [] && v.table == EmptyTable
    && nd.res.table == ApplyAll(EmptyTable, local).table
  }

  /** Of the table `t` being synced, the log holds the part `done`; the rest is
      still flagged here and its sync messages are ahead in the stream. */
  ghost predicate SyncedUpTo(n: int, here: Table, done: Table, stream: seq<Msg>, t: Table) {
    var a, b := |done.locks|, |done.waiters|;
    && a <= |t.locks| && b <= |t.waiters| && (a < |t.locks| ==> b == 0)
    && done == Table(t.locks[..a], t.waiters[..b])
    && here == Table(t.locks[..a] + FlagLocks(t.locks[a..]), t.waiters[..b] + FlagWaiters(t.waiters[b..]))
    && IsSyncStream(n, stream, LockSyncs(t.locks[a..]) + WaiterSyncs(t.waiters[b..]))
  }

  /** We have given up ownership and our sync messages are on their way. */
  ghost predicate PhaseSyncing(n: int, nd: Node, v: View, stream: seq<Msg>, local: seq<Op>) {
    && LocalHistory(n, nd, local) && nd.res.owner == UNOWNED
    && SyncedUpTo(n, nd.res.table, v.table, stream, ApplyAll(EmptyTable, local).table)
  }

  ghost predicate IsSyncStream(n: int, stream: seq<Msg>, syncs: seq<Msg>) {
    && |syncs| < |stream| && stream[..|syncs|] == syncs && stream[|syncs|] == Own(UNOWNED)
    && AllPlocks(n, stream[|syncs| + 1..])
  }

  /** The resource is unowned and its table is replicated. */
  ghost predicate PhaseUnowned(n: int, nd: Node, v: View, stream: seq<Msg>, serial: Outcome) {
    && nd.res.known && nd.res.owner == UNOWNED && nd.res.gotUnown && nd.res.pending == []
    && nd.res.table == v.table && nd.written == OwnAnswers(n, serial.answers)
    && (AllPlocks(n, stream) || (stream != [] && stream[0] == Own(n) && AllPlocks(n, stream[1..])))
  }

  ghost predicate PhaseOk(n: int, nd: Node, v: View, stream: seq<Msg>, local: seq<Op>, serial: Outcome) {
    && nd.handled == (if v.first == n then local else [])
    && AllFrom(n, nd.res.pending) && AllFrom(n, nd.handled)
    && if v.owner == UNKNOWN then PhaseUnknown(n, nd, v, stream)
       else if v.owner == UNOWNED then PhaseUnowned(n, nd, v, stream, serial)
       else if v.owner != n then PhaseForeign(n, nd, v, stream)
       else PhaseOwner(n, nd, v, stream, local) || PhaseSyncing(n, nd, v, stream, local)
  }

  /** No operation is lost or doubled, and each node's operations stay in order:
      those read are those handled here, then those sent, then those pending. */
  ghost predicate Conserved(n: int, nd: Node, log: seq<Entry>) {
    nd.read == nd.handled + SentOps(n, nd, log) + nd.res.pending
  }

  ghost predicate NodeOk(n: int, nd: Node, log: seq<Entry>, local: seq<Op>) {
    && n > 0 && nd.next <= |log| && Conserved(n, nd, log)
    && PhaseOk(n, nd, ViewOf(log[..nd.next]), Stream(n, nd, log), local, Serial(local, log[..nd.next]))
  }

  /** What the owner executed came from one node, the first owner. */
  ghost predicate LocalOk(s: State) {
    && AllFrom(ViewOf(s.log).first, s.local)
    && (s.local != [] ==> exists n :: n in s.nodes && s.nodes[n].handled == s.local)
  }

  ghost predicate Inv(s: State) {
    && LogOk(s.log, s.local) && LocalOk(s)
    && forall n :: n in s.nodes ==> NodeOk(n, s.nodes[n], s.log, s.local)
  }
}
