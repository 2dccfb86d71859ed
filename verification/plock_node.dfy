/**
 One node's view of one resource in the ownership protocol, and what each event
 does to it: an operation read from the kernel, and the three kinds of messages.
 */
module PlockNode {
  import opened Ranges
  import opened LockTable

  const UNKNOWN := -1
  const UNOWNED := 0

  datatype Msg = Plock(op: Op) | Own(owner: int) | SyncLock(req: Request) | SyncWaiter(req: Request)

  /** `known` is false while the resource is absent from the node's list. */
  datatype Res = Res(known: bool, owner: int, gotUnown: bool, table: Table, pending: seq<Op>)

  /** The resource after an event, the messages sent, the operations executed
      here while being the owner, the results written to the kernel, and whether
      a branch was taken that the protocol should never reach. */
  datatype Effect = Effect(res: Res, sent: seq<Msg>, handled: seq<Op>, written: seq<Answer>, unexpected: bool)

  /** A resource that is not in the list yet; find_resource creates it like this. */
  const NoResource := Res(false, UNKNOWN, false, EmptyTable, [])

  function Quiet(r: Res): Effect {
    Effect(r, [], [], [], false)
  }

  function Surprise(r: Res): Effect {
    Effect(r, [], [], [], true)
  }

  function ReqOf(po: PosixLock): Request {
    Request(po.key, po.pid, po.ex, po.start, po.end)
  }

  /** process_plocks fills in the node id that the kernel leaves out. */
  function WithNode(op: Op, me: int): Op {
    op.(req := op.req.(key := op.req.key.(nodeid := me)))
  }

  /** Only the node a request came from writes its result. */
  function OwnAnswers(me: int, answers: seq<Answer>): seq<Answer> {
    if answers == [] then []
    else (if answers[0].req.key.nodeid == me then [answers[0]] else []) + OwnAnswers(me, answers[1..])
  }

  // ---------- sending

  /** No second own message while operations are already pending on one. */
  function SendOwn(r: Res, owner: int): seq<Msg> {
    if r.pending != [] then [] else [Own(owner)]
  }

  function LockSyncs(locks: seq<PosixLock>): seq<Msg> {
    if locks == [] then [] else [SyncLock(ReqOf(locks[0]))] + LockSyncs(locks[1..])
  }

  function WaiterSyncs(ws: seq<Waiter>): seq<Msg> {
    if ws == [] then [] else [SyncWaiter(ws[0].req)] + WaiterSyncs(ws[1..])
  }

  function FlagLocks(locks: seq<PosixLock>): seq<PosixLock> {
    if locks == [] then [] else [locks[0].(syncing := true)] + FlagLocks(locks[1..])
  }

  function FlagWaiters(ws: seq<Waiter>): seq<Waiter> {
    if ws == [] then [] else [ws[0].(syncing := true)] + FlagWaiters(ws[1..])
  }

  function PlockMsgs(ops: seq<Op>): seq<Msg> {
    if ops == [] then [] else [Plock(ops[0])] + PlockMsgs(ops[1..])
  }

  // ---------- handling an operation here

  function Handle(me: int, r: Res, op: Op): Effect {
    var o := Apply(r.table, op);
    Effect(r.(table := o.table), [], [op], OwnAnswers(me, o.answers), false)
  }

  /** add_pending_plocks: we have become the owner. */
  function HandlePending(me: int, r: Res): Effect {
    var o := ApplyAll(r.table, r.pending);
    Effect(r.(table := o.table, pending := []), [], r.pending, OwnAnswers(me, o.answers), false)
  }

  /** send_pending_plocks: the resource has become unowned. */
  function SendPending(r: Res): Effect {
    Effect(r.(pending := []), PlockMsgs(r.pending), [], [], false)
  }

  /** process_plocks, once the resource is found. */
  function ProcessPlock(me: int, r0: Res, op0: Op): Effect {
    var op, r := WithNode(op0, me), r0.(known := true);
    if r.owner == UNOWNED then Quiet(r).(sent := [Plock(op)])
    else if r.owner == me then Handle(me, r, op)
    else Quiet(r.(pending := r.pending + [op])).(sent := SendOwn(r, me))
  }

  /** _receive_plock.  An operation executed because it was delivered is not
      counted as handled: it is counted as sent. */
  function ReceivePlock(me: int, r: Res, from: int, op: Op): Effect {
    if op.Get? && from != me then Quiet(r)
    else if from != op.req.key.nodeid then Surprise(r)
    else if !r.known then
      if from != me then Surprise(r)
      else
        var r1 := r.(known := true);
        Effect(r1.(pending := r1.pending + [op]), SendOwn(r1, me), [], [], true)
    else if r.owner == UNOWNED then Handle(me, r, op).(handled := [])
    else if r.owner == UNKNOWN || r.owner != me then
      Surprise(if from == me then r.(pending := r.pending + [op]) else r)
    else if from == me then Handle(me, r, op).(handled := [], unexpected := true)
    else Surprise(r)
  }

  /** Giving up ownership: sync the local table to everyone, then unown. */
  function Relinquish(r: Res): Effect {
    var t := r.table;
    Quiet(r.(owner := UNOWNED, table := Table(FlagLocks(t.locks), FlagWaiters(t.waiters))))
    .(sent := LockSyncs(t.locks) + WaiterSyncs(t.waiters) + SendOwn(r, UNOWNED))
  }

  /** _receive_own, branch by branch. */
  function ReceiveOwn(me: int, r0: Res, from: int, owner: int): Effect {
    var r := r0.(known := true);
    if from == me then
      if owner == UNOWNED then
        if r.owner == UNOWNED then Quiet(r.(gotUnown := true)) else Surprise(r)
      else if owner == me then
        if r.owner == UNKNOWN then HandlePending(me, r.(owner := me))
        else if r.owner == me then Surprise(r)
        else if r.owner == UNOWNED then SendPending(r)
        else Quiet(r)
      else Surprise(r)
    else
      if owner == UNOWNED then
        if r.owner == UNKNOWN || r.owner == me || r.owner == UNOWNED then Surprise(r)
        else SendPending(r.(owner := UNOWNED, gotUnown := true))
      else if owner == from then
        if r.owner == UNKNOWN then Quiet(r.(owner := from))
        else if r.owner == me then Relinquish(r)
        else Quiet(r)
      else Surprise(r)
  }

  /** The index of the first entry that clear_syncing_flag would clear. */
  function FlaggedLock(locks: seq<PosixLock>, req: Request): (i: nat)
    ensures i <= |locks|
    ensures i < |locks| ==> locks[i].syncing && ReqOf(locks[i]) == req
    ensures forall j :: 0 <= j < i ==> !(locks[j].syncing && ReqOf(locks[j]) == req)
  {
    if locks == [] || (locks[0].syncing && ReqOf(locks[0]) == req) then 0 else 1 + FlaggedLock(locks[1..], req)
  }

  function FlaggedWaiter(ws: seq<Waiter>, req: Request): (i: nat)
    ensures i <= |ws|
    ensures i < |ws| ==> ws[i].syncing && ws[i].req == req
    ensures forall j :: 0 <= j < i ==> !(ws[j].syncing && ws[j].req == req)
  {
    if ws == [] || (ws[0].syncing && ws[0].req == req) then 0 else 1 + FlaggedWaiter(ws[1..], req)
  }

  function ClearSyncing(r: Res, req: Request): Effect {
    var locks, ws := r.table.locks, r.table.waiters;
    var i, j := FlaggedLock(locks, req), FlaggedWaiter(ws, req);
    if i < |locks| then Quiet(r.(table := Table(locks[i := locks[i].(syncing := false)], ws)))
    else if j < |ws| then Quiet(r.(table := Table(locks, ws[j := ws[j].(syncing := false)])))
    else Surprise(r)
  }

  /** _receive_sync. */
  function ReceiveSync(me: int, r: Res, from: int, msg: Msg): Effect
    requires msg.SyncLock? || msg.SyncWaiter?
  {
    if !r.known then Surprise(r)
    else if from == me then ClearSyncing(r, msg.req)
    else if msg.SyncLock? then
      Quiet(r.(table := Table(r.table.locks + [NewLock(msg.req)], r.table.waiters)))
    else
      Quiet(r.(table := Table(r.table.locks, r.table.waiters + [Waiter(msg.req, false)])))
  }

  function Receive(me: int, r: Res, from: int, msg: Msg): Effect {
    match msg
    case Plock(op) => ReceivePlock(me, r, from, op)
    case Own(owner) => ReceiveOwn(me, r, from, owner)
    case _ => ReceiveSync(me, r, from, msg)
  }

  /** drop_resources gives up an unused resource that we own. */
  predicate CanDropOwnership(me: int, r: Res) {
    r.known && r.owner == me && r.table == EmptyTable
  }

  function DropOwnership(r: Res): Effect {
    Quiet(r.(owner := UNOWNED)).(sent := SendOwn(r, UNOWNED))
  }

  lemma {:induction false} OwnAnswersConcat(n: int, a: seq<Answer>, c: seq<Answer>)
    ensures OwnAnswers(n, a + c) == OwnAnswers(n, a) + OwnAnswers(n, c)
  {
    if a == [] {
      assert a + c == c;
    } else {
      assert (a + c)[0] == a[0] && (a + c)[1..] == a[1..] + c;
      OwnAnswersConcat(n, a[1..], c);
      var head := if a[0].req.key.nodeid == n then [a[0]] else [];
      assert head + (OwnAnswers(n, a[1..]) + OwnAnswers(n, c)) == (head + OwnAnswers(n, a[1..])) + OwnAnswers(n, c);
    }
  }

  /** A node writes each result of its own requests once, and no other. */
  lemma {:induction false} OwnAnswersCount(n: int, answers: seq<Answer>, req: Request)
    ensures Answered(OwnAnswers(n, answers), req) == if req.key.nodeid == n then Answered(answers, req) else 0
  {
    if answers != [] {
      OwnAnswersCount(n, answers[1..], req);
      var tail := OwnAnswers(n, answers[1..]);
      assert ([answers[0]] + tail)[1..] == tail && [] + tail == tail;
    }
  }

  /** The results written are those at the positions of the node's own requests, in
      that order. */
  lemma {:induction false} OwnAnswersAt(n: int, answers: seq<Answer>) returns (at: seq<nat>)
    ensures forall i :: i in at <==> 0 <= i < |answers| && answers[i].req.key.nodeid == n
    ensures forall i, j :: 0 <= i < j < |at| ==> at[i] < at[j]
    ensures |OwnAnswers(n, answers)| == |at|
    ensures forall i :: 0 <= i < |at| ==> at[i] < |answers| && OwnAnswers(n, answers)[i] == answers[at[i]]
    decreases |answers|
  {
    if answers == [] { return []; }
    var front, last := answers[..|answers| - 1], answers[|answers| - 1];
    at := OwnAnswersAt(n, front);
    assert answers == front + [last] && [last][1..] == [];
    OwnAnswersConcat(n, front, [last]);
    if last.req.key.nodeid == n { at := at + [|front|]; }
  }
}
