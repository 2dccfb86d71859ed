/** What the ownership protocol guarantees in every run. */
module OwnershipTheorems {
  import opened Ranges
  import opened LockTable
  import opened PlockNode
  import opened Ownership
  import opened OwnershipLog
  import opened OwnershipSafety

  lemma {:induction false} RunInv(states: seq<State>, i: nat)
    requires Run(states) && i < |states|
    ensures Inv(states[i])
  {
    hide Inv;
    if i == 0 {
      InitInv(states[0]);
    } else {
      RunInv(states, i - 1);
      assert Step(states[i - 1], states[i]);
      var e :| Enabled(states[i - 1], e) && states[i] == Next(states[i - 1], e);
      NextInv(states[i - 1], e);
    }
  }

  /** At most one node holds itself for the owner. */
  lemma SingleOwner(states: seq<State>, i: nat, a: int, b: int)
    requires Run(states) && i < |states| && a in states[i].nodes && b in states[i].nodes
    requires states[i].nodes[a].res.owner == a && states[i].nodes[b].res.owner == b
    ensures a == b
  {
    hide Inv, Apply, ApplyAll;
    var s := states[i];
    RunInv(states, i);
    SelfOwner(s, a);
    SelfOwner(s, b);
    NodeInv(s, a);
    NodeInv(s, b);
    ViewMonotone(s.log, s.local, s.nodes[a].next);
    ViewMonotone(s.log, s.local, s.nodes[b].next);
  }

  /** No delivery ever takes a branch that should not happen, and every
      replicated operation finds the resource there and unowned. */
  lemma NothingUnexpected(states: seq<State>, i: nat, n: int)
    requires Run(states) && i < |states| && Enabled(states[i], Deliver(n))
    ensures !EffectOf(states[i], Deliver(n)).unexpected
    ensures var nd := states[i].nodes[n];
            states[i].log[nd.next].msg.Plock? ==> nd.res.known && nd.res.owner == UNOWNED
  {
    hide Inv, Apply, ApplyAll;
    RunInv(states, i);
    DeliverStepOk(states[i], n);
  }

  /** A node that has received own-0 holds the table of the one serial history:
      the operations the owner executed, then the replicated operations received.
      The results it wrote are its own share of that history's results. */
  lemma SerialHistory(states: seq<State>, i: nat, n: int)
    requires Run(states) && i < |states| && n in states[i].nodes
    requires exists k :: 0 <= k < states[i].nodes[n].next <= |states[i].log| && states[i].log[k].msg == Own(UNOWNED)
    ensures var nd, serial := states[i].nodes[n], Serial(states[i].local, states[i].log[..states[i].nodes[n].next]);
            && nd.res.owner == UNOWNED && nd.res.table == serial.table && nd.written == OwnAnswers(n, serial.answers)
  {
    hide Inv, Apply, ApplyAll, ViewOf, LogOps, FromNode;
    var s, nd := states[i], states[i].nodes[n];
    RunInv(states, i);
    NodeInv(s, n);
    var log := s.log[..nd.next];
    LogOkPrefix(s.log, s.local, nd.next);
    var k :| 0 <= k < nd.next && s.log[k].msg == Own(UNOWNED);
    assert log[k].msg == Own(UNOWNED);
    UnownedIffOwnZero(log, s.local);
    UnownedTable(log, s.local);
  }

  /** Two nodes that have received the same log, own-0 included, hold identical
      lists of locks and waiters. */
  lemma ReplicaAgreement(states: seq<State>, i: nat, a: int, b: int)
    requires Run(states) && i < |states| && a in states[i].nodes && b in states[i].nodes
    requires states[i].nodes[a].next == states[i].nodes[b].next
    requires exists k :: 0 <= k < states[i].nodes[a].next <= |states[i].log| && states[i].log[k].msg == Own(UNOWNED)
    ensures states[i].nodes[a].res.table == states[i].nodes[b].res.table
  {
    SerialHistory(states, i, a);
    SerialHistory(states, i, b);
  }

  /** The table being replicated is the owner's: while a node is the owner, its
      table and results are those of executing the local history. */
  lemma OwnerHistory(states: seq<State>, i: nat, n: int)
    requires Run(states) && i < |states| && n in states[i].nodes && states[i].nodes[n].res.owner == n
    ensures var nd, o := states[i].nodes[n], ApplyAll(EmptyTable, states[i].local);
            nd.res.table == o.table && nd.written == OwnAnswers(n, o.answers) && nd.handled == states[i].local
  {
    hide Inv, Apply, ApplyAll;
    RunInv(states, i);
    SelfOwner(states[i], n);
  }

  /** Every operation read is in exactly one place -- executed by its node as the
      owner, sent once, or pending -- and in the order it was read. */
  lemma NoOpLostOrDoubled(states: seq<State>, i: nat, n: int)
    requires Run(states) && i < |states| && n in states[i].nodes
    ensures var nd := states[i].nodes[n];
            nd.read == nd.handled + SentOps(n, nd, states[i].log) + nd.res.pending
  {
    hide Inv, PhaseOk;
    RunInv(states, i);
    NodeInv(states[i], n);
  }

  // ---------- pending operations do not get stuck

  /** An own message of the node itself, sent or delivered. */
  ghost predicate AskedFor(n: int, nd: Node, log: seq<Entry>) {
    Own(n) in FromNode(n, log) + nd.queue
  }

  /** No other node's own message has been received. */
  ghost predicate Unchallenged(n: int, nd: Node, log: seq<Entry>) {
    forall i :: 0 <= i < nd.next && i < |log| && log[i].msg == Own(log[i].from) ==> log[i].from == n
  }

  ghost predicate Progress(s: State) {
    && (forall i :: 0 <= i < |s.log| ==> s.log[i].from in s.nodes)
    && (forall n :: n in s.nodes && s.nodes[n].res.pending != [] ==> AskedFor(n, s.nodes[n], s.log))
    && (forall n :: n in s.nodes && s.nodes[n].res.owner == n ==> Unchallenged(n, s.nodes[n], s.log))
  }

  lemma {:induction false} InFromNode(log: seq<Entry>, n: int, m: Msg) returns (i: nat)
    requires m in FromNode(n, log)
    ensures i < |log| && log[i] == Entry(n, m)
  {
    if log[0] == Entry(n, m) {
      i := 0;
    } else {
      i := InFromNode(log[1..], n, m);
      i := i + 1;
    }
  }

  /** An event that puts the first operation on the pending list has asked for ownership. */
  lemma AskedAfter(s: State, e: Event)
    requires Inv(s) && Progress(s) && Enabled(s, e) && !e.Order?
    ensures var nd' := Next(s, e).nodes[e.n];
            nd'.res.pending != [] ==> AskedFor(e.n, nd', s.log)
  {
    hide Inv, Receive, ProcessPlock, FromNode, StepOk, PassesOn, ExecutesAsOwner, Unchallenged;
    var n, nd, eff := e.n, s.nodes[e.n], EffectOf(s, e);
    if eff.res.pending != [] {
      if nd.res.pending == [] {
        FirstPending(s, e);
        assert (FromNode(n, s.log) + (nd.queue + [Own(n)]))[|FromNode(n, s.log)| + |nd.queue|] == Own(n);
      } else {
        assert AskedFor(n, nd, s.log);
        assert FromNode(n, s.log) + (nd.queue + eff.sent) == (FromNode(n, s.log) + nd.queue) + eff.sent;
      }
    }
  }

  lemma FirstPending(s: State, e: Event)
    requires Inv(s) && Enabled(s, e) && !e.Order? && s.nodes[e.n].res.pending == [] && EffectOf(s, e).res.pending != []
    ensures EffectOf(s, e).sent == [Own(e.n)]
  {
    hide Inv, Receive, ProcessPlock, StepOk, PassesOn, ExecutesAsOwner;
    match e {
      case Read(n, op) => FirstRead(n, s.nodes[n].res, op);
      case Drop(n) =>
      case Deliver(n) =>
        DeliverStepOk(s, n);
        ExpectedKeepsNone(n, s.nodes[n].res, s.log[s.nodes[n].next]);
    }
  }

  lemma FirstRead(n: int, r: Res, op: Op)
    requires r.pending == [] && ProcessPlock(n, r, op).res.pending != []
    ensures ProcessPlock(n, r, op).sent == [Own(n)]
  {
    hide Apply;
  }

  lemma ExpectedKeepsNone(n: int, r: Res, e: Entry)
    requires r.pending == [] && !Receive(n, r, e.from, e.msg).unexpected
    ensures Receive(n, r, e.from, e.msg).res.pending == []
  {
    hide Apply, ApplyAll;
  }

  /** Keeping ownership over a delivery means that the message was no challenge. */
  lemma KeptOwnership(n: int, r: Res, e: Entry)
    requires n > 0 && e.from > 0 && Receive(n, r, e.from, e.msg).res.owner == n && e.msg == Own(e.from)
    ensures e.from == n
  {
    hide Apply, ApplyAll;
  }

  /** ... and gaining it means that no owner was known. */
  lemma GainedOwnership(n: int, r: Res, e: Entry)
    requires n > 0 && r.owner != n && Receive(n, r, e.from, e.msg).res.owner == n
    ensures r.owner == UNKNOWN
  {
    hide Apply, ApplyAll;
  }

  lemma DeliverBasics(s: State, n: int)
    requires Inv(s) && Enabled(s, Deliver(n))
    ensures n > 0 && s.log[s.nodes[n].next].from > 0
    ensures s.nodes[n].res.owner == UNKNOWN ==> s.nodes[n].next == 0
  {
    hide Inv, Apply, ApplyAll;
    NodeInv(s, n);
    var k := s.nodes[n].next;
    LogOkAt(s.log, s.local, k);
    ViewShape(s.log[..k], s.local);
    if s.nodes[n].res.owner == UNKNOWN {
      assert ViewOf(s.log[..k]).owner == UNKNOWN;
      UnknownIsEmpty(s.log[..k], s.local);
    }
  }

  lemma UnchallengedDeliver(s: State, n: int)
    requires Inv(s) && Progress(s) && Enabled(s, Deliver(n)) && EffectOf(s, Deliver(n)).res.owner == n
    ensures forall i :: 0 <= i <= s.nodes[n].next && s.log[i].msg == Own(s.log[i].from) ==> s.log[i].from == n
  {
    hide Inv, Receive;
    var nd := s.nodes[n];
    DeliverBasics(s, n);
    if nd.res.owner == n {
      assert Unchallenged(n, nd, s.log);
    } else {
      GainedOwnership(n, nd.res, s.log[nd.next]);
    }
    if s.log[nd.next].msg == Own(s.log[nd.next].from) { KeptOwnership(n, nd.res, s.log[nd.next]); }
  }

  lemma UnchallengedAfter(s: State, e: Event)
    requires Inv(s) && Progress(s) && Enabled(s, e) && !e.Order?
    ensures var nd' := Next(s, e).nodes[e.n];
            nd'.res.owner == e.n ==> Unchallenged(e.n, nd', s.log)
  {
    hide Inv, Apply, ApplyAll, Receive;
    var n, nd, nd' := e.n, s.nodes[e.n], Next(s, e).nodes[e.n];
    if nd'.res.owner == n {
      match e
      case Deliver(_) => UnchallengedDeliver(s, n);
      case Read(_, op) => assert nd.res.owner == n && Unchallenged(n, nd, s.log);
      case Drop(_) => NodeInv(s, n);
    }
  }

  lemma {:induction false} UnknownIsEmpty(log: seq<Entry>, local: seq<Op>)
    requires LogOk(log, local) && ViewOf(log).owner == UNKNOWN
    ensures log == []
  {
    hide Apply, ApplyAll;
    if log != [] { ViewShape(log[..|log| - 1], local); }
  }

  lemma AskedOrdered(m: int, nd: Node, nd': Node, log: seq<Entry>, e: Entry)
    requires AskedFor(m, nd, log)
    requires if e.from == m then nd.queue != [] && e.msg == nd.queue[0] && nd'.queue == nd.queue[1..] else nd'.queue == nd.queue
    ensures AskedFor(m, nd', log + [e])
  {
    hide FromNode;
    FromNodeSnoc(m, log, e);
    if e.from == m { assert [e.msg] + nd.queue[1..] == nd.queue; }
    assert FromNode(m, log + [e]) + nd'.queue == FromNode(m, log) + nd.queue;
  }

  lemma ProgressOrder(s: State, n: int)
    requires Inv(s) && Progress(s) && Enabled(s, Order(n))
    ensures Progress(Next(s, Order(n)))
  {
    hide Inv, AskedFor, Apply, ApplyAll, PhaseOk;
    var t, entry := Next(s, Order(n)), Entry(n, s.nodes[n].queue[0]);
    forall m | m in t.nodes && t.nodes[m].res.pending != [] ensures AskedFor(m, t.nodes[m], t.log) {
      AskedOrdered(m, s.nodes[m], t.nodes[m], s.log, entry);
    }
    forall m | m in t.nodes && t.nodes[m].res.owner == m ensures Unchallenged(m, t.nodes[m], t.log) {
      NodeInv(s, m);
      assert Unchallenged(m, s.nodes[m], s.log);
    }
  }

  lemma ProgressNext(s: State, e: Event)
    requires Inv(s) && Progress(s) && Enabled(s, e)
    ensures Progress(Next(s, e))
  {
    hide Inv, EffectOf, AskedFor, Unchallenged;
    if e.Order? {
      ProgressOrder(s, e.n);
    } else {
      AskedAfter(s, e);
      UnchallengedAfter(s, e);
    }
  }

  lemma {:induction false} RunProgress(states: seq<State>, i: nat)
    requires Run(states) && i < |states|
    ensures Progress(states[i])
  {
    hide Inv;
    if i > 0 {
      RunProgress(states, i - 1);
      RunInv(states, i - 1);
      assert Step(states[i - 1], states[i]);
      var e :| Enabled(states[i - 1], e) && states[i] == Next(states[i - 1], e);
      ProgressNext(states[i - 1], e);
    }
  }

  /** Everything sent has been ordered and delivered everywhere. */
  ghost predicate Quiescent(s: State) {
    forall n :: n in s.nodes ==> s.nodes[n].queue == [] && s.nodes[n].next == |s.log|
  }

  /** Once all messages are delivered no operation is left pending, although a
      node sends no second own message while operations are pending. */
  lemma NothingStuck(states: seq<State>, i: nat, n: int)
    requires Run(states) && i < |states| && n in states[i].nodes && Quiescent(states[i])
    ensures states[i].nodes[n].res.pending == []
  {
    hide Inv, Apply, ApplyAll, ViewOf, LogOps, LogOk, SentOps, FlagLocks, FlagWaiters, LockSyncs, WaiterSyncs;
    var s, nd := states[i], states[i].nodes[n];
    RunInv(states, i);
    RunProgress(states, i);
    NodeInv(s, n);
    assert s.log[..|s.log|] == s.log && s.log[|s.log|..] == [];
    ViewShape(s.log, s.local);
    var v := ViewOf(s.log);
    if nd.res.pending != [] {
      assert v.owner > 0 && v.owner != n;
      assert AskedFor(n, nd, s.log) && FromNode(n, s.log) + [] == FromNode(n, s.log);
      var k := InFromNode(s.log, n, Own(n));
      OwnerIsNode(s.log, s.local);
      var x := v.owner;
      NodeInv(s, x);
    }
  }

  lemma {:induction false} OwnerIsNode(log: seq<Entry>, local: seq<Op>)
    requires LogOk(log, local) && ViewOf(log).owner > 0
    ensures exists i :: 0 <= i < |log| && log[i].from == ViewOf(log).owner
    decreases |log|
  {
    hide Apply, ApplyAll;
    var shorter := log[..|log| - 1];
    if ViewOf(shorter).owner > 0 {
      OwnerIsNode(shorter, local);
      var i :| 0 <= i < |shorter| && shorter[i].from == ViewOf(shorter).owner;
      assert log[i].from == ViewOf(log).owner;
    } else {
      ViewShape(shorter, local);
      assert log[|log| - 1].from == ViewOf(log).owner;
    }
  }

  // ---------- mutual exclusion across the cluster

  ghost predicate ValidOps(ops: seq<Op>) {
    forall i :: 0 <= i < |ops| ==> ValidRequest(ops[i].req)
  }

  lemma {:induction false} ApplyAllSound(ops: seq<Op>)
    requires ValidOps(ops)
    ensures ValidTable(ApplyAll(EmptyTable, ops).table)
    decreases |ops|
  {
    hide Apply;
    if ops != [] {
      ApplyAllSound(ops[..|ops| - 1]);
      ApplySound(ApplyAll(EmptyTable, ops[..|ops| - 1]).table, ops[|ops| - 1]);
    }
  }

  lemma {:induction false} InOpsIn(msgs: seq<Msg>, op: Op)
    requires Plock(op) in msgs
    ensures op in OpsIn(msgs)
  {
    if msgs[0] != Plock(op) { InOpsIn(msgs[1..], op); }
  }

  lemma {:induction false} FromNodeHas(log: seq<Entry>, k: nat)
    requires k < |log|
    ensures log[k].msg in FromNode(log[k].from, log)
  {
    if k > 0 { FromNodeHas(log[1..], k - 1); }
  }

  lemma {:induction false} LogOpsEntry(log: seq<Entry>, op: Op) returns (k: nat)
    requires op in LogOps(log)
    ensures k < |log| && log[k].msg == Plock(op)
    decreases |log|
  {
    if log[|log| - 1].msg == Plock(op) { k := |log| - 1; } else { k := LogOpsEntry(log[..|log| - 1], op); }
  }

  /** Every operation of the serial history was read by some node. */
  lemma SerialOpsWereRead(states: seq<State>, i: nat, p: nat, op: Op)
    requires Run(states) && i < |states| && p <= |states[i].log|
    requires op in states[i].local + LogOps(states[i].log[..p])
    ensures exists n :: n in states[i].nodes && op in states[i].nodes[n].read
  {
    hide NodeOk, LogOk, LogOps;
    var s := states[i];
    RunInv(states, i);
    RunProgress(states, i);
    if op in s.local {
      var n :| n in s.nodes && s.nodes[n].handled == s.local;
      NoOpLostOrDoubled(states, i, n);
      assert op in s.nodes[n].read;
    } else {
      var k := LogOpsEntry(s.log[..p], op);
      var n := s.log[k].from;
      FromNodeHas(s.log, k);
      InOpsIn(FromNode(n, s.log) + s.nodes[n].queue, op);
      NoOpLostOrDoubled(states, i, n);
      assert op in s.nodes[n].read;
    }
  }

  /** A node whose table is authoritative: it is the owner, or has seen own-0. */
  predicate Authoritative(n: int, r: Res) {
    r.owner == n || (r.owner == UNOWNED && r.gotUnown)
  }

  /** An authoritative table is that of the serial history at the node's position,
      and free of conflicts. */
  lemma AuthoritativeTable(states: seq<State>, i: nat, n: int)
    requires Run(states) && i < |states| && n in states[i].nodes && Authoritative(n, states[i].nodes[n].res)
    requires forall m :: m in states[i].nodes ==> ValidOps(states[i].nodes[m].read)
    ensures states[i].nodes[n].next <= |states[i].log|
    ensures var nd := states[i].nodes[n];
            nd.res.table == Serial(states[i].local, states[i].log[..nd.next]).table && ValidTable(nd.res.table)
  {
    hide Inv, Apply, ApplyAll, LogOps, ViewOf;
    var s, nd := states[i], states[i].nodes[n];
    RunInv(states, i);
    NodeInv(s, n);
    LogOkPrefix(s.log, s.local, nd.next);
    ViewShape(s.log[..nd.next], s.local);
    var ops := s.local + LogOps(s.log[..nd.next]);
    forall k | 0 <= k < |ops| ensures ValidRequest(ops[k].req) {
      SerialOpsWereRead(states, i, nd.next, ops[k]);
    }
    assert s.local + [] == s.local;
    if nd.res.owner == n { SelfOwner(s, n); } else { UnownedTable(s.log[..nd.next], s.local); }
    ApplyAllSound(ops);
  }

  /** Wherever a lock can be granted, the node's table has no two owners, of whatever
      nodes, with overlapping ranges of which one is exclusive. */
  lemma ClusterMutualExclusion(states: seq<State>, i: nat, n: int)
    requires Run(states) && i < |states| && n in states[i].nodes
    requires forall m :: m in states[i].nodes ==> ValidOps(states[i].nodes[m].read)
    requires Authoritative(n, states[i].nodes[n].res)
    ensures ValidTable(states[i].nodes[n].res.table)
    ensures var locks := states[i].nodes[n].res.table.locks;
            forall a, b :: 0 <= a < |locks| && 0 <= b < |locks| && locks[a].key != locks[b].key &&
                           RangesOverlap(locks[a].start, locks[a].end, locks[b].start, locks[b].end)
                           ==> !locks[a].ex && !locks[b].ex
  {
    hide ApplyAll, LogOps;
    AuthoritativeTable(states, i, n);
    ConflictFreeRanges(states[i].nodes[n].res.table.locks);
  }

  lemma {:induction false} LogOpsSplit(log: seq<Entry>, q: nat, p: nat)
    requires q <= p <= |log|
    ensures LogOps(log[..p]) == LogOps(log[..q]) + LogOps(log[q..p])
    decreases p
  {
    if q == p {
      assert log[q..p] == [];
    } else {
      LogOpsSplit(log, q, p - 1);
      assert log[..p][..p - 1] == log[..p - 1] && log[q..p][..p - 1 - q] == log[q..p - 1];
    }
  }

  /** Two nodes at different positions of the log. If what a key holds in the table of
      `b`, which is behind, excludes what another key holds in the table of `a`, then
      the log between them tells why: it has an unlock or a read lock of that byte by
      the first key, or it leads to a queued read lock of that key being granted. */
  lemma ConflictMeansReleased(states: seq<State>, i: nat, a: int, b: int, k1: Key, k2: Key, byte: int)
    requires Run(states) && i < |states| && a in states[i].nodes && b in states[i].nodes
    requires forall m :: m in states[i].nodes ==> ValidOps(states[i].nodes[m].read)
    requires Authoritative(a, states[i].nodes[a].res) && Authoritative(b, states[i].nodes[b].res)
    requires states[i].nodes[b].next <= states[i].nodes[a].next <= |states[i].log| && k1 != k2
    requires var x, y := ModeAt(states[i].nodes[a].res.table.locks, k1, byte), ModeAt(states[i].nodes[b].res.table.locks, k2, byte);
             x.Some? && y.Some? && (x.value || y.value)
    ensures var t := states[i].nodes[b].res.table;
            var ops, ex := LogOps(states[i].log[states[i].nodes[b].next..states[i].nodes[a].next]), ModeAt(t.locks, k2, byte).value;
            || (exists j :: 0 <= j < |ops| && Releases(ops[j], k2, byte, ex))
            || GrantsDowngrade(t.waiters, ApplyAll(t, ops).answers, k2, byte, ex)
  {
    hide ApplyAll, LogOps, Releases, GrantsDowngrade, Authoritative;
    var s := states[i];
    var q, p, t := s.nodes[b].next, s.nodes[a].next, s.nodes[b].res.table;
    AuthoritativeTable(states, i, a);
    AuthoritativeTable(states, i, b);
    var ops, ex := LogOps(s.log[q..p]), ModeAt(t.locks, k2, byte).value;
    LogOpsSplit(s.log, q, p);
    assert s.local + (LogOps(s.log[..q]) + ops) == (s.local + LogOps(s.log[..q])) + ops;
    ApplyAllConcat(EmptyTable, s.local + LogOps(s.log[..q]), ops);
    forall k | 0 <= k < |ops| ensures ValidRequest(ops[k].req) {
      assert ops[k] in s.local + LogOps(s.log[..p]);
      SerialOpsWereRead(states, i, p, ops[k]);
    }
    if forall j :: 0 <= j < |ops| ==> !Releases(ops[j], k2, byte, ex) {
      HoldEndsByOwner(t, ops, k2, byte, ex);
    }
  }
}
