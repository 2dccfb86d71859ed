/**
 The deadlock detector: transactions and their wait-for arrays, updated in place
 while the graph is built, reduced and, if need be, cut at one transaction.
 */
module Deadlock {
  import opened Ranges
  import opened WaitGraph
  import opened LockRecords
  import opened TransTable
  import opened LockWaits

  /** The waitfor array in the building phase: the first slots are in use, in the
      order they were added, the rest are free. */
  ghost predicate Packed(tr: Trans, xs: seq<Xid>) {
    && tr.count == |xs| <= |tr.waitfor|
    && (forall i :: 0 <= i < |xs| ==> tr.waitfor[i] == Some(xs[i]))
    && (forall i :: |xs| <= i < |tr.waitfor| ==> tr.waitfor[i] == None)
  }

  lemma PackedSlots(tr: Trans, xs: seq<Xid>)
    requires Packed(tr, xs)
    ensures forall u :: u in Slots(tr.waitfor) <==> u in xs
  {
    forall u ensures u in Slots(tr.waitfor) <==> u in xs {
      if u in xs {
        var i :| 0 <= i < |xs| && xs[i] == u;
        SlotAt(tr.waitfor, i);
      }
    }
  }

  /** Free slots at the end change nothing. */
  lemma GrowSound(T: Table, t: Xid, more: seq<Option<Xid>>)
    requires Sound(T) && t in T && forall i :: 0 <= i < |more| ==> more[i] == None
    ensures var after := T[t := T[t].(waitfor := T[t].waitfor + more)];
            Sound(after) && OnlySlotsOf(T, after, t) && Slots(after[t].waitfor) == Slots(T[t].waitfor)
  {
    var ws, after := T[t].waitfor, T[t := T[t].(waitfor := T[t].waitfor + more)];
    assert forall w :: w in ws + more <==> w in ws || w in more;
    assert Slots(ws + more) == Slots(ws);
    assert TransOk(T, t);
    forall i, j | 0 <= i < j < |ws + more| && (ws + more)[i].Some? ensures (ws + more)[i] != (ws + more)[j] {
    }
    forall x | x in after ensures TransOk(after, x) {
      assert TransOk(T, x);
      assert Waiters(after, x) == Waiters(T, x);
    }
  }

  // ---------- building the list and the graph

  const NewTrans := Trans([], 0, [], 0)

  /** The transactions found on the locks `refs`, with no edges yet. */
  ghost predicate Collected(rs: Resources, refs: seq<LkbRef>, list: seq<Xid>, T: Table)
    requires forall w :: w in refs ==> IsRef(rs, w)
  {
    && list == TransOrder(rs, refs) && T.Keys == Listed(list)
    && forall t :: t in T ==> T[t] == NewTrans.(locks := LocksOf(rs, refs, t))
  }

  lemma CollectNext(rs: Resources, refs: seq<LkbRef>, w: LkbRef, list: seq<Xid>, T: Table, list1: seq<Xid>, T1: Table)
    requires (forall x :: x in refs ==> IsRef(rs, x)) && IsRef(rs, w) && Collected(rs, refs, list, T)
    requires var t := XidAt(rs, w);
             && list1 == (if t in list then list else [t] + list)
             && var tr := if t in T then T[t] else NewTrans; T1 == T[t := tr.(locks := [w] + tr.locks)]
    ensures (forall x :: x in refs + [w] ==> IsRef(rs, x)) && Collected(rs, refs + [w], list1, T1)
  {
    hide TransOrder, LocksOf, Listed, IsRef, XidAt;
    var t := XidAt(rs, w);
    OrderNext(rs, refs, w);
    ListedCons(t, list);
    forall x | x in T1 ensures T1[x] == NewTrans.(locks := LocksOf(rs, refs + [w], x)) {
      LocksNext(rs, refs, w, x);
      if LocksOf(rs, refs, x) != [] { HasLocks(rs, refs, x); }
    }
  }

  lemma ListedCons(t: Xid, list: seq<Xid>)
    ensures Listed([t] + list) == {t} + Listed(list) && (t in Listed(list) <==> t in list)
  {
    assert forall x :: x in [t] + list <==> x == t || x in list;
  }

  lemma HasLocks(rs: Resources, refs: seq<LkbRef>, t: Xid)
    requires (forall x :: x in refs ==> IsRef(rs, x)) && LocksOf(rs, refs, t) != []
    ensures t in TransOrder(rs, refs)
  {
    hide TransOrder, LocksOf;
    var w := LocksOf(rs, refs, t)[0];
    assert w in LocksOf(rs, refs, t);
    assert HasLock(rs, refs, t);
  }

  lemma CollectedList(rs: Resources, refs: seq<LkbRef>, list: seq<Xid>, T: Table)
    requires (forall x :: x in refs ==> IsRef(rs, x)) && Collected(rs, refs, list, T)
    ensures ListOk(list, T) && forall x :: x in list <==> x in T
  {
    hide TransOrder;
  }

  lemma CollectNone(rs: Resources)
    ensures Collected(rs, Refs(rs, 0), [], map[])
  {
  }

  /** waitfor pointers are allocated four at a time. */
  const TR_NALLOC := 4

  predicate LocksCompat(rs: Resources, w: LkbRef, g: LkbRef)
    requires ValidModes(rs) && IsRef(rs, w) && IsRef(rs, g)
  {
    if w == g || XidAt(rs, w) == XidAt(rs, g) then false
    else ModesCompat(LkbAt(rs, g).lock.grmode, LkbAt(rs, w).lock.rqmode)
  }

  lemma LinkSlot(T: Table, t: Xid, u: Xid, xs: seq<Xid>)
    requires Sound(T) && t in T && u in T && t != u && Packed(T[t], xs) && u !in xs && |xs| < |T[t].waitfor|
    ensures var after := AddEdge(T, t, u, |xs|);
            Sound(after) && OnlySlotsOf(T, after, t) && Packed(after[t], xs + [u])
  {
    PackedSlots(T[t], xs);
    AddEdgeSound(T, t, u, |xs|);
  }

  lemma LinkNext(locks: seq<Lkb>, w: Lkb, j: nat, xs: seq<Xid>, b0: map<LkbRef, Xid>, ref: LkbRef)
    requires j < |locks| && ValidMode(w.lock.rqmode) && forall i :: 0 <= i < |locks| ==> ValidMode(locks[i].lock.grmode)
    ensures var ys, zs := Extend(xs, Blockers(locks, w, j)), Extend(xs, Blockers(locks, w, j + 1));
            var u := locks[j].lock.xid;
            && zs == (if Blocks(locks[j], w) then AddNew(ys, u) else ys)
            && Remember(b0, ref, xs, zs) ==
                 (if Blocks(locks[j], w) && u !in ys then Remember(b0, ref, xs, ys)[ref := u] else Remember(b0, ref, xs, ys))
  {
    hide Extend, ModesCompat;
    var bs, u := Blockers(locks, w, j), locks[j].lock.xid;
    if Blocks(locks[j], w) {
      assert Blockers(locks, w, j + 1) == bs + [u];
      ExtendNext(xs, bs, u);
    } else {
      assert Blockers(locks, w, j + 1) == bs;
    }
  }

  lemma ExtendNext(xs: seq<Xid>, bs: seq<Xid>, u: Xid)
    ensures Extend(xs, bs + [u]) == AddNew(Extend(xs, bs), u)
  {
    assert (bs + [u])[..|bs|] == bs;
  }

  /** Every lock belongs to a listed transaction. */
  ghost predicate AllListed(rs: Resources, T: Table) {
    forall w :: IsRef(rs, w) ==> XidAt(rs, w) in T
  }

  /** All edges of `t` are there, and its locks remember what they can. */
  ghost predicate Linked(rs: Resources, T: Table, blocker: map<LkbRef, Xid>, t: Xid)
    requires ValidModes(rs) && t in T
  {
    var locks := T[t].locks;
    && (forall w :: w in locks ==> IsRef(rs, w))
    && Packed(T[t], WaitsOf(rs, locks, |locks|))
    && forall u :: u in Remembered(rs, locks, blocker) <==> Tracked(rs, locks, u)
  }

  ghost predicate Unlinked(T: Table, blocker: map<LkbRef, Xid>, t: Xid)
    requires t in T
  {
    Packed(T[t], []) && forall w :: w in T[t].locks ==> w !in blocker
  }

  ghost predicate LocksGood(rs: Resources, T: Table) {
    forall t :: t in T ==> T[t].locks == LocksOf(rs, Refs(rs, |rs|), t)
  }

  /** With all transactions linked, the arrays are the wait-for graph. */
  lemma LinkedIsWaitFor(rs: Resources, T: Table, blocker: map<LkbRef, Xid>)
    requires ValidModes(rs) && LocksGood(rs, T) && T.Keys == Involved(rs)
    requires forall t :: t in T ==> Linked(rs, T, blocker, t)
    ensures GraphOf(T) == WaitFor(rs)
  {
    hide Slots, WaitSet, Linked, LocksGood, ValidModes;
    var g, h := GraphOf(T), WaitFor(rs);
    forall t | t in T ensures g[t] == h[t] { LinkedWaitSet(rs, T, blocker, t); }
    assert g.Keys == h.Keys;
  }

  lemma LinkedWaitSet(rs: Resources, T: Table, blocker: map<LkbRef, Xid>, t: Xid)
    requires ValidModes(rs) && LocksGood(rs, T) && t in T && Linked(rs, T, blocker, t)
    ensures Slots(T[t].waitfor) == WaitSet(rs, t)
  {
    hide Slots, LocksOf, WaitsOf, Refs, Tracked, Remembered, Packed, ValidModes;
    var xs := WaitsOf(rs, T[t].locks, |T[t].locks|);
    PackedSlots(T[t], xs);
    assert T[t].locks == LocksOf(rs, Refs(rs, |rs|), t);
    var a, b := Slots(T[t].waitfor), WaitSet(rs, t);
    assert forall u :: u in b <==> u in xs;
    assert forall u :: u in a <==> u in b;
    assert a <= b && b <= a;
  }

  // ---------- reduction

  /** `after` is `T` with some transactions gone, and with them the edges to them. */
  ghost predicate Restricted(T: Table, after: Table) {
    && after.Keys <= T.Keys
    && forall t :: t in after ==> after[t].locks == T[t].locks && Slots(after[t].waitfor) == Slots(T[t].waitfor) * after.Keys
  }

  ghost predicate SameResidues(T: Table, after: Table) {
    forall r :: IsResidue(GraphOf(T), T.Keys, r) <==> IsResidue(GraphOf(after), after.Keys, r)
  }

  /** Deleting a transaction that waits for no one keeps the largest closed set. */
  lemma DropSameResidues(T: Table, after: Table, v: Xid)
    requires v in T && Slots(T[v].waitfor) == {} && after.Keys == T.Keys - {v}
    requires forall t :: t in after ==> Slots(after[t].waitfor) == Slots(T[t].waitfor) - {v}
    ensures SameResidues(T, after)
  {
    hide Slots;
    var g, h := GraphOf(T), GraphOf(after);
    forall r ensures IsResidue(g, T.Keys, r) <==> IsResidue(h, after.Keys, r) {
      assert !WaitsInside(g, T.Keys, v);
      DropKeepsResidue(g, T.Keys, v, r);
      SameResidue(g, h, after.Keys, r);
    }
  }

  /** When everyone still listed waits for someone, the list is the largest closed set. */
  lemma AllBlockedIsResidue(T: Table)
    requires Sound(T) && forall t :: t in T ==> T[t].count != 0
    ensures IsResidue(GraphOf(T), T.Keys, T.Keys)
  {
    forall t | t in T ensures WaitsInside(GraphOf(T), T.Keys, t) {
      assert TransOk(T, t);
      var u := SomeMember(Slots(T[t].waitfor));
      assert Edge(GraphOf(T), t, u);
    }
  }

  /** Some transaction waits for no one. */
  ghost predicate SomeFree(T: Table) {
    exists t :: t in T && T[t].count == 0
  }

  /** Reduction has brought `list0`, `T0` to `list`, `T`. */
  ghost predicate Reduces(list0: seq<Xid>, T0: Table, list: seq<Xid>, T: Table) {
    ListOk(list, T) && Sound(T) && Restricted(T0, T) && SameResidues(T0, T) && list == Keep(list0, T.Keys)
  }

  lemma ReducesStart(list: seq<Xid>, T: Table)
    requires ListOk(list, T) && Sound(T)
    ensures Reduces(list, T, list, T)
  {
    hide Slots;
    forall t | t in T ensures Slots(T[t].waitfor) == Slots(T[t].waitfor) * T.Keys { assert TransOk(T, t); }
    forall x | x in list ensures x in T.Keys { assert x in Listed(list); }
    KeepAll(list, T.Keys);
  }

  lemma ReducesTrans(list0: seq<Xid>, T0: Table, list1: seq<Xid>, T1: Table, list: seq<Xid>, T: Table)
    requires Reduces(list0, T0, list1, T1) && Reduces(list1, T1, list, T)
    ensures Reduces(list0, T0, list, T)
  {
    hide Slots, Sound, ListOk, GraphOf;
    KeepTwice(list0, T1.Keys, T.Keys);
    forall t | t in T ensures Slots(T[t].waitfor) == Slots(T0[t].waitfor) * T.Keys {
      assert Slots(T[t].waitfor) == Slots(T0[t].waitfor) * T1.Keys * T.Keys;
    }
  }

  lemma ReduceOne(list: seq<Xid>, T: Table, i: nat, T1: Table)
    requires ListOk(list, T) && Sound(T) && i < |list| && list[i] in T && T[list[i]].count == 0
    requires Sound(T1) && T1.Keys == T.Keys && T1[list[i]].others == 0
    requires forall t :: t in T1 ==> T1[t].locks == T[t].locks && Slots(T1[t].waitfor) == Slots(T[t].waitfor) - {list[i]}
    ensures Reduces(list, T, list[..i] + list[i + 1..], T1 - {list[i]})
  {
    hide Slots, GraphOf, Sound, SameResidues, Keep;
    var v, rest, after := list[i], list[..i] + list[i + 1..], T1 - {list[i]};
    CountIsSlots(T, v);
    CountIsSlots(T1, v);
    DropTransSound(T1, v);
    DropAt(list, i);
    DropSameResidues(T, after, v);
    forall t | t in after ensures Slots(after[t].waitfor) == Slots(T[t].waitfor) * after.Keys {
      CountIsSlots(T, t);
    }
  }

  lemma CountIsSlots(T: Table, t: Xid)
    requires Sound(T) && t in T
    ensures T[t].count == |Slots(T[t].waitfor)| && Slots(T[t].waitfor) <= T.Keys - {t}
  {
    assert TransOk(T, t);
  }

  // ---------- the victim

  /** The first transaction on the list that another one waits for. */
  function FirstWaitedFor(list: seq<Xid>, T: Table): (v: Option<Xid>)
    requires forall i :: 0 <= i < |list| ==> list[i] in T
    ensures v.Some? ==> v.value in T && v.value in list && T[v.value].others != 0
    ensures v.None? ==> forall i :: 0 <= i < |list| ==> T[list[i]].others == 0
  {
    if list == [] then None else if T[list[0]].others != 0 then Some(list[0]) else FirstWaitedFor(list[1..], T)
  }

  /** Where everyone waits for someone, someone is waited for. */
  lemma VictimExists(list: seq<Xid>, T: Table)
    requires ListOk(list, T) && Sound(T) && list != [] && forall t :: t in T ==> T[t].count != 0
    ensures (forall i :: 0 <= i < |list| ==> list[i] in T) && FirstWaitedFor(list, T).Some?
  {
    hide Slots;
    var t := list[0];
    assert t in Listed(list);
    assert TransOk(T, t);
    var u := SomeMember(Slots(T[t].waitfor));
    assert TransOk(T, u) && t in Waiters(T, u) && u in Listed(list);
    var k :| 0 <= k < |list| && list[k] == u;
  }

  function WaitingLocks(rs: Resources, locks: seq<LkbRef>): (ws: seq<LkbRef>)
    requires forall w :: w in locks ==> IsRef(rs, w)
    ensures forall w :: w in ws <==> w in locks && IsWaiting(rs, w)
  {
    if locks == [] then [] else
      var front, w := locks[..|locks| - 1], locks[|locks| - 1];
      assert locks == front + [w];
      WaitingLocks(rs, front) + (if IsWaiting(rs, w) then [w] else [])
  }

  // ---------- the verdict

  datatype Verdict = NoResources | Busy | NoDeadlock | Resolved | Failed

  /** Someone in `s` waits for `t`. */
  ghost predicate WaitedFor(g: Graph, s: set<Xid>, t: Xid) {
    exists u :: u in s && Edge(g, u, t)
  }

  /** `v` is the first of the deadlocked transactions, in list order, that another
      of them waits for. */
  ghost predicate IsVictim(order: seq<Xid>, g: Graph, s: set<Xid>, v: Xid) {
    exists i :: 0 <= i < |order| && order[i] == v && v in s && WaitedFor(g, s, v) &&
      forall j :: 0 <= j < i && order[j] in s ==> !WaitedFor(g, s, order[j])
  }

  /** The out-edges of `v` that some waiting lock of `v` remembers. */
  ghost function CutEdges(rs: Resources, v: Xid): set<Xid>
    requires ValidModes(rs)
  {
    set u | u in WaitSet(rs, v) && Tracked(rs, LocksOf(rs, Refs(rs, |rs|), v), u)
  }

  /** Cancelling: which transaction is cut, which locks are cancelled, and whether
      that broke every cycle. */
  ghost predicate CutOk(rs: Resources, v: Xid, cancelled: seq<LkbRef>, resolved: bool)
    requires ValidModes(rs)
  {
    var g, all, refs := WaitFor(rs), Involved(rs), Refs(rs, |rs|);
    && (exists s :: IsResidue(g, all, s) && IsVictim(TransOrder(rs, refs), g, s, v))
    && cancelled == WaitingLocks(rs, LocksOf(rs, refs, v))
    && (resolved <==> !HasCycle(Without(g, v, CutEdges(rs, v)), all))
  }

  lemma OthersMeaning(g: Graph, T: Table, t: Xid)
    requires Sound(T) && t in T && forall u :: u in T ==> u in g && Slots(T[u].waitfor) == g[u] * T.Keys
    ensures T[t].others != 0 <==> WaitedFor(g, T.Keys, t)
  {
    hide Slots;
    assert TransOk(T, t);
    if T[t].others != 0 {
      var u := SomeMember(Waiters(T, t));
      assert Edge(g, u, t);
    }
    if u :| u in T.Keys && Edge(g, u, t) { assert u in Waiters(T, t); }
  }

  lemma {:induction false} VictimMeaning(order: seq<Xid>, g: Graph, T: Table, v: Xid)
    requires Sound(T) && forall u :: u in T ==> u in g && Slots(T[u].waitfor) == g[u] * T.Keys
    requires var list := Keep(order, T.Keys);
             (forall i :: 0 <= i < |list| ==> list[i] in T) && FirstWaitedFor(list, T) == Some(v)
    ensures IsVictim(order, g, T.Keys, v)
  {
    hide Slots, Sound;
    if order == [] { return; }
    var x := order[0];
    assert order == [x] + order[1..];
    if x in T { OthersMeaning(g, T, x); }
    if x in T && T[x].others != 0 {
      assert Keep(order, T.Keys)[0] == x;
      assert order[0] == v && v in T.Keys && WaitedFor(g, T.Keys, v);
    } else {
      var rest := Keep(order[1..], T.Keys);
      assert Keep(order, T.Keys) == if x in T then [x] + rest else rest;
      if x in T { assert ([x] + rest)[1..] == rest; }
      forall i | 0 <= i < |rest| ensures rest[i] in T { assert rest[i] in rest; }
      VictimMeaning(order[1..], g, T, v);
      var i :| 0 <= i < |order[1..]| && order[1..][i] == v && v in T.Keys && WaitedFor(g, T.Keys, v) &&
        forall j :: 0 <= j < i && order[1..][j] in T.Keys ==> !WaitedFor(g, T.Keys, order[1..][j]);
      forall j | 0 <= j < i + 1 && order[j] in T.Keys ensures !WaitedFor(g, T.Keys, order[j]) {
        if j > 0 { assert order[1..][j - 1] == order[j]; }
      }
      assert order[i + 1] == v;
    }
  }

  /** What is left after the cut is empty exactly when the cut broke every cycle. */
  lemma CutVerdict(g: Graph, all: set<Xid>, T: Table, v: Xid, es: set<Xid>, final: set<Xid>)
    requires IsResidue(g, all, T.Keys) && forall t :: t in T ==> t in g && Slots(T[t].waitfor) == g[t] * T.Keys
    requires v in T && IsResidue(Without(GraphOf(T), v, es), T.Keys, final)
    ensures final == {} <==> !HasCycle(Without(g, v, es), all)
  {
    hide Slots, IsResidue;
    SameResidue(Without(GraphOf(T), v, es), Without(g, v, es), T.Keys, final);
    FewerEdges(g, Without(g, v, es), all, T.Keys, final);
    ResidueEmptyIffAcyclic(Without(g, v, es), all, final);
  }

  lemma CutEdgesRemembered(rs: Resources, T: Table, blocker: map<LkbRef, Xid>, v: Xid)
    requires ValidModes(rs) && LocksGood(rs, T) && v in T && Linked(rs, T, blocker, v)
    ensures (forall w :: w in T[v].locks ==> IsRef(rs, w)) && Remembered(rs, T[v].locks, blocker) == CutEdges(rs, v)
  {
    hide LocksOf, WaitsOf, Refs, Remembered, Packed, ValidModes, Tracks;
    var locks := T[v].locks;
    assert locks == LocksOf(rs, Refs(rs, |rs|), v);
    forall u | Tracked(rs, locks, u) ensures u in WaitsOf(rs, locks, |locks|) {
      var k :| 0 <= k < |locks| && Tracks(rs, locks, k, u);
      TracksWaiting(rs, locks, k, u);
      WaitsPrefix(rs, locks, k + 1, |locks|);
    }
    var a, b := Remembered(rs, locks, blocker), CutEdges(rs, v);
    assert forall u :: u in a <==> u in b;
    assert a <= b && b <= a;
  }

  class Detector {
    var resources: Resources
    var transactions: seq<Xid>
    var trans: Table
    /** waitfor_trans of each lock that has one. */
    var blocker: map<LkbRef, Xid>

    ghost predicate Valid()
      reads this
    {
      ListOk(transactions, trans) && Sound(trans)
    }

    constructor ()
      ensures Valid() && resources == [] && transactions == [] && trans == map[] && blocker == map[]
    {
      resources, transactions, trans, blocker := [], [], map[], map[];
    }

    // ---------- merging lock records

    method AddLock(r: nat, rec: Record)
      requires r < |resources|
      modifies `resources
      ensures resources == old(resources)[r := AddRecord(old(resources)[r], rec)]
    {
      var locks := resources[r];
      var i := |locks|;
      if rec.lock.copy == MASTER_COPY {
        i := 0;
        while i < |locks| && !SameLock(locks[i], rec.lock)
          invariant 0 <= i <= |locks| && forall j :: 0 <= j < i ==> !SameLock(locks[j], rec.lock)
        {
          i := i + 1;
        }
      }
      if i < |locks| {
        locks := locks[i := Fill(locks[i], rec)];
      } else {
        locks := [Fill(NewLkb, rec)] + locks;
      }
      resources := resources[r := locks];
    }

    // ---------- building the list of transactions

    method GetTrans(xid: Xid)
      requires ListOk(transactions, trans)
      modifies `transactions, `trans
      ensures ListOk(transactions, trans)
      ensures transactions == if xid in old(transactions) then old(transactions) else [xid] + old(transactions)
      ensures trans == if xid in old(trans) then old(trans) else old(trans)[xid := NewTrans]
    {
      var i := 0;
      while i < |transactions|
        invariant 0 <= i <= |transactions| && forall k :: 0 <= k < i ==> transactions[k] != xid
      {
        if transactions[i] == xid {
          assert xid in Listed(transactions);
          return;
        }
        i := i + 1;
      }
      assert xid !in Listed(transactions);
      trans := trans[xid := NewTrans];
      transactions := [xid] + transactions;
      assert forall x :: x in transactions <==> x in old(transactions) || x == xid;
      assert Listed(transactions) == trans.Keys;
    }

    method CollectResource(r: nat)
      requires r < |resources| && Collected(resources, Refs(resources, r), transactions, trans)
      modifies `transactions, `trans
      ensures Collected(resources, Refs(resources, r + 1), transactions, trans)
    {
      hide Refs, RefsTo, Collected, Listed;
      RefsRow(resources, r);
      var i := 0;
      while i < |resources[r]|
        invariant 0 <= i <= |resources[r]|
        invariant Collected(resources, RefsTo(resources, r, i), transactions, trans)
      {
        ghost var list, T := transactions, trans;
        CollectedList(resources, RefsTo(resources, r, i), list, T);
        var xid := resources[r][i].lock.xid;
        GetTrans(xid);
        trans := trans[xid := trans[xid].(locks := [LkbRef(r, i)] + trans[xid].locks)];
        RefsNext(resources, r, i);
        CollectNext(resources, RefsTo(resources, r, i), LkbRef(r, i), list, T, transactions, trans);
        i := i + 1;
      }
    }

    method CreateTransList()
      requires transactions == [] && trans == map[]
      modifies `transactions, `trans
      ensures Collected(resources, Refs(resources, |resources|), transactions, trans)
    {
      var r := 0;
      CollectNone(resources);
      while r < |resources|
        invariant 0 <= r <= |resources|
        invariant Collected(resources, Refs(resources, r), transactions, trans)
      {
        CollectResource(r);
        r := r + 1;
      }
    }

    // ---------- building the graph

    static method InWaitfor(ws: seq<Option<Xid>>, u: Xid) returns (found: bool)
      ensures found <==> u in Slots(ws)
    {
      var i := 0;
      while i < |ws|
        invariant 0 <= i <= |ws| && forall k :: 0 <= k < i ==> ws[k] != Some(u)
      {
        if ws[i] == Some(u) {
          SlotAt(ws, i);
          return true;
        }
        i := i + 1;
      }
      return false;
    }

    /** Makes room for one more: four slots at a time, the old ones copied over. */
    method GrowWaitfor(t: Xid)
      requires Sound(trans) && t in trans && trans[t].count == |trans[t].waitfor|
      modifies `trans
      ensures Sound(trans) && OnlySlotsOf(old(trans), trans, t) && trans[t].count == old(trans)[t].count
      ensures trans[t].waitfor == old(trans)[t].waitfor + [None, None, None, None]
    {
      var n := |trans[t].waitfor|;
      var bigger: seq<Option<Xid>> := seq(n + TR_NALLOC, _ => None);
      var i := 0;
      while i < trans[t].count
        invariant 0 <= i <= n && |bigger| == n + TR_NALLOC
        invariant bigger[..i] == trans[t].waitfor[..i] && forall k :: i <= k < |bigger| ==> bigger[k] == None
      {
        bigger := bigger[i := trans[t].waitfor[i]];
        i := i + 1;
      }
      assert bigger == trans[t].waitfor + [None, None, None, None];
      GrowSound(trans, t, [None, None, None, None]);
      trans := trans[t := trans[t].(waitfor := bigger)];
    }

    method AddWaitfor(w: LkbRef, g: LkbRef, ghost xs: seq<Xid>)
      requires ValidModes(resources) && IsRef(resources, w) && IsRef(resources, g) && LkbAt(resources, g).lock.status != WAITING
      requires Sound(trans) && XidAt(resources, w) in trans && XidAt(resources, g) in trans
      requires Packed(trans[XidAt(resources, w)], xs)
      modifies `trans, `blocker
      ensures var t, u := XidAt(resources, w), XidAt(resources, g);
              && Sound(trans) && OnlySlotsOf(old(trans), trans, t)
              && if Blocks(LkbAt(resources, g), LkbAt(resources, w))
                 then Packed(trans[t], AddNew(xs, u)) &&
                      blocker == (if u in xs then old(blocker) else old(blocker)[w := u])
                 else Packed(trans[t], xs) && blocker == old(blocker)
    {
      hide Sound, Slots;
      var t, u := XidAt(resources, w), XidAt(resources, g);
      if LocksCompat(resources, w, g) {
        return;
      }
      if t == u {
        return;
      }
      PackedSlots(trans[t], xs);
      if trans[t].count != 0 {
        var found := InWaitfor(trans[t].waitfor, u);
        if found {
          return;
        }
      }
      if trans[t].count == |trans[t].waitfor| {
        GrowWaitfor(t);
      }
      LinkSlot(trans, t, u, xs);
      ghost var was := trans;
      var tr := trans[t];
      trans := trans[t := tr.(waitfor := tr.waitfor[tr.count := Some(u)], count := tr.count + 1)];
      trans := trans[u := trans[u].(others := trans[u].others + 1)];
      blocker := blocker[w := u];
      assert trans == AddEdge(was, t, u, tr.count);
    }

    method LinkLock(w: LkbRef, ghost xs: seq<Xid>)
      requires ValidModes(resources) && AllListed(resources, trans) && Sound(trans)
      requires IsRef(resources, w) && XidAt(resources, w) in trans && Packed(trans[XidAt(resources, w)], xs)
      modifies `trans, `blocker
      ensures var t, ys := XidAt(resources, w), Extend(xs, BlockersOf(resources, w));
              && Sound(trans) && OnlySlotsOf(old(trans), trans, t)
              && Packed(trans[t], ys) && blocker == Remember(old(blocker), w, xs, ys)
    {
      hide Sound, Packed, Extend, Blockers, Remember;
      var t, r := XidAt(resources, w), w.rsb;
      ghost var lkb := LkbAt(resources, w);
      var j := 0;
      LinkStart(resources[r], lkb, xs, blocker, w);
      while j < |resources[r]|
        invariant 0 <= j <= |resources[r]|
        invariant Sound(trans) && OnlySlotsOf(old(trans), trans, t) && t in trans
        invariant Packed(trans[t], Extend(xs, Blockers(resources[r], lkb, j)))
        invariant blocker == Remember(old(blocker), w, xs, Extend(xs, Blockers(resources[r], lkb, j)))
      {
        LinkNext(resources[r], lkb, j, xs, old(blocker), w);
        if resources[r][j].lock.status != WAITING {
          assert IsRef(resources, LkbRef(r, j));
          AddWaitfor(w, LkbRef(r, j), Extend(xs, Blockers(resources[r], lkb, j)));
        }
        j := j + 1;
      }
    }

    method LinkTrans(t: Xid)
      requires ValidModes(resources) && AllListed(resources, trans) && Sound(trans) && t in trans && Packed(trans[t], [])
      requires forall w :: w in trans[t].locks ==> IsRef(resources, w) && XidAt(resources, w) == t
      modifies `trans, `blocker
      ensures Sound(trans) && OnlySlotsOf(old(trans), trans, t)
      ensures (forall w :: w in trans[t].locks ==> IsRef(resources, w))
      ensures Packed(trans[t], WaitsOf(resources, trans[t].locks, |trans[t].locks|))
      ensures blocker == RememberAll(resources, old(blocker), trans[t].locks, |trans[t].locks|)
    {
      hide Sound, Packed, Extend, BlockersOf;
      var locks := trans[t].locks;
      var k := 0;
      while k < |locks|
        invariant 0 <= k <= |locks|
        invariant Sound(trans) && OnlySlotsOf(old(trans), trans, t) && t in trans
        invariant Packed(trans[t], WaitsOf(resources, locks, k))
        invariant blocker == RememberAll(resources, old(blocker), locks, k)
      {
        var w := locks[k];
        assert w in locks;
        if LkbAt(resources, w).lock.status != GRANTED {
          LinkLock(w, WaitsOf(resources, locks, k));
        }
        k := k + 1;
      }
    }

    method CreateWaitforGraph()
      requires ValidModes(resources) && ListOk(transactions, trans) && Sound(trans)
      requires AllListed(resources, trans) && LocksGood(resources, trans)
      requires forall t :: t in trans ==> Unlinked(trans, blocker, t)
      modifies `trans, `blocker
      ensures ListOk(transactions, trans) && Sound(trans) && LocksGood(resources, trans)
      ensures forall t :: t in trans ==> Linked(resources, trans, blocker, t)
    {
      hide Sound, Linked, Unlinked, LocksOf, Refs;
      var i := 0;
      while i < |transactions|
        invariant 0 <= i <= |transactions|
        invariant ListOk(transactions, trans) && Sound(trans) && LocksGood(resources, trans) && AllListed(resources, trans)
        invariant forall k :: 0 <= k < i ==> transactions[k] in trans && Linked(resources, trans, blocker, transactions[k])
        invariant forall k :: i <= k < |transactions| ==> transactions[k] in trans && Unlinked(trans, blocker, transactions[k])
      {
        var t := transactions[i];
        ghost var T, b := trans, blocker;
        UnlinkedReady(resources, trans, blocker, t);
        LinkTrans(t);
        forall k | 0 <= k < |transactions| ensures transactions[k] in trans &&
          if k <= i then Linked(resources, trans, blocker, transactions[k]) else Unlinked(trans, blocker, transactions[k])
        {
          assert transactions[k] in Listed(transactions);
          if k < i {
            LinkedElsewhere(resources, T, b, trans, blocker, t, transactions[k]);
          } else if k == i {
            LinkedHere(resources, T, b, trans, blocker, t);
          } else {
            UnlinkedElsewhere(resources, T, b, trans, blocker, t, transactions[k]);
          }
        }
        i := i + 1;
      }
      forall t | t in trans ensures Linked(resources, trans, blocker, t) {
        assert t in Listed(transactions);
        var k :| 0 <= k < |transactions| && transactions[k] == t;
      }
    }

    // ---------- removing edges and transactions

    method RemoveWaitfor(t: Xid, u: Xid)
      requires Sound(trans) && t in trans
      modifies `trans
      ensures Sound(trans) && OnlySlotsOf(old(trans), trans, t)
      ensures Slots(trans[t].waitfor) == old(Slots(trans[t].waitfor)) - {u}
    {
      hide Slots, Sound;
      var i := 0;
      while i < |trans[t].waitfor|
        invariant Sound(trans) && t in trans && OnlySlotsOf(old(trans), trans, t)
        invariant 0 <= i <= |trans[t].waitfor|
        invariant old(Slots(trans[t].waitfor)) - {u} <= Slots(trans[t].waitfor) <= old(Slots(trans[t].waitfor))
        invariant forall k :: 0 <= k < i ==> trans[t].waitfor[k] != Some(u)
        decreases |trans[t].waitfor| - i
      {
        if trans[t].count == 0 {
          break;
        }
        if trans[t].waitfor[i] == Some(u) {
          DropEdgeSound(trans, t, i);
          ghost var was := trans;
          var tr := trans[t];
          trans := trans[t := tr.(waitfor := tr.waitfor[i := None], count := tr.count - 1)];
          trans := trans[u := trans[u].(others := trans[u].others - 1)];
          assert trans == DropEdge(was, t, i);
        }
        i := i + 1;
      }
      NotWaitedFor(trans, t, u, i);
    }

    method RemoveTrans(v: Xid)
      requires Valid() && v in trans
      modifies `trans
      ensures Valid() && trans.Keys == old(trans).Keys && trans[v].others == 0
      ensures forall t :: t in trans ==>
                trans[t].locks == old(trans)[t].locks && Slots(trans[t].waitfor) == Slots(old(trans)[t].waitfor) - {v}
    {
      hide Slots, Sound;
      var i := 0;
      while i < |transactions|
        invariant 0 <= i <= |transactions|
        invariant Valid() && trans.Keys == old(trans).Keys
        invariant forall t :: t in trans ==> trans[t].locks == old(trans)[t].locks
        invariant forall t :: t in trans ==>
                    Slots(old(trans)[t].waitfor) - {v} <= Slots(trans[t].waitfor) <= Slots(old(trans)[t].waitfor)
        invariant forall k :: 0 <= k < i ==> v !in Slots(trans[transactions[k]].waitfor)
      {
        var t := transactions[i];
        assert t in Listed(transactions);
        if t == v {
          NotSelf(trans, v);
        } else {
          if trans[v].others == 0 {
            break;
          }
          RemoveWaitfor(t, v);
        }
        i := i + 1;
      }
      NobodyWaits(transactions, trans, v, i);
    }

    method ReduceWaitforGraph() returns (removed: nat)
      requires Valid()
      modifies `transactions, `trans
      ensures Reduces(old(transactions), old(trans), transactions, trans)
      ensures removed == |old(transactions)| - |transactions|
      ensures forall t :: t in trans ==> t in old(trans) && old(trans)[t].count != 0
      ensures if removed == 0 then trans == old(trans) else SomeFree(old(trans))
    {
      hide Reduces, Sound, Slots, Restricted, SameResidues, Keep, SomeFree;
      ReducesStart(transactions, trans);
      var i, blocked := 0, 0;
      removed := 0;
      while i < |transactions|
        invariant 0 <= i <= |transactions| && removed == |old(transactions)| - |transactions|
        invariant Reduces(old(transactions), old(trans), transactions, trans)
        invariant forall k :: 0 <= k < i ==> transactions[k] in old(trans) && old(trans)[transactions[k]].count != 0
        invariant if removed == 0 then trans == old(trans) else SomeFree(old(trans))
        decreases |transactions| - i
      {
        ReducesValid(old(transactions), old(trans), transactions, trans);
        var v := transactions[i];
        assert v in Listed(transactions);
        if trans[v].count != 0 {
          StillBlocked(old(trans), trans, v);
          blocked := blocked + 1;
          i := i + 1;
        } else {
          ghost var list1, T1 := transactions, trans;
          if removed == 0 { assert SomeFree(trans) by { FreeWitness(trans, v); } }
          RemoveTrans(v);
          ReduceOne(list1, T1, i, trans);
          transactions := transactions[..i] + transactions[i + 1..];
          trans := trans - {v};
          removed := removed + 1;
          ReducesTrans(old(transactions), old(trans), list1, T1, transactions, trans);
        }
      }
      ReducesValid(old(transactions), old(trans), transactions, trans);
      forall t | t in trans ensures t in old(trans) && old(trans)[t].count != 0 {
        assert t in Listed(transactions);
        var k :| 0 <= k < |transactions| && transactions[k] == t;
      }
    }

    method ReduceWaitforGraphLoop()
      requires Valid()
      modifies `transactions, `trans
      ensures Reduces(old(transactions), old(trans), transactions, trans)
      ensures IsResidue(GraphOf(old(trans)), old(trans).Keys, trans.Keys)
      ensures forall t :: t in trans ==> trans[t].count != 0
    {
      hide Reduces, Sound;
      ReducesStart(transactions, trans);
      while true
        invariant Reduces(old(transactions), old(trans), transactions, trans)
        decreases |transactions|
      {
        ReducesValid(old(transactions), old(trans), transactions, trans);
        ghost var list1, T1 := transactions, trans;
        var removed := ReduceWaitforGraph();
        ReducesTrans(old(transactions), old(trans), list1, T1, transactions, trans);
        if removed == 0 {
          break;
        }
      }
      ReducesValid(old(transactions), old(trans), transactions, trans);
      AllBlockedIsResidue(trans);
    }

    method FindTransToCancel() returns (victim: Option<Xid>)
      requires ListOk(transactions, trans)
      ensures (forall i :: 0 <= i < |transactions| ==> transactions[i] in trans)
      ensures victim == FirstWaitedFor(transactions, trans)
    {
      forall i | 0 <= i < |transactions| ensures transactions[i] in trans {
        assert transactions[i] in Listed(transactions);
      }
      var i := 0;
      while i < |transactions|
        invariant 0 <= i <= |transactions|
        invariant FirstWaitedFor(transactions, trans) == FirstWaitedFor(transactions[i..], trans)
      {
        if trans[transactions[i]].others != 0 {
          return Some(transactions[i]);
        }
        i := i + 1;
      }
      return None;
    }

    // ---------- cancelling

    /** Cancels every waiting lock of `v`, and drops the edge each one remembers. */
    method CancelLocks(v: Xid) returns (cancelled: seq<LkbRef>)
      requires Sound(trans) && v in trans && forall w :: w in trans[v].locks ==> IsRef(resources, w)
      modifies `trans
      ensures Sound(trans) && OnlySlotsOf(old(trans), trans, v)
      ensures forall w :: w in trans[v].locks ==> IsRef(resources, w)
      ensures cancelled == WaitingLocks(resources, old(trans)[v].locks)
      ensures Slots(trans[v].waitfor) ==
              Slots(old(trans)[v].waitfor) - Remembered(resources, old(trans)[v].locks, blocker)
    {
      hide Slots, Sound, WaitingLocks, Remembered;
      cancelled := [];
      var locks := trans[v].locks;
      var k := 0;
      RememberedNone(resources, blocker);
      while k < |locks|
        invariant 0 <= k <= |locks|
        invariant Sound(trans) && v in trans && OnlySlotsOf(old(trans), trans, v)
        invariant cancelled == WaitingLocks(resources, locks[..k])
        invariant Slots(trans[v].waitfor) == Slots(old(trans)[v].waitfor) - Remembered(resources, locks[..k], blocker)
      {
        var w := locks[k];
        assert w in locks && locks[..k + 1] == locks[..k] + [w];
        RememberedNext(resources, locks[..k], w, blocker);
        if IsWaiting(resources, w) {
          cancelled := cancelled + [w];
          if w in blocker {
            RemoveWaitfor(v, blocker[w]);
          }
        }
        k := k + 1;
      }
      assert locks[..k] == locks;
    }

    method CancelTrans() returns (victim: Option<Xid>, cancelled: seq<LkbRef>)
      requires Valid() && forall t :: t in trans ==> trans[t].count != 0
      requires forall t, w :: t in trans && w in trans[t].locks ==> IsRef(resources, w)
      modifies `transactions, `trans
      ensures Valid()
      ensures (forall i :: 0 <= i < |old(transactions)| ==> old(transactions)[i] in old(trans))
      ensures victim == FirstWaitedFor(old(transactions), old(trans))
      ensures victim.None? ==> cancelled == [] && transactions == old(transactions) && trans == old(trans)
      ensures victim.Some? ==>
                var v, T := victim.value, old(trans);
                var es := Remembered(resources, T[v].locks, blocker);
                && cancelled == WaitingLocks(resources, T[v].locks)
                && (forall r :: IsResidue(Without(GraphOf(T), v, es), T.Keys, r) <==> IsResidue(GraphOf(trans), trans.Keys, r))
                && (v !in trans <==> Slots(T[v].waitfor) <= es)
    {
      hide Slots, Sound, WaitingLocks, Remembered, Reduces, IsResidue;
      cancelled := [];
      victim := FindTransToCancel();
      if victim.None? {
        return;
      }
      var v := victim.value;
      cancelled := CancelLocks(v);
      ghost var list1, T1 := transactions, trans;
      var removed := ReduceWaitforGraph();
      ReducesValid(list1, T1, transactions, trans);
      CutResidues(old(trans), T1, trans, v, Remembered(resources, old(trans)[v].locks, blocker));
    }

    // ---------- the whole detection

    method BuildGraph()
      requires ValidModes(resources) && transactions == [] && trans == map[] && blocker == map[]
      modifies `transactions, `trans, `blocker
      ensures Valid() && transactions == TransOrder(resources, Refs(resources, |resources|))
      ensures LocksGood(resources, trans) && GraphOf(trans) == WaitFor(resources) && trans.Keys == Involved(resources)
      ensures forall t :: t in trans ==> Linked(resources, trans, blocker, t)
    {
      hide Sound, Linked, Unlinked, Refs, TransOrder, LocksOf, Slots;
      CreateTransList();
      CollectedReady(resources, transactions, trans);
      CreateWaitforGraph();
      LinkedIsWaitFor(resources, trans, blocker);
    }

    /** The second half: the list is the non-empty residue of the graph in `T0`. */
    method ResolveDeadlock(ghost T0: Table) returns (victim: Xid, cancelled: seq<LkbRef>, resolved: bool)
      requires ValidModes(resources) && transactions != [] && Valid()
      requires Restricted(T0, trans) && GraphOf(T0) == WaitFor(resources) && LocksGood(resources, T0)
      requires forall t :: t in T0 ==> Linked(resources, T0, blocker, t)
      requires transactions == Keep(TransOrder(resources, Refs(resources, |resources|)), trans.Keys)
      requires IsResidue(WaitFor(resources), Involved(resources), trans.Keys) && forall t :: t in trans ==> trans[t].count != 0
      modifies `transactions, `trans
      ensures CutOk(resources, victim, cancelled, resolved)
      ensures resolved <==> transactions == []
    {
      hide Sound, Linked, Refs, TransOrder, LocksOf, Slots, IsResidue, WaitFor, Involved, Reduces;
      hide WaitingLocks, CutEdges, Remembered, Keep, IsVictim, HasCycle, Without, GraphOf;
      ghost var g, order, T := WaitFor(resources), TransOrder(resources, Refs(resources, |resources|)), trans;
      ResidueReady(resources, g, T0, T);
      VictimExists(transactions, trans);
      var found, locks := CancelTrans();
      victim, cancelled := found.value, locks;
      VictimMeaning(order, g, T, victim);
      SameLocks(resources, T0, T, blocker, victim);
      ghost var list1, T1 := transactions, trans;
      ReduceWaitforGraphLoop();
      ReducesValid(list1, T1, transactions, trans);
      CutVerdict(g, Involved(resources), T, victim, CutEdges(resources, victim), trans.Keys);
      ListEmpty(transactions, trans);
      resolved := transactions == [];
    }

    method FindDeadlock() returns (verdict: Verdict, victim: Option<Xid>, cancelled: seq<LkbRef>)
      requires ValidModes(resources) && ListOk(transactions, trans) && blocker == map[]
      modifies `transactions, `trans, `blocker
      ensures verdict == NoResources <==> resources == []
      ensures verdict == Busy <==> resources != [] && old(transactions) != []
      ensures verdict.NoResources? || verdict.Busy? ==> transactions == old(transactions) && trans == old(trans)
      ensures verdict == NoDeadlock <==>
                resources != [] && old(transactions) == [] && !HasCycle(WaitFor(resources), Involved(resources))
      ensures if verdict.Resolved? || verdict.Failed?
              then victim.Some? && CutOk(resources, victim.value, cancelled, verdict.Resolved?)
              else victim.None? && cancelled == []
    {
      hide Sound, Linked, Refs, TransOrder, LocksOf, Slots, IsResidue, WaitFor, Involved, Reduces, CutOk, Keep, HasCycle;
      victim, cancelled := None, [];
      if resources == [] {
        return NoResources, None, [];
      }
      if transactions != [] {
        return Busy, None, [];
      }
      NoneListed(trans);
      BuildGraph();
      ghost var order, T0 := transactions, trans;
      ReduceWaitforGraphLoop();
      ReducesValid(order, T0, transactions, trans);
      ResidueEmptyIffAcyclic(WaitFor(resources), Involved(resources), trans.Keys);
      ListEmpty(transactions, trans);
      if transactions == [] {
        return NoDeadlock, None, [];
      }
      var v, locks, resolved := ResolveDeadlock(T0);
      return if resolved then Resolved else Failed, Some(v), locks;
    }
  }

  lemma CollectedReady(rs: Resources, list: seq<Xid>, T: Table)
    requires Collected(rs, Refs(rs, |rs|), list, T)
    ensures ListOk(list, T) && Sound(T) && AllListed(rs, T) && LocksGood(rs, T) && T.Keys == Involved(rs)
    ensures forall t :: t in T ==> Unlinked(T, map[], t)
  {
    hide Sound, TransOrder, LocksOf, Refs, IsRef, XidAt, Slots;
    NewSound(T);
    forall w | IsRef(rs, w) ensures XidAt(rs, w) in T {
      RefListed(rs, w);
    }
  }

  lemma RefListed(rs: Resources, w: LkbRef)
    requires IsRef(rs, w)
    ensures XidAt(rs, w) in Involved(rs)
  {
    hide TransOrder, Refs;
    assert w in Refs(rs, |rs|);
    assert HasLock(rs, Refs(rs, |rs|), XidAt(rs, w));
  }

  lemma NewSound(T: Table)
    requires forall t :: t in T ==> T[t] == NewTrans.(locks := T[t].locks)
    ensures Sound(T)
  {
    forall t | t in T ensures T[t].waitfor == [] && Slots(T[t].waitfor) == {} {
    }
    forall t | t in T ensures TransOk(T, t) {
      assert Waiters(T, t) == {};
    }
  }

  lemma NoneListed(T: Table)
    requires ListOk([], T)
    ensures T == map[]
  {
  }

  lemma ListEmpty(list: seq<Xid>, T: Table)
    requires ListOk(list, T)
    ensures list == [] <==> T.Keys == {}
  {
    if list != [] { assert list[0] in Listed(list); }
  }

  lemma ResidueReady(rs: Resources, g: Graph, T0: Table, T: Table)
    requires Restricted(T0, T) && GraphOf(T0) == g && LocksGood(rs, T0)
    ensures forall t :: t in T ==> t in g && Slots(T[t].waitfor) == g[t] * T.Keys
    ensures forall t, w :: t in T && w in T[t].locks ==> IsRef(rs, w)
  {
    hide Slots, LocksOf;
  }

  lemma SameLocks(rs: Resources, T0: Table, T: Table, blocker: map<LkbRef, Xid>, v: Xid)
    requires ValidModes(rs) && Restricted(T0, T) && LocksGood(rs, T0) && v in T && Linked(rs, T0, blocker, v)
    ensures T[v].locks == LocksOf(rs, Refs(rs, |rs|), v)
    ensures (forall w :: w in T[v].locks ==> IsRef(rs, w)) && Remembered(rs, T[v].locks, blocker) == CutEdges(rs, v)
  {
    hide LocksOf, Linked, Refs, Remembered, ValidModes;
    CutEdgesRemembered(rs, T0, blocker, v);
  }

  lemma LinkStart(locks: seq<Lkb>, w: Lkb, xs: seq<Xid>, b0: map<LkbRef, Xid>, ref: LkbRef)
    requires ValidMode(w.lock.rqmode) && forall i :: 0 <= i < |locks| ==> ValidMode(locks[i].lock.grmode)
    ensures Extend(xs, Blockers(locks, w, 0)) == xs && Remember(b0, ref, xs, xs) == b0
  {
  }

  lemma UnlinkedReady(rs: Resources, T: Table, blocker: map<LkbRef, Xid>, t: Xid)
    requires t in T && LocksGood(rs, T) && Unlinked(T, blocker, t)
    ensures Packed(T[t], []) && forall w :: w in T[t].locks ==> IsRef(rs, w) && XidAt(rs, w) == t
  {
    hide LocksOf;
  }

  /** `t` has just been linked. */
  lemma LinkedHere(rs: Resources, T: Table, b: map<LkbRef, Xid>, T1: Table, b1: map<LkbRef, Xid>, t: Xid)
    requires ValidModes(rs) && t in T && t in T1 && LocksGood(rs, T1) && Unlinked(T, b, t) && T1[t].locks == T[t].locks
    requires forall w :: w in T1[t].locks ==> IsRef(rs, w)
    requires Packed(T1[t], WaitsOf(rs, T1[t].locks, |T1[t].locks|))
    requires b1 == RememberAll(rs, b, T1[t].locks, |T1[t].locks|)
    ensures Linked(rs, T1, b1, t)
  {
    hide LocksOf, WaitsOf, RememberAll, Tracked, Remembered, Packed, Refs;
    var locks := T1[t].locks;
    assert locks == LocksOf(rs, Refs(rs, |rs|), t);
    LocksOfDistinct(rs, Refs(rs, |rs|), t);
    forall u ensures u in Remembered(rs, locks, b1) <==> Tracked(rs, locks, u) {
      RememberedIsTracked(rs, b, locks, u);
    }
  }

  lemma SameMemory(rs: Resources, T: Table, b: map<LkbRef, Xid>, T1: Table, b1: map<LkbRef, Xid>, t: Xid, s: Xid)
    requires ValidModes(rs) && t in T1 && s in T1 && s != t && LocksGood(rs, T1)
    requires forall w :: w in T1[t].locks ==> IsRef(rs, w)
    requires b1 == RememberAll(rs, b, T1[t].locks, |T1[t].locks|)
    ensures forall w :: w in T1[s].locks ==> (w in b <==> w in b1) && (w in b ==> b1[w] == b[w])
  {
    hide LocksOf, RememberAll, Refs;
    forall w | w in T1[s].locks ensures (w in b <==> w in b1) && (w in b ==> b1[w] == b[w]) {
      forall k | 0 <= k < |T1[t].locks| ensures T1[t].locks[k] != w {
        assert T1[t].locks[k] in T1[t].locks;
      }
      RememberElsewhere(rs, b, T1[t].locks, |T1[t].locks|, w);
    }
  }

  lemma LinkedElsewhere(rs: Resources, T: Table, b: map<LkbRef, Xid>, T1: Table, b1: map<LkbRef, Xid>, t: Xid, s: Xid)
    requires ValidModes(rs) && t in T1 && s in T && s in T1 && s != t && LocksGood(rs, T1) && OnlySlotsOf(T, T1, t)
    requires forall w :: w in T1[t].locks ==> IsRef(rs, w)
    requires b1 == RememberAll(rs, b, T1[t].locks, |T1[t].locks|) && Linked(rs, T, b, s)
    ensures Linked(rs, T1, b1, s)
  {
    hide LocksOf, WaitsOf, RememberAll, Tracked, LocksGood, ValidModes;
    SameMemory(rs, T, b, T1, b1, t, s);
    assert Remembered(rs, T1[s].locks, b1) == Remembered(rs, T1[s].locks, b);
  }

  lemma UnlinkedElsewhere(rs: Resources, T: Table, b: map<LkbRef, Xid>, T1: Table, b1: map<LkbRef, Xid>, t: Xid, s: Xid)
    requires ValidModes(rs) && t in T1 && s in T && s in T1 && s != t && LocksGood(rs, T1) && OnlySlotsOf(T, T1, t)
    requires forall w :: w in T1[t].locks ==> IsRef(rs, w)
    requires b1 == RememberAll(rs, b, T1[t].locks, |T1[t].locks|) && Unlinked(T, b, s)
    ensures Unlinked(T1, b1, s)
  {
    hide LocksOf, WaitsOf, RememberAll, LocksGood, ValidModes;
    SameMemory(rs, T, b, T1, b1, t, s);
  }

  lemma ReducesValid(list0: seq<Xid>, T0: Table, list: seq<Xid>, T: Table)
    requires Reduces(list0, T0, list, T)
    ensures ListOk(list, T) && Sound(T) && Restricted(T0, T) && SameResidues(T0, T) && list == Keep(list0, T.Keys)
  {
  }

  lemma FreeWitness(T: Table, v: Xid)
    requires v in T && T[v].count == 0
    ensures SomeFree(T)
  {
  }

  /** Counts only go down, so who is blocked now was blocked before. */
  lemma StillBlocked(T0: Table, T: Table, v: Xid)
    requires Sound(T0) && Sound(T) && Restricted(T0, T) && v in T && T[v].count != 0
    ensures v in T0 && T0[v].count != 0
  {
    hide Slots;
    assert TransOk(T0, v) && TransOk(T, v);
    assert Slots(T[v].waitfor) <= Slots(T0[v].waitfor);
  }

  lemma RememberedNone(rs: Resources, blocker: map<LkbRef, Xid>)
    ensures WaitingLocks(rs, []) == [] && Remembered(rs, [], blocker) == {}
  {
  }

  lemma RememberedNext(rs: Resources, locks: seq<LkbRef>, w: LkbRef, blocker: map<LkbRef, Xid>)
    requires (forall x :: x in locks ==> IsRef(rs, x)) && IsRef(rs, w)
    ensures forall x :: x in locks + [w] ==> IsRef(rs, x)
    ensures WaitingLocks(rs, locks + [w]) == WaitingLocks(rs, locks) + (if IsWaiting(rs, w) then [w] else [])
    ensures Remembered(rs, locks + [w], blocker) ==
            Remembered(rs, locks, blocker) + (if IsWaiting(rs, w) && w in blocker then {blocker[w]} else {})
  {
    assert (locks + [w])[..|locks|] == locks;
    assert forall x :: x in locks + [w] <==> x in locks || x == w;
  }

  /** Cutting the victim's edges and reducing once more. */
  lemma CutResidues(T: Table, T1: Table, after: Table, v: Xid, es: set<Xid>)
    requires Sound(T) && Sound(T1) && v in T && OnlySlotsOf(T, T1, v)
    requires Slots(T1[v].waitfor) == Slots(T[v].waitfor) - es && SameResidues(T1, after) && Restricted(T1, after)
    requires forall t :: t in after ==> T1[t].count != 0
    requires after == T1 || SomeFree(T1)
    requires forall t :: t in T ==> T[t].count != 0
    ensures forall r :: IsResidue(Without(GraphOf(T), v, es), T.Keys, r) <==> IsResidue(GraphOf(after), after.Keys, r)
    ensures v !in after <==> Slots(T[v].waitfor) <= es
  {
    hide Slots, IsResidue;
    var g, h := GraphOf(T1), Without(GraphOf(T), v, es);
    forall t | t in g ensures t in h && g[t] == h[t] {
    }
    assert g == h;
    assert TransOk(T1, v);
    assert Slots(T[v].waitfor) <= es <==> Slots(T1[v].waitfor) == {};
  }

  /** After the whole array, or as soon as the count is zero, `u` is in no slot. */
  lemma NotWaitedFor(T: Table, t: Xid, u: Xid, i: nat)
    requires Sound(T) && t in T && i <= |T[t].waitfor| && forall k :: 0 <= k < i ==> T[t].waitfor[k] != Some(u)
    requires i == |T[t].waitfor| || T[t].count == 0
    ensures u !in Slots(T[t].waitfor)
  {
    assert TransOk(T, t);
  }

  lemma NotSelf(T: Table, v: Xid)
    requires Sound(T) && v in T
    ensures v !in Slots(T[v].waitfor)
  {
    assert TransOk(T, v);
  }

  lemma NobodyWaits(list: seq<Xid>, T: Table, v: Xid, i: nat)
    requires ListOk(list, T) && Sound(T) && v in T && i <= |list|
    requires forall k :: 0 <= k < i ==> v !in Slots(T[list[k]].waitfor)
    requires i == |list| || T[v].others == 0
    ensures T[v].others == 0 && forall t :: t in T ==> v !in Slots(T[t].waitfor)
  {
    assert TransOk(T, v);
    if i == |list| {
      forall t | t in T ensures v !in Slots(T[t].waitfor) {
        assert t in Listed(list);
        var k :| 0 <= k < |list| && list[k] == t;
      }
      assert Waiters(T, v) == {};
    } else {
      forall t | t in T ensures v !in Slots(T[t].waitfor) {
        assert t !in Waiters(T, v);
      }
    }
  }
}
