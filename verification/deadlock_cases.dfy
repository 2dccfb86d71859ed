/**
 When cancelling the chosen transaction resolves a deadlock, and two lock tables
 for which it does not.
 */
module DeadlockCases {
  import opened WaitGraph
  import opened LockRecords
  import opened TransTable
  import opened LockWaits
  import opened Deadlock

  /** The cut frees `v` of everyone it waits for exactly when each of its locks is
      blocked by at most one transaction that does not also block a lock of `v`
      further on in the table. */
  lemma CutIsCompleteIff(rs: Resources, v: Xid)
    requires ValidModes(rs)
    ensures CutEdges(rs, v) == WaitSet(rs, v) <==>
            forall w, x, y :: IsRef(rs, w) && XidAt(rs, w) == v && NewlyBlockedBy(rs, w, x) && NewlyBlockedBy(rs, w, y) ==> x == y
  {
    hide LocksOf, WaitsOf, Refs, Tracked, AddsAtMostOne, NewlyBlockedBy, CutEdges, WaitSet;
    var locks := LocksOf(rs, Refs(rs, |rs|), v);
    CutCompleteIfOne(rs, v, locks);
    if forall k :: 0 <= k < |locks| ==> AddsAtMostOne(rs, locks, k) {
      forall w, x, y | IsRef(rs, w) && XidAt(rs, w) == v && NewlyBlockedBy(rs, w, x) && NewlyBlockedBy(rs, w, y) ensures x == y {
        assert w in Refs(rs, |rs|) && w in locks;
        var k :| 0 <= k < |locks| && locks[k] == w;
        AddsAtMostOneIff(rs, v, locks, k);
      }
    } else {
      var k :| 0 <= k < |locks| && !AddsAtMostOne(rs, locks, k);
      assert locks[k] in locks;
      AddsAtMostOneIff(rs, v, locks, k);
    }
  }

  lemma CutCompleteIfOne(rs: Resources, v: Xid, locks: seq<LkbRef>)
    requires ValidModes(rs) && locks == LocksOf(rs, Refs(rs, |rs|), v)
    ensures CutEdges(rs, v) == WaitSet(rs, v) <==> forall k :: 0 <= k < |locks| ==> AddsAtMostOne(rs, locks, k)
  {
    hide LocksOf, WaitsOf, Refs, Tracked, AddsAtMostOne;
    AllTrackedIff(rs, locks);
    var a, b := CutEdges(rs, v), WaitSet(rs, v);
    assert a <= b;
    assert forall u :: u in b <==> u in WaitsOf(rs, locks, |locks|);
    assert forall u :: u in a <==> u in b && Tracked(rs, locks, u);
    assert a == b <==> b <= a;
    assert b <= a <==> forall u :: u in WaitsOf(rs, locks, |locks|) ==> Tracked(rs, locks, u);
  }

  /** One blocking transaction per waiting lock is enough, and then the cut breaks
      exactly the cycles through `v`. */
  lemma OneBlockerCutsAll(rs: Resources, v: Xid)
    requires ValidModes(rs)
    requires forall w, g, h ::
      (IsRef(rs, w) && XidAt(rs, w) == v && IsRef(rs, g) && IsRef(rs, h) && WaitsOn(rs, w, g) && WaitsOn(rs, w, h)
       ==> XidAt(rs, g) == XidAt(rs, h))
    ensures CutEdges(rs, v) == WaitSet(rs, v)
    ensures !HasCycle(Without(WaitFor(rs), v, CutEdges(rs, v)), Involved(rs)) <==>
            forall p :: IsCycle(WaitFor(rs), Involved(rs), p) ==> v in p
  {
    hide LocksOf, WaitsOf, Refs, Tracked, BlockersOf, WaitsOn, ValidModes, TransOrder;
    var locks := LocksOf(rs, Refs(rs, |rs|), v);
    forall w, x, y | w in locks && IsWaiting(rs, w) && x in BlockersOf(rs, w) && y in BlockersOf(rs, w) ensures x == y {
      BlockersOfExact(rs, w, x);
      BlockersOfExact(rs, w, y);
    }
    OneBlockerTracked(rs, locks);
    var a, b := CutEdges(rs, v), WaitSet(rs, v);
    assert forall u :: u in a <==> u in b;
    assert a <= b && b <= a;
    NoCycleWithout(WaitFor(rs), Involved(rs), v, a);
    forall p | IsCycle(WaitFor(rs), Involved(rs), p) ensures UsesEdge(p, v, a) <==> v in p {
      CycleThrough(WaitFor(rs), Involved(rs), v, p);
    }
  }

  lemma CycleThrough(g: Graph, all: set<Xid>, v: Xid, p: seq<Xid>)
    requires IsCycle(g, all, p) && (v in p ==> v in g)
    ensures UsesEdge(p, v, if v in g then g[v] else {}) <==> v in p
  {
    if v in p {
      var i :| 0 <= i < |p| && p[i] == v;
      assert Edge(g, p[i], p[if i + 1 < |p| then i + 1 else 0]);
    }
  }

  // ---------- a lock with two holders

  lemma {:induction false} WaitsOfNone(rs: Resources, locks: seq<LkbRef>, n: nat)
    requires ValidModes(rs) && n <= |locks| && forall w :: w in locks ==> IsRef(rs, w)
    requires forall i :: 0 <= i < n ==> !IsWaiting(rs, locks[i])
    ensures WaitsOf(rs, locks, n) == []
  {
    if n > 0 { WaitsOfNone(rs, locks, n - 1); }
  }

  lemma UntrackedOfTwo(rs: Resources, locks: seq<LkbRef>, k: nat, x: Xid, y: Xid) returns (u: Xid)
    requires ValidModes(rs) && k < |locks| && (forall w :: w in locks ==> IsRef(rs, w)) && x != y
    requires (forall i :: 0 <= i < k ==> !IsWaiting(rs, locks[i])) && IsWaiting(rs, locks[k])
    requires BlockersOf(rs, locks[k]) == [x, y]
    ensures u == x && !Tracked(rs, locks, u)
  {
    hide BlockersOf, IsWaiting, IsRef, ValidModes, Tracked;
    WaitsOfNone(rs, locks, k);
    ExtendNext([], [], x);
    ExtendNext([], [x], y);
    assert [] + [x] == [x] && [x] + [y] == [x, y];
    assert y !in [x] && Extend([], [x, y]) == [x, y];
    assert WaitsOf(rs, locks, k + 1) == [x, y];
    hide WaitsOf, Extend;
    UntrackedIfTwo(rs, locks, k);
    WaitsPrefix(rs, locks, k + 1, |locks|);
    u := WaitsOf(rs, locks, |locks|)[0];
    assert WaitsOf(rs, locks, k + 1)[0] == u;
  }

  /** A transaction with one waiting lock, blocked by two others: the first of the
      two edges outlives the cut. */
  lemma TwoBlockersOutlive(rs: Resources, t: Xid, w: LkbRef, x: Xid, y: Xid)
    requires ValidModes(rs) && IsRef(rs, w) && XidAt(rs, w) == t && IsWaiting(rs, w)
    requires forall o :: IsRef(rs, o) && XidAt(rs, o) == t && IsWaiting(rs, o) ==> o == w
    requires BlockersOf(rs, w) == [x, y] && x != y
    ensures x !in CutEdges(rs, t)
  {
    hide BlockersOf, Tracked, ValidModes;
    var locks := LocksOf(rs, Refs(rs, |rs|), t);
    assert w in Refs(rs, |rs|) && w in locks;
    var k :| 0 <= k < |locks| && locks[k] == w;
    LocksOfDistinct(rs, Refs(rs, |rs|), t);
    forall i | 0 <= i < k ensures !IsWaiting(rs, locks[i]) {
      var o := locks[i];
      assert o in locks && o != locks[k];
    }
    var u := UntrackedOfTwo(rs, locks, k, x, y);
  }

  const PR := 3
  const EX := 5

  function Held(xid: Xid, mode: int): Lkb {
    Lkb(NewLkb.lock.(xid := xid, status := GRANTED, grmode := mode, rqmode := -1, copy := LOCAL_COPY), 1)
  }

  function Wanted(xid: Xid, mode: int): Lkb {
    Lkb(NewLkb.lock.(xid := xid, status := WAITING, grmode := -1, rqmode := mode, copy := LOCAL_COPY), 1)
  }

  /** 1 and 2 share the first resource that 3 wants; 3 has the second, which both
      of them want. */
  const TwoHolders: Resources := [[Held(1, PR), Held(2, PR), Wanted(3, EX)], [Held(3, EX), Wanted(1, EX), Wanted(2, EX)]]

  lemma TwoHoldersWaits(t: Xid, u: Xid)
    requires (t == 3 && (u == 1 || u == 2)) || (u == 3 && (t == 1 || t == 2))
    ensures ValidModes(TwoHolders) && MustWait(TwoHolders, t, u)
  {
    var rs := TwoHolders;
    if t == 3 {
      var w, g := LkbRef(0, 2), LkbRef(0, u - 1);
      assert IsRef(rs, w) && IsRef(rs, g) && XidAt(rs, w) == t && XidAt(rs, g) == u && WaitsOn(rs, w, g);
    } else {
      var w, g := LkbRef(1, t), LkbRef(1, 0);
      assert IsRef(rs, w) && IsRef(rs, g) && XidAt(rs, w) == t && XidAt(rs, g) == u && WaitsOn(rs, w, g);
    }
  }

  /** Lock 3 waits for is on the first resource, and only 1 and 2 block it. */
  lemma TwoHoldersOnly(w: LkbRef)
    requires IsRef(TwoHolders, w) && XidAt(TwoHolders, w) == 3
    ensures w == LkbRef(0, 2) || (w == LkbRef(1, 0) && !IsWaiting(TwoHolders, w))
  {
    assert w.rsb == 0 || w.rsb == 1;
    assert w.index == 0 || w.index == 1 || w.index == 2;
  }

  lemma TwoHoldersBlockers()
    ensures ValidModes(TwoHolders) && BlockersOf(TwoHolders, LkbRef(0, 2)) == [1, 2]
  {
    var locks, w := TwoHolders[0], Wanted(3, EX);
    assert Blocks(locks[0], w) && Blocks(locks[1], w) && !Blocks(locks[2], w);
    assert Blockers(locks, w, 1) == [] + [1];
    assert Blockers(locks, w, 2) == [1] + [2];
    assert Blockers(locks, w, 3) == [1, 2] + [];
  }

  lemma TwoHoldersUntracked()
    ensures ValidModes(TwoHolders) && 1 !in CutEdges(TwoHolders, 3)
  {
    hide BlockersOf, CutEdges;
    TwoHoldersBlockers();
    forall o | IsRef(TwoHolders, o) && XidAt(TwoHolders, o) == 3 && IsWaiting(TwoHolders, o) ensures o == LkbRef(0, 2) {
      TwoHoldersOnly(o);
    }
    TwoBlockersOutlive(TwoHolders, 3, LkbRef(0, 2), 1, 2);
  }

  lemma PairCycle(g: Graph, all: set<Xid>, t: Xid, u: Xid)
    requires t in all && u in all && Edge(g, t, u) && Edge(g, u, t)
    ensures HasCycle(g, all)
  {
    assert IsCycle(g, all, [t, u]);
  }

  /** Whichever transaction is cancelled, this deadlock is not resolved. */
  lemma TwoHoldersUnresolved(v: Xid)
    ensures ValidModes(TwoHolders)
    ensures HasCycle(WaitFor(TwoHolders), Involved(TwoHolders))
    ensures HasCycle(Without(WaitFor(TwoHolders), v, CutEdges(TwoHolders, v)), Involved(TwoHolders))
  {
    hide WaitFor, Involved, CutEdges, HasCycle;
    var rs := TwoHolders;
    TwoHoldersEdges();
    var g, all := WaitFor(rs), Involved(rs);
    TwoHoldersUntracked();
    var u := if v == 1 then 2 else 1;
    PairCycle(g, all, 3, u);
    PairCycle(Without(g, v, CutEdges(rs, v)), all, 3, u);
  }

  lemma TwoHoldersEdges()
    ensures ValidModes(TwoHolders) && {1, 2, 3} <= Involved(TwoHolders)
    ensures var g := WaitFor(TwoHolders); Edge(g, 3, 1) && Edge(g, 3, 2) && Edge(g, 1, 3) && Edge(g, 2, 3)
  {
    hide WaitFor, Involved, MustWait;
    TwoHoldersWaits(3, 1);
    TwoHoldersWaits(3, 2);
    TwoHoldersWaits(1, 3);
    TwoHoldersWaits(2, 3);
    WaitForExact(TwoHolders, 3, 1);
    WaitForExact(TwoHolders, 3, 2);
    WaitForExact(TwoHolders, 1, 3);
    WaitForExact(TwoHolders, 2, 3);
  }

  // ---------- the plain crossing of two transactions

  /** Each holds what the other wants. */
  function Crossing(held1: int, wanted1: int, held2: int, wanted2: int): Resources {
    [[Held(1, held1), Wanted(2, wanted1)], [Held(2, held2), Wanted(1, wanted2)]]
  }

  lemma CrossingWaits(held1: int, wanted1: int, held2: int, wanted2: int, t: Xid, u: Xid)
    requires ValidMode(held1) && ValidMode(wanted1) && ValidMode(held2) && ValidMode(wanted2)
    ensures var rs := Crossing(held1, wanted1, held2, wanted2);
            && ValidModes(rs)
            && (MustWait(rs, t, u) <==>
                (t == 2 && u == 1 && !Shareable(held1, wanted1)) || (t == 1 && u == 2 && !Shareable(held2, wanted2)))
  {
    hide ModesCompat, Tolerates;
    var rs := Crossing(held1, wanted1, held2, wanted2);
    forall w, g | IsRef(rs, w) && IsRef(rs, g)
      ensures WaitsOn(rs, w, g) <==>
              g.index == 0 && w == LkbRef(g.rsb, 1) && !Shareable(if g.rsb == 0 then held1 else held2, if g.rsb == 0 then wanted1 else wanted2)
    {
      assert (w.rsb == 0 || w.rsb == 1) && (g.rsb == 0 || g.rsb == 1) && (w.index == 0 || w.index == 1) && (g.index == 0 || g.index == 1);
      WaitsOnMeaning(rs, w, g);
    }
    if t == 2 && u == 1 && !Shareable(held1, wanted1) {
      assert WaitsOn(rs, LkbRef(0, 1), LkbRef(0, 0)) && XidAt(rs, LkbRef(0, 1)) == t && XidAt(rs, LkbRef(0, 0)) == u;
    }
    if t == 1 && u == 2 && !Shareable(held2, wanted2) {
      assert WaitsOn(rs, LkbRef(1, 1), LkbRef(1, 0)) && XidAt(rs, LkbRef(1, 1)) == t && XidAt(rs, LkbRef(1, 0)) == u;
    }
  }

  /** In whatever modes two transactions cross, the detector's graph has a cycle exactly
      when neither can share what it holds with what the other wants. */
  lemma CrossingIff(held1: int, wanted1: int, held2: int, wanted2: int)
    requires ValidMode(held1) && ValidMode(wanted1) && ValidMode(held2) && ValidMode(wanted2)
    ensures var rs := Crossing(held1, wanted1, held2, wanted2);
            && ValidModes(rs)
            && (HasCycle(WaitFor(rs), Involved(rs)) <==> !Shareable(held1, wanted1) && !Shareable(held2, wanted2))
  {
    hide WaitFor, Involved, MustWait, Crossing, Shareable, HasCycle;
    var rs := Crossing(held1, wanted1, held2, wanted2);
    CrossingWaits(held1, wanted1, held2, wanted2, 1, 2);
    CrossingWaits(held1, wanted1, held2, wanted2, 2, 1);
    WaitForExact(rs, 1, 2);
    WaitForExact(rs, 2, 1);
    if MustWait(rs, 1, 2) && MustWait(rs, 2, 1) { PairCycle(WaitFor(rs), Involved(rs), 1, 2); }
    if HasCycle(WaitFor(rs), Involved(rs)) {
      forall t, u | Edge(WaitFor(rs), t, u) ensures MustWait(rs, t, u) && ((t == 1 && u == 2) || (t == 2 && u == 1)) {
        WaitForExact(rs, t, u);
        CrossingWaits(held1, wanted1, held2, wanted2, t, u);
      }
      CycleUsesBoth(WaitFor(rs), Involved(rs));
    }
  }

  lemma CycleUsesBoth(g: Graph, all: set<Xid>)
    requires HasCycle(g, all) && forall t, u :: Edge(g, t, u) ==> (t == 1 && u == 2) || (t == 2 && u == 1)
    ensures Edge(g, 1, 2) && Edge(g, 2, 1)
  {
    var p :| IsCycle(g, all, p);
    if |p| > 1 {
      assert Edge(g, p[0], p[1]);
      if |p| == 2 { assert Edge(g, p[1], p[0]); } else { assert Edge(g, p[1], p[2]); }
    }
  }

  // ---------- a victim that is on no cycle

  /** 3 and 4 wait for each other, 2 waits for 3, and 1 for 2. */
  const Chain: Resources := [[Held(4, EX), Wanted(3, EX)], [Held(3, EX), Wanted(4, EX), Wanted(2, EX)], [Held(2, EX), Wanted(1, EX)]]

  predicate ChainEdge(t: Xid, u: Xid) {
    (t == 1 && u == 2) || (t == 2 && u == 3) || (t == 3 && u == 4) || (t == 4 && u == 3)
  }

  lemma ChainValid()
    ensures ValidModes(Chain)
  {
  }

  lemma ChainRefs(w: LkbRef)
    requires IsRef(Chain, w)
    ensures w in {LkbRef(0, 0), LkbRef(0, 1), LkbRef(1, 0), LkbRef(1, 1), LkbRef(1, 2), LkbRef(2, 0), LkbRef(2, 1)}
  {
    assert w.rsb == 0 || w.rsb == 1 || w.rsb == 2;
    assert w.index == 0 || w.index == 1 || w.index == 2;
  }

  lemma ChainOnly(w: LkbRef, g: LkbRef)
    requires ValidModes(Chain) && IsRef(Chain, w) && IsRef(Chain, g) && WaitsOn(Chain, w, g)
    ensures ChainEdge(XidAt(Chain, w), XidAt(Chain, g))
  {
    ChainRefs(w);
    ChainRefs(g);
  }

  lemma ChainWaits(t: Xid, u: Xid)
    ensures ValidModes(Chain) && (Edge(WaitFor(Chain), t, u) <==> ChainEdge(t, u))
  {
    hide WaitFor, ChainEdge, WaitsOn;
    ChainValid();
    WaitForExact(Chain, t, u);
    if MustWait(Chain, t, u) {
      var w, g :| IsRef(Chain, w) && IsRef(Chain, g) && XidAt(Chain, w) == t && XidAt(Chain, g) == u && WaitsOn(Chain, w, g);
      ChainOnly(w, g);
    }
    if ChainEdge(t, u) { ChainMust(t, u); }
  }

  lemma ChainMust(t: Xid, u: Xid)
    requires ValidModes(Chain) && ChainEdge(t, u)
    ensures MustWait(Chain, t, u)
  {
    var w, g := if t == 1 then LkbRef(2, 1) else if t == 2 then LkbRef(1, 2) else if t == 3 then LkbRef(0, 1) else LkbRef(1, 1),
                if t == 1 then LkbRef(2, 0) else if t == 3 then LkbRef(0, 0) else LkbRef(1, 0);
    assert IsRef(Chain, w) && IsRef(Chain, g) && XidAt(Chain, w) == t && XidAt(Chain, g) == u && WaitsOn(Chain, w, g);
  }

  function Put(list: seq<Xid>, t: Xid): seq<Xid> {
    if t in list then list else [t] + list
  }

  /** The traversal goes on by one lock, then by a resource of two or three. */
  lemma OrderStep(rs: Resources, r: nat, i: nat, list: seq<Xid>, t: Xid)
    requires r < |rs| && i < |rs[r]| && TransOrder(rs, RefsTo(rs, r, i)) == list && rs[r][i].lock.xid == t
    ensures TransOrder(rs, RefsTo(rs, r, i + 1)) == Put(list, t)
  {
    hide RefsTo, TransOrder;
    RefsNext(rs, r, i);
    OrderNext(rs, RefsTo(rs, r, i), LkbRef(r, i));
  }

  lemma OrderRow(rs: Resources, r: nat, list: seq<Xid>, x: Xid, y: Xid, z: Xid)
    requires r < |rs| && 2 <= |rs[r]| <= 3 && TransOrder(rs, Refs(rs, r)) == list
    requires rs[r][0].lock.xid == x && rs[r][1].lock.xid == y && (|rs[r]| == 3 ==> rs[r][2].lock.xid == z)
    ensures TransOrder(rs, Refs(rs, r + 1)) == if |rs[r]| == 2 then Put(Put(list, x), y) else Put(Put(Put(list, x), y), z)
  {
    hide RefsTo, TransOrder, Refs, Put;
    RefsRow(rs, r);
    OrderStep(rs, r, 0, list, x);
    OrderStep(rs, r, 1, Put(list, x), y);
    if |rs[r]| == 3 { OrderStep(rs, r, 2, Put(Put(list, x), y), z); }
  }

  lemma OrderNone(rs: Resources)
    ensures TransOrder(rs, Refs(rs, 0)) == []
  {
  }

  lemma PutFacts()
    ensures Put(Put([], 4), 3) == [3, 4] && Put(Put(Put([3, 4], 3), 4), 2) == [2, 3, 4]
    ensures Put(Put([2, 3, 4], 2), 1) == [1, 2, 3, 4]
  {
  }

  /** Tables whose locks belong, in order, to 4 3, 3 4 2 and 2 1. */
  predicate ChainXids(rs: Resources) {
    && |rs| == 3 && |rs[0]| == 2 && |rs[1]| == 3 && |rs[2]| == 2
    && rs[0][0].lock.xid == 4 && rs[0][1].lock.xid == 3
    && rs[1][0].lock.xid == 3 && rs[1][1].lock.xid == 4 && rs[1][2].lock.xid == 2
    && rs[2][0].lock.xid == 2 && rs[2][1].lock.xid == 1
  }

  lemma ChainOrderOf(rs: Resources)
    requires ChainXids(rs)
    ensures TransOrder(rs, Refs(rs, 3)) == [1, 2, 3, 4]
  {
    hide TransOrder, Refs, Put;
    PutFacts();
    OrderNone(rs);
    OrderRow(rs, 0, [], 4, 3, 0);
    OrderRow(rs, 1, [3, 4], 3, 4, 2);
    OrderRow(rs, 2, [2, 3, 4], 2, 1, 0);
  }

  lemma ChainOrder()
    ensures TransOrder(Chain, Refs(Chain, |Chain|)) == [1, 2, 3, 4]
  {
    hide TransOrder, Refs;
    ChainOrderOf(Chain);
  }

  lemma ChainStuck(g: Graph, all: set<Xid>)
    requires (forall t, u :: Edge(g, t, u) <==> ChainEdge(t, u)) && all == {1, 2, 3, 4}
    ensures IsResidue(g, all, all)
  {
    forall t | t in all ensures WaitsInside(g, all, t) {
      var u := if t == 1 then 2 else if t == 3 then 4 else 3;
      assert u in all && Edge(g, t, u);
    }
  }

  lemma ChainVictim(g: Graph, all: set<Xid>, v: Xid)
    requires (forall t, u :: Edge(g, t, u) <==> ChainEdge(t, u)) && all == {1, 2, 3, 4}
    requires IsVictim([1, 2, 3, 4], g, all, v)
    ensures v == 2
  {
    var order := [1, 2, 3, 4];
    assert Edge(g, 1, 2) && 1 in all && WaitedFor(g, all, 2);
    assert !WaitedFor(g, all, 1);
    var i :| 0 <= i < |order| && order[i] == v && v in all && WaitedFor(g, all, v) &&
      forall j :: 0 <= j < i && order[j] in all ==> !WaitedFor(g, all, order[j]);
    assert order[1] == 2;
  }

  lemma ChainOffCycle(g: Graph, all: set<Xid>, p: seq<Xid>)
    requires (forall t, u :: Edge(g, t, u) <==> ChainEdge(t, u)) && IsCycle(g, all, p)
    ensures 2 !in p
  {
    if i :| 0 <= i < |p| && p[i] == 2 {
      var j := if i == 0 then |p| - 1 else i - 1;
      assert Edge(g, p[j], p[i]);
      var k := if j == 0 then |p| - 1 else j - 1;
      assert Edge(g, p[k], p[j]);
    }
  }

  /** A lock table with a deadlock whose victim can only be 2, which is on no cycle:
      however the detector ends, the deadlock is not resolved. */
  lemma VictimOffCycle()
    ensures ValidModes(Chain) && HasCycle(WaitFor(Chain), Involved(Chain))
    ensures forall v, cancelled, resolved :: CutOk(Chain, v, cancelled, resolved) ==> v == 2 && !resolved
    ensures forall p :: IsCycle(WaitFor(Chain), Involved(Chain), p) ==> 2 !in p
  {
    hide WaitFor, IsResidue, HasCycle, IsCycle, CutEdges, WaitingLocks, IsVictim, ChainEdge, TransOrder, Refs, LocksOf;
    ChainValid();
    ChainOrder();
    var g, all := WaitFor(Chain), Involved(Chain);
    ChainAll(all);
    forall t, u ensures Edge(g, t, u) <==> ChainEdge(t, u) { ChainWaits(t, u); }
    ChainStuck(g, all);
    ChainPair(g, all);
    forall v, cancelled, resolved | CutOk(Chain, v, cancelled, resolved) ensures v == 2 && !resolved {
      var s :| IsResidue(g, all, s) && IsVictim(TransOrder(Chain, Refs(Chain, |Chain|)), g, s, v);
      ResidueUnique(g, all, s, all);
      ChainVictim(g, all, v);
    }
    forall p | IsCycle(g, all, p) ensures 2 !in p { ChainOffCycle(g, all, p); }
  }

  lemma ChainAll(all: set<Xid>)
    requires all == Listed([1, 2, 3, 4])
    ensures all == {1, 2, 3, 4}
  {
  }

  lemma ChainPair(g: Graph, all: set<Xid>)
    requires (forall t, u :: Edge(g, t, u) <==> ChainEdge(t, u)) && all == {1, 2, 3, 4}
    ensures HasCycle(g, all) && forall es :: HasCycle(Without(g, 2, es), all)
  {
    hide HasCycle;
    assert Edge(g, 3, 4) && Edge(g, 4, 3);
    PairCycle(g, all, 3, 4);
    forall es ensures HasCycle(Without(g, 2, es), all) {
      assert Edge(Without(g, 2, es), 3, 4) && Edge(Without(g, 2, es), 4, 3);
      PairCycle(Without(g, 2, es), all, 3, 4);
    }
  }
}
