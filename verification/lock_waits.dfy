/**
 Which transaction waits for which, read off the lock lists of all resources:
 the order in which the detector meets locks, and the meaning of what it finds.
 */
module LockWaits {
  import opened WaitGraph
  import opened LockRecords
  import opened TransTable

  const WAITING := 1
  const GRANTED := 2

  const COMPAT: seq<seq<bool>> := [
    [true, true, true, true, true, true, true, false],
    [true, true, true, true, true, true, true, false],
    [true, true, true, true, true, true, false, false],
    [true, true, true, true, false, false, false, false],
    [true, true, true, false, true, false, false, false],
    [true, true, true, false, false, false, false, false],
    [true, true, false, false, false, false, false, false],
    [false, false, false, false, false, false, false, false]]

  predicate ValidMode(mode: int) {
    -1 <= mode <= 6
  }

  predicate ModesCompat(mode1: int, mode2: int)
    requires ValidMode(mode1) && ValidMode(mode2)
  {
    COMPAT[mode1 + 1][mode2 + 1]
  }

  // ---------- what the modes mean, from unused (-1) over null, concurrent read and
  // write, protected read and write to exclusive (5)

  predicate MayRead(mode: int) {
    1 <= mode <= 5
  }

  predicate MayWrite(mode: int) {
    mode == 2 || mode == 4 || mode == 5
  }

  predicate LetsOthersRead(mode: int) {
    mode != 5
  }

  predicate LetsOthersWrite(mode: int) {
    mode <= 2
  }

  predicate Tolerates(mode: int, other: int) {
    (MayRead(other) ==> LetsOthersRead(mode)) && (MayWrite(other) ==> LetsOthersWrite(mode))
  }

  /** Each lets the other do what it may do, and neither is the invalid mode 6. */
  predicate Shareable(mode1: int, mode2: int) {
    mode1 != 6 && mode2 != 6 && Tolerates(mode1, mode2) && Tolerates(mode2, mode1)
  }

  /** The matrix says of any two modes exactly whether they go together. */
  lemma CompatMeaning(mode1: int, mode2: int)
    requires ValidMode(mode1) && ValidMode(mode2)
    ensures ModesCompat(mode1, mode2) <==> Shareable(mode1, mode2)
  {
    var row := COMPAT[mode1 + 1];
    assert |row| == 8;
  }

  type Resources = seq<seq<Lkb>>

  /** Every mode is one of the eight the compatibility matrix covers. */
  predicate ValidModes(rs: Resources) {
    forall r, i :: 0 <= r < |rs| && 0 <= i < |rs[r]| ==>
      ValidMode(rs[r][i].lock.grmode) && ValidMode(rs[r][i].lock.rqmode)
  }

  predicate IsRef(rs: Resources, w: LkbRef) {
    w.rsb < |rs| && w.index < |rs[w.rsb]|
  }

  function LkbAt(rs: Resources, w: LkbRef): Lkb
    requires IsRef(rs, w)
  {
    rs[w.rsb][w.index]
  }

  function XidAt(rs: Resources, w: LkbRef): Xid
    requires IsRef(rs, w)
  {
    LkbAt(rs, w).lock.xid
  }

  predicate IsWaiting(rs: Resources, w: LkbRef)
    requires IsRef(rs, w)
  {
    LkbAt(rs, w).lock.status != GRANTED
  }

  /** `g` is held, or held while being converted, in a mode `w` cannot share. */
  predicate Blocks(g: Lkb, w: Lkb)
    requires ValidMode(g.lock.grmode) && ValidMode(w.lock.rqmode)
  {
    g.lock.status != WAITING && g.lock.xid != w.lock.xid && !ModesCompat(g.lock.grmode, w.lock.rqmode)
  }

  predicate WaitsOn(rs: Resources, w: LkbRef, g: LkbRef)
    requires ValidModes(rs) && IsRef(rs, w) && IsRef(rs, g)
  {
    w.rsb == g.rsb && IsWaiting(rs, w) && Blocks(LkbAt(rs, g), LkbAt(rs, w))
  }

  const CONVERT := 3

  predicate ValidStatus(l: Lkb) {
    l.lock.status == WAITING || l.lock.status == GRANTED || l.lock.status == CONVERT
  }

  /** A lock that waits, first or to be converted, waits on one of another transaction
      that is held, converting or not, exactly when the mode it asks for and the mode
      held do not go together. */
  lemma WaitsOnMeaning(rs: Resources, w: LkbRef, g: LkbRef)
    requires ValidModes(rs) && IsRef(rs, w) && IsRef(rs, g) && ValidStatus(LkbAt(rs, w)) && ValidStatus(LkbAt(rs, g))
    ensures var asks, holds := LkbAt(rs, w).lock, LkbAt(rs, g).lock;
            WaitsOn(rs, w, g) <==>
            && w.rsb == g.rsb && asks.xid != holds.xid && (asks.status == WAITING || asks.status == CONVERT)
            && (holds.status == GRANTED || holds.status == CONVERT) && !Shareable(holds.grmode, asks.rqmode)
  {
    hide ModesCompat, Tolerates;
    CompatMeaning(LkbAt(rs, g).lock.grmode, LkbAt(rs, w).lock.rqmode);
  }

  /** `t` has a lock that is not granted and is blocked by a lock of `u` on the
      same resource. */
  ghost predicate MustWait(rs: Resources, t: Xid, u: Xid)
    requires ValidModes(rs)
  {
    exists w, g :: IsRef(rs, w) && IsRef(rs, g) && XidAt(rs, w) == t && XidAt(rs, g) == u && WaitsOn(rs, w, g)
  }

  // ---------- the order of the detector's traversals

  /** The locks of one resource, first `n` of the list. */
  function RefsIn(r: nat, n: nat): (refs: seq<LkbRef>)
    ensures |refs| == n && forall i :: 0 <= i < n ==> refs[i] == LkbRef(r, i)
    ensures forall w :: w in refs <==> w.rsb == r && w.index < n
  {
    if n == 0 then [] else RefsIn(r, n - 1) + [LkbRef(r, n - 1)]
  }

  predicate DistinctRefs(refs: seq<LkbRef>) {
    forall i, j :: 0 <= i < j < |refs| ==> refs[i] != refs[j]
  }

  /** All locks of the first `n` resources, in the order they are visited. */
  function Refs(rs: Resources, n: nat): (refs: seq<LkbRef>)
    requires n <= |rs|
    ensures forall w :: w in refs <==> w.rsb < n && w.index < |rs[w.rsb]|
    ensures DistinctRefs(refs)
  {
    if n == 0 then [] else Refs(rs, n - 1) + RefsIn(n - 1, |rs[n - 1]|)
  }

  /** ... and of the next resource the first `i`. */
  function RefsTo(rs: Resources, r: nat, i: nat): (refs: seq<LkbRef>)
    requires r < |rs| && i <= |rs[r]|
    ensures forall w :: w in refs ==> IsRef(rs, w)
  {
    Refs(rs, r) + RefsIn(r, i)
  }

  lemma RefsRow(rs: Resources, r: nat)
    requires r < |rs|
    ensures RefsTo(rs, r, 0) == Refs(rs, r) && RefsTo(rs, r, |rs[r]|) == Refs(rs, r + 1)
  {
  }

  lemma RefsNext(rs: Resources, r: nat, i: nat)
    requires r < |rs| && i < |rs[r]|
    ensures RefsTo(rs, r, i + 1) == RefsTo(rs, r, i) + [LkbRef(r, i)]
  {
  }

  ghost predicate HasLock(rs: Resources, refs: seq<LkbRef>, t: Xid)
    requires forall w :: w in refs ==> IsRef(rs, w)
  {
    exists w :: w in refs && XidAt(rs, w) == t
  }

  /** The list of transactions: a new one goes to the head. */
  function TransOrder(rs: Resources, refs: seq<LkbRef>): (list: seq<Xid>)
    requires forall w :: w in refs ==> IsRef(rs, w)
    ensures NoDup(list)
    ensures forall t :: t in list <==> HasLock(rs, refs, t)
  {
    if refs == [] then [] else
      var front, w := refs[..|refs| - 1], refs[|refs| - 1];
      assert refs == front + [w];
      var list := TransOrder(rs, front);
      if XidAt(rs, w) in list then list else [XidAt(rs, w)] + list
  }

  /** The locks of transaction `t`, again newest first. */
  function LocksOf(rs: Resources, refs: seq<LkbRef>, t: Xid): (locks: seq<LkbRef>)
    requires forall w :: w in refs ==> IsRef(rs, w)
    ensures forall w :: w in locks <==> w in refs && XidAt(rs, w) == t
  {
    if refs == [] then [] else
      var front, w := refs[..|refs| - 1], refs[|refs| - 1];
      assert refs == front + [w];
      (if XidAt(rs, w) == t then [w] else []) + LocksOf(rs, front, t)
  }

  /** The first lock of `t` is the `i`th. */
  predicate FirstAt(rs: Resources, refs: seq<LkbRef>, t: Xid, i: nat)
    requires forall w :: w in refs ==> IsRef(rs, w)
  {
    i < |refs| && XidAt(rs, refs[i]) == t && forall j :: 0 <= j < i ==> XidAt(rs, refs[j]) != t
  }

  /** A transaction stands before those whose first lock was met earlier. */
  lemma {:induction false} OrderByFirst(rs: Resources, refs: seq<LkbRef>, a: nat, b: nat, i: nat, j: nat)
    requires forall w :: w in refs ==> IsRef(rs, w)
    requires a < b < |TransOrder(rs, refs)|
    requires FirstAt(rs, refs, TransOrder(rs, refs)[a], i) && FirstAt(rs, refs, TransOrder(rs, refs)[b], j)
    ensures j < i
    decreases |refs|
  {
    hide IsRef, XidAt;
    var front, w := refs[..|refs| - 1], refs[|refs| - 1];
    assert refs == front + [w];
    var list, shorter := TransOrder(rs, refs), TransOrder(rs, front);
    assert forall k :: 0 <= k < |front| ==> refs[k] == front[k];
    SeenBefore(rs, refs, list[b], j);
    SeenBefore(rs, refs, list[a], i);
    if XidAt(rs, w) in shorter {
      OrderByFirst(rs, front, a, b, i, j);
    } else if a > 0 {
      OrderByFirst(rs, front, a - 1, b - 1, i, j);
    }
  }

  lemma SeenBefore(rs: Resources, refs: seq<LkbRef>, t: Xid, i: nat)
    requires (forall w :: w in refs ==> IsRef(rs, w)) && FirstAt(rs, refs, t, i)
    ensures var front := refs[..|refs| - 1];
            && (t in TransOrder(rs, front) ==> FirstAt(rs, front, t, i))
            && (t !in TransOrder(rs, front) ==> i == |front| && t == XidAt(rs, refs[i]))
  {
    hide TransOrder, IsRef, XidAt;
    var front := refs[..|refs| - 1];
    if t in TransOrder(rs, front) {
      var w :| w in front && XidAt(rs, w) == t;
      var k :| 0 <= k < |front| && front[k] == w;
      assert refs[k] == w;
    }
  }

  lemma OrderNext(rs: Resources, refs: seq<LkbRef>, w: LkbRef)
    requires (forall x :: x in refs ==> IsRef(rs, x)) && IsRef(rs, w)
    ensures forall x :: x in refs + [w] ==> IsRef(rs, x)
    ensures var t, list := XidAt(rs, w), TransOrder(rs, refs);
            TransOrder(rs, refs + [w]) == if t in list then list else [t] + list
  {
    assert (refs + [w])[..|refs|] == refs;
  }

  lemma LocksNext(rs: Resources, refs: seq<LkbRef>, w: LkbRef, t: Xid)
    requires (forall x :: x in refs ==> IsRef(rs, x)) && IsRef(rs, w) && (forall x :: x in refs + [w] ==> IsRef(rs, x))
    ensures LocksOf(rs, refs + [w], t) == if XidAt(rs, w) == t then [w] + LocksOf(rs, refs, t) else LocksOf(rs, refs, t)
  {
    assert (refs + [w])[..|refs|] == refs;
  }

  lemma {:induction false} LocksOfDistinct(rs: Resources, refs: seq<LkbRef>, t: Xid)
    requires forall w :: w in refs ==> IsRef(rs, w)
    requires DistinctRefs(refs)
    ensures DistinctRefs(LocksOf(rs, refs, t))
  {
    if refs != [] {
      var front, w := refs[..|refs| - 1], refs[|refs| - 1];
      LocksOfDistinct(rs, front, t);
      assert w !in front && w !in LocksOf(rs, front, t);
      assert LocksOf(rs, refs, t) == (if XidAt(rs, w) == t then [w] else []) + LocksOf(rs, front, t);
    }
  }

  // ---------- the edges of one transaction, in the order they are added

  /** The transactions whose locks, among the first `n` on the resource, block `w`. */
  function Blockers(locks: seq<Lkb>, w: Lkb, n: nat): (bs: seq<Xid>)
    requires n <= |locks| && ValidMode(w.lock.rqmode)
    requires forall i :: 0 <= i < |locks| ==> ValidMode(locks[i].lock.grmode)
    ensures forall u :: u in bs <==> exists i :: 0 <= i < n && Blocks(locks[i], w) && locks[i].lock.xid == u
  {
    if n == 0 then [] else Blockers(locks, w, n - 1) + (if Blocks(locks[n - 1], w) then [locks[n - 1].lock.xid] else [])
  }

  /** Each transaction is added once. */
  function AddNew(xs: seq<Xid>, u: Xid): seq<Xid> {
    if u in xs then xs else xs + [u]
  }

  function Extend(xs: seq<Xid>, bs: seq<Xid>): (r: seq<Xid>)
    ensures xs <= r
    ensures NoDup(xs) ==> NoDup(r)
    ensures forall u :: u in r <==> u in xs || u in bs
  {
    if bs == [] then xs else
      var front, u := bs[..|bs| - 1], bs[|bs| - 1];
      assert bs == front + [u];
      AddNew(Extend(xs, front), u)
  }

  function BlockersOf(rs: Resources, w: LkbRef): seq<Xid>
    requires ValidModes(rs) && IsRef(rs, w)
  {
    Blockers(rs[w.rsb], LkbAt(rs, w), |rs[w.rsb]|)
  }

  /** The waitfor array after the first `n` of `locks` have been linked. */
  function WaitsOf(rs: Resources, locks: seq<LkbRef>, n: nat): (xs: seq<Xid>)
    requires ValidModes(rs) && n <= |locks| && forall w :: w in locks ==> IsRef(rs, w)
    ensures NoDup(xs)
  {
    if n == 0 then [] else
      var xs, w := WaitsOf(rs, locks, n - 1), locks[n - 1];
      if IsWaiting(rs, w) then Extend(xs, BlockersOf(rs, w)) else xs
  }

  lemma {:induction false} WaitsOfMembers(rs: Resources, locks: seq<LkbRef>, n: nat, u: Xid)
    requires ValidModes(rs) && n <= |locks| && forall w :: w in locks ==> IsRef(rs, w)
    ensures u in WaitsOf(rs, locks, n) <==>
            exists k :: 0 <= k < n && IsWaiting(rs, locks[k]) && u in BlockersOf(rs, locks[k])
  {
    if n > 0 { WaitsOfMembers(rs, locks, n - 1, u); }
  }

  lemma BlockersOfExact(rs: Resources, w: LkbRef, u: Xid)
    requires ValidModes(rs) && IsRef(rs, w) && IsWaiting(rs, w)
    ensures u in BlockersOf(rs, w) <==> exists g :: IsRef(rs, g) && XidAt(rs, g) == u && WaitsOn(rs, w, g)
  {
    if u in BlockersOf(rs, w) {
      var i :| 0 <= i < |rs[w.rsb]| && Blocks(rs[w.rsb][i], LkbAt(rs, w)) && rs[w.rsb][i].lock.xid == u;
      assert IsRef(rs, LkbRef(w.rsb, i)) && WaitsOn(rs, w, LkbRef(w.rsb, i));
    }
    if g :| IsRef(rs, g) && XidAt(rs, g) == u && WaitsOn(rs, w, g) {
      assert Blocks(rs[w.rsb][g.index], LkbAt(rs, w));
    }
  }

  /** The array holds exactly those the transaction must wait for. */
  lemma WaitsOfExact(rs: Resources, t: Xid, u: Xid)
    requires ValidModes(rs)
    ensures var locks := LocksOf(rs, Refs(rs, |rs|), t);
            u in WaitsOf(rs, locks, |locks|) <==> MustWait(rs, t, u)
  {
    hide LocksOf, WaitsOf, BlockersOf, Refs, WaitsOn, ValidModes;
    var locks := LocksOf(rs, Refs(rs, |rs|), t);
    WaitsOfMembers(rs, locks, |locks|, u);
    if u in WaitsOf(rs, locks, |locks|) {
      var k :| 0 <= k < |locks| && IsWaiting(rs, locks[k]) && u in BlockersOf(rs, locks[k]);
      var w := locks[k];
      assert w in locks;
      BlockersOfExact(rs, w, u);
    }
    if MustWait(rs, t, u) {
      var w, g :| IsRef(rs, w) && IsRef(rs, g) && XidAt(rs, w) == t && XidAt(rs, g) == u && WaitsOn(rs, w, g);
      assert w in locks;
      WaitsOnWaiting(rs, w, g);
      BlockersOfExact(rs, w, u);
      var k :| 0 <= k < |locks| && locks[k] == w;
    }
  }

  lemma WaitsOnWaiting(rs: Resources, w: LkbRef, g: LkbRef)
    requires ValidModes(rs) && IsRef(rs, w) && IsRef(rs, g) && WaitsOn(rs, w, g)
    ensures IsWaiting(rs, w) && XidAt(rs, w) != XidAt(rs, g)
  {
  }

  /** All transactions that have a lock. */
  ghost function Involved(rs: Resources): set<Xid> {
    Listed(TransOrder(rs, Refs(rs, |rs|)))
  }

  /** What the detector's arrays hold for `t` when the graph has been built. */
  ghost function WaitSet(rs: Resources, t: Xid): set<Xid>
    requires ValidModes(rs)
  {
    var locks := LocksOf(rs, Refs(rs, |rs|), t);
    set u | u in WaitsOf(rs, locks, |locks|)
  }

  /** The wait-for graph of a lock table. */
  ghost function WaitFor(rs: Resources): Graph
    requires ValidModes(rs)
  {
    map t | t in Involved(rs) :: WaitSet(rs, t)
  }

  lemma WaitForExact(rs: Resources, t: Xid, u: Xid)
    requires ValidModes(rs)
    ensures Edge(WaitFor(rs), t, u) <==> MustWait(rs, t, u)
    ensures MustWait(rs, t, u) ==> t != u && t in Involved(rs) && u in Involved(rs)
  {
    hide LocksOf, WaitsOf, Refs, TransOrder, WaitsOn;
    WaitsOfExact(rs, t, u);
    if MustWait(rs, t, u) {
      var w, g :| IsRef(rs, w) && IsRef(rs, g) && XidAt(rs, w) == t && XidAt(rs, g) == u && WaitsOn(rs, w, g);
      assert w in Refs(rs, |rs|) && g in Refs(rs, |rs|);
      WaitsOnWaiting(rs, w, g);
    }
  }

  // ---------- which edges a waiting lock can account for

  /** What waitfor_trans of the `k`th lock ends up as: the last transaction it
      added to the array, if it added any. */
  ghost predicate Tracks(rs: Resources, locks: seq<LkbRef>, k: nat, u: Xid)
    requires ValidModes(rs) && k < |locks| && forall w :: w in locks ==> IsRef(rs, w)
  {
    var xs, ys := WaitsOf(rs, locks, k), WaitsOf(rs, locks, k + 1);
    |xs| < |ys| && ys[|ys| - 1] == u
  }

  ghost predicate Tracked(rs: Resources, locks: seq<LkbRef>, u: Xid)
    requires ValidModes(rs) && forall w :: w in locks ==> IsRef(rs, w)
  {
    exists k :: 0 <= k < |locks| && Tracks(rs, locks, k, u)
  }

  lemma {:induction false} WaitsPrefix(rs: Resources, locks: seq<LkbRef>, i: nat, j: nat)
    requires ValidModes(rs) && i <= j <= |locks| && forall w :: w in locks ==> IsRef(rs, w)
    ensures WaitsOf(rs, locks, i) <= WaitsOf(rs, locks, j)
  {
    if i < j { WaitsPrefix(rs, locks, i, j - 1); }
  }

  /** Which lock put the `i`th entry into the array. */
  lemma {:induction false} AddedBy(rs: Resources, locks: seq<LkbRef>, n: nat, i: nat) returns (k: nat)
    requires ValidModes(rs) && n <= |locks| && forall w :: w in locks ==> IsRef(rs, w)
    requires i < |WaitsOf(rs, locks, n)|
    ensures k < n && |WaitsOf(rs, locks, k)| <= i < |WaitsOf(rs, locks, k + 1)|
    decreases n
  {
    if i >= |WaitsOf(rs, locks, n - 1)| { k := n - 1; } else { k := AddedBy(rs, locks, n - 1, i); }
  }

  ghost predicate AddsAtMostOne(rs: Resources, locks: seq<LkbRef>, k: nat)
    requires ValidModes(rs) && k < |locks| && forall w :: w in locks ==> IsRef(rs, w)
  {
    |WaitsOf(rs, locks, k + 1)| <= |WaitsOf(rs, locks, k)| + 1
  }

  lemma UntrackedIfTwo(rs: Resources, locks: seq<LkbRef>, k: nat)
    requires ValidModes(rs) && k < |locks| && forall w :: w in locks ==> IsRef(rs, w)
    requires !AddsAtMostOne(rs, locks, k)
    ensures var xs := WaitsOf(rs, locks, |locks|);
            |WaitsOf(rs, locks, k)| < |xs| && !Tracked(rs, locks, xs[|WaitsOf(rs, locks, k)|])
  {
    hide WaitsOf;
    var xs, i := WaitsOf(rs, locks, |locks|), |WaitsOf(rs, locks, k)|;
    WaitsPrefix(rs, locks, k + 1, |locks|);
    forall m | 0 <= m < |locks| ensures !Tracks(rs, locks, m, xs[i]) {
      WaitsPrefix(rs, locks, m + 1, |locks|);
      if m < k { WaitsPrefix(rs, locks, m + 1, k); }
      if m > k { WaitsPrefix(rs, locks, k + 1, m); }
    }
  }

  /** A lock remembers only the last transaction it added, so all edges of a
      transaction are remembered exactly when none of its locks added two. */
  lemma AllTrackedIff(rs: Resources, locks: seq<LkbRef>)
    requires ValidModes(rs) && forall w :: w in locks ==> IsRef(rs, w)
    ensures (forall u :: u in WaitsOf(rs, locks, |locks|) ==> Tracked(rs, locks, u))
       <==> (forall k :: 0 <= k < |locks| ==> AddsAtMostOne(rs, locks, k))
  {
    hide WaitsOf, Tracked, AddsAtMostOne, ValidModes, IsRef;
    var xs := WaitsOf(rs, locks, |locks|);
    if forall k :: 0 <= k < |locks| ==> AddsAtMostOne(rs, locks, k) {
      forall u | u in xs ensures Tracked(rs, locks, u) {
        var i :| 0 <= i < |xs| && xs[i] == u;
        TrackedIfOne(rs, locks, i);
      }
    } else {
      var k :| 0 <= k < |locks| && !AddsAtMostOne(rs, locks, k);
      UntrackedIfTwo(rs, locks, k);
      var u := xs[|WaitsOf(rs, locks, k)|];
      assert u in xs && !Tracked(rs, locks, u);
    }
  }

  lemma TrackedIfOne(rs: Resources, locks: seq<LkbRef>, i: nat)
    requires ValidModes(rs) && (forall w :: w in locks ==> IsRef(rs, w)) && i < |WaitsOf(rs, locks, |locks|)|
    requires forall k :: 0 <= k < |locks| ==> AddsAtMostOne(rs, locks, k)
    ensures Tracked(rs, locks, WaitsOf(rs, locks, |locks|)[i])
  {
    hide WaitsOf, ValidModes, IsRef;
    var k := AddedBy(rs, locks, |locks|, i);
    assert AddsAtMostOne(rs, locks, k);
    WaitsPrefix(rs, locks, k + 1, |locks|);
    assert Tracks(rs, locks, k, WaitsOf(rs, locks, |locks|)[i]);
  }

  lemma {:induction false} ExtendByOne(xs: seq<Xid>, bs: seq<Xid>)
    requires NoDup(xs) && forall u, v :: u in bs && v in bs && u !in xs && v !in xs ==> u == v
    ensures |Extend(xs, bs)| <= |xs| + 1
  {
    if bs != [] {
      var front, u := bs[..|bs| - 1], bs[|bs| - 1];
      assert bs == front + [u] && u in bs;
      assert forall x :: x in front ==> x in bs;
      ExtendByOne(xs, front);
      var ys := Extend(xs, front);
      if |ys| == |xs| + 1 {
        var v := ys[|xs|];
        assert v in ys;
        NewAtEnd(xs, ys, u);
      }
    }
  }

  lemma NewAtEnd(xs: seq<Xid>, ys: seq<Xid>, u: Xid)
    requires xs <= ys && |ys| == |xs| + 1
    ensures u in ys <==> u in xs || u == ys[|xs|]
  {
    assert ys == xs + [ys[|xs|]];
  }

  /** The array grows by at most one exactly when at most one blocker is new. */
  lemma ExtendByOneIff(xs: seq<Xid>, bs: seq<Xid>)
    requires NoDup(xs)
    ensures |Extend(xs, bs)| <= |xs| + 1 <==> forall u, v :: u in bs && v in bs && u !in xs && v !in xs ==> u == v
  {
    var ys := Extend(xs, bs);
    if forall u, v :: u in bs && v in bs && u !in xs && v !in xs ==> u == v {
      ExtendByOne(xs, bs);
    } else {
      var u, v :| u in bs && v in bs && u !in xs && v !in xs && u != v;
      var i :| 0 <= i < |ys| && ys[i] == u;
      var j :| 0 <= j < |ys| && ys[j] == v;
      assert i >= |xs| && j >= |xs|;
    }
  }

  // ---------- the same, read off the lock table

  predicate Earlier(a: LkbRef, b: LkbRef) {
    a.rsb < b.rsb || (a.rsb == b.rsb && a.index < b.index)
  }

  predicate Ascending(refs: seq<LkbRef>) {
    forall i, j :: 0 <= i < j < |refs| ==> Earlier(refs[i], refs[j])
  }

  predicate Descending(refs: seq<LkbRef>) {
    forall i, j :: 0 <= i < j < |refs| ==> Earlier(refs[j], refs[i])
  }

  lemma AscendingConcat(a: seq<LkbRef>, b: seq<LkbRef>)
    requires Ascending(a) && Ascending(b) && forall x, y :: x in a && y in b ==> Earlier(x, y)
    ensures Ascending(a + b)
  {
    var all := a + b;
    forall i, j | 0 <= i < j < |all| ensures Earlier(all[i], all[j]) {
      if i < |a| && j >= |a| { assert all[i] in a && all[j] in b; }
    }
  }

  lemma {:induction false} RefsAscend(rs: Resources, n: nat)
    requires n <= |rs|
    ensures Ascending(Refs(rs, n))
  {
    if n > 0 {
      RefsAscend(rs, n - 1);
      AscendingConcat(Refs(rs, n - 1), RefsIn(n - 1, |rs[n - 1]|));
    }
  }

  /** `w` is the first lock of its transaction in the order of the table. */
  ghost predicate FirstLock(rs: Resources, w: LkbRef) {
    IsRef(rs, w) && forall v :: IsRef(rs, v) && Earlier(v, w) ==> XidAt(rs, v) != XidAt(rs, w)
  }

  lemma FirstLockAt(rs: Resources, w: LkbRef) returns (i: nat)
    requires FirstLock(rs, w)
    ensures var refs := Refs(rs, |rs|); FirstAt(rs, refs, XidAt(rs, w), i) && refs[i] == w
  {
    var refs := Refs(rs, |rs|);
    RefsAscend(rs, |rs|);
    i :| 0 <= i < |refs| && refs[i] == w;
    forall j | 0 <= j < i ensures XidAt(rs, refs[j]) != XidAt(rs, w) {
      assert refs[j] in refs && Earlier(refs[j], refs[i]);
    }
  }

  /** The transactions stand in the reverse order of their first locks, by resource
      and then by place on its list. */
  lemma NewestFirst(rs: Resources, a: nat, b: nat, v: LkbRef, w: LkbRef)
    requires FirstLock(rs, v) && FirstLock(rs, w)
    requires var list := TransOrder(rs, Refs(rs, |rs|)); a < b < |list| && list[a] == XidAt(rs, v) && list[b] == XidAt(rs, w)
    ensures Earlier(w, v)
  {
    hide TransOrder, Refs, FirstLock;
    var i := FirstLockAt(rs, v);
    var j := FirstLockAt(rs, w);
    OrderByFirst(rs, Refs(rs, |rs|), a, b, i, j);
    RefsAscend(rs, |rs|);
  }

  lemma DescendingCons(w: LkbRef, rest: seq<LkbRef>)
    requires Descending(rest) && forall x :: x in rest ==> Earlier(x, w)
    ensures Descending([w] + rest)
  {
    var all := [w] + rest;
    forall i, j | 0 <= i < j < |all| ensures Earlier(all[j], all[i]) {
      if i == 0 { assert all[j] in rest; }
    }
  }

  /** A transaction's locks are linked from the last in the table to the first. */
  lemma {:induction false} LocksDescend(rs: Resources, refs: seq<LkbRef>, t: Xid)
    requires (forall w :: w in refs ==> IsRef(rs, w)) && Ascending(refs)
    ensures Descending(LocksOf(rs, refs, t))
  {
    if refs != [] {
      var front, w := refs[..|refs| - 1], refs[|refs| - 1];
      LocksDescend(rs, front, t);
      var rest := LocksOf(rs, front, t);
      forall x | x in rest ensures Earlier(x, w) {
        var k :| 0 <= k < |front| && front[k] == x;
      }
      DescendingCons(w, rest);
      assert [] + rest == rest;
      assert LocksOf(rs, refs, t) == (if XidAt(rs, w) == t then [w] else []) + rest;
    }
  }

  /** A lock of `u` stands in the way of `w`. */
  ghost predicate BlockedBy(rs: Resources, w: LkbRef, u: Xid)
    requires ValidModes(rs) && IsRef(rs, w)
  {
    exists g :: IsRef(rs, g) && XidAt(rs, g) == u && WaitsOn(rs, w, g)
  }

  /** ... and of no lock of the same transaction further on in the table. */
  ghost predicate NewlyBlockedBy(rs: Resources, w: LkbRef, u: Xid)
    requires ValidModes(rs) && IsRef(rs, w)
  {
    && BlockedBy(rs, w, u)
    && forall o :: IsRef(rs, o) && XidAt(rs, o) == XidAt(rs, w) && Earlier(w, o) ==> !BlockedBy(rs, o, u)
  }

  lemma BlockedByIs(rs: Resources, w: LkbRef, u: Xid)
    requires ValidModes(rs) && IsRef(rs, w)
    ensures BlockedBy(rs, w, u) <==> IsWaiting(rs, w) && u in BlockersOf(rs, w)
  {
    hide BlockersOf;
    if IsWaiting(rs, w) { BlockersOfExact(rs, w, u); }
  }

  /** What the `k`th lock adds is what it is the first to be blocked by. */
  lemma NewlyBlockedIs(rs: Resources, t: Xid, locks: seq<LkbRef>, k: nat, u: Xid)
    requires ValidModes(rs) && locks == LocksOf(rs, Refs(rs, |rs|), t) && k < |locks|
    ensures IsRef(rs, locks[k]) && XidAt(rs, locks[k]) == t
    ensures NewlyBlockedBy(rs, locks[k], u) <==>
            IsWaiting(rs, locks[k]) && u in BlockersOf(rs, locks[k]) && u !in WaitsOf(rs, locks, k)
  {
    hide BlockersOf, WaitsOf, BlockedBy, ValidModes, IsWaiting;
    RefsAscend(rs, |rs|);
    LocksDescend(rs, Refs(rs, |rs|), t);
    var w := locks[k];
    assert w in locks;
    BlockedByIs(rs, w, u);
    WaitsOfMembers(rs, locks, k, u);
    if u in WaitsOf(rs, locks, k) {
      var m :| 0 <= m < k && IsWaiting(rs, locks[m]) && u in BlockersOf(rs, locks[m]);
      var o := locks[m];
      assert o in locks && Earlier(w, o);
      BlockedByIs(rs, o, u);
    } else {
      forall o | IsRef(rs, o) && XidAt(rs, o) == t && Earlier(w, o) ensures !BlockedBy(rs, o, u) {
        assert o in Refs(rs, |rs|) && o in locks;
        var m :| 0 <= m < |locks| && locks[m] == o;
        assert m < k;
        BlockedByIs(rs, o, u);
      }
    }
  }

  /** A lock adds at most one edge exactly when at most one transaction blocks it
      and none of its transaction's locks further on. */
  lemma AddsAtMostOneIff(rs: Resources, t: Xid, locks: seq<LkbRef>, k: nat)
    requires ValidModes(rs) && locks == LocksOf(rs, Refs(rs, |rs|), t) && k < |locks|
    ensures IsRef(rs, locks[k])
    ensures AddsAtMostOne(rs, locks, k) <==>
            forall x, y :: NewlyBlockedBy(rs, locks[k], x) && NewlyBlockedBy(rs, locks[k], y) ==> x == y
  {
    hide Extend, BlockersOf, NewlyBlockedBy, LocksOf, Refs;
    forall x ensures IsRef(rs, locks[k]) && (NewlyBlockedBy(rs, locks[k], x) <==>
      IsWaiting(rs, locks[k]) && x in BlockersOf(rs, locks[k]) && x !in WaitsOf(rs, locks, k))
    {
      NewlyBlockedIs(rs, t, locks, k, x);
    }
    NewlyBlockedIs(rs, t, locks, k, 0);
    if IsWaiting(rs, locks[k]) { ExtendByOneIff(WaitsOf(rs, locks, k), BlockersOf(rs, locks[k])); }
  }

  /** In particular when each waiting lock is blocked by at most one other
      transaction. */
  lemma OneBlockerTracked(rs: Resources, locks: seq<LkbRef>)
    requires ValidModes(rs) && forall w :: w in locks ==> IsRef(rs, w)
    requires forall w, u, v :: w in locks && IsWaiting(rs, w) && u in BlockersOf(rs, w) && v in BlockersOf(rs, w) ==> u == v
    ensures forall u :: u in WaitsOf(rs, locks, |locks|) ==> Tracked(rs, locks, u)
  {
    hide Extend;
    forall k | 0 <= k < |locks| ensures AddsAtMostOne(rs, locks, k) {
      assert locks[k] in locks;
      if IsWaiting(rs, locks[k]) { ExtendByOne(WaitsOf(rs, locks, k), BlockersOf(rs, locks[k])); }
    }
    AllTrackedIff(rs, locks);
  }

  // ---------- what the locks remember

  /** waitfor_trans after lock `w` has taken the array from `xs` to `ys`. */
  function Remember(blocker: map<LkbRef, Xid>, w: LkbRef, xs: seq<Xid>, ys: seq<Xid>): map<LkbRef, Xid> {
    if |xs| < |ys| then blocker[w := ys[|ys| - 1]] else blocker
  }

  function RememberAll(rs: Resources, blocker: map<LkbRef, Xid>, locks: seq<LkbRef>, n: nat): map<LkbRef, Xid>
    requires ValidModes(rs) && n <= |locks| && forall w :: w in locks ==> IsRef(rs, w)
  {
    if n == 0 then blocker
    else Remember(RememberAll(rs, blocker, locks, n - 1), locks[n - 1], WaitsOf(rs, locks, n - 1), WaitsOf(rs, locks, n))
  }

  /** Only the locks of this transaction are touched. */
  lemma {:induction false} RememberElsewhere(rs: Resources, blocker: map<LkbRef, Xid>, locks: seq<LkbRef>, n: nat, w: LkbRef)
    requires ValidModes(rs) && n <= |locks| && forall w :: w in locks ==> IsRef(rs, w)
    requires forall k :: 0 <= k < n ==> locks[k] != w
    ensures var after := RememberAll(rs, blocker, locks, n);
            (w in after <==> w in blocker) && (w in blocker ==> after[w] == blocker[w])
  {
    hide WaitsOf;
    if n > 0 { RememberElsewhere(rs, blocker, locks, n - 1, w); }
  }

  lemma {:induction false} RememberedTracks(rs: Resources, blocker: map<LkbRef, Xid>, locks: seq<LkbRef>, n: nat, k: nat, u: Xid)
    requires ValidModes(rs) && k < n <= |locks| && (forall w :: w in locks ==> IsRef(rs, w)) && locks[k] !in blocker
    requires DistinctRefs(locks)
    ensures var after := RememberAll(rs, blocker, locks, n);
            locks[k] in after && after[locks[k]] == u <==> Tracks(rs, locks, k, u)
  {
    hide WaitsOf;
    if k == n - 1 {
      RememberElsewhere(rs, blocker, locks, n - 1, locks[k]);
    } else {
      RememberedTracks(rs, blocker, locks, n - 1, k, u);
    }
  }

  /** The transactions that the waiting locks remember. */
  ghost function Remembered(rs: Resources, locks: seq<LkbRef>, blocker: map<LkbRef, Xid>): set<Xid>
    requires forall w :: w in locks ==> IsRef(rs, w)
  {
    set w | w in locks && w in blocker && IsWaiting(rs, w) :: blocker[w]
  }

  lemma TracksWaiting(rs: Resources, locks: seq<LkbRef>, k: nat, u: Xid)
    requires ValidModes(rs) && k < |locks| && (forall w :: w in locks ==> IsRef(rs, w)) && Tracks(rs, locks, k, u)
    ensures IsRef(rs, locks[k]) && IsWaiting(rs, locks[k]) && u in WaitsOf(rs, locks, k + 1)
  {
    assert locks[k] in locks;
  }

  /** What the waiting locks remember are the tracked edges. */
  lemma RememberedIsTracked(rs: Resources, blocker: map<LkbRef, Xid>, locks: seq<LkbRef>, u: Xid)
    requires ValidModes(rs) && (forall w :: w in locks ==> IsRef(rs, w)) && forall w :: w in locks ==> w !in blocker
    requires DistinctRefs(locks)
    ensures u in Remembered(rs, locks, RememberAll(rs, blocker, locks, |locks|)) <==> Tracked(rs, locks, u)
  {
    hide RememberAll, Tracks;
    var after := RememberAll(rs, blocker, locks, |locks|);
    if u in Remembered(rs, locks, after) {
      var w :| w in locks && w in after && IsWaiting(rs, w) && after[w] == u;
      var k :| 0 <= k < |locks| && locks[k] == w;
      RememberedTracks(rs, blocker, locks, |locks|, k, u);
    }
    if Tracked(rs, locks, u) {
      var k :| 0 <= k < |locks| && Tracks(rs, locks, k, u);
      var w := locks[k];
      assert w in locks;
      RememberedTracks(rs, blocker, locks, |locks|, k, u);
      TracksWaiting(rs, locks, k, u);
    }
  }
}
