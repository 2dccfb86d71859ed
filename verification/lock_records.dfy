/**
 Lock records that the nodes report for deadlock detection, and how the halves
 of a lock known to its master and to its holder are merged.
 */
module LockRecords {

  const LOCAL_COPY := 1
  const MASTER_COPY := 2
  const IFL_MSTCPY: bv32 := 0x00010000

  datatype PackLock = PackLock(xid: int, id: int, nodeid: int, remid: int, ownpid: int,
                               exflags: bv32, flags: bv32, status: int, grmode: int, rqmode: int, copy: int)

  datatype Lkb = Lkb(lock: PackLock, home: int)

  /** A record as read from node `from`. */
  datatype Record = Record(from: int, lock: PackLock)

  const NewLkb := Lkb(PackLock(0, 0, 0, 0, 0, 0, 0, 0, 0, 0, 0), 0)

  /** A lock held by a process here is turned into the partial master copy that
      will be combined with the master's own record. */
  function SetCopy(lock: PackLock, ourNode: int): PackLock {
    if lock.nodeid == 0 then lock.(copy := LOCAL_COPY)
    else if lock.flags & IFL_MSTCPY != 0 then lock.(copy := MASTER_COPY)
    else lock.(copy := MASTER_COPY, id := lock.remid, remid := lock.id, nodeid := ourNode)
  }

  predicate Partial(lock: PackLock) {
    lock.xid != 0
  }

  predicate SameLock(lkb: Lkb, lock: PackLock) {
    lkb.lock.nodeid == lock.nodeid && lkb.lock.id == lock.id
  }

  /** The index get_lkb finds, or the length of the list. */
  function FindLkb(locks: seq<Lkb>, lock: PackLock): (i: nat)
    ensures i <= |locks| && (i < |locks| ==> SameLock(locks[i], lock))
    ensures forall j :: 0 <= j < i ==> !SameLock(locks[j], lock)
  {
    if locks == [] || SameLock(locks[0], lock) then 0 else 1 + FindLkb(locks[1..], lock)
  }

  /** What add_lock writes into the lkb it found or created. */
  function Fill(lkb: Lkb, r: Record): Lkb {
    var lock := r.lock;
    if lock.copy == LOCAL_COPY then Lkb(lock, r.from)
    else if lock.copy == MASTER_COPY then
      if Partial(lock) then
        Lkb(lkb.lock.(xid := lock.xid, nodeid := lock.nodeid, id := lock.id, remid := lock.remid, copy := MASTER_COPY), lock.nodeid)
      else
        Lkb(lock.(xid := lkb.lock.xid, copy := MASTER_COPY), lock.nodeid)
    else lkb
  }

  function AddRecord(locks: seq<Lkb>, r: Record): seq<Lkb> {
    var i := FindLkb(locks, r.lock);
    if r.lock.copy == MASTER_COPY && i < |locks| then locks[i := Fill(locks[i], r)]
    else [Fill(NewLkb, r)] + locks
  }

  function AddAll(rs: seq<Record>): seq<Lkb>
    decreases |rs|
  {
    if rs == [] then [] else AddRecord(AddAll(rs[..|rs| - 1]), rs[|rs| - 1])
  }

  // ---------- what the records promise

  /** A local copy has node id 0, a master copy names the holder's node. */
  predicate ValidRecord(r: Record) {
    || (r.lock.copy == LOCAL_COPY && r.lock.nodeid == 0)
    || (r.lock.copy == MASTER_COPY && r.lock.nodeid != 0)
  }

  predicate SameMaster(a: PackLock, b: PackLock) {
    a.copy == b.copy == MASTER_COPY && a.nodeid == b.nodeid && a.id == b.id
  }

  /** Of each master lock there is at most one real and one partial record. */
  ghost predicate AtMostTwoHalves(rs: seq<Record>) {
    && (forall i :: 0 <= i < |rs| ==> ValidRecord(rs[i]))
    && (forall i, j :: 0 <= i < j < |rs| && SameMaster(rs[i].lock, rs[j].lock) ==> Partial(rs[i].lock) != Partial(rs[j].lock))
  }

  /** The two halves of a lock agree on the remote id. */
  ghost predicate HalvesAgree(rs: seq<Record>) {
    forall i, j :: 0 <= i < j < |rs| && SameMaster(rs[i].lock, rs[j].lock) ==> rs[i].lock.remid == rs[j].lock.remid
  }

  /** What the holder and the master report of one lock become two records of the
      same master lock that agree on the remote id, whatever else they hold. */
  lemma HalvesMeet(mine: PackLock, holder: int, masters: PackLock, master: int)
    requires holder != 0 && mine.nodeid == master != 0 && mine.flags & IFL_MSTCPY == 0
    requires masters.nodeid == holder && masters.flags & IFL_MSTCPY != 0
    requires masters.id == mine.remid && masters.remid == mine.id
    ensures var a, b := SetCopy(mine, holder), SetCopy(masters, master);
            SameMaster(a, b) && a.remid == b.remid && ValidRecord(Record(holder, a)) && ValidRecord(Record(master, b))
  {
  }

  /** Whatever a node reports becomes a valid record, a local one exactly for a lock
      that is mastered where it is held, with all that detection looks at. */
  lemma ReportsValid(lock: PackLock, ourNode: int)
    requires ourNode != 0
    ensures var r := SetCopy(lock, ourNode);
            && ValidRecord(Record(ourNode, r)) && (r.copy == LOCAL_COPY <==> lock.nodeid == 0)
            && r.xid == lock.xid && r.status == lock.status && r.grmode == lock.grmode && r.rqmode == lock.rqmode
            && {r.id, r.remid} == {lock.id, lock.remid}
  {
  }

  predicate ForMaster(r: Record, x: Lkb) {
    r.lock.copy == MASTER_COPY && SameLock(x, r.lock)
  }

  ghost predicate HasPartial(rs: seq<Record>, x: Lkb) {
    exists r :: r in rs && ForMaster(r, x) && Partial(r.lock)
  }

  ghost predicate HasReal(rs: seq<Record>, x: Lkb) {
    exists r :: r in rs && ForMaster(r, x) && !Partial(r.lock)
  }

  /** `x` is what the halves in `rs` add up to: the transaction from the partial
      record, everything else from the real one, zero where a half is missing. */
  ghost predicate IsMerged(rs: seq<Record>, x: Lkb) {
    && x.lock.copy == MASTER_COPY && x.home == x.lock.nodeid && (HasPartial(rs, x) || HasReal(rs, x))
    && (forall r :: r in rs && ForMaster(r, x) ==>
          && x.lock.remid == r.lock.remid
          && (Partial(r.lock) ==> x.lock.xid == r.lock.xid)
          && (!Partial(r.lock) ==> x.lock == r.lock.(xid := x.lock.xid)))
    && (!HasPartial(rs, x) ==> x.lock.xid == 0)
    && (!HasReal(rs, x) ==> x.lock == NewLkb.lock.(xid := x.lock.xid, nodeid := x.lock.nodeid, id := x.lock.id,
                                                   remid := x.lock.remid, copy := MASTER_COPY))
  }

  /** The merged lock is determined by the records alone. */
  lemma MergedUnique(rs: seq<Record>, x: Lkb, y: Lkb)
    requires IsMerged(rs, x) && IsMerged(rs, y) && x.lock.nodeid == y.lock.nodeid && x.lock.id == y.lock.id
    ensures x == y
  {
    assert forall r :: r in rs ==> (ForMaster(r, x) <==> ForMaster(r, y));
    assert HasPartial(rs, x) == HasPartial(rs, y) && HasReal(rs, x) == HasReal(rs, y);
    var r :| r in rs && ForMaster(r, x);
    assert x.lock.remid == y.lock.remid;
    if HasPartial(rs, x) {
      var p :| p in rs && ForMaster(p, x) && Partial(p.lock);
      assert x.lock.xid == y.lock.xid;
    }
    if HasReal(rs, x) {
      var q :| q in rs && ForMaster(q, x) && !Partial(q.lock);
      assert x.lock == q.lock.(xid := x.lock.xid) && y.lock == q.lock.(xid := y.lock.xid);
    }
  }

  ghost predicate EntryOk(x: Lkb, rs: seq<Record>) {
    if x.lock.copy == LOCAL_COPY then x.lock.nodeid == 0 else x.lock.nodeid != 0 && IsMerged(rs, x)
  }

  ghost predicate MastersDistinct(locks: seq<Lkb>) {
    forall i, j :: 0 <= i < j < |locks| && locks[i].lock.copy != LOCAL_COPY && locks[j].lock.copy != LOCAL_COPY
      ==> !SameLock(locks[i], locks[j].lock)
  }

  ghost predicate LocalsCounted(locks: seq<Lkb>, rs: seq<Record>) {
    forall x: Lkb :: x.lock.copy == LOCAL_COPY ==> multiset(locks)[x] == multiset(rs)[Record(x.home, x.lock)]
  }

  /** The list after merging `rs`: each master lock once and fully merged, each
      local lock as often as it was reported. */
  ghost predicate Represents(locks: seq<Lkb>, rs: seq<Record>) {
    && (forall i :: 0 <= i < |locks| ==> EntryOk(locks[i], rs))
    && MastersDistinct(locks) && LocalsCounted(locks, rs)
    && (forall r :: r in rs && r.lock.copy == MASTER_COPY ==> FindLkb(locks, r.lock) < |locks|)
  }

  /** A record of another lock changes nothing for `x`. */
  lemma MergedOther(rs: seq<Record>, r: Record, x: Lkb)
    requires !ForMaster(r, x)
    ensures IsMerged(rs + [r], x) <==> IsMerged(rs, x)
  {
    assert forall q :: q in rs + [r] && ForMaster(q, x) <==> q in rs && ForMaster(q, x);
    assert HasPartial(rs + [r], x) == HasPartial(rs, x) && HasReal(rs + [r], x) == HasReal(rs, x);
  }

  /** The first half of a lock. */
  lemma MergedFirst(rs: seq<Record>, r: Record)
    requires r.lock.copy == MASTER_COPY && forall q :: q in rs ==> !SameMaster(q.lock, r.lock)
    ensures IsMerged(rs + [r], Fill(NewLkb, r))
  {
    var x := Fill(NewLkb, r);
    assert ForMaster(r, x) && r in rs + [r];
    assert forall q :: q in rs + [r] && ForMaster(q, x) ==> q == r;
  }

  /** The second half of a lock. */
  lemma MergedSecond(rs: seq<Record>, r: Record, x: Lkb)
    requires AtMostTwoHalves(rs + [r]) && HalvesAgree(rs + [r]) && IsMerged(rs, x) && ForMaster(r, x)
    ensures IsMerged(rs + [r], Fill(x, r))
  {
    var y, all := Fill(x, r), rs + [r];
    assert all[|rs|] == r && r in all;
    var p :| p in rs && ForMaster(p, x);
    var k :| 0 <= k < |rs| && rs[k] == p;
    assert SameMaster(all[k].lock, all[|rs|].lock);
    forall q | q in rs && ForMaster(q, x) ensures Partial(q.lock) != Partial(r.lock) && q.lock.remid == r.lock.remid {
      var j :| 0 <= j < |rs| && rs[j] == q;
      assert SameMaster(all[j].lock, all[|rs|].lock);
    }
    assert forall q :: q in all && ForMaster(q, y) ==> q == r || (q in rs && ForMaster(q, x));
    assert p in all && ForMaster(p, y);
    assert HasPartial(all, y) && HasReal(all, y);
  }

  lemma PrefixHalves(rs: seq<Record>, r: Record)
    requires AtMostTwoHalves(rs + [r]) && HalvesAgree(rs + [r])
    ensures AtMostTwoHalves(rs) && HalvesAgree(rs) && ValidRecord(r)
  {
    var all := rs + [r];
    assert forall i :: 0 <= i < |rs| ==> all[i] == rs[i];
    assert all[|rs|] == r;
  }

  // ---------- adding one record

  lemma FindSame(locks: seq<Lkb>, a: PackLock, b: PackLock)
    requires a.nodeid == b.nodeid && a.id == b.id
    ensures FindLkb(locks, a) == FindLkb(locks, b)
  {
  }

  lemma FoundAfterCons(x: Lkb, locks: seq<Lkb>, lock: PackLock)
    requires FindLkb(locks, lock) < |locks| || SameLock(x, lock)
    ensures FindLkb([x] + locks, lock) < |locks| + 1
  {
    if FindLkb(locks, lock) < |locks| {
      assert SameLock(([x] + locks)[FindLkb(locks, lock) + 1], lock);
    } else {
      assert SameLock(([x] + locks)[0], lock);
    }
  }

  lemma CountCons(x: Lkb, locks: seq<Lkb>, rs: seq<Record>, r: Record)
    requires LocalsCounted(locks, rs)
    requires if r.lock.copy == LOCAL_COPY then x == Lkb(r.lock, r.from) else x.lock.copy != LOCAL_COPY
    ensures LocalsCounted([x] + locks, rs + [r])
  {
  }

  lemma CountUpdate(locks: seq<Lkb>, i: nat, x: Lkb, rs: seq<Record>, r: Record)
    requires LocalsCounted(locks, rs)
    requires i < |locks| && x.lock.copy != LOCAL_COPY && locks[i].lock.copy != LOCAL_COPY && r.lock.copy != LOCAL_COPY
    ensures LocalsCounted(locks[i := x], rs + [r])
  {
    assert multiset(locks[i := x]) == multiset(locks) - multiset{locks[i]} + multiset{x};
  }

  /** A new entry at the head of the list. */
  lemma {:induction false} AddEntry(x: Lkb, locks: seq<Lkb>, rs: seq<Record>, r: Record)
    requires Represents(locks, rs) && EntryOk(x, rs + [r]) && LocalsCounted([x] + locks, rs + [r])
    requires forall i :: 0 <= i < |locks| && locks[i].lock.copy != LOCAL_COPY ==> !ForMaster(r, locks[i])
    requires x.lock.copy != LOCAL_COPY ==> forall i :: 0 <= i < |locks| ==> !SameLock(x, locks[i].lock)
    requires r.lock.copy == MASTER_COPY ==> SameLock(x, r.lock)
    ensures Represents([x] + locks, rs + [r])
  {
    hide LocalsCounted, IsMerged;
    var all := [x] + locks;
    forall i | 0 <= i < |all| ensures EntryOk(all[i], rs + [r]) {
      if i > 0 && all[i].lock.copy != LOCAL_COPY { MergedOther(rs, r, locks[i - 1]); }
    }
    forall q | q in rs + [r] && q.lock.copy == MASTER_COPY ensures FindLkb(all, q.lock) < |all| {
      FoundAfterCons(x, locks, q.lock);
    }
  }

  lemma {:induction false} AddFirstHalf(locks: seq<Lkb>, rs: seq<Record>, r: Record)
    requires Represents(locks, rs) && r.lock.copy == MASTER_COPY && r.lock.nodeid != 0
    requires FindLkb(locks, r.lock) == |locks|
    ensures Represents([Fill(NewLkb, r)] + locks, rs + [r])
  {
    hide IsMerged, LocalsCounted;
    var x := Fill(NewLkb, r);
    forall q | q in rs ensures !SameMaster(q.lock, r.lock) {
      if SameMaster(q.lock, r.lock) { FindSame(locks, q.lock, r.lock); }
    }
    MergedFirst(rs, r);
    CountCons(x, locks, rs, r);
    AddEntry(x, locks, rs, r);
  }

  lemma {:induction false} AddSecondHalf(locks: seq<Lkb>, rs: seq<Record>, r: Record, i: nat)
    requires Represents(locks, rs) && AtMostTwoHalves(rs + [r]) && HalvesAgree(rs + [r])
    requires r.lock.copy == MASTER_COPY && r.lock.nodeid != 0
    requires i == FindLkb(locks, r.lock) < |locks|
    ensures Represents(locks[i := Fill(locks[i], r)], rs + [r])
  {
    hide IsMerged, LocalsCounted, AtMostTwoHalves, HalvesAgree;
    var x := Fill(locks[i], r);
    var all := locks[i := x];
    assert EntryOk(locks[i], rs);
    MergedSecond(rs, r, locks[i]);
    forall j | 0 <= j < |all| ensures EntryOk(all[j], rs + [r]) {
      assert EntryOk(locks[j], rs);
      if j != i && all[j].lock.copy != LOCAL_COPY { MergedOther(rs, r, all[j]); }
    }
    forall q | q in rs + [r] && q.lock.copy == MASTER_COPY ensures FindLkb(all, q.lock) < |all| {
      var k := if q == r then i else FindLkb(locks, q.lock);
      assert SameLock(all[k], q.lock);
    }
    CountUpdate(locks, i, x, rs, r);
  }

  /** Merging keeps the list exact, record by record. */
  lemma {:induction false} AddAllRepresents(rs: seq<Record>)
    requires AtMostTwoHalves(rs) && HalvesAgree(rs)
    ensures Represents(AddAll(rs), rs)
    decreases |rs|
  {
    if rs == [] { return; }
    var before, r := rs[..|rs| - 1], rs[|rs| - 1];
    assert rs == before + [r];
    PrefixHalves(before, r);
    AddAllRepresents(before);
    var locks := AddAll(before);
    if r.lock.copy == LOCAL_COPY {
      CountCons(Lkb(r.lock, r.from), locks, before, r);
      AddEntry(Lkb(r.lock, r.from), locks, before, r);
    } else if FindLkb(locks, r.lock) < |locks| {
      AddSecondHalf(locks, before, r, FindLkb(locks, r.lock));
    } else {
      AddFirstHalf(locks, before, r);
    }
  }

  // ---------- the order does not matter

  lemma MergedPermutation(a: seq<Record>, b: seq<Record>, x: Lkb)
    requires multiset(a) == multiset(b) && IsMerged(a, x)
    ensures IsMerged(b, x)
  {
    forall r ensures r in a <==> r in b { assert r in multiset(a) <==> r in multiset(b); }
    assert HasPartial(a, x) == HasPartial(b, x) && HasReal(a, x) == HasReal(b, x);
  }

  lemma {:induction false} Occurrence<T>(s: seq<T>, x: T)
    requires forall i, j :: 0 <= i < j < |s| ==> !(s[i] == x && s[j] == x)
    ensures multiset(s)[x] == if x in s then 1 else 0
  {
    if s != [] {
      assert s == [s[0]] + s[1..];
      Occurrence(s[1..], x);
      assert forall j :: 0 <= j < |s[1..]| ==> s[1..][j] == s[j + 1];
    }
  }

  lemma TwiceCounted<T>(s: seq<T>, i: nat, j: nat)
    requires i < j < |s| && s[i] == s[j]
    ensures multiset(s)[s[i]] >= 2
  {
    assert s == s[..j] + [s[j]] + s[j + 1..];
    assert s[..j][i] == s[i];
  }

  /** The promise is about the records, not about their order. */
  lemma HalvesPermutation(a: seq<Record>, b: seq<Record>)
    requires multiset(a) == multiset(b) && AtMostTwoHalves(a) && HalvesAgree(a)
    ensures AtMostTwoHalves(b) && HalvesAgree(b)
  {
    forall i | 0 <= i < |b| ensures b[i] in a {
      assert b[i] in multiset(b);
    }
    forall i, j | 0 <= i < j < |b| && SameMaster(b[i].lock, b[j].lock)
      ensures Partial(b[i].lock) != Partial(b[j].lock) && b[i].lock.remid == b[j].lock.remid
    {
      if b[i] == b[j] {
        TwiceCounted(b, i, j);
        Occurrence(a, b[i]);
        assert false;
      }
      var k :| 0 <= k < |a| && a[k] == b[i];
      var m :| 0 <= m < |a| && a[m] == b[j];
    }
  }

  lemma MasterOnce(locks: seq<Lkb>, rs: seq<Record>, x: Lkb)
    requires Represents(locks, rs) && x.lock.copy != LOCAL_COPY
    ensures multiset(locks)[x] == if x.lock.nodeid != 0 && IsMerged(rs, x) then 1 else 0
  {
    Occurrence(locks, x);
    if x in locks {
      var i :| 0 <= i < |locks| && locks[i] == x;
      assert EntryOk(locks[i], rs);
    } else if x.lock.nodeid != 0 && IsMerged(rs, x) {
      var r :| r in rs && ForMaster(r, x);
      var k := FindLkb(locks, r.lock);
      assert EntryOk(locks[k], rs);
      MergedUnique(rs, locks[k], x);
    }
  }

  lemma AgreeingOrderIndependent(a: seq<Record>, b: seq<Record>)
    requires multiset(a) == multiset(b) && AtMostTwoHalves(a) && HalvesAgree(a)
    ensures multiset(AddAll(a)) == multiset(AddAll(b))
  {
    HalvesPermutation(a, b);
    AddAllRepresents(a);
    AddAllRepresents(b);
    forall x: Lkb ensures multiset(AddAll(a))[x] == multiset(AddAll(b))[x] {
      if x.lock.copy != LOCAL_COPY {
        MasterOnce(AddAll(a), a, x);
        MasterOnce(AddAll(b), b, x);
        if IsMerged(a, x) { MergedPermutation(a, b, x); }
        if IsMerged(b, x) { MergedPermutation(b, a, x); }
      }
    }
  }

  // ---------- ... exactly when the halves agree

  ghost predicate AllValid(rs: seq<Record>) {
    forall i :: 0 <= i < |rs| ==> ValidRecord(rs[i])
  }

  /** Whatever the halves say, a master lock is on the list once. */
  ghost predicate KeysApart(locks: seq<Lkb>) {
    forall i, j :: 0 <= i < j < |locks| && locks[i].lock.nodeid != 0 ==> !SameLock(locks[i], locks[j].lock)
  }

  lemma {:induction false} AddAllApart(rs: seq<Record>)
    requires AllValid(rs)
    ensures KeysApart(AddAll(rs))
    decreases |rs|
  {
    if rs != [] {
      var front, r := rs[..|rs| - 1], rs[|rs| - 1];
      AddAllApart(front);
      AddApart(AddAll(front), r);
    }
  }

  lemma AddApart(locks: seq<Lkb>, r: Record)
    requires KeysApart(locks) && ValidRecord(r)
    ensures KeysApart(AddRecord(locks, r))
  {
    hide FindLkb;
    var i := FindLkb(locks, r.lock);
    var after := AddRecord(locks, r);
    if r.lock.copy == MASTER_COPY && i < |locks| {
      assert forall k :: 0 <= k < |locks| ==> SameLock(locks[k], after[k].lock);
    } else {
      assert forall k :: 0 < k < |after| ==> after[k] == locks[k - 1];
    }
  }

  /** The record added last decides the remote id. */
  lemma LastRemid(rs: seq<Record>, r: Record, x: Lkb)
    requires AllValid(rs) && ValidRecord(r) && r.lock.copy == MASTER_COPY && x in AddAll(rs + [r]) && SameLock(x, r.lock)
    ensures x.lock.remid == r.lock.remid
  {
    var all := rs + [r];
    assert all[..|rs|] == rs;
    assert AllValid(all) by { assert forall i :: 0 <= i < |all| ==> all[i] == if i < |rs| then rs[i] else r; }
    AddAllApart(all);
    var locks, after := AddAll(rs), AddAll(all);
    var i := FindLkb(locks, r.lock);
    var k := if i < |locks| then i else 0;
    assert SameLock(after[k], r.lock) && after[k].lock.remid == r.lock.remid;
    var j :| 0 <= j < |after| && after[j] == x;
  }

  lemma LastIsThere(rs: seq<Record>, r: Record) returns (x: Lkb)
    requires r.lock.copy == MASTER_COPY
    ensures x in AddAll(rs + [r]) && SameLock(x, r.lock) && x.lock.remid == r.lock.remid
  {
    var all := rs + [r];
    assert all[..|rs|] == rs;
    var i := FindLkb(AddAll(rs), r.lock);
    x := AddAll(all)[if i < |AddAll(rs)| then i else 0];
  }

  /** Two records brought to the end, in either order. */
  lemma ToTheEnd(rs: seq<Record>, i: nat, j: nat) returns (rest: seq<Record>)
    requires i < j < |rs|
    ensures multiset(rest + [rs[i]] + [rs[j]]) == multiset(rs) == multiset(rest + [rs[j]] + [rs[i]])
    ensures forall r :: r in rest ==> r in rs
  {
    rest := rs[..i] + rs[i + 1..j] + rs[j + 1..];
    assert rs == rs[..i] + [rs[i]] + rs[i + 1..j] + [rs[j]] + rs[j + 1..];
  }

  /** With at most one real and one partial record of each master lock, every order
      of the records gives the same merged locks, each as often, if and only if the
      two halves of each lock agree on the remote id. */
  lemma MergeOrderIndependent(a: seq<Record>)
    requires AtMostTwoHalves(a)
    ensures HalvesAgree(a) <==> forall b :: multiset(b) == multiset(a) ==> multiset(AddAll(b)) == multiset(AddAll(a))
  {
    if HalvesAgree(a) {
      forall b | multiset(b) == multiset(a) ensures multiset(AddAll(b)) == multiset(AddAll(a)) {
        AgreeingOrderIndependent(a, b);
      }
    } else {
      var i, j :| 0 <= i < j < |a| && SameMaster(a[i].lock, a[j].lock) && a[i].lock.remid != a[j].lock.remid;
      OrderShows(a, i, j);
    }
  }

  lemma OrderShows(a: seq<Record>, i: nat, j: nat)
    requires AllValid(a) && i < j < |a| && SameMaster(a[i].lock, a[j].lock) && a[i].lock.remid != a[j].lock.remid
    ensures exists b :: multiset(b) == multiset(a) && multiset(AddAll(b)) != multiset(AddAll(a))
  {
    hide AddAll;
    var p, q := a[i], a[j];
    var rest := ToTheEnd(a, i, j);
    var b, c := rest + [p] + [q], rest + [q] + [p];
    forall k | 0 <= k < |rest| ensures ValidRecord(rest[k]) {
      assert rest[k] in rest;
    }
    assert AllValid(rest + [p]) && AllValid(rest + [q]);
    var x := LastIsThere(rest + [p], q);
    if multiset(AddAll(b)) == multiset(AddAll(c)) {
      assert x in multiset(AddAll(c));
      LastRemid(rest + [q], p, x);
    }
    assert multiset(AddAll(b)) != multiset(AddAll(a)) || multiset(AddAll(c)) != multiset(AddAll(a));
  }

  /** Every master lock is complete as soon as both halves have arrived. */
  lemma MergedComplete(rs: seq<Record>, i: nat, j: nat)
    requires AtMostTwoHalves(rs) && HalvesAgree(rs) && i < |rs| && j < |rs| && SameMaster(rs[i].lock, rs[j].lock)
    requires Partial(rs[i].lock) && !Partial(rs[j].lock)
    ensures Lkb(rs[j].lock.(xid := rs[i].lock.xid), rs[j].lock.nodeid) in AddAll(rs)
  {
    AddAllRepresents(rs);
    var locks := AddAll(rs);
    var k := FindLkb(locks, rs[j].lock);
    assert rs[j] in rs && rs[i] in rs;
    assert EntryOk(locks[k], rs) && ForMaster(rs[j], locks[k]) && ForMaster(rs[i], locks[k]);
    assert locks[k] == Lkb(rs[j].lock.(xid := rs[i].lock.xid), rs[j].lock.nodeid);
  }
}
