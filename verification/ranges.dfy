/**
 The byte-range engine of the cluster POSIX locks: the list of granted ranges of
 one resource, and the two operations that edit it.  The specification is the
 per-byte map `ModeAt`, from an owner and an offset to the mode held there.
 */
module Ranges {

  datatype Option<+T> = None | Some(value: T)

  /** File offsets are 64-bit; the subset type makes every `start - 1` and
      `end + 1` below an obligation not to wrap around. */
  type Offset = x: int | 0 <= x < 0x1_0000_0000_0000_0000

  /** The owner of a lock: the cluster node and the lock owner inside it. */
  datatype Key = Key(nodeid: int, owner: Offset)

  /** The part of a plock operation that the lock table looks at. */
  datatype Request = Request(key: Key, pid: int, ex: bool, start: Offset, end: Offset)

  datatype PosixLock = PosixLock(key: Key, pid: int, ex: bool, start: Offset, end: Offset, syncing: bool)

  predicate ValidRequest(req: Request) {
    req.start <= req.end
  }

  predicate RangesOverlap(start1: int, end1: int, start2: int, end2: int) {
    !(end1 < start2 || start1 > end2)
  }

  /** How a new range (s1, e1) meets an existing range (s2, e2). */
  function OverlapType(s1: int, e1: int, s2: int, e2: int): (t: int)
  {
    if s1 == s2 && e1 == e2 then 0
    else if s1 == s2 && e1 < e2 then 1
    else if s1 > s2 && e1 == e2 then 1
    else if s1 > s2 && e1 < e2 then 2
    else if s1 <= s2 && e1 >= e2 then 3
    else if s1 > s2 && e1 > e2 then 4
    else if s1 < s2 && e1 < e2 then 4
    else -1
  }

  /** The five types partition all pairs of ranges by inclusion, so the default
      branch is dead. */
  lemma OverlapTypeMeaning(s1: int, e1: int, s2: int, e2: int)
    requires s1 <= e1 && s2 <= e2 && RangesOverlap(s1, e1, s2, e2)
    ensures 0 <= OverlapType(s1, e1, s2, e2) <= 4
    ensures OverlapType(s1, e1, s2, e2) <= 2 <==> s2 <= s1 && e1 <= e2
    ensures OverlapType(s1, e1, s2, e2) in {0, 3} <==> s1 <= s2 && e2 <= e1
    ensures OverlapType(s1, e1, s2, e2) == 2 <==> s2 < s1 && e1 < e2
  {
  }

  /** The part of range 2 that partial overlap with (start, end) leaves. */
  function ShrinkRange(start2: Offset, end2: Offset, start: Offset, end: Offset): (r: Option<(Offset, Offset)>)
  {
    if start2 < start then Some((start2, start - 1))
    else if end2 > end then Some((end + 1, end2))
    else None
  }

  predicate Covers(po: PosixLock, key: Key, b: int) {
    po.key == key && po.start <= b <= po.end
  }

  predicate InRequest(req: Request, key: Key, b: int) {
    req.key == key && req.start <= b <= req.end
  }

  predicate Overlaps(po: PosixLock, req: Request) {
    RangesOverlap(po.start, po.end, req.start, req.end)
  }

  /** The mode an owner holds at a byte: nothing, read or exclusive. */
  function ModeAt(locks: seq<PosixLock>, key: Key, b: int): Option<bool> {
    if locks == [] then None
    else if Covers(locks[0], key, b) then Some(locks[0].ex)
    else ModeAt(locks[1..], key, b)
  }

  /** Every range is non-empty and the ranges of one owner are disjoint. */
  ghost predicate WellFormed(locks: seq<PosixLock>) {
    && (forall i :: 0 <= i < |locks| ==> locks[i].start <= locks[i].end)
    && (forall i, j :: 0 <= i < j < |locks| && locks[i].key == locks[j].key ==>
          !RangesOverlap(locks[i].start, locks[i].end, locks[j].start, locks[j].end))
  }

  function NewLock(req: Request): PosixLock {
    PosixLock(req.key, req.pid, req.ex, req.start, req.end, false)
  }

  /** A fragment of an existing lock that keeps its mode `ex`. */
  function Fragment(req: Request, ex: bool, start: Offset, end: Offset): PosixLock {
    PosixLock(req.key, req.pid, ex, start, end, false)
  }

  /** RN starts or ends on a boundary of RE: RE becomes RN and a fragment is added. */
  function LockCase1(po: PosixLock, rest: seq<PosixLock>, req: Request): seq<PosixLock> {
    match ShrinkRange(po.start, po.end, req.start, req.end)
    case None => [po] + rest
    case Some((start2, end2)) =>
      [po.(start := req.start, end := req.end, ex := req.ex)] + rest + [Fragment(req, !req.ex, start2, end2)]
  }

  /** RE overlaps RN on both sides: RE becomes RN and two fragments are added. */
  function LockCase2(po: PosixLock, rest: seq<PosixLock>, req: Request): seq<PosixLock>
    requires po.start < req.start && req.end < po.end
  {
    [po.(start := req.start, end := req.end, ex := req.ex)] + rest
    + [Fragment(req, !req.ex, po.start, req.start - 1), Fragment(req, !req.ex, req.end + 1, po.end)]
  }

  /** What granting `req` makes of the list, exactly as the loop edits it. */
  function LockRange(locks: seq<PosixLock>, req: Request): seq<PosixLock>
    decreases |locks|
  {
    if locks == [] then [NewLock(req)]
    else
      var po, rest := locks[0], locks[1..];
      if po.key != req.key || !Overlaps(po, req) then [po] + LockRange(rest, req)
      else match OverlapType(req.start, req.end, po.start, po.end)
        case 0 => [po.(ex := req.ex)] + rest
        case 1 => if po.ex == req.ex then locks else LockCase1(po, rest, req)
        case 2 => if po.ex == req.ex then locks else LockCase2(po, rest, req)
        case 3 => LockRange(rest, req)
        case 4 =>
          var kept := if po.start < req.start then po.(end := req.start - 1) else po.(start := req.end + 1);
          [kept] + LockRange(rest, req)
        case _ => locks
  }

  function Shrunk(po: PosixLock, req: Request): PosixLock {
    match ShrinkRange(po.start, po.end, req.start, req.end)
    case None => po
    case Some((s, e)) => po.(start := s, end := e)
  }

  /** Clearing the middle of a range leaves a front and a back fragment. */
  function Middle(po: PosixLock, rest: seq<PosixLock>, req: Request): seq<PosixLock>
    requires po.start < req.start && req.end < po.end
  {
    [po.(end := req.start - 1)] + rest + [Fragment(req, po.ex, req.end + 1, po.end)]
  }

  /** What clearing the bytes of `req` makes of the list. */
  function UnlockRange(locks: seq<PosixLock>, req: Request): seq<PosixLock>
    decreases |locks|
  {
    if locks == [] then []
    else
      var po, rest := locks[0], locks[1..];
      if po.key != req.key || !Overlaps(po, req) then [po] + UnlockRange(rest, req)
      else match OverlapType(req.start, req.end, po.start, po.end)
        case 0 => rest
        case 1 => [Shrunk(po, req)] + rest
        case 2 => Middle(po, rest, req)
        case 3 => UnlockRange(rest, req)
        case 4 => [Shrunk(po, req)] + UnlockRange(rest, req)
        case _ => locks
  }

  // ---------- the per-byte map of a list

  lemma {:induction false} ModeAtCovered(locks: seq<PosixLock>, i: nat, key: Key, b: int)
    requires i < |locks| && Covers(locks[i], key, b)
    ensures ModeAt(locks, key, b).Some?
  {
    if i > 0 && !Covers(locks[0], key, b) {
      ModeAtCovered(locks[1..], i - 1, key, b);
    }
  }

  /** A held byte has a witness in the list. */
  lemma {:induction false} ModeAtWitness(locks: seq<PosixLock>, key: Key, b: int) returns (i: nat)
    requires ModeAt(locks, key, b).Some?
    ensures i < |locks| && Covers(locks[i], key, b) && ModeAt(locks, key, b) == Some(locks[i].ex)
  {
    if Covers(locks[0], key, b) {
      i := 0;
    } else {
      i := ModeAtWitness(locks[1..], key, b);
      i := i + 1;
    }
  }

  lemma {:induction false} ModeAtNone(locks: seq<PosixLock>, key: Key, b: int)
    requires forall i :: 0 <= i < |locks| ==> !Covers(locks[i], key, b)
    ensures ModeAt(locks, key, b) == None
  {
    if ModeAt(locks, key, b).Some? {
      var i := ModeAtWitness(locks, key, b);
    }
  }

  lemma {:induction false} ModeAtConcat(a: seq<PosixLock>, c: seq<PosixLock>, key: Key, b: int)
    ensures ModeAt(a + c, key, b) == if ModeAt(a, key, b).Some? then ModeAt(a, key, b) else ModeAt(c, key, b)
  {
    if a == [] {
      assert a + c == c;
    } else {
      assert (a + c)[1..] == a[1..] + c;
      ModeAtConcat(a[1..], c, key, b);
    }
  }

  /** In a well-formed list every index covering a byte gives its mode. */
  lemma ModeAtUnique(locks: seq<PosixLock>, i: nat, key: Key, b: int)
    requires WellFormed(locks)
    requires i < |locks| && Covers(locks[i], key, b)
    ensures ModeAt(locks, key, b) == Some(locks[i].ex)
  {
    ModeAtCovered(locks, i, key, b);
    var j := ModeAtWitness(locks, key, b);
  }

  lemma ModeAtCons(po: PosixLock, rest: seq<PosixLock>, key: Key, b: int)
    ensures ModeAt([po] + rest, key, b) == if Covers(po, key, b) then Some(po.ex) else ModeAt(rest, key, b)
  {
    assert ([po] + rest)[1..] == rest;
  }

  /** Taking the first range off a well-formed list: the rest holds none of its bytes. */
  lemma WellFormedTail(po: PosixLock, rest: seq<PosixLock>)
    requires WellFormed([po] + rest)
    ensures WellFormed(rest) && po.start <= po.end
    ensures forall b :: po.start <= b <= po.end ==> ModeAt(rest, po.key, b) == None
  {
    var locks := [po] + rest;
    assert forall i :: 0 <= i < |rest| ==> rest[i] == locks[i + 1];
    assert locks[0] == po;
    forall b | po.start <= b <= po.end
      ensures ModeAt(rest, po.key, b) == None
    {
      ModeAtNone(rest, po.key, b);
    }
  }

  /** Putting a range in front of a well-formed list whose owner holds none of its bytes. */
  lemma WellFormedCons(po: PosixLock, rest: seq<PosixLock>)
    requires WellFormed(rest) && po.start <= po.end
    requires forall b :: po.start <= b <= po.end ==> ModeAt(rest, po.key, b) == None
    ensures WellFormed([po] + rest)
  {
    var locks := [po] + rest;
    forall i, j | 0 <= i < j < |locks| && locks[i].key == locks[j].key
      ensures !RangesOverlap(locks[i].start, locks[i].end, locks[j].start, locks[j].end)
    {
      assert locks[j] == rest[j - 1];
      if i > 0 {
        assert locks[i] == rest[i - 1];
      } else if RangesOverlap(po.start, po.end, rest[j - 1].start, rest[j - 1].end) {
        var b := if po.start < rest[j - 1].start then rest[j - 1].start else po.start;
        ModeAtCovered(rest, j - 1, po.key, b);
        assert false;
      }
    }
  }

  /** The same at the other end of the list. */
  lemma {:induction false} WellFormedSnoc(locks: seq<PosixLock>, po: PosixLock)
    requires WellFormed(locks) && po.start <= po.end
    requires forall b :: po.start <= b <= po.end ==> ModeAt(locks, po.key, b) == None
    ensures WellFormed(locks + [po])
  {
    var all := locks + [po];
    forall i, j | 0 <= i < j < |all| && all[i].key == all[j].key
      ensures !RangesOverlap(all[i].start, all[i].end, all[j].start, all[j].end)
    {
      if j == |locks| && RangesOverlap(po.start, po.end, locks[i].start, locks[i].end) {
        var b := if po.start < locks[i].start then locks[i].start else po.start;
        ModeAtCovered(locks, i, po.key, b);
        assert false;
      }
    }
  }

  // ---------- granting

  /** `req` lies inside `po`, which is converted to it; `frags` holds the rest of `po`. */
  ghost predicate Splits(po: PosixLock, req: Request, frags: seq<PosixLock>) {
    && WellFormed(frags)
    && forall k, c :: ModeAt(frags, k, c) ==
                      if Covers(po, k, c) && !InRequest(req, k, c) then Some(po.ex) else None
  }

  lemma SplitBytes(po: PosixLock, rest: seq<PosixLock>, req: Request, frags: seq<PosixLock>, key: Key, b: int)
    requires WellFormed([po] + rest) && po.key == req.key && Splits(po, req, frags)
    requires po.start <= req.start && req.end <= po.end
    ensures var np := po.(start := req.start, end := req.end, ex := req.ex);
            ModeAt([np] + rest + frags, key, b) ==
            if InRequest(req, key, b) then Some(req.ex) else ModeAt([po] + rest, key, b)
  {
    var np := po.(start := req.start, end := req.end, ex := req.ex);
    WellFormedTail(po, rest);
    assert [np] + rest + frags == [np] + (rest + frags);
    ModeAtCons(np, rest + frags, key, b);
    ModeAtConcat(rest, frags, key, b);
    ModeAtCons(po, rest, key, b);
  }

  /** Lists that share no byte of any owner can be joined. */
  lemma WellFormedConcat(a: seq<PosixLock>, c: seq<PosixLock>)
    requires WellFormed(a) && WellFormed(c)
    requires forall k, b :: ModeAt(a, k, b) == None || ModeAt(c, k, b) == None
    ensures WellFormed(a + c)
  {
    var all := a + c;
    forall i, j | 0 <= i < j < |all| && all[i].key == all[j].key
      ensures !RangesOverlap(all[i].start, all[i].end, all[j].start, all[j].end)
    {
      if i < |a| <= j {
        var x, y := a[i], c[j - |a|];
        if RangesOverlap(x.start, x.end, y.start, y.end) {
          var b := if x.start < y.start then y.start else x.start;
          ModeAtCovered(a, i, x.key, b);
          ModeAtCovered(c, j - |a|, x.key, b);
          assert false;
        }
      }
    }
  }

  lemma SplitWellFormed(po: PosixLock, rest: seq<PosixLock>, req: Request, frags: seq<PosixLock>)
    requires WellFormed([po] + rest) && po.key == req.key && ValidRequest(req) && Splits(po, req, frags)
    requires po.start <= req.start && req.end <= po.end
    ensures WellFormed([po.(start := req.start, end := req.end, ex := req.ex)] + rest + frags)
  {
    var np := po.(start := req.start, end := req.end, ex := req.ex);
    WellFormedTail(po, rest);
    WellFormedCons(np, rest);
    forall k, b ensures ModeAt([np] + rest, k, b) == None || ModeAt(frags, k, b) == None {
      ModeAtCons(np, rest, k, b);
    }
    WellFormedConcat([np] + rest, frags);
  }

  lemma SplitOne(po: PosixLock, req: Request, f: PosixLock)
    requires f.key == po.key == req.key && f.ex == po.ex && f.start <= f.end
    requires forall c :: Covers(f, req.key, c) <==> Covers(po, req.key, c) && !InRequest(req, req.key, c)
    ensures Splits(po, req, [f])
  {
    forall k, c ensures ModeAt([f], k, c) == if Covers(po, k, c) && !InRequest(req, k, c) then Some(po.ex) else None {
      ModeAtCons(f, [], k, c);
      assert [f] + [] == [f];
    }
  }

  lemma SplitTwo(po: PosixLock, req: Request, f: PosixLock, g: PosixLock)
    requires f.key == g.key == po.key == req.key && f.ex == po.ex == g.ex && f.start <= f.end && g.start <= g.end
    requires po.start == f.start && f.end == req.start - 1 && req.end + 1 == g.start && g.end == po.end
    requires ValidRequest(req)
    ensures Splits(po, req, [f, g])
  {
    forall k, c ensures ModeAt([f, g], k, c) == if Covers(po, k, c) && !InRequest(req, k, c) then Some(po.ex) else None {
      ModeAtCons(f, [g], k, c);
      ModeAtCons(g, [], k, c);
      assert [g] + [] == [g] && [f] + [g] == [f, g];
    }
  }

  /** Both ways of granting a range inside a range of the other mode. */
  lemma LockInside(po: PosixLock, rest: seq<PosixLock>, req: Request) returns (frags: seq<PosixLock>)
    requires po.key == req.key && po.ex != req.ex && ValidRequest(req)
    requires OverlapType(req.start, req.end, po.start, po.end) in {1, 2} && po.start <= req.start && req.end <= po.end
    ensures Splits(po, req, frags)
    ensures LockRange([po] + rest, req) == [po.(start := req.start, end := req.end, ex := req.ex)] + rest + frags
  {
    var locks := [po] + rest;
    assert locks[0] == po && locks[1..] == rest;
    if OverlapType(req.start, req.end, po.start, po.end) == 1 {
      var (start2, end2) := ShrinkRange(po.start, po.end, req.start, req.end).value;
      var f := Fragment(req, !req.ex, start2, end2);
      SplitOne(po, req, f);
      frags := [f];
    } else {
      var f, g := Fragment(req, !req.ex, po.start, req.start - 1), Fragment(req, !req.ex, req.end + 1, po.end);
      SplitTwo(po, req, f, g);
      frags := [f, g];
    }
  }

  /** Granting a range sets exactly the requested bytes of its owner to the
      requested mode and changes no other byte and no other owner. */
  lemma {:induction false} LockRangeBytes(locks: seq<PosixLock>, req: Request, key: Key, b: int)
    requires WellFormed(locks) && ValidRequest(req)
    ensures ModeAt(LockRange(locks, req), key, b) ==
            if InRequest(req, key, b) then Some(req.ex) else ModeAt(locks, key, b)
    decreases |locks|
  {
    if locks == [] {
      ModeAtCons(NewLock(req), [], key, b);
      assert [NewLock(req)] + [] == [NewLock(req)];
      return;
    }
    var po, rest := locks[0], locks[1..];
    assert [po] + rest == locks;
    WellFormedTail(po, rest);
    LockRangeBytes(rest, req, key, b);
    ModeAtCons(po, rest, key, b);
    var tail := LockRange(rest, req);
    if po.key != req.key || !Overlaps(po, req) {
      ModeAtCons(po, tail, key, b);
    } else {
      OverlapTypeMeaning(req.start, req.end, po.start, po.end);
      var t := OverlapType(req.start, req.end, po.start, po.end);
      if t == 4 {
        var kept := if po.start < req.start then po.(end := req.start - 1) else po.(start := req.end + 1);
        ModeAtCons(kept, tail, key, b);
      } else if t == 0 {
        ModeAtCons(po.(ex := req.ex), rest, key, b);
      } else if t != 3 && po.ex != req.ex {
        var frags := LockInside(po, rest, req);
        SplitBytes(po, rest, req, frags, key, b);
      }
    }
  }

  /** Granting a range keeps the ranges of each owner disjoint. */
  lemma {:induction false} LockRangeWellFormed(locks: seq<PosixLock>, req: Request)
    requires WellFormed(locks) && ValidRequest(req)
    ensures WellFormed(LockRange(locks, req))
    decreases |locks|
  {
    if locks == [] { return; }
    var po, rest := locks[0], locks[1..];
    assert [po] + rest == locks;
    WellFormedTail(po, rest);
    LockRangeWellFormed(rest, req);
    var tail := LockRange(rest, req);
    forall b | po.start <= b <= po.end && !InRequest(req, po.key, b) ensures ModeAt(tail, po.key, b) == None {
      LockRangeBytes(rest, req, po.key, b);
    }
    if po.key != req.key || !Overlaps(po, req) {
      WellFormedCons(po, tail);
    } else {
      OverlapTypeMeaning(req.start, req.end, po.start, po.end);
      var t := OverlapType(req.start, req.end, po.start, po.end);
      if t == 4 {
        var kept := if po.start < req.start then po.(end := req.start - 1) else po.(start := req.end + 1);
        WellFormedCons(kept, tail);
      } else if t == 0 {
        WellFormedCons(po.(ex := req.ex), rest);
      } else if t != 3 && po.ex != req.ex {
        var frags := LockInside(po, rest, req);
        SplitWellFormed(po, rest, req, frags);
      }
    }
  }

  // ---------- clearing

  lemma MiddleBytes(po: PosixLock, rest: seq<PosixLock>, req: Request, key: Key, b: int)
    requires WellFormed([po] + rest) && po.key == req.key && ValidRequest(req)
    requires po.start < req.start && req.end < po.end
    ensures ModeAt(Middle(po, rest, req), key, b) ==
            if InRequest(req, key, b) then None else ModeAt([po] + rest, key, b)
  {
    var np, f := po.(end := req.start - 1), Fragment(req, po.ex, req.end + 1, po.end);
    WellFormedTail(po, rest);
    ModeAtConcat([np] + rest, [f], key, b);
    ModeAtCons(np, rest, key, b);
    ModeAtCons(po, rest, key, b);
    ModeAtCons(f, [], key, b);
    assert [f] + [] == [f];
  }

  lemma MiddleWellFormed(po: PosixLock, rest: seq<PosixLock>, req: Request)
    requires WellFormed([po] + rest) && po.key == req.key && ValidRequest(req)
    requires po.start < req.start && req.end < po.end
    ensures WellFormed(Middle(po, rest, req))
  {
    var np, f := po.(end := req.start - 1), Fragment(req, po.ex, req.end + 1, po.end);
    WellFormedTail(po, rest);
    WellFormedCons(np, rest);
    forall b | f.start <= b <= f.end ensures ModeAt([np] + rest, f.key, b) == None {
      ModeAtCons(np, rest, f.key, b);
    }
    WellFormedSnoc([np] + rest, f);
  }

  /** Clearing a range clears exactly the requested bytes of its owner. */
  lemma {:induction false} UnlockRangeBytes(locks: seq<PosixLock>, req: Request, key: Key, b: int)
    requires WellFormed(locks) && ValidRequest(req)
    ensures ModeAt(UnlockRange(locks, req), key, b) ==
            if InRequest(req, key, b) then None else ModeAt(locks, key, b)
    decreases |locks|
  {
    if locks == [] { return; }
    var po, rest := locks[0], locks[1..];
    assert [po] + rest == locks;
    WellFormedTail(po, rest);
    UnlockRangeBytes(rest, req, key, b);
    ModeAtCons(po, rest, key, b);
    var tail := UnlockRange(rest, req);
    if po.key != req.key || !Overlaps(po, req) {
      ModeAtCons(po, tail, key, b);
    } else {
      OverlapTypeMeaning(req.start, req.end, po.start, po.end);
      var t := OverlapType(req.start, req.end, po.start, po.end);
      if t == 4 {
        ModeAtCons(Shrunk(po, req), tail, key, b);
      } else if t == 1 {
        ModeAtCons(Shrunk(po, req), rest, key, b);
      } else if t == 2 {
        MiddleBytes(po, rest, req, key, b);
      }
    }
  }

  /** Clearing a range keeps the ranges of each owner disjoint. */
  lemma {:induction false} UnlockRangeWellFormed(locks: seq<PosixLock>, req: Request)
    requires WellFormed(locks) && ValidRequest(req)
    ensures WellFormed(UnlockRange(locks, req))
    decreases |locks|
  {
    if locks == [] { return; }
    var po, rest := locks[0], locks[1..];
    assert [po] + rest == locks;
    WellFormedTail(po, rest);
    UnlockRangeWellFormed(rest, req);
    var tail := UnlockRange(rest, req);
    forall b | po.start <= b <= po.end ensures ModeAt(tail, po.key, b) == None {
      UnlockRangeBytes(rest, req, po.key, b);
    }
    if po.key != req.key || !Overlaps(po, req) {
      WellFormedCons(po, tail);
    } else {
      OverlapTypeMeaning(req.start, req.end, po.start, po.end);
      var t := OverlapType(req.start, req.end, po.start, po.end);
      if t == 4 {
        WellFormedCons(Shrunk(po, req), tail);
      } else if t == 1 {
        WellFormedCons(Shrunk(po, req), rest);
      } else if t == 2 {
        MiddleWellFormed(po, rest, req);
      }
    }
  }

  // ---------- purging a failed node

  function PurgeLocks(locks: seq<PosixLock>, nodeid: int, unmount: bool): seq<PosixLock> {
    if locks == [] then []
    else (if locks[0].key.nodeid == nodeid || unmount then [] else [locks[0]]) + PurgeLocks(locks[1..], nodeid, unmount)
  }

  /** Purging clears every byte of the node and nothing else. */
  lemma {:induction false} PurgeLocksBytes(locks: seq<PosixLock>, nodeid: int, unmount: bool, key: Key, b: int)
    ensures ModeAt(PurgeLocks(locks, nodeid, unmount), key, b) ==
            if key.nodeid == nodeid || unmount then None else ModeAt(locks, key, b)
  {
    if locks == [] { return; }
    PurgeLocksBytes(locks[1..], nodeid, unmount, key, b);
    var tail := PurgeLocks(locks[1..], nodeid, unmount);
    if locks[0].key.nodeid == nodeid || unmount {
      assert [] + tail == tail;
    } else {
      ModeAtCons(locks[0], tail, key, b);
    }
  }

  lemma {:induction false} PurgeLocksWellFormed(locks: seq<PosixLock>, nodeid: int, unmount: bool)
    requires WellFormed(locks)
    ensures WellFormed(PurgeLocks(locks, nodeid, unmount))
  {
    if locks == [] { return; }
    assert [locks[0]] + locks[1..] == locks;
    WellFormedTail(locks[0], locks[1..]);
    PurgeLocksWellFormed(locks[1..], nodeid, unmount);
    var tail := PurgeLocks(locks[1..], nodeid, unmount);
    if locks[0].key.nodeid == nodeid || unmount {
      assert [] + tail == tail;
    } else {
      forall b | locks[0].start <= b <= locks[0].end ensures ModeAt(tail, locks[0].key, b) == None {
        PurgeLocksBytes(locks[1..], nodeid, unmount, locks[0].key, b);
      }
      WellFormedCons(locks[0], tail);
    }
  }
}
