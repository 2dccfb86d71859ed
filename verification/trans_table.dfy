/**
 Transactions of the deadlock detector: the growable array of those each one
 waits for, its counters, and what keeps the counters sound.
 */
module TransTable {
  import opened Ranges
  import opened WaitGraph

  /** A lock, named by its resource and its place on that resource's list. */
  datatype LkbRef = LkbRef(rsb: nat, index: nat)

  /** `waitfor` has null slots; `count` of them are in use. `others` counts the
      transactions that wait for this one. */
  datatype Trans = Trans(locks: seq<LkbRef>, others: int, waitfor: seq<Option<Xid>>, count: int)

  type Table = map<Xid, Trans>

  ghost function Slots(ws: seq<Option<Xid>>): set<Xid> {
    set w | w in ws && w.Some? :: w.value
  }

  ghost predicate Distinct(ws: seq<Option<Xid>>) {
    forall i, j :: 0 <= i < j < |ws| && ws[i].Some? ==> ws[i] != ws[j]
  }

  ghost function Waiters(T: Table, t: Xid): set<Xid> {
    set u | u in T && t in Slots(T[u].waitfor)
  }

  ghost predicate TransOk(T: Table, t: Xid)
    requires t in T
  {
    var tr := T[t];
    && Distinct(tr.waitfor) && Slots(tr.waitfor) <= T.Keys - {t}
    && tr.count == |Slots(tr.waitfor)|
    && tr.others == |Waiters(T, t)|
  }

  /** Every counter says what it is meant to say, and every slot names another
      listed transaction. */
  ghost predicate Sound(T: Table) {
    forall t :: t in T ==> TransOk(T, t)
  }

  ghost function GraphOf(T: Table): Graph {
    map t | t in T :: Slots(T[t].waitfor)
  }

  lemma SlotAt(ws: seq<Option<Xid>>, i: nat)
    requires i < |ws| && ws[i].Some?
    ensures ws[i].value in Slots(ws)
  {
    assert ws[i] in ws;
  }

  /** Emptying the slot of `u` takes exactly `u` out. */
  lemma ClearSlot(ws: seq<Option<Xid>>, i: nat)
    requires i < |ws| && ws[i].Some? && Distinct(ws)
    ensures Slots(ws[i := None]) == Slots(ws) - {ws[i].value} && Distinct(ws[i := None])
    ensures ws[i].value in Slots(ws) && |Slots(ws[i := None])| == |Slots(ws)| - 1
  {
    SlotAt(ws, i);
    var u, after := ws[i].value, ws[i := None];
    forall x ensures x in Slots(after) <==> x in Slots(ws) && x != u {
      if x in Slots(after) {
        var k :| 0 <= k < |after| && after[k] == Some(x);
        assert ws[k] == Some(x);
      }
      if x in Slots(ws) && x != u {
        var k :| 0 <= k < |ws| && ws[k] == Some(x);
        assert after[k] == Some(x);
      }
    }
  }

  /** Filling a free slot adds exactly `u`. */
  lemma FillSlot(ws: seq<Option<Xid>>, i: nat, u: Xid)
    requires i < |ws| && ws[i].None? && Distinct(ws) && u !in Slots(ws)
    ensures Slots(ws[i := Some(u)]) == Slots(ws) + {u} && Distinct(ws[i := Some(u)])
    ensures |Slots(ws[i := Some(u)])| == |Slots(ws)| + 1
  {
    var after := ws[i := Some(u)];
    SlotAt(after, i);
    forall x ensures x in Slots(after) <==> x in Slots(ws) || x == u {
      if x in Slots(after) {
        var k :| 0 <= k < |after| && after[k] == Some(x);
        if k != i { SlotAt(ws, k); }
      }
      if x in Slots(ws) {
        var k :| 0 <= k < |ws| && ws[k] == Some(x);
        SlotAt(after, k);
      }
    }
    forall j, k | 0 <= j < k < |after| && after[j].Some? ensures after[j] != after[k] {
      if j == i && ws[k].Some? { SlotAt(ws, k); }
      if k == i { SlotAt(ws, j); }
    }
  }

  // ---------- one edge

  /** remove_waitfor for a slot that is in use. */
  function DropEdge(T: Table, t: Xid, i: nat): Table
    requires t in T && i < |T[t].waitfor| && T[t].waitfor[i].Some? && T[t].waitfor[i].value in T
  {
    var u := T[t].waitfor[i].value;
    var T1 := T[t := T[t].(waitfor := T[t].waitfor[i := None], count := T[t].count - 1)];
    T1[u := T1[u].(others := T1[u].others - 1)]
  }

  /** add_waitfor into the free slot `i`. */
  function AddEdge(T: Table, t: Xid, u: Xid, i: nat): Table
    requires t in T && u in T && i < |T[t].waitfor|
  {
    var T1 := T[t := T[t].(waitfor := T[t].waitfor[i := Some(u)], count := T[t].count + 1)];
    T1[u := T1[u].(others := T1[u].others + 1)]
  }

  /** The two tables differ in the slots and count of `t`, and in how many wait for others. */
  predicate OnlySlotsOf(T: Table, after: Table, t: Xid) {
    && T.Keys == after.Keys
    && (forall x :: x in T ==> after[x].locks == T[x].locks)
    && (forall x :: x in T && x != t ==> after[x].waitfor == T[x].waitfor && after[x].count == T[x].count)
  }

  lemma WaitersAfter(T: Table, after: Table, t: Xid)
    requires OnlySlotsOf(T, after, t) && t in T
    ensures forall x :: Waiters(after, x) == if x in Slots(after[t].waitfor) then Waiters(T, x) + {t} else Waiters(T, x) - {t}
    ensures forall x :: t in Waiters(T, x) <==> x in Slots(T[t].waitfor)
  {
    hide Slots;
    forall x ensures Waiters(after, x) == if x in Slots(after[t].waitfor) then Waiters(T, x) + {t} else Waiters(T, x) - {t} {
      forall y | y != t ensures y in Waiters(after, x) <==> y in Waiters(T, x) {
        assert y in T <==> y in after;
      }
      assert t in Waiters(after, x) <==> x in Slots(after[t].waitfor);
    }
  }

  /** How many wait for `x` after the slots of `t` have changed. */
  lemma WaitersCount(T: Table, after: Table, t: Xid, x: Xid)
    requires OnlySlotsOf(T, after, t) && t in T
    ensures |Waiters(after, x)| - |Waiters(T, x)| ==
            (if x in Slots(after[t].waitfor) then 1 else 0) - (if x in Slots(T[t].waitfor) then 1 else 0)
  {
    hide Slots, Waiters;
    WaitersAfter(T, after, t);
    var a, b := Waiters(after, x), Waiters(T, x);
    if x in Slots(after[t].waitfor) {
      assert a == b + {t};
    } else {
      assert a == b - {t};
    }
  }

  lemma OkElsewhere(T: Table, after: Table, t: Xid, x: Xid)
    requires Sound(T) && OnlySlotsOf(T, after, t) && x in T && x != t
    requires after[x].others - |Waiters(after, x)| == T[x].others - |Waiters(T, x)|
    ensures TransOk(after, x)
  {
    hide Slots, Distinct, Waiters;
    assert TransOk(T, x);
  }

  lemma OkHere(T: Table, after: Table, t: Xid)
    requires Sound(T) && OnlySlotsOf(T, after, t) && t in T && after[t].others == T[t].others
    requires Distinct(after[t].waitfor) && after[t].count == |Slots(after[t].waitfor)| && Slots(after[t].waitfor) <= T.Keys - {t}
    ensures TransOk(after, t)
  {
    assert TransOk(T, t);
    WaitersAfter(T, after, t);
    assert Waiters(after, t) == Waiters(T, t);
  }

  lemma DropEdgeSound(T: Table, t: Xid, i: nat)
    requires Sound(T) && t in T && i < |T[t].waitfor| && T[t].waitfor[i].Some?
    ensures var u := T[t].waitfor[i].value;
            && u in T && u != t && u in Slots(T[t].waitfor)
            && Sound(DropEdge(T, t, i)) && OnlySlotsOf(T, DropEdge(T, t, i), t)
            && Slots(DropEdge(T, t, i)[t].waitfor) == Slots(T[t].waitfor) - {u}
  {
    hide Slots, Distinct, Waiters;
    var u := T[t].waitfor[i].value;
    assert TransOk(T, t);
    ClearSlot(T[t].waitfor, i);
    var after := DropEdge(T, t, i);
    OkHere(T, after, t);
    forall x | x in after ensures TransOk(after, x) {
      WaitersCount(T, after, t, x);
      if x != t { OkElsewhere(T, after, t, x); }
    }
  }

  lemma AddEdgeSound(T: Table, t: Xid, u: Xid, i: nat)
    requires Sound(T) && t in T && u in T && t != u && i < |T[t].waitfor| && T[t].waitfor[i].None?
    requires u !in Slots(T[t].waitfor)
    ensures var after := AddEdge(T, t, u, i);
            && Sound(after) && OnlySlotsOf(T, after, t) && Slots(after[t].waitfor) == Slots(T[t].waitfor) + {u}
  {
    hide Slots, Distinct, Waiters;
    assert TransOk(T, t);
    FillSlot(T[t].waitfor, i, u);
    var after := AddEdge(T, t, u, i);
    OkHere(T, after, t);
    forall x | x in after ensures TransOk(after, x) {
      WaitersCount(T, after, t, x);
      if x != t { OkElsewhere(T, after, t, x); }
    }
  }

  /** Only a transaction that waits for no one, and for which no one waits, can
      be taken off the list without disturbing a counter. */
  lemma DropTransSound(T: Table, v: Xid)
    requires Sound(T) && v in T && T[v].count == 0 && T[v].others == 0
    ensures Sound(T - {v}) && forall t :: t in T ==> v !in Slots(T[t].waitfor)
  {
    assert TransOk(T, v);
    assert Waiters(T, v) == {};
    forall t | t in T ensures v !in Slots(T[t].waitfor) {
      assert t !in Waiters(T, v);
    }
    var after := T - {v};
    forall t | t in after ensures TransOk(after, t) {
      assert TransOk(T, t);
      assert v !in Waiters(T, t);
      assert Waiters(after, t) == Waiters(T, t);
    }
  }

  // ---------- the list

  predicate NoDup(list: seq<Xid>) {
    forall i, j :: 0 <= i < j < |list| ==> list[i] != list[j]
  }

  function Listed(list: seq<Xid>): set<Xid> {
    set t | t in list
  }

  /** The transaction list names exactly the transactions there are. */
  ghost predicate ListOk(list: seq<Xid>, T: Table) {
    NoDup(list) && Listed(list) == T.Keys
  }

  /** The members of `s`, in list order. */
  function Keep(list: seq<Xid>, s: set<Xid>): (r: seq<Xid>)
    ensures forall x :: x in r <==> x in list && x in s
  {
    if list == [] then [] else (if list[0] in s then [list[0]] else []) + Keep(list[1..], s)
  }

  lemma {:induction false} KeepAll(list: seq<Xid>, s: set<Xid>)
    requires forall x :: x in list ==> x in s
    ensures Keep(list, s) == list
  {
    if list != [] {
      KeepAll(list[1..], s);
      var t := list[0];
      assert t in list && t in s;
      assert Keep(list, s) == [t] + list[1..];
    }
  }

  lemma {:induction false} KeepTwice(list: seq<Xid>, s: set<Xid>, r: set<Xid>)
    requires r <= s
    ensures Keep(Keep(list, s), r) == Keep(list, r)
  {
    if list != [] {
      KeepTwice(list[1..], s, r);
      var kept := Keep(list[1..], s);
      if list[0] in s {
        assert Keep(list, s) == [list[0]] + kept && ([list[0]] + kept)[1..] == kept;
      } else {
        assert Keep(list, s) == kept;
      }
    }
  }

  /** Deleting one entry of the list. */
  lemma {:induction false} DropAt(list: seq<Xid>, i: nat)
    requires NoDup(list) && i < |list|
    ensures var rest := list[..i] + list[i + 1..];
            NoDup(rest) && Listed(rest) == Listed(list) - {list[i]} && rest == Keep(list, Listed(rest))
  {
    var rest := list[..i] + list[i + 1..];
    assert forall k :: 0 <= k < |rest| ==> rest[k] == if k < i then list[k] else list[k + 1];
    forall x ensures x in rest <==> x in list && x != list[i] {
      if x in list && x != list[i] {
        var k :| 0 <= k < |list| && list[k] == x;
        assert rest[if k < i then k else k - 1] == x;
      }
    }
    KeepButOne(list, i, Listed(rest));
  }

  lemma {:induction false} KeepButOne(list: seq<Xid>, i: nat, s: set<Xid>)
    requires i < |list| && forall k :: 0 <= k < |list| ==> (list[k] in s <==> k != i)
    ensures Keep(list, s) == list[..i] + list[i + 1..]
  {
    if i == 0 {
      KeepAll(list[1..], s);
    } else {
      KeepButOne(list[1..], i - 1, s);
      assert list[..i] + list[i + 1..] == [list[0]] + (list[1..][..i - 1] + list[1..][i..]);
    }
  }
}
