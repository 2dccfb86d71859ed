/** Wait-for graphs: closed sets, cycles, and the largest closed set. */
module WaitGraph {

  type Xid = int

  /** Who waits for whom: the transactions each transaction waits for. */
  type Graph = map<Xid, set<Xid>>

  predicate Edge(g: Graph, t: Xid, u: Xid) {
    t in g && u in g[t]
  }

  /** `t` waits for a member of `s`. */
  ghost predicate WaitsInside(g: Graph, s: set<Xid>, t: Xid) {
    exists u :: u in s && Edge(g, t, u)
  }

  /** Every member waits for a member, so none of them can ever go on. */
  ghost predicate Closed(g: Graph, s: set<Xid>) {
    forall t {:trigger WaitsInside(g, s, t)} :: t in s ==> WaitsInside(g, s, t)
  }

  /** `r` is the largest closed subset of `v`. */
  ghost predicate IsResidue(g: Graph, v: set<Xid>, r: set<Xid>) {
    && r <= v && Closed(g, r)
    && forall s :: s <= v && Closed(g, s) ==> s <= r
  }

  ghost predicate IsWalk(g: Graph, v: set<Xid>, p: seq<Xid>) {
    && (forall i :: 0 <= i < |p| ==> p[i] in v)
    && (forall i :: 0 <= i < |p| - 1 ==> Edge(g, p[i], p[i + 1]))
  }

  ghost predicate IsCycle(g: Graph, v: set<Xid>, p: seq<Xid>) {
    p != [] && IsWalk(g, v, p) && Edge(g, p[|p| - 1], p[0])
  }

  ghost predicate HasCycle(g: Graph, v: set<Xid>) {
    exists p :: IsCycle(g, v, p)
  }

  lemma ResidueUnique(g: Graph, v: set<Xid>, r1: set<Xid>, r2: set<Xid>)
    requires IsResidue(g, v, r1) && IsResidue(g, v, r2)
    ensures r1 == r2
  {
    assert r1 <= r2 && r2 <= r1;
  }

  /** The members of a cycle form a closed set. */
  lemma CycleClosed(g: Graph, v: set<Xid>, p: seq<Xid>)
    requires IsCycle(g, v, p)
    ensures var s := set x | x in p; s <= v && s != {} && Closed(g, s)
  {
    var s := set x | x in p;
    assert p[0] in s;
    forall t | t in s ensures WaitsInside(g, s, t) {
      var i :| 0 <= i < |p| && p[i] == t;
      var u := if i + 1 < |p| then p[i + 1] else p[0];
      assert u in s && Edge(g, t, u);
    }
  }

  /** In a closed set one can walk on for ever. */
  lemma {:induction false} LongWalk(g: Graph, s: set<Xid>, t: Xid, n: nat) returns (p: seq<Xid>)
    requires Closed(g, s) && t in s
    ensures |p| == n + 1 && p[0] == t && IsWalk(g, s, p)
    decreases n
  {
    if n == 0 {
      p := [t];
    } else {
      assert WaitsInside(g, s, t);
      var u :| u in s && Edge(g, t, u);
      var q := LongWalk(g, s, u, n - 1);
      p := [t] + q;
    }
  }

  lemma {:induction false} PigeonHole(p: seq<Xid>, s: set<Xid>)
    requires forall i :: 0 <= i < |p| ==> p[i] in s
    requires forall i, j :: 0 <= i < j < |p| ==> p[i] != p[j]
    ensures |p| <= |s|
    decreases |p|
  {
    if p != [] {
      PigeonHole(p[1..], s - {p[0]});
    }
  }

  lemma SomeMember(s: set<Xid>) returns (t: Xid)
    requires s != {}
    ensures t in s
  {
    if forall x :: x !in s { assert false; }
    t :| t in s;
  }

  /** ... so a non-empty closed set contains a cycle. */
  lemma ClosedHasCycle(g: Graph, s: set<Xid>)
    requires Closed(g, s) && s != {}
    ensures HasCycle(g, s)
  {
    var t := SomeMember(s);
    var p := LongWalk(g, s, t, |s|);
    if forall i, j :: 0 <= i < j < |p| ==> p[i] != p[j] {
      PigeonHole(p, s);
    } else {
      var i, j :| 0 <= i < j < |p| && p[i] == p[j];
      var c := p[i..j];
      assert Edge(g, p[j - 1], p[j]);
      assert forall k :: 0 <= k < |c| ==> c[k] == p[i + k];
      assert IsCycle(g, s, c);
    }
  }

  /** The largest closed set is empty exactly when there is no cycle. */
  lemma ResidueEmptyIffAcyclic(g: Graph, v: set<Xid>, r: set<Xid>)
    requires IsResidue(g, v, r)
    ensures r == {} <==> !HasCycle(g, v)
  {
    if r != {} {
      ClosedHasCycle(g, r);
      var p :| IsCycle(g, r, p);
      assert IsCycle(g, v, p);
    }
    if HasCycle(g, v) {
      var p :| IsCycle(g, v, p);
      CycleClosed(g, v, p);
    }
  }

  /** Edges that leave the set do not matter for its closed subsets. */
  lemma SameInside(g: Graph, h: Graph, v: set<Xid>, s: set<Xid>)
    requires s <= v && forall t, u :: t in v && u in v ==> (Edge(g, t, u) <==> Edge(h, t, u))
    ensures Closed(g, s) <==> Closed(h, s)
  {
    forall t | t in s ensures WaitsInside(g, s, t) <==> WaitsInside(h, s, t) {
      if WaitsInside(g, s, t) {
        var u :| u in s && Edge(g, t, u);
        assert Edge(h, t, u);
      }
      if WaitsInside(h, s, t) {
        var u :| u in s && Edge(h, t, u);
        assert Edge(g, t, u);
      }
    }
  }

  // ---------- taking nodes and edges away

  /** A node that waits for no one inside belongs to no closed set. */
  lemma DropKeepsResidue(g: Graph, v: set<Xid>, x: Xid, r: set<Xid>)
    requires !WaitsInside(g, v, x)
    ensures IsResidue(g, v, r) <==> IsResidue(g, v - {x}, r)
  {
    forall s | s <= v && Closed(g, s) ensures x !in s {
      assert WaitsInside(g, s, x) ==> WaitsInside(g, v, x);
    }
    assert forall s :: s <= v && Closed(g, s) <==> s <= v - {x} && Closed(g, s);
  }

  lemma SameResidue(g: Graph, h: Graph, v: set<Xid>, r: set<Xid>)
    requires forall t, u :: t in v && u in v ==> (Edge(g, t, u) <==> Edge(h, t, u))
    ensures IsResidue(g, v, r) <==> IsResidue(h, v, r)
  {
    forall s | s <= v ensures Closed(g, s) <==> Closed(h, s) { SameInside(g, h, v, s); }
  }

  /** With fewer edges, what is left is to be sought in what was left before. */
  lemma FewerEdges(g: Graph, h: Graph, v: set<Xid>, before: set<Xid>, r: set<Xid>)
    requires IsResidue(g, v, before) && forall t, u :: Edge(h, t, u) ==> Edge(g, t, u)
    ensures IsResidue(h, v, r) <==> IsResidue(h, before, r)
  {
    forall s | s <= v && Closed(h, s) ensures s <= before {
      forall t | t in s ensures WaitsInside(g, s, t) {
        assert WaitsInside(h, s, t);
        var u :| u in s && Edge(h, t, u);
        assert Edge(g, t, u);
      }
    }
  }

  /** `g` when `x` no longer waits for the members of `es`. */
  function Without(g: Graph, x: Xid, es: set<Xid>): Graph {
    if x in g then g[x := g[x] - es] else g
  }

  ghost predicate UsesEdge(p: seq<Xid>, x: Xid, es: set<Xid>) {
    exists i :: 0 <= i < |p| && p[i] == x && p[if i + 1 < |p| then i + 1 else 0] in es
  }

  /** Dropping edges leaves no cycle exactly when every cycle used one of them. */
  lemma NoCycleWithout(g: Graph, v: set<Xid>, x: Xid, es: set<Xid>)
    ensures !HasCycle(Without(g, x, es), v) <==> forall p :: IsCycle(g, v, p) ==> UsesEdge(p, x, es)
  {
    var h := Without(g, x, es);
    forall p ensures IsCycle(h, v, p) <==> IsCycle(g, v, p) && !UsesEdge(p, x, es) {
      CycleWithout(g, v, x, es, p);
    }
  }

  lemma CycleWithout(g: Graph, v: set<Xid>, x: Xid, es: set<Xid>, p: seq<Xid>)
    ensures IsCycle(Without(g, x, es), v, p) <==> IsCycle(g, v, p) && !UsesEdge(p, x, es)
  {
    var h := Without(g, x, es);
    assert forall t, u :: Edge(h, t, u) <==> Edge(g, t, u) && !(t == x && u in es);
    if IsCycle(h, v, p) {
      forall i | 0 <= i < |p| && p[i] == x ensures p[if i + 1 < |p| then i + 1 else 0] !in es {
        assert Edge(h, p[i], p[if i + 1 < |p| then i + 1 else 0]);
      }
    }
    if IsCycle(g, v, p) && !UsesEdge(p, x, es) {
      forall i | 0 <= i < |p| - 1 ensures Edge(h, p[i], p[i + 1]) {
        assert Edge(g, p[i], p[i + 1]);
      }
    }
  }
}
