/**
 Choosing the protocol versions the daemons of a cluster run: each announces the
 highest it can do, someone proposes the minimum, everyone adopts the first
 proposal delivered.
 */
module Protocol {
  import opened Ranges

  type U16 = x: nat | x < 0x10000

  datatype Version = Version(major: U16, minor: U16, patch: U16)

  /** Zero marks a version that is not set. */
  const Unset := Version(0, 0, 0)

  datatype Proto = Proto(daemonMax: Version, kernelMax: Version, daemonRun: Version, kernelRun: Version)

  datatype DaemonNode = DaemonNode(nodeid: int, proto: Proto)

  predicate NonZero(v: Version) {
    v.major != 0 && v.minor != 0 && v.patch != 0
  }

  predicate LexLe(a: Version, b: Version) {
    || a.major < b.major
    || (a.major == b.major && a.minor < b.minor)
    || (a.major == b.major && a.minor == b.minor && a.patch <= b.patch)
  }

  ghost predicate IsLexMin(v: Version, vs: seq<Version>) {
    v in vs && forall w :: w in vs ==> LexLe(v, w)
  }

  lemma LexMinUnique(v: Version, vs: seq<Version>, w: Version, ws: seq<Version>)
    requires IsLexMin(v, vs) && IsLexMin(w, ws) && forall x :: x in vs <==> x in ws
    ensures v == w
  {
    assert LexLe(v, w) && LexLe(w, v);
  }

  // ---------- the running minimum, where zero means none yet

  function NextMin(cur: U16, x: U16): U16 {
    if cur == 0 || x < cur then x else cur
  }

  function RunningMin(xs: seq<U16>): U16 {
    if xs == [] then 0 else NextMin(RunningMin(xs[..|xs| - 1]), xs[|xs| - 1])
  }

  lemma {:induction false} RunningMinIsMin(xs: seq<U16>)
    requires forall x :: x in xs ==> x != 0
    ensures xs == [] ==> RunningMin(xs) == 0
    ensures xs != [] ==> RunningMin(xs) in xs && forall x :: x in xs ==> RunningMin(xs) <= x
  {
    if xs != [] {
      var front, last := xs[..|xs| - 1], xs[|xs| - 1];
      assert xs == front + [last] && last in xs;
      assert forall x :: x in front ==> x in xs;
      RunningMinIsMin(front);
    }
  }

  lemma RunningMinNext(xs: seq<U16>, x: U16)
    ensures RunningMin(xs + [x]) == NextMin(RunningMin(xs), x)
  {
    assert (xs + [x])[..|xs|] == xs;
  }

  function Majors(vs: seq<Version>): (xs: seq<U16>)
    ensures forall x :: x in xs <==> exists v :: v in vs && v.major == x
  {
    if vs == [] then [] else
      assert vs == vs[..|vs| - 1] + [vs[|vs| - 1]];
      Majors(vs[..|vs| - 1]) + [vs[|vs| - 1].major]
  }

  /** The minor numbers that go with the chosen major. */
  function Minors(vs: seq<Version>, major: U16): (xs: seq<U16>)
    ensures forall x :: x in xs <==> exists v :: v in vs && v.major == major && v.minor == x
  {
    if vs == [] then [] else
      assert vs == vs[..|vs| - 1] + [vs[|vs| - 1]];
      var v := vs[|vs| - 1];
      Minors(vs[..|vs| - 1], major) + (if v.major == major then [v.minor] else [])
  }

  function Patches(vs: seq<Version>, major: U16, minor: U16): (xs: seq<U16>)
    ensures forall x :: x in xs <==> exists v :: v in vs && v.major == major && v.minor == minor && v.patch == x
  {
    if vs == [] then [] else
      assert vs == vs[..|vs| - 1] + [vs[|vs| - 1]];
      var v := vs[|vs| - 1];
      Patches(vs[..|vs| - 1], major, minor) + (if v.major == major && v.minor == minor then [v.patch] else [])
  }

  /** What the three loops leave for one kind of version; a zero field is an error. */
  function PickMin(vs: seq<Version>): Version {
    var major := RunningMin(Majors(vs));
    var minor := RunningMin(Minors(vs, major));
    Version(major, minor, RunningMin(Patches(vs, major, minor)))
  }

  /** Picking field by field finds the lexicographic minimum, provided no field is
      the unset marker. */
  lemma PickMinIsLexMin(vs: seq<Version>)
    requires vs != [] && forall v :: v in vs ==> NonZero(v)
    ensures IsLexMin(PickMin(vs), vs) && NonZero(PickMin(vs))
  {
    hide RunningMin;
    var v0 := vs[0];
    assert v0 in vs && v0.major in Majors(vs);
    RunningMinIsMin(Majors(vs));
    var major := RunningMin(Majors(vs));
    var v1 :| v1 in vs && v1.major == major;
    assert v1.minor in Minors(vs, major);
    RunningMinIsMin(Minors(vs, major));
    var minor := RunningMin(Minors(vs, major));
    var v2 :| v2 in vs && v2.major == major && v2.minor == minor;
    assert v2.patch in Patches(vs, major, minor);
    RunningMinIsMin(Patches(vs, major, minor));
    var patch := RunningMin(Patches(vs, major, minor));
    var v3 :| v3 in vs && v3.major == major && v3.minor == minor && v3.patch == patch;
    assert v3 == PickMin(vs);
    forall w | w in vs ensures LexLe(v3, w) {
      assert w.major in Majors(vs);
      if w.major == major {
        assert w.minor in Minors(vs, major);
        if w.minor == minor { assert w.patch in Patches(vs, major, minor); }
      }
    }
  }

  /** The choice between two announcements depends on their order exactly when one
      has a zero in the first field in which they differ. */
  lemma ZeroDependsOnOrder(a: Version, b: Version)
    ensures PickMin([a, b]) != PickMin([b, a]) <==>
            if a.major != b.major then a.major == 0 || b.major == 0
            else if a.minor != b.minor then a.minor == 0 || b.minor == 0
            else a.patch != b.patch && (a.patch == 0 || b.patch == 0)
  {
    hide PickMin;
    PickTwo(a, b);
    PickTwo(b, a);
  }

  lemma PickTwo(a: Version, b: Version)
    ensures PickMin([a, b]) ==
            if a.major != b.major then if NextMin(a.major, b.major) == a.major then a else b
            else if a.minor != b.minor then if NextMin(a.minor, b.minor) == a.minor then a else b
            else Version(a.major, a.minor, NextMin(a.patch, b.patch))
  {
    hide RunningMin, Majors, Minors, Patches;
    var vs := [a, b];
    assert vs[..0] == [] && vs[..1] == [a] && vs[..2] == vs;
    NothingPicked(PickMin(vs).major, PickMin(vs).minor);
    MinNext(vs, 0, PickMin(vs).major, PickMin(vs).minor);
    MinNext(vs, 1, PickMin(vs).major, PickMin(vs).minor);
  }

  lemma NothingPicked(major: U16, minor: U16)
    ensures RunningMin(Majors([])) == 0 && RunningMin(Minors([], major)) == 0 && RunningMin(Patches([], major, minor)) == 0
  {
  }

  /** How each loop advances by one member. */
  lemma MinNext(vs: seq<Version>, i: nat, major: U16, minor: U16)
    requires i < |vs|
    ensures RunningMin(Majors(vs[..i + 1])) == NextMin(RunningMin(Majors(vs[..i])), vs[i].major)
    ensures RunningMin(Minors(vs[..i + 1], major)) ==
            if vs[i].major == major then NextMin(RunningMin(Minors(vs[..i], major)), vs[i].minor)
            else RunningMin(Minors(vs[..i], major))
    ensures RunningMin(Patches(vs[..i + 1], major, minor)) ==
            if vs[i].major == major && vs[i].minor == minor
            then NextMin(RunningMin(Patches(vs[..i], major, minor)), vs[i].patch)
            else RunningMin(Patches(vs[..i], major, minor))
  {
    hide RunningMin;
    PrefixNext(vs, i);
    var front, v := vs[..i], vs[i];
    assert Majors(vs[..i + 1]) == Majors(front) + [v.major];
    RunningMinNext(Majors(front), v.major);
    if v.major == major {
      assert Minors(vs[..i + 1], major) == Minors(front, major) + [v.minor];
      RunningMinNext(Minors(front, major), v.minor);
    } else {
      assert Minors(vs[..i + 1], major) == Minors(front, major);
    }
    if v.major == major && v.minor == minor {
      assert Patches(vs[..i + 1], major, minor) == Patches(front, major, minor) + [v.patch];
      RunningMinNext(Patches(front, major, minor), v.patch);
    } else {
      assert Patches(vs[..i + 1], major, minor) == Patches(front, major, minor);
    }
  }

  lemma PrefixNext(vs: seq<Version>, i: nat)
    requires i < |vs|
    ensures vs[..i + 1][..i] == vs[..i] && |vs[..i + 1]| == i + 1 && vs[..i + 1][i] == vs[i]
  {
  }

  // ---------- the nodes a daemon knows

  function FindNode(nodes: seq<DaemonNode>, nodeid: int): (r: Option<nat>)
    ensures r.Some? ==> r.value < |nodes| && nodes[r.value].nodeid == nodeid
    ensures r.None? ==> forall n :: n in nodes ==> n.nodeid != nodeid
  {
    if nodes == [] then None
    else if nodes[0].nodeid == nodeid then Some(0)
    else match FindNode(nodes[1..], nodeid) case None => None case Some(i) => Some(i + 1)
  }

  predicate AllKnown(nodes: seq<DaemonNode>, members: seq<int>) {
    forall i :: 0 <= i < |members| ==> FindNode(nodes, members[i]).Some?
  }

  function ProtoOf(nodes: seq<DaemonNode>, nodeid: int): Proto
    requires FindNode(nodes, nodeid).Some?
  {
    nodes[FindNode(nodes, nodeid).value].proto
  }

  function DaemonMaxes(nodes: seq<DaemonNode>, members: seq<int>): (vs: seq<Version>)
    requires AllKnown(nodes, members)
    ensures |vs| == |members| && forall i :: 0 <= i < |vs| ==> vs[i] == ProtoOf(nodes, members[i]).daemonMax
  {
    seq(|members|, i requires 0 <= i < |members| => ProtoOf(nodes, members[i]).daemonMax)
  }

  function KernelMaxes(nodes: seq<DaemonNode>, members: seq<int>): (vs: seq<Version>)
    requires AllKnown(nodes, members)
    ensures |vs| == |members| && forall i :: 0 <= i < |vs| ==> vs[i] == ProtoOf(nodes, members[i]).kernelMax
  {
    seq(|members|, i requires 0 <= i < |members| => ProtoOf(nodes, members[i]).kernelMax)
  }

  predicate ValidMax(p: Proto) {
    NonZero(p.daemonMax) && NonZero(p.kernelMax)
  }

  /** Run values are all unset or all set. */
  predicate ValidRun(p: Proto) {
    p.daemonRun.major == 0 || (NonZero(p.daemonRun) && NonZero(p.kernelRun))
  }

  /** A node's entry is blank until a valid message has been stored in it. */
  predicate NodesOk(nodes: seq<DaemonNode>) {
    forall i :: 0 <= i < |nodes| ==> nodes[i].proto == Proto(Unset, Unset, Unset, Unset) || ValidMax(nodes[i].proto)
  }

  /** What one message does to our own run values. */
  function Adopt(our: Proto, p: Proto): Proto {
    if ValidMax(p) && ValidRun(p) && our.daemonRun.major == 0 && p.daemonRun.major != 0
    then our.(daemonRun := p.daemonRun, kernelRun := p.kernelRun) else our
  }

  function AdoptAll(our: Proto, msgs: seq<Proto>): Proto
    decreases |msgs|
  {
    if msgs == [] then our else AdoptAll(Adopt(our, msgs[0]), msgs[1..])
  }

  /** `p` proposes run values a receiver accepts. */
  predicate Proposes(p: Proto) {
    ValidMax(p) && ValidRun(p) && p.daemonRun.major != 0
  }

  lemma {:induction false} AdoptedStays(our: Proto, msgs: seq<Proto>)
    requires our.daemonRun.major != 0
    ensures AdoptAll(our, msgs) == our
    decreases |msgs|
  {
    if msgs != [] { AdoptedStays(our, msgs[1..]); }
  }

  /** A daemon that starts with no run values ends up with those of the first
      acceptable proposal delivered, so daemons with the same deliveries agree. */
  lemma {:induction false} FirstProposalWins(our: Proto, msgs: seq<Proto>)
    requires our.daemonRun.major == 0
    ensures var after := AdoptAll(our, msgs);
            if exists i :: 0 <= i < |msgs| && Proposes(msgs[i])
            then exists i :: 0 <= i < |msgs| && Proposes(msgs[i]) && (forall j :: 0 <= j < i ==> !Proposes(msgs[j])) &&
                   after == our.(daemonRun := msgs[i].daemonRun, kernelRun := msgs[i].kernelRun)
            else after == our
  {
    hide Proposes, Adopt;
    if msgs == [] { return; }
    var rest := msgs[1..];
    assert forall j :: 0 < j < |msgs| ==> msgs[j] == rest[j - 1];
    AdoptOne(our, msgs[0]);
    if Proposes(msgs[0]) {
      AdoptedStays(Adopt(our, msgs[0]), rest);
    } else {
      FirstProposalWins(our, rest);
      if k :| 0 <= k < |rest| && Proposes(rest[k]) && (forall j :: 0 <= j < k ==> !Proposes(rest[j])) &&
              AdoptAll(our, rest) == our.(daemonRun := rest[k].daemonRun, kernelRun := rest[k].kernelRun) {
        assert Proposes(msgs[k + 1]) && forall j :: 0 <= j < k + 1 ==> !Proposes(msgs[j]);
      } else {
        assert forall j :: 0 <= j < |rest| ==> !Proposes(rest[j]);
      }
    }
  }

  lemma AdoptOne(our: Proto, p: Proto)
    requires our.daemonRun.major == 0
    ensures Adopt(our, p) == if Proposes(p) then our.(daemonRun := p.daemonRun, kernelRun := p.kernelRun) else our
    ensures Proposes(p) ==> Adopt(our, p).daemonRun.major != 0
  {
  }

  /** Run values, once adopted, have no zero field. */
  lemma {:induction false} AdoptedIsSet(our: Proto, msgs: seq<Proto>)
    requires our.daemonRun.major == 0
    ensures var after := AdoptAll(our, msgs);
            after.daemonRun.major != 0 ==> NonZero(after.daemonRun) && NonZero(after.kernelRun)
  {
    hide AdoptAll;
    FirstProposalWins(our, msgs);
  }

  class Daemon {
    var nodes: seq<DaemonNode>
    var members: seq<int>
    var our: Proto

    ghost predicate Valid()
      reads this
    {
      NodesOk(nodes)
    }

    constructor (ourMax: Proto)
      ensures Valid() && nodes == [] && members == [] && our == ourMax
    {
      nodes, members, our := [], [], ourMax;
    }

    method GetNodeDaemon(nodeid: int) returns (r: Option<nat>)
      ensures r == FindNode(nodes, nodeid)
    {
      var i := 0;
      while i < |nodes|
        invariant 0 <= i <= |nodes|
        invariant FindNode(nodes, nodeid) ==
          match FindNode(nodes[i..], nodeid) case None => None case Some(k) => Some(k + i)
      {
        if nodes[i].nodeid == nodeid {
          return Some(i);
        }
        i := i + 1;
      }
      return None;
    }

    method AddNodeDaemon(nodeid: int)
      requires Valid()
      modifies `nodes
      ensures Valid()
      ensures nodes == if FindNode(old(nodes), nodeid).Some? then old(nodes)
                       else old(nodes) + [DaemonNode(nodeid, Proto(Unset, Unset, Unset, Unset))]
    {
      var found := GetNodeDaemon(nodeid);
      if found.None? {
        nodes := nodes + [DaemonNode(nodeid, Proto(Unset, Unset, Unset, Unset))];
      }
    }

    method ReceiveProtocol(from: int, p: Proto)
      requires Valid()
      modifies `nodes, `our
      ensures Valid() && our == Adopt(old(our), p)
      ensures nodes ==
        var i := FindNode(old(nodes), from);
        if ValidMax(p) && ValidRun(p) && old(our).daemonRun.major == 0 && p.daemonRun.major == 0 && i.Some?
        then old(nodes)[i.value := old(nodes)[i.value].(proto := p)] else old(nodes)
    {
      if p.daemonMax.major == 0 || p.daemonMax.minor == 0 || p.daemonMax.patch == 0 ||
         p.kernelMax.major == 0 || p.kernelMax.minor == 0 || p.kernelMax.patch == 0 {
        return;
      }
      if p.daemonRun.major != 0 && (p.daemonRun.minor == 0 || p.daemonRun.patch == 0 ||
         p.kernelRun.major == 0 || p.kernelRun.minor == 0 || p.kernelRun.patch == 0) {
        return;
      }
      if our.daemonRun.major != 0 {
        return;
      }
      if p.daemonRun.major != 0 {
        our := our.(daemonRun := p.daemonRun, kernelRun := p.kernelRun);
        return;
      }
      var i := GetNodeDaemon(from);
      if i.None? {
        return;
      }
      nodes := nodes[i.value := nodes[i.value].(proto := p)];
    }

    method AllProtocolMessages() returns (all: bool)
      ensures all <==> members != [] && AllKnown(nodes, members) &&
                       forall i :: 0 <= i < |members| ==> ProtoOf(nodes, members[i]).daemonMax.major != 0
    {
      if members == [] {
        return false;
      }
      var i := 0;
      while i < |members|
        invariant 0 <= i <= |members|
        invariant forall k :: 0 <= k < i ==>
          FindNode(nodes, members[k]).Some? && ProtoOf(nodes, members[k]).daemonMax.major != 0
      {
        var n := GetNodeDaemon(members[i]);
        if n.None? {
          return false;
        }
        if nodes[n.value].proto.daemonMax.major == 0 {
          return false;
        }
        i := i + 1;
      }
      return true;
    }

    method MinMajors() returns (known: bool, d: U16, k: U16)
      ensures known <==> AllKnown(nodes, members)
      ensures known ==> d == RunningMin(Majors(DaemonMaxes(nodes, members))) &&
                        k == RunningMin(Majors(KernelMaxes(nodes, members)))
    {
      hide RunningMin, Majors, DaemonMaxes, KernelMaxes;
      d, k := 0, 0;
      var i := 0;
      NoneYet(nodes, members, 0, 0);
      while i < |members|
        invariant 0 <= i <= |members| && AllKnown(nodes, members[..i])
        invariant d == RunningMin(Majors(DaemonMaxes(nodes, members[..i])))
        invariant k == RunningMin(Majors(KernelMaxes(nodes, members[..i])))
      {
        var n := GetNodeDaemon(members[i]);
        if n.None? {
          return false, 0, 0;
        }
        var proto := nodes[n.value].proto;
        MaxesNext(nodes, members, i, 0, 0);
        if d == 0 || proto.daemonMax.major < d {
          d := proto.daemonMax.major;
        }
        if k == 0 || proto.kernelMax.major < k {
          k := proto.kernelMax.major;
        }
        i := i + 1;
      }
      assert members[..i] == members;
      known := true;
    }

    method MinMinors(d0: U16, k0: U16) returns (d: U16, k: U16)
      requires AllKnown(nodes, members)
      ensures d == RunningMin(Minors(DaemonMaxes(nodes, members), d0))
      ensures k == RunningMin(Minors(KernelMaxes(nodes, members), k0))
    {
      hide RunningMin, Minors, DaemonMaxes, KernelMaxes;
      d, k := 0, 0;
      var i := 0;
      NoneYet(nodes, members, d0, 0);
      NoneYet(nodes, members, k0, 0);
      while i < |members|
        invariant 0 <= i <= |members| && AllKnown(nodes, members[..i])
        invariant d == RunningMin(Minors(DaemonMaxes(nodes, members[..i]), d0))
        invariant k == RunningMin(Minors(KernelMaxes(nodes, members[..i]), k0))
      {
        var n := GetNodeDaemon(members[i]);
        var proto := nodes[n.value].proto;
        MaxesNext(nodes, members, i, d0, 0);
        MaxesNext(nodes, members, i, k0, 0);
        if d0 == proto.daemonMax.major {
          if d == 0 || proto.daemonMax.minor < d {
            d := proto.daemonMax.minor;
          }
        }
        if k0 == proto.kernelMax.major {
          if k == 0 || proto.kernelMax.minor < k {
            k := proto.kernelMax.minor;
          }
        }
        i := i + 1;
      }
      assert members[..i] == members;
    }

    method MinPatches(d0: U16, d1: U16, k0: U16, k1: U16) returns (d: U16, k: U16)
      requires AllKnown(nodes, members)
      ensures d == RunningMin(Patches(DaemonMaxes(nodes, members), d0, d1))
      ensures k == RunningMin(Patches(KernelMaxes(nodes, members), k0, k1))
    {
      hide RunningMin, Patches, DaemonMaxes, KernelMaxes;
      d, k := 0, 0;
      var i := 0;
      NoneYet(nodes, members, d0, d1);
      NoneYet(nodes, members, k0, k1);
      while i < |members|
        invariant 0 <= i <= |members| && AllKnown(nodes, members[..i])
        invariant d == RunningMin(Patches(DaemonMaxes(nodes, members[..i]), d0, d1))
        invariant k == RunningMin(Patches(KernelMaxes(nodes, members[..i]), k0, k1))
      {
        var n := GetNodeDaemon(members[i]);
        var proto := nodes[n.value].proto;
        MaxesNext(nodes, members, i, d0, d1);
        MaxesNext(nodes, members, i, k0, k1);
        if d0 == proto.daemonMax.major && d1 == proto.daemonMax.minor {
          if d == 0 || proto.daemonMax.patch < d {
            d := proto.daemonMax.patch;
          }
        }
        if k0 == proto.kernelMax.major && k1 == proto.kernelMax.minor {
          if k == 0 || proto.kernelMax.patch < k {
            k := proto.kernelMax.patch;
          }
        }
        i := i + 1;
      }
      assert members[..i] == members;
    }

    /** The three loops of pick_min_protocol, on any table of nodes. */
    method PickMinProtocol() returns (r: Option<(Version, Version)>)
      ensures !AllKnown(nodes, members) ==> r.None?
      ensures AllKnown(nodes, members) ==>
                var d, k := PickMin(DaemonMaxes(nodes, members)), PickMin(KernelMaxes(nodes, members));
                r == if NonZero(d) && NonZero(k) then Some((d, k)) else None
    {
      var known, d0, k0 := MinMajors();
      if !known {
        return None;
      }
      if d0 == 0 || k0 == 0 {
        return None;
      }
      var d1, k1 := MinMinors(d0, k0);
      if d1 == 0 || k1 == 0 {
        return None;
      }
      var d2, k2 := MinPatches(d0, d1, k0, k1);
      if d2 == 0 || k2 == 0 {
        return None;
      }
      return Some((Version(d0, d1, d2), Version(k0, k1, k2)));
    }

    /** One round of set_protocol: as soon as every member has announced itself,
        the proposal exists and is the minimum of what they can do. */
    method Propose() returns (r: Option<(Version, Version)>)
      requires Valid()
      ensures r.Some? <==> members != [] && AllKnown(nodes, members) &&
                           forall i :: 0 <= i < |members| ==> ProtoOf(nodes, members[i]).daemonMax.major != 0
      ensures r.Some? ==>
                && IsLexMin(r.value.0, DaemonMaxes(nodes, members))
                && IsLexMin(r.value.1, KernelMaxes(nodes, members))
    {
      hide PickMin, IsLexMin;
      var all := AllProtocolMessages();
      if !all {
        return None;
      }
      r := PickMinProtocol();
      AllStored(nodes, members);
      PickMinIsLexMin(DaemonMaxes(nodes, members));
      PickMinIsLexMin(KernelMaxes(nodes, members));
    }
  }

  lemma NoneYet(nodes: seq<DaemonNode>, members: seq<int>, major: U16, minor: U16)
    ensures AllKnown(nodes, members[..0])
    ensures RunningMin(Majors(DaemonMaxes(nodes, members[..0]))) == 0 == RunningMin(Majors(KernelMaxes(nodes, members[..0])))
    ensures RunningMin(Minors(DaemonMaxes(nodes, members[..0]), major)) == 0
    ensures RunningMin(Minors(KernelMaxes(nodes, members[..0]), major)) == 0
    ensures RunningMin(Patches(DaemonMaxes(nodes, members[..0]), major, minor)) == 0
    ensures RunningMin(Patches(KernelMaxes(nodes, members[..0]), major, minor)) == 0
  {
  }

  lemma MaxesNext(nodes: seq<DaemonNode>, members: seq<int>, i: nat, major: U16, minor: U16)
    requires i < |members| && AllKnown(nodes, members[..i]) && FindNode(nodes, members[i]).Some?
    ensures AllKnown(nodes, members[..i + 1])
    ensures StepsTo(DaemonMaxes(nodes, members[..i]), DaemonMaxes(nodes, members[..i + 1]),
                    ProtoOf(nodes, members[i]).daemonMax, major, minor)
    ensures StepsTo(KernelMaxes(nodes, members[..i]), KernelMaxes(nodes, members[..i + 1]),
                    ProtoOf(nodes, members[i]).kernelMax, major, minor)
  {
    hide StepsTo;
    var all := members[..i + 1];
    forall k | 0 <= k < i + 1 ensures FindNode(nodes, all[k]).Some? {
      if k < i { assert members[..i][k] == all[k]; }
    }
    var ds, ks := DaemonMaxes(nodes, all), KernelMaxes(nodes, all);
    assert ds[..i] == DaemonMaxes(nodes, members[..i]) && ks[..i] == KernelMaxes(nodes, members[..i]);
    StepsToNext(ds, i, major, minor);
    StepsToNext(ks, i, major, minor);
  }

  predicate StepsTo(vs: seq<Version>, ws: seq<Version>, v: Version, major: U16, minor: U16) {
    && RunningMin(Majors(ws)) == NextMin(RunningMin(Majors(vs)), v.major)
    && RunningMin(Minors(ws, major)) ==
       (if v.major == major then NextMin(RunningMin(Minors(vs, major)), v.minor) else RunningMin(Minors(vs, major)))
    && RunningMin(Patches(ws, major, minor)) ==
       (if v.major == major && v.minor == minor then NextMin(RunningMin(Patches(vs, major, minor)), v.patch)
        else RunningMin(Patches(vs, major, minor)))
  }

  lemma StepsToNext(vs: seq<Version>, i: nat, major: U16, minor: U16)
    requires i + 1 == |vs|
    ensures StepsTo(vs[..i], vs, vs[i], major, minor)
  {
    assert vs[..i + 1] == vs;
    MinNext(vs, i, major, minor);
  }

  /** An entry whose major is set was stored from a valid message. */
  lemma AllStored(nodes: seq<DaemonNode>, members: seq<int>)
    requires NodesOk(nodes) && AllKnown(nodes, members)
    requires forall i :: 0 <= i < |members| ==> ProtoOf(nodes, members[i]).daemonMax.major != 0
    ensures forall v :: v in DaemonMaxes(nodes, members) ==> NonZero(v)
    ensures forall v :: v in KernelMaxes(nodes, members) ==> NonZero(v)
  {
    forall i | 0 <= i < |members| ensures ValidMax(ProtoOf(nodes, members[i])) {
    }
  }
}
