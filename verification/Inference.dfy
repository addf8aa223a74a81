/** The bus read back: what the master discovers of a wired scene gives the scene's own
    tree and ports again. The wiring (tools/kickui/Simulator.cc, EmulatedNetwork.cc) and
    the inference (Diagnostics.cc, TopologyView.cc) are written independently; here they
    are shown to be inverse. */
module Inference {
  import opened SceneTree
  import opened ScenePorts
  import opened SimScene
  import opened Wiring
  import opened EmulatedNetwork
  import opened FrameWalk
  import opened Discovery
  import opened DiscoveryCorrect
  import opened PortRouting

  // ---- Communication flags --------------------------------------------------

  /** The flags of a slave with `m` children, `extra` when it closes the ring. */
  function Flags(m: nat, extra: bool): (r: seq<bool>)
    ensures |r| == 4
  {
    [true, m >= 1 || extra, m >= 3, m >= 2]
  }

  /** The flags `computeDlStatus` writes for a slave. */
  function ComFlags(n: Node): (r: seq<bool>)
    requires |n| == 4
    ensures |r| == 4
  {
    [Linked(n[0]), Linked(n[1]), Linked(n[2]), Linked(n[3])]
  }

  lemma {:induction false} ChildOnExists(ps: Parents, v: nat, p: nat, m: nat)
    requires ValidTree(ps) && v < |ps| && m <= |ps| && 1 <= p <= 3
    ensures ChildOn(ps, v, p, m) >= 0 <==> Turn(p) < CountBefore(ps, v, m)
    decreases m
  {
    if m > 0 {
      ChildOnExists(ps, v, p, m - 1);
      if ps[m - 1] == v {
        assert PortOf(ps, m - 1) == DownstreamPort(CountBefore(ps, v, m - 1));
      }
    }
  }

  /** In a wired scene a slave communicates upwards, on one port per child in the order
      1, 3, 2, and towards the master where the ring closes. */
  lemma {:induction false} FlagsOfScene(nodes: seq<Node>, ps: Parents, kids: Kids, ring: bool, v: nat)
    requires ValidTree(ps) && SceneWired(nodes, ps, ring) && Lists(ps, kids) && v < |ps|
    ensures |nodes[v]| == 4 && ComFlags(nodes[v]) == Flags(|kids[v]|, ring && v == |ps| - 1)
  {
    KidsCount(ps, kids, v);
    ChildOnExists(ps, v, 1, |ps|);
    ChildOnExists(ps, v, 2, |ps|);
    ChildOnExists(ps, v, 3, |ps|);
    forall p | 0 <= p < 4
      ensures nodes[v][p] == Marked(WiredPort(ps, |ps|, v, p), Endpoint(v, p), Endpoint(0, 0), RingEnd(ps, ring))
    {}
    hide ChildOn, CountBefore;
    assert Linked(nodes[v][0]);
  }

  lemma {:induction false} OpenOfFlags(address: int, m: nat, extra: bool)
    requires m <= 3 && (extra ==> m == 0)
    ensures OpenPorts(BusSlave(address, Flags(m, extra))) == 1 + m + if extra then 1 else 0
  {
    var com := Flags(m, extra);
    assert OpenBefore(com, 1) == 1;
    assert OpenBefore(com, 2) == 1 + if com[1] then 1 else 0;
    assert OpenBefore(com, 3) == OpenBefore(com, 2) + if com[2] then 1 else 0;
    assert OpenBefore(com, 4) == OpenBefore(com, 3) + if com[3] then 1 else 0;
  }

  /** Downstream of its port 0, a slave with `m` children uses its first `m` ports. */
  lemma {:induction false} DownOfFlags(n: TopologyNode, m: nat, extra: bool)
    requires n.com == Flags(m, extra) && m <= 3
    ensures Upstream(n.com) == 0
    ensures m > 0 || !extra ==> Down(n) == PortsInUse(m)
  {
    var com := n.com;
    assert DownBefore(com, 0, 1) == [];
    assert DownBefore(com, 0, 2) == if com[3] then [3] else [];
    assert DownBefore(com, 0, 3) == DownBefore(com, 0, 2) + if com[1] then [1] else [];
    assert DownBefore(com, 0, 4) == DownBefore(com, 0, 3) + if com[2] then [2] else [];
  }

  // ---- The discovered bus ---------------------------------------------------

  ghost predicate Distinct(addr: seq<int>) {
    forall j, k :: 0 <= j < k < |addr| ==> addr[j] != addr[k]
  }

  lemma {:induction false} Injective(addr: seq<int>, x: nat, y: nat)
    requires Distinct(addr) && x < |addr| && y < |addr| && addr[x] == addr[y]
    ensures x == y
  {}

  lemma {:induction false} Apart(addr: seq<int>, x: nat, y: nat)
    requires Distinct(addr) && x < |addr| && y < |addr| && x != y
    ensures addr[x] != addr[y]
  {}

  /** A single-rooted scene with at most three children per slave, scanned in processing
      order. */
  ghost predicate Scanned(ps: Parents, kids: Kids, s: seq<int>) {
    && ValidTree(ps) && Ranked(ps, kids) && Forest(kids) && ThreeKidsAtMost(kids)
    && s == PreOrder(kids, 0)
  }

  /** The tree as discovered: slaves in scan order, naming their parents by address. */
  ghost predicate TreeOf(nodes: seq<TopologyNode>, ps: Parents, kids: Kids, s: seq<int>, ring: bool, addr: seq<int>) {
    && |nodes| == |s| && |addr| == |ps| == |kids| && ValidTree(ps)
    && forall k :: 0 <= k < |s| ==>
         0 <= s[k] < |ps|
         && nodes[k] == TopologyNode(addr[s[k]], addr[ParentOrSelf(ps, s[k])],
                                     Flags(|kids[s[k]]|, ring && s[k] == |ps| - 1))
  }

  lemma {:induction false} PreOrderDistinct(ps: Parents, kids: Kids, s: seq<int>)
    requires Scanned(ps, kids, s)
    ensures |s| == |ps|
    ensures forall k :: 0 <= k < |s| ==> 0 <= s[k] < |ps|
    ensures forall j, k :: 0 <= j < k < |s| ==> s[j] != s[k]
    ensures forall v :: 0 <= v < |ps| ==> v in s
  {
    PreOrderIsPermutation(ps, kids);
    forall j, k | 0 <= j < k < |s| ensures s[j] != s[k] {
      if s[j] == s[k] {
        CountTwo(s, j, k);
        PreOrderCount(ps, kids, 0, s[j]);
      }
    }
    forall v | 0 <= v < |ps| ensures v in s {
      PreOrderCount(ps, kids, 0, v);
      RootAboveAll(ps, v);
      assert v in multiset(s);
    }
  }

  /** By address, `j` hangs on `i` exactly when the tree says so. */
  lemma {:induction false} HangsOnIsParent(nodes: seq<TopologyNode>, ps: Parents, kids: Kids, s: seq<int>, ring: bool,
                                           addr: seq<int>, j: nat, i: nat)
    requires TreeOf(nodes, ps, kids, s, ring, addr) && Distinct(addr) && i < |s| && j < |s|
    requires forall a, b :: 0 <= a < b < |s| ==> s[a] != s[b]
    ensures HangsOn(nodes, j, i) <==> ps[s[j]] == s[i]
  {
    if HangsOn(nodes, j, i) { Injective(addr, ParentOrSelf(ps, s[j]), s[i]); }
  }

  /** Counting children by address counts the children scanned so far. */
  lemma {:induction false} KidsBeforeIsHanging(nodes: seq<TopologyNode>, ps: Parents, kids: Kids, s: seq<int>,
                                               ring: bool, addr: seq<int>, i: nat, m: nat)
    requires TreeOf(nodes, ps, kids, s, ring, addr) && Distinct(addr) && i < |s| && m <= |s|
    requires forall a, b :: 0 <= a < b < |s| ==> s[a] != s[b]
    ensures KidsBefore(nodes, i, m) == |HangingOn(ps, s[..m], s[i])|
    decreases m
  {
    if m > 0 {
      KidsBeforeIsHanging(nodes, ps, kids, s, ring, addr, i, m - 1);
      HangsOnIsParent(nodes, ps, kids, s, ring, addr, m - 1, i);
      assert s[..m] == s[..m - 1] + [s[m - 1]];
      HangingOnConcat(ps, s[..m - 1], [s[m - 1]], s[i]);
      HangingOnOne(ps, s[m - 1], s[i]);
    }
  }

  lemma {:induction false} HangingOnOne(ps: Parents, x: nat, v: int)
    requires x < |ps|
    ensures HangingOn(ps, [x], v) == Self(ps, x, v)
  {
    assert [x][1..] == [];
    assert HangingOn(ps, [], v) == [];
  }

  /** The number of children of its parent scanned before it is a slave's place in the
      list. */
  lemma {:induction false} PlaceInList(ps: Parents, kids: Kids, s: seq<int>, j: nat)
    requires Scanned(ps, kids, s) && j < |s| && s[j] != 0
    requires forall k :: 0 <= k < |s| ==> 0 <= s[k] < |ps|
    ensures 0 <= ps[s[j]] < |ps|
    ensures var k := |HangingOn(ps, s[..j], ps[s[j]])|; k < |kids[ps[s[j]]]| && kids[ps[s[j]]][k] == s[j]
  {
    hide HangingOn, PreOrder, Lists, SortedByRank;
    var p := ps[s[j]];
    ScanMeetsKids(ps, kids, p);
    var before, after := s[..j], s[j + 1..];
    assert s == before + ([s[j]] + after);
    HangingOnConcat(ps, before, [s[j]] + after, p);
    HangingOnConcat(ps, [s[j]], after, p);
    HangingOnOne(ps, s[j], p);
  }

  lemma {:induction false} OnlyParent(nodes: seq<TopologyNode>, j: nat, i: nat, m: nat)
    requires FourPorts(nodes) && i < m <= |nodes| && j < |nodes| && HangsOn(nodes, j, i)
    requires forall l :: 0 <= l < |nodes| && HangsOn(nodes, j, l) ==> l == i
    ensures ParentPort(nodes, j, m) == PortFor(nodes[i], KidsBefore(nodes, i, j))
    decreases m
  {
    if m - 1 != i { OnlyParent(nodes, j, i, m - 1); }
  }

  lemma {:induction false} NoParent(nodes: seq<TopologyNode>, j: nat, m: nat)
    requires FourPorts(nodes) && m <= |nodes| && j < |nodes|
    requires forall l :: 0 <= l < |nodes| ==> !HangsOn(nodes, j, l)
    ensures ParentPort(nodes, j, m) == -1
    decreases m
  {
    if m > 0 { NoParent(nodes, j, m - 1); }
  }

  /** Routing computed from the discovered tree: every slave is entered by port 0 and sits
      on exactly the port its scene gave it; the root on none. The port that closes the
      ring does not disturb this. */
  lemma {:induction false} RoutingInvertsWiring(nodes: seq<TopologyNode>, ps: Parents, kids: Kids, s: seq<int>,
                                                ring: bool, addr: seq<int>, j: nat)
    requires Scanned(ps, kids, s) && TreeOf(nodes, ps, kids, s, ring, addr) && Distinct(addr) && j < |s|
    ensures FourPorts(nodes)
    ensures Upstream(nodes[j].com) == 0
    ensures ParentPort(nodes, j, |nodes|) == PortOf(ps, s[j])
  {
    hide HangingOn, PreOrder, KidsBefore, ParentPort, CountBefore, Lists, Below;
    PreOrderDistinct(ps, kids, s);
    DownOfFlags(nodes[j], |kids[s[j]]|, ring && s[j] == |ps| - 1);
    if s[j] == 0 {
      RootHangsNowhere(nodes, ps, kids, s, ring, addr, j);
      NoParent(nodes, j, |nodes|);
    } else {
      var i := ParentAt(nodes, ps, kids, s, ring, addr, j);
      OnlyParent(nodes, j, i, |nodes|);
      KidsBeforeIsHanging(nodes, ps, kids, s, ring, addr, i, j);
      PlaceInList(ps, kids, s, j);
      DownOfFlags(nodes[i], |kids[s[i]]|, ring && s[i] == |ps| - 1);
      PortsAlongScan(ps, kids, s[i]);
    }
  }

  lemma {:induction false} RootHangsNowhere(nodes: seq<TopologyNode>, ps: Parents, kids: Kids, s: seq<int>,
                                            ring: bool, addr: seq<int>, j: nat)
    requires TreeOf(nodes, ps, kids, s, ring, addr) && Distinct(addr) && j < |s| && s[j] == 0
    requires forall a, b :: 0 <= a < b < |s| ==> s[a] != s[b]
    ensures forall l :: 0 <= l < |nodes| ==> !HangsOn(nodes, j, l)
  {
    forall l | 0 <= l < |nodes| ensures !HangsOn(nodes, j, l) {
      HangsOnIsParent(nodes, ps, kids, s, ring, addr, j, l);
    }
  }

  /** Where the parent of the `j`-th slave was scanned. */
  lemma {:induction false} ParentAt(nodes: seq<TopologyNode>, ps: Parents, kids: Kids, s: seq<int>, ring: bool,
                                    addr: seq<int>, j: nat) returns (i: nat)
    requires TreeOf(nodes, ps, kids, s, ring, addr) && Distinct(addr) && j < |s| && s[j] != 0
    requires forall a, b :: 0 <= a < b < |s| ==> s[a] != s[b]
    requires forall v :: 0 <= v < |ps| ==> v in s
    ensures i < |s| && s[i] == ps[s[j]] && HangsOn(nodes, j, i)
    ensures forall l :: 0 <= l < |nodes| && HangsOn(nodes, j, l) ==> l == i
  {
    assert ps[s[j]] in s;
    i :| 0 <= i < |s| && s[i] == ps[s[j]];
    HangsOnIsParent(nodes, ps, kids, s, ring, addr, j, i);
    forall l | 0 <= l < |nodes| && HangsOn(nodes, j, l) ensures l == i {
      HangsOnIsParent(nodes, ps, kids, s, ring, addr, j, l);
    }
  }

  // ---- From the wire to the tree --------------------------------------------

  /** `computeTopology`: the discovered parents, or a flat list when discovery fails. */
  method ComputeTopology(slaves: seq<BusSlave>) returns (valid: bool, nodes: seq<TopologyNode>)
    ensures valid <==> slaves != [] && AllOpen(slaves)
    ensures |nodes| == |slaves|
    ensures forall i :: 0 <= i < |slaves| ==>
              nodes[i] == TopologyNode(slaves[i].address, ReportedParent(slaves, slaves[i].address), slaves[i].com)
  {
    var found := GetTopology(slaves);
    valid := found.Found?;
    nodes := [];
    for i := 0 to |slaves|
      invariant |nodes| == i
      invariant forall k :: 0 <= k < i ==>
                  nodes[k] == TopologyNode(slaves[k].address, ReportedParent(slaves, slaves[k].address), slaves[k].com)
    {
      var parent := slaves[i].address;
      if found.Found? && parent in found.parent {
        parent := found.parent[parent];
      }
      nodes := nodes + [TopologyNode(slaves[i].address, parent, slaves[i].com)];
    }
  }

  /** The map `getTopology` returns when every slave has an open port. */
  function FoundParents(slaves: seq<BusSlave>): map<int, int>
    requires slaves != [] && forall i :: 0 <= i < |slaves| ==> OpenPorts(slaves[i]) > 0
  {
    Zip(Addresses(slaves), Guess(Addresses(slaves), Opens(slaves), Cursor(slaves[0].address, [])))
  }

  ghost function ReportedParent(slaves: seq<BusSlave>, a: int): int {
    if slaves != [] && AllOpen(slaves) && a in FoundParents(slaves) then FoundParents(slaves)[a] else a
  }

  ghost predicate Within(xs: seq<int>, n: nat) {
    forall i :: 0 <= i < |xs| ==> 0 <= xs[i] < n
  }

  function AddressesOf(addr: seq<int>, xs: seq<int>): (r: seq<int>)
    requires Within(xs, |addr|)
    ensures |r| == |xs| && forall i :: 0 <= i < |r| ==> r[i] == addr[xs[i]]
  {
    seq(|xs|, i requires 0 <= i < |xs| => addr[xs[i]])
  }

  /** Guessing over addresses is guessing over slaves, translated. */
  lemma {:induction false} GuessByAddress(addr: seq<int>, xs: seq<int>, os: seq<nat>, c: Cursor)
    requires |xs| == |os| && Within(xs, |addr|) && 0 <= c.last < |addr| && Within(c.branches, |addr|)
    requires forall i :: 0 <= i < |os| ==> os[i] > 0
    ensures Within(Guess(xs, os, c), |addr|)
    ensures Guess(AddressesOf(addr, xs), os, Cursor(addr[c.last], AddressesOf(addr, c.branches)))
            == AddressesOf(addr, Guess(xs, os, c))
    decreases |xs|
  {
    if xs != [] {
      var d := Advance(c, xs[0], os[0]);
      assert Within(d.branches, |addr|) && 0 <= d.last < |addr|;
      AdvanceByAddress(addr, c, xs[0], os[0]);
      GuessByAddress(addr, xs[1..], os[1..], d);
      assert AddressesOf(addr, xs)[1..] == AddressesOf(addr, xs[1..]);
    }
  }

  lemma {:induction false} AdvanceByAddress(addr: seq<int>, c: Cursor, x: int, o: nat)
    requires 0 <= x < |addr| && 0 <= c.last < |addr| && Within(c.branches, |addr|) && o > 0
    ensures var d := Advance(c, x, o);
            && Within(d.branches, |addr|) && 0 <= d.last < |addr|
            && Advance(Cursor(addr[c.last], AddressesOf(addr, c.branches)), addr[x], o)
               == Cursor(addr[d.last], AddressesOf(addr, d.branches))
  {
    var br := c.branches;
    if o == 1 {
      if br != [] {
        assert AddressesOf(addr, br)[..|br| - 1] == AddressesOf(addr, br[..|br| - 1]);
      }
    } else {
      assert AddressesOf(addr, br + Repeat(x, o - 2)) == AddressesOf(addr, br) + Repeat(addr[x], o - 2);
    }
  }

  /** The bus of a wired scene, in scan order. */
  ghost predicate BusOf(slaves: seq<BusSlave>, nodes: seq<Node>, s: seq<int>, addr: seq<int>) {
    && |slaves| == |s| && |addr| == |nodes|
    && forall k :: 0 <= k < |s| ==>
         0 <= s[k] < |nodes| && |nodes[s[k]]| == 4 && slaves[k] == BusSlave(addr[s[k]], ComFlags(nodes[s[k]]))
  }

  function DegreesOf(kids: Kids): (deg: seq<nat>)
    ensures TreeDegrees(kids, deg)
  {
    seq(|kids|, v requires 0 <= v < |kids| => 1 + |kids[v]|)
  }

  lemma {:induction false} OpensOfBus(slaves: seq<BusSlave>, nodes: seq<Node>, ps: Parents, kids: Kids, s: seq<int>,
                                      ring: bool, addr: seq<int>)
    requires Scanned(ps, kids, s) && SceneWired(nodes, ps, ring) && BusOf(slaves, nodes, s, addr)
    ensures Within(s, |kids|) && Opens(slaves) == Along(RingDegrees(DegreesOf(kids), ring), s)
    ensures Within(s, |addr|) && Addresses(slaves) == AddressesOf(addr, s)
    ensures AllOpen(slaves)
  {
    forall k | 0 <= k < |s|
      ensures OpenPorts(slaves[k]) == RingDegrees(DegreesOf(kids), ring)[s[k]] && OpenPorts(slaves[k]) > 0
    {
      OpenOfSlave(nodes, ps, kids, ring, s[k], addr[s[k]]);
    }
  }

  lemma {:induction false} OpenOfSlave(nodes: seq<Node>, ps: Parents, kids: Kids, ring: bool, v: nat, a: int)
    requires ValidTree(ps) && Ranked(ps, kids) && Forest(kids) && ThreeKidsAtMost(kids)
    requires SceneWired(nodes, ps, ring) && v < |ps|
    ensures |nodes[v]| == 4
    ensures OpenPorts(BusSlave(a, ComFlags(nodes[v]))) == 1 + |kids[v]| + if ring && v == |ps| - 1 then 1 else 0
  {
    FlagsOfScene(nodes, ps, kids, ring, v);
    LeafOrNotLast(kids, v);
    OpenOfFlags(a, |kids[v]|, ring && v == |ps| - 1);
  }

  /** Discovery from the open ports of a wired scene reports every parent correctly if and
      only if there is no ring or its closing slave is scanned last. */
  lemma {:induction false} DiscoveryExact(slaves: seq<BusSlave>, nodes: seq<Node>, ps: Parents, kids: Kids,
                                          s: seq<int>, ring: bool, addr: seq<int>)
    requires Scanned(ps, kids, s) && SceneWired(nodes, ps, ring) && BusOf(slaves, nodes, s, addr) && Distinct(addr)
    ensures |s| == |ps| == |addr| && Within(s, |ps|) && AllOpen(slaves) && slaves != []
    ensures (forall k :: 0 <= k < |s| ==> ReportedParent(slaves, addr[s[k]]) == addr[ParentOrSelf(ps, s[k])])
            <==> !ring || s[|s| - 1] == |ps| - 1
  {
    hide *;
    SceneSizes(slaves, nodes, ps, kids, s, ring, addr);
    PreOrderDistinct(ps, kids, s);
    OpensOfBus(slaves, nodes, ps, kids, s, ring, addr);
    ScanStarts(ps, kids, s);
    GuessExact(ps, kids, DegreesOf(kids), ring);
    ReportedExact(slaves, ps, addr, s, Opens(slaves));
  }

  lemma {:induction false} SceneSizes(slaves: seq<BusSlave>, nodes: seq<Node>, ps: Parents, kids: Kids, s: seq<int>,
                                      ring: bool, addr: seq<int>)
    requires Scanned(ps, kids, s) && SceneWired(nodes, ps, ring) && BusOf(slaves, nodes, s, addr)
    ensures |kids| == |ps| == |nodes| == |addr| && |slaves| == |s|
  {
    hide PreOrder, Lists;
    RankedShape(ps, kids);
  }

  lemma {:induction false} RankedShape(ps: Parents, kids: Kids)
    requires Ranked(ps, kids)
    ensures |kids| == |ps|
  {
  }

  /** The map reports the right parents if and only if they were guessed right. */
  lemma {:induction false} ReportedExact(slaves: seq<BusSlave>, ps: Parents, addr: seq<int>, s: seq<int>, os: seq<nat>)
    requires ValidTree(ps) && Within(s, |ps|) && |addr| == |ps| && Distinct(addr) && s != [] && s[0] == 0
    requires forall j, k :: 0 <= j < k < |s| ==> s[j] != s[k]
    requires AllOpen(slaves) && Within(s, |addr|) && Addresses(slaves) == AddressesOf(addr, s) && Opens(slaves) == os
    ensures |s| == |os|
    ensures (forall k :: 0 <= k < |s| ==> ReportedParent(slaves, addr[s[k]]) == addr[ParentOrSelf(ps, s[k])])
            <==> Guess(s, os, Cursor(0, [])) == Expected(ps, s)
  {
    hide Guess, ReportedParent, Expected, OpenPorts, AddressesOf, Addresses, Opens, Distinct;
    assert |slaves| == |Addresses(slaves)| == |s| && |Opens(slaves)| == |slaves|;
    ReportedIsGuess(slaves, addr, s, os);
    var g := Guess(s, os, Cursor(0, []));
    SameByAddress(ps, addr, s, g);
    assert (forall k :: 0 <= k < |s| ==> ReportedParent(slaves, addr[s[k]]) == addr[ParentOrSelf(ps, s[k])])
           <==> forall k :: 0 <= k < |s| ==> addr[g[k]] == addr[ParentOrSelf(ps, s[k])];
  }

  lemma {:induction false} ScanStarts(ps: Parents, kids: Kids, s: seq<int>)
    requires Scanned(ps, kids, s)
    ensures s != [] && s[0] == 0 && s == PreOrder(kids, 0)
    ensures ValidTree(ps) && Lists(ps, kids) && Forest(kids)
  {}

  /** The map reports, for every slave, the address of the guessed parent. */
  lemma {:induction false} ReportedIsGuess(slaves: seq<BusSlave>, addr: seq<int>, s: seq<int>, os: seq<nat>)
    requires Within(s, |addr|) && Distinct(addr) && s != [] && s[0] == 0
    requires forall j, k :: 0 <= j < k < |s| ==> s[j] != s[k]
    requires AllOpen(slaves) && Addresses(slaves) == AddressesOf(addr, s) && Opens(slaves) == os
    ensures Within(Guess(s, os, Cursor(0, [])), |addr|)
    ensures forall k :: 0 <= k < |s| ==>
              ReportedParent(slaves, addr[s[k]]) == addr[Guess(s, os, Cursor(0, []))[k]]
  {
    hide Guess;
    assert |slaves| == |Addresses(slaves)| == |s|;
    var g := Guess(s, os, Cursor(0, []));
    GuessByAddress(addr, s, os, Cursor(0, []));
    assert AddressesOf(addr, []) == [];
    assert slaves[0].address == Addresses(slaves)[0] == addr[0];
    DistinctAlong(addr, s);
    forall k | 0 <= k < |s| ensures ReportedParent(slaves, addr[s[k]]) == addr[g[k]] {
      ZipLooksUp(AddressesOf(addr, s), AddressesOf(addr, g), k);
    }
  }

  lemma {:induction false} DistinctAlong(addr: seq<int>, s: seq<int>)
    requires Distinct(addr) && Within(s, |addr|) && forall j, k :: 0 <= j < k < |s| ==> s[j] != s[k]
    ensures forall j, k :: 0 <= j < k < |s| ==> AddressesOf(addr, s)[j] != AddressesOf(addr, s)[k]
  {
    forall j, k | 0 <= j < k < |s| ensures AddressesOf(addr, s)[j] != AddressesOf(addr, s)[k] {
      Apart(addr, s[j], s[k]);
    }
  }

  lemma {:induction false} SameByAddress(ps: Parents, addr: seq<int>, s: seq<int>, g: seq<int>)
    requires ValidTree(ps) && Distinct(addr) && |addr| == |ps| && |g| == |s| && Within(s, |ps|) && Within(g, |ps|)
    ensures (forall k :: 0 <= k < |s| ==> addr[g[k]] == addr[ParentOrSelf(ps, s[k])]) <==> g == Expected(ps, s)
  {
    if forall k :: 0 <= k < |s| ==> addr[g[k]] == addr[ParentOrSelf(ps, s[k])] {
      forall k | 0 <= k < |s| ensures g[k] == Expected(ps, s)[k] {
        Injective(addr, g[k], ParentOrSelf(ps, s[k]));
      }
    }
  }

  /** From the wire back to the scene: unless a ring closes on a slave that is not scanned
      last, the discovered tree is the scene's tree and the routing computed from it gives
      every slave the port it was plugged into. */
  lemma {:induction false} SceneRecovered(topo: seq<TopologyNode>, slaves: seq<BusSlave>, nodes: seq<Node>,
                                          ps: Parents, ring: bool, addr: seq<int>, j: nat)
    requires ValidTree(ps) && AllPlugged(ps) && SceneWired(nodes, ps, ring) && Distinct(addr)
    requires Forest(ScanKids(ps)) && BusOf(slaves, nodes, PreOrder(ScanKids(ps), 0), addr)
    requires |topo| == |slaves| && forall i :: 0 <= i < |slaves| ==>
               topo[i] == TopologyNode(slaves[i].address, ReportedParent(slaves, slaves[i].address), slaves[i].com)
    requires ring ==> slaves[|slaves| - 1].address == addr[|ps| - 1]
    requires j < |topo|
    ensures var s := PreOrder(ScanKids(ps), 0);
            && 0 <= s[j] < |ps|
            && FourPorts(topo)
            && topo[j].parentAddress == addr[ParentOrSelf(ps, s[j])]
            && Upstream(topo[j].com) == 0
            && ParentPort(topo, j, |topo|) == PortOf(ps, s[j])
  {
    hide PreOrder, Lists, Below, SortedByRank, Flags, ComFlags, ParentPort, Upstream, ReportedParent;
    var kids := ScanKids(ps);
    var s := PreOrder(kids, 0);
    ScanKidsRanked(ps);
    PluggedKids(ps, kids);
    PreOrderDistinct(ps, kids, s);
    if ring { Injective(addr, s[|s| - 1], |ps| - 1); }
    DiscoveryExact(slaves, nodes, ps, kids, s, ring, addr);
    forall k | 0 <= k < |s|
      ensures topo[k] == TopologyNode(addr[s[k]], addr[ParentOrSelf(ps, s[k])],
                                      Flags(|kids[s[k]]|, ring && s[k] == |ps| - 1))
    {
      FlagsOfScene(nodes, ps, kids, ring, s[k]);
    }
    RoutingInvertsWiring(topo, ps, kids, s, ring, addr, j);
  }

  /** The slave scanned after the end of a ring is hung on it, whatever its parent is. */
  lemma {:induction false} RingEndTakesNext(slaves: seq<BusSlave>, nodes: seq<Node>, ps: Parents, kids: Kids,
                                            s: seq<int>, addr: seq<int>, j: nat)
    requires Scanned(ps, kids, s) && SceneWired(nodes, ps, true) && BusOf(slaves, nodes, s, addr) && Distinct(addr)
    requires j + 1 < |s| && s[j] == |ps| - 1
    ensures |s| == |ps| == |addr| && Within(s, |ps|)
    ensures ReportedParent(slaves, addr[s[j + 1]]) == addr[|ps| - 1]
    ensures addr[ParentOrSelf(ps, s[j + 1])] != addr[|ps| - 1]
  {
    assert |kids| == |ps| == |nodes| == |addr|;
    assert RingDegrees(DegreesOf(kids), true)[|ps| - 1] == 2 + |kids[|ps| - 1]|;
    LeafOrNotLast(kids, |ps| - 1);
    ScanStarts(ps, kids, s);
    PreOrderDistinct(ps, kids, s);
    assert ParentOrSelf(ps, s[j + 1]) < |ps| - 1;
    Apart(addr, ParentOrSelf(ps, s[j + 1]), |ps| - 1);
    hide Guess, PreOrder, Lists, Below, SortedByRank, SceneWired, RingDegrees, Scanned, BusOf, ReportedParent,
         ParentOrSelf;
    OpensOfBus(slaves, nodes, ps, kids, s, true, addr);
    var os := Along(RingDegrees(DegreesOf(kids), true), s);
    TwoPortsTakeNext(s, os, Cursor(0, []), j);
    ReportedIsGuess(slaves, addr, s, os);
  }
}
