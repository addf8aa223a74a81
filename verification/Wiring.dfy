/** The wiring a topology file describes: which port every plug goes into, that no port
    takes two plugs, and that every slave is wired to the root. */
module Wiring {
  import opened Common
  import opened SceneTree
  import opened ScenePorts
  import opened SimScene

  // ---- Plugs ----------------------------------------------------------------

  /** The two plugs of every link. */
  ghost function LinkPlugs(links: seq<Link>): multiset<Endpoint>
    decreases |links|
  {
    if links == [] then multiset{}
    else
      var l := links[|links| - 1];
      LinkPlugs(links[..|links| - 1]) + multiset{Endpoint(l.a, l.portA), Endpoint(l.b, l.portB)}
  }

  /** All plugs of a topology, the master's own cables included. */
  ghost function Plugs(t: Topology): multiset<Endpoint> {
    multiset{t.injection} + LinkPlugs(t.links)
    + (if t.redundancy.Some? then multiset{t.redundancy.value} else multiset{})
  }

  /** Which child a downstream port is for; three for port 0 and ports that do not exist. */
  function Turn(port: int): nat {
    if port == 1 then 0 else if port == 3 then 1 else if port == 2 then 2 else 3
  }

  /** Whether the links of the first `m` slaves use port `e`. */
  ghost predicate LinkedBefore(ps: Parents, m: nat, e: Endpoint)
    requires m <= |ps|
  {
    if e.port == 0 then 1 <= e.node < m
    else 0 <= e.node < |ps| && Turn(e.port) < 3 && Turn(e.port) < CountBefore(ps, e.node, m)
  }

  /** A link with two different ends adds one plug to each of them. */
  lemma {:induction false} PlugsOfLink(links: seq<Link>, l: Link, e: Endpoint)
    requires Endpoint(l.a, l.portA) != Endpoint(l.b, l.portB)
    ensures LinkPlugs(links + [l])[e]
            == LinkPlugs(links)[e]
               + if e == Endpoint(l.a, l.portA) || e == Endpoint(l.b, l.portB) then 1 else 0
  {
    assert (links + [l])[..|links|] == links;
  }

  /** A slave that can be plugged in takes the next turn of its parent. */
  lemma {:induction false} NextTurn(ps: Parents, i: nat)
    requires ValidTree(ps) && 0 < i < |ps| && !Unplugged(ps, i)
    ensures CountBefore(ps, ps[i], i) < 3
    ensures PortOf(ps, i) == DownstreamPort(CountBefore(ps, ps[i], i)) && 1 <= PortOf(ps, i) <= 3
    ensures Turn(PortOf(ps, i)) == CountBefore(ps, ps[i], i)
  {}

  /** The links of the first `m` slaves use exactly the ports their turns name, each once. */
  lemma {:induction false} LinksUsePorts(ps: Parents, m: nat, e: Endpoint)
    requires ValidTree(ps) && AllPlugged(ps) && m <= |ps|
    ensures LinkPlugs(LinksBefore(ps, m))[e] == if LinkedBefore(ps, m, e) then 1 else 0
    decreases m
  {
    if m == 1 {
      FirstRow(ps, e);
    } else if m > 1 {
      assert !Unplugged(ps, m - 1);
      NextTurn(ps, m - 1);
      LinksStep(ps, m);
      hide LinkPlugs, LinksBefore, LinkedBefore, CountBefore, PortOf, AllPlugged;
      LinksUsePorts(ps, m - 1, e);
      PlugsOfLink(LinksBefore(ps, m - 1), LinkOf(ps, m - 1), e);
      if e == Endpoint(ps[m - 1], PortOf(ps, m - 1)) || e == Endpoint(m - 1, 0) {
        NewPort(ps, m - 1, e);
      } else {
        OtherPort(ps, m - 1, e);
      }
    }
  }

  lemma {:induction false} LinksStep(ps: Parents, m: nat)
    requires ValidTree(ps) && 1 < m <= |ps|
    ensures LinksBefore(ps, m) == LinksBefore(ps, m - 1) + [LinkOf(ps, m - 1)]
  {
  }

  lemma {:induction false} FirstRow(ps: Parents, e: Endpoint)
    requires ValidTree(ps)
    ensures LinksBefore(ps, 1) == [] && !LinkedBefore(ps, 1, e)
  {
    assert CountBefore(ps, e.node, 1) == if ps[0] == e.node then 1 else 0;
  }

  /** Plugging slave `i` in takes two ports that were free. */
  lemma {:induction false} NewPort(ps: Parents, i: nat, e: Endpoint)
    requires ValidTree(ps) && 0 < i < |ps| && !Unplugged(ps, i)
    requires e == Endpoint(ps[i], PortOf(ps, i)) || e == Endpoint(i, 0)
    ensures !LinkedBefore(ps, i, e) && LinkedBefore(ps, i + 1, e)
  {
    NextTurn(ps, i);
  }

  /** Plugging slave `i` in changes nothing but its own port 0 and its parent's next port. */
  lemma {:induction false} OtherPort(ps: Parents, i: nat, e: Endpoint)
    requires ValidTree(ps) && 0 < i < |ps| && !Unplugged(ps, i)
    requires e != Endpoint(ps[i], PortOf(ps, i)) && e != Endpoint(i, 0)
    ensures LinkedBefore(ps, i + 1, e) <==> LinkedBefore(ps, i, e)
  {
    NextTurn(ps, i);
    if e.node == ps[i] && e.port != 0 && Turn(e.port) < 3 {
      assert Turn(e.port) != Turn(PortOf(ps, i));
    }
  }

  /** A port communicates when the master or another slave is plugged into it. */
  ghost predicate Communicates(ps: Parents, ring: bool, e: Endpoint) {
    || LinkedBefore(ps, |ps|, e)
    || e == Endpoint(0, 0)
    || (ring && e == Endpoint(|ps| - 1, 1))
  }

  lemma {:induction false} NoChildOfLater(ps: Parents, v: nat, m: nat)
    requires ValidTree(ps) && m <= |ps| && m <= v + 1
    ensures CountBefore(ps, v, m) == 0
    decreases m
  {
    if m > 0 { NoChildOfLater(ps, v, m - 1); }
  }

  /** No port takes two plugs: the count of every port is one when it communicates and
      zero otherwise, the master's cable and the ring's closing cable included. */
  lemma {:induction false} PortsTakeOnePlug(ps: Parents, ring: bool, e: Endpoint)
    requires ValidTree(ps) && AllPlugged(ps)
    ensures Plugs(FileTopology(ps, 0, ring))[e] == if Communicates(ps, ring, e) then 1 else 0
  {
    LinksUsePorts(ps, |ps|, e);
    MasterPortsFree(ps);
    var t := FileTopology(ps, 0, ring);
    CountThree(t.injection, LinkPlugs(t.links), if ring then multiset{t.redundancy.value} else multiset{}, e);
  }

  /** The links leave port 0 of the root and port 1 of the tail to the master. */
  lemma {:induction false} MasterPortsFree(ps: Parents)
    requires ValidTree(ps)
    ensures !LinkedBefore(ps, |ps|, Endpoint(0, 0))
    ensures !LinkedBefore(ps, |ps|, Endpoint(|ps| - 1, 1))
  {
    NoChildOfLater(ps, |ps| - 1, |ps|);
  }

  lemma {:induction false} CountThree(x: Endpoint, m: multiset<Endpoint>, n: multiset<Endpoint>, e: Endpoint)
    ensures (multiset{x} + m + n)[e] == (if e == x then 1 else 0) + m[e] + n[e]
  {}

  // ---- Size and connection --------------------------------------------------

  lemma {:induction false} LinkCount(ps: Parents, m: nat)
    requires ValidTree(ps) && 1 <= m <= |ps|
    ensures |LinksBefore(ps, m)| == m - 1
    ensures forall i :: 1 <= i < m ==> LinkOf(ps, i) in LinksBefore(ps, m)
    decreases m
  {
    if m > 1 { LinkCount(ps, m - 1); }
  }

  /** `x` is the root, or linked to a slave that reaches it in fewer than `d` links. */
  ghost predicate Reaches(links: seq<Link>, root: int, x: int, d: nat)
    decreases d
  {
    x == root || (d > 0 && exists l :: l in links && l.b == x && Reaches(links, root, l.a, d - 1))
  }

  lemma {:induction false} ReachesRoot(ps: Parents, x: nat, d: nat)
    requires ValidTree(ps) && x < |ps| && x <= d
    ensures Reaches(LinksBefore(ps, |ps|), 0, x, d)
    decreases d
  {
    if x > 0 {
      LinkCount(ps, |ps|);
      ReachesRoot(ps, ps[x], d - 1);
      assert LinkOf(ps, x) in LinksBefore(ps, |ps|) && LinkOf(ps, x).b == x;
    }
  }

  lemma {:induction false} OneRoot(ps: Parents)
    requires ValidTree(ps)
    ensures Roots(ps) == {0}
  {}

  /** The topology written for a tree whose parents precede their children is a tree:
      one link fewer than slaves, every slave reaching the root, no port used twice. */
  lemma {:induction false} TopologyIsTree(ps: Parents, ring: bool)
    requires ValidTree(ps) && AllPlugged(ps)
    ensures var t := FileTopology(ps, 0, ring);
            && Roots(ps) == {0}
            && |t.links| == |ps| - 1
            && (forall x :: 0 <= x < |ps| ==> Reaches(t.links, 0, x, x))
            && (forall e :: Plugs(t)[e] <= 1)
  {
    OneRoot(ps);
    LinkCount(ps, |ps|);
    forall x | 0 <= x < |ps| ensures Reaches(LinksBefore(ps, |ps|), 0, x, x) {
      ReachesRoot(ps, x, x);
    }
    forall e ensures Plugs(FileTopology(ps, 0, ring))[e] <= 1 {
      PortsTakeOnePlug(ps, ring, e);
    }
  }

  // ---- Which child is on which port -----------------------------------------

  /** The child of `v` on port `p` among the first `m` slaves; -1 when there is none. */
  function ChildOn(ps: Parents, v: int, p: int, m: nat): int
    requires m <= |ps|
    decreases m
  {
    if m == 0 then -1
    else if ps[m - 1] == v && PortOf(ps, m - 1) == p then m - 1
    else ChildOn(ps, v, p, m - 1)
  }

  function OnPort(ps: Parents, v: int, p: int): seq<int> {
    var c := ChildOn(ps, v, p, |ps|);
    if c < 0 then [] else [c]
  }

  lemma {:induction false} ChildOnIs(ps: Parents, v: int, p: int, m: nat, c: nat)
    requires m <= |ps| && c < m && ps[c] == v && PortOf(ps, c) == p
    requires forall i :: 0 <= i < m && ps[i] == v && PortOf(ps, i) == p ==> i == c
    ensures ChildOn(ps, v, p, m) == c
    decreases m
  {
    if m - 1 != c { ChildOnIs(ps, v, p, m - 1, c); }
  }

  lemma {:induction false} ChildOnNone(ps: Parents, v: int, p: int, m: nat)
    requires m <= |ps|
    requires forall i :: 0 <= i < m ==> !(ps[i] == v && PortOf(ps, i) == p)
    ensures ChildOn(ps, v, p, m) == -1
    decreases m
  {
    if m > 0 { ChildOnNone(ps, v, p, m - 1); }
  }

  ghost predicate ThreeKidsAtMost(kids: Kids) {
    forall v :: 0 <= v < |kids| ==> |kids[v]| <= 3
  }

  /** A tree whose slaves all got a port has at most three children per slave. */
  lemma {:induction false} PluggedKids(ps: Parents, kids: Kids)
    requires ValidTree(ps) && AllPlugged(ps) && Ranked(ps, kids)
    ensures ThreeKidsAtMost(kids)
  {
    forall v | 0 <= v < |kids| ensures |kids[v]| <= 3 {
      KidsCount(ps, kids, v);
      AtMostThree(ps, v, |ps|);
    }
  }

  lemma {:induction false} AtMostThree(ps: Parents, v: nat, m: nat)
    requires ValidTree(ps) && AllPlugged(ps) && v < |ps| && m <= |ps|
    ensures CountBefore(ps, v, m) <= 3
    decreases m
  {
    if m > 0 {
      AtMostThree(ps, v, m - 1);
      assert !Unplugged(ps, m - 1);
    }
  }

  /** The child found on port `p` of `v` is the k-th one scanned, `p` being the k-th port
      in use. */
  lemma {:induction false} KidOnPort(ps: Parents, kids: Kids, v: nat, k: nat)
    requires ValidTree(ps) && Ranked(ps, kids) && v < |ps| && |kids[v]| <= 3 && k < |kids[v]|
    ensures ChildOn(ps, v, PortsInUse(|kids[v]|)[k], |ps|) == kids[v][k]
  {
    var p := PortsInUse(|kids[v]|)[k];
    PortsAlongScan(ps, kids, v);
    KidsAreSiblings(ps, kids, v);
    var c := kids[v][k];
    forall i | 0 <= i < |ps| && ps[i] == v && PortOf(ps, i) == p ensures i == c {
      KidsParent(ps, kids, v, i);
      var j :| 0 <= j < |kids[v]| && kids[v][j] == i;
      PortsDiffer(|kids[v]|, j, k);
    }
    ChildOnIs(ps, v, p, |ps|, c);
  }

  lemma {:induction false} PortsDiffer(m: nat, j: nat, k: nat)
    requires m <= 3 && j < m && k < m && PortsInUse(m)[j] == PortsInUse(m)[k]
    ensures j == k
  {}

  lemma {:induction false} NoKidOnPort(ps: Parents, kids: Kids, v: nat, p: int)
    requires ValidTree(ps) && Ranked(ps, kids) && v < |ps| && |kids[v]| <= 3
    requires p !in PortsInUse(|kids[v]|)
    ensures ChildOn(ps, v, p, |ps|) == -1
  {
    PortsAlongScan(ps, kids, v);
    forall i | 0 <= i < |ps| ensures !(ps[i] == v && PortOf(ps, i) == p) {
      if ps[i] == v {
        KidsParent(ps, kids, v, i);
        var j :| 0 <= j < |kids[v]| && kids[v][j] == i;
        assert PortOf(ps, i) == PortsInUse(|kids[v]|)[j];
      }
    }
    ChildOnNone(ps, v, p, |ps|);
  }

  lemma {:induction false} OnPortKid(ps: Parents, kids: Kids, v: nat, k: nat)
    requires ValidTree(ps) && Ranked(ps, kids) && v < |ps| && |kids[v]| <= 3 && k < |kids[v]|
    ensures OnPort(ps, v, PortsInUse(|kids[v]|)[k]) == [kids[v][k]]
  {
    KidOnPort(ps, kids, v, k);
    KidsAreSiblings(ps, kids, v);
  }

  lemma {:induction false} OnPortNone(ps: Parents, kids: Kids, v: nat, p: int)
    requires ValidTree(ps) && Ranked(ps, kids) && v < |ps| && |kids[v]| <= 3
    requires p !in PortsInUse(|kids[v]|)
    ensures OnPort(ps, v, p) == []
  {
    NoKidOnPort(ps, kids, v, p);
  }

  /** Visiting the ports of a slave in the order 3, 1, 2 visits its children in scan order. */
  lemma {:induction false} PortsVisitKids(ps: Parents, kids: Kids, v: nat)
    requires ValidTree(ps) && Ranked(ps, kids) && v < |ps| && |kids[v]| <= 3
    ensures kids[v] == OnPort(ps, v, 3) + OnPort(ps, v, 1) + OnPort(ps, v, 2)
  {
    var m := |kids[v]|;
    if m < 3 { OnPortNone(ps, kids, v, 2); } else { OnPortKid(ps, kids, v, 2); }
    if m < 2 { OnPortNone(ps, kids, v, 3); } else { OnPortKid(ps, kids, v, 0); }
    if m < 1 { OnPortNone(ps, kids, v, 1); } else { OnPortKid(ps, kids, v, if m == 1 then 0 else 1); }
  }
}
