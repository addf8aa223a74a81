/** A frame sent into the segment wired for a scene passes the slaves in the order
    `scanToEditorOrder` predicts; on a ring it leaves at the tail, so it passes only the
    slaves scanned up to there. */
module FrameWalk {
  import opened Common
  import opened SceneTree
  import opened ScenePorts
  import opened SimScene
  import opened Wiring
  import opened EmulatedNetwork

  // ---- What the links wire --------------------------------------------------

  /** Port `p` of slave `v` once the links of the first `m` slaves are in place. */
  function WiredPort(ps: Parents, m: nat, v: nat, p: nat): Port
    requires m <= |ps| && v < |ps|
  {
    if p == 0 then
      if 1 <= v < m then Port(Some(Endpoint(ps[v], PortOf(ps, v))), false, true) else OPEN
    else
      var c := ChildOn(ps, v, p, m);
      if c >= 0 then Port(Some(Endpoint(c, 0)), false, true) else OPEN
  }

  ghost predicate WiredBefore(nodes: seq<Node>, ps: Parents, m: nat)
    requires m <= |ps|
  {
    && |nodes| == |ps| && Wired(nodes)
    && forall v, p :: 0 <= v < |ps| && 0 <= p < 4 ==> nodes[v][p] == WiredPort(ps, m, v, p)
  }

  lemma {:induction false} UnwiredIsWired(ps: Parents)
    requires ValidTree(ps)
    ensures WiredBefore(Unwired(|ps|), ps, 1)
  {
    forall v, p | 0 <= v < |ps| && 0 <= p < 4
      ensures Unwired(|ps|)[v][p] == WiredPort(ps, 1, v, p)
    {
      assert ChildOn(ps, v, p, 1) == ChildOn(ps, v, p, 0) == -1;
    }
  }

  lemma {:induction false} JoinNext(nodes: seq<Node>, ps: Parents, i: nat)
    requires ValidTree(ps) && 1 <= i < |ps| && !Unplugged(ps, i) && WiredBefore(nodes, ps, i)
    ensures 0 <= PortOf(ps, i) < 4
    ensures WiredBefore(Joined(nodes, ps[i], PortOf(ps, i), i, 0), ps, i + 1)
  {
    NextTurn(ps, i);
    var r := Joined(nodes, ps[i], PortOf(ps, i), i, 0);
    forall v, p | 0 <= v < |ps| && 0 <= p < 4 ensures r[v][p] == WiredPort(ps, i + 1, v, p) {
      assert nodes[v][p] == WiredPort(ps, i, v, p);
    }
  }

  lemma {:induction false} LinksFit(ps: Parents, m: nat)
    requires ValidTree(ps) && AllPlugged(ps) && m <= |ps|
    ensures forall k :: 0 <= k < |LinksBefore(ps, m)| ==> FitsNetwork(LinksBefore(ps, m)[k], |ps|)
  {
    hide LinksBefore, CountBefore;
    var links := LinksBefore(ps, m);
    forall k | 0 <= k < |links| ensures FitsNetwork(links[k], |ps|) {
      NextTurn(ps, links[k].b);
    }
  }

  lemma {:induction false} JoinedLast(nodes: seq<Node>, links: seq<Link>, l: Link)
    requires Wired(nodes) && FitsNetwork(l, |nodes|) && forall k :: 0 <= k < |links| ==> FitsNetwork(links[k], |nodes|)
    ensures forall k :: 0 <= k < |links + [l]| ==> FitsNetwork((links + [l])[k], |nodes|)
    ensures JoinedAll(nodes, links + [l]) == Joined(JoinedAll(nodes, links), l.a, l.portA, l.b, l.portB)
  {
    assert (links + [l])[..|links|] == links;
  }

  lemma {:induction false} NoLinksYet(ps: Parents)
    requires ValidTree(ps)
    ensures LinksBefore(ps, 1) == [] && WiredBefore(JoinedAll(Unwired(|ps|), []), ps, 1)
  {
    UnwiredIsWired(ps);
  }

  lemma {:induction false} LinksWire(ps: Parents, m: nat)
    requires ValidTree(ps) && AllPlugged(ps) && 1 <= m <= |ps|
    ensures forall k :: 0 <= k < |LinksBefore(ps, m)| ==> FitsNetwork(LinksBefore(ps, m)[k], |ps|)
    ensures WiredBefore(JoinedAll(Unwired(|ps|), LinksBefore(ps, m)), ps, m)
    decreases m
  {
    hide WiredBefore, Joined, CountBefore, LinksBefore, JoinedAll;
    LinksFit(ps, m);
    if m == 1 {
      NoLinksYet(ps);
    } else {
      LinksWire(ps, m - 1);
      LinksStep(ps, m);
      NextTurn(ps, m - 1);
      JoinedLast(Unwired(|ps|), LinksBefore(ps, m - 1), LinkOf(ps, m - 1));
      JoinNext(JoinedAll(Unwired(|ps|), LinksBefore(ps, m - 1)), ps, m - 1);
    }
  }

  /** The ring's closing cable goes into port 1 of the last slave. */
  function RingEnd(ps: Parents, ring: bool): Option<Endpoint> {
    if ring then Some(Endpoint(|ps| - 1, 1)) else None
  }

  /** The segment of a scene, master cables included. */
  ghost predicate SceneWired(nodes: seq<Node>, ps: Parents, ring: bool) {
    && |nodes| == |ps| && Wired(nodes)
    && forall v, p :: 0 <= v < |ps| && 0 <= p < 4 ==>
         nodes[v][p] == Marked(WiredPort(ps, |ps|, v, p), Endpoint(v, p), Endpoint(0, 0), RingEnd(ps, ring))
  }

  /** The network simulator applies the topology file to a fresh segment. */
  method BuildSegment(plan: Topology, ghost ps: Parents, ghost ring: bool, count: nat) returns (net: Network)
    requires ValidTree(ps) && AllPlugged(ps) && count == |ps| && plan == FileTopology(ps, 0, ring)
    ensures fresh(net) && net.Valid() && SceneWired(net.nodes, ps, ring)
  {
    net := new Network(count);
    hide CountBefore, ChildOn, WiredPort, LinksBefore, JoinedAll;
    LinksWire(ps, |ps|);
    LinkCount(ps, |ps|);
    UnwiredIsWired(ps);
    assert count == 1 ==> net.nodes == Unwired(count);
    var isRing := net.ApplyTopology(plan);
    assert WiredBefore(net.nodes, ps, |ps|);
    assert net.redundancy == RingEnd(ps, ring);
    net.MarkMasterPorts();
  }

  // ---- Prefixes -------------------------------------------------------------

  /** `s` up to and including the first `t`. */
  function UpTo(s: seq<int>, t: int): (r: seq<int>)
    ensures r <= s
    ensures t in s ==> r != [] && r[|r| - 1] == t
    decreases |s|
  {
    if s == [] then [] else if s[0] == t then [t] else [s[0]] + UpTo(s[1..], t)
  }

  lemma {:induction false} UpToConcat(a: seq<int>, b: seq<int>, t: int)
    ensures UpTo(a + b, t) == if t in a then UpTo(a, t) else a + UpTo(b, t)
    decreases |a|
  {
    if a == [] {
      assert a + b == b;
    } else {
      assert (a + b)[1..] == a[1..] + b;
      UpToConcat(a[1..], b, t);
    }
  }

  function Hops(s: seq<int>): (r: seq<Hop>)
    ensures |r| == |s| && forall k :: 0 <= k < |r| ==> r[k] == Hop(s[k], false)
  {
    seq(|s|, k requires 0 <= k < |s| => Hop(s[k], false))
  }

  lemma {:induction false} HopsConcat(a: seq<int>, b: seq<int>)
    ensures Hops(a + b) == Hops(a) + Hops(b)
  {}

  // ---- The walk -------------------------------------------------------------

  /** `r` is the trip `t` after passing the slaves `s`, or, when the ring's end `tail` is
      among them, after passing those up to it and leaving there. */
  ghost predicate Passed(t: Trip, r: Trip, s: seq<int>, ring: bool, tail: int) {
    if ring && tail in s then
      r.left && r.order == t.order + Hops(UpTo(s, tail)) && r.exit == Some(Endpoint(tail, 1))
    else
      |s| <= t.budget && r == Trip(t.order + Hops(s), false, t.exit, t.budget - |s|)
  }

  lemma {:induction false} PassedBoth(t: Trip, u: Trip, r: Trip, a: seq<int>, b: seq<int>, ring: bool, tail: int)
    requires Passed(t, u, a, ring, tail)
    requires if u.left then r == u else Passed(u, r, b, ring, tail)
    ensures Passed(t, r, a + b, ring, tail)
  {
    UpToConcat(a, b, tail);
    HopsConcat(a, b);
    HopsConcat(a, UpTo(b, tail));
    Regroup(t.order, Hops(a), Hops(b));
    Regroup(t.order, Hops(a), Hops(UpTo(b, tail)));
  }

  lemma {:induction false} PassedNone(t: Trip, ring: bool, tail: int)
    requires !t.left
    ensures Passed(t, t, [], ring, tail)
  {
    assert t.order + Hops([]) == t.order;
  }

  lemma {:induction false} PassedOne(t: Trip, v: int, ring: bool, tail: int)
    requires t.budget > 0 && !(ring && v == tail)
    ensures Passed(t, Trip(t.order + [Hop(v, false)], false, t.exit, t.budget - 1), [v], ring, tail)
  {
    assert Hops([v]) == [Hop(v, false)];
  }

  // ---- A network of known branches ------------------------------------------

  /** `row[k]` is the slave behind the `k`-th port in forwarding order, -1 for none. */
  type Row = seq<int>

  function Behind(c: int): seq<int> { if c < 0 then [] else [c] }

  /** The slaves behind the `k`-th and later ports. */
  function RestOf(row: Row, k: nat): seq<int>
    requires |row| == 4 && 1 <= k <= 4
    decreases 4 - k
  {
    if k == 4 then [] else Behind(row[k]) + RestOf(row, k + 1)
  }

  /** Every slave behind a port comes later. */
  ghost predicate Descends(rows: seq<Row>) {
    forall v :: 0 <= v < |rows| ==>
      |rows[v]| == 4 && forall k :: 1 <= k < 4 ==> rows[v][k] < 0 || v < rows[v][k] < |rows|
  }

  /** The ports lead to the rows, each into port 0; on a ring the last slave's port 1
      leads to the master. */
  ghost predicate Leads(nodes: seq<Node>, rows: seq<Row>, ring: bool) {
    && Wired(nodes) && |nodes| == |rows| && Descends(rows)
    && forall v, k :: 0 <= v < |rows| && 1 <= k < 4 ==>
         nodes[v][PortAt(k)] == Port(if rows[v][k] < 0 then None else Some(Endpoint(rows[v][k], 0)),
                                     ring && v == |rows| - 1 && k == 2, true)
  }

  lemma {:induction false} RestRange(rows: seq<Row>, v: nat, k: nat)
    requires Descends(rows) && v < |rows| && 1 <= k <= 4
    ensures forall j :: 0 <= j < |RestOf(rows[v], k)| ==> v < RestOf(rows[v], k)[j] < |rows|
    decreases 4 - k
  {
    if k < 4 { RestRange(rows, v, k + 1); }
  }

  function KidsOf(rows: seq<Row>): (kids: Kids)
    requires Descends(rows)
    ensures |kids| == |rows| && Forest(kids)
    ensures forall v :: 0 <= v < |rows| ==> kids[v] == RestOf(rows[v], 1)
  {
    var kids := seq(|rows|, v requires 0 <= v < |rows| => RestOf(rows[v], 1));
    assert Forest(kids) by {
      forall v | 0 <= v < |rows| ensures forall j :: 0 <= j < |kids[v]| ==> v < kids[v][j] < |rows| {
        RestRange(rows, v, 1);
      }
    }
    kids
  }

  lemma {:induction false} BranchStep(kids: Kids, v: nat, c: int, rest: seq<int>)
    requires Forest(kids) && v < |kids| && v < c < |kids|
    requires forall j :: 0 <= j < |rest| ==> v < rest[j] < |kids|
    ensures Branches(kids, v, [c] + rest) == PreOrder(kids, c) + Branches(kids, v, rest)
  {
    assert ([c] + rest)[1..] == rest;
  }

  /** Crossing the `k`-th port of a slave that does not end the ring. */
  lemma {:induction false} PortStep(nodes: seq<Node>, rows: seq<Row>, ring: bool, v: nat, k: nat, t: Trip)
    requires Leads(nodes, rows, ring) && v < |rows| && 1 <= k < 4 && !(ring && v == |rows| - 1)
    ensures WalkPorts(nodes, v, 0, k, t)
            == if rows[v][k] < 0 then WalkPorts(nodes, v, 0, k + 1, t)
               else var w := Walk(nodes, rows[v][k], 0, t);
                    if w.left then w else WalkPorts(nodes, v, 0, k + 1, w)
  {
    assert nodes[v][PortAt(k)].toMaster == false;
  }

  lemma {:induction false} LastPort(nodes: seq<Node>, kids: Kids, v: nat, t: Trip)
    requires Wired(nodes) && v < |nodes| && Forest(kids) && v < |kids| && !t.left
    ensures WalkPorts(nodes, v, 0, 4, t) == t && Branches(kids, v, []) == []
  {}

  lemma {:induction false} BudgetLeft(t: Trip, u: Trip, s: seq<int>, ring: bool, tail: int)
    requires Passed(t, u, s, ring, tail) && !u.left
    ensures u.budget == t.budget - |s|
  {}

  /** Entering a slave from above is one passage, then its ports in order. */
  lemma {:induction false} WalkStep(nodes: seq<Node>, v: nat, t: Trip)
    requires Wired(nodes) && v < |nodes| && !t.left && t.budget > 0
    ensures Walk(nodes, v, 0, t)
            == WalkPorts(nodes, v, 0, 1, Trip(t.order + [Hop(v, false)], false, t.exit, t.budget - 1))
  {}

  /** A frame entering the branch of `v` from above passes it in pre-order. */
  lemma {:induction false} WalkTree(nodes: seq<Node>, rows: seq<Row>, ring: bool, v: nat, t: Trip)
    requires Leads(nodes, rows, ring) && v < |rows| && |PreOrder(KidsOf(rows), v)| <= t.budget && !t.left
    ensures Passed(t, Walk(nodes, v, 0, t), PreOrder(KidsOf(rows), v), ring, |rows| - 1)
    decreases |rows| - v, 5
  {
    hide *;
    if ring && v == |rows| - 1 {
      WalkTail(nodes, rows, t);
    } else {
      WalkInner(nodes, rows, ring, v, t);
    }
  }

  lemma {:induction false} WalkTail(nodes: seq<Node>, rows: seq<Row>, t: Trip)
    requires Leads(nodes, rows, true) && |rows| > 0 && !t.left
    requires |PreOrder(KidsOf(rows), |rows| - 1)| <= t.budget
    ensures Passed(t, Walk(nodes, |rows| - 1, 0, t), PreOrder(KidsOf(rows), |rows| - 1), true, |rows| - 1)
  {
    var v := |rows| - 1;
    hide Walk, WalkPorts, PreOrder, Branches, Passed, Hops, UpTo, RestOf, KidsOf, Descends, Wired;
    TailLeaves(nodes, rows, t);
    WalkStep(nodes, v, t);
    TailLeaves(nodes, rows, Trip(t.order + [Hop(v, false)], false, t.exit, t.budget - 1));
    PassedTail(t, v);
  }

  lemma {:induction false} WalkInner(nodes: seq<Node>, rows: seq<Row>, ring: bool, v: nat, t: Trip)
    requires Leads(nodes, rows, ring) && v < |rows| && |PreOrder(KidsOf(rows), v)| <= t.budget && !t.left
    requires !(ring && v == |rows| - 1)
    ensures Passed(t, Walk(nodes, v, 0, t), PreOrder(KidsOf(rows), v), ring, |rows| - 1)
    decreases |rows| - v, 4
  {
    hide *;
    LeadsShape(nodes, rows, ring);
    var kids := KidsOf(rows);
    KidsRange(rows, v, kids[v]);
    BranchLength(kids, v);
    var u := Trip(t.order + [Hop(v, false)], false, t.exit, t.budget - 1);
    WalkRest(nodes, rows, ring, v, 1, u, kids[v]);
    WalkInto(nodes, kids, ring, v, t, u);
  }

  lemma {:induction false} LeadsShape(nodes: seq<Node>, rows: seq<Row>, ring: bool)
    requires Leads(nodes, rows, ring)
    ensures Wired(nodes) && |nodes| == |rows| && Descends(rows)
  {
  }

  /** Entering a slave, given the walk from its first port on. */
  lemma {:induction false} WalkInto(nodes: seq<Node>, kids: Kids, ring: bool, v: nat, t: Trip, u: Trip)
    requires Wired(nodes) && Forest(kids) && v < |nodes| == |kids| && !(ring && v == |nodes| - 1)
    requires t.budget > 0 && !t.left && u == Trip(t.order + [Hop(v, false)], false, t.exit, t.budget - 1)
    requires Passed(u, WalkPorts(nodes, v, 0, 1, u), Branches(kids, v, kids[v]), ring, |nodes| - 1)
    ensures Passed(t, Walk(nodes, v, 0, t), PreOrder(kids, v), ring, |nodes| - 1)
  {
    hide *;
    WalkStep(nodes, v, t);
    PassedOne(t, v, ring, |nodes| - 1);
    PassedBranch(t, u, Walk(nodes, v, 0, t), kids, v, ring, |nodes| - 1);
  }

  lemma {:induction false} BranchLength(kids: Kids, v: nat)
    requires Forest(kids) && v < |kids|
    ensures |PreOrder(kids, v)| == 1 + |Branches(kids, v, kids[v])|
  {
  }

  /** A slave passed, then its branches. */
  lemma {:induction false} PassedBranch(t: Trip, u: Trip, r: Trip, kids: Kids, v: nat, ring: bool, tail: int)
    requires Forest(kids) && v < |kids| && Passed(t, u, [v], ring, tail) && !u.left
    requires Passed(u, r, Branches(kids, v, kids[v]), ring, tail)
    ensures Passed(t, r, PreOrder(kids, v), ring, tail)
  {
    PreOrderStep(kids, v);
    hide *;
    PassedBoth(t, u, r, [v], Branches(kids, v, kids[v]), ring, tail);
  }

  lemma {:induction false} KidsRange(rows: seq<Row>, v: nat, list: seq<int>)
    requires Descends(rows) && v < |rows| && list == KidsOf(rows)[v]
    ensures list == RestOf(rows[v], 1) && forall j :: 0 <= j < |list| ==> v < list[j] < |rows|
  {
    RestRange(rows, v, 1);
  }

  lemma {:induction false} PassedTail(t: Trip, v: int)
    requires t.budget > 0
    ensures Passed(t, Trip(t.order + [Hop(v, false)], true, Some(Endpoint(v, 1)), t.budget - 1), [v], true, v)
  {
    assert UpTo([v], v) == [v] && Hops([v]) == [Hop(v, false)];
  }

  /** At the end of the ring the frame leaves by the closing cable. */
  lemma {:induction false} TailLeaves(nodes: seq<Node>, rows: seq<Row>, u: Trip)
    requires Leads(nodes, rows, true) && |rows| > 0
    ensures var v := |rows| - 1;
            && PreOrder(KidsOf(rows), v) == [v]
            && WalkPorts(nodes, v, 0, 1, u) == u.(left := true, exit := Some(Endpoint(v, 1)))
  {
    var v := |rows| - 1;
    RestRange(rows, v, 1);
    assert RestOf(rows[v], 1) == [];
    assert nodes[v][PortAt(1)] == OPEN && nodes[v][PortAt(2)].toMaster;
    assert WalkPorts(nodes, v, 0, 1, u) == WalkPorts(nodes, v, 0, 2, u);
  }

  lemma {:induction false} WalkRest(nodes: seq<Node>, rows: seq<Row>, ring: bool, v: nat, k: nat, t: Trip,
                                    list: seq<int>)
    requires Leads(nodes, rows, ring) && v < |rows| && 1 <= k <= 4 && !(ring && v == |rows| - 1)
    requires list == RestOf(rows[v], k) && forall j :: 0 <= j < |list| ==> v < list[j] < |rows|
    requires |Branches(KidsOf(rows), v, list)| <= t.budget && !t.left
    ensures Passed(t, WalkPorts(nodes, v, 0, k, t), Branches(KidsOf(rows), v, list), ring, |rows| - 1)
    decreases |rows| - v, 4 - k
  {
    hide Walk, WalkPorts, PreOrder, Branches, Passed;
    var kids, tail := KidsOf(rows), |rows| - 1;
    if k == 4 {
      LastPort(nodes, kids, v, t);
      PassedNone(t, ring, tail);
    } else {
      var c, rest := rows[v][k], RestOf(rows[v], k + 1);
      RestRange(rows, v, k + 1);
      PortStep(nodes, rows, ring, v, k, t);
      if c < 0 {
        assert list == rest;
        WalkRest(nodes, rows, ring, v, k + 1, t, rest);
      } else {
        assert list == [c] + rest;
        BranchStep(kids, v, c, rest);
        WalkTree(nodes, rows, ring, c, t);
        var u := Walk(nodes, c, 0, t);
        if !u.left {
          BudgetLeft(t, u, PreOrder(kids, c), ring, tail);
          WalkRest(nodes, rows, ring, v, k + 1, u, rest);
        }
        PassedBoth(t, u, WalkPorts(nodes, v, 0, k, t), PreOrder(kids, c), Branches(kids, v, rest), ring, tail);
      }
    }
  }

  // ---- The scene's segment --------------------------------------------------

  /** The slaves behind the ports of slave `v`. */
  function RowOf(ps: Parents, v: nat): Row
    requires v < |ps|
  {
    [-1, ChildOn(ps, v, 3, |ps|), ChildOn(ps, v, 1, |ps|), ChildOn(ps, v, 2, |ps|)]
  }

  function RowsOf(ps: Parents): (rows: seq<Row>)
    ensures |rows| == |ps| && forall v :: 0 <= v < |ps| ==> rows[v] == RowOf(ps, v)
  {
    seq(|ps|, v requires 0 <= v < |ps| => RowOf(ps, v))
  }

  lemma {:induction false} ChildOnSound(ps: Parents, v: nat, p: int, m: nat)
    requires ValidTree(ps) && v < |ps| && m <= |ps|
    ensures ChildOn(ps, v, p, m) >= 0 ==> v < ChildOn(ps, v, p, m) < |ps|
    decreases m
  {
    if m > 0 { ChildOnSound(ps, v, p, m - 1); }
  }

  lemma {:induction false} RowsDescend(ps: Parents)
    requires ValidTree(ps)
    ensures Descends(RowsOf(ps))
  {
    forall v | 0 <= v < |ps| ensures forall k :: 1 <= k < 4 ==> RowOf(ps, v)[k] < 0 || v < RowOf(ps, v)[k] < |ps| {
      ChildOnSound(ps, v, 3, |ps|);
      ChildOnSound(ps, v, 1, |ps|);
      ChildOnSound(ps, v, 2, |ps|);
    }
  }

  /** Walking the ports of the scene's segment walks its children lists. */
  lemma {:induction false} RowsAreScanKids(ps: Parents)
    requires ValidTree(ps) && AllPlugged(ps)
    ensures Descends(RowsOf(ps)) && KidsOf(RowsOf(ps)) == ScanKids(ps)
  {
    RowsDescend(ps);
    ScanKidsRanked(ps);
    PluggedKids(ps, ScanKids(ps));
    forall v | 0 <= v < |ps| ensures RestOf(RowOf(ps, v), 1) == ScanKids(ps)[v] {
      PortsVisitKids(ps, ScanKids(ps), v);
      RestOfRow(RowOf(ps, v));
    }
  }

  lemma {:induction false} RestOfRow(row: Row)
    requires |row| == 4
    ensures RestOf(row, 1) == Behind(row[1]) + Behind(row[2]) + Behind(row[3])
  {
    assert RestOf(row, 4) == [];
    assert RestOf(row, 3) == Behind(row[3]);
    assert RestOf(row, 2) == Behind(row[2]) + Behind(row[3]);
  }

  lemma {:induction false} SceneLeads(nodes: seq<Node>, ps: Parents, ring: bool)
    requires ValidTree(ps) && SceneWired(nodes, ps, ring)
    ensures Leads(nodes, RowsOf(ps), ring)
  {
    RowsDescend(ps);
    var rows := RowsOf(ps);
    forall v, k | 0 <= v < |rows| && 1 <= k < 4
      ensures nodes[v][PortAt(k)] == Port(if rows[v][k] < 0 then None else Some(Endpoint(rows[v][k], 0)),
                                          ring && v == |rows| - 1 && k == 2, true)
    {
      var p := PortAt(k);
      assert rows[v][k] == ChildOn(ps, v, p, |ps|);
      assert nodes[v][p] == Marked(WiredPort(ps, |ps|, v, p), Endpoint(v, p), Endpoint(0, 0), RingEnd(ps, ring));
    }
  }

  /** The frame the master sends into the segment passes the slaves in scan order: all of
      them on a line, those scanned up to the tail on a ring, where it leaves. The walk
      budget `rebuild` allows is never the limit. */
  lemma {:induction false} FrameFollowsScan(nodes: seq<Node>, ps: Parents, ring: bool)
    requires ValidTree(ps) && AllPlugged(ps) && SceneWired(nodes, ps, ring)
    ensures Forest(ScanKids(ps))
    ensures var scan := PreOrder(ScanKids(ps), 0);
            var r := Walk(nodes, 0, 0, Trip([], false, None, 8 * (|ps| + 1)));
            && r.order == Hops(if ring then UpTo(scan, |ps| - 1) else scan)
            && r.left == ring
            && r.exit == RingEnd(ps, ring)
  {
    hide *;
    TailScanned(ps);
    RowsAreScanKids(ps);
    SceneLeads(nodes, ps, ring);
    RingEndIs(ps, ring);
    LeadsShape(nodes, RowsOf(ps), ring);
    var t := Trip([], false, None, 8 * (|ps| + 1));
    WalkTree(nodes, RowsOf(ps), ring, 0, t);
    PassedAll(t, Walk(nodes, 0, 0, t), PreOrder(ScanKids(ps), 0), ring, |ps| - 1);
  }

  lemma {:induction false} RingEndIs(ps: Parents, ring: bool)
    requires |ps| > 0
    ensures RingEnd(ps, ring) == if ring then Some(Endpoint(|ps| - 1, 1)) else None
  {
  }

  /** The scan is as long as the scene, and meets its last slave. */
  lemma {:induction false} TailScanned(ps: Parents)
    requires ValidTree(ps)
    ensures |ps| > 0 && Forest(ScanKids(ps)) && |ScanKids(ps)| == |ps|
    ensures |PreOrder(ScanKids(ps), 0)| == |ps| && |ps| - 1 in PreOrder(ScanKids(ps), 0)
  {
    var kids := ScanKids(ps);
    ScanKidsRanked(ps);
    hide PreOrder, ScanKids, Below, Branches;
    ListsIsForest(ps, kids);
    PreOrderIsPermutation(ps, kids);
    PreOrderCount(ps, kids, 0, |ps| - 1);
    RootAboveAll(ps, |ps| - 1);
    assert |ps| - 1 in multiset(PreOrder(kids, 0));
  }

  lemma {:induction false} PassedAll(t: Trip, r: Trip, s: seq<int>, ring: bool, tail: int)
    requires Passed(t, r, s, ring, tail) && t == Trip([], false, None, t.budget) && tail in s
    ensures r.order == Hops(if ring then UpTo(s, tail) else s) && r.left == ring
    ensures r.exit == if ring then Some(Endpoint(tail, 1)) else None
  {
    if ring {
      PassedOnRing(t, r, s, tail);
    } else {
      assert t.order + Hops(s) == Hops(s);
    }
  }

  lemma {:induction false} PassedOnRing(t: Trip, r: Trip, s: seq<int>, tail: int)
    requires Passed(t, r, s, true, tail) && t.order == [] && tail in s
    ensures r.order == Hops(UpTo(s, tail)) && r.left && r.exit == Some(Endpoint(tail, 1))
  {
    var hops := Hops(UpTo(s, tail));
    hide Hops, UpTo;
    assert r.order == [] + hops;
  }
}
