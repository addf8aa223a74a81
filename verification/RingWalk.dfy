/** The second frame of a ring (lib/slave/src/EmulatedNetwork.cc, `rebuild`): sent into the
    closing cable, it climbs from the last slave to the root and passes, on the way, exactly the
    slaves the first frame did not reach. */
module RingWalk {
  import opened Common
  import opened SceneTree
  import opened ScenePorts
  import opened SimScene
  import opened Wiring
  import opened EmulatedNetwork
  import opened FrameWalk

  /** The slave above, and the place of the port that leads down from it. */
  datatype Up = Up(node: int, k: int)

  /** Every slave but the first hangs behind a port of an earlier one. */
  ghost predicate Hangs(rows: seq<Row>, up: seq<Up>) {
    && Descends(rows) && |up| == |rows|
    && forall v :: 1 <= v < |rows| ==> 0 <= up[v].node < v && 1 <= up[v].k < 4 && rows[up[v].node][up[v].k] == v
  }

  /** Port 0 leads there; that of the first slave to the master. */
  ghost predicate Climbs(nodes: seq<Node>, up: seq<Up>) {
    && Wired(nodes) && |nodes| == |up| > 0 && nodes[0][0].toMaster
    && forall v :: 1 <= v < |up| ==>
         1 <= up[v].k < 4 && nodes[v][0] == Port(Some(Endpoint(up[v].node, PortAt(up[v].k))), false, true)
  }

  // ---- The scan around a slave ----------------------------------------------

  /** The slaves behind the ports before the `k`-th. */
  function FirstOf(row: Row, k: nat): seq<int>
    requires |row| == 4 && 1 <= k <= 4
  {
    if k == 1 then [] else FirstOf(row, k - 1) + Behind(row[k - 1])
  }

  lemma {:induction false} FirstRange(rows: seq<Row>, v: nat, k: nat)
    requires Descends(rows) && v < |rows| && 1 <= k <= 4
    ensures forall j :: 0 <= j < |FirstOf(rows[v], k)| ==> v < FirstOf(rows[v], k)[j] < |rows|
    decreases k
  {
    if k > 1 { FirstRange(rows, v, k - 1); }
  }

  lemma {:induction false} RowSplits(row: Row, k: nat)
    requires |row| == 4 && 1 <= k <= 4
    ensures RestOf(row, 1) == FirstOf(row, k) + RestOf(row, k)
    decreases k
  {
    if k == 1 {
      assert [] + RestOf(row, 1) == RestOf(row, 1);
    } else {
      RowSplits(row, k - 1);
      Regroup(FirstOf(row, k - 1), Behind(row[k - 1]), RestOf(row, k));
    }
  }

  /** The branches behind the ports before the `k`-th of `w`, and from it on. */
  ghost function FirstBranches(rows: seq<Row>, w: nat, k: nat): seq<int>
    requires Descends(rows) && w < |rows| && 1 <= k <= 4
  {
    FirstRange(rows, w, k);
    Branches(KidsOf(rows), w, FirstOf(rows[w], k))
  }

  ghost function RestBranches(rows: seq<Row>, w: nat, k: nat): seq<int>
    requires Descends(rows) && w < |rows| && 1 <= k <= 4
  {
    RestRange(rows, w, k);
    Branches(KidsOf(rows), w, RestOf(rows[w], k))
  }

  /** The slaves scanned after the branch of `v`. */
  ghost function AfterBranch(rows: seq<Row>, up: seq<Up>, v: nat): seq<int>
    requires Hangs(rows, up) && v < |rows|
    decreases v
  {
    if v == 0 then []
    else RestBranches(rows, up[v].node, up[v].k + 1) + AfterBranch(rows, up, up[v].node)
  }

  /** The slaves scanned before it. */
  ghost function BeforeBranch(rows: seq<Row>, up: seq<Up>, v: nat): seq<int>
    requires Hangs(rows, up) && v < |rows|
    decreases v
  {
    if v == 0 then []
    else BeforeBranch(rows, up, up[v].node) + [up[v].node] + FirstBranches(rows, up[v].node, up[v].k)
  }

  lemma {:induction false} NoBranches(kids: Kids, v: nat)
    requires Forest(kids) && v < |kids|
    ensures Branches(kids, v, []) == []
  {
  }

  lemma {:induction false} BranchesConcat(kids: Kids, v: nat, a: seq<int>, b: seq<int>)
    requires Forest(kids) && v < |kids|
    requires forall j :: 0 <= j < |a| ==> v < a[j] < |kids|
    requires forall j :: 0 <= j < |b| ==> v < b[j] < |kids|
    ensures forall j :: 0 <= j < |a + b| ==> v < (a + b)[j] < |kids|
    ensures Branches(kids, v, a + b) == Branches(kids, v, a) + Branches(kids, v, b)
    decreases |a|
  {
    hide *;
    if a == [] {
      NoBranches(kids, v);
      assert a + b == b && [] + Branches(kids, v, b) == Branches(kids, v, b);
    } else {
      var c, rest := a[0], a[1..];
      assert forall j :: 0 <= j < |rest| ==> rest[j] == a[j + 1];
      BranchesConcat(kids, v, rest, b);
      assert a == [c] + rest && a + b == [c] + (rest + b);
      BranchStep(kids, v, c, rest);
      BranchStep(kids, v, c, rest + b);
      Regroup(PreOrder(kids, c), Branches(kids, v, rest), Branches(kids, v, b));
    }
  }

  /** The branch behind the `k`-th port among those of the slave. */
  lemma {:induction false} BranchWithin(rows: seq<Row>, w: nat, k: nat)
    requires Descends(rows) && w < |rows| && 1 <= k < 4 && rows[w][k] >= 0
    ensures PreOrder(KidsOf(rows), w)
            == [w] + FirstBranches(rows, w, k) + PreOrder(KidsOf(rows), rows[w][k]) + RestBranches(rows, w, k + 1)
  {
    FirstRange(rows, w, k);
    RestRange(rows, w, k + 1);
    RowSplits(rows[w], k);
    RowHead(rows[w], k);
    hide PreOrder, Branches, FirstOf, RestOf;
    Threaded(KidsOf(rows), w, rows[w][k], FirstOf(rows[w], k), RestOf(rows[w], k + 1));
  }

  lemma {:induction false} RowHead(row: Row, k: nat)
    requires |row| == 4 && 1 <= k < 4 && row[k] >= 0
    ensures RestOf(row, k) == [row[k]] + RestOf(row, k + 1)
  {
  }

  lemma {:induction false} Threaded(kids: Kids, w: nat, v: int, first: seq<int>, rest: seq<int>)
    requires Forest(kids) && w < |kids| && w < v < |kids| && kids[w] == first + ([v] + rest)
    requires forall j :: 0 <= j < |first| ==> w < first[j] < |kids|
    requires forall j :: 0 <= j < |rest| ==> w < rest[j] < |kids|
    ensures PreOrder(kids, w) == [w] + Branches(kids, w, first) + PreOrder(kids, v) + Branches(kids, w, rest)
  {
    hide PreOrder, Branches;
    PreOrderStep(kids, w);
    BranchesConcat(kids, w, first, [v] + rest);
    BranchStep(kids, w, v, rest);
    Chained([w], Branches(kids, w, first), PreOrder(kids, v), Branches(kids, w, rest));
  }

  lemma {:induction false} Chained(a: seq<int>, b: seq<int>, c: seq<int>, d: seq<int>)
    ensures a + (b + (c + d)) == a + b + c + d
  {
  }

  /** The scan is what comes before the branch of `v`, that branch, and what comes after. */
  lemma {:induction false} ScanAround(rows: seq<Row>, up: seq<Up>, v: nat)
    requires Hangs(rows, up) && v < |rows|
    ensures PreOrder(KidsOf(rows), 0)
            == BeforeBranch(rows, up, v) + PreOrder(KidsOf(rows), v) + AfterBranch(rows, up, v)
    decreases v
  {
    hide PreOrder, Branches, FirstBranches, RestBranches, KidsOf;
    var kids := KidsOf(rows);
    if v == 0 {
      assert [] + PreOrder(kids, 0) + [] == PreOrder(kids, 0);
    } else {
      var w, k := up[v].node, up[v].k;
      ScanAround(rows, up, w);
      BranchWithin(rows, w, k);
      Rearrange(BeforeBranch(rows, up, w), [w], FirstBranches(rows, w, k), PreOrder(kids, v),
                RestBranches(rows, w, k + 1), AfterBranch(rows, up, w));
    }
  }

  lemma {:induction false} Rearrange(a: seq<int>, b: seq<int>, c: seq<int>, d: seq<int>, e: seq<int>, f: seq<int>)
    ensures a + (b + c + d + e) + f == (a + b + c) + d + (e + f)
  {
  }

  // ---- Climbing -------------------------------------------------------------

  /** `r` is the trip `t` after passing the slaves `s` and leaving by port 0 of the root. */
  ghost predicate Climbed(t: Trip, r: Trip, s: seq<int>) {
    r.left && r.order == t.order + Hops(s) && r.exit == Some(Endpoint(0, 0))
  }

  lemma {:induction false} ClimbedBoth(t: Trip, u: Trip, r: Trip, a: seq<int>, b: seq<int>, tail: int)
    requires Passed(t, u, a, true, tail) && tail !in a && Climbed(u, r, b)
    ensures Climbed(t, r, a + b)
  {
    HopsConcat(a, b);
    Regroup(t.order, Hops(a), Hops(b));
  }

  /** One port of the loop. */
  lemma {:induction false} CrossStep(nodes: seq<Node>, w: nat, entry: nat, i: nat, p: nat, t: Trip)
    requires Wired(nodes) && w < |nodes| && entry < 4 && 1 <= i < 4 && p == PortAfter(entry, i)
    ensures nodes[w][p].toMaster ==>
              WalkPorts(nodes, w, entry, i, t) == t.(left := true, exit := Some(Endpoint(w, p)))
    ensures p != 0 && !nodes[w][p].toMaster && nodes[w][p].peer.None? ==>
              WalkPorts(nodes, w, entry, i, t) == WalkPorts(nodes, w, entry, i + 1, t)
    ensures !nodes[w][p].toMaster && nodes[w][p].up && nodes[w][p].peer.Some? ==>
              var e := nodes[w][p].peer.value;
              0 <= e.node < |nodes| && 0 <= e.port < 4
              && var u := Walk(nodes, e.node, e.port, t);
                 && (u.left ==> WalkPorts(nodes, w, entry, i, t) == u)
                 && (!u.left && p != 0 ==> WalkPorts(nodes, w, entry, i, t) == WalkPorts(nodes, w, entry, i + 1, u))
  {
    hide Walk, PortAfter;
  }

  lemma {:induction false} NextPort(k: nat, j: nat)
    requires 1 <= k < j <= 4
    ensures PortAfter(PortAt(k), j - k) == if j == 4 then 0 else PortAt(j)
  {
  }

  /** Crossing the `j`-th port of a slave entered from below, before port 0. */
  lemma {:induction false} SideStep(nodes: seq<Node>, rows: seq<Row>, w: nat, k: nat, j: nat, t: Trip)
    requires Leads(nodes, rows, true) && w < |rows| && 1 <= k < j < 4 && !(w == |rows| - 1 && j == 2)
    ensures WalkPorts(nodes, w, PortAt(k), j - k, t)
            == if rows[w][j] < 0 then WalkPorts(nodes, w, PortAt(k), j + 1 - k, t)
               else var u := Walk(nodes, rows[w][j], 0, t);
                    if u.left then u else WalkPorts(nodes, w, PortAt(k), j + 1 - k, u)
  {
    hide Walk, WalkPorts, PortAfter, PortAt;
    NextPort(k, j);
    CrossStep(nodes, w, PortAt(k), j - k, PortAt(j), t);
    assert nodes[w][PortAt(j)] == Port(if rows[w][j] < 0 then None else Some(Endpoint(rows[w][j], 0)), false, true);
  }

  /** Then port 0: out at the root, up everywhere else. */
  lemma {:induction false} UpStep(nodes: seq<Node>, up: seq<Up>, w: nat, k: nat, t: Trip)
    requires Climbs(nodes, up) && w < |up| && 1 <= k < 4
    ensures w == 0 ==> WalkPorts(nodes, w, PortAt(k), 4 - k, t) == t.(left := true, exit := Some(Endpoint(0, 0)))
    ensures w > 0 ==> 0 <= up[w].node < |nodes|
                      && var u := Walk(nodes, up[w].node, PortAt(up[w].k), t);
                         u.left ==> WalkPorts(nodes, w, PortAt(k), 4 - k, t) == u
  {
    hide Walk, WalkPorts, PortAfter, PortAt;
    NextPort(k, 4);
    CrossStep(nodes, w, PortAt(k), 4 - k, 0, t);
    if w > 0 {
      assert nodes[w][0] == Port(Some(Endpoint(up[w].node, PortAt(up[w].k))), false, true);
    }
  }

  lemma {:induction false} EnterStep(nodes: seq<Node>, w: nat, k: nat, t: Trip)
    requires Wired(nodes) && w < |nodes| && 1 <= k < 4 && t.budget > 0
    ensures Walk(nodes, w, PortAt(k), t) == WalkPorts(nodes, w, PortAt(k), 1, t.(budget := t.budget - 1))
  {
  }

  ghost predicate Ring(nodes: seq<Node>, rows: seq<Row>, up: seq<Up>) {
    Leads(nodes, rows, true) && Hangs(rows, up) && Climbs(nodes, up)
  }

  /** From the `j`-th port of `w` on, the frame passes the branches left there, and climbs. */
  lemma {:induction false} Onward(nodes: seq<Node>, rows: seq<Row>, up: seq<Up>, w: nat, k: nat, j: nat, t: Trip)
    requires Ring(nodes, rows, up) && w < |rows| && 1 <= k < j <= 4 && !(w == |rows| - 1 && j == 2) && !t.left
    requires |rows| - 1 !in RestBranches(rows, w, j) && |rows| - 1 !in AfterBranch(rows, up, w)
    requires t.budget >= |RestBranches(rows, w, j)| + |AfterBranch(rows, up, w)| + w
    ensures Climbed(t, WalkPorts(nodes, w, PortAt(k), j - k, t), RestBranches(rows, w, j) + AfterBranch(rows, up, w))
    decreases w, 4 - j, 2
  {
    hide *;
    WiredRing(nodes, rows, up);
    if j == 4 {
      NoneLeft(rows, w);
      UpStep(nodes, up, w, k, t);
      if w == 0 {
        LeftAtRoot(rows, up, t);
      } else {
        FromBelow(nodes, rows, up, w, t);
        HasLeft(t, Walk(nodes, up[w].node, PortAt(up[w].k), t), AfterBranch(rows, up, w));
        assert [] + AfterBranch(rows, up, w) == AfterBranch(rows, up, w);
      }
    } else {
      RestStep(rows, w, j);
      if rows[w][j] < 0 {
        SideStep(nodes, rows, w, k, j, t);
        Onward(nodes, rows, up, w, k, j + 1, t);
      } else {
        OnwardDown(nodes, rows, up, w, k, j, t);
      }
    }
  }

  /** The same where a branch hangs on the `j`-th port. */
  lemma {:induction false} OnwardDown(nodes: seq<Node>, rows: seq<Row>, up: seq<Up>, w: nat, k: nat, j: nat, t: Trip)
    requires Ring(nodes, rows, up) && Descends(rows) && Hangs(rows, up) && Wired(nodes) && |nodes| == |rows|
    requires w < |rows| && |rows[w]| == 4 && 1 <= k < j < 4 && !(w == |rows| - 1 && j == 2) && !t.left
    requires 0 <= rows[w][j] < |rows|
    requires |rows| - 1 !in PreOrder(KidsOf(rows), rows[w][j]) && |rows| - 1 !in RestBranches(rows, w, j + 1)
    requires |rows| - 1 !in AfterBranch(rows, up, w)
    requires t.budget >= |PreOrder(KidsOf(rows), rows[w][j])| + |RestBranches(rows, w, j + 1)|
                         + |AfterBranch(rows, up, w)| + w
    ensures Climbed(t, WalkPorts(nodes, w, PortAt(k), j - k, t),
                    PreOrder(KidsOf(rows), rows[w][j]) + RestBranches(rows, w, j + 1) + AfterBranch(rows, up, w))
    decreases w, 4 - j, 1
  {
    hide *;
    WiredRing(nodes, rows, up);
    SideStep(nodes, rows, w, k, j, t);
    var c, tail := rows[w][j], |rows| - 1;
    WalkTree(nodes, rows, true, c, t);
    var u, a, b := Walk(nodes, c, 0, t), PreOrder(KidsOf(rows), c), RestBranches(rows, w, j + 1);
    NotLeft(t, u, a, tail);
    Onward(nodes, rows, up, w, k, j + 1, u);
    ClimbedBoth(t, u, WalkPorts(nodes, w, PortAt(k), j - k, t), a, b + AfterBranch(rows, up, w), tail);
    Regroup(a, b, AfterBranch(rows, up, w));
  }

  lemma {:induction false} HasLeft(t: Trip, r: Trip, s: seq<int>)
    requires Climbed(t, r, s)
    ensures r.left
  {
  }

  lemma {:induction false} NotLeft(t: Trip, u: Trip, s: seq<int>, tail: int)
    requires Passed(t, u, s, true, tail) && tail !in s
    ensures !u.left && u.budget == t.budget - |s|
  {
  }

  lemma {:induction false} NoneLeft(rows: seq<Row>, w: nat)
    requires Descends(rows) && w < |rows|
    ensures RestBranches(rows, w, 4) == []
  {
  }

  lemma {:induction false} LeftAtRoot(rows: seq<Row>, up: seq<Up>, t: Trip)
    requires Hangs(rows, up) && |rows| > 0
    ensures Climbed(t, t.(left := true, exit := Some(Endpoint(0, 0))), [] + AfterBranch(rows, up, 0))
  {
    assert t.order + Hops([]) == t.order;
  }

  lemma {:induction false} RestStep(rows: seq<Row>, w: nat, j: nat)
    requires Descends(rows) && w < |rows| && 1 <= j < 4
    ensures RestBranches(rows, w, j)
            == if rows[w][j] < 0 then RestBranches(rows, w, j + 1)
               else PreOrder(KidsOf(rows), rows[w][j]) + RestBranches(rows, w, j + 1)
  {
    hide *;
    RestRange(rows, w, j);
    RestRange(rows, w, j + 1);
    RowBounds(rows, w);
    RestIs(rows, w, j);
    RestIs(rows, w, j + 1);
    RowNext(rows, w, j);
    if rows[w][j] >= 0 {
      BranchStep(KidsOf(rows), w, rows[w][j], RestOf(rows[w], j + 1));
    }
  }

  lemma {:induction false} RowBounds(rows: seq<Row>, w: nat)
    requires Descends(rows) && w < |rows|
    ensures |rows[w]| == 4 && forall k :: 1 <= k < 4 ==> rows[w][k] < 0 || w < rows[w][k] < |rows|
  {
  }

  lemma {:induction false} RestIs(rows: seq<Row>, w: nat, j: nat)
    requires Descends(rows) && w < |rows| && |rows[w]| == 4 && 1 <= j <= 4
    requires forall i :: 0 <= i < |RestOf(rows[w], j)| ==> w < RestOf(rows[w], j)[i] < |rows|
    ensures RestBranches(rows, w, j) == Branches(KidsOf(rows), w, RestOf(rows[w], j))
  {
  }

  lemma {:induction false} RowNext(rows: seq<Row>, w: nat, j: nat)
    requires w < |rows| && |rows[w]| == 4 && 1 <= j < 4
    ensures RestOf(rows[w], j)
            == if rows[w][j] < 0 then RestOf(rows[w], j + 1) else [rows[w][j]] + RestOf(rows[w], j + 1)
  {
    if rows[w][j] < 0 { assert [] + RestOf(rows[w], j + 1) == RestOf(rows[w], j + 1); }
  }

  /** Entering the slave above `v` from below, the frame passes what is scanned after `v`. */
  lemma {:induction false} FromBelow(nodes: seq<Node>, rows: seq<Row>, up: seq<Up>, v: nat, t: Trip)
    requires Ring(nodes, rows, up) && 0 < v < |rows| && !t.left
    requires |rows| - 1 !in AfterBranch(rows, up, v) && t.budget >= |AfterBranch(rows, up, v)| + v
    ensures Climbed(t, Walk(nodes, up[v].node, PortAt(up[v].k), t), AfterBranch(rows, up, v))
    decreases v, 0, 0
  {
    hide Walk, WalkPorts, PreOrder, Branches, Leads, Climbs, RestBranches, KidsOf, PortAt;
    var w, k := up[v].node, up[v].k;
    var u := t.(budget := t.budget - 1);
    WiredRing(nodes, rows, up);
    EnterStep(nodes, w, k, t);
    Onward(nodes, rows, up, w, k, k + 1, u);
  }

  lemma {:induction false} WiredRing(nodes: seq<Node>, rows: seq<Row>, up: seq<Up>)
    requires Ring(nodes, rows, up)
    ensures Wired(nodes) && |nodes| == |rows| == |up| > 0 && Hangs(rows, up) && Descends(rows)
    ensures Leads(nodes, rows, true) && Climbs(nodes, up)
  {
  }

  /** The frame sent into the closing cable passes what is scanned after the last slave, and
      leaves at the root. */
  lemma {:induction false} TailFrame(nodes: seq<Node>, rows: seq<Row>, up: seq<Up>, t: Trip)
    requires Ring(nodes, rows, up) && !t.left
    requires |rows| > 0
    requires var tail := |rows| - 1;
             tail !in AfterBranch(rows, up, tail) && t.budget >= |AfterBranch(rows, up, tail)| + tail + 1
    ensures Climbed(t, Walk(nodes, |rows| - 1, 1, t), AfterBranch(rows, up, |rows| - 1))
  {
    hide *;
    WiredRing(nodes, rows, up);
    var tail, u := |rows| - 1, t.(budget := t.budget - 1);
    PortTwo();
    EnterStep(nodes, tail, 2, t);
    FromTail(nodes, rows, up, u);
    SameStart(t, u, Walk(nodes, tail, 1, t), AfterBranch(rows, up, tail));
  }

  lemma {:induction false} PortTwo()
    ensures PortAt(2) == 1
  {
  }

  lemma {:induction false} SameStart(t: Trip, u: Trip, r: Trip, s: seq<int>)
    requires Climbed(u, r, s) && u.order == t.order
    ensures Climbed(t, r, s)
  {
  }

  lemma {:induction false} FromTail(nodes: seq<Node>, rows: seq<Row>, up: seq<Up>, t: Trip)
    requires Ring(nodes, rows, up) && !t.left && |rows| > 0
    requires var tail := |rows| - 1;
             tail !in AfterBranch(rows, up, tail) && t.budget >= |AfterBranch(rows, up, tail)| + tail
    ensures Climbed(t, WalkPorts(nodes, |rows| - 1, PortAt(2), 1, t), AfterBranch(rows, up, |rows| - 1))
  {
    hide *;
    var tail := |rows| - 1;
    WiredRing(nodes, rows, up);
    NoRest(rows, tail, 3);
    Onward(nodes, rows, up, tail, 2, 3, t);
    assert [] + AfterBranch(rows, up, tail) == AfterBranch(rows, up, tail);
  }

  /** Nothing hangs on the last slave. */
  lemma {:induction false} NoRest(rows: seq<Row>, v: nat, k: nat)
    requires Descends(rows) && v == |rows| - 1 && 1 <= k <= 4
    ensures RestBranches(rows, v, k) == [] && PreOrder(KidsOf(rows), v) == [v]
  {
    RestEmpty(rows, v, k);
    RestEmpty(rows, v, 1);
  }

  lemma {:induction false} RestEmpty(rows: seq<Row>, v: nat, k: nat)
    requires Descends(rows) && v == |rows| - 1 && 1 <= k <= 4
    ensures RestOf(rows[v], k) == []
    decreases 4 - k
  {
    if k < 4 {
      RestEmpty(rows, v, k + 1);
      assert rows[v][k] < 0;
    }
  }

  // ---- The scene's ring -----------------------------------------------------

  function UpOf(ps: Parents, v: nat): Up
    requires v < |ps|
  {
    var p := PortOf(ps, v);
    Up(ps[v], if p == 3 then 1 else if p == 1 then 2 else 3)
  }

  function UpsOf(ps: Parents): (up: seq<Up>)
    ensures |up| == |ps| && forall v :: 0 <= v < |ps| ==> up[v] == UpOf(ps, v)
  {
    seq(|ps|, v requires 0 <= v < |ps| => UpOf(ps, v))
  }

  /** The port a slave is plugged into is found to lead to it. */
  lemma {:induction false} PluggedInto(ps: Parents, v: nat)
    requires ValidTree(ps) && AllPlugged(ps) && 0 < v < |ps|
    ensures PortOf(ps, v) in {1, 2, 3} && ChildOn(ps, ps[v], PortOf(ps, v), |ps|) == v
  {
    NextTurn(ps, v);
    forall i | 0 <= i < |ps| && ps[i] == ps[v] && PortOf(ps, i) == PortOf(ps, v) ensures i == v {
      NextTurn(ps, i);
      if i < v { CountSeparates(ps, ps[v], i, v); }
      if v < i { CountSeparates(ps, ps[v], v, i); }
    }
    ChildOnIs(ps, ps[v], PortOf(ps, v), |ps|, v);
  }

  lemma {:induction false} SceneHangs(ps: Parents)
    requires ValidTree(ps) && AllPlugged(ps)
    ensures Hangs(RowsOf(ps), UpsOf(ps))
  {
    RowsDescend(ps);
    var rows, up := RowsOf(ps), UpsOf(ps);
    forall v | 1 <= v < |rows|
      ensures 0 <= up[v].node < v && 1 <= up[v].k < 4 && rows[up[v].node][up[v].k] == v
    {
      PluggedInto(ps, v);
      hide ChildOn, PortOf;
      assert up[v] == UpOf(ps, v) && rows[ps[v]] == RowOf(ps, ps[v]);
    }
  }

  lemma {:induction false} SceneClimbs(nodes: seq<Node>, ps: Parents)
    requires ValidTree(ps) && AllPlugged(ps) && SceneWired(nodes, ps, true)
    ensures Climbs(nodes, UpsOf(ps))
  {
    var up := UpsOf(ps);
    assert nodes[0][0] == Marked(WiredPort(ps, |ps|, 0, 0), Endpoint(0, 0), Endpoint(0, 0), RingEnd(ps, true));
    forall v | 1 <= v < |up|
      ensures 1 <= up[v].k < 4 && nodes[v][0] == Port(Some(Endpoint(up[v].node, PortAt(up[v].k))), false, true)
    {
      PluggedInto(ps, v);
      hide ChildOn, PortOf;
      assert nodes[v][0] == Marked(WiredPort(ps, |ps|, v, 0), Endpoint(v, 0), Endpoint(0, 0), RingEnd(ps, true));
    }
  }

  lemma {:induction false} OnceOnly(a: seq<int>, x: int, b: seq<int>)
    requires multiset(a + [x] + b)[x] == 1
    ensures x !in a && x !in b && UpTo(a + [x] + b, x) == a + [x]
  {
    assert multiset(a + [x] + b) == multiset(a) + multiset{x} + multiset(b);
    assert multiset(a)[x] == 0 && multiset(b)[x] == 0;
    assert a + [x] + b == a + ([x] + b);
    UpToConcat(a, [x] + b, x);
    assert ([x] + b)[0] == x;
  }

  /** The scan splits at the last slave. */
  lemma {:induction false} ScanSplits(ps: Parents)
    requires ValidTree(ps) && AllPlugged(ps)
    ensures Hangs(RowsOf(ps), UpsOf(ps)) && Forest(ScanKids(ps))
    ensures var scan, tail, rest := PreOrder(ScanKids(ps), 0), |ps| - 1, AfterBranch(RowsOf(ps), UpsOf(ps), |ps| - 1);
            scan == UpTo(scan, tail) + rest && tail !in rest && |rest| <= |ps|
  {
    hide PreOrder, Branches, AllPlugged, Below, AfterBranch, BeforeBranch, UpTo, Lists, Hangs, Descends;
    var rows, up, tail := RowsOf(ps), UpsOf(ps), |ps| - 1;
    SceneHangs(ps);
    RowsAreScanKids(ps);
    ScanKidsRanked(ps);
    ListsIsForest(ps, ScanKids(ps));
    ScanAround(rows, up, tail);
    NoRest(rows, tail, 1);
    PreOrderCount(ps, ScanKids(ps), 0, tail);
    RootAboveAll(ps, tail);
    PreOrderIsPermutation(ps, ScanKids(ps));
    OnceOnly(BeforeBranch(rows, up, tail), tail, AfterBranch(rows, up, tail));
  }

  /** On the ring of a scene the first frame passes the slaves scanned up to the last one of the
      scene and leaves by the closing cable; the second, sent into it, passes the others and
      leaves at the root. Together they pass every slave, in scan order. */
  lemma {:induction false} RingFrames(nodes: seq<Node>, ps: Parents)
    requires ValidTree(ps) && AllPlugged(ps) && SceneWired(nodes, ps, true)
    ensures Forest(ScanKids(ps))
    ensures var t := Trip([], false, None, 8 * (|ps| + 1));
            var first, second := Walk(nodes, 0, 0, t), Walk(nodes, |ps| - 1, 1, t);
            && first.exit == Some(Endpoint(|ps| - 1, 1)) && second.exit == Some(Endpoint(0, 0))
            && first.order + second.order == Hops(PreOrder(ScanKids(ps), 0))
  {
    hide Walk, PreOrder, SceneWired, AllPlugged, Leads, Climbs, AfterBranch, UpTo, Hangs, Descends;
    var rows, up, tail := RowsOf(ps), UpsOf(ps), |ps| - 1;
    FrameFollowsScan(nodes, ps, true);
    ScanSplits(ps);
    SceneLeads(nodes, ps, true);
    SceneClimbs(nodes, ps);
    TailFrame(nodes, rows, up, Trip([], false, None, 8 * (|ps| + 1)));
    var scan := PreOrder(ScanKids(ps), 0);
    HopsConcat(UpTo(scan, tail), AfterBranch(rows, up, tail));
    assert [] + Hops(AfterBranch(rows, up, tail)) == Hops(AfterBranch(rows, up, tail));
  }
}
