/** How a scene hands out ports and in which order the scan visits the children of a
    slave: the ports 1, 3, 2 in the order children were added, visited as 3, 1, 2. */
module ScenePorts {
  import opened SceneTree

  // ---- Children in the order they were added --------------------------------

  function ChildrenBefore(ps: Parents, v: int, m: nat): (r: seq<int>)
    requires m <= |ps|
    ensures |r| == CountBefore(ps, v, m)
    ensures forall k :: 0 <= k < |r| ==> 0 <= r[k] < m && ps[r[k]] == v
    decreases m
  {
    if m == 0 then []
    else if ps[m - 1] == v then ChildrenBefore(ps, v, m - 1) + [m - 1]
    else ChildrenBefore(ps, v, m - 1)
  }

  function Children(ps: Parents, v: int): seq<int> { ChildrenBefore(ps, v, |ps|) }

  lemma {:induction false} ChildrenCount(ps: Parents, v: int, m: nat, c: int)
    requires m <= |ps|
    ensures multiset(ChildrenBefore(ps, v, m))[c] == if 0 <= c < m && ps[c] == v then 1 else 0
    decreases m
  {
    if m > 0 {
      ChildrenCount(ps, v, m - 1, c);
    }
  }

  lemma {:induction false} CountMonotone(ps: Parents, p: int, a: nat, b: nat)
    requires a <= b <= |ps|
    ensures CountBefore(ps, p, a) <= CountBefore(ps, p, b)
    decreases b - a
  {
    if a < b { CountMonotone(ps, p, a, b - 1); }
  }

  /** Of two children of one slave, the later one comes later in the count. */
  lemma {:induction false} CountSeparates(ps: Parents, p: int, a: nat, b: nat)
    requires a < b <= |ps| && ps[a] == p
    ensures CountBefore(ps, p, a) < CountBefore(ps, p, b)
  {
    CountMonotone(ps, p, a + 1, b);
  }

  // ---- Sorting the children by the port they are on -------------------------

  ghost predicate Indexes(list: seq<int>, ports: seq<int>) {
    forall k :: 0 <= k < |list| ==> 0 <= list[k] < |ports|
  }

  ghost predicate SortedByRank(list: seq<int>, ports: seq<int>)
    requires Indexes(list, ports)
  {
    forall j, k :: 0 <= j < k < |list| ==> ProcRank(ports[list[j]]) <= ProcRank(ports[list[k]])
  }

  function InsertByRank(ports: seq<int>, c: int, list: seq<int>): (r: seq<int>)
    requires Indexes(list, ports) && 0 <= c < |ports|
    ensures Indexes(r, ports)
    decreases |list|
  {
    if list == [] || ProcRank(ports[c]) < ProcRank(ports[list[0]]) then [c] + list
    else [list[0]] + InsertByRank(ports, c, list[1..])
  }

  lemma {:induction false} InsertKeepsAll(ports: seq<int>, c: int, list: seq<int>)
    requires Indexes(list, ports) && 0 <= c < |ports|
    ensures multiset(InsertByRank(ports, c, list)) == multiset(list) + multiset{c}
    decreases |list|
  {
    if list != [] {
      assert list == [list[0]] + list[1..];
      InsertKeepsAll(ports, c, list[1..]);
    }
  }

  lemma {:induction false} InsertSorted(ports: seq<int>, c: int, list: seq<int>)
    requires Indexes(list, ports) && 0 <= c < |ports| && SortedByRank(list, ports)
    ensures SortedByRank(InsertByRank(ports, c, list), ports)
    decreases |list|
  {
    if list == [] || ProcRank(ports[c]) < ProcRank(ports[list[0]]) {
      SortedCons(ports, c, list);
    } else {
      InsertSorted(ports, c, list[1..]);
      SortedCons(ports, list[0], InsertByRank(ports, c, list[1..]));
    }
  }

  lemma {:induction false} SortedCons(ports: seq<int>, c: int, list: seq<int>)
    requires Indexes(list, ports) && 0 <= c < |ports| && SortedByRank(list, ports)
    requires list == [] || ProcRank(ports[c]) <= ProcRank(ports[list[0]])
    ensures SortedByRank([c] + list, ports)
  {}

  /** The `std::sort` of the scan, by processing rank. */
  function SortByRank(ports: seq<int>, list: seq<int>): (r: seq<int>)
    requires Indexes(list, ports)
    ensures multiset(r) == multiset(list) && Indexes(r, ports) && SortedByRank(r, ports)
    decreases |list|
  {
    if list == [] then []
    else
      var last, sorted := list[|list| - 1], SortByRank(ports, list[..|list| - 1]);
      assert list == list[..|list| - 1] + [last];
      InsertKeepsAll(ports, last, sorted);
      InsertSorted(ports, last, sorted);
      InsertByRank(ports, last, sorted)
  }

  function Ports(ps: Parents): (r: seq<int>)
    ensures |r| == |ps| && forall i :: 0 <= i < |r| ==> r[i] == PortOf(ps, i)
  {
    seq(|ps|, i requires 0 <= i < |ps| => PortOf(ps, i))
  }

  /** Children lists in which siblings stand in processing order, however a sort breaks
      the ties among children left without a port. */
  ghost predicate Ranked(ps: Parents, kids: Kids) {
    && Lists(ps, kids)
    && forall v :: 0 <= v < |kids| ==>
         Indexes(kids[v], Ports(ps)) && SortedByRank(kids[v], Ports(ps))
  }

  /** The children lists the scan walks. */
  function ScanKids(ps: Parents): (kids: Kids)
    ensures |kids| == |ps|
    ensures forall v :: 0 <= v < |ps| ==> kids[v] == SortByRank(Ports(ps), Children(ps, v))
  {
    seq(|ps|, v requires 0 <= v < |ps| => SortByRank(Ports(ps), Children(ps, v)))
  }

  lemma {:induction false} ScanKidsRanked(ps: Parents)
    ensures Ranked(ps, ScanKids(ps))
  {
    var kids := ScanKids(ps);
    forall v, c | 0 <= v < |kids|
      ensures multiset(kids[v])[c] == if 0 <= c < |ps| && ps[c] == v then 1 else 0
    {
      ChildrenCount(ps, v, |ps|, c);
    }
  }

  // ---- Which port the k-th child in scan order is on ------------------------

  /** The downstream ports in use on a slave with `m` children, in processing order. */
  function PortsInUse(m: nat): (r: seq<int>)
    requires m <= 3
    ensures |r| == m
  {
    if m == 0 then [] else if m == 1 then [1] else if m == 2 then [3, 1] else [3, 1, 2]
  }

  lemma {:induction false} KidsCount(ps: Parents, kids: Kids, v: nat)
    requires Lists(ps, kids) && v < |ps|
    ensures |kids[v]| == CountBefore(ps, v, |ps|)
  {
    var added := Children(ps, v);
    forall c: int ensures multiset(kids[v])[c] == multiset(added)[c] {
      ChildrenCount(ps, v, |ps|, c);
      ListedCount(ps, kids, v, c);
    }
    hide *;
    SameLength(kids[v], added);
  }

  lemma {:induction false} ListedCount(ps: Parents, kids: Kids, v: nat, c: int)
    requires Lists(ps, kids) && v < |ps|
    ensures multiset(kids[v])[c] == if 0 <= c < |ps| && ps[c] == v then 1 else 0
  {
  }

  lemma {:induction false} SameLength(a: seq<int>, b: seq<int>)
    requires forall c: int :: multiset(a)[c] == multiset(b)[c]
    ensures |a| == |b|
  {
    var m, n := multiset(a), multiset(b);
    assert forall c: int :: m[c] == n[c];
    assert m == n;
    assert |m| == |a| && |n| == |b|;
  }

  /** A child of a slave with `m` children is the first, second, ... or `m`-th. */
  lemma {:induction false} ChildTurn(ps: Parents, kids: Kids, v: nat, c: int)
    requires Lists(ps, kids) && v < |ps| && c in kids[v]
    ensures 0 <= c < |ps| && ps[c] == v && CountBefore(ps, v, c) < |kids[v]|
    ensures PortOf(ps, c) == DownstreamPort(CountBefore(ps, v, c))
  {
    KidsParent(ps, kids, v, c);
    KidsCount(ps, kids, v);
    CountSeparates(ps, v, c, |ps|);
  }

  /** Two children take different turns. */
  lemma {:induction false} TurnsDiffer(ps: Parents, kids: Kids, v: nat, j: nat, k: nat)
    requires ValidTree(ps) && Lists(ps, kids) && v < |ps| && j < k < |kids[v]|
    ensures 0 <= kids[v][j] < |ps| && 0 <= kids[v][k] < |ps|
    ensures CountBefore(ps, v, kids[v][j]) != CountBefore(ps, v, kids[v][k])
  {
    KidsAreSiblings(ps, kids, v);
    var a, b := kids[v][j], kids[v][k];
    if a < b { CountSeparates(ps, v, a, b); } else { CountSeparates(ps, v, b, a); }
  }

  /** With at most three children, the k-th one scanned is on the k-th port in use. */
  lemma {:induction false} PortsAlongScan(ps: Parents, kids: Kids, v: nat)
    requires ValidTree(ps) && Ranked(ps, kids) && v < |ps| && |kids[v]| <= 3
    ensures forall k :: 0 <= k < |kids[v]| ==>
              0 <= kids[v][k] < |ps| && PortOf(ps, kids[v][k]) == PortsInUse(|kids[v]|)[k]
  {
    var s := kids[v];
    var turns := Turns(ps, kids, v);
    forall j, k | 0 <= j < k < |s|
      ensures ProcRank(DownstreamPort(turns[j])) <= ProcRank(DownstreamPort(turns[k]))
    {
      assert SortedByRank(s, Ports(ps));
    }
    TurnsInRankOrder(turns);
  }

  /** Which turn each listed child of `v` took. */
  ghost function Turns(ps: Parents, kids: Kids, v: nat): (r: seq<nat>)
    requires ValidTree(ps) && Lists(ps, kids) && v < |ps|
    ensures |r| == |kids[v]|
    ensures forall k :: 0 <= k < |r| ==>
              0 <= kids[v][k] < |ps| && r[k] < |r| && PortOf(ps, kids[v][k]) == DownstreamPort(r[k])
    ensures forall j, k :: 0 <= j < k < |r| ==> r[j] != r[k]
  {
    var s := kids[v];
    KidTurns(ps, kids, v);
    seq(|s|, k requires 0 <= k < |s| => CountBefore(ps, v, s[k]))
  }

  lemma {:induction false} KidTurns(ps: Parents, kids: Kids, v: nat)
    requires ValidTree(ps) && Lists(ps, kids) && v < |ps|
    ensures var s := kids[v];
            && (forall k :: 0 <= k < |s| ==>
                  && 0 <= s[k] < |ps| && CountBefore(ps, v, s[k]) < |s|
                  && PortOf(ps, s[k]) == DownstreamPort(CountBefore(ps, v, s[k])))
            && (forall j, k :: 0 <= j < k < |s| ==> CountBefore(ps, v, s[j]) != CountBefore(ps, v, s[k]))
  {
    var s := kids[v];
    hide Lists, CountBefore, PortOf, DownstreamPort;
    forall k | 0 <= k < |s|
      ensures 0 <= s[k] < |ps| && CountBefore(ps, v, s[k]) < |s|
      ensures PortOf(ps, s[k]) == DownstreamPort(CountBefore(ps, v, s[k]))
    {
      ChildTurn(ps, kids, v, s[k]);
    }
    forall j, k | 0 <= j < k < |s| ensures CountBefore(ps, v, s[j]) != CountBefore(ps, v, s[k]) {
      TurnsDiffer(ps, kids, v, j, k);
    }
  }

  lemma {:induction false} TurnsInRankOrder(turns: seq<nat>)
    requires |turns| <= 3 && forall k :: 0 <= k < |turns| ==> turns[k] < |turns|
    requires forall j, k :: 0 <= j < k < |turns| ==> turns[j] != turns[k]
    requires forall j, k :: 0 <= j < k < |turns| ==>
               ProcRank(DownstreamPort(turns[j])) <= ProcRank(DownstreamPort(turns[k]))
    ensures forall k :: 0 <= k < |turns| ==> DownstreamPort(turns[k]) == PortsInUse(|turns|)[k]
  {
    if |turns| > 1 { assert turns[0] != turns[1]; }
    if |turns| > 2 { assert turns[0] != turns[2] && turns[1] != turns[2]; }
  }

  /** When no slave has more than three children the ranking is forced: every sort gives
      the same lists. */
  lemma {:induction false} RankingUnique(ps: Parents, a: Kids, b: Kids, v: nat)
    requires ValidTree(ps) && Ranked(ps, a) && Ranked(ps, b) && v < |ps| && |a[v]| <= 3
    ensures a[v] == b[v]
  {
    RankedLists(ps, a);
    RankedLists(ps, b);
    hide *;
    KidsCount(ps, a, v);
    KidsCount(ps, b, v);
    PortsAlongScan(ps, a, v);
    PortsAlongScan(ps, b, v);
    forall k | 0 <= k < |a[v]| ensures a[v][k] == b[v][k] {
      SameTurn(ps, a, b, v, a[v][k], b[v][k]);
    }
  }

  lemma {:induction false} RankedLists(ps: Parents, kids: Kids)
    requires Ranked(ps, kids)
    ensures Lists(ps, kids) && |kids| == |ps|
  {
  }

  /** Two children of a slave on the same port are one. */
  lemma {:induction false} SameTurn(ps: Parents, a: Kids, b: Kids, v: nat, x: int, y: int)
    requires Lists(ps, a) && Lists(ps, b) && v < |ps| && |a| == |b| == |ps| && |a[v]| == |b[v]| <= 3
    requires x in a[v] && y in b[v] && 0 <= x < |ps| && 0 <= y < |ps| && PortOf(ps, x) == PortOf(ps, y)
    ensures x == y
  {
    ChildTurn(ps, a, v, x);
    ChildTurn(ps, b, v, y);
    assert CountBefore(ps, v, x) == CountBefore(ps, v, y);
    hide Lists, CountBefore;
    if x < y { CountSeparates(ps, v, x, y); }
    if y < x { CountSeparates(ps, v, y, x); }
  }
}
