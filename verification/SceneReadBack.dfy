/** The whole circle in one piece: a scene is written as a topology, the simulator wires it, the
    master's frames walk it and number its slaves, and the tree is discovered and its ports
    computed again. */
module SceneReadBack {
  import opened SceneTree
  import opened ScenePorts
  import opened SimScene
  import opened Wiring
  import opened EmulatedNetwork
  import opened FrameWalk
  import opened RingWalk
  import opened StationScan
  import opened Discovery
  import opened DiscoveryCorrect
  import opened PortRouting
  import opened Inference

  /** The slaves as the master meets them. */
  method ScanBus(nodes: seq<Node>, order: seq<int>, addr: seq<int>) returns (slaves: seq<BusSlave>)
    requires |addr| == |nodes| && Wired(nodes)
    requires forall k :: 0 <= k < |order| ==> 0 <= order[k] < |nodes|
    ensures BusOf(slaves, nodes, order, addr)
  {
    slaves := [];
    for k := 0 to |order|
      invariant |slaves| == k
      invariant forall i :: 0 <= i < k ==>
                  0 <= order[i] < |nodes| && |nodes[order[i]]| == 4
                  && slaves[i] == BusSlave(addr[order[i]], ComFlags(nodes[order[i]]))
    {
      slaves := slaves + [BusSlave(addr[order[k]], ComFlags(nodes[order[k]]))];
    }
  }

  /** What the master makes of the wired scene it scans. */
  ghost predicate Recovered(ps: Parents, order: seq<int>, addr: seq<int>, topo: seq<TopologyNode>, routing: Routing) {
    && |order| == |topo| == |routing.upstream| == |routing.parentPort| && |addr| == |ps| && ValidTree(ps)
    && forall j :: 0 <= j < |order| ==>
         && 0 <= order[j] < |ps|
         && topo[j].address == addr[order[j]]
         && topo[j].parentAddress == addr[ParentOrSelf(ps, order[j])]
         && routing.upstream[j] == 0
         && routing.parentPort[j] == PortOf(ps, order[j])
  }

  /** From the numbered slaves to the tree and the ports: right if and only if there is no ring
      or its end is scanned last; otherwise the slave scanned after the end hangs on it. */
  method Discover(nodes: seq<Node>, order: seq<int>, addr: seq<int>, ghost ps: Parents, ghost ring: bool)
    returns (topo: seq<TopologyNode>, routing: Routing)
    requires ValidTree(ps) && AllPlugged(ps) && SceneWired(nodes, ps, ring) && |addr| == |ps| && Distinct(addr)
    requires Forest(ScanKids(ps)) && order == PreOrder(ScanKids(ps), 0)
    ensures |order| == |topo| == |routing.upstream| == |routing.parentPort| == |ps| > 0
    ensures Recovered(ps, order, addr, topo, routing) <==> !ring || order[|order| - 1] == |ps| - 1
    ensures forall k :: 0 <= k < |order| ==> 0 <= order[k] < |addr| && topo[k].address == addr[order[k]]
    ensures ring ==> NextMisled(ps, order, topo)
  {
    ScanIndexes(ps, order);
    SceneShape(nodes, ps, ring);
    hide *;
    var slaves := ScanBus(nodes, order, addr);
    BusShape(slaves, nodes, order, addr);
    var valid;
    valid, topo := ComputeTopology(slaves);
    TopoShape(topo, slaves);
    routing := ComputePortRouting(topo);
    if !ring || order[|order| - 1] == |ps| - 1 {
      AllRecovered(topo, slaves, nodes, ps, ring, addr, order, routing);
    } else {
      NotRecovered(topo, slaves, nodes, ps, ring, addr, order, routing);
    }
    if ring {
      Misled(topo, slaves, nodes, ps, addr, order);
    }
  }

  /** The slave scanned after the last one of the scene is reported to hang on it. */
  ghost predicate NextMisled(ps: Parents, order: seq<int>, topo: seq<TopologyNode>) {
    |order| == |topo| && forall j :: 0 <= j < |order| - 1 && order[j] == |ps| - 1 ==>
      topo[j + 1].parentAddress == topo[j].address
  }

  lemma {:induction false} ScannedScene(ps: Parents, order: seq<int>)
    requires ValidTree(ps) && AllPlugged(ps) && Forest(ScanKids(ps)) && order == PreOrder(ScanKids(ps), 0)
    ensures Scanned(ps, ScanKids(ps), order)
  {
    hide PreOrder, AllPlugged, Lists;
    ScanKidsRanked(ps);
    PluggedKids(ps, ScanKids(ps));
  }

  lemma {:induction false} NotRecovered(topo: seq<TopologyNode>, slaves: seq<BusSlave>, nodes: seq<Node>, ps: Parents,
                                        ring: bool, addr: seq<int>, order: seq<int>, routing: Routing)
    requires ValidTree(ps) && AllPlugged(ps) && SceneWired(nodes, ps, ring) && |addr| == |ps| && Distinct(addr)
    requires Forest(ScanKids(ps)) && order == PreOrder(ScanKids(ps), 0) && BusOf(slaves, nodes, order, addr)
    requires |topo| == |slaves| == |order| && forall i :: 0 <= i < |slaves| ==>
               topo[i] == TopologyNode(slaves[i].address, ReportedParent(slaves, slaves[i].address), slaves[i].com)
    requires order != [] && ring && order[|order| - 1] != |ps| - 1
    ensures !Recovered(ps, order, addr, topo, routing)
  {
    hide PreOrder, SceneWired, AllPlugged, BusOf, ReportedParent, PortOf, ScanKids, Forest, Scanned, Distinct,
         Recovered, Within, AllOpen;
    ScannedScene(ps, order);
    DiscoveryExact(slaves, nodes, ps, ScanKids(ps), order, ring, addr);
    BusShape(slaves, nodes, order, addr);
    var k :| 0 <= k < |order| && ReportedParent(slaves, addr[order[k]]) != addr[ParentOrSelf(ps, order[k])];
    assert topo[k].parentAddress == ReportedParent(slaves, addr[order[k]]);
    OneWrong(ps, order, addr, topo, routing, k);
  }

  lemma {:induction false} OneWrong(ps: Parents, order: seq<int>, addr: seq<int>, topo: seq<TopologyNode>,
                                    routing: Routing, k: nat)
    requires ValidTree(ps) && |addr| == |ps| && |topo| == |order| && k < |order| && 0 <= order[k] < |ps|
    requires topo[k].parentAddress != addr[ParentOrSelf(ps, order[k])]
    ensures !Recovered(ps, order, addr, topo, routing)
  {
    hide PortOf;
  }

  lemma {:induction false} Misled(topo: seq<TopologyNode>, slaves: seq<BusSlave>, nodes: seq<Node>, ps: Parents,
                                  addr: seq<int>, order: seq<int>)
    requires ValidTree(ps) && AllPlugged(ps) && SceneWired(nodes, ps, true) && |addr| == |ps| && Distinct(addr)
    requires Forest(ScanKids(ps)) && order == PreOrder(ScanKids(ps), 0) && BusOf(slaves, nodes, order, addr)
    requires |topo| == |slaves| == |order| && forall i :: 0 <= i < |slaves| ==>
               topo[i] == TopologyNode(slaves[i].address, ReportedParent(slaves, slaves[i].address), slaves[i].com)
    ensures NextMisled(ps, order, topo)
  {
    hide *;
    ScannedScene(ps, order);
    BusShape(slaves, nodes, order, addr);
    SceneShape(nodes, ps, true);
    forall j | 0 <= j < |order| - 1 && order[j] == |ps| - 1 ensures topo[j + 1].parentAddress == topo[j].address {
      RingEndTakesNext(slaves, nodes, ps, ScanKids(ps), order, addr, j);
    }
    NextIsMisled(ps, order, topo);
  }

  lemma {:induction false} NextIsMisled(ps: Parents, order: seq<int>, topo: seq<TopologyNode>)
    requires |order| == |topo|
    requires forall j :: 0 <= j < |order| - 1 && order[j] == |ps| - 1 ==> topo[j + 1].parentAddress == topo[j].address
    ensures NextMisled(ps, order, topo)
  {
  }

  lemma {:induction false} BusShape(slaves: seq<BusSlave>, nodes: seq<Node>, s: seq<int>, addr: seq<int>)
    requires BusOf(slaves, nodes, s, addr)
    ensures |slaves| == |s| && |addr| == |nodes|
    ensures forall k :: 0 <= k < |s| ==> 0 <= s[k] < |addr| && slaves[k].address == addr[s[k]] && |slaves[k].com| == 4
  {
  }

  lemma {:induction false} TopoShape(topo: seq<TopologyNode>, slaves: seq<BusSlave>)
    requires |topo| == |slaves|
    requires forall i :: 0 <= i < |slaves| ==> topo[i].com == slaves[i].com && |slaves[i].com| == 4
    ensures FourPorts(topo)
  {
  }

  lemma {:induction false} AllRecovered(topo: seq<TopologyNode>, slaves: seq<BusSlave>, nodes: seq<Node>, ps: Parents,
                                        ring: bool, addr: seq<int>, order: seq<int>, routing: Routing)
    requires ValidTree(ps) && AllPlugged(ps) && SceneWired(nodes, ps, ring) && |addr| == |ps| && Distinct(addr)
    requires Forest(ScanKids(ps)) && order == PreOrder(ScanKids(ps), 0) && BusOf(slaves, nodes, order, addr)
    requires |topo| == |slaves| == |order| && forall i :: 0 <= i < |slaves| ==>
               topo[i] == TopologyNode(slaves[i].address, ReportedParent(slaves, slaves[i].address), slaves[i].com)
    requires order != [] && (ring ==> order[|order| - 1] == |ps| - 1)
    requires FourPorts(topo) && |routing.upstream| == |topo| && |routing.parentPort| == |topo|
    requires forall i :: 0 <= i < |topo| ==> |topo[i].com| == 4 && routing.upstream[i] == Upstream(topo[i].com)
    requires forall j :: 0 <= j < |topo| ==> routing.parentPort[j] == ParentPort(topo, j, |topo|)
    ensures Recovered(ps, order, addr, topo, routing)
  {
    hide PreOrder, Lists, Below, SceneWired, AllPlugged, ParentPort, Upstream, ReportedParent, PortOf, ScanKids, Forest,
         BusOf, FourPorts, Distinct, Recovered;
    BusShape(slaves, nodes, order, addr);
    forall j | 0 <= j < |order|
      ensures 0 <= order[j] < |ps| && topo[j].address == addr[order[j]]
      ensures topo[j].parentAddress == addr[ParentOrSelf(ps, order[j])]
      ensures routing.upstream[j] == 0 && routing.parentPort[j] == PortOf(ps, order[j])
    {
      OneRecovered(topo, slaves, nodes, ps, ring, addr, order, j);
    }
    Gathered(ps, order, addr, topo, routing);
  }

  lemma {:induction false} Gathered(ps: Parents, order: seq<int>, addr: seq<int>, topo: seq<TopologyNode>,
                                    routing: Routing)
    requires |order| == |topo| == |routing.upstream| == |routing.parentPort| && |addr| == |ps| && ValidTree(ps)
    requires forall j :: 0 <= j < |order| ==> 0 <= order[j] < |ps| && topo[j].address == addr[order[j]]
    requires forall j :: 0 <= j < |order| ==> topo[j].parentAddress == addr[ParentOrSelf(ps, order[j])]
    requires forall j :: 0 <= j < |order| ==> routing.upstream[j] == 0 && routing.parentPort[j] == PortOf(ps, order[j])
    ensures Recovered(ps, order, addr, topo, routing)
  {
  }

  lemma {:induction false} OneRecovered(topo: seq<TopologyNode>, slaves: seq<BusSlave>, nodes: seq<Node>, ps: Parents,
                                        ring: bool, addr: seq<int>, order: seq<int>, j: nat)
    requires ValidTree(ps) && AllPlugged(ps) && SceneWired(nodes, ps, ring) && |addr| == |ps| && Distinct(addr)
    requires Forest(ScanKids(ps)) && order == PreOrder(ScanKids(ps), 0) && BusOf(slaves, nodes, order, addr)
    requires |topo| == |slaves| == |order| && forall i :: 0 <= i < |slaves| ==>
               topo[i] == TopologyNode(slaves[i].address, ReportedParent(slaves, slaves[i].address), slaves[i].com)
    requires order != [] && (ring ==> order[|order| - 1] == |ps| - 1) && j < |order|
    ensures 0 <= order[j] < |ps| && topo[j].address == addr[order[j]] && FourPorts(topo)
    ensures topo[j].parentAddress == addr[ParentOrSelf(ps, order[j])]
    ensures Upstream(topo[j].com) == 0 && ParentPort(topo, j, |topo|) == PortOf(ps, order[j])
  {
    hide *;
    BusShape(slaves, nodes, order, addr);
    SceneRecovered(topo, slaves, nodes, ps, ring, addr, j);
  }

  /** Every scene the tool can write comes back through the frames that number its slaves: each
      slave under its own parent, entered by port 0, and on the port of its parent the scene gave
      it, if and only if there is no ring or it closes on the slave scanned last. */
  method ReadBack(scene: Scene)
    returns (order: seq<int>, station: seq<int>, topo: seq<TopologyNode>, routing: Routing)
    requires ValidTree(scene.Tree()) && AllPlugged(scene.Tree()) && |scene.slaves| <= 0x1_0000
    ensures Forest(ScanKids(scene.Tree())) && order == PreOrder(ScanKids(scene.Tree()), 0)
    ensures |order| == |topo| == |station| == |scene.slaves| > 0
    ensures forall k :: 0 <= k < |order| ==> 0 <= order[k] < |station| && station[order[k]] == Station(k)
    ensures Recovered(scene.Tree(), order, station, topo, routing)
            <==> !scene.redundancy || order[|order| - 1] == |scene.slaves| - 1
    ensures forall k :: 0 <= k < |order| ==> topo[k].address == Station(k)
    ensures scene.redundancy ==> NextMisled(scene.Tree(), order, topo)
  {
    ghost var ps := scene.Tree();
    OneRoot(ps);
    var file := scene.WriteTopology();
    hide *;
    var net := BuildSegment(file.topology, ps, scene.redundancy, |scene.slaves|);
    order := Passages(net, ps, scene.redundancy);
    ScanIndexes(ps, order);
    var ok;
    station, ok := SetAddresses(net, ps, scene.redundancy, |scene.slaves|, seq(|scene.slaves|, _ => 0));
    AreNumbered(order, station);
    AllDistinct(ps, order, station);
    topo, routing := Discover(net.nodes, order, station, ps, scene.redundancy);
  }

  lemma {:induction false} AreNumbered(order: seq<int>, station: seq<int>)
    requires Numbered(order, station, |order|)
    ensures forall k :: 0 <= k < |order| ==> 0 <= order[k] < |station| && station[order[k]] == Station(k)
  {
  }

  /** Numbered along the scan, all slaves have different addresses. */
  lemma {:induction false} AllDistinct(ps: Parents, order: seq<int>, station: seq<int>)
    requires ValidTree(ps) && Forest(ScanKids(ps)) && order == PreOrder(ScanKids(ps), 0) && |ps| <= 0x1_0000
    requires |station| == |ps| == |order| && forall k :: 0 <= k < |order| ==> 0 <= order[k] < |ps|
    requires forall k :: 0 <= k < |order| ==> station[order[k]] == Station(k)
    ensures Distinct(station)
  {
    EverySlave(ps, order);
    hide *;
    SpreadApart(order, station);
    AreDistinct(station);
  }

  lemma {:induction false} SpreadApart(order: seq<int>, station: seq<int>)
    requires |station| == |order| <= 0x1_0000 && forall v :: 0 <= v < |station| ==> v in order
    requires forall k :: 0 <= k < |order| ==> 0 <= order[k] < |station| && station[order[k]] == Station(k)
    ensures forall x, y :: 0 <= x < y < |station| ==> station[x] != station[y]
  {
    hide *;
    forall x, y | 0 <= x < y < |station| ensures station[x] != station[y] {
      assert x in order && y in order;
      var j :| 0 <= j < |order| && order[j] == x;
      var k :| 0 <= k < |order| && order[k] == y;
      if j < k { StationsDiffer(j, k); } else { StationsDiffer(k, j); }
    }
  }

  lemma {:induction false} AreDistinct(addr: seq<int>)
    requires forall x, y :: 0 <= x < y < |addr| ==> addr[x] != addr[y]
    ensures Distinct(addr)
  {
  }

  lemma {:induction false} EverySlave(ps: Parents, order: seq<int>)
    requires ValidTree(ps) && Forest(ScanKids(ps)) && order == PreOrder(ScanKids(ps), 0)
    ensures forall v :: 0 <= v < |ps| ==> v in order
  {
    ScanKidsRanked(ps);
    forall v | 0 <= v < |ps| ensures v in order {
      PreOrderCount(ps, ScanKids(ps), 0, v);
      RootAboveAll(ps, v);
      assert v in multiset(order);
    }
  }

  lemma {:induction false} SceneShape(nodes: seq<Node>, ps: Parents, ring: bool)
    requires SceneWired(nodes, ps, ring)
    ensures Wired(nodes) && |nodes| == |ps|
  {
  }

  // ---- A ring that misleads -------------------------------------------------

  lemma {:induction false} BranchesPorts(ps: Parents)
    requires ps == [-1, 0, 0]
    ensures ValidTree(ps) && AllPlugged(ps) && Ports(ps) == [-1, 1, 3]
  {
    assert CountBefore(ps, 0, 0) == 0;
    assert CountBefore(ps, 0, 1) == 0;
    assert CountBefore(ps, 0, 2) == 1;
    assert PortOf(ps, 0) == -1 && PortOf(ps, 1) == 1 && PortOf(ps, 2) == 3;
  }

  lemma {:induction false} BranchesRanked(ps: Parents, kids: Kids)
    requires ps == [-1, 0, 0] && kids == [[2, 1], [], []]
    ensures Ranked(ps, kids)
  {
    BranchesPorts(ps);
    hide Ports, PortOf, CountBefore;
  }

  lemma {:induction false} BranchesKids(ps: Parents)
    requires ps == [-1, 0, 0]
    ensures ScanKids(ps) == [[2, 1], [], []]
  {
    hide *;
    var kids := [[2, 1], [], []];
    BranchesPorts(ps);
    BranchesRanked(ps, kids);
    ScanKidsRanked(ps);
    assert |ScanKids(ps)| == 3;
    RankingUnique(ps, kids, ScanKids(ps), 0);
    RankingUnique(ps, kids, ScanKids(ps), 1);
    RankingUnique(ps, kids, ScanKids(ps), 2);
    assert ScanKids(ps) == kids;
  }

  lemma {:induction false} BranchesOrder(kids: Kids)
    requires kids == [[2, 1], [], []]
    ensures Forest(kids) && PreOrder(kids, 0) == [0, 2, 1]
  {
    assert PreOrder(kids, 2) == [2];
    assert PreOrder(kids, 1) == [1];
    assert Branches(kids, 0, [1]) == [1] + Branches(kids, 0, [1][1..]) == [1];
    assert [2, 1][1..] == [1];
    assert Branches(kids, 0, kids[0]) == [2, 1];
  }

  /** Two slaves on the first: the second of them is scanned first. */
  lemma {:induction false} BranchesScan(ps: Parents)
    requires ps == [-1, 0, 0]
    ensures Forest(ScanKids(ps)) && PreOrder(ScanKids(ps), 0) == [0, 2, 1]
  {
    BranchesKids(ps);
    BranchesOrder(ScanKids(ps));
  }

  /** A ring the discovery gets wrong: two slaves hang on the first one, and the slave scanned
      last is reported to hang on the ring's end. */
  method RingExample() returns (order: seq<int>, station: seq<int>, topo: seq<TopologyNode>, routing: Routing)
    ensures order == [0, 2, 1] && station == [1001, 1003, 1002]
    ensures |topo| == 3 && topo[2].address == 1003 && topo[2].parentAddress == 1002
    ensures !Recovered([-1, 0, 0], order, station, topo, routing)
  {
    var scene := new Scene();
    scene.slaves := [SimSlave("a", -1), SimSlave("b", 0), SimSlave("c", 0)];
    scene.redundancy := true;
    assert scene.Tree() == [-1, 0, 0];
    BranchesPorts(scene.Tree());
    BranchesScan(scene.Tree());
    hide PreOrder, ScanKids, AllPlugged, Ports;
    order, station, topo, routing := ReadBack(scene);
    assert station[order[0]] == 1001 && station[order[1]] == 1002 && station[order[2]] == 1003;
  }
}
