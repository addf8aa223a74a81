/** The simulator scene of tools/kickui/Simulator.cc: the editor's slave rows, the ports
    they are given, the topology handed to the network simulator and the scan order. */
module SimScene {
  import opened Common
  import opened SceneTree
  import opened ScenePorts

  const CONFIG_SIZE: nat := 256   // sizeof(SimSlave::config), terminator included

  datatype SimSlave = SimSlave(config: string, parent: int)

  /** What a scene file says, token by token; comments and unknown lines are skipped. */
  datatype Directive = Redundancy(value: int) | Slave(config: string, parent: int) | Skipped

  datatype Endpoint = Endpoint(node: int, port: int)

  datatype Link = Link(a: int, portA: int, b: int, portB: int)

  /** The content of a topology file. */
  datatype Topology = Topology(injection: Endpoint, links: seq<Link>, redundancy: Option<Endpoint>)

  datatype TopologyResult = Ok(topology: Topology) | NeedsOneRoot | TooManyChildren(parent: int)

  function ParentsOf(slaves: seq<SimSlave>): (ps: Parents)
    ensures |ps| == |slaves| && forall i :: 0 <= i < |ps| ==> ps[i] == slaves[i].parent
  {
    seq(|slaves|, i requires 0 <= i < |slaves| => slaves[i].parent)
  }

  // ---- The topology file, as a function of the parents ----------------------

  /** The slaves without a parent. */
  function Roots(ps: Parents): set<int> { set i | 0 <= i < |ps| && ps[i] < 0 }

  function LinkOf(ps: Parents, i: nat): Link
    requires i < |ps|
  {
    Link(ps[i], PortOf(ps, i), i, 0)
  }

  /** One link per slave with a parent, among the first `m`. */
  function LinksBefore(ps: Parents, m: nat): (r: seq<Link>)
    requires m <= |ps|
    ensures forall k :: 0 <= k < |r| ==>
              0 <= r[k].b < m && ps[r[k].b] >= 0 && r[k] == LinkOf(ps, r[k].b)
    decreases m
  {
    if m == 0 then []
    else if ps[m - 1] < 0 then LinksBefore(ps, m - 1)
    else LinksBefore(ps, m - 1) + [LinkOf(ps, m - 1)]
  }

  /** A slave whose parent has no port left for it. */
  predicate Unplugged(ps: Parents, i: nat)
    requires i < |ps|
  {
    ps[i] >= 0 && PortOf(ps, i) < 0
  }

  ghost predicate AllPlugged(ps: Parents) {
    forall i :: 0 <= i < |ps| ==> !Unplugged(ps, i)
  }

  function FileTopology(ps: Parents, root: int, ring: bool): Topology {
    Topology(Endpoint(root, 0), LinksBefore(ps, |ps|),
             if ring then Some(Endpoint(|ps| - 1, 1)) else None)
  }

  /** Whether a slave may follow its predecessors in a single-rooted scene. */
  predicate FitsTree(ps: Parents, i: nat)
    requires i < |ps|
  {
    if i == 0 then ps[i] < 0 else 0 <= ps[i] < i
  }

  lemma {:induction false} ValidTreeByRow(ps: Parents)
    ensures ValidTree(ps) <==> |ps| > 0 && forall i :: 0 <= i < |ps| ==> FitsTree(ps, i)
  {
    if |ps| > 0 && forall i :: 0 <= i < |ps| ==> FitsTree(ps, i) {
      assert FitsTree(ps, 0);
      forall i | 1 <= i < |ps| ensures 0 <= ps[i] < i { assert FitsTree(ps, i); }
    }
  }

  // ---- The scene ------------------------------------------------------------

  class Scene {
    var slaves: seq<SimSlave>
    var redundancy: bool

    ghost function Tree(): Parents
      reads this
    {
      ParentsOf(slaves)
    }

    constructor ()
      ensures |slaves| == 1 && slaves[0].parent == -1 && !redundancy
    {
      slaves := [SimSlave("simulation/slave_configs/ecat402-drive.json", -1)];
      redundancy := false;
    }

    /** `SimScene::assignedPorts`. */
    method AssignedPorts() returns (ports: seq<int>)
      ensures ports == Ports(Tree())
    {
      ghost var ps := Tree();
      ports := seq(|slaves|, _ => -1);
      var used := seq(|slaves|, _ => 0);
      for i := 0 to |slaves|
        invariant |ports| == |slaves| && |used| == |slaves|
        invariant forall k :: 0 <= k < i ==> ports[k] == PortOf(ps, k)
        invariant forall k :: i <= k < |slaves| ==> ports[k] == -1
        invariant forall p :: 0 <= p < |slaves| ==>
                    used[p] == if CountBefore(ps, p, i) < 3 then CountBefore(ps, p, i) else 3
      {
        var p := slaves[i].parent;
        if 0 <= p < |used| && used[p] < 3 {
          ports := ports[i := DownstreamPort(used[p])];
          used := used[p := used[p] + 1];
        }
      }
    }

    /** `SimScene::load`: replaces the scene, or leaves it alone when no slave is named.
        A parent that is not an earlier slave becomes the master. */
    method Load(file: seq<Directive>) returns (ok: bool)
      modifies this
      ensures ok <==> exists k :: 0 <= k < |file| && file[k].Slave?
      ensures !ok ==> slaves == old(slaves) && redundancy == old(redundancy)
      ensures ok ==> slaves == Loaded(file) && redundancy == RingFlag(file)
      ensures ok ==> forall i :: 0 <= i < |slaves| ==> slaves[i].parent < i
    {
      var loaded: seq<SimSlave>, red := [], false;
      for k := 0 to |file|
        invariant loaded == Rows(file[..k]) && red == RingFlag(file[..k])
        invariant loaded != [] <==> exists j :: 0 <= j < k && file[j].Slave?
      {
        assert file[..k + 1][..k] == file[..k];
        match file[k] {
          case Redundancy(v) => red := v != 0;
          case Slave(cfg, parent) =>
            loaded := loaded + [SimSlave(Truncate(cfg), parent)];
            assert file[k].Slave?;
          case Skipped =>
        }
      }
      assert file[..|file|] == file;
      if loaded == [] {
        return false;
      }
      ghost var rows := loaded;
      for i := 0 to |loaded|
        invariant |loaded| == |rows|
        invariant forall k :: 0 <= k < i ==> loaded[k] == Rerooted(rows, k)
        invariant forall k :: i <= k < |rows| ==> loaded[k] == rows[k]
      {
        if loaded[i].parent >= i {
          loaded := loaded[i := loaded[i].(parent := -1)];
        }
      }
      assert loaded == Loaded(file);
      slaves, redundancy := loaded, red;
      ok := true;
    }

    /** The number of slaves on the master, and the last of them. */
    method CountRoots() returns (roots: nat, rootIndex: nat)
      ensures roots == |Roots(Tree())|
      ensures roots == 1 ==> Roots(Tree()) == {rootIndex}
    {
      roots, rootIndex := 0, 0;
      ghost var seen: set<int> := {};
      for i := 0 to |slaves|
        invariant seen == set k | 0 <= k < i && Tree()[k] < 0
        invariant roots == |seen| && (roots > 0 ==> rootIndex in seen)
      {
        if slaves[i].parent < 0 {
          assert i !in seen;
          roots := roots + 1;
          rootIndex := i;
          seen := seen + {i};
        }
      }
      assert seen == Roots(Tree());
      if roots == 1 { OnlyMember(seen, rootIndex); }
    }

    /** `SimScene::writeTopologyFile`, up to writing the text. */
    method WriteTopology() returns (r: TopologyResult)
      ensures r.Ok? <==> |Roots(Tree())| == 1 && AllPlugged(Tree())
      ensures r.NeedsOneRoot? <==> |Roots(Tree())| != 1
      ensures r.TooManyChildren? ==>
                exists i :: 0 <= i < |slaves| && Unplugged(Tree(), i) && r.parent == slaves[i].parent
      ensures r.Ok? ==>
                var root := r.topology.injection.node;
                Roots(Tree()) == {root} && r.topology == FileTopology(Tree(), root, redundancy)
    {
      ghost var ps := Tree();
      var roots, rootIndex := CountRoots();
      if roots != 1 {
        return NeedsOneRoot;
      }
      var ports := AssignedPorts();
      var links: seq<Link> := [];
      for i := 0 to |slaves|
        invariant links == LinksBefore(ps, i)
        invariant forall k :: 0 <= k < i ==> !Unplugged(ps, k)
      {
        if slaves[i].parent >= 0 {
          if ports[i] < 0 {
            assert Unplugged(ps, i);
            return TooManyChildren(slaves[i].parent);
          }
          links := links + [Link(slaves[i].parent, ports[i], i, 0)];
        }
      }
      var ring := None;
      if redundancy {
        ring := Some(Endpoint(|slaves| - 1, 1));
      }
      r := Ok(Topology(Endpoint(rootIndex, 0), links, ring));
    }

    /** `SimScene::scanToEditorOrder`: empty unless the scene is a single-rooted tree whose
        parents precede their children, and then the pre-order of that tree. */
    method ScanToEditorOrder() returns (order: seq<int>)
      ensures order != [] <==> ValidTree(Tree())
      ensures ValidTree(Tree()) ==>
                Forest(ScanKids(Tree())) && order == PreOrder(ScanKids(Tree()), 0)
                && multiset(order) == multiset(seq(|slaves|, i => i))
    {
      ghost var ps := Tree();
      ValidTreeByRow(ps);
      var children: Kids := seq(|slaves|, _ => []);
      var root := -1;
      for i := 0 to |slaves|
        invariant |children| == |slaves|
        invariant forall k :: 0 <= k < i ==> FitsTree(ps, k)
        invariant root == if i == 0 then -1 else 0
        invariant forall v :: 0 <= v < |slaves| ==> children[v] == ChildrenBefore(ps, v, i)
      {
        var p := slaves[i].parent;
        if p < 0 {
          if root >= 0 {
            assert !FitsTree(ps, i);
            return [];
          }
          root := i;
        } else if p < i {
          children := children[p := children[p] + [i]];
        } else {
          assert !FitsTree(ps, i);
          return [];
        }
      }
      if root < 0 {
        return [];
      }
      var ports := AssignedPorts();
      ScanKidsRanked(ps);
      ListsIsForest(ps, ScanKids(ps));
      order := DfsEditorOrder(0, children, ports, ScanKids(ps), []);
      assert order == PreOrder(ScanKids(ps), 0);
      PreOrderIsPermutation(ps, ScanKids(ps));
      if |order| != |slaves| {
        return [];
      }
    }
  }

  /** `dfsEditorOrder`: appends the branch of `node` to `order`. */
  method DfsEditorOrder(node: nat, children: Kids, ports: seq<int>, ghost kids: Kids, order: seq<int>)
    returns (r: seq<int>)
    requires Forest(kids) && |children| == |kids| == |ports| && node < |kids|
    requires forall v :: 0 <= v < |kids| ==>
               Indexes(children[v], ports) && kids[v] == SortByRank(ports, children[v])
    ensures r == order + PreOrder(kids, node)
    decreases |kids| - node
  {
    r := order + [node];
    var ranked := SortByRank(ports, children[node]);
    ghost var goal := order + PreOrder(kids, node);
    Regroup(order, [node], Branches(kids, node, ranked));
    assert ranked[0..] == ranked;
    for k := 0 to |ranked|
      invariant r + Branches(kids, node, ranked[k..]) == goal
    {
      NextBranch(kids, node, ranked, k);
      Regroup(r, PreOrder(kids, ranked[k]), Branches(kids, node, ranked[k + 1..]));
      r := DfsEditorOrder(ranked[k], children, ports, kids, r);
    }
  }

  lemma {:induction false} NextBranch(kids: Kids, v: nat, list: seq<int>, k: nat)
    requires Forest(kids) && v < |kids| && k < |list|
    requires forall j :: 0 <= j < |list| ==> v < list[j] < |kids|
    ensures Branches(kids, v, list[k..]) == PreOrder(kids, list[k]) + Branches(kids, v, list[k + 1..])
  {
    assert list[k..][0] == list[k] && list[k..][1..] == list[k + 1..];
  }

  // ---- Loading --------------------------------------------------------------

  /** `snprintf` into the fixed config buffer. */
  function Truncate(s: string): string {
    if |s| < CONFIG_SIZE then s else s[..CONFIG_SIZE - 1]
  }

  function Rows(file: seq<Directive>): seq<SimSlave>
    decreases |file|
  {
    if file == [] then []
    else
      var init, last := file[..|file| - 1], file[|file| - 1];
      if last.Slave? then Rows(init) + [SimSlave(Truncate(last.config), last.parent)] else Rows(init)
  }

  /** The last redundancy directive wins. */
  function RingFlag(file: seq<Directive>): bool
    decreases |file|
  {
    if file == [] then false
    else
      var last := file[|file| - 1];
      if last.Redundancy? then last.value != 0 else RingFlag(file[..|file| - 1])
  }

  function Rerooted(rows: seq<SimSlave>, i: nat): SimSlave
    requires i < |rows|
  {
    if rows[i].parent >= i then rows[i].(parent := -1) else rows[i]
  }

  function Loaded(file: seq<Directive>): (r: seq<SimSlave>)
    ensures |r| == |Rows(file)| && forall i :: 0 <= i < |r| ==> r[i] == Rerooted(Rows(file), i)
  {
    seq(|Rows(file)|, i requires 0 <= i < |Rows(file)| => Rerooted(Rows(file), i))
  }

  lemma {:induction false} OnlyMember(s: set<int>, x: int)
    requires |s| == 1 && x in s
    ensures s == {x}
  {
    assert |s - {x}| == 0;
  }
}
