/** `computePortRouting` of tools/kickui/TopologyView.cc: which port a frame enters each
    slave by, and which port of its parent every slave is on, inferred from the bus. */
module PortRouting {

  /** A slave of the discovered tree; a root names itself as its parent. */
  datatype TopologyNode = TopologyNode(address: int, parentAddress: int, com: seq<bool>)

  datatype Routing = Routing(upstream: seq<int>, parentPort: seq<int>)

  ghost predicate FourPorts(nodes: seq<TopologyNode>) {
    forall i :: 0 <= i < |nodes| ==> |nodes[i].com| == 4
  }

  /** The lowest communicating port, -1 when there is none. */
  function Upstream(com: seq<bool>): int
    requires |com| == 4
  {
    if com[0] then 0 else if com[1] then 1 else if com[2] then 2 else if com[3] then 3 else -1
  }

  function PortInOrder(k: nat): nat
    requires k < 4
  {
    if k == 0 then 0 else if k == 1 then 3 else if k == 2 then 1 else 2
  }

  /** The communicating ports other than `up` among the first `m` in processing order. */
  function DownBefore(com: seq<bool>, up: int, m: nat): seq<int>
    requires |com| == 4 && m <= 4
    decreases m
  {
    if m == 0 then []
    else
      var p := PortInOrder(m - 1);
      if com[p] && p != up then DownBefore(com, up, m - 1) + [p] else DownBefore(com, up, m - 1)
  }

  function Down(n: TopologyNode): seq<int>
    requires |n.com| == 4
  {
    DownBefore(n.com, Upstream(n.com), 4)
  }

  /** `j` is listed as a child of `i`. */
  predicate HangsOn(nodes: seq<TopologyNode>, j: nat, i: nat)
    requires i < |nodes| && j < |nodes|
  {
    j != i && nodes[j].parentAddress == nodes[i].address
  }

  /** How many of the first `m` slaves are children of `i`. */
  function KidsBefore(nodes: seq<TopologyNode>, i: nat, m: nat): nat
    requires i < |nodes| && m <= |nodes|
    decreases m
  {
    if m == 0 then 0 else KidsBefore(nodes, i, m - 1) + if HangsOn(nodes, m - 1, i) then 1 else 0
  }

  /** The port given to the `k`-th child of a slave. */
  function PortFor(n: TopologyNode, k: nat): int
    requires |n.com| == 4
  {
    if k < |Down(n)| then Down(n)[k] else 1
  }

  /** The parent port of `j` once the first `m` slaves have been taken as parents. */
  function ParentPort(nodes: seq<TopologyNode>, j: nat, m: nat): int
    requires FourPorts(nodes) && j < |nodes| && m <= |nodes|
    decreases m
  {
    if m == 0 then -1
    else if HangsOn(nodes, j, m - 1) then PortFor(nodes[m - 1], KidsBefore(nodes, m - 1, j))
    else ParentPort(nodes, j, m - 1)
  }

  method FirstOpen(com: seq<bool>) returns (up: int)
    requires |com| == 4
    ensures up == Upstream(com)
  {
    up := -1;
    for p := 0 to 4
      invariant up == -1 && forall q :: 0 <= q < p ==> !com[q]
    {
      if com[p] {
        return p;
      }
    }
  }

  method CollectDown(n: TopologyNode, up: int) returns (down: seq<int>)
    requires |n.com| == 4 && up == Upstream(n.com)
    ensures down == Down(n)
  {
    down := [];
    for oi := 0 to 4
      invariant down == DownBefore(n.com, up, oi)
    {
      var p := PortInOrder(oi);
      if n.com[p] && p != up {
        down := down + [p];
      }
    }
  }

  /** `computePortRouting`. */
  method ComputePortRouting(nodes: seq<TopologyNode>) returns (r: Routing)
    requires FourPorts(nodes)
    ensures |r.upstream| == |nodes| && |r.parentPort| == |nodes|
    ensures forall i :: 0 <= i < |nodes| ==> r.upstream[i] == Upstream(nodes[i].com)
    ensures forall j :: 0 <= j < |nodes| ==> r.parentPort[j] == ParentPort(nodes, j, |nodes|)
  {
    var upstream: seq<int>, parentPort := [], seq(|nodes|, _ => -1);
    for i := 0 to |nodes|
      invariant |upstream| == i
      invariant forall k :: 0 <= k < i ==> upstream[k] == Upstream(nodes[k].com)
    {
      var up := FirstOpen(nodes[i].com);
      upstream := upstream + [up];
    }
    for i := 0 to |nodes|
      invariant |parentPort| == |nodes|
      invariant forall j :: 0 <= j < |nodes| ==> parentPort[j] == ParentPort(nodes, j, i)
    {
      var down := CollectDown(nodes[i], upstream[i]);
      var k := 0;
      for j := 0 to |nodes|
        invariant |parentPort| == |nodes| && k == KidsBefore(nodes, i, j)
        invariant forall l :: 0 <= l < j ==> parentPort[l] == ParentPort(nodes, l, i + 1)
        invariant forall l :: j <= l < |nodes| ==> parentPort[l] == ParentPort(nodes, l, i)
      {
        if j == i {
          continue;
        }
        if nodes[j].parentAddress == nodes[i].address {
          if k < |down| {
            parentPort := parentPort[j := down[k]];
          } else {
            parentPort := parentPort[j := 1];
          }
          k := k + 1;
        }
      }
    }
    r := Routing(upstream, parentPort);
  }
}
