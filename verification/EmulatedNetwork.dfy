/** The emulated segment of lib/slave/src/EmulatedNetwork.cc: slaves wired port to port,
    and the path a frame takes through them. */
module EmulatedNetwork {
  import opened Common
  import opened SimScene

  const PORT_COUNT: nat := 4

  /** One port of a slave: what is plugged in, and whether that is a master cable. */
  datatype Port = Port(peer: Option<Endpoint>, toMaster: bool, up: bool)

  const OPEN := Port(None, false, true)

  type Node = seq<Port>

  /** One passage through a slave's processing unit. */
  datatype Hop = Hop(node: int, port0Closed: bool)

  /** A frame on its way: the passages so far, where it left the segment, and how many more
      slaves it may enter. */
  datatype Trip = Trip(order: seq<Hop>, left: bool, exit: Option<Endpoint>, budget: nat)

  /** Ports in forwarding order. */
  function PortAt(k: nat): (p: nat)
    requires k < 4
    ensures p < 4 && (p == 0 <==> k == 0)
  {
    if k == 0 then 0 else if k == 1 then 3 else if k == 2 then 1 else 2
  }

  function IndexInOrder(port: nat): (k: nat)
    requires port < 4
    ensures k < 4 && PortAt(k) == port
  {
    if port == 0 then 0 else if port == 3 then 1 else if port == 1 then 2 else 3
  }

  /** The `k`-th port after `entry` in forwarding order. */
  function PortAfter(entry: nat, k: nat): (p: nat)
    requires entry < 4 && k < 4
    ensures p < 4 && (entry == 0 ==> p == PortAt(k))
  {
    PortAt((IndexInOrder(entry) + k) % 4)
  }

  ghost predicate Wired(nodes: seq<Node>) {
    forall v :: 0 <= v < |nodes| ==> |nodes[v]| == 4 && forall p :: 0 <= p < 4 ==>
      nodes[v][p].peer.Some? ==>
        0 <= nodes[v][p].peer.value.node < |nodes| && 0 <= nodes[v][p].peer.value.port < 4
  }

  // ---- The walk, as a function ----------------------------------------------

  function Walk(nodes: seq<Node>, node: nat, entry: nat, t: Trip): (r: Trip)
    requires Wired(nodes) && node < |nodes| && entry < 4
    ensures r.budget <= t.budget
    decreases t.budget, 0
  {
    if t.budget == 0 then t.(left := true)
    else
      WalkPorts(nodes, node, entry, 1,
                t.(budget := t.budget - 1,
                   order := if entry == 0 then t.order + [Hop(node, false)] else t.order))
  }

  /** The part of the walk that leaves `node` from the `k`-th port after the entry on. */
  function WalkPorts(nodes: seq<Node>, node: nat, entry: nat, k: nat, t: Trip): (r: Trip)
    requires Wired(nodes) && node < |nodes| && entry < 4 && 1 <= k <= 4
    ensures r.budget <= t.budget
    decreases t.budget, 5 - k
  {
    if k == 4 then t.(left := false)
    else
      var p := PortAfter(entry, k);
      var port := nodes[node][p];
      if port.toMaster then t.(left := true, exit := Some(Endpoint(node, p)))
      else if port.up && port.peer.Some? then
        var w := Walk(nodes, port.peer.value.node, port.peer.value.port, t);
        if w.left then w
        else if p == 0 then WalkPorts(nodes, node, entry, k + 1, w.(order := w.order + [Hop(node, false)]))
        else WalkPorts(nodes, node, entry, k + 1, w)
      else if p == 0 then WalkPorts(nodes, node, entry, k + 1, t.(order := t.order + [Hop(node, true)]))
      else WalkPorts(nodes, node, entry, k + 1, t)
  }

  lemma {:induction false} WalkBegins(nodes: seq<Node>, node: nat, entry: nat, t: Trip)
    requires Wired(nodes) && node < |nodes| && entry < 4
    ensures t.budget == 0 ==> Walk(nodes, node, entry, t) == t.(left := true)
    ensures t.budget > 0 ==>
              Walk(nodes, node, entry, t)
              == WalkPorts(nodes, node, entry, 1,
                           t.(budget := t.budget - 1,
                              order := if entry == 0 then t.order + [Hop(node, false)] else t.order))
  {
    hide WalkPorts;
  }

  lemma {:induction false} WalkEnds(nodes: seq<Node>, node: nat, entry: nat, t: Trip)
    requires Wired(nodes) && node < |nodes| && entry < 4
    ensures WalkPorts(nodes, node, entry, 4, t) == t.(left := false)
  {
  }

  /** No slave is wired to another. */
  function Unwired(count: nat): (nodes: seq<Node>)
    ensures |nodes| == count && Wired(nodes)
    ensures forall v :: 0 <= v < count ==> nodes[v] == [OPEN, OPEN, OPEN, OPEN]
  {
    seq(count, _ => [OPEN, OPEN, OPEN, OPEN])
  }

  /** Slave `v` of a line of `count` slaves. */
  function LineNode(v: nat, count: nat): Node {
    [if v > 0 then Port(Some(Endpoint(v - 1, 1)), false, true) else OPEN,
     if v + 1 < count then Port(Some(Endpoint(v + 1, 0)), false, true) else OPEN, OPEN, OPEN]
  }

  /** A cable between two ports, replacing what was plugged in there. */
  function Joined(nodes: seq<Node>, a: nat, portA: nat, b: nat, portB: nat): (r: seq<Node>)
    requires Wired(nodes) && a < |nodes| && b < |nodes| && portA < 4 && portB < 4
    ensures |r| == |nodes| && Wired(r)
  {
    var n := nodes[a := nodes[a][portA := Port(Some(Endpoint(b, portB)), false, true)]];
    n[b := n[b][portB := Port(Some(Endpoint(a, portA)), false, true)]]
  }

  predicate FitsNetwork(l: Link, count: nat) {
    0 <= l.a < count && 0 <= l.b < count && 0 <= l.portA < 4 && 0 <= l.portB < 4
  }

  function JoinedAll(nodes: seq<Node>, links: seq<Link>): (r: seq<Node>)
    requires Wired(nodes) && forall k :: 0 <= k < |links| ==> FitsNetwork(links[k], |nodes|)
    ensures |r| == |nodes| && Wired(r)
    decreases |links|
  {
    if links == [] then nodes
    else
      var l := links[|links| - 1];
      assert FitsNetwork(l, |nodes|);
      Joined(JoinedAll(nodes, links[..|links| - 1]), l.a, l.portA, l.b, l.portB)
  }

  function Marked(port: Port, e: Endpoint, injection: Endpoint, redundancy: Option<Endpoint>): Port {
    port.(toMaster := e == injection || redundancy == Some(e))
  }

  /** A slave with its master cables marked. */
  function MarkedNode(n: Node, v: nat, injection: Endpoint, redundancy: Option<Endpoint>): (r: Node)
    requires |n| == 4
    ensures |r| == 4 && forall p :: 0 <= p < 4 ==>
              r[p] == Marked(n[p], Endpoint(v, p), injection, redundancy) && r[p].peer == n[p].peer
  {
    [Marked(n[0], Endpoint(v, 0), injection, redundancy), Marked(n[1], Endpoint(v, 1), injection, redundancy),
     Marked(n[2], Endpoint(v, 2), injection, redundancy), Marked(n[3], Endpoint(v, 3), injection, redundancy)]
  }

  lemma {:induction false} StillWired(nodes: seq<Node>, v: nat, n: Node)
    requires Wired(nodes) && v < |nodes| && |n| == 4
    requires forall p :: 0 <= p < 4 ==> |nodes[v]| == 4 && n[p].peer == nodes[v][p].peer
    ensures Wired(nodes[v := n])
  {
  }

  lemma {:induction false} FourPorted(nodes: seq<Node>)
    requires Wired(nodes)
    ensures forall v :: 0 <= v < |nodes| ==> |nodes[v]| == 4
  {
  }

  lemma {:induction false} JoinedMore(nodes: seq<Node>, links: seq<Link>, k: nat)
    requires Wired(nodes) && k < |links| && forall j :: 0 <= j < |links| ==> FitsNetwork(links[j], |nodes|)
    ensures JoinedAll(nodes, links[..k + 1])
            == Joined(JoinedAll(nodes, links[..k]), links[k].a, links[k].portA, links[k].b, links[k].portB)
  {
    assert links[..k + 1][..k] == links[..k];
  }

  predicate Linked(port: Port) { port.toMaster || (port.peer.Some? && port.up) }

  // ---- The network ----------------------------------------------------------

  class Network {
    var nodes: seq<Node>
    var injection: Endpoint
    var redundancy: Option<Endpoint>
    var customTopology: bool

    ghost predicate Valid()
      reads this
    {
      Wired(nodes)
    }

    /** Slaves wired as a line: port 1 of each to port 0 of the next. */
    constructor (count: nat)
      ensures Valid() && |nodes| == count && !customTopology
      ensures injection == Endpoint(0, 0) && redundancy == None
      ensures forall v :: 0 <= v < count ==> nodes[v] == LineNode(v, count)
    {
      injection, redundancy, customTopology := Endpoint(0, 0), None, false;
      nodes := Unwired(count);
      new;
      var i := 0;
      while i + 1 < |nodes|
        invariant |nodes| == count && !customTopology
        invariant injection == Endpoint(0, 0) && redundancy == None
        invariant 0 <= i && (count > 0 ==> i < count)
        invariant forall v :: 0 <= v <= i && v < count ==> nodes[v] == LineNode(v, i + 1)
        invariant forall v :: i < v < count ==> nodes[v] == [OPEN, OPEN, OPEN, OPEN]
      {
        nodes := nodes[i := nodes[i][1 := Port(Some(Endpoint(i + 1, 0)), false, true)]];
        nodes := nodes[i + 1 := nodes[i + 1][0 := Port(Some(Endpoint(i, 1)), false, true)]];
        i := i + 1;
      }
    }

    /** `connect`: the first explicit link drops the line. */
    method Connect(a: nat, portA: nat, b: nat, portB: nat)
      requires Valid() && a < |nodes| && b < |nodes| && portA < 4 && portB < 4
      modifies this`nodes, this`customTopology
      ensures Valid() && customTopology && |nodes| == |old(nodes)|
      ensures nodes == Joined(if old(customTopology) then old(nodes) else Unwired(|old(nodes)|), a, portA, b, portB)
    {
      if !customTopology {
        nodes := Unwired(|nodes|);
        customTopology := true;
      }
      nodes := nodes[a := nodes[a][portA := Port(Some(Endpoint(b, portB)), false, true)]];
      nodes := nodes[b := nodes[b][portB := Port(Some(Endpoint(a, portA)), false, true)]];
    }

    /** `applyTopology`: injection, links in order, closing cable of the ring. */
    method ApplyTopology(plan: Topology) returns (ring: bool)
      requires Valid() && forall k :: 0 <= k < |plan.links| ==> FitsNetwork(plan.links[k], |nodes|)
      modifies this
      ensures Valid() && |nodes| == |old(nodes)| && injection == plan.injection
      ensures ring == plan.redundancy.Some?
      ensures redundancy == if ring then plan.redundancy else old(redundancy)
      ensures plan.links == [] ==> nodes == old(nodes)
      ensures plan.links != [] ==>
                nodes == JoinedAll(if old(customTopology) then old(nodes) else Unwired(|old(nodes)|), plan.links)
    {
      injection := plan.injection;
      ghost var start := if customTopology then nodes else Unwired(|nodes|);
      assert JoinedAll(start, plan.links[..0]) == start;
      hide JoinedAll, Joined, Unwired, Wired;
      for k := 0 to |plan.links|
        invariant Valid() && |nodes| == |old(nodes)|
        invariant injection == plan.injection && redundancy == old(redundancy)
        invariant k == 0 ==> nodes == old(nodes) && customTopology == old(customTopology)
        invariant k > 0 ==> customTopology && nodes == JoinedAll(start, plan.links[..k])
      {
        var l := plan.links[k];
        JoinedMore(start, plan.links, k);
        Connect(l.a, l.portA, l.b, l.portB);
      }
      assert plan.links[..|plan.links|] == plan.links;
      ring := plan.redundancy.Some?;
      if ring {
        redundancy := plan.redundancy;
      }
    }

    /** The master cables `rebuild` derives from the injection points. */
    method MarkMasterPorts()
      requires Valid()
      modifies this`nodes
      ensures Valid() && |nodes| == |old(nodes)|
      ensures forall v, p :: 0 <= v < |nodes| && 0 <= p < 4 ==>
                nodes[v][p] == Marked(old(nodes)[v][p], Endpoint(v, p), injection, redundancy)
    {
      FourPorted(nodes);
      hide Wired, Marked;
      for v := 0 to |nodes|
        invariant Valid() && |nodes| == |old(nodes)| && forall u :: 0 <= u < |nodes| ==> |nodes[u]| == 4
        invariant forall u, p :: 0 <= u < v && 0 <= p < 4 ==>
                    nodes[u][p] == Marked(old(nodes)[u][p], Endpoint(u, p), injection, redundancy)
        invariant forall u :: v <= u < |nodes| ==> nodes[u] == old(nodes)[u]
      {
        FourPorted(nodes);
        StillWired(nodes, v, MarkedNode(nodes[v], v, injection, redundancy));
        nodes := nodes[v := MarkedNode(nodes[v], v, injection, redundancy)];
        FourPorted(nodes);
      }
    }

    /** `walkFrame`: the frame enters `node` by `entry`, is forwarded port after port and
        comes back through `entry` unless it leaves by a master cable. */
    method WalkFrame(node: nat, entry: nat, trip: Trip) returns (t: Trip)
      requires Valid() && node < |nodes| && entry < 4
      ensures t == Walk(nodes, node, entry, trip)
      decreases trip.budget, 0
    {
      hide Walk, WalkPorts, Wired;
      WalkBegins(nodes, node, entry, trip);
      t := trip;
      if t.budget == 0 {
        return t.(left := true);
      }
      t := t.(budget := t.budget - 1);
      if entry == 0 {
        t := t.(order := t.order + [Hop(node, false)]);
      }
      ghost var goal := Walk(nodes, node, entry, trip);
      var k := 1;
      while k < PORT_COUNT
        invariant 1 <= k <= 4 && t.budget < trip.budget
        invariant WalkPorts(nodes, node, entry, k, t) == goal
      {
        var done;
        done, t := CrossPort(node, entry, k, t);
        if done {
          return;
        }
        k := k + 1;
      }
      WalkEnds(nodes, node, entry, t);
      t := t.(left := false);
    }

    /** One turn of the port loop; `done` when the frame left the segment. */
    method CrossPort(node: nat, entry: nat, k: nat, trip: Trip) returns (done: bool, t: Trip)
      requires Valid() && node < |nodes| && entry < 4 && 1 <= k < 4
      ensures t.budget <= trip.budget
      ensures WalkPorts(nodes, node, entry, k, trip)
              == if done then t else WalkPorts(nodes, node, entry, k + 1, t)
      decreases trip.budget, 1
    {
      done, t := false, trip;
      var p := PortAfter(entry, k);
      var port := nodes[node][p];
      if port.toMaster {
        return true, t.(left := true, exit := Some(Endpoint(node, p)));
      }
      if port.up && port.peer.Some? {
        t := WalkFrame(port.peer.value.node, port.peer.value.port, t);
        if t.left {
          return true, t;
        }
        if p == 0 {
          t := t.(order := t.order + [Hop(node, false)]);   // back into port 0
        }
      } else if p == 0 {
        t := t.(order := t.order + [Hop(node, true)]);      // closed port 0 loops back
      }
    }
  }
}
