/** How the master numbers the slaves (`Bus::setAddresses`, lib/master/src/Bus.cc): each frame
    goes into the segment by the root and, on a ring, is sent on into the closing cable
    (`Link::writeThenRead`, lib/master/src/Link.cc); each of its datagrams counts its way to one
    slave and sets that slave's station address. */
module StationScan {
  import opened Common
  import opened SceneTree
  import opened ScenePorts
  import opened SimScene
  import opened EmulatedNetwork
  import opened FrameWalk
  import opened RingWalk

  /** The slaves of a list of passages. */
  method NodesOf(hops: seq<Hop>) returns (r: seq<int>)
    ensures |r| == |hops| && forall k :: 0 <= k < |r| ==> r[k] == hops[k].node
  {
    r := [];
    for k := 0 to |hops|
      invariant |r| == k && forall i :: 0 <= i < k ==> r[i] == hops[i].node
    {
      r := r + [hops[k].node];
    }
  }

  /** The slaves a frame passes that is written on one interface and, as it comes back, on the
      other: every slave, in the order `scanToEditorOrder` predicts, with or without a ring. */
  method Passages(net: Network, ghost ps: Parents, ring: bool) returns (order: seq<int>)
    requires ValidTree(ps) && AllPlugged(ps) && net.Valid() && SceneWired(net.nodes, ps, ring)
    ensures Forest(ScanKids(ps)) && order == PreOrder(ScanKids(ps), 0)
  {
    hide *;
    PassagesAre(net.nodes, ps, ring);
    var n := |net.nodes|;
    var t := Trip([], false, None, 8 * (n + 1));
    var first := net.WalkFrame(0, 0, t);
    var back := [];
    if ring {
      var second := net.WalkFrame(n - 1, 1, t);
      back := second.order;
    }
    order := NodesOf(first.order + back);
    assert order == PreOrder(ScanKids(ps), 0);
  }

  lemma {:induction false} PassagesAre(nodes: seq<Node>, ps: Parents, ring: bool)
    requires ValidTree(ps) && AllPlugged(ps) && SceneWired(nodes, ps, ring)
    ensures Wired(nodes) && |nodes| > 0 && Forest(ScanKids(ps)) && |ScanKids(ps)| > 0
    ensures var n, scan := |nodes|, PreOrder(ScanKids(ps), 0);
            var t := Trip([], false, None, 8 * (n + 1));
            var hops := Walk(nodes, 0, 0, t).order + if ring then Walk(nodes, n - 1, 1, t).order else [];
            |hops| == |scan| && forall k :: 0 <= k < |scan| ==> hops[k].node == scan[k]
  {
    assert Wired(nodes) && |nodes| == |ps| > 0;
    hide *;
    FrameFollowsScan(nodes, ps, ring);
    if ring { RingFrames(nodes, ps); }
  }

  /** The address the master means the `i`-th slave to have. */
  function Station(i: nat): int { (1001 + i) % 0x1_0000 }

  /** One datagram addressed by position `0 - i` in sixteen bits: every slave passed adds one,
      and the slave that finds zero is the one meant. */
  method Address(order: seq<int>, i: nat, value: int, before: seq<int>) returns (station: seq<int>, wkc: nat)
    requires i < 0x1_0000 && |order| <= 0x1_0000 && forall k :: 0 <= k < |order| ==> 0 <= order[k] < |before|
    ensures i < |order| ==> station == before[order[i] := value] && wkc == 1
    ensures i >= |order| ==> station == before && wkc == 0
  {
    station, wkc := before, 0;
    var position := (0x1_0000 - i) % 0x1_0000;
    for k := 0 to |order|
      invariant position == (0x1_0000 - i + k) % 0x1_0000
      invariant station == if k <= i then before else before[order[i] := value]
      invariant wkc == if k <= i then 0 else 1
    {
      if position == 0 {
        assert k == i;
        station, wkc := station[order[k] := value], wkc + 1;
      }
      position := (position + 1) % 0x1_0000;
    }
  }

  /** The scan meets every slave once. */
  lemma {:induction false} ScanIndexes(ps: Parents, order: seq<int>)
    requires ValidTree(ps) && Forest(ScanKids(ps)) && order == PreOrder(ScanKids(ps), 0)
    ensures |order| == |ps| > 0 && forall k :: 0 <= k < |order| ==> 0 <= order[k] < |ps|
    ensures forall j, k :: 0 <= j < k < |order| ==> order[j] != order[k]
  {
    ScanKidsRanked(ps);
    PreOrderIsPermutation(ps, ScanKids(ps));
    forall j, k | 0 <= j < k < |order| ensures order[j] != order[k] {
      PreOrderCount(ps, ScanKids(ps), 0, order[j]);
      if order[j] == order[k] { CountTwo(order, j, k); }
    }
  }

  const PER_FRAME := 15

  /** The first `i` slaves scanned have their addresses. */
  ghost predicate Numbered(scan: seq<int>, station: seq<int>, i: nat) {
    forall k :: 0 <= k < i && k < |scan| ==> 0 <= scan[k] < |station| && station[scan[k]] == Station(k)
  }

  lemma {:induction false} OneMoreNumbered(scan: seq<int>, station: seq<int>, i: nat)
    requires Numbered(scan, station, i) && forall k :: 0 <= k < |scan| ==> 0 <= scan[k] < |station|
    requires forall j, k :: 0 <= j < k < |scan| ==> scan[j] != scan[k]
    ensures i < |scan| ==> Numbered(scan, station[scan[i] := Station(i)], i + 1)
    ensures i >= |scan| ==> Numbered(scan, station, i + 1)
  {
    hide Station;
  }

  /** One frame out and back, with the datagrams of the slaves from `first` up to `last`; each has to
      come back with a working counter of one. */
  method SendFrame(net: Network, ghost ps: Parents, ring: bool, first: nat, last: nat, before: seq<int>)
    returns (station: seq<int>, ok: bool)
    requires ValidTree(ps) && AllPlugged(ps) && net.Valid() && SceneWired(net.nodes, ps, ring) && |before| == |ps|
    requires |ps| <= 0x1_0000 && first <= last <= 0x1_0000 && Forest(ScanKids(ps))
    requires Numbered(PreOrder(ScanKids(ps), 0), before, first)
    ensures |station| == |before| && Numbered(PreOrder(ScanKids(ps), 0), station, last)
    ensures ok <==> last <= |ps| || last == first
  {
    var order := Passages(net, ps, ring);
    ScanIndexes(ps, order);
    hide *;
    station, ok := before, true;
    for i := first to last
      invariant |station| == |before| && Numbered(order, station, i)
      invariant ok <==> i <= |order| || i == first
    {
      OneMoreNumbered(order, station, i);
      var wkc;
      station, wkc := Address(order, i, Station(i), station);
      ok := ok && wkc == 1;
    }
  }

  /** `setAddresses`: the datagrams go out in frames of fifteen. The slave scanned as the `k`-th gets
      the `k`-th address, and all goes well if and only if there are as many slaves as expected. */
  method SetAddresses(net: Network, ghost ps: Parents, ring: bool, count: nat, before: seq<int>)
    returns (station: seq<int>, ok: bool)
    requires ValidTree(ps) && AllPlugged(ps) && net.Valid() && SceneWired(net.nodes, ps, ring) && |before| == |ps|
    requires |ps| <= 0x1_0000 && count <= 0x1_0000
    ensures Forest(ScanKids(ps)) && (ok <==> count <= |ps|)
    ensures ok ==> |station| == |before| && Numbered(PreOrder(ScanKids(ps), 0), station, count)
  {
    station, ok := before, true;
    ScanForest(ps);
    hide PreOrder, ScanKids, Forest, SceneWired, AllPlugged, Station;
    var sent, i := 0, 0;
    while i < count
      invariant 0 <= sent <= i <= count && i - sent < PER_FRAME && |station| == |before|
      invariant Numbered(PreOrder(ScanKids(ps), 0), station, sent) && ok && sent <= |ps|
    {
      i := i + 1;
      if i - sent == PER_FRAME {
        station, ok := SendFrame(net, ps, ring, sent, i, station);
        if !ok {
          return;
        }
        sent := i;
      }
    }
    if sent < i {
      station, ok := SendFrame(net, ps, ring, sent, i, station);
    }
  }

  lemma {:induction false} ScanForest(ps: Parents)
    requires ValidTree(ps)
    ensures Forest(ScanKids(ps)) && |ScanKids(ps)| == |ps| > 0
  {
    ScanKidsRanked(ps);
    ListsIsForest(ps, ScanKids(ps));
  }

  /** Up to 65536 slaves get different addresses. */
  lemma {:induction false} StationsDiffer(j: nat, k: nat)
    requires j < k < 0x1_0000
    ensures Station(j) != Station(k)
  {
  }
}
