/** The tree a simulator scene describes: every slave names its parent, and the ports of a
    parent are handed to its children in the order they were added. Pure definitions and
    the facts about the scan order that the wiring, the frame walk and the topology
    inference share. */
module SceneTree {
  import opened Common

  /** `parents[i]` is the parent of slave `i`; negative for a slave on the master. */
  type Parents = seq<int>

  /** Children lists, one per slave, in the order they are visited. */
  type Kids = seq<seq<int>>

  // ---- Ports ----------------------------------------------------------------

  /** How many of the first `m` slaves hang on `p`. */
  function CountBefore(ps: Parents, p: int, m: nat): nat
    requires m <= |ps|
    decreases m
  {
    if m == 0 then 0 else CountBefore(ps, p, m - 1) + if ps[m - 1] == p then 1 else 0
  }

  /** Downstream ports in the order they are handed out. */
  function DownstreamPort(k: nat): int {
    if k == 0 then 1 else if k == 1 then 3 else if k == 2 then 2 else -1
  }

  /** The port of its parent that slave `i` is plugged into; -1 for a slave on the master,
      on a slave that does not exist, or past the third child. */
  function PortOf(ps: Parents, i: nat): int
    requires i < |ps|
  {
    if 0 <= ps[i] < |ps| then DownstreamPort(CountBefore(ps, ps[i], i)) else -1
  }

  /** The place of a port in the processing order 3, 1, 2. */
  function ProcRank(port: int): nat {
    if port == 3 then 0 else if port == 1 then 1 else if port == 2 then 2 else 3
  }

  // ---- Trees ----------------------------------------------------------------

  /** One root, and every other slave behind its parent. */
  ghost predicate ValidTree(ps: Parents) {
    |ps| > 0 && ps[0] < 0 && forall i :: 1 <= i < |ps| ==> 0 <= ps[i] < i
  }

  /** `kids` lists, for every slave, each of its children once and nothing else. */
  ghost predicate Lists(ps: Parents, kids: Kids) {
    && |kids| == |ps|
    && forall v, c :: 0 <= v < |kids| ==>
         multiset(kids[v])[c] == if 0 <= c < |ps| && ps[c] == v then 1 else 0
  }

  /** Children come behind their parents, so that walking down ends. */
  ghost predicate Forest(kids: Kids) {
    forall v, k :: 0 <= v < |kids| && 0 <= k < |kids[v]| ==> v < kids[v][k] < |kids|
  }

  lemma {:induction false} ListsIsForest(ps: Parents, kids: Kids)
    requires ValidTree(ps) && Lists(ps, kids)
    ensures Forest(kids)
  {
    forall v, k | 0 <= v < |kids| && 0 <= k < |kids[v]|
      ensures v < kids[v][k] < |kids|
    {
      KidsParent(ps, kids, v, kids[v][k]);
    }
  }

  lemma {:induction false} KidsParent(ps: Parents, kids: Kids, v: nat, c: int)
    requires Lists(ps, kids) && v < |kids|
    ensures c in kids[v] <==> 0 <= c < |ps| && ps[c] == v
  {
    assert c in kids[v] <==> c in multiset(kids[v]);
    assert multiset(kids[v])[c] == if 0 <= c < |ps| && ps[c] == v then 1 else 0;
  }

  /** `x` is `a` or below it. */
  ghost predicate Below(ps: Parents, a: nat, x: nat)
    requires ValidTree(ps) && x < |ps|
    decreases x
  {
    x == a || (x > 0 && Below(ps, a, ps[x]))
  }

  lemma {:induction false} BelowOrder(ps: Parents, a: nat, x: nat)
    requires ValidTree(ps) && x < |ps| && Below(ps, a, x)
    ensures a <= x
    decreases x
  {
    if x != a { BelowOrder(ps, a, ps[x]); }
  }

  lemma {:induction false} RootAboveAll(ps: Parents, x: nat)
    requires ValidTree(ps) && x < |ps|
    ensures Below(ps, 0, x)
    decreases x
  {
    if x > 0 { RootAboveAll(ps, ps[x]); }
  }

  /** What is below two slaves lies on one branch. */
  lemma {:induction false} BelowBoth(ps: Parents, a: nat, b: nat, x: nat)
    requires ValidTree(ps) && a < |ps| && b < |ps| && x < |ps|
    requires Below(ps, a, x) && Below(ps, b, x)
    ensures Below(ps, a, b) || Below(ps, b, a)
    decreases x
  {
    if x != a && x != b { BelowBoth(ps, a, b, ps[x]); }
  }

  /** Siblings head disjoint subtrees. */
  lemma {:induction false} SiblingsApart(ps: Parents, a: nat, b: nat, x: nat)
    requires ValidTree(ps) && 0 < a < |ps| && 0 < b < |ps| && x < |ps|
    requires ps[a] == ps[b] && Below(ps, a, x) && Below(ps, b, x)
    ensures a == b
  {
    if a != b {
      BelowBoth(ps, a, b, x);
      if Below(ps, a, b) { BelowOrder(ps, a, ps[b]); }
      if Below(ps, b, a) { BelowOrder(ps, b, ps[a]); }
    }
  }

  /** Below a slave means below one of its children, or the slave itself. */
  lemma {:induction false} BelowChild(ps: Parents, v: nat, x: nat) returns (c: nat)
    requires ValidTree(ps) && v < |ps| && x < |ps| && Below(ps, v, x) && x != v
    ensures 0 < c < |ps| && ps[c] == v && Below(ps, c, x)
    decreases x
  {
    if ps[x] == v {
      c := x;
    } else {
      c := BelowChild(ps, v, ps[x]);
    }
  }

  lemma {:induction false} BelowUp(ps: Parents, c: nat, x: nat)
    requires ValidTree(ps) && 0 < c < |ps| && x < |ps| && Below(ps, c, x)
    ensures Below(ps, ps[c], x) && x != ps[c]
    decreases x
  {
    BelowOrder(ps, c, x);
    if x != c { BelowUp(ps, c, ps[x]); }
  }

  // ---- Pre-order ------------------------------------------------------------

  /** A slave followed by its branches, each in the order its children are listed. */
  function PreOrder(kids: Kids, v: nat): (r: seq<int>)
    requires Forest(kids) && v < |kids|
    ensures forall k :: 0 <= k < |r| ==> v <= r[k] < |kids|
    decreases |kids| - v, |kids[v]| + 1
  {
    [v] + Branches(kids, v, kids[v])
  }

  function Branches(kids: Kids, v: nat, list: seq<int>): (r: seq<int>)
    requires Forest(kids) && v < |kids| && forall k :: 0 <= k < |list| ==> v < list[k] < |kids|
    ensures forall k :: 0 <= k < |r| ==> v < r[k] < |kids|
    decreases |kids| - v, |list|
  {
    if list == [] then [] else PreOrder(kids, list[0]) + Branches(kids, v, list[1..])
  }

  lemma {:induction false} PreOrderStep(kids: Kids, v: nat)
    requires Forest(kids) && v < |kids|
    ensures PreOrder(kids, v) == [v] + Branches(kids, v, kids[v])
  {}

  lemma {:induction false} BranchesStep(kids: Kids, v: nat, list: seq<int>)
    requires Forest(kids) && v < |kids| && forall k :: 0 <= k < |list| ==> v < list[k] < |kids|
    ensures Branches(kids, v, list)
            == if list == [] then [] else PreOrder(kids, list[0]) + Branches(kids, v, list[1..])
  {}

  /** How often `x` occurs in the branches of a list of children of `v`. */
  ghost function Hits(ps: Parents, list: seq<int>, x: nat): nat
    requires ValidTree(ps) && x < |ps| && forall k :: 0 <= k < |list| ==> 0 <= list[k] < |ps|
    decreases |list|
  {
    if list == [] then 0 else (if Below(ps, list[0], x) then 1 else 0) + Hits(ps, list[1..], x)
  }

  /** Every slave at or below `v` occurs in the pre-order of `v` exactly once, and no
      other slave does. */
  lemma {:induction false} PreOrderCount(ps: Parents, kids: Kids, v: nat, x: int)
    requires ValidTree(ps) && Lists(ps, kids) && Forest(kids) && v < |ps|
    ensures multiset(PreOrder(kids, v))[x] == if 0 <= x < |ps| && Below(ps, v, x) then 1 else 0
    decreases |kids| - v, |kids[v]| + 1
  {
    BranchesCount(ps, kids, v, kids[v], x);
    if 0 <= x < |ps| {
      HitsOfKids(ps, kids, v, x);
    }
  }

  lemma {:induction false} BranchesCount(ps: Parents, kids: Kids, v: nat, list: seq<int>, x: int)
    requires ValidTree(ps) && Lists(ps, kids) && Forest(kids) && v < |ps|
    requires forall k :: 0 <= k < |list| ==> v < list[k] < |kids|
    ensures multiset(Branches(kids, v, list))[x] == if 0 <= x < |ps| then Hits(ps, list, x) else 0
    decreases |kids| - v, |list|
  {
    if list != [] {
      PreOrderCount(ps, kids, list[0], x);
      BranchesCount(ps, kids, v, list[1..], x);
    }
  }

  ghost predicate Siblings(ps: Parents, list: seq<int>, v: int) {
    && (forall k :: 0 <= k < |list| ==> 0 < list[k] < |ps| && ps[list[k]] == v)
    && forall j, k :: 0 <= j < k < |list| ==> list[j] != list[k]
  }

  lemma {:induction false} KidsAreSiblings(ps: Parents, kids: Kids, v: nat)
    requires ValidTree(ps) && Lists(ps, kids) && v < |ps|
    ensures Siblings(ps, kids[v], v)
  {
    var s := kids[v];
    forall k | 0 <= k < |s| ensures 0 < s[k] < |ps| && ps[s[k]] == v {
      KidsParent(ps, kids, v, s[k]);
    }
    forall j, k | 0 <= j < k < |s| ensures s[j] != s[k] {
      if s[j] == s[k] { CountTwo(s, j, k); }
    }
  }

  lemma {:induction false} CountTwo<T>(s: seq<T>, j: nat, k: nat)
    requires j < k < |s| && s[j] == s[k]
    ensures multiset(s)[s[j]] >= 2
  {
    assert s == s[..j] + [s[j]] + s[j + 1..k] + [s[k]] + s[k + 1..];
  }

  /** A list of siblings covers `x` at most once: exactly when one of them is above it. */
  lemma {:induction false} HitsOfSiblings(ps: Parents, list: seq<int>, v: int, x: nat)
    requires ValidTree(ps) && x < |ps| && Siblings(ps, list, v)
    ensures (exists k :: 0 <= k < |list| && Below(ps, list[k], x)) ==> Hits(ps, list, x) == 1
    ensures (forall k :: 0 <= k < |list| ==> !Below(ps, list[k], x)) ==> Hits(ps, list, x) == 0
    decreases |list|
  {
    if list != [] {
      var rest := list[1..];
      HitsOfSiblings(ps, rest, v, x);
      if Below(ps, list[0], x) {
        forall k | 0 <= k < |rest| ensures !Below(ps, rest[k], x) {
          assert rest[k] == list[k + 1];
          if Below(ps, rest[k], x) { SiblingsApart(ps, list[0], rest[k], x); }
        }
      } else if k :| 0 <= k < |list| && Below(ps, list[k], x) {
        assert rest[k - 1] == list[k];
      } else {
        forall k | 0 <= k < |rest| ensures !Below(ps, rest[k], x) {
          assert rest[k] == list[k + 1];
        }
      }
    }
  }

  lemma {:induction false} HitsOfKids(ps: Parents, kids: Kids, v: nat, x: nat)
    requires ValidTree(ps) && Lists(ps, kids) && Forest(kids) && v < |ps| && x < |ps|
    ensures Hits(ps, kids[v], x) == if x != v && Below(ps, v, x) then 1 else 0
  {
    KidsAreSiblings(ps, kids, v);
    HitsOfSiblings(ps, kids[v], v, x);
    if x != v && Below(ps, v, x) {
      var c := BelowChild(ps, v, x);
      KidsParent(ps, kids, v, c);
      var k :| 0 <= k < |kids[v]| && kids[v][k] == c;
      assert Below(ps, kids[v][k], x);
    } else {
      forall k | 0 <= k < |kids[v]| ensures !Below(ps, kids[v][k], x) {
        if Below(ps, kids[v][k], x) { BelowUp(ps, kids[v][k], x); }
      }
    }
  }

  /** The scan order lists every slave exactly once. */
  lemma {:induction false} PreOrderIsPermutation(ps: Parents, kids: Kids)
    requires ValidTree(ps) && Lists(ps, kids) && Forest(kids)
    ensures multiset(PreOrder(kids, 0)) == multiset(seq(|ps|, i => i))
    ensures |PreOrder(kids, 0)| == |ps|
  {
    var order, all := PreOrder(kids, 0), seq(|ps|, i => i);
    forall x: int ensures multiset(order)[x] == multiset(all)[x] {
      PreOrderCount(ps, kids, 0, x);
      CountUpTo(all, x);
      if 0 <= x < |ps| { RootAboveAll(ps, x); }
    }
    assert multiset(order) == multiset(all);
    assert |multiset(order)| == |order| && |multiset(all)| == |all|;
  }

  lemma {:induction false} CountUpTo(s: seq<int>, x: int)
    requires forall i :: 0 <= i < |s| ==> s[i] == i
    ensures multiset(s)[x] == if 0 <= x < |s| then 1 else 0
    decreases |s|
  {
    if s != [] {
      var init := s[..|s| - 1];
      assert s == init + [|s| - 1];
      CountUpTo(init, x);
    }
  }

  // ---- Order of the children in the scan ------------------------------------

  /** `x` on its own, when it hangs on `v`. */
  function Self(ps: Parents, x: nat, v: int): seq<int>
    requires x < |ps|
  {
    if ps[x] == v then [x] else []
  }

  /** The slaves of `s` that hang on `v`, in order. */
  function HangingOn(ps: Parents, s: seq<int>, v: int): seq<int>
    requires forall k :: 0 <= k < |s| ==> 0 <= s[k] < |ps|
    decreases |s|
  {
    if s == [] then [] else Self(ps, s[0], v) + HangingOn(ps, s[1..], v)
  }

  lemma {:induction false} HangingOnConcat(ps: Parents, a: seq<int>, b: seq<int>, v: int)
    requires forall k :: 0 <= k < |a| ==> 0 <= a[k] < |ps|
    requires forall k :: 0 <= k < |b| ==> 0 <= b[k] < |ps|
    ensures HangingOn(ps, a + b, v) == HangingOn(ps, a, v) + HangingOn(ps, b, v)
    decreases |a|
  {
    if a == [] {
      assert a + b == b;
    } else {
      assert (a + b)[1..] == a[1..] + b;
      HangingOnConcat(ps, a[1..], b, v);
      Regroup(Self(ps, a[0], v), HangingOn(ps, a[1..], v), HangingOn(ps, b, v));
    }
  }

  /** The children of `v`, when `v` is at or below `w`. */
  ghost function KidsWithin(ps: Parents, kids: Kids, w: nat, v: nat): seq<int>
    requires ValidTree(ps) && |kids| == |ps| && v < |ps|
  {
    if Below(ps, w, v) then kids[v] else []
  }

  /** The children of `v` inside the pre-order of `w`: the listed ones, in listed order,
      when `v` is in that branch; `w` itself when it is one of them. */
  lemma {:induction false} ScanKeepsKids(ps: Parents, kids: Kids, w: nat, v: nat)
    requires ValidTree(ps) && Lists(ps, kids) && Forest(kids) && w < |ps| && v < |ps|
    ensures HangingOn(ps, PreOrder(kids, w), v) == Self(ps, w, v) + KidsWithin(ps, kids, w, v)
    decreases |kids| - w, |kids[w]| + 1
  {
    var below := Branches(kids, w, kids[w]);
    HangingOnConcat(ps, [w], below, v);
    assert [w][1..] == [];
    assert HangingOn(ps, [w], v) == Self(ps, w, v);
    KidsAreSiblings(ps, kids, w);
    if w == v {
      BranchesKeepList(ps, kids, w, kids[w]);
    } else {
      BranchesKeepKids(ps, kids, w, kids[w], v);
      HitsOfKids(ps, kids, w, v);
    }
  }

  lemma {:induction false} BranchesKeepList(ps: Parents, kids: Kids, w: nat, list: seq<int>)
    requires ValidTree(ps) && Lists(ps, kids) && Forest(kids) && w < |ps|
    requires forall k :: 0 <= k < |list| ==> w < list[k] < |kids|
    requires Siblings(ps, list, w)
    ensures HangingOn(ps, Branches(kids, w, list), w) == list
    decreases |kids| - w, |list|
  {
    hide *;
    ListsShape(ps, kids);
    BranchesStep(kids, w, list);
    if list == [] {
      HangingNone(ps, w);
    } else {
      var c, rest := list[0], list[1..];
      SiblingsRest(ps, list, w);
      BranchKeepsKid(ps, kids, w, c);
      BranchesKeepList(ps, kids, w, rest);
      HangingOnConcat(ps, PreOrder(kids, c), Branches(kids, w, rest), w);
      assert list == [c] + rest;
    }
  }

  lemma {:induction false} ListsShape(ps: Parents, kids: Kids)
    requires Lists(ps, kids)
    ensures |kids| == |ps|
  {
  }

  lemma {:induction false} HangingNone(ps: Parents, w: nat)
    ensures HangingOn(ps, [], w) == []
  {
  }

  lemma {:induction false} SiblingsRest(ps: Parents, list: seq<int>, w: nat)
    requires Siblings(ps, list, w) && list != []
    ensures Siblings(ps, list[1..], w) && 0 < list[0] < |ps| && ps[list[0]] == w
  {
  }

  /** In the branch of a child of `w` only that child hangs on `w`. */
  lemma {:induction false} BranchKeepsKid(ps: Parents, kids: Kids, w: nat, c: int)
    requires ValidTree(ps) && Lists(ps, kids) && Forest(kids) && w < c < |ps| == |kids| && ps[c] == w
    ensures HangingOn(ps, PreOrder(kids, c), w) == [c]
    decreases |kids| - w, 0
  {
    ScanKeepsKids(ps, kids, c, w);
    if Below(ps, c, w) { BelowOrder(ps, c, w); }
    hide PreOrder, Lists, Forest, HangingOn;
    assert [c] + [] == [c];
  }

  lemma {:induction false} BranchesKeepKids(ps: Parents, kids: Kids, w: nat, list: seq<int>, v: nat)
    requires ValidTree(ps) && Lists(ps, kids) && Forest(kids) && w < |ps| && v < |ps| && v != w
    requires forall k :: 0 <= k < |list| ==> w < list[k] < |kids|
    requires Siblings(ps, list, w)
    ensures HangingOn(ps, Branches(kids, w, list), v) == if Hits(ps, list, v) > 0 then kids[v] else []
    decreases |kids| - w, |list|
  {
    if list != [] {
      var c, rest := list[0], list[1..];
      ScanKeepsKids(ps, kids, c, v);
      assert HangingOn(ps, PreOrder(kids, c), v) == KidsWithin(ps, kids, c, v);
      BranchesKeepKids(ps, kids, w, rest, v);
      HangingOnConcat(ps, PreOrder(kids, c), Branches(kids, w, rest), v);
      HitsOfSiblings(ps, list, w, v);
      if Below(ps, c, v) { assert Hits(ps, rest, v) == 0; }
    }
  }

  /** Seen from any slave, the scan meets its children in the order they are listed. */
  lemma {:induction false} ScanMeetsKids(ps: Parents, kids: Kids, v: nat)
    requires ValidTree(ps) && Lists(ps, kids) && Forest(kids) && v < |ps|
    ensures HangingOn(ps, PreOrder(kids, 0), v) == kids[v]
  {
    ScanKeepsKids(ps, kids, 0, v);
    RootAboveAll(ps, v);
  }
}
