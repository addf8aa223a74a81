/** When `getTopology` finds the tree: from the open port counts alone it recovers every
    parent of a tree scanned in pre-order, and on a ring exactly when the slave that closes
    the ring is scanned last. */
module DiscoveryCorrect {
  import opened Common
  import opened SceneTree
  import opened Discovery

  function Along(deg: seq<nat>, s: seq<int>): (r: seq<nat>)
    requires forall i :: 0 <= i < |s| ==> 0 <= s[i] < |deg|
    ensures |r| == |s| && forall i :: 0 <= i < |r| ==> r[i] == deg[s[i]]
  {
    seq(|s|, i requires 0 <= i < |s| => deg[s[i]])
  }

  function ParentsAlong(ps: Parents, s: seq<int>): (r: seq<int>)
    requires forall i :: 0 <= i < |s| ==> 0 <= s[i] < |ps|
    ensures |r| == |s| && forall i :: 0 <= i < |r| ==> r[i] == ps[s[i]]
  {
    seq(|s|, i requires 0 <= i < |s| => ps[s[i]])
  }

  /** Open ports of a tree without a ring: one up, one per child. */
  ghost predicate TreeDegrees(kids: Kids, deg: seq<nat>) {
    |deg| == |kids| && forall v :: 0 <= v < |kids| ==> deg[v] == 1 + |kids[v]|
  }

  lemma {:induction false} GuessConcat(a: seq<int>, b: seq<int>, oa: seq<nat>, ob: seq<nat>, c: Cursor)
    requires |a| == |oa| && |b| == |ob|
    requires forall i :: 0 <= i < |oa| ==> oa[i] > 0
    requires forall i :: 0 <= i < |ob| ==> ob[i] > 0
    ensures Guess(a + b, oa + ob, c) == Guess(a, oa, c) + Guess(b, ob, After(a, oa, c))
    ensures After(a + b, oa + ob, c) == After(b, ob, After(a, oa, c))
    decreases |a|
  {
    if a == [] {
      assert a + b == b && oa + ob == ob;
    } else {
      assert (a + b)[1..] == a[1..] + b && (oa + ob)[1..] == oa[1..] + ob;
      var d := Advance(c, a[0], oa[0]);
      GuessConcat(a[1..], b, oa[1..], ob, d);
      Regroup([c.last], Guess(a[1..], oa[1..], d), Guess(b, ob, After(a, oa, c)));
    }
  }

  lemma {:induction false} AlongConcat(deg: seq<nat>, a: seq<int>, b: seq<int>)
    requires forall i :: 0 <= i < |a| ==> 0 <= a[i] < |deg|
    requires forall i :: 0 <= i < |b| ==> 0 <= b[i] < |deg|
    ensures Along(deg, a + b) == Along(deg, a) + Along(deg, b)
  {}

  /** The cursor is back where the branches `br` left off. */
  predicate Returned(d: Cursor, br: seq<int>) {
    if br == [] then d.branches == [] else d == Return(br, 0)
  }

  /** Scanning the branch of `w` guesses the parents below `w`, hangs `w` itself on the
      cursor, and returns to the enclosing branch. */
  lemma {:induction false} BranchGuessed(ps: Parents, kids: Kids, deg: seq<nat>, w: nat, c: Cursor)
    requires ValidTree(ps) && Lists(ps, kids) && Forest(kids) && TreeDegrees(kids, deg) && w < |ps| == |kids| == |deg|
    ensures var s := PreOrder(kids, w);
            && Guess(s, Along(deg, s), c) == [c.last] + ParentsAlong(ps, Branches(kids, w, kids[w]))
            && Returned(After(s, Along(deg, s), c), c.branches)
    decreases |kids| - w, |kids[w]| + 1
  {
    hide Lists, ValidTree, Guess, After, PreOrder, Branches;
    var below := Branches(kids, w, kids[w]);
    PreOrderStep(kids, w);
    BranchesStep(kids, w, kids[w]);
    OneGuess(w, deg[w], c);
    AlongConcat(deg, [w], below);
    assert Along(deg, [w]) == [deg[w]];
    GuessConcat([w], below, [deg[w]], Along(deg, below), c);
    KidsAreSiblings(ps, kids, w);
    if kids[w] != [] {
      ListGuessed(ps, kids, deg, w, kids[w], c.branches);
    } else {
      NoGuess(Advance(c, w, deg[w]));
    }
  }

  lemma {:induction false} NoGuess(c: Cursor)
    ensures Guess([], [], c) == [] && After([], [], c) == c
  {}

  lemma {:induction false} OneGuess(x: int, o: nat, c: Cursor)
    requires o > 0
    ensures Guess([x], [o], c) == [c.last] && After([x], [o], c) == Advance(c, x, o)
  {
    assert [x][1..] == [] && [o][1..] == [];
  }

  /** The branches of a list of children of `w`: the last one returns past `w`. */
  lemma {:induction false} ListGuessed(ps: Parents, kids: Kids, deg: seq<nat>, w: nat, list: seq<int>, br: seq<int>)
    requires ValidTree(ps) && Lists(ps, kids) && Forest(kids) && TreeDegrees(kids, deg) && w < |ps| == |kids| == |deg|
    requires list != [] && Siblings(ps, list, w) && forall k :: 0 <= k < |list| ==> w < list[k] < |kids|
    ensures var s := Branches(kids, w, list);
            var c := Cursor(w, br + Repeat(w, |list| - 1));
            && Guess(s, Along(deg, s), c) == ParentsAlong(ps, s)
            && Returned(After(s, Along(deg, s), c), br)
    decreases |kids| - w, |list|
  {
    hide Lists, ValidTree, Guess, After, PreOrder, Branches, Returned, TreeDegrees;
    var c := Cursor(w, br + Repeat(w, |list| - 1));
    var x, rest := list[0], list[1..];
    BranchesStep(kids, w, list);
    Positive(kids, deg);
    BranchGuessed(ps, kids, deg, x, c);
    FirstParents(ps, kids, w, x);
    if rest == [] {
      BranchesStep(kids, w, rest);
      assert PreOrder(kids, x) + [] == PreOrder(kids, x);
      assert c.branches == br;
    } else {
      PopOne(w, br, |rest|);
      ReturnedTo(After(PreOrder(kids, x), Along(deg, PreOrder(kids, x)), c), c.branches);
      ListGuessed(ps, kids, deg, w, rest, br);
      GuessBoth(ps, deg, PreOrder(kids, x), Branches(kids, w, rest), c);
    }
  }

  lemma {:induction false} ReturnedTo(d: Cursor, br: seq<int>)
    requires Returned(d, br) && br != []
    ensures d == Return(br, 0)
  {}

  lemma {:induction false} Positive(kids: Kids, deg: seq<nat>)
    requires TreeDegrees(kids, deg)
    ensures forall v :: 0 <= v < |deg| ==> deg[v] > 0
  {}

  lemma {:induction false} PopOne(w: int, br: seq<int>, n: nat)
    requires n > 0
    ensures br + Repeat(w, n) != []
    ensures Return(br + Repeat(w, n), 0) == Cursor(w, br + Repeat(w, n - 1))
  {
    assert br + Repeat(w, n) == br + Repeat(w, n - 1) + [w];
  }

  /** Two stretches guessed right, one after the other. */
  lemma {:induction false} GuessBoth(ps: Parents, deg: seq<nat>, a: seq<int>, b: seq<int>, c: Cursor)
    requires |deg| == |ps| && forall v :: 0 <= v < |deg| ==> deg[v] > 0
    requires forall i :: 0 <= i < |a| ==> 0 <= a[i] < |ps|
    requires forall i :: 0 <= i < |b| ==> 0 <= b[i] < |ps|
    requires Guess(a, Along(deg, a), c) == ParentsAlong(ps, a)
    requires Guess(b, Along(deg, b), After(a, Along(deg, a), c)) == ParentsAlong(ps, b)
    ensures Guess(a + b, Along(deg, a + b), c) == ParentsAlong(ps, a + b)
    ensures After(a + b, Along(deg, a + b), c) == After(b, Along(deg, b), After(a, Along(deg, a), c))
  {
    hide Guess, After;
    AlongConcat(deg, a, b);
    GuessConcat(a, b, Along(deg, a), Along(deg, b), c);
    assert ParentsAlong(ps, a + b) == ParentsAlong(ps, a) + ParentsAlong(ps, b);
  }

  lemma {:induction false} FirstParents(ps: Parents, kids: Kids, w: int, x: nat)
    requires Forest(kids) && x < |kids| == |ps| && ps[x] == w
    ensures ParentsAlong(ps, PreOrder(kids, x)) == [w] + ParentsAlong(ps, Branches(kids, x, kids[x]))
  {}

  // ---- The whole bus --------------------------------------------------------

  /** The parent `getTopology` should report: the root reports itself. */
  function ParentOrSelf(ps: Parents, v: nat): int
    requires v < |ps|
  {
    if v == 0 then 0 else ps[v]
  }

  function Expected(ps: Parents, s: seq<int>): (r: seq<int>)
    requires forall i :: 0 <= i < |s| ==> 0 <= s[i] < |ps|
    ensures |r| == |s| && forall i :: 0 <= i < |r| ==> r[i] == ParentOrSelf(ps, s[i])
  {
    seq(|s|, i requires 0 <= i < |s| => ParentOrSelf(ps, s[i]))
  }

  /** Without a ring every parent is guessed right. */
  lemma {:induction false} LineGuessed(ps: Parents, kids: Kids, deg: seq<nat>)
    requires ValidTree(ps) && Lists(ps, kids) && Forest(kids) && TreeDegrees(kids, deg)
    ensures var s := PreOrder(kids, 0); Guess(s, Along(deg, s), Cursor(0, [])) == Expected(ps, s)
  {
    hide Guess, Branches;
    var s, below := PreOrder(kids, 0), Branches(kids, 0, kids[0]);
    PreOrderStep(kids, 0);
    BranchGuessed(ps, kids, deg, 0, Cursor(0, []));
    assert Expected(ps, s) == [0] + ParentsAlong(ps, below);
  }

  /** The last slave's open ports play no part. */
  lemma {:induction false} LastDoesNotMatter(xs: seq<int>, a: seq<nat>, b: seq<nat>, c: Cursor)
    requires |xs| == |a| == |b| > 0 && a[..|a| - 1] == b[..|b| - 1]
    requires forall i :: 0 <= i < |a| ==> a[i] > 0 && b[i] > 0
    ensures Guess(xs, a, c) == Guess(xs, b, c)
    decreases |xs|
  {
    if |xs| > 1 {
      assert a[0] == a[..|a| - 1][0] == b[..|b| - 1][0] == b[0];
      assert a[1..][..|a| - 2] == a[..|a| - 1][1..] && b[1..][..|b| - 2] == b[..|b| - 1][1..];
      LastDoesNotMatter(xs[1..], a[1..], b[1..], Advance(c, xs[0], a[0]));
    }
  }

  /** A slave with two open ports gets the next one scanned as its child. */
  lemma {:induction false} TwoPortsTakeNext(xs: seq<int>, os: seq<nat>, c: Cursor, j: nat)
    requires |xs| == |os| && j + 1 < |xs| && os[j] == 2
    requires forall i :: 0 <= i < |os| ==> os[i] > 0
    ensures Guess(xs, os, c)[j + 1] == xs[j]
    decreases |xs|
  {
    if j > 0 { TwoPortsTakeNext(xs[1..], os[1..], Advance(c, xs[0], os[0]), j - 1); }
  }

  /** Open ports with the ring's closing cable on the last slave. */
  function RingDegrees(deg: seq<nat>, ring: bool): (r: seq<nat>)
    ensures |r| == |deg|
    ensures forall v :: 0 <= v < |r| ==> r[v] == deg[v] + if ring && v == |deg| - 1 then 1 else 0
  {
    seq(|deg|, v requires 0 <= v < |deg| => deg[v] + if ring && v == |deg| - 1 then 1 else 0)
  }

  lemma {:induction false} LeafOrNotLast(kids: Kids, v: nat)
    requires Forest(kids) && v < |kids|
    ensures kids[v] == [] || v + 1 < |kids|
  {
    if kids[v] != [] { assert kids[v][0] < |kids|; }
  }

  /** With the end of the ring scanned last, its extra port goes unnoticed. */
  lemma {:induction false} RingEndLast(deg: seq<nat>, s: seq<int>)
    requires |deg| > 0 && forall v :: 0 <= v < |deg| ==> deg[v] > 0
    requires s != [] && forall i :: 0 <= i < |s| ==> 0 <= s[i] < |deg|
    requires forall i :: 0 <= i < |s| - 1 ==> s[i] != |deg| - 1
    ensures Guess(s, Along(RingDegrees(deg, true), s), Cursor(0, [])) == Guess(s, Along(deg, s), Cursor(0, []))
  {
    hide Guess, RingDegrees, Along;
    var a, b := Along(deg, s), Along(RingDegrees(deg, true), s);
    assert a[..|a| - 1] == b[..|b| - 1];
    LastDoesNotMatter(s, a, b, Cursor(0, []));
  }

  /** Scanned earlier, it is taken for the parent of the next slave, which it is not. */
  lemma {:induction false} RingEndEarlier(ps: Parents, deg: seq<nat>, s: seq<int>, j: nat)
    requires ValidTree(ps) && |deg| == |ps| && forall v :: 0 <= v < |deg| ==> deg[v] > 0
    requires forall i :: 0 <= i < |s| ==> 0 <= s[i] < |deg|
    requires j + 1 < |s| && s[j] == |ps| - 1 && s[j + 1] != |ps| - 1 && deg[|ps| - 1] == 1
    ensures Guess(s, Along(RingDegrees(deg, true), s), Cursor(0, [])) != Expected(ps, s)
  {
    hide Guess, RingDegrees, Along, Expected;
    TwoPortsTakeNext(s, Along(RingDegrees(deg, true), s), Cursor(0, []), j);
    assert Expected(ps, s)[j + 1] == ParentOrSelf(ps, s[j + 1]);
  }

  /** The guess is right if and only if there is no ring or its end is scanned last. */
  lemma {:induction false} GuessExact(ps: Parents, kids: Kids, deg: seq<nat>, ring: bool)
    requires ValidTree(ps) && Lists(ps, kids) && Forest(kids) && TreeDegrees(kids, deg)
    ensures var s, tail := PreOrder(kids, 0), |ps| - 1;
            && |s| == |ps|
            && (Guess(s, Along(RingDegrees(deg, ring), s), Cursor(0, [])) == Expected(ps, s)
                <==> !ring || s[|s| - 1] == tail)
  {
    assert |kids| == |ps| == |deg| && |ps| > 0;
    assert deg[|ps| - 1] == 1 + |kids[|ps| - 1]|;
    Positive(kids, deg);
    hide *;
    var s := PreOrder(kids, 0);
    var j := ScanOfTail(ps, kids);
    LineGuessed(ps, kids, deg);
    LeafOrNotLast(kids, |ps| - 1);
    if !ring {
      assert RingDegrees(deg, ring) == deg;
    } else if j == |s| - 1 {
      RingEndLast(deg, s);
    } else {
      RingEndEarlier(ps, deg, s, j);
    }
  }

  /** Where in the scan the last slave of the scene comes. */
  lemma {:induction false} ScanOfTail(ps: Parents, kids: Kids) returns (j: nat)
    requires ValidTree(ps) && Lists(ps, kids) && Forest(kids)
    ensures var s := PreOrder(kids, 0);
            && |s| == |ps| && j < |s| && s[j] == |ps| - 1
            && forall i :: 0 <= i < |s| && i != j ==> s[i] != |ps| - 1
  {
    PreOrderIsPermutation(ps, kids);
    j := TailPosition(ps, PreOrder(kids, 0));
  }

  lemma {:induction false} TailPosition(ps: Parents, s: seq<int>) returns (j: nat)
    requires |ps| > 0 && multiset(s) == multiset(seq(|ps|, i => i))
    ensures j < |s| && s[j] == |ps| - 1
    ensures forall i :: 0 <= i < |s| && i != j ==> s[i] != |ps| - 1
  {
    var tail := |ps| - 1;
    CountUpTo(seq(|ps|, i => i), tail);
    assert tail in multiset(s);
    j :| 0 <= j < |s| && s[j] == tail;
    forall i | 0 <= i < |s| && i != j ensures s[i] != tail {
      if s[i] == tail { CountTwo(s, if i < j then i else j, if i < j then j else i); }
    }
  }
}
