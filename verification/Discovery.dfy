/** `getTopology` of lib/master/src/Diagnostics.cc: the parent of every slave, guessed from
    the number of open ports of the slaves in scan order. */
module Discovery {

  /** A slave as the master sees it: its address and its four communication flags. */
  datatype BusSlave = BusSlave(address: int, com: seq<bool>)

  datatype Discovered = Found(parent: map<int, int>) | NoSlave | NoOpenPort

  function OpenBefore(com: seq<bool>, m: nat): nat
    requires m <= |com|
    decreases m
  {
    if m == 0 then 0 else OpenBefore(com, m - 1) + if com[m - 1] then 1 else 0
  }

  /** `Slave::countOpenPorts`. */
  function OpenPorts(s: BusSlave): nat { OpenBefore(s.com, |s.com|) }

  // ---- The stack machine, as a function -------------------------------------

  /** The slave the next one hangs on, and the branches still to be visited, innermost
      last. */
  datatype Cursor = Cursor(last: int, branches: seq<int>)

  function Repeat(x: int, n: nat): (r: seq<int>)
    ensures |r| == n && forall i :: 0 <= i < n ==> r[i] == x
  {
    seq(n, _ => x)
  }

  /** Back to the innermost branch, or onto `x` when none is left. */
  function Return(branches: seq<int>, x: int): Cursor {
    if branches == [] then Cursor(x, [])
    else Cursor(branches[|branches| - 1], branches[..|branches| - 1])
  }

  /** The cursor after a slave at `x` with `open` open ports. */
  function Advance(c: Cursor, x: int, open: nat): Cursor
    requires open > 0
  {
    if open == 1 then Return(c.branches, x)
    else Cursor(x, c.branches + Repeat(x, open - 2))
  }

  /** The parent guessed for each slave in turn. */
  function Guess(xs: seq<int>, opens: seq<nat>, c: Cursor): (r: seq<int>)
    requires |xs| == |opens| && forall i :: 0 <= i < |opens| ==> opens[i] > 0
    ensures |r| == |xs|
    decreases |xs|
  {
    if xs == [] then []
    else [c.last] + Guess(xs[1..], opens[1..], Advance(c, xs[0], opens[0]))
  }

  function Zip(keys: seq<int>, values: seq<int>): map<int, int>
    requires |keys| == |values|
    decreases |keys|
  {
    if keys == [] then map[]
    else
      var n := |keys| - 1;
      Zip(keys[..n], values[..n])[keys[n] := values[n]]
  }

  function Addresses(slaves: seq<BusSlave>): (r: seq<int>)
    ensures |r| == |slaves| && forall i :: 0 <= i < |r| ==> r[i] == slaves[i].address
  {
    seq(|slaves|, i requires 0 <= i < |slaves| => slaves[i].address)
  }

  function Opens(slaves: seq<BusSlave>): (r: seq<nat>)
    ensures |r| == |slaves| && forall i :: 0 <= i < |r| ==> r[i] == OpenPorts(slaves[i])
  {
    seq(|slaves|, i requires 0 <= i < |slaves| => OpenPorts(slaves[i]))
  }

  method CountOpenPorts(s: BusSlave) returns (open: nat)
    ensures open == OpenPorts(s)
  {
    open := 0;
    for port := 0 to |s.com|
      invariant open == OpenBefore(s.com, port)
    {
      if s.com[port] {
        open := open + 1;
      }
    }
  }

  lemma {:induction false} GuessExtends(xs: seq<int>, opens: seq<nat>, c: Cursor, x: int, o: nat)
    requires |xs| == |opens| && o > 0 && forall i :: 0 <= i < |opens| ==> opens[i] > 0
    ensures Guess(xs + [x], opens + [o], c) == Guess(xs, opens, c) + [After(xs, opens, c).last]
    ensures After(xs + [x], opens + [o], c) == Advance(After(xs, opens, c), x, o)
    decreases |xs|
  {
    if xs == [] {
      assert ([x])[1..] == [] && ([o])[1..] == [];
      assert xs + [x] == [x] && opens + [o] == [o];
    } else {
      assert (xs + [x])[1..] == xs[1..] + [x] && (opens + [o])[1..] == opens[1..] + [o];
      GuessExtends(xs[1..], opens[1..], Advance(c, xs[0], opens[0]), x, o);
    }
  }

  /** The cursor after all of `xs`. */
  function After(xs: seq<int>, opens: seq<nat>, c: Cursor): Cursor
    requires |xs| == |opens| && forall i :: 0 <= i < |opens| ==> opens[i] > 0
    decreases |xs|
  {
    if xs == [] then c else After(xs[1..], opens[1..], Advance(c, xs[0], opens[0]))
  }

  ghost predicate AllOpen(slaves: seq<BusSlave>) {
    forall i :: 0 <= i < |slaves| ==> OpenPorts(slaves[i]) > 0
  }

  /** `getTopology`. */
  method GetTopology(slaves: seq<BusSlave>) returns (r: Discovered)
    ensures r.NoSlave? <==> slaves == []
    ensures r.NoOpenPort? <==> slaves != [] && !AllOpen(slaves)
    ensures r.Found? ==>
              r.parent == Zip(Addresses(slaves), Guess(Addresses(slaves), Opens(slaves), Cursor(slaves[0].address, [])))
  {
    if slaves == [] {
      return NoSlave;
    }
    var topology: map<int, int> := map[];
    var lastSeen, branches: seq<int> := slaves[0].address, [];
    ghost var xs, os, start := Addresses(slaves), Opens(slaves), Cursor(slaves[0].address, []);
    ghost var seen: seq<int>, opens: seq<nat> := [], [];
    NothingYet(start);
    hide Guess, After, Zip, Addresses, Opens, OpenPorts, Advance;
    for i := 0 to |slaves|
      invariant seen == xs[..i] && opens == os[..i]
      invariant forall k :: 0 <= k < |opens| ==> opens[k] > 0
      invariant topology == Zip(seen, Guess(seen, opens, start))
      invariant Cursor(lastSeen, branches) == After(seen, opens, start)
    {
      var slave := slaves[i];
      var open := CountOpenPorts(slave);
      if open == 0 {
        assert !AllOpen(slaves);
        return NoOpenPort;
      }
      GuessExtends(seen, opens, start, slave.address, open);
      ZipExtends(seen, Guess(seen, opens, start), slave.address, lastSeen);
      topology := topology[slave.address := lastSeen];
      lastSeen, branches := MoveOn(branches, slave.address, open, lastSeen);
      seen, opens := seen + [slave.address], opens + [open];
    }
    assert seen == xs && opens == os;
    assert forall k :: 0 <= k < |slaves| ==> OpenPorts(slaves[k]) == opens[k];
    r := Found(topology);
  }

  /** Where the next slave hangs: on this one, or, when this one ends its branch, on the
      innermost slave with a branch left. */
  method MoveOn(branches: seq<int>, x: int, open: nat, ghost before: int) returns (lastSeen: int, rest: seq<int>)
    requires open > 0
    ensures Cursor(lastSeen, rest) == Advance(Cursor(before, branches), x, open)
  {
    lastSeen, rest := x, branches;
    if open == 1 {
      if rest != [] {
        lastSeen := rest[|rest| - 1];
        rest := rest[..|rest| - 1];
      }
    } else {
      rest := PushRepeated(rest, x, open - 2);
    }
  }

  lemma {:induction false} NothingYet(c: Cursor)
    ensures Guess([], [], c) == [] && After([], [], c) == c && Zip([], []) == map[]
  {
  }

  method PushRepeated(branches: seq<int>, x: int, n: nat) returns (r: seq<int>)
    ensures r == branches + Repeat(x, n)
  {
    r := branches;
    for i := 0 to n
      invariant r == branches + Repeat(x, i)
    {
      r := r + [x];
    }
  }

  lemma {:induction false} ZipExtends(keys: seq<int>, values: seq<int>, k: int, v: int)
    requires |keys| == |values|
    ensures Zip(keys + [k], values + [v]) == Zip(keys, values)[k := v]
  {
    assert (keys + [k])[..|keys|] == keys && (values + [v])[..|values|] == values;
  }

  lemma {:induction false} ZipLooksUp(keys: seq<int>, values: seq<int>, i: nat)
    requires |keys| == |values| && i < |keys|
    requires forall j, k :: 0 <= j < k < |keys| ==> keys[j] != keys[k]
    ensures keys[i] in Zip(keys, values) && Zip(keys, values)[keys[i]] == values[i]
    decreases |keys|
  {
    var n := |keys| - 1;
    if i < n { ZipLooksUp(keys[..n], values[..n], i); }
  }
}
