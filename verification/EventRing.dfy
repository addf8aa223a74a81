/** The bounded queue between the bus thread and the user interface (`Ring`,
    lib/include/kickcat/Ring.h, behind the lock of `LockedRing`): 4096 places written round and
    round, and two counters that run through 32 bits. */
module EventRing {
  import opened Bytes
  import opened Common

  const CAPACITY := 4096
  const WRAP := 0x1_0000_0000

  /** Where the entry counted `x` lies. */
  function Place(x: nat): (p: nat)
    ensures p < CAPACITY
  {
    x % CAPACITY
  }

  lemma {:induction false} PlaceWraps(x: nat)
    ensures Place(x % WRAP) == Place(x)
  {
    var q, r := x / WRAP, x % WRAP;
    assert x == (q * 0x10_0000) * CAPACITY + r;
    AddTurns(r, q * 0x10_0000);
  }

  lemma {:induction false} AddTurns(r: nat, q: nat)
    ensures (q * CAPACITY + r) % CAPACITY == r % CAPACITY
    decreases q
  {
    if q > 0 {
      AddTurns(r, q - 1);
      assert q * CAPACITY + r == (q - 1) * CAPACITY + r + CAPACITY;
    }
  }

  /** Entries less than a round apart lie in different places. */
  lemma {:induction false} PlacesDiffer(x: nat, y: nat)
    requires x < y < x + CAPACITY
    ensures Place(x) != Place(y)
  {
  }

  lemma {:induction false} TailPlace(tail: u32, i: nat)
    ensures Place(Next(tail) + i) == Place(tail + 1 + i)
  {
    if tail + 1 == WRAP {
      assert tail + 1 + i == 0x10_0000 * CAPACITY + i;
      AddTurns(i, 0x10_0000);
    }
  }

  /** How far `head` is ahead of `tail`, in 32 bits. */
  function Between(tail: u32, head: u32): nat { if head >= tail then head - tail else head + WRAP - tail }

  function Next(x: u32): u32 { if x + 1 == WRAP then 0 else x + 1 }

  lemma {:induction false} HeadPlace(tail: u32, head: u32)
    ensures Place(head) == Place(tail + Between(tail, head))
  {
    assert (tail + Between(tail, head)) % WRAP == head;
    PlaceWraps(tail + Between(tail, head));
  }

  lemma {:induction false} BetweenSteps(tail: u32, head: u32)
    ensures Between(tail, head) < CAPACITY ==> Between(tail, Next(head)) == Between(tail, head) + 1
    ensures Between(tail, head) > 0 ==> Between(Next(tail), head) == Between(tail, head) - 1
  {
  }

  /** The `n` entries counted from `tail` on. */
  function Window<T>(data: seq<T>, tail: nat, n: nat): (r: seq<T>)
    requires |data| == CAPACITY
    ensures |r| == n && forall i :: 0 <= i < n ==> r[i] == data[Place(tail + i)]
  {
    seq(n, i requires 0 <= i < n => data[Place(tail + i)])
  }

  lemma {:induction false} WindowPush<T>(data: seq<T>, tail: nat, n: nat, e: T)
    requires |data| == CAPACITY && n < CAPACITY
    ensures Window(data[Place(tail + n) := e], tail, n + 1) == Window(data, tail, n) + [e]
  {
    var after := data[Place(tail + n) := e];
    forall i | 0 <= i < n ensures Window(after, tail, n + 1)[i] == Window(data, tail, n)[i] {
      PlacesDiffer(tail + i, tail + n);
    }
  }

  lemma {:induction false} WindowPop<T>(data: seq<T>, tail: u32, n: nat)
    requires |data| == CAPACITY && n > 0
    ensures Window(data, tail, n)[0] == data[Place(tail)]
    ensures Window(data, Next(tail), n - 1) == Window(data, tail, n)[1..]
  {
    forall i | 0 <= i < n - 1 ensures Window(data, Next(tail), n - 1)[i] == Window(data, tail, n)[1..][i] {
      TailPlace(tail, i);
      assert tail + 1 + i == tail + (i + 1);
    }
  }

  class Ring<T(0)> {
    const data: array<T>
    var head: u32
    var tail: u32

    ghost predicate Valid()
      reads this
    {
      data.Length == CAPACITY && Between(tail, head) <= CAPACITY
    }

    ghost function Contents(): (s: seq<T>)
      requires Valid()
      reads this, data
      ensures |s| == Between(tail, head)
    {
      Window(data[..], tail, Between(tail, head))
    }

    constructor ()
      ensures Valid() && Contents() == [] && fresh(data)
    {
      data := new T[CAPACITY];
      head, tail := 0, 0;
    }

    /** `push`: refused exactly when every place is taken. */
    method Push(e: T) returns (ok: bool)
      requires Valid()
      modifies this, data
      ensures Valid() && ok == (|old(Contents())| < CAPACITY)
      ensures Contents() == if ok then old(Contents()) + [e] else old(Contents())
    {
      var used := Between(tail, head);
      if used == CAPACITY {
        return false;
      }
      HeadPlace(tail, head);
      BetweenSteps(tail, head);
      WindowPush(data[..], tail, used, e);
      hide Place, Between, Window;
      data[Place(head)] := e;
      head := Next(head);
      assert data[..] == old(data[..])[Place(tail + used) := e];
      ok := true;
    }

    /** `pop`: the oldest entry, if there is one. */
    method Pop() returns (e: Option<T>)
      requires Valid()
      modifies this
      ensures Valid()
      ensures old(Contents()) == [] ==> e == None && Contents() == []
      ensures old(Contents()) != [] ==> e == Some(old(Contents())[0]) && Contents() == old(Contents())[1..]
    {
      var used := Between(tail, head);
      if used == 0 {
        return None;
      }
      BetweenSteps(tail, head);
      WindowPop(data[..], tail, used);
      hide Place, Between, Window;
      e := Some(data[Place(tail)]);
      tail := Next(tail);
    }
  }
}
