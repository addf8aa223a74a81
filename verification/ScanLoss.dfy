/** A run in which the end of a scan is lost: two long scans, one after the other, and a user
    interface that shows nothing meanwhile. */
module ScanLoss {
  import opened Bytes
  import opened Common
  import opened OdScan
  import opened EventRing
  import opened ScanDisplay
  import opened ScanRuns

  ghost predicate Reachable(w: World) { exists ws, actions :: Trace(ws, actions) && ws[|actions|] == w }

  lemma {:induction false} ReachOn(w: World, a: Action)
    requires Reachable(w) && Allowed(w, a)
    ensures Reachable(Do(w, a))
  {
    var ws, actions :| Trace(ws, actions) && ws[|actions|] == w;
    TraceOn(ws, actions, a);
  }

  lemma {:induction false} TraceOn(ws: seq<World>, actions: seq<Action>, a: Action)
    requires Trace(ws, actions) && Allowed(ws[|actions|], a)
    ensures Trace(ws + [Do(ws[|actions|], a)], actions + [a])
  {
    var us, as_ := ws + [Do(ws[|actions|], a)], actions + [a];
    hide Do, Allowed;
    forall i | 0 <= i < |as_| ensures Allowed(us[i], as_[i]) && us[i + 1] == Do(us[i], as_[i]) {
      if i < |actions| { assert us[i] == ws[i] && us[i + 1] == ws[i + 1] && as_[i] == actions[i]; }
    }
  }

  /** A slave that answers everything, on a bus that nobody interrupts, with room for the total,
      for the first `q` objects, and for the end if `room`. */
  function Plain(n: nat, q: nat, room: bool): Phase {
    Phase(true, true, 0, seq(n, i requires 0 <= i < n => Round([], 0, i < q, false)), true, room, false, 0, false, 0)
  }

  lemma {:induction false} PlainTurn(n: nat, q: nat, room: bool, i: nat, t: nat)
    ensures TurnOf(n, i, 0, t, Plain(n, q, room))
            == if i < n then Offers(0, t + 2) else Halts(Halt(i, 0, t, false, false))
    ensures i < n ==> RoundAt(Plain(n, q, room), i).pushed == (i < q)
  {
  }

  lemma {:induction false} PlainLoop(n: nat, q: nat, room: bool, i: nat)
    requires i <= n && i <= q
    ensures Loop(n, i, 0, 2 * i, Plain(n, q, room))
            == if q < n then Halt(q, 0, 2 * q + 2, true, false) else Halt(n, 0, 2 * n, false, false)
    decreases n - i
  {
    PlainTurn(n, q, room, i, 2 * i);
    hide TurnOf, Plain;
    if i < n && i < q {
      PlainLoop(n, q, room, i + 1);
    }
  }

  lemma {:induction false} PlainVerdict(n: nat, q: nat, room: bool)
    ensures Verdict(n, 0, Plain(n, q, room)) == Done(if q < n then QueueFull else Fine)
  {
    PlainLoop(n, q, room, 0);
  }

  /** The state `m` objects further. */
  function Further(w: World, m: nat): World
    requires w.thread.Looping? && w.thread.i + m <= |ListOf(w, w.thread.job.slave)|
  {
    var Looping(job, p, start, i, c, t) := w.thread;
    var es := Objects(job.slave, ListOf(w, job.slave)[i..i + m]);
    w.(thread := Looping(job, p, start, i + m, c, t + 2 * m), ring := w.ring + es, log := w.log + es)
  }

  /** The bus thread turns a plain scan on `q` objects with nobody interfering. */
  predicate Plainly(w: World, n: nat, q: nat, room: bool) {
    && w.thread.Looping? && w.thread.p == Plain(n, q, room) && w.thread.c == 0
    && n == |ListOf(w, w.thread.job.slave)| && w.thread.i <= n && w.thread.i <= q
  }

  lemma {:induction false} OneFurther(w: World, n: nat, q: nat, room: bool)
    requires Plainly(w, n, q, room) && w.thread.i < n && w.thread.i < q && Room(w)
    ensures Allowed(w, Step) && Do(w, Step) == Further(w, 1)
  {
    var Looping(job, p, start, i, c, t) := w.thread;
    PlainTurn(n, q, room, i, t);
    assert !Stopped(p, Scanned(n, job.from, p).clock + 1);
    var list := ListOf(w, job.slave);
    assert Objects(job.slave, list[i..i + 1]) == [Object(job.slave, list[i])];
    hide TurnOf, Plain, Scanned, ListOf;
  }

  lemma {:induction false} FurtherTwice(w: World, m: nat)
    requires w.thread.Looping? && w.thread.i + m <= |ListOf(w, w.thread.job.slave)| && m > 0
    ensures Further(Further(w, 1), m - 1) == Further(w, m)
  {
    var Looping(job, p, start, i, c, t) := w.thread;
    var list := ListOf(w, job.slave);
    var one, rest := Objects(job.slave, list[i..i + 1]), Objects(job.slave, list[i + 1..i + m]);
    ObjectsSplit(job.slave, list, i, m);
    hide Objects;
    var u := Further(w, 1);
    assert u == w.(thread := Looping(job, p, start, i + 1, c, t + 2), ring := w.ring + one, log := w.log + one);
    assert ListOf(u, job.slave) == list;
    hide ListOf;
    assert i + 1 + (m - 1) == i + m;
    assert Further(u, m - 1).ring == w.ring + one + rest && Further(u, m - 1).log == w.log + one + rest;
    Regroup(w.ring, one, rest);
    Regroup(w.log, one, rest);
  }

  lemma {:induction false} ObjectsSplit(s: nat, list: seq<u16>, i: nat, m: nat)
    requires 0 < m && i + m <= |list|
    ensures Objects(s, list[i..i + m]) == Objects(s, list[i..i + 1]) + Objects(s, list[i + 1..i + m])
  {
  }

  lemma {:induction false} ManyFurther(w: World, n: nat, q: nat, room: bool, m: nat)
    requires Reachable(w) && Plainly(w, n, q, room) && w.thread.i + m <= n && w.thread.i + m <= q
    requires |w.ring| + m <= CAPACITY
    ensures Reachable(Further(w, m))
    decreases m
  {
    if m == 0 {
      var list, i := ListOf(w, w.thread.job.slave), w.thread.i;
      assert list[i..i] == [] && w.ring + [] == w.ring && w.log + [] == w.log;
      assert Further(w, 0) == w;
    } else {
      OneFurther(w, n, q, room);
      FurtherTwice(w, m);
      ReachOn(w, Step);
      hide Reachable, Allowed, Do, Plain;
      ManyFurther(Further(w, 1), n, q, room, m - 1);
    }
  }

  /** A scan taken up with room for its total and `m` objects, up to the turn after them. */
  lemma {:induction false} RunsOn(w: World, q: nat, room: bool, m: nat) returns (v: World)
    requires Reachable(w) && w.thread.Idle? && w.queue != [] && w.queue[0].from == 0 && w.queue[0].slave in w.lists
    requires var n := |ListOf(w, w.queue[0].slave)|; m <= n && m <= q
    requires |w.ring| + 1 + m <= CAPACITY
    ensures var n := |ListOf(w, w.queue[0].slave)|;
            && Reachable(v) && Plainly(v, n, q, room) && v.thread.job == w.queue[0] && v.thread.i == m
            && v.thread.t == 2 * m && v.queue == w.queue[1..] && v.lists == w.lists && v.shown == w.shown
            && !v.stopping == !w.stopping && |v.ring| == |w.ring| + 1 + m
  {
    var n := |ListOf(w, w.queue[0].slave)|;
    var p := Plain(n, q, room);
    ReachOn(w, Begin(p));
    var u := Do(w, Begin(p));
    ReachOn(u, Step);
    var x := Do(u, Step);
    hide Reachable, Allowed, Do;
    ManyFurther(x, n, q, room, m);
    v := Further(x, m);
  }

  /** The turn after the last object there was to push: the end comes next. */
  lemma {:induction false} TurnsToEnd(w: World, n: nat, q: nat, room: bool) returns (v: World)
    requires Reachable(w) && Plainly(w, n, q, room) && w.thread.job.from == 0 && w.thread.t == 2 * w.thread.i
    requires w.thread.i == n <= q || (w.thread.i == q < n && !Room(w))
    ensures Reachable(v) && v == w.(thread := v.thread)
    ensures v.thread == Ending(w.thread.job, w.thread.p, w.thread.start, if q < n then QueueFull else Fine)
  {
    var Looping(job, p, start, i, c, t) := w.thread;
    PlainTurn(n, q, room, i, t);
    PlainVerdict(n, q, room);
    assert !Stopped(p, Scanned(n, job.from, p).clock + 1);
    hide Reachable, TurnOf, Verdict, Scanned, Plain;
    ReachOn(w, Step);
    v := Do(w, Step);
  }

  /** Two scans are started and the user interface shows nothing while they run. For any two object
      lists that together, with their totals and ends, exceed the ring, the end of the second scan
      finds the ring full; when they exceed it by that end alone, every object is on its way. */
  lemma {:induction false} EndCanBeLost(first: seq<u16>, second: seq<u16>) returns (w: World)
    requires |first| + 2 < CAPACITY <= |first| + |second| + 3
    ensures Reachable(w) && Allowed(w, Step) && w.thread.Ending? && w.thread.job == Job(1, 0) && !Room(w)
    ensures ListOf(w, 1) == second
    ensures w.thread.error == if |first| + |second| + 3 == CAPACITY then Fine else QueueFull
  {
    var a, b := |first|, |second|;
    var w0 := TwoQueued(first, second);
    hide Reachable, Plain;
    var w1 := RunsOn(w0, a, true, a);
    var w2 := TurnsToEnd(w1, a, a, true);
    PlainRoom(a, a, true);
    var w3 := EndsRoomy(w2);
    var q := CAPACITY - a - 3;
    var w4 := RunsOn(w3, q, false, q);
    PlainRoom(b, q, false);
    w := TurnsToEnd(w4, b, q, false);
  }

  lemma {:induction false} PlainRoom(n: nat, q: nat, room: bool)
    ensures Plain(n, q, room).room == room
  {
  }

  lemma {:induction false} TwoQueued(first: seq<u16>, second: seq<u16>) returns (w: World)
    ensures Reachable(w) && w.thread.Idle? && w.queue == [Job(0, 0), Job(1, 0)] && w.ring == []
    ensures w.lists == map[0 := first, 1 := second] && ListOf(w, 0) == first && ListOf(w, 1) == second
  {
    var u := Opened(map[0 := first, 1 := second]);
    OpensReachable(u);
    ReachOn(u, Discover(0));
    var v := Do(u, Discover(0));
    ReachOn(v, Discover(1));
    w := Do(v, Discover(1));
  }

  lemma {:induction false} OpensReachable(w: World)
    requires w == Opened(w.lists)
    ensures Reachable(w)
  {
    var ws: seq<World>, actions: seq<Action> := [w], [];
    assert Trace(ws, actions) && ws[|actions|] == w;
  }

  lemma {:induction false} EndsRoomy(w: World) returns (v: World)
    requires Reachable(w) && w.thread.Ending? && w.thread.p.room && Room(w)
    ensures Reachable(v) && v.thread.Idle? && v.queue == w.queue && v.lists == w.lists && |v.ring| == |w.ring| + 1
  {
    ReachOn(w, Step);
    v := Do(w, Step);
  }
}
