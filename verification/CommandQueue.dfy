/** The bus thread's command queue (tools/kickui/BusSession.cc): commands are taken in both bus
    phases, and every request with a result gets it exactly once. What the bus answers is an
    oracle. */
module CommandQueue {
  import opened Common

  datatype Kind = Read | Write | Discover | ChangeState | ReadMapping | Topology | ClearErrors | Motor | MotorUnits

  /** A request, the slave it is for, and whether someone waits for its result. */
  datatype Command = Command(id: nat, kind: Kind, slave: nat, awaited: bool)

  datatype Result = Result(ok: bool, message: string)

  predicate IsMotor(c: Command) { c.kind.Motor? || c.kind.MotorUnits? }

  /** The commands that are not motor updates, in order. */
  function Blocking(cs: seq<Command>): (r: seq<Command>)
    ensures forall i :: 0 <= i < |r| ==> !IsMotor(r[i])
    decreases |cs|
  {
    if cs == [] then []
    else
      var before, c := Blocking(cs[..|cs| - 1]), cs[|cs| - 1];
      if IsMotor(c) then before else before + [c]
  }

  /** The awaited requests among `cs`, in order. */
  function Awaited(cs: seq<Command>): seq<nat>
    decreases |cs|
  {
    if cs == [] then []
    else
      var before, c := Awaited(cs[..|cs| - 1]), cs[|cs| - 1];
      if c.awaited then before + [c.id] else before
  }

  // ---- Taking commands ------------------------------------------------------

  /** In the cyclic phase the loop itself applies motor updates and the state changes of the
      slaves it operates. */
  predicate Inline(c: Command, operated: set<nat>) {
    IsMotor(c) || (c.kind.ChangeState? && c.slave in operated)
  }

  /** How many commands at the front a tick applies itself. */
  function Front(cs: seq<Command>, operated: set<nat>): (k: nat)
    ensures k <= |cs|
    ensures forall i :: 0 <= i < k ==> Inline(cs[i], operated)
    ensures k < |cs| ==> !Inline(cs[k], operated)
    decreases |cs|
  {
    if cs != [] && Inline(cs[0], operated) then 1 + Front(cs[1..], operated) else 0
  }

  /** What executing a read or write can meet: no bus, an exception, an answer or a refusal. */
  datatype Bus = Absent | Throws(message: string) | Answers(message: string) | Refuses(message: string)

  /** What the one who waits is told. */
  function Told(bus: Bus): Result {
    match bus
    case Absent => Result(false, "bus not available")
    case Answers(m) => Result(true, m)
    case Refuses(m) => Result(false, m)
    case Throws(m) => Result(false, m)
  }

  const CANCELLED := Result(false, "cancelled")

  /** The results when everyone waiting for one of `cs` is told they are cancelled. */
  function Cancelled(results: map<nat, Result>, cs: seq<Command>): map<nat, Result>
    decreases |cs|
  {
    if cs == [] then results
    else
      var before, c := Cancelled(results, cs[..|cs| - 1]), cs[|cs| - 1];
      if c.awaited then before[c.id := CANCELLED] else before
  }

  // ---- The thread as a state machine ------------------------------------------

  /** The thread between steps: the queue, the commands ever accepted, those taken off other
      than motor updates, the results given, and the requests marked done in order. */
  datatype State = State(queue: seq<Command>, accepted: seq<Command>, taken: seq<Command>,
                         results: map<nat, Result>, marked: seq<nat>)

  const START := State([], [], [], map[], [])

  /** Accepting a command, one command served while idle, the seed pass, a cyclic tick, and
      stopping. An interrupted scan that queues itself again is accepted anew. */
  datatype Action = Accept(command: Command) | ServeIdle(bus: Bus) | Seed | Tick(operated: set<nat>, bus: Bus) | Stop

  /** The commands that report a result. */
  predicate Reports(c: Command) { c.awaited && (c.kind.Read? || c.kind.Write?) }

  function Dispatched(s: State, c: Command, bus: Bus): State {
    if Reports(c) then s.(results := s.results[c.id := Told(bus)], marked := s.marked + [c.id]) else s
  }

  /** The state with the first `k` commands taken off. */
  function Took(s: State, k: nat): State
    requires k <= |s.queue|
  {
    s.(queue := s.queue[k..], taken := s.taken + Blocking(s.queue[..k]))
  }

  function Do(s: State, a: Action): State {
    match a
    case Accept(c) => s.(queue := s.queue + [c], accepted := s.accepted + [c])
    case ServeIdle(bus) => if s.queue == [] then s else Dispatched(Took(s, 1), s.queue[0], bus)
    case Seed => s.(queue := Blocking(s.queue))
    case Tick(operated, bus) =>
      var k := Front(s.queue, operated);
      if k == |s.queue| then Took(s, k) else Dispatched(Took(s, k + 1), s.queue[k], bus)
    case Stop =>
      Took(s, |s.queue|).(results := Cancelled(s.results, s.queue), marked := s.marked + Awaited(s.queue))
  }

  class Actor {
    var queue: seq<Command>
    var results: map<nat, Result>
    var marked: seq<nat>
    ghost var accepted: seq<Command>
    ghost var taken: seq<Command>

    constructor ()
      ensures Snapshot() == START
    {
      queue, results, marked, accepted, taken := [], map[], [], [], [];
    }

    ghost function Snapshot(): State
      reads this
    {
      State(queue, accepted, taken, results, marked)
    }

    /** `enqueue`. */
    method Enqueue(c: Command)
      modifies this
      ensures Snapshot() == Do(old(Snapshot()), Accept(c))
    {
      queue := queue + [c];
      accepted := accepted + [c];
    }

    /** The idle phase: the front command, unless the queue is empty. */
    method TakeIdle() returns (c: Option<Command>)
      modifies this`queue
      ensures old(queue) == [] ==> c == None && queue == []
      ensures old(queue) != [] ==> c.Some? && [c.value] + queue == old(queue)
    {
      if queue == [] {
        return None;
      }
      c := Some(queue[0]);
      queue := queue[1..];
    }

    /** Entering the cyclic phase: motor updates are applied, the others keep their order. */
    method SeedPass() returns (applied: seq<Command>)
      modifies this`queue
      ensures queue == Blocking(old(queue))
      ensures |applied| + |queue| == |old(queue)| && forall i :: 0 <= i < |applied| ==> IsMotor(applied[i])
    {
      var keep, i := [], 0;
      applied := [];
      while i < |queue|
        invariant 0 <= i <= |queue| && queue == old(queue) && keep == Blocking(queue[..i])
        invariant |applied| + |keep| == i && forall j :: 0 <= j < |applied| ==> IsMotor(applied[j])
      {
        assert queue[..i + 1][..i] == queue[..i];
        if IsMotor(queue[i]) {
          applied := applied + [queue[i]];
        } else {
          keep := keep + [queue[i]];
        }
        i := i + 1;
      }
      assert queue[..|queue|] == queue;
      queue := keep;
    }

    /** A cyclic tick: what the loop applies itself, then at most one other command. */
    method TakeCyclic(operated: set<nat>) returns (applied: seq<Command>, c: Option<Command>)
      modifies this`queue
      ensures var k := Front(old(queue), operated);
              && applied == old(queue)[..k]
              && (k == |old(queue)| ==> c == None && queue == [])
              && (k < |old(queue)| ==> c == Some(old(queue)[k]) && queue == old(queue)[k + 1..])
    {
      applied, c := [], None;
      ghost var all, k, i := queue, Front(queue, operated), 0;
      while queue != []
        invariant 0 <= i <= k <= |all| && queue == all[i..] && applied == all[..i] && c == None
        decreases |queue|
      {
        var front := queue[0];
        assert front == all[i] && (i < k ==> Inline(all[i], operated)) && (i == k ==> !Inline(all[k], operated));
        if Inline(front, operated) {
          assert i < k;
          applied := applied + [front];
          queue := queue[1..];
          i := i + 1;
        } else {
          assert i == k;
          c := Some(front);
          queue := queue[1..];
          return;
        }
      }
    }

    /** The one place a result is filled in and marked done. */
    method Finish(c: Command, r: Result)
      requires c.awaited
      modifies this`results, this`marked
      ensures results == old(results)[c.id := r] && marked == old(marked) + [c.id]
    {
      results, marked := results[c.id := r], marked + [c.id];
    }

    /** `executeSdo`: whatever happens, an awaited request is marked once. */
    method ExecuteSdo(c: Command, bus: Bus)
      modifies this`results, this`marked
      ensures marked == old(marked) + Awaited([c])
      ensures results == if c.awaited then old(results)[c.id := Told(bus)] else old(results)
    {
      OneAwaited(c);
      if bus.Absent? || !c.awaited {
        if c.awaited {
          Finish(c, Result(false, "bus not available"));
        }
        return;
      }
      var r := Result(false, "");
      match bus {
        case Answers(m) => r := Result(true, m);
        case Refuses(m) => r := Result(false, m);
        case Throws(m) => r := Result(false, m);
      }
      Finish(c, r);
    }

    /** `dispatchCommand`: only reads and writes look at who waits. */
    method Dispatch(c: Command, bus: Bus)
      modifies this`results, this`marked
      ensures Snapshot() == Dispatched(old(Snapshot()), c, bus)
    {
      OneAwaited(c);
      match c.kind {
        case Read => ExecuteSdo(c, bus);
        case Write => ExecuteSdo(c, bus);
        case _ =>
      }
    }

    /** One round of the idle phase. */
    method RunIdle(bus: Bus)
      modifies this
      ensures Snapshot() == Do(old(Snapshot()), ServeIdle(bus))
    {
      ghost var all := queue;
      var c := TakeIdle();
      if c.Some? {
        assert all[..1] == [c.value] && all[1..] == queue;
        taken := taken + Blocking([c.value]);
        if !IsMotor(c.value) {
          Dispatch(c.value, bus);
        }
      }
    }

    /** Entering the cyclic phase. */
    method RunSeed()
      modifies this
      ensures Snapshot() == Do(old(Snapshot()), Seed)
    {
      var applied := SeedPass();
    }

    /** One tick of the cyclic loop. */
    method RunTick(operated: set<nat>, bus: Bus)
      modifies this
      ensures Snapshot() == Do(old(Snapshot()), Tick(operated, bus))
    {
      ghost var all, k := queue, Front(queue, operated);
      var applied, c := TakeCyclic(operated);
      if c.Some? {
        taken := taken + Blocking(all[..k + 1]);
        Dispatch(c.value, bus);
      } else {
        assert all[k..] == [];
        taken := taken + Blocking(all[..k]);
      }
    }

    /** `stopBusThread`, once the thread is gone: whoever still waits is told. */
    method CancelAll()
      modifies this
      ensures Snapshot() == Do(old(Snapshot()), Stop)
    {
      var i := 0;
      while i < |queue|
        invariant 0 <= i <= |queue| && queue == old(queue) && marked == old(marked) + Awaited(queue[..i])
        invariant results == Cancelled(old(results), queue[..i])
        invariant accepted == old(accepted) && taken == old(taken)
      {
        assert queue[..i + 1][..i] == queue[..i];
        if queue[i].awaited {
          Finish(queue[i], Result(false, "cancelled"));
        }
        i := i + 1;
      }
      assert queue[..|queue|] == queue;
      taken := taken + Blocking(queue);
      queue := [];
    }
  }

  lemma {:induction false} OneAwaited(c: Command)
    ensures Awaited([c]) == if c.awaited then [c.id] else []
  {
    assert [c][..0] == [];
  }

  // ---- Runs -----------------------------------------------------------------

  /** Only reads and writes are awaited. */
  predicate Proper(c: Command) { c.awaited ==> c.kind.Read? || c.kind.Write? }

  ghost predicate AllProper(cs: seq<Command>) { forall i :: 0 <= i < |cs| ==> Proper(cs[i]) }

  ghost predicate Sane(a: Action) { a.Accept? ==> Proper(a.command) }

  lemma {:induction false} BlockingCat(xs: seq<Command>, ys: seq<Command>)
    ensures Blocking(xs + ys) == Blocking(xs) + Blocking(ys)
    decreases |ys|
  {
    if ys == [] {
      assert xs + ys == xs;
    } else {
      var n := |ys| - 1;
      BlockingCat(xs, ys[..n]);
      assert (xs + ys)[..|xs| + n] == xs + ys[..n];
    }
  }

  lemma {:induction false} BlockingTwice(xs: seq<Command>)
    ensures Blocking(Blocking(xs)) == Blocking(xs)
    decreases |xs|
  {
    if xs != [] {
      var n := |xs| - 1;
      BlockingTwice(xs[..n]);
      if !IsMotor(xs[n]) {
        assert (Blocking(xs[..n]) + [xs[n]])[..|Blocking(xs[..n])|] == Blocking(xs[..n]);
      }
    }
  }

  lemma {:induction false} AwaitedCat(xs: seq<Command>, ys: seq<Command>)
    ensures Awaited(xs + ys) == Awaited(xs) + Awaited(ys)
    decreases |ys|
  {
    if ys == [] {
      assert xs + ys == xs;
    } else {
      var n := |ys| - 1;
      AwaitedCat(xs, ys[..n]);
      assert (xs + ys)[..|xs| + n] == xs + ys[..n];
    }
  }

  /** Nothing is lost, nothing overtakes, and the requests taken off are those marked done, in
      order, each with its result. */
  ghost predicate Kept(s: State) {
    && AllProper(s.accepted) && AllProper(s.queue)
    && Blocking(s.accepted) == s.taken + Blocking(s.queue)
    && s.marked == Awaited(s.taken)
    && forall id :: id in s.results <==> id in s.marked
  }

  lemma {:induction false} NoneAwaited(cs: seq<Command>)
    requires forall i :: 0 <= i < |cs| ==> !cs[i].awaited
    ensures Awaited(Blocking(cs)) == []
    decreases |cs|
  {
    if cs != [] {
      var n := |cs| - 1;
      NoneAwaited(cs[..n]);
      AwaitedCat(Blocking(cs[..n]), [cs[n]]);
      OneAwaited(cs[n]);
    }
  }

  lemma {:induction false} AwaitedBlocking(cs: seq<Command>)
    requires AllProper(cs)
    ensures Awaited(Blocking(cs)) == Awaited(cs)
    decreases |cs|
  {
    if cs != [] {
      var n := |cs| - 1;
      AwaitedBlocking(cs[..n]);
      assert Proper(cs[n]);
      AwaitedCat(Blocking(cs[..n]), [cs[n]]);
      OneAwaited(cs[n]);
    }
  }

  /** Of commands taken off the front only the last one can be awaited. */
  lemma {:induction false} LastAwaited(s: State, k: nat)
    requires Kept(s) && 0 < k <= |s.queue| && forall i :: 0 <= i < k - 1 ==> !s.queue[i].awaited
    ensures Proper(s.queue[k - 1])
    ensures Awaited(Took(s, k).taken) == s.marked + if Reports(s.queue[k - 1]) then [s.queue[k - 1].id] else []
  {
    hide *;
    var cs, c := s.queue[..k - 1], s.queue[k - 1];
    QueueProper(s, k - 1);
    OneReports(c);
    NoneAwaited(cs);
    assert s.queue[..k] == cs + [c];
    BlockingCat(cs, [c]);
    AwaitedCat(Blocking(cs), Blocking([c]));
    AwaitedCat(s.taken, Blocking(cs + [c]));
    LastTaken(s, k, cs + [c]);
  }

  lemma {:induction false} QueueProper(s: State, k: nat)
    requires Kept(s) && k < |s.queue|
    ensures Proper(s.queue[k])
  {
  }

  lemma {:induction false} OneReports(c: Command)
    requires Proper(c)
    ensures Awaited(Blocking([c])) == if Reports(c) then [c.id] else []
  {
    OneAwaited(c);
    AwaitedBlocking([c]);
  }

  lemma {:induction false} LastTaken(s: State, k: nat, cs: seq<Command>)
    requires Kept(s) && k <= |s.queue| && cs == s.queue[..k]
    ensures Took(s, k).taken == s.taken + Blocking(cs) && s.marked == Awaited(s.taken)
  {
    hide Blocking, Awaited;
  }

  /** Commands taken off from the front, the last of them dispatched. */
  lemma {:induction false} TookKeeps(s: State, k: nat, bus: Bus)
    requires Kept(s) && 0 < k <= |s.queue|
    requires forall i :: 0 <= i < k - 1 ==> !s.queue[i].awaited
    ensures Kept(Dispatched(Took(s, k), s.queue[k - 1], bus))
  {
    TookBlocking(s, k);
    LastAwaited(s, k);
    hide Blocking, Awaited, Proper, AllProper;
  }

  /** What is taken and what is left are what there was. */
  lemma {:induction false} TookBlocking(s: State, k: nat)
    requires Kept(s) && k <= |s.queue|
    ensures var t := Took(s, k); AllProper(t.queue) && Blocking(t.accepted) == t.taken + Blocking(t.queue)
  {
    hide Blocking, Awaited;
    var cs, rest := s.queue[..k], s.queue[k..];
    assert s.queue == cs + rest;
    BlockingCat(cs, rest);
    assert s.taken + (Blocking(cs) + Blocking(rest)) == s.taken + Blocking(cs) + Blocking(rest);
  }

  lemma {:induction false} TickKeeps(s: State, operated: set<nat>, bus: Bus)
    requires Kept(s)
    ensures Kept(Do(s, Tick(operated, bus)))
  {
    hide *;
    var k := Front(s.queue, operated);
    FrontUnawaited(s, operated);
    TickIs(s, operated, bus);
    if k == |s.queue| {
      AllInline(s);
    } else {
      TookKeeps(s, k + 1, bus);
    }
  }

  lemma {:induction false} FrontUnawaited(s: State, operated: set<nat>)
    requires Kept(s)
    ensures forall i :: 0 <= i < Front(s.queue, operated) ==> !s.queue[i].awaited
  {
    forall i | 0 <= i < Front(s.queue, operated) ensures !s.queue[i].awaited { assert Proper(s.queue[i]); }
  }

  lemma {:induction false} TickIs(s: State, operated: set<nat>, bus: Bus)
    ensures var k := Front(s.queue, operated);
            Do(s, Tick(operated, bus))
            == if k == |s.queue| then Took(s, k) else Dispatched(Took(s, k + 1), s.queue[k], bus)
  {
  }

  /** A tick that applies all there is. */
  lemma {:induction false} AllInline(s: State)
    requires Kept(s) && forall i :: 0 <= i < |s.queue| ==> !s.queue[i].awaited
    ensures Kept(Took(s, |s.queue|))
  {
    TookBlocking(s, |s.queue|);
    hide Blocking, Awaited;
    assert s.queue[..|s.queue|] == s.queue;
    NoneAwaited(s.queue);
    AwaitedCat(s.taken, Blocking(s.queue));
  }

  lemma {:induction false} CancelledKeys(results: map<nat, Result>, cs: seq<Command>)
    ensures forall id :: id in Cancelled(results, cs) <==> id in results || id in Awaited(cs)
    ensures forall id :: id in Awaited(cs) ==> Cancelled(results, cs)[id] == CANCELLED
    ensures forall id :: id in results && id !in Awaited(cs) ==> Cancelled(results, cs)[id] == results[id]
    decreases |cs|
  {
    if cs != [] { CancelledKeys(results, cs[..|cs| - 1]); }
  }

  lemma {:induction false} StopKeeps(s: State)
    requires Kept(s)
    ensures Kept(Do(s, Stop))
  {
    TookBlocking(s, |s.queue|);
    CancelledKeys(s.results, s.queue);
    AwaitedBlocking(s.queue);
    hide Blocking, Awaited, Cancelled;
    assert s.queue[..|s.queue|] == s.queue;
    AwaitedCat(s.taken, Blocking(s.queue));
  }

  lemma {:induction false} AcceptKeeps(s: State, c: Command)
    requires Kept(s) && Proper(c)
    ensures Kept(Do(s, Accept(c)))
  {
    hide Blocking, Awaited;
    BlockingCat(s.accepted, [c]);
    BlockingCat(s.queue, [c]);
    assert s.taken + Blocking(s.queue) + Blocking([c]) == s.taken + (Blocking(s.queue) + Blocking([c]));
  }

  lemma {:induction false} BlockingProper(cs: seq<Command>)
    requires AllProper(cs)
    ensures AllProper(Blocking(cs))
    decreases |cs|
  {
    if cs != [] {
      BlockingProper(cs[..|cs| - 1]);
      assert Proper(cs[|cs| - 1]);
    }
  }

  lemma {:induction false} SeedKeeps(s: State)
    requires Kept(s)
    ensures Kept(Do(s, Seed))
  {
    BlockingTwice(s.queue);
    BlockingProper(s.queue);
  }

  lemma {:induction false} StepKeeps(s: State, a: Action)
    requires Kept(s) && Sane(a)
    ensures Kept(Do(s, a))
  {
    hide Blocking, Awaited, Kept, Took, Dispatched;
    match a
    case Accept(c) => AcceptKeeps(s, c);
    case ServeIdle(bus) => if s.queue != [] { TookKeeps(s, 1, bus); }
    case Seed => SeedKeeps(s);
    case Tick(operated, bus) => TickKeeps(s, operated, bus);
    case Stop => StopKeeps(s);
  }

  function Run(actions: seq<Action>): State
    decreases |actions|
  {
    if actions == [] then START else Do(Run(actions[..|actions| - 1]), actions[|actions| - 1])
  }

  ghost predicate AllSane(actions: seq<Action>) { forall i :: 0 <= i < |actions| ==> Sane(actions[i]) }

  lemma {:induction false} AlwaysKept(actions: seq<Action>)
    requires AllSane(actions)
    ensures Kept(Run(actions))
    decreases |actions|
  {
    hide Do, Kept, Sane;
    if actions == [] {
      StartKept();
    } else {
      AlwaysKept(actions[..|actions| - 1]);
      StepKeeps(Run(actions[..|actions| - 1]), actions[|actions| - 1]);
    }
  }

  lemma {:induction false} StartKept()
    ensures Kept(START)
  {
  }

  /** Over every run and both phases: commands other than motor updates are taken first come
      first served; the awaited requests accepted are those marked done, in order, followed by
      those still queued; exactly those marked have a result; and once the thread is stopped
      that is every one of them. */
  lemma {:induction false} EveryRun(actions: seq<Action>)
    requires AllSane(actions)
    ensures var s := Run(actions);
            && s.taken <= Blocking(s.accepted)
            && Awaited(s.accepted) == s.marked + Awaited(Blocking(s.queue))
            && (forall id :: id in s.results <==> id in s.marked)
            && (actions != [] && actions[|actions| - 1].Stop? ==> s.marked == Awaited(s.accepted))
  {
    AlwaysKept(actions);
    var s := Run(actions);
    AwaitedBlocking(s.accepted);
    AwaitedCat(s.taken, Blocking(s.queue));
    if actions != [] && actions[|actions| - 1].Stop? {
      assert s.queue == [];
    }
  }

  /** The requests have different results to fill in. */
  ghost predicate Different(cs: seq<Command>) {
    var ids := Awaited(cs);
    forall i, j :: 0 <= i < j < |ids| ==> ids[i] != ids[j]
  }

  /** With distinct requests, no result is ever marked twice. */
  lemma {:induction false} MarkedOnce(actions: seq<Action>, i: nat, j: nat)
    requires AllSane(actions) && Different(Run(actions).accepted)
    ensures i < j < |Run(actions).marked| ==> Run(actions).marked[i] != Run(actions).marked[j]
  {
    EveryRun(actions);
    var s := Run(actions);
    var ids := Awaited(s.accepted);
    if i < j < |s.marked| {
      assert ids[i] == s.marked[i] && ids[j] == s.marked[j];
    }
  }

  /** The requests a step marks done. */
  function Marks(s: State, a: Action): seq<nat> {
    match a
    case Accept(_) => []
    case ServeIdle(_) => if s.queue != [] && Reports(s.queue[0]) then [s.queue[0].id] else []
    case Seed => []
    case Tick(operated, _) =>
      var k := Front(s.queue, operated);
      if k < |s.queue| && Reports(s.queue[k]) then [s.queue[k].id] else []
    case Stop => Awaited(s.queue)
  }

  /** A step gives results to the requests it marks, and touches no other. */
  lemma {:induction false} StepMarks(s: State, a: Action)
    ensures Do(s, a).marked == s.marked + Marks(s, a)
    ensures forall id :: id in s.results && id !in Marks(s, a) ==>
              id in Do(s, a).results && Do(s, a).results[id] == s.results[id]
  {
    hide Blocking, Awaited, Cancelled;
    if a.Stop? { CancelledKeys(s.results, s.queue); }
  }

  lemma {:induction false} AcceptedGrows(actions: seq<Action>, n: nat)
    requires n <= |actions|
    ensures Run(actions[..n]).accepted <= Run(actions).accepted
    decreases |actions|
  {
    if n == |actions| {
      assert actions[..n] == actions;
    } else {
      var last := |actions| - 1;
      AcceptedGrows(actions[..last], n);
      assert actions[..last][..n] == actions[..n];
      StepAccepts(Run(actions[..last]), actions[last]);
      hide Do;
    }
  }

  lemma {:induction false} StepAccepts(s: State, a: Action)
    ensures s.accepted <= Do(s, a).accepted
  {
    hide Blocking, Awaited, Cancelled, Front;
  }

  lemma {:induction false} StillDifferent(cs: seq<Command>, all: seq<Command>)
    requires cs <= all && Different(all)
    ensures Different(cs)
  {
    assert all == cs + all[|cs|..];
    AwaitedCat(cs, all[|cs|..]);
    var ids := Awaited(all);
    forall i, j | 0 <= i < j < |Awaited(cs)| ensures Awaited(cs)[i] != Awaited(cs)[j] {
      assert ids[i] == Awaited(cs)[i] && ids[j] == Awaited(cs)[j];
    }
  }

  /** A result once given stays: no later step of the run overwrites it. */
  lemma {:induction false} ResultsStay(actions: seq<Action>, n: nat, id: nat)
    requires AllSane(actions) && Different(Run(actions).accepted) && n <= |actions|
    requires id in Run(actions[..n]).results
    ensures id in Run(actions).results && Run(actions).results[id] == Run(actions[..n]).results[id]
    decreases |actions|
  {
    if n == |actions| {
      assert actions[..n] == actions;
    } else {
      var last := |actions| - 1;
      var before, s := actions[..last], Run(actions[..last]);
      assert before[..n] == actions[..n];
      AcceptedGrows(actions, last);
      StillDifferent(s.accepted, Run(actions).accepted);
      ResultsStay(before, n, id);
      EveryRun(before);
      StepMarks(s, actions[last]);
      NotAgain(actions, id);
    }
  }

  /** A request marked before the last step is not marked by it. */
  lemma {:induction false} NotAgain(actions: seq<Action>, id: nat)
    requires AllSane(actions) && Different(Run(actions).accepted) && actions != []
    requires id in Run(actions[..|actions| - 1]).marked
    ensures id !in Marks(Run(actions[..|actions| - 1]), actions[|actions| - 1])
  {
    var last := |actions| - 1;
    var s, a := Run(actions[..last]), actions[last];
    StepMarks(s, a);
    var marks, marked := Marks(s, a), Run(actions).marked;
    assert marked == s.marked + marks;
    hide *;
    var i :| 0 <= i < |s.marked| && s.marked[i] == id;
    forall j | 0 <= j < |marks| ensures marks[j] != id {
      MarkedOnce(actions, i, |s.marked| + j);
      assert marked[i] == id && marked[|s.marked| + j] == marks[j];
    }
  }
}
