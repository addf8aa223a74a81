/** Every run of the master's mailbox: creating, sending, receiving, and asking for a status. */
module RequestRuns {
  import opened Bytes
  import opened MailboxFormat
  import opened SdoInformation
  import opened RequestMailbox

  datatype Action =
    | Create(id: Id, message: Message)
    | Install(id: Id, kind: Kind, data: seq<byte>)
    | Poll(id: Id, now: nat)
    | Send(now: nat)
    | Receive(received: Memory, answers: map<Id, Answer>, now: nat)

  /** The mailbox, and the counters it has given out. */
  datatype World = World(state: State, given: seq<nat>)

  const START := World(State(0, [], [], map[]), [])

  ghost predicate Allowed(s: State, a: Action) {
    match a
    case Create(id, m) =>
      && id !in s.table && |m.data| >= 6 && m.status == RUNNING && !Standing(m.kind)
      && (m.kind.Gateway? ==> Address(m.data) == Masked(m.kind.index))
    case Install(id, kind, data) => id !in s.table && |data| >= 6 && Standing(kind)
    case Poll(id, _) => id in s.table
    case Send(_) => s.toSend != [] && s.toSend[0] in s.table
    case Receive(_, _, _) => Known(s.table, s.toProcess) && Sized(s.table)
  }

  ghost function Received(s: State, received: Memory, answers: map<Id, Answer>, now: nat): State
    requires Known(s.table, s.toProcess) && Sized(s.table)
  {
    var e := Expired(s, now);
    var k := Taker(e.table, e.toProcess, answers, received);
    if k < |e.toProcess| then Delivered(e, k, answers, received) else e
  }

  ghost function Do(s: State, a: Action): State
    requires Allowed(s, a)
  {
    match a
    case Create(id, m) => CreateStep(s, id, m)
    case Install(id, kind, data) =>
      s.(table := s.table[id := Message(kind, RUNNING, 0, data, NewClient(kind))], toProcess := s.toProcess + [id])
    case Poll(id, now) => s.(table := s.table[id := Aged(s.table[id], now)])
    case Send(now) => SendStep(s, now)
    case Receive(received, answers, now) => Received(s, received, answers, now)
  }

  // ---- The invariant --------------------------------------------------------

  predicate NoDup(ids: seq<Id>) { forall i, j :: 0 <= i < j < |ids| ==> ids[i] != ids[j] }

  predicate Apart(xs: seq<Id>, ys: seq<Id>) { forall i, j :: 0 <= i < |xs| && 0 <= j < |ys| ==> xs[i] != ys[j] }

  /** What a message to be sent can be: still running, or timed out behind the mailbox's back. */
  predicate Waiting(m: Message) {
    && m.status in {RUNNING, TIMEDOUT} && !Standing(m.kind)
    && (m.kind.Gateway? ==> |m.data| >= 6 && Address(m.data) == Masked(m.kind.index))
  }

  /** An information request kept with its buffer already too small. */
  predicate Overrun(m: Message) { m.kind.Information? && m.status == BUFFER_TOO_SMALL }

  /** What a message waiting for its reply can be. */
  predicate Pending(m: Message) {
    if Standing(m.kind) then m.status in {RUNNING, SUCCESS} && m.deadline == 0 else Waiting(m) || Overrun(m)
  }

  ghost predicate Inv(s: State) {
    && NoDup(s.toSend) && NoDup(s.toProcess) && Apart(s.toSend, s.toProcess)
    && Known(s.table, s.toSend) && Known(s.table, s.toProcess) && Sized(s.table)
    && (forall i :: 0 <= i < |s.toSend| ==> Waiting(s.table[s.toSend[i]]))
    && (forall i :: 0 <= i < |s.toProcess| ==> Pending(s.table[s.toProcess[i]]))
    && s.counter <= 7
  }

  /** No message is forgotten or changes its kind, and a settled one other than `except` stays as
      it was settled. */
  predicate SettledBut(s: State, t: State, except: set<Id>) {
    forall id :: id in s.table ==>
      && id in t.table && t.table[id].kind == s.table[id].kind
      && (s.table[id].status != RUNNING && id !in except ==> t.table[id].status == s.table[id].status)
  }

  /** The request whose status the step overturns: the reply goes to one kept with a too small
      buffer, and ends it with something else. */
  ghost function Overturned(s: State, a: Action): set<Id>
    requires Allowed(s, a)
  {
    if !a.Receive? then {}
    else
      var e := Expired(s, a.now);
      var k := Taker(e.table, e.toProcess, a.answers, a.received);
      if k < |e.toProcess| && Overturns(e.table[e.toProcess[k]], a.received) then {e.toProcess[k]} else {}
  }

  predicate Overturns(m: Message, received: Memory) { Overrun(m) && Overrides(m.kind.opcode, received) }

  predicate Queued(s: State, id: Id) { id in s.toSend || id in s.toProcess }

  // ---- One step at a time ---------------------------------------------------

  lemma {:induction false} CreateKeeps(s: State, id: Id, m: Message)
    requires Inv(s) && Allowed(s, Create(id, m))
    ensures Inv(CreateStep(s, id, m)) && SettledBut(s, CreateStep(s, id, m), {})
  {
    hide Address;
    var t := CreateStep(s, id, m);
    assert forall i :: 0 <= i < |s.toSend| ==> s.toSend[i] != id && t.toSend[i] == s.toSend[i];
    assert forall i :: 0 <= i < |s.toProcess| ==> s.toProcess[i] != id;
  }

  lemma {:induction false} InstallKeeps(s: State, id: Id, kind: Kind, data: seq<byte>)
    requires Inv(s) && Allowed(s, Install(id, kind, data))
    ensures Inv(Do(s, Install(id, kind, data))) && SettledBut(s, Do(s, Install(id, kind, data)), {})
  {
    hide Address;
    assert forall i :: 0 <= i < |s.toSend| ==> s.toSend[i] != id;
    assert forall i :: 0 <= i < |s.toProcess| ==> s.toProcess[i] != id;
  }

  lemma {:induction false} PollKeeps(s: State, id: Id, now: nat)
    requires Inv(s) && Allowed(s, Poll(id, now))
    ensures Inv(Do(s, Poll(id, now))) && SettledBut(s, Do(s, Poll(id, now)), {})
  {
    hide Address;
  }

  lemma {:induction false} SendKeeps(s: State, now: nat)
    requires Inv(s) && Allowed(s, Send(now))
    ensures Inv(SendStep(s, now)) && SettledBut(s, SendStep(s, now), {})
  {
    hide Address;
    var t, id := SendStep(s, now), s.toSend[0];
    assert forall i :: 0 <= i < |t.toSend| ==> t.toSend[i] == s.toSend[i + 1] != id;
    assert forall i :: 0 <= i < |s.toProcess| ==> t.toProcess[i] == s.toProcess[i] != id;
  }

  lemma {:induction false} AliveNoDup(t: map<Id, Message>, ids: seq<Id>)
    requires Known(t, ids) && NoDup(ids)
    ensures NoDup(Alive(t, ids))
    decreases |ids|
  {
    if ids != [] {
      var n := |ids| - 1;
      AliveNoDup(t, ids[..n]);
      AliveIff(t, ids[..n], ids[n]);
    }
  }

  predicate AllAlive(s: State)
    requires Known(s.table, s.toProcess)
  {
    forall i :: 0 <= i < |s.toProcess| ==> s.table[s.toProcess[i]].status != TIMEDOUT
  }

  lemma {:induction false} ExpiredKeeps(s: State, now: nat)
    requires Inv(s)
    ensures var e := Expired(s, now); Inv(e) && SettledBut(s, e, {}) && AllAlive(e)
  {
    hide Address, Alive;
    var e := Expired(s, now);
    AliveNoDup(e.table, s.toProcess);
    AliveKnown(e.table, s.toProcess);
    forall i, j | 0 <= i < |e.toSend| && 0 <= j < |e.toProcess| ensures e.toSend[i] != e.toProcess[j] {
      assert e.toProcess[j] in s.toProcess;
    }
    forall i | 0 <= i < |e.toSend| ensures e.table[e.toSend[i]] == s.table[s.toSend[i]] {
      assert s.toSend[i] !in s.toProcess;
    }
    forall i | 0 <= i < |e.toProcess| ensures Pending(e.table[e.toProcess[i]]) {
      var id := e.toProcess[i];
      assert id in s.toProcess && Pending(s.table[id]);
    }
  }

  lemma {:induction false} WithoutParts(ids: seq<Id>, k: nat)
    requires NoDup(ids) && k < |ids|
    ensures NoDup(Without(ids, k)) && ids[k] !in Without(ids, k)
    ensures forall id :: id in Without(ids, k) <==> id in ids && id != ids[k]
  {
    var w := Without(ids, k);
    forall i | 0 <= i < |w| ensures w[i] == ids[if i < k then i else i + 1] {
    }
    forall id | id in ids && id != ids[k] ensures id in w {
      var i :| 0 <= i < |ids| && ids[i] == id;
      assert w[if i < k then i else i - 1] == id;
    }
  }

  /** The statuses a pending message can be left with. */
  lemma {:induction false} ProcessSettles(m: Message, answer: Answer, received: Memory)
    requires Pending(m) && m.status != TIMEDOUT
    ensures var after := Process(m, answer, received).1.status;
            m.status != RUNNING ==> (after != m.status <==> Overturns(m, received))
  {
    hide Address, Step, Related, Fragment, Failure, Claims, Front;
    if Overrun(m) {
      TooSmallLeft(m.kind.opcode, m.kind.capacity, Query(m.status, m.client), received);
    }
  }

  /** What a message kept after a reply can be. */
  lemma {:induction false} ProcessPending(m: Message, answer: Answer, received: Memory)
    requires Pending(m) && m.status != TIMEDOUT && |m.data| >= 6
    ensures var (v, n) := Process(m, answer, received);
            && (v.FinalizeAndKeep? ==> Pending(n) && |n.data| >= 6)
            && (v.GoOn? ==> Waiting(n) && |n.data| >= 6)
            && (Overturns(m, received) ==> v.Finalize?)
  {
    hide Address, Related, Fragment, Failure, Front, Masked;
  }

  lemma {:induction false} DeliveredSettles(s: State, k: nat, answers: map<Id, Answer>, received: Memory)
    requires Inv(s) && AllAlive(s) && k < |s.toProcess|
    ensures var id := s.toProcess[k];
            SettledBut(s, Delivered(s, k, answers, received), if Overturns(s.table[id], received) then {id} else {})
  {
    var id := s.toProcess[k];
    assert Pending(s.table[id]) && s.table[id].status != TIMEDOUT;
    ProcessSettles(s.table[id], AnswerOf(answers, id), received);
    hide Process, Overturns, Pending, Without, Waiting;
  }

  lemma {:induction false} DeliveredKeeps(s: State, k: nat, answers: map<Id, Answer>, received: Memory)
    requires Inv(s) && AllAlive(s) && k < |s.toProcess|
    ensures Inv(Delivered(s, k, answers, received))
  {
    var t, id := Delivered(s, k, answers, received), s.toProcess[k];
    WithoutParts(s.toProcess, k);
    assert id !in s.toSend;
    assert Pending(s.table[id]) && s.table[id].status != TIMEDOUT;
    ProcessPending(s.table[id], AnswerOf(answers, id), received);
    CountedWaiting(Process(s.table[id], AnswerOf(answers, id), received).1, NextCounter(s.counter));
    hide Process, Without, Pending, Waiting, WithCounter;
    forall i | 0 <= i < |t.toProcess| ensures t.toProcess[i] in s.toProcess && Pending(t.table[t.toProcess[i]]) {
      var x := t.toProcess[i];
      assert x in s.toProcess && Pending(s.table[x]);
    }
  }

  lemma {:induction false} CountedWaiting(m: Message, c: nat)
    ensures |m.data| >= 6 && Waiting(m) ==> Waiting(WithCounter(m, c))
  {
    hide Address;
  }

  lemma {:induction false} ReceiveKeeps(s: State, received: Memory, answers: map<Id, Answer>, now: nat)
    requires Inv(s)
    ensures var a := Receive(received, answers, now);
            Inv(Received(s, received, answers, now))
            && SettledBut(s, Received(s, received, answers, now), Overturned(s, a))
  {
    ExpiredKeeps(s, now);
    var e := Expired(s, now);
    assert Known(s.table, s.toProcess) && Sized(s.table) && Known(e.table, e.toProcess) && Sized(e.table);
    var k := Taker(e.table, e.toProcess, answers, received);
    hide Inv, AllAlive, Delivered, Expired, Taker, Overturns;
    if k < |e.toProcess| {
      DeliveredKeeps(e, k, answers, received);
      DeliveredSettles(e, k, answers, received);
    }
  }

  lemma {:induction false} StepKeeps(s: State, a: Action)
    requires Inv(s) && Allowed(s, a)
    ensures Inv(Do(s, a)) && SettledBut(s, Do(s, a), Overturned(s, a))
  {
    hide Inv, SettledBut, CreateStep, SendStep, Received;
    match a
    case Create(id, m) => CreateKeeps(s, id, m);
    case Install(id, kind, data) => InstallKeeps(s, id, kind, data);
    case Poll(id, now) => PollKeeps(s, id, now);
    case Send(now) => SendKeeps(s, now);
    case Receive(received, answers, now) => ReceiveKeeps(s, received, answers, now);
  }

  /** A step leaves the status of a settled message if and only if it overturns it, and then the
      message was kept with a too small buffer and now leaves the queues. */
  lemma {:induction false} OverturnedExact(s: State, a: Action, id: Id)
    requires Inv(s) && Allowed(s, a) && id in s.table && s.table[id].status != RUNNING
    ensures id in Do(s, a).table
    ensures Do(s, a).table[id].status != s.table[id].status <==> id in Overturned(s, a)
    ensures id in Overturned(s, a) ==> id in s.toProcess && Overrun(s.table[id]) && !Queued(Do(s, a), id)
  {
    StepKeeps(s, a);
    if id in Overturned(s, a) {
      ExpiredKeeps(s, a.now);
      OverturnedEnds(s, a.received, a.answers, a.now, id);
    }
  }

  lemma {:induction false} OverturnedEnds(s: State, received: Memory, answers: map<Id, Answer>, now: nat, id: Id)
    requires Inv(s) && id in Overturned(s, Receive(received, answers, now))
    ensures var t := Received(s, received, answers, now);
            && id in s.toProcess && Overrun(s.table[id]) && id in t.table && t.table[id].status != BUFFER_TOO_SMALL
            && !Queued(t, id)
  {
    ExpiredKeeps(s, now);
    var e := Expired(s, now);
    var k := Taker(e.table, e.toProcess, answers, received);
    assert e.toProcess[k] == id;
    AliveIff(e.table, s.toProcess, id);
    WithoutParts(e.toProcess, k);
    assert Pending(e.table[id]) && e.table[id].status != TIMEDOUT && id !in e.toSend;
    ProcessSettles(e.table[id], AnswerOf(answers, id), received);
    ProcessPending(e.table[id], AnswerOf(answers, id), received);
    hide Process, Without, Taker, Overrides, Alive;
  }

  /** A message out of the queues stays out, and changes at most from running to timed out. */
  lemma {:induction false} StaysOut(s: State, a: Action, id: Id)
    requires Inv(s) && Allowed(s, a) && id in s.table && !Queued(s, id)
    ensures !Queued(Do(s, a), id) && id in Do(s, a).table
    ensures Do(s, a).table[id].status == s.table[id].status
            || (s.table[id].status == RUNNING && Do(s, a).table[id].status == TIMEDOUT)
    ensures id !in Overturned(s, a)
  {
    match a
    case Create(x, m) =>
    case Install(x, kind, data) =>
    case Poll(x, now) =>
    case Send(now) =>
    case Receive(received, answers, now) => OutAtReceive(s, received, answers, now, id);
  }

  lemma {:induction false} OutAtReceive(s: State, received: Memory, answers: map<Id, Answer>, now: nat, id: Id)
    requires Inv(s) && id in s.table && !Queued(s, id)
    ensures var t := Received(s, received, answers, now);
            !Queued(t, id) && id in t.table && t.table[id].status == s.table[id].status
    ensures id !in Overturned(s, Receive(received, answers, now))
  {
    ExpiredKeeps(s, now);
    var e := Expired(s, now);
    AliveIff(e.table, s.toProcess, id);
    var k := Taker(e.table, e.toProcess, answers, received);
    if k < |e.toProcess| { WithoutParts(e.toProcess, k); }
    hide Process, Without, Taker, Overturns, Alive;
  }

  // ---- How messages leave ---------------------------------------------------

  /** The reply was handed to `id`, which finished on it. */
  ghost predicate Finished(s: State, a: Action, id: Id)
    requires Known(s.table, s.toProcess) && a.Receive?
  {
    var e := Expired(s, a.now);
    var k := Taker(e.table, e.toProcess, a.answers, a.received);
    k < |e.toProcess| && e.toProcess[k] == id && VerdictOf(e.table, id, a.answers, a.received).Finalize?
  }

  /** A message leaves the queues only by timing out or by finishing on a reply. */
  lemma {:induction false} LeavesSettled(s: State, a: Action, id: Id)
    requires Inv(s) && Allowed(s, a) && Queued(s, id)
    ensures id in Do(s, a).table
    ensures Queued(Do(s, a), id) || Do(s, a).table[id].status == TIMEDOUT || (a.Receive? && Finished(s, a, id))
  {
    match a
    case Create(x, m) => assert (s.toSend + [x])[..|s.toSend|] == s.toSend;
    case Install(x, kind, data) => assert (s.toProcess + [x])[..|s.toProcess|] == s.toProcess;
    case Poll(x, now) =>
    case Send(now) => LeavesAtSend(s, now, id);
    case Receive(received, answers, now) => LeavesAtReceive(s, received, answers, now, id);
  }

  lemma {:induction false} LeavesAtSend(s: State, now: nat, id: Id)
    requires Inv(s) && Allowed(s, Send(now)) && Queued(s, id)
    ensures var t := SendStep(s, now);
            id in t.table && (Queued(t, id) || t.table[id].status == TIMEDOUT)
  {
    hide Address;
    var t := SendStep(s, now);
    assert s.toSend == [s.toSend[0]] + t.toSend;
    assert t.toProcess[..|s.toProcess|] == s.toProcess;
    if t.table[s.toSend[0]].status == RUNNING {
      assert t.toProcess[|s.toProcess|] == s.toSend[0];
    }
  }

  lemma {:induction false} LeavesAtReceive(s: State, received: Memory, answers: map<Id, Answer>, now: nat, id: Id)
    requires Inv(s) && Queued(s, id)
    ensures var t := Received(s, received, answers, now);
            && id in t.table
            && (Queued(t, id) || t.table[id].status == TIMEDOUT || Finished(s, Receive(received, answers, now), id))
  {
    ExpiredKeeps(s, now);
    ReceiveKeeps(s, received, answers, now);
    var e, t := Expired(s, now), Received(s, received, answers, now);
    AliveIff(e.table, s.toProcess, id);
    if Queued(e, id) {
      assert NoDup(e.toProcess) && AllAlive(e);
      LeavesAtDelivery(e, received, answers, id);
    } else {
      assert e.table[id].status == TIMEDOUT;
      SettledAfter(e, received, answers, id);
    }
  }

  lemma {:induction false} SettledAfter(e: State, received: Memory, answers: map<Id, Answer>, id: Id)
    requires Known(e.table, e.toProcess) && Sized(e.table) && id in e.table && id !in e.toProcess
    ensures var k := Taker(e.table, e.toProcess, answers, received);
            k < |e.toProcess| ==>
              var t := Delivered(e, k, answers, received); id in t.table && t.table[id] == e.table[id]
  {
  }

  lemma {:induction false} LeavesAtDelivery(e: State, received: Memory, answers: map<Id, Answer>, id: Id)
    requires Inv(e)
    ensures var k := Taker(e.table, e.toProcess, answers, received);
            k < |e.toProcess| && Queued(e, id) && !Queued(Delivered(e, k, answers, received), id) ==>
              e.toProcess[k] == id && VerdictOf(e.table, id, answers, received).Finalize?
  {
    var k := Taker(e.table, e.toProcess, answers, received);
    if k < |e.toProcess| {
      WithoutParts(e.toProcess, k);
      hide Without, Address;
      var t := Delivered(e, k, answers, received);
      assert id in e.toSend ==> id in e.toSend + [e.toProcess[k]];
    }
  }

  // ---- Whole runs -----------------------------------------------------------

  ghost function Next(w: World, a: Action): World
    requires Allowed(w.state, a)
  {
    var t := Do(w.state, a);
    World(t, if t.counter == w.state.counter then w.given else w.given + [t.counter])
  }

  ghost predicate Trace(ws: seq<World>, actions: seq<Action>) {
    && |ws| == |actions| + 1 && ws[0] == START
    && forall i :: 0 <= i < |actions| ==> Allowed(ws[i].state, actions[i]) && ws[i + 1] == Next(ws[i], actions[i])
  }

  /** The counters given out are 1, 2, … 7, 1, 2, … */
  predicate Cycles(w: World) {
    && (forall i :: 0 <= i < |w.given| ==> w.given[i] == 1 + i % 7)
    && w.state.counter == if w.given == [] then 0 else w.given[|w.given| - 1]
  }

  lemma {:induction false} CyclesNext(w: World, a: Action)
    requires Allowed(w.state, a) && Cycles(w)
    ensures Cycles(Next(w, a))
  {
    CounterMoves(w.state, a);
    hide Do, Allowed, NextCounter, Cycles;
    OneMore(w, Do(w.state, a));
  }

  lemma {:induction false} OneMore(w: World, t: State)
    requires Cycles(w) && t.counter in {w.state.counter, NextCounter(w.state.counter)}
    ensures Cycles(World(t, if t.counter == w.state.counter then w.given else w.given + [t.counter]))
  {
    hide NextCounter;
    var n := |w.given|;
    if n == 0 {
      FirstCounter();
    } else {
      ModStep(n - 1);
    }
  }

  lemma {:induction false} FirstCounter()
    ensures NextCounter(0) == 1
  {
  }

  lemma {:induction false} ModStep(i: nat)
    ensures NextCounter(1 + i % 7) == 1 + (i + 1) % 7
  {
  }

  lemma {:induction false} CounterMoves(s: State, a: Action)
    requires Allowed(s, a)
    ensures Do(s, a).counter == s.counter || Do(s, a).counter == NextCounter(s.counter)
  {
  }

  lemma {:induction false} TraceStep(ws: seq<World>, actions: seq<Action>, i: nat)
    requires Trace(ws, actions) && i < |actions|
    ensures |ws| == |actions| + 1 && Allowed(ws[i].state, actions[i])
    ensures ws[i + 1].state == Do(ws[i].state, actions[i]) && ws[i + 1] == Next(ws[i], actions[i])
  {
  }

  lemma {:induction false} TraceLength(ws: seq<World>, actions: seq<Action>)
    requires Trace(ws, actions)
    ensures |ws| == |actions| + 1
  {
  }

  lemma {:induction false} StartGood(ws: seq<World>, actions: seq<Action>)
    requires Trace(ws, actions)
    ensures |ws| > 0 && Inv(ws[0].state) && Cycles(ws[0])
  {
  }

  lemma {:induction false} InvAlways(ws: seq<World>, actions: seq<Action>, i: nat)
    requires Trace(ws, actions) && i < |ws|
    ensures Inv(ws[i].state) && Cycles(ws[i])
    decreases i
  {
    hide *;
    if i == 0 {
      StartGood(ws, actions);
    } else {
      TraceLength(ws, actions);
      InvAlways(ws, actions, i - 1);
      TraceStep(ws, actions, i - 1);
      StepKeeps(ws[i - 1].state, actions[i - 1]);
      CyclesNext(ws[i - 1], actions[i - 1]);
    }
  }

  /** Whether a step from `i` up to `j` overturns the status of `id`. */
  ghost predicate OverturnedIn(ws: seq<World>, actions: seq<Action>, i: nat, j: nat, id: Id)
    requires Trace(ws, actions) && j < |ws|
  {
    exists n :: i <= n < j && OverturnedAt(ws, actions, n, id)
  }

  ghost predicate OverturnedAt(ws: seq<World>, actions: seq<Action>, n: nat, id: Id)
    requires Trace(ws, actions) && n < |actions|
  {
    id in Overturned(ws[n].state, actions[n])
  }

  /** How a message settled at `i` stands at `j`. */
  ghost predicate StandsAt(ws: seq<World>, actions: seq<Action>, i: nat, j: nat, id: Id)
    requires Trace(ws, actions) && i <= j < |ws| && id in ws[i].state.table
  {
    var before, after := ws[i].state, ws[j].state;
    && id in after.table && after.table[id].kind == before.table[id].kind
    && (before.table[id].status != RUNNING ==>
          if OverturnedIn(ws, actions, i, j, id) then
            Overrun(before.table[id]) && after.table[id].status != BUFFER_TOO_SMALL && !Queued(after, id)
          else after.table[id].status == before.table[id].status)
  }

  lemma {:induction false} StandsSelf(ws: seq<World>, actions: seq<Action>, i: nat, id: Id)
    requires Trace(ws, actions) && i < |ws| && id in ws[i].state.table
    ensures StandsAt(ws, actions, i, i, id)
  {
  }

  lemma {:induction false} OverturnedMore(ws: seq<World>, actions: seq<Action>, i: nat, j: nat, id: Id)
    requires Trace(ws, actions) && i <= j < |actions|
    ensures OverturnedIn(ws, actions, i, j + 1, id)
            <==> OverturnedIn(ws, actions, i, j, id) || id in Overturned(ws[j].state, actions[j])
  {
    assert OverturnedAt(ws, actions, j, id) <==> id in Overturned(ws[j].state, actions[j]);
  }

  lemma {:induction false} StandsStep(ws: seq<World>, actions: seq<Action>, i: nat, j: nat, id: Id)
    requires Trace(ws, actions) && i <= j < |actions| && id in ws[i].state.table
    requires StandsAt(ws, actions, i, j, id) && Inv(ws[j].state)
    ensures StandsAt(ws, actions, i, j + 1, id)
  {
    TraceStep(ws, actions, j);
    OverturnedMore(ws, actions, i, j, id);
    var s, a := ws[j].state, actions[j];
    StepKeeps(s, a);
    hide Trace, Inv, Allowed, Do, Overturned, OverturnedIn;
    if s.table[id].status != RUNNING { OverturnedExact(s, a, id); }
    if !Queued(s, id) { StaysOut(s, a, id); }
  }

  lemma {:induction false} StandsAlways(ws: seq<World>, actions: seq<Action>, i: nat, j: nat, id: Id)
    requires Trace(ws, actions) && i <= j < |ws| && id in ws[i].state.table
    ensures StandsAt(ws, actions, i, j, id)
    decreases j
  {
    hide *;
    if i == j {
      StandsSelf(ws, actions, i, id);
    } else {
      TraceLength(ws, actions);
      StandsAlways(ws, actions, i, j - 1, id);
      InvAlways(ws, actions, j - 1);
      StandsStep(ws, actions, i, j - 1, id);
    }
  }

  /** Over every run a message is never forgotten and keeps its kind; and once settled it keeps its
      status if and only if no reply in between overturns it. */
  lemma {:induction false} SettledAlways(ws: seq<World>, actions: seq<Action>, i: nat, j: nat, id: Id)
    requires Trace(ws, actions) && i <= j < |ws| && id in ws[i].state.table
    ensures var s, t := ws[i].state, ws[j].state;
            && id in t.table && t.table[id].kind == s.table[id].kind
            && (s.table[id].status != RUNNING ==>
                  (t.table[id].status == s.table[id].status <==> !OverturnedIn(ws, actions, i, j, id)))
  {
    StandsAlways(ws, actions, i, j, id);
    hide OverturnedIn, Trace;
  }

  /** Past its deadline a message stays in the list if and only if it is an information request
      whose buffer was too small. */
  lemma {:induction false} OutlivesDeadline(s: State, now: nat, id: Id)
    requires Inv(s) && id in s.toProcess && 0 < s.table[id].deadline < now
    ensures id in Expired(s, now).toProcess <==> Overrun(s.table[id])
  {
    assert Pending(s.table[id]);
    AliveIff(Expired(s, now).table, s.toProcess, id);
  }

  /** Over every run: a message is in at most one queue and once; it leaves only by timing out or
      finishing on a reply; it is never forgotten, keeps its kind and, once settled, keeps its
      status if and only if no reply overturns it; and the counters cycle. */
  lemma {:induction false} EveryRun(ws: seq<World>, actions: seq<Action>, i: nat, id: Id)
    requires Trace(ws, actions) && i < |actions|
    ensures var s, t, u := ws[i].state, ws[i + 1].state, ws[|actions|].state;
            && NoDup(s.toSend) && NoDup(s.toProcess) && Apart(s.toSend, s.toProcess)
            && (id in s.table ==>
                  && id in u.table && u.table[id].kind == s.table[id].kind
                  && (s.table[id].status != RUNNING ==>
                        (u.table[id].status == s.table[id].status <==> !OverturnedIn(ws, actions, i, |actions|, id))))
            && (Queued(s, id) && !Queued(t, id) ==>
                  && Known(s.table, s.toProcess) && id in t.table
                  && (t.table[id].status == TIMEDOUT || (actions[i].Receive? && Finished(s, actions[i], id))))
            && forall n :: 0 <= n < |ws[i].given| ==> ws[i].given[n] == 1 + n % 7
  {
    InvAlways(ws, actions, i);
    TraceStep(ws, actions, i);
    hide Do, Allowed, Trace, Finished, OverturnedIn;
    if id in ws[i].state.table {
      SettledAlways(ws, actions, i, |actions|, id);
    }
    if Queued(ws[i].state, id) {
      LeavesSettled(ws[i].state, actions[i], id);
    }
  }

  // ---- A run that overturns a status ------------------------------------------

  /** One information request waiting for its reply, and nothing else. */
  ghost predicate Alone(s: State, id: Id, m: Message) {
    s.toSend == [] && s.toProcess == [id] && s.table == map[id := m] && |m.data| >= 6 && m.kind.Information?
  }

  lemma {:induction false} AloneExpired(s: State, id: Id, m: Message, now: nat)
    requires Alone(s, id, m) && m.status in {RUNNING, BUFFER_TOO_SMALL} && (m.status == RUNNING ==> now <= m.deadline)
    ensures Known(s.table, s.toProcess) && Sized(s.table) && Expired(s, now) == s
  {
    assert s.table[id] == m && AgedTable(s.table, s.toProcess, now) == s.table;
    assert [id][..0] == [];
    assert Alive(s.table, [id]) == [id];
  }

  lemma {:induction false} AloneTaker(s: State, id: Id, m: Message, received: Memory)
    requires Alone(s, id, m) && Related(received)
    ensures Known(s.table, s.toProcess) && Taker(s.table, s.toProcess, map[], received) == 0
    ensures Process(s.table[id], AnswerOf(map[], id), received) == Informed(m, received)
  {
    hide Step, Related, Fragment;
    assert s.table[id] == m;
    assert !VerdictOf(s.table, id, map[], received).Noop?;
  }

  lemma {:induction false} AloneTakes(s: State, id: Id, m: Message, received: Memory, now: nat)
    requires Alone(s, id, m) && m.status in {RUNNING, BUFFER_TOO_SMALL} && Related(received)
    requires m.status == RUNNING ==> now <= m.deadline
    ensures Allowed(s, Receive(received, map[], now))
    ensures var t, (v, n) := Received(s, received, map[], now), Informed(m, received);
            t.table == map[id := n] && (v.FinalizeAndKeep? ==> Alone(t, id, n))
    ensures Overturned(s, Receive(received, map[], now)) == if Overturns(m, received) then {id} else {}
  {
    AloneExpired(s, id, m, now);
    AloneTaker(s, id, m, received);
    InformedShape(m, received);
    hide Informed, Process, Taker, Expired, Related, Overturns, Without;
    assert s.table[id] == m;
    assert s.table[id := Informed(m, received).1] == map[id := Informed(m, received).1];
  }

  lemma {:induction false} InformedShape(m: Message, received: Memory)
    requires m.kind.Information? && Related(received)
    ensures var (v, n) := Informed(m, received);
            n.kind == m.kind && n.data == m.data && (v.Finalize? || v.FinalizeAndKeep?)
  {
  }

  /** A request created and sent. */
  lemma {:induction false} AloneStarts(id: Id, m: Message) returns (w1: World, w2: World)
    requires m.kind.Information? && m.status == RUNNING && |m.data| >= 6
    ensures Allowed(START.state, Create(id, m)) && w1 == Next(START, Create(id, m))
    ensures Allowed(w1.state, Send(0)) && w2 == Next(w1, Send(0)) && Alone(w2.state, id, WithCounter(m, 1))
  {
    hide WithCounter;
    w1 := Next(START, Create(id, m));
    assert w1.state.toSend == [id] && w1.state.table == map[id := WithCounter(m, 1)];
    w2 := Next(w1, Send(0));
  }

  /** A request is created, sent, told a fragment too large for its buffer with more to come, and
      then an error, at any time later: first its status is a too small buffer, then the error. */
  lemma {:induction false} ErrorOverturns(id: Id, m: Message, fragment: Memory, error: Memory, now: nat)
    returns (ws: seq<World>)
    requires m.kind.Information? && m.status == RUNNING && |m.data| >= 6 && m.client == NewClient(m.kind)
    requires Fragment(m.kind.opcode, fragment) && FragmentsLeft(fragment) > 0
    requires |Payload(fragment)| > m.kind.capacity && Overrides(m.kind.opcode, error)
    ensures var actions := [Create(id, m), Send(0), Receive(fragment, map[], 0), Receive(error, map[], now)];
            && Trace(ws, actions) && id in ws[3].state.toProcess && id in ws[3].state.table && id in ws[4].state.table
            && ws[3].state.table[id].status == BUFFER_TOO_SMALL
            && ws[4].state.table[id].status == Failure(m.kind.opcode, error)
            && OverturnedIn(ws, actions, 3, 4, id)
  {
    hide *;
    var c, first, second := WithCounter(m, 1), Receive(fragment, map[], 0), Receive(error, map[], now);
    var w1, w2 := AloneStarts(id, m);
    FreshClient(m);
    var n := TooLarge(c, fragment);
    EndsWith(n, error);
    var w3 := AloneNext(w2, id, c, fragment, 0);
    var w4 := AloneNext(w3, id, n, error, now);
    ws := [START, w1, w2, w3, w4];
    FourSteps(ws, [Create(id, m), Send(0), first, second]);
    AloneHas(w3.state, id, n);
    assert w4.state.table[id] == Informed(n, error).1;
    OverturnedLast(ws, [Create(id, m), Send(0), first, second], id);
  }

  lemma {:induction false} FreshClient(m: Message)
    requires m.kind.Information? && |m.data| >= 6 && m.client == NewClient(m.kind)
    ensures WithCounter(m, 1).client.total == 0
  {
  }

  lemma {:induction false} AloneHas(s: State, id: Id, m: Message)
    requires Alone(s, id, m)
    ensures id in s.toProcess && id in s.table && s.table[id] == m
  {
  }

  lemma {:induction false} AloneNext(w: World, id: Id, m: Message, received: Memory, now: nat) returns (u: World)
    requires Alone(w.state, id, m) && m.status in {RUNNING, BUFFER_TOO_SMALL} && Related(received)
    requires m.status == RUNNING ==> now <= m.deadline
    ensures var a, (v, n) := Receive(received, map[], now), Informed(m, received);
            && Allowed(w.state, a) && u == Next(w, a) && u.state.table == map[id := n]
            && (v.FinalizeAndKeep? ==> Alone(u.state, id, n))
            && Overturned(w.state, a) == if Overturns(m, received) then {id} else {}
  {
    AloneTakes(w.state, id, m, received, now);
    hide Allowed, Received, Overturned, Informed, Alone;
    u := Next(w, Receive(received, map[], now));
  }

  lemma {:induction false} FourSteps(ws: seq<World>, actions: seq<Action>)
    requires |ws| == 5 && |actions| == 4 && ws[0] == START
    requires Allowed(ws[0].state, actions[0]) && ws[1] == Next(ws[0], actions[0])
    requires Allowed(ws[1].state, actions[1]) && ws[2] == Next(ws[1], actions[1])
    requires Allowed(ws[2].state, actions[2]) && ws[3] == Next(ws[2], actions[2])
    requires Allowed(ws[3].state, actions[3]) && ws[4] == Next(ws[3], actions[3])
    ensures Trace(ws, actions)
  {
    hide Allowed, Next;
  }

  lemma {:induction false} OverturnedLast(ws: seq<World>, actions: seq<Action>, id: Id)
    requires Trace(ws, actions) && |actions| == 4 && id in Overturned(ws[3].state, actions[3])
    ensures OverturnedIn(ws, actions, 3, 4, id)
  {
    hide Overturned, Next;
    assert OverturnedAt(ws, actions, 3, id);
  }

  lemma {:induction false} TooLarge(m: Message, fragment: Memory) returns (n: Message)
    requires m.kind.Information? && m.status == RUNNING && m.client.total == 0 && Fragment(m.kind.opcode, fragment)
    requires FragmentsLeft(fragment) > 0 && |Payload(fragment)| > m.kind.capacity
    ensures Related(fragment) && Informed(m, fragment) == (FinalizeAndKeep, n) && n.kind == m.kind
    ensures n.status == BUFFER_TOO_SMALL != RUNNING && |n.data| == |m.data|
  {
    n := Informed(m, fragment).1;
  }

  lemma {:induction false} EndsWith(m: Message, error: Memory)
    requires m.kind.Information? && m.status == BUFFER_TOO_SMALL && Overrides(m.kind.opcode, error)
    ensures Related(error) && Overturns(m, error)
    ensures Informed(m, error) == (Finalize, m.(status := Failure(m.kind.opcode, error)))
  {
  }

  // ---- Replies --------------------------------------------------------------

  /** A reply changes at most the message that takes it; the others keep their order. */
  lemma {:induction false} OneTaker(s: State, received: Memory, answers: map<Id, Answer>, now: nat)
    requires Inv(s)
    ensures var e, t := Expired(s, now), Received(s, received, answers, now);
            var k := Taker(e.table, e.toProcess, answers, received);
            if k == |e.toProcess| then t == e
            else
              var id := e.toProcess[k];
              && (forall x :: x in e.table && x != id ==> x in t.table && t.table[x] == e.table[x])
              && t.toProcess in {e.toProcess, Without(e.toProcess, k)}
              && t.toSend in {e.toSend, e.toSend + [id]}
              && (id in t.toSend ==> t.toProcess == Without(e.toProcess, k) && id !in t.toProcess)
  {
    ExpiredKeeps(s, now);
    var e := Expired(s, now);
    var k := Taker(e.table, e.toProcess, answers, received);
    if k < |e.toProcess| {
      WithoutParts(e.toProcess, k);
      assert e.toProcess[k] !in e.toSend;
      DeliveredOne(e, k, answers, received);
      hide Without, Delivered, Taker, Expired, Inv, SettledBut, AllAlive;
    }
  }

  lemma {:induction false} DeliveredOne(e: State, k: nat, answers: map<Id, Answer>, received: Memory)
    requires Known(e.table, e.toProcess) && Sized(e.table) && k < |e.toProcess|
    ensures var t, id := Delivered(e, k, answers, received), e.toProcess[k];
            && (forall x :: x in e.table && x != id ==> x in t.table && t.table[x] == e.table[x])
            && ((t.toProcess == e.toProcess && t.toSend == e.toSend)
                || (t.toProcess == Without(e.toProcess, k) && t.toSend in {e.toSend, e.toSend + [id]}))
  {
    hide Without, Process, WithCounter;
  }

  /** No standing handler ahead of `k` takes the reply. */
  predicate Unclaimed(e: State, k: nat, head: seq<byte>)
    requires Known(e.table, e.toProcess) && k <= |e.toProcess| && |head| >= 9
  {
    forall i :: 0 <= i < k ==> !Claims(e.table[e.toProcess[i]].kind, head)
  }

  predicate GatewayAt(e: State, k: nat)
    requires Known(e.table, e.toProcess) && k < |e.toProcess|
  {
    e.table[e.toProcess[k]].kind.Gateway?
  }

  function IndexAt(e: State, k: nat): u16
    requires Known(e.table, e.toProcess) && k < |e.toProcess| && GatewayAt(e, k)
  {
    e.table[e.toProcess[k]].kind.index
  }

  /** Pending gateway indices are distinct and clear of the gateway bit. */
  predicate Indexed(e: State)
    requires Known(e.table, e.toProcess)
  {
    && (forall i :: 0 <= i < |e.toProcess| && GatewayAt(e, i) ==> IndexAt(e, i) < 0x8000)
    && (forall i, j :: 0 <= i < j < |e.toProcess| && GatewayAt(e, i) && GatewayAt(e, j) ==>
          IndexAt(e, i) != IndexAt(e, j))
  }

  /** The message at `k` is the one the gateway reply answers, and the reply fits. */
  predicate AnswersAt(e: State, k: nat, head: seq<byte>)
    requires Known(e.table, e.toProcess) && k < |e.toProcess| && |head| >= 9
  {
    && GatewayAt(e, k) && Address(head) == Masked(IndexAt(e, k))
    && Declared(head) <= |e.table[e.toProcess[k]].data|
  }

  /** What each pending message makes of a gateway reply. */
  lemma {:induction false} GatewayVerdict(e: State, i: nat, answers: map<Id, Answer>, received: Memory)
    requires Inv(e) && i < |e.toProcess| && ForGateway(Front(received, 9))
    ensures VerdictOf(e.table, e.toProcess[i], answers, received).Noop?
            <==> !Claims(e.table[e.toProcess[i]].kind, Front(received, 9)) && !AnswersAt(e, i, Front(received, 9))
  {
    assert Pending(e.table[e.toProcess[i]]);
    hide Address, Declared, TypeOf, ServiceOf, CommandOf, Masked;
  }

  lemma {:induction false} OneAnswers(e: State, i: nat, k: nat, head: seq<byte>)
    requires Known(e.table, e.toProcess) && Indexed(e) && i < k < |e.toProcess| && |head| >= 9 && AnswersAt(e, k, head)
    ensures !AnswersAt(e, i, head)
  {
  }

  /** A gateway reply that fits completes the message with its index if and only if no standing
      handler ahead of it takes replies of that type and service: the reply is then stored with
      the requested address back in place, and no other message changes. */
  lemma {:induction false} GatewayCompletes(e: State, k: nat, answers: map<Id, Answer>, received: Memory)
    requires Inv(e) && Indexed(e) && k < |e.toProcess|
    requires ForGateway(Front(received, 9)) && AnswersAt(e, k, Front(received, 9))
    ensures Taker(e.table, e.toProcess, answers, received) == k <==> Unclaimed(e, k, Front(received, 9))
    ensures Unclaimed(e, k, Front(received, 9)) ==>
              var id, head := e.toProcess[k], Front(received, 9);
              var t, m := Delivered(e, k, answers, received), e.table[id];
              && t.toSend == e.toSend && t.toProcess == Without(e.toProcess, k) && t.counter == e.counter
              && t.table.Keys == e.table.Keys && (forall x :: x in e.table && x != id ==> t.table[x] == e.table[x])
              && t.table[id].status == SUCCESS
              && t.table[id].data == WithAddress(Front(received, Declared(head)), m.kind.address)
  {
    GatewayTaker(e, k, answers, received);
    assert Pending(e.table[e.toProcess[k]]);
  }

  lemma {:induction false} GatewayTaker(e: State, k: nat, answers: map<Id, Answer>, received: Memory)
    requires Inv(e) && Indexed(e) && k < |e.toProcess|
    requires ForGateway(Front(received, 9)) && AnswersAt(e, k, Front(received, 9))
    ensures Taker(e.table, e.toProcess, answers, received) == k <==> Unclaimed(e, k, Front(received, 9))
  {
    var head := Front(received, 9);
    forall i | 0 <= i <= k
      ensures VerdictOf(e.table, e.toProcess[i], answers, received).Noop?
              <==> i < k && !Claims(e.table[e.toProcess[i]].kind, head)
    {
      GatewayVerdict(e, i, answers, received);
      if i < k { OneAnswers(e, i, k, head); }
    }
  }

  /** A gateway reply is taken by none if and only if no standing handler takes its type and service
      and no pending gateway message with its index has room for it. */
  lemma {:induction false} GatewayIgnored(e: State, answers: map<Id, Answer>, received: Memory)
    requires Inv(e) && ForGateway(Front(received, 9))
    ensures Taker(e.table, e.toProcess, answers, received) == |e.toProcess|
            <==> Unclaimed(e, |e.toProcess|, Front(received, 9))
                 && forall i :: 0 <= i < |e.toProcess| ==> !AnswersAt(e, i, Front(received, 9))
  {
    forall i | 0 <= i < |e.toProcess|
      ensures VerdictOf(e.table, e.toProcess[i], answers, received).Noop?
              <==> !Claims(e.table[e.toProcess[i]].kind, Front(received, 9)) && !AnswersAt(e, i, Front(received, 9))
    {
      GatewayVerdict(e, i, answers, received);
    }
  }

  /** With the handlers of `Bus::init` in front, exactly the gateway replies that are errors, or
      CoE but neither emergencies nor SDO requests other than aborts, reach their message. */
  lemma {:induction false} GatewayBehindHandlers(e: State, k: nat, answers: map<Id, Answer>, received: Memory)
    requires Inv(e) && Indexed(e) && 2 <= k < |e.toProcess|
    requires e.table[e.toProcess[0]].kind == Emergency && e.table[e.toProcess[1]].kind == Check
    requires forall i :: 2 <= i < k ==> !Standing(e.table[e.toProcess[i]].kind)
    requires ForGateway(Front(received, 9)) && AnswersAt(e, k, Front(received, 9))
    ensures var head := Front(received, 9);
            Taker(e.table, e.toProcess, answers, received) == k
            <==> TypeOf(head) == ERR
                 || (TypeOf(head) == COE && ServiceOf(head) != EMERGENCY
                     && (ServiceOf(head) == SDO_REQUEST ==> CommandOf(head) == ABORT))
  {
    GatewayCompletes(e, k, answers, received);
    assert Unclaimed(e, k, Front(received, 9))
      <==> !Claims(Emergency, Front(received, 9)) && !Claims(Check, Front(received, 9)) by {
      assert forall i :: 2 <= i < k ==> !Claims(e.table[e.toProcess[i]].kind, Front(received, 9));
    }
  }

  /** A reply to a gateway request that is neither CoE nor an error is lost to a check handler
      ahead of the request: the request stays as it was, to time out. */
  lemma {:induction false} GatewayReplyLost(e: State, c: nat, k: nat, answers: map<Id, Answer>, received: Memory)
    requires Inv(e) && Indexed(e) && c < k < |e.toProcess| && e.table[e.toProcess[c]].kind == Check
    requires ForGateway(Front(received, 9)) && AnswersAt(e, k, Front(received, 9))
    requires TypeOf(Front(received, 9)) !in {COE, ERR}
    ensures var i := Taker(e.table, e.toProcess, answers, received);
            i < k && var t := Delivered(e, i, answers, received);
                     t.toProcess == e.toProcess && t.table[e.toProcess[k]] == e.table[e.toProcess[k]]
  {
    var i := Taker(e.table, e.toProcess, answers, received);
    GatewayTaker(e, k, answers, received);
    GatewayVerdict(e, c, answers, received);
    assert Claims(e.table[e.toProcess[c]].kind, Front(received, 9));
    assert i <= c;
    GatewayVerdict(e, i, answers, received);
    OneAnswers(e, i, k, Front(received, 9));
    assert Claims(e.table[e.toProcess[i]].kind, Front(received, 9));
  }
}
