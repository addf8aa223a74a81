/** The master's mailbox (`request::Mailbox`, lib/src/Mailbox.cc): messages wait in one queue
    to be sent and in another for their answer. Messages are told apart by an identity, as
    shared pointers are; the table stands for the objects they point to. */
module RequestMailbox {
  import opened Bytes
  import opened MailboxFormat
  import opened SdoInformation

  type Id = nat

  /** What a message is: an SDO transfer, an information request with its opcode and the size of
      the client's buffer, one of the two handlers that stay, or a gateway message with the
      address it was asked for and its gateway index. */
  datatype Kind =
    | Transfer
    | Information(opcode: nat, capacity: nat)
    | Emergency
    | Check
    | Gateway(address: u16, index: u16)

  predicate Standing(k: Kind) { k.Emergency? || k.Check? }

  /** `client` is what an information request has gathered so far; the others leave it alone. */
  datatype Message = Message(kind: Kind, status: u32, deadline: nat, data: seq<byte>, client: Client)

  function NewClient(kind: Kind): Client { Client([], 0, if kind.Information? then kind.capacity else 0) }

  datatype State = State(counter: nat, toSend: seq<Id>, toProcess: seq<Id>, table: map<Id, Message>)

  // ---- Messages -------------------------------------------------------------

  /** `setCounter`: three bits of the last header byte. */
  function WithCounter(m: Message, counter: nat): (r: Message)
    requires |m.data| >= 6
    ensures r.kind == m.kind && r.status == m.status && r.deadline == m.deadline && r.client == m.client
    ensures |r.data| == |m.data| && Address(r.data) == Address(m.data)
    ensures r.data[5] / 16 % 8 == counter % 8
  {
    m.(data := m.data[5 := m.data[5] % 16 + counter % 8 * 16 + m.data[5] / 128 * 128])
  }

  /** `status`: a running message past its deadline has timed out. */
  function Aged(m: Message, now: nat): Message {
    if m.status == RUNNING && m.deadline != 0 && now > m.deadline then m.(status := TIMEDOUT) else m
  }

  /** How an SDO transfer answers a reply that may be for it, which this model leaves open. */
  datatype Answer = Ignore | Continue | Finish(status: u32)

  /** The replies a standing handler takes: CoE emergencies; whatever is neither CoE nor an
      error, and SDO requests that abort nothing. Neither looks at the address. */
  predicate Claims(kind: Kind, head: seq<byte>)
    requires |head| >= 9
  {
    match kind
    case Emergency => TypeOf(head) == COE && ServiceOf(head) == EMERGENCY
    case Check =>
      if TypeOf(head) == COE then ServiceOf(head) == SDO_REQUEST && CommandOf(head) != ABORT else TypeOf(head) != ERR
    case _ => false
  }

  /** `GatewayMessage::process`: the reply to this request, if it fits. */
  predicate Mine(m: Message, head: seq<byte>)
    requires |head| >= 6
  {
    |m.data| >= 6 && Address(head) == Address(m.data) && Declared(head) <= |m.data|
  }

  /** An information request takes the reply. */
  function Informed(m: Message, received: Memory): (r: (Verdict, Message))
    requires m.kind.Information?
  {
    var (v, q) := Step(m.kind.opcode, m.kind.capacity, Query(m.status, m.client), received);
    (v, m.(status := q.status, client := q.client))
  }

  /** `process`: the verdict and the message afterwards. */
  function Process(m: Message, answer: Answer, received: Memory): (r: (Verdict, Message))
    ensures r.1.kind == m.kind && r.1.deadline == m.deadline
    ensures |m.data| >= 6 ==> |r.1.data| >= 6
    ensures r.0.Noop? ==> r.1 == m
    ensures r.0.GoOn? ==> m.kind.Transfer? && r.1.status == RUNNING
    ensures !m.kind.Information? ==> (r.0.FinalizeAndKeep? <==> Claims(m.kind, Front(received, 9)))
    ensures r.0.FinalizeAndKeep? && !m.kind.Information? ==> r.1.status == m.status || r.1.status == SUCCESS
    ensures r.0.FinalizeAndKeep? && m.kind.Information? ==> r.1.status in {m.status, BUFFER_TOO_SMALL}
    ensures (m.kind.Transfer? || m.kind.Information?) && ForGateway(Front(received, 9)) ==> r.0.Noop?
  {
    var head := Front(received, 9);
    match m.kind
    case Gateway(address, _) =>
      if Mine(m, head) then
        (Finalize, m.(data := WithAddress(Front(received, Declared(head)), address), status := SUCCESS))
      else (Noop, m)
    case Emergency => if Claims(Emergency, head) then (FinalizeAndKeep, m) else (Noop, m)
    case Check => if Claims(Check, head) then (FinalizeAndKeep, m.(status := SUCCESS)) else (Noop, m)
    case Information(_, _) => Informed(m, received)
    case Transfer =>
      if ForGateway(head) then (Noop, m)
      else
        match answer
        case Continue => (GoOn, m.(status := RUNNING))
        case Finish(status) => (Finalize, m.(status := status))
        case Ignore => (Noop, m)
  }

  // ---- The queues as values -------------------------------------------------

  function NextCounter(counter: nat): nat { if counter + 1 > 7 then 1 else counter + 1 }

  predicate Known(table: map<Id, Message>, ids: seq<Id>) {
    forall i :: 0 <= i < |ids| ==> ids[i] in table
  }

  function AgedTable(table: map<Id, Message>, ids: seq<Id>, now: nat): map<Id, Message> {
    map id | id in table :: if id in ids then Aged(table[id], now) else table[id]
  }

  /** The messages of `ids` that have not timed out, in order. */
  function Alive(table: map<Id, Message>, ids: seq<Id>): seq<Id>
    requires Known(table, ids)
    decreases |ids|
  {
    if ids == [] then []
    else
      var before, id := Alive(table, ids[..|ids| - 1]), ids[|ids| - 1];
      if table[id].status == TIMEDOUT then before else before + [id]
  }

  function AnswerOf(answers: map<Id, Answer>, id: Id): Answer {
    if id in answers then answers[id] else Ignore
  }

  function VerdictOf(table: map<Id, Message>, id: Id, answers: map<Id, Answer>, received: Memory): Verdict
    requires id in table
  {
    Process(table[id], AnswerOf(answers, id), received).0
  }

  /** The position of the first message that takes the reply, or the length. */
  function Taker(table: map<Id, Message>, ids: seq<Id>, answers: map<Id, Answer>, received: Memory): (k: nat)
    requires Known(table, ids)
    ensures k <= |ids|
    ensures forall i :: 0 <= i < k ==> VerdictOf(table, ids[i], answers, received).Noop?
    ensures k < |ids| ==> !VerdictOf(table, ids[k], answers, received).Noop?
    decreases |ids|
  {
    if ids == [] then 0
    else
      var n := |ids| - 1;
      var k := Taker(table, ids[..n], answers, received);
      if k < n then k else if VerdictOf(table, ids[n], answers, received).Noop? then n + 1 else n
  }

  function Without(ids: seq<Id>, k: nat): seq<Id>
    requires k < |ids|
  {
    ids[..k] + ids[k + 1..]
  }

  /** The reply handed to the message at `k`. */
  function Delivered(s: State, k: nat, answers: map<Id, Answer>, received: Memory): State
    requires Known(s.table, s.toProcess) && k < |s.toProcess|
    requires |s.table[s.toProcess[k]].data| >= 6
  {
    var id := s.toProcess[k];
    var (verdict, m) := Process(s.table[id], AnswerOf(answers, id), received);
    match verdict
    case Noop => s
    case GoOn =>
      var c := NextCounter(s.counter);
      State(c, s.toSend + [id], Without(s.toProcess, k),
            s.table[id := WithCounter(m, c)])
    case Finalize => s.(toProcess := Without(s.toProcess, k), table := s.table[id := m])
    case FinalizeAndKeep => s.(table := s.table[id := m])
  }

  ghost predicate Sized(table: map<Id, Message>) {
    forall id :: id in table ==> |table[id].data| >= 6
  }

  /** Past their deadline, messages leave the list. */
  function Expired(s: State, now: nat): (r: State)
    requires Known(s.table, s.toProcess)
    ensures Known(r.table, r.toProcess) && (Sized(s.table) ==> Sized(r.table))
  {
    var aged := AgedTable(s.table, s.toProcess, now);
    AliveKnown(aged, s.toProcess);
    s.(table := aged, toProcess := Alive(aged, s.toProcess))
  }

  /** `create…`: the next counter, and the back of the queue. */
  function CreateStep(s: State, id: Id, m: Message): State
    requires |m.data| >= 6
  {
    var c := NextCounter(s.counter);
    s.(counter := c, toSend := s.toSend + [id], table := s.table[id := WithCounter(m, c)])
  }

  function SendStep(s: State, now: nat): State
    requires s.toSend != [] && s.toSend[0] in s.table
  {
    var id := s.toSend[0];
    var m := Aged(s.table[id], now);
    s.(toSend := s.toSend[1..], table := s.table[id := m],
       toProcess := if m.status == RUNNING then s.toProcess + [id] else s.toProcess)
  }

  // ---- About the filter -----------------------------------------------------

  lemma {:induction false} AgeOne(table: map<Id, Message>, ids: seq<Id>, i: nat, now: nat)
    requires i < |ids| && ids[i] in table
    ensures var t := AgedTable(table, ids[..i], now);
            t[ids[i] := Aged(t[ids[i]], now)] == AgedTable(table, ids[..i + 1], now)
  {
    assert forall id :: id in ids[..i + 1] <==> id in ids[..i] || id == ids[i];
  }

  /** Which of `ids` are alive depends on their statuses only. */
  lemma {:induction false} AliveSame(t: map<Id, Message>, u: map<Id, Message>, ids: seq<Id>)
    requires Known(t, ids) && Known(u, ids)
    requires forall i :: 0 <= i < |ids| ==> t[ids[i]].status == u[ids[i]].status
    ensures Alive(t, ids) == Alive(u, ids)
    decreases |ids|
  {
    if ids != [] {
      AliveSame(t, u, ids[..|ids| - 1]);
    }
  }

  lemma {:induction false} AliveIff(t: map<Id, Message>, ids: seq<Id>, id: Id)
    requires Known(t, ids)
    ensures id in Alive(t, ids) <==> id in ids && t[id].status != TIMEDOUT
    decreases |ids|
  {
    if ids != [] {
      var n := |ids| - 1;
      AliveIff(t, ids[..n], id);
      assert ids == ids[..n] + [ids[n]];
    }
  }

  lemma {:induction false} AliveKnown(t: map<Id, Message>, ids: seq<Id>)
    requires Known(t, ids)
    ensures Known(t, Alive(t, ids))
    ensures forall i :: 0 <= i < |Alive(t, ids)| ==> Alive(t, ids)[i] in ids && t[Alive(t, ids)[i]].status != TIMEDOUT
  {
    var alive := Alive(t, ids);
    forall i | 0 <= i < |alive| ensures alive[i] in ids && alive[i] in t && t[alive[i]].status != TIMEDOUT {
      AliveIff(t, ids, alive[i]);
    }
  }

  // ---- The class ------------------------------------------------------------

  /** What `create…` hands back: an inactive mailbox throws, a bad gateway message is null. */
  datatype Created = Inactive | Rejected | Made(id: Id)

  /** A message fresh from its constructor: the buffer holds at least a header. */
  function Buffer(recvSize: nat): (b: seq<byte>)
    ensures |b| >= 6 && |b| >= recvSize
  {
    Zeros(if recvSize < 6 then 6 else recvSize)
  }

  /** A gateway index with the gateway bit set. */
  function Masked(index: u16): u16 { if index < 0x8000 then 0x8000 + index else index }

  /** `GatewayMessage`: the raw message copied over the buffer, its address swapped for the
      masked index. */
  function GatewayOf(recvSize: nat, raw: seq<byte>, index: u16, deadline: nat): (m: Message)
    requires 6 <= |raw| <= recvSize && Declared(raw) <= |raw|
    ensures m.kind == Gateway(Address(raw), index) && m.status == RUNNING && m.deadline == deadline
    ensures |m.data| == recvSize && Address(m.data) == Masked(index)
  {
    var n := Declared(raw);
    var data := raw[..n] + Buffer(recvSize)[n..];
    var kind := Gateway(Address(raw), index);
    Message(kind, RUNNING, deadline, WithAddress(data, Masked(index)), NewClient(kind))
  }

  class Mailbox {
    const recvSize: nat
    var counter: nat
    var toSend: seq<Id>
    var toProcess: seq<Id>
    var table: map<Id, Message>

    constructor (recvSize: nat)
      ensures this.recvSize == recvSize && Snapshot() == State(0, [], [], map[])
    {
      this.recvSize, counter, toSend, toProcess, table := recvSize, 0, [], [], map[];
    }

    ghost function Snapshot(): State
      reads this
    {
      State(counter, toSend, toProcess, table)
    }

    method StepCounter() returns (c: nat)
      modifies this`counter
      ensures c == counter == NextCounter(old(counter))
    {
      counter := counter + 1;
      if counter > 7 {
        counter := 1;
      }
      c := counter;
    }

    /** `createSDO` and the `createSDOInfo…` factories. */
    method CreateRequest(id: Id, kind: Kind, data: seq<byte>, deadline: nat) returns (r: Created)
      requires id !in table && |data| == |Buffer(recvSize)| && (kind.Transfer? || kind.Information?)
      modifies this
      ensures recvSize == 0 <==> r == Inactive
      ensures recvSize == 0 ==> Snapshot() == old(Snapshot())
      ensures recvSize != 0 ==> r == Made(id)
      ensures recvSize != 0 ==>
                Snapshot() == CreateStep(old(Snapshot()), id, Message(kind, RUNNING, deadline, data, NewClient(kind)))
    {
      if recvSize == 0 {
        return Inactive;
      }
      var m := Message(kind, RUNNING, deadline, data, NewClient(kind));
      var c := StepCounter();
      table := table[id := WithCounter(m, c)];
      toSend := toSend + [id];
      r := Made(id);
    }

    /** `createGatewayMessage`: too small, too big for the mailbox, or shorter than declared
        is refused and spends no counter. */
    method CreateGatewayMessage(id: Id, raw: seq<byte>, index: u16, deadline: nat) returns (r: Created)
      requires id !in table
      modifies this
      ensures r == Made(id) <==> 6 <= |raw| <= recvSize && Declared(raw) <= |raw|
      ensures r != Made(id) ==> r == Rejected && Snapshot() == old(Snapshot())
      ensures r == Made(id) ==>
                Snapshot() == CreateStep(old(Snapshot()), id, GatewayOf(recvSize, raw, index, deadline))
    {
      if |raw| < 6 {
        return Rejected;
      }
      if |raw| > recvSize {
        return Rejected;
      }
      if Declared(raw) > |raw| {
        return Rejected;
      }
      var m := GatewayOf(recvSize, raw, index, deadline);
      var c := StepCounter();
      table := table[id := WithCounter(m, c)];
      toSend := toSend + [id];
      r := Made(id);
    }

    /** `status`. */
    method Status(id: Id, now: nat) returns (status: u32)
      requires id in table
      modifies this`table
      ensures table == old(table)[id := Aged(old(table)[id], now)] && status == table[id].status
    {
      var m := table[id];
      if m.status == RUNNING && m.deadline != 0 && now > m.deadline {
        m := m.(status := TIMEDOUT);
      }
      table := table[id := m];
      status := m.status;
    }

    /** `send`: the front message goes out and waits for its answer if it still runs. */
    method Send(now: nat) returns (id: Id)
      requires toSend != [] && toSend[0] in table
      modifies this
      ensures id == old(toSend)[0] && Snapshot() == SendStep(old(Snapshot()), now)
    {
      id := toSend[0];
      toSend := toSend[1..];
      var status := Status(id, now);
      if status == RUNNING {
        toProcess := toProcess + [id];
      }
    }

    /** The messages that timed out leave the list. */
    method RemoveTimedOut(now: nat)
      requires Known(table, toProcess)
      modifies this
      ensures Snapshot() == Expired(old(Snapshot()), now) && Known(table, toProcess)
    {
      var kept, ids := [], toProcess;
      ghost var before := table;
      var i := 0;
      while i < |ids|
        invariant 0 <= i <= |ids| && toProcess == ids && counter == old(counter) && toSend == old(toSend)
        invariant table == AgedTable(before, ids[..i], now)
        invariant Known(table, ids) && kept == Alive(table, ids[..i])
      {
        ghost var was := table;
        var status := Status(ids[i], now);
        AgeOne(before, ids, i, now);
        AliveSame(was, table, ids[..i]);
        assert ids[..i + 1][..i] == ids[..i];
        if status != TIMEDOUT {
          kept := kept + [ids[i]];
        }
        i := i + 1;
      }
      assert ids[..|ids|] == ids;
      AliveKnown(table, ids);
      toProcess := kept;
    }

    /** The message at `i` takes the reply, or passes it on. */
    method Offer(i: nat, received: Memory, answers: map<Id, Answer>) returns (taken: bool)
      requires Known(table, toProcess) && Sized(table) && i < |toProcess|
      modifies this
      ensures taken <==> !VerdictOf(old(table), old(toProcess)[i], answers, received).Noop?
      ensures Snapshot() == if taken then Delivered(old(Snapshot()), i, answers, received) else old(Snapshot())
    {
      var id := toProcess[i];
      var (verdict, m) := Process(table[id], AnswerOf(answers, id), received);
      hide Process, WithCounter, NextCounter;
      taken := !verdict.Noop?;
      if verdict.GoOn? {
        var c := StepCounter();
        table := table[id := WithCounter(m, c)];
        toSend := toSend + [id];
        toProcess := toProcess[..i] + toProcess[i + 1..];
      } else if taken {
        table := table[id := m];
        if verdict.Finalize? {
          toProcess := toProcess[..i] + toProcess[i + 1..];
        }
      }
    }

    /** `receive`: the first message that takes the reply decides what becomes of it. */
    method Receive(received: Memory, answers: map<Id, Answer>, now: nat) returns (consumed: bool)
      requires Known(table, toProcess) && Sized(table)
      modifies this
      ensures var s := Expired(old(Snapshot()), now);
              var k := Taker(s.table, s.toProcess, answers, received);
              && consumed == (k < |s.toProcess|)
              && Snapshot() == if consumed then Delivered(s, k, answers, received) else s
    {
      hide Process, Taker, Expired, Delivered, VerdictOf, Alive, AgedTable;
      RemoveTimedOut(now);
      ghost var s := Snapshot();
      ghost var k := Taker(s.table, s.toProcess, answers, received);
      var i := 0;
      while i < |toProcess|
        invariant 0 <= i <= k && Snapshot() == s
      {
        var taken := Offer(i, received, answers);
        if taken {
          assert i == k;
          return true;
        }
        i := i + 1;
      }
      assert k == |s.toProcess|;
      consumed := false;
    }
  }
}
