/** Requests about the object dictionary (`SDOInformationMessage`, lib/src/CoE/mailbox/request.cc):
    the answer comes in fragments, which are gathered in the client's buffer. */
module SdoInformation {
  import opened Bytes
  import opened MailboxFormat

  const LIST_REQUEST := 1
  const OBJECT_REQUEST := 3
  const ENTRY_REQUEST := 5
  const INFO_ERROR := 7

  // ---- A reply --------------------------------------------------------------

  /** A reply to an information request; which one is not told. */
  predicate Related(received: Memory) {
    var head := Front(received, 9);
    !ForGateway(head) && TypeOf(head) == COE && ServiceOf(head) == SDO_INFORMATION
  }

  function Opcode(received: Memory): nat { received(8) % 128 }

  function FragmentsLeft(received: Memory): u16 { Word(Part(received, 10, 2), 0) }

  function ErrorCode(received: Memory): u32 {
    Word(Part(received, 12, 2), 0) + 0x1_0000 * Word(Part(received, 14, 2), 0)
  }

  /** What the reply declares behind its headers; negative when it is too short for them. */
  function PayloadSize(received: Memory): int { Declared(Front(received, 6)) - 12 }

  function Payload(received: Memory): (p: seq<byte>)
    requires PayloadSize(received) >= 0
    ensures |p| == PayloadSize(received)
  {
    Part(received, 12, PayloadSize(received))
  }

  /** The opcode that answers a request; the requests have odd ones. */
  predicate Answerable(opcode: nat) { opcode in {LIST_REQUEST, OBJECT_REQUEST, ENTRY_REQUEST} }

  /** The reply carries a part of the answer. */
  predicate Fragment(opcode: nat, received: Memory) {
    Related(received) && Answerable(opcode) && Opcode(received) == opcode + 1 && PayloadSize(received) >= 0
  }

  /** The status a reply that carries none of the answer ends the request with. */
  function Failure(opcode: nat, received: Memory): u32 {
    if Opcode(received) == INFO_ERROR then ErrorCode(received)
    else if !Answerable(opcode) then UNKNOWN_SERVICE
    else if Opcode(received) != opcode + 1 then WRONG_SERVICE
    else GENERAL_ERROR
  }

  // ---- The request ----------------------------------------------------------

  /** What the client's buffer holds, how much was sent for it, and the size told to the client. */
  datatype Client = Client(bytes: seq<byte>, total: nat, size: nat)

  /** The request while it waits. */
  datatype Query = Query(status: u32, client: Client)

  function Gather(capacity: nat, q: Query, payload: seq<byte>): Query {
    var total := q.client.total + |payload|;
    if capacity - q.client.total < |payload| then Query(BUFFER_TOO_SMALL, q.client.(total := total))
    else q.(client := q.client.(bytes := q.client.bytes + payload, total := total))
  }

  function Step(opcode: nat, capacity: nat, q: Query, received: Memory): (r: (Verdict, Query))
    ensures r.0.Noop? <==> !Related(received)
    ensures r.0.Noop? ==> r.1 == q
    ensures !r.0.GoOn?
    ensures r.0.FinalizeAndKeep? <==> Fragment(opcode, received) && FragmentsLeft(received) > 0
    ensures r.0.FinalizeAndKeep? ==> r.1.status in {q.status, BUFFER_TOO_SMALL}
  {
    if !Related(received) then (Noop, q)
    else if !Fragment(opcode, received) then (Finalize, q.(status := Failure(opcode, received)))
    else
      var g := Gather(capacity, q, Payload(received));
      if FragmentsLeft(received) > 0 then (FinalizeAndKeep, g)
      else if g.status == RUNNING then (Finalize, Query(SUCCESS, g.client.(size := g.client.total)))
      else (Finalize, g)
  }

  class Information {
    const opcode: nat
    const capacity: nat
    var status: u32
    var bytes: seq<byte>
    var total: nat
    var size: nat

    constructor (opcode: nat, capacity: nat)
      ensures this.opcode == opcode && this.capacity == capacity
      ensures Snapshot() == Query(RUNNING, Client([], 0, capacity))
    {
      this.opcode, this.capacity, status, bytes, total, size := opcode, capacity, RUNNING, [], 0, capacity;
    }

    ghost function Snapshot(): Query
      reads this
    {
      Query(status, Client(bytes, total, size))
    }

    /** `process`. */
    method Process(received: Memory) returns (v: Verdict)
      modifies this
      ensures (v, Snapshot()) == Step(opcode, capacity, old(Snapshot()), received)
    {
      var head := Front(received, 9);
      if ForGateway(head) {
        return Noop;
      }
      if TypeOf(head) != COE {
        return Noop;
      }
      if ServiceOf(head) != SDO_INFORMATION {
        return Noop;
      }
      if Opcode(received) == INFO_ERROR {
        status := ErrorCode(received);
        return Finalize;
      }
      match opcode {
        case 1 => v := ProcessResponse(received, 2);
        case 3 => v := ProcessResponse(received, 4);
        case 5 => v := ProcessResponse(received, 6);
        case _ =>
          status := UNKNOWN_SERVICE;
          v := Finalize;
      }
    }

    /** `processResponse`. */
    method ProcessResponse(received: Memory, expected: nat) returns (v: Verdict)
      requires Related(received) && Answerable(opcode) && expected == opcode + 1 && Opcode(received) != INFO_ERROR
      modifies this
      ensures (v, Snapshot()) == Step(opcode, capacity, old(Snapshot()), received)
    {
      if Opcode(received) != expected {
        status := WRONG_SERVICE;
        return Finalize;
      }
      var n := PayloadSize(received);
      var remaining := capacity - total;
      if n < 0 {
        status := GENERAL_ERROR;
        return Finalize;
      }
      if remaining < n {
        status := BUFFER_TOO_SMALL;
      } else {
        bytes := bytes + Payload(received);
      }
      total := total + n;
      if FragmentsLeft(received) > 0 {
        return FinalizeAndKeep;
      }
      if status == RUNNING {
        status := SUCCESS;
        size := total;
      }
      v := Finalize;
    }
  }

  // ---- Gathering an answer --------------------------------------------------

  /** The payloads of the fragments among the replies, in order. */
  function Payloads(opcode: nat, replies: seq<Memory>): (ps: seq<seq<byte>>)
    decreases |replies|
  {
    if replies == [] then []
    else
      var before, r := Payloads(opcode, replies[..|replies| - 1]), replies[|replies| - 1];
      if Fragment(opcode, r) then before + [Payload(r)] else before
  }

  function Joined(ps: seq<seq<byte>>): seq<byte>
    decreases |ps|
  {
    if ps == [] then [] else Joined(ps[..|ps| - 1]) + ps[|ps| - 1]
  }

  /** The payloads in front of the first that exceeds the capacity. */
  function Fitting(capacity: nat, ps: seq<seq<byte>>): (r: seq<seq<byte>>)
    ensures r <= ps && |Joined(r)| <= capacity
    ensures |Joined(ps)| <= capacity <==> r == ps
    decreases |ps|
  {
    if ps == [] then []
    else
      var n := |ps| - 1;
      var before := Fitting(capacity, ps[..n]);
      if |Joined(ps)| <= capacity then ps else before
  }

  /** The request after replies that do not end it. */
  function Served(opcode: nat, capacity: nat, replies: seq<Memory>): Query
    decreases |replies|
  {
    if replies == [] then Query(RUNNING, Client([], 0, capacity))
    else
      var n := |replies| - 1;
      Step(opcode, capacity, Served(opcode, capacity, replies[..n]), replies[n]).1
  }

  /** No reply ends the request: each is for others, or a fragment with more to come. */
  ghost predicate Unfinished(opcode: nat, replies: seq<Memory>) {
    forall i :: 0 <= i < |replies| ==>
      Related(replies[i]) ==> Fragment(opcode, replies[i]) && FragmentsLeft(replies[i]) > 0
  }

  /** The client's buffer after any number of such replies: the fragments sent, joined, as long as
      they fit; and the status tells whether all did. */
  lemma {:induction false} Gathered(opcode: nat, capacity: nat, replies: seq<Memory>)
    requires Unfinished(opcode, replies)
    ensures var q, ps := Served(opcode, capacity, replies), Payloads(opcode, replies);
            && q.client == Client(Joined(Fitting(capacity, ps)), |Joined(ps)|, capacity)
            && q.status == if |Joined(ps)| <= capacity then RUNNING else BUFFER_TOO_SMALL
    decreases |replies|
  {
    if replies != [] {
      var n := |replies| - 1;
      var ps := Payloads(opcode, replies[..n]);
      Gathered(opcode, capacity, replies[..n]);
      if Fragment(opcode, replies[n]) {
        JoinedMore(capacity, ps, Payload(replies[n]));
      }
    }
  }

  lemma {:induction false} JoinedMore(capacity: nat, ps: seq<seq<byte>>, p: seq<byte>)
    ensures Joined(ps + [p]) == Joined(ps) + p
    ensures Fitting(capacity, ps + [p]) == if |Joined(ps + [p])| <= capacity then ps + [p] else Fitting(capacity, ps)
  {
    assert (ps + [p])[..|ps|] == ps;
  }

  /** The last fragment ends the request: with success if and only if the whole answer fits, and
      the client then has all of it and is told its size; else with what did fit. */
  lemma {:induction false} Completes(opcode: nat, capacity: nat, replies: seq<Memory>, last: Memory)
    requires Unfinished(opcode, replies) && Fragment(opcode, last) && FragmentsLeft(last) == 0
    ensures var (v, q) := Step(opcode, capacity, Served(opcode, capacity, replies), last);
            var answer := Joined(Payloads(opcode, replies + [last]));
            && v == Finalize
            && (q.status == SUCCESS <==> |answer| <= capacity)
            && (q.status == SUCCESS ==> q.client.bytes == answer && q.client.size == |answer|)
            && (q.status != SUCCESS ==>
                  && q.status == BUFFER_TOO_SMALL && q.client.size == capacity
                  && q.client.bytes == Joined(Fitting(capacity, Payloads(opcode, replies + [last]))))
  {
    Gathered(opcode, capacity, replies);
    assert (replies + [last])[..|replies|] == replies;
    JoinedMore(capacity, Payloads(opcode, replies), Payload(last));
  }

  // ---- A status that does not last ------------------------------------------

  /** The reply ends the request, and not with a too small buffer. */
  predicate Overrides(opcode: nat, received: Memory) {
    Related(received) && !Fragment(opcode, received) && Failure(opcode, received) != BUFFER_TOO_SMALL
  }

  /** A request whose buffer was too small reports something else after a reply if and only if
      the reply is an error with another code, or is ill-formed. */
  lemma {:induction false} TooSmallLeft(opcode: nat, capacity: nat, q: Query, received: Memory)
    requires q.status == BUFFER_TOO_SMALL
    ensures Step(opcode, capacity, q, received).1.status != BUFFER_TOO_SMALL <==> Overrides(opcode, received)
  {
  }
}
