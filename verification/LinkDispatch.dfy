/** Datagrams in flight (`Link`, lib/master/src/Link.cc): every datagram gets one of 256 indices
    in a circular window, goes out in a frame, and ends with its `process` callback content or
    its `error` callback called. Frames read back, and what the callbacks return, are an oracle. */
module LinkDispatch {
  import opened Bytes
  import opened Common

  datatype Status = Ok | Lost | SendError | Invalid(code: nat)

  /** A callback called. */
  datatype Event = Processed(index: byte, result: Status) | Failed(index: byte, status: Status)

  /** One reading of both sockets: the indices of the datagrams in either frame, none where the
      read failed. */
  datatype Reading = Reading(nominal: seq<byte>, redundancy: seq<byte>)

  // ---- The window -----------------------------------------------------------

  /** How far `index` is past `queue` on the circle of 256. */
  function Ahead(index: byte, queue: byte): (d: byte) {
    if index >= queue then index - queue else index + 0x100 - queue
  }

  function Next(index: byte): byte { if index == 0xFF then 0 else index + 1 }

  /** The index `d` places past `queue`. */
  function At(queue: byte, d: byte): byte { if queue + d > 0xFF then queue + d - 0x100 else queue + d }

  predicate Stale(index: byte, queue: byte, head: byte) { Ahead(index, queue) >= Ahead(head, queue) }

  lemma {:induction false} AtAhead(queue: byte, d: byte)
    ensures Ahead(At(queue, d), queue) == d
    ensures Next(At(queue, d)) == if d == 0xFF then queue else At(queue, d + 1)
  {
  }

  lemma {:induction false} AheadAt(index: byte, queue: byte)
    ensures At(queue, Ahead(index, queue)) == index
  {
  }

  // ---- Which datagram comes next --------------------------------------------

  /** Two copies of the same datagram are one; of two different ones the earlier in the window
      is kept and the other dropped. */
  function Pick(n: byte, r: byte, queue: byte): byte {
    if n == r then n else if Ahead(r, queue) < Ahead(n, queue) then r else n
  }

  /** The datagrams dispatched from a reading, in order. */
  function Offered(nominal: seq<byte>, redundancy: seq<byte>, queue: byte): seq<byte>
    decreases |nominal| + |redundancy|
  {
    if nominal == [] then redundancy
    else if redundancy == [] then nominal
    else [Pick(nominal[0], redundancy[0], queue)] + Offered(nominal[1..], redundancy[1..], queue)
  }

  // ---- Statuses and what was called -----------------------------------------

  /** The errors reported for the first `n` datagrams of the window, in order. */
  function Errors(status: seq<Status>, queue: byte, n: nat): (es: seq<Event>)
    requires |status| == 256 && n <= 256
  {
    if n == 0 then []
    else
      var k := At(queue, n - 1);
      Errors(status, queue, n - 1) + if status[k].Ok? then [] else [Failed(k, status[k])]
  }

  /** Of the exceptions the error callbacks `es` throw, `thrown` is the last one, if any. */
  ghost predicate LastThrown(es: seq<Event>, throws: byte -> Option<nat>, thrown: Option<nat>) {
    if thrown.None? then forall i :: 0 <= i < |es| ==> throws(es[i].index).None?
    else exists i :: 0 <= i < |es| && throws(es[i].index) == thrown
                     && forall j :: i < j < |es| ==> throws(es[j].index).None?
  }

  lemma {:induction false} OneMoreThrown(es: seq<Event>, e: Event, throws: byte -> Option<nat>, thrown: Option<nat>)
    requires LastThrown(es, throws, thrown)
    ensures LastThrown(es + [e], throws, if throws(e.index).Some? then throws(e.index) else thrown)
  {
    var next := es + [e];
    if throws(e.index).Some? {
      assert next[|es|] == e;
    } else if thrown.Some? {
      var i :| 0 <= i < |es| && throws(es[i].index) == thrown && forall j :: i < j < |es| ==> throws(es[j].index).None?;
      assert next[i] == es[i];
    }
  }

  /** The status of `k` after `es`, from `status`: what its last processing said. */
  function Final(status: Status, es: seq<Event>, k: byte): Status
    decreases |es|
  {
    if es == [] then status
    else
      var e := es[|es| - 1];
      if e.Processed? && e.index == k then e.result else Final(status, es[..|es| - 1], k)
  }

  /** Only datagrams of the window are processed, and none again once it was content. */
  predicate Proper(es: seq<Event>, queue: byte, head: byte) {
    && (forall i :: 0 <= i < |es| ==> es[i].Processed? && !Stale(es[i].index, queue, head))
    && (forall i, j :: 0 <= i < j < |es| && es[i].index == es[j].index ==> !es[i].result.Ok?)
  }

  predicate Follows(before: seq<Status>, after: seq<Status>, es: seq<Event>)
    requires |before| == |after| == 256
  {
    forall k: byte :: after[k] == Final(before[k], es, k)
  }

  /** Nothing in the window has been answered yet. */
  predicate Open(status: seq<Status>, queue: byte, head: byte)
    requires |status| == 256
  {
    forall k: byte :: !Stale(k, queue, head) ==> status[k] in {Lost, SendError}
  }

  /** The last `n` datagrams of the window failed to go out. */
  function Unsent(status: seq<Status>, queue: byte, head: byte, n: nat): (r: seq<Status>)
    requires |status| == 256
    ensures |r| == 256
    ensures forall k: byte :: r[k] == if Ahead(head, queue) - n <= Ahead(k, queue) < Ahead(head, queue) then SendError
                                      else status[k]
    ensures Open(status, queue, head) ==> Open(r, queue, head)
  {
    seq(256, k requires 0 <= k < 256 =>
      if Ahead(head, queue) - n <= Ahead(k, queue) < Ahead(head, queue) then SendError else status[k])
  }

  /** One more datagram in the window. */
  lemma {:induction false} Widened(status: seq<Status>, queue: byte, head: byte)
    requires |status| == 256 && Open(status, queue, head) && queue != Next(head)
    ensures Ahead(head, queue) < 255 && Ahead(Next(head), queue) == Ahead(head, queue) + 1
    ensures Open(status[head := Lost], queue, Next(head))
  {
    forall k: byte | !Stale(k, queue, Next(head)) ensures status[head := Lost][k] in {Lost, SendError} {
      if k != head {
        assert Ahead(k, queue) != Ahead(head, queue);
        assert !Stale(k, queue, head);
      }
    }
  }

  /** The window is full exactly when the head would catch up with the queue. */
  lemma {:induction false} WindowFull(head: byte, queue: byte)
    ensures queue == Next(head) <==> Ahead(head, queue) == 255
  {
  }

  /** The `i`-th index before the head is the `i`-th last of the window, and the only one. */
  lemma {:induction false} Behind(head: byte, queue: byte, i: nat, index: byte)
    requires i < Ahead(head, queue) && index == (head - i - 1) % 0x100
    ensures Ahead(index, queue) == Ahead(head, queue) - i - 1
    ensures forall k: byte :: Ahead(k, queue) == Ahead(index, queue) ==> k == index
  {
  }

  class Link {
    var queue: byte
    var head: byte
    var status: seq<Status>
    var pending: nat
    var used: nat
    var sent: nat
    var calls: seq<Event>
    var readings: nat

    constructor ()
      ensures Valid() && queue == 0 && head == 0 && pending == 0 && sent == 0 && calls == []
    {
      queue, head, status, pending, used, sent, calls, readings := 0, 0, seq(256, _ => Lost), 0, 0, 0, [], 0;
    }

    /** The frame under construction holds the newest datagrams of the window, and no more
        frames are under way than datagrams. */
    ghost predicate Windowed()
      reads this
    {
      && |status| == 256 && Open(status, queue, head)
      && pending <= Ahead(head, queue) && sent + (if pending > 0 then 1 else 0) <= Ahead(head, queue)
    }

    /** Between calls the frame has room for at least an empty datagram. */
    ghost predicate Valid()
      reads this
    {
      Windowed() && used <= 1486 && pending < 15 && (pending == 0 ==> used == 0)
    }

    /** `sendFrame`: out on both interfaces; if neither took it, its datagrams have failed. */
    method SendFrame(nominal: bool, redundancy: bool)
      requires Windowed() && pending > 0
      modifies this`status, this`pending, this`used, this`sent
      ensures Windowed() && pending == 0 && used == 0
      ensures sent == old(sent) + if nominal || redundancy then 1 else 0
      ensures status == if nominal || redundancy then old(status) else Unsent(old(status), queue, head, old(pending))
    {
      var datagrams := pending;
      pending, used := 0, 0;
      if nominal || redundancy {
        sent := sent + 1;
      } else {
        var i := 0;
        while i < datagrams
          invariant 0 <= i <= datagrams && pending == 0 && used == 0 && sent == old(sent)
          invariant status == Unsent(old(status), queue, head, i)
        {
          var index: byte := (head - i - 1) % 0x100;
          Behind(head, queue, i, index);
          status := status[index := SendError];
          i := i + 1;
        }
      }
    }

    /** `addDatagram`: refused when 255 are in flight; a full frame goes out. The writes of the
        frames it may send are given by `before` and `after`. */
    method AddDatagram(size: nat, before: (bool, bool), after: (bool, bool)) returns (added: bool)
      requires Valid() && size <= 1486
      modifies this
      ensures Valid() && queue == old(queue) && calls == old(calls) && readings == old(readings)
      ensures added <==> Ahead(old(head), queue) < 255
      ensures !added ==> head == old(head)
      ensures added ==> head == Next(old(head)) && Ahead(head, queue) == Ahead(old(head), queue) + 1
    {
      WindowFull(head, queue);
      if queue == Next(head) {
        return false;
      }
      hide Ahead, Open, Next, Unsent;
      if 1498 - used < 12 + size {
        SendFrame(before.0, before.1);
      }
      Widened(status, queue, head);
      status := status[head := Lost];
      pending, used := pending + 1, used + 12 + size;
      head := Next(head);
      if pending >= 15 || 1498 - used < 12 {
        SendFrame(after.0, after.1);
      }
      added := true;
    }

    method FinalizeDatagrams(written: (bool, bool))
      requires Valid()
      modifies this`status, this`pending, this`used, this`sent
      ensures Valid() && pending == 0 && old(sent) <= sent
    {
      if pending != 0 {
        SendFrame(written.0, written.1);
      }
    }

    /** One datagram read back: a leftover of an earlier cycle is dropped, one already content
        left alone, and any other handed to its callback. */
    method Handle(index: byte, answer: nat -> Status, ghost before: seq<Status>, ghost start: nat) returns (stale: bool)
      requires start <= |calls| && Processing(before, status, calls[start..], queue, head)
      modifies this`status, this`calls
      ensures old(calls) <= calls && Processing(before, status, calls[start..], queue, head)
      ensures stale <==> Stale(index, queue, head)
      ensures stale || before[index].Ok? || Answered(calls[start..], index)
      ensures forall k :: old(Answered(calls[start..], k)) ==> Answered(calls[start..], k)
    {
      hide Processing, Answered, Stale;
      ghost var es := calls[start..];
      Lengths(before, status, es, queue, head);
      stale := Stale(index, queue, head);
      if stale {
        return;
      }
      if status[index].Ok? {
        OkAnswered(before, status, es, queue, head, index);
        return;
      }
      var result := answer(|calls|);
      OneMore(before, status, es, queue, head, index, result);
      status := status[index := result];
      calls := calls + [Processed(index, result)];
      assert calls[start..] == es + [Processed(index, result)];
      StillAnswered(es, Processed(index, result));
    }

    /** `nextDatagram` and its callback, until both frames are used up. */
    method Dispatch(r: Reading, answer: nat -> Status, ghost before: seq<Status>, ghost start: nat)
      returns (stale: bool, dropped: bool)
      requires start <= |calls| && Processing(before, status, calls[start..], queue, head)
      modifies this`status, this`calls
      ensures old(calls) <= calls && Processing(before, status, calls[start..], queue, head)
      ensures Heard(Offered(r.nominal, r.redundancy, queue), before, calls[start..], queue, head)
      ensures forall k :: old(Answered(calls[start..], k)) ==> Answered(calls[start..], k)
      ensures stale <==> SomeStale(Offered(r.nominal, r.redundancy, queue), queue, head)
    {
      var nominal, redundancy := r.nominal, r.redundancy;
      stale, dropped := false, false;
      ghost var done: seq<byte>, all := [], Offered(nominal, redundancy, queue);
      Lengths(before, status, calls[start..], queue, head);
      assert [] + all == all;
      hide Processing, Answered, Stale, Pick, Offered;
      while nominal != [] || redundancy != []
        invariant old(calls) <= calls && done + Offered(nominal, redundancy, queue) == all
        invariant Processing(before, status, calls[start..], queue, head)
        invariant Heard(done, before, calls[start..], queue, head)
        invariant stale <==> SomeStale(done, queue, head)
        invariant forall k :: old(Answered(calls[start..], k)) ==> Answered(calls[start..], k)
        decreases |nominal| + |redundancy|
      {
        OfferedStep(nominal, redundancy, queue, done);
        var index: byte;
        if nominal == [] {
          index, redundancy := redundancy[0], redundancy[1..];
        } else if redundancy == [] {
          index, nominal := nominal[0], nominal[1..];
        } else {
          dropped := dropped || nominal[0] != redundancy[0];
          index := Pick(nominal[0], redundancy[0], queue);
          nominal, redundancy := nominal[1..], redundancy[1..];
        }
        var leftover := Handle(index, answer, before, start);
        stale := stale || leftover;
        StaleMore(done, index, queue, head);
        done := done + [index];
      }
      OfferedNone(queue);
      assert done + [] == done;
    }

    /** The frames under way read back, with a second try for each reading spoilt by leftovers.
        `brings` is what each reading brings. */
    method ReadBack(waiting: nat, brings: nat -> Reading, answer: nat -> Status, ghost start: seq<Status>)
      requires |start| == 256 && status == start
      modifies this`status, this`calls, this`readings
      ensures old(calls) <= calls && Processing(start, status, calls[|old(calls)|..], queue, head)
      ensures AllHeard(brings, old(readings), readings, start, calls[|old(calls)|..], queue, head)
      ensures old(readings) + waiting <= readings <= old(readings) + 2 * waiting
    {
      var budget, i: nat := waiting, 0;
      ghost var from := |calls|;
      NoneYet(status, queue, head);
      AllHeardNone(brings, readings, start, queue, head);
      assert calls[from..] == [];
      hide Processing, AllHeard, Heard, Answered, Offered;
      while i < waiting
        invariant 0 <= i <= waiting && 0 <= budget <= waiting && readings == old(readings) + i + (waiting - budget)
        invariant old(calls) <= calls && Processing(start, status, calls[from..], queue, head)
        invariant AllHeard(brings, old(readings), readings, start, calls[from..], queue, head)
        decreases waiting - i + budget
      {
        var r := brings(readings);
        ghost var before := calls[from..];
        var stale, dropped := Dispatch(r, answer, start, from);
        HeardMore(brings, old(readings), readings, start, before, calls[from..], queue, head);
        readings := readings + 1;
        if (stale || dropped) && budget > 0 {
          budget := budget - 1;
        } else {
          i := i + 1;
        }
      }
    }

    /** `processDatagrams`: what comes back is handed over; then every datagram that was lost or
        not content is reported, and the window closes. An error callback that throws keeps no
        other from being called; the last exception is thrown again at the end. */
    method ProcessDatagrams(written: (bool, bool), brings: nat -> Reading, answer: nat -> Status,
                            throws: byte -> Option<nat>)
      returns (thrown: Option<nat>, ghost start: seq<Status>, ghost es: seq<Event>)
      requires Valid()
      modifies this
      ensures Valid() && queue == head == old(head) && pending == 0 && sent == 0
      ensures |start| == 256 && Open(start, old(queue), old(head))
      ensures Processing(start, status, es, old(queue), old(head))
      ensures AllHeard(brings, old(readings), readings, start, es, old(queue), old(head))
      ensures calls == old(calls) + es + Errors(status, old(queue), Ahead(old(head), old(queue)))
      ensures LastThrown(Errors(status, old(queue), Ahead(old(head), old(queue))), throws, thrown)
      ensures old(readings) + old(sent) <= readings <= old(readings) + 2 * Ahead(old(head), old(queue))
    {
      FinalizeDatagrams(written);
      start := status;
      hide Processing, Open, Errors, Stale, Ahead, AllHeard, LastThrown;
      var waiting := sent;
      sent := 0;
      ReadBack(waiting, brings, answer, start);
      es := calls[|old(calls)|..];
      Lengths(start, status, es, queue, head);
      thrown := ReportErrors(throws);
      EmptyWindow(status, head);
      queue := head;
    }

    /** The error callbacks, in the order of the window. */
    method ReportErrors(throws: byte -> Option<nat>) returns (thrown: Option<nat>)
      requires |status| == 256
      modifies this`calls
      ensures calls == old(calls) + Errors(status, queue, Ahead(head, queue))
      ensures LastThrown(Errors(status, queue, Ahead(head, queue)), throws, thrown)
    {
      thrown := None;
      var i := queue;
      ghost var d: nat := 0;
      assert LastThrown([], throws, None);
      hide LastThrown;
      while i != head
        invariant d <= Ahead(head, queue) && i == At(queue, d)
        invariant calls == old(calls) + Errors(status, queue, d)
        invariant LastThrown(Errors(status, queue, d), throws, thrown)
        decreases Ahead(head, queue) - d
      {
        AtAhead(queue, d);
        AheadAt(head, queue);
        if status[i].Ok? {
          assert Errors(status, queue, d) + [] == Errors(status, queue, d);
        } else {
          OneMoreThrown(Errors(status, queue, d), Failed(i, status[i]), throws, thrown);
          calls := calls + [Failed(i, status[i])];
          if throws(i).Some? {
            thrown := throws(i);
          }
        }
        i := Next(i);
        d := d + 1;
      }
      AtAhead(queue, d);
    }
  }

  // ---- Processing -----------------------------------------------------------

  /** Callbacks `es` took the statuses from `before` to `after`. */
  predicate Processing(before: seq<Status>, after: seq<Status>, es: seq<Event>, queue: byte, head: byte) {
    |before| == |after| == 256 && Proper(es, queue, head) && Follows(before, after, es)
    && (forall i :: 0 <= i < |es| ==> !before[es[i].index].Ok?)
  }

  /** Each of `offered` is a leftover, was content before, or has been handed over. */
  predicate Heard(offered: seq<byte>, before: seq<Status>, es: seq<Event>, queue: byte, head: byte)
    requires |before| == 256
  {
    forall i :: 0 <= i < |offered| ==>
      Stale(offered[i], queue, head) || before[offered[i]].Ok? || Answered(es, offered[i])
  }

  /** So is everything the readings from `i` up to `j` brought. */
  ghost predicate AllHeard(brings: nat -> Reading, i: nat, j: nat, before: seq<Status>, es: seq<Event>, queue: byte,
                           head: byte)
    requires |before| == 256
  {
    forall n: nat :: i <= n < j ==>
      Heard(Offered(brings(n).nominal, brings(n).redundancy, queue), before, es, queue, head)
  }

  lemma {:induction false} AllHeardNone(brings: nat -> Reading, i: nat, before: seq<Status>, queue: byte, head: byte)
    requires |before| == 256
    ensures AllHeard(brings, i, i, before, [], queue, head)
  {
  }

  lemma {:induction false} HeardMore(brings: nat -> Reading, i: nat, j: nat, before: seq<Status>,
                                     es: seq<Event>, more: seq<Event>, queue: byte, head: byte)
    requires |before| == 256 && i <= j && AllHeard(brings, i, j, before, es, queue, head)
    requires forall k :: Answered(es, k) ==> Answered(more, k)
    requires Heard(Offered(brings(j).nominal, brings(j).redundancy, queue), before, more, queue, head)
    ensures AllHeard(brings, i, j + 1, before, more, queue, head)
  {
    hide Answered, Offered, Stale;
    forall n: nat | i <= n < j + 1
      ensures Heard(Offered(brings(n).nominal, brings(n).redundancy, queue), before, more, queue, head)
    {
      if n < j {
        assert Heard(Offered(brings(n).nominal, brings(n).redundancy, queue), before, es, queue, head);
      }
    }
  }

  predicate SomeStale(offered: seq<byte>, queue: byte, head: byte) {
    exists i :: 0 <= i < |offered| && Stale(offered[i], queue, head)
  }

  lemma {:induction false} StaleMore(offered: seq<byte>, k: byte, queue: byte, head: byte)
    ensures SomeStale(offered + [k], queue, head) <==> SomeStale(offered, queue, head) || Stale(k, queue, head)
  {
    var more := offered + [k];
    assert more[|offered|] == k;
    if i :| 0 <= i < |offered| && Stale(offered[i], queue, head) {
      assert more[i] == offered[i];
    }
  }

  lemma {:induction false} Lengths(before: seq<Status>, after: seq<Status>, es: seq<Event>, queue: byte, head: byte)
    requires Processing(before, after, es, queue, head)
    ensures |before| == |after| == 256
  {
  }

  lemma {:induction false} OfferedNone(queue: byte)
    ensures Offered([], [], queue) == []
  {
  }

  lemma {:induction false} OfferedStep(n: seq<byte>, r: seq<byte>, queue: byte, done: seq<byte>)
    ensures n == [] && r != [] ==> done + Offered(n, r, queue) == done + [r[0]] + Offered(n, r[1..], queue)
    ensures n != [] && r == [] ==> done + Offered(n, r, queue) == done + [n[0]] + Offered(n[1..], r, queue)
    ensures n != [] && r != [] ==>
              done + Offered(n, r, queue) == done + [Pick(n[0], r[0], queue)] + Offered(n[1..], r[1..], queue)
  {
    hide Pick;
    if n == [] && r != [] {
      assert r == [r[0]] + r[1..] && Offered(n, r[1..], queue) == r[1..];
    } else if r == [] && n != [] {
      assert n == [n[0]] + n[1..] && Offered(n[1..], r, queue) == n[1..];
    }
  }

  predicate Answered(es: seq<Event>, k: byte) { exists i :: 0 <= i < |es| && es[i].index == k }

  lemma {:induction false} NoneYet(status: seq<Status>, queue: byte, head: byte)
    requires |status| == 256
    ensures Processing(status, status, [], queue, head)
  {
  }

  lemma {:induction false} EmptyWindow(status: seq<Status>, head: byte)
    requires |status| == 256
    ensures Ahead(head, head) == 0 && Open(status, head, head)
  {
  }

  lemma {:induction false} NotAnswered(s: Status, es: seq<Event>, k: byte)
    requires !Answered(es, k)
    ensures Final(s, es, k) == s
    decreases |es|
  {
    if es != [] {
      var n := |es| - 1;
      assert es[n].index != k;
      forall i | 0 <= i < n ensures es[..n][i].index != k {
        assert es[i].index != k;
      }
      NotAnswered(s, es[..n], k);
    }
  }

  /** The last processing of `k`, which gave it its status. */
  lemma {:induction false} LastAnswer(s: Status, es: seq<Event>, k: byte) returns (m: nat)
    requires Answered(es, k) && forall i :: 0 <= i < |es| ==> es[i].Processed?
    ensures m < |es| && es[m] == Processed(k, Final(s, es, k)) && forall j :: m < j < |es| ==> es[j].index != k
    decreases |es|
  {
    var n := |es| - 1;
    if es[n].index == k {
      m := n;
    } else {
      var i :| 0 <= i < |es| && es[i].index == k;
      assert es[..n][i].index == k;
      m := LastAnswer(s, es[..n], k);
      forall j | m < j < |es| ensures es[j].index != k {
        if j < n { assert es[..n][j].index != k; }
      }
    }
  }

  lemma {:induction false} OkAnswered(before: seq<Status>, after: seq<Status>, es: seq<Event>, queue: byte,
                                      head: byte, k: byte)
    requires Processing(before, after, es, queue, head) && after[k].Ok?
    ensures before[k].Ok? || Answered(es, k)
  {
    if !Answered(es, k) {
      NotAnswered(before[k], es, k);
    }
  }

  lemma {:induction false} StillAnswered(es: seq<Event>, e: Event)
    ensures forall k :: Answered(es, k) ==> Answered(es + [e], k)
    ensures Answered(es + [e], e.index)
  {
    assert (es + [e])[|es|] == e;
    forall k | Answered(es, k) ensures Answered(es + [e], k) {
      var i :| 0 <= i < |es| && es[i].index == k;
      assert (es + [e])[i].index == k;
    }
  }

  lemma {:induction false} OneMore(before: seq<Status>, after: seq<Status>, es: seq<Event>, queue: byte, head: byte,
                                   k: byte, result: Status)
    requires Processing(before, after, es, queue, head) && !Stale(k, queue, head) && !after[k].Ok?
    ensures Processing(before, after[k := result], es + [Processed(k, result)], queue, head)
  {
    var e := Processed(k, result);
    assert (es + [e])[..|es|] == es;
    NotOkSoFar(before, after, es, queue, head, k);
  }

  /** A datagram not content so far was never content. */
  lemma {:induction false} NotOkSoFar(before: seq<Status>, after: seq<Status>, es: seq<Event>, queue: byte,
                                      head: byte, k: byte)
    requires Processing(before, after, es, queue, head) && !after[k].Ok?
    ensures !before[k].Ok? && forall i :: 0 <= i < |es| && es[i].index == k ==> !es[i].result.Ok?
  {
    if Answered(es, k) {
      var m := LastAnswer(before[k], es, k);
      assert es[m].index == k;
    } else {
      NotAnswered(before[k], es, k);
    }
  }

  // ---- Every datagram ends once ---------------------------------------------

  function FailedCount(es: seq<Event>, k: byte): nat
    decreases |es|
  {
    if es == [] then 0
    else FailedCount(es[..|es| - 1], k) + if es[|es| - 1].Failed? && es[|es| - 1].index == k then 1 else 0
  }

  lemma {:induction false} FailedAppend(es: seq<Event>, e: Event, k: byte)
    ensures FailedCount(es + [e], k) == FailedCount(es, k) + if e.Failed? && e.index == k then 1 else 0
  {
    assert (es + [e])[..|es|] == es;
  }

  /** A datagram among the first `n` of the window is reported once if not content, with its
      status; others are not reported. */
  lemma {:induction false} ErrorsOnce(status: seq<Status>, queue: byte, n: nat, k: byte)
    requires |status| == 256 && n <= 256
    ensures FailedCount(Errors(status, queue, n), k) == if Ahead(k, queue) < n && !status[k].Ok? then 1 else 0
    ensures forall i :: 0 <= i < |Errors(status, queue, n)| ==>
              && Errors(status, queue, n)[i].Failed?
              && Errors(status, queue, n)[i].status == status[Errors(status, queue, n)[i].index]
    decreases n
  {
    if n > 0 {
      ErrorsOnce(status, queue, n - 1, k);
      var x := At(queue, n - 1);
      AtAhead(queue, n - 1);
      AheadAt(k, queue);
      var before := Errors(status, queue, n - 1);
      if !status[x].Ok? {
        FailedAppend(before, Failed(x, status[x]), k);
      } else {
        assert before + [] == before;
      }
    }
  }

  /** Every datagram of the window ends once: content, after which it is not processed again,
      or reported failed exactly once, with what its last processing said or as lost or unsent.
      Nothing outside the window is touched. */
  lemma {:induction false} EachEndsOnce(start: seq<Status>, end: seq<Status>, es: seq<Event>, queue: byte, head: byte,
                                        k: byte)
    requires |start| == 256 && Open(start, queue, head) && Processing(start, end, es, queue, head)
    ensures var content := exists i :: 0 <= i < |es| && es[i] == Processed(k, Ok);
            var failed := FailedCount(Errors(end, queue, Ahead(head, queue)), k);
            && (Stale(k, queue, head) ==> !Answered(es, k) && failed == 0)
            && (!Stale(k, queue, head) ==> failed == (if content then 0 else 1) && (content <==> end[k].Ok?))
            && (!Stale(k, queue, head) && !Answered(es, k) ==> end[k] == start[k] && end[k] in {Lost, SendError})
            && (forall i, j :: 0 <= i < j < |es| && es[i] == Processed(k, Ok) ==> es[j].index != k)
  {
    ErrorsOnce(end, queue, Ahead(head, queue), k);
    if Answered(es, k) {
      var m := LastAnswer(start[k], es, k);
      assert es[m] == Processed(k, end[k]);
      forall i | 0 <= i < m && es[i].index == k ensures !es[i].result.Ok? {
        assert es[i].index == es[m].index;
      }
    } else {
      NotAnswered(start[k], es, k);
    }
  }
}
