/** The slave's reply mailbox (`response::Mailbox::send`, lib/src/Mailbox.cc): replies leave
    through a one-message mailbox in the ESC, and the master may ask for the last one again.
    The slave's step is proved against a function on values; the protocol between slave and
    master is then a state machine over all interleavings. */
module RepeatHandshake {
  import opened Bytes

  type Message = seq<byte>

  /** The mailbox SyncManager: content, full and read-interrupt flags, the master's repeat
      request bit and the slave's acknowledge bit. */
  datatype Sync = Sync(buffer: Message, full: bool, irqRead: bool, request: bool, ack: bool)

  /** The slave's side: replies to send, the last one sent, and the one to repeat. An empty
      message stands for none. */
  datatype Slave = Slave(toSend: seq<Message>, lastSent: Message, again: Message)

  datatype State = State(sync: Sync, slave: Slave)

  // ---- The ESC --------------------------------------------------------------

  /** Whether a write at the start of an empty mailbox of `size` bytes is taken. */
  predicate Takes(size: nat, length: nat) { 0 < length <= size }

  /** A write to the empty mailbox: clears the read interrupt, and fills the mailbox when
      it reaches the last byte. */
  function Written(sync: Sync, size: nat, m: Message): Sync {
    if Takes(size, |m|) then sync.(buffer := m, full := |m| == size, irqRead := false) else sync
  }

  /** The single byte written to reset the interrupt: never the last one of a mailbox
      longer than a byte. */
  function Touched(sync: Sync): Sync
  {
    if sync.full then sync else sync.(buffer := Poked(sync.buffer), irqRead := false)
  }

  function Poked(m: Message): Message { if m == [] then [0] else m[0 := 0] }

  // ---- One call of send -----------------------------------------------------

  function SendStep(size: nat, s: State): State {
    var seen := s.sync;
    var slave1 := if seen.irqRead then s.slave.(again := s.slave.lastSent) else s.slave;
    var sync1 := if seen.irqRead then Touched(seen) else seen;
    if seen.request != seen.ack then
      var sync2 := if seen.full then sync1.(full := false) else sync1;
      State(Written(sync2, size, slave1.again).(ack := seen.request), slave1)
    else if seen.full || slave1.toSend == [] then State(sync1, slave1)
    else if Takes(size, |slave1.toSend[0]|) then
      State(Written(sync1, size, slave1.toSend[0]),
            slave1.(lastSent := slave1.toSend[0], toSend := slave1.toSend[1..]))
    else State(sync1, slave1)
  }

  class Esc {
    const size: nat
    var sync: Sync

    constructor (size: nat, sync: Sync)
      ensures this.size == size && this.sync == sync
    {
      this.size, this.sync := size, sync;
    }

    /** A PDI write of a whole message; refused while the mailbox is full. */
    method Write(m: Message) returns (written: int)
      modifies this`sync
      ensures written > 0 <==> !old(sync).full && Takes(size, |m|)
      ensures sync == if written > 0 then Written(old(sync), size, m) else old(sync)
    {
      if sync.full {
        return -11;
      }
      if |m| > size {
        return -13;
      }
      if |m| == 0 {
        return 0;
      }
      sync := sync.(buffer := m, full := |m| == size, irqRead := false);
      written := |m|;
    }

    /** The dummy byte that resets the read interrupt. */
    method Touch()
      modifies this`sync
      ensures sync == Touched(old(sync))
    {
      if !sync.full {
        sync := sync.(buffer := Poked(sync.buffer), irqRead := false);
      }
    }

    /** `deactivateSm` then `activateSm`: empties the mailbox. */
    method Restart()
      modifies this`sync
      ensures sync == old(sync).(full := false)
    {
      sync := sync.(full := false);
    }

    method Acknowledge(bit: bool)
      modifies this`sync
      ensures sync == old(sync).(ack := bit)
    {
      sync := sync.(ack := bit);
    }
  }

  class Mailbox {
    const esc: Esc
    var toSend: seq<Message>
    var lastSent: Message
    var again: Message

    constructor (esc: Esc)
      ensures this.esc == esc && toSend == [] && lastSent == [] && again == []
    {
      this.esc, toSend, lastSent, again := esc, [], [], [];
    }

    ghost function Snapshot(): State
      reads this, esc
    {
      State(esc.sync, Slave(toSend, lastSent, again))
    }

    /** `AbstractMessage::reply`. */
    method Reply(m: Message)
      modifies this`toSend
      ensures toSend == old(toSend) + [m]
    {
      toSend := toSend + [m];
    }

    /** `Mailbox::send`. */
    method Send()
      modifies this, esc
      ensures Snapshot() == SendStep(esc.size, old(Snapshot()))
    {
      var seen := esc.sync;
      if seen.irqRead {
        again := lastSent;
        esc.Touch();
      }
      if seen.request != seen.ack {
        if seen.full {
          esc.Restart();
        }
        var ignored := esc.Write(again);
        esc.Acknowledge(seen.request);
        return;
      }
      if seen.full {
        return;
      }
      if toSend == [] {
        return;
      }
      var written := esc.Write(toSend[0]);
      if written > 0 {
        lastSent := toSend[0];
        toSend := toSend[1..];
      }
    }
  }

  // ---- Slave and master together --------------------------------------------

  /** What the slave and the master may do next. */
  datatype Action = Queue(reply: Message) | Send | Fetch | AskRepeat

  /** A message the master read, and whether a repeat was acknowledged since the last. */
  datatype Reading = Reading(message: Message, repeated: bool)

  datatype World = World(state: State, repeated: bool, log: seq<Reading>, queued: seq<Message>)

  const START := World(State(Sync([], false, false, false, false), Slave([], [], [])), false, [], [])

  function Do(size: nat, w: World, a: Action): World {
    match a
    case Queue(m) =>
      w.(queued := w.queued + [m], state := w.state.(slave := w.state.slave.(toSend := w.state.slave.toSend + [m])))
    case Send =>
      w.(state := SendStep(size, w.state), repeated := w.repeated || w.state.sync.request != w.state.sync.ack)
    case Fetch =>
      if !w.state.sync.full then w
      else w.(log := w.log + [Reading(w.state.sync.buffer, w.repeated)], repeated := false,
              state := w.state.(sync := w.state.sync.(full := false, irqRead := true)))
    case AskRepeat => w.(state := w.state.(sync := w.state.sync.(request := !w.state.sync.request)))
  }

  function Run(size: nat, w: World, actions: seq<Action>): World
    decreases |actions|
  {
    if actions == [] then w
    else Do(size, Run(size, w, actions[..|actions| - 1]), actions[|actions| - 1])
  }

  /** A reply shorter than the mailbox does not reach its last byte. */
  predicate Short(size: nat, m: Message) { 0 < |m| < size }

  // ---- What the master makes of its readings --------------------------------

  /** The readings with repeats collapsed: a repeated one stands for the reading before it, if
      there was one. */
  function Collapse(log: seq<Reading>): seq<Message>
    decreases |log|
  {
    if log == [] then []
    else
      var before, r := Collapse(log[..|log| - 1]), log[|log| - 1];
      if r.repeated && before != [] then before else before + [r.message]
  }

  /** Every repeat is a copy of what it repeats. */
  ghost predicate RepeatsCopy(log: seq<Reading>) {
    forall i :: 0 <= i < |log| && log[i].repeated && Collapse(log[..i]) != [] ==>
      log[i].message == Last(Collapse(log[..i]))
  }

  function Last(ms: seq<Message>): Message
    requires ms != []
  {
    ms[|ms| - 1]
  }

  /** The mailbox holds a repeat. */
  predicate Repeating(w: World) {
    Collapse(w.log) != [] && w.repeated
  }

  /** A reply waiting in the mailbox for its first reading. */
  function Pending(w: World): seq<Message> {
    if w.state.sync.full && !Repeating(w) then [w.state.sync.buffer] else []
  }

  /** No reply is lost or doubled: those read, the one in the mailbox and those still queued
      are all there were, in order. */
  ghost predicate Lossless(w: World) {
    w.queued == Collapse(w.log) + Pending(w) + w.state.slave.toSend
  }

  /** The master asks only while no reply waits for its first reading; replies are not short. */
  predicate Allowed(size: nat, w: World, a: Action) {
    match a
    case Queue(m) => !Short(size, m)
    case AskRepeat => Pending(w) == []
    case _ => true
  }

  ghost predicate Legal(size: nat, actions: seq<Action>) {
    forall i :: 0 <= i < |actions| ==> Allowed(size, Run(size, START, actions[..i]), actions[i])
  }

  /** The handshake between what was read, what is in the mailbox and what is kept to repeat. */
  ghost predicate InStep(size: nat, w: World) {
    var sync, slave, read := w.state.sync, w.state.slave, Collapse(w.log);
    && size > 1
    && Lossless(w)
    && (sync.irqRead ==> !sync.full)
    && (sync.request != sync.ack ==> Pending(w) == [])
    && (w.log != [] ==> read != [])
    && (read == [] ==> slave.again == [] && !sync.irqRead)
    && (read != [] ==> |Last(read)| == size)
    && (read != [] ==> if sync.irqRead then slave.lastSent == Last(read) else slave.again == Last(read))
    && (read != [] && Pending(w) == [] ==> slave.lastSent == Last(read))
    && (Pending(w) != [] ==> slave.lastSent == sync.buffer && |sync.buffer| == size)
    && (Repeating(w) ==> sync.full && sync.buffer == Last(read))
    && RepeatsCopy(w.log)
  }

  ghost predicate Inv(size: nat, w: World) {
    InStep(size, w) && forall i :: 0 <= i < |w.queued| ==> !Short(size, w.queued[i])
  }

  // ---- The invariant --------------------------------------------------------

  lemma {:induction false} QueueInStep(size: nat, w: World, m: Message)
    requires InStep(size, w)
    ensures InStep(size, Do(size, w, Queue(m)))
  {
    var v := Do(size, w, Queue(m));
    var read, toSend := Collapse(w.log), w.state.slave.toSend;
    assert Pending(v) == Pending(w);
    assert v.queued == read + Pending(w) + (toSend + [m]);
  }

  lemma {:induction false} QueueKeeps(size: nat, w: World, m: Message)
    requires Inv(size, w) && !Short(size, m)
    ensures Inv(size, Do(size, w, Queue(m)))
  {
    hide InStep;
    QueueInStep(size, w, m);
  }

  lemma {:induction false} AskKeeps(size: nat, w: World)
    requires Inv(size, w) && Pending(w) == []
    ensures Inv(size, Do(size, w, AskRepeat))
  {
    var v := Do(size, w, AskRepeat);
    assert Pending(v) == Pending(w) == [];
  }

  /** The log of a reading the master takes for new, and of a repeat. */
  lemma {:induction false} CollapseNext(log: seq<Reading>, r: Reading)
    ensures Collapse(log + [r])
            == if r.repeated && Collapse(log) != [] then Collapse(log) else Collapse(log) + [r.message]
    ensures RepeatsCopy(log) && (r.repeated && Collapse(log) != [] ==> r.message == Last(Collapse(log)))
            ==> RepeatsCopy(log + [r])
  {
    var next := log + [r];
    assert next[..|log|] == log;
    if RepeatsCopy(log) && (r.repeated && Collapse(log) != [] ==> r.message == Last(Collapse(log))) {
      forall i | 0 <= i < |next| && next[i].repeated && Collapse(next[..i]) != []
        ensures next[i].message == Last(Collapse(next[..i]))
      {
        if i < |log| { assert next[..i] == log[..i]; }
      }
    }
  }

  /** The readings after a fetch, and what the slave last sent. */
  lemma {:induction false} FetchReads(size: nat, w: World)
    requires Inv(size, w) && w.state.sync.full
    ensures var v := Do(size, w, Fetch);
            && Collapse(v.log) == Collapse(w.log) + Pending(w)
            && Collapse(v.log) != []
            && Last(Collapse(v.log)) == w.state.sync.buffer == w.state.slave.lastSent
            && |w.state.sync.buffer| == size
            && RepeatsCopy(v.log)
  {
    var r := Reading(w.state.sync.buffer, w.repeated);
    CollapseNext(w.log, r);
    hide Collapse, RepeatsCopy;
    assert Do(size, w, Fetch).log == w.log + [r];
  }

  lemma {:induction false} FetchKeeps(size: nat, w: World)
    requires Inv(size, w)
    ensures Inv(size, Do(size, w, Fetch))
  {
    if w.state.sync.full {
      FetchReads(size, w);
      var v := Do(size, w, Fetch);
      assert !Repeating(v) && Pending(v) == [];
      hide Collapse, RepeatsCopy;
      assert v.queued == Collapse(v.log) + [] + v.state.slave.toSend;
    }
  }

  lemma {:induction false} SendKeeps(size: nat, w: World)
    requires Inv(size, w)
    ensures Inv(size, Do(size, w, Send))
  {
    hide Collapse, RepeatsCopy;
    var v, sync, slave := Do(size, w, Send), w.state.sync, w.state.slave;
    if sync.request != sync.ack {
      assert Pending(w) == [] && Pending(v) == [];
    } else if !sync.full && slave.toSend != [] && Takes(size, |slave.toSend[0]|) {
      var m := slave.toSend[0];
      assert m in w.queued by { assert w.queued[|Collapse(w.log)|] == m; }
      assert Pending(w) == [] && Pending(v) == [m];
      assert Collapse(w.log) + [] + slave.toSend == Collapse(w.log) + [m] + slave.toSend[1..];
    } else {
      assert Pending(v) == Pending(w);
    }
  }

  lemma {:induction false} StepKeeps(size: nat, w: World, a: Action)
    requires Inv(size, w) && Allowed(size, w, a)
    ensures Inv(size, Do(size, w, a))
  {
    hide Inv, Do, InStep, Pending;
    match a
    case Queue(m) => QueueKeeps(size, w, m);
    case Send => SendKeeps(size, w);
    case Fetch => FetchKeeps(size, w);
    case AskRepeat => AskKeeps(size, w);
  }

  lemma {:induction false} StartInv(size: nat)
    requires size > 1
    ensures Inv(size, START)
  {
    assert START.queued == [] + [] + [];
  }

  lemma {:induction false} LegalBefore(size: nat, actions: seq<Action>, n: nat)
    requires Legal(size, actions) && n < |actions|
    ensures Legal(size, actions[..n]) && Allowed(size, Run(size, START, actions[..n]), actions[n])
  {
    hide Run, Allowed;
    var before := actions[..n];
    forall i | 0 <= i < n ensures Allowed(size, Run(size, START, before[..i]), before[i]) {
      assert before[..i] == actions[..i];
    }
  }

  lemma {:induction false} InvAlways(size: nat, actions: seq<Action>)
    requires size > 1 && Legal(size, actions)
    ensures Inv(size, Run(size, START, actions))
    decreases |actions|
  {
    hide Inv, InStep, Do, Legal, Allowed;
    if actions == [] {
      StartInv(size);
    } else {
      var n := |actions| - 1;
      LegalBefore(size, actions, n);
      InvAlways(size, actions[..n]);
      StepKeeps(size, Run(size, START, actions[..n]), actions[n]);
    }
  }

  /** Over every interleaving in which the master asks for repeats only while no reply waits for
      its first reading: what the master reads, repeats collapsed, is a prefix of the replies
      the slave queued, in order; the rest is still in the mailbox or in the queue; every repeat
      copies the reading before it; and a read interrupt is only pending on an empty
      mailbox, so resetting it never damages an unread reply. */
  lemma {:induction false} RepliesArriveInOrder(size: nat, actions: seq<Action>)
    requires size > 1 && Legal(size, actions)
    ensures var w := Run(size, START, actions);
            && Collapse(w.log) <= w.queued
            && w.queued == Collapse(w.log) + Pending(w) + w.state.slave.toSend
            && RepeatsCopy(w.log)
            && (w.state.sync.irqRead ==> !w.state.sync.full)
  {
    InvAlways(size, actions);
  }

  // ---- Why the master may not ask at any time, nor a reply be short ----------

  /** Asking for a repeat and having it served. */
  function Asked(size: nat, w: World): World { Do(size, Do(size, w, AskRepeat), Send) }

  /** The reply an untimely repeat displaces: it is neither read, nor in the mailbox, nor
      queued. The mailbox holds the reply read before it, or nothing if none was. */
  lemma {:induction false} AskingDisplaces(size: nat, w: World)
    requires Inv(size, w) && Pending(w) != []
    ensures var u := Asked(size, w);
            && u.queued == Collapse(u.log) + [w.state.sync.buffer] + u.state.slave.toSend
            && Pending(u) == []
            && (u.state.sync.full <==> Collapse(u.log) != [])
            && (u.state.sync.full ==> u.state.sync.buffer == Last(Collapse(u.log)))
  {
    hide Collapse, RepeatsCopy;
  }

  /** A repeat asked for and served costs no reply if and only if none was waiting for its
      first reading. */
  lemma {:induction false} AskExact(size: nat, w: World)
    requires Inv(size, w)
    ensures Lossless(Asked(size, w)) <==> Pending(w) == []
  {
    if Pending(w) == [] {
      AskKeeps(size, w);
      SendKeeps(size, Do(size, w, AskRepeat));
    } else {
      AskingDisplaces(size, w);
      var u := Asked(size, w);
      assert |u.queued| == |Collapse(u.log)| + 1 + |u.state.slave.toSend|;
    }
  }

  /** The same after every run allowed so far. */
  lemma {:induction false} AskExactAlways(size: nat, actions: seq<Action>)
    requires size > 1 && Legal(size, actions)
    ensures Lossless(Run(size, START, actions + [AskRepeat, Send])) <==> Pending(Run(size, START, actions)) == []
  {
    InvAlways(size, actions);
    TwoMore(size, actions, AskRepeat, Send);
    AskExact(size, Run(size, START, actions));
  }

  /** What was displaced only comes back if it is asked for again, and then as a repeat of
      another reply: a copy that is none. */
  lemma {:induction false} DisplacedComesAsRepeat(size: nat, w: World)
    requires Inv(size, w) && Pending(w) != [] && Collapse(w.log) != []
    ensures var u := Asked(size, Do(size, Asked(size, w), Fetch));
            u.state.sync.full && Repeating(u) && u.state.sync.buffer == w.state.sync.buffer
            && Collapse(u.log) == Collapse(w.log)
  {
    var v := Asked(size, w);
    var r := Reading(v.state.sync.buffer, v.repeated);
    AskingDisplaces(size, w);
    CollapseNext(v.log, r);
    hide Collapse, RepeatsCopy;
    assert Do(size, v, Fetch).log == v.log + [r];
  }

  /** Sending costs no reply if and only if the one sent is not shorter than the mailbox. */
  lemma {:induction false} SendExact(size: nat, w: World)
    requires InStep(size, w)
    ensures var sync, toSend := w.state.sync, w.state.slave.toSend;
            Lossless(Do(size, w, Send)) <==>
            !(sync.request == sync.ack && !sync.full && toSend != [] && Short(size, toSend[0]))
  {
    hide Collapse, RepeatsCopy;
    var v, sync, slave := Do(size, w, Send), w.state.sync, w.state.slave;
    if sync.request == sync.ack && !sync.full && slave.toSend != [] && Takes(size, |slave.toSend[0]|) {
      var m := slave.toSend[0];
      assert Pending(w) == [] && Pending(v) == if |m| == size then [m] else [];
      assert Collapse(w.log) + [] + slave.toSend == Collapse(w.log) + [m] + slave.toSend[1..];
    } else {
      assert Pending(v) == Pending(w);
    }
  }

  /** After every allowed run that leaves the mailbox and the queue empty, a reply arrives if
      and only if it is not short. */
  lemma {:induction false} ShortReplyExact(size: nat, actions: seq<Action>, m: Message)
    requires size > 1 && Legal(size, actions)
    requires var w := Run(size, START, actions);
             !w.state.sync.full && w.state.sync.request == w.state.sync.ack && w.state.slave.toSend == []
    ensures Lossless(Run(size, START, actions + [Queue(m), Send])) <==> !Short(size, m)
  {
    InvAlways(size, actions);
    TwoMore(size, actions, Queue(m), Send);
    var w := Run(size, START, actions);
    QueueInStep(size, w, m);
    SendExact(size, Do(size, w, Queue(m)));
  }

  lemma {:induction false} TwoMore(size: nat, actions: seq<Action>, a: Action, b: Action)
    ensures Run(size, START, actions + [a, b]) == Do(size, Do(size, Run(size, START, actions), a), b)
  {
    hide Do;
    var all := actions + [a, b];
    assert all[..|all| - 1] == actions + [a];
    assert (actions + [a])[..|actions|] == actions;
  }

  // ---- Runs that lose a reply -------------------------------------------------

  /** The second of two replies is displaced: the master reads the first one twice. */
  lemma {:induction false} AskingWhileFullLoses(size: nat, a: Message, b: Message)
    requires size > 1 && |a| == |b| == size
    ensures var w := Run(size, START, [Queue(a), Queue(b), Send, Fetch, Send, AskRepeat, Send, Fetch]);
            && w.log == [Reading(a, false), Reading(a, true)]
            && !w.state.sync.full && w.state.slave.toSend == []
  {
    hide Run;
    var w0 := Do(size, Do(size, START, Queue(a)), Queue(b));
    assert w0.state.slave.toSend == [a, b];
    var w1 := Do(size, w0, Send);
    assert w1.state == State(Sync(a, true, false, false, false), Slave([b], a, []));
    var w2 := Do(size, w1, Fetch);
    assert w2.state == State(Sync(a, false, true, false, false), Slave([b], a, []));
    var w3 := Do(size, w2, Send);
    assert w3.state == State(Sync(b, true, false, false, false), Slave([], b, a));
    var w4 := Do(size, w3, AskRepeat);
    assert w4.state == State(Sync(b, true, false, true, false), Slave([], b, a));
    var w5 := Do(size, w4, Send);
    assert w5.state == State(Sync(a, true, false, true, true), Slave([], b, a)) && w5.repeated;
    EightSteps(size, START, [Queue(a), Queue(b), Send, Fetch, Send, AskRepeat, Send, Fetch]);
  }

  /** A reply shorter than the mailbox leaves the queue without ever filling the mailbox:
      the next one overwrites it. */
  lemma {:induction false} ShortReplyLost(size: nat, short: Message, next: Message)
    requires Short(size, short) && |next| == size
    ensures var w := Run(size, START, [Queue(short), Queue(next), Send, Fetch, Send, Fetch, Fetch, Fetch]);
            w.log == [Reading(next, false)] && w.state.slave.toSend == [] && !w.state.sync.full
  {
    hide Run;
    var w0 := Do(size, Do(size, START, Queue(short)), Queue(next));
    assert w0.state.slave.toSend == [short, next];
    var w1 := Do(size, w0, Send);
    assert w1.state == State(Sync(short, false, false, false, false), Slave([next], short, []));
    assert Do(size, w1, Fetch) == w1;
    var w2 := Do(size, w1, Send);
    assert w2.state == State(Sync(next, true, false, false, false), Slave([], next, []));
    EightSteps(size, START, [Queue(short), Queue(next), Send, Fetch, Send, Fetch, Fetch, Fetch]);
  }

  lemma {:induction false} EightSteps(size: nat, w: World, s: seq<Action>)
    requires |s| == 8
    ensures Run(size, w, s) ==
            var half := Do(size, Do(size, Do(size, Do(size, w, s[0]), s[1]), s[2]), s[3]);
            Do(size, Do(size, Do(size, Do(size, half, s[4]), s[5]), s[6]), s[7])
  {
    hide Do;
    StepOn(size, w, s, 0);
    StepOn(size, w, s, 1);
    StepOn(size, w, s, 2);
    StepOn(size, w, s, 3);
    StepOn(size, w, s, 4);
    StepOn(size, w, s, 5);
    StepOn(size, w, s, 6);
    StepOn(size, w, s, 7);
    assert s[..8] == s && s[..0] == [];
  }

  lemma {:induction false} StepOn(size: nat, w: World, s: seq<Action>, i: nat)
    requires i < |s|
    ensures Run(size, w, s[..i + 1]) == Do(size, Run(size, w, s[..i]), s[i])
    ensures i == 0 ==> Run(size, w, s[..0]) == w
  {
    assert s[..i + 1][..i] == s[..i];
  }
}
