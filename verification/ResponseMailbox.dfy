/** The slave's sessions (`response::Mailbox::handleMessage` and `process`, lib/src/Mailbox.cc):
    an incoming message is taken by a session, opens one, or is refused with an error reply.
    How a session answers a message, and which factories know it, is left to the caller. */
module ResponseMailbox {
  import opened Bytes

  type Message = seq<byte>
  type Session = nat

  const UNSUPPORTED_PROTOCOL := 0x02
  const NO_MORE_MEMORY := 0x07

  /** What a session makes of a message, with the replies it queues. */
  datatype Answer =
    | Noop
    | Continue(replies: seq<Message>)
    | Keep(replies: seq<Message>)
    | Finalize(replies: seq<Message>)

  datatype Outcome = Taken(session: Session, answer: Answer) | Opened(session: Session) | Refused(code: u16)

  datatype State = State(sessions: seq<Session>, toSend: seq<Message>)

  /** `replyError`: the refused message, long enough for the error, turned into it. */
  function Refusal(raw: Message, code: u16): (r: Message)
    ensures |r| == if |raw| < 10 then 10 else |raw|
    ensures Word(r, 0) == 4 && r[5] % 16 == 0 && Word(r, 6) == 1 && Word(r, 8) == code
    ensures forall i :: 0 <= i < |raw| && (2 <= i < 5 || 10 <= i) ==> r[i] == raw[i]
    ensures |raw| > 5 ==> r[5] / 16 == raw[5] / 16
  {
    var b := if |raw| < 10 then raw + Zeros(10 - |raw|) else raw;
    b[0 := 4][1 := 0][5 := b[5] / 16 * 16][6 := 1][7 := 0][8 := code % 0x100][9 := code / 0x100]
  }

  function AnswerOf(answers: map<Session, Answer>, s: Session): Answer {
    if s in answers then answers[s] else Noop
  }

  /** The position of the first session that does not pass the message on, or the length. */
  function Taker(sessions: seq<Session>, answers: map<Session, Answer>): (k: nat)
    ensures k <= |sessions|
    ensures forall i :: 0 <= i < k ==> AnswerOf(answers, sessions[i]).Noop?
    ensures k < |sessions| ==> !AnswerOf(answers, sessions[k]).Noop?
    decreases |sessions|
  {
    if sessions == [] then 0
    else
      var n := |sessions| - 1;
      var k := Taker(sessions[..n], answers);
      if k < n then k else if AnswerOf(answers, sessions[n]).Noop? then n + 1 else n
  }

  /** What becomes of a message: `knows` tells which factories accept it. */
  function OutcomeOf(s: State, max: nat, answers: map<Session, Answer>, knows: seq<bool>, newcomer: Session): Outcome {
    var k := Taker(s.sessions, answers);
    if k < |s.sessions| then Taken(s.sessions[k], answers[s.sessions[k]])
    else if |s.sessions| >= max then Refused(NO_MORE_MEMORY)
    else if true in knows then Opened(newcomer)
    else Refused(UNSUPPORTED_PROTOCOL)
  }

  function Without(xs: seq<Session>, x: Session): seq<Session>
    decreases |xs|
  {
    if xs == [] then [] else if xs[0] == x then xs[1..] else [xs[0]] + Without(xs[1..], x)
  }

  /** One outcome, one change. */
  function Applied(s: State, raw: Message, o: Outcome): State {
    match o
    case Taken(_, Noop) => s
    case Taken(x, Finalize(replies)) => State(Without(s.sessions, x), s.toSend + replies)
    case Taken(_, answer) => s.(toSend := s.toSend + answer.replies)
    case Opened(x) => s.(sessions := s.sessions + [x])
    case Refused(code) => s.(toSend := s.toSend + [Refusal(raw, code)])
  }

  predicate NoDup(xs: seq<Session>) { forall i, j :: 0 <= i < j < |xs| ==> xs[i] != xs[j] }

  lemma {:induction false} WithoutAt(xs: seq<Session>, k: nat)
    requires NoDup(xs) && k < |xs|
    ensures Without(xs, xs[k]) == xs[..k] + xs[k + 1..]
    decreases k
  {
    if k > 0 {
      WithoutAt(xs[1..], k - 1);
      assert xs[1..][k - 1] == xs[k] && xs[1..][..k - 1] == xs[1..k] && xs[1..][k..] == xs[k + 1..];
      assert xs[..k] == [xs[0]] + xs[1..k];
    }
  }

  class Mailbox {
    const max: nat
    var sessions: seq<Session>
    var toSend: seq<Message>

    constructor (max: nat)
      ensures this.max == max && Snapshot() == State([], [])
    {
      this.max, sessions, toSend := max, [], [];
    }

    ghost function Snapshot(): State
      reads this
    {
      State(sessions, toSend)
    }

    method ReplyError(raw: Message, code: u16)
      modifies this`toSend
      ensures toSend == old(toSend) + [Refusal(raw, code)]
    {
      var b := raw;
      if |b| < 10 {
        b := b + Zeros(10 - |b|);
      }
      b := b[5 := b[5] / 16 * 16];
      b := b[0 := 4][1 := 0];
      b := b[6 := 1][7 := 0];
      b := b[8 := code % 0x100][9 := code / 0x100];
      assert b == Refusal(raw, code);
      toSend := toSend + [b];
    }

    /** The sessions asked in turn. */
    method AskSessions(answers: map<Session, Answer>) returns (taken: bool)
      requires NoDup(sessions)
      modifies this
      ensures var k := Taker(old(sessions), answers);
              && taken == (k < |old(sessions)|)
              && Snapshot() == if taken then
                                 var x := old(sessions)[k];
                                 Applied(old(Snapshot()), [], Taken(x, answers[x]))
                               else old(Snapshot())
    {
      var i := 0;
      ghost var k := Taker(sessions, answers);
      while i < |sessions|
        invariant 0 <= i <= k && Snapshot() == old(Snapshot())
      {
        match AnswerOf(answers, sessions[i])
        case Noop =>
          i := i + 1;
        case Finalize(replies) =>
          WithoutAt(sessions, i);
          toSend := toSend + replies;
          sessions := sessions[..i] + sessions[i + 1..];
          return true;
        case Continue(replies) =>
          toSend := toSend + replies;
          return true;
        case Keep(replies) =>
          toSend := toSend + replies;
          return true;
      }
      taken := false;
    }

    /** `handleMessage`. */
    method HandleMessage(raw: Message, answers: map<Session, Answer>, knows: seq<bool>, newcomer: Session)
      requires NoDup(sessions) && newcomer !in sessions
      modifies this
      ensures Snapshot() == Applied(old(Snapshot()), raw, OutcomeOf(old(Snapshot()), max, answers, knows, newcomer))
    {
      var taken := AskSessions(answers);
      if taken {
        return;
      }
      if |sessions| >= max {
        ReplyError(raw, NO_MORE_MEMORY);
        return;
      }
      var i := 0;
      while i < |knows|
        invariant 0 <= i <= |knows| && true !in knows[..i] && Snapshot() == old(Snapshot())
      {
        if knows[i] {
          sessions := sessions + [newcomer];
          return;
        }
        i := i + 1;
      }
      ReplyError(raw, UNSUPPORTED_PROTOCOL);
    }

    /** `process`: the sessions asked in turn, without a message. */
    method Process(answers: map<Session, Answer>)
      requires NoDup(sessions)
      modifies this
      ensures var k := Taker(old(sessions), answers);
              Snapshot() == if k < |old(sessions)| then
                              var x := old(sessions)[k];
                              Applied(old(Snapshot()), [], Taken(x, answers[x]))
                            else old(Snapshot())
    {
      var ignored := AskSessions(answers);
    }

    method PopReply() returns (reply: Message)
      modifies this`toSend
      ensures old(toSend) == [] ==> reply == [] && toSend == []
      ensures old(toSend) != [] ==> [reply] + toSend == old(toSend)
    {
      if toSend == [] {
        return [];
      }
      reply := toSend[0];
      toSend := toSend[1..];
    }
  }
}
