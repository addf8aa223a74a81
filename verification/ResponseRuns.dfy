/** Every run of the slave's mailbox: messages handled, sessions at work, replies popped. */
module ResponseRuns {
  import opened ResponseMailbox

  datatype Action =
    | Handle(raw: Message, answers: map<Session, Answer>, knows: seq<bool>, newcomer: Session)
    | Work(answers: map<Session, Answer>)
    | Pop

  /** A reply queued, by a session or as the refusal of a message. */
  datatype Entry = BySession(session: Session, reply: Message) | ByRefusal(reply: Message)

  /** A message handled, and what became of it. */
  datatype Handled = Handled(raw: Message, outcome: Outcome)

  /** The mailbox and its history: the messages handled, the sessions begun, in order, and those
      ended, the replies queued, in order, and how many of them were popped. */
  datatype World = World(state: State, handled: seq<Handled>, begun: seq<Session>, ended: set<Session>,
                         log: seq<Entry>, popped: nat)

  const START := World(State([], []), [], [], {}, [], 0)

  function Entries(raw: Message, o: Outcome): (r: seq<Entry>)
  {
    match o
    case Taken(_, Noop) => []
    case Taken(x, answer) =>
      seq(|answer.replies|, i requires 0 <= i < |answer.replies| => BySession(x, answer.replies[i]))
    case Opened(_) => []
    case Refused(code) => [ByRefusal(Refusal(raw, code))]
  }

  function After(w: World, raw: Message, o: Outcome): World {
    w.(state := Applied(w.state, raw, o),
       begun := w.begun + (if o.Opened? then [o.session] else []),
       ended := w.ended + (if o.Taken? && o.answer.Finalize? then {o.session} else {}),
       log := w.log + Entries(raw, o))
  }

  function Do(w: World, max: nat, a: Action): World {
    match a
    case Handle(raw, answers, knows, newcomer) =>
      var o := OutcomeOf(w.state, max, answers, knows, newcomer);
      After(w, raw, o).(handled := w.handled + [Handled(raw, o)])
    case Work(answers) =>
      var k := Taker(w.state.sessions, answers);
      if k < |w.state.sessions| then
        var x := w.state.sessions[k];
        After(w, [], Taken(x, answers[x]))
      else w
    case Pop =>
      if w.state.toSend == [] then w
      else w.(state := w.state.(toSend := w.state.toSend[1..]), popped := w.popped + 1)
  }

  /** A new session is one of its own. */
  predicate Allowed(w: World, a: Action) { a.Handle? ==> a.newcomer !in w.begun }

  // ---- What a history tells -------------------------------------------------

  /** The sessions begun and not ended, in the order they began. */
  function Remaining(begun: seq<Session>, ended: set<Session>): seq<Session>
    decreases |begun|
  {
    if begun == [] then []
    else
      var before, x := Remaining(begun[..|begun| - 1], ended), begun[|begun| - 1];
      if x in ended then before else before + [x]
  }

  function RepliesOf(log: seq<Entry>): (r: seq<Message>)
    ensures |r| == |log| && forall i :: 0 <= i < |log| ==> r[i] == log[i].reply
  {
    seq(|log|, i requires 0 <= i < |log| => log[i].reply)
  }

  /** The refusals among the replies queued. */
  function RefusalsIn(log: seq<Entry>): seq<Message>
    decreases |log|
  {
    if log == [] then []
    else
      var before, e := RefusalsIn(log[..|log| - 1]), log[|log| - 1];
      if e.ByRefusal? then before + [e.reply] else before
  }

  /** The refusals owed to the messages refused. */
  function RefusalsOf(handled: seq<Handled>): seq<Message>
    decreases |handled|
  {
    if handled == [] then []
    else
      var before, h := RefusalsOf(handled[..|handled| - 1]), handled[|handled| - 1];
      if h.outcome.Refused? then before + [Refusal(h.raw, h.outcome.code)] else before
  }

  /** The sessions the messages opened. */
  function OpenedBy(handled: seq<Handled>): seq<Session>
    decreases |handled|
  {
    if handled == [] then []
    else
      var before, h := OpenedBy(handled[..|handled| - 1]), handled[|handled| - 1];
      if h.outcome.Opened? then before + [h.outcome.session] else before
  }

  /** The messages a session took. */
  function TakenIn(handled: seq<Handled>): seq<Message>
    decreases |handled|
  {
    if handled == [] then []
    else
      var before, h := TakenIn(handled[..|handled| - 1]), handled[|handled| - 1];
      if h.outcome.Taken? then before + [h.raw] else before
  }

  ghost predicate SessionsKept(w: World, max: nat) {
    && NoDup(w.begun) && w.state.sessions == Remaining(w.begun, w.ended) && |w.state.sessions| <= max
    && (forall x :: x in w.ended ==> x in w.begun)
  }

  predicate RepliesKept(w: World) {
    w.popped <= |w.log| && RepliesOf(w.log[w.popped..]) == w.state.toSend
  }

  predicate HistoryKept(handled: seq<Handled>, begun: seq<Session>, refusals: seq<Message>) {
    && begun == OpenedBy(handled) && refusals == RefusalsOf(handled)
    && |handled| == |TakenIn(handled)| + |begun| + |refusals|
  }

  ghost predicate Inv(w: World, max: nat) {
    SessionsKept(w, max) && RepliesKept(w) && HistoryKept(w.handled, w.begun, RefusalsIn(w.log))
  }

  // ---- Sessions -------------------------------------------------------------

  lemma {:induction false} RemainingIff(begun: seq<Session>, ended: set<Session>, x: Session)
    ensures x in Remaining(begun, ended) <==> x in begun && x !in ended
    decreases |begun|
  {
    if begun != [] {
      var n := |begun| - 1;
      RemainingIff(begun[..n], ended, x);
      assert begun == begun[..n] + [begun[n]];
    }
  }

  lemma {:induction false} RemainingNoDup(begun: seq<Session>, ended: set<Session>)
    requires NoDup(begun)
    ensures NoDup(Remaining(begun, ended))
    decreases |begun|
  {
    if begun != [] {
      var n := |begun| - 1;
      RemainingNoDup(begun[..n], ended);
      RemainingIff(begun[..n], ended, begun[n]);
    }
  }

  lemma {:induction false} WithoutNone(xs: seq<Session>, x: Session)
    requires x !in xs
    ensures Without(xs, x) == xs
    decreases |xs|
  {
    if xs != [] {
      WithoutNone(xs[1..], x);
    }
  }

  lemma {:induction false} WithoutLast(xs: seq<Session>, y: Session, x: Session)
    ensures Without(xs + [y], x) == if x in xs then Without(xs, x) + [y] else if y == x then xs else xs + [y]
    decreases |xs|
  {
    if xs == [] {
      assert [] + [y] == [y] && [y][1..] == [];
    } else {
      WithoutLast(xs[1..], y, x);
      assert (xs + [y])[1..] == xs[1..] + [y];
    }
  }

  /** Ending a session takes it out and leaves the others in their order. */
  lemma {:induction false} RemainingWithout(begun: seq<Session>, ended: set<Session>, x: Session)
    requires NoDup(begun)
    ensures Remaining(begun, ended + {x}) == Without(Remaining(begun, ended), x)
    decreases |begun|
  {
    if begun != [] {
      var n := |begun| - 1;
      var before := Remaining(begun[..n], ended);
      RemainingWithout(begun[..n], ended, x);
      RemainingIff(begun[..n], ended, x);
      WithoutLast(before, begun[n], x);
      if x !in before { WithoutNone(before, x); }
    }
  }

  // ---- Steps ----------------------------------------------------------------

  lemma {:induction false} RefusalsCat(log: seq<Entry>, more: seq<Entry>)
    ensures RefusalsIn(log + more) == RefusalsIn(log) + RefusalsIn(more)
    decreases |more|
  {
    if more == [] {
      assert log + more == log;
    } else {
      var n := |more| - 1;
      RefusalsCat(log, more[..n]);
      assert (log + more)[..|log| + n] == log + more[..n];
    }
  }

  lemma {:induction false} NoRefusals(log: seq<Entry>)
    requires forall i :: 0 <= i < |log| ==> log[i].BySession?
    ensures RefusalsIn(log) == []
    decreases |log|
  {
    if log != [] {
      NoRefusals(log[..|log| - 1]);
    }
  }

  /** The refusals an outcome adds to the log. */
  lemma {:induction false} RefusalsAdded(log: seq<Entry>, raw: Message, o: Outcome)
    ensures RefusalsIn(log + Entries(raw, o)) == RefusalsIn(log) + if o.Refused? then [Refusal(raw, o.code)] else []
  {
    hide Refusal;
    RefusalsCat(log, Entries(raw, o));
    if o.Refused? {
      assert Entries(raw, o)[..0] == [];
    } else {
      NoRefusals(Entries(raw, o));
    }
  }

  /** The sessions and replies after an outcome. */
  lemma {:induction false} AfterSessions(w: World, max: nat, raw: Message, o: Outcome)
    requires SessionsKept(w, max)
    requires o.Taken? ==> o.session in w.state.sessions && !o.answer.Noop?
    requires o.Opened? ==> o.session !in w.begun && |w.state.sessions| < max
    ensures SessionsKept(After(w, raw, o), max)
  {
    hide Refusal, Entries;
    var v := After(w, raw, o);
    if o.Opened? {
      assert v.begun[..|w.begun|] == w.begun;
    } else {
      assert w.begun + [] == w.begun;
    }
    if o.Taken? {
      RemainingIff(w.begun, w.ended, o.session);
    }
    if o.Taken? && o.answer.Finalize? {
      RemainingNoDup(w.begun, w.ended);
      RemainingWithout(w.begun, w.ended, o.session);
      var k :| 0 <= k < |w.state.sessions| && w.state.sessions[k] == o.session;
      WithoutAt(w.state.sessions, k);
    } else {
      assert w.ended + {} == w.ended;
    }
  }

  lemma {:induction false} AfterReplies(w: World, max: nat, raw: Message, o: Outcome)
    requires Inv(w, max)
    ensures RepliesKept(After(w, raw, o))
  {
    hide Refusal, Remaining, OpenedBy, RefusalsIn, RefusalsOf, TakenIn, Without;
    var v := After(w, raw, o);
    assert v.log[w.popped..] == w.log[w.popped..] + Entries(raw, o);
    assert RepliesOf(v.log[w.popped..]) == RepliesOf(w.log[w.popped..]) + RepliesOf(Entries(raw, o));
    if o.Taken? && !o.answer.Noop? {
      assert RepliesOf(Entries(raw, o)) == o.answer.replies;
    }
  }

  lemma {:induction false} HandleKeeps(w: World, max: nat, raw: Message, answers: map<Session, Answer>,
                                       knows: seq<bool>, newcomer: Session)
    requires Inv(w, max) && newcomer !in w.begun
    ensures Inv(Do(w, max, Handle(raw, answers, knows, newcomer)), max)
  {
    var o := OutcomeOf(w.state, max, answers, knows, newcomer);
    assert o.Taken? ==> o.session in w.state.sessions && !o.answer.Noop?;
    assert o.Opened? ==> o.session == newcomer && |w.state.sessions| < max;
    AfterSessions(w, max, raw, o);
    AfterReplies(w, max, raw, o);
    RefusalsAdded(w.log, raw, o);
    HistoryStep(w.handled, w.begun, RefusalsIn(w.log), Handled(raw, o));
    HandledAside(After(w, raw, o), w.handled + [Handled(raw, o)], max);
    hide SessionsKept, RepliesKept, HistoryKept, RefusalsIn, OutcomeOf, Entries, Applied, Refusal;
  }

  /** The list of messages handled plays no part in sessions and replies. */
  lemma {:induction false} HandledAside(v: World, handled: seq<Handled>, max: nat)
    requires SessionsKept(v, max) && RepliesKept(v)
    ensures SessionsKept(v.(handled := handled), max) && RepliesKept(v.(handled := handled))
  {
  }

  lemma {:induction false} HistoryStep(handled: seq<Handled>, begun: seq<Session>, refusals: seq<Message>, h: Handled)
    requires HistoryKept(handled, begun, refusals)
    ensures HistoryKept(handled + [h], begun + (if h.outcome.Opened? then [h.outcome.session] else []),
                        refusals + if h.outcome.Refused? then [Refusal(h.raw, h.outcome.code)] else [])
  {
    HistoryGrows(handled, h);
    hide Refusal, OpenedBy, RefusalsOf, TakenIn;
  }

  lemma {:induction false} HistoryGrows(handled: seq<Handled>, h: Handled)
    ensures OpenedBy(handled + [h]) == OpenedBy(handled) + if h.outcome.Opened? then [h.outcome.session] else []
    ensures RefusalsOf(handled + [h])
            == RefusalsOf(handled) + if h.outcome.Refused? then [Refusal(h.raw, h.outcome.code)] else []
    ensures TakenIn(handled + [h]) == TakenIn(handled) + if h.outcome.Taken? then [h.raw] else []
  {
    hide Refusal;
    assert (handled + [h])[..|handled|] == handled;
  }

  lemma {:induction false} WorkKeeps(w: World, max: nat, answers: map<Session, Answer>)
    requires Inv(w, max)
    ensures Inv(Do(w, max, Work(answers)), max)
  {
    var k := Taker(w.state.sessions, answers);
    if k < |w.state.sessions| {
      var o := Taken(w.state.sessions[k], answers[w.state.sessions[k]]);
      AfterSessions(w, max, [], o);
      AfterReplies(w, max, [], o);
      RefusalsAdded(w.log, [], o);
      assert w.begun + [] == w.begun && RefusalsIn(w.log) + [] == RefusalsIn(w.log);
      hide SessionsKept, RepliesKept, HistoryKept, Refusal, Entries, RefusalsIn, Applied;
    }
  }

  lemma {:induction false} PopKeeps(w: World, max: nat)
    requires Inv(w, max)
    ensures Inv(Do(w, max, Pop), max)
  {
    hide Remaining, RefusalsIn, OpenedBy, RefusalsOf, TakenIn;
    if w.state.toSend != [] {
      assert w.log[w.popped + 1..] == w.log[w.popped..][1..];
      assert RepliesOf(w.log[w.popped..][1..]) == RepliesOf(w.log[w.popped..])[1..];
    }
  }

  lemma {:induction false} StepKeeps(w: World, max: nat, a: Action)
    requires Inv(w, max) && Allowed(w, a)
    ensures Inv(Do(w, max, a), max)
  {
    hide Inv, Do;
    match a
    case Handle(raw, answers, knows, newcomer) => HandleKeeps(w, max, raw, answers, knows, newcomer);
    case Work(answers) => WorkKeeps(w, max, answers);
    case Pop => PopKeeps(w, max);
  }

  // ---- Whole runs -----------------------------------------------------------

  ghost predicate Trace(ws: seq<World>, max: nat, actions: seq<Action>) {
    && |ws| == |actions| + 1 && ws[0] == START
    && forall i :: 0 <= i < |actions| ==> Allowed(ws[i], actions[i]) && ws[i + 1] == Do(ws[i], max, actions[i])
  }

  lemma {:induction false} StartGood(max: nat)
    ensures Inv(START, max)
  {
  }

  lemma {:induction false} InvAlways(ws: seq<World>, max: nat, actions: seq<Action>, i: nat)
    requires Trace(ws, max, actions) && i < |ws|
    ensures Inv(ws[i], max)
    decreases i
  {
    hide Inv, Do;
    if i == 0 {
      StartGood(max);
    } else {
      InvAlways(ws, max, actions, i - 1);
      assert Allowed(ws[i - 1], actions[i - 1]) && ws[i] == Do(ws[i - 1], max, actions[i - 1]);
      StepKeeps(ws[i - 1], max, actions[i - 1]);
    }
  }

  /** Over every run: at most `max` sessions are open, and they are those begun and not ended, in
      the order they began; every message handled was taken by a session, began one, or was
      refused; the sessions begun are those the messages opened, in order; the refusals among
      the replies are those of the messages refused, in order; and replies leave in the order
      they were queued. */
  lemma {:induction false} EveryRun(ws: seq<World>, max: nat, actions: seq<Action>, i: nat)
    requires Trace(ws, max, actions) && i < |ws|
    ensures var w := ws[i];
            && |w.state.sessions| <= max && w.state.sessions == Remaining(w.begun, w.ended)
            && |w.handled| == |TakenIn(w.handled)| + |w.begun| + |RefusalsIn(w.log)|
            && w.begun == OpenedBy(w.handled) && RefusalsIn(w.log) == RefusalsOf(w.handled)
            && w.popped <= |w.log| && RepliesOf(w.log[w.popped..]) == w.state.toSend
  {
    InvAlways(ws, max, actions, i);
  }

  /** Whether `x` began before `y`. */
  predicate Older(begun: seq<Session>, x: Session, y: Session) {
    exists i, j :: 0 <= i < j < |begun| && begun[i] == x && begun[j] == y
  }

  predicate OpenIn(w: World, x: Session) { x in w.begun && x !in w.ended }

  lemma {:induction false} RemainingOrder(begun: seq<Session>, ended: set<Session>, i: nat, j: nat)
    requires NoDup(begun) && i < j < |Remaining(begun, ended)|
    ensures Older(begun, Remaining(begun, ended)[i], Remaining(begun, ended)[j])
    decreases |begun|
  {
    var n := |begun| - 1;
    var before := Remaining(begun[..n], ended);
    if j < |before| {
      RemainingOrder(begun[..n], ended, i, j);
      var a, b :| 0 <= a < b < n && begun[..n][a] == before[i] && begun[..n][b] == before[j];
      assert begun[a] == before[i] && begun[b] == before[j];
    } else {
      RemainingIff(begun[..n], ended, before[i]);
      var a :| 0 <= a < n && begun[..n][a] == before[i];
      assert begun[a] == before[i] && begun[n] == Remaining(begun, ended)[j];
    }
  }

  lemma {:induction false} NotBoth(begun: seq<Session>, x: Session, y: Session)
    requires NoDup(begun) && Older(begun, x, y)
    ensures !Older(begun, y, x) && x != y
  {
  }

  /** In every run, a message handled goes to the oldest open session that wants it; to a new
      session exactly when no open one wants it, one can still begin and a factory knows it; and
      is refused for memory exactly when no open one wants it and none can begin. */
  lemma {:induction false} OldestTakes(ws: seq<World>, max: nat, actions: seq<Action>, i: nat)
    requires Trace(ws, max, actions) && i < |actions| && actions[i].Handle?
    ensures var w, a, v := ws[i], actions[i], ws[i + 1];
            var wanted := exists x :: x in w.begun && OpenIn(w, x) && !AnswerOf(a.answers, x).Noop?;
            && |v.handled| == |w.handled| + 1 && v.handled[|w.handled|].raw == a.raw
            && var o := v.handled[|w.handled|].outcome;
            && (o.Taken? <==> wanted)
            && (o.Taken? ==> OpenIn(w, o.session) && o.answer == AnswerOf(a.answers, o.session) && !o.answer.Noop?
                             && forall x :: x in w.begun && OpenIn(w, x) && Older(w.begun, x, o.session) ==>
                                  AnswerOf(a.answers, x).Noop?)
            && (o.Opened? <==> !wanted && |Remaining(w.begun, w.ended)| < max && true in a.knows)
            && (o == Refused(NO_MORE_MEMORY) <==> !wanted && |Remaining(w.begun, w.ended)| == max)
  {
    InvAlways(ws, max, actions, i);
    var w, a := ws[i], actions[i];
    assert ws[i + 1] == Do(w, max, a);
    hide Trace;
    HandleOldest(w, max, a);
  }

  lemma {:induction false} SeniorsPassed(begun: seq<Session>, ended: set<Session>, k: nat,
                                         answers: map<Session, Answer>)
    requires NoDup(begun) && k < |Remaining(begun, ended)|
    requires forall i :: 0 <= i < k ==> AnswerOf(answers, Remaining(begun, ended)[i]).Noop?
    ensures forall x :: x in begun && x !in ended && Older(begun, x, Remaining(begun, ended)[k]) ==>
              AnswerOf(answers, x).Noop?
  {
    var open := Remaining(begun, ended);
    forall x | x in begun && x !in ended && Older(begun, x, open[k]) ensures AnswerOf(answers, x).Noop? {
      RemainingIff(begun, ended, x);
      var j :| 0 <= j < |open| && open[j] == x;
      NotBoth(begun, x, open[k]);
      if k < j { RemainingOrder(begun, ended, k, j); }
    }
  }

  lemma {:induction false} HandleOldest(w: World, max: nat, a: Action)
    requires Inv(w, max) && a.Handle?
    ensures var wanted := exists x :: x in w.begun && OpenIn(w, x) && !AnswerOf(a.answers, x).Noop?;
            var o := OutcomeOf(w.state, max, a.answers, a.knows, a.newcomer);
            && (o.Taken? <==> wanted)
            && (o.Taken? ==> OpenIn(w, o.session) && o.answer == AnswerOf(a.answers, o.session) && !o.answer.Noop?
                             && forall x :: x in w.begun && OpenIn(w, x) && Older(w.begun, x, o.session) ==>
                                  AnswerOf(a.answers, x).Noop?)
            && (o.Opened? <==> !wanted && |Remaining(w.begun, w.ended)| < max && true in a.knows)
            && (o == Refused(NO_MORE_MEMORY) <==> !wanted && |Remaining(w.begun, w.ended)| == max)
  {
    var open, k := w.state.sessions, Taker(w.state.sessions, a.answers);
    forall x ensures x in open <==> OpenIn(w, x) {
      RemainingIff(w.begun, w.ended, x);
    }
    hide Remaining, RefusalsIn, OpenedBy, RefusalsOf, TakenIn, RepliesOf;
    if k < |open| {
      assert open[k] in open && !AnswerOf(a.answers, open[k]).Noop?;
      SeniorsPassed(w.begun, w.ended, k, a.answers);
      hide Older;
    } else {
      assert forall x :: x in open ==> AnswerOf(a.answers, x).Noop?;
    }
  }
}
