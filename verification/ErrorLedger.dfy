/** What the error totals are worth (`refreshDiagnostics`, tools/kickui/BusSession.cc, over the
    counters cached by `sendRefreshErrorCounters`, lib/master/src/Bus.cc): one counter of one
    slave, set against the events that really happened. */
module ErrorLedger {
  import opened Bytes
  import opened ErrorCounters

  /** A read cached by a sweep that was given up before summing: the events up to it, and how many
      of them the register no longer showed. */
  datatype Unsummed = None | Left(seen: nat, lost: nat)

  /** The slave's register, the master's cached copy of it and the monitor's last value and
      total, beside the truth: all events so far, and those up to the last read summed and up to
      the baseline. `held` is what the register still shows of events summed before, `lost` are
      events since then that it no longer shows; `missed` and `recounted` are the events since
      the baseline that the total lacks and that it counts again. */
  datatype Ledger = Ledger(register: byte, cache: byte, unsummed: Unsummed, last: byte, total: nat, saturated: bool,
                           happened: nat, sampled: nat, baseline: nat,
                           held: byte, lost: nat, missed: nat, recounted: nat)

  const START := Ledger(0, 0, None, 0, 0, false, 0, 0, 0, 0, 0, 0, 0)

  /** Events happen; a sweep is given up, after the slave answered or before; or a sweep is made: on
      demand or not, answered by the slave or not, clearing or not, with events between the read
      and the clear, the clear reaching the slave or not. */
  datatype Action =
    | Happen(events: nat)
    | GiveUp(answered: bool)
    | Sweep(manual: bool, answered: bool, clear: bool, between: nat, ok: bool)

  function Raised(l: Ledger, events: nat): Ledger {
    var sum := l.register + events;
    var register := if sum > FULL then FULL else sum;
    l.(register := register, happened := l.happened + events, lost := l.lost + (sum - register))
  }

  function Over(a: nat, b: nat): nat { if a > b then a - b else 0 }

  /** What a sweep takes for a read: the register, or the old copy of it. */
  function Taken(l: Ledger, answered: bool): byte { if answered then l.register else l.cache }

  /** Whether a sweep sums up a read that was not summed before. */
  predicate News(l: Ledger, answered: bool) { answered || l.unsummed.Left? }

  /** The events up to the read a sweep sums up, and those of them the register did not show. */
  function SeenBy(l: Ledger, answered: bool): nat {
    if answered then l.happened else if l.unsummed.Left? then l.unsummed.seen else l.sampled
  }

  function LostBy(l: Ledger, answered: bool): nat {
    if answered then l.lost else if l.unsummed.Left? then l.unsummed.lost else 0
  }

  /** The sum: total, last value and mark as `SampleSlave` moves them. A new read samples what
      happened up to it; what the register showed beside is counted again, or swallowed when the
      last value is too high. An old one samples nothing. */
  function ReadStep(l: Ledger, manual: bool, answered: bool): Ledger {
    var v, lost := Taken(l, answered), LostBy(l, answered);
    var missed, recounted := if manual then 0 else l.missed, if manual then 0 else l.recounted;
    var r := l.(cache := v, unsummed := None, last := v, total := (if manual then 0 else l.total) + Delta(v, l.last),
                saturated := (l.saturated && !manual) || v == FULL,
                baseline := if manual then l.sampled else l.baseline);
    if News(l, answered) then
      r.(sampled := SeenBy(l, answered), held := v, lost := if l.lost >= lost then l.lost - lost else 0,
         missed := missed + lost + (if v >= l.last then Over(l.last, l.held) else 0),
         recounted := recounted + (if v >= l.last then Over(l.held, l.last) else l.held))
    else r.(missed := missed, recounted := recounted + Delta(v, l.last))
  }

  /** The clear: the last value is forgotten whether or not it worked, the cached copy stays. */
  function ClearStep(l: Ledger, between: nat, ok: bool): Ledger {
    if ok then
      l.(register := 0, held := 0, last := 0, happened := l.happened + between,
         lost := l.lost + Over(l.register, l.held) + between)
    else Raised(l, between).(last := 0)
  }

  function Do(l: Ledger, a: Action): Ledger {
    match a
    case Happen(events) => Raised(l, events)
    case GiveUp(answered) => if answered then l.(cache := l.register, unsummed := Left(l.happened, l.lost)) else l
    case Sweep(manual, answered, clear, between, ok) =>
      var r := ReadStep(l, manual, answered);
      if clear then ClearStep(r, between, ok) else r
  }

  /** A sweep clears whenever a counter it takes is high or the user asks. */
  predicate Allowed(l: Ledger, a: Action) {
    a.Sweep? && (a.manual || Taken(l, a.answered) >= HIGH_WATER) ==> a.clear
  }

  /** The monitor sweeps the lost-link counter of a port as the ledger does, and gives up as it
      does. */
  lemma {:induction false} LedgerFollows(d: Diag, before: Counters, answer: Answer, p: nat, l: Ledger, a: Action)
    requires Shaped(d) && Ports(before) && AnswerShaped(answer) && p < 4 && !a.Happen?
    requires answer.Answered? == a.answered && (a.answered ==> answer.counters.lost[p] == l.register)
    requires l.cache == before.lost[p] && l.last == d.lastLost[p] && l.total == d.lostTotal[p]
    ensures var c, s := Cached(before, answer), Do(l, a);
            var r := if a.GiveUp? then d else Swept(d, c, a.manual, a.clear);
            && s.cache == c.lost[p] && s.last == r.lastLost[p] && s.total == r.lostTotal[p]
            && (a.Sweep? && Taken(l, a.answered) == FULL ==> r.saturated)
            && (a.Sweep? && (a.manual || Overdue([c], 1) ==> a.clear) ==> Allowed(l, a))
  {
    var c := Cached(before, answer);
    if a.Sweep? { AfterAt(d, c, a.manual, p); }
    assert c.lost[p] == FULL ==> AnyPort(c, FULL, 4);
    assert c.lost[p] >= HIGH_WATER ==> AnyPort([c][0], HIGH_WATER, 4);
  }

  // ---- Every run ------------------------------------------------------------

  /** A read left unsummed: what it showed, and what has happened since. */
  predicate LeftRight(l: Ledger) {
    match l.unsummed
    case None => l.last == l.cache || l.last == 0
    case Left(seen, lost) =>
      && l.held <= l.cache <= l.register && l.sampled <= seen <= l.happened && lost <= l.lost
      && l.cache + lost == l.held + seen - l.sampled
  }

  /** The books balance: what the register shows is what it held before and what happened since,
      less what was lost; the total with what was missed is what happened between baseline and
      last read summed, with what was counted again. */
  predicate Balanced(l: Ledger) {
    && l.held <= l.register && l.sampled <= l.happened && l.baseline <= l.sampled
    && l.register + l.lost == l.held + l.happened - l.sampled
    && l.total + l.missed == l.sampled - l.baseline + l.recounted
    && LeftRight(l)
  }

  lemma {:induction false} ReadBalances(l: Ledger, manual: bool, answered: bool)
    requires Balanced(l)
    ensures Balanced(ReadStep(l, manual, answered))
  {
  }

  lemma {:induction false} ClearBalances(l: Ledger, between: nat, ok: bool)
    requires Balanced(l) && l.unsummed.None?
    ensures Balanced(ClearStep(l, between, ok))
  {
  }

  lemma {:induction false} StepBalances(l: Ledger, a: Action)
    requires Balanced(l)
    ensures Balanced(Do(l, a))
  {
    if a.Sweep? {
      ReadBalances(l, a.manual, a.answered);
      var r := ReadStep(l, a.manual, a.answered);
      assert r.unsummed.None?;
      hide ReadStep, Balanced, ClearStep;
      if a.clear { ClearBalances(r, a.between, a.ok); }
    }
  }

  function Run(actions: seq<Action>): Ledger
    decreases |actions|
  {
    if actions == [] then START else Do(Run(actions[..|actions| - 1]), actions[|actions| - 1])
  }

  lemma {:induction false} RunOne(before: seq<Action>, a: Action)
    ensures Run(before + [a]) == Do(Run(before), a)
  {
    assert (before + [a])[..|before|] == before;
  }

  lemma {:induction false} RunTwo(a: Action, b: Action)
    ensures Run([a]) == Do(START, a) && Run([a, b]) == Do(Do(START, a), b)
  {
    hide Do;
    RunOne([], a);
    RunOne([a], b);
    assert [] + [a] == [a] && [a] + [b] == [a, b];
  }

  lemma {:induction false} RunThree(a: Action, b: Action, c: Action)
    ensures Run([a, b, c]) == Do(Do(Do(START, a), b), c)
  {
    hide Do;
    RunTwo(a, b);
    RunOne([a, b], c);
    assert [a, b] + [c] == [a, b, c];
  }

  /** Over every run, whatever fails: total plus missed is true plus counted again. */
  lemma {:induction false} AlwaysBalanced(actions: seq<Action>)
    ensures Balanced(Run(actions))
    decreases |actions|
  {
    hide Do, Balanced;
    if actions == [] {
      StartBalanced();
    } else {
      AlwaysBalanced(actions[..|actions| - 1]);
      StepBalances(Run(actions[..|actions| - 1]), actions[|actions| - 1]);
    }
  }

  lemma {:induction false} StartBalanced()
    ensures Balanced(START)
  {
  }

  /** The total is the truth up to the last read summed. */
  predicate Right(l: Ledger) { l.total == l.sampled - l.baseline }

  /** Over every run: a total is right if and only if it lacks as much as it counts again, and off
      by the difference otherwise. */
  lemma {:induction false} RightExact(actions: seq<Action>)
    ensures var l := Run(actions);
            && (Right(l) <==> l.missed == l.recounted)
            && l.total - (l.sampled - l.baseline) == l.recounted - l.missed
  {
    AlwaysBalanced(actions);
  }

  // ---- What makes a total wrong ---------------------------------------------

  /** What the register shows, after the sum, of events summed up. */
  function HeldAfter(l: Ledger, answered: bool): byte { if News(l, answered) then Taken(l, answered) else l.held }

  /** The slave does not answer the sweep after a clear: its old counter is counted again. */
  predicate Repeats(l: Ledger, a: Action) { a.Sweep? && !News(l, a.answered) && l.last == 0 && l.cache > 0 }

  /** The slave does not answer a sweep that clears: what it counted since its last answer is
      wiped unseen. */
  predicate Wipes(l: Ledger, a: Action) {
    a.Sweep? && !a.answered && a.clear && a.ok && l.happened > SeenBy(l, a.answered)
  }

  /** The register overflows. */
  predicate Clips(l: Ledger, a: Action) {
    match a
    case Happen(events) => l.register + events > FULL
    case GiveUp(_) => false
    case Sweep(_, _, clear, between, ok) => clear && !ok && l.register + between > FULL
  }

  /** The clear does not reach a slave whose register still shows events already counted. */
  predicate Unreached(l: Ledger, a: Action) { a.Sweep? && a.clear && !a.ok && HeldAfter(l, a.answered) > 0 }

  /** The clear wipes events that came after the read. */
  predicate Slips(a: Action) { a.Sweep? && a.clear && a.ok && a.between > 0 }

  /** None of the five. */
  predicate Faultless(l: Ledger, a: Action) {
    !Clips(l, a) && !Repeats(l, a) && !Wipes(l, a) && !Unreached(l, a) && !Slips(a)
  }

  /** Nothing stands against the next sum: no event is lost, and the last value is what the register
      shows of events summed. */
  predicate Debtless(l: Ledger) { l.lost == 0 && l.last == l.held }

  /** What a step overflows, wipes or lets slip. */
  function Overflow(l: Ledger, a: Action): nat {
    match a
    case Happen(events) => Over(l.register + events, FULL)
    case GiveUp(_) => 0
    case Sweep(_, _, clear, between, ok) => if clear && !ok then Over(l.register + between, FULL) else 0
  }

  function WipedBy(l: Ledger, a: Action): nat { if Wipes(l, a) then l.happened - SeenBy(l, a.answered) else 0 }

  function SlippedBy(a: Action): nat { if Slips(a) then a.between else 0 }

  /** What each fault costs, met without debts. A repeat is counted again at once. An overflow, a
      wipe and a slip are lost events, which the next read summed will miss; a clear that does not
      arrive leaves what the register shows to be counted again by it. */
  lemma {:induction false} FaultsCost(l: Ledger, a: Action)
    requires Balanced(l) && Debtless(l)
    ensures var r, manual := Do(l, a), a.Sweep? && a.manual;
            && r.missed == (if manual then 0 else l.missed)
            && r.recounted == (if manual then 0 else l.recounted) + (if Repeats(l, a) then l.cache else 0)
            && r.lost == Overflow(l, a) + WipedBy(l, a) + SlippedBy(a)
            && Over(r.held, r.last) == (if Unreached(l, a) then HeldAfter(l, a.answered) else 0)
            && Over(r.last, r.held) == (if Repeats(l, a) && !a.clear then l.cache else 0)
  {
    if a.Sweep? {
      SumCosts(l, a);
      var r := ReadStep(l, a.manual, a.answered);
      hide ReadStep, Balanced;
      ClearCosts(r, a.between, a.ok);
    }
  }

  /** The part of it that falls to the clear. */
  lemma {:induction false} ClearCosts(r: Ledger, between: nat, ok: bool)
    requires r.lost == 0 && r.held <= r.register
    ensures var c := ClearStep(r, between, ok);
            && c.missed == r.missed && c.recounted == r.recounted && c.last == 0
            && c.held == (if ok then 0 else r.held)
            && c.lost == if ok then r.register - r.held + between else Over(r.register + between, FULL)
  {
  }

  /** The part of it that falls to the sum. */
  lemma {:induction false} SumCosts(l: Ledger, a: Action)
    requires Balanced(l) && Debtless(l) && a.Sweep?
    ensures var r := ReadStep(l, a.manual, a.answered);
            && r.missed == (if a.manual then 0 else l.missed)
            && r.recounted == (if a.manual then 0 else l.recounted) + (if Repeats(l, a) then l.cache else 0)
            && r.lost == 0 && r.register == l.register && r.held == HeldAfter(l, a.answered) <= l.register
            && r.last == (if Repeats(l, a) then l.cache else r.held) && (Repeats(l, a) ==> r.held == 0)
            && l.register - r.held == l.happened - SeenBy(l, a.answered)
  {
  }

  /** What becomes of debts when a new read is summed: a total that was right, or starts anew, stays
      right if and only if the events lost and the last value, where it still counts, make up what
      the register held of events summed before. */
  lemma {:induction false} DebtsBooked(l: Ledger, a: Action)
    requires Balanced(l) && a.Sweep? && News(l, a.answered)
    ensures var counts := if Taken(l, a.answered) >= l.last then l.last else 0;
            Right(l) || a.manual ==> (Right(Do(l, a)) <==> LostBy(l, a.answered) + counts == l.held)
  {
    ReadBalances(l, a.manual, a.answered);
  }

  /** A step keeps a total right and free of debts if and only if it is none of the five faults. */
  lemma {:induction false} StepDebtless(l: Ledger, a: Action)
    requires Balanced(l) && Right(l) && Debtless(l)
    ensures Right(Do(l, a)) && Debtless(Do(l, a)) <==> Faultless(l, a)
  {
    FaultsCost(l, a);
    StepBalances(l, a);
  }

  ghost predicate DebtlessUpTo(actions: seq<Action>, n: nat) {
    forall i :: 0 <= i <= n && i <= |actions| ==> Right(Run(actions[..i])) && Debtless(Run(actions[..i]))
  }

  ghost predicate FaultlessUpTo(actions: seq<Action>, n: nat) {
    forall i :: 0 <= i < n && i < |actions| ==> Faultless(Run(actions[..i]), actions[i])
  }

  /** Right and free of debts all through a run means that none of the five ever happens in it. */
  lemma {:induction false} DebtlessThroughout(actions: seq<Action>, n: nat)
    requires n <= |actions|
    ensures DebtlessUpTo(actions, n) <==> FaultlessUpTo(actions, n)
    decreases n
  {
    hide *;
    if n == 0 {
      NoSteps(actions);
    } else {
      DebtlessThroughout(actions, n - 1);
      AlwaysBalanced(actions[..n - 1]);
      RunStep(actions, n - 1);
      DebtlessMore(actions, n - 1);
      FaultlessMore(actions, n - 1);
      var l := Run(actions[..n - 1]);
      if Right(l) && Debtless(l) { StepDebtless(l, actions[n - 1]); }
    }
  }

  lemma {:induction false} NoSteps(actions: seq<Action>)
    ensures DebtlessUpTo(actions, 0) && FaultlessUpTo(actions, 0)
  {
    hide Do, Run, Faultless;
    RunNone();
    forall i | 0 <= i <= 0 && i <= |actions| ensures Right(Run(actions[..i])) && Debtless(Run(actions[..i])) {
      assert actions[..i] == [];
    }
  }

  lemma {:induction false} RunNone()
    ensures Run([]) == START
  {
  }

  lemma {:induction false} RunStep(actions: seq<Action>, n: nat)
    requires n < |actions|
    ensures Run(actions[..n + 1]) == Do(Run(actions[..n]), actions[n])
  {
    hide Do;
    assert actions[..n + 1][..n] == actions[..n];
  }

  lemma {:induction false} DebtlessMore(actions: seq<Action>, n: nat)
    requires n < |actions|
    ensures DebtlessUpTo(actions, n + 1)
            <==> DebtlessUpTo(actions, n) && Right(Run(actions[..n + 1])) && Debtless(Run(actions[..n + 1]))
    ensures DebtlessUpTo(actions, n) ==> Right(Run(actions[..n])) && Debtless(Run(actions[..n]))
  {
    hide Run, Right, Debtless;
  }

  lemma {:induction false} FaultlessMore(actions: seq<Action>, n: nat)
    requires n < |actions|
    ensures FaultlessUpTo(actions, n + 1) <==> FaultlessUpTo(actions, n) && Faultless(Run(actions[..n]), actions[n])
  {
    hide Run, Faultless;
  }

  /** Without any of the five a total is the truth at every moment of a run. */
  lemma {:induction false} FaultlessIsRight(actions: seq<Action>, n: nat)
    requires FaultlessUpTo(actions, |actions|) && n <= |actions|
    ensures Right(Run(actions[..n]))
  {
    DebtlessThroughout(actions, |actions|);
    hide Run, Right, Debtless, FaultlessUpTo;
  }

  /** Faults can cancel: a clear that fails while the register overflows leaves the total right, for
      every counter that calls for a clear. */
  lemma {:induction false} FaultsCancel(e: nat)
    requires HIGH_WATER <= e <= FULL
    ensures var first := Sweep(false, true, true, FULL, false);
            && Clips(Run([Happen(e)]), first) && Unreached(Run([Happen(e)]), first)
            && var r := Run([Happen(e), first, Sweep(false, true, true, 0, true)]);
               r.missed == r.recounted == e && r.total == r.happened == e + FULL
  {
    var first := Sweep(false, true, true, FULL, false);
    RunTwo(Happen(e), first);
    RunThree(Happen(e), first, Sweep(false, true, true, 0, true));
    hide Run;
  }

  /** And a fault shows late: events that slip leave the total right until the next read is summed. */
  lemma {:induction false} SlipShowsLate(e: nat, between: nat)
    requires HIGH_WATER <= e <= FULL && between > 0
    ensures var first, second := Sweep(false, true, true, between, true), Sweep(false, true, false, 0, true);
            && Right(Run([Happen(e), first])) && Slips(first)
            && !Right(Run([Happen(e), first, second])) && Run([Happen(e), first, second]).missed == between
  {
    RunTwo(Happen(e), Sweep(false, true, true, between, true));
    RunThree(Happen(e), Sweep(false, true, true, between, true), Sweep(false, true, false, 0, true));
    hide Run;
  }

  // ---- Old copies -----------------------------------------------------------

  /** An unanswered sweep adds the old counter to the total exactly when the last value was
      forgotten; a read left unsummed is summed by it. */
  lemma {:induction false} UnansweredAdds(l: Ledger, a: Action)
    requires Balanced(l) && a.Sweep? && !a.answered && !a.manual
    ensures l.unsummed.None? ==> Do(l, a).total == l.total + (if l.last == 0 then l.cache else 0)
    ensures l.unsummed.None? ==> (Do(l, a).total != l.total <==> Repeats(l, a))
    ensures l.unsummed.Left? ==> Do(l, a).total == l.total + Delta(l.cache, l.last)
  {
  }

  /** Whether the last sweep of a run cleared. */
  predicate JustCleared(actions: seq<Action>)
    decreases |actions|
  {
    actions != []
    && var a := actions[|actions| - 1];
       if a.Sweep? then a.clear else JustCleared(actions[..|actions| - 1])
  }

  /** With nothing left unsummed, the last value is forgotten exactly after a sweep that cleared, or
      when it was zero. */
  lemma {:induction false} ForgottenWhen(actions: seq<Action>)
    ensures Run(actions).unsummed.None? ==>
              (Run(actions).last == 0 <==> JustCleared(actions) || Run(actions).cache == 0)
    decreases |actions|
  {
    if actions != [] {
      ForgottenWhen(actions[..|actions| - 1]);
    }
  }

  /** Over every run: the unanswered sweeps that move a total are those whose predecessor cleared,
      while the slave's last answer was not zero, and those that find a new read left unsummed that is
      neither zero nor the last value. */
  lemma {:induction false} WhichRepeat(actions: seq<Action>, a: Action)
    requires a.Sweep? && !a.answered && !a.manual
    ensures var l := Run(actions);
            Run(actions + [a]).total != l.total
            <==> if l.unsummed.None? then JustCleared(actions) && l.cache > 0 else Delta(l.cache, l.last) > 0
  {
    RunOne(actions, a);
    AlwaysBalanced(actions);
    ForgottenWhen(actions);
    UnansweredAdds(Run(actions), a);
    hide Do, Run, Balanced;
  }

  // ---- Totals that never exceed the truth -----------------------------------

  /** A clear reaches the slave, with nothing counted since the read. */
  predicate Clean(a: Action) { a.Sweep? && a.clear ==> a.ok && a.between == 0 }

  /** A step the monitor makes, with a clear that works, and no unanswered sweep of either
      harmful kind. */
  predicate Harmless(l: Ledger, a: Action) { Allowed(l, a) && Clean(a) && !Repeats(l, a) && !Wipes(l, a) }

  ghost predicate Answering(actions: seq<Action>) {
    forall i :: 0 <= i < |actions| ==> Harmless(Run(actions[..i]), actions[i])
  }

  /** Nothing is counted again, and what a full register hides leaves the saturation mark. */
  predicate Honest(l: Ledger) {
    && l.recounted == 0 && l.last == l.held < HIGH_WATER
    && (l.lost > 0 ==> l.register == FULL) && (l.missed > 0 ==> l.saturated)
    && (l.unsummed.Left? && l.unsummed.lost > 0 ==> l.cache == FULL)
  }

  lemma {:induction false} HonestStep(l: Ledger, a: Action)
    requires Balanced(l) && Honest(l) && Harmless(l, a)
    ensures Honest(Do(l, a))
  {
  }

  lemma {:induction false} AnsweringBefore(actions: seq<Action>, n: nat)
    requires Answering(actions) && n < |actions|
    ensures Answering(actions[..n]) && Harmless(Run(actions[..n]), actions[n])
  {
    hide Run, Harmless;
    var before := actions[..n];
    forall i | 0 <= i < n ensures Harmless(Run(before[..i]), before[i]) {
      assert before[..i] == actions[..i];
    }
  }

  lemma {:induction false} StaysHonest(actions: seq<Action>)
    requires Answering(actions)
    ensures Honest(Run(actions))
    decreases |actions|
  {
    hide Do, Balanced, Honest, Harmless, Answering;
    if actions == [] {
      StartHonest();
    } else {
      var n := |actions| - 1;
      AnsweringBefore(actions, n);
      AlwaysBalanced(actions[..n]);
      StaysHonest(actions[..n]);
      HonestStep(Run(actions[..n]), actions[n]);
    }
  }

  lemma {:induction false} StartHonest()
    ensures Honest(START)
  {
  }

  /** Over such runs a total never exceeds the truth, and is the truth unless the saturation
      mark says otherwise. */
  lemma {:induction false} TotalsTell(actions: seq<Action>)
    requires Answering(actions)
    ensures var l := Run(actions);
            && l.total <= l.sampled - l.baseline
            && (!l.saturated ==> l.total == l.sampled - l.baseline)
  {
    AlwaysBalanced(actions);
    StaysHonest(actions);
    hide Run, Answering;
  }

  // ---- Few events between answers -------------------------------------------

  /** The events since the last sweep the slave answered. */
  function Since(actions: seq<Action>): nat
    decreases |actions|
  {
    if actions == [] then 0 else SinceNext(Since(actions[..|actions| - 1]), actions[|actions| - 1])
  }

  function SinceNext(before: nat, a: Action): nat {
    match a
    case Happen(events) => before + events
    case GiveUp(_) => before
    case Sweep(_, answered, _, _, _) => if answered then 0 else before
  }

  /** Below the mark after an answered sweep, and at most `since` above it after that. */
  predicate Quiet(l: Ledger, since: nat) {
    && l.held < HIGH_WATER && l.register <= l.held + since && l.cache < FULL
    && l.lost == 0 && l.missed == 0 && !l.saturated
  }

  lemma {:induction false} QuietStep(l: Ledger, a: Action, since: nat)
    requires Balanced(l) && Honest(l) && Quiet(l, since) && Harmless(l, a) && SinceNext(since, a) <= 63 && since <= 63
    ensures Quiet(Do(l, a), SinceNext(since, a))
  {
  }

  ghost predicate FewEvents(actions: seq<Action>) { forall i :: 0 <= i <= |actions| ==> Since(actions[..i]) <= 63 }

  lemma {:induction false} FewBefore(actions: seq<Action>, n: nat)
    requires FewEvents(actions) && n < |actions|
    ensures FewEvents(actions[..n]) && Since(actions[..n]) <= 63
    ensures Since(actions[..n + 1]) == SinceNext(Since(actions[..n]), actions[n]) <= 63
  {
    forall i | 0 <= i <= n ensures Since(actions[..n][..i]) <= 63 {
      assert actions[..n][..i] == actions[..i];
    }
    assert actions[..n + 1][..n] == actions[..n];
    assert Since(actions[..n + 1]) <= 63;
  }

  lemma {:induction false} StaysQuiet(actions: seq<Action>)
    requires Answering(actions) && FewEvents(actions)
    ensures Quiet(Run(actions), Since(actions))
    decreases |actions|
  {
    if actions == [] {
      StartQuiet();
    } else {
      var n := |actions| - 1;
      var before := actions[..n];
      assert actions[..n + 1] == actions;
      hide *;
      AnsweringBefore(actions, n);
      FewBefore(actions, n);
      AlwaysBalanced(before);
      StaysHonest(before);
      StaysQuiet(before);
      QuietStep(Run(before), actions[n], Since(before));
      RunStep(actions, n);
    }
  }

  lemma {:induction false} StartQuiet()
    ensures Quiet(START, 0)
  {
  }

  /** With at most 63 events between answered sweeps the register never fills, so no saturation
      is reported and the total is the truth. */
  lemma {:induction false} CountsExactly(actions: seq<Action>)
    requires Answering(actions) && FewEvents(actions)
    ensures var l := Run(actions);
            l.total == l.sampled - l.baseline && l.register < FULL && !l.saturated
  {
    AlwaysBalanced(actions);
    StaysHonest(actions);
    StaysQuiet(actions);
    assert actions[..|actions|] == actions;
    assert Since(actions) <= 63;
    hide Run, Answering, Since, FewEvents;
  }

  // ---- Runs that go wrong ---------------------------------------------------

  /** A clear that fails makes the next sweep count the register a second time. */
  lemma {:induction false} FailedClearCountsTwice(e: nat)
    requires HIGH_WATER <= e <= FULL
    ensures var l := Run([Happen(e), Sweep(false, true, true, 0, false), Sweep(false, true, true, 0, true)]);
            l.happened == e && l.total == 2 * e && l.recounted == e
  {
    RunThree(Happen(e), Sweep(false, true, true, 0, false), Sweep(false, true, true, 0, true));
    hide Run;
  }

  /** A high counter is read and cleared, and then the slave stays away for `k` sweeps. */
  function Away(e: nat, k: nat): (actions: seq<Action>)
    ensures |actions| == k + 2 && forall i :: 0 <= i < |actions| ==> Clean(actions[i])
    decreases k
  {
    if k == 0 then [Happen(e), Sweep(false, true, true, 0, true)]
    else Away(e, k - 1) + [Sweep(false, false, true, 0, true)]
  }

  predicate AwayWith(l: Ledger, e: nat, total: nat) {
    && l.happened == l.sampled == e && l.baseline == 0 && l.total == total
    && l.register == 0 && l.cache == e && l.unsummed.None? && l.last == 0 && !l.saturated
  }

  lemma {:induction false} AwayStarts(e: nat)
    requires HIGH_WATER <= e < FULL
    ensures AwayWith(Run(Away(e, 0)), e, e)
  {
    RunTwo(Happen(e), Sweep(false, true, true, 0, true));
    hide Run;
  }

  lemma {:induction false} AwayStep(l: Ledger, e: nat, total: nat)
    requires HIGH_WATER <= e < FULL && AwayWith(l, e, total)
    ensures AwayWith(Do(l, Sweep(false, false, true, 0, true)), e, total + e)
  {
  }

  /** Every sweep the slave misses counts its events once more, though every clear works. */
  lemma {:induction false} StaleCopyCountsOn(e: nat, k: nat)
    requires HIGH_WATER <= e < FULL
    ensures AwayWith(Run(Away(e, k)), e, (k + 1) * e)
    decreases k
  {
    hide Do, Run, AwayWith;
    if k == 0 {
      AwayStarts(e);
    } else {
      StaleCopyCountsOn(e, k - 1);
      RunOne(Away(e, k - 1), Sweep(false, false, true, 0, true));
      AwayStep(Run(Away(e, k - 1)), e, k * e);
      OnceMore(e, k);
    }
  }

  lemma {:induction false} OnceMore(e: nat, k: nat)
    ensures k * e + e == (k + 1) * e
  {
  }
}
