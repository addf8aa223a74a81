/** Every interleaving of bus thread and user interface: what the user is shown of scans, and which
    ends of scans are never seen. */
module ScanRuns {
  import opened Bytes
  import opened Common
  import opened OdScan
  import opened EventRing
  import opened ScanDisplay

  /** A run, from any first session. */
  ghost predicate Trace(ws: seq<World>, actions: seq<Action>) {
    && |ws| == |actions| + 1 && ws[0] == Opened(ws[0].lists)
    && forall i :: 0 <= i < |actions| ==> Allowed(ws[i], actions[i]) && ws[i + 1] == Do(ws[i], actions[i])
  }

  lemma {:induction false} TraceStep(ws: seq<World>, actions: seq<Action>, i: nat)
    requires Trace(ws, actions) && i < |actions|
    ensures |ws| == |actions| + 1 && Allowed(ws[i], actions[i]) && ws[i + 1] == Do(ws[i], actions[i])
  {
  }

  lemma {:induction false} OpenedGood(lists: map<nat, seq<u16>>)
    ensures Inv(Opened(lists))
  {
    var w := Opened(lists);
    forall s ensures SlaveGood(w, s) {
      FreshGood(ListOf(w, s), false);
    }
  }

  lemma {:induction false} InvAlways(ws: seq<World>, actions: seq<Action>, i: nat)
    requires Trace(ws, actions) && i < |ws|
    ensures Inv(ws[i])
    decreases i
  {
    if i == 0 {
      OpenedGood(ws[0].lists);
    } else {
      InvAlways(ws, actions, i - 1);
      TraceStep(ws, actions, i - 1);
      hide Inv, Do, Allowed, Trace;
      StepKeeps(ws[i - 1], actions[i - 1]);
    }
  }

  // ---- What is shown is right -----------------------------------------------

  /** At every moment of every run the objects shown of a slave are the first of its list, in order
      and once each; and a scan shown as ended without error has shown them all. */
  lemma {:induction false} ShownRight(ws: seq<World>, actions: seq<Action>, i: nat, s: nat)
    requires Trace(ws, actions) && i < |ws| && s in ws[i].shown
    ensures var sh, list := ws[i].shown[s], ListOf(ws[i], s);
            && sh.objects <= list
            && (!sh.running && sh.error == Fine ==> sh.objects == list)
  {
    InvAlways(ws, actions, i);
    assert SlaveGood(ws[i], s);
    hide Inv, Trace;
    AppliedGrows(ShownOf(ws[i], s), Of(ws[i].ring, s));
  }

  /** The phase that a step ends pushed what the scan's code emits in it, and ends as that code
      does: with the end to come, or with the scan queued again. */
  lemma {:induction false} PhaseEmits(ws: seq<World>, actions: seq<Action>, i: nat)
    requires Trace(ws, actions) && i < |actions| && actions[i].Step? && ws[i].thread.Looping?
    requires !ws[i + 1].thread.Looping?
    ensures var w, v := ws[i], ws[i + 1];
            var job, p, list := w.thread.job, w.thread.p, ListOf(w, w.thread.job.slave);
            && v.log == w.log && w.thread.start <= |w.log| && job.from <= Reached(|list|, job.from, p) <= |list|
            && w.log[w.thread.start..] == PhaseEvents(list, job, p, Reached(|list|, job.from, p))
            && (match Verdict(|list|, job.from, p)
                case Done(error) => v.thread == Ending(job, p, w.thread.start, error)
                case Requeued(next) => v.thread == Idle && v.queue == w.queue + [Job(job.slave, next)])
  {
    InvAlways(ws, actions, i);
    TraceStep(ws, actions, i);
    hide Inv, Trace, Loop, TurnOf;
    LoopEnds(ws[i]);
  }

  lemma {:induction false} LoopEnds(w: World)
    requires Inv(w) && Allowed(w, Step) && w.thread.Looping? && !Do(w, Step).thread.Looping?
    ensures var job, p, list := w.thread.job, w.thread.p, ListOf(w, w.thread.job.slave);
            && w.thread.start <= |w.log| && job.from <= Reached(|list|, job.from, p) <= |list|
            && w.log[w.thread.start..] == PhaseEvents(list, job, p, Reached(|list|, job.from, p))
            && Do(w, Step) == Concluded(w, job, p, w.thread.start, Verdict(|list|, job.from, p))
  {
    RestOf(w);
    hide Inv, RestGood, Coming;
  }

  // ---- Which ends are seen --------------------------------------------------

  /** What became of the event numbered `k`. */
  predicate WasShown(w: World, k: nat) { k < |w.fates| && w.fates[k] }

  predicate WasDropped(w: World, k: nat) { k < |w.fates| && !w.fates[k] }

  /** The step that shows event `k`, and the one that discards it. */
  predicate ShowsNow(w: World, a: Action, k: nat) { a.Pop? && w.ring != [] && |w.fates| == k }

  predicate DropsNow(w: World, a: Action, k: nat) { a.Reopen? && |w.fates| <= k < |w.log| }

  /** How a step moves the ring and its history. */
  lemma {:induction false} RingStep(w: World, a: Action)
    requires RingGood(w) && Allowed(w, a)
    ensures w.log <= Do(w, a).log
    ensures a.Pop? && w.ring != [] ==> Do(w, a).fates == w.fates + [true] && Do(w, a).log == w.log
    ensures a.Reopen? ==> Do(w, a).fates == w.fates + seq(|w.ring|, _ => false) && Do(w, a).log == w.log
    ensures !(a.Pop? && w.ring != []) && !a.Reopen? ==> Do(w, a).fates == w.fates
    ensures !a.Pop? && !a.Reopen? ==> |Do(w, a).ring| - |w.ring| == |Do(w, a).log| - |w.log|
    ensures a.Pop? || a.Reopen? ==> |Do(w, a).ring| <= |w.ring|
  {
    hide Verdict, TurnOf, Loop, ListOf, ShownAfter;
    if a.Step? { StepRing(w); }
    if a.Begin? { BeginRing(w, a.p); }
  }

  lemma {:induction false} BeginRing(w: World, p: Phase)
    requires Allowed(w, Begin(p))
    ensures Begun(w, p).log == w.log && Begun(w, p).ring == w.ring && Begun(w, p).fates == w.fates
  {
    hide Verdict, ListOf;
  }

  lemma {:induction false} StepRing(w: World)
    requires Allowed(w, Step)
    ensures var v := Stepped(w);
            && v.fates == w.fates && w.log <= v.log && |v.ring| - |w.ring| == |v.log| - |w.log|
  {
    if w.thread.Looping? {
      TurnRing(w);
      hide Turned;
    }
    hide ListOf;
  }

  lemma {:induction false} TurnRing(w: World)
    requires w.thread.Looping?
    ensures var v := Turned(w);
            && v.fates == w.fates && w.log <= v.log && |v.ring| - |w.ring| == |v.log| - |w.log|
  {
    var Looping(job, p, start, i, c, t) := w.thread;
    var list := ListOf(w, job.slave);
    var turn, o := TurnOf(|list|, i, c, t, p), Verdict(|list|, job.from, p);
    hide TurnOf, Verdict, Loop, ListOf;
    if turn.Offers? && Room(w) {
      assert Turned(w).log == w.log + [Object(job.slave, list[i])];
    } else {
      assert Turned(w) == Concluded(w, job, p, start, o);
    }
  }

  lemma {:induction false} FateStep(w: World, a: Action, k: nat)
    requires RingGood(w) && Allowed(w, a) && k < |w.log|
    ensures WasShown(Do(w, a), k) <==> WasShown(w, k) || ShowsNow(w, a, k)
    ensures WasDropped(Do(w, a), k) <==> WasDropped(w, k) || DropsNow(w, a, k)
    ensures k < |Do(w, a).log| && Do(w, a).log[k] == w.log[k]
  {
    RingStep(w, a);
    hide Do, Allowed;
  }

  ghost predicate ShowsAt(ws: seq<World>, actions: seq<Action>, n: nat, k: nat)
    requires n < |ws| && n < |actions|
  {
    ShowsNow(ws[n], actions[n], k)
  }

  ghost predicate DropsAt(ws: seq<World>, actions: seq<Action>, n: nat, k: nat)
    requires n < |ws| && n < |actions|
  {
    DropsNow(ws[n], actions[n], k)
  }

  /** Whether a step from `i` up to `j` shows event `k`, or discards it. */
  ghost predicate ShownIn(ws: seq<World>, actions: seq<Action>, i: nat, j: nat, k: nat)
    requires j <= |actions| && j <= |ws|
  {
    exists n :: i <= n < j && ShowsAt(ws, actions, n, k)
  }

  ghost predicate DroppedIn(ws: seq<World>, actions: seq<Action>, i: nat, j: nat, k: nat)
    requires j <= |actions| && j <= |ws|
  {
    exists n :: i <= n < j && DropsAt(ws, actions, n, k)
  }

  lemma {:induction false} OneStepMore(ws: seq<World>, actions: seq<Action>, i: nat, j: nat, k: nat)
    requires i <= j < |actions| && j < |ws|
    ensures ShownIn(ws, actions, i, j + 1, k) <==> ShownIn(ws, actions, i, j, k) || ShowsNow(ws[j], actions[j], k)
    ensures DroppedIn(ws, actions, i, j + 1, k) <==> DroppedIn(ws, actions, i, j, k) || DropsNow(ws[j], actions[j], k)
  {
    hide ShowsNow, DropsNow;
    assert ShowsAt(ws, actions, j, k) <==> ShowsNow(ws[j], actions[j], k);
    assert DropsAt(ws, actions, j, k) <==> DropsNow(ws[j], actions[j], k);
  }

  lemma {:induction false} TraceLength(ws: seq<World>, actions: seq<Action>)
    requires Trace(ws, actions)
    ensures |ws| == |actions| + 1
  {
  }

  lemma {:induction false} RingAlways(ws: seq<World>, actions: seq<Action>, i: nat)
    requires Trace(ws, actions) && i < |ws|
    ensures RingGood(ws[i])
  {
    InvAlways(ws, actions, i);
  }

  /** An event in the ring at `i` is shown or discarded up to `j` exactly by the steps that do so. */
  lemma {:induction false} Fate(ws: seq<World>, actions: seq<Action>, i: nat, j: nat, k: nat)
    requires Trace(ws, actions) && |ws| == |actions| + 1 && i <= j < |ws| && |ws[i].fates| <= k < |ws[i].log|
    ensures k < |ws[j].log| && ws[j].log[k] == ws[i].log[k]
    ensures WasShown(ws[j], k) <==> ShownIn(ws, actions, i, j, k)
    ensures WasDropped(ws[j], k) <==> DroppedIn(ws, actions, i, j, k)
    decreases j
  {
    hide *;
    if i == j {
      NoFateYet(ws, actions, i, k);
    } else {
      Fate(ws, actions, i, j - 1, k);
      RingAlways(ws, actions, j - 1);
      TraceStep(ws, actions, j - 1);
      FateStep(ws[j - 1], actions[j - 1], k);
      OneStepMore(ws, actions, i, j - 1, k);
    }
  }

  lemma {:induction false} NoFateYet(ws: seq<World>, actions: seq<Action>, i: nat, k: nat)
    requires i < |ws| && i <= |actions| && |ws[i].fates| <= k
    ensures !WasShown(ws[i], k) && !ShownIn(ws, actions, i, i, k)
    ensures !WasDropped(ws[i], k) && !DroppedIn(ws, actions, i, i, k)
  {
  }

  /** The end of a scan is pushed by step `i`: it is refused if and only if the ring is full. Later, at
      any moment with the ring empty, the end has been shown if and only if it was not refused
      and the session was not closed while the end was still in the ring. */
  lemma {:induction false} EndSeen(ws: seq<World>, actions: seq<Action>, i: nat, j: nat)
    requires Trace(ws, actions) && |ws| == |actions| + 1 && i < j < |ws| && actions[i].Step? && ws[i].thread.Ending?
    requires ws[j].ring == []
    ensures var k := |ws[i].log|;
            && ws[i + 1].log
               == ws[i].log + (if Room(ws[i]) then [End(ws[i].thread.job.slave, ws[i].thread.error)] else [])
            && (Room(ws[i]) ==> (ShownIn(ws, actions, i + 1, j, k) <==> !DroppedIn(ws, actions, i + 1, j, k)))
  {
    var k := |ws[i].log|;
    TraceStep(ws, actions, i);
    RingAlways(ws, actions, i);
    RingAlways(ws, actions, i + 1);
    RingAlways(ws, actions, j);
    if Room(ws[i]) {
      EndPushed(ws[i]);
      hide Do, Allowed, Trace;
      Fate(ws, actions, i + 1, j, k);
    }
  }

  lemma {:induction false} EndPushed(w: World)
    requires RingGood(w) && Allowed(w, Step) && w.thread.Ending? && Room(w)
    ensures Do(w, Step).log == w.log + [End(w.thread.job.slave, w.thread.error)]
    ensures |Do(w, Step).fates| <= |w.log|
  {
  }

  /** The step that shows the end: from then on the user sees the scan ended, with its error. */
  lemma {:induction false} EndShown(ws: seq<World>, actions: seq<Action>, n: nat, k: nat, s: nat, error: Error)
    requires Trace(ws, actions) && n < |actions| && n < |ws| && ShowsAt(ws, actions, n, k)
    requires k < |ws[n].log| && ws[n].log[k] == End(s, error)
    ensures s in ws[n + 1].shown && !ws[n + 1].shown[s].running && ws[n + 1].shown[s].error == error
  {
    RingAlways(ws, actions, n);
    TraceStep(ws, actions, n);
    hide Trace;
  }

  // ---- What a step adds for a slave -----------------------------------------

  /** The slave is shown as being scanned, and no end is on its way. */
  predicate Running(w: World, s: nat) { s in w.shown && Coming(w, s).running }

  /** After `v` is reached from `w` by a step with new events `es`, what is coming is what was coming
      with the events about the slave applied. */
  predicate Follows(w: World, v: World, es: seq<Event>, s: nat) {
    && v.log == w.log + es && s in v.shown && Coming(v, s) == AppliedAll(Coming(w, s), Of(es, s))
    && (!Active(w, s) ==> !Active(v, s) && Of(es, s) == [])
  }

  lemma {:induction false} FollowsNone(w: World, v: World, s: nat)
    requires v.log == w.log && s in v.shown && Coming(v, s) == Coming(w, s) && (!Active(w, s) ==> !Active(v, s))
    ensures Follows(w, v, [], s)
  {
    hide Coming, Active;
  }

  lemma {:induction false} FollowsOne(w: World, v: World, e: Event, s: nat)
    requires v == w.(ring := w.ring + [e], log := w.log + [e], thread := v.thread) && s in w.shown
    requires Active(v, s) ==> Active(w, s)
    requires For(e, s) ==> Active(w, s)
    ensures Follows(w, v, [e], s)
  {
    OfPush(w.ring, e, s);
    OfOne(e, s);
    var sh, es := ShownOf(w, s), Of(w.ring, s);
    AppliedPush(sh, es, e);
    assert [e][1..] == [];
    hide Of, Active, For;
    assert AppliedAll(AppliedAll(sh, es), [e]) == Applied(AppliedAll(sh, es), e);
  }

  lemma {:induction false} FollowsUser(w: World, a: Action, s: nat)
    requires Inv(w) && Allowed(w, a) && Running(w, s) && (a.Discover? || a.Pop? || a.Disconnect? || a.Begin?)
    ensures Follows(w, Do(w, a), [], s)
  {
    assert SlaveGood(w, s);
    AppliedGrows(ShownOf(w, s), Of(w.ring, s));
    var v := Do(w, a);
    match a
    case Discover(x) =>
      QueuedMore(w.queue, Job(x, 0), s);
      hide Queued;
      FollowsNone(w, v, s);
    case Pop =>
      if w.ring != [] { PopSlave(w, s); }
      FollowsNone(w, v, s);
    case Disconnect => FollowsNone(w, v, s);
    case Begin(p) =>
      BeginActive(w, p, s);
      hide Active, Begun;
      FollowsNone(w, v, s);
  }

  lemma {:induction false} BeginActive(w: World, p: Phase, s: nat)
    requires Allowed(w, Begin(p))
    ensures var v := Begun(w, p); v == w.(queue := v.queue, thread := v.thread) && (Active(v, s) <==> Active(w, s))
  {
    var job := w.queue[0];
    var o := Verdict(|ListOf(w, job.slave)|, job.from, p);
    QueuedLess(w.queue, s);
    if o.Requeued? { QueuedMore(w.queue[1..], Job(job.slave, o.from), s); }
    hide Verdict, Queued, ListOf;
  }

  lemma {:induction false} ConcludedActive(w: World, o: Outcome, s: nat)
    requires !w.thread.Idle?
    ensures var v := Concluded(w, w.thread.job, w.thread.p, w.thread.start, o);
            v == w.(queue := v.queue, thread := v.thread) && (Active(v, s) <==> Active(w, s))
  {
    if o.Requeued? { QueuedMore(w.queue, Job(w.thread.job.slave, o.from), s); }
    hide Queued;
  }

  lemma {:induction false} FollowsTurn(w: World, s: nat) returns (es: seq<Event>)
    requires Inv(w) && Allowed(w, Step) && Running(w, s) && w.thread.Looping?
    ensures Follows(w, Do(w, Step), es, s) && |es| <= 1
  {
    var Looping(job, p, start, i, c, t) := w.thread;
    var v, list := Do(w, Step), ListOf(w, w.thread.job.slave);
    var turn, o := TurnOf(|list|, i, c, t, p), Verdict(|list|, job.from, p);
    hide TurnOf, Verdict, Loop, Inv, ListOf;
    if turn.Offers? && Room(w) {
      es := [Object(job.slave, list[i])];
      FollowsOne(w, v, Object(job.slave, list[i]), s);
    } else {
      es := [];
      assert v == Concluded(w, job, p, start, o);
      ConcludedActive(w, o, s);
      hide Active;
      FollowsNone(w, v, s);
    }
  }

  lemma {:induction false} FollowsStep(w: World, a: Action, s: nat) returns (es: seq<Event>)
    requires Inv(w) && Allowed(w, a) && Running(w, s) && !a.Reopen?
    ensures Follows(w, Do(w, a), es, s)
  {
    var v := Do(w, a);
    if a.Push? || (a.Step? && !w.thread.Looping?) {
      var e := if a.Push? then Other
               else if w.thread.Ending? then End(w.thread.job.slave, w.thread.error)
               else Total(w.thread.job.slave, |ListOf(w, w.thread.job.slave)|);
      hide Inv, ListOf, Coming, Queued;
      if Room(w) {
        es := [e];
        FollowsOne(w, v, e, s);
      } else {
        es := [];
        SameComing(w, v, s);
        FollowsNone(w, v, s);
      }
    } else if a.Step? {
      es := FollowsTurn(w, s);
    } else {
      es := [];
      FollowsUser(w, a, s);
    }
  }

  lemma {:induction false} SameComing(w: World, v: World, s: nat)
    requires v == w.(thread := v.thread)
    ensures Coming(v, s) == Coming(w, s)
  {
  }

  // ---- Ends that are lost ---------------------------------------------------

  /** A scan that nobody goes on with and no end of which is on its way. */
  ghost predicate Stuck(w: World, s: nat) { Running(w, s) && w.shown[s].running && !Active(w, s) }

  lemma {:induction false} StuckStep(w: World, a: Action, s: nat)
    requires Inv(w) && Allowed(w, a) && Stuck(w, s) && !a.Reopen?
    ensures Stuck(Do(w, a), s)
  {
    var es := FollowsStep(w, a, s);
    StepKeeps(w, a);
    var v := Do(w, a);
    hide Do, Allowed;
    assert SlaveGood(v, s);
    AppliedGrows(ShownOf(v, s), Of(v.ring, s));
  }

  /** No session is closed from `i` up to `j`. */
  predicate Connected(actions: seq<Action>, i: nat, j: nat)
    requires j <= |actions|
  {
    forall n :: i <= n < j ==> !actions[n].Reopen?
  }

  lemma {:induction false} ConnectedLess(actions: seq<Action>, i: nat, j: nat)
    requires i < j <= |actions| && Connected(actions, i, j)
    ensures Connected(actions, i, j - 1) && !actions[j - 1].Reopen?
  {
  }

  lemma {:induction false} StaysStuck(ws: seq<World>, actions: seq<Action>, i: nat, j: nat, s: nat)
    requires Trace(ws, actions) && |ws| == |actions| + 1 && i <= j < |ws| && Stuck(ws[i], s) && Connected(actions, i, j)
    ensures Stuck(ws[j], s)
    decreases j
  {
    hide *;
    if i < j {
      ConnectedLess(actions, i, j);
      StaysStuck(ws, actions, i, j - 1, s);
      InvAlways(ws, actions, j - 1);
      TraceStep(ws, actions, j - 1);
      StuckStep(ws[j - 1], actions[j - 1], s);
    }
  }

  /** A scan whose end is refused seems to go on until the session is closed: whatever happens, it is
      shown as running, and no other scan of the slave is started. */
  lemma {:induction false} RefusedSeemsRunning(ws: seq<World>, actions: seq<Action>, i: nat, j: nat)
    requires Trace(ws, actions) && |ws| == |actions| + 1 && i < j < |ws| && actions[i].Step? && ws[i].thread.Ending?
    requires !Room(ws[i]) && Connected(actions, i + 1, j)
    ensures var s := ws[i].thread.job.slave; s in ws[j].shown && ws[j].shown[s].running && !Active(ws[j], s)
  {
    InvAlways(ws, actions, i);
    TraceStep(ws, actions, i);
    RefusedIsStuck(ws[i]);
    hide Inv, Do, Allowed, Trace, Connected;
    StaysStuck(ws, actions, i + 1, j, ws[i].thread.job.slave);
  }

  lemma {:induction false} RefusedIsStuck(w: World)
    requires Inv(w) && Allowed(w, Step) && w.thread.Ending? && !Room(w)
    ensures Stuck(Do(w, Step), w.thread.job.slave)
  {
    assert SlaveGood(w, w.thread.job.slave);
  }

  // ---- Room for the end -----------------------------------------------------

  lemma {:induction false} RingGrows(ws: seq<World>, actions: seq<Action>, i: nat, j: nat)
    requires Trace(ws, actions) && |ws| == |actions| + 1 && i <= j < |ws|
    ensures ws[i].log <= ws[j].log && |ws[j].ring| - |ws[i].ring| <= |ws[j].log| - |ws[i].log|
    decreases j
  {
    hide *;
    if i < j {
      RingGrows(ws, actions, i, j - 1);
      RingAlways(ws, actions, j - 1);
      TraceStep(ws, actions, j - 1);
      RingStep(ws[j - 1], actions[j - 1]);
    }
  }

  /** The totals among events, and the objects. */
  function Totals(es: seq<Event>): nat
    decreases |es|
  {
    if es == [] then 0 else (if es[0].Total? then 1 else 0) + Totals(es[1..])
  }

  /** Events about one slave that do not end its scan. */
  predicate Only(es: seq<Event>, s: nat) { forall i :: 0 <= i < |es| ==> For(es[i], s) && !es[i].End? }

  lemma {:induction false} OnlyAll(es: seq<Event>, s: nat)
    requires Only(es, s)
    ensures Of(es, s) == es
    decreases |es|
  {
    if es != [] {
      OnlyRest(es, s);
      OnlyAll(es[1..], s);
    }
  }

  lemma {:induction false} OnlyRest(es: seq<Event>, s: nat)
    requires Only(es, s) && es != []
    ensures Only(es[1..], s) && For(es[0], s) && !es[0].End?
  {
    assert forall i :: 0 <= i < |es| - 1 ==> es[1..][i] == es[i + 1];
  }

  /** Each of them is a total or one more object. */
  lemma {:induction false} OnlyCounts(sh: Shown, es: seq<Event>, s: nat)
    requires Only(es, s)
    ensures |AppliedAll(sh, es).objects| + Totals(es) == |sh.objects| + |es|
    ensures AppliedAll(sh, es).running == sh.running
    decreases |es|
  {
    if es != [] {
      OnlyRest(es, s);
      OnlyCounts(Applied(sh, es[0]), es[1..], s);
    }
  }

  lemma {:induction false} OnlySplit(xs: seq<Event>, ys: seq<Event>, s: nat)
    requires Only(xs + ys, s)
    ensures Only(xs, s) && Only(ys, s)
  {
    assert forall i :: 0 <= i < |xs| ==> xs[i] == (xs + ys)[i];
    assert forall i :: 0 <= i < |ys| ==> ys[i] == (xs + ys)[|xs| + i];
  }

  /** While nothing but a scan's own events are pushed, what is coming of it is those events. */
  lemma {:induction false} ComingFollows(ws: seq<World>, actions: seq<Action>, i: nat, j: nat, s: nat)
    requires Trace(ws, actions) && |ws| == |actions| + 1 && i <= j < |ws| && Running(ws[i], s)
    requires Connected(actions, i, j) && ws[i].log <= ws[j].log && Only(ws[j].log[|ws[i].log|..], s)
    ensures Running(ws[j], s) && Coming(ws[j], s) == AppliedAll(Coming(ws[i], s), ws[j].log[|ws[i].log|..])
    decreases j
  {
    if i == j {
      assert ws[j].log[|ws[i].log|..] == [];
    } else {
      var m := j - 1;
      InvAlways(ws, actions, m);
      TraceStep(ws, actions, m);
      RingGrows(ws, actions, i, m);
      assert !actions[m].Reopen? && Connected(actions, i, m);
      RingStep(ws[m], actions[m]);
      var before, added := ws[m].log[|ws[i].log|..], ws[j].log[|ws[m].log|..];
      assert ws[j].log[|ws[i].log|..] == before + added;
      OnlySplit(before, added, s);
      hide Trace, Inv, Do, Allowed, Connected, Coming, Only, RingGood;
      ComingFollows(ws, actions, i, m, s);
      ComingOne(ws[m], actions[m], ws[j], added, s);
      AppliedCat(Coming(ws[i], s), before, added);
    }
  }

  lemma {:induction false} ComingOne(w: World, a: Action, v: World, es: seq<Event>, s: nat)
    requires Inv(w) && Allowed(w, a) && v == Do(w, a) && !a.Reopen? && Running(w, s)
    requires w.log <= v.log && es == v.log[|w.log|..] && Only(es, s)
    ensures Running(v, s) && Coming(v, s) == AppliedAll(Coming(w, s), es)
  {
    var added := FollowsStep(w, a, s);
    hide Inv, Allowed, Do, Coming;
    assert added == es;
    OnlyAll(es, s);
    OnlyCounts(Coming(w, s), es, s);
  }

  /** A scan needs one place for each object still to come and one for each time its total is
      announced; with one more it does not lose its end, if nothing else is pushed meanwhile.
      From the start of a scan that is announced once, that is the number of objects and two. */
  lemma {:induction false} EndFits(ws: seq<World>, actions: seq<Action>, i: nat, j: nat, s: nat)
    requires Trace(ws, actions) && |ws| == |actions| + 1 && i <= j < |ws| && Running(ws[i], s)
    requires Connected(actions, i, j) && ws[i].log <= ws[j].log && Only(ws[j].log[|ws[i].log|..], s)
    ensures var needed := |ListOf(ws[j], s)| - |Coming(ws[i], s).objects| + Totals(ws[j].log[|ws[i].log|..]);
            && |ws[j].ring| <= |ws[i].ring| + needed
            && (|ws[i].ring| + needed + 1 <= CAPACITY ==> Room(ws[j]))
  {
    var es := ws[j].log[|ws[i].log|..];
    RingGrows(ws, actions, i, j);
    ComingFollows(ws, actions, i, j, s);
    InvAlways(ws, actions, j);
    assert SlaveGood(ws[j], s);
    hide Trace, Inv, Connected;
    ComingWithin(ws[j], s);
    OnlyCounts(Coming(ws[i], s), es, s);
  }
}
