/** What the user sees of object-dictionary scans (tools/kickui/BusSession.cc): the bus thread
    pushes events into a bounded ring, the user interface starts scans, applies the events and
    disconnects. Both run at once; a step of either is a push, a pop or a change of flags. */
module ScanDisplay {
  import opened Bytes
  import opened Common
  import opened OdScan
  import opened EventRing

  datatype Event = Total(slave: nat, n: nat) | Object(slave: nat, x: u16) | End(slave: nat, error: Error) | Other

  predicate For(e: Event, s: nat) { !e.Other? && e.slave == s }

  // ---- What is shown --------------------------------------------------------

  /** The scan of a slave as the user sees it. */
  datatype Shown = Shown(running: bool, count: nat, total: nat, objects: seq<u16>, error: Error)

  const BLANK := Shown(false, 0, 0, [], Fine)
  const STARTED := Shown(true, 0, 0, [], Fine)

  /** `drainEvents`: one event applied. */
  function Applied(sh: Shown, e: Event): Shown {
    match e
    case Total(_, n) => sh.(count := 0, total := n)
    case Object(_, x) => sh.(objects := sh.objects + [x], count := |sh.objects| + 1)
    case End(_, error) => sh.(running := false, error := error)
    case Other => sh
  }

  function AppliedAll(sh: Shown, es: seq<Event>): Shown
    decreases |es|
  {
    if es == [] then sh else AppliedAll(Applied(sh, es[0]), es[1..])
  }

  /** The events about a slave, in order. */
  function Of(es: seq<Event>, s: nat): seq<Event>
    decreases |es|
  {
    if es == [] then [] else (if For(es[0], s) then [es[0]] else []) + Of(es[1..], s)
  }

  function ShownAfter(shown: map<nat, Shown>, e: Event): map<nat, Shown> {
    if e.Other? then shown
    else shown[e.slave := Applied(if e.slave in shown then shown[e.slave] else BLANK, e)]
  }

  // ---- Both threads ---------------------------------------------------------

  /** A scan waiting for its next phase, and the object it resumes at. */
  datatype Job = Job(slave: nat, from: nat)

  /** What the bus thread is about to do: nothing for a scan, announce the total, turn the loop, or
      push the end. `p` is what the phase meets; `start` is how many events there were before. */
  datatype Thread =
    | Idle
    | Announcing(job: Job, p: Phase, start: nat)
    | Looping(job: Job, p: Phase, start: nat, i: nat, c: nat, t: nat)
    | Ending(job: Job, p: Phase, start: nat, error: Error)

  /** The session: the object lists of its slaves, the queued scans, the bus thread, whether the
      user interface waits for it to stop, the ring and what is shown. Beside it, the history of
      the ring: all events accepted, and for those no longer in it whether they were shown. */
  datatype World = World(lists: map<nat, seq<u16>>, queue: seq<Job>, thread: Thread, stopping: bool,
                         ring: seq<Event>, shown: map<nat, Shown>, log: seq<Event>, fates: seq<bool>)

  function Opened(lists: map<nat, seq<u16>>): World { World(lists, [], Idle, false, [], map[], [], []) }

  function ListOf(w: World, s: nat): seq<u16> { if s in w.lists then w.lists[s] else [] }

  function ShownOf(w: World, s: nat): Shown { if s in w.shown then w.shown[s] else BLANK }

  predicate Room(w: World) { |w.ring| < CAPACITY }

  /** The user starts a scan, an event is shown, the user disconnects and the thread is joined,
      another session opens; a scan is taken up, the bus thread goes on with it, or pushes an
      event of another kind. */
  datatype Action =
    | Discover(slave: nat)
    | Pop
    | Disconnect
    | Reopen(lists: map<nat, seq<u16>>)
    | Begin(p: Phase)
    | Step
    | Push

  function Pushed(w: World, e: Event): World {
    if Room(w) then w.(ring := w.ring + [e], log := w.log + [e]) else w
  }

  /** The loop is over: the scan is queued again, or its end is next. */
  function Concluded(w: World, job: Job, p: Phase, start: nat, o: Outcome): World {
    match o
    case Requeued(next) => w.(thread := Idle, queue := w.queue + [Job(job.slave, next)])
    case Done(error) => w.(thread := Ending(job, p, start, error))
  }

  function Begun(w: World, p: Phase): World
    requires w.queue != []
  {
    var job, rest := w.queue[0], w.(queue := w.queue[1..]);
    if !p.bus || !p.listed then Concluded(rest, job, p, |w.log|, Verdict(|ListOf(w, job.slave)|, job.from, p))
    else if job.from == 0 then rest.(thread := Announcing(job, p, |w.log|))
    else rest.(thread := Looping(job, p, |w.log|, job.from, 0, p.checks))
  }

  function Turned(w: World): World
    requires w.thread.Looping?
  {
    var Looping(job, p, start, i, c, t) := w.thread;
    var list := ListOf(w, job.slave);
    match TurnOf(|list|, i, c, t, p)
    case Halts(_) => Concluded(w, job, p, start, Verdict(|list|, job.from, p))
    case Offers(c1, t1) =>
      if Room(w) then Pushed(w, Object(job.slave, list[i])).(thread := Looping(job, p, start, i + 1, c1, t1))
      else Concluded(w, job, p, start, Verdict(|list|, job.from, p))
  }

  function Stepped(w: World): World {
    match w.thread
    case Idle => w
    case Announcing(job, p, start) =>
      Pushed(w, Total(job.slave, |ListOf(w, job.slave)|)).(thread := Looping(job, p, start, 0, 0, p.checks))
    case Looping(_, _, _, _, _, _) => Turned(w)
    case Ending(job, p, start, error) => Pushed(w, End(job.slave, error)).(thread := Idle)
  }

  function Do(w: World, a: Action): World
    requires Allowed(w, a)
  {
    match a
    case Discover(s) =>
      if s in w.shown && w.shown[s].running then w
      else w.(shown := w.shown[s := STARTED], queue := w.queue + [Job(s, 0)])
    case Pop =>
      if w.ring == [] then w
      else w.(ring := w.ring[1..], shown := ShownAfter(w.shown, w.ring[0]), fates := w.fates + [true])
    case Disconnect => w.(stopping := true)
    case Reopen(lists) => World(lists, [], Idle, false, [], map[], w.log, w.fates + seq(|w.ring|, _ => false))
    case Begin(p) => Begun(w, p)
    case Step => Stepped(w)
    case Push => Pushed(w, Other)
  }

  /** What a phase meets agrees with the session: a push works if there is room, and the thread is
      seen to be stopped only if the user disconnects. The user interface does nothing else while
      it waits for the thread; only one thread pushes. */
  predicate Allowed(w: World, a: Action) {
    match a
    case Discover(_) => !w.stopping
    case Pop => !w.stopping
    case Disconnect => !w.stopping
    case Reopen(_) => w.stopping && w.thread.Idle?
    case Begin(p) =>
      && w.thread.Idle? && w.queue != []
      && (w.queue[0].slave !in w.lists ==> !p.bus)
      && (Stopped(p, p.checks + 1) && !p.listed ==> w.stopping)
    case Step =>
      (match w.thread
       case Idle => false
       case Announcing(_, p, _) => p.announced == Room(w)
       case Ending(_, p, _, _) => p.room == Room(w)
       case Looping(job, p, _, i, c, t) =>
         var n := |ListOf(w, job.slave)|;
         && (TurnOf(n, i, c, t, p).Offers? ==> RoundAt(p, i).pushed == Room(w))
         && (Stopped(p, Scanned(n, job.from, p).clock + 1) ==>
               w.stopping || (TurnOf(n, i, c, t, p).Offers? && Room(w))))
    case Push => w.thread.Idle?
  }

  // ---- Events in order ------------------------------------------------------

  lemma {:induction false} OfCat(xs: seq<Event>, ys: seq<Event>, s: nat)
    ensures Of(xs + ys, s) == Of(xs, s) + Of(ys, s)
    decreases |xs|
  {
    if xs == [] {
      assert xs + ys == ys;
    } else {
      assert (xs + ys)[1..] == xs[1..] + ys;
      OfCat(xs[1..], ys, s);
      Regroup(if For(xs[0], s) then [xs[0]] else [], Of(xs[1..], s), Of(ys, s));
    }
  }

  lemma {:induction false} OfOne(e: Event, s: nat)
    ensures Of([e], s) == if For(e, s) then [e] else []
  {
    assert [e][1..] == [];
  }

  lemma {:induction false} OfPush(ring: seq<Event>, e: Event, s: nat)
    ensures Of(ring + [e], s) == if For(e, s) then Of(ring, s) + [e] else Of(ring, s)
  {
    OfCat(ring, [e], s);
    OfOne(e, s);
  }

  lemma {:induction false} OfPop(ring: seq<Event>, s: nat)
    requires ring != []
    ensures For(ring[0], s) ==> Of(ring, s) != [] && Of(ring, s)[0] == ring[0] && Of(ring[1..], s) == Of(ring, s)[1..]
    ensures !For(ring[0], s) ==> Of(ring[1..], s) == Of(ring, s)
  {
  }

  lemma {:induction false} AppliedCat(sh: Shown, xs: seq<Event>, ys: seq<Event>)
    ensures AppliedAll(sh, xs + ys) == AppliedAll(AppliedAll(sh, xs), ys)
    decreases |xs|
  {
    if xs == [] {
      assert xs + ys == ys;
    } else {
      assert (xs + ys)[1..] == xs[1..] + ys;
      AppliedCat(Applied(sh, xs[0]), xs[1..], ys);
    }
  }

  lemma {:induction false} AppliedPush(sh: Shown, es: seq<Event>, e: Event)
    ensures AppliedAll(sh, es + [e]) == Applied(AppliedAll(sh, es), e)
  {
    AppliedCat(sh, es, [e]);
    assert [e][1..] == [];
  }

  /** Objects are only ever added, and nothing but an end ends a scan. */
  lemma {:induction false} AppliedGrows(sh: Shown, es: seq<Event>)
    ensures sh.objects <= AppliedAll(sh, es).objects
    ensures AppliedAll(sh, es).running ==> sh.running && forall i :: 0 <= i < |es| ==> !es[i].End?
    decreases |es|
  {
    if es != [] {
      AppliedGrows(Applied(sh, es[0]), es[1..]);
      assert forall i :: 1 <= i < |es| ==> es[i] == es[1..][i - 1];
    }
  }

  // ---- One slave ------------------------------------------------------------

  predicate EndsLast(es: seq<Event>) { forall i :: 0 <= i < |es| - 1 ==> !es[i].End? }

  /** The display of a slave with object list `list`: what is shown of it, if anything, the events on
      their way, and whether a scan of it is queued or under way. */
  predicate Good(list: seq<u16>, known: bool, sh: Shown, es: seq<Event>, active: bool, stopping: bool) {
    var coming := AppliedAll(sh, es);
    && (known ==> sh.running || es == [])
    && (!known ==> es == [] && !active && sh == BLANK)
    && EndsLast(es)
    && coming.objects <= list
    && (active ==> known && sh.running && coming.running)
    && (known && !coming.running && coming.error == Fine ==> coming.objects == list || (stopping && sh.running))
  }

  lemma {:induction false} GoodPush(list: seq<u16>, sh: Shown, es: seq<Event>, e: Event, active: bool, stopping: bool)
    requires Good(list, true, sh, es, true, stopping) && Applied(AppliedAll(sh, es), e).objects <= list
    requires e.End? ==> !active && (e.error == Fine ==> AppliedAll(sh, es).objects == list || stopping)
    ensures Good(list, true, sh, es + [e], active, stopping)
    ensures AppliedAll(sh, es + [e]) == Applied(AppliedAll(sh, es), e)
  {
    AppliedPush(sh, es, e);
    AppliedGrows(sh, es);
    hide AppliedAll;
    assert forall i :: 0 <= i < |es| ==> (es + [e])[i] == es[i];
  }

  lemma {:induction false} GoodPop(list: seq<u16>, sh: Shown, es: seq<Event>, active: bool)
    requires Good(list, true, sh, es, active, false) && es != []
    ensures Good(list, true, Applied(sh, es[0]), es[1..], active, false)
    ensures AppliedAll(Applied(sh, es[0]), es[1..]) == AppliedAll(sh, es)
  {
    AppliedGrows(sh, es);
    AppliedGrows(Applied(sh, es[0]), es[1..]);
    if es[0].End? {
      assert |es| == 1;
    }
    assert forall i :: 0 <= i < |es| - 1 ==> es[1..][i] == es[i + 1];
  }

  // ---- The invariant --------------------------------------------------------

  /** What will be shown of a slave when the events on their way are applied. */
  function Coming(w: World, s: nat): Shown { AppliedAll(ShownOf(w, s), Of(w.ring, s)) }

  predicate Queued(queue: seq<Job>, s: nat) { exists k :: 0 <= k < |queue| && queue[k].slave == s }

  predicate Active(w: World, s: nat) { (!w.thread.Idle? && w.thread.job.slave == s) || Queued(w.queue, s) }

  predicate SlaveGood(w: World, s: nat) {
    Good(ListOf(w, s), s in w.shown, ShownOf(w, s), Of(w.ring, s), Active(w, s), w.stopping)
  }

  /** A resume point lies in the list, behind the objects emitted. */
  predicate JobGood(w: World, job: Job) {
    job.from == |Coming(w, job.slave).objects| && (job.from == 0 || job.from < |ListOf(w, job.slave)|)
  }

  predicate OneJobEach(w: World) {
    && (forall j, k :: 0 <= j < k < |w.queue| ==> w.queue[j].slave != w.queue[k].slave)
    && (!w.thread.Idle? ==> !Queued(w.queue, w.thread.job.slave))
  }

  function Objects(s: nat, xs: seq<u16>): (r: seq<Event>)
    ensures |r| == |xs| && forall i :: 0 <= i < |xs| ==> r[i] == Object(s, xs[i])
  {
    seq(|xs|, i requires 0 <= i < |xs| => Object(s, xs[i]))
  }

  /** The events of a phase up to object `i`. */
  function PhaseEvents(list: seq<u16>, job: Job, p: Phase, i: nat): seq<Event>
    requires job.from <= i <= |list|
  {
    (if p.bus && p.listed && p.announced && job.from == 0 then [Total(job.slave, |list|)] else [])
    + Objects(job.slave, list[job.from..i])
  }

  /** Where the bus thread is in its phase, and what it has pushed in it. */
  predicate ThreadGood(w: World) {
    w.thread.Idle? ||
    var job, p, list := w.thread.job, w.thread.p, ListOf(w, w.thread.job.slave);
    var n, at := |list|, |Coming(w, job.slave).objects|;
    && (job.from == 0 || job.from < n) && job.from <= at <= n && w.thread.start <= |w.log|
    && match w.thread
       case Announcing(_, _, start) => p.bus && p.listed && job.from == 0 == at && w.log[start..] == []
       case Looping(_, _, start, i, c, t) =>
         && p.bus && p.listed && i == at && Scanned(n, job.from, p) == Loop(n, i, c, t, p)
         && w.log[start..] == PhaseEvents(list, job, p, i)
       case Ending(_, _, start, error) =>
         && Verdict(n, job.from, p) == Done(error) && Reached(n, job.from, p) == at
         && (error == Fine && at < n ==> w.stopping)
         && w.log[start..] == PhaseEvents(list, job, p, at)
  }

  predicate RingGood(w: World) {
    |w.ring| <= CAPACITY && |w.fates| <= |w.log| && w.ring == w.log[|w.fates|..]
  }

  ghost predicate Inv(w: World) {
    && RingGood(w) && OneJobEach(w) && ThreadGood(w)
    && (forall s :: SlaveGood(w, s))
    && (forall k :: 0 <= k < |w.queue| ==> JobGood(w, w.queue[k]))
  }

  /** The invariant but for the bus thread. */
  ghost predicate RestGood(w: World) {
    && RingGood(w) && OneJobEach(w)
    && (forall s :: SlaveGood(w, s))
    && (forall k :: 0 <= k < |w.queue| ==> JobGood(w, w.queue[k]))
  }

  // ---- The user interface's steps -------------------------------------------

  lemma {:induction false} QueuedMore(queue: seq<Job>, job: Job, s: nat)
    ensures Queued(queue + [job], s) <==> Queued(queue, s) || job.slave == s
  {
    var more := queue + [job];
    assert more[|queue|] == job;
    if Queued(queue, s) {
      var k :| 0 <= k < |queue| && queue[k].slave == s;
      assert more[k] == queue[k];
    }
  }

  lemma {:induction false} QueuedLess(queue: seq<Job>, s: nat)
    requires queue != []
    ensures Queued(queue, s) <==> queue[0].slave == s || Queued(queue[1..], s)
  {
    if Queued(queue[1..], s) {
      var k :| 0 <= k < |queue| - 1 && queue[1..][k].slave == s;
      assert queue[k + 1].slave == s;
    }
    if Queued(queue, s) && queue[0].slave != s {
      var k :| 0 <= k < |queue| && queue[k].slave == s;
      assert queue[1..][k - 1].slave == s;
    }
  }

  lemma {:induction false} FreshGood(list: seq<u16>, stopping: bool)
    ensures Good(list, true, STARTED, [], true, stopping) && Good(list, false, BLANK, [], false, stopping)
    ensures AppliedAll(STARTED, []) == STARTED && AppliedAll(BLANK, []) == BLANK
  {
  }

  lemma {:induction false} StartsGood(w: World, s: nat)
    requires SlaveGood(w, s) && !(s in w.shown && w.shown[s].running)
    ensures Of(w.ring, s) == [] && !Active(w, s)
  {
  }

  lemma {:induction false} DiscoverKeeps(w: World, s: nat)
    requires Inv(w) && Allowed(w, Discover(s))
    ensures Inv(Do(w, Discover(s)))
  {
    var v := Do(w, Discover(s));
    if !(s in w.shown && w.shown[s].running) {
      assert SlaveGood(w, s);
      StartsGood(w, s);
      FreshGood(ListOf(w, s), w.stopping);
      hide Good, AppliedAll, Of, Queued, Loop, Verdict, Reached;
      forall x ensures SlaveGood(v, x) && (x != s ==> Coming(v, x) == Coming(w, x)) {
        assert SlaveGood(w, x);
        QueuedMore(w.queue, Job(s, 0), x);
      }
      assert Coming(v, s) == STARTED && JobGood(v, Job(s, 0));
      JobsDiffer(w, v, Job(s, 0));
      hide SlaveGood, Coming, PhaseEvents, OneJobEach;
      forall k | 0 <= k < |v.queue| ensures JobGood(v, v.queue[k]) {
        if k < |w.queue| {
          ActiveAt(w, k);
          JobStays(w, v, w.queue[k]);
        }
      }
      hide JobGood, Active;
    }
  }

  /** A resume point stays right where neither the list nor what is coming changes. */
  lemma {:induction false} JobStays(w: World, v: World, job: Job)
    requires JobGood(w, job) && ListOf(v, job.slave) == ListOf(w, job.slave)
    requires Coming(v, job.slave) == Coming(w, job.slave)
    ensures JobGood(v, job)
  {
    hide Coming, ListOf;
  }

  lemma {:induction false} JobsDiffer(w: World, v: World, job: Job)
    requires OneJobEach(w) && v.queue == w.queue + [job] && !Queued(w.queue, job.slave)
    requires v.thread.Idle? || (v.thread == w.thread && v.thread.job.slave != job.slave)
    ensures OneJobEach(v)
  {
    NotQueued(w.queue, job.slave);
    if !v.thread.Idle? { QueuedMore(w.queue, job, v.thread.job.slave); }
    hide Queued;
  }

  lemma {:induction false} ActiveAt(w: World, k: nat)
    requires k < |w.queue|
    ensures Active(w, w.queue[k].slave)
  {
  }

  lemma {:induction false} NotQueued(queue: seq<Job>, s: nat)
    ensures !Queued(queue, s) <==> forall k :: 0 <= k < |queue| ==> queue[k].slave != s
  {
  }

  /** Showing an event leaves what is coming as it was. */
  lemma {:induction false} PopSlave(w: World, s: nat)
    requires SlaveGood(w, s) && !w.stopping && w.ring != []
    ensures var v := w.(ring := w.ring[1..], shown := ShownAfter(w.shown, w.ring[0]), fates := w.fates + [true]);
            SlaveGood(v, s) && Coming(v, s) == Coming(w, s)
  {
    OfPop(w.ring, s);
    hide Of, AppliedAll, Queued;
    if For(w.ring[0], s) {
      GoodPop(ListOf(w, s), ShownOf(w, s), Of(w.ring, s), Active(w, s));
      hide Good, Applied;
    }
  }

  lemma {:induction false} PopKeeps(w: World)
    requires Inv(w) && Allowed(w, Pop)
    ensures Inv(Do(w, Pop))
  {
    if w.ring != [] {
      var v := Do(w, Pop);
      assert v == w.(ring := w.ring[1..], shown := ShownAfter(w.shown, w.ring[0]), fates := w.fates + [true]);
      hide SlaveGood, Coming, ShownAfter, Loop, Verdict, Reached, Queued;
      forall s ensures SlaveGood(v, s) && Coming(v, s) == Coming(w, s) {
        assert SlaveGood(w, s);
        PopSlave(w, s);
      }
      forall k | 0 <= k < |v.queue| ensures JobGood(v, v.queue[k]) {
        assert JobGood(w, w.queue[k]);
      }
    }
  }

  lemma {:induction false} DisconnectKeeps(w: World)
    requires Inv(w) && Allowed(w, Disconnect)
    ensures Inv(Do(w, Disconnect))
  {
    var v := Do(w, Disconnect);
    hide AppliedAll, Of, Queued, Loop, Verdict, Reached;
    forall s ensures SlaveGood(v, s) && Coming(v, s) == Coming(w, s) {
      assert SlaveGood(w, s);
    }
    forall k | 0 <= k < |v.queue| ensures JobGood(v, v.queue[k]) {
      assert JobGood(w, w.queue[k]);
    }
  }

  lemma {:induction false} ReopenKeeps(w: World, lists: map<nat, seq<u16>>)
    requires Inv(w) && Allowed(w, Reopen(lists))
    ensures Inv(Do(w, Reopen(lists)))
  {
    var v := Do(w, Reopen(lists));
    assert v.log[|v.fates|..] == [];
    forall s ensures SlaveGood(v, s) {
      FreshGood(ListOf(v, s), false);
    }
  }

  // ---- The bus thread's steps -----------------------------------------------

  /** An event about `s` is accepted, and the bus thread moves on. */
  lemma {:induction false} PushSlaves(w: World, v: World, e: Event, s: nat)
    requires RestGood(w) && Room(w) && For(e, s) && Active(w, s)
    requires v == w.(ring := w.ring + [e], log := w.log + [e], thread := v.thread)
    requires Applied(Coming(w, s), e).objects <= ListOf(w, s)
    requires forall x :: x != s ==> Active(v, x) == Active(w, x)
    requires e.End? ==> !Active(v, s) && (e.error == Fine ==> Coming(w, s).objects == ListOf(w, s) || w.stopping)
    ensures RingGood(v) && Coming(v, s) == Applied(Coming(w, s), e)
    ensures forall x :: SlaveGood(v, x) && (x != s ==> Coming(v, x) == Coming(w, x))
  {
    PushRing(w, v, e);
    forall x ensures SlaveGood(v, x) && (x != s ==> Coming(v, x) == Coming(w, x))
             ensures x == s ==> Coming(v, s) == Applied(Coming(w, s), e)
    {
      assert SlaveGood(w, x);
      OfPush(w.ring, e, x);
      if x == s {
        assert s in w.shown;
        GoodPush(ListOf(w, s), ShownOf(w, s), Of(w.ring, s), e, Active(v, s), w.stopping);
      }
      hide Good, Of, AppliedAll, Queued, Applied;
    }
  }

  lemma {:induction false} PushRing(w: World, v: World, e: Event)
    requires RingGood(w) && Room(w)
    requires v == w.(ring := w.ring + [e], log := w.log + [e], thread := v.thread)
    ensures RingGood(v)
  {
  }

  /** The loop of a phase is over. */
  lemma {:induction false} ConcludedKeeps(w: World, o: Outcome)
    requires RestGood(w) && !w.thread.Idle?
    requires var job, p, n := w.thread.job, w.thread.p, |ListOf(w, w.thread.job.slave)|;
             var at := |Coming(w, job.slave).objects|;
             && o == Verdict(n, job.from, p) && Reached(n, job.from, p) == at && (job.from == 0 || job.from < n)
             && job.from <= at <= n && w.thread.start <= |w.log|
             && (o == Done(Fine) && at < n ==> w.stopping)
             && w.log[w.thread.start..] == PhaseEvents(ListOf(w, job.slave), job, p, at)
    ensures Inv(Concluded(w, w.thread.job, w.thread.p, w.thread.start, o))
  {
    var job, p, n := w.thread.job, w.thread.p, |ListOf(w, w.thread.job.slave)|;
    OnePhase(n, job.from, p);
    hide Verdict, Reached, StoppedShort, Loop, Coming, RestGood, PhaseEvents, Inv;
    match o
    case Done(error) => EndingKeeps(w, error);
    case Requeued(next) => RequeuedKeeps(w, next);
  }

  lemma {:induction false} EndingKeeps(w: World, error: Error)
    requires RestGood(w) && !w.thread.Idle?
    requires ThreadGood(w.(thread := Ending(w.thread.job, w.thread.p, w.thread.start, error)))
    ensures Inv(w.(thread := Ending(w.thread.job, w.thread.p, w.thread.start, error)))
  {
    var v := w.(thread := Ending(w.thread.job, w.thread.p, w.thread.start, error));
    hide ThreadGood, Good, AppliedAll, Of, Queued;
    forall x ensures SlaveGood(v, x) && Coming(v, x) == Coming(w, x) {
      assert SlaveGood(w, x);
    }
    forall k | 0 <= k < |v.queue| ensures JobGood(v, v.queue[k]) {
      assert JobGood(w, w.queue[k]);
    }
  }

  lemma {:induction false} RequeuedKeeps(w: World, next: nat)
    requires RestGood(w) && !w.thread.Idle? && JobGood(w, Job(w.thread.job.slave, next))
    ensures Inv(w.(thread := Idle, queue := w.queue + [Job(w.thread.job.slave, next)]))
  {
    var job := Job(w.thread.job.slave, next);
    var v := w.(thread := Idle, queue := w.queue + [job]);
    hide Good, AppliedAll, Of, Queued;
    forall x ensures SlaveGood(v, x) && Coming(v, x) == Coming(w, x) {
      assert SlaveGood(w, x);
      QueuedMore(w.queue, job, x);
    }
    assert JobGood(v, job);
    JobsDiffer(w, v, job);
    hide SlaveGood, Coming, OneJobEach, JobGood;
    forall k | 0 <= k < |v.queue| ensures JobGood(v, v.queue[k]) {
      if k < |w.queue| { JobStays(w, v, w.queue[k]); }
    }
  }

  /** A scan is taken off the queue: it counts as under way at once. */
  lemma {:induction false} TakenGood(w: World, v: World)
    requires Inv(w) && w.thread.Idle? && w.queue != [] && !v.thread.Idle? && v.thread.job == w.queue[0]
    requires v == w.(queue := w.queue[1..], thread := v.thread)
    ensures RestGood(v) && JobGood(v, w.queue[0]) && Coming(v, w.queue[0].slave) == Coming(w, w.queue[0].slave)
    ensures |Coming(v, w.queue[0].slave).objects| <= |ListOf(v, w.queue[0].slave)|
  {
    hide Good, AppliedAll, Of, Queued;
    assert JobGood(w, w.queue[0]);
    forall x ensures SlaveGood(v, x) && Coming(v, x) == Coming(w, x) {
      assert SlaveGood(w, x);
      QueuedLess(w.queue, x);
    }
    forall k | 0 <= k < |v.queue| ensures JobGood(v, v.queue[k]) {
      assert v.queue[k] == w.queue[k + 1];
      assert JobGood(w, w.queue[k + 1]);
    }
    NotQueued(v.queue, w.queue[0].slave);
    ComingWithin(w, w.queue[0].slave);
  }

  lemma {:induction false} ComingWithin(w: World, s: nat)
    requires SlaveGood(w, s)
    ensures Coming(w, s).objects <= ListOf(w, s)
  {
  }

  lemma {:induction false} BeginKeeps(w: World, p: Phase)
    requires Inv(w) && Allowed(w, Begin(p))
    ensures Inv(Do(w, Begin(p)))
  {
    var job, list := w.queue[0], ListOf(w, w.queue[0].slave);
    var mid := w.(queue := w.queue[1..], thread := Announcing(job, p, |w.log|));
    TakenGood(w, mid);
    assert list[job.from..job.from] == [] && w.log[|w.log|..] == [];
    if !p.bus || !p.listed {
      assert PhaseEvents(list, job, p, job.from) == [];
      hide RestGood, Coming;
      ConcludedKeeps(mid, Verdict(|list|, job.from, p));
    } else if job.from == 0 {
      hide RestGood, Coming;
      InvOf(mid);
    } else {
      var v := Do(w, Begin(p));
      TakenGood(w, v);
      assert PhaseEvents(list, job, p, job.from) == [];
      hide RestGood, Coming;
      InvOf(v);
    }
  }

  lemma {:induction false} InvOf(w: World)
    requires RestGood(w) && ThreadGood(w)
    ensures Inv(w) && RestGood(w)
  {
  }

  lemma {:induction false} RestOf(w: World)
    requires Inv(w)
    ensures RestGood(w) && ThreadGood(w)
  {
  }

  /** An accepted event about the scan under way, which stays under way. */
  lemma {:induction false} PushRest(w: World, v: World, e: Event)
    requires RestGood(w) && Room(w) && !w.thread.Idle? && !v.thread.Idle? && v.thread.job == w.thread.job
    requires For(e, w.thread.job.slave) && !e.End?
    requires v == w.(ring := w.ring + [e], log := w.log + [e], thread := v.thread)
    requires Applied(Coming(w, w.thread.job.slave), e).objects <= ListOf(w, w.thread.job.slave)
    ensures RestGood(v) && Coming(v, w.thread.job.slave) == Applied(Coming(w, w.thread.job.slave), e)
  {
    PushSlaves(w, v, e, w.thread.job.slave);
    NotQueued(w.queue, w.thread.job.slave);
    hide SlaveGood, Coming, Applied, Queued, JobGood;
    forall k | 0 <= k < |v.queue| ensures JobGood(v, v.queue[k]) {
      JobStays(w, v, w.queue[k]);
    }
  }

  /** The bus thread moves on without pushing. */
  lemma {:induction false} MoveRest(w: World, v: World)
    requires RestGood(w) && !w.thread.Idle? && !v.thread.Idle? && v.thread.job == w.thread.job
    requires v == w.(thread := v.thread)
    ensures RestGood(v) && Coming(v, w.thread.job.slave) == Coming(w, w.thread.job.slave)
  {
    hide Good, AppliedAll, Of, Queued;
    forall x ensures SlaveGood(v, x) && Coming(v, x) == Coming(w, x) {
      assert SlaveGood(w, x);
    }
    forall k | 0 <= k < |v.queue| ensures JobGood(v, v.queue[k]) {
      assert JobGood(w, w.queue[k]);
    }
  }

  lemma {:induction false} AnnounceKeeps(w: World)
    requires Inv(w) && Allowed(w, Step) && w.thread.Announcing?
    ensures Inv(Do(w, Step))
  {
    RestOf(w);
    var Announcing(job, p, start) := w.thread;
    var v, list := Do(w, Step), ListOf(w, job.slave);
    ComingWithin(w, job.slave);
    assert list[0..0] == [];
    if Room(w) {
      PushRest(w, v, Total(job.slave, |list|));
      assert v.log[start..] == [Total(job.slave, |list|)] == PhaseEvents(list, job, p, 0);
    } else {
      MoveRest(w, v);
      assert PhaseEvents(list, job, p, 0) == [];
    }
    hide RestGood, Coming;
    InvOf(v);
  }

  lemma {:induction false} ObjectsMore(s: nat, xs: seq<u16>, from: nat, i: nat)
    requires from <= i < |xs|
    ensures Objects(s, xs[from..i + 1]) == Objects(s, xs[from..i]) + [Object(s, xs[i])]
  {
  }

  lemma {:induction false} PrefixMore(xs: seq<u16>, list: seq<u16>)
    requires xs <= list && |xs| < |list|
    ensures xs + [list[|xs|]] <= list
  {
  }

  lemma {:induction false} OfferKeeps(w: World)
    requires Inv(w) && Allowed(w, Step) && w.thread.Looping? && Room(w)
    requires TurnOf(|ListOf(w, w.thread.job.slave)|, w.thread.i, w.thread.c, w.thread.t, w.thread.p).Offers?
    ensures Inv(Do(w, Step))
  {
    RestOf(w);
    var Looping(job, p, start, i, c, t) := w.thread;
    var v, list := Do(w, Step), ListOf(w, job.slave);
    var e := Object(job.slave, list[i]);
    assert SlaveGood(w, job.slave);
    ComingWithin(w, job.slave);
    assert |Coming(w, job.slave).objects| == i;
    PrefixMore(Coming(w, job.slave).objects, list);
    assert v == w.(ring := w.ring + [e], log := w.log + [e], thread := v.thread) && v.thread.Looping?;
    hide TurnOf, Loop, Verdict, Reached, Coming, RestGood, Inv, PhaseEvents;
    PushRest(w, v, e);
    OfferThread(w, v);
    InvOf(v);
  }

  lemma {:induction false} OfferThread(w: World, v: World)
    requires ThreadGood(w) && Allowed(w, Step) && w.thread.Looping? && Room(w) && v == Turned(w)
    requires TurnOf(|ListOf(w, w.thread.job.slave)|, w.thread.i, w.thread.c, w.thread.t, w.thread.p).Offers?
    requires |Coming(v, w.thread.job.slave).objects| == w.thread.i + 1
    ensures ThreadGood(v)
  {
    var Looping(job, p, start, i, c, t) := w.thread;
    var list := ListOf(w, job.slave);
    EventsMore(list, job, p, i);
    hide TurnOf, Loop, Verdict, Reached, Coming, PhaseEvents;
    assert v.log[start..] == w.log[start..] + [Object(job.slave, list[i])];
  }

  lemma {:induction false} EventsMore(list: seq<u16>, job: Job, p: Phase, i: nat)
    requires job.from <= i < |list|
    ensures PhaseEvents(list, job, p, i + 1) == PhaseEvents(list, job, p, i) + [Object(job.slave, list[i])]
  {
    ObjectsMore(job.slave, list, job.from, i);
    hide Objects;
  }

  lemma {:induction false} HaltKeeps(w: World)
    requires Inv(w) && Allowed(w, Step) && w.thread.Looping?
    requires TurnOf(|ListOf(w, w.thread.job.slave)|, w.thread.i, w.thread.c, w.thread.t, w.thread.p).Offers?
             ==> !Room(w)
    ensures Inv(Do(w, Step))
  {
    RestOf(w);
    var Looping(job, p, start, i, c, t) := w.thread;
    var n := |ListOf(w, job.slave)|;
    assert Scanned(n, job.from, p).next == i;
    OnePhase(n, job.from, p);
    var o := Verdict(n, job.from, p);
    assert o == Done(Fine) && i < n ==> w.stopping;
    hide TurnOf, Loop, Verdict, Coming, RestGood, StoppedShort;
    ConcludedKeeps(w, o);
  }

  lemma {:induction false} EndKeeps(w: World)
    requires Inv(w) && Allowed(w, Step) && w.thread.Ending?
    ensures Inv(Do(w, Step))
  {
    RestOf(w);
    var Ending(job, p, start, error) := w.thread;
    var v := Do(w, Step);
    ComingWithin(w, job.slave);
    NotQueued(w.queue, job.slave);
    if Room(w) {
      PushSlaves(w, v, End(job.slave, error), job.slave);
    } else {
      Retired(w, v);
    }
    hide SlaveGood, Coming, Queued, JobGood;
    forall k | 0 <= k < |v.queue| ensures JobGood(v, v.queue[k]) {
      JobStays(w, v, w.queue[k]);
    }
  }

  /** The bus thread is through with a scan whose end was refused. */
  lemma {:induction false} Retired(w: World, v: World)
    requires RestGood(w) && v == w.(thread := Idle)
    ensures forall x :: SlaveGood(v, x) && Coming(v, x) == Coming(w, x)
  {
    hide AppliedAll, Of, Queued;
    forall x ensures SlaveGood(v, x) && Coming(v, x) == Coming(w, x) {
      assert SlaveGood(w, x);
    }
  }

  lemma {:induction false} OtherKeeps(w: World)
    requires Inv(w) && Allowed(w, Push)
    ensures Inv(Do(w, Push))
  {
    if Room(w) {
      var v := Do(w, Push);
      PushRing(w, v, Other);
      hide Good, AppliedAll, Of, Queued;
      forall x ensures SlaveGood(v, x) && Coming(v, x) == Coming(w, x) {
        assert SlaveGood(w, x);
        OfPush(w.ring, Other, x);
      }
      forall k | 0 <= k < |v.queue| ensures JobGood(v, v.queue[k]) {
        assert JobGood(w, w.queue[k]);
      }
    }
  }

  lemma {:induction false} StepKeeps(w: World, a: Action)
    requires Inv(w) && Allowed(w, a)
    ensures Inv(Do(w, a))
  {
    hide Inv, Do, Turned, Stepped, Begun;
    match a
    case Discover(s) => DiscoverKeeps(w, s);
    case Pop => PopKeeps(w);
    case Disconnect => DisconnectKeeps(w);
    case Reopen(lists) => ReopenKeeps(w, lists);
    case Begin(p) => BeginKeeps(w, p);
    case Push => OtherKeeps(w);
    case Step =>
      match w.thread
      case Announcing(_, _, _) => AnnounceKeeps(w);
      case Ending(_, _, _, _) => EndKeeps(w);
      case Looping(job, p, _, i, c, t) =>
        if TurnOf(|ListOf(w, job.slave)|, i, c, t, p).Offers? && Room(w) { OfferKeeps(w); } else { HaltKeeps(w); }
  }
}
