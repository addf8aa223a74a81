/** The user interface's part of a session (`BusSession`, tools/kickui/BusSession.cc): the ring it
    shares with the bus thread, what it shows of scans, and the scans it has queued. */
module ScanSession {
  import opened Bytes
  import opened Common
  import opened OdScan
  import opened EventRing
  import opened ScanDisplay

  /** The session once every event in the ring was shown. */
  function Drained(w: World): (v: World)
    requires !w.stopping
    ensures v.ring == [] && v.queue == w.queue
    decreases |w.ring|
  {
    if w.ring == [] then w else Drained(Do(w, Pop))
  }

  /** What is shown after all of `es`. */
  function ShownAll(shown: map<nat, Shown>, es: seq<Event>): map<nat, Shown>
    decreases |es|
  {
    if es == [] then shown else ShownAll(ShownAfter(shown, es[0]), es[1..])
  }

  lemma {:induction false} DrainedShows(w: World)
    requires !w.stopping
    ensures Drained(w).shown == ShownAll(w.shown, w.ring)
    decreases |w.ring|
  {
    if w.ring != [] { DrainedShows(Do(w, Pop)); }
  }

  class Session {
    const ring: Ring<Event>
    var shown: map<nat, Shown>
    var queue: seq<Job>

    constructor ()
      ensures Valid() && fresh(ring) && fresh(ring.data) && ring.Contents() == [] && shown == map[] && queue == []
    {
      ring := new Ring();
      shown, queue := map[], [];
    }

    ghost predicate Valid()
      reads this, ring
    {
      ring.Valid()
    }

    /** The session is in the state `w` speaks of. */
    ghost predicate In(w: World)
      requires Valid()
      reads this, ring, ring.data
    {
      w.ring == ring.Contents() && w.shown == shown && w.queue == queue
    }

    /** `pushEvent`, on the bus thread: as the step of the bus thread that pushes. */
    method PushEvent(e: Event) returns (ok: bool)
      requires Valid()
      modifies ring, ring.data
      ensures Valid() && ok == (|old(ring.Contents())| < CAPACITY)
      ensures forall w :: old(In(w)) ==> In(Pushed(w, e))
    {
      ok := ring.Push(e);
    }

    /** The switch of `drainEvents`. */
    method Apply(e: Event)
      modifies this`shown
      ensures shown == ShownAfter(old(shown), e)
    {
      if e.Other? {
        return;
      }
      var sh := if e.slave in shown then shown[e.slave] else BLANK;
      match e {
        case Total(_, n) => sh := sh.(count := 0, total := n);
        case Object(_, x) => sh := sh.(objects := sh.objects + [x], count := |sh.objects| + 1);
        case End(_, error) => sh := sh.(running := false, error := error);
        case Other =>
      }
      shown := shown[e.slave := sh];
    }

    /** `drainEvents`, with nobody pushing meanwhile: the steps that show every event there is. */
    method DrainEvents()
      requires Valid()
      modifies this`shown, ring
      ensures Valid() && ring.Contents() == [] && shown == ShownAll(old(shown), old(ring.Contents()))
      ensures forall w :: old(In(w)) && !w.stopping ==> In(Drained(w))
    {
      ghost var goal := ShownAll(shown, ring.Contents());
      var more := true;
      while more
        invariant Valid() && ShownAll(shown, ring.Contents()) == goal
        invariant !more ==> ring.Contents() == []
        decreases more, |ring.Contents()|
      {
        var e := ring.Pop();
        match e {
          case None => more := false;
          case Some(event) => Apply(event);
        }
      }
      forall w | old(In(w)) && !w.stopping ensures In(Drained(w)) {
        DrainedShows(w);
      }
    }

    /** `discoverOD`: refused while a scan of the slave is shown as running. */
    method DiscoverOd(s: nat)
      requires Valid()
      modifies this
      ensures Valid()
      ensures forall w :: old(In(w)) && !w.stopping ==> In(Do(w, Discover(s)))
    {
      var sh := if s in shown then shown[s] else BLANK;
      if sh.running {
        return;
      }
      shown := shown[s := sh.(running := true, count := 0, total := 0, objects := [], error := Fine)];
      queue := queue + [Job(s, 0)];
    }

    /** `disconnect`, once the bus thread is gone: queued scans, events and what was shown are dropped. */
    method Drop()
      requires Valid()
      modifies this, ring
      ensures Valid()
      ensures forall w, lists :: old(In(w)) && Allowed(w, Reopen(lists)) ==> In(Do(w, Reopen(lists)))
    {
      queue := [];
      var more := true;
      while more
        invariant Valid() && queue == [] && (!more ==> ring.Contents() == [])
        decreases more, |ring.Contents()|
      {
        var e := ring.Pop();
        more := e.Some?;
      }
      shown := map[];
    }
  }
}
