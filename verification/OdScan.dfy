/** The object-dictionary scan of the bus thread (`executeDiscover` and `aborting`,
    tools/kickui/BusSession.cc): a scan interrupted by a phase change queues itself again and
    resumes where it left off. The slave and the other threads are an oracle. */
module OdScan {
  import opened Bytes

  const FAIL_LIMIT := 10

  /** Why a finished scan is not a success; `Fine` is the empty error text. */
  datatype Error = Fine | Threw | NoList | Shrunk | QueueFull | OutOfSync

  datatype Outcome = Requeued(from: nat) | Done(error: Error)

  /** One object read: whether each value read worked, how often the stop flags were looked
      at meanwhile, whether the event queue had room for the object, and whether reading threw. */
  datatype Round = Round(values: seq<bool>, checks: nat, pushed: bool, throws: bool)

  /** One bus phase: whether there is a bus and a slave to ask, and asking did not throw; whether the
      list was read; whether the event queue had room for the total, and for the end of the
      scan. The flags are only ever raised while the scan runs: from the check `abortAt` on a
      phase change is wanted, from `stopAt` on the thread is to stop. */
  datatype Phase = Phase(bus: bool, listed: bool, checks: nat, rounds: seq<Round>, announced: bool, room: bool,
                         aborts: bool, abortAt: nat, stops: bool, stopAt: nat)

  predicate Stopped(p: Phase, t: nat) { p.stops && t >= p.stopAt }

  predicate Aborting(p: Phase, t: nat) { Stopped(p, t) || (p.aborts && t >= p.abortAt) }

  function RoundAt(p: Phase, i: nat): Round {
    if i < |p.rounds| then p.rounds[i] else Round([], 0, true, false)
  }

  /** Failed values in a row. */
  function Fails(c: nat, values: seq<bool>): nat
    decreases |values|
  {
    if values == [] then c
    else if values[|values| - 1] then 0
    else Fails(c, values[..|values| - 1]) + 1
  }

  /** Where the loop over the objects ends: the next object, the failures in a row, the checks
      made, whether the event queue was full, and whether reading threw. */
  datatype Halt = Halt(next: nat, fails: nat, clock: nat, full: bool, threw: bool)

  function Loop(n: nat, i: nat, c: nat, t: nat, p: Phase): (h: Halt)
    ensures i <= h.next && (i <= n ==> h.next <= n)
    decreases n - i
  {
    if i >= n || c >= FAIL_LIMIT then Halt(i, c, t, false, false)
    else if Aborting(p, t) then Halt(i, c, t + 1, false, false)
    else
      var r := RoundAt(p, i);
      var c1, t1 := Fails(c, r.values), t + 1 + r.checks;
      if r.throws then Halt(i, c1, t1, false, true)
      else if Aborting(p, t1) then Halt(i, c1, t1 + 1, false, false)
      else if !r.pushed then Halt(i, c1, t1 + 1, true, false)
      else Loop(n, i + 1, c1, t1 + 1, p)
  }

  function Scanned(n: nat, from: nat, p: Phase): Halt { Loop(n, from, 0, p.checks, p) }

  /** One turn of the loop: it halts, or offers object `i` to the event queue. */
  datatype Turn = Halts(h: Halt) | Offers(c: nat, t: nat)

  function TurnOf(n: nat, i: nat, c: nat, t: nat, p: Phase): (r: Turn)
    ensures r.Offers? ==> i < n
    ensures r.Halts? ==> r.h.next == i
    ensures Loop(n, i, c, t, p)
            == match r
               case Halts(h) => h
               case Offers(c1, t1) =>
                 if RoundAt(p, i).pushed then Loop(n, i + 1, c1, t1, p) else Halt(i, c1, t1, true, false)
  {
    if i >= n || c >= FAIL_LIMIT then Halts(Halt(i, c, t, false, false))
    else if Aborting(p, t) then Halts(Halt(i, c, t + 1, false, false))
    else
      var r := RoundAt(p, i);
      var c1, t1 := Fails(c, r.values), t + 1 + r.checks;
      if r.throws then Halts(Halt(i, c1, t1, false, true))
      else if Aborting(p, t1) then Halts(Halt(i, c1, t1 + 1, false, false))
      else Offers(c1, t1 + 1)
  }

  /** How a phase's scan of an `n`-object list ends. */
  function Verdict(n: nat, from: nat, p: Phase): (o: Outcome)
    ensures o.Requeued? && from <= n ==> o.from <= n
  {
    if !p.bus then Done(Threw)
    else if !p.listed then
      if Aborting(p, p.checks) && !Stopped(p, p.checks + 1) then Requeued(from) else Done(NoList)
    else
      var h := Scanned(n, from, p);
      if h.threw then Done(Threw)
      else if h.next < n && h.fails < FAIL_LIMIT && Aborting(p, h.clock) && !Stopped(p, h.clock + 1) then
        Requeued(h.next)
      else if h.fails >= FAIL_LIMIT then Done(OutOfSync)
      else if h.full then Done(QueueFull)
      else if from > 0 && from >= n then Done(Shrunk)
      else Done(Fine)
  }

  /** Where the objects emitted in a phase end. */
  function Reached(n: nat, from: nat, p: Phase): (to: nat)
    ensures from <= to && (from <= n ==> to <= n)
  {
    if p.bus && p.listed then Scanned(n, from, p).next else from
  }

  class Scan {
    var clock: nat
    var objects: seq<u16>
    var totals: seq<nat>
    var ends: seq<Error>

    constructor ()
      ensures objects == [] && totals == [] && ends == []
    {
      clock, objects, totals, ends := 0, [], [], [];
    }

    /** `aborting`. */
    method CheckAbort(p: Phase) returns (b: bool)
      modifies this`clock
      ensures b == Aborting(p, old(clock)) && clock == old(clock) + 1
    {
      b := (p.stops && clock >= p.stopAt) || (p.aborts && clock >= p.abortAt);
      clock := clock + 1;
    }

    method CountFails(c: nat, values: seq<bool>) returns (fails: nat)
      ensures fails == Fails(c, values)
    {
      fails := c;
      var k := 0;
      while k < |values|
        invariant 0 <= k <= |values| && fails == Fails(c, values[..k])
      {
        assert values[..k + 1][..k] == values[..k];
        fails := if values[k] then 0 else fails + 1;
        k := k + 1;
      }
      assert values[..k] == values;
    }

    /** The loop over the objects: emits `list[from..]` up to where it halts. */
    method ScanObjects(list: seq<u16>, from: nat, p: Phase) returns (h: Halt)
      requires from <= |list|
      modifies this`clock, this`objects
      ensures h == Loop(|list|, from, 0, old(clock), p) && clock == h.clock
      ensures objects == old(objects) + list[from..h.next]
    {
      var i: nat, c: nat, full, threw := from, 0, false, false;
      ghost var goal := Loop(|list|, from, 0, clock, p);
      while i < |list| && c < FAIL_LIMIT
        invariant from <= i <= |list| && !full && !threw && goal == Loop(|list|, i, c, clock, p)
        invariant objects == old(objects) + list[from..i]
      {
        var stop := CheckAbort(p);
        if stop {
          break;
        }
        var r := RoundAt(p, i);
        c := CountFails(c, r.values);
        clock := clock + r.checks;
        if r.throws {
          threw := true;
          break;
        }
        stop := CheckAbort(p);
        if stop {
          break;
        }
        if !r.pushed {
          full := true;
          break;
        }
        objects := objects + [list[i]];
        i := i + 1;
      }
      h := Halt(i, c, clock, full, threw);
    }

    /** What `executeDiscover` tries: one phase of the scan, until it ends, throws or is queued
        again. */
    method Attempt(list: seq<u16>, from: nat, p: Phase) returns (o: Outcome)
      modifies this`clock, this`objects, this`totals
      ensures o == Verdict(|list|, from, p)
      ensures objects == old(objects) + if from <= |list| then list[from..Reached(|list|, from, p)] else []
      ensures totals == old(totals) + if p.bus && p.listed && p.announced && from == 0 then [|list|] else []
    {
      clock := p.checks;
      if !p.bus {
        return Done(Threw);
      }
      if !p.listed {
        var stop := CheckAbort(p);
        if stop && !Stopped(p, clock) {
          return Requeued(from);
        }
        return Done(NoList);
      }
      var n := |list|;
      if from == 0 && p.announced {
        totals := totals + [n];
      }
      var error := Fine;
      if from > 0 && from >= n {
        error := Shrunk;
      }
      var h := Halt(from, 0, clock, false, false);
      if from <= n {
        h := ScanObjects(list, from, p);
      }
      if h.threw {
        return Done(Threw);
      }
      if h.full {
        error := QueueFull;
      }
      if h.next < n && h.fails < FAIL_LIMIT {
        var stop := CheckAbort(p);
        if stop && !Stopped(p, clock) {
          return Requeued(h.next);
        }
      }
      if h.fails >= FAIL_LIMIT {
        error := OutOfSync;
      }
      o := Done(error);
    }

    /** `executeDiscover`: one phase of the scan; its end is shown if the event queue has room. */
    method ExecuteDiscover(list: seq<u16>, from: nat, p: Phase) returns (o: Outcome)
      modifies this
      ensures o == Verdict(|list|, from, p)
      ensures objects == old(objects) + if from <= |list| then list[from..Reached(|list|, from, p)] else []
      ensures totals == old(totals) + if p.bus && p.listed && p.announced && from == 0 then [|list|] else []
      ensures ends == old(ends) + if o.Done? && p.room then [o.error] else []
    {
      o := Attempt(list, from, p);
      if o.Done? && p.room {
        ends := ends + [o.error];
      }
    }
  }

  // ---- Over all phases ------------------------------------------------------

  /** Raised flags stay raised, so a loop cut short by them is still seen as aborting after. */
  lemma {:induction false} HaltReason(n: nat, i: nat, c: nat, t: nat, p: Phase)
    requires i <= n
    ensures var h := Loop(n, i, c, t, p);
            h.next < n && h.fails < FAIL_LIMIT && !h.full && !h.threw ==> Aborting(p, h.clock)
    decreases n - i
  {
    if i < n && c < FAIL_LIMIT && !Aborting(p, t) {
      var r := RoundAt(p, i);
      var c1, t1 := Fails(c, r.values), t + 1 + r.checks;
      if !r.throws && !Aborting(p, t1) && r.pushed {
        HaltReason(n, i + 1, c1, t1 + 1, p);
      }
    }
  }

  /** The thread was told to stop, and is seen to be, when the loop has neither reached the end
      nor failed: the branch that neither queues the scan again nor sets an error. */
  predicate StoppedShort(n: nat, from: nat, p: Phase) {
    p.bus && p.listed &&
    var h := Scanned(n, from, p);
    h.next < n && h.fails < FAIL_LIMIT && !h.full && !h.threw && Stopped(p, h.clock + 1)
  }

  /** One phase: a resumable point is within the list; a scan that ends without an error is
      complete if and only if it was not stopped short; an unshrunk list never looks shrunk. */
  lemma {:induction false} OnePhase(n: nat, from: nat, p: Phase)
    requires from == 0 || from < n
    ensures var o, to := Verdict(n, from, p), Reached(n, from, p);
            && (o.Requeued? ==> o.from == to && (to == 0 || to < n))
            && (o == Done(Fine) && to < n <==> StoppedShort(n, from, p))
            && o != Done(Shrunk)
  {
    HaltReason(n, from, 0, p.checks, p);
  }

  /** The objects emitted over phases, the first resuming at `from`, and how it ended. */
  function Emitted(list: seq<u16>, from: nat, phases: seq<Phase>): (seq<u16>, Outcome)
    requires from <= |list|
    decreases |phases|
  {
    if phases == [] then ([], Requeued(from))
    else
      var o, to := Verdict(|list|, from, phases[0]), Reached(|list|, from, phases[0]);
      match o
      case Done(_) => (list[from..to], o)
      case Requeued(next) =>
        var (rest, last) := Emitted(list, next, phases[1..]);
        (list[from..to] + rest, last)
  }

  /** The phase the scan ends in was stopped short. */
  predicate CutShort(n: nat, from: nat, phases: seq<Phase>)
    decreases |phases|
  {
    phases != [] &&
    match Verdict(n, from, phases[0])
    case Done(_) => StoppedShort(n, from, phases[0])
    case Requeued(next) => CutShort(n, next, phases[1..])
  }

  lemma {:induction false} PhasesFrom(list: seq<u16>, from: nat, phases: seq<Phase>)
    requires from <= |list| && (from == 0 || from < |list|)
    ensures var (objects, last) := Emitted(list, from, phases);
            && (list[..from] + objects) <= list
            && (last == Done(Fine) && list[..from] + objects != list <==> CutShort(|list|, from, phases))
            && last != Done(Shrunk)
            && (last.Requeued? ==> last.from <= |list| && list[..from] + objects == list[..last.from])
    decreases |phases|
  {
    if phases == [] {
      assert list[..from] + [] == list[..from];
    } else {
      var p := phases[0];
      OnePhase(|list|, from, p);
      var o, to := Verdict(|list|, from, p), Reached(|list|, from, p);
      hide Verdict, Reached, StoppedShort;
      assert list[..from] + list[from..to] == list[..to];
      if o.Requeued? {
        PhasesFrom(list, to, phases[1..]);
        var rest := Emitted(list, to, phases[1..]).0;
        assert list[..from] + (list[from..to] + rest) == list[..to] + rest;
      } else {
        assert list[..to] == list <==> to == |list|;
      }
    }
  }

  lemma {:induction false} CutByStop(n: nat, from: nat, phases: seq<Phase>)
    requires CutShort(n, from, phases)
    ensures exists i :: 0 <= i < |phases| && phases[i].stops
    decreases |phases|
  {
    match Verdict(n, from, phases[0])
    case Done(_) => assert phases[0].stops;
    case Requeued(next) =>
      CutByStop(n, next, phases[1..]);
      var i :| 0 <= i < |phases| - 1 && phases[1..][i].stops;
      assert phases[i + 1].stops;
  }

  /** Over any number of phase changes the objects emitted are the list's, in order and once
      each, up to where the scan is; a scan done without error emitted them all if and only if
      its last phase was not stopped short, which takes a stop; and the list never seems to
      have shrunk. */
  lemma {:induction false} ScanComplete(list: seq<u16>, phases: seq<Phase>)
    ensures var (objects, last) := Emitted(list, 0, phases);
            && objects <= list
            && (last == Done(Fine) && objects != list <==> CutShort(|list|, 0, phases))
            && (CutShort(|list|, 0, phases) ==> exists i :: 0 <= i < |phases| && phases[i].stops)
            && last != Done(Shrunk)
            && (last.Requeued? ==> last.from <= |list| && objects == list[..last.from])
  {
    PhasesFrom(list, 0, phases);
    assert list[..0] + Emitted(list, 0, phases).0 == Emitted(list, 0, phases).0;
    if CutShort(|list|, 0, phases) { CutByStop(|list|, 0, phases); }
  }

  /** A slave that answers everything, on a thread told to stop before object `k` is read. */
  function StopBefore(k: nat): Phase { Phase(true, true, 0, [], true, true, false, 0, true, 2 * k) }

  lemma {:induction false} HaltsBefore(n: nat, i: nat, k: nat)
    requires i <= k < n
    ensures Loop(n, i, 0, 2 * i, StopBefore(k)) == Halt(k, 0, 2 * k + 1, false, false)
    decreases k - i
  {
    if i < k { HaltsBefore(n, i + 1, k); }
  }

  /** A stopping thread ends the scan without an error, however little was read: any number of
      objects short of the whole list can be all it emitted. Whether anybody sees that end is
      another matter. */
  lemma {:induction false} StopLooksFine(list: seq<u16>, k: nat)
    requires k < |list|
    ensures Emitted(list, 0, [StopBefore(k)]) == (list[..k], Done(Fine))
  {
    HaltsBefore(|list|, 0, k);
    assert list[0..k] == list[..k];
  }
}
