/** Error counters (`refreshDiagnostics`, tools/kickui/BusSession.cc): the slaves' eight-bit
    counters are summed into totals and cleared before they saturate. */
module ErrorCounters {
  import opened Bytes

  const HIGH_WATER := 0xC0
  const FULL := 0xFF

  /** The counters of a slave's four ports, as read. */
  datatype Counters = Counters(lost: seq<byte>, rx: seq<byte>)

  datatype Diag = Diag(lastLost: seq<byte>, lastRx: seq<byte>, lostTotal: seq<nat>, rxTotal: seq<nat>, saturated: bool)

  const ZERO := Diag([0, 0, 0, 0], [0, 0, 0, 0], [0, 0, 0, 0], [0, 0, 0, 0], false)

  predicate Ports(c: Counters) { |c.lost| == 4 && |c.rx| == 4 }

  predicate Shaped(d: Diag) { |d.lastLost| == 4 && |d.lastRx| == 4 && |d.lostTotal| == 4 && |d.rxTotal| == 4 }

  /** What a counter moved by; a drop means it was cleared. */
  function Delta(now: byte, last: byte): nat { if now >= last then now - last else now }

  predicate AnyPort(c: Counters, level: byte, n: nat)
    requires Ports(c) && n <= 4
  {
    exists p :: 0 <= p < n && (c.lost[p] >= level || c.rx[p] >= level)
  }

  /** One port taken in: both totals, both last values, the saturation mark. */
  function PortAfter(d: Diag, c: Counters, p: nat): (r: Diag)
    requires Shaped(d) && Ports(c) && p < 4
    ensures Shaped(r)
  {
    Diag(d.lastLost[p := c.lost[p]], d.lastRx[p := c.rx[p]],
         d.lostTotal[p := d.lostTotal[p] + Delta(c.lost[p], d.lastLost[p])],
         d.rxTotal[p := d.rxTotal[p] + Delta(c.rx[p], d.lastRx[p])],
         d.saturated || c.lost[p] == FULL || c.rx[p] == FULL)
  }

  function PortsAfter(d: Diag, c: Counters, n: nat): (r: Diag)
    requires Shaped(d) && Ports(c) && n <= 4
    ensures Shaped(r)
  {
    if n == 0 then d else PortAfter(PortsAfter(d, c, n - 1), c, n - 1)
  }

  function Restarted(d: Diag, manual: bool): Diag {
    if manual then d.(lostTotal := [0, 0, 0, 0], rxTotal := [0, 0, 0, 0], saturated := false) else d
  }

  /** A slave's diagnostics after a sweep. */
  function After(d: Diag, c: Counters, manual: bool): (r: Diag)
    requires Shaped(d) && Ports(c)
    ensures Shaped(r)
  {
    PortsAfter(Restarted(d, manual), c, 4)
  }

  lemma {:induction false} PortsAfterAt(d: Diag, c: Counters, n: nat, p: nat)
    requires Shaped(d) && Ports(c) && n <= 4 && p < 4
    ensures var r := PortsAfter(d, c, n);
            && (n <= p ==> r.lastLost[p] == d.lastLost[p] && r.lostTotal[p] == d.lostTotal[p]
                           && r.lastRx[p] == d.lastRx[p] && r.rxTotal[p] == d.rxTotal[p])
            && (p < n ==> r.lastLost[p] == c.lost[p] && r.lastRx[p] == c.rx[p]
                          && r.lostTotal[p] == d.lostTotal[p] + Delta(c.lost[p], d.lastLost[p])
                          && r.rxTotal[p] == d.rxTotal[p] + Delta(c.rx[p], d.lastRx[p]))
            && (r.saturated <==> d.saturated || AnyPort(c, FULL, n))
    decreases n
  {
    if n > 0 {
      PortsAfterAt(d, c, n - 1, p);
      PortsAfterAt(d, c, n - 1, n - 1);
      PortMore(c, FULL, n - 1);
    }
  }

  /** Every port's totals grow by what its counters moved, and a full counter leaves its mark. */
  lemma {:induction false} AfterAt(d: Diag, c: Counters, manual: bool, p: nat)
    requires Shaped(d) && Ports(c) && p < 4
    ensures var r := After(d, c, manual);
            && r.lastLost[p] == c.lost[p] && r.lastRx[p] == c.rx[p]
            && r.lostTotal[p] == (if manual then 0 else d.lostTotal[p]) + Delta(c.lost[p], d.lastLost[p])
            && r.rxTotal[p] == (if manual then 0 else d.rxTotal[p]) + Delta(c.rx[p], d.lastRx[p])
            && (r.saturated <==> (d.saturated && !manual) || AnyPort(c, FULL, 4))
  {
    PortsAfterAt(Restarted(d, manual), c, 4, p);
  }

  /** The totals as before, every last value forgotten. */
  function Forgotten(d: Diag): Diag { d.(lastLost := [0, 0, 0, 0], lastRx := [0, 0, 0, 0]) }

  predicate Overdue(cs: seq<Counters>, n: nat)
    requires n <= |cs| && forall i :: 0 <= i < |cs| ==> Ports(cs[i])
  {
    exists i :: 0 <= i < n && AnyPort(cs[i], HIGH_WATER, 4)
  }

  /** A slave's answer to the read of its counters, if it gave one. */
  datatype Answer = Silent | Answered(counters: Counters)

  predicate AnswerShaped(a: Answer) { a.Answered? ==> Ports(a.counters) }

  /** The counters the master holds of a slave after a read. */
  function Cached(before: Counters, a: Answer): Counters {
    match a
    case Silent => before
    case Answered(c) => c
  }

  /** A slave met for the first time starts from zero. */
  function DiagAt(diags: seq<Diag>, i: nat): Diag { if i < |diags| then diags[i] else ZERO }

  class Diagnostics {
    var diags: seq<Diag>
    var pending: bool
    var cached: seq<Counters>

    constructor (slaves: nat)
      ensures Valid() && diags == [] && !pending && |cached| == slaves
      ensures forall i :: 0 <= i < slaves ==> cached[i] == Counters([0, 0, 0, 0], [0, 0, 0, 0])
    {
      diags, pending, cached := [], false, seq(slaves, _ => Counters([0, 0, 0, 0], [0, 0, 0, 0]));
    }

    ghost predicate Valid()
      reads this
    {
      && (forall i :: 0 <= i < |diags| ==> Shaped(diags[i]))
      && (forall i :: 0 <= i < |cached| ==> Ports(cached[i]))
    }

    /** One port: what its counters moved, and whether one is high. */
    method SamplePort(d: Diag, c: Counters, p: nat) returns (r: Diag, high: bool)
      requires Shaped(d) && Ports(c) && p < 4
      ensures r == PortAfter(d, c, p) && (high <==> c.lost[p] >= HIGH_WATER || c.rx[p] >= HIGH_WATER)
    {
      var ll, rx := c.lost[p], c.rx[p];
      var dll: nat, drx: nat := ll, rx;
      if ll >= d.lastLost[p] { dll := ll - d.lastLost[p]; }
      if rx >= d.lastRx[p] { drx := rx - d.lastRx[p]; }
      r := d.(lostTotal := d.lostTotal[p := d.lostTotal[p] + dll], lastLost := d.lastLost[p := ll],
              rxTotal := d.rxTotal[p := d.rxTotal[p] + drx], lastRx := d.lastRx[p := rx]);
      high := ll >= HIGH_WATER || rx >= HIGH_WATER;
      if ll == FULL || rx == FULL { r := r.(saturated := true); }
    }

    /** One slave: its ports in turn. */
    method SampleSlave(d: Diag, c: Counters, manual: bool) returns (r: Diag, high: bool)
      requires Shaped(d) && Ports(c)
      ensures r == After(d, c, manual)
      ensures high <==> AnyPort(c, HIGH_WATER, 4)
    {
      r, high := d, false;
      if manual {
        r := r.(lostTotal := [0, 0, 0, 0], rxTotal := [0, 0, 0, 0], saturated := false);
      }
      hide PortAfter;
      var p := 0;
      while p < 4
        invariant 0 <= p <= 4 && r == PortsAfter(Restarted(d, manual), c, p)
        invariant high <==> AnyPort(c, HIGH_WATER, p)
      {
        var isHigh;
        r, isHigh := SamplePort(r, c, p);
        if isHigh { high := true; }
        PortMore(c, HIGH_WATER, p);
        p := p + 1;
      }
    }

    /** What came back is kept; a slave that did not answer keeps its old counters. */
    method TakeAnswers(answers: seq<Answer>)
      requires |answers| == |cached|
      modifies this`cached
      ensures |cached| == |old(cached)|
      ensures forall i :: 0 <= i < |cached| ==> cached[i] == Cached(old(cached)[i], answers[i])
    {
      var i := 0;
      while i < |answers|
        invariant 0 <= i <= |answers| && |cached| == |answers|
        invariant forall k :: 0 <= k < i ==> cached[k] == Cached(old(cached)[k], answers[k])
        invariant forall k :: i <= k < |cached| ==> cached[k] == old(cached)[k]
      {
        match answers[i] {
          case Answered(c) => cached := cached[i := c];
          case Silent =>
        }
        i := i + 1;
      }
    }

    /** The cached counters summed up, and whether they are to be cleared. */
    method Sum() returns (clear: bool)
      requires Valid()
      modifies this`diags, this`pending
      ensures Valid() && !pending && |diags| == |cached|
      ensures clear <==> old(pending) || Overdue(cached, |cached|)
      ensures forall i :: 0 <= i < |cached| ==> diags[i] == Swept(DiagAt(old(diags), i), cached[i], old(pending), clear)
    {
      var manual := pending;
      pending := false;
      clear := manual;
      var was, now := diags, [];
      var i := 0;
      while i < |cached|
        invariant 0 <= i <= |cached| && |now| == i && diags == was == old(diags) && !pending
        invariant clear <==> manual || Overdue(cached, i)
        invariant forall k :: 0 <= k < i ==> now[k] == After(DiagAt(was, k), cached[k], manual)
      {
        var r, high := SampleSlave(DiagAt(was, i), cached[i], manual);
        if high { clear := true; }
        now := now + [r];
        i := i + 1;
      }
      if clear {
        diags := seq(|now|, k requires 0 <= k < |now| => Forgotten(now[k]));
      } else {
        diags := now;
      }
    }

    /** `refreshDiagnostics`: what is summed up are the cached counters, read now or earlier. When
        reading them throws, what came back until then is cached and nothing else happens. */
    method Refresh(answers: seq<Answer>, throws: bool) returns (clear: bool)
      requires Valid() && |answers| == |cached| && forall i :: 0 <= i < |answers| ==> AnswerShaped(answers[i])
      modifies this
      ensures Valid() && |cached| == |old(cached)|
      ensures forall i :: 0 <= i < |cached| ==> cached[i] == Cached(old(cached)[i], answers[i])
      ensures throws ==> !clear && diags == old(diags) && pending == old(pending)
      ensures !throws ==> !pending && |diags| == |cached|
      ensures !throws ==> (clear <==> old(pending) || Overdue(cached, |cached|))
      ensures !throws ==> forall i :: 0 <= i < |cached| ==>
                diags[i] == Swept(DiagAt(old(diags), i), cached[i], old(pending), clear)
    {
      TakeAnswers(answers);
      if throws {
        return false;
      }
      clear := Sum();
    }
  }

  /** A slave's diagnostics after a sweep and the clear it asked for. */
  function Swept(d: Diag, c: Counters, manual: bool, clear: bool): (r: Diag)
    requires Shaped(d) && Ports(c)
    ensures Shaped(r)
  {
    if clear then Forgotten(After(d, c, manual)) else After(d, c, manual)
  }

  lemma {:induction false} PortMore(c: Counters, level: byte, p: nat)
    requires Ports(c) && p < 4
    ensures AnyPort(c, level, p + 1) <==> AnyPort(c, level, p) || c.lost[p] >= level || c.rx[p] >= level
  {
  }
}
