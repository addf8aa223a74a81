/** Cable redundancy (`mergeSplitLRW`, lib/master/src/Link.cc): a frame is sent both ways round
    the ring. On a broken ring each copy passes one side of the break only, and the two are
    merged into what the intact ring would have returned. */
module LinkMerge {

  type Payload = seq<bv8>

  /** A slave of the frame: what it adds to the working counter, and its input block. */
  datatype Entry = Entry(contribution: nat, offset: int, size: nat)

  /** The frame: its slaves in bus order, the process data, and the mailbox status bits after. */
  datatype Description = Description(entries: seq<Entry>, pdoSize: nat, logicalSize: nat)

  predicate Covers(e: Entry, x: int) { 0 <= e.offset <= x < e.offset + e.size }

  /** Input blocks lie in the process data. */
  predicate Fits(d: Description) {
    && d.pdoSize <= d.logicalSize
    && forall k :: 0 <= k < |d.entries| && d.entries[k].offset >= 0 ==>
         d.entries[k].offset + d.entries[k].size <= d.pdoSize
  }

  // ---- The merge ------------------------------------------------------------

  /** How many slaves, from the first, are taken for the side whose counter reads `wkc`. The
      sum is kept in sixteen bits. */
  function Attributed(es: seq<Entry>, wkc: nat, i: nat, acc: nat): (m: nat)
    requires i <= |es|
    ensures i <= m <= |es|
    decreases |es| - i
  {
    if i == |es| || acc >= wkc then i else Attributed(es, wkc, i + 1, (acc + es[i].contribution) % 0x1_0000)
  }

  function CopyBlock(to: Payload, from: Payload, e: Entry): (r: Payload)
    requires |to| == |from| && (e.offset >= 0 ==> e.offset + e.size <= |to|)
    ensures |r| == |to|
    ensures forall x :: 0 <= x < |to| ==> r[x] == if Covers(e, x) then from[x] else to[x]
  {
    seq(|to|, x requires 0 <= x < |to| => if Covers(e, x) then from[x] else to[x])
  }

  /** The input blocks of the first `m` slaves copied over. */
  function Spliced(d: Description, to: Payload, from: Payload, m: nat): (r: Payload)
    requires Fits(d) && |to| == |from| == d.logicalSize && m <= |d.entries|
    ensures |r| == |to|
    ensures forall x :: 0 <= x < |to| ==>
              r[x] == if exists k :: 0 <= k < m && Covers(d.entries[k], x) then from[x] else to[x]
  {
    if m == 0 then to else CopyBlock(Spliced(d, to, from, m - 1), from, d.entries[m - 1])
  }

  function Ored(to: Payload, from: Payload, start: nat): (r: Payload)
    requires |to| == |from|
    ensures |r| == |to|
    ensures forall x :: 0 <= x < |to| ==> r[x] == if x < start then to[x] else to[x] | from[x]
  {
    seq(|to|, x requires 0 <= x < |to| => if x < start then to[x] else to[x] | from[x])
  }

  function Merged(d: Description, nominal: Payload, redundancy: Payload, wkcNominal: nat, wkcRedundancy: nat): Payload
    requires Fits(d) && |nominal| == |redundancy| == d.logicalSize
  {
    if wkcRedundancy == 0 then nominal
    else if wkcNominal == 0 then redundancy
    else Ored(Spliced(d, nominal, redundancy, Attributed(d.entries, wkcRedundancy, 0, 0)), redundancy, d.pdoSize)
  }

  /** `mergeSplitLRW`, in place in the nominal copy. */
  method MergeSplitLrw(d: Description, nominal: array<bv8>, redundancy: Payload, wkcNominal: nat, wkcRedundancy: nat)
    requires Fits(d) && nominal.Length == |redundancy| == d.logicalSize
    modifies nominal
    ensures nominal[..] == Merged(d, old(nominal[..]), redundancy, wkcNominal, wkcRedundancy)
  {
    if wkcRedundancy == 0 {
      return;
    }
    if wkcNominal == 0 {
      forall x | 0 <= x < d.logicalSize { nominal[x] := redundancy[x]; }
      return;
    }
    ghost var was := nominal[..];
    var acc, k := 0, 0;
    while k < |d.entries| && acc < wkcRedundancy
      invariant 0 <= k <= |d.entries| && 0 <= acc
      invariant Attributed(d.entries, wkcRedundancy, 0, 0) == Attributed(d.entries, wkcRedundancy, k, acc)
      invariant nominal[..] == Spliced(d, was, redundancy, k)
    {
      acc := (acc + d.entries[k].contribution) % 0x1_0000;
      if d.entries[k].offset >= 0 {
        var from, n := d.entries[k].offset, d.entries[k].size;
        forall x | from <= x < from + n { nominal[x] := redundancy[x]; }
      }
      k := k + 1;
    }
    OrTail(d, nominal, redundancy);
  }

  /** The status bits of both copies together. */
  method OrTail(d: Description, nominal: array<bv8>, redundancy: Payload)
    requires d.pdoSize <= d.logicalSize == nominal.Length == |redundancy|
    modifies nominal
    ensures nominal[..] == Ored(old(nominal[..]), redundancy, d.pdoSize)
  {
    var i := d.pdoSize;
    while i < d.logicalSize
      invariant d.pdoSize <= i <= d.logicalSize
      invariant forall x :: 0 <= x < d.logicalSize ==>
                  nominal[x] == if d.pdoSize <= x < i then old(nominal[x]) | redundancy[x] else old(nominal[x])
    {
      nominal[i] := nominal[i] | redundancy[i];
      i := i + 1;
    }
  }

  // ---- The ring -------------------------------------------------------------

  /** What the slaves put into a passing frame: their inputs, and their status bits. */
  datatype Ring = Ring(inputs: seq<Payload>, bits: seq<Payload>)

  predicate Matches(d: Description, r: Ring) {
    && |r.inputs| == |r.bits| == |d.entries|
    && forall k :: 0 <= k < |d.entries| ==>
         |r.inputs[k]| == d.entries[k].size && |r.bits[k]| == d.logicalSize - d.pdoSize
  }

  /** Each slave counts, and no two write the same input byte. */
  ghost predicate Mapped(d: Description) {
    && Fits(d)
    && (forall k :: 0 <= k < |d.entries| ==> d.entries[k].contribution > 0)
    && (forall k, l, x :: 0 <= k < l < |d.entries| && Covers(d.entries[k], x) ==> !Covers(d.entries[l], x))
  }

  /** Byte `x`, holding `v`, after slave `k`. */
  function Touched(d: Description, r: Ring, k: nat, x: nat, v: bv8): bv8
    requires Fits(d) && Matches(d, r) && k < |d.entries| && x < d.logicalSize
  {
    if x >= d.pdoSize then v | r.bits[k][x - d.pdoSize]
    else if Covers(d.entries[k], x) then r.inputs[k][x - d.entries[k].offset]
    else v
  }

  /** Byte `x` after the slaves from `i` up to `j`. */
  function Passed(d: Description, r: Ring, i: nat, j: nat, x: nat, v: bv8): bv8
    requires Fits(d) && Matches(d, r) && i <= j <= |d.entries| && x < d.logicalSize
    decreases j
  {
    if i == j then v else Touched(d, r, j - 1, x, Passed(d, r, i, j - 1, x, v))
  }

  /** The frame sent as `sent` and passed by the slaves from `i` up to `j`. */
  function Returned(d: Description, r: Ring, sent: Payload, i: nat, j: nat): (p: Payload)
    requires Fits(d) && Matches(d, r) && i <= j <= |d.entries| && |sent| == d.logicalSize
    ensures |p| == |sent| && forall x :: 0 <= x < |sent| ==> p[x] == Passed(d, r, i, j, x, sent[x])
  {
    seq(|sent|, x requires 0 <= x < |sent| => Passed(d, r, i, j, x, sent[x]))
  }

  /** The working counter of the slaves from `i` up to `j`. */
  function Counted(es: seq<Entry>, i: nat, j: nat): nat
    requires i <= j <= |es|
    decreases j
  {
    if i == j then 0 else Counted(es, i, j - 1) + es[j - 1].contribution
  }

  // ---- Merging rebuilds the ring --------------------------------------------

  lemma {:induction false} CountedGrows(es: seq<Entry>, i: nat, j: nat)
    requires i <= j <= |es| && forall k :: 0 <= k < |es| ==> es[k].contribution > 0
    ensures i < j ==> Counted(es, 0, i) < Counted(es, 0, j)
    ensures Counted(es, i, j) == 0 <==> i == j
    ensures Counted(es, 0, j) == Counted(es, 0, i) + Counted(es, i, j)
    decreases j
  {
    if i < j {
      CountedGrows(es, i, j - 1);
    }
  }

  /** The counter of the first side tells exactly how many slaves it has. */
  lemma {:induction false} AttributedExactly(es: seq<Entry>, s: nat, i: nat)
    requires i <= s <= |es| && forall k :: 0 <= k < |es| ==> es[k].contribution > 0
    requires Counted(es, 0, |es|) < 0x1_0000
    ensures Attributed(es, Counted(es, 0, s), i, Counted(es, 0, i)) == s
    decreases s - i
  {
    CountedGrows(es, i, s);
    if i < s {
      CountedGrows(es, i + 1, |es|);
      assert Counted(es, 0, i + 1) == Counted(es, 0, i) + es[i].contribution;
      AttributedExactly(es, s, i + 1);
    }
  }

  lemma {:induction false} PassedBoth(d: Description, r: Ring, s: nat, j: nat, x: nat, v: bv8)
    requires Fits(d) && Matches(d, r) && s <= j <= |d.entries| && x < d.logicalSize
    ensures Passed(d, r, 0, j, x, v) == Passed(d, r, s, j, x, Passed(d, r, 0, s, x, v))
    decreases j
  {
    if s < j {
      PassedBoth(d, r, s, j - 1, x, v);
    }
  }

  /** Status bits only accumulate. */
  lemma {:induction false} BitsAdd(d: Description, r: Ring, i: nat, j: nat, x: nat, v: bv8)
    requires Fits(d) && Matches(d, r) && i <= j <= |d.entries| && d.pdoSize <= x < d.logicalSize
    ensures Passed(d, r, i, j, x, v) == v | Passed(d, r, i, j, x, 0)
    decreases j
  {
    if i < j {
      BitsAdd(d, r, i, j - 1, x, v);
      OrAssoc(v, Passed(d, r, i, j - 1, x, 0), r.bits[j - 1][x - d.pdoSize]);
    } else {
      OrZero(v);
    }
  }

  lemma {:induction false} OrAssoc(a: bv8, b: bv8, c: bv8)
    ensures (a | b) | c == a | (b | c)
  {
  }

  lemma {:induction false} OrZero(a: bv8)
    ensures a | 0 == a && 0 | a == a
  {
  }

  lemma {:induction false} OrSwap(a: bv8, b: bv8)
    ensures a | b == b | a
  {
  }

  predicate Written(d: Description, i: nat, j: nat, x: nat)
    requires i <= j <= |d.entries|
  {
    exists k :: i <= k < j && Covers(d.entries[k], x)
  }

  /** A byte no slave of the stretch writes stays; one they write no longer depends on before. */
  lemma {:induction false} InputsSettle(d: Description, r: Ring, i: nat, j: nat, x: nat, v: bv8, w: bv8)
    requires Fits(d) && Matches(d, r) && i <= j <= |d.entries| && x < d.pdoSize
    ensures !Written(d, i, j, x) ==> Passed(d, r, i, j, x, v) == v
    ensures Written(d, i, j, x) ==> Passed(d, r, i, j, x, v) == Passed(d, r, i, j, x, w)
    decreases j
  {
    if i < j {
      InputsSettle(d, r, i, j - 1, x, v, w);
      if Covers(d.entries[j - 1], x) {
        assert Written(d, i, j, x);
      } else {
        assert Written(d, i, j, x) ==> Written(d, i, j - 1, x);
        assert Written(d, i, j - 1, x) ==> Written(d, i, j, x);
      }
    }
  }

  /** One byte of process data: from the side that wrote it. */
  lemma {:induction false} InputRebuilt(d: Description, r: Ring, s: nat, x: nat, v: bv8)
    requires Mapped(d) && Matches(d, r) && s <= |d.entries| && x < d.pdoSize
    ensures Passed(d, r, 0, |d.entries|, x, v)
            == if Written(d, 0, s, x) then Passed(d, r, 0, s, x, v) else Passed(d, r, s, |d.entries|, x, v)
  {
    var n := |d.entries|;
    var u := Passed(d, r, 0, s, x, v);
    PassedBoth(d, r, s, n, x, v);
    InputsSettle(d, r, 0, s, x, v, v);
    InputsSettle(d, r, s, n, x, u, v);
    if Written(d, 0, s, x) {
      var k :| 0 <= k < s && Covers(d.entries[k], x);
      assert forall l :: s <= l < n ==> !Covers(d.entries[l], x);
    }
  }

  /** One byte of status bits: both sides together. */
  lemma {:induction false} BitsRebuilt(d: Description, r: Ring, s: nat, x: nat)
    requires Fits(d) && Matches(d, r) && s <= |d.entries| && d.pdoSize <= x < d.logicalSize
    ensures Passed(d, r, 0, |d.entries|, x, 0) == Passed(d, r, s, |d.entries|, x, 0) | Passed(d, r, 0, s, x, 0)
  {
    PassedBoth(d, r, s, |d.entries|, x, 0);
    BitsAdd(d, r, s, |d.entries|, x, Passed(d, r, 0, s, x, 0));
    OrSwap(Passed(d, r, 0, s, x, 0), Passed(d, r, s, |d.entries|, x, 0));
  }

  /** Wherever the ring is broken, or not at all: merging the copy that passed the slaves up to
      the break with the copy that passed those after it gives what the intact ring would have
      returned. */
  lemma {:induction false} MergeRebuilds(d: Description, r: Ring, sent: Payload, s: nat)
    requires Mapped(d) && Matches(d, r) && s <= |d.entries| && |sent| == d.logicalSize
    requires Counted(d.entries, 0, |d.entries|) < 0x1_0000
    requires forall x :: d.pdoSize <= x < d.logicalSize ==> sent[x] == 0
    ensures var n := |d.entries|;
            Merged(d, Returned(d, r, sent, s, n), Returned(d, r, sent, 0, s),
                   Counted(d.entries, s, n), Counted(d.entries, 0, s))
            == Returned(d, r, sent, 0, n)
  {
    var n := |d.entries|;
    CountedGrows(d.entries, s, n);
    CountedGrows(d.entries, 0, s);
    AttributedExactly(d.entries, s, 0);
    if 0 < s < n {
      var nominal, redundancy := Returned(d, r, sent, s, n), Returned(d, r, sent, 0, s);
      var whole := Returned(d, r, sent, 0, n);
      var merged := Ored(Spliced(d, nominal, redundancy, s), redundancy, d.pdoSize);
      forall x | 0 <= x < |sent| ensures merged[x] == whole[x] {
        ByteRebuilt(d, r, sent, s, x);
      }
      assert merged == whole;
    }
  }

  lemma {:induction false} ByteRebuilt(d: Description, r: Ring, sent: Payload, s: nat, x: nat)
    requires Mapped(d) && Matches(d, r) && s <= |d.entries| && |sent| == d.logicalSize && x < |sent|
    requires forall x :: d.pdoSize <= x < d.logicalSize ==> sent[x] == 0
    ensures var n := |d.entries|;
            var nominal, redundancy := Returned(d, r, sent, s, n), Returned(d, r, sent, 0, s);
            Ored(Spliced(d, nominal, redundancy, s), redundancy, d.pdoSize)[x] == Returned(d, r, sent, 0, n)[x]
  {
    hide Passed, Touched;
    if x < d.pdoSize {
      InputRebuilt(d, r, s, x, sent[x]);
    } else {
      BitsRebuilt(d, r, s, x);
    }
  }

  // ---- Slaves that do not answer ---------------------------------------------

  /** What the slaves from `i` up to `j` really added to the working counter. */
  function Added(added: seq<nat>, i: nat, j: nat): nat
    requires i <= j <= |added|
    decreases j
  {
    if i == j then 0 else Added(added, i, j - 1) + added[j - 1]
  }

  /** The slaves from `i` up to `j` all answered, each in full. */
  ghost predicate Answered(es: seq<Entry>, added: seq<nat>, i: nat, j: nat) {
    forall k :: i <= k < j && k < |es| && k < |added| ==> added[k] == es[k].contribution
  }

  lemma {:induction false} AddedUpTo(es: seq<Entry>, added: seq<nat>, i: nat, j: nat)
    requires i <= j <= |es| == |added| && forall k :: 0 <= k < |es| ==> added[k] <= es[k].contribution
    ensures Added(added, i, j) <= Counted(es, i, j)
    ensures Added(added, i, j) == Counted(es, i, j) <==> Answered(es, added, i, j)
    decreases j
  {
    if i < j { AddedUpTo(es, added, i, j - 1); }
  }

  /** Whatever the slaves that do not answer in full leave in the copies: the two counters add
      up to the expected one if and only if every slave answered, and a cycle so accepted holds
      what the intact ring would have returned. */
  lemma {:induction false} MergeAccepted(d: Description, r: Ring, sent: Payload, s: nat, added: seq<nat>,
                                         nominal: Payload, redundancy: Payload)
    requires Mapped(d) && Matches(d, r) && s <= |d.entries| == |added| && |sent| == d.logicalSize
    requires Counted(d.entries, 0, |d.entries|) < 0x1_0000
    requires forall x :: d.pdoSize <= x < d.logicalSize ==> sent[x] == 0
    requires forall k :: 0 <= k < |added| ==> added[k] <= d.entries[k].contribution
    requires |nominal| == |redundancy| == d.logicalSize
    requires Answered(d.entries, added, s, |added|) ==> nominal == Returned(d, r, sent, s, |d.entries|)
    requires Answered(d.entries, added, 0, s) ==> redundancy == Returned(d, r, sent, 0, s)
    ensures var n := |d.entries|;
            var wkcNominal, wkcRedundancy := Added(added, s, n), Added(added, 0, s);
            && (wkcNominal + wkcRedundancy == Counted(d.entries, 0, n) <==> Answered(d.entries, added, 0, n))
            && (wkcNominal + wkcRedundancy == Counted(d.entries, 0, n) ==>
                  Merged(d, nominal, redundancy, wkcNominal, wkcRedundancy) == Returned(d, r, sent, 0, n))
  {
    var n := |d.entries|;
    AddedUpTo(d.entries, added, 0, s);
    AddedUpTo(d.entries, added, s, n);
    CountedGrows(d.entries, s, n);
    MergeRebuilds(d, r, sent, s);
  }
}
