/** EtherCAT datagrams as the frame lays them out (lib/include/kickcat/protocol.h,
    lib/src/Frame.cc): a ten-byte header, the payload and a two-byte working counter, each
    datagram telling by its `multiple` bit whether another follows. */
module DatagramFormat {
  import opened Common
  import opened Bytes

  /** The length field has eleven bits. */
  type Data = s: seq<byte> | |s| < 0x800

  type Bits3 = b: int | 0 <= b < 8

  datatype Datagram = Datagram(command: byte, index: byte, address: u32, data: Data,
                               reserved: Bits3, circulating: bool, more: bool, irq: u16, wkc: u16)

  // ---- Layout ---------------------------------------------------------------

  /** The upper byte of the length word: three length bits, three reserved, two flags. */
  function Flags(length: nat, reserved: Bits3, circulating: bool, more: bool): (b: byte)
    requires length < 0x800
    ensures b % 8 == length / 0x100 && b / 8 % 8 == reserved
    ensures b / 64 % 2 == 1 <==> circulating
    ensures b >= 128 <==> more
    ensures more ==> b % 128 == b - 128
  {
    length / 0x100 + 8 * reserved + (if circulating then 64 else 0) + (if more then 128 else 0)
  }

  function Head(d: Datagram): (r: seq<byte>)
    ensures |r| == 10
  {
    var length := |d.data|;
    [d.command, d.index,
     d.address % 0x100, d.address / 0x100 % 0x100, d.address / 0x1_0000 % 0x100, d.address / 0x100_0000,
     length % 0x100, Flags(length, d.reserved, d.circulating, d.more),
     d.irq % 0x100, d.irq / 0x100]
  }

  function Size(d: Datagram): nat { 12 + |d.data| }

  function Encode(d: Datagram): (r: seq<byte>)
    ensures |r| == Size(d)
  {
    Head(d) + d.data + Le16(d.wkc)
  }

  function EncodeAll(ds: seq<Datagram>): seq<byte>
    decreases |ds|
  {
    if ds == [] then [] else EncodeAll(ds[..|ds| - 1]) + Encode(ds[|ds| - 1])
  }

  // ---- Reading --------------------------------------------------------------

  function LengthAt(b: seq<byte>, at: nat): (n: nat)
    requires at + 8 <= |b|
    ensures n < 0x800
  {
    b[at + 6] as int + 0x100 * (b[at + 7] as int % 8)
  }

  predicate Fits(b: seq<byte>, at: nat) {
    at + 8 <= |b| && at + 12 + LengthAt(b, at) <= |b|
  }

  function Address(b: seq<byte>, at: nat): u32
    requires at + 6 <= |b|
  {
    b[at + 2] as int + 0x100 * (b[at + 3] as int) + 0x1_0000 * (b[at + 4] as int) + 0x100_0000 * (b[at + 5] as int)
  }

  function Decode(b: seq<byte>, at: nat): Datagram
    requires Fits(b, at)
  {
    var end := at + 10 + LengthAt(b, at);
    Datagram(b[at], b[at + 1], Address(b, at), b[at + 10..end],
             b[at + 7] / 8 % 8, b[at + 7] / 64 % 2 == 1, b[at + 7] >= 128, Word(b, at + 8), Word(b, end))
  }

  /** The whole chain of datagrams lies within `b`. */
  predicate Readable(b: seq<byte>, at: nat)
    decreases |b| - at
  {
    Fits(b, at) && (b[at + 7] >= 128 ==> Readable(b, at + 12 + LengthAt(b, at)))
  }

  /** The datagrams from `at` up to the first without `multiple`. */
  function ReadAll(b: seq<byte>, at: nat): (ds: seq<Datagram>)
    requires Readable(b, at)
    ensures ds != []
    decreases |b| - at
  {
    var d := Decode(b, at);
    if d.more then [d] + ReadAll(b, at + Size(d)) else [d]
  }

  // ---- Reading undoes writing -----------------------------------------------

  lemma {:induction false} AddressBack(a: u32)
    ensures a == a % 0x100 + 0x100 * (a / 0x100 % 0x100) + 0x1_0000 * (a / 0x1_0000 % 0x100)
                 + 0x100_0000 * (a / 0x100_0000)
    ensures a / 0x100_0000 < 0x100
  {
    DivTwice(a);
    DivTwice(a / 0x100);
    var b := a / 0x100;
    var c := b / 0x100;
    assert a == a % 0x100 + 0x100 * b && b == b % 0x100 + 0x100 * c && c == c % 0x100 + 0x100 * (c / 0x100);
    DivThrice(a);
  }

  lemma {:induction false} DivTwice(a: nat)
    ensures a / 0x100 / 0x100 == a / 0x1_0000
  {
    var b := a / 0x100;
    assert a == a % 0x100 + 0x100 * (b % 0x100) + 0x1_0000 * (b / 0x100);
  }

  lemma {:induction false} DivThrice(a: nat)
    ensures a / 0x1_0000 / 0x100 == a / 0x100_0000
  {
    var b := a / 0x1_0000;
    assert a == a % 0x1_0000 + 0x1_0000 * (b % 0x100) + 0x100_0000 * (b / 0x100);
  }

  lemma {:induction false} HeadBack(d: Datagram, b: seq<byte>, at: nat)
    requires at + 10 <= |b| && b[at..at + 10] == Head(d)
    ensures b[at] == d.command && b[at + 1] == d.index && Address(b, at) == d.address
    ensures LengthAt(b, at) == |d.data| && Word(b, at + 8) == d.irq
    ensures b[at + 7] == Flags(|d.data|, d.reserved, d.circulating, d.more)
  {
    forall k | 0 <= k < 10 ensures b[at + k] == Head(d)[k] {
      assert b[at + k] == b[at..at + 10][k];
    }
    AddressBack(d.address);
  }

  lemma {:induction false} Parts(x: seq<byte>, y: seq<byte>, z: seq<byte>)
    ensures var e, i, j := x + y + z, |x|, |x| + |y|;
            e[0..i] == x && e[i..j] == y && e[j..j + |z|] == z
  {
  }

  lemma {:induction false} Inside(b: seq<byte>, at: nat, e: seq<byte>, i: nat, j: nat)
    requires at + |e| <= |b| && b[at..at + |e|] == e && i <= j <= |e|
    ensures b[at + i..at + j] == e[i..j]
  {
    forall k | 0 <= k < j - i ensures b[at + i..at + j][k] == e[i..j][k] {
      assert b[at + (i + k)] == b[at..at + |e|][i + k];
    }
  }

  lemma {:induction false} Halves(b: seq<byte>, at: nat, x: seq<byte>, y: seq<byte>)
    requires at + |x| + |y| <= |b| && b[at..at + |x| + |y|] == x + y
    ensures b[at..at + |x|] == x && b[at + |x|..at + |x| + |y|] == y
  {
    Inside(b, at, x + y, 0, |x|);
    Inside(b, at, x + y, |x|, |x| + |y|);
    assert (x + y)[0..|x|] == x && (x + y)[|x|..|x| + |y|] == y;
  }

  /** A datagram is read back as it was written, wherever it stands. */
  lemma {:induction false} DecodeEncode(d: Datagram, b: seq<byte>, at: nat)
    requires at + Size(d) <= |b| && b[at..at + Size(d)] == Encode(d)
    ensures Fits(b, at) && Decode(b, at) == d
  {
    var n, e := |d.data|, Encode(d);
    Parts(Head(d), d.data, Le16(d.wkc));
    Inside(b, at, e, 0, 10);
    Inside(b, at, e, 10, 10 + n);
    Inside(b, at, e, 10 + n, 12 + n);
    HeadBack(d, b, at);
    WordOfLe16(d.wkc, b, at + 10 + n);
    hide Head, Encode, Word, Address;
  }

  /** Whatever bytes are read as a datagram are its encoding. */
  lemma {:induction false} EncodeDecode(b: seq<byte>, at: nat)
    requires Fits(b, at)
    ensures Encode(Decode(b, at)) == b[at..at + Size(Decode(b, at))]
  {
    var d, n := Decode(b, at), LengthAt(b, at);
    HeadOf(b, at);
    var e := Encode(d);
    assert e[..10] == b[at..at + 10];
    assert e[10..10 + n] == b[at + 10..at + 10 + n];
    assert e[10 + n..] == b[at + 10 + n..at + 12 + n];
    assert e == e[..10] + e[10..10 + n] + e[10 + n..];
    assert b[at..at + 12 + n] == b[at..at + 10] + b[at + 10..at + 10 + n] + b[at + 10 + n..at + 12 + n];
  }

  lemma {:induction false} HeadOf(b: seq<byte>, at: nat)
    requires Fits(b, at)
    ensures Head(Decode(b, at)) == b[at..at + 10]
  {
    AddressBytes(b[at + 2], b[at + 3], b[at + 4], b[at + 5]);
    FlagsOf(b[at + 7], LengthAt(b, at));
  }

  lemma {:induction false} FlagsOf(f: byte, n: nat)
    requires n < 0x800 && n / 0x100 == f % 8
    ensures Flags(n, f / 8 % 8, f / 64 % 2 == 1, f >= 128) == f
  {
  }

  lemma {:induction false} AddressBytes(a0: byte, a1: byte, a2: byte, a3: byte)
    ensures var a := a0 + 0x100 * a1 + 0x1_0000 * a2 + 0x100_0000 * a3;
            && a % 0x100 == a0 && a / 0x100 % 0x100 == a1
            && a / 0x1_0000 % 0x100 == a2 && a / 0x100_0000 == a3
  {
    var a := a0 + 0x100 * (a1 + 0x100 * (a2 + 0x100 * a3));
    assert a / 0x100 == a1 + 0x100 * (a2 + 0x100 * a3);
    assert a / 0x1_0000 == a2 + 0x100 * a3;
  }

  // ---- Sequences ------------------------------------------------------------

  lemma {:induction false} AppendStep(ds: seq<Datagram>, d: Datagram)
    ensures EncodeAll(ds + [d]) == EncodeAll(ds) + Encode(d)
  {
    hide Encode;
    assert (ds + [d])[..|ds|] == ds;
  }

  lemma {:induction false} FrontStep(d: Datagram, ds: seq<Datagram>)
    ensures EncodeAll([d] + ds) == Encode(d) + EncodeAll(ds)
  {
    hide Encode;
    EncodeAllCat([d], ds);
    AppendStep([], d);
    assert [] + [d] == [d];
  }

  lemma {:induction false} EncodeAllCat(xs: seq<Datagram>, ys: seq<Datagram>)
    ensures EncodeAll(xs + ys) == EncodeAll(xs) + EncodeAll(ys)
    decreases |ys|
  {
    hide *;
    if ys == [] {
      CatNone(xs);
    } else {
      var most, d := ys[..|ys| - 1], ys[|ys| - 1];
      EncodeAllCat(xs, most);
      CatStep(xs, most, d);
      assert most + [d] == ys;
    }
  }

  lemma {:induction false} CatNone(xs: seq<Datagram>)
    ensures EncodeAll(xs + []) == EncodeAll(xs) + EncodeAll([])
  {
    assert xs + [] == xs && EncodeAll(xs) + [] == EncodeAll(xs);
  }

  lemma {:induction false} CatStep(xs: seq<Datagram>, ys: seq<Datagram>, d: Datagram)
    requires EncodeAll(xs + ys) == EncodeAll(xs) + EncodeAll(ys)
    ensures EncodeAll(xs + (ys + [d])) == EncodeAll(xs) + EncodeAll(ys + [d])
  {
    hide *;
    AppendStep(xs + ys, d);
    AppendStep(ys, d);
    Regroup(xs, ys, [d]);
    Regroup(EncodeAll(xs), EncodeAll(ys), Encode(d));
  }

  /** Datagrams that follow each other in one frame. */
  predicate Chain(ds: seq<Datagram>) {
    ds != [] && forall i :: 0 <= i < |ds| ==> (ds[i].more <==> i < |ds| - 1)
  }

  /** A written chain is read back whole, whatever follows it. */
  lemma {:induction false} ReadAllBack(ds: seq<Datagram>, b: seq<byte>, at: nat)
    requires ds != [] && Chain(ds)
    requires at + |EncodeAll(ds)| <= |b| && b[at..at + |EncodeAll(ds)|] == EncodeAll(ds)
    ensures Readable(b, at) && ReadAll(b, at) == ds
    decreases |ds|
  {
    hide *;
    var d, rest := ds[0], ds[1..];
    FrontStep(d, rest);
    ChainRest(ds);
    assert [d] + rest == ds;
    Halves(b, at, Encode(d), EncodeAll(rest));
    DecodeEncode(d, b, at);
    if rest == [] {
      LastStep(b, at, d);
    } else {
      ReadAllBack(rest, b, at + |Encode(d)|);
      MoreStep(b, at, d);
    }
  }

  lemma {:induction false} ChainRest(ds: seq<Datagram>)
    requires Chain(ds)
    ensures ds != [] && ds[0].more == (ds[1..] != []) && (ds[1..] != [] ==> Chain(ds[1..]))
  {
  }

  lemma {:induction false} LastStep(b: seq<byte>, at: nat, d: Datagram)
    requires Fits(b, at) && Decode(b, at) == d && !d.more
    ensures Readable(b, at) && ReadAll(b, at) == [d]
  {
  }

  lemma {:induction false} MoreStep(b: seq<byte>, at: nat, d: Datagram)
    requires Fits(b, at) && Decode(b, at) == d && d.more && Readable(b, at + Size(d))
    ensures Readable(b, at) && ReadAll(b, at) == [d] + ReadAll(b, at + Size(d))
  {
    FlagTells(b, at);
  }

  lemma {:induction false} FlagTells(b: seq<byte>, at: nat)
    requires Fits(b, at)
    ensures Decode(b, at).more <==> b[at + 7] >= 128
    ensures Size(Decode(b, at)) == 12 + LengthAt(b, at)
  {
  }

  /** What goes out: the last datagram announces no other. A frame without datagrams goes
      out as padding, which reads as one empty NOP. */
  function OnWire(ds: seq<Datagram>): (r: seq<Datagram>)
    ensures r != [] && (ds != [] ==> |r| == |ds|)
  {
    if ds == [] then [Datagram(0, 0, 0, [], 0, false, false, 0, 0)]
    else ds[..|ds| - 1] + [ds[|ds| - 1].(more := false)]
  }

  /** Clearing the `multiple` bit in place rewrites just the last datagram. */
  lemma {:induction false} ClosedInPlace(ds: seq<Datagram>)
    requires ds != [] && ds[|ds| - 1].more
    ensures var all, at := EncodeAll(ds), |EncodeAll(ds)| - Size(ds[|ds| - 1]);
            && 0 <= at && all[at + 7] >= 128
            && all[at + 7 := all[at + 7] - 128] == EncodeAll(OnWire(ds))
  {
    var n := |ds| - 1;
    var before, d, all := EncodeAll(ds[..n]), ds[n], EncodeAll(ds);
    var c := d.(more := false);
    assert OnWire(ds)[..n] == ds[..n];
    BitCleared(d);
    AppendStep(ds[..n], d);
    AppendStep(ds[..n], c);
    assert ds[..n] + [d] == ds && ds[..n] + [c] == OnWire(ds);
    hide *;
    assert (before + Encode(d))[|before| + 7] == Encode(d)[7];
    assert before + Encode(d)[7 := Encode(d)[7] - 128] == (before + Encode(d))[|before| + 7 := Encode(d)[7] - 128];
  }

  lemma {:induction false} BitCleared(d: Datagram)
    requires d.more
    ensures Encode(d)[7] >= 128 && Encode(d.(more := false)) == Encode(d)[7 := Encode(d)[7] - 128]
  {
    var f := Flags(|d.data|, d.reserved, d.circulating, true);
    assert Head(d)[7] == f && Head(d.(more := false)) == Head(d)[7 := f - 128];
  }

  /** Padding reads as an empty NOP. */
  lemma {:induction false} PaddingReads()
    ensures EncodeAll(OnWire([])) == Zeros(12)
  {
    var nop := OnWire([])[0];
    assert EncodeAll([nop]) == EncodeAll([]) + Encode(nop);
    assert Head(nop) == Zeros(10);
    assert OnWire([]) == [nop];
  }
}
