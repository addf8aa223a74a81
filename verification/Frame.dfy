/** The EtherCAT frame (lib/src/Frame.cc): datagrams are written one after the other into a
    fixed buffer, the frame is closed and padded, and two readers walk it again. */
module Frame {
  import opened Common
  import opened Bytes
  import opened DatagramFormat

  /** The cursor of a frame whose last datagram was peeked. */
  const NULL := -1

  /** The caller's buffer: a pointer that may be null. */
  datatype Source = Null | Given(bytes: seq<byte>)

  /** NOP, APRD, FPRD, BRD and LRD carry no data out. */
  predicate Reads(command: byte) { command in {0, 1, 4, 7, 10} }

  /** ARMW and FRMW read one slave and write the others: their data is optional. */
  predicate ReadsAndWrites(command: byte) { command in {13, 14} }

  /** What the caller owes: data of the announced size, except where none is needed. */
  predicate Provides(command: byte, data: Source, size: nat) {
    match data
    case Null => size == 0 || Reads(command) || ReadsAndWrites(command)
    case Given(bytes) => |bytes| == size
  }

  /** The payload sent: zeros where the command only reads. */
  function Payload(command: byte, data: Source, size: nat): (p: seq<byte>)
    requires Provides(command, data, size)
    ensures |p| == size
  {
    if data.Null? || Reads(command) then Zeros(size) else data.bytes
  }

  /** The datagram a caller asks for; `stale` is what the three reserved bits held. */
  function Asked(index: byte, command: byte, address: u32, data: Source, size: nat, stale: byte): (d: Datagram)
    requires Provides(command, data, size) && size < 0x800
    ensures Size(d) == 12 + size
  {
    Datagram(command, index, address, Payload(command, data, size), stale / 8 % 8, false, true, 0, 0)
  }

  // ---- Buffers as values ----------------------------------------------------

  /** `s` written over `b` at `at`. */
  function Splice(b: seq<byte>, at: nat, s: seq<byte>): (r: seq<byte>)
    requires at + |s| <= |b|
    ensures |r| == |b|
  {
    b[..at] + s + b[at + |s|..]
  }

  lemma {:induction false} SpliceTwice(b: seq<byte>, at: nat, x: seq<byte>, y: seq<byte>)
    requires at + |x| + |y| <= |b|
    ensures Splice(Splice(b, at, x), at + |x|, y) == Splice(b, at, x + y)
  {
    var once := Splice(b, at, x);
    assert once[..at + |x|] == b[..at] + x;
    assert once[at + |x| + |y|..] == b[at + |x| + |y|..];
  }

  lemma {:induction false} SpliceKeeps(b: seq<byte>, at: nat, s: seq<byte>, i: nat, j: nat)
    requires at + |s| <= |b| && i <= j <= |b|
    ensures j <= at || at + |s| <= i ==> Splice(b, at, s)[i..j] == b[i..j]
    ensures Splice(b, at, s)[at..at + |s|] == s
  {
    var r := Splice(b, at, s);
    if j <= at || at + |s| <= i {
      forall k | i <= k < j ensures r[k] == b[k] {
        if at + |s| <= k { assert r[k] == b[at + |s|..][k - at - |s|]; }
      }
      assert r[i..j] == b[i..j];
    }
    assert r[at..at + |s|] == s;
  }

  /** The low eleven bits of the EtherCAT header. */
  function FrameLength(b: seq<byte>): nat
    requires |b| == 1518
  {
    b[14] as int + 0x100 * (b[15] as int % 8)
  }

  /** A frame under construction that holds `ds`, each announcing another. */
  ghost predicate Built(b: seq<byte>, next: int, last: nat, counter: nat, ds: seq<Datagram>) {
    && |b| == 1518 && 16 <= next <= 1514 && b[12] == 0x88 && b[13] == 0xA4
    && b[16..next] == EncodeAll(ds)
    && FrameLength(b) == next - 16
    && counter == |ds|
    && last as int == (if ds == [] then 16 else next - Size(ds[|ds| - 1]))
    && forall i :: 0 <= i < |ds| ==> ds[i].more
  }

  /** The eleven-bit length field grown by `size`; the type bits above it stay. */
  function Lengthened(b: seq<byte>, size: nat): (c: seq<byte>)
    requires |b| == 1518
    ensures |c| == 1518 && FrameLength(c) == (FrameLength(b) + size) % 0x800
    ensures c[15] / 8 == b[15] / 8 && c[..14] == b[..14] && c[16..] == b[16..]
  {
    var length := (FrameLength(b) + size) % 0x800;
    b[14 := length % 0x100][15 := length / 0x100 + b[15] / 8 * 8]
  }

  function Extended(b: seq<byte>, next: nat, d: Datagram): (c: seq<byte>)
    requires |b| == 1518 && 16 <= next && next + Size(d) <= 1514
  {
    Lengthened(Splice(b, next, Encode(d)), Size(d))
  }

  lemma {:induction false} ExtendedParts(b: seq<byte>, next: nat, d: Datagram)
    requires |b| == 1518 && 16 <= next && next + Size(d) <= 1514
    ensures var c, e := Extended(b, next, d), next + Size(d);
            && |c| == 1518 && FrameLength(c) == (FrameLength(b) + Size(d)) % 0x800
            && c[15] / 8 == b[15] / 8 && c[..14] == b[..14] && c[12] == b[12] && c[13] == b[13]
            && c[16..e] == b[16..next] + Encode(d) && c[e..] == b[e..]
  {
    var c, e, mid := Extended(b, next, d), next + Size(d), Splice(b, next, Encode(d));
    assert mid[14] == b[14] && mid[15] == b[15] && mid[..14] == b[..14];
    assert c[12] == c[..14][12] == b[..14][12] && c[13] == c[..14][13] == b[..14][13];
    SpliceKeeps(b, next, Encode(d), 16, next);
    SpliceKeeps(b, next, Encode(d), e, 1518);
    hide Splice, Encode, Lengthened;
    assert c[16..e] == c[16..][..e - 16] == mid[16..][..e - 16] == mid[16..next] + mid[next..e];
    assert c[e..] == c[16..][e - 16..] == mid[16..][e - 16..] == mid[e..1518];
    assert b[e..] == b[e..1518];
  }

  /** One more datagram behind the others, and the length field counting it. */
  lemma {:induction false} BuiltStep(b: seq<byte>, next: int, last: nat, counter: nat, ds: seq<Datagram>, d: Datagram)
    requires Built(b, next, last, counter, ds) && d.more && next + Size(d) <= 1514
    ensures Built(Extended(b, next, d), next + Size(d), next, counter + 1, ds + [d])
  {
    hide Encode, EncodeAll, FrameLength, Extended;
    ExtendedParts(b, next, d);
    AppendStep(ds, d);
    assert forall i :: 0 <= i < |ds| + 1 ==> (ds + [d])[i].more;
  }

  /** The frame as it goes out: `multiple` cleared on the last datagram, padded to 60 bytes. */
  function Closed(b: seq<byte>, next: nat, last: nat): (c: seq<byte>)
    requires |b| == 1518 && next <= 1518 && last + 7 < 1518
    ensures |c| == 1518
  {
    var open := b[last + 7 := b[last + 7] % 128];
    if next < 60 then Splice(open, next, Zeros(60 - next)) else open
  }

  function Outgoing(next: nat): nat { if next < 60 then 60 else next }

  /** Broadcast destination, no source yet, type 0x88A4, EtherCAT header of type 1. */
  function Blank(): (b: seq<byte>)
    ensures |b| == 1518
  {
    seq(1518, i => if i < 6 then 0xFF
                   else if i == 12 then 0x88
                   else if i == 13 then 0xA4
                   else if i == 15 then 0x10
                   else 0)
  }

  lemma {:induction false} BlankBuilt()
    ensures Built(Blank(), 16, 16, 0, [])
  {
  }

  // ---- The class ------------------------------------------------------------

  class Frame {
    const frame: array<byte>
    var next: int
    var last: nat
    var counter: nat
    var available: bool

    constructor ()
      ensures fresh(frame) && Building([]) && !available
      ensures frame[..] == Blank()
    {
      frame := new byte[1518](_ => 0);
      next, last, counter, available := 16, 16, 0, false;
      new;
      hide Built, FrameLength, EncodeAll;
      forall i | 0 <= i < 6 { frame[i] := 0xFF; }
      frame[12], frame[13], frame[15] := 0x88, 0xA4, 0x10;
      BlankBuilt();
      assert frame[..] == Blank();
    }

    ghost predicate Building(ds: seq<Datagram>)
      reads this, frame
    {
      frame.Length == 1518 && Built(frame[..], next, last, counter, ds)
    }

    /** The space left is what the datagrams and the length field do not count. */
    method FreeSpace() returns (size: int)
      ensures size == 1498 - (next - 16)
      ensures forall ds :: Building(ds) ==> size == 1498 - |EncodeAll(ds)| == 1498 - FrameLength(frame[..])
    {
      size := 1500 - 2 - (next - 16);
    }

    /** Full when no empty datagram fits any more, or there are fifteen. */
    method IsFull() returns (full: bool)
      ensures full <==> counter >= 15 || 1498 - (next - 16) < 12
      ensures forall ds :: Building(ds) ==> (full <==> |ds| >= 15 || |EncodeAll(ds)| + 12 > 1498)
    {
      if counter >= 15 {
        return true;
      }
      var space := FreeSpace();
      full := space < 12;
    }

    /** `memset` to zero. */
    method Clear(at: nat, n: nat)
      requires at + n <= frame.Length
      modifies frame
      ensures frame[..] == Splice(old(frame[..]), at, Zeros(n))
    {
      forall i | at <= i < at + n { frame[i] := 0; }
    }

    /** `memcpy`. */
    method Copy(at: nat, data: seq<byte>)
      requires at + |data| <= frame.Length
      modifies frame
      ensures frame[..] == Splice(old(frame[..]), at, data)
    {
      forall i | at <= i < at + |data| { frame[i] := data[i - at]; }
    }

    /** The header fields, each written in place; the three reserved bits stay as they were. */
    method WriteHeader(at: nat, index: byte, command: byte, address: u32, size: nat)
      requires at + 10 <= frame.Length && size < 0x800
      modifies frame
      ensures frame[..] == Splice(old(frame[..]), at, Head(Datagram(command, index, address, Zeros(size),
                                                      old(frame[at + 7]) / 8 % 8, false, true, 0, 0)))
    {
      AddressBack(address);
      frame[at], frame[at + 1] := command, index;
      frame[at + 2], frame[at + 3] := address % 0x100, address / 0x100 % 0x100;
      frame[at + 4], frame[at + 5] := address / 0x1_0000 % 0x100, address / 0x100_0000;
      frame[at + 6], frame[at + 7] := size % 0x100, size / 0x100 + frame[at + 7] / 8 % 8 * 8 + 128;
      frame[at + 8], frame[at + 9] := 0, 0;
    }

    /** The data area: cleared or copied. */
    method WritePayload(at: nat, command: byte, data: Source, size: nat)
      requires Provides(command, data, size) && at + size <= frame.Length
      modifies frame
      ensures frame[..] == Splice(old(frame[..]), at, Payload(command, data, size))
    {
      if size > 0 {
        if Reads(command) {
          Clear(at, size);
        } else if data.Null? {
          Clear(at, size);
        } else {
          Copy(at, data.bytes);
        }
      } else {
        assert frame[..] == frame[..at] + [] + frame[at..];
      }
    }

    method WriteDatagram(at: nat, index: byte, command: byte, address: u32, data: Source, size: nat)
      requires Provides(command, data, size) && at + 12 + size <= frame.Length && size < 0x800
      modifies frame
      ensures frame[..] == Splice(old(frame[..]), at,
                                  Encode(Asked(index, command, address, data, size, old(frame[at + 7]))))
    {
      ghost var b, d := frame[..], Asked(index, command, address, data, size, frame[at + 7]);
      assert Head(d) == Head(d.(data := Zeros(size)));
      assert Encode(d) == Head(d) + d.data + Zeros(2);
      hide Splice, Head, Encode, Payload;
      WriteHeader(at, index, command, address, size);
      WritePayload(at + 10, command, data, size);
      Clear(at + 10 + size, 2);
      SpliceTwice(b, at, Head(d), d.data);
      SpliceTwice(b, at, Head(d) + d.data, Zeros(2));
    }

    method AddLength(size: nat)
      requires frame.Length == 1518
      modifies frame
      ensures frame[..] == Lengthened(old(frame[..]), size)
    {
      var length := (frame[14] as int + 0x100 * (frame[15] as int % 8) + size) % 0x800;
      frame[14], frame[15] := length % 0x100, length / 0x100 + frame[15] / 8 * 8;
    }

    /** `addDatagram`. The caller checks the space beforehand. */
    method AddDatagram(index: byte, command: byte, address: u32, data: Source, size: u16, ghost ds: seq<Datagram>)
      requires Building(ds)
      requires Provides(command, data, size) && 12 + size <= 1498 - (next - 16)
      modifies this, frame
      ensures Building(ds + [Asked(index, command, address, data, size, old(frame[next + 7]))])
      ensures next == old(next) + 12 + size && available == old(available)
      ensures frame[..14] == old(frame[..14]) && frame[15] / 8 == old(frame[15]) / 8
      ensures frame[next..] == old(frame[..])[next..]
    {
      ghost var b, d := frame[..], Asked(index, command, address, data, size, frame[next + 7]);
      assert d.more && Size(d) == 12 + size && (12 + size) % 0x800 == 12 + size;
      assert Extended(b, next, d) == Lengthened(Splice(b, next, Encode(d)), 12 + size);
      BuiltStep(b, next, last, counter, ds, d);
      ExtendedParts(b, next, d);
      hide Splice, Encode, EncodeAll, Extended, Lengthened, Built, Asked, Payload, Provides, FrameLength, Size;
      WriteDatagram(next, index, command, address, data, size);
      AddLength((10 + size + 2) % 0x800);
      last, next, counter := next, next + 10 + size + 2, counter + 1;
    }

    method ResetContext()
      modifies this
      ensures next == 16 && last == 16 && counter == 0 && !available
    {
      next, last, counter, available := 16, 16, 0, false;
    }

    /** `finalize`: the number of bytes to send. */
    method Finalize(ghost ds: seq<Datagram>) returns (toWrite: nat)
      requires Building(ds)
      modifies this, frame
      ensures toWrite == Outgoing(old(next))
      ensures frame[..] == Closed(old(frame[..]), old(next), old(last))
      ensures next == 16 && last == 16 && counter == 0 && !available
    {
      frame[last + 7] := frame[last + 7] % 128;
      var pos := next;
      ResetContext();
      toWrite := frame[14] as int + 0x100 * (frame[15] as int % 8) + 16;
      if toWrite < 60 {
        Clear(pos, 60 - toWrite);
        return 60;
      }
    }

    /** `nextDatagram`: after the last one the context is reset. */
    method NextDatagram() returns (d: Datagram)
      requires frame.Length == 1518 && next >= 0 && Fits(frame[..], next)
      modifies this
      ensures d == Decode(frame[..], old(next))
      ensures d.more ==> next == old(next) + Size(d) && unchanged(`last, `counter, `available)
      ensures !d.more ==> next == 16 && last == 16 && counter == 0 && !available
    {
      d := Decode(frame[..], next);
      next := next + 10 + |d.data| + 2;
      if !d.more {
        ResetContext();
      }
    }

    /** `peekDatagram`: after the last one the cursor is null. */
    method PeekDatagram() returns (p: Option<Datagram>)
      requires frame.Length == 1518 && (next == NULL || (next >= 0 && Fits(frame[..], next)))
      modifies this`next
      ensures old(next) == NULL ==> p == None && next == NULL
      ensures old(next) != NULL ==> p == Some(Decode(frame[..], old(next)))
      ensures p.Some? ==> next == if p.value.more then old(next) + Size(p.value) else NULL
    {
      if next == NULL {
        return None;
      }
      var d := Decode(frame[..], next);
      next := next + 10 + |d.data| + 2;
      if !d.more {
        next := NULL;
      }
      p := Some(d);
    }
  }

}
