/** Sending a frame, receiving it and reading its datagrams back (lib/src/Frame.cc,
    `readFrame`, `writeFrame` and the two readers). */
module FrameTransfer {
  import opened Common
  import opened Bytes
  import opened DatagramFormat
  import opened Frame

  const EIO := 5
  const ENOMSG := 42

  // ---- What a closed frame holds --------------------------------------------

  lemma {:induction false} OnWireChain(ds: seq<Datagram>)
    requires forall i :: 0 <= i < |ds| ==> ds[i].more
    ensures OnWire(ds) != [] && Chain(OnWire(ds))
  {
  }

  /** Past the header, a closed frame starts with the datagrams as sent. */
  lemma {:induction false} ClosedHolds(b: seq<byte>, next: int, last: nat, counter: nat, ds: seq<Datagram>)
    requires Built(b, next, last, counter, ds)
    ensures var c, sent := Closed(b, next, last), EncodeAll(OnWire(ds));
            && 16 + |sent| <= Outgoing(next) <= 1514
            && c[16..16 + |sent|] == sent && c[..16] == b[..16]
  {
    hide *;
    BuiltParts(b, next, last, counter, ds);
    if ds == [] {
      ClosedEmpty(b, last, next);
    } else {
      var d, all := ds[|ds| - 1], EncodeAll(ds);
      ClosedInPlace(ds);
      ClosedFull(b, next, last, all, Size(d));
      OutgoingBound(next);
    }
  }

  lemma {:induction false} BuiltParts(b: seq<byte>, next: int, last: nat, counter: nat, ds: seq<Datagram>)
    requires Built(b, next, last, counter, ds)
    ensures |b| == 1518 && 16 <= next <= 1514 && b[16..next] == EncodeAll(ds)
    ensures ds == [] ==> next == last == 16
    ensures ds != [] ==> ds[|ds| - 1].more && last as int == next - Size(ds[|ds| - 1]) && Size(ds[|ds| - 1]) >= 12
  {
  }

  lemma {:induction false} OutgoingBound(next: nat)
    ensures next <= Outgoing(next) && 60 <= Outgoing(next) && (next <= 1514 ==> Outgoing(next) <= 1514)
  {
  }

  lemma {:induction false} ClosedEmpty(b: seq<byte>, last: nat, next: int)
    requires |b| == 1518 && next == last == 16
    ensures var c, sent := Closed(b, next, last), EncodeAll(OnWire([]));
            16 + |sent| <= Outgoing(next) <= 1514 && c[16..16 + |sent|] == sent && c[..16] == b[..16]
  {
    PaddingReads();
    hide EncodeAll, OnWire;
    var open := b[23 := b[23] % 128];
    SpliceKeeps(open, 16, Zeros(44), 0, 16);
    var c := Splice(open, 16, Zeros(44));
    hide Splice;
    assert c[..16] == c[0..16] == open[0..16] == b[..16];
    assert c[16..28] == c[16..60][..12] == Zeros(12);
  }

  lemma {:induction false} ClosedFull(b: seq<byte>, next: int, last: nat, all: seq<byte>, size: nat)
    requires |b| == 1518 && 16 <= next <= 1514 && b[16..next] == all
    requires 12 <= size <= |all| && last as int == next - size
    ensures var c, at := Closed(b, next, last), last - 16;
            c[16..next] == all[at + 7 := all[at + 7] % 128] && c[..16] == b[..16]
  {
    var c, at, open := Closed(b, next, last), last - 16, b[last + 7 := b[last + 7] % 128];
    assert all[at + 7] == b[16..next][at + 7] == b[last + 7];
    assert open[16..next] == all[at + 7 := all[at + 7] % 128];
    assert open[0..16] == b[..16];
    if next < 60 {
      SpliceKeeps(open, next, Zeros(60 - next), 16, next);
      SpliceKeeps(open, next, Zeros(60 - next), 0, 16);
      hide Splice;
      assert c[..16] == c[0..16];
    }
  }

  /** Whoever receives the bytes sent, in whatever buffer, reads the datagrams back. */
  lemma {:induction false} WireReadsBack(b: seq<byte>, next: int, last: nat, counter: nat, ds: seq<Datagram>,
                                         r: seq<byte>)
    requires Built(b, next, last, counter, ds) && |r| == 1518
    requires var n := Outgoing(next); n <= 1518 && r[16..n] == Closed(b, next, last)[16..n]
    ensures Readable(r, 16) && ReadAll(r, 16) == OnWire(ds)
  {
    assert |b| == 1518 && 16 <= next <= 1514 && last + 7 < 1518 && forall i :: 0 <= i < |ds| ==> ds[i].more;
    hide *;
    ClosedHolds(b, next, last, counter, ds);
    OnWireChain(ds);
    SameStart(r, Closed(b, next, last), Outgoing(next), |EncodeAll(OnWire(ds))|);
    ReadAllBack(OnWire(ds), r, 16);
  }

  lemma {:induction false} SameStart(r: seq<byte>, c: seq<byte>, n: nat, k: nat)
    requires 16 + k <= n <= |r| && n <= |c| && r[16..n] == c[16..n]
    ensures r[16..16 + k] == c[16..16 + k]
  {
    assert r[16..16 + k] == r[16..n][..k] == c[16..n][..k] == c[16..16 + k];
  }

  // ---- Reading to the end ---------------------------------------------------

  lemma {:induction false} ReadStep(b: seq<byte>, at: nat)
    requires Readable(b, at)
    ensures Fits(b, at) && at + Size(Decode(b, at)) <= |b| && Size(Decode(b, at)) >= 12
    ensures var d := Decode(b, at);
            if d.more then Readable(b, at + Size(d)) && ReadAll(b, at) == [d] + ReadAll(b, at + Size(d))
            else ReadAll(b, at) == [d]
  {
    FlagTells(b, at);
  }

  /** Reading goes on: what is left shrinks by the datagram taken. */
  lemma {:induction false} Taken(b: seq<byte>, at: nat, ds: seq<Datagram>, all: seq<Datagram>)
    requires Readable(b, at) && ds + ReadAll(b, at) == all
    ensures Fits(b, at) && at + Size(Decode(b, at)) <= |b| && Size(Decode(b, at)) >= 12
    ensures var d := Decode(b, at);
            if d.more then Readable(b, at + Size(d)) && ds + [d] + ReadAll(b, at + Size(d)) == all
            else ds + [d] == all
  {
    ReadStep(b, at);
    hide *;
    var d := Decode(b, at);
    if d.more {
      Regroup(ds, [d], ReadAll(b, at + Size(d)));
    }
  }

  /** Taking datagrams while there are any. */
  method Drain(f: Frame) returns (ds: seq<Datagram>)
    requires f.frame.Length == 1518 && f.available && f.next >= 16 && Readable(f.frame[..], f.next)
    modifies f
    ensures ds == ReadAll(f.frame[..], old(f.next))
    ensures f.next == 16 && f.last == 16 && f.counter == 0 && !f.available
  {
    hide *;
    ds := [];
    ghost var b, all := f.frame[..], ReadAll(f.frame[..], f.next);
    assert [] + all == all;
    while f.available
      invariant f.frame[..] == b
      invariant f.available ==> f.next >= 16 && Readable(b, f.next) && ds + ReadAll(b, f.next) == all
      invariant !f.available ==> ds == all && f.next == 16 && f.last == 16 && f.counter == 0
      decreases if f.available then 1519 - f.next else 0
    {
      Taken(b, f.next, ds, all);
      var d := f.NextDatagram();
      ds := ds + [d];
    }
  }

  /** Peeking until nothing is left. */
  method DrainPeeking(f: Frame) returns (ds: seq<Datagram>)
    requires f.frame.Length == 1518 && f.next >= 16 && Readable(f.frame[..], f.next)
    modifies f`next
    ensures ds == ReadAll(f.frame[..], old(f.next))
    ensures f.next == NULL
  {
    hide Readable, ReadAll, Decode, Fits, Size;
    ds := [];
    ghost var b, all := f.frame[..], ReadAll(f.frame[..], f.next);
    assert [] + all == all;
    var more := true;
    while more
      invariant f.frame[..] == b
      invariant f.next != NULL ==> more && f.next >= 16 && Readable(b, f.next) && ds + ReadAll(b, f.next) == all
      invariant f.next == NULL ==> ds == all
      invariant !more ==> f.next == NULL
      decreases if f.next == NULL then 0 else 1519 - f.next, more
    {
      if f.next != NULL {
        Taken(b, f.next, ds, all);
      }
      var p := f.PeekDatagram();
      match p
      case Some(d) => ds := ds + [d];
      case None => more := false;
    }
  }

  // ---- Through a socket -----------------------------------------------------

  /** The socket as an oracle: what the next call reports, and what a read delivers. */
  class Socket {
    var wire: seq<byte>
    var incoming: seq<byte>
    var status: int

    predicate Delivers()
      reads this
    {
      status > 0 ==> |incoming| == status <= 1518
    }

    method Write(data: seq<byte>) returns (n: int)
      modifies this`wire
      ensures wire == data && n == status
    {
      wire, n := data, status;
    }

    method Read() returns (n: int, data: seq<byte>)
      ensures n == status && data == if n > 0 then incoming else []
    {
      n, data := status, if status > 0 then incoming else [];
    }
  }

  /** `clear`: an empty length field under the same type bits. */
  function Unlengthed(b: seq<byte>): (c: seq<byte>)
    requires |b| == 1518
    ensures |c| == 1518 && FrameLength(c) == 0 && c[..14] == b[..14] && c[16..] == b[16..]
  {
    b[14 := 0][15 := b[15] / 8 * 8]
  }

  method ClearLength(f: Frame)
    requires f.frame.Length == 1518
    modifies f.frame
    ensures f.frame[..] == Unlengthed(old(f.frame[..]))
  {
    f.frame[14], f.frame[15] := 0, f.frame[15] / 8 * 8;
  }

  lemma {:induction false} SourceKeeps(b: seq<byte>, src: seq<byte>, next: int, last: nat, counter: nat,
                                       ds: seq<Datagram>)
    requires Built(b, next, last, counter, ds) && |src| == 6
    ensures Built(Splice(b, 6, src), next, last, counter, ds)
  {
    SpliceKeeps(b, 6, src, 12, 16);
    SpliceKeeps(b, 6, src, 16, next);
    var c := Splice(b, 6, src);
    hide Splice, EncodeAll;
    assert forall i :: 12 <= i < 16 ==> c[i] == c[12..16][i - 12] == b[12..16][i - 12] == b[i];
  }

  lemma {:induction false} ReadyAgain(b: seq<byte>, next: int, last: nat, counter: nat, ds: seq<Datagram>)
    requires Built(b, next, last, counter, ds)
    ensures Built(Unlengthed(Closed(b, next, last)), 16, 16, 0, [])
  {
    ClosedHolds(b, next, last, counter, ds);
    var c := Closed(b, next, last);
    assert b[12] == 0x88 && b[13] == 0xA4;
    hide Closed, EncodeAll, OnWire;
    assert c[12] == c[..16][12] == b[..16][12] && c[13] == c[..16][13] == b[..16][13];
    var u := Unlengthed(c);
    assert u[12] == u[..14][12] == c[..14][12] && u[13] == u[..14][13] == c[..14][13];
    EmptyBuilt(u);
  }

  lemma {:induction false} EmptyBuilt(b: seq<byte>)
    requires |b| == 1518 && FrameLength(b) == 0 && b[12] == 0x88 && b[13] == 0xA4
    ensures Built(b, 16, 16, 0, [])
  {
  }

  /** `writeFrame`: the closed frame goes out, and the frame is ready for the next one. */
  method WriteFrame(socket: Socket, f: Frame, src: seq<byte>, ghost ds: seq<Datagram>) returns (r: int)
    requires f.Building(ds) && |src| == 6
    modifies socket`wire, f, f.frame
    ensures f.Building([]) && !f.available
    ensures Built(Splice(old(f.frame[..]), 6, src), old(f.next), old(f.last), old(f.counter), ds)
    ensures socket.wire == Closed(Splice(old(f.frame[..]), 6, src), old(f.next), old(f.last))[..Outgoing(old(f.next))]
    ensures r == if 0 <= socket.status != Outgoing(old(f.next)) then -EIO else socket.status
  {
    ghost var b := f.frame[..];
    BuiltParts(b, f.next, f.last, f.counter, ds);
    SourceKeeps(b, src, f.next, f.last, f.counter, ds);
    ReadyAgain(Splice(b, 6, src), f.next, f.last, f.counter, ds);
    OutgoingBound(f.next);
    hide Built, Splice, Closed, Outgoing, Unlengthed;
    f.Copy(6, src);
    var toWrite := f.Finalize(ds);
    var written := socket.Write(f.frame[..toWrite]);
    ClearLength(f);
    if written < 0 {
      return written;
    }
    if written != toWrite {
      return -EIO;
    }
    r := written;
  }

  /** The received bytes are an EtherCAT frame as long as its header says. */
  predicate Accepted(b: seq<byte>, n: int)
    requires |b| == 1518
  {
    b[12] == 0x88 && b[13] == 0xA4 && n == Outgoing(FrameLength(b) + 16)
  }

  /** `readFrame`. */
  method ReadFrame(socket: Socket, f: Frame) returns (r: int)
    requires f.frame.Length == 1518 && socket.Delivers()
    modifies f`available, f.frame
    ensures var n := socket.status;
            if n <= 0 then r == n && f.frame[..] == old(f.frame[..]) && f.available == old(f.available)
            else
              var b := Splice(old(f.frame[..]), 0, socket.incoming);
              && (Accepted(b, n) <==> r > 0) && (r > 0 ==> r == n && f.frame[..] == Unlengthed(b) && f.available)
              && (r <= 0 ==> f.available == old(f.available))
              && (r <= 0 ==> if b[12] == 0x88 && b[13] == 0xA4 then r == -EIO && f.frame[..] == Unlengthed(b)
                             else r == -ENOMSG && f.frame[..] == b)
  {
    var read, data := socket.Read();
    if read <= 0 {
      return read;
    }
    f.Copy(0, data);
    if f.frame[12] != 0x88 || f.frame[13] != 0xA4 {
      return -ENOMSG;
    }
    var expected := f.frame[14] as int + 0x100 * (f.frame[15] as int % 8) + 16;
    ClearLength(f);
    if expected < 60 {
      expected := 60;
    }
    if read != expected {
      return -EIO;
    }
    f.available := true;
    r := read;
  }

  /** A frame sent by `writeFrame` is accepted exactly when all its bytes come back, whatever
      the receiving buffer held, and then its datagrams are read back. */
  lemma {:induction false} AcceptedWhole(b: seq<byte>, next: int, last: nat, counter: nat, ds: seq<Datagram>,
                                         r: seq<byte>, n: nat)
    requires Built(b, next, last, counter, ds) && |r| == 1518 && 0 < n <= 1518
    requires var c := Closed(b, next, last); forall i :: 0 <= i < n && i < Outgoing(next) ==> r[i] == c[i]
    ensures Accepted(r, n) <==> n == Outgoing(next)
    ensures n == Outgoing(next) ==> Readable(Unlengthed(r), 16) && ReadAll(Unlengthed(r), 16) == OnWire(ds)
  {
    var c, m := Closed(b, next, last), Outgoing(next);
    Verdict(b, next, last, counter, ds, r, n);
    if n == m {
      ClosedHolds(b, next, last, counter, ds);
      hide *;
      TailSame(r, c, m);
      WireReadsBack(b, next, last, counter, ds, Unlengthed(r));
    }
  }

  lemma {:induction false} TailSame(r: seq<byte>, c: seq<byte>, m: nat)
    requires |r| == |c| == 1518 && 16 <= m <= 1518 && forall i :: 0 <= i < m ==> r[i] == c[i]
    ensures Unlengthed(r)[16..m] == c[16..m]
  {
    var u := Unlengthed(r);
    assert u[16..m] == u[16..][..m - 16] == r[16..][..m - 16] == r[16..m];
  }

  lemma {:induction false} Verdict(b: seq<byte>, next: int, last: nat, counter: nat, ds: seq<Datagram>,
                                   r: seq<byte>, n: nat)
    requires Built(b, next, last, counter, ds) && |r| == 1518 && 0 < n <= 1518
    requires var c := Closed(b, next, last); forall i :: 0 <= i < n && i < Outgoing(next) ==> r[i] == c[i]
    ensures Accepted(r, n) <==> n == Outgoing(next)
  {
    ClosedHolds(b, next, last, counter, ds);
    var c := Closed(b, next, last);
    assert b[12] == 0x88 && b[13] == 0xA4 && FrameLength(b) == next - 16 && |c| == 1518;
    hide Closed, OnWire, EncodeAll, Built;
    if n >= 60 {
      assert forall i :: 12 <= i < 16 ==> r[i] == c[i] == c[..16][i] == b[..16][i];
    }
  }

  /** Reading a frame that was sent whole, into any other frame, yields its datagrams. */
  method Collect(g: Frame, socket: Socket, ghost b: seq<byte>, ghost next: int, ghost last: nat, ghost counter: nat,
                 ghost ds: seq<Datagram>)
    returns (got: seq<Datagram>)
    requires Built(b, next, last, counter, ds) && last + 7 < 1518 && Outgoing(next) <= 1514
    requires socket.status == Outgoing(next) && socket.incoming == Closed(b, next, last)[..Outgoing(next)]
    requires g.frame.Length == 1518 && g.next == 16
    modifies g, g.frame
    ensures got == OnWire(ds)
  {
    Arrived(b, next, last, counter, ds, g.frame[..]);
    hide Closed, Splice, Built, Accepted, Unlengthed, Readable, ReadAll, OnWire, Outgoing, EncodeAll, FrameLength;
    var read := ReadFrame(socket, g);
    got := Drain(g);
  }

  /** One frame written, carried whole and read by another: its datagrams arrive. */
  method Carry(f: Frame, g: Frame, socket: Socket, src: seq<byte>, ghost ds: seq<Datagram>) returns (got: seq<Datagram>)
    requires f.Building(ds) && |src| == 6 && socket.status == Outgoing(f.next)
    requires f != g && f.frame != g.frame && g.frame.Length == 1518 && g.next == 16
    modifies f, f.frame, g, g.frame, socket
    ensures got == OnWire(ds) && f.Building([])
  {
    ghost var b, next, last, counter := Splice(f.frame[..], 6, src), f.next, f.last, f.counter;
    BuiltParts(f.frame[..], f.next, f.last, f.counter, ds);
    OutgoingBound(f.next);
    hide Closed, Splice, Built, OnWire, Outgoing, EncodeAll, FrameLength;
    var sent := WriteFrame(socket, f, src, ds);
    socket.incoming := socket.wire;
    got := Collect(g, socket, b, next, last, counter, ds);
  }

  lemma {:induction false} Arrived(b: seq<byte>, next: int, last: nat, counter: nat, ds: seq<Datagram>, into: seq<byte>)
    requires Built(b, next, last, counter, ds) && |into| == 1518
    ensures |b| == 1518 && 16 <= next <= 1514 && last + 7 < 1518 && 60 <= Outgoing(next) <= 1514
    ensures var r := Splice(into, 0, Closed(b, next, last)[..Outgoing(next)]);
            && Accepted(r, Outgoing(next))
            && Readable(Unlengthed(r), 16) && ReadAll(Unlengthed(r), 16) == OnWire(ds)
  {
    BuiltParts(b, next, last, counter, ds);
    OutgoingBound(next);
    var c, n := Closed(b, next, last), Outgoing(next);
    var r := Splice(into, 0, c[..n]);
    assert forall i :: 0 <= i < n ==> r[i] == c[i];
    hide *;
    AcceptedWhole(b, next, last, counter, ds, r, n);
  }
}
