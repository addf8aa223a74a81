/** The checksum of the EEPROM info area (`computeInfoCRC`): CRC-8 with polynomial
    x^8 + x^2 + x + 1 and initial value 0xFF over the first seven words. */
module InfoCrc {
  import opened Bytes

  /** An eight-bit register, most significant bit first. */
  datatype Reg = Reg(b7: bool, b6: bool, b5: bool, b4: bool, b3: bool, b2: bool, b1: bool, b0: bool)

  function Bit(on: bool, weight: nat): nat { if on then weight else 0 }

  function ToReg(b: byte): Reg {
    var b7 := b >= 128;
    var r6 := b - Bit(b7, 128);
    var r5 := r6 - Bit(r6 >= 64, 64);
    var r4 := r5 - Bit(r5 >= 32, 32);
    var r3 := r4 - Bit(r4 >= 16, 16);
    var r2 := r3 - Bit(r3 >= 8, 8);
    var r1 := r2 - Bit(r2 >= 4, 4);
    var r0 := r1 - Bit(r1 >= 2, 2);
    Reg(b7, r6 >= 64, r5 >= 32, r4 >= 16, r3 >= 8, r2 >= 4, r1 >= 2, r0 >= 1)
  }

  function Value(r: Reg): byte {
    Bit(r.b7, 128) + Bit(r.b6, 64) + Bit(r.b5, 32) + Bit(r.b4, 16)
    + Bit(r.b3, 8) + Bit(r.b2, 4) + Bit(r.b1, 2) + Bit(r.b0, 1)
  }

  lemma {:induction false} ValueOfToReg(b: byte)
    ensures Value(ToReg(b)) == b
  {}

  lemma {:induction false} ValueInjective(r: Reg, s: Reg)
    requires Value(r) == Value(s)
    ensures r == s
  {}

  function Xor(r: Reg, s: Reg): Reg {
    Reg(r.b7 != s.b7, r.b6 != s.b6, r.b5 != s.b5, r.b4 != s.b4,
        r.b3 != s.b3, r.b2 != s.b2, r.b1 != s.b1, r.b0 != s.b0)
  }

  function ShiftLeft(r: Reg): Reg {
    Reg(r.b6, r.b5, r.b4, r.b3, r.b2, r.b1, r.b0, false)
  }

  const ZERO := Reg(false, false, false, false, false, false, false, false)
  const POLYNOMIAL := Reg(false, false, false, false, false, true, true, true)   // 0x07
  const INITIAL := Reg(true, true, true, true, true, true, true, true)           // 0xFF
  const COVERED: nat := 14

  /** One bit step: shift left, fold the polynomial in when a one falls out. */
  function Step(c: Reg): Reg {
    if c.b7 then Xor(ShiftLeft(c), POLYNOMIAL) else ShiftLeft(c)
  }

  function Steps(c: Reg, n: nat): Reg
    decreases n
  {
    if n == 0 then c else Steps(Step(c), n - 1)
  }

  /** Absorb one byte. */
  function Feed(c: Reg, b: byte): Reg {
    Steps(Xor(c, ToReg(b)), 8)
  }

  function Crc(c: Reg, data: seq<byte>): Reg
    decreases |data|
  {
    if data == [] then c else Crc(Feed(c, data[0]), data[1..])
  }

  /** The checksum of an info block: only the first fourteen bytes take part. */
  function InfoChecksum(info: seq<byte>): byte
    requires |info| >= COVERED
  {
    Value(Crc(INITIAL, info[..COVERED]))
  }

  /** The inner loop of `computeInfoCRC`: one byte, bit by bit. */
  method FeedByte(c: Reg, b: byte) returns (crc: Reg)
    ensures crc == Feed(c, b)
  {
    crc := Xor(c, ToReg(b));
    for bit := 0 to 8
      invariant Steps(crc, 8 - bit) == Feed(c, b)
    {
      if crc.b7 {
        crc := Xor(ShiftLeft(crc), POLYNOMIAL);
      } else {
        crc := ShiftLeft(crc);
      }
    }
  }

  /** `computeInfoCRC`. */
  method ComputeInfoCrc(info: seq<byte>) returns (checksum: byte)
    requires |info| >= COVERED
    ensures checksum == InfoChecksum(info)
  {
    var crc := INITIAL;
    for i := 0 to COVERED
      invariant Crc(crc, info[i..COVERED]) == Crc(INITIAL, info[..COVERED])
    {
      assert info[i..COVERED][0] == info[i] && info[i..COVERED][1..] == info[i + 1..COVERED];
      crc := FeedByte(crc, info[i]);
    }
    checksum := Value(crc);
  }

  // ---- No single-byte change goes unnoticed --------------------------------

  lemma {:induction false} StepInjective(a: Reg, b: Reg)
    requires Step(a) == Step(b)
    ensures a == b
  {
    assert Step(a).b0 == a.b7 && Step(b).b0 == b.b7;
  }

  lemma {:induction false} StepsInjective(a: Reg, b: Reg, n: nat)
    requires Steps(a, n) == Steps(b, n)
    ensures a == b
    decreases n
  {
    if n > 0 {
      StepsInjective(Step(a), Step(b), n - 1);
      StepInjective(a, b);
    }
  }

  /** Two different states are never merged by feeding both the same bytes. */
  lemma {:induction false} CrcInjectiveInState(a: Reg, b: Reg, data: seq<byte>)
    requires Crc(a, data) == Crc(b, data)
    ensures a == b
    decreases |data|
  {
    if data != [] {
      CrcInjectiveInState(Feed(a, data[0]), Feed(b, data[0]), data[1..]);
      StepsInjective(Xor(a, ToReg(data[0])), Xor(b, ToReg(data[0])), 8);
    }
  }

  lemma {:induction false} CrcConcat(c: Reg, x: seq<byte>, y: seq<byte>)
    ensures Crc(c, x + y) == Crc(Crc(c, x), y)
    decreases |x|
  {
    if x == [] {
      assert x + y == y;
    } else {
      assert (x + y)[1..] == x[1..] + y;
      CrcConcat(Feed(c, x[0]), x[1..], y);
    }
  }

  /** Two info blocks that differ in exactly one covered byte never share a checksum. */
  lemma {:induction false} SingleByteChangeDetected(a: seq<byte>, b: seq<byte>, i: nat)
    requires |a| >= COVERED && |b| >= COVERED && i < COVERED
    requires a[i] != b[i] && forall k :: 0 <= k < COVERED && k != i ==> a[k] == b[k]
    ensures InfoChecksum(a) != InfoChecksum(b)
  {
    var head, tail := a[..i], a[i + 1..COVERED];
    assert a[..COVERED] == head + ([a[i]] + tail);
    assert b[..COVERED] == head + ([b[i]] + tail);
    CrcConcat(INITIAL, head, [a[i]] + tail);
    CrcConcat(INITIAL, head, [b[i]] + tail);
    var c := Crc(INITIAL, head);
    assert ([a[i]] + tail)[1..] == tail && ([b[i]] + tail)[1..] == tail;
    if InfoChecksum(a) == InfoChecksum(b) {
      ValueInjective(Crc(INITIAL, a[..COVERED]), Crc(INITIAL, b[..COVERED]));
      CrcInjectiveInState(Feed(c, a[i]), Feed(c, b[i]), tail);
      StepsInjective(Xor(c, ToReg(a[i])), Xor(c, ToReg(b[i])), 8);
      ValueOfToReg(a[i]);
      ValueOfToReg(b[i]);
    }
  }

  // ---- Linearity: which changes do go unnoticed ----------------------------

  /** The checksum state driven by bit patterns instead of bytes. */
  function Residue(c: Reg, data: seq<Reg>): Reg
    decreases |data|
  {
    if data == [] then c else Residue(Steps(Xor(c, data[0]), 8), data[1..])
  }

  function Difference(a: seq<byte>, b: seq<byte>): (r: seq<Reg>)
    requires |a| == |b|
    ensures |r| == |a| && forall i :: 0 <= i < |r| ==> r[i] == Xor(ToReg(a[i]), ToReg(b[i]))
  {
    seq(|a|, i requires 0 <= i < |a| => Xor(ToReg(a[i]), ToReg(b[i])))
  }

  lemma {:induction false} XorSwap(a: Reg, b: Reg, c: Reg, d: Reg)
    ensures Xor(Xor(a, b), Xor(c, d)) == Xor(Xor(a, c), Xor(b, d))
  {}

  /** The polynomial, or nothing, that a step folds in. */
  function Fold(out: bool): Reg { if out then POLYNOMIAL else ZERO }

  lemma {:induction false} StepForm(c: Reg)
    ensures Step(c) == Xor(ShiftLeft(c), Fold(c.b7))
  {}

  lemma {:induction false} StepLinear(a: Reg, b: Reg)
    ensures Step(Xor(a, b)) == Xor(Step(a), Step(b))
  {
    StepForm(a);
    StepForm(b);
    StepForm(Xor(a, b));
    assert ShiftLeft(Xor(a, b)) == Xor(ShiftLeft(a), ShiftLeft(b));
    assert Fold(Xor(a, b).b7) == Xor(Fold(a.b7), Fold(b.b7));
    XorSwap(ShiftLeft(a), ShiftLeft(b), Fold(a.b7), Fold(b.b7));
  }

  lemma {:induction false} StepsLinear(a: Reg, b: Reg, n: nat)
    ensures Steps(Xor(a, b), n) == Xor(Steps(a, n), Steps(b, n))
    decreases n
  {
    if n > 0 {
      StepLinear(a, b);
      StepsLinear(Step(a), Step(b), n - 1);
    }
  }

  /** The checksum is linear: the residue of the differences is the difference of the
      checksums, for blocks of any length. */
  lemma {:induction false} CrcLinear(c: Reg, d: Reg, a: seq<byte>, b: seq<byte>)
    requires |a| == |b|
    ensures Residue(Xor(c, d), Difference(a, b)) == Xor(Crc(c, a), Crc(d, b))
    decreases |a|
  {
    if a != [] {
      var x, y := Xor(c, ToReg(a[0])), Xor(d, ToReg(b[0]));
      assert Difference(a, b)[1..] == Difference(a[1..], b[1..]);
      XorSwap(c, d, ToReg(a[0]), ToReg(b[0]));
      StepsLinear(x, y, 8);
      CrcLinear(Feed(c, a[0]), Feed(d, b[0]), a[1..], b[1..]);
    }
  }

  /** A change of the covered bytes goes unnoticed exactly when its bit pattern leaves
      a zero residue, whatever the block was. */
  lemma {:induction false} UnnoticedChange(a: seq<byte>, b: seq<byte>)
    requires |a| >= COVERED && |b| >= COVERED
    ensures InfoChecksum(a) == InfoChecksum(b)
            <==> Residue(ZERO, Difference(a[..COVERED], b[..COVERED])) == ZERO
  {
    var x, y := Crc(INITIAL, a[..COVERED]), Crc(INITIAL, b[..COVERED]);
    CrcLinear(INITIAL, INITIAL, a[..COVERED], b[..COVERED]);
    assert Xor(INITIAL, INITIAL) == ZERO;
    if Value(x) == Value(y) { ValueInjective(x, y); }
  }
}
