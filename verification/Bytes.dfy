/** Bytes and little-endian words, as the EEPROM codec, the frame builder and the
    mailboxes lay them out. */
module Bytes {

  type byte = b: int | 0 <= b < 0x100
  type u16 = w: int | 0 <= w < 0x1_0000
  type u32 = w: int | 0 <= w < 0x1_0000_0000

  /** The two bytes of a little-endian word. */
  function Le16(w: u16): (r: seq<byte>)
    ensures |r| == 2
  {
    [w % 0x100, w / 0x100]
  }

  /** The little-endian word stored at `p[k..k+2]`. */
  function Word(p: seq<byte>, k: nat): u16
    requires k + 2 <= |p|
  {
    (p[k] as int) + 0x100 * (p[k + 1] as int)
  }

  lemma {:induction false} WordOfLe16(w: u16, p: seq<byte>, k: nat)
    requires k + 2 <= |p| && p[k..k + 2] == Le16(w)
    ensures Word(p, k) == w
  {
    assert p[k] == p[k..k + 2][0] && p[k + 1] == p[k..k + 2][1];
  }

  /** `n` zero bytes. */
  function Zeros(n: nat): (r: seq<byte>)
    ensures |r| == n && forall i :: 0 <= i < n ==> r[i] == 0
  {
    seq(n, _ => 0)
  }
}
