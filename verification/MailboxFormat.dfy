/** What a mailbox message looks like (ETG.1000.6): the headers at its front, and the statuses and
    verdicts of those who wait for one. */
module MailboxFormat {
  import opened Bytes

  const SUCCESS := 0
  const RUNNING := 1
  const TIMEDOUT := 2
  const WRONG_SERVICE := 0x101
  const UNKNOWN_SERVICE := 0x102
  const BUFFER_TOO_SMALL := 0x103
  const GENERAL_ERROR := 0x0800_0000

  const ERR := 0
  const COE := 3
  const EMERGENCY := 1
  const SDO_REQUEST := 2
  const SDO_INFORMATION := 8
  const ABORT := 4

  /** How a message takes a reply. */
  datatype Verdict = Noop | GoOn | Finalize | FinalizeAndKeep

  /** What a pointer to a received message reads: the message and whatever lies behind it. */
  type Memory = nat -> byte

  function Part(memory: Memory, from: nat, n: nat): (r: seq<byte>)
    ensures |r| == n && forall i :: 0 <= i < n ==> r[i] == memory(from + i)
  {
    seq(n, i requires 0 <= i < n => memory(from + i))
  }

  function Front(memory: Memory, n: nat): (r: seq<byte>)
    ensures |r| == n && forall i :: 0 <= i < n ==> r[i] == memory(i)
  {
    Part(memory, 0, n)
  }

  /** The address field of a mailbox header. */
  function Address(data: seq<byte>): u16
    requires |data| >= 6
  {
    Word(data, 2)
  }

  function WithAddress(data: seq<byte>, address: u16): (r: seq<byte>)
    requires |data| >= 6
    ensures |r| == |data| && Address(r) == address
  {
    data[2 := address % 0x100][3 := address / 0x100]
  }

  /** The size a message declares: header and payload. */
  function Declared(data: seq<byte>): nat
    requires |data| >= 6
  {
    6 + Word(data, 0)
  }

  function TypeOf(head: seq<byte>): nat requires |head| >= 9 { head[5] % 16 }

  function ServiceOf(head: seq<byte>): nat requires |head| >= 9 { head[7] / 16 }

  function CommandOf(head: seq<byte>): nat requires |head| >= 9 { head[8] / 32 }

  /** The reply carries a gateway index instead of an address. */
  predicate ForGateway(head: seq<byte>) requires |head| >= 6 { Address(head) >= 0x8000 }
}
