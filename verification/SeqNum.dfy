/**
 Sixteen-bit sequence numbers.

 Every counter of the protocol is an unsigned 16-bit field that wraps. The model gives each
 packet its true, unbounded number; the field holds `Wire` of it.
 */
module SeqNum {

  /** Number of values of an unsigned 16-bit field (APP_INT16_CNT). */
  const CNT := 65536
  const HALF := 32768
  const THREE_QUARTERS := 49152

  type u16 = x: int | 0 <= x < 65536

  /** The 16-bit field that stands for true number `n`. */
  function Wire(n: int): u16 {
    n % CNT
  }

  /** `appInt16 d = x - y`. */
  function Diff(x: u16, y: u16): u16 {
    (x - y) % CNT
  }

  /** `x += d` */
  function Plus(x: u16, d: int): u16 {
    (x + d) % CNT
  }

  /** Subtracting two fields recovers the distance of the true numbers while it is below 65536. */
  lemma DiffIsDistance(m: int, n: int)
    ensures 0 <= m - n < CNT ==> Diff(Wire(m), Wire(n)) == m - n
    ensures -CNT <= m - n < 0 ==> Diff(Wire(m), Wire(n)) == m - n + CNT
  {
  }

  lemma WireInjective(m: int, n: int)
    requires -CNT < m - n < CNT
    requires Wire(m) == Wire(n)
    ensures m == n
  {
  }

  lemma WirePeriod(n: int)
    ensures Wire(n - CNT) == Wire(n)
  {
  }

  lemma WireSucc(n: int)
    ensures Wire(n + 1) == (Wire(n) + 1) % CNT
    ensures Wire(n - 1) == (Wire(n) - 1) % CNT
  {
  }

  lemma WireSum(n: int, x: int)
    ensures Wire(n + x) == Plus(Wire(n), x)
  {
  }

  /** Counting up brings a field closer to any other. */
  lemma PlusApproaches(x: u16, goal: u16)
    requires x != goal
    ensures Diff(goal, Plus(x, 1)) < Diff(goal, x)
  {
  }
}

/** The part of `Packet` that the channel, the scheduler and the flow layer look at. */
module Packets {
  /**
   `flowSeq` is the true flow sequence number; the header carries `Wire(flowSeq)`.
   `fin` is FLAG_FFN, `chs` FLAG_CHS, `csn` FLAG_CSN.
   */
  datatype Packet = Packet(flowId: int, flowSeq: int, data: seq<int>, fin: bool, chs: bool, csn: bool)

  datatype Option<+T> = None | Some(value: T)
}
