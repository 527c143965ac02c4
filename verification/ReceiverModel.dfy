/** The receiving half of a channel on true sequence numbers. */
module ReceiverModel {
  import opened SeqNum

  /**
   `next` is expectedSeq; `above` is the set of received numbers beyond it, which the bit map
   holds; `started` is recvStarted.
   */
  datatype Rcv = Rcv(next: int, above: set<int>, started: bool)

  function InitRcv(): Rcv {
    Rcv(0, {}, false)
  }

  /** The numbers the receiver has ever taken. */
  predicate Received(r: Rcv, n: int) {
    0 <= n < r.next || n in r.above
  }

  /** The first number at or after `next` that has not been received. */
  function SkipReceived(next: int, above: set<int>): (m: int)
    ensures next <= m
    ensures m !in above
    ensures forall n :: next <= n < m ==> n in above
    decreases above
  {
    if next in above then
      var m := SkipReceived(next + 1, above - {next});
      assert m != next;
      m
    else next
  }

  /** The start gate: nothing is taken before a packet that carries FLAG_CHS. */
  predicate Passes(r: Rcv, chs: bool) {
    r.started || chs
  }

  /** The forward half of the number space, seen from expectedSeq. */
  predicate Ahead(r: Rcv, n: int) {
    0 <= n - r.next < HALF
  }

  /** The last quarter: the 16383 numbers just below expectedSeq. */
  predicate JustBehind(r: Rcv, n: int) {
    THREE_QUARTERS - CNT < n - r.next < 0
  }

  /** State after pktRecv of packet `n`. */
  function PktRecv(r: Rcv, n: int, chs: bool): Rcv {
    if !Passes(r, chs) then r
    else if !Ahead(r, n) then r.(started := true)
    else
      var next := SkipReceived(r.next, r.above + {n});
      Rcv(next, set m | m in r.above + {n} && m >= next, true)
  }

  /** Whether pktRecv marks the packet accepted, that is, passes it up. */
  predicate AcceptedBy(r: Rcv, n: int, chs: bool) {
    Passes(r, chs) && Ahead(r, n) && n !in r.above
  }

  /** Whether pktRecv answers with an ack; the ack number is the new expectedSeq - 1. */
  predicate Answered(r: Rcv, n: int, chs: bool) {
    Passes(r, chs) && (Ahead(r, n) || JustBehind(r, n))
  }

  ghost predicate RcvInv(r: Rcv) {
    && r.next >= 0
    && (forall n :: n in r.above ==> r.next < n < r.next + HALF)
  }

  /**
   One packet of true number `n`, old by no more than half the number space, adds exactly `n`
   to what has been received, is accepted exactly when it is new, and never moves expectedSeq
   past a missing number.
   */
  lemma PktRecvKeeps(r: Rcv, n: int, chs: bool)
    requires RcvInv(r) && 0 <= n && -HALF <= n - r.next < HALF
    ensures var q := PktRecv(r, n, chs);
      && RcvInv(q)
      && q.next >= r.next
      && (forall m :: Received(q, m) <==> Received(r, m) || (m == n && Passes(r, chs)))
      && (AcceptedBy(r, n, chs) <==> Passes(r, chs) && !Received(r, n))
      && !Received(q, q.next)
      && (Answered(r, n, chs) ==> Received(q, n))
  {
    if Passes(r, chs) && Ahead(r, n) {
      var next := SkipReceived(r.next, r.above + {n});
    }
  }
}
