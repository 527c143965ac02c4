/**
 One channel as a step system: a sender, a receiver and a network between them that may lose,
 duplicate and reorder packets and acks.

 Transmissions are never removed from the sender's log `tx` nor acks from `acks`, so a message
 may be delivered any number of times, in any order, or never. What the network owes is an age
 bound, stated in `Enabled`.
 */
module ChannelSystem {
  import opened SeqNum
  import opened Packets
  import opened SenderModel
  import opened SenderLaws
  import opened ReceiverModel

  /** An ack on the wire: ackNo and origAckNo. Its window field is always APP_INT16_CNT / 2. */
  datatype AckMsg = AckMsg(a: int, o: int)

  /**
   `given` lists the packets the buffer has taken, by number; `queue` is ackRecvQueue; `log`
   the numbers the receiver has accepted, in order.
   */
  datatype Chan = Chan(snd: Snd, rcv: Rcv, given: seq<Packet>, acks: set<AckMsg>, queue: seq<Ack>, log: seq<int>)

  datatype Event =
    | SubmitPacket(pkt: Packet, clock: Clock)
    | DeliverData(n: int)
    | DeliverAck(m: AckMsg, sentTS: int, recvTS: int)
    | DrainAcks(now: int, clock: Clock)
    | TimeoutSweep(now: int, clock: Clock, order: seq<int>)
    | Die(order: seq<int>)

  function InitChan(): Chan {
    Chan(InitSnd(), InitRcv(), [], {}, [], [])
  }

  // ---------------------------------------------------------------------------------------
  // Batched acks
  // ---------------------------------------------------------------------------------------

  /** Distance of an ack number from lastAcked as the 16-bit subtraction gives it. */
  function Norm(x: int, lo: int): int {
    Diff(Wire(x), Wire(lo))
  }

  /** The largest distance in the batch: the first loop of ackRecv(). */
  function MaxNorm(q: seq<Ack>, lo: int): (m: int)
    ensures 0 <= m < CNT
    ensures forall k :: k in q ==> Norm(k.a, lo) <= m
    ensures m == 0 || exists k :: k in q && Norm(k.a, lo) == m
  {
    if q == [] then 0
    else
      var m := MaxNorm(q[..|q| - 1], lo);
      var k := q[|q| - 1];
      assert q == q[..|q| - 1] + [k];
      if Norm(k.a, lo) > m then Norm(k.a, lo) else m
  }

  /** The largest ack number of a batch on true numbers, and lastAcked if none is larger. */
  function MaxAck(q: seq<Ack>, lo: int): (m: int)
    ensures m >= lo
    ensures forall k :: k in q ==> k.a <= m
    ensures m == lo || exists k :: k in q && k.a == m
  {
    if q == [] then lo
    else
      var m := MaxAck(q[..|q| - 1], lo);
      var k := q[|q| - 1];
      assert q == q[..|q| - 1] + [k];
      if k.a > m then k.a else m
  }

  /** Whether the second loop hands an ack on: it names the largest number, or answers one past it. */
  predicate Selected(k: Ack, lo0: int, lo: int, m: int) {
    Norm(k.a, lo0) == m || Norm(k.o, lo) > m
  }

  /** The second loop of ackRecv(), for a batch that started at lastAcked `lo0`. */
  function Process(s: Snd, q: seq<Ack>, lo0: int, m: int, now: int, clock: Clock): Snd
    decreases |q|
  {
    if q == [] then s
    else Process(if Selected(q[0], lo0, s.b.lo, m) then AckRecv(s, q[0], now, clock) else s,
                 q[1..], lo0, m, now, clock)
  }

  /** ackRecv(): the whole queue is drained. */
  function Drain(s: Snd, q: seq<Ack>, now: int, clock: Clock): Snd {
    Process(s, q, s.b.lo, MaxNorm(q, s.b.lo), now, clock)
  }

  // ---------------------------------------------------------------------------------------
  // Steps
  // ---------------------------------------------------------------------------------------

  predicate Transmitted(c: Chan, n: int) {
    exists i :: 0 <= i < |c.snd.b.tx| && c.snd.b.tx[i].n == n
  }

  /** An ack is less than 2^15 behind lastAcked. */
  predicate Young(c: Chan, a: int) {
    c.snd.b.lo - a < HALF
  }

  ghost predicate Enabled(c: Chan, e: Event) {
    match e
    case SubmitPacket(_, clock) => !c.snd.dead && Ticking(clock)
    // A packet is delivered before expectedSeq has moved more than 2^15 past it.
    case DeliverData(n) => Transmitted(c, n) && c.rcv.next - n <= HALF
    case DeliverAck(m, sentTS, recvTS) =>
      !c.snd.dead && m in c.acks && Young(c, m.a) && 0 <= sentTS <= recvTS
    // No ack of a batch is 2^15 or more behind where the batch may take lastAcked.
    case DrainAcks(now, clock) =>
      && !c.snd.dead && Ticking(clock) && now > 0
      && (forall k :: k in c.queue ==> MaxAck(c.queue, c.snd.b.lo) - k.a < HALF)
    case TimeoutSweep(now, clock, order) =>
      && !c.snd.dead && Ticking(clock) && now > 0
      && Enumerates(order, Resent(c.snd.b, now))
      && (forall n :: n in order ==> !Fatal(c.snd.b, n))
    case Die(order) => !c.snd.dead && (forall n :: n in order ==> n in c.snd.b.slots && n <= c.snd.b.mid)
  }

  function Resend(b: Buf, order: seq<int>): Buf {
    b.(tx := b.tx + seq(|order|, i requires 0 <= i < |order| => TxOf(b, order[i])))
  }

  function Deliver(c: Chan, n: int): Chan
    requires 0 <= n < |c.given|
  {
    var chs := c.given[n].chs;
    var r := PktRecv(c.rcv, n, chs);
    c.(rcv := r,
       acks := if Answered(c.rcv, n, chs) then c.acks + {AckMsg(r.next - 1, n)} else c.acks,
       log := if AcceptedBy(c.rcv, n, chs) then c.log + [n] else c.log)
  }

  function Apply(c: Chan, e: Event): Chan {
    match e
    case SubmitPacket(pkt, clock) =>
      c.(snd := Submit(c.snd, pkt, clock),
         given := if SubmitCodeOf(c.snd) == Accepted then c.given + [Stored(c.snd.b, pkt)] else c.given)
    case DeliverData(n) => if 0 <= n < |c.given| then Deliver(c, n) else c
    case DeliverAck(m, sentTS, recvTS) =>
      c.(snd := c.snd.(b := Mark(c.snd.b, SlotOf(c.snd.b, m.o))),
         queue := c.queue + [Ack(m.a, m.o, HALF, sentTS, recvTS)])
    case DrainAcks(now, clock) => c.(snd := Drain(c.snd, c.queue, now, clock), queue := [])
    case TimeoutSweep(now, clock, order) => c.(snd := Timeout(c.snd, now, clock, order))
    case Die(order) => c.(snd := Kill(c.snd.(b := Resend(c.snd.b, order))), queue := [])
  }

  // ---------------------------------------------------------------------------------------
  // The joint invariant
  // ---------------------------------------------------------------------------------------

  /** Every packet held or ever put on the wire under number `n` is the one submitted as number `n`. */
  ghost predicate Faithful(b: Buf, given: seq<Packet>) {
    && |given| == b.hi + 1
    && (forall n :: n in b.slots ==> 0 <= n < |given| && b.slots[n].pkt == given[n])
    && (forall i :: 0 <= i < |b.tx| ==> 0 <= b.tx[i].n <= b.mid && b.tx[i].n < |given|
                                        && b.tx[i].pkt == given[b.tx[i].n])
  }

  /** No ack answers the number right above an ack that was already sent. */
  ghost predicate Cross(acks: set<AckMsg>) {
    && (forall m :: m in acks ==> (m.o == 0 ==> m.a >= 0))
    && (forall m, p :: m in acks && p in acks ==> (m.o == p.a + 1 ==> m.a >= m.o))
  }

  /** An ack tells the truth about the receiver, then and ever after. */
  ghost predicate Truthful(acks: set<AckMsg>, r: Rcv) {
    forall m :: m in acks ==> -1 <= m.a < r.next && 0 <= m.o && Received(r, m.o) && m.a - HALF < m.o
  }

  /** lastAcked was named by an ack, and each hole above it by an ack no newer than lastAcked. */
  ghost predicate Evidence(b: Buf, acks: set<AckMsg>) {
    && (b.lo == -1 || exists m :: m in acks && m.a == b.lo)
    && (forall n :: b.lo < n <= b.mid && n !in b.slots ==> exists m :: m in acks && m.o == n && m.a <= b.lo)
  }

  ghost predicate Queued(queue: seq<Ack>, acks: set<AckMsg>) {
    forall k :: k in queue ==> AckMsg(k.a, k.o) in acks && k.window == HALF && 0 <= k.sentTS <= k.recvTS
  }

  /** The accepted log holds each received number exactly once. */
  ghost predicate LogInv(log: seq<int>, r: Rcv) {
    && (forall n :: n in log <==> Received(r, n))
    && (forall i, j :: 0 <= i < j < |log| ==> log[i] != log[j])
  }

  ghost predicate RcvSide(c: Chan) {
    && RcvInv(c.rcv)
    && -1 <= c.snd.b.lo < c.rcv.next && c.snd.b.mid <= c.snd.b.lo + HALF && c.snd.b.mid <= c.snd.b.hi
    && (forall n :: Received(c.rcv, n) ==> n <= c.snd.b.mid)
    && Truthful(c.acks, c.rcv) && Cross(c.acks)
    && LogInv(c.log, c.rcv)
    && Faithful(c.snd.b, c.given)
  }

  /** A live sender between two handlers, as far as the acks on the wire account for it. */
  ghost predicate Proper(s: Snd, acks: set<AckMsg>) {
    SndInv(s) && Evidence(s.b, acks)
  }

  ghost predicate SndSide(s: Snd, acks: set<AckMsg>, queue: seq<Ack>) {
    Proper(s, acks) && Queued(queue, acks)
  }

  ghost predicate ChanInv(c: Chan) {
    && RcvSide(c)
    && (c.snd.dead || SndSide(c.snd, c.acks, c.queue))
  }
}
