/** Runs built one step at a time: bursts of packets, and packets that make their round trip one after the other. */
module RoundTrips {
  import opened SeqNum
  import opened Packets
  import opened SenderModel
  import opened ReceiverModel
  import opened ChannelSystem
  import opened ChannelTheorems

  /** A state some run arrives in. */
  ghost predicate Reachable(c: Chan) {
    exists cs: seq<Chan>, es: seq<Event> :: Run(cs, es) && cs[|es|] == c
  }

  lemma StartReachable()
    ensures Reachable(InitChan())
  {
    assert Run([InitChan()], []);
  }

  lemma OneStep(c: Chan, e: Event)
    requires Reachable(c) && Enabled(c, e)
    ensures Reachable(Apply(c, e))
  {
    var cs: seq<Chan>, es: seq<Event> :| Run(cs, es) && cs[|es|] == c;
    hide Enabled, Apply;
    var cs', es' := cs + [Apply(c, e)], es + [e];
    forall i | 0 <= i < |es'| ensures Enabled(cs'[i], es'[i]) && cs'[i + 1] == Apply(cs'[i], es'[i]) {
      assert i < |es| ==> cs'[i + 1] == cs[i + 1];
    }
    assert Run(cs', es');
  }

  lemma ReachableKeeps(c: Chan)
    requires Reachable(c)
    ensures ChanInv(c)
  {
    var cs: seq<Chan>, es: seq<Event> :| Run(cs, es) && cs[|es|] == c;
    RunKeeps(cs, es, |es|);
  }

  function Noon(w: int): int {
    1
  }

  const PKT := Packet(0, 0, [1], false, false, false)

  // ---------------------------------------------------------------------------------------
  // A burst
  // ---------------------------------------------------------------------------------------

  /** The buffer holds exactly `j` packets from number `base` up, each sent once, at time 1. */
  ghost predicate Held(b: Buf, base: nat, j: nat, rto: int) {
    && b.lo == base - 1 && b.mid == b.hi == base - 1 + j
    && (forall m :: m in b.slots <==> base <= m < base + j)
    && (forall m :: m in b.slots ==>
         b.slots[m].sent && b.slots[m].time == 1 && b.slots[m].rto == rto && b.slots[m].retry == 0)
  }

  ghost predicate NoMarks(b: Buf) {
    forall m :: m in b.slots ==> !b.slots[m].ackRcvd
  }

  /** Everything below `base` is acked and `j` packets from there up are in flight. */
  ghost predicate InFlight(c: Chan, base: nat, j: nat) {
    && Held(c.snd.b, base, j, Rto(c.snd.c)) && !c.snd.dead && (j > 0 ==> c.snd.started)
    && |c.given| == base + j && (j > 0 ==> c.given[base].chs)
    && (forall m :: 0 <= m < base + j ==> Transmitted(c, m))
  }

  /** What one submission does to the buffer while the window is open. */
  lemma SubmitSends(b: Buf, pkt: Packet, base: nat, j: nat, wnd: int, rto: int)
    requires Held(b, base, j, rto) && j < wnd
    ensures var t := SendNext(AddBuffer(b, pkt), wnd, 1, rto, Noon);
      && Held(t, base, j + 1, rto) && t.tx == b.tx + [TxOf(AddBuffer(b, pkt), base + j)]
      && (forall m :: m in b.slots ==> t.slots[m].ackRcvd == b.slots[m].ackRcvd) && !t.slots[base + j].ackRcvd
  {
    var p := AddBuffer(b, pkt);
    assert SendCount(p, wnd, 1) == 1;
    var t := SendFirst(p, 1, rto, Noon);
    assert t.tx == b.tx + [TxOf(p, base + j)];
  }

  /** Whatever has been transmitted stays transmitted. */
  lemma StillTransmitted(c: Chan, d: Chan, m: int)
    requires Transmitted(c, m) && c.snd.b.tx <= d.snd.b.tx
    ensures Transmitted(d, m)
  {
    var i :| 0 <= i < |c.snd.b.tx| && c.snd.b.tx[i].n == m;
    assert d.snd.b.tx[i].n == m;
  }

  lemma Submitted(c: Chan, base: nat, j: nat, pkt: Packet)
    requires InFlight(c, base, j) && j < Wnd(c.snd.c) && j < HALF
    ensures Enabled(c, SubmitPacket(pkt, Noon)) && SubmitCodeOf(c.snd) == Accepted
    ensures var d := Apply(c, SubmitPacket(pkt, Noon));
      && InFlight(d, base, j + 1) && d.given == c.given + [Stored(c.snd.b, pkt)]
      && d.snd.c == c.snd.c && d.rcv == c.rcv && d.acks == c.acks && d.queue == c.queue
      && (NoMarks(c.snd.b) ==> NoMarks(d.snd.b))
  {
    var d := Apply(c, SubmitPacket(pkt, Noon));
    SubmitSends(c.snd.b, pkt, base, j, Wnd(c.snd.c), Rto(c.snd.c));
    hide SendNext, Wnd, Rto, Transmitted;
    forall m | 0 <= m < base + j + 1 ensures Transmitted(d, m) {
      if m < base + j {
        StillTransmitted(c, d, m);
      } else {
        NewlyTransmitted(c, d, m);
      }
    }
  }

  lemma SendPacket(c: Chan, base: nat, j: nat) returns (d: Chan)
    requires Reachable(c) && InFlight(c, base, j) && j < Wnd(c.snd.c) && j < HALF
    ensures Reachable(d) && InFlight(d, base, j + 1)
    ensures d.snd.c == c.snd.c && d.rcv == c.rcv && d.acks == c.acks && d.queue == c.queue
    ensures NoMarks(c.snd.b) ==> NoMarks(d.snd.b)
  {
    hide Reachable, InFlight, NoMarks, Wnd, Enabled, Apply;
    d := Apply(c, SubmitPacket(PKT, Noon));
    Submitted(c, base, j, PKT);
    OneStep(c, SubmitPacket(PKT, Noon));
  }

  lemma NewlyTransmitted(c: Chan, d: Chan, m: int)
    requires |c.snd.b.tx| < |d.snd.b.tx| && d.snd.b.tx[|c.snd.b.tx|].n == m
    ensures Transmitted(d, m)
  {
  }

  /** A burst of `j` packets. */
  lemma {:induction false} Burst(c: Chan, base: nat, j: nat) returns (d: Chan)
    requires Reachable(c) && InFlight(c, base, 0) && NoMarks(c.snd.b) && j <= Wnd(c.snd.c) && j <= HALF
    ensures Reachable(d) && InFlight(d, base, j) && NoMarks(d.snd.b)
    ensures d.snd.c == c.snd.c && d.rcv == c.rcv && d.acks == c.acks && d.queue == c.queue
  {
    hide Reachable, InFlight, NoMarks, Wnd;
    if j == 0 {
      d := c;
    } else {
      d := Burst(c, base, j - 1);
      d := SendPacket(d, base, j - 1);
    }
  }

  // ---------------------------------------------------------------------------------------
  // Arrivals
  // ---------------------------------------------------------------------------------------

  /** A packet that was sent arrives. */
  lemma Arrived(c: Chan, base: nat, j: nat, n: nat)
    requires InFlight(c, base, j) && n < base + j && c.rcv.next - n <= HALF
    ensures Enabled(c, DeliverData(n))
    ensures var d := Apply(c, DeliverData(n));
      && InFlight(d, base, j) && d.snd == c.snd && d.queue == c.queue && d.given == c.given
      && d.rcv == PktRecv(c.rcv, n, c.given[n].chs)
      && d.acks == if Answered(c.rcv, n, c.given[n].chs) then c.acks + {AckMsg(d.rcv.next - 1, n)} else c.acks
  {
    var d := Apply(c, DeliverData(n));
    hide Held, Answered, PktRecv;
    forall m | 0 <= m < base + j ensures Transmitted(d, m) {
      StillTransmitted(c, d, m);
    }
  }

  lemma Arrive(c: Chan, base: nat, j: nat, n: nat) returns (d: Chan)
    requires Reachable(c) && InFlight(c, base, j) && n < base + j && c.rcv.next - n <= HALF
    ensures Reachable(d) && InFlight(d, base, j) && d.snd == c.snd && d.queue == c.queue && d.given == c.given
    ensures d.rcv == PktRecv(c.rcv, n, c.given[n].chs)
    ensures d.acks == if Answered(c.rcv, n, c.given[n].chs) then c.acks + {AckMsg(d.rcv.next - 1, n)} else c.acks
  {
    hide Reachable, Held, Answered, PktRecv, Transmitted, Enabled, Apply;
    d := Apply(c, DeliverData(n));
    Arrived(c, base, j, n);
    OneStep(c, DeliverData(n));
  }

  /** What the packet the receiver waits for does to it when nothing beyond it has arrived. */
  lemma NextTaken(r: Rcv, n: nat, chs: bool)
    requires r.next == n && r.above == {} && Passes(r, chs)
    ensures PktRecv(r, n, chs) == Rcv(n + 1, {}, true) && Answered(r, n, chs) && AcceptedBy(r, n, chs)
  {
    assert SkipReceived(n, {n}) == n + 1;
  }

  /** The packet the receiver waits for arrives, and nothing beyond it has. */
  lemma ArriveNext(c: Chan, base: nat, j: nat, n: nat) returns (d: Chan)
    requires Reachable(c) && InFlight(c, base, j) && base <= n < base + j
    requires c.rcv.next == n && c.rcv.above == {} && (n > base ==> c.rcv.started)
    ensures Reachable(d) && InFlight(d, base, j) && d.snd == c.snd && d.queue == c.queue
    ensures d.rcv == Rcv(n + 1, {}, true) && d.acks == c.acks + {AckMsg(n, n)}
  {
    d := Arrive(c, base, j, n);
    NextTaken(c.rcv, n, c.given[n].chs);
    hide Reachable, InFlight, PktRecv;
  }

  /** An ack sent earlier arrives, and marks what its slot holds. */
  lemma AckArrived(c: Chan, base: nat, j: nat, m: AckMsg)
    requires InFlight(c, base, j) && m in c.acks && base - 1 - m.a < HALF
    ensures Enabled(c, DeliverAck(m, 0, 0))
    ensures var d := Apply(c, DeliverAck(m, 0, 0));
      && InFlight(d, base, j) && d.given == c.given
      && d.snd.c == c.snd.c && d.rcv == c.rcv && d.acks == c.acks && d.queue == c.queue + [Ack(m.a, m.o, HALF, 0, 0)]
      && d.snd.b == Mark(c.snd.b, SlotOf(c.snd.b, m.o))
  {
    var d := Apply(c, DeliverAck(m, 0, 0));
    hide SlotOf;
    forall n | 0 <= n < base + j ensures Transmitted(d, n) {
      StillTransmitted(c, d, n);
    }
  }

  lemma AckArrives(c: Chan, base: nat, j: nat, m: AckMsg) returns (d: Chan)
    requires Reachable(c) && InFlight(c, base, j) && m in c.acks && base - 1 - m.a < HALF
    ensures Reachable(d) && InFlight(d, base, j)
    ensures d.snd.c == c.snd.c && d.rcv == c.rcv && d.acks == c.acks && d.queue == c.queue + [Ack(m.a, m.o, HALF, 0, 0)]
    ensures d.snd.b == Mark(c.snd.b, SlotOf(c.snd.b, m.o))
  {
    hide Reachable, InFlight, Mark, SlotOf, Enabled, Apply;
    d := Apply(c, DeliverAck(m, 0, 0));
    AckArrived(c, base, j, m);
    OneStep(c, DeliverAck(m, 0, 0));
  }

  // ---------------------------------------------------------------------------------------
  // Round trips
  // ---------------------------------------------------------------------------------------

  /**
   Numbers 0 to `n - 1` have been received and acked, nothing is in flight, and the congestion
   window has grown with each ack, by one up to the threshold.
   */
  ghost predicate Idle(c: Chan, n: nat) {
    && InFlight(c, n, 0) && NoMarks(c.snd.b) && c.queue == []
    && c.rcv.next == n && c.rcv.above == {} && (n > 0 ==> c.rcv.started)
    && Ready(c.snd.c, n)
  }

  /** A congestion window no loss has been seen by. */
  ghost predicate Ready(c: Cong, n: nat) {
    && !InRecovery(c) && c.ssthresh == 16384 && c.window == (if n == 0 then 1 else HALF)
    && (if n <= 16384 then c.cwnd == n as real + 1.0 else c.cwnd >= 16385.0)
  }

  lemma ReadyOpen(c: Cong, n: nat)
    requires Ready(c, n)
    ensures Wnd(c) >= (if n == 0 then 1 else if n <= 16384 then n + 1 else 16385)
  {
  }

  lemma ReadyGrows(c: Cong, n: nat, m: nat, k: Ack)
    requires Ready(c, n) && n < m && (m == n + 1 || n == 16384) && k.window == HALF && k.sentTS == 0
    ensures Ready(Grow(Counted(SetWindow(c, k), k, m - n, false)), m)
  {
    assert 1.0 / c.cwnd > 0.0;
  }

  /** A batch of one ack ahead of lastAcked is that ack. */
  lemma SingleDrain(s: Snd, k: Ack, now: int, clock: Clock)
    requires s.b.lo < k.a <= s.b.lo + HALF
    ensures Drain(s, [k], now, clock) == AckRecv(s, k, now, clock)
  {
    DiffIsDistance(k.a, s.b.lo);
    assert [k][..0] == [] && [k][1..] == [];
    assert MaxNorm([k][..0], s.b.lo) == 0 && MaxNorm([k], s.b.lo) == Norm(k.a, s.b.lo);
    var t := AckRecv(s, k, now, clock);
    hide AckRecv;
    assert Process(t, [k][1..], s.b.lo, Norm(k.a, s.b.lo), now, clock) == t;
  }

  /** An ack of everything in flight empties the buffer. */
  lemma TakeAll(s: Snd, base: nat, j: nat, k: Ack)
    requires Held(s.b, base, j, Rto(s.c)) && 0 < j <= HALF && k == Ack(base - 1 + j, k.o, HALF, 0, 0)
    requires s.started && !InRecovery(s.c)
    ensures var t := AckRecv(s, k, 1, Noon);
      && t.b.lo == t.b.mid == t.b.hi == k.a && t.b.slots == map[] && t.b.tx == s.b.tx && t.dead == s.dead
      && t.c == Grow(Counted(SetWindow(s.c, k), k, j, false))
  {
    var s1 := Acked(s, k, false);
    assert s1.b.slots == map[] && s1.b.lo == s1.b.hi == k.a;
    var c1 := Grow(s1.c);
    assert SendCount(s1.b, Wnd(c1), (2 * j) % CNT) == 0;
    var t := SendFirst(s1.b, 0, Rto(c1), Noon);
    assert t.slots == map[] && t.tx == s1.b.tx;
  }

  /** The ack of everything in flight waits to be drained. */
  ghost predicate AllAnswered(c: Chan, base: nat, j: nat, o: nat) {
    && InFlight(c, base, j) && 0 < j <= HALF && Ready(c.snd.c, base) && (j == 1 || base == 16384)
    && c.rcv.next == base + j && c.rcv.above == {} && c.rcv.started
    && c.queue == [Ack(base - 1 + j, o, HALF, 0, 0)]
  }

  lemma Taken(c: Chan, base: nat, j: nat, o: nat)
    requires AllAnswered(c, base, j, o)
    ensures Enabled(c, DrainAcks(1, Noon))
    ensures var d := Apply(c, DrainAcks(1, Noon)); Idle(d, base + j) && d.acks == c.acks && d.given == c.given
  {
    hide Ready, AckRecv, Drain, Transmitted, Grow, Counted, SetWindow;
    var k, d := Ack(base - 1 + j, o, HALF, 0, 0), Apply(c, DrainAcks(1, Noon));
    SingleDrain(c.snd, k, 1, Noon);
    NotRecovering(c.snd.c, base);
    TakeAll(c.snd, base, j, k);
    ReadyGrows(c.snd.c, base, base + j, k);
    forall m | 0 <= m < base + j ensures Transmitted(d, m) {
      StillTransmitted(c, d, m);
    }
  }

  lemma Take(c: Chan, base: nat, j: nat, o: nat) returns (d: Chan)
    requires Reachable(c) && AllAnswered(c, base, j, o)
    ensures Reachable(d) && Idle(d, base + j) && d.acks == c.acks
  {
    hide Reachable, AllAnswered, Idle, Enabled, Apply;
    d := Apply(c, DrainAcks(1, Noon));
    Taken(c, base, j, o);
    OneStep(c, DrainAcks(1, Noon));
  }

  lemma NotRecovering(c: Cong, n: nat)
    requires Ready(c, n)
    ensures !InRecovery(c)
  {
  }

  lemma RoundTrip(c: Chan, n: nat) returns (d: Chan)
    requires Reachable(c) && Idle(c, n)
    ensures Reachable(d) && Idle(d, n + 1) && d.acks == c.acks + {AckMsg(n, n)}
  {
    hide Reachable, InFlight, Ready, Wnd, Mark, SlotOf;
    ReadyOpen(c.snd.c, n);
    d := SendPacket(c, n, 0);
    d := ArriveNext(d, n, 1, n);
    d := AckArrives(d, n, 1, AckMsg(n, n));
    d := Take(d, n, 1, n);
  }

  /** `k` more round trips. */
  lemma {:induction false} MoreTrips(c: Chan, n: nat, k: nat) returns (d: Chan)
    requires Reachable(c) && Idle(c, n)
    ensures Reachable(d) && Idle(d, n + k)
    ensures c.acks <= d.acks && forall i :: n <= i < n + k ==> AckMsg(i, i) in d.acks
  {
    hide Reachable, Idle;
    if k == 0 {
      d := c;
    } else {
      d := MoreTrips(c, n, k - 1);
      d := RoundTrip(d, n + k - 1);
    }
  }

  /** `n` round trips from the start. */
  lemma Trips(n: nat) returns (c: Chan)
    ensures Reachable(c) && Idle(c, n) && forall i :: 0 <= i < n ==> AckMsg(i, i) in c.acks
  {
    StartReachable();
    assert Idle(InitChan(), 0);
    hide Reachable, Idle;
    c := MoreTrips(InitChan(), 0, n);
  }
}
