/**
 The marks that keep a timeout from sending a packet again: which slot an arriving ack marks, and
 exactly when every packet a timeout passes over has been received.
 */
module Marks {
  import opened SeqNum
  import opened Packets
  import opened SenderModel
  import opened ReceiverModel
  import opened ChannelSystem
  import opened ChannelProofs
  import opened ChannelTheorems

  // ---------------------------------------------------------------------------------------
  // One ack
  // ---------------------------------------------------------------------------------------

  /** No packet in flight, unmarked so far, has the field of `o` one turn of the number space later. */
  predicate MarksRight(b: Buf, o: int) {
    !(o + CNT in b.slots && o + CNT <= b.mid && !b.slots[o + CNT].ackRcvd)
  }

  /**
   recv() marks the packet the ack answers, or nothing once that packet is freed, exactly when no
   unmarked packet in flight shares its field.
   */
  lemma MarkLands(c: Chan, m: AckMsg)
    requires ChanInv(c) && !c.snd.dead && m in c.acks && Young(c, m.a)
    ensures Mark(c.snd.b, SlotOf(c.snd.b, m.o)) == Mark(c.snd.b, m.o) <==> MarksRight(c.snd.b, m.o)
  {
    hide ChanInv, BufInv, SlotOf, Young;
    AnswerInReach(c, m);
    var b, n := c.snd.b, SlotOf(c.snd.b, m.o);
    SlotFound(b, m.o);
    if n in b.slots && b.slots[n].ackRcvd {
      assert b.slots[n := b.slots[n].(ackRcvd := true)] == b.slots;
    }
    if n != m.o && n in b.slots && b.slots[n].sent && !b.slots[n].ackRcvd {
      assert Mark(b, n).slots[n].ackRcvd && !Mark(b, m.o).slots[n].ackRcvd;
    }
  }

  // ---------------------------------------------------------------------------------------
  // Whole runs
  // ---------------------------------------------------------------------------------------

  /** Each packet a timeout passes over has been received. */
  ghost predicate MarksSound(c: Chan) {
    forall n :: n in c.snd.b.slots && c.snd.b.slots[n].ackRcvd ==> Received(c.rcv, n)
  }

  /** If the event delivers an ack, it marks no packet in flight that the receiver lacks. */
  predicate SoundEvent(c: Chan, e: Event) {
    match e
    case DeliverAck(m, _, _) => MarksRight(c.snd.b, m.o) || Received(c.rcv, m.o + CNT)
    case _ => true
  }

  lemma AckMarks(c: Chan, m: AckMsg, sentTS: int, recvTS: int)
    requires ChanInv(c) && Enabled(c, DeliverAck(m, sentTS, recvTS)) && MarksSound(c)
    ensures var e := DeliverAck(m, sentTS, recvTS); MarksSound(Apply(c, e)) <==> SoundEvent(c, e)
  {
    hide ChanInv, BufInv, SlotOf, Young, Received;
    AnswerInReach(c, m);
    SlotFound(c.snd.b, m.o);
    var b, n, d := c.snd.b, SlotOf(c.snd.b, m.o), Apply(c, DeliverAck(m, sentTS, recvTS));
    if n in b.slots && n <= b.mid {
      assert d.snd.b.slots[n].ackRcvd;
    }
  }

  lemma InheritedMarks(c: Chan, d: Chan)
    requires MarksSound(c) && d.rcv == c.rcv && Inherits(c.snd.b, d.snd.b)
    ensures MarksSound(d)
  {
    hide Received;
  }

  lemma SubmitMarks(c: Chan, pkt: Packet, clock: Clock)
    requires MarksSound(c) && UnsentPresent(c.snd.b)
    ensures MarksSound(Apply(c, SubmitPacket(pkt, clock)))
  {
    hide Received;
  }

  lemma DataMarks(c: Chan, n: int)
    requires MarksSound(c) && RcvInv(c.rcv) && 0 <= n < |c.given| && -HALF <= n - c.rcv.next < HALF
    ensures MarksSound(Apply(c, DeliverData(n)))
  {
    PktRecvKeeps(c.rcv, n, c.given[n].chs);
    hide PktRecv, Answered, AcceptedBy, Received;
  }

  lemma DrainMarks(c: Chan, now: int, clock: Clock)
    requires ChanInv(c) && Enabled(c, DrainAcks(now, clock)) && MarksSound(c)
    ensures MarksSound(Apply(c, DrainAcks(now, clock)))
  {
    hide ChanInv, Enabled, Batch, Proper, Process, Inherits, MarksSound;
    DrainBatch(c, now, clock);
    ProcessKeeps(c.snd, c.queue, c.snd.b.lo, MaxNorm(c.queue, c.snd.b.lo), now, clock,
                 c.acks, c.rcv, MaxAck(c.queue, c.snd.b.lo));
    InheritedMarks(c, Apply(c, DrainAcks(now, clock)));
  }

  lemma SweepMarks(c: Chan, now: int, clock: Clock, order: seq<int>)
    requires MarksSound(c)
    ensures MarksSound(Apply(c, TimeoutSweep(now, clock, order)))
  {
    hide Received;
  }

  /** A step leaves the marks sound exactly when it delivers no ack that marks a packet the receiver lacks. */
  lemma MarksStep(c: Chan, e: Event)
    requires ChanInv(c) && Enabled(c, e) && MarksSound(c)
    ensures MarksSound(Apply(c, e)) <==> SoundEvent(c, e)
  {
    match e
    case SubmitPacket(pkt, clock) =>
      LivePresent(c);
      hide ChanInv, MarksSound, Apply;
      SubmitMarks(c, pkt, clock);
    case DeliverData(n) =>
      DeliveredInWindow(c, n);
      hide MarksSound, Apply;
      DataMarks(c, n);
    case DeliverAck(m, sentTS, recvTS) =>
      hide ChanInv, MarksSound, Apply;
      AckMarks(c, m, sentTS, recvTS);
    case DrainAcks(now, clock) =>
      hide ChanInv, MarksSound, Apply;
      DrainMarks(c, now, clock);
    case TimeoutSweep(now, clock, order) =>
      hide ChanInv, MarksSound, Apply;
      SweepMarks(c, now, clock, order);
    case Die(order) =>
  }

  lemma LivePresent(c: Chan)
    requires ChanInv(c) && !c.snd.dead
    ensures UnsentPresent(c.snd.b)
  {
  }

  /**
   In every state of a run each packet a timeout passes over has been received, exactly when no
   ack of the run marked, on arrival, a packet in flight that the receiver did not have.
   */
  lemma SuppressionExact(cs: seq<Chan>, es: seq<Event>)
    requires Run(cs, es)
    ensures (forall i :: 0 <= i < |cs| ==> MarksSound(cs[i]))
      <==> (forall x :: 0 <= x < |es| ==> SoundEvent(cs[x], es[x]))
  {
    forall i | 0 <= i < |es| ensures MarksSound(cs[i]) ==> (MarksSound(cs[i + 1]) <==> SoundEvent(cs[i], es[i])) {
      RunKeeps(cs, es, i);
      hide ChanInv, Enabled, Apply, MarksSound, SoundEvent;
      if MarksSound(cs[i]) {
        MarksStep(cs[i], es[i]);
      }
    }
    assert MarksSound(cs[0]);
    if forall x :: 0 <= x < |es| ==> SoundEvent(cs[x], es[x]) {
      forall i | 0 <= i < |cs| ensures MarksSound(cs[i]) {
        SoundUpTo(cs, es, i);
      }
    } else {
      hide MarksSound, SoundEvent;
      var x :| 0 <= x < |es| && !SoundEvent(cs[x], es[x]);
      assert !(MarksSound(cs[x]) && MarksSound(cs[x + 1]));
    }
  }

  lemma {:induction false} SoundUpTo(cs: seq<Chan>, es: seq<Event>, i: nat)
    requires |cs| == |es| + 1 && i < |cs| && MarksSound(cs[0])
    requires forall x :: 0 <= x < |es| ==> SoundEvent(cs[x], es[x])
    requires forall x :: 0 <= x < |es| ==> MarksSound(cs[x]) ==> (MarksSound(cs[x + 1]) <==> SoundEvent(cs[x], es[x]))
    ensures MarksSound(cs[i])
  {
    hide MarksSound, SoundEvent;
    if i > 0 {
      SoundUpTo(cs, es, i - 1);
    }
  }

  // ---------------------------------------------------------------------------------------
  // A quarter of the number space
  // ---------------------------------------------------------------------------------------

  ghost predicate QuarterFlight(c: Chan) {
    c.snd.b.mid - c.snd.b.lo <= 16384
  }

  /** No ack names a number 16384 or more above the one it answers. */
  ghost predicate ShortSpans(acks: set<AckMsg>) {
    forall m :: m in acks ==> m.a - m.o < 16384
  }

  lemma SpansStep(c: Chan, e: Event)
    requires ChanInv(c) && Enabled(c, e) && QuarterFlight(c) && ShortSpans(c.acks)
    ensures ShortSpans(Apply(c, e).acks)
  {
    if e.DeliverData? {
      DeliveredInWindow(c, e.n);
      var chs := c.given[e.n].chs;
      PktRecvKeeps(c.rcv, e.n, chs);
      var q := PktRecv(c.rcv, e.n, chs);
      assert q.next >= 1 ==> Received(q, q.next - 1);
      hide PktRecv, Cross, Truthful, Faithful, LogInv, Proper;
    } else {
      hide ChanInv, Enabled, Submit, Drain, Timeout, Kill, Mark;
    }
  }

  lemma {:induction false} SpansRun(cs: seq<Chan>, es: seq<Event>, i: nat)
    requires Run(cs, es) && i < |cs|
    requires forall x :: 0 <= x < |cs| ==> QuarterFlight(cs[x])
    ensures ShortSpans(cs[i].acks)
  {
    if i > 0 {
      SpansRun(cs, es, i - 1);
      RunKeeps(cs, es, i - 1);
      hide ChanInv, Enabled, Apply, ShortSpans;
      SpansStep(cs[i - 1], es[i - 1]);
    }
  }

  /** If the event delivers an ack, its mark lands on the packet it answers. */
  predicate RightEvent(c: Chan, e: Event) {
    e.DeliverAck? ==> MarksRight(c.snd.b, e.m.o)
  }

  lemma SpanLands(c: Chan, e: Event)
    requires ChanInv(c) && Enabled(c, e) && QuarterFlight(c) && ShortSpans(c.acks)
    ensures RightEvent(c, e)
  {
    hide ChanInv, Received;
  }

  /**
   In every run with never more than 16384 packets in flight each ack marks the packet it answers,
   and a timeout passes over a packet only if the receiver has it.
   */
  lemma SuppressedIsReceived(cs: seq<Chan>, es: seq<Event>, i: nat, n: int)
    requires Run(cs, es) && i < |cs|
    requires forall x :: 0 <= x < |cs| ==> QuarterFlight(cs[x])
    requires n in cs[i].snd.b.slots && cs[i].snd.b.slots[n].ackRcvd
    ensures forall x :: 0 <= x < |es| ==> RightEvent(cs[x], es[x])
    ensures Received(cs[i].rcv, n)
  {
    forall x | 0 <= x < |es| ensures RightEvent(cs[x], es[x]) && SoundEvent(cs[x], es[x]) {
      SpansRun(cs, es, x);
      RunKeeps(cs, es, x);
      hide ChanInv, Enabled, Apply, ShortSpans, MarksRight;
      SpanLands(cs[x], es[x]);
    }
    SuppressionExact(cs, es);
    assert MarksSound(cs[i]);
  }
}
