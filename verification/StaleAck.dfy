/**
 Late acks over whole runs: without them a marked head always has its ack waiting; with one late
 duplicate of an old ack the sender loses the newest.
 */
module StaleAck {
  import opened SeqNum
  import opened SenderModel
  import opened SenderLaws
  import opened ReceiverModel
  import opened ChannelSystem
  import opened ChannelProofs
  import opened ChannelTheorems
  import opened AckBatch
  import opened RoundTrips

  // ---------------------------------------------------------------------------------------
  // Runs without late acks
  // ---------------------------------------------------------------------------------------

  lemma {:induction false} CleanRun(cs: seq<Chan>, es: seq<Event>, i: nat)
    requires Run(cs, es) && i < |cs|
    requires forall x :: 0 <= x < |es| ==> CleanEvent(cs[x], es[x])
    ensures Clean(cs[i])
  {
    if i > 0 {
      CleanRun(cs, es, i - 1);
      RunKeeps(cs, es, i - 1);
      hide Clean, ChanInv, Apply, Enabled, CleanEvent;
      CleanKept(cs[i - 1], es[i - 1]);
    }
  }

  /**
   In every run in which no ack older than lastAcked arrives, whenever the mark keeps a timeout
   from sending the head again, an ack that covers the head waits in the queue, and the next
   drain moves lastAcked past it. The head it leaves is not hidden either.
   */
  lemma NeverHidden(cs: seq<Chan>, es: seq<Event>, i: nat, now: int, clock: Clock)
    requires Run(cs, es) && i < |cs|
    requires forall x :: 0 <= x < |es| ==> CleanEvent(cs[x], es[x])
    requires Enabled(cs[i], DrainAcks(now, clock))
    ensures var b, t := cs[i].snd.b, Drain(cs[i].snd, cs[i].queue, now, clock).b;
      && (b.lo + 1 in b.slots && b.slots[b.lo + 1].ackRcvd ==> t.lo >= b.lo + 1)
      && !Hidden(t, t.lo + 1)
  {
    hide ChanInv, Drain, Run, Clean, CleanEvent, Ticking, MaxAck;
    CleanRun(cs, es, i);
    RunKeeps(cs, es, i);
    CleanHead(cs[i], now, clock);
  }

  lemma CleanHead(c: Chan, now: int, clock: Clock)
    requires ChanInv(c) && Clean(c) && Enabled(c, DrainAcks(now, clock))
    ensures var b, t := c.snd.b, Drain(c.snd, c.queue, now, clock).b;
      && (b.lo + 1 in b.slots && b.slots[b.lo + 1].ackRcvd ==> t.lo >= b.lo + 1)
      && !Hidden(t, t.lo + 1)
  {
    hide ChanInv, Drain, MarksAccounted, Head, Inherits, BufInv;
    var e := DrainAcks(now, clock);
    if c.snd.b.lo + 1 in c.snd.b.slots && c.snd.b.slots[c.snd.b.lo + 1].ackRcvd {
      MarkedHeadIsCovered(c);
      BatchReachesMax(c, now, clock);
    }
    StepKeeps(c, e);
    CleanKept(c, e);
    DrainSound(c, now, clock);
    var d := Apply(c, e);
    if Hidden(d.snd.b, d.snd.b.lo + 1) {
      MarkedHeadIsCovered(d);
    }
  }

  /**
   In any run, exactly when the head that a drain leaves is hidden, so that no timeout sends it
   again although its acks are spent: when it was held and marked before the drain. `Lands` tells
   from the queue which packet that is.
   */
  lemma HiddenExactly(cs: seq<Chan>, es: seq<Event>, i: nat, now: int, clock: Clock)
    requires Run(cs, es) && i < |cs| && Enabled(cs[i], DrainAcks(now, clock))
    ensures var b, d := cs[i].snd.b, Apply(cs[i], DrainAcks(now, clock));
      var n := Lands(cs[i].queue, b.lo) + 1;
      && d.queue == [] && d.snd.b.lo + 1 == n
      && (Hidden(d.snd.b, n) <==> n in b.slots && b.slots[n].ackRcvd)
  {
    hide ChanInv, Drain, Enabled, Hidden, Lands, Run;
    RunKeeps(cs, es, i);
    HeadHiddenExactly(cs[i], now, clock);
  }

  // ---------------------------------------------------------------------------------------
  // A run that hides the head
  // ---------------------------------------------------------------------------------------

  /** One packet is in flight, it has arrived, and its ack waits behind an older one. */
  ghost predicate BehindOld(c: Chan) {
    && Reachable(c) && InFlight(c, 2, 1) && c.rcv.next == 3
    && c.snd.b.slots[2].ackRcvd && c.queue == [Ack(0, 0, HALF, 0, 0), Ack(2, 2, HALF, 0, 0)]
  }

  lemma LastDrain(c: Chan, d: Chan)
    requires BehindOld(c) && d == Apply(c, DrainAcks(1, Noon))
    ensures Drainable(c, 1, Noon) && Reachable(d)
    ensures d.snd.b.lo == 1 && d.queue == [] && Received(d.rcv, 2)
    ensures 2 in d.snd.b.slots && forall later :: Resent(d.snd.b, later) == {}
  {
    TwoAcks(c.queue[0], c.queue[1]);
    ReachableKeeps(c);
    OneStep(c, DrainAcks(1, Noon));
    hide ChanInv, Reachable, Drain, MaxAck;
    OldAckHidesHead(c, 1, Noon, Ack(0, 0, HALF, 0, 0), Ack(2, 2, HALF, 0, 0));
  }

  lemma TwoAcks(late: Ack, k: Ack)
    requires late.a == 0 && k.a == 2
    ensures MaxAck([late, k], 1) == 2
  {
    assert [late, k][..1] == [late] && [late][..0] == [];
    assert MaxAck([late], 1) == 1;
  }

  /**
   Packets 0 and 1 make their round trip; packet 2 is sent and received. A duplicate of the ack
   of packet 0 and then the ack of packet 2 arrive before the queue is drained. lastAcked stays
   at 1 although 2 was named, the ack of packet 2 is spent, and no timeout sends it again.
   */
  lemma StaleAckRun() returns (c: Chan, d: Chan)
    ensures Reachable(c) && Reachable(d) && Drainable(c, 1, Noon) && d == Apply(c, DrainAcks(1, Noon))
    ensures c.snd.b.lo == 1 && MaxAck(c.queue, 1) == 2
    ensures d.snd.b.lo == 1 && d.queue == [] && Received(d.rcv, 2)
    ensures 2 in d.snd.b.slots && forall later :: Resent(d.snd.b, later) == {}
  {
    hide Reachable, Drainable, Apply, MaxAck, Wnd, Ready, Transmitted;
    c := Trips(2);
    ReadyOpen(c.snd.c, 2);
    c := SendPacket(c, 2, 0);
    c := ArriveNext(c, 2, 1, 2);
    c := AckArrives(c, 2, 1, AckMsg(0, 0));
    c := AckArrives(c, 2, 1, AckMsg(2, 2));
    assert c.queue == [Ack(0, 0, HALF, 0, 0), Ack(2, 2, HALF, 0, 0)];
    d := Apply(c, DrainAcks(1, Noon));
    LastDrain(c, d);
    TwoAcks(c.queue[0], c.queue[1]);
  }

  // ---------------------------------------------------------------------------------------
  // A run that uncovers a hidden head
  // ---------------------------------------------------------------------------------------

  /** The acks of the batch: an old one, and three newer. */
  function MixedQueue(): seq<Ack> {
    [Ack(0, 0, HALF, 0, 0), Ack(3, 3, HALF, 0, 0), Ack(3, 1, HALF, 0, 0), Ack(4, 4, HALF, 0, 0)]
  }

  lemma MixedLands()
    ensures Lands(MixedQueue(), 2) == 3 && MaxAck(MixedQueue(), 2) == 4
  {
    var q := MixedQueue();
    assert q[0] in q && q[3] in q;
    assert HasLate(q, 2) && NewestLate(q, 2) == 0;
    assert q[1..][1..] == q[2..] && q[2..][1..] == q[3..] && q[3..][1..] == [];
    assert Walk(q[3..], 2, 0, 3) == 3;
    assert Walk(q[2..], 2, 0, 2) == 3;
    assert Walk(q[1..], 2, 0, 2) == 3;
  }

  /** Packets 3 and 4 are in flight and have arrived, and so have the acks of the batch. */
  ghost predicate MixedState(c: Chan) {
    && Reachable(c) && InFlight(c, 3, 2) && c.rcv.next == 5
    && c.snd.b.slots[4].ackRcvd && c.queue == MixedQueue()
  }

  lemma Mixed() returns (c: Chan)
    ensures MixedState(c)
  {
    hide Reachable, Wnd, Ready, Transmitted;
    c := Trips(3);
    ReadyOpen(c.snd.c, 3);
    c := SendPacket(c, 3, 0);
    c := SendPacket(c, 3, 1);
    c := ArriveNext(c, 3, 2, 3);
    c := Arrive(c, 3, 2, 1);
    c := ArriveNext(c, 3, 2, 4);
    c := AckArrives(c, 3, 2, AckMsg(0, 0));
    c := AckArrives(c, 3, 2, AckMsg(3, 3));
    c := AckArrives(c, 3, 2, AckMsg(3, 1));
    c := AckArrives(c, 3, 2, AckMsg(4, 4));
    assert c.queue == MixedQueue();
  }

  lemma MixedDrain(c: Chan)
    requires MixedState(c)
    ensures var d := Apply(c, DrainAcks(1, Noon));
      && Drainable(c, 1, Noon) && Reachable(d) && c.snd.b.lo == 2 && MaxAck(c.queue, 2) == 4
      && d.snd.b.lo == 3 && d.queue == [] && Received(d.rcv, 4) && Hidden(d.snd.b, 4)
  {
    hide ChanInv, Reachable, Drain, MaxAck, Lands, Hidden, Transmitted;
    MixedLands();
    ReachableKeeps(c);
    OneStep(c, DrainAcks(1, Noon));
    HeadHiddenExactly(c, 1, Noon);
  }

  /**
   Packets 0 to 2 make their round trip; 3 and 4 are sent and received, and between them a
   duplicate of 1. The sender gets a duplicate of the ack of packet 0 and then the three new acks.
   The one that answers packet 1 is handed on and takes lastAcked to 3; the ack of packet 4 is
   passed over and spent, and packet 4, the new head, is hidden.
   */
  lemma UncoveredRun() returns (c: Chan, d: Chan)
    ensures Reachable(c) && Reachable(d) && Drainable(c, 1, Noon) && d == Apply(c, DrainAcks(1, Noon))
    ensures c.snd.b.lo == 2 && MaxAck(c.queue, 2) == 4
    ensures d.snd.b.lo == 3 && d.queue == [] && Received(d.rcv, 4) && Hidden(d.snd.b, 4)
  {
    hide Reachable, Drainable, Apply, MaxAck, Hidden, InFlight;
    c := Mixed();
    d := Apply(c, DrainAcks(1, Noon));
    MixedDrain(c);
  }
}
