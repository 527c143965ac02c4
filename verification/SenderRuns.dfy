/** What the timers and the window come to over whole runs. */
module SenderRuns {
  import opened SenderModel
  import opened SenderLaws
  import opened SenderEffects
  import opened ChannelSystem
  import opened ChannelTheorems

  // ---------------------------------------------------------------------------------------
  // The head is sent again
  // ---------------------------------------------------------------------------------------

  lemma HeldFaithful(c: Chan)
    requires ChanInv(c) && !c.snd.dead
    ensures SndInv(c.snd) && forall n :: n in c.snd.b.slots ==> 0 <= n < |c.given| && c.snd.b.slots[n].pkt == c.given[n]
  {
  }

  /** The timer of the packet right above lastAcked has run out, and no ack has marked it. */
  predicate HeadDue(b: Buf, now: int) {
    var n := b.lo + 1;
    n in b.slots && b.slots[n].time + b.slots[n].rto <= now && !b.slots[n].ackRcvd
  }

  /**
   In any run, once the timer of the lowest packet not acked has run out, a sweep sends the packet
   again, unless it is marked: the transmissions of the sweep hold the packet as it was submitted,
   and the window falls to one packet.
   */
  lemma HeadTimesOut(cs: seq<Chan>, es: seq<Event>, i: nat, now: int, clock: Clock, order: seq<int>)
    requires Run(cs, es) && i < |cs| && Enabled(cs[i], TimeoutSweep(now, clock, order))
    requires cs[i].snd.b.lo < cs[i].snd.b.hi && HeadDue(cs[i].snd.b, now)
    ensures var b, d := cs[i].snd.b, Apply(cs[i], TimeoutSweep(now, clock, order));
      && 0 <= b.lo + 1 < |cs[i].given|
      && (exists x :: |b.tx| <= x < |d.snd.b.tx| && d.snd.b.tx[x] == Tx(b.lo + 1, cs[i].given[b.lo + 1]))
      && d.snd.c.cwnd == 1.0
  {
    hide ChanInv, Apply, Run, HeadDue, Enumerates, Resent, Fatal;
    NothingStalls(cs, es, i);
    RunKeeps(cs, es, i);
    HeadSwept(cs[i], now, clock, order);
  }

  lemma HeadSwept(c: Chan, now: int, clock: Clock, order: seq<int>)
    requires ChanInv(c) && Enabled(c, TimeoutSweep(now, clock, order))
    requires HeadDue(c.snd.b, now) && c.snd.b.slots[c.snd.b.lo + 1].time > 0
    ensures var b, d := c.snd.b, Apply(c, TimeoutSweep(now, clock, order));
      && 0 <= b.lo + 1 < |c.given|
      && (exists x :: |b.tx| <= x < |d.snd.b.tx| && d.snd.b.tx[x] == Tx(b.lo + 1, c.given[b.lo + 1]))
      && d.snd.c.cwnd == 1.0
  {
    hide ChanInv, Timeout, Enumerates, Resent, Fatal, HeadDue, Ticking;
    HeldFaithful(c);
    HeadGoesOut(c.snd, now, clock, order);
    var n, d := c.snd.b.lo + 1, Apply(c, TimeoutSweep(now, clock, order));
    assert n in c.snd.b.slots && c.snd.b.slots[n].pkt == c.given[n];
    var x :| |c.snd.b.tx| <= x < |d.snd.b.tx| && d.snd.b.tx[x] == Tx(n, c.snd.b.slots[n].pkt);
    assert d.snd.b.tx[x] == Tx(n, c.given[n]);
  }

  lemma HeadGoesOut(s: Snd, now: int, clock: Clock, order: seq<int>)
    requires Enumerates(order, Resent(s.b, now)) && HeadDue(s.b, now) && s.b.slots[s.b.lo + 1].time > 0
    ensures var t, n := Timeout(s, now, clock, order), s.b.lo + 1;
      && n in s.b.slots && t.c.cwnd == 1.0
      && exists x :: |s.b.tx| <= x < |t.b.tx| && t.b.tx[x] == Tx(n, s.b.slots[n].pkt)
  {
    TimeoutEffect(s, now, clock, order);
    hide Timeout, Enumerates, Resent, SweptSlot, Wnd, Rto;
    var n, t := s.b.lo + 1, Timeout(s, now, clock, order);
    assert n in order;
    var i :| 0 <= i < |order| && order[i] == n;
    assert t.b.tx[|s.b.tx| + i] == Tx(n, s.b.slots[n].pkt);
  }

  // ---------------------------------------------------------------------------------------
  // The window stays shut
  // ---------------------------------------------------------------------------------------

  /** Something is in flight and the window lets nothing more out. */
  ghost predicate Shut(c: Chan, mid: int) {
    c.snd.b.mid == mid && (c.snd.dead || (c.snd.b.lo < mid && c.snd.c.cwnd == 1.0))
  }

  lemma ShutStays(c: Chan, e: Event, mid: int)
    requires ChanInv(c) && Enabled(c, e) && Shut(c, mid) && !e.DrainAcks?
    ensures Shut(Apply(c, e), mid)
  {
    match e
    case SubmitPacket(pkt, clock) =>
      HeldFaithful(c);
      WindowExact(c.snd.c, 2);
      hide ChanInv, Submit, Wnd, SubmitCodeOf, SndInv;
      SubmitEffect(c.snd, pkt, clock);
    case DeliverData(n) =>
    case DeliverAck(m, sentTS, recvTS) =>
    case TimeoutSweep(now, clock, order) =>
    case Die(order) =>
  }

  lemma RunStep(cs: seq<Chan>, es: seq<Event>, k: nat)
    requires Run(cs, es)
    ensures |cs| == |es| + 1
    ensures k < |es| ==> ChanInv(cs[k]) && Enabled(cs[k], es[k]) && cs[k + 1] == Apply(cs[k], es[k])
  {
    hide ChanInv, Enabled, Apply;
    if k < |es| {
      RunKeeps(cs, es, k);
    }
  }

  lemma {:induction false} ShutUntil(cs: seq<Chan>, es: seq<Event>, i: nat, j: nat, mid: int)
    requires Run(cs, es) && i <= j < |cs| && Shut(cs[i], mid)
    requires forall x :: i <= x < j ==> !es[x].DrainAcks?
    ensures Shut(cs[j], mid)
  {
    hide ChanInv, Enabled, Apply, Shut, Run;
    if i < j {
      RunStep(cs, es, j - 1);
      ShutUntil(cs, es, i, j - 1, mid);
      ShutStays(cs[j - 1], es[j - 1], mid);
    }
  }

  /**
   In any run, after a sweep that sent something again no packet goes out for the first time until
   acks are drained.
   */
  lemma NothingNewAfterTimeout(cs: seq<Chan>, es: seq<Event>, i: nat, j: nat)
    requires Run(cs, es) && i < j < |cs| && es[i].TimeoutSweep? && es[i].order != []
    requires forall x :: i < x < j ==> !es[x].DrainAcks?
    ensures cs[j].snd.b.mid == cs[i].snd.b.mid
    ensures !cs[j].snd.dead ==> cs[j].snd.c.cwnd == 1.0
  {
    RunKeeps(cs, es, i);
    SweepShuts(cs[i], es[i]);
    hide ChanInv, Enabled, Apply;
    ShutUntil(cs, es, i + 1, j, cs[i].snd.b.mid);
  }

  lemma SweepShuts(c: Chan, e: Event)
    requires ChanInv(c) && Enabled(c, e) && e.TimeoutSweep? && e.order != []
    ensures Shut(Apply(c, e), c.snd.b.mid)
  {
    assert e.order[0] in Resent(c.snd.b, e.now);
    assert SlotInv(c.snd.b, e.order[0]);
  }
}
