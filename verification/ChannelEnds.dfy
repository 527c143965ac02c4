/** What a channel looks like from its two ends: packets go in, packets come out, none vanishes in between. */
module ChannelEnds {
  import opened Packets
  import opened SenderModel
  import opened SenderLaws
  import opened ReceiverModel
  import opened ChannelSystem
  import opened ChannelProofs
  import opened AckBatch

  /** The numbers of the packets still held from `n` up, start markers left out, in order. */
  function KeysFrom(b: Buf, n: int): seq<int>
    decreases b.hi - n
  {
    if n > b.hi then []
    else (if n in b.slots && !b.slots[n].pkt.csn then [n] else []) + KeysFrom(b, n + 1)
  }

  lemma {:induction false} KeysFromExact(b: Buf, n: int)
    ensures var keys := KeysFrom(b, n);
      && (forall m :: m in keys <==> n <= m <= b.hi && m in b.slots && !b.slots[m].pkt.csn)
      && (forall i, j :: 0 <= i < j < |keys| ==> keys[i] < keys[j])
    decreases b.hi - n
  {
    if n <= b.hi {
      KeysFromExact(b, n + 1);
      Prepended(n, KeysFrom(b, n + 1));
    }
  }

  lemma Prepended(n: int, rest: seq<int>)
    requires forall m :: m in rest ==> n < m
    requires forall i, j :: 0 <= i < j < |rest| ==> rest[i] < rest[j]
    ensures var keys := [n] + rest;
      && (forall m :: m in keys <==> m == n || m in rest)
      && (forall i, j :: 0 <= i < j < |keys| ==> keys[i] < keys[j])
  {
    var keys := [n] + rest;
    forall i, j | 0 <= i < j < |keys| ensures keys[i] < keys[j] {
      assert rest[j - 1] in rest;
    }
  }

  /**
   getUndeliveredPackets moves the packet of every slot still held exactly once, start markers
   excepted, lowest number first.
   */
  lemma {:induction false} UndeliveredExact(b: Buf, n: int)
    ensures var keys := KeysFrom(b, n);
      && (forall m :: m in keys <==> n <= m <= b.hi && m in b.slots && !b.slots[m].pkt.csn)
      && (forall i, j :: 0 <= i < j < |keys| ==> keys[i] < keys[j])
      && |UndeliveredFrom(b, n)| == |keys|
      && (forall i :: 0 <= i < |keys| ==> keys[i] in b.slots && UndeliveredFrom(b, n)[i] == b.slots[keys[i]].pkt)
    decreases b.hi - n
  {
    KeysFromExact(b, n);
    if n <= b.hi {
      UndeliveredExact(b, n + 1);
    }
  }

  lemma UndeliveredHas(b: Buf, n: int)
    requires n in b.slots && b.lo < n <= b.hi && !b.slots[n].pkt.csn
    ensures b.slots[n].pkt in Undelivered(b)
  {
    UndeliveredExact(b, b.lo + 1);
    var keys := KeysFrom(b, b.lo + 1);
    var i :| 0 <= i < |keys| && keys[i] == n;
    assert Undelivered(b)[i] == b.slots[n].pkt;
  }

  lemma UndeliveredFromGiven(c: Chan, p: Packet)
    requires ChanInv(c) && p in Undelivered(c.snd.b)
    ensures p in c.given
  {
    UndeliveredExact(c.snd.b, c.snd.b.lo + 1);
    var keys := KeysFrom(c.snd.b, c.snd.b.lo + 1);
    var i :| 0 <= i < |Undelivered(c.snd.b)| && Undelivered(c.snd.b)[i] == p;
    assert keys[i] in keys && p == c.given[keys[i]];
  }

  /** A live channel still holds a packet it was given, or the receiver has it. */
  lemma HeldOrReceived(c: Chan, n: int)
    requires ChanInv(c) && !c.snd.dead && 0 <= n < |c.given|
    ensures n in c.snd.b.slots || Received(c.rcv, n)
    ensures n in c.snd.b.slots ==> c.snd.b.slots[n].pkt == c.given[n] && c.snd.b.lo < n <= c.snd.b.hi
  {
    var b := c.snd.b;
    assert n in b.slots ==> SlotInv(b, n);
    if n !in b.slots && b.lo < n <= b.mid {
      var m :| m in c.acks && m.o == n && m.a <= b.lo;
      assert Received(c.rcv, m.o);
    }
    assert UnsentPresent(b);
  }

  /** A packet handed over is the only one a channel gains, and is gained exactly when it is accepted. */
  lemma SubmitOutside(c: Chan, pkt: Packet, clock: Clock)
    requires ChanInv(c) && !c.snd.dead && Ticking(clock)
    ensures var d := Apply(c, SubmitPacket(pkt, clock));
      && ChanInv(d) && d.rcv == c.rcv && !d.snd.dead
      && d.given == (if SubmitCodeOf(c.snd) == Accepted then c.given + [Stored(c.snd.b, pkt)] else c.given)
  {
    StepKeeps(c, SubmitPacket(pkt, clock));
    hide ChanInv;
  }

  /** The steps of a channel in which nothing is handed over and the channel does not die. */
  predicate Internal(e: Event) {
    e.DeliverData? || e.DeliverAck? || e.DrainAcks? || e.TimeoutSweep?
  }

  lemma DrainAdvances(c: Chan, now: int, clock: Clock)
    requires ChanInv(c) && Enabled(c, DrainAcks(now, clock))
    ensures var t := Drain(c.snd, c.queue, now, clock); t.b.hi == c.snd.b.hi && t.b.lo >= c.snd.b.lo && !t.dead
  {
    hide ChanInv, Enabled, Drain, BufInv, Head;
    DrainSound(c, now, clock);
  }

  /**
   In any other step a channel gains no packet, stays as alive as it was, and its receiver
   takes at most one: the one delivered, when it is accepted.
   */
  lemma InternalOutside(c: Chan, e: Event)
    requires ChanInv(c) && Enabled(c, e) && Internal(e)
    ensures var d := Apply(c, e);
      && ChanInv(d) && d.given == c.given && d.snd.dead == c.snd.dead
      && d.snd.b.hi == c.snd.b.hi && d.snd.b.lo >= c.snd.b.lo
      && (!e.DeliverData? ==> d.rcv == c.rcv)
    ensures e.DeliverData? ==>
      && 0 <= e.n < |c.given|
      && var chs := c.given[e.n].chs;
         && (AcceptedBy(c.rcv, e.n, chs) <==> Received(Apply(c, e).rcv, e.n) && !Received(c.rcv, e.n))
         && (forall m :: Received(Apply(c, e).rcv, m) ==> Received(c.rcv, m) || m == e.n)
         && (forall m :: Received(c.rcv, m) ==> Received(Apply(c, e).rcv, m))
  {
    StepKeeps(c, e);
    match e
    case DeliverData(n) =>
      DeliveredInWindow(c, n);
      PktRecvKeeps(c.rcv, n, c.given[n].chs);
      hide PktRecv, AcceptedBy;
    case DeliverAck(m, sentTS, recvTS) => hide ChanInv;
    case DrainAcks(now, clock) =>
      DrainAdvances(c, now, clock);
      hide Drain, ChanInv, Enabled;
    case TimeoutSweep(now, clock, order) => hide ChanInv;
  }

  /** When a channel dies its receiver is untouched and keeps what it has been given. */
  lemma DeathOutside(c: Chan, order: seq<int>)
    requires ChanInv(c) && Enabled(c, Die(order))
    ensures var d := Apply(c, Die(order)); ChanInv(d) && d.given == c.given && d.rcv == c.rcv && d.snd.dead
  {
    StepKeeps(c, Die(order));
    hide ChanInv;
  }
}
