/** What holds in every run of a channel. */
module ChannelTheorems {
  import opened SeqNum
  import opened SenderModel
  import opened SenderLaws
  import opened ReceiverModel
  import opened ChannelSystem
  import opened ChannelProofs

  ghost predicate Run(cs: seq<Chan>, es: seq<Event>) {
    && |cs| == |es| + 1
    && cs[0] == InitChan()
    && (forall i :: 0 <= i < |es| ==> Enabled(cs[i], es[i]) && cs[i + 1] == Apply(cs[i], es[i]))
  }

  lemma {:induction false} RunKeeps(cs: seq<Chan>, es: seq<Event>, i: nat)
    requires Run(cs, es) && i < |cs|
    ensures ChanInv(cs[i])
  {
    if i == 0 {
      InitKeeps();
    } else {
      RunKeeps(cs, es, i - 1);
      hide ChanInv, Apply, Enabled;
      StepKeeps(cs[i - 1], es[i - 1]);
    }
  }

  // ---------------------------------------------------------------------------------------
  // Delivery
  // ---------------------------------------------------------------------------------------

  /**
   Over any number of wraps: the receiver accepts each submitted packet at most once, under its
   own number; expectedSeq is the first number not accepted; what is accepted beyond it is what
   the bit map remembers.
   */
  lemma ExactlyOnce(cs: seq<Chan>, es: seq<Event>, i: nat)
    requires Run(cs, es) && i < |cs|
    ensures var c := cs[i];
      && (forall j, k :: 0 <= j < k < |c.log| ==> c.log[j] != c.log[k])
      && (forall n :: n in c.log ==> 0 <= n < |c.given|)
      && (forall n :: 0 <= n < c.rcv.next ==> n in c.log)
      && c.rcv.next !in c.log
      && (forall n :: n in c.rcv.above <==> n in c.log && n > c.rcv.next)
  {
    RunKeeps(cs, es, i);
    var c := cs[i];
    forall n | n in c.log ensures 0 <= n < |c.given| {
      assert Received(c.rcv, n);
    }
  }

  /** A packet on the wire under number `n` is the one submitted as number `n`, first time or again. */
  lemma WireCarriesSubmission(cs: seq<Chan>, es: seq<Event>, i: nat, j: nat)
    requires Run(cs, es) && i < |cs| && j < |cs[i].snd.b.tx|
    ensures var x := cs[i].snd.b.tx[j]; 0 <= x.n < |cs[i].given| && x.pkt == cs[i].given[x.n]
  {
    RunKeeps(cs, es, i);
  }

  // ---------------------------------------------------------------------------------------
  // The sender never loses its head
  // ---------------------------------------------------------------------------------------

  /**
   Whatever has been sent, lost, repeated or reordered: if anything is buffered and not yet
   cumulatively acked, the lowest such packet is held, has been sent, and has a running timer.
   */
  lemma NothingStalls(cs: seq<Chan>, es: seq<Event>, i: nat)
    requires Run(cs, es) && i < |cs| && !cs[i].snd.dead
    ensures var b := cs[i].snd.b;
      b.lo < b.hi ==>
        b.lo + 1 <= b.mid && b.lo + 1 in b.slots
        && b.slots[b.lo + 1].sent && b.slots[b.lo + 1].time > 0 && b.slots[b.lo + 1].rto > 0
  {
    RunKeeps(cs, es, i);
    var b := cs[i].snd.b;
    if b.lo < b.hi {
      assert SlotInv(b, b.lo + 1);
    }
  }

  /**
   No ack that the receiver has ever sent, handled while it is less than 2^15 behind lastAcked,
   can take the head of the flight out of the buffer: after it the lowest packet in flight is
   still held, has been sent, and has a running timer.
   */
  lemma AcksSpareHead(cs: seq<Chan>, es: seq<Event>, i: nat, k: Ack, now: int, clock: Clock)
    requires Run(cs, es) && i < |cs| && !cs[i].snd.dead
    requires AckMsg(k.a, k.o) in cs[i].acks && k.window == HALF && 0 <= k.sentTS <= k.recvTS
    requires Young(cs[i], k.a) && Ticking(clock) && now > 0
    ensures AckUsable(cs[i].snd.b, k)
    ensures var t := AckRecv(cs[i].snd, k, now, clock).b;
      && (t.lo + 1 in t.slots <==> t.lo < t.mid)
      && (t.lo < t.mid ==> t.slots[t.lo + 1].sent && t.slots[t.lo + 1].time > 0 && t.slots[t.lo + 1].rto > 0)
      && (t.lo == t.mid ==> t.hi == t.mid)
  {
    RunKeeps(cs, es, i);
    AckUsableNow(cs[i], k);
    hide Run, ChanInv, AckUsable, AckRecv;
    LiveSender(cs[i]);
    AckRecvKeeps(cs[i].snd, k, now, clock);
    HeadHeld(AckRecv(cs[i].snd, k, now, clock));
  }

  lemma AckUsableNow(c: Chan, k: Ack)
    requires ChanInv(c) && !c.snd.dead
    requires AckMsg(k.a, k.o) in c.acks && k.window == HALF && 0 <= k.sentTS <= k.recvTS && Young(c, k.a)
    ensures AckUsable(c.snd.b, k)
  {
    assert k.a >= 0 ==> Received(c.rcv, k.a);
    AckIsUsable(c.snd.b, k, c.acks, c.rcv);
  }

  lemma LiveSender(c: Chan)
    requires ChanInv(c) && !c.snd.dead
    ensures SndInv(c.snd)
  {
  }

  lemma HeadHeld(s: Snd)
    requires SndInv(s)
    ensures var t := s.b;
      && (t.lo + 1 in t.slots <==> t.lo < t.mid)
      && (t.lo < t.mid ==> t.slots[t.lo + 1].sent && t.slots[t.lo + 1].time > 0 && t.slots[t.lo + 1].rto > 0)
      && (t.lo == t.mid ==> t.hi == t.mid)
  {
    assert s.b.lo + 1 in s.b.slots ==> SlotInv(s.b, s.b.lo + 1);
  }

  /** The head slot is missing only when nothing is in flight. */
  lemma HeadFreedOnlyWhenIdle(cs: seq<Chan>, es: seq<Event>, i: nat)
    requires Run(cs, es) && i < |cs| && !cs[i].snd.dead
    ensures var b := cs[i].snd.b; b.lo + 1 !in b.slots <==> b.lo == b.mid && b.hi == b.mid
  {
    RunKeeps(cs, es, i);
    var b := cs[i].snd.b;
    assert b.lo + 1 in b.slots ==> SlotInv(b, b.lo + 1);
  }

  // ---------------------------------------------------------------------------------------
  // Half of the number space
  // ---------------------------------------------------------------------------------------

  /**
   At most 32768 numbers are outstanding, so the slot a new packet takes is empty, and every
   first transmission reaches the receiver in the half of the number space it takes as new.
   */
  lemma HalfWindow(cs: seq<Chan>, es: seq<Event>, i: nat)
    requires Run(cs, es) && i < |cs| && !cs[i].snd.dead
    ensures var c := cs[i]; var b := c.snd.b;
      && b.hi - b.lo <= HALF
      && (SubmitCodeOf(c.snd) == Accepted ==> forall n :: n in b.slots ==> Wire(n) != Wire(b.hi + 1))
      && (forall n :: 0 <= n <= b.mid && !Received(c.rcv, n) ==> Ahead(c.rcv, n))
  {
    RunKeeps(cs, es, i);
    FreeSlot(cs[i].snd);
    hide Run, Wire, SubmitCodeOf, SndSide;
  }

  lemma FreeSlot(s: Snd)
    requires SndInv(s)
    ensures s.b.hi - s.b.lo <= HALF
    ensures SubmitCodeOf(s) == Accepted ==> forall n :: n in s.b.slots ==> Wire(n) != Wire(s.b.hi + 1)
  {
    forall n | n in s.b.slots && SubmitCodeOf(s) == Accepted ensures Wire(n) != Wire(s.b.hi + 1) {
      assert SlotInv(s.b, n);
    }
  }

  /**
   A packet in flight that arrives, for the first time or again, is answered exactly when it lies
   fewer than 16384 below expectedSeq. With at most 16383 packets in flight that is always the case.
   The ack covers the packet exactly when the packet is not above expectedSeq; above a gap it names
   the number before the gap and only answers the packet.
   */
  lemma RetransmissionAnswered(cs: seq<Chan>, es: seq<Event>, i: nat, n: int, chs: bool)
    requires Run(cs, es) && i < |cs|
    requires cs[i].snd.b.lo < n <= cs[i].snd.b.mid && Passes(cs[i].rcv, chs)
    ensures var c := cs[i]; var b := c.snd.b; var a := PktRecv(c.rcv, n, chs).next - 1;
      && (Answered(c.rcv, n, chs) <==> c.rcv.next - n < 16384)
      && (n <= c.rcv.next && Answered(c.rcv, n, chs) ==> a >= n)
      && (n > c.rcv.next ==> a == c.rcv.next - 1 && PktRecv(c.rcv, n, chs).above == c.rcv.above + {n})
      && (b.mid - b.lo <= 16383 ==> Answered(c.rcv, n, chs))
    ensures 0 <= n < |cs[i].given| && chs == cs[i].given[n].chs && Answered(cs[i].rcv, n, chs) ==>
      AckMsg(PktRecv(cs[i].rcv, n, chs).next - 1, n) in Apply(cs[i], DeliverData(n)).acks
  {
    RunKeeps(cs, es, i);
    var c := cs[i];
    assert c.rcv.next >= 1 ==> Received(c.rcv, c.rcv.next - 1);
    if Ahead(c.rcv, n) {
      PktRecvKeeps(c.rcv, n, chs);
      assert Received(PktRecv(c.rcv, n, chs), n);
    }
  }

  // ---------------------------------------------------------------------------------------
  // Congestion window
  // ---------------------------------------------------------------------------------------

  /** In every reachable state the recovery machine is in range and covers part of the flight. */
  lemma RecoveryInRange(cs: seq<Chan>, es: seq<Event>, i: nat)
    requires Run(cs, es) && i < |cs| && !cs[i].snd.dead
    ensures var c := cs[i].snd.c; var b := cs[i].snd.b;
      && 1.0 <= c.cwnd <= 32768.0 && 2 <= c.ssthresh <= 16384 && 1 <= Wnd(c) <= HALF
      && (InRecovery(c) ==> 0 < c.recover == c.recIdx - b.lo <= b.mid - b.lo)
      && (!InRecovery(c) ==> c.recover == 0)
  {
    RunKeeps(cs, es, i);
    WindowOpen(cs[i].snd.c, cs[i].snd.b.lo, cs[i].snd.b.mid);
  }

  /** The congestion state that governs what an ack lets out: a later partial ack sends first and deflates after. */
  function Governing(s: Snd, k: Ack, t: Snd): Cong {
    if Fresh(s.b, k) && Partial(s, k) then Acked(s, k, true).c else t.c
  }

  lemma SentWithinWindow(b: Buf, wnd: int, cnt: int, rto: int, clock: Clock)
    ensures var t := SendNext(b, wnd, cnt, rto, clock); t.lo == b.lo && (t.mid > b.mid ==> t.mid - t.lo <= wnd)
  {
  }

  /** An ack lets new data out only up to the smaller of the peer's window and the rounded cwnd. */
  lemma AckSendsWithinWindow(s: Snd, k: Ack, now: int, clock: Clock)
    ensures var t := AckRecv(s, k, now, clock);
      t.b.mid > s.b.mid ==> t.b.mid - t.b.lo <= Wnd(Governing(s, k, t))
  {
    if s.started && Fresh(s.b, k) {
      var s1, cnt := Acked(s, k, Partial(s, k)), k.a - s.b.lo;
      if Partial(s, k) {
        SentWithinWindow(RestartTimers(s1.b, s1.c.recover, now), Wnd(s1.c), 1, Rto(s1.c), clock);
      } else {
        var c1 := Grow(s1.c);
        SentWithinWindow(s1.b, Wnd(c1), (2 * cnt) % CNT, Rto(c1), clock);
      }
    } else if s.started && k.a == s.b.lo && s.b.lo != s.b.mid {
      var c1 := CountDup(SetWindow(s.c, k));
      var c2 := if InRecovery(c1) then Inflate(c1) else c1;
      SentWithinWindow(FreeOrig(s.b, k), Wnd(c2), 1, Rto(c2), clock);
    }
    hide SendNext, SendCount;
  }
}
