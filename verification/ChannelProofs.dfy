/** Every step of a channel keeps the joint invariant. */
module ChannelProofs {
  import opened SeqNum
  import opened Packets
  import opened SenderModel
  import opened SenderLaws
  import opened ReceiverModel
  import opened ChannelSystem

  // ---------------------------------------------------------------------------------------
  // Packet contents
  // ---------------------------------------------------------------------------------------

  /** `t` follows `b`: its slots and new transmissions hold packets of `b`, and nothing unsays a transmission. */
  ghost predicate Inherits(b: Buf, t: Buf) {
    && t.hi == b.hi && b.mid <= t.mid
    && (forall n :: n in t.slots ==>
          n in b.slots && t.slots[n].pkt == b.slots[n].pkt && t.slots[n].ackRcvd == b.slots[n].ackRcvd)
    && |b.tx| <= |t.tx|
    && (forall i :: 0 <= i < |b.tx| ==> t.tx[i] == b.tx[i])
    && (forall i :: |b.tx| <= i < |t.tx| ==>
          t.tx[i].n in b.slots && t.tx[i].n <= t.mid && t.tx[i].pkt == b.slots[t.tx[i].n].pkt)
  }

  lemma InheritsTransitive(b: Buf, t: Buf, u: Buf)
    requires Inherits(b, t) && Inherits(t, u)
    ensures Inherits(b, u)
  {
    forall i | 0 <= i < |u.tx|
      ensures if i < |b.tx| then u.tx[i] == b.tx[i]
              else u.tx[i].n in b.slots && u.tx[i].n <= u.mid && u.tx[i].pkt == b.slots[u.tx[i].n].pkt
    {
      if i < |t.tx| {
        assert u.tx[i] == t.tx[i];
      }
    }
  }

  lemma InheritedFaithful(b: Buf, t: Buf, given: seq<Packet>)
    requires Inherits(b, t) && Faithful(b, given)
    ensures Faithful(t, given)
  {
    forall i | 0 <= i < |t.tx|
      ensures 0 <= t.tx[i].n <= t.mid && t.tx[i].n < |given| && t.tx[i].pkt == given[t.tx[i].n]
    {
      if i < |b.tx| {
        assert t.tx[i] == b.tx[i];
      }
    }
  }

  lemma SendNextInherits(b: Buf, wnd: int, cnt: int, rto: int, clock: Clock)
    requires BufInv(b)
    ensures Inherits(b, SendNext(b, wnd, cnt, rto, clock))
  {
    var t := SendNext(b, wnd, cnt, rto, clock);
    forall i | |b.tx| <= i < |t.tx|
      ensures t.tx[i].n in b.slots && t.tx[i].n <= t.mid && t.tx[i].pkt == b.slots[t.tx[i].n].pkt
    {
      var n := b.mid + 1 + (i - |b.tx|);
      assert n in b.slots && t.tx[i] == TxOf(b, n);
    }
  }

  lemma ResendInherits(b: Buf, order: seq<int>)
    requires forall n :: n in order ==> n in b.slots && n <= b.mid
    ensures Inherits(b, Resend(b, order))
  {
    var t := Resend(b, order);
    forall i | |b.tx| <= i < |t.tx|
      ensures t.tx[i].n in b.slots && t.tx[i].n <= t.mid && t.tx[i].pkt == b.slots[t.tx[i].n].pkt
    {
      assert order[i - |b.tx|] in order;
    }
  }

  lemma SweepInherits(b: Buf, now: int, rto: int, clock: Clock, order: seq<int>)
    requires forall n :: n in order ==> n in b.slots && n <= b.mid
    ensures Inherits(b, Sweep(b, now, rto, clock, order))
  {
    ResendInherits(b, order);
    assert Sweep(b, now, rto, clock, order).tx == Resend(b, order).tx;
  }

  lemma SubmitFaithful(s: Snd, pkt: Packet, clock: Clock, given: seq<Packet>)
    requires Faithful(s.b, given) && SndInv(s) && SubmitCodeOf(s) == Accepted
    ensures Faithful(Submit(s, pkt, clock).b, given + [Stored(s.b, pkt)])
  {
    AddBufferKeeps(s.b, pkt);
    var b1 := AddBuffer(s.b, pkt);
    SendNextInherits(b1, Wnd(s.c), 1, Rto(s.c), clock);
    InheritedFaithful(b1, SendNext(b1, Wnd(s.c), 1, Rto(s.c), clock), given + [Stored(s.b, pkt)]);
  }

  lemma TransmitInherits(b: Buf, n: int, rto: int, clock: Clock)
    requires n in b.slots && n <= b.mid
    ensures Inherits(b, Transmit(b, n, rto, clock))
  {
  }

  lemma RestartInherits(b: Buf, cnt: int, now: int)
    ensures Inherits(b, RestartTimers(b, cnt, now))
  {
  }

  /** What the two kinds of partial ack do to the buffer. */
  lemma PartialInherits(b: Buf, c: Cong, now: int, clock: Clock)
    requires BufInv(b) && Head(b) && b.lo < b.mid && b.lo + c.recover <= b.mid && now > 0
    ensures var t := RestartTimers(b, c.recover, now);
      && Inherits(b, Transmit(t, b.lo + 1, Rto(c), clock))
      && Inherits(b, SendNext(t, Wnd(c), 1, Rto(c), clock))
  {
    hide BufInv, Inherits, Transmit, SendNext, RestartTimers, Wnd, Rto;
    var t := RestartTimers(b, c.recover, now);
    RestartKeeps(b, c.recover, now);
    RestartInherits(b, c.recover, now);
    TransmitInherits(t, b.lo + 1, Rto(c), clock);
    SendNextInherits(t, Wnd(c), 1, Rto(c), clock);
    InheritsTransitive(b, t, Transmit(t, b.lo + 1, Rto(c), clock));
    InheritsTransitive(b, t, SendNext(t, Wnd(c), 1, Rto(c), clock));
  }

  lemma FirstPartialInherits(s: Snd, now: int, clock: Clock)
    requires Midway(s) && InRecovery(s.c) && s.b.lo < s.b.mid && now > 0
    ensures Inherits(s.b, FirstPartialAck(s, now, clock).b)
  {
    hide BufInv, CongInv, Head, Inherits, Transmit, SendNext, RestartTimers, Wnd, Rto;
    FlightBounds(s);
    PartialInherits(s.b, s.c, now, clock);
  }

  lemma NextPartialInherits(s: Snd, cnt: int, now: int, clock: Clock)
    requires Midway(s) && InRecovery(s.c) && s.b.lo < s.b.mid && now > 0
    ensures Inherits(s.b, NextPartialAck(s, cnt, now, clock).b)
  {
    hide BufInv, CongInv, Head, Inherits, Transmit, SendNext, RestartTimers, Wnd, Rto;
    FlightBounds(s);
    PartialInherits(s.b, s.c, now, clock);
  }

  lemma NewAckInherits(s: Snd, cnt: int, clock: Clock)
    requires Midway(s)
    ensures Inherits(s.b, AfterNewAck(s, cnt, clock).b)
  {
    var c1 := Grow(s.c);
    SendNextInherits(s.b, Wnd(c1), (2 * cnt) % CNT, Rto(c1), clock);
    hide SendNext;
  }

  lemma DupAckInherits(s: Snd, clock: Clock)
    requires Midway(s) && s.b.lo < s.b.mid
    ensures Inherits(s.b, DupAck(s, clock).b)
  {
    hide BufInv, CongInv, Inherits, Transmit, SendNext, CountDup, Inflate, EnterFastRecovery, Wnd, Rto;
    var c1 := CountDup(s.c);
    var c2 := if InRecovery(c1) then Inflate(c1) else c1;
    TransmitInherits(s.b, s.b.lo + 1, Rto(c1), clock);
    SendNextInherits(s.b, Wnd(c2), 1, Rto(c2), clock);
  }

  lemma AckedInherits(s: Snd, k: Ack, partial: bool)
    ensures Inherits(s.b, Acked(s, k, partial).b)
  {
  }

  lemma FullAckInherits(s: Snd, k: Ack, now: int, clock: Clock)
    requires Midway(Acked(s, k, false)) && s.started && Fresh(s.b, k) && !Partial(s, k)
    ensures Inherits(Acked(s, k, false).b, AckRecv(s, k, now, clock).b)
  {
    hide Acked, AfterNewAck, Inherits, Midway;
    NewAckInherits(Acked(s, k, false), k.a - s.b.lo, clock);
  }

  lemma PartialAckInherits(s: Snd, k: Ack, now: int, clock: Clock)
    requires Midway(Acked(s, k, true)) && now > 0 && s.started && Fresh(s.b, k) && Partial(s, k)
    requires k.a < s.b.mid
    ensures Inherits(Acked(s, k, true).b, AckRecv(s, k, now, clock).b)
  {
    var s1 := Acked(s, k, true);
    assert InRecovery(s1.c) && s1.b.lo < s1.b.mid;
    hide Acked, FirstPartialAck, NextPartialAck, Inherits, Midway;
    if s.c.status == FastRecovery {
      FirstPartialInherits(s1, now, clock);
    } else {
      NextPartialInherits(s1, k.a - s.b.lo, now, clock);
    }
  }

  /** Handling an ack makes up no packet and no mark. */
  lemma AckRecvInherits(s: Snd, k: Ack, now: int, clock: Clock)
    requires SndInv(s) && AckUsable(s.b, k) && now > 0
    ensures Inherits(s.b, AckRecv(s, k, now, clock).b)
  {
    if s.started && Fresh(s.b, k) {
      AckedMidway(s, k);
      var partial := Partial(s, k);
      if partial {
        PartialAckInherits(s, k, now, clock);
      } else {
        FullAckInherits(s, k, now, clock);
      }
      AckedInherits(s, k, partial);
      hide AckRecv, Inherits, Acked;
      InheritsTransitive(s.b, Acked(s, k, partial).b, AckRecv(s, k, now, clock).b);
    } else if s.started && k.a == s.b.lo {
      FreeOrigKeeps(s.b, k);
      var s1 := s.(b := FreeOrig(s.b, k), c := SetWindow(s.c, k));
      assert Inherits(s.b, s1.b);
      if s.b.lo != s.b.mid {
        DupAckInherits(s1, clock);
        hide DupAck, Inherits;
        InheritsTransitive(s.b, s1.b, DupAck(s1, clock).b);
      }
    }
  }

  // ---------------------------------------------------------------------------------------
  // Acks
  // ---------------------------------------------------------------------------------------

  /**
   Why an ack never finds the head of the flight missing: the receiver would have had to answer
   the number right above one it had acked without acking it.
   */
  lemma AckIsUsable(b: Buf, k: Ack, acks: set<AckMsg>, r: Rcv)
    requires BufInv(b) && Evidence(b, acks) && Cross(acks) && Truthful(acks, r)
    requires forall n :: Received(r, n) ==> n <= b.mid
    requires AckMsg(k.a, k.o) in acks && k.window == HALF && 0 <= k.sentTS <= k.recvTS
    requires b.lo - k.a < HALF
    ensures AckUsable(b, k)
  {
    var m := AckMsg(k.a, k.o);
    assert k.a >= 0 ==> Received(r, k.a);
    assert forall p :: p in acks && p.o == m.a + 1 ==> p.a >= p.o;
  }

  /** An ack that may arrive answers a number less than one turn below lastAcked. */
  lemma AnswerInReach(c: Chan, m: AckMsg)
    requires ChanInv(c) && !c.snd.dead && m in c.acks && Young(c, m.a)
    ensures c.snd.b.lo - CNT < m.o <= c.snd.b.mid && Received(c.rcv, m.o)
    ensures BufInv(c.snd.b)
  {
    hide Cross, Evidence;
  }

  lemma SlotFound(b: Buf, o: int)
    requires BufInv(b) && b.lo - CNT < o <= b.mid
    ensures SlotOf(b, o) == if o > b.lo then o else o + CNT
    ensures SlotOf(b, o) in b.slots ==> SlotInv(b, SlotOf(b, o)) && b.lo < SlotOf(b, o) <= b.hi
    ensures o in b.slots ==> o > b.lo && SlotInv(b, o)
    ensures o + CNT in b.slots ==> o <= b.lo && SlotInv(b, o + CNT)
  {
    assert o in b.slots ==> SlotInv(b, o);
    assert o + CNT in b.slots ==> SlotInv(b, o + CNT);
  }

  lemma AckRecvEvidence(s: Snd, k: Ack, now: int, clock: Clock, acks: set<AckMsg>)
    requires SndInv(s) && AckUsable(s.b, k) && Ticking(clock) && now > 0
    requires Evidence(s.b, acks) && AckMsg(k.a, k.o) in acks
    ensures Evidence(AckRecv(s, k, now, clock).b, acks)
  {
    AckRecvKeeps(s, k, now, clock);
    var t := AckRecv(s, k, now, clock).b;
    hide AckRecv;
    var m := AckMsg(k.a, k.o);
    if t.lo != s.b.lo {
      assert m in acks && m.a == t.lo;
    }
    forall n | t.lo < n <= t.mid && n !in t.slots ensures exists m :: m in acks && m.o == n && m.a <= t.lo {
      if n in s.b.slots {
        assert m in acks && m.o == n && m.a <= t.lo;
      } else {
        assert n <= s.b.mid;
        var p :| p in acks && p.o == n && p.a <= s.b.lo;
      }
    }
  }

  /** An ack the receiver has sent, as far as the sender has to know. */
  ghost predicate FromPeer(s: Snd, k: Ack, acks: set<AckMsg>, r: Rcv) {
    && Cross(acks) && Truthful(acks, r) && (forall n :: Received(r, n) ==> n <= s.b.mid)
    && AckMsg(k.a, k.o) in acks && k.window == HALF && 0 <= k.sentTS <= k.recvTS
  }

  lemma FromPeerUsable(s: Snd, k: Ack, acks: set<AckMsg>, r: Rcv)
    requires Proper(s, acks) && FromPeer(s, k, acks, r) && s.b.lo - k.a < HALF
    ensures SndInv(s) && AckUsable(s.b, k) && k.a <= s.b.mid
  {
    hide Evidence, Cross, Truthful, AckUsable, Received;
    AckIsUsable(s.b, k, acks, r);
    AckBelowMid(s.b, k);
  }

  lemma AckBelowMid(b: Buf, k: Ack)
    requires AckUsable(b, k)
    ensures k.a <= b.mid
  {
  }

  /** One ack handed on keeps the sender's side; lastAcked moves to its number if that is ahead, and stays otherwise. */
  lemma HandedAck(s: Snd, k: Ack, now: int, clock: Clock, acks: set<AckMsg>, r: Rcv)
    requires Proper(s, acks) && FromPeer(s, k, acks, r) && s.b.lo - k.a < HALF && Ticking(clock) && now > 0
    ensures var t := AckRecv(s, k, now, clock);
      && Proper(t, acks) && Inherits(s.b, t.b)
      && t.b.lo == if k.a > s.b.lo then k.a else s.b.lo
  {
    FromPeerUsable(s, k, acks, r);
    hide AckRecv, AckUsable, Inherits, Evidence;
    AckRecvKeeps(s, k, now, clock);
    AckRecvInherits(s, k, now, clock);
    AckRecvEvidence(s, k, now, clock, acks);
    MidBound(s);
  }

  lemma MidBound(s: Snd)
    requires SndInv(s)
    ensures s.b.mid <= s.b.lo + HALF && (s.b.lo < s.b.mid ==> s.started)
  {
  }

  /** The facts a batch is processed under; they outlive each ack of it. */
  ghost predicate Batch(s: Snd, q: seq<Ack>, acks: set<AckMsg>, r: Rcv, top: int) {
    && Proper(s, acks) && s.b.lo <= top
    && (forall k :: k in q ==> FromPeer(s, k, acks, r) && k.a <= top && top - k.a < HALF)
  }

  lemma FromPeerStill(s: Snd, t: Snd, k: Ack, acks: set<AckMsg>, r: Rcv)
    requires FromPeer(s, k, acks, r) && Inherits(s.b, t.b)
    ensures FromPeer(t, k, acks, r)
  {
    hide Cross, Truthful, Received;
  }

  /** One step through a batch, whether the ack is handed on or passed over. */
  lemma BatchStep(s: Snd, q: seq<Ack>, now: int, clock: Clock, acks: set<AckMsg>, r: Rcv, top: int)
    requires Batch(s, q, acks, r, top) && Ticking(clock) && now > 0 && q != []
    ensures Batch(s, q[1..], acks, r, top)
    ensures var t := AckRecv(s, q[0], now, clock);
      && Batch(t, q[1..], acks, r, top) && Inherits(s.b, t.b)
      && t.b.lo == if q[0].a > s.b.lo then q[0].a else s.b.lo
  {
    hide Proper, FromPeer, Inherits, AckRecv, Ticking;
    var k := q[0];
    assert k in q && forall j :: j in q[1..] ==> j in q;
    HandedAck(s, k, now, clock, acks, r);
    var t := AckRecv(s, k, now, clock);
    forall j | j in q[1..] ensures FromPeer(t, j, acks, r) {
      FromPeerStill(s, t, j, acks, r);
    }
  }

  /** The sender's half of the invariant survives a whole batch, selected acks or not. */
  lemma {:induction false} ProcessKeeps(s: Snd, q: seq<Ack>, lo0: int, m: int, now: int, clock: Clock,
                                        acks: set<AckMsg>, r: Rcv, top: int)
    requires Batch(s, q, acks, r, top) && Ticking(clock) && now > 0
    ensures var t := Process(s, q, lo0, m, now, clock);
      Proper(t, acks) && Inherits(s.b, t.b) && s.b.lo <= t.b.lo <= top
    decreases |q|
  {
    if q != [] {
      hide Proper, FromPeer, Inherits, AckRecv, Selected, Ticking;
      var k := q[0];
      BatchStep(s, q, now, clock, acks, r, top);
      var s1 := if Selected(k, lo0, s.b.lo, m) then AckRecv(s, k, now, clock) else s;
      InheritsSame(s.b);
      assert Inherits(s.b, s1.b);
      hide Batch;
      ProcessKeeps(s1, q[1..], lo0, m, now, clock, acks, r, top);
      InheritsTransitive(s.b, s1.b, Process(s1, q[1..], lo0, m, now, clock).b);
    }
  }

  lemma InheritsSame(b: Buf)
    ensures Inherits(b, b)
  {
  }

  // ---------------------------------------------------------------------------------------
  // Steps
  // ---------------------------------------------------------------------------------------

  lemma InitKeeps()
    ensures ChanInv(InitChan())
  {
  }

  lemma SubmitEvidence(s: Snd, pkt: Packet, clock: Clock, acks: set<AckMsg>)
    requires SndInv(s) && Evidence(s.b, acks) && SubmitCodeOf(s) == Accepted
    ensures var t := Submit(s, pkt, clock).b; Evidence(t, acks) && s.b.mid <= t.mid <= s.b.hi + 1
  {
    var b, t := s.b, Submit(s, pkt, clock).b;
    assert forall n :: n in b.slots && n <= b.mid ==> n in t.slots;
    assert forall n :: b.mid < n <= t.mid ==> n in t.slots;
    assert t.lo == b.lo;
    hide Submit;
  }

  lemma SubmitStep(c: Chan, pkt: Packet, clock: Clock)
    requires ChanInv(c) && Enabled(c, SubmitPacket(pkt, clock))
    ensures ChanInv(Apply(c, SubmitPacket(pkt, clock)))
  {
    SubmitKeeps(c.snd, pkt, clock);
    if SubmitCodeOf(c.snd) == Accepted {
      SubmitFaithful(c.snd, pkt, clock, c.given);
      SubmitEvidence(c.snd, pkt, clock, c.acks);
      assert Submit(c.snd, pkt, clock).b.lo == c.snd.b.lo && !Submit(c.snd, pkt, clock).dead;
      assert SndSide(c.snd, c.acks, c.queue);
      assert BufInv(Submit(c.snd, pkt, clock).b);
      hide Submit, SndInv, Faithful, Evidence, Truthful, Cross, LogInv, RcvInv;
    }
  }

  /** The ack sent for packet `n` answers no number right above an earlier ack, and vice versa. */
  lemma NewAckCross(acks: set<AckMsg>, r: Rcv, n: int, chs: bool)
    requires RcvInv(r) && 0 <= n && -HALF <= n - r.next < HALF && Answered(r, n, chs)
    requires Truthful(acks, r) && Cross(acks)
    ensures var q := PktRecv(r, n, chs); var m := AckMsg(q.next - 1, n);
      Truthful(acks + {m}, q) && Cross(acks + {m})
  {
    PktRecvKeeps(r, n, chs);
    var q := PktRecv(r, n, chs);
    hide PktRecv;
    var m := AckMsg(q.next - 1, n);
    assert q.next > r.next ==> Received(q, q.next - 1);
    forall p | p in acks ensures p.o != m.a + 1 {
      assert Received(q, p.o);
    }
  }

  /** Whatever the network delivers in time lies in the half of the number space where 16 bits tell old from new. */
  lemma DeliveredInWindow(c: Chan, n: int)
    requires RcvSide(c) && Enabled(c, DeliverData(n))
    ensures 0 <= n < |c.given| && n <= c.snd.b.mid && -HALF <= n - c.rcv.next < HALF
  {
  }

  lemma LogGrows(log: seq<int>, r: Rcv, n: int, chs: bool)
    requires LogInv(log, r) && RcvInv(r) && 0 <= n && -HALF <= n - r.next < HALF
    ensures LogInv(if AcceptedBy(r, n, chs) then log + [n] else log, PktRecv(r, n, chs))
  {
    PktRecvKeeps(r, n, chs);
    hide PktRecv, AcceptedBy, Received, RcvInv;
  }

  lemma AcksGrow(acks: set<AckMsg>, r: Rcv, n: int, chs: bool)
    requires RcvInv(r) && 0 <= n && -HALF <= n - r.next < HALF && Truthful(acks, r) && Cross(acks)
    ensures var q := PktRecv(r, n, chs);
      var all := if Answered(r, n, chs) then acks + {AckMsg(q.next - 1, n)} else acks;
      Truthful(all, q) && Cross(all)
  {
    if Answered(r, n, chs) {
      NewAckCross(acks, r, n, chs);
    } else {
      PktRecvKeeps(r, n, chs);
      hide PktRecv;
    }
  }

  lemma DataRcvSide(c: Chan, n: int)
    requires RcvSide(c) && 0 <= n < |c.given| && n <= c.snd.b.mid && -HALF <= n - c.rcv.next < HALF
    ensures RcvSide(Deliver(c, n))
  {
    hide PktRecv, AcceptedBy, Answered, Truthful, Cross, Faithful, LogInv, RcvInv, Received;
    var chs := c.given[n].chs;
    PktRecvKeeps(c.rcv, n, chs);
    AcksGrow(c.acks, c.rcv, n, chs);
    LogGrows(c.log, c.rcv, n, chs);
  }

  lemma ProperMoreAcks(s: Snd, acks: set<AckMsg>, all: set<AckMsg>)
    requires Proper(s, acks) && acks <= all
    ensures Proper(s, all)
  {
    hide SndInv;
  }

  lemma DataStep(c: Chan, n: int)
    requires ChanInv(c) && Enabled(c, DeliverData(n))
    ensures ChanInv(Apply(c, DeliverData(n)))
  {
    DeliveredInWindow(c, n);
    hide RcvSide, Proper, PktRecv, Answered, AcceptedBy;
    DataRcvSide(c, n);
    if !c.snd.dead {
      ProperMoreAcks(c.snd, c.acks, Deliver(c, n).acks);
    }
  }

  lemma MarkProper(s: Snd, n: int, acks: set<AckMsg>)
    requires Proper(s, acks)
    ensures Proper(s.(b := Mark(s.b, n)), acks)
  {
    MarkedSender(s, n);
    hide SndInv;
  }

  lemma MarkStep(c: Chan, m: AckMsg, sentTS: int, recvTS: int)
    requires ChanInv(c) && Enabled(c, DeliverAck(m, sentTS, recvTS))
    ensures ChanInv(Apply(c, DeliverAck(m, sentTS, recvTS)))
  {
    hide Proper, Cross, Truthful, LogInv, RcvInv, Received;
    MarkProper(c.snd, SlotOf(c.snd.b, m.o), c.acks);
  }

  lemma DrainBatch(c: Chan, now: int, clock: Clock)
    requires ChanInv(c) && Enabled(c, DrainAcks(now, clock))
    ensures Batch(c.snd, c.queue, c.acks, c.rcv, MaxAck(c.queue, c.snd.b.lo)) && Ticking(clock) && now > 0
  {
    hide SndInv, Evidence, Cross, Truthful, LogInv, Faithful, RcvInv, Received, Ticking;
  }

  /** A sender that lives on within the same receiver. */
  lemma SndReplaced(c: Chan, t: Snd, queue: seq<Ack>)
    requires RcvSide(c) && Inherits(c.snd.b, t.b) && Proper(t, c.acks) && Queued(queue, c.acks)
    ensures ChanInv(c.(snd := t, queue := queue))
  {
    InheritedFaithful(c.snd.b, t.b, c.given);
    LoNamed(t.b, c.acks, c.rcv);
    ProperBounds(t, c.acks);
    hide SndInv, Evidence, Cross, Truthful, LogInv, Faithful, RcvInv, Received;
  }

  lemma LoNamed(b: Buf, acks: set<AckMsg>, r: Rcv)
    requires Evidence(b, acks) && Truthful(acks, r) && RcvInv(r)
    ensures b.lo < r.next
  {
    if b.lo != -1 {
      var p :| p in acks && p.a == b.lo;
    }
  }

  lemma ProperBounds(s: Snd, acks: set<AckMsg>)
    requires Proper(s, acks)
    ensures -1 <= s.b.lo <= s.b.mid <= s.b.lo + HALF && s.b.mid <= s.b.hi && !s.dead
  {
  }

  lemma DrainStep(c: Chan, now: int, clock: Clock)
    requires ChanInv(c) && Enabled(c, DrainAcks(now, clock))
    ensures ChanInv(Apply(c, DrainAcks(now, clock)))
  {
    DrainBatch(c, now, clock);
    hide Batch, Process, RcvSide, Inherits, Proper;
    ProcessKeeps(c.snd, c.queue, c.snd.b.lo, MaxNorm(c.queue, c.snd.b.lo), now, clock,
                 c.acks, c.rcv, MaxAck(c.queue, c.snd.b.lo));
    SndReplaced(c, Drain(c.snd, c.queue, now, clock), []);
  }

  lemma SweepProper(s: Snd, now: int, clock: Clock, order: seq<int>, acks: set<AckMsg>)
    requires Proper(s, acks) && Ticking(clock) && forall n :: n in order ==> n in Resent(s.b, now)
    ensures var t := Timeout(s, now, clock, order); Proper(t, acks) && Inherits(s.b, t.b)
  {
    forall n | n in order ensures n in s.b.slots && n <= s.b.mid {
      assert SlotInv(s.b, n);
    }
    TimeoutKeeps(s, now, clock, order);
    SweepInherits(s.b, now, Rto(s.c), clock, order);
    hide SndInv, Inherits, Rto;
  }

  lemma SweepStep(c: Chan, now: int, clock: Clock, order: seq<int>)
    requires ChanInv(c) && Enabled(c, TimeoutSweep(now, clock, order))
    ensures ChanInv(Apply(c, TimeoutSweep(now, clock, order)))
  {
    hide Proper, RcvSide, Inherits, Timeout, Queued, Resent;
    SweepProper(c.snd, now, clock, order, c.acks);
    SndReplaced(c, Timeout(c.snd, now, clock, order), c.queue);
  }

  lemma DieStep(c: Chan, order: seq<int>)
    requires ChanInv(c) && Enabled(c, Die(order))
    ensures ChanInv(Apply(c, Die(order)))
  {
    ResendInherits(c.snd.b, order);
    InheritedFaithful(c.snd.b, Resend(c.snd.b, order), c.given);
  }

  /** The joint invariant of one channel is kept by every step the network and the clock allow. */
  lemma StepKeeps(c: Chan, e: Event)
    requires ChanInv(c) && Enabled(c, e)
    ensures ChanInv(Apply(c, e))
  {
    hide ChanInv;
    match e
    case SubmitPacket(pkt, clock) => SubmitStep(c, pkt, clock);
    case DeliverData(n) => DataStep(c, n);
    case DeliverAck(m, sentTS, recvTS) => MarkStep(c, m, sentTS, recvTS);
    case DrainAcks(now, clock) => DrainStep(c, now, clock);
    case TimeoutSweep(now, clock, order) => SweepStep(c, now, clock, order);
    case Die(order) => DieStep(c, order);
  }
}
