/** The sending half of NewChannelHandler: fields, 16-bit arithmetic and loops. */
module ChannelSender {
  import opened SeqNum
  import opened Packets
  import opened SenderModel
  import opened SenderLaws
  import opened SendBuffer
  import opened ChannelSystem
  import ChannelProofs
  import R = ReceiverModel
  import M = SenderModel
  import opened SenderRounds

  datatype CwndUpdate = MultiplicativeIncrease | AdditiveIncrease | SetToOne | SetTo(value: real)

  class NewChannelHandler {
    const sb: SendingBuffer
    var senderWindow: u16
    var cwnd: CwndRange
    var duplicateCount: u16
    var ssthresh: u16
    var recover: u16
    var recoverIndex: u16
    var multiRecoverIndex: u16
    var status: Status
    var srtt: real
    var rttvar: real
    var rto: real
    var deadChannel: bool
    var ackRecvQueue: seq<AckPacket>
    /** The acks the receive queue stands for. */
    ghost var queue: seq<Ack>
    /** The true number recoverIndex is the field of. */
    ghost var recIdx: int

    ghost function C(): Cong
      reads this
    {
      Cong(senderWindow, cwnd, duplicateCount, ssthresh, recover, recIdx, status, Rtt(srtt, rttvar, rto))
    }

    /** The state of the sender on true numbers. */
    ghost function S(): Snd
      reads this, sb
    {
      Snd(sb.b, C(), sb.started, deadChannel)
    }

    /** Between two handlers of a live channel. */
    ghost predicate Valid()
      reads this, sb, sb.buf
    {
      && sb.Valid() && SndInv(S())
      && (InRecovery(C()) ==> recoverIndex == Wire(recIdx))
    }

    constructor ()
      ensures Valid() && fresh(sb) && fresh(sb.buf)
      ensures S() == InitSnd() && sb.wire == [] && ackRecvQueue == [] && queue == []
    {
      sb := new SendingBuffer();
      senderWindow, cwnd, duplicateCount, ssthresh, recover := 1, 1.0, 0, 16384, 0;
      recoverIndex, multiRecoverIndex, status, deadChannel := 0, 0, SlowStart, false;
      srtt, rttvar, rto := 0.0, 0.0, 1000000.0;
      recIdx := -1;
      ackRecvQueue, queue := [], [];
    }

    // -------------------------------------------------------------------------------------
    // Sending
    // -------------------------------------------------------------------------------------

    /** cansend() */
    predicate CanSend()
      reads this, sb
    {
      var rounded := (cwnd + 0.5).Floor;
      var wnd := if senderWindow < rounded then senderWindow else rounded;
      Diff(sb.maxSent, sb.lastAcked) < wnd
    }

    /** The 16-bit test compares the true flight with the window. */
    lemma CanSendTest()
      requires sb.Linked() && sb.b.lo <= sb.b.mid < sb.b.lo + CNT
      ensures CanSend() <==> sb.b.mid - sb.b.lo < Wnd(C())
    {
      DiffIsDistance(sb.b.mid, sb.b.lo);
      sb.Reads(sb.b.mid);
      hide SendingBuffer.Linked, Wire, Diff;
    }

    /** sendSeq(seq): an empty slot is refused with -42 and nothing changes. */
    method SendSeq(seqNo: u16, clock: Clock, ghost n: int) returns (r: int)
      requires sb.Linked() && seqNo == Wire(n) && sb.base < n <= sb.base + CNT && n !in sb.armed
      modifies sb`timerList, sb`b, sb`armed, sb`wire, sb.buf
      ensures sb.Linked()
      ensures r == if n in old(sb.b).slots then 0 else -42
      ensures sb.b == Transmit(old(sb.b), n, Rto(C()), clock)
      ensures sb.armed == old(sb.armed) + if n in old(sb.b).slots then {n} else {}
    {
      hide SendingBuffer.Linked, Wire;
      sb.Reads(n);
      if sb.buf[seqNo].pkt == None {
        return -42;
      }
      TransmitInSteps(sb.b, n, Rto(C()), clock);
      hide Transmit, TxOf;
      ghost var t := TxOf(sb.b, n);
      var cell := sb.buf[seqNo];
      var time := clock(seqNo);
      sb.SetFlags(seqNo, true, cell.ackRcvd, cell.retry, n);
      sb.Log(Sent(seqNo, cell.pkt.value), t);
      sb.StartTimer(seqNo, time, rto.Floor, n);
      r := 0;
    }

    /** Between handlers, and in the loops of a handler: a timer runs for each packet in flight and no other. */
    ghost predicate InFlightArmed()
      reads sb`b, sb`armed
    {
      ArmedExactly(sb.armed, sb.b)
    }

    /** One round of the loop of sendNext: the next unsent packet goes out. */
    method SendOne(clock: Clock)
      requires sb.Linked() && InFlightArmed() && sb.b.mid + 1 in sb.b.slots
      modifies sb`maxSent, sb`timerList, sb`b, sb`armed, sb`wire, sb.buf
      ensures sb.Linked() && InFlightArmed()
      ensures sb.b == OneMore(old(sb.b), Rto(C()), clock)
    {
      hide SendingBuffer.Linked, Wire, Transmit, C, Rto, ArmedExactly, OneMore;
      ghost var b0, n, rto_ := sb.b, sb.b.mid + 1, Rto(C());
      OneMoreArmed(b0, sb.armed, rto_, clock);
      WireSucc(b0.mid);
      sb.Reads(n);
      var nextPktSeq := (sb.maxSent + 1) % CNT;
      var r := SendSeq(nextPktSeq, clock, n);
      sb.Move(n);
    }

    /** The loop of sendNext. */
    method SendLoop(cnt: u16, clock: Clock) returns (sntCnt: nat)
      requires sb.Linked() && InFlightArmed() && UnsentPresent(sb.b) && sb.b.lo <= sb.b.mid <= sb.b.hi < sb.b.lo + CNT
      modifies sb`maxSent, sb`timerList, sb`b, sb`armed, sb`wire, sb.buf
      ensures sb.Linked() && InFlightArmed()
      ensures sb.b == SendFirst(old(sb.b), sntCnt, Rto(C()), clock)
      ensures LoopEnded(old(sb.b), Wnd(C()), cnt, sntCnt)
    {
      hide SendingBuffer.Linked, CanSend, C, InFlightArmed, Wire, Diff, Wnd, Rto, OneMore, SendFirst, UnsentPresent;
      ghost var b0, rto_, wnd := sb.b, Rto(C()), Wnd(C());
      sb.Reads(b0.mid);
      DiffIsDistance(b0.hi, b0.mid);
      SendFirstNone(b0, rto_, clock);
      var unsent: nat := Diff(sb.maxPacket, sb.maxSent);
      sntCnt := 0;
      CanSendTest();
      while CanSend() && unsent != 0 && sntCnt < cnt
        invariant sb.Linked() && InFlightArmed()
        invariant sb.b == SendFirst(b0, sntCnt, rto_, clock) && sb.b.lo == b0.lo && sb.b.mid == b0.mid + sntCnt
        invariant unsent == b0.hi - b0.mid - sntCnt && sntCnt <= cnt
        invariant sntCnt > 0 ==> sntCnt <= wnd - (b0.mid - b0.lo)
        invariant CanSend() <==> sb.b.mid - sb.b.lo < wnd
        decreases unsent
      {
        LoopRound(b0, sntCnt, rto_, clock);
        SendOne(clock);
        assert sb.b == SendFirst(b0, sntCnt + 1, rto_, clock);
        unsent := unsent - 1;
        sntCnt := sntCnt + 1;
        CanSendTest();
      }
    }

    /** sendNext(cnt) */
    method SendNext(cnt: u16, clock: Clock) returns (sntCnt: nat)
      requires sb.Valid() && Head(sb.b) && Ticking(clock) && Rto(C()) > 0
      modifies sb`maxSent, sb`timerList, sb`b, sb`armed, sb`wire, sb.buf
      ensures sb.Valid()
      ensures sntCnt == SendCount(old(sb.b), Wnd(C()), cnt)
      ensures sb.b == M.SendNext(old(sb.b), Wnd(C()), cnt, Rto(C()), clock)
    {
      ghost var b0 := sb.b;
      SendNextKeeps(b0, Wnd(C()), cnt, Rto(C()), clock);
      sntCnt := SendLoop(cnt, clock);
      LoopCount(b0, Wnd(C()), cnt, sntCnt);
      hide SendCount, SendFirst, SendingBuffer.Linked, Rto, Wnd;
      Settle();
    }

    lemma Settle()
      requires sb.Linked() && InFlightArmed() && BufInv(sb.b) && sb.base == sb.b.lo
      ensures sb.Valid()
    {
    }

    /** What the tests of sendPacket on the 16-bit counters find out. */
    lemma SpaceTest(pkt: Packet, clock: Clock)
      requires Valid() && Ticking(clock)
      ensures SndInv(Submit(S(), pkt, clock)) && Head(sb.b) && Rto(C()) > 0 && sb.Valid()
      ensures sb.lastAcked == sb.maxPacket <==> sb.b.lo == sb.b.hi
      ensures sb.b.lo != sb.b.hi ==> (Diff(sb.maxPacket, sb.lastAcked) >= CNT / 2 <==> SubmitCodeOf(S()) == NoSpace)
      ensures SubmitCodeOf(S()) == Accepted || (SubmitCodeOf(S()) == NoSpace && sb.b.lo != sb.b.hi)
      ensures SubmitCodeOf(S()) == Accepted ==> sb.b.hi - sb.b.lo < HALF
      ensures if SubmitCodeOf(S()) == Accepted then SubmitResult(S(), pkt, clock) else Submit(S(), pkt, clock) == S()
    {
      var s := S();
      SubmitKeeps(s, pkt, clock);
      WindowOpen(s.c, s.b.lo, s.b.mid);
      DiffIsDistance(s.b.hi, s.b.lo);
      if sb.lastAcked == sb.maxPacket {
        WireInjective(s.b.hi, s.b.lo);
      }
      sb.Reads(s.b.lo);
      assert s.b.hi - s.b.lo <= HALF;
      hide SendingBuffer.Linked, Diff, Wire, BufInv, M.SendNext;
      if SubmitCodeOf(s) == Accepted {
        SubmitAccepted(s, pkt, clock);
      }
    }

    /** sendPacket(pkt) on a channel that is not being closed */
    method SendPacket(pkt: Packet, clock: Clock) returns (code: SubmitCode)
      requires (!deadChannel ==> Valid()) && Ticking(clock)
      modifies sb, sb.buf
      ensures code == SubmitCodeOf(old(S()))
      ensures S() == Submit(old(S()), pkt, clock)
      ensures !deadChannel ==> Valid()
    {
      hide SendingBuffer.Linked, SendingBuffer.Valid, Diff, Wire, SndInv, InRecovery, Head, Wnd, Rto, AddBuffer,
           Submit, SubmitCodeOf, Stored, M.SendNext;
      if deadChannel {
        DeadRefuses(S(), pkt, clock);
        return ChannelDead;
      }
      SpaceTest(pkt, clock);
      if sb.lastAcked == sb.maxPacket {
        sb.Start();
        var sent := BufferAndSend(pkt.(chs := true), clock);
      } else {
        if Diff(sb.maxPacket, sb.lastAcked) >= CNT / 2 {
          return NoSpace;
        }
        var sent := BufferAndSend(pkt, clock);
      }
      code := Accepted;
    }

    /** addBuffer(pkt) and sendNew(1) */
    method BufferAndSend(pkt: Packet, clock: Clock) returns (sent: nat)
      requires sb.Valid() && Head(sb.b) && sb.b.hi - sb.b.lo < HALF && Ticking(clock) && Rto(C()) > 0
      requires sb.b.lo == sb.b.hi ==> pkt.chs
      modifies sb`maxPacket, sb`maxSent, sb`timerList, sb`b, sb`armed, sb`wire, sb.buf
      ensures sb.Valid()
      ensures sb.b == M.SendNext(AddBuffer(old(sb.b), pkt), Wnd(C()), 1, Rto(C()), clock)
    {
      hide SendingBuffer.Linked, SendingBuffer.Valid, BufInv, Head, Wnd, Rto, C, M.SendNext, AddBuffer, ArmedExactly;
      Between();
      AddBufferKeeps(sb.b, pkt);
      AddedSlot(sb.b, sb.armed, pkt);
      sb.Add(pkt);
      Settle();
      sent := SendNext(1, clock);
    }

    // -------------------------------------------------------------------------------------
    // Acknowledgements
    // -------------------------------------------------------------------------------------

    /** updateCwnd; the result is the number of packets the scheduler is told it may offer. */
    method UpdateCwnd(update: CwndUpdate) returns (increment: nat)
      modifies this`cwnd
      ensures cwnd == (match update
                       case MultiplicativeIncrease => Clamp(old(cwnd) + 1.0)
                       case AdditiveIncrease => Clamp(old(cwnd) + 1.0 / old(cwnd))
                       case SetToOne => 1.0
                       case SetTo(value) => Clamp(value))
      ensures increment == Max(Round(cwnd) - Round(old(cwnd)), 0)
    {
      var startedWith := (cwnd + 0.5).Floor;
      var next: real := cwnd;
      match update {
        case MultiplicativeIncrease => next := next + 1.0;
        case AdditiveIncrease => next := next + 1.0 / next;
        case SetToOne => next := 1.0;
        case SetTo(value) => next := value;
      }
      if next > 32768.0 {
        next := 32768.0;
      }
      if next < 1.0 {
        next := 1.0;
      }
      cwnd := next;
      var endedWith := (cwnd + 0.5).Floor;
      increment := if endedWith > startedWith then endedWith - startedWith else 0;
    }

    /** updateRtt */
    method UpdateRtt(sentTS: int, recvTS: int)
      modifies this`srtt, this`rttvar, this`rto
      ensures Rtt(srtt, rttvar, rto) == M.UpdateRtt(old(Rtt(srtt, rttvar, rto)), sentTS, recvTS)
    {
      if sentTS == 0 {
        return;
      }
      var rtt := (recvTS - sentTS) as real;
      if srtt == 0.0 {
        srtt := rtt;
        rttvar := rtt / 2.0;
      } else {
        rttvar := 0.75 * rttvar + 0.25 * AbsR(srtt - rtt);
        srtt := 0.875 * srtt + 0.125 * rtt;
      }
      rto := srtt + MaxR(200000.0, 4.0 * rttvar);
    }

    /** stopTimer, freePacket and reset of one slot; the timer runs, as the source asserts. */
    method Release(seqNo: u16, ghost n: int)
      requires sb.Linked() && InFlightArmed() && seqNo == Wire(n) && n in sb.b.slots && n <= sb.b.mid
      modifies sb`timerList, sb`b, sb`armed, sb.buf
      ensures sb.Linked() && InFlightArmed()
      ensures sb.b == Without(old(sb.b), n)
    {
      hide SendingBuffer.Linked, Wire;
      ghost var b0 := sb.b;
      sb.StopTimer(seqNo, n);
      sb.Free(seqNo, n);
      assert sb.b.slots == b0.slots - {n};
    }

    /** The slot an ack answers, seen through its 16-bit number, even when it lies behind lastAcked. */
    lemma OrigSlot(k: Ack)
      requires sb.Valid() && AckUsable(sb.b, k) && sb.b.lo <= k.a
      ensures sb.buf[Wire(k.o)].pkt != None <==> k.o in sb.b.slots
      ensures Wire(k.a) != Wire(k.o) <==> k.a != k.o
    {
      var n := if k.o > sb.b.lo then k.o else k.o + CNT;
      WirePeriod(k.o + CNT);
      if Wire(k.a) == Wire(k.o) {
        WireInjective(k.a, k.o);
      }
      sb.Reads(n);
      hide SendingBuffer.Linked, Wire;
      assert n in sb.b.slots ==> SlotInv(sb.b, n);
      assert k.o in sb.b.slots ==> SlotInv(sb.b, k.o);
    }

    /** The selective part of an ack. */
    method FreeOriginal(p: AckPacket, ghost k: Ack)
      requires sb.Valid() && Carries(p, k) && AckUsable(sb.b, k) && sb.b.lo <= k.a
      modifies sb`timerList, sb`b, sb`armed, sb.buf
      ensures sb.Valid()
      ensures sb.b == FreeOrig(old(sb.b), k)
    {
      OrigSlot(k);
      FreeOrigKeeps(sb.b, k);
      hide SendingBuffer.Linked, Wire, BufInv, AckUsable;
      if p.ackNo != p.origAckNo && sb.buf[p.origAckNo].pkt != None {
        Release(p.origAckNo, k.o);
        Settle();
      }
    }

    /** One round of the loop that frees what an ack covers. */
    method FreeNext(seqNo: u16, ghost b0: Buf, ghost a: int, ghost n: int)
      requires sb.Linked() && InFlightArmed() && seqNo == Wire(n)
      requires sb.base < n <= sb.base + CNT && b0.lo < n <= sb.b.mid
      requires sb.b == Freed(b0, a, n - 1)
      modifies sb`timerList, sb`b, sb`armed, sb.buf
      ensures sb.Linked() && InFlightArmed()
      ensures sb.b == Freed(b0, a, n) && sb.b.mid == old(sb.b).mid
    {
      sb.Reads(n);
      FreedOneMore(b0, a, n - 1);
      hide SendingBuffer.Linked, Wire, Freed, Without;
      if sb.buf[seqNo].pkt != None {
        Release(seqNo, n);
      }
    }

    /** The cumulative part: lastAcked moves first, then every slot behind it is freed. */
    method FreeAcked(ackNo: u16, cnt: u16, ghost a: int)
      requires sb.Valid() && ackNo == Wire(a) && cnt == a - sb.b.lo && sb.b.lo < a <= sb.b.mid
      requires BufInv(Advance(sb.b, a))
      modifies sb`lastAcked, sb`timerList, sb`b, sb`base, sb`armed, sb.buf
      ensures sb.Valid()
      ensures sb.b == Advance(old(sb.b), a)
    {
      hide SendingBuffer.Linked, SendingBuffer.Valid, InFlightArmed, Wire, Plus, BufInv, Freed;
      ghost var b0 := sb.b;
      Between();
      FreedNone(b0, a);
      FreedAll(b0, a);
      WireSum(b0.lo, 1);
      var acked := Plus(sb.lastAcked, 1);
      sb.SetLastAcked(ackNo, a);
      Unmoved(b0.slots, b0.mid);
      var x := 0;
      while x < cnt
        invariant sb.Linked() && InFlightArmed() && sb.base == b0.lo
        invariant x <= cnt && sb.b == Freed(b0, a, b0.lo + x) && sb.b.mid == b0.mid
      {
        WireSum(b0.lo + 1, x);
        var tmpy := Plus(acked, x);
        FreeNext(tmpy, b0, a, b0.lo + 1 + x);
        assert sb.b == Freed(b0, a, b0.lo + (x + 1));
        x := x + 1;
      }
      sb.Slide();
      Settle();
    }

    /** What holds between two handlers, spelled out. */
    lemma Between()
      requires sb.Valid()
      ensures sb.Linked() && InFlightArmed() && sb.base == sb.b.lo
      ensures sb.b.lo <= sb.b.mid <= sb.b.hi <= sb.b.lo + HALF
      ensures sb.lastAcked == Wire(sb.b.lo) && sb.maxSent == Wire(sb.b.mid) && sb.maxPacket == Wire(sb.b.hi)
      ensures forall n :: n in sb.armed <==> n in sb.b.slots && n <= sb.b.mid
      ensures forall n :: n in sb.b.slots ==> sb.b.lo < n <= sb.b.hi
      ensures BufInv(sb.b)
    {
    }

    lemma Unmoved(slots: map<int, Slot>, mid: int)
      requires sb.b.slots == slots && sb.b.mid == mid && forall n :: n in sb.armed <==> n in slots && n <= mid
      ensures InFlightArmed()
    {
    }

    /** What a fresh ack does to the buffer and the counters before anything new is sent. */
    method TakeFresh(p: AckPacket, cnt: u16, ghost k: Ack)
      requires sb.Valid() && Carries(p, k) && AckUsable(sb.b, k) && Fresh(sb.b, k) && cnt == k.a - sb.b.lo
      modifies this`duplicateCount, this`srtt, this`rttvar, this`rto
      modifies sb`lastAcked, sb`timerList, sb`b, sb`base, sb`armed, sb.buf
      ensures sb.Valid()
      ensures sb.b == Cleared(old(sb.b), k)
      ensures duplicateCount == 0
      ensures Rtt(srtt, rttvar, rto) == M.UpdateRtt(old(Rtt(srtt, rttvar, rto)), k.sentTS, k.recvTS)
    {
      FreshKeeps(k);
      hide SendingBuffer.Linked, SendingBuffer.Valid, Wire, BufInv, AckUsable, FreeOrig, Advance, M.UpdateRtt;
      FreeOriginal(p, k);
      UpdateRtt(p.sentTS, p.recvTS);
      duplicateCount := 0;
      FreeAcked(p.ackNo, cnt, k.a);
    }

    lemma FreshKeeps(k: Ack)
      requires sb.Valid() && AckUsable(sb.b, k) && Fresh(sb.b, k)
      ensures BufInv(Cleared(sb.b, k))
      ensures FreeOrig(sb.b, k).lo == sb.b.lo < k.a <= sb.b.mid == FreeOrig(sb.b, k).mid
    {
      ClearedKeeps(sb.b, k);
    }

    /** restartTimer for every packet of the `cnt` above lastAcked that is still held */
    method RestartRange(cnt: u16, now: int)
      requires sb.Valid() && sb.b.lo + cnt <= sb.b.mid && now > 0 && BufInv(RestartTimers(sb.b, cnt, now))
      modifies sb`timerList, sb`b, sb.buf
      ensures sb.Valid()
      ensures sb.b == RestartTimers(old(sb.b), cnt, now)
    {
      hide SendingBuffer.Linked, SendingBuffer.Valid, InFlightArmed, Wire, Plus, BufInv, RestartTimers;
      ghost var b0 := sb.b;
      Between();
      RestartNone(b0, now);
      WireSum(b0.lo, 1);
      var acked := Plus(sb.lastAcked, 1);
      var x := 0;
      while x < cnt
        invariant sb.Linked() && InFlightArmed() && sb.b.mid == b0.mid && sb.b.lo == b0.lo
        invariant x <= cnt && sb.b == RestartTimers(b0, x, now)
      {
        WireSum(b0.lo + 1, x);
        var tmpy := Plus(acked, x);
        RestartNext(tmpy, now, b0, x);
        assert sb.b == RestartTimers(b0, x + 1, now);
        x := x + 1;
      }
      Settle();
    }

    /** One round of the loop that restarts timers. */
    method RestartNext(seqNo: u16, now: int, ghost b0: Buf, ghost x: nat)
      requires sb.Linked() && InFlightArmed() && sb.base == b0.lo && x < HALF && b0.lo + x + 1 <= sb.b.mid
      requires seqNo == Wire(b0.lo + x + 1) && sb.b == RestartTimers(b0, x, now)
      modifies sb`timerList, sb`b, sb.buf
      ensures sb.Linked() && InFlightArmed()
      ensures sb.b == RestartTimers(b0, x + 1, now) && sb.b.mid == old(sb.b).mid && sb.b.lo == old(sb.b).lo
    {
      hide SendingBuffer.Linked, Wire, RestartTimers;
      sb.Reads(b0.lo + x + 1);
      RestartOneMore(b0, x, now);
      if sb.buf[seqNo].pkt != None {
        sb.RestartTimer(seqNo, now, b0.lo + x + 1);
      }
    }

    /** A full ack: the window grows and new packets go out. */
    method AfterFull(cnt: u16, clock: Clock)
      requires sb.Valid() && Midway(S()) && !InRecovery(C()) && Ticking(clock)
      requires 0 < cnt <= HALF && (cnt == HALF ==> NoStall(sb.b))
      modifies this`cwnd, this`status, sb`maxSent, sb`timerList, sb`b, sb`armed, sb`wire, sb.buf
      ensures Valid()
      ensures S() == AfterNewAck(old(S()), cnt, clock)
    {
      hide SendingBuffer.Linked, SendingBuffer.Valid, BufInv, Head, NoStall, CongInv, Midway, SndInv, SameWindow,
           Round, Wnd, Rto, M.SendNext;
      MidwayParts(S());
      NewAckKeeps(S(), cnt, clock);
      GrowKeeps(C(), sb.b.lo, sb.b.mid);
      ghost var c1 := Grow(C());
      WindowOpen(c1, sb.b.lo, sb.b.mid);
      var grown;
      if cwnd <= ssthresh as real {
        grown := UpdateCwnd(MultiplicativeIncrease);
        status := SlowStart;
      } else {
        grown := UpdateCwnd(AdditiveIncrease);
        status := CongAvoidance;
      }
      assert C() == c1;
      var sent := SendNext(2 * cnt % CNT, clock);
    }

    /** The first partial ack, once `recover` has been lowered: the head is sent again. */
    method AfterFirstPartial(now: int, clock: Clock)
      requires sb.Valid() && Midway(S()) && status == FastRecovery && recoverIndex == Wire(recIdx)
      requires sb.b.lo < sb.b.mid && Ticking(clock) && now > 0
      modifies this`status, this`duplicateCount, this`multiRecoverIndex
      modifies sb`maxSent, sb`timerList, sb`b, sb`armed, sb`wire, sb.buf
      ensures Valid()
      ensures S() == FirstPartialAck(old(S()), now, clock)
    {
      hide SendingBuffer.Linked, SendingBuffer.Valid, SndInv, Midway, BufInv, Head, Wire, Plus, RestartTimers, Transmit;
      FirstPartialKeeps(S(), now, clock);
      RestartFacts(now);
      RestartRange(recover, now);
      status := MultiRecovery;
      multiRecoverIndex := Plus(Plus(sb.lastAcked, 1), 1);
      SendHeadAgain(clock);
      duplicateCount := 3;
    }

    /** A later partial ack: one packet goes out and the window deflates. */
    method AfterNextPartial(cnt: u16, now: int, clock: Clock)
      requires sb.Valid() && Midway(S()) && status == MultiRecovery && recoverIndex == Wire(recIdx)
      requires sb.b.lo < sb.b.mid && Ticking(clock) && now > 0
      modifies this`cwnd, sb`maxSent, sb`timerList, sb`b, sb`armed, sb`wire, sb.buf
      ensures Valid()
      ensures S() == NextPartialAck(old(S()), cnt, now, clock)
    {
      hide SendingBuffer.Linked, SendingBuffer.Valid, SndInv, Midway, BufInv, Head, Rto, Wnd, Wire, RestartTimers,
           M.SendNext;
      NextPartialKeeps(S(), cnt, now, clock);
      RestartFacts(now);
      RestartRange(recover, now);
      var sent := SendNext(1, clock);
      var grown := UpdateCwnd(SetTo(cwnd - cnt as real + 1.0));
    }

    lemma RestartFacts(now: int)
      requires Midway(S()) && InRecovery(C()) && sb.b.lo < sb.b.mid && now > 0
      ensures Rto(C()) > 0 && sb.b.lo + recover <= sb.b.mid
      ensures var t := RestartTimers(sb.b, recover, now);
        BufInv(t) && Head(t) && t.lo == sb.b.lo && t.mid == sb.b.mid
    {
      WindowOpen(C(), sb.b.lo, sb.b.mid);
      RestartKeeps(sb.b, recover, now);
    }

    /** stopTimer and sendSeq of the packet right above lastAcked */
    method SendHeadAgain(clock: Clock)
      requires sb.Valid() && Head(sb.b) && sb.b.lo < sb.b.mid && Ticking(clock) && Rto(C()) > 0
      modifies sb`timerList, sb`b, sb`armed, sb`wire, sb.buf
      ensures sb.Valid()
      ensures sb.b == Transmit(old(sb.b), old(sb.b).lo + 1, Rto(C()), clock)
    {
      hide SendingBuffer.Linked, SendingBuffer.Valid, Wire, Plus, BufInv, Rto, Transmit, Put;
      ghost var b0 := sb.b;
      Between();
      WireSum(b0.lo, 1);
      TransmitAnew(b0, b0.lo + 1, Rto(C()), clock);
      HeadSent(clock);
      var nextPktSeq := Plus(sb.lastAcked, 1);
      sb.StopTimer(nextPktSeq, b0.lo + 1);
      var r := SendSeq(nextPktSeq, clock, b0.lo + 1);
      Settle();
    }

    lemma HeadSent(clock: Clock)
      requires sb.Valid() && Head(sb.b) && sb.b.lo < sb.b.mid && Ticking(clock) && Rto(C()) > 0
      ensures var t := Transmit(sb.b, sb.b.lo + 1, Rto(C()), clock);
        BufInv(t) && t.lo == sb.b.lo && t.mid == sb.b.mid && SameSlots(sb.b, t)
    {
      var t := Transmit(sb.b, sb.b.lo + 1, Rto(C()), clock);
      forall m | m in t.slots ensures SlotInv(t, m) {
        assert SlotInv(sb.b, m);
      }
    }

    /** A duplicate ack, with the packet it answers already freed. */
    method OnDuplicate(clock: Clock)
      requires sb.Valid() && Midway(S()) && sb.b.lo < sb.b.mid && Ticking(clock)
      requires InRecovery(C()) ==> recoverIndex == Wire(recIdx)
      modifies this`cwnd, this`status, this`duplicateCount, this`ssthresh, this`multiRecoverIndex
      modifies this`recover, this`recoverIndex, this`recIdx
      modifies sb`maxSent, sb`timerList, sb`b, sb`armed, sb`wire, sb.buf
      ensures Valid()
      ensures S() == DupAck(old(S()), clock)
      ensures old(duplicateCount) == 2 && old(status) != MultiRecovery ==>
                var n := old(sb.b).lo + 1;
                n in old(sb.b).slots && sb.wire == old(sb.wire) + [Sent(Wire(n), old(sb.b).slots[n].pkt)]
    {
      hide SendingBuffer.Linked, SendingBuffer.Valid, SndInv, Midway, Head, Rto, Wire, Plus, DupAck, Logged;
      OnTheWire();
      ThirdOnTheWire(S(), clock);
      ghost var s0, w0 := S(), sb.wire;
      DuplicateFacts(clock);
      duplicateCount := Plus(duplicateCount, 1);
      if status == MultiRecovery {
        SkipFreed();
        if multiRecoverIndex <= recoverIndex && sb.buf[multiRecoverIndex].pkt == None {
          // The loop has just stopped at a slot that holds a packet, or past recoverIndex.
          assert false;
        } else {
          InflateAndSend(clock);
        }
      } else {
        if duplicateCount == 3 {
          RetransmitHead(clock);
        } else {
          InflateAndSend(clock);
        }
      }
      if s0.c.dup == 2 && s0.c.status != MultiRecovery {
        OnTheWire();
        LoggedMore(w0, s0.b.tx, sb.wire, sb.b.tx, Tx(s0.b.lo + 1, s0.b.slots[s0.b.lo + 1].pkt));
      }
    }

    lemma OnTheWire()
      requires sb.Valid()
      ensures Logged(sb.wire, sb.b.tx)
    {
    }

    /** What a duplicate does once it has been counted. */
    ghost function AfterCount(s: Snd, clock: Clock): Snd {
      if s.c.status != MultiRecovery && s.c.dup == 3 then
        s.(b := Transmit(s.b, s.b.lo + 1, Rto(s.c), clock),
           c := if s.c.status == FastRecovery then s.c else EnterFastRecovery(s.c, s.b.lo, s.b.mid))
      else
        var c := if InRecovery(s.c) then Inflate(s.c) else s.c;
        s.(b := M.SendNext(s.b, Wnd(c), 1, Rto(c), clock), c := c)
    }

    lemma DuplicateFacts(clock: Clock)
      requires Midway(S()) && sb.b.lo < sb.b.mid && Ticking(clock)
      ensures var s := S().(c := CountDup(C()));
        && SndInv(DupAck(S(), clock)) && DupAck(S(), clock) == AfterCount(s, clock)
        && s.c.dup == Plus(duplicateCount, 1) && Rto(s.c) > 0
      ensures Head(sb.b)
    {
      DupAckKeeps(S(), clock);
      WindowOpen(C(), sb.b.lo, sb.b.mid);
    }

    /** A duplicate inside recovery inflates the window; any may let one packet out. */
    method InflateAndSend(clock: Clock)
      requires sb.Valid() && Head(sb.b) && Ticking(clock) && Rto(C()) > 0
      modifies this`cwnd, sb`maxSent, sb`timerList, sb`b, sb`armed, sb`wire, sb.buf
      ensures sb.Valid()
      ensures var c := if InRecovery(old(C())) then Inflate(old(C())) else old(C());
        C() == c && sb.b == M.SendNext(old(sb.b), Wnd(c), 1, Rto(c), clock)
    {
      hide SendingBuffer.Linked, SendingBuffer.Valid, Head, Wnd, M.SendNext;
      if status == FastRecovery || status == MultiRecovery {
        var grown := UpdateCwnd(MultiplicativeIncrease);
      }
      var sent := SendNext(1, clock);
    }

    /** The third duplicate: the head goes out again and recovery begins unless it is under way. */
    method RetransmitHead(clock: Clock)
      requires sb.Valid() && Head(sb.b) && sb.b.lo < sb.b.mid
      requires Ticking(clock) && Rto(C()) > 0 && status != MultiRecovery
      requires InRecovery(C()) ==> recoverIndex == Wire(recIdx)
      modifies this`cwnd, this`status, this`ssthresh, this`recover, this`recoverIndex, this`recIdx
      modifies sb`timerList, sb`b, sb`armed, sb`wire, sb.buf
      ensures sb.Valid() && (InRecovery(C()) ==> recoverIndex == Wire(recIdx))
      ensures sb.b == Transmit(old(sb.b), old(sb.b).lo + 1, Rto(old(C())), clock)
      ensures C() == if old(status) == FastRecovery then old(C())
                     else EnterFastRecovery(old(C()), old(sb.b).lo, old(sb.b).mid)
    {
      hide SendingBuffer.Linked, SendingBuffer.Valid, Head, Wire;
      SendHeadAgain(clock);
      hide Transmit;
      if status != FastRecovery {
        BeginRecovery();
      }
    }

    /** The scan for the next hole; it meets the head of the flight if nothing else stops it. */
    method SkipFreed()
      requires sb.Valid() && Head(sb.b) && sb.b.lo < sb.b.mid
      modifies this`multiRecoverIndex
      ensures sb.buf.Length == CNT && (multiRecoverIndex <= recoverIndex ==> sb.buf[multiRecoverIndex].pkt != None)
    {
      hide SendingBuffer.Linked, SendingBuffer.Valid, Diff, Plus, Wire;
      ghost var head := Wire(sb.b.lo + 1);
      Between();
      sb.Reads(sb.b.lo + 1);
      while sb.buf[multiRecoverIndex].pkt == None && multiRecoverIndex <= recoverIndex
        decreases Diff(head, multiRecoverIndex)
      {
        PlusApproaches(multiRecoverIndex, head);
        multiRecoverIndex := Plus(multiRecoverIndex, 1);
      }
    }

    /** The third duplicate: the loss is taken to end at maxSent. */
    method BeginRecovery()
      requires sb.Valid() && !InRecovery(C())
      modifies this`cwnd, this`status, this`ssthresh, this`recover, this`recoverIndex, this`recIdx
      ensures C() == EnterFastRecovery(old(C()), sb.b.lo, sb.b.mid) && recoverIndex == Wire(recIdx)
    {
      hide SendingBuffer.Linked, SendingBuffer.Valid, Wire, Diff;
      Between();
      DiffIsDistance(sb.b.mid, sb.b.lo);
      recover := Diff(sb.maxSent, sb.lastAcked);
      recoverIndex := sb.maxSent;
      recIdx := sb.b.mid;
      var flightSize := Diff(sb.maxSent, sb.lastAcked);
      ssthresh := Max(flightSize / 2, 2);
      var grown := UpdateCwnd(SetTo(ssthresh as real + 3.0));
      if status == CongAvoidance || status == SlowStart {
        status := FastRecovery;
      }
    }

    /** A fresh ack outside recovery, or one that ends it. */
    method FullAck(p: AckPacket, cnt: u16, clock: Clock, ghost k: Ack)
      requires Valid() && Carries(p, k) && AckUsable(sb.b, k) && Ticking(clock)
      requires sb.started && Fresh(sb.b, k) && !Partial(S(), k) && SetWindow(C(), k) == C() && cnt == k.a - sb.b.lo
      modifies this, sb, sb.buf
      ensures Valid() && ackRecvQueue == old(ackRecvQueue) && queue == old(queue)
      ensures S() == AfterNewAck(Acked(old(S()), k, false), cnt, clock)
    {
      hide SendingBuffer.Linked, SendingBuffer.Valid, SndInv, Midway, AckUsable, Wire, Cleared, M.UpdateRtt,
           AfterNewAck;
      ghost var s0 := S();
      AckedMidway(s0, k);
      status, recover := SlowStart, 0;
      TakeFresh(p, cnt, k);
      assert S() == Acked(s0, k, false);
      AfterFull(cnt, clock);
    }

    /** A fresh ack that leaves part of the recovered stretch open. */
    method PartialAck(p: AckPacket, cnt: u16, now: int, clock: Clock, ghost k: Ack)
      requires Valid() && Carries(p, k) && AckUsable(sb.b, k) && Ticking(clock) && now > 0
      requires sb.started && Fresh(sb.b, k) && Partial(S(), k) && SetWindow(C(), k) == C() && cnt == k.a - sb.b.lo
      modifies this, sb, sb.buf
      ensures Valid() && ackRecvQueue == old(ackRecvQueue) && queue == old(queue)
      ensures S() == var s1 := Acked(old(S()), k, true);
        if old(status) == FastRecovery then FirstPartialAck(s1, now, clock) else NextPartialAck(s1, cnt, now, clock)
    {
      hide SendingBuffer.Linked, SendingBuffer.Valid, SndInv, Midway, AckUsable, Wire, Cleared, M.UpdateRtt,
           FirstPartialAck, NextPartialAck;
      ghost var s0 := S();
      AckedMidway(s0, k);
      TakeFresh(p, cnt, k);
      recover := recover - cnt;
      assert S() == Acked(s0, k, true);
      if status == FastRecovery {
        AfterFirstPartial(now, clock);
      } else {
        AfterNextPartial(cnt, now, clock);
      }
    }

    /** ackRecv(pkt) */
    method AckRecv(p: AckPacket, now: int, clock: Clock, ghost k: Ack)
      requires Valid() && Carries(p, k) && AckUsable(sb.b, k) && Ticking(clock) && now > 0
      modifies this, sb, sb.buf
      ensures Valid() && ackRecvQueue == old(ackRecvQueue) && queue == old(queue)
      ensures S() == M.AckRecv(old(S()), k, now, clock)
    {
      hide SendingBuffer.Linked, SendingBuffer.Valid, SndInv, Midway, AckUsable, Wire, Diff;
      WindowFirst(S(), k, now, clock);
      if p.window != 0 {
        senderWindow := p.window;
      }
      TakeAck(p, now, clock, k);
    }

    /** ackRecv once the advertised window has been noted */
    method TakeAck(p: AckPacket, now: int, clock: Clock, ghost k: Ack)
      requires Valid() && Carries(p, k) && AckUsable(sb.b, k) && Ticking(clock) && now > 0
      requires SetWindow(C(), k) == C()
      modifies this, sb, sb.buf
      ensures Valid() && ackRecvQueue == old(ackRecvQueue) && queue == old(queue)
      ensures S() == M.AckRecv(old(S()), k, now, clock)
    {
      hide SendingBuffer.Linked, SendingBuffer.Valid, SndInv, Midway, AckUsable, Wire, Diff, AfterNewAck,
           FirstPartialAck, NextPartialAck, Acked, SetWindow, DupAck, FreeOrig;
      AckTests(p, k);
      var normalisedackno := Diff(p.ackNo, sb.lastAcked);
      if !sb.started {
        return;
      }
      if 0 < normalisedackno <= CNT / 2 {
        if (status == FastRecovery || status == MultiRecovery) && normalisedackno < recover {
          PartialAck(p, normalisedackno, now, clock, k);
        } else {
          FullAck(p, normalisedackno, clock, k);
        }
      } else if normalisedackno == 0 {
        SameAck(p, clock, k);
      }
    }

    /** An ack that names lastAcked again. */
    method SameAck(p: AckPacket, clock: Clock, ghost k: Ack)
      requires Valid() && Carries(p, k) && AckUsable(sb.b, k) && Ticking(clock) && sb.started && k.a == sb.b.lo
      modifies this, sb, sb.buf
      ensures Valid() && ackRecvQueue == old(ackRecvQueue) && queue == old(queue)
      ensures S() == var s := old(S()); var s1 := s.(b := FreeOrig(s.b, k));
        if s.b.lo == s.b.mid then s1 else DupAck(s1, clock)
    {
      hide SendingBuffer.Linked, SendingBuffer.Valid, AckUsable, Wire, FreeOrig, DupAck, SndInv, Midway;
      SameAckFacts(k);
      FreeOriginal(p, k);
      if sb.lastAcked != sb.maxSent {
        OnDuplicate(clock);
      }
    }

    lemma SameAckFacts(k: Ack)
      requires Valid() && AckUsable(sb.b, k) && sb.started && k.a == sb.b.lo
      ensures var s1 := S().(b := FreeOrig(sb.b, k));
        && s1.b.lo == sb.b.lo && s1.b.mid == sb.b.mid && sb.b.lo <= sb.b.mid
        && Midway(s1) && (sb.b.lo == sb.b.mid ==> SndInv(s1))
      ensures sb.lastAcked != sb.maxSent <==> sb.b.lo != sb.b.mid
    {
      FreeOrigKeeps(sb.b, k);
      sb.Reads(sb.b.lo);
      if sb.lastAcked == sb.maxSent {
        WireInjective(sb.b.mid, sb.b.lo);
      }
    }

    /** What the tests on the 16-bit ack number find out. */
    lemma AckTests(p: AckPacket, k: Ack)
      requires Valid() && Carries(p, k) && AckUsable(sb.b, k)
      ensures var d := Diff(p.ackNo, sb.lastAcked);
        && (0 < d <= CNT / 2 <==> Fresh(sb.b, k))
        && (Fresh(sb.b, k) ==> d == k.a - sb.b.lo)
        && (d == 0 <==> k.a == sb.b.lo)
    {
      DiffIsDistance(k.a, sb.b.lo);
      sb.Reads(sb.b.lo);
    }

    // -------------------------------------------------------------------------------------
    // Timeouts
    // -------------------------------------------------------------------------------------

    /** An expired packet whose ack waits in the queue: only its timer is restarted. */
    method Suppress(seqNo: u16, now: int, clock: Clock,
                    ghost b0: Buf, ghost done: set<int>, ghost order: seq<int>, ghost n: int)
      requires sb.Linked() && InFlightArmed() && n in sb.armed && seqNo == Wire(n)
      requires sb.b == PartSweep(b0, done, now, Rto(C()), clock, order) && SweepSoFar(b0, done, now, order)
      requires n in ExpiredIn(b0, now) && n !in done && b0.slots[n].ackRcvd
      modifies sb`timerList, sb`b, sb.buf
      ensures sb.Linked() && InFlightArmed()
      ensures sb.b == PartSweep(b0, done + {n}, now, Rto(C()), clock, order) && SweepSoFar(b0, done + {n}, now, order)
    {
      hide SendingBuffer.Linked, Wire, PartSweep, SweepSoFar, ExpiredIn;
      SweepMarked(b0, done, now, Rto(C()), clock, order, n);
      sb.RestartTimer(seqNo, now, n);
    }

    /** An expired packet goes out again. */
    method Retry(seqNo: u16, now: int, clock: Clock,
                 ghost b0: Buf, ghost done: set<int>, ghost order: seq<int>, ghost n: int)
      requires sb.Linked() && InFlightArmed() && n in sb.armed && seqNo == Wire(n) && n <= sb.b.mid
      requires sb.b == PartSweep(b0, done, now, Rto(C()), clock, order) && SweepSoFar(b0, done, now, order)
      requires n in ExpiredIn(b0, now) && n !in done && !b0.slots[n].ackRcvd && !Fatal(b0, n)
      modifies sb`timerList, sb`b, sb`armed, sb`wire, sb.buf
      ensures sb.Linked() && InFlightArmed()
      ensures sb.b == PartSweep(b0, done + {n}, now, Rto(C()), clock, order + [n])
      ensures SweepSoFar(b0, done + {n}, now, order + [n])
    {
      hide SendingBuffer.Linked, Wire, PartSweep, SweepSoFar, ExpiredIn, Fatal, Transmit;
      SweepResent(b0, done, now, Rto(C()), clock, order, n);
      TransmitAnew(sb.b, n, Rto(C()), clock);
      sb.Reads(n);
      sb.StopTimer(seqNo, n);
      var r := SendSeq(seqNo, clock, n);
      sb.Reads(n);
      TransmitSent(old(sb.b), n, Rto(C()), clock);
      var cell := sb.buf[seqNo];
      sb.SetFlags(seqNo, cell.sent, cell.ackRcvd, (cell.retry + 1) % 16, n);
    }

    /** A packet that has timed out for the fourth time under field 0 and whose ack has not come. */
    ghost predicate DeadlyIn(b: Buf, now: int) {
      exists n :: Fatal(b, n) && Expired(b.slots[n], now) && !b.slots[n].ackRcvd
    }

    /**
     The loop of timeoutEvent. It ends because each round takes one packet out of those expired
     at `now`, and none comes back: clock readings are not before `now`.
     */
    method SweepExpired(now: int, clock: Clock)
      returns (timeoutOccured: bool, ghost done: set<int>, ghost order: seq<int>)
      requires Valid() && Ticking(clock) && now > 0 && forall w :: clock(w) >= now
      modifies this`deadChannel, sb`timerList, sb`b, sb`armed, sb`wire, sb.buf
      ensures sb.Valid()
      ensures sb.b == PartSweep(old(sb.b), done, now, Rto(C()), clock, order) && SweepSoFar(old(sb.b), done, now, order)
      ensures timeoutOccured <==> order != []
      ensures deadChannel ==> DeadlyIn(old(sb.b), now)
      ensures !deadChannel ==> forall n :: n in sb.b.slots ==> !Expired(sb.b.slots[n], now)
    {
      hide SendingBuffer.Linked, SendingBuffer.Valid, SndInv, Wire, BufInv, Rto, PartSweep, SweepSoFar, ExpiredIn,
           Fatal, SameSlots;
      ghost var b0, rto_ := sb.b, Rto(C());
      SweepFacts(now, clock);
      timeoutOccured, done, order := false, {}, [];
      while sb.timerList != {}
        invariant sb.Linked() && InFlightArmed() && sb.base == b0.lo && !deadChannel
        invariant sb.b == PartSweep(b0, done, now, rto_, clock, order) && SweepSoFar(b0, done, now, order)
        invariant timeoutOccured <==> order != []
        decreases ExpiredIn(b0, now) - done
      {
        SweepShape(b0, done, now, rto_, clock, order);
        var k, n := sb.Begin();
        sb.Reads(n);
        var cell := sb.buf[k.seqNo];
        if cell.time != 0 && cell.time + cell.rto <= now {
          if cell.ackRcvd {
            Suppress(k.seqNo, now, clock, b0, done, order, n);
          } else {
            FatalTest(b0, n, now);
            if k.seqNo == 0 && cell.retry > 2 {
              deadChannel := true;
              break;
            }
            Retry(k.seqNo, now, clock, b0, done, order, n);
            order := order + [n];
            timeoutOccured := true;
          }
          done := done + {n};
        } else {
          assert Unexpired(now);
          break;
        }
      }
      SweepShape(b0, done, now, rto_, clock, order);
      Settle();
      if !deadChannel {
        sb.Keyed();
        NoneExpired(now);
      }
    }

    ghost predicate Unexpired(now: int)
      reads sb
    {
      forall m :: m in sb.armed ==> m in sb.b.slots && sb.b.slots[m].time + sb.b.slots[m].rto > now
    }

    lemma NoneExpired(now: int)
      requires InFlightArmed() && BufInv(sb.b) && Unexpired(now)
      ensures forall n :: n in sb.b.slots ==> !Expired(sb.b.slots[n], now)
    {
      forall n | n in sb.b.slots ensures !Expired(sb.b.slots[n], now) {
        assert SlotInv(sb.b, n);
      }
    }

    lemma SweepFacts(now: int, clock: Clock)
      requires Valid() && Ticking(clock)
      ensures sb.Linked() && InFlightArmed() && sb.base == sb.b.lo && !deadChannel
      ensures BufInv(sb.b) && Rto(C()) > 0
      ensures PartSweep(sb.b, {}, now, Rto(C()), clock, []) == sb.b && SweepSoFar(sb.b, {}, now, [])
    {
      WindowOpen(C(), sb.b.lo, sb.b.mid);
      SweepStarts(sb.b, now, Rto(C()), clock);
    }

    lemma FatalTest(b: Buf, n: int, now: int)
      requires n in ExpiredIn(b, now) && !b.slots[n].ackRcvd
      ensures Wire(n) == 0 && b.slots[n].retry > 2 <==> Fatal(b, n)
      ensures Fatal(b, n) ==> DeadlyIn(b, now)
    {
    }

    /** timeoutEvent(time) */
    method TimeoutEvent(now: int, clock: Clock) returns (ghost order: seq<int>)
      requires (!deadChannel ==> Valid()) && Ticking(clock) && now > 0 && forall w :: clock(w) >= now
      modifies this`deadChannel, this`cwnd, this`ssthresh, sb`timerList, sb`b, sb`armed, sb`wire, sb.buf
      ensures old(deadChannel) ==> S() == old(S()) && order == []
      ensures !deadChannel ==>
                && Valid() && S() == Timeout(old(S()), now, clock, order)
                && Enumerates(order, Resent(old(sb.b), now)) && (forall n :: n in order ==> !Fatal(old(sb.b), n))
                && (forall n :: n in sb.b.slots ==> !Expired(sb.b.slots[n], now))
                && (if order == [] then cwnd == old(cwnd) && ssthresh == old(ssthresh)
                    else cwnd == 1.0 && ssthresh == Max((old(cwnd) / 2.0).Floor, 2))
      ensures deadChannel && !old(deadChannel) ==>
                && sb.Valid() && DeadlyIn(old(sb.b), now)
                && sb.b.tx == Resend(old(sb.b), order).tx && SamePackets(old(sb.b), sb.b)
                && (forall n :: n in order ==> n in old(sb.b).slots && n <= old(sb.b).mid)
    {
      hide SendingBuffer.Valid, SendingBuffer.Linked, SndInv, PartSweep, SweepSoFar;
      order := [];
      if deadChannel {
        return;
      }
      var timeoutOccured;
      ghost var done;
      ghost var s0 := S();
      timeoutOccured, done, order := SweepExpired(now, clock);
      if timeoutOccured {
        var half := (cwnd / 2.0).Floor;
        ssthresh := if half < 2 then 2 else half;
        var grown := UpdateCwnd(SetToOne);
      }
      SweepOutcome(s0, done, now, clock, order);
    }

    /** getUndeliveredPackets(): what is left in the slots, in order, without the start markers */
    method GetUndeliveredPackets() returns (pktQ: seq<Packet>)
      requires sb.Valid() && deadChannel
      modifies sb`timerList, sb`b, sb`armed, sb.buf
      ensures pktQ == Undelivered(old(sb.b))
      ensures S() == Kill(old(S())) && sb.Linked() && sb.timerList == {}
    {
      hide SendingBuffer.Linked, SendingBuffer.Valid, Wire, Plus, Diff, BufInv, Freed;
      ghost var b0 := sb.b;
      Between();
      FreedNone(b0, b0.lo);
      WireSum(b0.lo, 1);
      DiffIsDistance(b0.hi, b0.lo);
      pktQ := [];
      var nextPkt := Plus(sb.lastAcked, 1);
      var pktCnt := Diff(sb.maxPacket, sb.lastAcked);
      sb.ClearTimers();
      var i := 0;
      while i < pktCnt
        invariant sb.Linked() && sb.armed == {} && sb.timerList == {} && sb.base == b0.lo
        invariant i <= pktCnt && nextPkt == Wire(b0.lo + 1 + i)
        invariant sb.b == Freed(b0, b0.lo, b0.lo + i)
        invariant pktQ + UndeliveredFrom(b0, b0.lo + 1 + i) == Undelivered(b0)
      {
        pktQ := TakeSlot(nextPkt, pktQ, b0, b0.lo + 1 + i);
        WireSum(b0.lo + 1 + i, 1);
        assert sb.b == Freed(b0, b0.lo, b0.lo + (i + 1));
        nextPkt := Plus(nextPkt, 1);
        i := i + 1;
      }
      AllTaken(b0);
    }

    /** One round of the loop of getUndeliveredPackets. */
    method TakeSlot(seqNo: u16, pktQ: seq<Packet>, ghost b0: Buf, ghost n: int) returns (r: seq<Packet>)
      requires sb.Linked() && sb.armed == {} && seqNo == Wire(n) && sb.base == b0.lo < n <= b0.hi && n <= sb.base + CNT
      requires sb.b == Freed(b0, b0.lo, n - 1)
      modifies sb`b, sb.buf
      ensures sb.Linked() && sb.b == Freed(b0, b0.lo, n)
      ensures r + UndeliveredFrom(b0, n + 1) == pktQ + UndeliveredFrom(b0, n)
    {
      hide SendingBuffer.Linked, Wire;
      sb.Reads(n);
      FreedOneMore(b0, b0.lo, n - 1);
      r := pktQ;
      var cell := sb.buf[seqNo];
      assert n in b0.slots ==> sb.b.slots[n] == b0.slots[n];
      hide Freed, Without;
      if cell.pkt == None {
        return;
      }
      sb.Free(seqNo, n);
      if cell.pkt.value.csn {
        return;
      }
      r := pktQ + [cell.pkt.value];
    }

    // -------------------------------------------------------------------------------------
    // The receive queue
    // -------------------------------------------------------------------------------------

    /**
     The part of recv() that takes an ack: it is queued, and the slot its origAckNo stands for is
     marked if a packet was sent from it, whatever number the ack answers.
     */
    method Recv(p: AckPacket, ghost k: Ack)
      requires Valid() && Carried(ackRecvQueue, queue) && Carries(p, k)
      modifies this`ackRecvQueue, this`queue, sb`b, sb.buf
      ensures Valid() && Carried(ackRecvQueue, queue)
      ensures S() == old(S()).(b := Mark(old(sb.b), SlotOf(old(sb.b), k.o))) && queue == old(queue) + [k]
    {
      hide SendingBuffer.Linked, SendingBuffer.Valid, Wire, BufInv, SndInv, SlotOf, ArmedExactly;
      ghost var n := SlotOf(sb.b, k.o);
      ackRecvQueue, queue := ackRecvQueue + [p], queue + [k];
      AnsweredSlot(n);
      var cell := sb.buf[p.origAckNo];
      if cell.sent {
        MarkedArmed(sb.b, sb.armed, n);
        sb.SetFlags(p.origAckNo, true, true, cell.retry, n);
        Settle();
      }
    }

    lemma AnsweredSlot(n: int)
      requires Valid() && sb.b.lo < n <= sb.b.lo + CNT
      ensures sb.Linked() && InFlightArmed() && sb.base == sb.b.lo && sb.buf.Length == CNT
      ensures sb.buf[Wire(n)] == if n in sb.b.slots then Cell(sb.b.slots[n], n) else EMPTY
      ensures BufInv(Mark(sb.b, n)) && SndInv(S().(b := Mark(sb.b, n)))
    {
      hide SendingBuffer.Linked, SendingBuffer.Valid, Wire, BufInv, SndInv, Mark, InFlightArmed;
      Between();
      sb.Reads(n);
      MarkKeeps(sb.b, n);
      MarkedSender(S(), n);
    }

    /** ackRecv(): the whole queue is drained; returns how far lastAcked has moved. */
    method AckRecvBatch(now: int, clock: Clock, ghost acks: set<AckMsg>, ghost r: R.Rcv) returns (vacantCell: u16)
      requires Valid() && Carried(ackRecvQueue, queue) && Ticking(clock) && now > 0
      requires ChannelProofs.Batch(S(), queue, acks, r, MaxAck(queue, sb.b.lo))
      modifies this, sb, sb.buf
      ensures Valid() && ackRecvQueue == [] && queue == []
      ensures S() == Drain(old(S()), old(queue), now, clock)
      ensures vacantCell == Norm(sb.b.lo, old(sb.b).lo)
    {
      hide SendingBuffer.Linked, SendingBuffer.Valid, SndInv, ChannelProofs.Batch, AckUsable, Selected, Wire, Diff,
           M.AckRecv, Process;
      ghost var s0, q := S(), queue;
      Between();
      ghost var lo0, top := sb.b.lo, MaxAck(queue, sb.b.lo);
      var packets := ackRecvQueue;
      var startedWith := sb.lastAcked;
      var maxAck, normalisedMaxAckNo := LargestAck(packets, q);
      ackRecvQueue, queue := [], [];
      var i := 0;
      while i < |packets|
        invariant 0 <= i <= |packets| && Valid() && ackRecvQueue == [] && queue == []
        invariant ChannelProofs.Batch(S(), q[i..], acks, r, top)
        invariant Process(S(), q[i..], lo0, normalisedMaxAckNo, now, clock) == Drain(s0, q, now, clock)
      {
        var pkt := packets[i];
        ghost var k := q[i];
        assert q[i..][0] == k && q[i..][1..] == q[i + 1..];
        BatchRound(S(), q[i..], lo0, normalisedMaxAckNo, now, clock, acks, r, top);
        HandOn(pkt, maxAck, normalisedMaxAckNo, now, clock, lo0, k);
        i := i + 1;
      }
      assert q[i..] == [];
      DrainedQueue(S(), lo0, normalisedMaxAckNo, now, clock);
      Between();
      vacantCell := Diff(sb.lastAcked, startedWith);
    }

    /** One round of the second loop: the ack is handed on or passed over. */
    method HandOn(pkt: AckPacket, maxAck: u16, normalisedMaxAckNo: u16, now: int, clock: Clock,
                  ghost lo0: int, ghost k: Ack)
      requires Valid() && Carries(pkt, k) && AckUsable(sb.b, k) && Ticking(clock) && now > 0
      requires normalisedMaxAckNo == Diff(maxAck, Wire(lo0))
      modifies this, sb, sb.buf
      ensures Valid() && ackRecvQueue == old(ackRecvQueue) && queue == old(queue)
      ensures S() == if Selected(k, lo0, old(sb.b).lo, normalisedMaxAckNo) then M.AckRecv(old(S()), k, now, clock)
                     else old(S())
    {
      hide SendingBuffer.Linked, SendingBuffer.Valid, SndInv, AckUsable, Wire, Diff, M.AckRecv;
      Between();
      var normalisedOrigAckNo := Diff(pkt.origAckNo, sb.lastAcked);
      SelectTest(pkt, k, lo0, maxAck, normalisedMaxAckNo);
      if pkt.ackNo == maxAck {
        AckRecv(pkt, now, clock, k);
      } else if normalisedOrigAckNo > normalisedMaxAckNo {
        AckRecv(pkt, now, clock, k);
      }
    }

    /** The first loop of ackRecv(). */
    method LargestAck(packets: seq<AckPacket>, ghost q: seq<Ack>) returns (maxAck: u16, normalisedMaxAckNo: u16)
      requires sb.Valid() && Carried(packets, q)
      ensures normalisedMaxAckNo == MaxNorm(q, sb.b.lo) == Diff(maxAck, sb.lastAcked)
    {
      hide SendingBuffer.Linked, SendingBuffer.Valid, Wire, Diff, MaxNorm;
      Between();
      SelfDistance(sb.lastAcked);
      maxAck := sb.lastAcked;
      normalisedMaxAckNo := Diff(maxAck, sb.lastAcked);
      NoAcks(q, sb.b.lo);
      for i := 0 to |packets|
        invariant normalisedMaxAckNo == MaxNorm(q[..i], sb.b.lo) == Diff(maxAck, sb.lastAcked)
      {
        OneMoreAck(q, i, sb.b.lo);
        var normalisedAckNo := Diff(packets[i].ackNo, sb.lastAcked);
        if normalisedAckNo > normalisedMaxAckNo {
          maxAck := packets[i].ackNo;
          normalisedMaxAckNo := normalisedAckNo;
        }
      }
    }
  }
}
