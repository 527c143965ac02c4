/** What every handler of the sending half keeps. */
module SenderLaws {
  import opened SeqNum
  import opened Packets
  import opened SenderModel

  ghost predicate Ticking(clock: Clock) {
    forall w :: clock(w) > 0
  }

  // ---------------------------------------------------------------------------------------
  // Congestion variables
  // ---------------------------------------------------------------------------------------

  lemma RttKeeps(r: Rtt, sentTS: int, recvTS: int)
    requires r.srtt >= 0.0 && r.rttvar >= 0.0 && r.rto >= 200000.0
    requires 0 <= sentTS <= recvTS
    ensures var q := UpdateRtt(r, sentTS, recvTS); q.srtt >= 0.0 && q.rttvar >= 0.0 && q.rto >= 200000.0
  {
  }

  lemma WindowOpen(c: Cong, lo: int, mid: int)
    requires CongInv(c, lo, mid)
    ensures 1 <= Wnd(c) <= HALF && Rto(c) > 0
  {
  }

  lemma CountedKeeps(c: Cong, k: Ack, partial: bool, lo: int, mid: int)
    requires CongInv(c, lo, mid) && 0 <= k.sentTS <= k.recvTS
    requires lo < k.a <= mid
    requires partial ==> InRecovery(c) && k.a - lo < c.recover
    ensures var d := Counted(c, k, k.a - lo, partial);
      CongInv(d, k.a, mid) && (if partial then d.status == c.status else !InRecovery(d))
  {
    RttKeeps(c.rtt, k.sentTS, k.recvTS);
  }

  lemma GrowKeeps(c: Cong, lo: int, mid: int)
    requires CongInv(c, lo, mid) && !InRecovery(c)
    ensures CongInv(Grow(c), lo, mid) && !InRecovery(Grow(c))
  {
  }

  /** Recovery covers a fixed stretch of the flight, so sending more leaves it valid. */
  lemma MidMoves(c: Cong, lo: int, mid: int, mid': int)
    requires CongInv(c, lo, mid) && mid <= mid'
    ensures CongInv(c, lo, mid')
  {
  }

  // ---------------------------------------------------------------------------------------
  // Buffer
  // ---------------------------------------------------------------------------------------

  /** The same packets are held. */
  ghost predicate SameSlots(b: Buf, t: Buf) {
    forall n :: n in t.slots <==> n in b.slots
  }

  /**
   sendNext never opens more flight than the window allows, keeps what is buffered, and with
   an open window and at least one packet asked for leaves nothing stalled.
   */
  lemma SendNextKeeps(b: Buf, wnd: int, cnt: int, rto: int, clock: Clock)
    requires BufInv(b) && Head(b) && Ticking(clock) && rto > 0
    ensures var t := SendNext(b, wnd, cnt, rto, clock);
      && BufInv(t) && Head(t)
      && t.lo == b.lo && t.hi == b.hi && t.mid >= b.mid
      && SameSlots(b, t)
      && ((wnd >= 1 && cnt >= 1) || NoStall(b) ==> NoStall(t))
      && (t.mid > b.mid ==> t.mid - t.lo <= wnd)
  {
    var t := SendNext(b, wnd, cnt, rto, clock);
    forall n | n in t.slots ensures SlotInv(t, n) {
      assert SlotInv(b, n);
    }
  }

  lemma TransmitKeeps(b: Buf, n: int, rto: int, clock: Clock)
    requires BufInv(b) && Head(b) && NoStall(b) && Ticking(clock) && rto > 0
    requires n in b.slots && n <= b.mid
    ensures var t := Transmit(b, n, rto, clock);
      && BufInv(t) && Head(t) && NoStall(t)
      && t.lo == b.lo && t.mid == b.mid && t.hi == b.hi
      && SameSlots(b, t)
  {
    var t := Transmit(b, n, rto, clock);
    forall m | m in t.slots ensures SlotInv(t, m) {
      assert SlotInv(b, m);
    }
  }

  lemma AddBufferKeeps(b: Buf, pkt: Packet)
    requires BufInv(b) && Head(b) && b.hi - b.lo < HALF
    ensures var t := AddBuffer(b, pkt);
      BufInv(t) && Head(t) && t.lo == b.lo && t.mid == b.mid && t.hi == b.hi + 1
      && b.hi + 1 !in b.slots
  {
    var t := AddBuffer(b, pkt);
    forall n | n in t.slots ensures SlotInv(t, n) {
      assert n in b.slots ==> SlotInv(b, n);
    }
    forall n | n in b.slots ensures n <= b.hi { assert SlotInv(b, n); }
  }

  lemma FreeOrigKeeps(b: Buf, k: Ack)
    requires BufInv(b) && k.o <= b.mid
    ensures BufInv(FreeOrig(b, k))
  {
    var t := FreeOrig(b, k);
    forall n | n in t.slots ensures SlotInv(t, n) {
      assert SlotInv(b, n);
    }
  }

  /** A fresh ack frees exactly the packets it covers and the one it answers. */
  lemma ClearedKeeps(b: Buf, k: Ack)
    requires BufInv(b) && AckUsable(b, k) && Fresh(b, k)
    ensures var t := Cleared(b, k);
      && BufInv(t) && Head(t)
      && t.lo == k.a && t.mid == b.mid && t.hi == b.hi
      && (forall n :: n in t.slots <==> n in b.slots && n > k.a && n != k.o)
  {
    var t := Cleared(b, k);
    forall n | n in b.slots ensures n > b.lo { assert SlotInv(b, n); }
    forall n | n in t.slots ensures SlotInv(t, n) {
      assert SlotInv(b, n);
    }
  }

  lemma RestartKeeps(b: Buf, cnt: int, now: int)
    requires BufInv(b) && Head(b) && now > 0 && b.lo + cnt <= b.mid
    ensures var t := RestartTimers(b, cnt, now);
      && BufInv(t) && Head(t)
      && t.lo == b.lo && t.mid == b.mid && t.hi == b.hi
      && SameSlots(b, t)
  {
    var t := RestartTimers(b, cnt, now);
    forall n | n in t.slots ensures SlotInv(t, n) {
      assert SlotInv(b, n);
    }
  }

  lemma MarkKeeps(b: Buf, o: int)
    requires BufInv(b)
    ensures BufInv(Mark(b, o)) && SameSlots(b, Mark(b, o))
  {
    var t := Mark(b, o);
    forall n | n in t.slots ensures SlotInv(t, n) {
      assert SlotInv(b, n);
    }
  }

  lemma MarkedSender(s: Snd, o: int)
    requires SndInv(s)
    ensures SndInv(s.(b := Mark(s.b, o)))
  {
    MarkKeeps(s.b, o);
    hide CongInv;
  }

  lemma SweepKeeps(b: Buf, now: int, rto: int, clock: Clock, order: seq<int>)
    requires BufInv(b) && Ticking(clock) && rto > 0
    requires forall i :: 0 <= i < |order| ==> order[i] in b.slots
    ensures var t := Sweep(b, now, rto, clock, order); BufInv(t) && SameSlots(b, t)
  {
    var t := Sweep(b, now, rto, clock, order);
    forall n | n in t.slots ensures SlotInv(t, n) {
      assert SlotInv(b, n);
    }
  }

  // ---------------------------------------------------------------------------------------
  // Handlers
  // ---------------------------------------------------------------------------------------

  lemma SubmitKeeps(s: Snd, pkt: Packet, clock: Clock)
    requires SndInv(s) && Ticking(clock)
    ensures SndInv(Submit(s, pkt, clock))
  {
    if SubmitCodeOf(s) == Accepted {
      AddBufferKeeps(s.b, pkt);
      WindowOpen(s.c, s.b.lo, s.b.mid);
      var b1 := AddBuffer(s.b, pkt);
      SendNextKeeps(b1, Wnd(s.c), 1, Rto(s.c), clock);
      MidMoves(s.c, s.b.lo, s.b.mid, SendNext(b1, Wnd(s.c), 1, Rto(s.c), clock).mid);
    }
  }

  /** A state in the middle of an ack: everything but the promise that nothing is stalled. */
  ghost predicate Midway(s: Snd) {
    match s
    case Snd(b, c, started, dead) => !dead && BufInv(b) && Head(b) && CongInv(c, b.lo, b.mid) && started
  }

  lemma MidwayParts(s: Snd)
    requires Midway(s)
    ensures BufInv(s.b) && Head(s.b) && CongInv(s.c, s.b.lo, s.b.mid)
  {
  }

  /** What the second half of an ack leaves alone. */
  ghost predicate SameWindow(s: Snd, t: Snd) {
    t.b.lo == s.b.lo && t.b.hi == s.b.hi && SameSlots(s.b, t.b)
  }

  lemma NewAckKeeps(s: Snd, cnt: int, clock: Clock)
    requires Midway(s) && Ticking(clock) && !InRecovery(s.c)
    requires 0 < cnt <= HALF && (cnt == HALF ==> NoStall(s.b))
    ensures var t := AfterNewAck(s, cnt, clock); SndInv(t) && SameWindow(s, t)
  {
    GrowKeeps(s.c, s.b.lo, s.b.mid);
    var c1 := Grow(s.c);
    WindowOpen(c1, s.b.lo, s.b.mid);
    SendNextKeeps(s.b, Wnd(c1), (2 * cnt) % CNT, Rto(c1), clock);
    var b1 := SendNext(s.b, Wnd(c1), (2 * cnt) % CNT, Rto(c1), clock);
    MidMoves(c1, s.b.lo, s.b.mid, b1.mid);
    assert Settled(b1, c1);
  }

  /** Recovery lies inside the flight, and the flight is at most half the number space. */
  lemma FlightBounds(s: Snd)
    requires Midway(s)
    ensures s.b.lo <= s.b.mid <= s.b.lo + HALF && (InRecovery(s.c) ==> s.b.lo + s.c.recover <= s.b.mid)
  {
  }

  lemma SameSlotsTransitive(b: Buf, t: Buf, u: Buf)
    requires SameSlots(b, t) && SameSlots(t, u)
    ensures SameSlots(b, u)
  {
  }

  lemma SecondPhaseKeeps(c: Cong, lo: int, mid: int)
    requires CongInv(c, lo, mid) && c.status == FastRecovery
    ensures CongInv(c.(status := MultiRecovery, dup := 3), lo, mid)
  {
  }

  /** The head goes out again and recovery enters its second phase. */
  lemma HeadSentAgain(b: Buf, c: Cong, now: int, clock: Clock)
    requires BufInv(b) && Head(b) && CongInv(c, b.lo, b.mid) && c.status == FastRecovery
    requires b.lo < b.mid && b.lo + c.recover <= b.mid && Ticking(clock) && now > 0
    ensures var t := Transmit(RestartTimers(b, c.recover, now), b.lo + 1, Rto(c), clock);
      && Settled(t, c.(status := MultiRecovery, dup := 3))
      && t.lo == b.lo && t.hi == b.hi && SameSlots(b, t)
  {
    hide BufInv, CongInv, SameSlots, Transmit, RestartTimers, Rto, Ticking;
    WindowOpen(c, b.lo, b.mid);
    RestartKeeps(b, c.recover, now);
    var b1 := RestartTimers(b, c.recover, now);
    TransmitKeeps(b1, b.lo + 1, Rto(c), clock);
    SameSlotsTransitive(b, b1, Transmit(b1, b.lo + 1, Rto(c), clock));
    SecondPhaseKeeps(c, b.lo, b.mid);
  }

  lemma FirstPartialKeeps(s: Snd, now: int, clock: Clock)
    requires Midway(s) && s.b.lo < s.b.mid && Ticking(clock) && now > 0 && s.c.status == FastRecovery
    ensures var t := FirstPartialAck(s, now, clock); SndInv(t) && SameWindow(s, t)
  {
    hide Settled, SameSlots, Transmit, RestartTimers, Rto, Ticking;
    FlightBounds(s);
    HeadSentAgain(s.b, s.c, now, clock);
  }

  lemma NextPartialKeeps(s: Snd, cnt: int, now: int, clock: Clock)
    requires Midway(s) && s.b.lo < s.b.mid && Ticking(clock) && now > 0 && s.c.status == MultiRecovery
    ensures var t := NextPartialAck(s, cnt, now, clock); SndInv(t) && SameWindow(s, t)
  {
    WindowOpen(s.c, s.b.lo, s.b.mid);
    RestartKeeps(s.b, s.c.recover, now);
    var b1 := RestartTimers(s.b, s.c.recover, now);
    SendNextKeeps(b1, Wnd(s.c), 1, Rto(s.c), clock);
    var b2, c2 := SendNext(b1, Wnd(s.c), 1, Rto(s.c), clock), Deflate(s.c, cnt);
    MidMoves(c2, s.b.lo, s.b.mid, b2.mid);
    assert Settled(b2, c2);
  }

  lemma CountDupKeeps(c: Cong, lo: int, mid: int)
    requires CongInv(c, lo, mid)
    ensures CongInv(CountDup(c), lo, mid) && CongInv(Inflate(CountDup(c)), lo, mid)
  {
  }

  lemma EnterKeeps(c: Cong, lo: int, mid: int)
    requires CongInv(c, lo, mid) && lo < mid <= lo + HALF
    ensures CongInv(EnterFastRecovery(c, lo, mid), lo, mid)
  {
  }

  /** The third duplicate: the head goes out again. */
  lemma ThirdDup(b: Buf, c: Cong, clock: Clock)
    requires BufInv(b) && Head(b) && CongInv(c, b.lo, b.mid) && b.lo < b.mid <= b.lo + HALF && Ticking(clock)
    ensures var t := Transmit(b, b.lo + 1, Rto(c), clock);
      && Settled(t, c) && Settled(t, EnterFastRecovery(c, b.lo, b.mid))
      && t.lo == b.lo && t.hi == b.hi && SameSlots(b, t)
  {
    hide BufInv, CongInv, SameSlots, Transmit, EnterFastRecovery, Rto, Ticking;
    WindowOpen(c, b.lo, b.mid);
    TransmitKeeps(b, b.lo + 1, Rto(c), clock);
    EnterKeeps(c, b.lo, b.mid);
  }

  /** Any other duplicate lets at most one packet out. */
  lemma OtherDup(b: Buf, c: Cong, clock: Clock)
    requires BufInv(b) && Head(b) && CongInv(c, b.lo, b.mid) && b.lo < b.mid && Ticking(clock)
    ensures var t := SendNext(b, Wnd(c), 1, Rto(c), clock);
      Settled(t, c) && t.lo == b.lo && t.hi == b.hi && SameSlots(b, t)
  {
    hide BufInv, CongInv, SameSlots, SendNext, Wnd, Rto, Ticking;
    WindowOpen(c, b.lo, b.mid);
    SendNextKeeps(b, Wnd(c), 1, Rto(c), clock);
    MidMoves(c, b.lo, b.mid, SendNext(b, Wnd(c), 1, Rto(c), clock).mid);
  }

  lemma DupAckKeeps(s: Snd, clock: Clock)
    requires Midway(s) && s.b.lo < s.b.mid && Ticking(clock)
    ensures var t := DupAck(s, clock); SndInv(t) && SameWindow(s, t)
  {
    hide Settled, SameSlots, Transmit, SendNext, CountDup, Inflate, EnterFastRecovery, Wnd, Rto, Ticking;
    FlightBounds(s);
    var c1 := CountDup(s.c);
    CountDupKeeps(s.c, s.b.lo, s.b.mid);
    if c1.status != MultiRecovery && c1.dup == 3 {
      ThirdDup(s.b, c1, clock);
    } else {
      OtherDup(s.b, if InRecovery(c1) then Inflate(c1) else c1, clock);
    }
  }

  lemma AckedMidway(s: Snd, k: Ack)
    requires SndInv(s) && AckUsable(s.b, k) && s.started && Fresh(s.b, k)
    ensures var t := Acked(s, k, Partial(s, k));
      && Midway(t) && t.b.lo == k.a && t.b.hi == s.b.hi
      && (if Partial(s, k) then t.c.status == s.c.status && t.b.lo < t.b.mid else !InRecovery(t.c))
      && (k.a == s.b.lo + HALF ==> NoStall(t.b))
      && (forall n :: n in t.b.slots <==> n in s.b.slots && n > k.a && n != k.o)
  {
    ClearedKeeps(s.b, k);
    CountedKeeps(SetWindow(s.c, k), k, Partial(s, k), s.b.lo, s.b.mid);
  }

  lemma FullAckKeeps(s: Snd, k: Ack, now: int, clock: Clock)
    requires SndInv(s) && AckUsable(s.b, k) && Ticking(clock)
    requires s.started && Fresh(s.b, k) && !Partial(s, k)
    ensures var s1 := Acked(s, k, false); var t := AckRecv(s, k, now, clock);
      SndInv(t) && SameWindow(s1, t)
  {
    hide AfterNewAck, Acked, Midway, SndInv, SameWindow;
    AckedMidway(s, k);
    NewAckKeeps(Acked(s, k, false), k.a - s.b.lo, clock);
  }

  lemma PartialAckKeeps(s: Snd, k: Ack, now: int, clock: Clock)
    requires SndInv(s) && AckUsable(s.b, k) && Ticking(clock) && now > 0
    requires s.started && Fresh(s.b, k) && Partial(s, k)
    ensures var s1 := Acked(s, k, true); var t := AckRecv(s, k, now, clock);
      SndInv(t) && SameWindow(s1, t)
  {
    hide Acked, FirstPartialAck, NextPartialAck, Midway, SndInv, SameWindow;
    AckedMidway(s, k);
    if s.c.status == FastRecovery {
      FirstPartialKeeps(Acked(s, k, true), now, clock);
    } else {
      NextPartialKeeps(Acked(s, k, true), k.a - s.b.lo, now, clock);
    }
  }

  /**
   Every ack the channel can be handed keeps the sender's invariant: counters ordered and
   within half the number space, congestion and recovery variables in range, head of the
   flight buffered, nothing stalled. It frees the packets it covers and the one it answers,
   and no other.
   */
  lemma AckRecvKeeps(s: Snd, k: Ack, now: int, clock: Clock)
    requires SndInv(s) && AckUsable(s.b, k) && Ticking(clock) && now > 0
    ensures var t := AckRecv(s, k, now, clock);
      && SndInv(t) && t.b.hi == s.b.hi
      && t.b.lo == (if s.started && Fresh(s.b, k) then k.a else s.b.lo)
      && (forall n :: n in t.b.slots <==>
            n in s.b.slots && n > t.b.lo && (n != k.o || !s.started || k.a < s.b.lo))
  {
    forall n | n in s.b.slots ensures n > s.b.lo { assert SlotInv(s.b, n); }
    if s.started && Fresh(s.b, k) {
      AckedMidway(s, k);
      hide Acked, FirstPartialAck, NextPartialAck, AfterNewAck;
      if Partial(s, k) {
        PartialAckKeeps(s, k, now, clock);
      } else {
        FullAckKeeps(s, k, now, clock);
      }
    } else if s.started && k.a == s.b.lo {
      FreeOrigKeeps(s.b, k);
      if s.b.lo != s.b.mid {
        var s1 := s.(b := FreeOrig(s.b, k), c := SetWindow(s.c, k));
        hide DupAck;
        DupAckKeeps(s1, clock);
      }
    }
  }

  lemma TimeoutKeeps(s: Snd, now: int, clock: Clock, order: seq<int>)
    requires SndInv(s) && Ticking(clock)
    requires forall i :: 0 <= i < |order| ==> order[i] in s.b.slots
    ensures var t := Timeout(s, now, clock, order); SndInv(t) && SameSlots(s.b, t.b)
  {
    WindowOpen(s.c, s.b.lo, s.b.mid);
    SweepKeeps(s.b, now, Rto(s.c), clock, order);
  }
}
