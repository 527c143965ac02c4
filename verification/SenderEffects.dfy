/**
 What the events of a sender put on the wire and do to its windows, one lemma for each kind of
 event, in terms of the state before it.
 */
module SenderEffects {
  import opened SeqNum
  import opened Packets
  import opened SenderModel
  import opened SenderLaws

  // ---------------------------------------------------------------------------------------
  // On the wire
  // ---------------------------------------------------------------------------------------

  /** The packets under the numbers `ns`, in that order, are all that went out. */
  ghost predicate PutOut(b: Buf, t: Buf, ns: seq<int>) {
    && |t.tx| == |b.tx| + |ns|
    && (forall i :: 0 <= i < |b.tx| ==> t.tx[i] == b.tx[i])
    && (forall i :: 0 <= i < |ns| ==> ns[i] in b.slots && t.tx[|b.tx| + i] == Tx(ns[i], b.slots[ns[i]].pkt))
  }

  /** The next `cnt` numbers go out for the first time. */
  ghost predicate NewOut(b: Buf, t: Buf, cnt: nat) {
    t.mid == b.mid + cnt && PutOut(b, t, seq(cnt, i => b.mid + 1 + i))
  }

  /** Number `n`, sent before, goes out again, under a timer that starts now; no other timer changes. */
  ghost predicate OnceMore(b: Buf, t: Buf, n: int, time: int, rto: int) {
    && t.mid == b.mid && PutOut(b, t, [n])
    && n in t.slots && t.slots[n].time == time && t.slots[n].rto == rto && t.slots[n].sent
  }

  /** The slots named keep all they had. */
  ghost predicate Untouched(b: Buf, t: Buf, n: int) {
    n in b.slots && n in t.slots && t.slots[n] == b.slots[n]
  }

  /** A slot whose packet went out for the first time: its timer runs from now. */
  ghost predicate Started(b: Buf, t: Buf, n: int, rto: int, clock: Clock) {
    && n in b.slots && n in t.slots
    && t.slots[n] == Slot(b.slots[n].pkt, clock(Wire(n)), rto, b.slots[n].retry, true, b.slots[n].ackRcvd)
  }

  /** The window: the largest number of packets within the advertised window and half above cwnd. */
  lemma WindowExact(c: Cong, w: int)
    ensures w <= Wnd(c) <==> w <= c.window && w as real <= c.cwnd + 0.5
  {
  }

  /** How many packets go out when `room` fit the window, `unsent` wait and `cnt` are asked for. */
  function Fewest(room: int, unsent: int, cnt: int): nat {
    var least := if room <= unsent && room <= cnt then room else if unsent <= cnt then unsent else cnt;
    if least < 0 then 0 else least
  }

  lemma SendNextEffect(b: Buf, wnd: int, cnt: int, rto: int, clock: Clock)
    requires UnsentPresent(b)
    ensures var t := SendNext(b, wnd, cnt, rto, clock); var k := Fewest(wnd - (b.mid - b.lo), b.hi - b.mid, cnt);
      && NewOut(b, t, k) && t.lo == b.lo && t.hi == b.hi
      && (forall n :: b.mid < n <= b.mid + k ==> Started(b, t, n, rto, clock))
      && (forall n :: n in b.slots && !(b.mid < n <= b.mid + k) ==> Untouched(b, t, n))
      && (forall n :: n in t.slots ==> n in b.slots)
  {
    var k := SendCount(b, wnd, cnt);
    assert k == Fewest(wnd - (b.mid - b.lo), b.hi - b.mid, cnt);
    var t := SendNext(b, wnd, cnt, rto, clock);
    var ns := seq(k, i => b.mid + 1 + i);
    forall i | 0 <= i < k ensures ns[i] in b.slots && t.tx[|b.tx| + i] == Tx(ns[i], b.slots[ns[i]].pkt) {
      assert t.tx[|b.tx| + i] == TxOf(b, b.mid + 1 + i);
    }
  }

  lemma TransmitEffect(b: Buf, n: int, rto: int, clock: Clock)
    requires n in b.slots
    ensures var t := Transmit(b, n, rto, clock);
      && OnceMore(b, t, n, clock(Wire(n)), rto) && t.lo == b.lo && t.hi == b.hi
      && (forall m :: m in b.slots && m != n ==> Untouched(b, t, m))
      && (forall m :: m in t.slots ==> m in b.slots)
  {
  }

  /** What was put out from a buffer that had lost a few slots or restarted timers was put out from the one before. */
  lemma PutOutEarlier(b: Buf, b1: Buf, t: Buf, ns: seq<int>)
    requires PutOut(b1, t, ns) && b1.tx == b.tx
    requires forall n :: n in b1.slots ==> n in b.slots && b.slots[n].pkt == b1.slots[n].pkt
    ensures PutOut(b, t, ns)
  {
  }

  // ---------------------------------------------------------------------------------------
  // Acks
  // ---------------------------------------------------------------------------------------

  /** The window an ack advertises; 0 advertises nothing. */
  function Advertised(c: Cong, k: Ack): int {
    if k.window != 0 then k.window else c.window
  }

  /** An ack that may be handled now, on a channel that has sent something. */
  ghost predicate Handled(s: Snd, k: Ack, now: int, clock: Clock) {
    SndInv(s) && AckUsable(s.b, k) && s.started && Ticking(clock) && now > 0
  }

  /** An ack older than lastAcked, or for nothing in flight, moves nothing but the advertised window. */
  lemma OldAckEffect(s: Snd, k: Ack, now: int, clock: Clock)
    requires SndInv(s) && AckUsable(s.b, k) && (k.a < s.b.lo || !s.started || k.a == s.b.lo == s.b.mid)
    ensures AckRecv(s, k, now, clock) == s.(c := s.c.(window := Advertised(s.c, k)))
  {
    assert k.o in s.b.slots ==> SlotInv(s.b, k.o);
  }

  /** What a duplicate ack leaves of the congestion variables whatever else it does. */
  predicate DupKept(c: Cong, d: Cong, k: Ack) {
    d.window == Advertised(c, k) && d.dup == (c.dup + 1) % CNT && d.rtt == c.rtt
  }

  lemma DuplicateFacts(s: Snd, k: Ack, now: int, clock: Clock)
    requires Handled(s, k, now, clock) && k.a == s.b.lo < s.b.mid
    ensures Head(s.b) && k.o != s.b.lo + 1 && k.o <= s.b.mid <= s.b.lo + HALF && UnsentPresent(s.b)
    ensures AckRecv(s, k, now, clock) == DupAck(s.(b := FreeOrig(s.b, k), c := SetWindow(s.c, k)), clock)
    ensures (s.c.dup + 1) % CNT == 3 <==> s.c.dup == 2
    ensures FreeOrig(s.b, k).lo == s.b.lo && FreeOrig(s.b, k).mid == s.b.mid && FreeOrig(s.b, k).hi == s.b.hi
  {
    hide DupAck, Ticking;
  }

  lemma HeadOutAgain(b: Buf, k: Ack, rto: int, clock: Clock)
    requires Head(b) && b.lo < b.mid && k.o != b.lo + 1
    ensures var t := Transmit(FreeOrig(b, k), b.lo + 1, rto, clock);
      && OnceMore(b, t, b.lo + 1, clock(Wire(b.lo + 1)), rto) && t.lo == b.lo && t.hi == b.hi
      && (forall n :: n in b.slots && n != b.lo + 1 && n != k.o ==> Untouched(b, t, n))
  {
    var b1 := FreeOrig(b, k);
    TransmitEffect(b1, b.lo + 1, rto, clock);
    hide Transmit;
    PutOutEarlier(b, b1, Transmit(b1, b.lo + 1, rto, clock), [b.lo + 1]);
  }

  lemma NewOutAfterFree(b: Buf, k: Ack, wnd: int, rto: int, clock: Clock)
    requires UnsentPresent(b) && k.o <= b.mid
    ensures var t := SendNext(FreeOrig(b, k), wnd, 1, rto, clock);
      && NewOut(b, t, Fewest(wnd - (b.mid - b.lo), b.hi - b.mid, 1)) && t.lo == b.lo && t.hi == b.hi
      && (forall n :: n in b.slots && n <= b.mid && n != k.o ==> Untouched(b, t, n))
  {
    var b1, cnt := FreeOrig(b, k), Fewest(wnd - (b.mid - b.lo), b.hi - b.mid, 1);
    SendNextEffect(b1, wnd, 1, rto, clock);
    hide SendNext, Fewest;
    PutOutEarlier(b, b1, SendNext(b1, wnd, 1, rto, clock), seq(cnt, i => b.mid + 1 + i));
  }

  /** What the third duplicate does to the congestion variables outside recovery. */
  lemma RecoveryEntered(c: Cong, k: Ack, lo: int, mid: int)
    requires lo < mid <= lo + HALF
    ensures var c1 := CountDup(SetWindow(c, k)); var d := EnterFastRecovery(c1, lo, mid); var flight := mid - lo;
      && DupKept(c, c1, k) && DupKept(c, d, k) && Rto(c1) == Rto(c)
      && c1.status == c.status && c1.cwnd == c.cwnd && c1.ssthresh == c.ssthresh
      && c1.recover == c.recover && c1.recIdx == c.recIdx
      && d.status == FastRecovery && d.recover == flight && d.recIdx == mid
      && d.ssthresh == (if flight / 2 > 2 then flight / 2 else 2) && d.cwnd == d.ssthresh as real + 3.0
  {
  }

  lemma DuplicateCounted(c: Cong, k: Ack)
    ensures var c1 := CountDup(SetWindow(c, k)); var d := if InRecovery(c1) then Inflate(c1) else c1;
      && c1.dup == (c.dup + 1) % CNT && c1.status == c.status && DupKept(c, d, k)
      && d.status == c.status && d.ssthresh == c.ssthresh && d.recover == c.recover && d.recIdx == c.recIdx
      && d.cwnd == if !InRecovery(c) then c.cwnd else if c.cwnd >= 32767.0 then 32768.0 else c.cwnd + 1.0
  {
  }

  /**
   The third duplicate ack: the head goes out again at once, and nothing else. Outside recovery the
   channel enters it: half the flight, at least 2, becomes the threshold, and the window is three
   more (section 3.2 of RFC 2581).
   */
  lemma ThirdDuplicate(s: Snd, k: Ack, now: int, clock: Clock)
    requires Handled(s, k, now, clock) && k.a == s.b.lo < s.b.mid && s.c.dup == 2 && s.c.status != MultiRecovery
    ensures var t := AckRecv(s, k, now, clock); var flight := s.b.mid - s.b.lo;
      && t.b.lo == s.b.lo && t.b.hi == s.b.hi
      && OnceMore(s.b, t.b, s.b.lo + 1, clock(Wire(s.b.lo + 1)), Rto(s.c))
      && (forall n :: n in s.b.slots && n != s.b.lo + 1 && n != k.o ==> Untouched(s.b, t.b, n))
      && DupKept(s.c, t.c, k) && t.c.status == FastRecovery
      && (if s.c.status == FastRecovery then
            t.c.cwnd == s.c.cwnd && t.c.ssthresh == s.c.ssthresh
            && t.c.recover == s.c.recover && t.c.recIdx == s.c.recIdx
          else
            && t.c.ssthresh == (if flight / 2 > 2 then flight / 2 else 2)
            && t.c.cwnd == t.c.ssthresh as real + 3.0
            && t.c.recover == flight && t.c.recIdx == s.b.mid)
  {
    hide SndInv, AckUsable, FreeOrig, Transmit, PutOut, Rto, CountDup, EnterFastRecovery, Ticking;
    DuplicateFacts(s, k, now, clock);
    HeadOutAgain(s.b, k, Rto(s.c), clock);
    RecoveryEntered(s.c, k, s.b.lo, s.b.mid);
  }

  /** Any other duplicate ack: inside recovery the window opens by one; one packet not sent before may go out. */
  lemma OtherDuplicate(s: Snd, k: Ack, now: int, clock: Clock)
    requires Handled(s, k, now, clock) && k.a == s.b.lo < s.b.mid && (s.c.dup != 2 || s.c.status == MultiRecovery)
    ensures var t := AckRecv(s, k, now, clock); var flight := s.b.mid - s.b.lo;
      && t.b.lo == s.b.lo && t.b.hi == s.b.hi
      && NewOut(s.b, t.b, Fewest(Wnd(t.c) - flight, s.b.hi - s.b.mid, 1))
      && (forall n :: n in s.b.slots && n <= s.b.mid && n != k.o ==> Untouched(s.b, t.b, n))
      && DupKept(s.c, t.c, k)
      && t.c.status == s.c.status && t.c.ssthresh == s.c.ssthresh
      && t.c.recover == s.c.recover && t.c.recIdx == s.c.recIdx
      && t.c.cwnd == if !InRecovery(s.c) then s.c.cwnd else if s.c.cwnd >= 32767.0 then 32768.0 else s.c.cwnd + 1.0
  {
    hide SndInv, AckUsable, FreeOrig, SendNext, PutOut, Rto, Wnd, CountDup, Inflate, Ticking, Fewest;
    DuplicateFacts(s, k, now, clock);
    var c1 := CountDup(SetWindow(s.c, k));
    var c2 := if InRecovery(c1) then Inflate(c1) else c1;
    DuplicateCounted(s.c, k);
    NewOutAfterFree(s.b, k, Wnd(c2), Rto(c2), clock);
  }

  /** What a fresh ack does to the buffer before anything goes out. */
  lemma ClearedEffect(b: Buf, k: Ack)
    requires BufInv(b) && AckUsable(b, k) && Fresh(b, k)
    ensures var t := Cleared(b, k);
      && t.lo == k.a && t.mid == b.mid && t.hi == b.hi && t.tx == b.tx && UnsentPresent(t)
      && (forall n :: n in t.slots ==> Untouched(b, t, n))
      && (forall n :: n in b.slots && n > k.a && n != k.o ==> n in t.slots)
      && (k.a < b.mid ==> k.a + 1 in t.slots)
  {
  }

  lemma FreshFacts(s: Snd, k: Ack, now: int, clock: Clock)
    requires Handled(s, k, now, clock) && s.b.lo < k.a
    ensures BufInv(s.b) && Fresh(s.b, k) && k.a <= s.b.mid && k.a - s.b.lo <= HALF
    ensures InRecovery(s.c) ==> s.b.lo + s.c.recover == s.c.recIdx <= s.b.mid
    ensures !InRecovery(s.c) ==> s.c.recover == 0
  {
    hide Ticking;
  }

  /** What every fresh ack does to the congestion variables. */
  predicate FreshKept(c: Cong, d: Cong, k: Ack) {
    && d.window == Advertised(c, k) && d.ssthresh == c.ssthresh && d.recIdx == c.recIdx
    && d.rtt == UpdateRtt(c.rtt, k.sentTS, k.recvTS)
  }

  /** An ack of everything that recovery was about, or outside recovery: it ends there, and the window grows. */
  predicate FullAck(s: Snd, k: Ack) {
    !InRecovery(s.c) || k.a - s.b.lo >= s.c.recover
  }

  /**
   A full ack: the window grows by one packet up to the threshold and by its inverse above (section
   3.1 of RFC 2581), and of what waits up to twice as many packets go out as were acked.
   */
  lemma FullAckEffect(s: Snd, k: Ack, now: int, clock: Clock)
    requires Handled(s, k, now, clock) && s.b.lo < k.a && FullAck(s, k)
    ensures var t := AckRecv(s, k, now, clock); var cnt := k.a - s.b.lo;
      && t.b.lo == k.a && t.b.hi == s.b.hi
      && NewOut(s.b, t.b, Fewest(Wnd(t.c) - (s.b.mid - k.a), s.b.hi - s.b.mid, 2 * cnt % CNT))
      && (forall n :: s.b.mid < n <= t.b.mid ==> Started(s.b, t.b, n, Rto(t.c), clock))
      && (forall n :: n in s.b.slots && k.a < n && n != k.o && (n <= s.b.mid || n > t.b.mid) ==> Untouched(s.b, t.b, n))
      && FreshKept(s.c, t.c, k) && t.c.dup == 0 && t.c.recover == 0
      && (if s.c.cwnd <= s.c.ssthresh as real then t.c.status == SlowStart && t.c.cwnd == Clamp(s.c.cwnd + 1.0)
          else t.c.status == CongAvoidance && t.c.cwnd == Clamp(s.c.cwnd + 1.0 / s.c.cwnd))
  {
    hide SndInv, BufInv, AckUsable, Cleared, SendNext, PutOut, Started, Untouched, Rto, Wnd, Ticking, Fewest, UpdateRtt;
    FreshFacts(s, k, now, clock);
    ClearedEffect(s.b, k);
    var t := AckRecv(s, k, now, clock);
    NewOutCleared(s.b, k, Wnd(t.c), 2 * (k.a - s.b.lo) % CNT, Rto(t.c), clock);
  }

  lemma NewOutCleared(b: Buf, k: Ack, wnd: int, cnt: int, rto: int, clock: Clock)
    requires BufInv(b) && AckUsable(b, k) && Fresh(b, k)
    ensures var t := SendNext(Cleared(b, k), wnd, cnt, rto, clock);
      && t.lo == k.a && t.hi == b.hi
      && NewOut(b, t, Fewest(wnd - (b.mid - k.a), b.hi - b.mid, cnt))
      && (forall n :: b.mid < n <= t.mid ==> Started(b, t, n, rto, clock))
      && (forall n :: n in b.slots && k.a < n && n != k.o && (n <= b.mid || n > t.mid) ==> Untouched(b, t, n))
  {
    hide BufInv, AckUsable, Cleared, SendNext, Fewest;
    ClearedEffect(b, k);
    var b1, sent := Cleared(b, k), Fewest(wnd - (b.mid - k.a), b.hi - b.mid, cnt);
    SendNextEffect(b1, wnd, cnt, rto, clock);
    var t := SendNext(b1, wnd, cnt, rto, clock);
    PutOutEarlier(b, b1, t, seq(sent, i => b.mid + 1 + i));
    forall n | b.mid < n <= t.mid ensures Started(b, t, n, rto, clock) {
      assert Started(b1, t, n, rto, clock) && Untouched(b, b1, n);
    }
  }

  /** The timers of recovery start again: those of the packets up to `upto` that went through. */
  ghost predicate Restarted(b: Buf, t: Buf, from: int, upto: int, o: int, now: int) {
    && (forall n :: n in b.slots && from < n <= upto && n != o ==>
         n in t.slots && t.slots[n] == b.slots[n].(time := now))
    && (forall n :: n in b.slots && upto < n <= b.mid && n != o ==> Untouched(b, t, n))
  }

  lemma RestartedBy(b: Buf, k: Ack, cnt: int, now: int)
    requires BufInv(b) && AckUsable(b, k) && Fresh(b, k) && cnt >= 0
    ensures var t := RestartTimers(Cleared(b, k), cnt, now);
      && t.lo == k.a && t.mid == b.mid && t.hi == b.hi && t.tx == b.tx && UnsentPresent(t)
      && Restarted(b, t, k.a, k.a + cnt, k.o, now)
      && (forall n :: n in t.slots ==> n in b.slots && t.slots[n].pkt == b.slots[n].pkt)
      && (forall n :: b.mid < n <= b.hi && n > k.a + cnt ==> Untouched(b, t, n))
      && (k.a < b.mid ==> k.a + 1 in t.slots)
  {
    ClearedEffect(b, k);
    hide BufInv, AckUsable, Cleared;
  }

  /**
   The first partial ack: the packet above it goes out again at once, the timers of the rest of
   recovery start again, and the window stays (section 3 of RFC 2582).
   */
  lemma FirstPartialEffect(s: Snd, k: Ack, now: int, clock: Clock)
    requires Handled(s, k, now, clock) && s.b.lo < k.a && !FullAck(s, k) && s.c.status == FastRecovery
    ensures var t := AckRecv(s, k, now, clock);
      && t.b.lo == k.a && t.b.hi == s.b.hi
      && OnceMore(s.b, t.b, k.a + 1, clock(Wire(k.a + 1)), Rto(t.c))
      && Restarted(s.b, t.b, k.a + 1, s.c.recIdx, k.o, now)
      && FreshKept(s.c, t.c, k) && t.c.cwnd == s.c.cwnd
      && t.c.status == MultiRecovery && t.c.dup == 3 && t.c.recover == s.c.recIdx - k.a
  {
    hide SndInv, BufInv, AckUsable, Cleared, RestartTimers, Transmit, PutOut, Rto, Wnd, Ticking, UpdateRtt;
    FreshFacts(s, k, now, clock);
    ClearedEffect(s.b, k);
    var left := s.c.recover - (k.a - s.b.lo);
    RestartedBy(s.b, k, left, now);
    var b1, rto := RestartTimers(Cleared(s.b, k), left, now), Rto(Acked(s, k, true).c);
    SameRto(Acked(s, k, true).c, AckRecv(s, k, now, clock).c);
    TransmitEffect(b1, k.a + 1, rto, clock);
    PutOutEarlier(s.b, b1, Transmit(b1, k.a + 1, rto, clock), [k.a + 1]);
  }

  lemma SameRto(c: Cong, d: Cong)
    requires c.rtt == d.rtt
    ensures Rto(c) == Rto(d)
  {
  }

  /**
   A later partial ack: one packet not sent before may go out, the window shrinks by what was
   acked less one, and the timers of the rest of recovery start again.
   */
  lemma NextPartialEffect(s: Snd, k: Ack, now: int, clock: Clock)
    requires Handled(s, k, now, clock) && s.b.lo < k.a && !FullAck(s, k) && s.c.status == MultiRecovery
    ensures var t := AckRecv(s, k, now, clock); var wnd := Wnd(s.c.(window := Advertised(s.c, k)));
      && t.b.lo == k.a && t.b.hi == s.b.hi
      && NewOut(s.b, t.b, Fewest(wnd - (s.b.mid - k.a), s.b.hi - s.b.mid, 1))
      && Restarted(s.b, t.b, k.a, s.c.recIdx, k.o, now)
      && FreshKept(s.c, t.c, k) && t.c.cwnd == Clamp(s.c.cwnd - (k.a - s.b.lo) as real + 1.0)
      && t.c.status == MultiRecovery && t.c.dup == 0 && t.c.recover == s.c.recIdx - k.a
  {
    hide SndInv, BufInv, AckUsable, Cleared, RestartTimers, SendNext, PutOut, Rto, Ticking, UpdateRtt, Fewest;
    FreshFacts(s, k, now, clock);
    var left := s.c.recover - (k.a - s.b.lo);
    RestartedBy(s.b, k, left, now);
    var t, wnd := AckRecv(s, k, now, clock), Wnd(s.c.(window := Advertised(s.c, k)));
    var b1 := RestartTimers(Cleared(s.b, k), left, now);
    SendNextEffect(b1, wnd, 1, Rto(Acked(s, k, true).c), clock);
    PutOutEarlier(s.b, b1, SendNext(b1, wnd, 1, Rto(Acked(s, k, true).c), clock),
                  seq(Fewest(wnd - (s.b.mid - k.a), s.b.hi - s.b.mid, 1), i => s.b.mid + 1 + i));
  }

  // ---------------------------------------------------------------------------------------
  // Submission
  // ---------------------------------------------------------------------------------------

  /**
   sendPacket refuses on a dead channel and when 32768 packets are buffered, and changes nothing
   then. Otherwise the packet is buffered under the next number, marked if it starts a busy period,
   and the first packet not yet sent goes out if the window has room.
   */
  lemma SubmitEffect(s: Snd, pkt: Packet, clock: Clock)
    requires SndInv(s) && Ticking(clock)
    ensures var t := Submit(s, pkt, clock); var x := if s.b.lo == s.b.hi then pkt.(chs := true) else pkt;
      if s.b.hi - s.b.lo >= HALF then SubmitCodeOf(s) == NoSpace && t == s
      else
        var k := if s.b.mid - s.b.lo < Wnd(s.c) then 1 else 0;
        var n := s.b.mid + 1;
        && SubmitCodeOf(s) == Accepted && t.c == s.c && t.started && !t.dead
        && t.b.lo == s.b.lo && t.b.hi == s.b.hi + 1 && t.b.mid == s.b.mid + k
        && s.b.hi + 1 !in s.b.slots && s.b.hi + 1 in t.b.slots && t.b.slots[s.b.hi + 1].pkt == x
        && (forall m :: m in s.b.slots && (k == 0 || m != n) ==> Untouched(s.b, t.b, m))
        && |t.b.tx| == |s.b.tx| + k && (forall i :: 0 <= i < |s.b.tx| ==> t.b.tx[i] == s.b.tx[i])
        && (k == 1 ==>
              && n in t.b.slots && t.b.tx[|s.b.tx|] == Tx(n, if n == s.b.hi + 1 then x else s.b.slots[n].pkt)
              && t.b.slots[n].time == clock(Wire(n)) && t.b.slots[n].rto == Rto(s.c) && t.b.slots[n].sent)
  {
    hide CongInv, SendNext, Wnd, Rto;
    if s.b.hi - s.b.lo < HALF {
      AddBufferKeeps(s.b, pkt);
      AddThenSend(s.b, pkt, Wnd(s.c), Rto(s.c), clock);
    }
  }

  lemma AddThenSend(b: Buf, pkt: Packet, wnd: int, rto: int, clock: Clock)
    requires UnsentPresent(b) && b.hi + 1 !in b.slots && b.mid <= b.hi
    ensures var t := SendNext(AddBuffer(b, pkt), wnd, 1, rto, clock);
      var x := if b.lo == b.hi then pkt.(chs := true) else pkt;
      var k := if b.mid - b.lo < wnd then 1 else 0;
      var n := b.mid + 1;
      && t.lo == b.lo && t.hi == b.hi + 1 && t.mid == b.mid + k
      && b.hi + 1 in t.slots && t.slots[b.hi + 1].pkt == x
      && (forall m :: m in b.slots && (k == 0 || m != n) ==> Untouched(b, t, m))
      && |t.tx| == |b.tx| + k && (forall i :: 0 <= i < |b.tx| ==> t.tx[i] == b.tx[i])
      && (k == 1 ==>
            && n in t.slots && (n <= b.hi ==> n in b.slots)
            && t.tx[|b.tx|] == Tx(n, if n == b.hi + 1 then x else b.slots[n].pkt)
            && t.slots[n].time == clock(Wire(n)) && t.slots[n].rto == rto && t.slots[n].sent)
  {
    var b1, k := AddBuffer(b, pkt), if b.mid - b.lo < wnd then 1 else 0;
    SendNextEffect(b1, wnd, 1, rto, clock);
    hide SendNext;
    assert k == 1 ==> seq(1, i => b.mid + 1 + i)[0] == b.mid + 1;
  }

  // ---------------------------------------------------------------------------------------
  // Timeouts
  // ---------------------------------------------------------------------------------------

  /** What one slot goes through in a sweep at `now`. */
  predicate SweptSlot(x: Slot, y: Slot, now: int, time: int, rto: int) {
    if x.time == 0 || x.time + x.rto > now then y == x
    else if x.ackRcvd then y == x.(time := now)
    else y == Slot(x.pkt, time, rto, (x.retry + 1) % 16, true, false)
  }

  /**
   A sweep puts each packet whose timer has run out, and whose ack has not arrived, on the wire
   once more, and no other; its timer starts anew and its retries are counted. If there was one the
   window falls to a single packet and the threshold to half of what it was, at least 2; if there
   was none neither changes.
   */
  lemma TimeoutEffect(s: Snd, now: int, clock: Clock, order: seq<int>)
    requires Enumerates(order, Resent(s.b, now))
    ensures var t := Timeout(s, now, clock, order); var half := (s.c.cwnd / 2.0).Floor;
      && (forall n :: n in order <==>
            n in s.b.slots && 0 != s.b.slots[n].time && s.b.slots[n].time + s.b.slots[n].rto <= now
            && !s.b.slots[n].ackRcvd)
      && t.b.mid == s.b.mid && PutOut(s.b, t.b, order) && t.b.lo == s.b.lo && t.b.hi == s.b.hi
      && (forall n :: n in t.b.slots <==> n in s.b.slots)
      && (forall n :: n in s.b.slots ==> SweptSlot(s.b.slots[n], t.b.slots[n], now, clock(Wire(n)), Rto(s.c)))
      && (if order == [] then t.c == s.c
          else t.c.cwnd == 1.0 && Wnd(t.c) <= 1 && t.c.ssthresh == (if half > 2 then half else 2)
               && t.c == s.c.(cwnd := 1.0, ssthresh := t.c.ssthresh))
      && t.started == s.started && t.dead == s.dead
  {
    var t := Timeout(s, now, clock, order);
    forall i | 0 <= i < |order|
      ensures order[i] in s.b.slots && t.b.tx[|s.b.tx| + i] == Tx(order[i], s.b.slots[order[i]].pkt)
    {
      assert order[i] in Resent(s.b, now);
      assert t.b.tx[|s.b.tx| + i] == TxOf(s.b, order[i]);
    }
  }
}
