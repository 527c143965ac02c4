/** Each round of the handlers' loops on true numbers, and what the loops come to. */
module SenderRounds {
  import opened SeqNum
  import opened Packets
  import opened SenderModel
  import opened SenderLaws
  import opened SendBuffer
  import opened ChannelSystem
  import ChannelProofs
  import R = ReceiverModel
  import M = SenderModel

  /** The fields of an ack that the sender reads. */
  datatype AckPacket = AckPacket(ackNo: u16, origAckNo: u16, window: u16, sentTS: int, recvTS: int)

  ghost predicate Carries(p: AckPacket, k: Ack) {
    && p.ackNo == Wire(k.a) && p.origAckNo == Wire(k.o)
    && p.window == k.window && p.sentTS == k.sentTS && p.recvTS == k.recvTS
  }

  /** The receive queue stands for `queue`, ack by ack. */
  ghost predicate Carried(ps: seq<AckPacket>, queue: seq<Ack>) {
    |ps| == |queue| && (forall i :: 0 <= i < |ps| ==> Carries(ps[i], queue[i]))
  }

  // ---------------------------------------------------------------------------------------
  // One round of each loop
  // ---------------------------------------------------------------------------------------

  lemma SendFirstNone(b: Buf, rto: int, clock: Clock)
    ensures SendFirst(b, 0, rto, clock) == b
  {
    assert SendFirst(b, 0, rto, clock).slots == b.slots;
    assert SendFirst(b, 0, rto, clock).tx == b.tx;
  }

  /** Flagging the slot, handing the packet over and starting the timer make up one transmission. */
  lemma TransmitInSteps(b: Buf, n: int, rto: int, clock: Clock)
    requires n in b.slots
    ensures var x := b.slots[n];
      var b1 := Put(b, n, x.(sent := true, ackRcvd := x.ackRcvd, retry := x.retry));
      var b2 := b1.(tx := b1.tx + [TxOf(b, n)]);
      n in b2.slots && TxOf(b, n) == Tx(n, x.pkt)
      && Put(b2, n, b2.slots[n].(time := clock(Wire(n)), rto := rto)) == Transmit(b, n, rto, clock)
  {
    assert b.slots[n := b.slots[n].(sent := true)][n := Stamped(b.slots[n], clock(Wire(n)), rto)]
        == b.slots[n := Stamped(b.slots[n], clock(Wire(n)), rto)];
  }

  /** The next unsent packet goes out. */
  ghost function OneMore(b: Buf, rto: int, clock: Clock): Buf {
    Transmit(b, b.mid + 1, rto, clock).(mid := b.mid + 1)
  }

  /** A timer runs for each packet in flight and for no other. */
  ghost predicate ArmedExactly(armed: set<int>, b: Buf) {
    forall n :: n in armed <==> n in b.slots && n <= b.mid
  }

  /** The packet that goes out is the one whose timer starts. */
  lemma OneMoreArmed(b: Buf, armed: set<int>, rto: int, clock: Clock)
    requires ArmedExactly(armed, b) && b.mid + 1 in b.slots
    ensures b.mid + 1 !in armed
    ensures var t := Transmit(b, b.mid + 1, rto, clock);
      t.mid == b.mid && t.(mid := b.mid + 1) == OneMore(b, rto, clock)
    ensures ArmedExactly(armed + {b.mid + 1}, OneMore(b, rto, clock))
  {
  }

  /** What addBuffer puts in: a packet that starts a busy period is marked already. */
  lemma AddedSlot(b: Buf, armed: set<int>, pkt: Packet)
    requires ArmedExactly(armed, b) && b.mid <= b.hi && (b.lo == b.hi ==> pkt.chs)
    ensures AddBuffer(b, pkt) == b.(hi := b.hi + 1, slots := b.slots[b.hi + 1 := Slot(pkt, 0, 0, 0, false, false)])
    ensures ArmedExactly(armed, AddBuffer(b, pkt))
  {
  }

  /** Flagging a packet that was sent leaves the timers as they are. */
  lemma MarkedArmed(b: Buf, armed: set<int>, n: int)
    requires ArmedExactly(armed, b) && n in b.slots && b.slots[n].sent
    ensures var x := b.slots[n];
      Mark(b, n) == Put(b, n, x.(sent := true, ackRcvd := true, retry := x.retry)) && ArmedExactly(armed, Mark(b, n))
  {
  }

  lemma SendFirstOneMore(b: Buf, k: nat, rto: int, clock: Clock)
    requires b.mid + k + 1 in b.slots
    ensures OneMore(SendFirst(b, k, rto, clock), rto, clock) == SendFirst(b, k + 1, rto, clock)
  {
    var t := OneMore(SendFirst(b, k, rto, clock), rto, clock);
    var u := SendFirst(b, k + 1, rto, clock);
    assert t.slots == u.slots;
    assert t.tx == u.tx;
  }

  /** One round of the loop of sendNext. */
  lemma LoopRound(b: Buf, k: nat, rto: int, clock: Clock)
    requires UnsentPresent(b) && b.mid + k < b.hi
    ensures var t, u := SendFirst(b, k, rto, clock), SendFirst(b, k + 1, rto, clock);
      && t.mid + 1 in t.slots && u == OneMore(t, rto, clock)
      && u.lo == b.lo && u.mid == b.mid + k + 1
  {
    assert b.mid + k + 1 in b.slots;
    SendFirstOneMore(b, k, rto, clock);
  }

  /** How the loop of sendNext leaves off after `k` rounds. */
  ghost predicate LoopEnded(b: Buf, wnd: int, cnt: int, k: nat) {
    && k <= b.hi - b.mid && k <= cnt && (k > 0 ==> k <= wnd - (b.mid - b.lo))
    && (b.mid + k - b.lo >= wnd || k == b.hi - b.mid || k == cnt)
  }

  lemma LoopCount(b: Buf, wnd: int, cnt: int, k: nat)
    requires LoopEnded(b, wnd, cnt, k)
    ensures k == SendCount(b, wnd, cnt)
  {
  }

  ghost predicate SubmitResult(s: Snd, pkt: Packet, clock: Clock) {
    && s.b.hi - s.b.lo < HALF && (s.b.lo == s.b.hi ==> Stored(s.b, pkt) == pkt.(chs := true))
    && (s.b.lo != s.b.hi ==> Stored(s.b, pkt) == pkt)
    && var b := M.SendNext(AddBuffer(s.b, Stored(s.b, pkt)), Wnd(s.c), 1, Rto(s.c), clock);
       Submit(s, pkt, clock) == Snd(b, s.c, s.started || s.b.lo == s.b.hi, s.dead)
  }

  /** The third duplicate puts the head on the wire again. */
  lemma ThirdOnTheWire(s: Snd, clock: Clock)
    requires Midway(s) && s.b.lo < s.b.mid
    ensures s.b.lo + 1 in s.b.slots
    ensures s.c.dup == 2 && s.c.status != MultiRecovery ==>
      DupAck(s, clock).b.tx == s.b.tx + [Tx(s.b.lo + 1, s.b.slots[s.b.lo + 1].pkt)]
  {
    hide BufInv, CongInv, EnterFastRecovery, Rto;
  }

  lemma DeadRefuses(s: Snd, pkt: Packet, clock: Clock)
    requires s.dead
    ensures SubmitCodeOf(s) == ChannelDead && Submit(s, pkt, clock) == s
  {
  }

  lemma SubmitAccepted(s: Snd, pkt: Packet, clock: Clock)
    requires SubmitCodeOf(s) == Accepted
    ensures SubmitResult(s, pkt, clock)
  {
    hide M.SendNext;
    assert AddBuffer(s.b, Stored(s.b, pkt)) == AddBuffer(s.b, pkt);
  }

  /** lastAcked is at `a` and the slots up to `upto` have been freed. */
  ghost function Freed(b: Buf, a: int, upto: int): Buf {
    b.(lo := a, slots := Advance(b, upto).slots)
  }

  lemma FreedNone(b: Buf, a: int)
    ensures Freed(b, a, b.lo) == b.(lo := a)
  {
    assert Advance(b, b.lo).slots == b.slots;
  }

  lemma FreedAll(b: Buf, a: int)
    requires forall n :: n in b.slots ==> n > b.lo
    ensures Freed(b, a, a) == Advance(b, a)
    ensures forall n :: n in Advance(b, a).slots ==> n > a
  {
  }

  lemma FreedOneMore(b: Buf, a: int, upto: int)
    requires b.lo <= upto
    ensures Freed(b, a, upto + 1) == Without(Freed(b, a, upto), upto + 1)
    ensures upto + 1 in Freed(b, a, upto).slots <==> upto + 1 in b.slots
    ensures upto + 1 !in b.slots ==> Freed(b, a, upto + 1) == Freed(b, a, upto)
  {
    assert Advance(b, upto + 1).slots == Advance(b, upto).slots - {upto + 1};
    assert upto + 1 !in b.slots ==> Advance(b, upto + 1).slots == Advance(b, upto).slots;
  }

  lemma RestartNone(b: Buf, now: int)
    ensures RestartTimers(b, 0, now) == b
  {
    assert RestartTimers(b, 0, now).slots == b.slots;
  }

  lemma RestartOneMore(b: Buf, cnt: nat, now: int)
    ensures var n := b.lo + cnt + 1; var t, u := RestartTimers(b, cnt, now), RestartTimers(b, cnt + 1, now);
      && (n in t.slots <==> n in b.slots)
      && (if n in b.slots then u == Put(t, n, t.slots[n].(time := now)) else u == t)
  {
    var n, t, u := b.lo + cnt + 1, RestartTimers(b, cnt, now), RestartTimers(b, cnt + 1, now);
    assert u.slots == if n in b.slots then t.slots[n := t.slots[n].(time := now)] else t.slots;
  }

  /** Stopping the timer first does not show: sending again starts it afresh. */
  lemma TransmitAnew(b: Buf, n: int, rto: int, clock: Clock)
    requires n in b.slots
    ensures var c := Put(b, n, b.slots[n].(time := 0, rto := 0));
      n in c.slots && Transmit(c, n, rto, clock) == Transmit(b, n, rto, clock)
  {
    var c := Put(b, n, b.slots[n].(time := 0, rto := 0));
    assert Transmit(c, n, rto, clock).slots == Transmit(b, n, rto, clock).slots;
  }

  // ---------------------------------------------------------------------------------------
  // A timeout sweep in progress
  // ---------------------------------------------------------------------------------------

  ghost function ExpiredIn(b: Buf, now: int): set<int> {
    set n | n in b.slots && Expired(b.slots[n], now)
  }

  /** The buffer when the packets of `done` have been dealt with and those of `order` sent again. */
  ghost function PartSweep(b: Buf, done: set<int>, now: int, rto: int, clock: Clock, order: seq<int>): Buf {
    b.(slots := map n | n in b.slots :: if n in done then Swept(b.slots[n], now, clock(Wire(n)), rto) else b.slots[n],
       tx := b.tx + seq(|order|, i requires 0 <= i < |order| => TxOf(b, order[i])))
  }

  ghost predicate SweepSoFar(b: Buf, done: set<int>, now: int, order: seq<int>) {
    && done <= ExpiredIn(b, now)
    && Enumerates(order, (set n | n in done && n in b.slots && !b.slots[n].ackRcvd))
    && (forall n :: n in order ==> !Fatal(b, n))
  }

  lemma SweepStarts(b: Buf, now: int, rto: int, clock: Clock)
    ensures PartSweep(b, {}, now, rto, clock, []) == b && SweepSoFar(b, {}, now, [])
  {
    var t := PartSweep(b, {}, now, rto, clock, []);
    assert t.slots == b.slots && t.tx == b.tx;
  }

  /** A packet whose ack has arrived only has its timer restarted. */
  lemma SweepMarked(b: Buf, done: set<int>, now: int, rto: int, clock: Clock, order: seq<int>, n: int)
    requires SweepSoFar(b, done, now, order) && n in ExpiredIn(b, now) && n !in done && b.slots[n].ackRcvd
    ensures var t := PartSweep(b, done, now, rto, clock, order);
      n in t.slots && t.slots[n] == b.slots[n]
      && PartSweep(b, done + {n}, now, rto, clock, order) == Put(t, n, t.slots[n].(time := now))
    ensures SweepSoFar(b, done + {n}, now, order)
  {
    var t, u := PartSweep(b, done, now, rto, clock, order), PartSweep(b, done + {n}, now, rto, clock, order);
    assert u.slots == t.slots[n := t.slots[n].(time := now)];
    assert (set m | m in done && m in b.slots && !b.slots[m].ackRcvd)
        == (set m | m in done + {n} && m in b.slots && !b.slots[m].ackRcvd);
  }

  /** Any other is sent again and its retries are counted in four bits. */
  lemma SweepResent(b: Buf, done: set<int>, now: int, rto: int, clock: Clock, order: seq<int>, n: int)
    requires SweepSoFar(b, done, now, order) && n in ExpiredIn(b, now)
    requires n !in done && !b.slots[n].ackRcvd && !Fatal(b, n)
    ensures var t := PartSweep(b, done, now, rto, clock, order); var v := Transmit(t, n, rto, clock);
      n in t.slots && t.slots[n] == b.slots[n] && n in v.slots
      && PartSweep(b, done + {n}, now, rto, clock, order + [n])
         == Put(v, n, v.slots[n].(sent := true, ackRcvd := false, retry := (b.slots[n].retry + 1) % 16))
    ensures SweepSoFar(b, done + {n}, now, order + [n])
  {
    var t, u := PartSweep(b, done, now, rto, clock, order), PartSweep(b, done + {n}, now, rto, clock, order + [n]);
    var v := Transmit(t, n, rto, clock);
    assert u.slots == v.slots[n := v.slots[n].(sent := true, ackRcvd := false, retry := (b.slots[n].retry + 1) % 16)];
    assert u.tx == v.tx;
    hide PartSweep, Transmit, Fatal;
    assert forall m :: m in order + [n] <==> m in order || m == n;
  }

  /** When nothing armed is left expired, the sweep has dealt with everything that was. */
  lemma SweepEnds(b: Buf, done: set<int>, now: int, rto: int, clock: Clock, order: seq<int>)
    requires BufInv(b) && SweepSoFar(b, done, now, order)
    requires var t := PartSweep(b, done, now, rto, clock, order);
      forall n :: n in t.slots && n <= t.mid ==> t.slots[n].time + t.slots[n].rto > now
    ensures PartSweep(b, done, now, rto, clock, order) == Sweep(b, now, rto, clock, order)
    ensures Enumerates(order, Resent(b, now))
  {
    var t := PartSweep(b, done, now, rto, clock, order);
    forall n | n in ExpiredIn(b, now) ensures n in done {
      assert SlotInv(b, n);
      assert n in t.slots;
    }
    assert done == ExpiredIn(b, now);
    assert t.slots == Sweep(b, now, rto, clock, order).slots;
    assert Resent(b, now) == set n | n in done && n in b.slots && !b.slots[n].ackRcvd;
  }

  /** The shape of a sweep in progress: nothing dealt with is expired any more. */
  lemma SweepShape(b: Buf, done: set<int>, now: int, rto: int, clock: Clock, order: seq<int>)
    requires BufInv(b) && Ticking(clock) && (forall w :: clock(w) >= now) && rto > 0 && now > 0
    requires SweepSoFar(b, done, now, order)
    ensures var t := PartSweep(b, done, now, rto, clock, order);
      && BufInv(t) && t.lo == b.lo && t.mid == b.mid && t.hi == b.hi && SameSlots(b, t)
      && (forall n :: n in t.slots && n <= t.mid ==> t.slots[n].time != 0)
      && (forall n :: n in t.slots && Expired(t.slots[n], now) ==>
           n in ExpiredIn(b, now) && n !in done && t.slots[n] == b.slots[n])
  {
    var t := PartSweep(b, done, now, rto, clock, order);
    forall n | n in t.slots ensures SlotInv(t, n) {
      assert SlotInv(b, n);
    }
    forall n | n in t.slots && Expired(t.slots[n], now) ensures n !in done {
      assert SlotInv(b, n);
    }
  }

  lemma OneMoreAck(q: seq<Ack>, i: nat, lo: int)
    requires i < |q|
    ensures MaxNorm(q[..i + 1], lo) == Max(MaxNorm(q[..i], lo), Norm(q[i].a, lo))
  {
    assert q[..i + 1][..i] == q[..i];
  }

  lemma NoAcks(q: seq<Ack>, lo: int)
    ensures MaxNorm(q[..0], lo) == 0 && q[..|q|] == q
  {
  }

  lemma SelfDistance(x: u16)
    ensures Diff(x, x) == 0
  {
  }

  /** Two fields equally far from a third are the same field. */
  lemma SelectTest(p: AckPacket, k: Ack, lo: int, maxAck: u16, m: u16)
    requires Carries(p, k) && m == Diff(maxAck, Wire(lo))
    ensures p.ackNo == maxAck <==> Norm(k.a, lo) == m
  {
  }

  lemma DrainedQueue(s: Snd, lo: int, m: int, now: int, clock: Clock)
    ensures Process(s, [], lo, m, now, clock) == s
  {
  }

  /** One ack of the batch, chosen or passed over. */
  lemma BatchRound(s: Snd, q: seq<Ack>, lo: int, m: int, now: int, clock: Clock, acks: set<AckMsg>, r: R.Rcv, top: int)
    requires ChannelProofs.Batch(s, q, acks, r, top) && Ticking(clock) && now > 0 && q != []
    ensures AckUsable(s.b, q[0])
    ensures var t := if Selected(q[0], lo, s.b.lo, m) then M.AckRecv(s, q[0], now, clock) else s;
      && ChannelProofs.Batch(t, q[1..], acks, r, top)
      && Process(t, q[1..], lo, m, now, clock) == Process(s, q, lo, m, now, clock)
  {
    hide M.AckRecv, AckUsable, Proper, ChannelProofs.FromPeer, ChannelProofs.Inherits, Selected, Ticking;
    assert q[0] in q;
    ChannelProofs.BatchStep(s, q, now, clock, acks, r, top);
    ChannelProofs.FromPeerUsable(s, q[0], acks, r);
  }

  /** The numbers and packets of the two buffers agree; times and flags need not. */
  ghost predicate SamePackets(b: Buf, t: Buf) {
    && t.lo == b.lo && t.mid == b.mid && t.hi == b.hi && SameSlots(b, t)
    && (forall n :: n in t.slots ==> t.slots[n].pkt == b.slots[n].pkt)
  }

  lemma AllTaken(b: Buf)
    requires forall n :: n in b.slots ==> b.lo < n <= b.hi
    ensures b.lo <= b.hi ==> Freed(b, b.lo, b.hi) == b.(slots := map[])
    ensures UndeliveredFrom(b, b.hi + 1) == []
  {
    assert b.lo <= b.hi ==> Freed(b, b.lo, b.hi).slots == map[];
  }

  lemma SweptPackets(b: Buf, done: set<int>, now: int, rto: int, clock: Clock, order: seq<int>)
    requires BufInv(b) && SweepSoFar(b, done, now, order)
    ensures var t := PartSweep(b, done, now, rto, clock, order); t.tx == Resend(b, order).tx && SamePackets(b, t)
    ensures forall n :: n in order ==> n in b.slots && n <= b.mid && !Fatal(b, n)
  {
    forall n | n in order ensures n in b.slots && n <= b.mid && !Fatal(b, n) {
      assert n in done;
      assert SlotInv(b, n);
    }
  }

  /** What a finished sweep amounts to, for a channel that lives and for one that died of it. */
  lemma SweepOutcome(s: Snd, done: set<int>, now: int, clock: Clock, order: seq<int>)
    requires SndInv(s) && Ticking(clock) && now > 0 && (forall w :: clock(w) >= now)
    requires SweepSoFar(s.b, done, now, order)
    ensures var t := PartSweep(s.b, done, now, Rto(s.c), clock, order);
      && t.tx == Resend(s.b, order).tx && SamePackets(s.b, t)
      && (forall n :: n in order ==> n in s.b.slots && n <= s.b.mid && !Fatal(s.b, n))
      && ((forall n :: n in t.slots ==> !Expired(t.slots[n], now)) ==>
            && Enumerates(order, Resent(s.b, now))
            && t == Sweep(s.b, now, Rto(s.c), clock, order)
            && SndInv(Timeout(s, now, clock, order)))
  {
    WindowOpen(s.c, s.b.lo, s.b.mid);
    var t := PartSweep(s.b, done, now, Rto(s.c), clock, order);
    assert Settled(s.b, s.c);
    assert BufInv(s.b);
    hide SndInv, Settled, BufInv, PartSweep, Sweep, Timeout, SweepSoFar, Enumerates, Resent, ExpiredIn, Fatal, Resend;
    SweptPackets(s.b, done, now, Rto(s.c), clock, order);
    SweepShape(s.b, done, now, Rto(s.c), clock, order);
    if forall n :: n in t.slots ==> !Expired(t.slots[n], now) {
      SweepEnds(s.b, done, now, Rto(s.c), clock, order);
      AllKnown(order, s.b, now);
      TimeoutKeeps(s, now, clock, order);
    }
  }

  lemma AllKnown(order: seq<int>, b: Buf, now: int)
    requires Enumerates(order, Resent(b, now))
    ensures forall i :: 0 <= i < |order| ==> order[i] in b.slots
  {
    assert forall i :: 0 <= i < |order| ==> order[i] in Resent(b, now);
  }

  lemma TransmitSent(b: Buf, n: int, rto: int, clock: Clock)
    requires n in b.slots
    ensures var v := Transmit(b, n, rto, clock);
      n in v.slots && v.slots[n] == Stamped(b.slots[n], clock(Wire(n)), rto) && v.mid == b.mid && SameSlots(b, v)
  {
  }

  /** The window an ack advertises may be noted first. */
  lemma WindowFirst(s: Snd, k: Ack, now: int, clock: Clock)
    requires SndInv(s) && AckUsable(s.b, k)
    ensures var t := s.(c := SetWindow(s.c, k));
      && SndInv(t) && SetWindow(t.c, k) == t.c
      && M.AckRecv(t, k, now, clock) == M.AckRecv(s, k, now, clock)
  {
    hide AfterNewAck, FirstPartialAck, NextPartialAck, DupAck, FreeOrig, Cleared;
    var t := s.(c := SetWindow(s.c, k));
    assert t.b == s.b && Settled(t.b, t.c);
  }
}
