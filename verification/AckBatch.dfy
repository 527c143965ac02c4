/**
 Draining a batch of acks, and the marks that keep a timeout from resending a packet whose ack
 has arrived.

 The scan for the largest ack number compares 16-bit distances without the half-window test
 that a single ack gets. One ack older than lastAcked therefore counts as the largest, and the
 acks behind it are passed over. The lemmas say exactly what that costs.
 */
module AckBatch {
  import opened SeqNum
  import opened Packets
  import opened SenderModel
  import opened SenderLaws
  import opened ReceiverModel
  import opened ChannelSystem
  import opened ChannelProofs

  /** A channel state and a batch that may be drained now. */
  ghost predicate Drainable(c: Chan, now: int, clock: Clock) {
    ChanInv(c) && Enabled(c, DrainAcks(now, clock))
  }

  lemma DrainableBatch(c: Chan, now: int, clock: Clock)
    requires Drainable(c, now, clock)
    ensures Batch(c.snd, c.queue, c.acks, c.rcv, MaxAck(c.queue, c.snd.b.lo)) && Ticking(clock) && now > 0
  {
    hide ChanInv, Enabled, Batch;
    DrainBatch(c, now, clock);
  }

  // ---------------------------------------------------------------------------------------
  // A batch without old acks
  // ---------------------------------------------------------------------------------------

  lemma {:induction false} ProcessReachesMax(s: Snd, q: seq<Ack>, lo0: int, m: int, now: int, clock: Clock,
                                             acks: set<AckMsg>, r: Rcv, top: int)
    requires Batch(s, q, acks, r, top) && Ticking(clock) && now > 0
    requires 0 <= m <= HALF && lo0 <= s.b.lo <= lo0 + m
    requires forall k :: k in q ==> lo0 <= k.a <= lo0 + m
    ensures var t := Process(s, q, lo0, m, now, clock);
      && s.b.lo <= t.b.lo <= lo0 + m
      && ((exists k :: k in q && k.a == lo0 + m) ==> t.b.lo == lo0 + m)
    decreases |q|
  {
    if q != [] {
      hide AckRecv, Batch, Inherits, Ticking;
      var k := q[0];
      BatchStep(s, q, now, clock, acks, r, top);
      DiffIsDistance(k.a, lo0);
      var s1 := if Selected(k, lo0, s.b.lo, m) then AckRecv(s, k, now, clock) else s;
      assert k in q && forall j :: j in q[1..] ==> j in q;
      ProcessReachesMax(s1, q[1..], lo0, m, now, clock, acks, r, top);
    }
  }

  /** No queued number is more than 32768 ahead of lastAcked, and none of 2^15 or more behind is drained. */
  lemma QueueInReach(c: Chan, now: int, clock: Clock)
    requires Drainable(c, now, clock)
    ensures forall k :: k in c.queue ==> MaxAck(c.queue, c.snd.b.lo) - HALF < k.a <= c.snd.b.lo + HALF
  {
    DrainableBatch(c, now, clock);
    hide Drainable;
    forall k | k in c.queue ensures MaxAck(c.queue, c.snd.b.lo) - HALF < k.a <= c.snd.b.lo + HALF {
      FromPeerUsable(c.snd, k, c.acks, c.rcv);
      ProperBounds(c.snd, c.acks);
    }
  }

  /** If no queued ack is older than lastAcked, draining ends with lastAcked at the largest ack number. */
  lemma BatchReachesMax(c: Chan, now: int, clock: Clock)
    requires Drainable(c, now, clock)
    requires forall k :: k in c.queue ==> k.a >= c.snd.b.lo
    ensures Drain(c.snd, c.queue, now, clock).b.lo == MaxAck(c.queue, c.snd.b.lo)
  {
    hide Drainable, Batch, Process;
    DrainableBatch(c, now, clock);
    QueueInReach(c, now, clock);
    var lo0, m := c.snd.b.lo, MaxNorm(c.queue, c.snd.b.lo);
    forall k | k in c.queue ensures lo0 <= k.a <= lo0 + HALF && Norm(k.a, lo0) == k.a - lo0 {
      DiffIsDistance(k.a, lo0);
    }
    ProcessReachesMax(c.snd, c.queue, lo0, m, now, clock, c.acks, c.rcv, MaxAck(c.queue, c.snd.b.lo));
  }

  lemma DrainSound(c: Chan, now: int, clock: Clock)
    requires Drainable(c, now, clock)
    ensures var t := Drain(c.snd, c.queue, now, clock);
      BufInv(t.b) && Head(t.b) && Inherits(c.snd.b, t.b) && c.snd.b.lo <= t.b.lo && !t.dead
  {
    hide Drainable, Batch, Process, Inherits;
    DrainableBatch(c, now, clock);
    ProcessKeeps(c.snd, c.queue, c.snd.b.lo, MaxNorm(c.queue, c.snd.b.lo), now, clock,
                 c.acks, c.rcv, MaxAck(c.queue, c.snd.b.lo));
    hide Evidence;
  }

  /**
   Which acks of a batch without old ones are handed on: those with the largest number, and those
   that answer a packet further beyond lastAcked, as it is by then, than that number was to begin
   with; far below lastAcked counts as beyond.
   */
  lemma HandedOnInOrder(k: Ack, lo0: int, lo: int, top: int)
    requires lo0 <= lo <= top <= lo0 + HALF && lo0 <= k.a <= top && lo - CNT < k.o < lo + CNT
    ensures Selected(k, lo0, lo, top - lo0)
      <==> k.a == top || k.o - lo > top - lo0 || (k.o < lo && k.o + CNT - lo > top - lo0)
  {
    DiffIsDistance(k.a, lo0);
    DiffIsDistance(k.o, lo);
  }

  /** The acks of a batch handled one after the other, none passed over. */
  function Each(s: Snd, q: seq<Ack>, now: int, clock: Clock): Snd
    decreases |q|
  {
    if q == [] then s else Each(AckRecv(s, q[0], now, clock), q[1..], now, clock)
  }

  lemma {:induction false} ProcessEach(s: Snd, q: seq<Ack>, lo0: int, m: int, now: int, clock: Clock)
    requires forall k :: k in q ==> Norm(k.a, lo0) == m
    ensures Process(s, q, lo0, m, now, clock) == Each(s, q, now, clock)
    decreases |q|
  {
    if q != [] {
      hide AckRecv, Norm;
      assert q[0] in q && forall k :: k in q[1..] ==> k in q;
      ProcessEach(AckRecv(s, q[0], now, clock), q[1..], lo0, m, now, clock);
    }
  }

  /** In a batch of acks that all name the same number, lastAcked or one ahead of it, every one is handed on. */
  lemma EachHandedOn(s: Snd, q: seq<Ack>, a: int, now: int, clock: Clock)
    requires s.b.lo <= a <= s.b.lo + HALF && forall k :: k in q ==> k.a == a
    ensures Drain(s, q, now, clock) == Each(s, q, now, clock)
  {
    hide Process, Each;
    DiffIsDistance(a, s.b.lo);
    if q == [] {
      EmptyBatch(s, q, s.b.lo, now, clock);
    } else {
      assert q[0] in q && Norm(q[0].a, s.b.lo) == MaxNorm(q, s.b.lo);
      ProcessEach(s, q, s.b.lo, MaxNorm(q, s.b.lo), now, clock);
    }
  }

  lemma EmptyBatch(s: Snd, q: seq<Ack>, lo: int, now: int, clock: Clock)
    requires q == []
    ensures Process(s, q, lo, MaxNorm(q, lo), now, clock) == Each(s, q, now, clock)
  {
  }

  // ---------------------------------------------------------------------------------------
  // A batch with an old ack
  // ---------------------------------------------------------------------------------------

  /** The newest of the acks older than lastAcked; lo - 65536 when there is none. */
  function NewestLate(q: seq<Ack>, lo: int): (m: int)
    ensures lo - CNT <= m < lo
    ensures forall k :: k in q && k.a < lo ==> k.a <= m
    ensures m == lo - CNT || exists k :: k in q && k.a == m
  {
    if q == [] then lo - CNT
    else
      var m := NewestLate(q[..|q| - 1], lo);
      var k := q[|q| - 1];
      assert q == q[..|q| - 1] + [k];
      if m < k.a < lo then k.a else m
  }

  ghost predicate HasLate(q: seq<Ack>, lo: int) {
    exists k :: k in q && k.a < lo
  }

  /**
   Whether the second loop hands on an ack ahead of lastAcked, now at `lo`, in a batch that
   started at `lo0` with `late` for its newest old ack: only if it answers a packet below
   lastAcked, one that was sent again, in a stretch that moves with lastAcked.
   */
  predicate HandedOn(k: Ack, lo0: int, late: int, lo: int) {
    late + (lo - lo0) < k.o < lo
  }

  /** Where lastAcked goes in a batch with an old ack. */
  function Walk(q: seq<Ack>, lo0: int, late: int, lo: int): (t: int)
    ensures t >= lo
    decreases |q|
  {
    if q == [] then lo
    else Walk(q[1..], lo0, late, if q[0].a > lo && HandedOn(q[0], lo0, late, lo) then q[0].a else lo)
  }

  /** Where draining leaves lastAcked. */
  ghost function Lands(q: seq<Ack>, lo: int): int {
    if HasLate(q, lo) then Walk(q, lo, NewestLate(q, lo), lo) else MaxAck(q, lo)
  }

  /** The 16-bit test of the second loop, for an ack ahead of lastAcked in a batch with an old ack. */
  lemma SelectedLate(k: Ack, lo0: int, lo: int, late: int, m: int)
    requires m == CNT + late - lo0 && lo0 - HALF < late < lo0 <= lo < k.a <= lo0 + HALF
    requires lo - CNT < k.o <= lo + HALF
    ensures Selected(k, lo0, lo, m) <==> HandedOn(k, lo0, late, lo)
  {
    DiffIsDistance(k.a, lo0);
    DiffIsDistance(k.o, lo);
  }

  /** The packet a queued ack answers lies less than 65536 below lastAcked and at most 32768 above it. */
  lemma AnswerBounds(s: Snd, k: Ack, q: seq<Ack>, acks: set<AckMsg>, r: Rcv, top: int)
    requires Batch(s, q, acks, r, top) && k in q
    ensures s.b.lo - CNT < k.o <= s.b.lo + HALF
  {
    ProperBounds(s, acks);
    hide Proper, Cross;
    assert FromPeer(s, k, acks, r);
    assert Received(r, k.o);
  }

  lemma {:induction false} ProcessWalks(s: Snd, q: seq<Ack>, lo0: int, late: int, now: int, clock: Clock,
                                        acks: set<AckMsg>, r: Rcv, top: int)
    requires Batch(s, q, acks, r, top) && Ticking(clock) && now > 0
    requires top - HALF < late < lo0 <= s.b.lo && top <= lo0 + HALF
    ensures Process(s, q, lo0, CNT + late - lo0, now, clock).b.lo == Walk(q, lo0, late, s.b.lo)
    decreases |q|
  {
    if q != [] {
      hide AckRecv, Batch, Selected, HandedOn, Inherits, Ticking;
      var k, m := q[0], CNT + late - lo0;
      BatchStep(s, q, now, clock, acks, r, top);
      QueuedBelow(s, k, q, acks, r, top);
      AnswerBounds(s, k, q, acks, r, top);
      if k.a > s.b.lo {
        SelectedLate(k, lo0, s.b.lo, late, m);
      }
      var s1 := if Selected(k, lo0, s.b.lo, m) then AckRecv(s, k, now, clock) else s;
      ProcessWalks(s1, q[1..], lo0, late, now, clock, acks, r, top);
    }
  }

  lemma QueuedBelow(s: Snd, k: Ack, q: seq<Ack>, acks: set<AckMsg>, r: Rcv, top: int)
    requires Batch(s, q, acks, r, top) && k in q
    ensures k.a <= top && s.b.lo <= top
  {
  }

  /** What the scan takes for the largest number when the batch holds an old ack. */
  lemma ScanTakesLate(c: Chan, now: int, clock: Clock)
    requires Drainable(c, now, clock) && HasLate(c.queue, c.snd.b.lo)
    ensures var lo := c.snd.b.lo;
      var late, top := NewestLate(c.queue, lo), MaxAck(c.queue, lo);
      MaxNorm(c.queue, lo) == CNT + late - lo && top - HALF < late && top <= lo + HALF
  {
    hide Drainable;
    QueueInReach(c, now, clock);
    var lo := c.snd.b.lo;
    var late := NewestLate(c.queue, lo);
    forall k | k in c.queue ensures Norm(k.a, lo) <= CNT + late - lo {
      DiffIsDistance(k.a, lo);
    }
    DiffIsDistance(late, lo);
    assert Norm(late, lo) == CNT + late - lo;
  }

  /** Draining any batch leaves lastAcked exactly where `Lands` says. */
  lemma DrainLands(c: Chan, now: int, clock: Clock)
    requires Drainable(c, now, clock)
    ensures Drain(c.snd, c.queue, now, clock).b.lo == Lands(c.queue, c.snd.b.lo)
  {
    hide Drainable, Batch, Walk, Process, HasLate;
    if HasLate(c.queue, c.snd.b.lo) {
      DrainableBatch(c, now, clock);
      ScanTakesLate(c, now, clock);
      ProcessWalks(c.snd, c.queue, c.snd.b.lo, NewestLate(c.queue, c.snd.b.lo), now, clock,
                   c.acks, c.rcv, MaxAck(c.queue, c.snd.b.lo));
    } else {
      NoneLate(c.queue, c.snd.b.lo);
      BatchReachesMax(c, now, clock);
    }
  }

  lemma NoneLate(q: seq<Ack>, lo: int)
    requires !HasLate(q, lo)
    ensures forall k :: k in q ==> k.a >= lo
  {
  }

  /** An ack that would move lastAcked is passed over from the start. */
  ghost predicate PassedOver(k: Ack, q: seq<Ack>, lo: int) {
    HasLate(q, lo) && !HandedOn(k, lo, NewestLate(q, lo), lo)
  }

  lemma {:induction false} WalkStays(q: seq<Ack>, lo: int, late: int)
    ensures Walk(q, lo, late, lo) == lo <==> forall k :: k in q && k.a > lo ==> !HandedOn(k, lo, late, lo)
  {
    if q != [] {
      WalkStays(q[1..], lo, late);
      assert q == [q[0]] + q[1..];
    }
  }

  /**
   A batch moves nothing exactly when each queued ack that would move lastAcked is passed over:
   with an old ack in the batch that is every ack ahead, except one that answers a packet between
   the newest old ack and lastAcked.
   */
  lemma OldAckBlocksBatch(c: Chan, now: int, clock: Clock)
    requires Drainable(c, now, clock)
    ensures Drain(c.snd, c.queue, now, clock).b.lo == c.snd.b.lo
      <==> forall k :: k in c.queue && k.a > c.snd.b.lo ==> PassedOver(k, c.queue, c.snd.b.lo)
  {
    hide Drainable, Drain, HandedOn, Walk;
    DrainLands(c, now, clock);
    WalkStays(c.queue, c.snd.b.lo, NewestLate(c.queue, c.snd.b.lo));
  }

  /** The ack at position `i` has the largest number and is handed on when its turn comes. */
  ghost predicate TopHandedOn(q: seq<Ack>, lo0: int, late: int, lo: int, top: int, i: int) {
    0 <= i < |q| && q[i].a == top && HandedOn(q[i], lo0, late, Walk(q[..i], lo0, late, lo))
  }

  /** The acks before position `i`, with and without the first. */
  lemma WalkTail(q: seq<Ack>, lo0: int, late: int, lo: int, i: nat)
    requires q != [] && i < |q|
    ensures var lo1 := if q[0].a > lo && HandedOn(q[0], lo0, late, lo) then q[0].a else lo;
      Walk(q[..i + 1], lo0, late, lo) == Walk(q[1..][..i], lo0, late, lo1)
  {
    assert q[..i + 1][1..] == q[1..][..i];
  }

  lemma {:induction false} WalkBounded(q: seq<Ack>, lo0: int, late: int, lo: int, top: int)
    requires lo <= top && forall k :: k in q ==> k.a <= top
    ensures Walk(q, lo0, late, lo) <= top
    decreases |q|
  {
    if q != [] {
      assert q[0] in q && forall k :: k in q[1..] ==> k in q;
      WalkBounded(q[1..], lo0, late, if q[0].a > lo && HandedOn(q[0], lo0, late, lo) then q[0].a else lo, top);
    }
  }

  lemma {:induction false} WalkReaches(q: seq<Ack>, lo0: int, late: int, lo: int, top: int)
    requires lo < top && forall k :: k in q ==> k.a <= top
    ensures Walk(q, lo0, late, lo) == top <==> exists i :: TopHandedOn(q, lo0, late, lo, top, i)
    decreases |q|
  {
    if q != [] {
      var lo1 := if q[0].a > lo && HandedOn(q[0], lo0, late, lo) then q[0].a else lo;
      assert q[0] in q && forall k :: k in q[1..] ==> k in q;
      assert Walk(q[..0], lo0, late, lo) == lo;
      WalkBounded(q[1..], lo0, late, lo1, top);
      forall i | 0 <= i < |q| - 1
        ensures TopHandedOn(q[1..], lo0, late, lo1, top, i) <==> TopHandedOn(q, lo0, late, lo, top, i + 1)
      {
        WalkTail(q, lo0, late, lo, i);
      }
      if lo1 == top {
        assert TopHandedOn(q, lo0, late, lo, top, 0);
      } else {
        WalkReaches(q[1..], lo0, late, lo1, top);
        assert !TopHandedOn(q, lo0, late, lo, top, 0);
        hide HandedOn, Walk, TopHandedOn;
        TailWitness(q, lo0, late, lo, lo1, top);
      }
    }
  }

  lemma TailWitness(q: seq<Ack>, lo0: int, late: int, lo: int, lo1: int, top: int)
    requires q != [] && !TopHandedOn(q, lo0, late, lo, top, 0)
    requires forall i :: 0 <= i < |q| - 1 ==>
      (TopHandedOn(q[1..], lo0, late, lo1, top, i) <==> TopHandedOn(q, lo0, late, lo, top, i + 1))
    ensures (exists i :: TopHandedOn(q[1..], lo0, late, lo1, top, i))
      <==> (exists i :: TopHandedOn(q, lo0, late, lo, top, i))
  {
    if i :| TopHandedOn(q[1..], lo0, late, lo1, top, i) {
      assert TopHandedOn(q, lo0, late, lo, top, i + 1);
    }
    if i :| TopHandedOn(q, lo0, late, lo, top, i) {
      assert i > 0 && TopHandedOn(q[1..], lo0, late, lo1, top, i - 1);
    }
  }

  /** Some ack with the largest number of the batch is handed on. */
  ghost predicate TopReached(q: seq<Ack>, lo: int) {
    exists i :: TopHandedOn(q, lo, NewestLate(q, lo), lo, MaxAck(q, lo), i)
  }

  lemma LandsAtTop(q: seq<Ack>, lo: int)
    ensures Lands(q, lo) == MaxAck(q, lo) <==> !HasLate(q, lo) || MaxAck(q, lo) == lo || TopReached(q, lo)
  {
    hide HandedOn, TopHandedOn, Walk, HasLate;
    var late, top := NewestLate(q, lo), MaxAck(q, lo);
    if lo < top {
      WalkReaches(q, lo, late, lo, top);
    } else {
      WalkBounded(q, lo, late, lo, top);
    }
  }

  /**
   Draining meets its promise, lastAcked at the largest queued number, exactly when the batch
   holds no ack older than lastAcked, or none newer, or one with the largest number is handed on
   when its turn comes.
   */
  lemma BatchExact(c: Chan, now: int, clock: Clock)
    requires Drainable(c, now, clock)
    ensures var lo, top := c.snd.b.lo, MaxAck(c.queue, c.snd.b.lo);
      Drain(c.snd, c.queue, now, clock).b.lo == top <==> !HasLate(c.queue, lo) || top == lo || TopReached(c.queue, lo)
  {
    hide Drainable, Drain, HasLate, Lands, TopReached;
    DrainLands(c, now, clock);
    LandsAtTop(c.queue, c.snd.b.lo);
  }

  // ---------------------------------------------------------------------------------------
  // Marks
  // ---------------------------------------------------------------------------------------

  /** No queued ack is older than lastAcked. */
  ghost predicate CleanQueue(c: Chan) {
    forall k :: k in c.queue ==> k.a >= c.snd.b.lo
  }

  /** A marked slot was answered by a queued ack, or by one lastAcked has caught up with. */
  ghost predicate MarksAccounted(c: Chan) {
    forall n :: n in c.snd.b.slots && c.snd.b.slots[n].ackRcvd ==>
      (exists k :: k in c.queue && k.o == n) || (exists m :: m in c.acks && m.o == n && m.a <= c.snd.b.lo)
  }

  ghost predicate Clean(c: Chan) {
    c.snd.dead || (CleanQueue(c) && MarksAccounted(c))
  }

  /** A step that delivers no ack older than lastAcked. */
  predicate CleanEvent(c: Chan, e: Event) {
    match e
    case DeliverAck(m, _, _) => m.a >= c.snd.b.lo
    case _ => true
  }

  lemma SubmitClean(c: Chan, pkt: Packet, clock: Clock)
    requires ChanInv(c) && Clean(c) && Enabled(c, SubmitPacket(pkt, clock))
    ensures Clean(Apply(c, SubmitPacket(pkt, clock)))
  {
    var t := Submit(c.snd, pkt, clock).b;
    assert t.lo == c.snd.b.lo;
    forall n | n in t.slots && t.slots[n].ackRcvd ensures n in c.snd.b.slots && c.snd.b.slots[n].ackRcvd {
    }
    hide Submit, ChanInv;
  }

  lemma DrainClean(c: Chan, now: int, clock: Clock)
    requires Drainable(c, now, clock) && !c.snd.dead && Clean(c)
    ensures Clean(Apply(c, DrainAcks(now, clock)))
  {
    hide Drainable, Drain, Inherits, Process;
    BatchReachesMax(c, now, clock);
    DrainSound(c, now, clock);
    QueuedSent(c, now, clock);
    MarksFollow(c, Drain(c.snd, c.queue, now, clock).b);
  }

  lemma QueuedSent(c: Chan, now: int, clock: Clock)
    requires Drainable(c, now, clock)
    ensures forall k :: k in c.queue ==> AckMsg(k.a, k.o) in c.acks
  {
    DrainableBatch(c, now, clock);
    hide Drainable, Proper, Cross, Truthful, Received;
  }

  /** Once lastAcked is at the largest queued number each mark is accounted for without the queue. */
  lemma MarksFollow(c: Chan, t: Buf)
    requires MarksAccounted(c) && Inherits(c.snd.b, t) && t.lo == MaxAck(c.queue, c.snd.b.lo)
    requires forall k :: k in c.queue ==> AckMsg(k.a, k.o) in c.acks
    ensures forall n :: n in t.slots && t.slots[n].ackRcvd ==> exists m :: m in c.acks && m.o == n && m.a <= t.lo
  {
    forall n | n in t.slots && t.slots[n].ackRcvd ensures exists m :: m in c.acks && m.o == n && m.a <= t.lo {
      if k :| k in c.queue && k.o == n {
        assert AckMsg(k.a, k.o) in c.acks;
      } else {
        var m :| m in c.acks && m.o == n && m.a <= c.snd.b.lo;
      }
    }
  }

  lemma SweepClean(c: Chan, now: int, clock: Clock, order: seq<int>)
    requires Clean(c) && !c.snd.dead
    ensures Clean(Apply(c, TimeoutSweep(now, clock, order)))
  {
  }

  /** An ack that is not older than lastAcked marks nothing but the packet it answers. */
  lemma NewAckLands(c: Chan, m: AckMsg)
    requires ChanInv(c) && !c.snd.dead && m in c.acks && m.a >= c.snd.b.lo
    ensures var n := SlotOf(c.snd.b, m.o); n in c.snd.b.slots && c.snd.b.slots[n].sent ==> n == m.o
  {
    AnswerInReach(c, m);
    SlotFound(c.snd.b, m.o);
    assert m.a - HALF < m.o;
    hide Cross, Evidence;
  }

  lemma AckClean(c: Chan, m: AckMsg, sentTS: int, recvTS: int)
    requires Clean(c) && !c.snd.dead && m.a >= c.snd.b.lo
    requires var n := SlotOf(c.snd.b, m.o); n in c.snd.b.slots && c.snd.b.slots[n].sent ==> n == m.o
    ensures Clean(Apply(c, DeliverAck(m, sentTS, recvTS)))
  {
    hide SlotOf;
    var d := Apply(c, DeliverAck(m, sentTS, recvTS));
    var last := d.queue[|d.queue| - 1];
    assert last in d.queue && last.o == m.o && forall k :: k in c.queue ==> k in d.queue;
  }

  lemma DataClean(c: Chan, n: int)
    requires Clean(c) && !c.snd.dead && 0 <= n < |c.given|
    ensures Clean(Apply(c, DeliverData(n)))
  {
    hide PktRecv, Answered, AcceptedBy;
  }

  /** As long as no old ack is delivered, marks stay accounted for. */
  lemma CleanKept(c: Chan, e: Event)
    requires ChanInv(c) && Clean(c) && Enabled(c, e) && CleanEvent(c, e)
    ensures Clean(Apply(c, e))
  {
    if !c.snd.dead {
      match e
      case SubmitPacket(pkt, clock) => SubmitClean(c, pkt, clock);
      case DeliverData(n) =>
        DeliveredInWindow(c, n);
        hide ChanInv, Clean, Apply;
        DataClean(c, n);
      case DeliverAck(m, sentTS, recvTS) =>
        hide ChanInv, Clean, Apply, SlotOf;
        NewAckLands(c, m);
        AckClean(c, m, sentTS, recvTS);
      case DrainAcks(now, clock) =>
        hide ChanInv, Clean, Apply;
        DrainClean(c, now, clock);
      case TimeoutSweep(now, clock, order) =>
        hide ChanInv, Clean, Apply;
        SweepClean(c, now, clock, order);
      case Die(order) =>
    } else {
      hide ChanInv, PktRecv;
    }
  }

  /**
   Timeout suppression never hides the head for good: while the head is marked, an ack that
   covers it is waiting in the queue.
   */
  lemma MarkedHeadIsCovered(c: Chan)
    requires ChanInv(c) && !c.snd.dead && Clean(c)
    requires c.snd.b.lo + 1 in c.snd.b.slots && c.snd.b.slots[c.snd.b.lo + 1].ackRcvd
    ensures exists k :: k in c.queue && k.a >= c.snd.b.lo + 1
  {
    var lo := c.snd.b.lo;
    assert forall m :: m in c.acks && m.o == lo + 1 ==> m.a >= lo + 1;
    hide SndInv;
    if k :| k in c.queue && k.o == lo + 1 {
      assert AckMsg(k.a, k.o) in c.acks;
    }
  }

  /** Number `n` is held and marked, so no timeout at any time sends it again. */
  ghost predicate Hidden(b: Buf, n: int) {
    n in b.slots && b.slots[n].ackRcvd && forall later :: n !in Resent(b, later)
  }

  /** A lone packet in flight that is marked is never sent again by a timeout. */
  lemma LoneMarkedHead(b: Buf, t: Buf)
    requires BufInv(t) && Head(t) && Inherits(b, t) && t.lo == b.lo
    requires b.hi == b.mid == b.lo + 1 && b.lo + 1 in b.slots && b.slots[b.lo + 1].ackRcvd
    ensures t.lo + 1 in t.slots && t.slots[t.lo + 1].ackRcvd && t.hi == t.lo + 1
    ensures forall later :: Resent(t, later) == {}
  {
    forall n | n in t.slots ensures n == t.lo + 1 {
      assert SlotInv(t, n);
    }
    forall later ensures Resent(t, later) == {} {
      assert forall n :: n !in Resent(t, later);
    }
  }

  /**
   Exactly when the head that a drain leaves is hidden: when it was held and marked before. Where
   the drain leaves lastAcked, and so which packet that is, `Lands` reads off the queue.
   */
  lemma HeadHiddenExactly(c: Chan, now: int, clock: Clock)
    requires Drainable(c, now, clock)
    ensures var b, d := c.snd.b, Apply(c, DrainAcks(now, clock));
      var n := Lands(c.queue, b.lo) + 1;
      && d.queue == [] && d.snd.b.lo + 1 == n
      && (Hidden(d.snd.b, n) <==> n in b.slots && b.slots[n].ackRcvd)
  {
    hide Drainable, Drain, ChanInv, Head, Inherits, BufInv, Hidden, Lands;
    LiveInv(c, now, clock);
    DrainLands(c, now, clock);
    DrainSound(c, now, clock);
    HeadInherited(c.snd.b, Drain(c.snd, c.queue, now, clock).b);
  }

  /**
   For a drain that moves nothing: a marked head stays hidden exactly when every ack that would
   move lastAcked is passed over.
   */
  lemma HeadStaysHidden(c: Chan, now: int, clock: Clock)
    requires Drainable(c, now, clock)
    requires c.snd.b.lo + 1 in c.snd.b.slots && c.snd.b.slots[c.snd.b.lo + 1].ackRcvd
    ensures var b, t := c.snd.b, Drain(c.snd, c.queue, now, clock).b;
      if forall k :: k in c.queue && k.a > b.lo ==> PassedOver(k, c.queue, b.lo) then
        t.lo == b.lo && Hidden(t, b.lo + 1)
      else t.lo >= b.lo + 1
  {
    hide Drainable, Drain, PassedOver, Hidden, Lands, Inherits, Head, BufInv;
    OldAckBlocksBatch(c, now, clock);
    DrainSound(c, now, clock);
    HeadHiddenExactly(c, now, clock);
  }

  lemma LiveInv(c: Chan, now: int, clock: Clock)
    requires Drainable(c, now, clock)
    ensures ChanInv(c) && !c.snd.dead && BufInv(c.snd.b)
  {
  }

  /** The packet right above lastAcked is held whenever it was held, with the mark it had. */
  lemma HeadInherited(b: Buf, t: Buf)
    requires BufInv(b) && BufInv(t) && Head(t) && Inherits(b, t)
    ensures var n := t.lo + 1; Hidden(t, n) <==> n in b.slots && b.slots[n].ackRcvd
  {
    var n := t.lo + 1;
    if n in b.slots && b.slots[n].ackRcvd {
      assert SlotInv(b, n);
      assert n <= b.mid;
    }
  }

  /**
   One packet in flight, delivered, its ack queued behind an ack older than lastAcked: after the
   drain nothing is ever sent again by a timeout.
   */
  lemma OldAckHidesHead(c: Chan, now: int, clock: Clock, late: Ack, k: Ack)
    requires Drainable(c, now, clock) && c.queue == [late, k]
    requires late.a < c.snd.b.lo && k.a == k.o == c.snd.b.lo + 1 == c.snd.b.mid == c.snd.b.hi
    requires c.snd.b.lo + 1 in c.snd.b.slots && c.snd.b.slots[c.snd.b.lo + 1].ackRcvd
    ensures var d := Apply(c, DrainAcks(now, clock)); var b := d.snd.b;
      && Received(d.rcv, b.lo + 1) && d.queue == []
      && b.lo == c.snd.b.lo && b.hi == b.lo + 1 && Hidden(b, b.lo + 1)
      && (forall later :: Resent(b, later) == {})
  {
    hide Drain, Drainable, Inherits, BufInv, Head, Hidden, PassedOver, Batch;
    BehindLate(c, late, k);
    HeadStaysHidden(c, now, clock);
    DrainSound(c, now, clock);
    QueuedReceived(c, now, clock, k);
    LoneMarkedHead(c.snd.b, Drain(c.snd, c.queue, now, clock).b);
  }

  lemma BehindLate(c: Chan, late: Ack, k: Ack)
    requires c.queue == [late, k] && late.a < c.snd.b.lo && k.a == k.o == c.snd.b.lo + 1
    ensures forall j :: j in c.queue && j.a > c.snd.b.lo ==> PassedOver(j, c.queue, c.snd.b.lo)
  {
    assert late in c.queue;
  }

  lemma QueuedReceived(c: Chan, now: int, clock: Clock, k: Ack)
    requires Drainable(c, now, clock) && k in c.queue
    ensures Received(c.rcv, k.o)
  {
    hide Drainable, Received, Proper;
    DrainableBatch(c, now, clock);
    assert FromPeer(c.snd, k, c.acks, c.rcv);
  }

  /**
   The single-ack test `0 < d <= 32768` on the 16-bit distance tells new from old except at the
   very edge: an ack exactly 32768 old passes for new.
   */
  lemma SingleAckTest(a: int, lo: int)
    requires -HALF <= a - lo <= HALF
    ensures 0 < Diff(Wire(a), Wire(lo)) <= HALF <==> a > lo || a == lo - HALF
  {
    DiffIsDistance(a, lo);
  }
}
