/** Each packet of a flow is in at most one place of the sending side, and in none only once it has arrived. */
module WorldCounts {
  import opened Packets
  import opened SenderModel
  import opened ChannelSystem
  import opened ChannelEnds
  import opened AckBatch
  import opened SchedulerModel
  import opened SenderLaws
  import opened World
  import opened WorldProofs
  import opened WorldTheorems
  import F = FlowModel

  /** How often packet `k` of flow `i` occurs in `ps`. */
  function Copies(ps: seq<Packet>, i: int, k: int): nat {
    if ps == [] then 0 else Copies(ps[1..], i, k) + if Is(ps[0], i, k) then 1 else 0
  }

  lemma {:induction false} CopiesConcat(ps: seq<Packet>, qs: seq<Packet>, i: int, k: int)
    ensures Copies(ps + qs, i, k) == Copies(ps, i, k) + Copies(qs, i, k)
  {
    if ps == [] {
      assert ps + qs == qs;
    } else {
      assert (ps + qs)[1..] == ps[1..] + qs;
      CopiesConcat(ps[1..], qs, i, k);
    }
  }

  lemma {:induction false} CopiesNone(ps: seq<Packet>, i: int, k: int)
    ensures Copies(ps, i, k) > 0 <==> Among(ps, i, k)
  {
    if ps != [] {
      CopiesNone(ps[1..], i, k);
      assert ps == [ps[0]] + ps[1..];
      if Among(ps[1..], i, k) {
        var p :| p in ps[1..] && Is(p, i, k);
        assert p in ps;
      }
    }
  }

  // ---------------------------------------------------------------------------------------
  // Channels
  // ---------------------------------------------------------------------------------------

  /** Copies in the buffer of a live channel. */
  function Load(c: Chan, i: int, k: int): nat {
    if c.snd.dead then 0 else Copies(Undelivered(c.snd.b), i, k)
  }

  /** Freeing slots lowers the count, whatever becomes of the flags. */
  lemma {:induction false} FewerSlots(b: Buf, t: Buf, n: int, i: int, k: int)
    requires t.hi == b.hi && forall m :: m in t.slots ==> m in b.slots && t.slots[m].pkt == b.slots[m].pkt
    ensures Copies(UndeliveredFrom(t, n), i, k) <= Copies(UndeliveredFrom(b, n), i, k)
    decreases b.hi - n
  {
    if n <= b.hi {
      FewerSlots(b, t, n + 1, i, k);
      CopiesConcat(Own(b, n), UndeliveredFrom(b, n + 1), i, k);
      CopiesConcat(Own(t, n), UndeliveredFrom(t, n + 1), i, k);
    }
  }

  /** What slot `n` adds to the list of undelivered packets. */
  function Own(b: Buf, n: int): seq<Packet> {
    if n in b.slots && !b.slots[n].pkt.csn then [b.slots[n].pkt] else []
  }

  lemma {:induction false} LaterStart(b: Buf, n: int, m: int, i: int, k: int)
    requires n <= m
    ensures Copies(UndeliveredFrom(b, m), i, k) <= Copies(UndeliveredFrom(b, n), i, k)
    decreases m - n
  {
    if n < m {
      LaterStart(b, n + 1, m, i, k);
      if n <= b.hi {
        CopiesConcat(Own(b, n), UndeliveredFrom(b, n + 1), i, k);
      }
    }
  }

  lemma {:induction false} SameSlotsSame(b: Buf, t: Buf, n: int)
    requires t.hi == b.hi && SameSlots(b, t) && forall m :: m in t.slots ==> t.slots[m].pkt == b.slots[m].pkt
    ensures UndeliveredFrom(t, n) == UndeliveredFrom(b, n)
    decreases b.hi - n
  {
    if n <= b.hi {
      SameSlotsSame(b, t, n + 1);
    }
  }

  lemma {:induction false} OneMoreSlot(b: Buf, t: Buf, n: int)
    requires t.hi == b.hi + 1 && n <= t.hi
    requires forall m :: m <= b.hi ==> Own(t, m) == Own(b, m)
    ensures UndeliveredFrom(t, n) == UndeliveredFrom(b, n) + Own(t, t.hi)
    decreases b.hi - n
  {
    if n <= b.hi {
      OneMoreSlot(b, t, n + 1);
      assert Own(t, n) + (UndeliveredFrom(b, n + 1) + Own(t, t.hi))
          == (Own(b, n) + UndeliveredFrom(b, n + 1)) + Own(t, t.hi);
    } else {
      assert UndeliveredFrom(t, t.hi + 1) == [];
    }
  }

  lemma SubmitLoad(c: Chan, pkt: Packet, clock: Clock, i: int, k: int)
    requires ChanInv(c) && !c.snd.dead && Ticking(clock)
    requires SubmitCodeOf(c.snd) == Accepted && (pkt.flowId == 0 || !pkt.csn) && i >= 0
    ensures Load(Apply(c, SubmitPacket(pkt, clock)), i, k) == Load(c, i, k) + if Is(pkt, i, k) then 1 else 0
  {
    hide ChanInv, Submit, SendNext, UndeliveredFrom, AddBuffer, Own, SubmitCodeOf, Stored, Copies;
    var b, t := c.snd.b, Submit(c.snd, pkt, clock).b;
    var b1 := AddBuffer(b, pkt);
    assert Apply(c, SubmitPacket(pkt, clock)).snd == Submit(c.snd, pkt, clock);
    SubmitSlots(c, pkt, clock);
    NewSlot(b, pkt, i, k);
    SameSlotsSame(b1, t, b.lo + 1);
    OneMoreSlot(b, b1, b.lo + 1);
    CopiesConcat(UndeliveredFrom(b, b.lo + 1), Own(b1, b1.hi), i, k);
  }

  lemma NewSlot(b: Buf, pkt: Packet, i: int, k: int)
    requires (pkt.flowId == 0 || !pkt.csn) && i >= 0
    ensures Copies(Own(AddBuffer(b, pkt), b.hi + 1), i, k) == if Is(pkt, i, k) then 1 else 0
  {
    assert Own(AddBuffer(b, pkt), b.hi + 1) == if pkt.csn then [] else [Stored(b, pkt)];
  }

  lemma SubmitSlots(c: Chan, pkt: Packet, clock: Clock)
    requires ChanInv(c) && !c.snd.dead && SubmitCodeOf(c.snd) == Accepted
    ensures var b1, t := AddBuffer(c.snd.b, pkt), Submit(c.snd, pkt, clock).b;
      && !Submit(c.snd, pkt, clock).dead && t.lo == c.snd.b.lo <= c.snd.b.hi
      && t.hi == b1.hi == c.snd.b.hi + 1 && SameSlots(b1, t)
      && (forall m :: m in t.slots ==> t.slots[m].pkt == b1.slots[m].pkt)
      && (forall m :: m <= c.snd.b.hi ==> Own(b1, m) == Own(c.snd.b, m))
  {
  }

  lemma InternalLoad(c: Chan, e: Event, i: int, k: int)
    requires ChanInv(c) && Enabled(c, e) && Internal(e)
    ensures Load(Apply(c, e), i, k) <= Load(c, i, k)
  {
    hide ChanInv, Apply, Enabled, UndeliveredFrom, Internal;
    InternalOutside(c, e);
    var b, t := c.snd.b, Apply(c, e).snd.b;
    if !c.snd.dead {
      InternalSlots(c, e);
      FewerSlots(b, t, t.lo + 1, i, k);
      LaterStart(b, b.lo + 1, t.lo + 1, i, k);
    }
  }

  lemma InternalSlots(c: Chan, e: Event)
    requires ChanInv(c) && Enabled(c, e) && Internal(e) && !c.snd.dead
    ensures var b, t := c.snd.b, Apply(c, e).snd.b;
      forall m :: m in t.slots ==> m in b.slots && t.slots[m].pkt == b.slots[m].pkt
  {
    match e
    case DeliverData(n) => hide ChanInv;
    case DeliverAck(m, sentTS, recvTS) => hide ChanInv;
    case DrainAcks(now, clock) =>
      DrainSound(c, now, clock);
      hide ChanInv, Drain;
    case TimeoutSweep(now, clock, order) => hide ChanInv;
  }

  // ---------------------------------------------------------------------------------------
  // The whole sending side
  // ---------------------------------------------------------------------------------------

  function Loads(chans: seq<Chan>, i: int, k: int): nat {
    if chans == [] then 0 else Loads(chans[..|chans| - 1], i, k) + Load(chans[|chans| - 1], i, k)
  }

  lemma {:induction false} LoadsUpdate(chans: seq<Chan>, j: nat, d: Chan, i: int, k: int)
    requires j < |chans|
    ensures Loads(chans[j := d], i, k) == Loads(chans, i, k) - Load(chans[j], i, k) + Load(d, i, k)
    ensures Load(chans[j], i, k) <= Loads(chans, i, k)
  {
    var last := |chans| - 1;
    hide Load;
    if j < last {
      LoadsUpdate(chans[..last], j, d, i, k);
      assert chans[j := d][..last] == chans[..last][j := d];
    } else {
      assert chans[j := d][..last] == chans[..last];
    }
  }

  /** Copies of a packet in the queues, in hand, in live channels and among the lost. */
  function Total(w: World, i: int, k: int): nat {
    Copies(Contents(w.sched), i, k) + Copies(w.lost, i, k) + Loads(w.chans, i, k)
  }

  /** No sent packet has two places, and no number not yet used has one. */
  ghost predicate OnePlace(w: World) {
    forall i: nat, k :: AtMostOne(w, i, k)
  }

  ghost predicate AtMostOne(w: World, i: nat, k: int) {
    && Total(w, i, k) <= 1
    && (i >= |w.flows| || k >= |w.flows[i].s.sent| ==> Total(w, i, k) == 0)
  }

  lemma PutCopies(s: Sched, p: Packet, i: int, k: int)
    requires SchedInv(s) && i >= 0
    ensures Copies(Contents(Put(s, p)), i, k) == Copies(Contents(s), i, k) + if Is(p, i, k) then 1 else 0
  {
    var t := Put(s, p);
    ContentsCopies(s, i, k);
    ContentsCopies(t, i, k);
    if !IsControl(p) {
      CopiesConcat(s.closing, [p], i, k);
      CopiesConcat(s.outgoing, [p], i, k);
    }
  }

  /** The count is the sum over the parts. */
  lemma ContentsCopies(s: Sched, i: int, k: int)
    requires (s.control.Some? ==> IsControl(s.control.value)) && i >= 0
    ensures Copies(Contents(s), i, k) ==
      (if s.hand.Carrying? && Is(s.hand.pkt, i, k) then 1 else 0)
      + Copies(s.undelivered, i, k) + Copies(s.closing, i, k) + Copies(s.outgoing, i, k)
  {
    var h := if s.hand.Carrying? then [s.hand.pkt] else [];
    var c := if s.control.Some? then [s.control.value] else [];
    CopiesConcat(h + c + s.undelivered + s.closing, s.outgoing, i, k);
    CopiesConcat(h + c + s.undelivered, s.closing, i, k);
    CopiesConcat(h + c, s.undelivered, i, k);
    CopiesConcat(h, c, i, k);
  }

  lemma MigrateCopies(s: Sched, ps: seq<Packet>, i: int, k: int)
    requires SchedInv(s) && i >= 0
    ensures Copies(Contents(Migrate(s, ps)), i, k) == Copies(Contents(s), i, k) + Copies(ps, i, k)
  {
    ContentsCopies(s, i, k);
    ContentsCopies(Migrate(s, ps), i, k);
    CopiesConcat(s.undelivered, ps, i, k);
  }

  // ---------------------------------------------------------------------------------------
  // Steps
  // ---------------------------------------------------------------------------------------

  /** A step that puts no copy anywhere. */
  lemma NoNewCopy(w: World, v: World)
    requires OnePlace(w) && forall i: nat, k :: Total(v, i, k) <= Total(w, i, k)
    requires |v.flows| >= |w.flows| && forall i :: 0 <= i < |w.flows| ==> |v.flows[i].s.sent| >= |w.flows[i].s.sent|
    ensures OnePlace(v)
  {
    hide Total;
    forall i: nat, k ensures AtMostOne(v, i, k) {
      assert AtMostOne(w, i, k);
    }
  }

  lemma SendCounts(w: World, i: nat, data: seq<int>, fin: bool)
    requires WorldInv(w) && OnePlace(w) && CanStep(w, AppSend(i, data, fin))
    ensures OnePlace(Next(w, AppSend(i, data, fin)))
  {
    hide FlowsOk, FlowOk, ChansOk, SchedInv, HandOk, Grows, Evolves, Authentic, AllAuthentic, ChansAuthentic, AllUp,
      Covered, Contents, Put, CanPut, Is, Copies, F.SendPacket, F.NextPacket, F.Finished;
    var v, p := Next(w, AppSend(i, data, fin)), F.NextPacket(w.flows[i].s, i + 1, data, fin);
    SentFlow(w.flows, i, data, fin);
    forall h: nat, k ensures AtMostOne(v, h, k) {
      assert AtMostOne(w, h, k);
      PutCopies(w.sched, p, h, k);
      OnlyItself(p, i, |w.flows[i].s.sent|, h, k);
    }
  }

  lemma OnlyItself(p: Packet, i: int, k: int, h: int, l: int)
    requires Is(p, i, k)
    ensures Is(p, h, l) <==> h == i && l == k
  {
  }

  lemma ThreadCounts(w: World, t: Step)
    requires WorldInv(w) && OnePlace(w) && CanStep(w, t)
    requires t.PostOne? || t.WaitToken? || t.NoSpace? || t.ChooseChannel? || t.TakePacket? || t.SendControl?
    ensures OnePlace(Next(w, t))
  {
    var v := Next(w, t);
    if t.TakePacket? {
      TakeStep(w);
      TakeMoves(w.sched);
    } else if !t.SendControl? {
      assert Contents(v.sched) == Contents(w.sched);
    }
    assert SchedInv(w.sched);
    hide WorldInv, Contents, Put, SchedInv;
    forall h: nat, k ensures Total(v, h, k) <= Total(w, h, k) {
      if t.SendControl? {
        PutCopies(w.sched, t.pkt, h, k);
      }
    }
    NoNewCopy(w, v);
  }

  lemma HandOverCounts(w: World, clock: Clock)
    requires WorldInv(w) && OnePlace(w) && CanStep(w, HandOver(clock))
    ensures OnePlace(Next(w, HandOver(clock)))
  {
    var v, j, pkt := Next(w, HandOver(clock)), w.sched.hand.to, w.sched.hand.pkt;
    var c := w.chans[j];
    assert ChanInv(c);
    ReleaseContents(w.sched);
    assert pkt in Contents(w.sched) && Authentic(pkt, w.flows);
    assert v.sched == Release(w.sched) && v.flows == w.flows;
    RefusedOnlyDead(w, clock);
    hide WorldInv, ChanInv, Contents, SchedInv, Release, SubmitCodeOf, Load, Copies, Authentic;
    forall h: nat, k ensures Total(v, h, k) <= Total(w, h, k) {
      CopiesConcat([pkt], Contents(Release(w.sched)), h, k);
      OneCopy(pkt, h, k);
      if SubmitCodeOf(c.snd) == Accepted {
        SubmitLoad(c, pkt, clock, h, k);
        LoadsUpdate(w.chans, j, v.chans[j], h, k);
      } else {
        CopiesConcat(w.lost, [pkt], h, k);
      }
    }
    NoNewCopy(w, v);
  }

  lemma OneCopy(p: Packet, i: int, k: int)
    ensures Copies([p], i, k) == if Is(p, i, k) then 1 else 0
  {
  }

  lemma RefusedOnlyDead(w: World, clock: Clock)
    requires WorldInv(w) && CanStep(w, HandOver(clock))
    ensures var c := w.chans[w.sched.hand.to];
      && (SubmitCodeOf(c.snd) == Accepted <==> !c.snd.dead)
      && (w.sched.hand.pkt.flowId == 0 || !w.sched.hand.pkt.csn)
  {
    ReleaseContents(w.sched);
    assert w.sched.hand.pkt in Contents(w.sched);
    assert Authentic(w.sched.hand.pkt, w.flows);
    hide ChanInv, Contents;
  }

  lemma NetworkCounts(w: World, j: nat, e: Event)
    requires WorldInv(w) && OnePlace(w) && CanStep(w, Network(j, e))
    ensures OnePlace(Next(w, Network(j, e)))
  {
    var v := Next(w, Network(j, e));
    assert ChanInv(w.chans[j]);
    UpSent(w.flows, v.flows, w, j, e);
    hide WorldInv, ChanInv, Contents, Load, Copies, Apply, Enabled, Up, Accepts;
    forall h: nat, k ensures Total(v, h, k) <= Total(w, h, k) {
      InternalLoad(w.chans[j], e, h, k);
      LoadsUpdate(w.chans, j, v.chans[j], h, k);
    }
    NoNewCopy(w, v);
  }

  lemma UpSent(fs: seq<F.Flow>, gs: seq<F.Flow>, w: World, j: nat, e: Event)
    requires CanStep(w, Network(j, e)) && fs == w.flows && gs == Next(w, Network(j, e)).flows
    ensures |gs| == |fs| && forall i :: 0 <= i < |fs| ==> gs[i].s == fs[i].s
  {
    hide Apply, Enabled, F.TakePacket;
  }

  lemma DeathCounts(w: World, j: nat, order: seq<int>)
    requires WorldInv(w) && OnePlace(w) && CanStep(w, ChannelDies(j, order))
    ensures OnePlace(Next(w, ChannelDies(j, order)))
  {
    var v := Next(w, ChannelDies(j, order));
    var c := w.chans[j];
    assert v.chans[j].snd.dead && !c.snd.dead;
    assert SchedInv(w.sched);
    hide WorldInv, SchedInv, Contents, Copies, Apply, Enabled, Migrate;
    forall h: nat, k ensures Total(v, h, k) <= Total(w, h, k) {
      MigrateCopies(w.sched, Undelivered(c.snd.b), h, k);
      LoadsUpdate(w.chans, j, v.chans[j], h, k);
    }
    NoNewCopy(w, v);
  }

  lemma OtherCounts(w: World, t: Step)
    requires WorldInv(w) && OnePlace(w) && CanStep(w, t)
    requires t.OpenFlow? || t.OpenChannel? || t.AppRead? || t.MakeReport? || t.TakeReport?
    ensures OnePlace(Next(w, t))
  {
    var v := Next(w, t);
    hide WorldInv, Contents, Copies;
    forall h: nat, k ensures Total(v, h, k) <= Total(w, h, k) {
      if t.OpenChannel? {
        assert v.chans[..|v.chans| - 1] == w.chans;
        FreshLoad(h, k);
      }
    }
    NoNewCopy(w, v);
  }

  lemma FreshLoad(i: int, k: int)
    ensures Load(InitChan(), i, k) == 0
  {
    assert Undelivered(InitChan().snd.b) == [];
  }

  lemma CountsStep(w: World, t: Step)
    requires WorldInv(w) && OnePlace(w) && CanStep(w, t)
    ensures OnePlace(Next(w, t))
  {
    hide WorldInv, OnePlace, Next, CanStep;
    match t
    case AppSend(i, data, fin) => SendCounts(w, i, data, fin);
    case SendControl(pkt) => ThreadCounts(w, t);
    case PostOne => ThreadCounts(w, t);
    case WaitToken => ThreadCounts(w, t);
    case NoSpace => ThreadCounts(w, t);
    case ChooseChannel(j) => ThreadCounts(w, t);
    case TakePacket => ThreadCounts(w, t);
    case HandOver(clock) => HandOverCounts(w, clock);
    case Network(j, e) => NetworkCounts(w, j, e);
    case ChannelDies(j, order) => DeathCounts(w, j, order);
    case _ => OtherCounts(w, t);
  }

  lemma {:induction false} RunCounts(ws: seq<World>, ts: seq<Step>, x: nat)
    requires Run(ws, ts) && x < |ws|
    ensures OnePlace(ws[x])
  {
    if x == 0 {
      var w := InitWorld();
      assert Contents(w.sched) == [];
      assert forall i: nat, k :: Total(w, i, k) == 0;
    } else {
      RunCounts(ws, ts, x - 1);
      RunKeeps(ws, ts, x - 1);
      hide WorldInv, OnePlace, Next, CanStep;
      CountsStep(ws[x - 1], ts[x - 1]);
    }
  }

  lemma {:induction false} LoadsHave(chans: seq<Chan>, j: nat, i: int, k: int)
    requires j < |chans| && ChanInv(chans[j]) && Buffered(chans[j], i, k) && i >= 0
    requires forall n :: 0 <= n < |chans[j].given| && chans[j].given[n].flowId != 0 ==> !chans[j].given[n].csn
    ensures Loads(chans, i, k) > 0
  {
    var b := chans[j].snd.b;
    var n :| n in b.slots && Is(b.slots[n].pkt, i, k);
    HeldOrReceived(chans[j], n);
    UndeliveredHas(b, n);
    hide ChanInv;
    CopiesNone(Undelivered(b), i, k);
    LoadsUpdate(chans, j, chans[j], i, k);
  }

  /**
   Conservation: in every run, each packet a flow has sent is in exactly one place of the sending
   side (a queue, the hand of the scheduling thread, the buffer of one live channel, or the
   packets lost at a handoff), or in none of them, and then the receiving end has taken it.
   */
  lemma ExactlyOnePlace(ws: seq<World>, ts: seq<Step>, x: nat, i: nat, k: nat)
    requires Run(ws, ts) && x < |ws| && i < |ws[x].flows| && k < |ws[x].flows[i].s.sent|
    ensures Total(ws[x], i, k) <= 1
    ensures Total(ws[x], i, k) == 0 ==> Taken(ws[x].flows[i], k)
  {
    var w := ws[x];
    RunCounts(ws, ts, x);
    assert AtMostOne(w, i, k);
    NothingVanishes(ws, ts, x, i, k);
    CopiesNone(Contents(w.sched), i, k);
    CopiesNone(w.lost, i, k);
    RunKeeps(ws, ts, x);
    if j :| 0 <= j < |w.chans| && Buffered(w.chans[j], i, k) {
      NoMarkers(w, j);
      hide Contents, Buffered;
      LoadsHave(w.chans, j, i, k);
    }
  }

  lemma NoMarkers(w: World, j: nat)
    requires WorldInv(w) && j < |w.chans|
    ensures ChanInv(w.chans[j])
    ensures forall n :: 0 <= n < |w.chans[j].given| && w.chans[j].given[n].flowId != 0 ==> !w.chans[j].given[n].csn
  {
    forall n | 0 <= n < |w.chans[j].given| && w.chans[j].given[n].flowId != 0 ensures !w.chans[j].given[n].csn {
      assert w.chans[j].given[n] in w.chans[j].given;
      assert AllAuthentic(w.chans[j].given, w.flows);
    }
  }
}
