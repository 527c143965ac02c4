/** Every step of the whole system keeps its invariant. */
module WorldProofs {
  import opened Packets
  import opened SenderModel
  import opened SenderLaws
  import opened ReceiverModel
  import opened ChannelSystem
  import opened ChannelEnds
  import opened ChannelProofs
  import opened SchedulerModel
  import opened World
  import F = FlowModel

  // ---------------------------------------------------------------------------------------
  // Flows only grow
  // ---------------------------------------------------------------------------------------

  ghost predicate Evolves(f: F.Flow, g: F.Flow) {
    f.s.sent <= g.s.sent && forall k :: Taken(f, k) ==> Taken(g, k)
  }

  ghost predicate Grows(fs: seq<F.Flow>, gs: seq<F.Flow>) {
    |fs| <= |gs| && forall i :: 0 <= i < |fs| ==> Evolves(fs[i], gs[i])
  }

  lemma AuthenticGrows(ps: seq<Packet>, fs: seq<F.Flow>, gs: seq<F.Flow>)
    requires AllAuthentic(ps, fs) && Grows(fs, gs)
    ensures AllAuthentic(ps, gs)
  {
    forall p | p in ps && OfFlow(p, fs) ensures F.Genuine(p, gs[p.flowId - 1].s.sent) {
      assert Evolves(fs[p.flowId - 1], gs[p.flowId - 1]);
    }
  }

  lemma ChansAuthenticGrows(chans: seq<Chan>, fs: seq<F.Flow>, gs: seq<F.Flow>)
    requires ChansAuthentic(chans, fs) && Grows(fs, gs)
    ensures ChansAuthentic(chans, gs)
  {
    forall j | 0 <= j < |chans| ensures AllAuthentic(chans[j].given, gs) {
      AuthenticGrows(chans[j].given, fs, gs);
    }
  }

  lemma ChanUpGrows(c: Chan, fs: seq<F.Flow>, gs: seq<F.Flow>)
    requires ChanUp(c, fs) && Grows(fs, gs) && AllAuthentic(c.given, fs)
    ensures ChanUp(c, gs)
  {
    forall n | Received(c.rcv, n) && 0 <= n < |c.given| ensures PacketTaken(c.given[n], gs) {
      var p := c.given[n];
      assert p in c.given && Authentic(p, fs) && PacketTaken(p, fs);
      if OfFlow(p, fs) {
        assert Evolves(fs[p.flowId - 1], gs[p.flowId - 1]);
      }
    }
  }

  lemma AllUpGrows(chans: seq<Chan>, fs: seq<F.Flow>, gs: seq<F.Flow>)
    requires AllUp(chans, fs) && Grows(fs, gs) && ChansAuthentic(chans, fs)
    ensures AllUp(chans, gs)
  {
    hide ChanUp, Grows, AllAuthentic;
    forall j | 0 <= j < |chans| ensures ChanUp(chans[j], gs) {
      ChanUpGrows(chans[j], fs, gs);
    }
  }

  lemma OneFlow(fs: seq<F.Flow>, i: nat, g: F.Flow)
    requires FlowsOk(fs) && i < |fs| && FlowOk(g, i + 1) && Evolves(fs[i], g)
    ensures FlowsOk(fs[i := g]) && Grows(fs, fs[i := g])
  {
    hide FlowOk;
  }

  // ---------------------------------------------------------------------------------------
  // Coverage
  // ---------------------------------------------------------------------------------------

  /** No flow has sent more. */
  ghost predicate SameSent(fs: seq<F.Flow>, gs: seq<F.Flow>) {
    |fs| == |gs| && forall i :: 0 <= i < |fs| ==> |fs[i].s.sent| == |gs[i].s.sent|
  }

  /** Nothing that was somewhere is nowhere. */
  ghost predicate Preserves(w: World, v: World) {
    forall i, k :: i >= 0 && Somewhere(w, i, k) ==> Somewhere(v, i, k)
  }

  lemma CoveredStays(w: World, v: World)
    requires Covered(w) && SameSent(w.flows, v.flows) && Preserves(w, v)
    ensures Covered(v)
  {
    hide Somewhere;
  }

  /** A step of the flows alone moves no packet. */
  lemma FlowStep(w: World, v: World)
    requires WorldInv(w) && v == w.(flows := v.flows)
    requires FlowsOk(v.flows) && Grows(w.flows, v.flows) && SameSent(w.flows, v.flows)
    ensures WorldInv(v)
  {
    hide FlowsOk, ChansOk, SchedInv, HandOk, Grows, AllAuthentic, ChansAuthentic, AllUp, Covered, Contents, SameSent;
    AuthenticGrows(Contents(w.sched), w.flows, v.flows);
    ChansAuthenticGrows(w.chans, w.flows, v.flows);
    AllUpGrows(w.chans, w.flows, v.flows);
    assert Preserves(w, v);
    CoveredStays(w, v);
  }

  /** A step of the scheduler alone that keeps hold of every packet of a flow. */
  lemma SchedStep(w: World, v: World)
    requires WorldInv(w) && v == w.(sched := v.sched)
    requires SchedInv(v.sched) && HandOk(v.sched.hand, w.chans)
    requires AllAuthentic(Contents(v.sched), w.flows)
    requires forall p :: p in Contents(w.sched) && p.flowId != 0 ==> p in Contents(v.sched)
    ensures WorldInv(v)
  {
    hide FlowsOk, ChansOk, SchedInv, HandOk, AllAuthentic, ChansAuthentic, AllUp, Covered, Contents, InChannel;
    forall i, k | i >= 0 && Somewhere(w, i, k) ensures Somewhere(v, i, k) {
      if Among(Contents(w.sched), i, k) {
        var p :| p in Contents(w.sched) && Is(p, i, k);
        assert p in Contents(v.sched);
      }
    }
    CoveredStays(w, v);
  }

  // ---------------------------------------------------------------------------------------
  // Steps of the flows
  // ---------------------------------------------------------------------------------------

  lemma OpenFlowStep(w: World)
    requires WorldInv(w)
    ensures WorldInv(Next(w, OpenFlow))
  {
    hide FlowsOk, ChansOk, SchedInv, HandOk, Grows, AllAuthentic, ChansAuthentic, AllUp, Covered, Contents, F.InitFlow;
    var v := Next(w, OpenFlow);
    NewFlow(w.flows);
    AuthenticGrows(Contents(w.sched), w.flows, v.flows);
    ChansAuthenticGrows(w.chans, w.flows, v.flows);
    AllUpGrows(w.chans, w.flows, v.flows);
    NewFlowCovered(w, v);
  }

  lemma NewFlow(fs: seq<F.Flow>)
    requires FlowsOk(fs)
    ensures FlowsOk(fs + [F.InitFlow()]) && Grows(fs, fs + [F.InitFlow()]) && F.InitFlow().s.sent == []
  {
    F.InitFlowKeeps();
    assert FlowOk(F.InitFlow(), |fs| + 1);
    hide FlowOk;
  }

  lemma NewFlowCovered(w: World, v: World)
    requires Covered(w) && v == w.(flows := v.flows) && |v.flows| == |w.flows| + 1
    requires v.flows[..|w.flows|] == w.flows && v.flows[|w.flows|].s.sent == []
    ensures Covered(v)
  {
    hide InChannel, Among, Contents;
    forall i, k | 0 <= i < |v.flows| && 0 <= k < |v.flows[i].s.sent| ensures Somewhere(v, i, k) {
      assert i < |w.flows| && v.flows[i] == v.flows[..|w.flows|][i];
      assert Somewhere(w, i, k);
    }
  }

  lemma ReadStep(w: World, i: nat)
    requires WorldInv(w) && CanStep(w, AppRead(i))
    ensures WorldInv(Next(w, AppRead(i)))
  {
    var f := w.flows[i];
    F.ReadKeeps(f);
    var g := f.(r := F.ReadNext(f.r));
    assert FlowOk(f, i + 1);
    assert FlowOk(g, i + 1) && Evolves(f, g);
    assert SameSent(w.flows, w.flows[i := g]);
    hide WorldInv, FlowOk, Evolves, SameSent;
    WorldFlows(w);
    OneFlow(w.flows, i, g);
    FlowStep(w, w.(flows := w.flows[i := g]));
  }

  lemma WorldFlows(w: World)
    requires WorldInv(w)
    ensures FlowsOk(w.flows)
  {
  }

  lemma ReportSteps(w: World, i: nat, x: int)
    requires WorldInv(w) && i < |w.flows|
    ensures WorldInv(Next(w, MakeReport(i)))
    ensures CanStep(w, TakeReport(i, x)) ==> WorldInv(Next(w, TakeReport(i, x)))
  {
    WorldFlows(w);
    hide WorldInv;
    var f := w.flows[i];
    var g := f.(reports := f.reports + {f.r.read});
    F.MakeReportKeeps(f);
    assert FlowOk(g, i + 1) && Evolves(f, g);
    OneFlow(w.flows, i, g);
    FlowStep(w, w.(flows := w.flows[i := g]));
    if x in f.reports {
      var h := f.(s := F.TakeReport(f.s, x));
      F.ReportKeeps(f, x);
      assert FlowOk(h, i + 1) && Evolves(f, h);
      OneFlow(w.flows, i, h);
      FlowStep(w, w.(flows := w.flows[i := h]));
    }
  }

  // ---------------------------------------------------------------------------------------
  // Steps of the scheduler
  // ---------------------------------------------------------------------------------------

  lemma PutContents(s: Sched, p: Packet)
    requires SchedInv(s)
    ensures var t := Put(s, p);
      && p in Contents(t) && t.hand == s.hand
      && (forall q :: q in Contents(s) && q.flowId != 0 ==> q in Contents(t))
      && (forall q :: q in Contents(t) ==> q in Contents(s) || q == p)
  {
  }

  lemma SendStep(w: World, i: nat, data: seq<int>, fin: bool)
    requires WorldInv(w) && CanStep(w, AppSend(i, data, fin))
    ensures WorldInv(Next(w, AppSend(i, data, fin)))
  {
    hide FlowsOk, FlowOk, Evolves, ChansOk, SchedInv, HandOk, Grows, Authentic, AllAuthentic, ChansAuthentic, AllUp,
      Covered, Contents, Put, CanPut, Is, F.SendPacket, F.NextPacket, F.Finished;
    var f, v := w.flows[i], Next(w, AppSend(i, data, fin));
    var p := F.NextPacket(f.s, i + 1, data, fin);
    SentFlow(w.flows, i, data, fin);
    PutContents(w.sched, p);
    ProducersKeep(w.sched, p, []);
    AuthenticGrows(Contents(w.sched), w.flows, v.flows);
    AuthenticMore(Contents(w.sched), Contents(v.sched), p, v.flows);
    ChansAuthenticGrows(w.chans, w.flows, v.flows);
    AllUpGrows(w.chans, w.flows, v.flows);
    SentCovered(w, v, i, p);
  }

  /** What sending does to the flows, and the packet it makes. */
  lemma SentFlow(fs: seq<F.Flow>, i: nat, data: seq<int>, fin: bool)
    requires FlowsOk(fs) && i < |fs| && fs[i].s.credits > 0 && !F.Finished(fs[i].s)
    ensures var p, g := F.NextPacket(fs[i].s, i + 1, data, fin), fs[i].(s := F.SendPacket(fs[i].s, i + 1, data, fin));
      && FlowsOk(fs[i := g]) && Grows(fs, fs[i := g])
      && |g.s.sent| == |fs[i].s.sent| + 1 && Is(p, i, |fs[i].s.sent|) && Authentic(p, fs[i := g])
  {
    var f := fs[i];
    var p, g := F.NextPacket(f.s, i + 1, data, fin), f.(s := F.SendPacket(f.s, i + 1, data, fin));
    assert FlowOk(f, i + 1);
    F.SendKeeps(f, i + 1, data, fin);
    hide FlowsOk, Grows, F.FlowInv;
    OneFlow(fs, i, g);
  }

  lemma AuthenticMore(ps: seq<Packet>, qs: seq<Packet>, p: Packet, fs: seq<F.Flow>)
    requires AllAuthentic(ps, fs) && Authentic(p, fs) && forall q :: q in qs ==> q in ps || q == p
    ensures AllAuthentic(qs, fs)
  {
    hide Authentic;
  }

  lemma SentCovered(w: World, v: World, i: nat, p: Packet)
    requires Covered(w) && v.chans == w.chans && v.lost == w.lost && |v.flows| == |w.flows| && i < |w.flows|
    requires forall h :: 0 <= h < |w.flows| && h != i ==> v.flows[h] == w.flows[h]
    requires |v.flows[i].s.sent| == |w.flows[i].s.sent| + 1 && Is(p, i, |w.flows[i].s.sent|)
    requires p in Contents(v.sched) && (forall q :: q in Contents(w.sched) && q.flowId != 0 ==> q in Contents(v.sched))
    ensures Covered(v)
  {
    hide Contents, InChannel;
    forall h, k | 0 <= h < |v.flows| && 0 <= k < |v.flows[h].s.sent| ensures Somewhere(v, h, k) {
      if h == i && k == |w.flows[i].s.sent| {
        assert Among(Contents(v.sched), h, k);
      } else {
        assert Somewhere(w, h, k);
        if Among(Contents(w.sched), h, k) {
          var q :| q in Contents(w.sched) && Is(q, h, k);
          assert q in Contents(v.sched);
        }
      }
    }
  }

  lemma ControlStep(w: World, pkt: Packet)
    requires WorldInv(w) && IsControl(pkt)
    ensures WorldInv(Next(w, SendControl(pkt)))
  {
    var v := Next(w, SendControl(pkt));
    PutContents(w.sched, pkt);
    ProducersKeep(w.sched, pkt, []);
    assert v.sched.hand == w.sched.hand;
    assert AllAuthentic(Contents(v.sched), w.flows);
    hide WorldInv, SchedInv, Contents, Put, HandOk, AllAuthentic;
    WorldHand(w);
    SchedStep(w, v);
  }

  lemma WorldHand(w: World)
    requires WorldInv(w)
    ensures HandOk(w.sched.hand, w.chans) && SchedInv(w.sched) && AllAuthentic(Contents(w.sched), w.flows)
  {
  }

  /** Moves of the scheduling thread that keep what the scheduler holds as it is. */
  lemma ThreadStep(w: World, v: World)
    requires WorldInv(w) && v == w.(sched := v.sched) && SchedInv(v.sched) && Contents(v.sched) == Contents(w.sched)
    requires HandOk(v.sched.hand, w.chans)
    ensures WorldInv(v)
  {
    WorldHand(w);
    hide WorldInv, SchedInv, Contents, HandOk, AllAuthentic;
    SchedStep(w, v);
  }

  lemma TokenSteps(w: World, t: Step)
    requires WorldInv(w) && CanStep(w, t)
    requires t.PostOne? || t.WaitToken? || t.NoSpace? || t.ChooseChannel?
    ensures WorldInv(Next(w, t))
  {
    var v := Next(w, t);
    WorldHand(w);
    ThreadKeeps(w.sched, if t.ChooseChannel? then t.j else 0);
    ProducersKeep(w.sched, F.NextPacket(F.InitFlowSnd(), 0, [], false), []);
    assert Contents(v.sched) == Contents(w.sched);
    assert HandOk(v.sched.hand, w.chans);
    assert SchedInv(v.sched);
    hide WorldInv, SchedInv, Contents, HandOk, AllAuthentic;
    ThreadStep(w, v);
  }

  /** The assertion of sendNextPacketUsingCh holds: a packet is found. */
  lemma TakeStep(w: World)
    requires WorldInv(w) && w.sched.hand.Chosen?
    ensures CanTake(w.sched)
    ensures WorldInv(Next(w, TakePacket))
  {
    WorldHand(w);
    ThreadKeeps(w.sched, 0);
    TakeMoves(w.sched);
    assert HandOk(Take(w.sched).hand, w.chans);
    hide WorldInv, SchedInv, Contents, HandOk, AllAuthentic;
    ThreadStep(w, Next(w, TakePacket));
  }

  // ---------------------------------------------------------------------------------------
  // Handing over
  // ---------------------------------------------------------------------------------------

  lemma ReleaseContents(s: Sched)
    requires s.hand.Carrying?
    ensures Contents(s) == [s.hand.pkt] + Contents(Release(s))
  {
  }

  /** A channel changes and is given one more packet. */
  lemma ChanReplaced(chans: seq<Chan>, j: nat, d: Chan, flows: seq<F.Flow>)
    requires ChansOk(chans) && ChansAuthentic(chans, flows) && AllUp(chans, flows) && j < |chans|
    requires ChanInv(d) && AllAuthentic(d.given, flows) && ChanUp(d, flows)
    ensures ChansOk(chans[j := d]) && ChansAuthentic(chans[j := d], flows) && AllUp(chans[j := d], flows)
  {
    hide ChanInv, ChanUp, AllAuthentic;
  }

  lemma HandOkReplaced(h: Hand, chans: seq<Chan>, j: nat, d: Chan)
    requires HandOk(h, chans) && j < |chans| && (Roomy(chans[j].snd) ==> Roomy(d.snd))
    ensures HandOk(h, chans[j := d])
  {
    hide Roomy;
  }

  /** The packet in hand is accepted and becomes the channel's. */
  lemma AcceptedStep(w: World, clock: Clock)
    requires WorldInv(w) && CanStep(w, HandOver(clock)) && SubmitCodeOf(w.chans[w.sched.hand.to].snd) == Accepted
    ensures WorldInv(Next(w, HandOver(clock)))
  {
    hide FlowsOk, ChansOk, SchedInv, Authentic, AllAuthentic, ChansAuthentic, AllUp, Covered, Contents, ChanInv, ChanUp,
      Apply, Stored, SubmitCodeOf;
    var j, pkt, v := w.sched.hand.to, w.sched.hand.pkt, Next(w, HandOver(clock));
    var c, d := w.chans[j], v.chans[j];
    OneChannel(w, j);
    ReleaseContents(w.sched);
    ThreadKeeps(w.sched, 0);
    ReleaseAuthentic(w.sched, w.flows);
    AcceptedChan(c, pkt, clock, w.flows);
    ChanReplaced(w.chans, j, d, w.flows);
    DepositCovers(w, v, j, pkt, Stored(c.snd.b, pkt));
  }

  lemma OneChannel(w: World, j: nat)
    requires WorldInv(w) && j < |w.chans|
    ensures ChanInv(w.chans[j]) && AllAuthentic(w.chans[j].given, w.flows) && ChanUp(w.chans[j], w.flows)
  {
    hide ChanInv, AllAuthentic, ChanUp, FlowsOk, SchedInv, HandOk, Covered, Contents;
  }

  lemma ReleaseAuthentic(s: Sched, fs: seq<F.Flow>)
    requires s.hand.Carrying? && AllAuthentic(Contents(s), fs)
    ensures Authentic(s.hand.pkt, fs) && AllAuthentic(Contents(Release(s)), fs)
  {
    hide Authentic, Contents;
    ReleaseContents(s);
  }

  /** The channel once it has accepted a packet. */
  lemma AcceptedChan(c: Chan, pkt: Packet, clock: Clock, fs: seq<F.Flow>)
    requires ChanInv(c) && AllAuthentic(c.given, fs) && ChanUp(c, fs) && Authentic(pkt, fs)
    requires SubmitCodeOf(c.snd) == Accepted && Ticking(clock)
    ensures !c.snd.dead
    ensures var x := Stored(c.snd.b, pkt); x.flowId == pkt.flowId && x.flowSeq == pkt.flowSeq
    ensures var d := Apply(c, SubmitPacket(pkt, clock));
      && ChanInv(d) && AllAuthentic(d.given, fs) && ChanUp(d, fs)
      && d.given == c.given + [Stored(c.snd.b, pkt)] && d.rcv == c.rcv && !d.snd.dead
  {
    hide ChanInv, ChanUp, Apply;
    SubmitOutside(c, pkt, clock);
    GivenUp(c, Apply(c, SubmitPacket(pkt, clock)), fs);
  }

  lemma GivenUp(c: Chan, d: Chan, flows: seq<F.Flow>)
    requires ChanInv(c) && ChanUp(c, flows) && d.rcv == c.rcv && c.given <= d.given
    ensures ChanUp(d, flows)
  {
    forall n | Received(d.rcv, n) && 0 <= n < |d.given| ensures PacketTaken(d.given[n], flows) {
      assert n <= c.snd.b.mid;
      assert d.given[n] == c.given[n];
    }
  }

  lemma DepositCovers(w: World, v: World, j: nat, pkt: Packet, stored: Packet)
    requires Covered(w) && j < |w.chans| && v.flows == w.flows && v.lost == w.lost
    requires Contents(w.sched) == [pkt] + Contents(v.sched)
    requires stored.flowId == pkt.flowId && stored.flowSeq == pkt.flowSeq
    requires |v.chans| == |w.chans| && v.chans == w.chans[j := v.chans[j]]
    requires v.chans[j].given == w.chans[j].given + [stored]
    requires v.chans[j].rcv == w.chans[j].rcv && !w.chans[j].snd.dead && !v.chans[j].snd.dead
    ensures Covered(v)
  {
    hide Contents, Received;
    forall i, k | i >= 0 && Somewhere(w, i, k) ensures Somewhere(v, i, k) {
      if Among(Contents(w.sched), i, k) {
        var p :| p in Contents(w.sched) && Is(p, i, k);
        if p == pkt {
          assert Is(v.chans[j].given[|w.chans[j].given|], i, k);
          assert InChannel(v.chans[j], i, k);
        } else {
          assert p in Contents(v.sched);
        }
      } else if Among(w.lost, i, k) {
      } else {
        ChannelStays(w, v, j, i, k);
      }
    }
    hide Somewhere;
    CoveredStays(w, v);
  }

  /** A packet in some channel is still in one when channel `j` changes and keeps what it covers. */
  lemma ChannelStays(w: World, v: World, j: nat, i: int, k: int)
    requires exists h :: 0 <= h < |w.chans| && InChannel(w.chans[h], i, k)
    requires j < |w.chans| == |v.chans| && v.chans == w.chans[j := v.chans[j]]
    requires w.chans[j].given <= v.chans[j].given
    requires forall n :: 0 <= n < |w.chans[j].given| && (!w.chans[j].snd.dead || Received(w.chans[j].rcv, n)) ==>
               !v.chans[j].snd.dead || Received(v.chans[j].rcv, n)
    ensures exists h :: 0 <= h < |v.chans| && InChannel(v.chans[h], i, k)
  {
    hide Received;
    var h :| 0 <= h < |w.chans| && InChannel(w.chans[h], i, k);
    if h == j {
      var n :| 0 <= n < |w.chans[j].given| && Is(w.chans[j].given[n], i, k)
                && (!w.chans[j].snd.dead || Received(w.chans[j].rcv, n));
      assert Is(v.chans[j].given[n], i, k);
    }
    assert InChannel(v.chans[h], i, k);
  }

  /** The packet in hand is refused, which the channel does only when it is dead. */
  lemma RefusedStep(w: World, clock: Clock)
    requires WorldInv(w) && CanStep(w, HandOver(clock)) && SubmitCodeOf(w.chans[w.sched.hand.to].snd) != Accepted
    ensures w.chans[w.sched.hand.to].snd.dead
    ensures WorldInv(Next(w, HandOver(clock)))
  {
    var v := Next(w, HandOver(clock));
    assert v.chans == w.chans && v.flows == w.flows;
    ReleaseContents(w.sched);
    ThreadKeeps(w.sched, 0);
    assert AllAuthentic(Contents(v.sched), w.flows);
    hide FlowsOk, ChansOk, SchedInv, ChansAuthentic, AllUp, Covered, AllAuthentic, Contents;
    forall i, k | i >= 0 && Somewhere(w, i, k) ensures Somewhere(v, i, k) {
      hide InChannel;
      if Among(Contents(w.sched), i, k) {
        var p :| p in Contents(w.sched) && Is(p, i, k);
        assert p in Contents(v.sched) || p in v.lost;
      } else if Among(w.lost, i, k) {
        var p :| p in w.lost && Is(p, i, k);
        assert p in v.lost;
      }
    }
    hide Somewhere;
    CoveredStays(w, v);
  }

  // ---------------------------------------------------------------------------------------
  // Steps of a channel
  // ---------------------------------------------------------------------------------------

  lemma OpenChannelStep(w: World)
    requires WorldInv(w)
    ensures WorldInv(Next(w, OpenChannel))
  {
    var v := Next(w, OpenChannel);
    InitKeeps();
    assert ChansOk(v.chans) && HandOk(v.sched.hand, v.chans);
    assert AllUp(v.chans, v.flows) && ChansAuthentic(v.chans, v.flows);
    hide FlowsOk, ChansOk, SchedInv, HandOk, AllAuthentic, ChansAuthentic, AllUp, Covered, InChannel, Contents;
    forall i, k | i >= 0 && Somewhere(w, i, k) ensures Somewhere(v, i, k) {
      hide Among;
      if !Among(Contents(w.sched), i, k) && !Among(w.lost, i, k) {
        var j :| 0 <= j < |w.chans| && InChannel(w.chans[j], i, k);
        assert InChannel(v.chans[j], i, k);
      }
    }
    CoveredStays(w, v);
  }

  /** recvPacketFrom of an authentic packet: its flow has taken it, and nothing else changes. */
  lemma UpTakes(fs: seq<F.Flow>, p: Packet)
    requires FlowsOk(fs) && Authentic(p, fs)
    ensures var gs := Up(fs, p); FlowsOk(gs) && Grows(fs, gs) && SameSent(fs, gs) && PacketTaken(p, gs)
  {
    if OfFlow(p, fs) {
      var i := p.flowId - 1;
      var f := fs[i];
      F.TakeKeeps(f, p);
      var g := f.(r := F.TakePacket(f.r, p.flowSeq, p));
      assert FlowOk(f, i + 1);
      assert FlowOk(g, i + 1) && Evolves(f, g);
      hide FlowOk, Evolves, F.TakePacket;
      OneFlow(fs, i, g);
      assert Taken(g, p.flowSeq);
    }
  }

  lemma NetworkStep(w: World, j: nat, e: Event)
    requires WorldInv(w) && CanStep(w, Network(j, e))
    ensures WorldInv(Next(w, Network(j, e)))
  {
    var c, v := w.chans[j], Next(w, Network(j, e));
    var d := v.chans[j];
    assert ChanInv(c) && AllAuthentic(c.given, w.flows) && ChanUp(c, w.flows);
    InternalOutside(c, e);
    assert Accepts(c, e) ==> c.given[e.n] in c.given;
    if Accepts(c, e) {
      UpTakes(w.flows, c.given[e.n]);
    }
    assert FlowsOk(v.flows) && Grows(w.flows, v.flows) && SameSent(w.flows, v.flows);
    hide FlowsOk, ChansOk, ChanInv, SchedInv, Enabled, Apply, Covered, Contents, Grows, SameSent, Up;
    HandOkReplaced(w.sched.hand, w.chans, j, d);
    hide HandOk;
    AuthenticGrows(Contents(w.sched), w.flows, v.flows);
    AuthenticGrows(c.given, w.flows, v.flows);
    ChansAuthenticGrows(w.chans, w.flows, v.flows);
    AllUpGrows(w.chans, w.flows, v.flows);
    ChanUpGrows(c, w.flows, v.flows);
    hide AllAuthentic, ChansAuthentic, AllUp;
    DeliveredUp(c, d, e, v.flows);
    ChanReplaced(w.chans, j, d, v.flows);
    NetworkCovers(w, v, j);
  }

  /** What the receiver has after a step its flow has too. */
  lemma DeliveredUp(c: Chan, d: Chan, e: Event, flows: seq<F.Flow>)
    requires ChanUp(c, flows) && d.given == c.given
    requires !e.DeliverData? ==> d.rcv == c.rcv
    requires e.DeliverData? ==>
      0 <= e.n < |c.given| && forall m :: Received(d.rcv, m) ==> Received(c.rcv, m) || m == e.n
    requires e.DeliverData? ==>
      (AcceptedBy(c.rcv, e.n, c.given[e.n].chs) <==> Received(d.rcv, e.n) && !Received(c.rcv, e.n))
    requires Accepts(c, e) ==> PacketTaken(c.given[e.n], flows)
    ensures ChanUp(d, flows)
  {
    hide AcceptedBy, Received, PacketTaken;
  }

  lemma NetworkCovers(w: World, v: World, j: nat)
    requires Covered(w) && SameSent(w.flows, v.flows) && v.sched == w.sched && v.lost == w.lost
    requires j < |w.chans| == |v.chans| && v.chans == w.chans[j := v.chans[j]]
    requires v.chans[j].given == w.chans[j].given && v.chans[j].snd.dead == w.chans[j].snd.dead
    requires forall n :: Received(w.chans[j].rcv, n) ==> Received(v.chans[j].rcv, n)
    ensures Covered(v)
  {
    hide Contents, Received, InChannel, Among;
    forall i, k | i >= 0 && Somewhere(w, i, k) ensures Somewhere(v, i, k) {
      if !Among(Contents(w.sched), i, k) && !Among(w.lost, i, k) {
        ChannelStays(w, v, j, i, k);
      }
    }
    hide Somewhere;
    CoveredStays(w, v);
  }

  lemma MigrateContents(s: Sched, ps: seq<Packet>)
    ensures forall q :: q in Contents(Migrate(s, ps)) <==> q in Contents(s) || q in ps
  {
  }

  lemma DeathStep(w: World, j: nat, order: seq<int>)
    requires WorldInv(w) && CanStep(w, ChannelDies(j, order))
    ensures WorldInv(Next(w, ChannelDies(j, order)))
  {
    var c, v := w.chans[j], Next(w, ChannelDies(j, order));
    var d, ps := v.chans[j], Undelivered(c.snd.b);
    assert ChanInv(c) && AllAuthentic(c.given, w.flows) && ChanUp(c, w.flows);
    DeathOutside(c, order);
    MigrateContents(w.sched, ps);
    ProducersKeep(w.sched, F.NextPacket(F.InitFlowSnd(), 0, [], false), ps);
    forall p | p in ps ensures p in c.given {
      UndeliveredFromGiven(c, p);
    }
    assert !c.snd.dead;
    assert v.sched.hand == w.sched.hand;
    hide FlowsOk, ChansOk, ChanInv, SchedInv, Undelivered, Enabled, Apply, Covered, Contents, Migrate;
    HandOkReplaced(w.sched.hand, w.chans, j, d);
    hide HandOk;
    assert AllAuthentic(Contents(v.sched), w.flows);
    hide AllUp, ChansAuthentic;
    ChanReplaced(w.chans, j, d, w.flows);
    DeathCovers(w, v, j);
  }

  /** Each packet of the dead channel was received or is queued again. */
  lemma DeathCovers(w: World, v: World, j: nat)
    requires Covered(w) && v.flows == w.flows && v.lost == w.lost
    requires j < |w.chans| == |v.chans| && v.chans == w.chans[j := v.chans[j]]
    requires ChanInv(w.chans[j]) && !w.chans[j].snd.dead && AllAuthentic(w.chans[j].given, w.flows)
    requires v.chans[j].given == w.chans[j].given && v.chans[j].rcv == w.chans[j].rcv
    requires forall q :: q in Contents(v.sched) <==> q in Contents(w.sched) || q in Undelivered(w.chans[j].snd.b)
    ensures Covered(v)
  {
    forall i, k | i >= 0 && Somewhere(w, i, k) ensures Somewhere(v, i, k) {
      hide Contents, ChanInv, AllAuthentic;
      if Among(Contents(w.sched), i, k) {
      } else if Among(w.lost, i, k) {
      } else {
        hide Among;
        var h :| 0 <= h < |w.chans| && InChannel(w.chans[h], i, k);
        if h != j {
          assert InChannel(v.chans[h], i, k);
        } else {
          DeadPacket(w.chans[j], v.chans[j], w.flows, i, k);
          if !InChannel(v.chans[j], i, k) {
            MovesOver(Undelivered(w.chans[j].snd.b), Contents(v.sched), i, k);
          }
        }
      }
    }
    hide Somewhere;
    CoveredStays(w, v);
  }

  lemma MovesOver(ps: seq<Packet>, qs: seq<Packet>, i: int, k: int)
    requires Among(ps, i, k) && forall p :: p in ps ==> p in qs
    ensures Among(qs, i, k)
  {
  }

  lemma DeadPacket(c: Chan, d: Chan, flows: seq<F.Flow>, i: int, k: int)
    requires ChanInv(c) && !c.snd.dead && AllAuthentic(c.given, flows) && InChannel(c, i, k) && i >= 0
    requires d.given == c.given && d.rcv == c.rcv
    ensures InChannel(d, i, k) || Among(Undelivered(c.snd.b), i, k)
  {
    var n :| 0 <= n < |c.given| && Is(c.given[n], i, k);
    HeldOrReceived(c, n);
    assert Authentic(c.given[n], flows);
    hide ChanInv, AllAuthentic, Authentic;
    if n in c.snd.b.slots {
      UndeliveredHas(c.snd.b, n);
    } else {
      assert Is(d.given[n], i, k);
    }
  }

  // ---------------------------------------------------------------------------------------
  // All steps
  // ---------------------------------------------------------------------------------------

  lemma InitWorldKeeps()
    ensures WorldInv(InitWorld())
  {
    hide FlowOk, ChanInv, Somewhere, Authentic, ChanUp;
    var w := InitWorld();
    assert Contents(w.sched) == [];
    assert FlowsOk(w.flows) && ChansOk(w.chans) && SchedInv(w.sched) && HandOk(w.sched.hand, w.chans);
    assert AllAuthentic(Contents(w.sched), w.flows) && ChansAuthentic(w.chans, w.flows);
    assert AllUp(w.chans, w.flows) && Covered(w);
  }

  lemma WorldStepKeeps(w: World, t: Step)
    requires WorldInv(w) && CanStep(w, t)
    ensures WorldInv(Next(w, t))
  {
    hide WorldInv, Next;
    match t
    case OpenFlow => OpenFlowStep(w);
    case OpenChannel => OpenChannelStep(w);
    case AppSend(i, data, fin) => SendStep(w, i, data, fin);
    case AppRead(i) => ReadStep(w, i);
    case MakeReport(i) => ReportSteps(w, i, 0);
    case TakeReport(i, x) => ReportSteps(w, i, x);
    case SendControl(pkt) => ControlStep(w, pkt);
    case PostOne => TokenSteps(w, t);
    case WaitToken => TokenSteps(w, t);
    case NoSpace => TokenSteps(w, t);
    case ChooseChannel(j) => TokenSteps(w, t);
    case TakePacket => TakeStep(w);
    case HandOver(clock) =>
      if SubmitCodeOf(w.chans[w.sched.hand.to].snd) == Accepted {
        AcceptedStep(w, clock);
      } else {
        RefusedStep(w, clock);
      }
    case Network(j, e) => NetworkStep(w, j, e);
    case ChannelDies(j, order) => DeathStep(w, j, order);
  }
}
