/**
 Runs of the whole system that deliver: whatever an application writes to a flow, piece by piece,
 there is a run in which the receiving end reads exactly that and then the end of the flow.
 */
module Deliveries {
  import opened SeqNum
  import opened Packets
  import opened SenderModel
  import opened ReceiverModel
  import opened ChannelSystem
  import opened SchedulerModel
  import opened World
  import opened WorldData
  import opened WorldTheorems
  import F = FlowModel
  import R = RoundTrips

  /** One flow, one channel, and nothing anywhere in between. */
  function Line(f: F.Flow, c: Chan): World {
    World([f], InitSched(), [c], [])
  }

  /** The first `n` packets of the flow have been read and acked on both levels. */
  ghost predicate AtRest(f: F.Flow, c: Chan, n: nat) {
    && R.Idle(c, n)
    && f.s.next == f.s.acked == n - 1 && f.s.credits == F.WINDOW && |f.s.sent| == n && !F.Finished(f.s)
    && f.r.read == f.r.avail == n - 1 && f.r.held == map[] && f.r.sem == 0 && !f.r.ended
  }

  // ---------------------------------------------------------------------------------------
  // One packet on its way
  // ---------------------------------------------------------------------------------------

  /** The application sends, the scheduler takes the packet up, and the channel gets it. */
  lemma HandedOver(f: F.Flow, c: Chan, data: seq<int>, fin: bool) returns (v: World)
    requires Reached(Line(f, c)) && f.s.credits > 0 && !F.Finished(f.s)
    requires Space(c.snd) && SubmitCodeOf(c.snd) == Accepted
    ensures Reached(v)
    ensures v == Line(f.(s := F.SendPacket(f.s, 1, data, fin)),
                      Apply(c, SubmitPacket(F.NextPacket(f.s, 1, data, fin), R.Noon)))
  {
    var p := F.NextPacket(f.s, 1, data, fin);
    hide Reached, Apply, F.SendPacket, F.NextPacket, F.Finished, Space, SubmitCodeOf;
    v := TakenUp(f, c, data, fin);
    v := OneMoreStep(v, HandOver(R.Noon));
    assert v.chans == [Apply(c, SubmitPacket(p, R.Noon))];
  }

  lemma TakenUp(f: F.Flow, c: Chan, data: seq<int>, fin: bool) returns (v: World)
    requires Reached(Line(f, c)) && f.s.credits > 0 && !F.Finished(f.s) && Space(c.snd)
    ensures Reached(v) && v.flows == [f.(s := F.SendPacket(f.s, 1, data, fin))] && v.chans == [c] && v.lost == []
    ensures v.sched == Sched(None, [], [], [], 0, 0, Carrying(F.NextPacket(f.s, 1, data, fin), 0))
  {
    hide Reached, Apply, F.SendPacket, F.NextPacket, F.Finished, Space;
    v := Queued(f, c, data, fin);
    v := OneMoreStep(v, PostOne);
    v := OneMoreStep(v, WaitToken);
    v := OneMoreStep(v, ChooseChannel(0));
    v := OneMoreStep(v, TakePacket);
  }

  lemma Queued(f: F.Flow, c: Chan, data: seq<int>, fin: bool) returns (v: World)
    requires Reached(Line(f, c)) && f.s.credits > 0 && !F.Finished(f.s)
    ensures var p, g := F.NextPacket(f.s, 1, data, fin), f.(s := F.SendPacket(f.s, 1, data, fin));
      Reached(v) && v.flows == [g] && v.chans == [c] && v.lost == []
      && v.sched == Sched(None, [], if fin then [p] else [], if fin then [] else [p], 0, 1, Waiting)
  {
    hide Reached, F.SendPacket;
    v := OneMoreStep(Line(f, c), AppSend(0, data, fin));
  }

  /** The packet comes through and is accepted; its flow gets it. */
  lemma CameThrough(g: F.Flow, c: Chan, n: nat) returns (v: World)
    requires Reached(Line(g, c)) && Enabled(c, DeliverData(n)) && n < |c.given| && c.given[n].flowId == 1
    requires AcceptedBy(c.rcv, n, c.given[n].chs) && g.r.read + 1 - c.given[n].flowSeq <= 16383
    ensures Reached(v)
    ensures v == Line(g.(r := F.TakePacket(g.r, c.given[n].flowSeq, c.given[n])), Apply(c, DeliverData(n)))
  {
    hide Reached, Apply, Enabled, AcceptedBy, F.TakePacket;
    v := OneMoreStep(Line(g, c), Network(0, DeliverData(n)));
    assert v.flows == [g.(r := F.TakePacket(g.r, c.given[n].flowSeq, c.given[n]))];
  }

  /** Any other step of the network touches the channel alone. */
  lemma Alone(g: F.Flow, c: Chan, e: Event) returns (v: World)
    requires Reached(Line(g, c)) && Enabled(c, e) && (e.DeliverAck? || e.DrainAcks?)
    ensures Reached(v) && v == Line(g, Apply(c, e))
  {
    hide Reached, Apply, Enabled;
    v := OneMoreStep(Line(g, c), Network(0, e));
    assert v.chans == [Apply(c, e)];
  }

  /** The application reads. */
  lemma WasRead(g: F.Flow, c: Chan) returns (v: World)
    requires Reached(Line(g, c)) && F.CanRead(g.r)
    ensures Reached(v) && v == Line(ReadFlow(g), c)
  {
    hide Reached, ReadFlow, F.CanRead;
    v := OneMoreStep(Line(g, c), AppRead(0));
    assert v.flows == [ReadFlow(g)];
  }

  /** The reading end reports how far it has read, and the report arrives. */
  lemma WasReported(g: F.Flow, c: Chan) returns (v: World)
    requires Reached(Line(g, c)) && g.s.acked - g.r.read < CNT - F.WINDOW
    ensures Reached(v)
    ensures v == Line(g.(reports := g.reports + {g.r.read}, s := F.TakeReport(g.s, g.r.read)), c)
  {
    hide Reached, F.TakeReport;
    v := OneMoreStep(Line(g, c), MakeReport(0));
    v := OneMoreStep(v, TakeReport(0, g.r.read));
  }

  // ---------------------------------------------------------------------------------------
  // One round
  // ---------------------------------------------------------------------------------------

  /** What the flow goes through until its packet is read. */
  lemma FlowRound(f: F.Flow, n: nat, data: seq<int>, fin: bool, p: Packet)
    requires f.s.next == n - 1 && f.r.read == f.r.avail == n - 1 && f.r.held == map[] && f.r.sem == 0
    requires p.flowSeq == n && p.data == data && p.fin == fin
    ensures var g := f.(s := F.SendPacket(f.s, 1, data, fin), r := F.TakePacket(f.r, n, p));
      && F.CanRead(g.r) && ReadFlow(g).s == g.s && ReadFlow(g).reports == g.reports
      && ReadFlow(g).r == F.FlowRcv(n, n, map[], 0, if fin then f.r.got else f.r.got + [data], f.r.ended || fin)
  {
    var held := f.r.held[n := p];
    assert F.Contiguous(held, n - 1) == n;
    var g := f.(s := F.SendPacket(f.s, 1, data, fin), r := F.TakePacket(f.r, n, p));
    assert g.r.held - {n} == map[];
  }

  lemma IdleReady(c: Chan, n: nat)
    requires R.Idle(c, n)
    ensures R.InFlight(c, n, 0) && 1 <= Wnd(c.snd.c) && Space(c.snd) && R.NoMarks(c.snd.b) && R.Ready(c.snd.c, n)
    ensures c.queue == [] && c.rcv.next == n && c.rcv.above == {} && (n > 0 ==> c.rcv.started)
    ensures |c.given| == n && c.snd.b.lo == c.snd.b.hi
  {
    R.ReadyOpen(c.snd.c, n);
  }

  /** The channel with the packet of the round in flight. */
  lemma ChannelSends(c: Chan, n: nat, p: Packet)
    requires R.Idle(c, n) && p.flowId == 1 && p.flowSeq == n
    ensures SubmitCodeOf(c.snd) == Accepted && Space(c.snd)
    ensures var d := Apply(c, SubmitPacket(p, R.Noon));
      && R.InFlight(d, n, 1) && R.NoMarks(d.snd.b) && R.Ready(d.snd.c, n) && d.queue == []
      && d.rcv.next == n && d.rcv.above == {} && (n > 0 ==> d.rcv.started)
      && n < |d.given| && d.given[n].chs && d.given[n] == p.(chs := true)
  {
    IdleReady(c, n);
    hide Apply, Wnd, R.Idle, R.NoMarks, R.Ready, Space;
    R.Submitted(c, n, 0, p);
  }

  /** The channel once the packet is across. */
  lemma ChannelDelivers(d: Chan, n: nat)
    requires R.InFlight(d, n, 1) && R.NoMarks(d.snd.b) && R.Ready(d.snd.c, n) && d.queue == []
    requires d.rcv.next == n && d.rcv.above == {}
    ensures n < |d.given| && d.given[n].chs && Enabled(d, DeliverData(n)) && AcceptedBy(d.rcv, n, d.given[n].chs)
    ensures var e := Apply(d, DeliverData(n));
      && R.InFlight(e, n, 1) && e.snd == d.snd && e.given == d.given && e.queue == []
      && e.rcv == Rcv(n + 1, {}, true) && AckMsg(n, n) in e.acks
  {
    R.Arrived(d, n, 1, n);
    R.NextTaken(d.rcv, n, d.given[n].chs);
    hide Apply, Enabled, R.InFlight, R.Ready;
  }

  /** The channel once the ack is back. */
  lemma ChannelAcked(e: Chan, n: nat)
    requires R.InFlight(e, n, 1) && R.Ready(e.snd.c, n) && e.queue == [] && e.rcv == Rcv(n + 1, {}, true)
    requires AckMsg(n, n) in e.acks
    ensures Enabled(e, DeliverAck(AckMsg(n, n), 0, 0))
    ensures var a := Apply(e, DeliverAck(AckMsg(n, n), 0, 0));
      Enabled(a, DrainAcks(1, R.Noon)) && R.Idle(Apply(a, DrainAcks(1, R.Noon)), n + 1)
  {
    hide Apply, Enabled, R.InFlight, R.Ready, R.Idle;
    R.AckArrived(e, n, 1, AckMsg(n, n));
    R.Taken(Apply(e, DeliverAck(AckMsg(n, n), 0, 0)), n, 1, n);
  }

  /** A packet goes from the writer to the reader. */
  lemma ReadAcross(f: F.Flow, c: Chan, n: nat, data: seq<int>, fin: bool) returns (g: F.Flow, e: Chan)
    requires Reached(Line(f, c)) && AtRest(f, c, n)
    ensures Reached(Line(g, e))
    ensures g.s == F.SendPacket(f.s, 1, data, fin)
    ensures g.r == F.FlowRcv(n, n, map[], 0, if fin then f.r.got else f.r.got + [data], fin)
    ensures R.InFlight(e, n, 1) && R.Ready(e.snd.c, n) && e.queue == [] && e.rcv == Rcv(n + 1, {}, true)
    ensures AckMsg(n, n) in e.acks
  {
    var p := F.NextPacket(f.s, 1, data, fin);
    var q := p.(chs := true);
    FlowRound(f, n, data, fin, q);
    hide Reached, Apply, Enabled, AcceptedBy, R.Idle, R.InFlight, R.Ready, R.NoMarks, F.SendPacket, F.TakePacket,
      F.CanRead, F.Finished, Space, SubmitCodeOf, ReadFlow;
    ChannelSends(c, n, p);
    var v := HandedOver(f, c, data, fin);
    var d, h := v.chans[0], v.flows[0];
    ChannelDelivers(d, n);
    v := CameThrough(h, d, n);
    v := WasRead(v.flows[0], v.chans[0]);
    g, e := v.flows[0], v.chans[0];
  }

  lemma OneRound(f: F.Flow, c: Chan, n: nat, data: seq<int>) returns (g: F.Flow, e: Chan)
    requires Reached(Line(f, c)) && AtRest(f, c, n)
    ensures Reached(Line(g, e)) && AtRest(g, e, n + 1) && g.r.got == f.r.got + [data]
  {
    var h, d := ReadAcross(f, c, n, data, false);
    hide Reached, Apply, Enabled, R.Idle, R.InFlight, R.Ready;
    ChannelAcked(d, n);
    var v := WasReported(h, d);
    var a := Apply(d, DeliverAck(AckMsg(n, n), 0, 0));
    v := Alone(v.flows[0], d, DeliverAck(AckMsg(n, n), 0, 0));
    v := Alone(v.flows[0], a, DrainAcks(1, R.Noon));
    g, e := v.flows[0], v.chans[0];
  }

  lemma {:induction false} Rounds(chunks: seq<seq<int>>) returns (f: F.Flow, c: Chan)
    ensures Reached(Line(f, c)) && AtRest(f, c, |chunks|) && f.r.got == chunks
  {
    if chunks == [] {
      f, c := Opened();
    } else {
      var k := |chunks| - 1;
      f, c := Rounds(chunks[..k]);
      hide Reached, AtRest;
      f, c := OneRound(f, c, k, chunks[k]);
      assert chunks == chunks[..k] + [chunks[k]];
    }
  }

  lemma Opened() returns (f: F.Flow, c: Chan)
    ensures Reached(Line(f, c)) && AtRest(f, c, 0) && f.r.got == []
  {
    f, c := F.InitFlow(), InitChan();
    StartReached();
    hide Reached;
    var w := OneMoreStep(InitWorld(), OpenFlow);
    w := OneMoreStep(w, OpenChannel);
    assert w == Line(f, c);
    assert R.Idle(c, 0);
  }

  // ---------------------------------------------------------------------------------------
  // Everything arrives
  // ---------------------------------------------------------------------------------------

  /**
   Whatever pieces of data an application writes to a flow before it closes it, there is a run of
   the system in which that is what it writes, and the receiving end has read all of it, in order,
   and the end of the flow.
   */
  lemma EverythingCanArrive(chunks: seq<seq<int>>) returns (ws: seq<World>, ts: seq<Step>)
    ensures Run(ws, ts) && |ws[|ts|].flows| == 1
    ensures Written(ts, 0) == chunks && Closed(ts, 0)
    ensures ws[|ts|].flows[0].r.got == chunks && ws[|ts|].flows[0].r.ended
  {
    var f, c := Rounds(chunks);
    hide AtRest;
    var g, e := ReadAcross(f, c, |chunks|, [], true);
    ws, ts :| Run(ws, ts) && ws[|ts|] == Line(g, e);
    hide Reached, Run, Written, Closed;
    EndToEnd(ws, ts, |ts|, 0);
    assert ts[..|ts|] == ts;
  }
}
