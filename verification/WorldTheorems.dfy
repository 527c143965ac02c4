/** What holds in every run of the whole system. */
module WorldTheorems {
  import opened SenderModel
  import opened ReceiverModel
  import opened ChannelSystem
  import opened ChannelEnds
  import opened SchedulerModel
  import opened World
  import opened WorldData
  import opened WorldProofs
  import F = FlowModel

  ghost predicate Run(ws: seq<World>, ts: seq<Step>) {
    && |ws| == |ts| + 1
    && ws[0] == InitWorld()
    && (forall x :: 0 <= x < |ts| ==> CanStep(ws[x], ts[x]) && ws[x + 1] == Next(ws[x], ts[x]))
  }

  lemma {:induction false} RunKeeps(ws: seq<World>, ts: seq<Step>, x: nat)
    requires Run(ws, ts) && x < |ws|
    ensures WorldInv(ws[x])
  {
    if x == 0 {
      InitWorldKeeps();
    } else {
      RunKeeps(ws, ts, x - 1);
      hide WorldInv, Next, CanStep;
      WorldStepKeeps(ws[x - 1], ts[x - 1]);
    }
  }

  lemma {:induction false} RunSent(ws: seq<World>, ts: seq<Step>, x: nat, i: nat)
    requires Run(ws, ts) && x < |ws|
    ensures SentAsWritten(ws[x], ts[..x], i)
  {
    if x > 0 {
      RunSent(ws, ts, x - 1, i);
      hide CanStep, Next, SentAsWritten;
      SentAsWrittenKept(ws[x - 1], ts[..x - 1], ts[x - 1], i);
      assert ts[..x - 1] + [ts[x - 1]] == ts[..x];
    }
  }

  lemma RunStep(ws: seq<World>, ts: seq<Step>, k: nat)
    requires Run(ws, ts)
    ensures |ws| == |ts| + 1 && ws[0] == InitWorld()
    ensures k < |ts| ==> WorldInv(ws[k]) && CanStep(ws[k], ts[k]) && ws[k + 1] == Next(ws[k], ts[k])
  {
    hide CanStep, Next, WorldInv;
    if k < |ts| {
      RunKeeps(ws, ts, k);
    }
  }

  lemma NothingRead(i: nat)
    ensures ReadsReturned(InitWorld(), [], i)
  {
  }

  lemma {:induction false} RunReads(ws: seq<World>, ts: seq<Step>, x: nat, i: nat)
    requires Run(ws, ts) && x < |ws|
    ensures ReadsReturned(ws[x], ts[..x], i)
  {
    hide CanStep, Next, WorldInv, Run, ReadsReturned;
    if x == 0 {
      RunStep(ws, ts, 0);
      NothingRead(i);
    } else {
      RunStep(ws, ts, x - 1);
      RunReads(ws, ts, x - 1, i);
      ReadsReturnedKept(ws[x - 1], ts[..x - 1], ts[x - 1], i);
      assert ts[..x - 1] + [ts[x - 1]] == ts[..x];
    }
  }

  /**
   End to end, in every run: over channels that lose, repeat and reorder, under any scheduling,
   with channels dying and their packets moving to others, what readData has returned for a flow
   is a prefix of what the application has written to it, in order, one piece for each read; the
   end of the flow is returned only after all of it, when the application has closed the flow. At
   no time does readData or the scheduling thread find nothing where the source asserts a packet.
   */
  lemma EndToEnd(ws: seq<World>, ts: seq<Step>, x: nat, i: nat)
    requires Run(ws, ts) && x < |ws| && i < |ws[x].flows|
    ensures var f := ws[x].flows[i]; var written := Written(ts[..x], i);
      && f.r.got <= written && F.Bytes(f.r.got) <= F.Bytes(written)
      && |f.r.got| + (if f.r.ended then 1 else 0) == Reads(ts[..x], i)
      && (f.r.ended ==> Closed(ts[..x], i) && f.r.got == written)
      && written == F.DataOf(f.s.sent, |f.s.sent|) && (F.Finished(f.s) <==> Closed(ts[..x], i))
      && (F.CanRead(f.r) ==> f.r.read + 1 in f.r.held)
    ensures ws[x].sched.hand.Chosen? ==> CanTake(ws[x].sched)
  {
    RunKeeps(ws, ts, x);
    RunSent(ws, ts, x, i);
    RunReads(ws, ts, x, i);
    assert FlowOk(ws[x].flows[i], i + 1);
    hide Written, Closed, Reads, Run;
    F.ReadsPrefix(ws[x].flows[i]);
    ThreadKeeps(ws[x].sched, 0);
  }

  /** A live channel holds the packet in a slot. */
  ghost predicate Buffered(c: Chan, i: int, k: int) {
    !c.snd.dead && exists n :: n in c.snd.b.slots && Is(c.snd.b.slots[n].pkt, i, k)
  }

  lemma InChannelMeans(c: Chan, flows: seq<F.Flow>, i: nat, k: int)
    requires ChanInv(c) && ChanUp(c, flows) && InChannel(c, i, k) && i < |flows|
    ensures Buffered(c, i, k) || Taken(flows[i], k)
  {
    var n :| 0 <= n < |c.given| && Is(c.given[n], i, k) && (!c.snd.dead || Received(c.rcv, n));
    if Received(c.rcv, n) {
      assert PacketTaken(c.given[n], flows);
    } else {
      HeldOrReceived(c, n);
      hide ChanInv;
    }
  }

  /**
   No packet vanishes: in every run each packet a flow has sent is with the scheduler, in the
   buffer of a live channel, taken by the receiving end, or in `lost`.
   */
  lemma NothingVanishes(ws: seq<World>, ts: seq<Step>, x: nat, i: nat, k: nat)
    requires Run(ws, ts) && x < |ws| && i < |ws[x].flows| && k < |ws[x].flows[i].s.sent|
    ensures var w := ws[x];
      || Among(Contents(w.sched), i, k) || Among(w.lost, i, k)
      || (exists j :: 0 <= j < |w.chans| && Buffered(w.chans[j], i, k))
      || Taken(w.flows[i], k)
  {
    RunKeeps(ws, ts, x);
    var w := ws[x];
    assert Somewhere(w, i, k);
    hide Contents;
    if !Among(Contents(w.sched), i, k) && !Among(w.lost, i, k) {
      var j :| 0 <= j < |w.chans| && InChannel(w.chans[j], i, k);
      assert ChanInv(w.chans[j]) && ChanUp(w.chans[j], w.flows);
      InChannelMeans(w.chans[j], w.flows, i, k);
    }
  }

  /**
   Once the scheduler is empty and every live channel idle, everything a flow has sent and none
   of it lost is there to be read.
   */
  lemma QuietMeansArrived(ws: seq<World>, ts: seq<Step>, x: nat, i: nat)
    requires Run(ws, ts) && x < |ws| && i < |ws[x].flows|
    requires Contents(ws[x].sched) == []
    requires forall j :: 0 <= j < |ws[x].chans| && !ws[x].chans[j].snd.dead ==> ws[x].chans[j].snd.b.slots == map[]
    requires forall p :: p in ws[x].lost ==> p.flowId != i + 1
    ensures ws[x].flows[i].r.avail == ws[x].flows[i].s.next
  {
    RunKeeps(ws, ts, x);
    var w := ws[x];
    var f := w.flows[i];
    assert FlowOk(f, i + 1);
    if f.r.avail < f.s.next {
      NothingVanishes(ws, ts, x, i, f.r.avail + 1);
    }
  }

  /**
   The handoff loses a packet exactly when the channel has died since it was chosen; a channel
   that is only full is never handed one.
   */
  lemma LostExactlyOnDeath(ws: seq<World>, ts: seq<Step>, x: nat, clock: Clock)
    requires Run(ws, ts) && x < |ws| && CanStep(ws[x], HandOver(clock))
    ensures var w := ws[x]; var h := w.sched.hand;
      Next(w, HandOver(clock)).lost == if w.chans[h.to].snd.dead then w.lost + [h.pkt] else w.lost
  {
    RunKeeps(ws, ts, x);
    hide Apply;
  }

  // ---------------------------------------------------------------------------------------
  // A lost packet
  // ---------------------------------------------------------------------------------------

  ghost predicate Reached(w: World) {
    exists ws: seq<World>, ts: seq<Step> :: Run(ws, ts) && ws[|ts|] == w
  }

  lemma OneMoreStep(w: World, t: Step) returns (v: World)
    requires Reached(w) && CanStep(w, t)
    ensures v == Next(w, t) && Reached(v)
  {
    var ws: seq<World>, ts: seq<Step> :| Run(ws, ts) && ws[|ts|] == w;
    v := Next(w, t);
    hide CanStep, Next;
    var ws', ts' := ws + [v], ts + [t];
    forall x | 0 <= x < |ts'| ensures CanStep(ws'[x], ts'[x]) && ws'[x + 1] == Next(ws'[x], ts'[x]) {
      assert x < |ts| ==> ws'[x + 1] == ws[x + 1];
    }
    assert Run(ws', ts');
  }

  /** One packet of the only flow in the hand of the scheduling thread, for a channel just chosen. */
  ghost predicate InHand(w: World) {
    && Reached(w) && |w.flows| == 1 && |w.flows[0].s.sent| == 1 && !Taken(w.flows[0], 0)
    && w.chans == [InitChan()] && w.lost == []
    && w.sched.hand.Carrying? && w.sched.hand.to == 0 && Is(w.sched.hand.pkt, 0, 0)
    && Contents(w.sched) == [w.sched.hand.pkt] && w.sched.posts == 0
  }

  lemma SpaceAtFirst()
    ensures Space(InitChan().snd)
  {
    assert Round(1.0) == 1;
  }

  /** One flow and one channel are open, and the flow has sent its first packet. */
  ghost predicate OneSent(w: World) {
    && Reached(w) && |w.flows| == 1 && |w.flows[0].s.sent| == 1 && !Taken(w.flows[0], 0)
    && w.chans == [InitChan()] && w.lost == []
    && w.sched.hand == Waiting && w.sched.posts == 1 && w.sched.sem == 0
    && |w.sched.outgoing| == 1 && Is(w.sched.outgoing[0], 0, 0) && Contents(w.sched) == w.sched.outgoing
  }

  lemma FirstSent() returns (w: World)
    ensures OneSent(w)
  {
    hide Reached, Run, InitChan, Space;
    w := InitWorld();
    StartReached();
    w := OneMoreStep(w, OpenFlow);
    w := OneMoreStep(w, OpenChannel);
    w := OneMoreStep(w, AppSend(0, [1], false));
  }

  lemma StartReached()
    ensures Reached(InitWorld())
  {
    assert Run([InitWorld()], []);
  }

  lemma FirstHalf() returns (w: World)
    ensures InHand(w)
  {
    hide Reached, Run, InitChan, Space, Taken;
    w := FirstSent();
    w := OneMoreStep(w, PostOne);
    w := OneMoreStep(w, WaitToken);
    SpaceAtFirst();
    w := OneMoreStep(w, ChooseChannel(0));
    w := OneMoreStep(w, TakePacket);
  }

  /**
   One flow, one channel, one packet: the channel is chosen, dies, and is then handed the
   packet. Nothing is queued or buffered any more, and the receiving end never gets it.
   */
  lemma LostPacketRun() returns (w: World)
    ensures Reached(w) && |w.flows| == 1 && |w.flows[0].s.sent| == 1
    ensures Contents(w.sched) == [] && w.sched.posts == 0 && |w.lost| == 1 && Is(w.lost[0], 0, 0)
    ensures |w.chans| == 1 && w.chans[0].snd.dead && !Taken(w.flows[0], 0)
  {
    w := FirstHalf();
    w := OneMoreStep(w, ChannelDies(0, []));
    assert Undelivered(InitChan().snd.b) == [];
    w := OneMoreStep(w, HandOver(_ => 1));
  }
}
