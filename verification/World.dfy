/**
 The whole path of the data: flows cut into packets, one scheduler, any number of channels, and
 the flows' receiving ends. Everything that runs concurrently in the program is a step here, and
 any order of steps is a run.
 */
module World {
  import opened SeqNum
  import opened Packets
  import opened SenderModel
  import opened ReceiverModel
  import opened ChannelSystem
  import opened ChannelEnds
  import opened SchedulerModel
  import opened SenderLaws
  import F = FlowModel

  /** `lost` lists packets a channel refused at the handoff; the source drops them. */
  datatype World = World(flows: seq<F.Flow>, sched: Sched, chans: seq<Chan>, lost: seq<Packet>)

  datatype Step =
    | OpenFlow
    | OpenChannel
    | AppSend(i: nat, data: seq<int>, fin: bool)
    | AppRead(i: nat)
    | MakeReport(i: nat)
    | TakeReport(i: nat, x: int)
    | SendControl(pkt: Packet)
    | PostOne
    | WaitToken
    | NoSpace
    | ChooseChannel(j: nat)
    | TakePacket
    | HandOver(clock: Clock)
    | Network(j: nat, e: Event)
    | ChannelDies(j: nat, order: seq<int>)

  function InitWorld(): World {
    World([], InitSched(), [], [])
  }

  /** spaceInCwnd() of a channel that is open */
  predicate Space(s: Snd) {
    !s.dead && s.b.hi - s.b.lo < Round(s.c.cwnd)
  }

  /** Flow number `i` of the model has flow id `i + 1`; 0 marks control packets. */
  predicate OfFlow(p: Packet, flows: seq<F.Flow>) {
    1 <= p.flowId <= |flows|
  }

  // ---------------------------------------------------------------------------------------
  // Steps
  // ---------------------------------------------------------------------------------------

  /** What an accepted packet does to the flows: recvPacketFrom of the one it names. */
  function Up(flows: seq<F.Flow>, p: Packet): seq<F.Flow> {
    if OfFlow(p, flows) then
      var f := flows[p.flowId - 1];
      flows[p.flowId - 1 := f.(r := F.TakePacket(f.r, p.flowSeq, p))]
    else flows
  }

  predicate Accepts(c: Chan, e: Event) {
    e.DeliverData? && 0 <= e.n < |c.given| && AcceptedBy(c.rcv, e.n, c.given[e.n].chs)
  }

  /** A packet that comes up is at most 16383 behind what its flow has read. */
  predicate Recent(flows: seq<F.Flow>, p: Packet) {
    OfFlow(p, flows) ==> flows[p.flowId - 1].r.read + 1 - p.flowSeq <= 16383
  }

  ghost predicate CanStep(w: World, t: Step) {
    match t
    case OpenFlow => true
    case OpenChannel => true
    case AppSend(i, data, fin) =>
      && i < |w.flows| && w.flows[i].s.credits > 0 && !F.Finished(w.flows[i].s)
      && CanPut(w.sched, F.NextPacket(w.flows[i].s, i + 1, data, fin))
    case AppRead(i) => i < |w.flows| && F.CanRead(w.flows[i].r)
    case MakeReport(i) => i < |w.flows|
    case TakeReport(i, x) => i < |w.flows| && x in w.flows[i].reports && w.flows[i].s.acked - x < CNT - F.WINDOW
    case SendControl(pkt) => IsControl(pkt)
    case PostOne => true
    case WaitToken => CanWait(w.sched)
    case NoSpace => w.sched.hand.Token?
    case ChooseChannel(j) => w.sched.hand.Token? && j < |w.chans| && Space(w.chans[j].snd)
    case TakePacket => w.sched.hand.Chosen?
    case HandOver(clock) => w.sched.hand.Carrying? && w.sched.hand.to < |w.chans| && Ticking(clock)
    case Network(j, e) =>
      && j < |w.chans| && Internal(e) && Enabled(w.chans[j], e)
      && (Accepts(w.chans[j], e) ==> Recent(w.flows, w.chans[j].given[e.n]))
    case ChannelDies(j, order) => j < |w.chans| && Enabled(w.chans[j], Die(order))
  }

  /** sendPacket of the channel the packet is for; its answer is not looked at. */
  function Deposit(w: World, pkt: Packet, j: nat, clock: Clock): World
    requires j < |w.chans|
  {
    var c := w.chans[j];
    if SubmitCodeOf(c.snd) == Accepted then w.(chans := w.chans[j := Apply(c, SubmitPacket(pkt, clock))])
    else w.(lost := w.lost + [pkt])
  }

  function ReadFlow(f: F.Flow): F.Flow {
    if f.r.read + 1 in f.r.held then f.(r := F.ReadNext(f.r)) else f
  }

  ghost function Next(w: World, t: Step): World
    requires CanStep(w, t)
  {
    match t
    case OpenFlow => w.(flows := w.flows + [F.InitFlow()])
    case OpenChannel => w.(chans := w.chans + [InitChan()])
    case AppSend(i, data, fin) =>
      var s := w.flows[i].s;
      w.(flows := w.flows[i := w.flows[i].(s := F.SendPacket(s, i + 1, data, fin))],
         sched := Put(w.sched, F.NextPacket(s, i + 1, data, fin)))
    case AppRead(i) => w.(flows := w.flows[i := ReadFlow(w.flows[i])])
    case MakeReport(i) =>
      w.(flows := w.flows[i := w.flows[i].(reports := w.flows[i].reports + {w.flows[i].r.read})])
    case TakeReport(i, x) => w.(flows := w.flows[i := w.flows[i].(s := F.TakeReport(w.flows[i].s, x))])
    case SendControl(pkt) => w.(sched := Put(w.sched, pkt))
    case PostOne => w.(sched := Post(w.sched))
    case WaitToken => w.(sched := Wait(w.sched))
    case NoSpace => w.(sched := GiveBack(w.sched))
    case ChooseChannel(j) => w.(sched := Choose(w.sched, j))
    case TakePacket => if CanTake(w.sched) then w.(sched := Take(w.sched)) else w
    case HandOver(clock) =>
      Deposit(w, w.sched.hand.pkt, w.sched.hand.to, clock).(sched := Release(w.sched))
    case Network(j, e) =>
      var c := w.chans[j];
      w.(chans := w.chans[j := Apply(c, e)],
         flows := if Accepts(c, e) then Up(w.flows, c.given[e.n]) else w.flows)
    case ChannelDies(j, order) =>
      w.(chans := w.chans[j := Apply(w.chans[j], Die(order))],
         sched := Migrate(w.sched, Undelivered(w.chans[j].snd.b)))
  }

  // ---------------------------------------------------------------------------------------
  // The invariant
  // ---------------------------------------------------------------------------------------

  ghost predicate FlowsOk(flows: seq<F.Flow>) {
    forall i :: 0 <= i < |flows| ==> FlowOk(flows[i], i + 1)
  }

  ghost predicate FlowOk(f: F.Flow, flowId: int) {
    && F.FlowInv(f)
    && (forall k :: 0 <= k < |f.s.sent| ==> f.s.sent[k].flowId == flowId && !f.s.sent[k].csn)
  }

  ghost predicate ChansOk(chans: seq<Chan>) {
    forall j :: 0 <= j < |chans| ==> ChanInv(chans[j])
  }

  /** A control packet, or one that its flow has sent. */
  ghost predicate Authentic(p: Packet, flows: seq<F.Flow>) {
    p.flowId == 0 || (OfFlow(p, flows) && F.Genuine(p, flows[p.flowId - 1].s.sent) && !p.csn)
  }

  ghost predicate AllAuthentic(ps: seq<Packet>, flows: seq<F.Flow>) {
    forall p :: p in ps ==> Authentic(p, flows)
  }

  ghost predicate ChansAuthentic(chans: seq<Chan>, flows: seq<F.Flow>) {
    forall j :: 0 <= j < |chans| ==> AllAuthentic(chans[j].given, flows)
  }

  /** The flow has taken packet `k`: it has been read or waits to be. */
  predicate Taken(f: F.Flow, k: int) {
    k <= f.r.read || k in f.r.held
  }

  ghost predicate PacketTaken(p: Packet, flows: seq<F.Flow>) {
    OfFlow(p, flows) ==> Taken(flows[p.flowId - 1], p.flowSeq)
  }

  ghost predicate ChanUp(c: Chan, flows: seq<F.Flow>) {
    forall n :: Received(c.rcv, n) && 0 <= n < |c.given| ==> PacketTaken(c.given[n], flows)
  }

  /** What any channel's receiver has accepted its flow has taken. */
  ghost predicate AllUp(chans: seq<Chan>, flows: seq<F.Flow>) {
    forall j :: 0 <= j < |chans| ==> ChanUp(chans[j], flows)
  }

  predicate Is(p: Packet, i: int, k: int) {
    p.flowId == i + 1 && p.flowSeq == k
  }

  ghost predicate Among(ps: seq<Packet>, i: int, k: int) {
    exists p :: p in ps && Is(p, i, k)
  }

  /** A channel was given the packet, and is alive or has got it across. */
  ghost predicate InChannel(c: Chan, i: int, k: int) {
    exists n :: 0 <= n < |c.given| && Is(c.given[n], i, k) && (!c.snd.dead || Received(c.rcv, n))
  }

  ghost predicate Somewhere(w: World, i: int, k: int) {
    || Among(Contents(w.sched), i, k)
    || Among(w.lost, i, k)
    || exists j :: 0 <= j < |w.chans| && InChannel(w.chans[j], i, k)
  }

  ghost predicate Covered(w: World) {
    forall i, k :: 0 <= i < |w.flows| && 0 <= k < |w.flows[i].s.sent| ==> Somewhere(w, i, k)
  }

  /** A channel is chosen while it has space, and only the scheduling thread fills it. */
  ghost predicate HandOk(h: Hand, chans: seq<Chan>) {
    match h
    case Chosen(j) => j < |chans| && Roomy(chans[j].snd)
    case Carrying(_, j) => j < |chans| && Roomy(chans[j].snd)
    case _ => true
  }

  predicate Roomy(s: Snd) {
    s.dead || s.b.hi - s.b.lo < HALF
  }

  ghost predicate WorldInv(w: World) {
    && FlowsOk(w.flows) && ChansOk(w.chans) && SchedInv(w.sched) && HandOk(w.sched.hand, w.chans)
    && AllAuthentic(Contents(w.sched), w.flows) && ChansAuthentic(w.chans, w.flows)
    && AllUp(w.chans, w.flows) && Covered(w)
  }
}
