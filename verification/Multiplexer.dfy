/** Many flows behind one multiplexer: the counter that decides when read reports go out. */
module Multiplexers {
  import opened SeqNum
  import opened Packets
  import opened FlowModel
  import opened FlowHandlers

  const STATUS_AFTER := 400

  // ---------------------------------------------------------------------------------------
  // The step system
  // ---------------------------------------------------------------------------------------

  /** Every flow with both its ends; `count` is outPacketCount, `last` the newest report made for each flow. */
  datatype Mux = Mux(flows: seq<Flow>, last: seq<int>, count: int)

  datatype MuxEvent =
    | Open
    | Send(i: nat, flowId: int, data: seq<int>, fin: bool)
    | Arrive(i: nat, p: Packet)
    | Read(i: nat)
    | FailedRead
    | AckStatus
    | Report(i: nat, x: int)

  ghost predicate MuxEnabled(m: Mux, e: MuxEvent) {
    match e
    case Open => true
    case Send(i, _, _, _) => i < |m.flows| && m.flows[i].s.credits > 0 && !Finished(m.flows[i].s)
    case Arrive(i, p) => i < |m.flows| && Genuine(p, m.flows[i].s.sent)
    case Read(i) => i < |m.flows| && CanRead(m.flows[i].r)
    case FailedRead => true
    case AckStatus => true
    // A report that arrives late is fewer than 65036 behind the newest one.
    case Report(i, x) => i < |m.flows| && x in m.flows[i].reports && m.flows[i].s.acked - x < CNT - WINDOW
  }

  /** getReceiverStatus(): readUpto of every flow is reported. */
  function Status(m: Mux): Mux {
    m.(flows := seq(|m.flows|, i requires 0 <= i < |m.flows| =>
                      m.flows[i].(reports := m.flows[i].reports + {m.flows[i].r.read})),
       last := seq(|m.flows|, i requires 0 <= i < |m.flows| => m.flows[i].r.read))
  }

  /** The end of readData: every read counts, and the 401st sends a status and starts again. */
  function Counted(m: Mux): Mux {
    if m.count + 1 > STATUS_AFTER then Status(m).(count := 0) else m.(count := m.count + 1)
  }

  /** readData on flow `i`; a missing packet would trip the assertion of the source. */
  function ReadFlow(f: Flow): Flow {
    if f.r.read + 1 in f.r.held then f.(r := ReadNext(f.r)) else f
  }

  ghost function MuxApply(m: Mux, e: MuxEvent): Mux
    requires MuxEnabled(m, e)
  {
    match e
    case Open => m.(flows := m.flows + [InitFlow()], last := m.last + [-1])
    case Send(i, flowId, data, fin) =>
      m.(flows := m.flows[i := m.flows[i].(s := SendPacket(m.flows[i].s, flowId, data, fin))])
    case Arrive(i, p) => m.(flows := m.flows[i := m.flows[i].(r := TakePacket(m.flows[i].r, p.flowSeq, p))])
    case Read(i) => Counted(m.(flows := m.flows[i := ReadFlow(m.flows[i])]))
    case FailedRead => Counted(m)
    case AckStatus => Status(m)
    case Report(i, x) => m.(flows := m.flows[i := m.flows[i].(s := TakeReport(m.flows[i].s, x))])
  }

  // ---------------------------------------------------------------------------------------
  // Unreported reads
  // ---------------------------------------------------------------------------------------

  /** Packets read since the newest report, over the first `n` flows. */
  function Unreported(fs: seq<Flow>, last: seq<int>, n: nat): int
    requires n <= |fs| && n <= |last|
  {
    if n == 0 then 0 else Unreported(fs, last, n - 1) + (fs[n - 1].r.read - last[n - 1])
  }

  /** `last` is the newest report of the flow that was ever made, and the sender knows of no newer one. */
  ghost predicate Reported(f: Flow, last: int) {
    && (last == -1 || last in f.reports) && -1 <= last <= f.r.read
    && (forall x :: x in f.reports ==> x <= last) && f.s.acked <= last
  }

  ghost predicate MuxInv(m: Mux) {
    && |m.last| == |m.flows| && m.count >= 0
    && (forall i :: 0 <= i < |m.flows| ==> FlowInv(m.flows[i]) && Reported(m.flows[i], m.last[i]))
    && Unreported(m.flows, m.last, |m.flows|) <= m.count <= STATUS_AFTER
  }

  /** Changing one flow changes the sum by what changed in it. */
  lemma {:induction false} UnreportedUpdate(fs: seq<Flow>, last: seq<int>, i: nat, f: Flow, n: nat)
    requires i < |fs| && n <= |fs| && n <= |last|
    ensures Unreported(fs[i := f], last, n) ==
      Unreported(fs, last, n) + if i < n then f.r.read - fs[i].r.read else 0
  {
    if n > 0 {
      UnreportedUpdate(fs, last, i, f, n - 1);
    }
  }

  lemma {:induction false} UnreportedSame(fs: seq<Flow>, last: seq<int>, gs: seq<Flow>, klast: seq<int>, n: nat)
    requires n <= |fs| && n <= |last| && n <= |gs| && n <= |klast|
    requires forall i :: 0 <= i < n ==> fs[i].r.read - last[i] == gs[i].r.read - klast[i]
    ensures Unreported(fs, last, n) == Unreported(gs, klast, n)
  {
    if n > 0 {
      UnreportedSame(fs, last, gs, klast, n - 1);
    }
  }

  lemma {:induction false} UnreportedZero(fs: seq<Flow>, last: seq<int>, n: nat)
    requires n <= |fs| && n <= |last|
    requires forall i :: 0 <= i < n ==> fs[i].r.read == last[i]
    ensures Unreported(fs, last, n) == 0
  {
    if n > 0 {
      UnreportedZero(fs, last, n - 1);
    }
  }

  /** No flow hides more unreported reads than all together. */
  lemma {:induction false} UnreportedPart(fs: seq<Flow>, last: seq<int>, i: nat, n: nat)
    requires i < n <= |fs| && n <= |last|
    requires forall j :: 0 <= j < n ==> last[j] <= fs[j].r.read
    ensures fs[i].r.read - last[i] <= Unreported(fs, last, n)
  {
    if i < n - 1 {
      UnreportedPart(fs, last, i, n - 1);
    } else {
      UnreportedNonNegative(fs, last, n - 1);
    }
  }

  lemma {:induction false} UnreportedNonNegative(fs: seq<Flow>, last: seq<int>, n: nat)
    requires n <= |fs| && n <= |last|
    requires forall j :: 0 <= j < n ==> last[j] <= fs[j].r.read
    ensures Unreported(fs, last, n) >= 0
  {
    if n > 0 {
      UnreportedNonNegative(fs, last, n - 1);
    }
  }

  lemma NewestReport(f: Flow)
    requires FlowInv(f)
    ensures Reported(f.(reports := f.reports + {f.r.read}), f.r.read)
  {
  }

  lemma StatusKeeps(m: Mux)
    requires |m.last| == |m.flows| && 0 <= m.count <= STATUS_AFTER
    requires forall i :: 0 <= i < |m.flows| ==> FlowInv(m.flows[i])
    ensures MuxInv(Status(m))
    ensures Unreported(Status(m).flows, Status(m).last, |m.flows|) == 0
  {
    var t := Status(m);
    forall i | 0 <= i < |m.flows| ensures FlowInv(t.flows[i]) && Reported(t.flows[i], t.last[i]) {
      MakeReportKeeps(m.flows[i]);
      NewestReport(m.flows[i]);
    }
    hide FlowInv;
    UnreportedZero(t.flows, t.last, |m.flows|);
  }

  lemma CountedKeeps(m: Mux)
    requires |m.last| == |m.flows| && 0 <= m.count <= STATUS_AFTER
    requires forall i :: 0 <= i < |m.flows| ==> FlowInv(m.flows[i]) && Reported(m.flows[i], m.last[i])
    requires Unreported(m.flows, m.last, |m.flows|) <= m.count + 1
    ensures MuxInv(Counted(m))
  {
    StatusKeeps(m);
    hide FlowInv;
    if m.count + 1 > STATUS_AFTER {
      var t := Status(m).(count := 0);
      assert t.flows == Status(m).flows && t.last == Status(m).last;
    }
  }

  /** One flow changes and nothing more of it has been read. */
  lemma OneFlow(m: Mux, i: nat, f: Flow)
    requires MuxInv(m) && i < |m.flows| && FlowInv(f) && Reported(f, m.last[i]) && f.r.read == m.flows[i].r.read
    ensures MuxInv(m.(flows := m.flows[i := f]))
  {
    hide FlowInv;
    UnreportedUpdate(m.flows, m.last, i, f, |m.flows|);
  }

  lemma OpenKeeps(m: Mux)
    requires MuxInv(m)
    ensures MuxInv(MuxApply(m, Open))
  {
    InitFlowKeeps();
    hide FlowInv;
    var t := MuxApply(m, Open);
    UnreportedSame(m.flows, m.last, t.flows, t.last, |m.flows|);
  }

  lemma ReadStepKeeps(m: Mux, i: nat)
    requires MuxInv(m) && MuxEnabled(m, Read(i))
    ensures m.flows[i].r.read + 1 in m.flows[i].r.held
    ensures MuxInv(MuxApply(m, Read(i)))
  {
    ReadKeeps(m.flows[i]);
    hide FlowInv, Counted;
    var f := m.flows[i].(r := ReadNext(m.flows[i].r));
    UnreportedUpdate(m.flows, m.last, i, f, |m.flows|);
    CountedKeeps(m.(flows := m.flows[i := f]));
  }

  lemma StatusStepKeeps(m: Mux)
    requires MuxInv(m)
    ensures MuxInv(Counted(m)) && MuxInv(Status(m))
  {
    hide FlowInv, Counted, Status;
    CountedKeeps(m);
    StatusKeeps(m);
  }

  lemma SendReported(f: Flow, flowId: int, data: seq<int>, fin: bool, last: int)
    requires Reported(f, last)
    ensures Reported(f.(s := SendPacket(f.s, flowId, data, fin)), last)
  {
  }

  lemma TakeReported(f: Flow, x: int, last: int)
    requires Reported(f, last) && x in f.reports
    ensures Reported(f.(s := TakeReport(f.s, x)), last)
  {
  }

  /** Every step keeps all flows in order and the unreported reads of all of them within the count. */
  lemma MuxStepKeeps(m: Mux, e: MuxEvent)
    requires MuxInv(m) && MuxEnabled(m, e)
    ensures MuxInv(MuxApply(m, e))
  {
    hide MuxInv, FlowInv, Counted, Status, SendPacket, TakePacket, TakeReport;
    match e
    case Open => OpenKeeps(m);
    case Send(i, flowId, data, fin) =>
      EachFlow(m, i);
      SendKeeps(m.flows[i], flowId, data, fin);
      SendReported(m.flows[i], flowId, data, fin, m.last[i]);
      OneFlow(m, i, m.flows[i].(s := SendPacket(m.flows[i].s, flowId, data, fin)));
    case Arrive(i, p) =>
      EachFlow(m, i);
      TakeKeeps(m.flows[i], p);
      TakeReads(m.flows[i].r, p);
      OneFlow(m, i, m.flows[i].(r := TakePacket(m.flows[i].r, p.flowSeq, p)));
    case Read(i) => ReadStepKeeps(m, i);
    case FailedRead => StatusStepKeeps(m);
    case AckStatus => StatusStepKeeps(m);
    case Report(i, x) =>
      EachFlow(m, i);
      ReportKeeps(m.flows[i], x);
      TakeReported(m.flows[i], x, m.last[i]);
      OneFlow(m, i, m.flows[i].(s := TakeReport(m.flows[i].s, x)));
  }

  lemma EachFlow(m: Mux, i: nat)
    requires MuxInv(m) && i < |m.flows|
    ensures |m.last| == |m.flows| && FlowInv(m.flows[i]) && Reported(m.flows[i], m.last[i])
  {
  }

  /** Only readData moves readUpto. */
  lemma TakeReads(r: FlowRcv, p: Packet)
    ensures TakePacket(r, p.flowSeq, p).read == r.read
  {
  }

  ghost predicate MuxRun(ms: seq<Mux>, es: seq<MuxEvent>) {
    && |ms| == |es| + 1 && ms[0] == Mux([], [], 0)
    && (forall i :: 0 <= i < |es| ==> MuxEnabled(ms[i], es[i]) && ms[i + 1] == MuxApply(ms[i], es[i]))
  }

  lemma {:induction false} MuxRunKeeps(ms: seq<Mux>, es: seq<MuxEvent>, k: nat)
    requires MuxRun(ms, es) && k < |ms|
    ensures MuxInv(ms[k])
  {
    if k > 0 {
      MuxRunKeeps(ms, es, k - 1);
      hide MuxInv, MuxApply;
      MuxStepKeeps(ms[k - 1], es[k - 1]);
    }
  }

  /**
   No credit deadlock, in any run over any number of flows: unreported reads never exceed 400 in
   all, so a sender whose packets have all been read holds at least 100 credits, or the newest
   report, which it has still to get, brings it there.
   */
  lemma CreditsReturn(ms: seq<Mux>, es: seq<MuxEvent>, k: nat, i: nat)
    requires MuxRun(ms, es) && k < |ms| && i < |ms[k].flows| && ms[k].flows[i].r.read == ms[k].flows[i].s.next
    ensures var m := ms[k];
      && |m.last| == |m.flows| && Unreported(m.flows, m.last, |m.flows|) <= 400
      && (|| m.flows[i].s.credits >= 100
          || (&& MuxEnabled(m, Report(i, m.last[i]))
              && MuxApply(m, Report(i, m.last[i])).flows[i].s.credits >= WINDOW - STATUS_AFTER == 100))
  {
    MuxRunKeeps(ms, es, k);
    var m := ms[k];
    UnreportedPart(m.flows, m.last, i, |m.flows|);
    ReportEffect(m.flows[i].s, m.last[i]);
  }

  /** The report in a run: when it is the newest of its flow and the flow is read up, 100 credits are there after it. */
  lemma ReportArrives(ms: seq<Mux>, es: seq<MuxEvent>, k: nat, i: nat, x: int)
    requires MuxRun(ms, es) && k < |es| && es[k] == Report(i, x)
    ensures i < |ms[k].flows| == |ms[k + 1].flows| == |ms[k].last| && x <= ms[k].last[i]
    ensures var s, t := ms[k].flows[i].s, ms[k + 1].flows[i].s;
      && t.credits == s.credits + (if x > s.acked then x - s.acked else 0)
      && (x == ms[k].last[i] && ms[k].flows[i].r.read == s.next ==> t.credits >= 100)
  {
    MuxRunKeeps(ms, es, k);
    var m := ms[k];
    UnreportedPart(m.flows, m.last, i, |m.flows|);
    ReportEffect(m.flows[i].s, x);
  }

  /** In any run readData returns, flow by flow, a prefix of what was sent, and the end only after all of it. */
  lemma EveryFlowInOrder(ms: seq<Mux>, es: seq<MuxEvent>, k: nat, i: nat)
    requires MuxRun(ms, es) && k < |ms| && i < |ms[k].flows|
    ensures var f := ms[k].flows[i];
      && f.r.got <= DataOf(f.s.sent, |f.s.sent|)
      && (f.r.ended ==> Finished(f.s) && f.r.got == DataOf(f.s.sent, |f.s.sent|))
      && f.s.credits + (f.s.next - f.s.acked) == WINDOW
      && (CanRead(f.r) ==> f.r.read + 1 in f.r.held)
  {
    MuxRunKeeps(ms, es, k);
    ReadsPrefix(ms[k].flows[i]);
  }

  // ---------------------------------------------------------------------------------------
  // The object
  // ---------------------------------------------------------------------------------------

  /** One entry of a read report. */
  datatype ReadInfo = ReadInfo(flowId: int, readUpto: u16)

  class Multiplexer {
    var children: seq<NewFlowHandler>
    var outPacketCount: nat

    ghost predicate Valid()
      reads this, children, set c | c in children && c.rcvPktQueue != null :: c.rcvPktQueue
    {
      && outPacketCount <= STATUS_AFTER
      && (forall i :: 0 <= i < |children| ==> children[i].Valid())
      && (forall i, j :: 0 <= i < j < |children| ==> Apart(children[i], children[j]))
    }

    /** Two flows share neither fields nor array. */
    ghost predicate Apart(c: NewFlowHandler, d: NewFlowHandler)
      reads c`rcvPktQueue, d`rcvPktQueue
    {
      c != d && (c.rcvPktQueue == null || c.rcvPktQueue != d.rcvPktQueue)
    }

    constructor ()
      ensures Valid() && children == [] && outPacketCount == 0
    {
      children, outPacketCount := [], 0;
    }

    /** getReceiverStatus(): each entry is put in front of the list, so the last flow comes first. */
    method GetReceiverStatus() returns (infos: seq<ReadInfo>)
      requires Valid()
      ensures |infos| == |children|
      ensures forall i :: 0 <= i < |children| ==>
                infos[|children| - 1 - i] == ReadInfo(children[i].flowId, Wire(children[i].r.read))
    {
      infos := [];
      for i := 0 to |children|
        invariant |infos| == i
        invariant forall j :: 0 <= j < i ==> infos[i - 1 - j] == ReadInfo(children[j].flowId, Wire(children[j].r.read))
      {
        var readUpto := children[i].GetReadUpto();
        infos := [ReadInfo(children[i].flowId, readUpto)] + infos;
      }
    }

    /**
     readData(flowId, data, size), once readSem has been waited for: the read is counted, and
     past 400 of them a control packet with a report for every flow goes out.
     */
    method ReadData(i: nat, size: nat) returns (res: ReadResult, status: Option<seq<ReadInfo>>)
      requires Valid() && i < |children| && (size >= CHUNK ==> CanRead(children[i].r))
      modifies this`outPacketCount, children[i], children[i].rcvPktQueue
      ensures Valid() && children == old(children)
      ensures size >= CHUNK ==>
                && old(children[i].r).read + 1 in old(children[i].r).held
                && children[i].r == ReadNext(old(children[i].r))
                && var p := old(children[i].r).held[old(children[i].r).read + 1];
                   res == if p.fin then End else if p.data == [] then NoData else Data(p.data)
      ensures size < CHUNK ==> res == InvalidSize && children[i].r == old(children[i].r)
      ensures forall j :: 0 <= j < |children| && j != i ==> children[j].r == old(children[j].r)
      ensures forall j :: 0 <= j < |children| ==> children[j].s == old(children[j].s)
      ensures outPacketCount == if old(outPacketCount) + 1 > STATUS_AFTER then 0 else old(outPacketCount) + 1
      ensures status.Some? <==> outPacketCount == 0
      ensures status.Some? ==>
                && |status.value| == |children|
                && forall j :: 0 <= j < |children| ==>
                     status.value[|children| - 1 - j] == ReadInfo(children[j].flowId, Wire(children[j].r.read))
    {
      hide Wire, ReadNext, CanRead;
      res := children[i].ReadData(size);
      OthersUnmoved(i);
      hide Apart;
      status := CountRead();
    }

    /** The end of readData. */
    method CountRead() returns (status: Option<seq<ReadInfo>>)
      requires Valid()
      modifies this`outPacketCount
      ensures Valid()
      ensures outPacketCount == if old(outPacketCount) + 1 > STATUS_AFTER then 0 else old(outPacketCount) + 1
      ensures status.Some? <==> outPacketCount == 0
      ensures status.Some? ==>
                && |status.value| == |children|
                && forall j :: 0 <= j < |children| ==>
                     status.value[|children| - 1 - j] == ReadInfo(children[j].flowId, Wire(children[j].r.read))
    {
      hide Wire, Apart;
      outPacketCount := outPacketCount + 1;
      status := None;
      if outPacketCount > STATUS_AFTER {
        outPacketCount := 0;
        var infos := GetReceiverStatus();
        status := Some(infos);
      }
    }

    twostate lemma OthersUnmoved(i: nat)
      requires old(Valid()) && i < |children| && children == old(children)
      requires children[i].Valid() && children[i].rcvPktQueue == old(children[i].rcvPktQueue)
      requires forall j :: 0 <= j < |children| && j != i ==> unchanged(children[j])
      requires forall j :: 0 <= j < |children| && j != i && old(children[j].rcvPktQueue) != null ==>
        unchanged(old(children[j].rcvPktQueue))
      ensures forall j :: 0 <= j < |children| ==> children[j].Valid()
      ensures forall j, k :: 0 <= j < k < |children| ==> Apart(children[j], children[k])
    {
      forall j | 0 <= j < |children| && j != i ensures children[j].Valid() {
        assert old(children[j].Valid());
      }
      forall j, k | 0 <= j < k < |children| ensures Apart(children[j], children[k]) {
        assert old(Apart(children[j], children[k]));
      }
    }
  }
}
