/** What the applications gave the flows, read off the steps of a run alone. */
module WorldData {
  import opened Packets
  import opened World
  import F = FlowModel

  /** The pieces of data that the application wrote to flow `i`, in order. */
  function Written(ts: seq<Step>, i: nat): seq<seq<int>> {
    if ts == [] then []
    else
      var before, t := Written(ts[..|ts| - 1], i), ts[|ts| - 1];
      if t.AppSend? && t.i == i && !t.fin then before + [t.data] else before
  }

  /** The application has closed flow `i`. */
  ghost predicate Closed(ts: seq<Step>, i: nat) {
    exists x :: 0 <= x < |ts| && ts[x].AppSend? && ts[x].i == i && ts[x].fin
  }

  /** A step sends nothing but what the application gives in it, and sends that last. */
  lemma SentStep(w: World, t: Step, i: nat)
    requires CanStep(w, t) && i < |Next(w, t).flows|
    ensures var v := Next(w, t);
      if i >= |w.flows| then v.flows[i].s.sent == [] && t == OpenFlow
      else if t.AppSend? && t.i == i then
        exists p :: v.flows[i].s.sent == w.flows[i].s.sent + [p]
                    && p.data == t.data && p.fin == t.fin && p.flowId == i + 1
      else v.flows[i].s.sent == w.flows[i].s.sent
  {
    hide F.TakePacket, F.ReadNext;
    if t.AppSend? && t.i == i {
      var p := F.NextPacket(w.flows[i].s, i + 1, t.data, t.fin);
      assert Next(w, t).flows[i].s.sent == w.flows[i].s.sent + [p];
    }
  }

  /** No step takes a flow away. */
  lemma FlowsStay(w: World, t: Step)
    requires CanStep(w, t)
    ensures |w.flows| <= |Next(w, t).flows| && (t.AppSend? ==> t.i < |w.flows|)
  {
  }

  /** The packets of a flow carry exactly what was written, and the end marker is there exactly if it was closed. */
  ghost predicate SentAsWritten(w: World, ts: seq<Step>, i: nat) {
    if i < |w.flows| then
      var sent := w.flows[i].s.sent;
      F.DataOf(sent, |sent|) == Written(ts, i) && (F.Finished(w.flows[i].s) <==> Closed(ts, i))
    else Written(ts, i) == [] && !Closed(ts, i)
  }

  lemma SentAsWrittenKept(w: World, ts: seq<Step>, t: Step, i: nat)
    requires SentAsWritten(w, ts, i) && CanStep(w, t)
    ensures SentAsWritten(Next(w, t), ts + [t], i)
  {
    hide CanStep, Next, Written, Closed, F.DataOf, F.Finished;
    FlowsStay(w, t);
    OneMore(ts, t, i);
    var v := Next(w, t);
    if i < |v.flows| {
      SentStep(w, t, i);
      if i < |w.flows| && t.AppSend? && t.i == i {
        NotFinished(w, t);
        var p :| v.flows[i].s.sent == w.flows[i].s.sent + [p] && p.data == t.data && p.fin == t.fin;
        SentMore(w.flows[i].s, v.flows[i].s, p);
      } else if i < |w.flows| {
        SentSame(w.flows[i].s, v.flows[i].s);
      } else {
        SentNone(v.flows[i].s);
      }
    }
  }

  lemma SentMore(s: F.FlowSnd, t: F.FlowSnd, p: Packet)
    requires t.sent == s.sent + [p]
    ensures F.DataOf(t.sent, |t.sent|) == F.DataOf(s.sent, |s.sent|) + if p.fin then [] else [p.data]
    ensures F.Finished(t) <==> p.fin
  {
    F.DataOfGrows(s.sent, p, |s.sent|);
  }

  lemma SentSame(s: F.FlowSnd, t: F.FlowSnd)
    requires t.sent == s.sent
    ensures F.DataOf(t.sent, |t.sent|) == F.DataOf(s.sent, |s.sent|) && (F.Finished(t) <==> F.Finished(s))
  {
  }

  lemma SentNone(s: F.FlowSnd)
    requires s.sent == []
    ensures F.DataOf(s.sent, |s.sent|) == [] && !F.Finished(s)
  {
  }

  lemma NotFinished(w: World, t: Step)
    requires CanStep(w, t) && t.AppSend?
    ensures !F.Finished(w.flows[t.i].s)
  {
  }

  lemma OneMore(ts: seq<Step>, t: Step, i: nat)
    ensures Written(ts + [t], i) == Written(ts, i) + if t.AppSend? && t.i == i && !t.fin then [t.data] else []
    ensures Closed(ts + [t], i) <==> Closed(ts, i) || (t.AppSend? && t.i == i && t.fin)
  {
    assert (ts + [t])[..|ts + [t]| - 1] == ts;
    var all := ts + [t];
    assert all[|ts|] == t;
    assert forall x :: 0 <= x < |ts| ==> all[x] == ts[x];
  }

  // ---------------------------------------------------------------------------------------
  // Reads
  // ---------------------------------------------------------------------------------------

  /** How many times the application has read from flow `i`. */
  function Reads(ts: seq<Step>, i: nat): nat {
    if ts == [] then 0 else Reads(ts[..|ts| - 1], i) + if ts[|ts| - 1] == AppRead(i) then 1 else 0
  }

  /** What the reads of a flow have returned: pieces of data, and the end. */
  function Returned(r: F.FlowRcv): nat {
    |r.got| + if r.ended then 1 else 0
  }

  ghost predicate ReadsReturned(w: World, ts: seq<Step>, i: nat) {
    Reads(ts, i) == if i < |w.flows| then Returned(w.flows[i].r) else 0
  }

  lemma NotEnded(f: F.Flow)
    requires F.FlowInv(f) && F.CanRead(f.r)
    ensures !f.r.ended && Returned(F.ReadNext(f.r)) == Returned(f.r) + 1
  {
    F.ReadEffect(f);
  }

  /** Each read returns one more piece or the end of the flow, and nothing else does. */
  lemma ReadStepReturns(w: World, t: Step, i: nat)
    requires WorldInv(w) && CanStep(w, t) && i < |w.flows|
    ensures i < |Next(w, t).flows|
    ensures Returned(Next(w, t).flows[i].r) == Returned(w.flows[i].r) + if t == AppRead(i) then 1 else 0
  {
    FlowsStay(w, t);
    if t == AppRead(i) {
      InOrder(w, i);
      hide WorldInv, F.FlowInv, F.ReadNext, Returned;
      F.ReadKeeps(w.flows[i]);
      NotEnded(w.flows[i]);
    } else {
      OtherSteps(w, t, i);
    }
  }

  lemma InOrder(w: World, i: nat)
    requires WorldInv(w) && i < |w.flows|
    ensures F.FlowInv(w.flows[i])
  {
    assert FlowOk(w.flows[i], i + 1);
  }

  lemma OtherSteps(w: World, t: Step, i: nat)
    requires CanStep(w, t) && i < |w.flows| && i < |Next(w, t).flows| && t != AppRead(i)
    ensures Returned(Next(w, t).flows[i].r) == Returned(w.flows[i].r)
  {
    hide F.ReadNext, F.Contiguous, Returned;
    var r, q := w.flows[i].r, Next(w, t).flows[i].r;
    assert q.got == r.got && q.ended == r.ended;
    SameReturned(r, q);
  }

  lemma SameReturned(r: F.FlowRcv, q: F.FlowRcv)
    requires q.got == r.got && q.ended == r.ended
    ensures Returned(q) == Returned(r)
  {
  }

  lemma ReadsReturnedKept(w: World, ts: seq<Step>, t: Step, i: nat)
    requires WorldInv(w) && ReadsReturned(w, ts, i) && CanStep(w, t)
    ensures ReadsReturned(Next(w, t), ts + [t], i)
  {
    FlowsStay(w, t);
    OneMoreRead(ts, t, i);
    if t == AppRead(i) {
      ReadsHere(w, t, i);
    }
    if i < |w.flows| {
      ReadStepReturns(w, t, i);
    } else if i < |Next(w, t).flows| {
      SentStep(w, t, i);
    }
  }

  lemma OneMoreRead(ts: seq<Step>, t: Step, i: nat)
    ensures Reads(ts + [t], i) == Reads(ts, i) + if t == AppRead(i) then 1 else 0
  {
    assert (ts + [t])[..|ts + [t]| - 1] == ts;
  }

  lemma ReadsHere(w: World, t: Step, i: nat)
    requires CanStep(w, t) && t == AppRead(i)
    ensures i < |w.flows|
  {
  }
}
