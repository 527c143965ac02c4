/**
 One flow on true sequence numbers: the sending end with its credits, the receiving end with
 its reorder buffer, and the read reports that flow back.
 */
module FlowModel {
  import opened SeqNum
  import opened Packets

  /** Packets a sender may have out before the peer reports reading (rcvWnd). */
  const WINDOW := 500

  /**
   `next` is nextSeqNumber, the number of the last packet sent; `acked` is ackedUpto; `credits`
   the value of remoteFreeWindow. `sent` lists the packets by number.
   */
  datatype FlowSnd = FlowSnd(next: int, acked: int, credits: int, sent: seq<Packet>)

  /**
   `read` is readUpto, `avail` availableUpTo, `held` the packets of rcvPktQueue by number and
   `sem` the value of readSem. `got` lists what readData has returned, `ended` says that it has
   returned the end of the flow.
   */
  datatype FlowRcv = FlowRcv(read: int, avail: int, held: map<int, Packet>, sem: int, got: seq<seq<int>>, ended: bool)

  function InitFlowSnd(): FlowSnd {
    FlowSnd(-1, -1, WINDOW, [])
  }

  function InitFlowRcv(): FlowRcv {
    FlowRcv(-1, -1, map[], 0, [], false)
  }

  // ---------------------------------------------------------------------------------------
  // Sending end
  // ---------------------------------------------------------------------------------------

  predicate Finished(s: FlowSnd) {
    s.sent != [] && s.sent[|s.sent| - 1].fin
  }

  /** The packet that goes out next. */
  function NextPacket(s: FlowSnd, flowId: int, data: seq<int>, fin: bool): Packet {
    Packet(flowId, s.next + 1, data, fin, false, false)
  }

  /** sendPacketTo once remoteFreeWindow has been waited for */
  function SendPacket(s: FlowSnd, flowId: int, data: seq<int>, fin: bool): FlowSnd {
    FlowSnd(s.next + 1, s.acked, s.credits - 1, s.sent + [NextPacket(s, flowId, data, fin)])
  }

  /** recvAck: a report that the peer has read up to `x`. */
  function TakeReport(s: FlowSnd, x: int): FlowSnd {
    if 0 <= x - s.acked <= WINDOW then s.(acked := x, credits := s.credits + (x - s.acked)) else s
  }

  // ---------------------------------------------------------------------------------------
  // Receiving end
  // ---------------------------------------------------------------------------------------

  /** How far packets are present without a gap from `a`; nothing is taken past the end of the flow. */
  function Contiguous(held: map<int, Packet>, a: int): (b: int)
    ensures a <= b
    ensures forall n :: a < n <= b ==> n in held
    ensures forall n :: a < n < b ==> !held[n].fin
    ensures b + 1 in held ==> b > a && held[b].fin
    decreases held.Keys
  {
    if a + 1 !in held then a
    else if held[a + 1].fin then a + 1
    else
      var rest := held - {a + 1};
      assert rest.Keys < held.Keys by {
        assert a + 1 in held.Keys && a + 1 !in rest.Keys;
      }
      assert forall n :: n in rest ==> n in held && rest[n] == held[n];
      Contiguous(rest, a + 1)
  }

  /** recvPacketFrom for packet number `n` */
  function TakePacket(r: FlowRcv, n: int, p: Packet): FlowRcv {
    if n <= r.read || n in r.held then r
    else
      var held := r.held[n := p];
      var avail := Contiguous(held, r.avail);
      r.(held := held, avail := avail, sem := r.sem + (avail - r.avail))
  }

  predicate CanRead(r: FlowRcv) {
    r.sem > 0
  }

  /** readData once readSem has been waited for */
  function ReadNext(r: FlowRcv): FlowRcv
    requires r.read + 1 in r.held
  {
    var p := r.held[r.read + 1];
    FlowRcv(r.read + 1, r.avail, r.held - {r.read + 1}, r.sem - 1,
            if p.fin then r.got else r.got + [p.data], r.ended || p.fin)
  }

  // ---------------------------------------------------------------------------------------
  // The two ends together
  // ---------------------------------------------------------------------------------------

  /** The packet is the one sent under its number; the channel may have set its start flag. */
  ghost predicate Genuine(p: Packet, sent: seq<Packet>) {
    && 0 <= p.flowSeq < |sent|
    && p.flowId == sent[p.flowSeq].flowId && p.data == sent[p.flowSeq].data && p.fin == sent[p.flowSeq].fin
  }

  /** The data of the first `n` packets, the end marker left out. */
  function DataOf(sent: seq<Packet>, n: nat): seq<seq<int>>
    requires n <= |sent|
  {
    if n == 0 then []
    else if sent[n - 1].fin then DataOf(sent, n - 1)
    else DataOf(sent, n - 1) + [sent[n - 1].data]
  }

  /** A flow with both ends and every read report ever made. */
  datatype Flow = Flow(s: FlowSnd, r: FlowRcv, reports: set<int>)

  ghost predicate SndInv(s: FlowSnd) {
    && |s.sent| == s.next + 1
    && -1 <= s.acked <= s.next
    && s.credits >= 0 && s.credits + (s.next - s.acked) == WINDOW
    && (forall i :: 0 <= i < s.next ==> !s.sent[i].fin)
    && (forall i :: 0 <= i <= s.next ==> s.sent[i].flowSeq == i)
  }

  ghost predicate RcvInv(r: FlowRcv) {
    && -1 <= r.read <= r.avail
    && r.sem == r.avail - r.read
    && (forall n :: r.read < n <= r.avail ==> n in r.held)
    && (forall n :: n in r.held ==> n > r.read && r.held[n].flowSeq == n)
  }

  ghost predicate FlowInv(f: Flow) {
    && SndInv(f.s) && RcvInv(f.r)
    && f.s.acked <= f.r.read && f.r.avail <= f.s.next
    && (forall x :: x in f.reports ==> -1 <= x <= f.r.read)
    && (forall n :: n in f.r.held ==> Genuine(f.r.held[n], f.s.sent))
    && f.r.avail + 1 !in f.r.held
    && f.r.got == DataOf(f.s.sent, f.r.read + 1)
    && (f.r.ended <==> f.r.read >= 0 && f.s.sent[f.r.read].fin)
  }

  function InitFlow(): Flow {
    Flow(InitFlowSnd(), InitFlowRcv(), {})
  }

  lemma InitFlowKeeps()
    ensures FlowInv(InitFlow())
  {
  }

  lemma {:induction false} DataOfGrows(sent: seq<Packet>, p: Packet, n: nat)
    requires n <= |sent|
    ensures DataOf(sent + [p], n) == DataOf(sent, n)
  {
    if n > 0 {
      DataOfGrows(sent, p, n - 1);
    }
  }

  /** Sending spends one credit and leaves what the peer holds genuine. */
  lemma SendKeeps(f: Flow, flowId: int, data: seq<int>, fin: bool)
    requires FlowInv(f) && f.s.credits > 0 && !Finished(f.s)
    ensures FlowInv(f.(s := SendPacket(f.s, flowId, data, fin)))
  {
    DataOfGrows(f.s.sent, NextPacket(f.s, flowId, data, fin), f.r.read + 1);
    hide DataOf;
  }

  lemma TakeKeepsRcv(r: FlowRcv, n: int, p: Packet)
    requires RcvInv(r) && p.flowSeq == n
    ensures RcvInv(TakePacket(r, n, p))
    ensures forall m :: m in TakePacket(r, n, p).held ==> m in r.held || m == n
  {
  }

  lemma TakeKeeps(f: Flow, p: Packet)
    requires FlowInv(f) && Genuine(p, f.s.sent)
    ensures FlowInv(f.(r := TakePacket(f.r, p.flowSeq, p)))
  {
    hide DataOf;
    var r := TakePacket(f.r, p.flowSeq, p);
    assert forall n :: n in r.held ==> n < |f.s.sent|;
    if f.r.avail < r.avail {
      assert r.avail in r.held;
    }
    assert r.avail in r.held ==> r.held[r.avail].fin == f.s.sent[r.avail].fin;
  }

  lemma ReadKeeps(f: Flow)
    requires FlowInv(f) && CanRead(f.r)
    ensures f.r.read + 1 in f.r.held && FlowInv(f.(r := ReadNext(f.r)))
  {
  }

  lemma ReportKeeps(f: Flow, x: int)
    requires FlowInv(f) && x in f.reports
    ensures FlowInv(f.(s := TakeReport(f.s, x)))
  {
  }

  lemma MakeReportKeeps(f: Flow)
    requires FlowInv(f)
    ensures FlowInv(f.(reports := f.reports + {f.r.read}))
  {
  }

  // ---------------------------------------------------------------------------------------
  // What each step does
  // ---------------------------------------------------------------------------------------

  /** Sending appends the packet, under the next number and with the data given, for one credit. */
  lemma SendEffect(s: FlowSnd, flowId: int, data: seq<int>, fin: bool)
    requires SndInv(s)
    ensures var t := SendPacket(s, flowId, data, fin);
      && t.sent == s.sent + [Packet(flowId, |s.sent|, data, fin, false, false)]
      && t.credits == s.credits - 1 && t.acked == s.acked && (Finished(t) <==> fin)
  {
  }

  /** A report of new reads gives back one credit for each; any other changes nothing. */
  lemma ReportEffect(s: FlowSnd, x: int)
    requires SndInv(s) && x <= s.next
    ensures var t := TakeReport(s, x);
      && t.credits == s.credits + (if x > s.acked then x - s.acked else 0)
      && t.acked == (if x > s.acked then x else s.acked)
      && t.next == s.next && t.sent == s.sent
  {
  }

  /** readData returns the data of the packet behind the last one read, as it was sent, or the end of the flow. */
  lemma ReadEffect(f: Flow)
    requires FlowInv(f) && CanRead(f.r)
    ensures var r := ReadNext(f.r); var n := f.r.read + 1;
      && n < |f.s.sent| && r.read == n && r.sem == f.r.sem - 1 && r.avail == f.r.avail
      && r.got == f.r.got + (if f.s.sent[n].fin then [] else [f.s.sent[n].data])
      && r.ended == f.s.sent[n].fin
      && (forall m :: m in r.held <==> m in f.r.held && m != n)
  {
  }

  /**
   A packet that is new is held, and availableUpTo moves to the last packet before a gap, or to the
   end of the flow, with one post of readSem for each packet passed; one that is not new changes nothing.
   */
  lemma TakeEffect(r: FlowRcv, p: Packet)
    requires RcvInv(r) && r.avail + 1 !in r.held
    ensures var n := p.flowSeq; var t := TakePacket(r, n, p);
      if n <= r.read || n in r.held then t == r
      else
        && t.held == r.held[n := p] && t.read == r.read && t.got == r.got && t.ended == r.ended
        && t.avail >= r.avail && t.sem == r.sem + (t.avail - r.avail)
        && (forall m :: r.avail < m <= t.avail ==> m in t.held)
        && (forall m :: r.avail < m < t.avail ==> !t.held[m].fin)
        && (t.avail + 1 in t.held ==> t.avail > r.avail && t.held[t.avail].fin)
  {
  }

  // ---------------------------------------------------------------------------------------
  // What follows
  // ---------------------------------------------------------------------------------------

  /** Every packet sent and not yet read lies within 500 of readUpto, and reading never outruns arrival. */
  lemma CreditBounds(f: Flow, n: int)
    requires FlowInv(f) && 0 <= n <= f.s.next
    ensures f.s.credits + (f.s.next - f.s.acked) == WINDOW
    ensures n <= f.r.read + WINDOW
    ensures f.r.sem == f.r.avail - f.r.read && forall m :: f.r.read < m <= f.r.avail ==> m in f.r.held
  {
  }

  /**
   What the 16-bit tests of recvPacketFrom find out, and its assertion: for a sent packet less
   than 65536 behind readUpto the distance is above 49152 exactly when the packet has been read
   and lies at most 16383 behind; the assertion that it is otherwise at most 32768 holds exactly
   when the packet is unread, or read and within 16384 or beyond 32767 behind.
   */
  lemma DuplicateTest(f: Flow, n: int)
    requires FlowInv(f) && 0 <= n <= f.s.next && f.r.read - n < CNT
    ensures var vir := Diff(Wire(n), Wire(f.r.read + 1)); var behind := f.r.read + 1 - n;
      && (vir > THREE_QUARTERS <==> 0 < behind <= 16383)
      && (vir <= THREE_QUARTERS ==> (vir <= HALF <==> behind <= 0 || behind >= HALF))
      && (behind <= 0 ==> vir < WINDOW)
  {
    DiffIsDistance(n, f.r.read + 1);
  }

  /** A report is told from a stale one exactly while it is fewer than 65036 behind. */
  lemma ReportTest(acked: int, x: int)
    requires x <= acked + WINDOW && acked - x <= CNT
    ensures Diff(Wire(x), Wire(acked)) <= WINDOW <==> x >= acked || acked - x >= CNT - WINDOW
    ensures x >= acked ==> Diff(Wire(x), Wire(acked)) == x - acked
  {
    DiffIsDistance(x, acked);
  }

  lemma {:induction false} DataOfPrefix(sent: seq<Packet>, n: nat, m: nat)
    requires n <= m <= |sent|
    ensures DataOf(sent, n) <= DataOf(sent, m)
  {
    if n < m {
      DataOfPrefix(sent, n, m - 1);
    }
  }

  /** Chunks, one after the other. */
  function Bytes(chunks: seq<seq<int>>): seq<int> {
    if chunks == [] then [] else Bytes(chunks[..|chunks| - 1]) + chunks[|chunks| - 1]
  }

  lemma {:induction false} BytesPrefix(a: seq<seq<int>>, b: seq<seq<int>>)
    requires a <= b
    ensures Bytes(a) <= Bytes(b)
    decreases |b|
  {
    if a != b {
      BytesPrefix(a, b[..|b| - 1]);
    }
  }

  /**
   What readData has returned is a prefix of the data sent, in order, chunk by chunk and byte by
   byte; it has returned the end of the flow only after all of it.
   */
  lemma ReadsPrefix(f: Flow)
    requires FlowInv(f)
    ensures f.r.got <= DataOf(f.s.sent, |f.s.sent|)
    ensures Bytes(f.r.got) <= Bytes(DataOf(f.s.sent, |f.s.sent|))
    ensures f.r.ended ==> Finished(f.s) && f.r.got == DataOf(f.s.sent, |f.s.sent|)
  {
    DataOfPrefix(f.s.sent, f.r.read + 1, |f.s.sent|);
    hide DataOf;
    BytesPrefix(f.r.got, DataOf(f.s.sent, |f.s.sent|));
  }
}
