/** NewFlowHandler: 16-bit counters, the reorder array and the two semaphores of one flow. */
module FlowHandlers {
  import opened SeqNum
  import opened Packets
  import opened FlowModel

  /** MAX_PACKET_SENT_DATA_SIZE and MAX_PACKET_DATA_SIZE */
  const CHUNK := 1300
  const COUNTED := 2048

  datatype RecvCode = Stored | NotData | Duplicate

  datatype ReadResult = InvalidSize | End | NoData | Data(bytes: seq<int>)

  datatype SendCode = Sent | Closed | Waiting

  // ---------------------------------------------------------------------------------------
  // The reorder array
  // ---------------------------------------------------------------------------------------

  /** Over one turn of the number space above `base`, a cell is full exactly when its number is held. */
  ghost predicate Shelved(cells: seq<Option<Packet>>, held: map<int, Packet>, base: int) {
    && |cells| == CNT
    && (forall n :: base < n <= base + CNT ==> cells[Wire(n)] == if n in held then Some(held[n]) else None)
  }

  lemma ShelvedSet(cells: seq<Option<Packet>>, held: map<int, Packet>, base: int, n: int, p: Packet)
    requires Shelved(cells, held, base) && base < n <= base + CNT
    ensures Shelved(cells[Wire(n) := Some(p)], held[n := p], base)
  {
    forall m | base < m <= base + CNT && Wire(m) == Wire(n) ensures m == n {
      WireInjective(m, n);
    }
    hide Wire;
  }

  /** The lowest packet is read: its cell is emptied and the window moves up. */
  lemma ShelvedRead(cells: seq<Option<Packet>>, held: map<int, Packet>, base: int)
    requires Shelved(cells, held, base) && base + CNT + 1 !in held
    ensures Shelved(cells[Wire(base + 1) := None], held - {base + 1}, base + 1)
  {
    WirePeriod(base + 1 + CNT);
    forall m | base < m <= base + CNT && Wire(m) == Wire(base + 1) ensures m == base + 1 {
      WireInjective(m, base + 1);
    }
    hide Wire;
  }

  /** The properties of Contiguous determine it. */
  lemma ContiguousIs(held: map<int, Packet>, a: int, b: int)
    requires a <= b && forall n :: a < n <= b ==> n in held
    requires forall n :: a < n < b ==> !held[n].fin
    requires b + 1 in held ==> b > a && held[b].fin
    ensures b == Contiguous(held, a)
  {
    var c := Contiguous(held, a);
    hide Contiguous;
    assert b < c ==> b + 1 in held;
    assert c < b ==> c + 1 in held;
  }

  // ---------------------------------------------------------------------------------------
  // Cutting data into packets
  // ---------------------------------------------------------------------------------------

  /** A packet as it is handed to the scheduler, under its 16-bit number. */
  datatype Outgoing = Outgoing(flowId: int, flowSeqNo: u16, data: seq<int>, fin: bool)

  ghost predicate Handed(out: seq<Outgoing>, sent: seq<Packet>) {
    && |out| == |sent|
    && (forall i :: 0 <= i < |out| ==>
         out[i] == Outgoing(sent[i].flowId, Wire(sent[i].flowSeq), sent[i].data, sent[i].fin))
  }

  /** The data of packets, one after the other. */
  function Joined(ps: seq<Outgoing>): seq<int> {
    if ps == [] then [] else Joined(ps[..|ps| - 1]) + ps[|ps| - 1].data
  }

  lemma {:induction false} JoinedAppend(ps: seq<Outgoing>, p: Outgoing)
    ensures Joined(ps + [p]) == Joined(ps) + p.data
  {
    assert (ps + [p])[..|ps + [p]| - 1] == ps;
  }

  /** One more packet sent: the bytes move from what is left to what has gone. */
  lemma Append(ps: seq<Outgoing>, data: seq<int>, rest: seq<int>, k: nat, p: Outgoing) returns (qs: seq<Outgoing>)
    requires Joined(ps) + rest == data && k <= |rest| && p.data == rest[..k]
    ensures qs == ps + [p] && Joined(qs) + rest[k..] == data
  {
    qs := ps + [p];
    JoinedAppend(ps, p);
    assert rest == rest[..k] + rest[k..];
  }

  /** The bytes handed over are the bytes the receiving end is to return; the end marker carries none. */
  lemma {:induction false} JoinedIsBytes(out: seq<Outgoing>, sent: seq<Packet>)
    requires Handed(out, sent) && forall p :: p in sent && p.fin ==> p.data == []
    ensures Joined(out) == Bytes(DataOf(sent, |sent|))
  {
    if sent != [] {
      var n := |sent| - 1;
      JoinedIsBytes(out[..n], sent[..n]);
      assert sent == sent[..n] + [sent[n]];
      DataOfGrows(sent[..n], sent[n], n);
    }
  }

  lemma Quotient(n: nat, k: nat, r: nat)
    requires n == CHUNK * k + r && r < CHUNK
    ensures n / CHUNK == k && n % CHUNK == r
  {
  }

  /** The count sendData returns is the number of bytes only when no packet was full. */
  lemma CountOverstates(n: nat)
    ensures COUNTED * (n / CHUNK) + n % CHUNK == n <==> n < CHUNK
  {
    assert n == CHUNK * (n / CHUNK) + n % CHUNK;
  }

  lemma EmptyJoin()
    ensures Joined([]) == []
  {
  }

  class NewFlowHandler {
    const flowId: int
    const recvWindow: u16 := 500
    var rcvPktQueue: array?<Option<Packet>>
    var readUpto: u16
    var availableUpTo: u16
    var readSem: nat
    var closed: bool
    var remoteFreeWindow: nat
    var ackedUpto: u16
    var nextSeqNumber: u16
    /** Packets handed to the scheduler. */
    var outgoing: seq<Outgoing>

    ghost var s: FlowSnd
    ghost var r: FlowRcv

    ghost predicate SndValid()
      reads this`s, this`remoteFreeWindow, this`ackedUpto, this`closed, this`nextSeqNumber, this`outgoing
    {
      && SndInv(s)
      && remoteFreeWindow == s.credits && ackedUpto == Wire(s.acked)
      && (if closed then Finished(s) else nextSeqNumber == Wire(s.next) && !Finished(s))
      && Handed(outgoing, s.sent)
    }

    ghost predicate RcvValid()
      reads this`r, this`readUpto, this`availableUpTo, this`readSem, this`rcvPktQueue, rcvPktQueue
    {
      && RcvInv(r)
      && readUpto == Wire(r.read) && availableUpTo == Wire(r.avail) && readSem == r.sem
      && (forall n :: n in r.held ==> n <= r.read + 1 + HALF)
      && (if rcvPktQueue == null then r.held == map[] else Shelved(rcvPktQueue[..], r.held, r.read))
    }

    ghost predicate Valid()
      reads this, rcvPktQueue
    {
      SndValid() && RcvValid()
    }

    constructor (flowId: int)
      ensures Valid() && rcvPktQueue == null
      ensures s == InitFlowSnd() && r == InitFlowRcv() && outgoing == [] && !closed
    {
      this.flowId := flowId;
      rcvPktQueue, readUpto, availableUpTo, readSem, closed := null, 65535, 65535, 0, false;
      remoteFreeWindow, ackedUpto, nextSeqNumber, outgoing := 500, 65535, 65535, [];
      s, r := InitFlowSnd(), InitFlowRcv();
    }

    // -------------------------------------------------------------------------------------
    // Receiving end
    // -------------------------------------------------------------------------------------

    /**
     recvPacketFrom(pkt), up to the reply to the end of the flow, which SendClosePacket makes.
     The assertion on the distance is proved for every packet that is at most 16383 behind.
     */
    method RecvPacketFrom(pkt: Packet, flowSeqNo: u16, dat: bool) returns (code: RecvCode, gotEnd: bool)
      requires Valid() && flowSeqNo == Wire(pkt.flowSeq)
      requires -16383 <= pkt.flowSeq - (r.read + 1) <= HALF
      modifies this, rcvPktQueue
      ensures Valid() && (rcvPktQueue == old(rcvPktQueue) || fresh(rcvPktQueue))
      ensures s == old(s) && r == if dat then TakePacket(old(r), pkt.flowSeq, pkt) else old(r)
      ensures code == if !dat then NotData
                      else if pkt.flowSeq <= old(r).read || pkt.flowSeq in old(r).held then Duplicate else Stored
      ensures gotEnd <==> r.avail > old(r).avail && r.held[r.avail].fin
    {
      hide Wire, Diff, SndValid, RcvInv, RcvValid, TakePacket;
      gotEnd := false;
      if dat && rcvPktQueue == null {
        Unshelved();
        rcvPktQueue := new Option<Packet>[CNT](_ => None);
        FreshShelf();
      }
      if !dat {
        return NotData, false;
      }
      WireSum(r.read, 1);
      DiffIsDistance(pkt.flowSeq, r.read + 1);
      Cell(pkt.flowSeq);
      var virSeqNo := Diff(flowSeqNo, Plus(readUpto, 1));
      if virSeqNo > CNT / 4 + CNT / 2 {
        return Duplicate, false;
      }
      assert virSeqNo <= CNT / 2;
      if rcvPktQueue[flowSeqNo] != None {
        return Duplicate, false;
      }
      gotEnd := Shelve(pkt, flowSeqNo);
      code := Stored;
    }

    lemma Unshelved()
      requires RcvValid() && rcvPktQueue == null
      ensures RcvInv(r) && r.held == map[] && readUpto == Wire(r.read)
      ensures availableUpTo == Wire(r.avail) && readSem == r.sem
    {
    }

    lemma FreshShelf()
      requires rcvPktQueue != null && rcvPktQueue.Length == CNT && forall i :: 0 <= i < CNT ==> rcvPktQueue[i] == None
      requires RcvInv(r) && r.held == map[] && readUpto == Wire(r.read)
      requires availableUpTo == Wire(r.avail) && readSem == r.sem
      ensures RcvValid()
    {
    }

    /** What the cell of packet `n` holds. */
    lemma Cell(n: int)
      requires RcvValid() && rcvPktQueue != null && n <= r.read + 1 + HALF
      ensures rcvPktQueue.Length == CNT && readUpto == Wire(r.read)
      ensures n > r.read ==> (rcvPktQueue[Wire(n)] == if n in r.held then Some(r.held[n]) else None)
      ensures TakePacket(r, n, Packet(0, n, [], false, false, false)) == r <==> n <= r.read || n in r.held
      ensures forall p :: n <= r.read || n in r.held ==> TakePacket(r, n, p) == r
    {
    }

    /** The part of recvPacketFrom under readLock: a new packet is put in its cell. */
    method Shelve(pkt: Packet, flowSeqNo: u16) returns (gotEnd: bool)
      requires RcvValid() && flowSeqNo == Wire(pkt.flowSeq) && rcvPktQueue != null
      requires r.read < pkt.flowSeq <= r.read + 1 + HALF && pkt.flowSeq !in r.held
      modifies this`availableUpTo, this`readSem, this`r, rcvPktQueue
      ensures RcvValid()
      ensures r == TakePacket(old(r), pkt.flowSeq, pkt)
      ensures gotEnd <==> r.avail > old(r).avail && r.held[r.avail].fin
    {
      ghost var r0, held := r, r.held[pkt.flowSeq := pkt];
      ShelvedSet(rcvPktQueue[..], r.held, r.read, pkt.flowSeq, pkt);
      TakeKeepsRcv(r0, pkt.flowSeq, pkt);
      rcvPktQueue[flowSeqNo] := Some(pkt);
      assert r.avail <= r.read || r.avail in r.held;
      gotEnd := Advance(held);
      r := TakePacket(r0, pkt.flowSeq, pkt);
    }

    /** The loop that moves availableUpTo over the packets present and stops behind the end of the flow. */
    method Advance(ghost held: map<int, Packet>) returns (gotEnd: bool)
      requires rcvPktQueue != null && Shelved(rcvPktQueue[..], held, r.read)
      requires availableUpTo == Wire(r.avail) && r.read <= r.avail <= r.read + 1 + HALF
      requires forall n :: n in held ==> n <= r.read + 1 + HALF
      modifies this`availableUpTo, this`readSem
      ensures var a := Contiguous(held, r.avail);
                && availableUpTo == Wire(a) && readSem == old(readSem) + (a - r.avail)
                && (gotEnd <==> a > r.avail && held[a].fin)
    {
      hide Wire, Plus, Contiguous;
      WireSum(r.avail, 1);
      gotEnd := false;
      ghost var a := r.avail;
      var nextAvailable := Plus(availableUpTo, 1);
      Present(held, a + 1);
      while rcvPktQueue[nextAvailable] != None
        invariant r.avail <= a && availableUpTo == Wire(a) && nextAvailable == Wire(a + 1)
        invariant forall n :: r.avail < n <= a ==> n in held && !held[n].fin
        invariant readSem == old(readSem) + (a - r.avail) && !gotEnd
        invariant a <= r.avail || a in held
        invariant a + 1 in held <==> rcvPktQueue[nextAvailable] != None
        decreases r.read + 1 + HALF - a
      {
        WireSum(a, 1);
        WireSum(a + 1, 1);
        Present(held, a + 1);
        availableUpTo := Plus(availableUpTo, 1);
        a := a + 1;
        readSem := readSem + 1;
        if rcvPktQueue[availableUpTo].value.fin {
          gotEnd := true;
          break;
        }
        nextAvailable := Plus(nextAvailable, 1);
        Present(held, a + 1);
      }
      ContiguousIs(held, r.avail, a);
    }

    lemma Present(held: map<int, Packet>, n: int)
      requires rcvPktQueue != null && Shelved(rcvPktQueue[..], held, r.read) && r.read < n
      requires forall m :: m in held ==> m <= r.read + 1 + HALF
      ensures rcvPktQueue.Length == CNT
      ensures n <= r.read + CNT ==> rcvPktQueue[Wire(n)] == if n in held then Some(held[n]) else None
    {
    }

    /** readData(data, size), once readSem has been waited for; both assertions of the source are proved. */
    method ReadData(size: nat) returns (res: ReadResult)
      requires Valid() && (size >= CHUNK ==> CanRead(r))
      modifies this`readUpto, this`readSem, this`r, rcvPktQueue
      ensures Valid()
      ensures size < CHUNK ==> res == InvalidSize && r == old(r)
      ensures size >= CHUNK ==>
                && old(r).read + 1 in old(r).held && r == ReadNext(old(r))
                && var p := old(r).held[old(r).read + 1];
                   res == if p.fin then End else if p.data == [] then NoData else Data(p.data)
    {
      if size < CHUNK {
        return InvalidSize;
      }
      var pkt := TakeHead();
      if pkt.fin {
        return End;
      }
      if pkt.data == [] {
        return NoData;
      }
      res := Data(pkt.data);
    }

    /** The part of readData under readLock. */
    method TakeHead() returns (pkt: Packet)
      requires RcvValid() && CanRead(r)
      modifies this`readUpto, this`readSem, this`r, rcvPktQueue
      ensures RcvValid()
      ensures old(r).read + 1 in old(r).held && r == ReadNext(old(r)) && pkt == old(r).held[old(r).read + 1]
    {
      hide Wire, Plus, RcvValid, ReadNext, Shelved;
      ReadFacts();
      ghost var r0 := r;
      readSem := readSem - 1;
      assert readUpto != availableUpTo;
      var nextPkt := Plus(readUpto, 1);
      assert rcvPktQueue[nextPkt] != None;
      pkt := rcvPktQueue[nextPkt].value;
      ShelvedRead(rcvPktQueue[..], r.held, r.read);
      readUpto := Plus(readUpto, 1);
      rcvPktQueue[readUpto] := None;
      r := ReadNext(r);
      ReadDone(r0);
    }

    lemma ReadFacts()
      requires RcvValid() && CanRead(r)
      ensures rcvPktQueue != null && Shelved(rcvPktQueue[..], r.held, r.read) && rcvPktQueue.Length == CNT
      ensures r.read + 1 in r.held && r.read + CNT + 1 !in r.held && RcvInv(r) && readSem == r.sem
      ensures (forall n :: n in r.held ==> n <= r.read + 1 + HALF) && availableUpTo == Wire(r.avail)
      ensures Plus(readUpto, 1) == Wire(r.read + 1) && rcvPktQueue[Wire(r.read + 1)] == Some(r.held[r.read + 1])
      ensures readUpto != availableUpTo
    {
      WireSum(r.read, 1);
      assert r.avail in r.held;
      hide Wire, Plus;
      Apart();
    }

    lemma ReadDone(r0: FlowRcv)
      requires RcvInv(r0) && r0.sem > 0 && r0.read + 1 in r0.held && r == ReadNext(r0)
      requires (forall n :: n in r0.held ==> n <= r0.read + 1 + HALF)
      requires readSem == r0.sem - 1 && availableUpTo == Wire(r0.avail)
      requires rcvPktQueue != null && readUpto == Wire(r0.read + 1)
      requires Shelved(rcvPktQueue[..], r0.held - {r0.read + 1}, r0.read + 1)
      ensures RcvValid()
    {
    }

    lemma Apart()
      requires RcvInv(r) && readUpto == Wire(r.read)
      requires availableUpTo == Wire(r.avail) && r.read < r.avail < r.read + CNT
      ensures readUpto != availableUpTo
    {
      if readUpto == availableUpTo {
        WireInjective(r.avail, r.read);
      }
    }

    /** getReadUpto() */
    method GetReadUpto() returns (n: u16)
      requires Valid()
      ensures n == Wire(r.read)
    {
      n := readUpto;
    }

    // -------------------------------------------------------------------------------------
    // Sending end
    // -------------------------------------------------------------------------------------

    /** recvAck(flowId, flowSeqNo): a report fewer than 65036 behind the last is told from a newer one. */
    method RecvAck(flowSeqNo: u16, ghost x: int)
      requires Valid() && flowSeqNo == Wire(x)
      requires s.acked - (CNT - WINDOW) < x <= s.next
      modifies this`remoteFreeWindow, this`ackedUpto, this`s
      ensures Valid()
      ensures s == TakeReport(old(s), x)
      ensures remoteFreeWindow == old(remoteFreeWindow) + (if x > old(s).acked then x - old(s).acked else 0)
      ensures s.acked == if x > old(s).acked then x else old(s).acked
    {
      ReportTest(s.acked, x);
      ReportEffect(s, x);
      hide Wire, Diff, RcvInv;
      var read := Diff(flowSeqNo, ackedUpto);
      if read > recvWindow {
        return;
      }
      ackedUpto := flowSeqNo;
      var left := read;
      while left != 0
        invariant 0 <= left <= read && remoteFreeWindow == old(remoteFreeWindow) + (read - left)
        invariant s == old(s) && ackedUpto == flowSeqNo
      {
        remoteFreeWindow := remoteFreeWindow + 1;
        left := left - 1;
      }
      s := TakeReport(s, x);
    }

    /** sendPacketTo(id, pkt) once a credit has been waited for */
    method SendPacketTo(data: seq<int>, fin: bool)
      requires SndInv(s) && ackedUpto == Wire(s.acked) && nextSeqNumber == Wire(s.next + 1) && !closed && !Finished(s)
      requires remoteFreeWindow == s.credits > 0 && Handed(outgoing, s.sent)
      modifies this`remoteFreeWindow, this`outgoing, this`s
      ensures SndInv(s) && remoteFreeWindow == s.credits && Handed(outgoing, s.sent)
      ensures outgoing == old(outgoing) + [Outgoing(flowId, nextSeqNumber, data, fin)]
      ensures s == SendPacket(old(s), flowId, data, fin)
    {
      remoteFreeWindow := remoteFreeWindow - 1;
      outgoing := outgoing + [Outgoing(flowId, nextSeqNumber, data, fin)];
      s := SendPacket(s, flowId, data, fin);
    }

    /** sendClosePacket(): the answer to the end of the peer's flow, or the end of this one */
    method SendClosePacket()
      requires Valid() && !closed && remoteFreeWindow > 0
      modifies this`remoteFreeWindow, this`outgoing, this`s, this`nextSeqNumber, this`closed
      ensures Valid() && closed
      ensures s == SendPacket(old(s), flowId, [], true)
      ensures outgoing == old(outgoing) + [Outgoing(flowId, nextSeqNumber, [], true)] && nextSeqNumber == Wire(s.next)
      ensures remoteFreeWindow == old(remoteFreeWindow) - 1
    {
      WireSum(s.next, 1);
      nextSeqNumber := Plus(nextSeqNumber, 1);
      SendPacketTo([], true);
      closed := true;
    }

    /** Packets of sendData; all but the last of a finished call are full. */
    ghost predicate Pieces(ps: seq<Outgoing>, finished: bool) {
      forall i :: 0 <= i < |ps| ==>
        !ps[i].fin && ps[i].flowId == flowId && 0 < |ps[i].data| <= CHUNK
        && (|ps[i].data| < CHUNK ==> finished && i == |ps| - 1)
    }

    /**
     sendData(flowId, data): the bytes go out in packets of 1300 and a last shorter one. A call
     that has to wait for a credit returns what is left, and the waiting writer goes on with
     that. The packets sent, one after the other, are the bytes taken.
     */
    method SendData(data: seq<int>) returns (code: SendCode, count: nat, rest: seq<int>, ghost pkts: seq<Outgoing>)
      requires Valid()
      modifies this`remoteFreeWindow, this`outgoing, this`s, this`nextSeqNumber
      ensures Valid() && s.acked == old(s).acked
      ensures outgoing == old(outgoing) + pkts && Pieces(pkts, rest == [])
      ensures Joined(pkts) + rest == data
      ensures code == Sent <==> rest == []
      ensures code == Waiting ==> remoteFreeWindow == 0
      ensures code == Closed ==> closed
      ensures code == Sent ==> count == COUNTED * (|data| / CHUNK) + |data| % CHUNK
    {
      hide SndValid, RcvValid, SendPacket, Joined;
      rest, count, pkts := data, 0, [];
      ghost var k := 0;
      EmptyJoin();
      while |rest| >= CHUNK
        invariant Valid() && s.acked == old(s).acked
        invariant outgoing == old(outgoing) + pkts && Pieces(pkts, false)
        invariant Joined(pkts) + rest == data
        invariant count == COUNTED * k && |data| == CHUNK * k + |rest|
      {
        var done := SendChunk(rest[..CHUNK]);
        if done != Sent {
          return done, count, rest, pkts;
        }
        pkts := Append(pkts, data, rest, CHUNK, outgoing[|outgoing| - 1]);
        rest := rest[CHUNK..];
        count := count + COUNTED;
        k := k + 1;
      }
      Quotient(|data|, k, |rest|);
      if |rest| > 0 {
        var done := SendChunk(rest);
        if done != Sent {
          return done, count, rest, pkts;
        }
        pkts := Append(pkts, data, rest, |rest|, outgoing[|outgoing| - 1]);
        count := count + |rest|;
        rest := [];
      }
      code := Sent;
    }

    /** sendPacketToCloseCheck: a closed flow has used up the number for nothing. */
    method SendChunk(chunk: seq<int>) returns (code: SendCode)
      requires Valid()
      modifies this`remoteFreeWindow, this`outgoing, this`s, this`nextSeqNumber
      ensures Valid() && s.acked == old(s).acked
      ensures code == if closed then Closed else if old(remoteFreeWindow) == 0 then Waiting else Sent
      ensures code == Sent ==>
                s == SendPacket(old(s), flowId, chunk, false)
                && outgoing == old(outgoing) + [Outgoing(flowId, nextSeqNumber, chunk, false)]
      ensures code != Sent ==> s == old(s) && remoteFreeWindow == old(remoteFreeWindow) && outgoing == old(outgoing)
    {
      if closed {
        nextSeqNumber := Plus(nextSeqNumber, 1);
        return Closed;
      }
      if remoteFreeWindow == 0 {
        return Waiting;
      }
      WireSum(s.next, 1);
      nextSeqNumber := Plus(nextSeqNumber, 1);
      SendPacketTo(chunk, false);
      code := Sent;
    }
  }
}
