/** The receiving half of a channel in 16-bit arithmetic over the bit map. */
module ChannelReceiver {
  import opened SeqNum
  import opened ReceiverModel
  import opened BitFields

  /** An ack handed to the interface: ackNo and origAckNo. */
  datatype SentAck = SentAck(ackNo: u16, origAckNo: u16)

  /** `all` is what has been received from `r.next` up once `n` is counted. */
  lemma SkipStaysInWindow(r: Rcv, n: int)
    requires RcvInv(r) && Ahead(r, n)
    ensures r.next <= SkipReceived(r.next, r.above + {n}) <= r.next + HALF
  {
    var stop := SkipReceived(r.next, r.above + {n});
    if stop > r.next {
      assert stop - 1 in r.above + {n};
    }
  }

  lemma StartKeeps(r: Rcv)
    requires RcvInv(r)
    ensures RcvInv(r.(started := true))
  {
  }

  /** What the two distance tests of pktRecv find out. */
  lemma DistanceTests(r: Rcv, n: int)
    requires -HALF <= n - r.next < HALF
    ensures var d := Diff(Wire(n), Wire(r.next));
      (d < CNT / 2 <==> Ahead(r, n)) && (d > CNT / 2 + CNT / 4 <==> JustBehind(r, n))
  {
    DiffIsDistance(n, r.next);
  }

  /** Over one turn of the number space from `base`, bits stand for the members of `all` from `from` on. */
  ghost predicate Holds(bits: seq<bool>, base: int, all: set<int>, from: int) {
    && |bits| == CNT
    && (forall m :: base <= m < base + CNT ==> (bits[Wire(m)] <==> m in all && m >= from))
  }

  lemma HoldsOneMore(bits: seq<bool>, base: int, all: set<int>, from: int, n: int)
    requires Holds(bits, base, all, from) && base <= from <= n < base + CNT
    ensures Holds(bits[Wire(n) := true], base, all + {n}, from)
  {
    forall m | base <= m < base + CNT && Wire(m) == Wire(n) ensures m == n {
      WireInjective(m, n);
    }
  }

  lemma HoldsOneLess(bits: seq<bool>, base: int, all: set<int>, e: int)
    requires Holds(bits, base, all, e) && base <= e < base + CNT
    ensures Holds(bits[Wire(e) := false], base, all, e + 1)
  {
    forall m | base <= m < base + CNT && Wire(m) == Wire(e) ensures m == e {
      WireInjective(m, e);
    }
  }

  /** The window may slide over numbers it no longer holds. */
  lemma HoldsSlides(bits: seq<bool>, base: int, all: set<int>, from: int)
    requires Holds(bits, base, all, from) && base <= from <= base + CNT
    requires forall m :: m in all ==> m < base + CNT
    ensures Holds(bits, from, (set m | m in all && m >= from), from)
  {
    forall m | from <= m < from + CNT ensures bits[Wire(m)] <==> m in all && m >= from {
      WirePeriod(m);
      hide Wire;
      if m >= base + CNT {
        assert m !in all;
      }
    }
  }

  class ReceivingBuffer {
    var expectedSeq: u16
    var maxRecvd: u16
    var recvStarted: bool
    const buf: BitField
    var acks: seq<SentAck>
    /** What the fields stand for. */
    ghost var r: Rcv

    ghost predicate Valid()
      reads this, buf, buf.buffer
    {
      && buf.Valid() && buf.size == CNT
      && RcvInv(r)
      && expectedSeq == Wire(r.next) && recvStarted == r.started
      && Holds(buf.Bits(), r.next, r.above, r.next)
    }

    constructor ()
      ensures Valid() && fresh(buf) && fresh(buf.buffer)
      ensures r == InitRcv() && acks == []
    {
      expectedSeq, maxRecvd, recvStarted := 0, 65535, false;
      buf := new BitField(CNT);
      acks := [];
      r := InitRcv();
    }

    /**
     pktRecv(pkt): with 16 bits of sequence number and one bit a slot, the receiver does what an
     unbounded set of received numbers would do.
     */
    method Recv(seqNo: u16, chs: bool, ghost n: int) returns (accepted: bool)
      requires Valid()
      requires seqNo == Wire(n) && 0 <= n && -HALF <= n - r.next < HALF
      modifies this, buf.buffer
      ensures Valid()
      ensures r == PktRecv(old(r), n, chs)
      ensures accepted == AcceptedBy(old(r), n, chs)
      ensures acks == old(acks) + if Answered(old(r), n, chs) then [SentAck(Wire(r.next - 1), seqNo)] else []
    {
      hide Diff, Wire, RcvInv, Holds;
      accepted := false;
      if !recvStarted && !chs {
        return;
      }
      if chs {
        recvStarted := true;
      }
      StartKeeps(r);
      r := r.(started := true);
      var normalizedSeqNo := Diff(seqNo, expectedSeq);
      var normalizedMaxRecv := Diff(maxRecvd, expectedSeq);
      DistanceTests(r, n);
      if 0 <= normalizedSeqNo < CNT / 2 {
        accepted := TakeAhead(seqNo, n);
        SendAck(seqNo);
        if normalizedSeqNo > normalizedMaxRecv {
          maxRecvd := seqNo;
        }
      } else if normalizedSeqNo > CNT / 2 + CNT / 4 {
        SendAck(seqNo);
      }
    }

    /** sendAck(pkt, expectedSeq - 1) */
    method SendAck(seqNo: u16)
      requires Valid()
      modifies this`acks
      ensures Valid()
      ensures acks == old(acks) + [SentAck(Wire(r.next - 1), seqNo)]
    {
      WireSucc(r.next);
      hide Holds, RcvInv, Wire;
      acks := acks + [SentAck((expectedSeq - 1) % CNT, seqNo)];
    }

    /** The half of pktRecv that takes a packet at or ahead of expectedSeq. */
    method TakeAhead(seqNo: u16, ghost n: int) returns (accepted: bool)
      requires Valid() && r.started
      requires seqNo == Wire(n) && 0 <= n && Ahead(r, n)
      modifies this`expectedSeq, this`r, buf.buffer
      ensures Valid()
      ensures r == PktRecv(old(r), n, true)
      ensures accepted == (n !in old(r).above)
    {
      ghost var r0, all := r, r.above + {n};
      accepted := !buf.GetBit(seqNo);
      HoldsOneMore(buf.Bits(), r0.next, r0.above, r0.next, n);
      buf.SetBit(seqNo);
      SkipStaysInWindow(r0, n);
      expectedSeq := SkipBits(r0.next, all);
      HoldsSlides(buf.Bits(), r0.next, all, SkipReceived(r0.next, all));
      PktRecvKeeps(r0, n, true);
      r := PktRecv(r0, n, true);
    }

    /** The advance loop: it clears the bits it passes and stops at the first missing number. */
    method SkipBits(ghost next: int, ghost all: set<int>) returns (expSeq: u16)
      requires buf.Valid() && expectedSeq == Wire(next)
      requires Holds(buf.Bits(), next, all, next)
      requires SkipReceived(next, all) < next + CNT
      modifies buf.buffer
      ensures buf.Valid() && expSeq == Wire(SkipReceived(next, all))
      ensures Holds(buf.Bits(), next, all, SkipReceived(next, all))
    {
      ghost var e := next;
      ghost var stop := SkipReceived(next, all);
      expSeq := expectedSeq;
      while buf.GetBit(expSeq)
        invariant buf.Valid()
        invariant next <= e <= stop && expSeq == Wire(e)
        invariant Holds(buf.Bits(), next, all, e)
        decreases stop - e
      {
        HoldsOneLess(buf.Bits(), next, all, e);
        buf.ResetBit(expSeq);
        WireSucc(e);
        expSeq := (expSeq + 1) % CNT;
        e := e + 1;
      }
      assert e !in all;
    }
  }
}
