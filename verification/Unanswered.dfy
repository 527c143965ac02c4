/**
 A run in which the receiver leaves a retransmission without an answer: 16384 packets in flight
 have arrived, all their acks are lost, and the head is sent again.
 */
module Unanswered {
  import opened SenderModel
  import opened ReceiverModel
  import opened ChannelSystem
  import opened RoundTrips

  /** The number the sender waits for, and how many packets it has in flight at the end. */
  const FIRST := 16383
  const FLIGHT := 16384

  /** `j` packets from FIRST up have been sent and received; no ack of theirs has come back. */
  ghost predicate Unacked(c: Chan, j: nat) {
    && InFlight(c, FIRST, j) && NoMarks(c.snd.b) && Wnd(c.snd.c) >= FLIGHT
    && c.rcv.next == FIRST + j && c.rcv.above == {} && (j > 0 ==> c.rcv.started)
  }

  lemma {:induction false} Lost(j: nat) returns (c: Chan)
    requires j <= FLIGHT
    ensures Reachable(c) && Unacked(c, j)
  {
    hide Reachable, InFlight, NoMarks, Wnd, Ready;
    if j == 0 {
      c := Trips(FIRST);
      ReadyOpen(c.snd.c, FIRST);
    } else {
      c := Lost(j - 1);
      c := SendPacket(c, FIRST, j - 1);
      c := ArriveNext(c, FIRST, j, FIRST + j - 1);
    }
  }

  /** Every number of the flight, in order. */
  function Flight(): seq<int> {
    seq(FLIGHT, i => FIRST + i)
  }

  /** A sweep late enough sends the whole flight again. */
  lemma SweepFlight(b: Buf, rto: int, now: int)
    requires Held(b, FIRST, FLIGHT, rto) && NoMarks(b) && now >= 1 + rto
    ensures Enumerates(Flight(), Resent(b, now))
    ensures forall n :: n in Flight() ==> !Fatal(b, n)
  {
    assert forall n :: n in Resent(b, now) <==> FIRST <= n < FIRST + FLIGHT;
    forall n | n in Resent(b, now) ensures n in Flight() {
      assert Flight()[n - FIRST] == n;
    }
  }

  /**
   A reachable state whose head, number `n`, was just sent again by a timeout. The receiver has it,
   16384 below expectedSeq; when the copy arrives it is neither accepted nor answered, and the
   channel is as it was before.
   */
  lemma RetransmissionIgnored() returns (c: Chan, d: Chan, n: int, now: int)
    ensures Reachable(c) && Reachable(d) && n == c.snd.b.lo + 1
    ensures Enabled(c, TimeoutSweep(now, Noon, Flight())) && d == Apply(c, TimeoutSweep(now, Noon, Flight()))
    ensures |c.snd.b.tx| < |d.snd.b.tx| && d.snd.b.tx[|c.snd.b.tx|].n == n
    ensures d.snd.b.lo < n <= d.snd.b.mid && n in d.snd.b.slots
    ensures Received(d.rcv, n) && d.rcv.next - n == 16384
    ensures 0 <= n < |d.given| && Passes(d.rcv, d.given[n].chs)
    ensures !Answered(d.rcv, n, d.given[n].chs) && !AcceptedBy(d.rcv, n, d.given[n].chs)
    ensures Enabled(d, DeliverData(n)) && Apply(d, DeliverData(n)) == d
  {
    n := FIRST;
    c := Lost(FLIGHT);
    now := Max(1 + Rto(c.snd.c), 1);
    SweepFlight(c.snd.b, Rto(c.snd.c), now);
    var e := TimeoutSweep(now, Noon, Flight());
    d := Apply(c, e);
    hide Reachable, Resent, Enumerates, Fatal, Transmitted, NoMarks, Wnd;
    OneStep(c, e);
    StillTransmitted(c, d, n);
    assert d.snd.b.tx[|c.snd.b.tx|] == TxOf(c.snd.b, Flight()[0]);
  }
}
