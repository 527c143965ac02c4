/**
 A run with 16385 packets in flight, one more than `Marks.SuppressedIsReceived` allows: an old ack
 marks a packet that the receiver has not got, and no timeout sends that packet again.
 */
module WrongMark {
  import opened SenderModel
  import opened ReceiverModel
  import opened ChannelSystem
  import opened Marks
  import opened RoundTrips

  const FIRST := 16384
  const FLIGHT := 16385

  /** The ack for the packet that fills the hole below all others of the flight. */
  const HOLE := AckMsg(32768, 16384)

  /** The flight is out; its head is missing at the receiver and the `j` packets above it are not. */
  ghost predicate Gap(c: Chan, j: nat) {
    && InFlight(c, FIRST, FLIGHT) && NoMarks(c.snd.b) && Ready(c.snd.c, FIRST) && c.queue == []
    && c.rcv.next == FIRST && c.rcv.started && (forall m :: m in c.rcv.above <==> FIRST < m <= FIRST + j)
  }

  lemma {:induction false} Above(j: nat) returns (c: Chan)
    requires j < FLIGHT
    ensures Reachable(c) && Gap(c, j)
  {
    hide Reachable, InFlight, NoMarks, Ready, Wnd;
    if j == 0 {
      c := Trips(FIRST);
      ReadyOpen(c.snd.c, FIRST);
      c := Burst(c, FIRST, FLIGHT);
    } else {
      var b := Above(j - 1);
      c := Arrive(b, FIRST, FLIGHT, FIRST + j);
      assert SkipReceived(FIRST, b.rcv.above + {FIRST + j}) == FIRST;
    }
  }

  /** Where the receiver goes when the hole is filled. */
  lemma HoleFilled(r: Rcv)
    requires r.next == FIRST && r.started && (forall m :: m in r.above <==> FIRST < m < FIRST + FLIGHT)
    ensures forall chs :: PktRecv(r, FIRST, chs) == Rcv(FIRST + FLIGHT, {}, true) && Answered(r, FIRST, chs)
  {
    var all := r.above + {FIRST};
    var m := SkipReceived(FIRST, all);
    assert m == FIRST + FLIGHT by {
      assert m < FIRST + FLIGHT ==> m in all;
      assert FIRST + FLIGHT !in all;
    }
    assert (set x | x in all && x >= m) == {};
  }

  /** The whole flight is received and acked by the one ack, a copy of which is still on its way. */
  lemma AllAcked() returns (c: Chan)
    ensures Reachable(c) && Idle(c, FIRST + FLIGHT) && HOLE in c.acks
  {
    hide Reachable, InFlight, NoMarks, Ready, PktRecv, Answered, Mark, SlotOf;
    c := Above(FLIGHT - 1);
    HoleFilled(c.rcv);
    c := Arrive(c, FIRST, FLIGHT, FIRST);
    c := AckArrives(c, FIRST, FLIGHT, HOLE);
    c := Take(c, FIRST, FLIGHT, FIRST);
  }

  /** 32767 round trips later the same number of packets is in flight, with none of them received. */
  lemma SecondFlight() returns (c: Chan)
    ensures Reachable(c) && InFlight(c, 65536, FLIGHT) && NoMarks(c.snd.b)
    ensures c.rcv.next == 65536 && c.rcv.above == {} && HOLE in c.acks
  {
    c := AllAcked();
    hide Reachable, InFlight, NoMarks, Ready, Wnd;
    c := MoreTrips(c, FIRST + FLIGHT, 32767);
    ReadyOpen(c.snd.c, 65536);
    c := Burst(c, 65536, FLIGHT);
  }

  /**
   The copy of the ack arrives, 32767 behind lastAcked. It answers packet 16384 and marks packet
   81920, the last of the flight, which shares its field. The receiver does not have packet 81920,
   and no timeout at any time sends it again.
   */
  lemma WrongMarkRun() returns (c: Chan, d: Chan)
    ensures Reachable(c) && Reachable(d) && Enabled(c, DeliverAck(HOLE, 0, 0)) && d == Apply(c, DeliverAck(HOLE, 0, 0))
    ensures c.snd.b.mid - c.snd.b.lo == 16385 && !SoundEvent(c, DeliverAck(HOLE, 0, 0))
    ensures 81920 in d.snd.b.slots && d.snd.b.slots[81920].ackRcvd && !Received(d.rcv, 81920) && !MarksSound(d)
    ensures forall later :: 81920 !in Resent(d.snd.b, later)
  {
    c := SecondFlight();
    d := Apply(c, DeliverAck(HOLE, 0, 0));
    hide Reachable;
    OneStep(c, DeliverAck(HOLE, 0, 0));
    assert SlotOf(c.snd.b, HOLE.o) == 81920;
  }
}
