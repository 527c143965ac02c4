/**
 The sending half of a channel on true sequence numbers: what NewChannelHandler does to its
 send buffer, timers, congestion window and recovery state, one function per handler.
 */
module SenderModel {
  import opened SeqNum
  import opened Packets

  /** One slot of the send buffer that holds a packet. */
  datatype Slot = Slot(pkt: Packet, time: int, rto: int, retry: nat, sent: bool, ackRcvd: bool)

  datatype Status = SlowStart | CongAvoidance | FastRecovery | MultiRecovery

  /** Smoothed round-trip state, in microseconds. */
  datatype Rtt = Rtt(srtt: real, rttvar: real, rto: real)

  /** One transmission handed to the interface. */
  datatype Tx = Tx(n: int, pkt: Packet)

  /** An acknowledgement in the receive queue, with its arrival time. */
  datatype Ack = Ack(a: int, o: int, window: int, sentTS: int, recvTS: int)

  /**
   The send buffer. `lo` is lastAcked, `mid` maxSent, `hi` maxPacket; `slots` maps the number
   of each packet still held to its slot; `tx` logs every transmission ever made.
   */
  datatype Buf = Buf(lo: int, mid: int, hi: int, slots: map<int, Slot>, tx: seq<Tx>)

  /** updateCwnd keeps the congestion window between one packet and half the number space. */
  type CwndRange = x: real | 1.0 <= x <= 32768.0 witness 1.0

  /** Window, congestion and recovery variables. `recIdx` is recoverIndex. */
  datatype Cong = Cong(window: int, cwnd: CwndRange, dup: int, ssthresh: int,
                       recover: int, recIdx: int, status: Status, rtt: Rtt)

  datatype Snd = Snd(b: Buf, c: Cong, started: bool, dead: bool)

  type Clock = int -> int

  /** State after construction: all counters hold 65535, the field of -1. */
  function InitSnd(): Snd {
    Snd(Buf(-1, -1, -1, map[], []),
        Cong(1, 1.0, 0, 16384, 0, -1, SlowStart, Rtt(0.0, 0.0, 1000000.0)),
        false, false)
  }

  // ---------------------------------------------------------------------------------------
  // Window arithmetic
  // ---------------------------------------------------------------------------------------

  function Clamp(c: real): CwndRange {
    if c > 32768.0 then 32768.0 else if c < 1.0 then 1.0 else c
  }

  /** (appInt16)(cwnd + 0.5) */
  function Round(c: real): int {
    (c + 0.5).Floor
  }

  /** The window cansend compares the flight with. */
  function Wnd(c: Cong): int {
    if c.window < Round(c.cwnd) then c.window else Round(c.cwnd)
  }

  function Rto(c: Cong): int {
    c.rtt.rto.Floor
  }

  function Max(x: int, y: int): int {
    if x > y then x else y
  }

  function MaxR(x: real, y: real): real {
    if x > y then x else y
  }

  function AbsR(x: real): real {
    if x < 0.0 then -x else x
  }

  /** updateRtt of NewChannelHandler, with the filters in exact arithmetic. */
  function UpdateRtt(r: Rtt, sentTS: int, recvTS: int): Rtt {
    if sentTS == 0 then r
    else
      var rtt := (recvTS - sentTS) as real;
      if r.srtt == 0.0 then
        Rtt(rtt, rtt / 2.0, rtt + MaxR(200000.0, 4.0 * (rtt / 2.0)))
      else
        var rttvar := 0.75 * r.rttvar + 0.25 * AbsR(r.srtt - rtt);
        var srtt := 0.875 * r.srtt + 0.125 * rtt;
        Rtt(srtt, rttvar, srtt + MaxR(200000.0, 4.0 * rttvar))
  }

  // ---------------------------------------------------------------------------------------
  // Sending
  // ---------------------------------------------------------------------------------------

  const NO_PACKET := Packet(0, 0, [], false, false, false)

  /** The transmission of number `n`. */
  function TxOf(b: Buf, n: int): Tx {
    Tx(n, if n in b.slots then b.slots[n].pkt else NO_PACKET)
  }

  /** A slot right after sendSeq put it on the wire. */
  function Stamped(x: Slot, time: int, rto: int): Slot {
    x.(time := time, rto := rto, sent := true)
  }

  /** sendSeq(n); an empty slot sends nothing. */
  function Transmit(b: Buf, n: int, rto: int, clock: Clock): Buf {
    if n !in b.slots then b
    else b.(slots := b.slots[n := Stamped(b.slots[n], clock(Wire(n)), rto)],
            tx := b.tx + [TxOf(b, n)])
  }

  /** How many packets sendNext(cnt) sends when the window is `wnd`. */
  function SendCount(b: Buf, wnd: int, cnt: int): nat {
    var room := wnd - (b.mid - b.lo);
    var unsent := b.hi - b.mid;
    if room <= 0 || unsent <= 0 || cnt <= 0 then 0
    else if room <= unsent && room <= cnt then room
    else if unsent <= cnt then unsent
    else cnt
  }

  /** The first `k` unsent packets go out. */
  function SendFirst(b: Buf, k: nat, rto: int, clock: Clock): Buf {
    b.(mid := b.mid + k,
       slots := map n | n in b.slots ::
         if b.mid < n <= b.mid + k then Stamped(b.slots[n], clock(Wire(n)), rto) else b.slots[n],
       tx := b.tx + seq(k, i requires 0 <= i < k => TxOf(b, b.mid + 1 + i)))
  }

  /** sendNext(cnt) */
  function SendNext(b: Buf, wnd: int, cnt: int, rto: int, clock: Clock): Buf {
    SendFirst(b, SendCount(b, wnd, cnt), rto, clock)
  }

  datatype SubmitCode = Accepted | ChannelDead | NoSpace

  /** What sendPacket answers on a channel that is not closed. */
  function SubmitCodeOf(s: Snd): SubmitCode {
    if s.dead then ChannelDead
    else if s.b.lo != s.b.hi && s.b.hi - s.b.lo >= HALF then NoSpace
    else Accepted
  }

  /** The packet as it goes into the buffer: the first of a busy period starts the channel. */
  function Stored(b: Buf, pkt: Packet): Packet {
    if b.lo == b.hi then pkt.(chs := true) else pkt
  }

  /** addBuffer: the new packet takes the next number. */
  function AddBuffer(b: Buf, pkt: Packet): Buf {
    b.(hi := b.hi + 1, slots := b.slots[b.hi + 1 := Slot(Stored(b, pkt), 0, 0, 0, false, false)])
  }

  /** sendPacket(pkt) */
  function Submit(s: Snd, pkt: Packet, clock: Clock): Snd {
    if SubmitCodeOf(s) != Accepted then s
    else s.(b := SendNext(AddBuffer(s.b, pkt), Wnd(s.c), 1, Rto(s.c), clock),
            started := s.started || s.b.lo == s.b.hi)
  }

  // ---------------------------------------------------------------------------------------
  // Acknowledgements
  // ---------------------------------------------------------------------------------------

  predicate InRecovery(c: Cong) {
    c.status == FastRecovery || c.status == MultiRecovery
  }

  predicate Fresh(b: Buf, k: Ack) {
    0 < k.a - b.lo <= HALF
  }

  predicate Partial(s: Snd, k: Ack) {
    InRecovery(s.c) && k.a - s.b.lo < s.c.recover
  }

  /** The selective part: the packet that caused the ack is freed when the ack does not name it. */
  function FreeOrig(b: Buf, k: Ack): Buf {
    if k.o != k.a && k.o in b.slots then b.(slots := b.slots - {k.o}) else b
  }

  /** The cumulative part: lastAcked moves to `a` and every slot up to it is freed. */
  function Advance(b: Buf, a: int): Buf {
    b.(lo := a, slots := map n | n in b.slots && !(b.lo < n <= a) :: b.slots[n])
  }

  /** The buffer right after a fresh ack has freed what it names. */
  function Cleared(b: Buf, k: Ack): Buf {
    Advance(FreeOrig(b, k), k.a)
  }

  /** restartTimer for the slots of (lo, lo + cnt] that still hold a packet */
  function RestartTimers(b: Buf, cnt: int, now: int): Buf {
    b.(slots := map n | n in b.slots ::
         if b.lo < n <= b.lo + cnt then b.slots[n].(time := now) else b.slots[n])
  }

  function SetWindow(c: Cong, k: Ack): Cong {
    if k.window != 0 then c.(window := k.window) else c
  }

  /** Congestion variables once a fresh ack for `cnt` packets has been counted. */
  function Counted(c: Cong, k: Ack, cnt: int, partial: bool): Cong {
    var c1 := if partial then c.(recover := c.recover - cnt) else c.(status := SlowStart, recover := 0);
    c1.(dup := 0, rtt := UpdateRtt(c.rtt, k.sentTS, k.recvTS))
  }

  /** Slow start below the threshold, congestion avoidance above it (section 3.1 of RFC 2581). */
  function Grow(c: Cong): Cong {
    if c.cwnd <= c.ssthresh as real then c.(cwnd := Clamp(c.cwnd + 1.0), status := SlowStart)
    else c.(cwnd := Clamp(c.cwnd + 1.0 / c.cwnd), status := CongAvoidance)
  }

  function Inflate(c: Cong): Cong {
    c.(cwnd := Clamp(c.cwnd + 1.0))
  }

  function Deflate(c: Cong, cnt: int): Cong {
    c.(cwnd := Clamp(c.cwnd - cnt as real + 1.0))
  }

  /** Third duplicate: half the flight becomes the threshold (section 3.2 of RFC 2581). */
  function EnterFastRecovery(c: Cong, lo: int, mid: int): Cong {
    c.(recover := mid - lo, recIdx := mid, ssthresh := Max((mid - lo) / 2, 2),
       cwnd := Clamp(Max((mid - lo) / 2, 2) as real + 3.0), status := FastRecovery)
  }

  /** The buffer and the counters once a fresh ack has been taken into account. */
  function Acked(s: Snd, k: Ack, partial: bool): Snd {
    s.(b := Cleared(s.b, k), c := Counted(SetWindow(s.c, k), k, k.a - s.b.lo, partial))
  }

  function AfterNewAck(s: Snd, cnt: int, clock: Clock): Snd {
    var c1 := Grow(s.c);
    s.(b := SendNext(s.b, Wnd(c1), (2 * cnt) % CNT, Rto(c1), clock), c := c1)
  }

  /** The first partial ack: the head is sent again and the channel stays in recovery. */
  function FirstPartialAck(s: Snd, now: int, clock: Clock): Snd {
    s.(b := Transmit(RestartTimers(s.b, s.c.recover, now), s.b.lo + 1, Rto(s.c), clock),
       c := s.c.(status := MultiRecovery, dup := 3))
  }

  /** A later partial ack (section 3 of RFC 2582). */
  function NextPartialAck(s: Snd, cnt: int, now: int, clock: Clock): Snd {
    s.(b := SendNext(RestartTimers(s.b, s.c.recover, now), Wnd(s.c), 1, Rto(s.c), clock),
       c := Deflate(s.c, cnt))
  }

  function CountDup(c: Cong): Cong {
    c.(dup := (c.dup + 1) % CNT)
  }

  function DupAck(s: Snd, clock: Clock): Snd {
    var c1 := CountDup(s.c);
    if c1.status != MultiRecovery && c1.dup == 3 then
      s.(b := Transmit(s.b, s.b.lo + 1, Rto(c1), clock),
         c := if c1.status == FastRecovery then c1 else EnterFastRecovery(c1, s.b.lo, s.b.mid))
    else
      var c2 := if InRecovery(c1) then Inflate(c1) else c1;
      s.(b := SendNext(s.b, Wnd(c2), 1, Rto(c2), clock), c := c2)
  }

  /**
   What an ack may be relied on to satisfy when it is processed; ChannelSystem proves it of
   every ack a receiver ever sends.
   */
  ghost predicate AckUsable(b: Buf, k: Ack) {
    && -HALF < k.a - b.lo
    && k.a <= b.mid && k.o <= b.mid
    && (b.lo <= k.a ==> b.lo - HALF < k.o)
    && k.o != k.a + 1
    && (b.lo <= k.a < b.mid ==> k.a + 1 in b.slots)
    && (k.window == 0 || k.window == HALF)
    && 0 <= k.sentTS <= k.recvTS
  }

  /** ackRecv(pkt) of NewChannelHandler */
  function AckRecv(s: Snd, k: Ack, now: int, clock: Clock): Snd {
    if !s.started then s.(c := SetWindow(s.c, k))
    else if Fresh(s.b, k) then
      if Partial(s, k) then
        if s.c.status == FastRecovery then FirstPartialAck(Acked(s, k, true), now, clock)
        else NextPartialAck(Acked(s, k, true), k.a - s.b.lo, now, clock)
      else AfterNewAck(Acked(s, k, false), k.a - s.b.lo, clock)
    else if k.a == s.b.lo then
      var s1 := s.(b := FreeOrig(s.b, k), c := SetWindow(s.c, k));
      if s.b.lo == s.b.mid then s1 else DupAck(s1, clock)
    else s.(c := SetWindow(s.c, k))
  }

  /** The number above lastAcked that shares the field of `o`: the one slot `origAckNo` stands for. */
  function SlotOf(b: Buf, o: int): (n: int)
    ensures b.lo < n <= b.lo + CNT && Wire(n) == Wire(o)
    ensures b.lo < o <= b.lo + CNT ==> n == o
  {
    b.lo + 1 + (o - b.lo - 1) % CNT
  }

  /** The mark a packet gets whose ack has arrived. */
  function Mark(b: Buf, o: int): Buf {
    if o in b.slots && b.slots[o].sent then b.(slots := b.slots[o := b.slots[o].(ackRcvd := true)]) else b
  }

  // ---------------------------------------------------------------------------------------
  // Timeouts and channel death
  // ---------------------------------------------------------------------------------------

  predicate Expired(x: Slot, now: int) {
    x.time != 0 && x.time + x.rto <= now
  }

  /** Packets that a timeout sweep at `now` puts on the wire again. */
  ghost function Resent(b: Buf, now: int): set<int> {
    set n | n in b.slots && Expired(b.slots[n], now) && !b.slots[n].ackRcvd
  }

  function Swept(x: Slot, now: int, time: int, rto: int): Slot {
    if !Expired(x, now) then x
    else if x.ackRcvd then x.(time := now)
    else Stamped(x, time, rto).(retry := (x.retry + 1) % 16)
  }

  /** The buffer after a sweep that does not kill the channel and resends in order `order`. */
  function Sweep(b: Buf, now: int, rto: int, clock: Clock, order: seq<int>): Buf {
    b.(slots := map n | n in b.slots :: Swept(b.slots[n], now, clock(Wire(n)), rto),
       tx := b.tx + seq(|order|, i requires 0 <= i < |order| => TxOf(b, order[i])))
  }

  function Collapse(c: Cong): Cong {
    c.(ssthresh := Max((c.cwnd / 2.0).Floor, 2), cwnd := 1.0)
  }

  function Timeout(s: Snd, now: int, clock: Clock, order: seq<int>): Snd {
    s.(b := Sweep(s.b, now, Rto(s.c), clock, order), c := if order == [] then s.c else Collapse(s.c))
  }

  ghost predicate Enumerates(order: seq<int>, xs: set<int>) {
    && (forall i :: 0 <= i < |order| ==> order[i] in xs)
    && (forall x :: x in xs ==> x in order)
    && (forall i, j :: 0 <= i < j < |order| ==> order[i] != order[j])
  }

  /** The packet whose third timeout declares the channel dead: field 0, retried more than twice. */
  predicate Fatal(b: Buf, n: int) {
    n in b.slots && Wire(n) == 0 && b.slots[n].retry > 2
  }

  /** getUndeliveredPackets from number `n` up: packets in order, start markers dropped. */
  function UndeliveredFrom(b: Buf, n: int): seq<Packet>
    decreases b.hi - n
  {
    if n > b.hi then []
    else (if n in b.slots && !b.slots[n].pkt.csn then [b.slots[n].pkt] else []) + UndeliveredFrom(b, n + 1)
  }

  function Undelivered(b: Buf): seq<Packet> {
    UndeliveredFrom(b, b.lo + 1)
  }

  function Kill(s: Snd): Snd {
    s.(dead := true, b := s.b.(slots := map[]))
  }

  // ---------------------------------------------------------------------------------------
  // The sender's own invariant
  // ---------------------------------------------------------------------------------------

  ghost predicate SlotInv(b: Buf, n: int)
    requires n in b.slots
  {
    && b.lo < n <= b.hi
    && (n <= b.mid ==> b.slots[n].sent && b.slots[n].time > 0 && b.slots[n].rto > 0)
    && (n > b.mid ==> b.slots[n] == Slot(b.slots[n].pkt, 0, 0, 0, false, false))
  }

  ghost predicate UnsentPresent(b: Buf) {
    forall n :: b.mid < n <= b.hi ==> n in b.slots
  }

  /** Counters are ordered, at most half the number space is buffered, and unsent packets are. */
  ghost predicate BufInv(b: Buf) {
    match b
    case Buf(lo, mid, hi, slots, _) =>
      && -1 <= lo <= mid <= hi <= lo + HALF
      && (forall n :: n in slots ==> SlotInv(b, n))
      && UnsentPresent(b)
  }

  ghost predicate Head(b: Buf) {
    b.lo < b.mid ==> b.lo + 1 in b.slots
  }

  ghost predicate NoStall(b: Buf) {
    b.lo == b.mid ==> b.hi == b.mid
  }

  ghost predicate CongInv(c: Cong, lo: int, mid: int) {
    match c
    case Cong(window, _, dup, ssthresh, recover, recIdx, _, Rtt(srtt, rttvar, rto)) =>
      && 2 <= ssthresh <= 16384
      && (window == 1 || window == HALF)
      && 0 <= dup < CNT
      && (if InRecovery(c) then 0 < recover == recIdx - lo && recIdx <= mid else recover == 0)
      && srtt >= 0.0 && rttvar >= 0.0 && rto >= 200000.0
  }

  /** A buffer and its congestion variables between two handlers. */
  ghost predicate Settled(b: Buf, c: Cong) {
    BufInv(b) && Head(b) && NoStall(b) && CongInv(c, b.lo, b.mid)
  }

  ghost predicate SndInv(s: Snd) {
    match s
    case Snd(b, c, started, dead) => !dead && Settled(b, c) && (b.hi >= 0 ==> started)
  }
}
