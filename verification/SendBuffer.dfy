/** SendingBuffer: 65536 slots addressed by 16-bit numbers and an ordered index of running timers. */
module SendBuffer {
  import opened SeqNum
  import opened Packets
  import opened SenderModel

  /** struct sbuff; `seqNo` is the field of the packet it points to. */
  datatype SBuff = SBuff(time: int, pkt: Option<Packet>, seqNo: u16, rto: int, retry: nat, sent: bool, ackRcvd: bool)

  /** A slot after reset(). */
  const EMPTY := SBuff(0, None, 0, 0, 0, false, false)

  function Cell(x: Slot, n: int): SBuff {
    SBuff(x.time, Some(x.pkt), Wire(n), x.rto, x.retry, x.sent, x.ackRcvd)
  }

  /** What std::set orders a timer by, taken when it is put in. */
  datatype TimerKey = TimerKey(deadline: int, seqNo: u16)

  function KeyOf(x: Slot, n: int): TimerKey {
    TimerKey(x.time + x.rto, Wire(n))
  }

  /** classcomp, or equal */
  predicate Before(k: TimerKey, l: TimerKey) {
    k.deadline < l.deadline || (k.deadline == l.deadline && k.seqNo <= l.seqNo)
  }

  // ---------------------------------------------------------------------------------------
  // Slots
  // ---------------------------------------------------------------------------------------

  /** Over one turn of the number space above `base`, a cell is full exactly when its number is held. */
  ghost predicate Mirrors(cells: seq<SBuff>, slots: map<int, Slot>, base: int) {
    && |cells| == CNT
    && (forall n :: n in slots ==> base < n <= base + CNT)
    && (forall n :: base < n <= base + CNT ==> cells[Wire(n)] == if n in slots then Cell(slots[n], n) else EMPTY)
  }

  lemma MirrorsSet(cells: seq<SBuff>, slots: map<int, Slot>, base: int, n: int, x: Slot)
    requires Mirrors(cells, slots, base) && base < n <= base + CNT
    ensures Mirrors(cells[Wire(n) := Cell(x, n)], slots[n := x], base)
  {
    forall m | base < m <= base + CNT && Wire(m) == Wire(n) ensures m == n {
      WireInjective(m, n);
    }
    hide Wire;
  }

  lemma MirrorsClear(cells: seq<SBuff>, slots: map<int, Slot>, base: int, n: int)
    requires Mirrors(cells, slots, base) && base < n <= base + CNT
    ensures Mirrors(cells[Wire(n) := EMPTY], slots - {n}, base)
  {
    forall m | base < m <= base + CNT && Wire(m) == Wire(n) ensures m == n {
      WireInjective(m, n);
    }
    hide Wire;
  }

  /** Once the numbers up to `base'` are free, the window may start there. */
  lemma MirrorsSlide(cells: seq<SBuff>, slots: map<int, Slot>, base: int, base': int)
    requires Mirrors(cells, slots, base) && base <= base' <= base + CNT
    requires forall n :: n in slots ==> n > base'
    ensures Mirrors(cells, slots, base')
  {
    forall n | base' < n <= base' + CNT ensures cells[Wire(n)] == if n in slots then Cell(slots[n], n) else EMPTY {
      WirePeriod(n);
      hide Wire;
    }
  }

  // ---------------------------------------------------------------------------------------
  // Timers
  // ---------------------------------------------------------------------------------------

  ghost predicate Owned(k: TimerKey, slots: map<int, Slot>, armed: set<int>) {
    exists n :: n in armed && n in slots && k == KeyOf(slots[n], n)
  }

  /** The index holds one key for each armed slot, and it is the key the slot has now. */
  ghost predicate Indexed(timers: set<TimerKey>, slots: map<int, Slot>, armed: set<int>) {
    && (forall n :: n in armed ==> n in slots && KeyOf(slots[n], n) in timers)
    && (forall k :: k in timers ==> Owned(k, slots, armed))
  }

  lemma IndexedAdd(timers: set<TimerKey>, slots: map<int, Slot>, armed: set<int>, n: int, x: Slot)
    requires Indexed(timers, slots, armed) && n !in armed
    ensures Indexed(timers + {KeyOf(x, n)}, slots[n := x], armed + {n})
  {
    var slots' := slots[n := x];
    forall k | k in timers + {KeyOf(x, n)} ensures Owned(k, slots', armed + {n}) {
      if k == KeyOf(x, n) {
        assert n in armed + {n} && n in slots';
      } else {
        var m :| m in armed && m in slots && k == KeyOf(slots[m], m);
        assert m in armed + {n} && m in slots' && slots'[m] == slots[m];
      }
    }
  }

  lemma IndexedRemove(timers: set<TimerKey>, slots: map<int, Slot>, armed: set<int>, n: int, x: Slot, base: int)
    requires Indexed(timers, slots, armed) && n in armed
    requires forall m :: m in slots ==> base < m <= base + CNT
    ensures Indexed(timers - {KeyOf(slots[n], n)}, slots[n := x], armed - {n})
  {
    var slots' := slots[n := x];
    forall m | m in armed - {n} ensures m in slots' && KeyOf(slots'[m], m) in timers - {KeyOf(slots[n], n)} {
      if Wire(m) == Wire(n) {
        WireInjective(m, n);
      }
    }
    forall k | k in timers - {KeyOf(slots[n], n)} ensures Owned(k, slots', armed - {n}) {
      var m :| m in armed && m in slots && k == KeyOf(slots[m], m);
      assert m in armed - {n} && m in slots' && slots'[m] == slots[m];
    }
  }

  lemma IndexedRestart(timers: set<TimerKey>, slots: map<int, Slot>, armed: set<int>, n: int, x: Slot, base: int)
    requires Indexed(timers, slots, armed) && n in armed
    requires forall m :: m in slots ==> base < m <= base + CNT
    ensures Indexed(timers - {KeyOf(slots[n], n)} + {KeyOf(x, n)}, slots[n := x], armed)
  {
    IndexedRemove(timers, slots, armed, n, x, base);
    IndexedAdd(timers - {KeyOf(slots[n], n)}, slots[n := x], armed - {n}, n, x);
    hide Indexed;
    assert slots[n := x][n := x] == slots[n := x] && armed - {n} + {n} == armed;
  }

  /** A slot may change in any way that leaves its key alone, or freely while it has no timer. */
  lemma IndexedKeep(timers: set<TimerKey>, slots: map<int, Slot>, armed: set<int>, n: int, x: Slot)
    requires Indexed(timers, slots, armed) && n in slots
    requires n in armed ==> KeyOf(x, n) == KeyOf(slots[n], n)
    ensures Indexed(timers, slots[n := x], armed)
  {
    hide KeyOf;
    var slots' := slots[n := x];
    forall k | k in timers ensures Owned(k, slots', armed) {
      var m :| m in armed && m in slots && k == KeyOf(slots[m], m);
      assert m in armed && m in slots' && k == KeyOf(slots'[m], m);
    }
  }

  /** A slot that was free comes without a timer. */
  lemma IndexedFresh(timers: set<TimerKey>, slots: map<int, Slot>, armed: set<int>, n: int, x: Slot)
    requires Indexed(timers, slots, armed) && n !in slots
    ensures Indexed(timers, slots[n := x], armed)
  {
    hide KeyOf;
    var slots' := slots[n := x];
    forall k | k in timers ensures Owned(k, slots', armed) {
      var m :| m in armed && m in slots && k == KeyOf(slots[m], m);
      assert m in armed && m in slots' && k == KeyOf(slots'[m], m);
    }
  }

  lemma IndexedDrop(timers: set<TimerKey>, slots: map<int, Slot>, armed: set<int>, n: int)
    requires Indexed(timers, slots, armed) && n !in armed
    ensures Indexed(timers, slots - {n}, armed)
  {
    var slots' := slots - {n};
    forall k | k in timers ensures Owned(k, slots', armed) {
      var m :| m in armed && m in slots && k == KeyOf(slots[m], m);
      assert m in armed && m in slots' && k == KeyOf(slots'[m], m);
    }
  }

  lemma FirstExists(timers: set<TimerKey>)
    requires timers != {}
    ensures exists k :: k in timers && forall l :: l in timers ==> Before(k, l)
  {
    var k :| k in timers;
    if timers != {k} {
      var rest := timers - {k};
      FirstExists(rest);
      var f :| f in rest && forall l :: l in rest ==> Before(f, l);
      assert forall l :: l in timers ==> l == k || l in rest;
      var g := if Before(k, f) then k else f;
      assert g in timers && forall l :: l in timers ==> Before(g, l);
    } else {
      assert forall l :: l in timers ==> Before(k, l);
    }
  }

  // ---------------------------------------------------------------------------------------
  // The buffer
  // ---------------------------------------------------------------------------------------

  /** A packet as it left, under its 16-bit number. */
  datatype Sent = Sent(seqNo: u16, pkt: Packet)

  ghost predicate Logged(log: seq<Sent>, tx: seq<Tx>) {
    |log| == |tx| && (forall i :: 0 <= i < |log| ==> log[i] == Sent(Wire(tx[i].n), tx[i].pkt))
  }

  /** One more transmission is one more packet at the interface. */
  lemma LoggedMore(log: seq<Sent>, tx: seq<Tx>, log': seq<Sent>, tx': seq<Tx>, t: Tx)
    requires Logged(log, tx) && Logged(log', tx') && tx' == tx + [t]
    ensures log' == log + [Sent(Wire(t.n), t.pkt)]
  {
    assert tx'[|tx|] == t;
    forall i | 0 <= i < |log'| ensures log'[i] == (log + [Sent(Wire(t.n), t.pkt)])[i] {
      assert i < |tx| ==> tx'[i] == tx[i];
    }
  }

  function Put(b: Buf, n: int, x: Slot): Buf {
    b.(slots := b.slots[n := x])
  }

  function Without(b: Buf, n: int): Buf {
    b.(slots := b.slots - {n})
  }

  class SendingBuffer {
    var lastAcked: u16
    var maxPacket: u16
    var maxSent: u16
    var started: bool
    const buf: array<SBuff>
    var timerList: set<TimerKey>
    /** Everything handed to the interface so far. */
    var wire: seq<Sent>

    /** The buffer on true numbers; the start of its window; the slots whose timer runs. */
    ghost var b: Buf
    ghost var base: int
    ghost var armed: set<int>

    /** The fields, the cells and the timer index stand for `b`; holds in the middle of a handler too. */
    ghost predicate Linked()
      reads this, buf
    {
      && lastAcked == Wire(b.lo) && maxSent == Wire(b.mid) && maxPacket == Wire(b.hi)
      && Mirrors(buf[..], b.slots, base)
      && Indexed(timerList, b.slots, armed)
      && Logged(wire, b.tx)
    }

    /** Between two handlers a timer runs for each packet in flight and for no other. */
    ghost predicate Valid()
      reads this, buf
    {
      && Linked() && BufInv(b) && base == b.lo
      && (forall n :: n in armed <==> n in b.slots && n <= b.mid)
    }

    constructor ()
      ensures Valid() && fresh(buf)
      ensures b == InitSnd().b && !started && wire == []
    {
      lastAcked, maxPacket, maxSent, started := 65535, 65535, 65535, false;
      buf := new SBuff[CNT](_ => EMPTY);
      timerList, wire := {}, [];
      b, base, armed := InitSnd().b, -1, {};
    }

    /** started = true */
    method Start()
      requires Valid()
      modifies this`started
      ensures Valid() && started
    {
      hide Indexed, Mirrors, Logged, BufInv;
      started := true;
    }

    /** addBuffer: the assertion of the source, that the slot is empty, is proved. */
    method Add(pkt: Packet)
      requires Linked() && base == b.lo && b.hi + 1 !in b.slots && b.lo <= b.hi < b.lo + CNT
      modifies this`maxPacket, this`b, buf
      ensures Linked()
      ensures b == old(b).(hi := old(b).hi + 1,
                           slots := old(b).slots[old(b).hi + 1 := Slot(pkt, 0, 0, 0, false, false)])
    {
      hide Indexed, Mirrors, Logged;
      ghost var n, x := b.hi + 1, Slot(pkt, 0, 0, 0, false, false);
      WireSucc(b.hi);
      Reads(n);
      MirrorsSet(buf[..], b.slots, base, n, x);
      IndexedFresh(timerList, b.slots, armed, n, x);
      maxPacket := (maxPacket + 1) % CNT;
      assert buf[maxPacket].pkt == None && buf[maxPacket].time == 0;
      buf[maxPacket] := buf[maxPacket].(pkt := Some(pkt), seqNo := maxPacket);
      assert buf[..] == old(buf[..])[maxPacket := Cell(x, n)];
      b := b.(hi := n, slots := b.slots[n := x]);
    }

    method StartTimer(seqNo: u16, time: int, rto: int, ghost n: int)
      requires Linked() && seqNo == Wire(n) && n in b.slots && n !in armed
      modifies this`timerList, this`b, this`armed, buf
      ensures Linked() && armed == old(armed) + {n}
      ensures b == Put(old(b), n, old(b).slots[n].(time := time, rto := rto))
    {
      hide Indexed, Mirrors, Logged;
      Reads(n);
      ghost var x := b.slots[n].(time := time, rto := rto);
      MirrorsSet(buf[..], b.slots, base, n, x);
      IndexedAdd(timerList, b.slots, armed, n, x);
      buf[seqNo] := buf[seqNo].(time := time, rto := rto);
      assert buf[..] == old(buf[..])[seqNo := Cell(x, n)];
      timerList := timerList + {TimerKey(buf[seqNo].time + buf[seqNo].rto, buf[seqNo].seqNo)};
      b, armed := b.(slots := b.slots[n := x]), armed + {n};
    }

    /** The assertion of the source, that the timer runs, is the precondition. */
    method StopTimer(seqNo: u16, ghost n: int)
      requires Linked() && seqNo == Wire(n) && n in armed
      modifies this`timerList, this`b, this`armed, buf
      ensures Linked() && armed == old(armed) - {n}
      ensures b == Put(old(b), n, old(b).slots[n].(time := 0, rto := 0))
    {
      hide Indexed, Mirrors, Logged;
      Armed(n);
      ghost var x := b.slots[n].(time := 0, rto := 0);
      MirrorsSet(buf[..], b.slots, base, n, x);
      IndexedRemove(timerList, b.slots, armed, n, x, base);
      timerList := timerList - {TimerKey(buf[seqNo].time + buf[seqNo].rto, buf[seqNo].seqNo)};
      buf[seqNo] := buf[seqNo].(time := 0, rto := 0);
      assert buf[..] == old(buf[..])[seqNo := Cell(x, n)];
      b, armed := b.(slots := b.slots[n := x]), armed - {n};
    }

    method RestartTimer(seqNo: u16, time: int, ghost n: int)
      requires Linked() && seqNo == Wire(n) && n in armed
      modifies this`timerList, this`b, buf
      ensures Linked()
      ensures b == Put(old(b), n, old(b).slots[n].(time := time))
    {
      hide Indexed, Mirrors, Logged;
      Armed(n);
      ghost var x := b.slots[n].(time := time);
      MirrorsSet(buf[..], b.slots, base, n, x);
      IndexedRestart(timerList, b.slots, armed, n, x, base);
      var cell := buf[seqNo];
      timerList := timerList - {TimerKey(cell.time + cell.rto, cell.seqNo)};
      buf[seqNo] := cell.(time := time);
      assert buf[..] == old(buf[..])[seqNo := Cell(x, n)];
      timerList := timerList + {TimerKey(time + cell.rto, cell.seqNo)};
      b := b.(slots := b.slots[n := x]);
    }

    lemma Armed(n: int)
      requires Linked() && n in armed
      ensures buf.Length == CNT && n in b.slots && base < n <= base + CNT && buf[Wire(n)] == Cell(b.slots[n], n)
      ensures forall m :: m in b.slots ==> base < m <= base + CNT
    {
    }

    /** freePacket followed by reset() of a slot whose timer has been stopped */
    method Free(seqNo: u16, ghost n: int)
      requires Linked() && seqNo == Wire(n) && n in b.slots && n !in armed
      modifies this`b, buf
      ensures Linked()
      ensures b == Without(old(b), n)
    {
      hide Indexed, Mirrors, Logged;
      Reads(n);
      MirrorsClear(buf[..], b.slots, base, n);
      IndexedDrop(timerList, b.slots, armed, n);
      buf[seqNo] := EMPTY;
      assert buf[..] == old(buf[..])[seqNo := EMPTY];
      b := b.(slots := b.slots - {n});
    }

    /** Rewriting the flags of a slot leaves the timer index in order. */
    method SetFlags(seqNo: u16, sent: bool, ackRcvd: bool, retry: nat, ghost n: int)
      requires Linked() && seqNo == Wire(n) && n in b.slots
      modifies this`b, buf
      ensures Linked()
      ensures b == Put(old(b), n, old(b).slots[n].(sent := sent, ackRcvd := ackRcvd, retry := retry))
    {
      hide Indexed, Mirrors, Logged;
      Reads(n);
      ghost var x := b.slots[n].(sent := sent, ackRcvd := ackRcvd, retry := retry);
      MirrorsSet(buf[..], b.slots, base, n, x);
      IndexedKeep(timerList, b.slots, armed, n, x);
      buf[seqNo] := buf[seqNo].(sent := sent, ackRcvd := ackRcvd, retry := retry);
      assert buf[..] == old(buf[..])[seqNo := Cell(x, n)];
      b := b.(slots := b.slots[n := x]);
    }

    /** A packet goes to the interface. */
    method Log(x: Sent, ghost t: Tx)
      requires Linked() && x == Sent(Wire(t.n), t.pkt)
      modifies this`wire, this`b
      ensures Linked() && wire == old(wire) + [x]
      ensures b == old(b).(tx := old(b).tx + [t])
    {
      hide Mirrors, Indexed;
      wire := wire + [x];
      b := b.(tx := b.tx + [t]);
    }

    /** maxSent += 1 */
    method Move(ghost n: int)
      requires Linked() && n == b.mid + 1
      modifies this`maxSent, this`b
      ensures Linked() && b == old(b).(mid := n)
    {
      WireSucc(b.mid);
      hide Mirrors, Indexed, Wire;
      maxSent := (maxSent + 1) % CNT;
      b := b.(mid := n);
    }

    /** What the slot under `n` and the three counters hold. */
    lemma Reads(n: int)
      requires Linked()
      ensures buf.Length == CNT && lastAcked == Wire(b.lo) && maxSent == Wire(b.mid) && maxPacket == Wire(b.hi)
      ensures base < n <= base + CNT ==> buf[Wire(n)] == if n in b.slots then Cell(b.slots[n], n) else EMPTY
      ensures forall m :: m in b.slots ==> base < m <= base + CNT
      ensures forall m :: m in armed ==> m in b.slots
    {
    }

    /** lastAcked = a; the window keeps its place until the slots behind have been freed */
    method SetLastAcked(seqNo: u16, ghost a: int)
      requires Linked() && seqNo == Wire(a)
      modifies this`lastAcked, this`b
      ensures Linked() && b == old(b).(lo := a)
    {
      hide Mirrors, Indexed;
      lastAcked := seqNo;
      b := b.(lo := a);
    }

    /** The window follows once nothing at or below lastAcked is held. */
    ghost method Slide()
      requires Linked() && base <= b.lo <= base + CNT && (forall n :: n in b.slots ==> n > b.lo)
      modifies this`base
      ensures Linked() && base == b.lo
    {
      MirrorsSlide(buf[..], b.slots, base, b.lo);
      base := b.lo;
    }

    /** timerList.begin(): a key no other comes before, and the slot it belongs to */
    method Begin() returns (k: TimerKey, ghost n: int)
      requires Linked() && timerList != {}
      ensures n in armed && n in b.slots && k == KeyOf(b.slots[n], n)
      ensures forall m :: m in armed ==> m in b.slots && k.deadline <= b.slots[m].time + b.slots[m].rto
    {
      hide Mirrors, Logged;
      FirstExists(timerList);
      k :| k in timerList && forall l :: l in timerList ==> Before(k, l);
      assert Owned(k, b.slots, armed);
      n :| n in armed && n in b.slots && k == KeyOf(b.slots[n], n);
      forall m | m in armed ensures m in b.slots && k.deadline <= b.slots[m].time + b.slots[m].rto {
        assert Before(k, KeyOf(b.slots[m], m));
      }
    }

    /** timerList.clear() */
    method ClearTimers()
      requires Linked()
      modifies this`timerList, this`armed
      ensures Linked() && timerList == {} && armed == {}
    {
      timerList, armed := {}, {};
    }

    lemma Keyed()
      requires Linked()
      ensures forall n :: n in armed ==> n in b.slots && KeyOf(b.slots[n], n) in timerList
    {
    }
  }
}
