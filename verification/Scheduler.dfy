/**
 NewChannelScheculer in fine steps: four queues, the semaphore that counts what is in them, and
 the thread that takes packets out. Putting a packet in a queue and posting the semaphore are
 separate steps of the producers; waiting, choosing a channel, taking a packet and handing it
 over are separate steps of the scheduling thread. Any number of producers may interleave.
 */
module SchedulerModel {
  import opened Packets

  /** SCHEDULER_PACKET_QUEUE_SIZE */
  const QUEUE_SIZE := 100

  /** Where the scheduling thread is: before wait(), behind it, with a channel chosen, with a packet in hand. */
  datatype Hand = Waiting | Token | Chosen(ch: nat) | Carrying(pkt: Packet, to: nat)

  /** `posts` counts packets queued whose notify() is still to come. */
  datatype Sched = Sched(control: Option<Packet>, undelivered: seq<Packet>, closing: seq<Packet>,
                         outgoing: seq<Packet>, sem: nat, posts: nat, hand: Hand)

  function InitSched(): Sched {
    Sched(None, [], [], [], 0, 0, Waiting)
  }

  /** FLAG_CTR: a control packet belongs to no flow. */
  predicate IsControl(p: Packet) {
    p.flowId == 0
  }

  // ---------------------------------------------------------------------------------------
  // Steps of producers
  // ---------------------------------------------------------------------------------------

  /** sendPacketTo waits while the queue of data packets is full. */
  predicate CanPut(s: Sched, p: Packet) {
    IsControl(p) || p.fin || |s.outgoing| < QUEUE_SIZE
  }

  /** The queueing half of sendPacketTo; a control packet takes the place of one that still waits. */
  function Put(s: Sched, p: Packet): Sched {
    if IsControl(p) then s.(control := Some(p), posts := s.posts + if s.control == None then 1 else 0)
    else if p.fin then s.(closing := s.closing + [p], posts := s.posts + 1)
    else s.(outgoing := s.outgoing + [p], posts := s.posts + 1)
  }

  /** One waitForNewPacket.notify() of a producer */
  function Post(s: Sched): Sched {
    if s.posts == 0 then s else s.(sem := s.sem + 1, posts := s.posts - 1)
  }

  /** The queueing half of notifyDeadChannel: the whole chain is appended. */
  function Migrate(s: Sched, ps: seq<Packet>): Sched {
    s.(undelivered := s.undelivered + ps, posts := s.posts + |ps|)
  }

  // ---------------------------------------------------------------------------------------
  // Steps of the scheduling thread
  // ---------------------------------------------------------------------------------------

  predicate CanWait(s: Sched) {
    s.hand == Waiting && s.sem > 0
  }

  function Wait(s: Sched): Sched
    requires CanWait(s)
  {
    s.(sem := s.sem - 1, hand := Token)
  }

  /** No channel has space: the token is given back. */
  function GiveBack(s: Sched): Sched {
    if s.hand == Token then s.(sem := s.sem + 1, hand := Waiting) else s
  }

  function Choose(s: Sched, ch: nat): Sched {
    if s.hand == Token then s.(hand := Chosen(ch)) else s
  }

  /** The order in which sendNextPacketUsingCh looks into the queues. */
  function First(s: Sched): Option<Packet> {
    if s.control.Some? then s.control
    else if s.undelivered != [] then Some(s.undelivered[0])
    else if s.closing != [] then Some(s.closing[0])
    else if s.outgoing != [] then Some(s.outgoing[0])
    else None
  }

  function WithoutFirst(s: Sched): Sched {
    if s.control.Some? then s.(control := None)
    else if s.undelivered != [] then s.(undelivered := s.undelivered[1..])
    else if s.closing != [] then s.(closing := s.closing[1..])
    else if s.outgoing != [] then s.(outgoing := s.outgoing[1..])
    else s
  }

  /** sendNextPacketUsingCh up to its assertion that there is a packet */
  predicate CanTake(s: Sched) {
    s.hand.Chosen? && First(s).Some?
  }

  function Take(s: Sched): Sched
    requires CanTake(s)
  {
    WithoutFirst(s).(hand := Carrying(First(s).value, s.hand.ch))
  }

  function Release(s: Sched): Sched {
    s.(hand := Waiting)
  }

  // ---------------------------------------------------------------------------------------
  // The count
  // ---------------------------------------------------------------------------------------

  function Queued(s: Sched): nat {
    (if s.control.Some? then 1 else 0) + |s.undelivered| + |s.closing| + |s.outgoing|
  }

  /** The token the thread holds between wait() and taking a packet. */
  function Held(h: Hand): nat {
    if h.Token? || h.Chosen? then 1 else 0
  }

  /** Packets queued are those counted, those about to be counted and the one the token stands for. */
  ghost predicate SchedInv(s: Sched) {
    && Queued(s) == s.sem + s.posts + Held(s.hand)
    && |s.outgoing| <= QUEUE_SIZE
    && (s.control.Some? ==> IsControl(s.control.value))
  }

  lemma ProducersKeep(s: Sched, p: Packet, ps: seq<Packet>)
    requires SchedInv(s)
    ensures CanPut(s, p) ==> SchedInv(Put(s, p))
    ensures SchedInv(Post(s)) && SchedInv(Migrate(s, ps))
  {
  }

  /**
   At any interleaving the thread finds a packet: what it waited for is still queued, for no
   one else takes packets out.
   */
  lemma ThreadKeeps(s: Sched, ch: nat)
    requires SchedInv(s)
    ensures CanWait(s) ==> SchedInv(Wait(s))
    ensures SchedInv(GiveBack(s)) && SchedInv(Choose(s, ch))
    ensures s.hand.Chosen? ==> CanTake(s)
    ensures CanTake(s) ==> SchedInv(Take(s))
    ensures s.hand.Carrying? ==> SchedInv(Release(s))
  {
  }

  /** All packets the scheduler holds, in hand or queued, in the order it will take them. */
  function Contents(s: Sched): seq<Packet> {
    (if s.hand.Carrying? then [s.hand.pkt] else [])
    + (if s.control.Some? then [s.control.value] else []) + s.undelivered + s.closing + s.outgoing
  }

  /** Which packet is taken, and that it leaves the front of its queue. */
  lemma TakesFirst(s: Sched)
    requires CanTake(s)
    ensures var t := Take(s);
      t.hand.Carrying? && t.hand.to == s.hand.ch && t.sem == s.sem && t.posts == s.posts
      && (if s.control.Some? then
            s.control == Some(t.hand.pkt) && t.control == None
            && t.undelivered == s.undelivered && t.closing == s.closing && t.outgoing == s.outgoing
          else if s.undelivered != [] then
            s.undelivered == [t.hand.pkt] + t.undelivered
            && t.control == None && t.closing == s.closing && t.outgoing == s.outgoing
          else if s.closing != [] then
            s.closing == [t.hand.pkt] + t.closing
            && t.control == None && t.undelivered == [] && t.outgoing == s.outgoing
          else
            s.outgoing == [t.hand.pkt] + t.outgoing && t.control == None && t.undelivered == [] && t.closing == [])
  {
  }

  /** Taking a packet changes its place and nothing else. */
  lemma TakeMoves(s: Sched)
    requires CanTake(s)
    ensures Contents(Take(s)) == Contents(s)
  {
    hide Take, First;
    TakesFirst(s);
    var t := Take(s);
    var p := [t.hand.pkt];
    if s.control.Some? {
      assert p + [] == [] + p;
    } else {
      assert [] + [] + s.undelivered == s.undelivered && p + [] + t.undelivered == p + t.undelivered;
      Pushed(p, t.undelivered, t.closing);
      Pushed(p, t.undelivered + t.closing, t.outgoing);
      Pushed(p, t.closing, t.outgoing);
    }
  }

  lemma Pushed(p: seq<Packet>, a: seq<Packet>, b: seq<Packet>)
    ensures (p + a) + b == p + (a + b)
    ensures a == [] ==> p + a == p && a + b == b
  {
  }

  /**
   Giving the token back undoes wait(), and notify() makes one queued packet countable. One round of
   the thread, from wait() to the handoff, brings the packet due first to the channel chosen, and
   takes it, its count and nothing else from the scheduler.
   */
  lemma ThreadRound(s: Sched, ch: nat)
    requires SchedInv(s) && CanWait(s)
    ensures GiveBack(Wait(s)) == s
    ensures s.posts > 0 ==> Post(s).posts == s.posts - 1 && Post(s).sem == s.sem + 1 && Contents(Post(s)) == Contents(s)
    ensures var c := Choose(Wait(s), ch);
      && CanTake(c) && Take(c).hand.Carrying? && Take(c).hand.to == ch
      && Release(Take(c)).hand == Waiting && Release(Take(c)).sem == s.sem - 1 && Release(Take(c)).posts == s.posts
      && Contents(s) == [Take(c).hand.pkt] + Contents(Release(Take(c)))
  {
    var c := Choose(Wait(s), ch);
    ThreadKeeps(c, ch);
    hide Take, First;
    TakesFirst(c);
    TakeMoves(c);
    var t := Take(c);
    assert Contents(c) == Contents(s);
    var p, control := [t.hand.pkt], if t.control.Some? then [t.control.value] else [];
    Pushed(p, control, t.undelivered);
    Pushed(p, control + t.undelivered, t.closing);
    Pushed(p, control + t.undelivered + t.closing, t.outgoing);
  }

  // ---------------------------------------------------------------------------------------
  // First in, first out
  // ---------------------------------------------------------------------------------------

  datatype SchedEvent =
    | PutPacket(p: Packet)
    | Notify
    | Dead(ps: seq<Packet>)
    | StartWait
    | NoneFree
    | ChooseCh(ch: nat)
    | TakeOne
    | HandOff

  predicate SchedEnabled(s: Sched, e: SchedEvent) {
    match e
    case PutPacket(p) => CanPut(s, p)
    case StartWait => CanWait(s)
    case TakeOne => CanTake(s)
    case HandOff => s.hand.Carrying?
    case _ => true
  }

  function SchedApply(s: Sched, e: SchedEvent): Sched
    requires SchedEnabled(s, e)
  {
    match e
    case PutPacket(p) => Put(s, p)
    case Notify => Post(s)
    case Dead(ps) => Migrate(s, ps)
    case StartWait => Wait(s)
    case NoneFree => GiveBack(s)
    case ChooseCh(ch) => Choose(s, ch)
    case TakeOne => Take(s)
    case HandOff => Release(s)
  }

  predicate SchedRun(ss: seq<Sched>, es: seq<SchedEvent>) {
    && |ss| == |es| + 1 && ss[0] == InitSched()
    && (forall k :: 0 <= k < |es| ==> SchedEnabled(ss[k], es[k]) && ss[k + 1] == SchedApply(ss[k], es[k]))
  }

  /** The three queues in the order they are served. */
  datatype Queue = Migrated | Ends | Plain

  function QueueOf(s: Sched, q: Queue): seq<Packet> {
    match q
    case Migrated => s.undelivered
    case Ends => s.closing
    case Plain => s.outgoing
  }

  /** The packets an event brings into a queue: those of dead channels, ends of flows, and the rest. */
  function Brought(e: SchedEvent, q: Queue): seq<Packet> {
    match e
    case PutPacket(p) =>
      if p.flowId != 0 && ((q == Ends && p.fin) || (q == Plain && !p.fin)) then [p] else []
    case Dead(ps) => if q == Migrated then ps else []
    case _ => []
  }

  /** Whether the next packet comes from the queue: nothing waits that goes before it. */
  predicate Serves(s: Sched, q: Queue) {
    && s.control == None && QueueOf(s, q) != []
    && (q != Migrated ==> s.undelivered == []) && (q == Plain ==> s.closing == [])
  }

  /** All packets that came into a queue, in order. */
  function AllBrought(es: seq<SchedEvent>, q: Queue): seq<Packet> {
    if es == [] then [] else AllBrought(es[..|es| - 1], q) + Brought(es[|es| - 1], q)
  }

  /** All packets that were in the thread's hand after it had served the queue, in order. */
  function AllTaken(ss: seq<Sched>, es: seq<SchedEvent>, q: Queue, k: nat): seq<Packet>
    requires k <= |es| < |ss|
  {
    if k == 0 then [] else AllTaken(ss, es, q, k - 1) + TakenIn(ss[k - 1], es[k - 1], ss[k], q)
  }

  /** What the thread has in hand after a step in which it served the queue. */
  function TakenIn(s: Sched, e: SchedEvent, t: Sched, q: Queue): seq<Packet> {
    if e == TakeOne && Serves(s, q) && t.hand.Carrying? then [t.hand.pkt] else []
  }

  /** At any time what came into a queue is what was taken from it followed by what it holds: packets leave in order. */
  lemma {:induction false} FirstInFirstOut(ss: seq<Sched>, es: seq<SchedEvent>, q: Queue, k: nat)
    requires SchedRun(ss, es) && k <= |es|
    ensures AllBrought(es[..k], q) == AllTaken(ss, es, q, k) + QueueOf(ss[k], q)
  {
    if k > 0 {
      hide SchedApply, SchedEnabled, QueueOf, Brought, TakenIn, AllBrought;
      FirstInFirstOut(ss, es, q, k - 1);
      OrderStep(ss[k - 1], es[k - 1], q);
      LastBrought(es, q, k);
      Regrouped(AllTaken(ss, es, q, k - 1), QueueOf(ss[k - 1], q), Brought(es[k - 1], q),
                TakenIn(ss[k - 1], es[k - 1], ss[k], q), QueueOf(ss[k], q));
    }
  }

  lemma LastBrought(es: seq<SchedEvent>, q: Queue, k: nat)
    requires 0 < k <= |es|
    ensures AllBrought(es[..k], q) == AllBrought(es[..k - 1], q) + Brought(es[k - 1], q)
  {
    assert es[..k][..k - 1] == es[..k - 1];
  }

  lemma Regrouped(a: seq<Packet>, b: seq<Packet>, c: seq<Packet>, d: seq<Packet>, e: seq<Packet>)
    requires d + e == b + c
    ensures (a + b) + c == (a + d) + e
  {
    assert (a + b) + c == a + (b + c) && (a + d) + e == a + (d + e);
  }

  lemma OrderStep(s: Sched, e: SchedEvent, q: Queue)
    requires SchedEnabled(s, e)
    ensures var t := SchedApply(s, e);
      TakenIn(s, e, t, q) + QueueOf(t, q) == QueueOf(s, q) + Brought(e, q)
  {
    if e == TakeOne {
      TakesFirst(s);
    }
  }
}

/** The scheduler's own fields and loops. */
module ChannelSchedulers {
  import opened Packets
  import opened SchedulerModel

  /** What schedule() asks a channel; `present` is false for an entry that was cleared. */
  datatype Candidate = Candidate(id: nat, present: bool, rtt: real, space: bool)

  class NewChannelScheculer {
    var controlPkt: Option<Packet>
    var undeliveredPacketQueue: seq<Packet>
    var closePktsQueue: seq<Packet>
    var outgoingPacketQueue: seq<Packet>
    var waitForNewPacket: nat
    /** Where the scheduling thread is. */
    ghost var hand: Hand

    /** Between two calls no notify() is outstanding. */
    ghost function S(): Sched
      reads this
    {
      Sched(controlPkt, undeliveredPacketQueue, closePktsQueue, outgoingPacketQueue, waitForNewPacket, 0, hand)
    }

    ghost predicate Valid()
      reads this
    {
      SchedInv(S()) && !hand.Carrying?
    }

    constructor ()
      ensures Valid() && S() == InitSched()
    {
      controlPkt, undeliveredPacketQueue, closePktsQueue, outgoingPacketQueue := None, [], [], [];
      waitForNewPacket, hand := 0, Waiting;
    }

    /** sendPacketTo(id, pkt), once there is room in the queue of data packets */
    method SendPacketTo(pkt: Packet)
      requires Valid() && CanPut(S(), pkt)
      modifies this
      ensures Valid()
      ensures S() == (if IsControl(pkt) && old(controlPkt).Some? then Put(old(S()), pkt) else Post(Put(old(S()), pkt)))
      ensures controlPkt == if pkt.flowId == 0 then Some(pkt) else old(controlPkt)
      ensures closePktsQueue == old(closePktsQueue) + if pkt.flowId != 0 && pkt.fin then [pkt] else []
      ensures outgoingPacketQueue == old(outgoingPacketQueue) + if pkt.flowId != 0 && !pkt.fin then [pkt] else []
      ensures undeliveredPacketQueue == old(undeliveredPacketQueue)
      ensures waitForNewPacket == old(waitForNewPacket) + if pkt.flowId == 0 && old(controlPkt).Some? then 0 else 1
    {
      var notify := true;
      if IsControl(pkt) {
        if controlPkt.Some? {
          notify := false;
        }
        controlPkt := Some(pkt);
      } else if pkt.fin {
        closePktsQueue := closePktsQueue + [pkt];
      } else {
        outgoingPacketQueue := outgoingPacketQueue + [pkt];
      }
      if notify {
        waitForNewPacket := waitForNewPacket + 1;
      }
    }

    /** notifyDeadChannel: the packets of the channel are queued again, and each is counted. */
    method NotifyDeadChannel(pkts: seq<Packet>)
      requires Valid()
      modifies this
      ensures Valid()
      ensures S() == Migrate(old(S()), pkts).(sem := old(waitForNewPacket) + |pkts|, posts := 0)
      ensures undeliveredPacketQueue == old(undeliveredPacketQueue) + pkts
    {
      undeliveredPacketQueue := undeliveredPacketQueue + pkts;
      var cnt := |pkts|;
      while cnt != 0
        invariant 0 <= cnt <= |pkts| && waitForNewPacket == old(waitForNewPacket) + (|pkts| - cnt)
        invariant controlPkt == old(controlPkt) && closePktsQueue == old(closePktsQueue) && hand == old(hand)
        invariant undeliveredPacketQueue == old(undeliveredPacketQueue) + pkts
        invariant outgoingPacketQueue == old(outgoingPacketQueue)
      {
        waitForNewPacket := waitForNewPacket + 1;
        cnt := cnt - 1;
      }
    }

    /**
     The choice in schedule(): of the channels with space the one with the lowest round-trip
     time, the first of several; 0 when none has space.
     */
    method Pick(active: seq<Candidate>) returns (chId: nat)
      requires forall i :: 0 <= i < |active| ==> active[i].id != 0
      ensures chId == 0 <==> forall i :: 0 <= i < |active| ==> !(active[i].present && active[i].space)
      ensures chId != 0 ==> exists i :: 0 <= i < |active| && active[i].id == chId && Best(active, i)
    {
      var minRTT := 0.0;
      chId := 0;
      ghost var best := 0;
      for x := 0 to |active|
        invariant chId == 0 <==> forall i :: 0 <= i < x ==> !(active[i].present && active[i].space)
        invariant chId != 0 ==>
          best < x && active[best].id == chId && minRTT == active[best].rtt && Best(active[..x], best)
      {
        if !active[x].present {
          continue;
        }
        var xrtt := active[x].rtt;
        if chId == 0 || minRTT > xrtt {
          if !active[x].space {
            continue;
          }
          chId := active[x].id;
          minRTT := xrtt;
          best := x;
        }
      }
      assert active[..|active|] == active;
    }

    /** Candidate `i` has space, none with space is nearer, and none before it is as near. */
    static ghost predicate Best(active: seq<Candidate>, i: int) {
      && 0 <= i < |active| && active[i].present && active[i].space
      && (forall j :: 0 <= j < |active| && active[j].present && active[j].space ==> active[i].rtt <= active[j].rtt)
      && (forall j :: 0 <= j < i && active[j].present && active[j].space ==> active[i].rtt < active[j].rtt)
    }

    /** sendNextPacketUsingCh(chId) up to the handoff; the assertion that there is a packet is proved. */
    method SendNextPacketUsingCh(ghost chId: nat) returns (pkt: Packet)
      requires Valid() && hand == Chosen(chId)
      modifies this
      ensures old(CanTake(S())) && S() == Take(old(S())) && hand == Carrying(pkt, chId) && SchedInv(S())
    {
      ThreadKeeps(S(), chId);
      var p: Option<Packet> := None;
      if controlPkt.Some? {
        p := controlPkt;
        controlPkt := None;
      }
      if p == None && undeliveredPacketQueue != [] {
        p := Some(undeliveredPacketQueue[0]);
        undeliveredPacketQueue := undeliveredPacketQueue[1..];
      }
      if p == None && closePktsQueue != [] {
        p := Some(closePktsQueue[0]);
        closePktsQueue := closePktsQueue[1..];
      }
      if p == None && outgoingPacketQueue != [] {
        p := Some(outgoingPacketQueue[0]);
        outgoingPacketQueue := outgoingPacketQueue[1..];
      }
      assert p.Some?;
      pkt := p.value;
      hand := Carrying(pkt, chId);
    }
  }
}
