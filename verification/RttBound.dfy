/** The retransmission timeout over any sequence of round-trip samples (section 2 of RFC 6298), in exact arithmetic. */
module RttBound {
  import opened SenderModel

  /** The time stamps of one ack; a stamp of 0 is not measured. */
  datatype Sample = Sample(sentTS: int, recvTS: int)

  /** 15 seconds, the limit updateRtt asserts. */
  const LIMIT := 15000000.0

  /** The filters after the samples, the last of `ss` being the newest. */
  function After(ss: seq<Sample>): Rtt {
    if ss == [] then InitSnd().c.rtt
    else UpdateRtt(After(ss[..|ss| - 1]), ss[|ss| - 1].sentTS, ss[|ss| - 1].recvTS)
  }

  predicate Within(ss: seq<Sample>, max: real) {
    forall s :: s in ss && s.sentTS != 0 ==> 0.0 <= (s.recvTS - s.sentTS) as real <= max
  }

  predicate Measured(ss: seq<Sample>) {
    exists s :: s in ss && s.sentTS != 0
  }

  predicate InRange(r: Rtt, max: real) {
    0.0 <= r.srtt <= max && 0.0 <= r.rttvar <= max
  }

  predicate TimeoutInRange(rto: real, max: real) {
    200000.0 <= rto <= max + MaxR(200000.0, 4.0 * max)
  }

  lemma OneSample(r: Rtt, s: Sample, max: real)
    requires InRange(r, max) && s.sentTS != 0 && 0.0 <= (s.recvTS - s.sentTS) as real <= max
    ensures var q := UpdateRtt(r, s.sentTS, s.recvTS); InRange(q, max) && TimeoutInRange(q.rto, max)
  {
    var rtt := (s.recvTS - s.sentTS) as real;
    assert 0.0 <= AbsR(r.srtt - rtt) <= max;
  }

  /**
   With samples between 0 and `max`, the smoothed time and the variation stay between 0 and
   `max`, and from the first measured sample on the timeout stays between 200 ms and
   max + MAX(200 ms, 4 max).
   */
  lemma {:induction false} TimeoutBounded(ss: seq<Sample>, max: real)
    requires Within(ss, max) && max >= 0.0
    ensures InRange(After(ss), max)
    ensures if Measured(ss) then TimeoutInRange(After(ss).rto, max) else After(ss).rto == 1000000.0
  {
    if ss != [] {
      var front, s := ss[..|ss| - 1], ss[|ss| - 1];
      assert ss == front + [s];
      TimeoutBounded(front, max);
      if s.sentTS != 0 {
        assert s in ss;
        OneSample(After(front), s, max);
      } else {
        assert Measured(ss) <==> Measured(front);
      }
    }
  }

  // ---------------------------------------------------------------------------------------
  // The exact bound
  // ---------------------------------------------------------------------------------------

  /** How far the timeout can rise above the largest sample: 225/64 of it. */
  const PEAK := 3.515625

  /**
   Where the filters can be with samples between 0 and `max`: no later sample takes the timeout
   past the larger of PEAK max and max + 200 ms from here.
   */
  predicate Attainable(r: Rtt, max: real) {
    && 0.0 <= r.srtt <= max
    && 0.0 <= r.rttvar <= 0.71 * max
    && r.rttvar <= 2.0 * r.srtt
    && r.srtt + 4.0 * r.rttvar <= PEAK * max
    && 1.875 * r.srtt + 3.0 * r.rttvar <= PEAK * max
    && 2.390625 * r.srtt + 2.25 * r.rttvar <= PEAK * max
  }

  lemma AttainableStep(r: Rtt, s: Sample, max: real)
    requires Attainable(r, max) && s.sentTS != 0 && 0.0 <= (s.recvTS - s.sentTS) as real <= max
    ensures var q := UpdateRtt(r, s.sentTS, s.recvTS);
      Attainable(q, max) && q.rto <= MaxR(PEAK * max, max + 200000.0)
  {
  }

  lemma {:induction false} TimeoutPeak(ss: seq<Sample>, max: real)
    requires Within(ss, max) && max >= 0.0
    ensures Attainable(After(ss), max)
    ensures After(ss).rto <= MaxR(MaxR(PEAK * max, max + 200000.0), 1000000.0)
  {
    if ss != [] {
      var front, s := ss[..|ss| - 1], ss[|ss| - 1];
      assert ss == front + [s];
      TimeoutPeak(front, max);
      if s.sentTS != 0 {
        assert s in ss;
        AttainableStep(After(front), s, max);
      }
    }
  }

  /** The longest sample and then two of no length bring the timeout to its peak. */
  function Peaking(m: nat): seq<Sample> {
    [Sample(1, m + 1), Sample(1, 1), Sample(1, 1)]
  }

  lemma PeakReached(m: nat)
    requires m >= 100000
    ensures Within(Peaking(m), m as real) && After(Peaking(m)).rto == PEAK * m as real
  {
    var ss, x := Peaking(m), m as real;
    assert ss[..2] == [Sample(1, m + 1), Sample(1, 1)];
    assert ss[..2][..1] == [Sample(1, m + 1)];
    assert ss[..2][..1][..0] == [];
    assert After(ss[..2][..1][..0]) == InitSnd().c.rtt;
    assert After(ss[..2][..1]) == Rtt(x, 0.5 * x, 3.0 * x);
    assert After(ss[..2]) == Rtt(0.875 * x, 0.625 * x, 3.375 * x);
  }

  /**
   The assertion of updateRtt holds after every sequence of samples between 0 and `m` microseconds
   exactly when `m` is below 64/15 of a second.
   */
  lemma Exact(m: nat)
    ensures (forall ss :: Within(ss, m as real) ==> After(ss).rto < LIMIT) <==> 15 * m < 64000000
  {
    if 15 * m < 64000000 {
      forall ss | Within(ss, m as real) ensures After(ss).rto < LIMIT {
        TimeoutPeak(ss, m as real);
      }
    } else {
      PeakReached(m);
      assert Within(Peaking(m), m as real) && After(Peaking(m)).rto >= LIMIT;
    }
  }

  /** On the first sample the assertion fails exactly when that is 5 seconds or more. */
  lemma FirstSample(s: Sample)
    requires s.sentTS != 0 && s.recvTS >= s.sentTS
    ensures After([s]).rto < LIMIT <==> s.recvTS - s.sentTS < 5000000
  {
    assert [s][..0] == [];
    assert After([s][..0]) == InitSnd().c.rtt;
  }
}
