/** Decoding accepts exactly what encoding produces. */
module PacketAcceptance {
  import opened SeqNum
  import opened PacketCodec

  /** A packet the encoding does justice to: small fields of four bits and at most 15 optional headers. */
  predicate Encodable(p: Pkt) {
    Nibbles(p.header) && |p.opts| <= 15 && Fits(p.opts)
  }

  // ---------------------------------------------------------------------------------------
  // Numbers
  // ---------------------------------------------------------------------------------------

  lemma TwoOfU16(bs: seq<u8>, i: nat)
    requires i + 2 <= |bs|
    ensures Two(U16(bs, i)) == bs[i..i + 2]
  {
  }

  lemma {:induction false} BigEndianOfValue(bs: seq<u8>)
    ensures BigEndian(Value(bs), |bs|) == bs
  {
    if bs != [] {
      BigEndianOfValue(bs[..|bs| - 1]);
    }
  }

  // ---------------------------------------------------------------------------------------
  // One optional header
  // ---------------------------------------------------------------------------------------

  lemma {:induction false} RevAppend<T>(xs: seq<T>, x: T)
    ensures Rev(xs + [x]) == [x] + Rev(xs)
  {
    if xs == [] {
      assert Rev([x]) == Rev([x][1..]) + [x];
    } else {
      RevAppend(xs[1..], x);
      assert (xs + [x])[1..] == xs[1..] + [x];
    }
  }

  lemma {:induction false} InfosBack(bs: seq<u8>, n: nat)
    requires |bs| >= 4 * n
    ensures EncInfos(Rev(DecInfos(bs, n))) == bs[..4 * n]
    decreases n
  {
    if n > 0 {
      InfosBack(bs[4..], n - 1);
      RevAppend(DecInfos(bs[4..], n - 1), Info(U16(bs, 0), U16(bs, 2)));
      TwoOfU16(bs, 0);
      TwoOfU16(bs, 2);
      hide Two, U16;
      assert bs[..4 * n] == bs[0..2] + bs[2..4] + bs[4..][..4 * (n - 1)];
    }
  }

  lemma BodyBack(t: u8, bs: seq<u8>)
    ensures var o := DecBody(t, bs);
      o.Some? && Len(o.value) < CNT ==>
        Len(Turned(o.value)) == Len(o.value) <= 4 + |bs| && Type(Turned(o.value)) == t
        && EncBody(Turned(o.value)) == bs[..Len(o.value) - 4]
  {
    hide U16, Two, Value, BigEndian, DecInfos, EncInfos, Rev;
    if t == 1 && |bs| >= 4 {
      TwoOfU16(bs, 0);
      TwoOfU16(bs, 2);
    } else if t == 2 && |bs| >= 6 {
      BigEndianOfValue(bs[2..6]);
      assert bs[..6] == [bs[0]] + [bs[1]] + bs[2..6];
    } else if t == 3 && |bs| >= 8 {
      BigEndianOfValue(bs[..8]);
    } else if t == 4 && |bs| >= 2 {
    } else if t == 5 && |bs| >= 2 && |bs| - 2 >= 4 * U16(bs, 0) {
      TwoOfU16(bs, 0);
      DecInfosLength(bs[2..], U16(bs, 0));
      InfosBack(bs[2..], U16(bs, 0));
      assert bs[..2 + 4 * U16(bs, 0)] == bs[0..2] + bs[2..][..4 * U16(bs, 0)];
    }
  }

  /** An optional header that is accepted is the encoding of what it is read as, but for the order of its list. */
  lemma OptBack(bs: seq<u8>)
    requires DecOpt(bs).Ok?
    ensures var o, rest := Turned(DecOpt(bs).value), DecOpt(bs).rest;
      Len(o) < CNT && bs == EncOpt(o, bs[1]) + rest
  {
    var x := DecBody(bs[0], bs[4..]);
    DecBodyLength(bs[0], bs[4..]);
    BodyBack(bs[0], bs[4..]);
    TwoOfU16(bs, 2);
    hide U16, Two, DecBody, EncBody, Turned, Len, Type;
    var n := Len(x.value);
    assert bs == [bs[0]] + [bs[1]] + bs[2..4] + bs[4..][..n - 4] + bs[n..];
  }

  // ---------------------------------------------------------------------------------------
  // All of them
  // ---------------------------------------------------------------------------------------

  lemma {:induction false} OptsBack(bs: seq<u8>, n: nat) returns (pads: seq<u8>)
    requires DecOpts(bs, n).Ok?
    ensures var os, rest := TurnedAll(DecOpts(bs, n).value), DecOpts(bs, n).rest;
      |os| == |pads| == n && Fits(os) && bs == EncOpts(os, pads) + rest
    decreases n
  {
    if n == 0 {
      pads := [];
    } else {
      OptBack(bs);
      var o, rest := DecOpt(bs).value, DecOpt(bs).rest;
      hide DecOpt, EncOpt, Turned, Len;
      var later := OptsBack(rest, n - 1);
      pads := [bs[1]] + later;
      var os := DecOpts(rest, n - 1).value;
      TurnedLast(os, o);
      assert pads[1..] == later;
      Grouped(EncOpt(Turned(o), bs[1]), EncOpts(TurnedAll(os), later), DecOpts(bs, n).rest);
    }
  }

  lemma {:induction false} TurnedLast(os: seq<OptHeader>, o: OptHeader)
    ensures TurnedAll(os + [o]) == [Turned(o)] + TurnedAll(os)
  {
    hide Turned;
    if os == [] {
      assert TurnedAll([o]) == TurnedAll([o][1..]) + [Turned(o)];
    } else {
      TurnedLast(os[1..], o);
      assert (os + [o])[1..] == os[1..] + [o];
    }
  }

  lemma Grouped(a: seq<u8>, b: seq<u8>, c: seq<u8>)
    ensures a + (b + c) == (a + b) + c
  {
  }

  lemma HiLo(bs: seq<u8>, i: nat)
    requires i + 2 <= |bs|
    ensures Hi(U16(bs, i)) == bs[i] && Lo(U16(bs, i)) == bs[i + 1]
  {
  }

  lemma NibblesBack(x: u8)
    ensures Nibbled(x / 16, x % 16) == x && x / 16 < 16
  {
  }

  lemma StampBack(bs: seq<u8>)
    requires |bs| == 8
    ensures BigEndian(Unsigned(Signed(U64(bs))), 8) == bs
  {
    BigEndianOfValue(bs);
    hide Value, BigEndian;
    assert Unsigned(Signed(U64(bs))) == U64(bs);
  }

  lemma HeaderBack(bs: seq<u8>)
    requires |bs| >= PACKET_HEADER_SIZE
    ensures EncHeader(DecHeader(bs), bs[0] % 16) == bs[..PACKET_HEADER_SIZE] && Nibbles(DecHeader(bs))
  {
    hide Hi, Lo, U16, U64, Nibbled, Unsigned, Signed, BigEndian;
    NibblesBack(bs[0]);
    NibblesBack(bs[1]);
    HiLo(bs, 2);
    HiLo(bs, 4);
    HiLo(bs, 6);
    HiLo(bs, 8);
    HiLo(bs, 10);
    HiLo(bs, 12);
    HiLo(bs, 14);
    HiLo(bs, 16);
    HiLo(bs, 18);
    StampBack(bs[20..28]);
  }

  /**
   Exactly which bytes are accepted, and what they are read as: the encodings of packets with small
   fields of four bits and at most 15 optional headers, whatever the pad bytes; each is read as the
   packet with its optional headers, and their lists, the other way round.
   */
  lemma DecodeExact(bs: seq<u8>, q: Pkt)
    ensures Decode(bs) == Ok(q, [])
      <==> exists p: Pkt, pads: seq<u8> :: IsEncoding(bs, p, pads) && q == Mirrored(p)
  {
    if Decode(bs) == Ok(q, []) {
      var pads := OptsBack(bs[PACKET_HEADER_SIZE..], bs[0] % 16);
      HeaderBack(bs);
      var p := Mirrored(q);
      MirroredTwice(q);
      hide DecOpts, DecHeader, TurnedAll, EncHeader, EncOpts;
      Grouped(EncHeader(p.header, |p.opts|), EncOpts(p.opts, pads), p.data);
      assert bs == bs[..PACKET_HEADER_SIZE] + bs[PACKET_HEADER_SIZE..];
      assert IsEncoding(bs, p, pads);
    }
    forall p: Pkt, pads: seq<u8> | IsEncoding(bs, p, pads) && q == Mirrored(p) ensures Decode(bs) == Ok(q, []) {
      hide Decode, Encode, Mirrored;
      RoundTrip(p, pads);
    }
  }

  ghost predicate IsEncoding(bs: seq<u8>, p: Pkt, pads: seq<u8>) {
    Encodable(p) && |pads| == |p.opts| && bs == Encode(p, pads)
  }
}
