/** The wire format: encodeHeader and decodeHeader with the optional headers. */
module PacketCodec {
  import opened SeqNum

  type u8 = x: int | 0 <= x < 256
  type u32 = x: int | 0 <= x < 0x1_0000_0000
  type u64 = x: int | 0 <= x < 0x1_0000_0000_0000_0000
  type i64 = x: int | -0x8000_0000_0000_0000 <= x < 0x8000_0000_0000_0000

  /** PACKET_HEADER_SIZE, and what sizeof(PacketHeader) comes to with its alignment. */
  const PACKET_HEADER_SIZE := 28
  const SIZEOF_HEADER := 32

  datatype Info = Info(flowId: u16, readUpto: u16)

  datatype OptHeader =
    | AckHdr(flowId: u16, ackNo: u16)
    | IpHdr(ifcId: u8, ifcType: u8, ip: u32)
    | NonceHdr(nonce: u64)
    | IpChangeHdr(ifcId: u8, ifcInfo: u8)
    | ReadHdr(infos: seq<Info>)

  /** The fields of PacketHeader that travel; OHLen is the number of optional headers. */
  datatype Header = Header(version: u8, ifcsrc: u8, ifcdst: u8, flag: u16, seqNo: u16, ackNo: u16, window: u16,
                           fingerPrint: u16, flowId: u16, flowSeqNo: u16, origAckNo: u16, padding: u16, sentTS: i64)

  datatype Pkt = Pkt(header: Header, opts: seq<OptHeader>, data: seq<u8>)

  /**
   What decoding makes of a piece of the buffer, and what is left; an error is a failed assertion or
   a short buffer.
   */
  datatype Parsed<+T> = Ok(value: T, rest: seq<u8>) | Err

  // ---------------------------------------------------------------------------------------
  // Numbers
  // ---------------------------------------------------------------------------------------

  function Hi(v: u16): u8 {
    v / 256
  }

  function Lo(v: u16): u8 {
    v % 256
  }

  /** htons */
  function Two(v: u16): (bs: seq<u8>)
    ensures |bs| == 2
  {
    [Hi(v), Lo(v)]
  }

  function U16(bs: seq<u8>, i: nat): u16
    requires i + 2 <= |bs|
  {
    var hi: int := bs[i];
    hi * 256 + bs[i + 1]
  }

  /** `v` in `k` bytes, the most significant first (htonl, htobe64). */
  function BigEndian(v: int, k: nat): (bs: seq<u8>)
    ensures |bs| == k
    decreases k
  {
    if k == 0 then [] else BigEndian(v / 256, k - 1) + [v % 256]
  }

  function Value(bs: seq<u8>): (v: int)
    ensures v >= 0
  {
    if bs == [] then 0 else Value(bs[..|bs| - 1]) * 256 + bs[|bs| - 1]
  }

  function Power(k: nat): (p: nat)
    ensures p > 0
  {
    if k == 0 then 1 else 256 * Power(k - 1)
  }

  lemma {:induction false} ValueOfBigEndian(v: int, k: nat)
    requires 0 <= v < Power(k)
    ensures Value(BigEndian(v, k)) == v
  {
    if k > 0 {
      ValueOfBigEndian(v / 256, k - 1);
      assert BigEndian(v, k)[..k - 1] == BigEndian(v / 256, k - 1);
    }
  }

  lemma {:induction false} ValueBelow(bs: seq<u8>)
    ensures Value(bs) < Power(|bs|)
  {
    if bs != [] {
      ValueBelow(bs[..|bs| - 1]);
    }
  }

  lemma Powers()
    ensures Power(4) == 0x1_0000_0000 && Power(8) == 0x1_0000_0000_0000_0000
  {
    assert Power(1) == 256;
    assert Power(2) == 256 * Power(1);
    assert Power(3) == 256 * Power(2);
    assert Power(4) == 256 * Power(3);
    assert Power(5) == 256 * Power(4);
    assert Power(6) == 256 * Power(5);
    assert Power(7) == 256 * Power(6);
  }

  function U32(bs: seq<u8>): u32
    requires |bs| == 4
  {
    Powers();
    ValueBelow(bs);
    Value(bs)
  }

  function U64(bs: seq<u8>): u64
    requires |bs| == 8
  {
    Powers();
    ValueBelow(bs);
    Value(bs)
  }

  /** Two's complement. */
  function Unsigned(v: i64): u64 {
    if v >= 0 then v else v + 0x1_0000_0000_0000_0000
  }

  function Signed(v: u64): i64 {
    if v < 0x8000_0000_0000_0000 then v else v - 0x1_0000_0000_0000_0000
  }

  // ---------------------------------------------------------------------------------------
  // Encoding
  // ---------------------------------------------------------------------------------------

  /** OptionalHeaderType */
  function Type(o: OptHeader): u8 {
    match o
    case AckHdr(_, _) => 1
    case IpHdr(_, _, _) => 2
    case NonceHdr(_) => 3
    case IpChangeHdr(_, _) => 4
    case ReadHdr(_) => 5
  }

  /** len() */
  function Len(o: OptHeader): nat {
    match o
    case AckHdr(_, _) => 8
    case IpHdr(_, _, _) => 10
    case NonceHdr(_) => 12
    case IpChangeHdr(_, _) => 6
    case ReadHdr(infos) => 6 + 4 * |infos|
  }

  function EncInfo(x: Info): (bs: seq<u8>)
    ensures |bs| == 4
  {
    Two(x.flowId) + Two(x.readUpto)
  }

  function EncInfos(xs: seq<Info>): (bs: seq<u8>)
    ensures |bs| == 4 * |xs|
  {
    if xs == [] then [] else EncInfo(xs[0]) + EncInfos(xs[1..])
  }

  function EncBody(o: OptHeader): (bs: seq<u8>)
    requires Len(o) < CNT
    ensures |bs| == Len(o) - 4
  {
    match o
    case AckHdr(flowId, ackNo) => Two(flowId) + Two(ackNo)
    case IpHdr(ifcId, ifcType, ip) => [ifcId] + [ifcType] + BigEndian(ip, 4)
    case NonceHdr(nonce) => BigEndian(nonce, 8)
    case IpChangeHdr(ifcId, ifcInfo) => [ifcId] + [ifcInfo]
    case ReadHdr(infos) => Two(|infos|) + EncInfos(infos)
  }

  /** Type, pad and length */
  function OptStart(t: u8, pad: u8, len: u16): (bs: seq<u8>)
    ensures |bs| == 4
  {
    [t] + [pad] + Two(len)
  }

  function EncOpt(o: OptHeader, pad: u8): (bs: seq<u8>)
    requires Len(o) < CNT
    ensures |bs| == Len(o)
  {
    OptStart(Type(o), pad, Len(o)) + EncBody(o)
  }

  predicate Fits(os: seq<OptHeader>) {
    forall o :: o in os ==> Len(o) < CNT
  }

  /** The optional headers one after the other; `pads` holds their pad_ bytes. */
  function EncOpts(os: seq<OptHeader>, pads: seq<u8>): seq<u8>
    requires Fits(os) && |pads| == |os|
  {
    if os == [] then [] else EncOpt(os[0], pads[0]) + EncOpts(os[1..], pads[1..])
  }

  /** The low four bits of two numbers in one byte. */
  function Nibbled(a: int, b: int): u8 {
    a % 16 * 16 + b % 16
  }

  /** The 28 fixed bytes. */
  function EncHeader(h: Header, optCount: nat): (bs: seq<u8>)
    ensures |bs| == PACKET_HEADER_SIZE
  {
    [Nibbled(h.version, optCount), Nibbled(h.ifcsrc, h.ifcdst),
     Hi(h.flag), Lo(h.flag), Hi(h.seqNo), Lo(h.seqNo), Hi(h.ackNo), Lo(h.ackNo), Hi(h.window), Lo(h.window),
     Hi(h.fingerPrint), Lo(h.fingerPrint), Hi(h.flowId), Lo(h.flowId), Hi(h.flowSeqNo), Lo(h.flowSeqNo),
     Hi(h.origAckNo), Lo(h.origAckNo), Hi(h.padding), Lo(h.padding)]
    + BigEndian(Unsigned(h.sentTS), 8)
  }

  function Encode(p: Pkt, pads: seq<u8>): seq<u8>
    requires Fits(p.opts) && |pads| == |p.opts|
  {
    EncHeader(p.header, |p.opts|) + EncOpts(p.opts, pads) + p.data
  }

  // ---------------------------------------------------------------------------------------
  // Decoding
  // ---------------------------------------------------------------------------------------

  /** Entries are put in front of the list as they are read. */
  function DecInfos(bs: seq<u8>, n: nat): seq<Info>
    requires |bs| >= 4 * n
  {
    if n == 0 then [] else DecInfos(bs[4..], n - 1) + [Info(U16(bs, 0), U16(bs, 2))]
  }

  /** The part of an optional header behind its first four bytes. */
  function DecBody(t: u8, bs: seq<u8>): Option {
    if t == 1 then
      if |bs| < 4 then None else Some(AckHdr(U16(bs, 0), U16(bs, 2)))
    else if t == 2 then
      if |bs| < 6 then None else Some(IpHdr(bs[0], bs[1], U32(bs[2..6])))
    else if t == 3 then
      if |bs| < 8 then None else Some(NonceHdr(U64(bs[..8])))
    else if t == 4 then
      if |bs| < 2 then None else Some(IpChangeHdr(bs[0], bs[1]))
    else if t == 5 then
      if |bs| < 2 || |bs| - 2 < 4 * U16(bs, 0) then None else Some(ReadHdr(DecInfos(bs[2..], U16(bs, 0))))
    else None
  }

  datatype Option = None | Some(value: OptHeader)

  lemma {:induction false} DecInfosLength(bs: seq<u8>, n: nat)
    requires |bs| >= 4 * n
    ensures |DecInfos(bs, n)| == n
  {
    if n > 0 {
      DecInfosLength(bs[4..], n - 1);
    }
  }

  lemma DecBodyLength(t: u8, bs: seq<u8>)
    ensures var o := DecBody(t, bs); o.Some? ==> Len(o.value) <= 4 + |bs| && Type(o.value) == t
  {
    if t == 5 && |bs| >= 2 && |bs| - 2 >= 4 * U16(bs, 0) {
      DecInfosLength(bs[2..], U16(bs, 0));
    }
  }

  /** decodeOptionalHeader, with the assertion that the length field is right */
  function DecOpt(bs: seq<u8>): Parsed<OptHeader> {
    if |bs| < 4 then Err
    else
      var o := DecBody(bs[0], bs[4..]);
      DecBodyLength(bs[0], bs[4..]);
      if o == None || U16(bs, 2) != Len(o.value) then Err else Ok(o.value, bs[Len(o.value)..])
  }

  /** The loop over the optional headers: each is put in front of those before it. */
  function DecOpts(bs: seq<u8>, n: nat): Parsed<seq<OptHeader>>
    decreases n
  {
    if n == 0 then Ok([], bs)
    else
      match DecOpt(bs)
      case Err => Err
      case Ok(o, rest) =>
        match DecOpts(rest, n - 1)
        case Err => Err
        case Ok(os, rest') => Ok(os + [o], rest')
  }

  function DecHeader(bs: seq<u8>): Header
    requires |bs| >= PACKET_HEADER_SIZE
  {
    Header(bs[0] / 16, bs[1] / 16, bs[1] % 16, U16(bs, 2), U16(bs, 4), U16(bs, 6), U16(bs, 8), U16(bs, 10), U16(bs, 12),
           U16(bs, 14), U16(bs, 16), U16(bs, 18), Signed(U64(bs[20..28])))
  }

  function Decode(bs: seq<u8>): Parsed<Pkt> {
    if |bs| < PACKET_HEADER_SIZE then Err
    else
      match DecOpts(bs[PACKET_HEADER_SIZE..], bs[0] % 16)
      case Err => Err
      case Ok(os, rest) => Ok(Pkt(DecHeader(bs), os, rest), [])
  }

  // ---------------------------------------------------------------------------------------
  // Round trips
  // ---------------------------------------------------------------------------------------

  function Rev<T>(xs: seq<T>): (ys: seq<T>)
    ensures |ys| == |xs|
    ensures forall i :: 0 <= i < |xs| ==> ys[i] == xs[|xs| - 1 - i]
  {
    if xs == [] then [] else Rev(xs[1..]) + [xs[0]]
  }

  lemma RevTwice<T>(xs: seq<T>)
    ensures Rev(Rev(xs)) == xs
  {
  }

  /** A list of read reports comes back with its entries the other way round. */
  function Turned(o: OptHeader): OptHeader {
    if o.ReadHdr? then ReadHdr(Rev(o.infos)) else o
  }

  function TurnedAll(os: seq<OptHeader>): (ts: seq<OptHeader>)
    ensures |ts| == |os|
    ensures forall i :: 0 <= i < |os| ==> ts[i] == Turned(os[|os| - 1 - i])
  {
    if os == [] then [] else TurnedAll(os[1..]) + [Turned(os[0])]
  }

  function Mirrored(p: Pkt): Pkt {
    p.(opts := TurnedAll(p.opts))
  }

  lemma Associative(a: seq<u8>, b: seq<u8>, c: seq<u8>)
    ensures (a + b) + c == a + (b + c)
    ensures (a + (b + c))[|a|..] == b + c
  {
  }

  lemma FirstInfo(xs: seq<Info>, tail: seq<u8>)
    requires xs != []
    ensures var bs := EncInfos(xs) + tail;
      bs[4..] == EncInfos(xs[1..]) + tail && Info(U16(bs, 0), U16(bs, 2)) == xs[0]
  {
    var a, rest := EncInfo(xs[0]), EncInfos(xs[1..]);
    InfoParts(xs[0], rest + tail);
    assert EncInfos(xs) == a + rest;
    hide EncInfo, EncInfos, U16;
    Associative(a, rest, tail);
  }

  lemma InfoParts(x: Info, more: seq<u8>)
    ensures var bs := EncInfo(x) + more; |bs| >= 4 && Info(U16(bs, 0), U16(bs, 2)) == x
  {
    hide Hi, Lo, U16;
    TwoBytes(EncInfo(x) + more, 0, x.flowId);
    TwoBytes(EncInfo(x) + more, 2, x.readUpto);
  }

  lemma {:induction false} InfosRoundTrip(xs: seq<Info>, tail: seq<u8>)
    ensures DecInfos(EncInfos(xs) + tail, |xs|) == Rev(xs)
  {
    if xs == [] {
    } else {
      InfosRoundTrip(xs[1..], tail);
      FirstInfo(xs, tail);
      hide EncInfos, U16;
    }
  }

  lemma BodyRoundTrip(o: OptHeader, tail: seq<u8>)
    requires Len(o) < CNT
    ensures DecBody(Type(o), EncBody(o) + tail) == Some(Turned(o))
  {
    match o
    case AckHdr(flowId, ackNo) =>
      hide Hi, Lo, U16;
      TwoBytes(EncBody(o) + tail, 0, flowId);
      TwoBytes(EncBody(o) + tail, 2, ackNo);
    case IpHdr(ifcId, ifcType, ip) => NumberRoundTrip(o, tail);
    case NonceHdr(nonce) => NumberRoundTrip(o, tail);
    case IpChangeHdr(ifcId, ifcInfo) =>
    case ReadHdr(infos) => ReadRoundTrip(infos, tail);
  }

  lemma NumberRoundTrip(o: OptHeader, tail: seq<u8>)
    requires o.IpHdr? || o.NonceHdr?
    ensures DecBody(Type(o), EncBody(o) + tail) == Some(Turned(o))
  {
    hide BigEndian, Value, Power, U16;
    var bs := EncBody(o) + tail;
    Powers();
    if o.IpHdr? {
      assert bs[2..6] == BigEndian(o.ip, 4);
      ValueOfBigEndian(o.ip, 4);
    } else {
      assert bs[..8] == BigEndian(o.nonce, 8);
      ValueOfBigEndian(o.nonce, 8);
    }
  }

  lemma ReadRoundTrip(infos: seq<Info>, tail: seq<u8>)
    requires Len(ReadHdr(infos)) < CNT
    ensures DecBody(5, EncBody(ReadHdr(infos)) + tail) == Some(ReadHdr(Rev(infos)))
  {
    hide Hi, Lo, U16, EncInfos, DecInfos, Rev;
    var bs := EncBody(ReadHdr(infos)) + tail;
    TwoBytes(bs, 0, |infos|);
    assert bs[2..] == EncInfos(infos) + tail;
    InfosRoundTrip(infos, tail);
  }

  lemma OptRoundTrip(o: OptHeader, pad: u8, tail: seq<u8>)
    requires Len(o) < CNT
    ensures DecOpt(EncOpt(o, pad) + tail) == Ok(Turned(o), tail)
  {
    hide EncBody, DecBody, OptStart, Turned, U16;
    var start, bs := OptStart(Type(o), pad, Len(o)), EncOpt(o, pad) + tail;
    BodyRoundTrip(o, tail);
    Associative(start, EncBody(o), tail);
    StartRead(Type(o), pad, Len(o), EncBody(o) + tail);
    SameLength(o);
    assert bs[Len(o)..] == tail;
  }

  lemma StartRead(t: u8, pad: u8, len: u16, more: seq<u8>)
    ensures var bs := OptStart(t, pad, len) + more; bs[0] == t && U16(bs, 2) == len
  {
    hide Hi, Lo, U16;
    TwoBytes(OptStart(t, pad, len) + more, 2, len);
  }

  lemma SameLength(o: OptHeader)
    ensures Len(Turned(o)) == Len(o)
  {
  }

  lemma {:induction false} OptsRoundTrip(os: seq<OptHeader>, pads: seq<u8>, tail: seq<u8>)
    requires Fits(os) && |pads| == |os|
    ensures DecOpts(EncOpts(os, pads) + tail, |os|) == Ok(TurnedAll(os), tail)
  {
    if os == [] {
      assert EncOpts(os, pads) + tail == tail;
    } else {
      hide EncOpt, DecOpt, Turned, Len;
      var rest := EncOpts(os[1..], pads[1..]) + tail;
      OptsRoundTrip(os[1..], pads[1..], tail);
      OptRoundTrip(os[0], pads[0], rest);
      Associative(EncOpt(os[0], pads[0]), EncOpts(os[1..], pads[1..]), tail);
    }
  }

  /** Version and interface numbers fit four bits. */
  predicate Nibbles(h: Header) {
    h.version < 16 && h.ifcsrc < 16 && h.ifcdst < 16
  }

  lemma HeaderRoundTrip(h: Header, n: nat, tail: seq<u8>)
    ensures var d := DecHeader(EncHeader(h, n) + tail);
      d == h.(version := h.version % 16, ifcsrc := h.ifcsrc % 16, ifcdst := h.ifcdst % 16)
    ensures (EncHeader(h, n) + tail)[0] % 16 == n % 16
  {
    var enc := EncHeader(h, n);
    var bs := enc + tail;
    TimeRoundTrip(h, n, tail);
    NibblePair(h.version, n);
    NibblePair(h.ifcsrc, h.ifcdst);
    assert bs[0] == Nibbled(h.version, n) && bs[1] == Nibbled(h.ifcsrc, h.ifcdst);
    TwoBytes(bs, 2, h.flag);
    TwoBytes(bs, 4, h.seqNo);
    TwoBytes(bs, 6, h.ackNo);
    TwoBytes(bs, 8, h.window);
    TwoBytes(bs, 10, h.fingerPrint);
    TwoBytes(bs, 12, h.flowId);
    TwoBytes(bs, 14, h.flowSeqNo);
    TwoBytes(bs, 16, h.origAckNo);
    TwoBytes(bs, 18, h.padding);
    hide U16, U64, Signed, Unsigned, BigEndian, Hi, Lo, EncHeader, Nibbled;
  }

  lemma NibblePair(v: u8, n: nat)
    ensures Nibbled(v, n) / 16 == v % 16 && Nibbled(v, n) % 16 == n % 16
    ensures Nibbled(v, n) == v * 16 % 256 + n % 16
  {
  }

  lemma TwoBytes(bs: seq<u8>, i: nat, v: u16)
    requires i + 2 <= |bs| && bs[i] == Hi(v) && bs[i + 1] == Lo(v)
    ensures U16(bs, i) == v
  {
  }

  lemma TimeRoundTrip(h: Header, n: nat, tail: seq<u8>)
    ensures var bs := EncHeader(h, n) + tail; Signed(U64(bs[20..28])) == h.sentTS
  {
    var bs := EncHeader(h, n) + tail;
    assert bs[20..28] == BigEndian(Unsigned(h.sentTS), 8);
    Powers();
    ValueOfBigEndian(Unsigned(h.sentTS), 8);
  }

  lemma {:induction false} DecOptsCount(bs: seq<u8>, n: nat)
    ensures DecOpts(bs, n).Ok? ==> |DecOpts(bs, n).value| == n
    decreases n
  {
    hide DecOpt;
    if n > 0 && DecOpt(bs).Ok? {
      DecOptsCount(DecOpt(bs).rest, n - 1);
    }
  }

  /** What decoding gives for any packet with at most 15 optional headers. */
  lemma DecodedUpTo15(p: Pkt, pads: seq<u8>)
    requires Fits(p.opts) && |pads| == |p.opts| <= 15
    ensures var h := p.header;
      Decode(Encode(p, pads)) ==
        Ok(Pkt(h.(version := h.version % 16, ifcsrc := h.ifcsrc % 16, ifcdst := h.ifcdst % 16),
               TurnedAll(p.opts), p.data), [])
  {
    hide EncHeader, DecHeader, EncOpts, DecOpts, TurnedAll;
    var bs, tail := Encode(p, pads), EncOpts(p.opts, pads) + p.data;
    Associative(EncHeader(p.header, |p.opts|), EncOpts(p.opts, pads), p.data);
    HeaderRoundTrip(p.header, |p.opts|, tail);
    OptsRoundTrip(p.opts, pads, p.data);
  }

  /** With 16 or more, the count that travels is too small. */
  lemma DecodedAbove15(p: Pkt, pads: seq<u8>)
    requires Fits(p.opts) && |pads| == |p.opts| > 15
    ensures var q := Decode(Encode(p, pads)); q.Ok? ==> |q.value.opts| != |p.opts|
  {
    hide EncHeader, DecHeader, EncOpts, DecOpts;
    var bs, tail := Encode(p, pads), EncOpts(p.opts, pads) + p.data;
    Associative(EncHeader(p.header, |p.opts|), EncOpts(p.opts, pads), p.data);
    HeaderRoundTrip(p.header, |p.opts|, tail);
    DecOptsCount(tail, |p.opts| % 16);
  }

  /**
   Decoding what was encoded gives back every header field and the payload, the optional headers
   and each list of read reports reversed, and uses up all bytes, whatever the pad bytes hold.
   It does so exactly when version and interface numbers fit four bits and there are at most 15
   optional headers: with 16 the count wraps to 0 and the headers are taken for payload.
   */
  lemma RoundTrip(p: Pkt, pads: seq<u8>)
    requires Fits(p.opts) && |pads| == |p.opts|
    ensures Decode(Encode(p, pads)) == Ok(Mirrored(p), []) <==> Nibbles(p.header) && |p.opts| <= 15
  {
    hide Decode, Encode, TurnedAll;
    if |p.opts| <= 15 {
      DecodedUpTo15(p, pads);
    } else {
      DecodedAbove15(p, pads);
    }
  }

  lemma MirroredTwice(p: Pkt)
    ensures Mirrored(Mirrored(p)) == p
  {
    var os := p.opts;
    var ts := TurnedAll(TurnedAll(os));
    forall i | 0 <= i < |os| ensures ts[i] == os[i] {
      if os[i].ReadHdr? {
        RevTwice(os[i].infos);
      }
    }
    assert ts == os;
  }

  /** A second round trip restores the order of everything. */
  lemma TwoRoundTrips(p: Pkt, pads: seq<u8>, pads2: seq<u8>)
    requires Fits(p.opts) && |pads| == |p.opts| == |pads2| <= 15 && Nibbles(p.header)
    ensures var q := Decode(Encode(p, pads));
              && q.Ok? && Fits(q.value.opts) && |q.value.opts| == |p.opts|
              && Decode(Encode(q.value, pads2)) == Ok(p, [])
  {
    hide Decode, Encode, TurnedAll, Mirrored;
    RoundTrip(p, pads);
    MirroredTwice(p);
    MirroredFits(p);
    RoundTrip(Mirrored(p), pads2);
  }

  lemma MirroredFits(p: Pkt)
    requires Fits(p.opts)
    ensures Fits(Mirrored(p).opts) && |Mirrored(p).opts| == |p.opts| && Mirrored(p).header == p.header
  {
    forall o | o in TurnedAll(p.opts) ensures Len(o) < CNT {
      var i :| 0 <= i < |p.opts| && TurnedAll(p.opts)[i] == o;
      assert p.opts[|p.opts| - 1 - i] in p.opts;
    }
  }

  // ---------------------------------------------------------------------------------------
  // Writing into a buffer
  // ---------------------------------------------------------------------------------------

  /** `bs` written over `s` from `pos` on. */
  ghost function Patched(s: seq<u8>, pos: nat, bs: seq<u8>): (t: seq<u8>)
    requires pos + |bs| <= |s|
    ensures |t| == |s|
  {
    s[..pos] + bs + s[pos + |bs|..]
  }

  lemma PatchTwice(s: seq<u8>, pos: nat, a: seq<u8>, b: seq<u8>)
    requires pos + |a| + |b| <= |s|
    ensures Patched(Patched(s, pos, a), pos + |a|, b) == Patched(s, pos, a + b)
  {
  }

  lemma PatchNothing(s: seq<u8>, pos: nat)
    requires pos <= |s|
    ensures Patched(s, pos, []) == s
  {
  }

  /** WRITE_INT_8 to WRITE_INT_64: `k` bytes in network order; returns where to go on. */
  method WriteInt(data: array<u8>, pos: nat, v: int, k: nat) returns (next: nat)
    requires pos + k <= data.Length
    modifies data
    ensures next == pos + k && data[..] == Patched(old(data[..]), pos, BigEndian(v, k))
  {
    var rest, i := v, k;
    while i > 0
      invariant 0 <= i <= k
      invariant BigEndian(v, k) == BigEndian(rest, i) + data[pos + i..pos + k]
      invariant data[..pos] == old(data[..pos]) && data[pos + k..] == old(data[pos + k..])
    {
      i := i - 1;
      data[pos + i] := rest % 256;
      rest := rest / 256;
    }
    next := pos + k;
    assert data[..] == data[..pos] + data[pos..pos + k] + data[pos + k..];
  }

  lemma OneByte(v: int)
    ensures BigEndian(v, 1) == [v % 256]
  {
    assert BigEndian(v / 256, 0) == [];
  }

  lemma SmallInts(v: int)
    ensures 0 <= v < 256 ==> BigEndian(v, 1) == [v]
    ensures 0 <= v < CNT ==> BigEndian(v, 2) == Two(v)
  {
    hide BigEndian, Two;
    OneByte(v);
    if 0 <= v < CNT {
      AsTwo(v);
    }
  }

  lemma AsTwo(v: u16)
    ensures BigEndian(v, 2) == Two(v)
  {
    hide BigEndian;
    LastByte(v, 2);
    OneByte(v / 256);
    assert v / 256 % 256 == v / 256;
  }

  lemma LastByte(v: int, k: nat)
    requires k > 0
    ensures BigEndian(v, k) == BigEndian(v / 256, k - 1) + [v % 256]
  {
  }

  method Write8(data: array<u8>, pos: nat, v: u8) returns (next: nat)
    requires pos + 1 <= data.Length
    modifies data
    ensures next == pos + 1 && data[..] == Patched(old(data[..]), pos, [v])
  {
    SmallInts(v);
    next := WriteInt(data, pos, v, 1);
  }

  method Write16(data: array<u8>, pos: nat, v: u16) returns (next: nat)
    requires pos + 2 <= data.Length
    modifies data
    ensures next == pos + 2 && data[..] == Patched(old(data[..]), pos, Two(v))
  {
    SmallInts(v);
    next := WriteInt(data, pos, v, 2);
  }

  method WriteInfo(data: array<u8>, pos: nat, y: Info) returns (next: nat)
    requires pos + 4 <= data.Length
    modifies data
    ensures next == pos + 4 && data[..] == Patched(old(data[..]), pos, EncInfo(y))
  {
    hide Two, Patched;
    ghost var s0 := data[..];
    next := Write16(data, pos, y.flowId);
    next := Write16(data, next, y.readUpto);
    PatchTwice(s0, pos, Two(y.flowId), Two(y.readUpto));
  }

  /** The list of read reports, in list order */
  method WriteInfos(data: array<u8>, pos: nat, infos: seq<Info>) returns (next: nat)
    requires pos + 4 * |infos| <= data.Length
    modifies data
    ensures next == pos + 4 * |infos| && data[..] == Patched(old(data[..]), pos, EncInfos(infos))
  {
    hide EncInfos, EncInfo, Patched;
    next := pos;
    ghost var s0 := data[..];
    PatchNothing(s0, pos);
    NoInfos(infos[..0]);
    for x := 0 to |infos|
      invariant next == pos + 4 * x && data[..] == Patched(s0, pos, EncInfos(infos[..x]))
    {
      var y := infos[x];
      InfosSnoc(infos[..x], y);
      assert infos[..x + 1] == infos[..x] + [y];
      next := WriteInfo(data, next, y);
      PatchTwice(s0, pos, EncInfos(infos[..x]), EncInfo(y));
    }
    assert infos[..|infos|] == infos;
  }

  lemma NoInfos(xs: seq<Info>)
    requires xs == []
    ensures EncInfos(xs) == []
  {
  }

  lemma {:induction false} InfosSnoc(xs: seq<Info>, y: Info)
    ensures EncInfos(xs + [y]) == EncInfos(xs) + EncInfo(y)
  {
    if xs == [] {
      assert [y][1..] == [];
    } else {
      InfosSnoc(xs[1..], y);
      assert (xs + [y])[1..] == xs[1..] + [y];
    }
  }

  /** The five encodeOptional...Header functions */
  method WriteBody(data: array<u8>, pos: nat, o: OptHeader) returns (next: nat)
    requires Len(o) < CNT && pos + Len(o) - 4 <= data.Length
    modifies data
    ensures next == pos + Len(o) - 4 && data[..] == Patched(old(data[..]), pos, EncBody(o))
  {
    hide EncInfos, BigEndian, Two, Patched;
    ghost var s0 := data[..];
    next := pos;
    match o {
      case AckHdr(flowId, ackNo) =>
        next := Write16(data, next, flowId);
        next := Write16(data, next, ackNo);
        PatchTwice(s0, pos, Two(flowId), Two(ackNo));
      case IpHdr(ifcId, ifcType, ip) =>
        next := Write8(data, next, ifcId);
        next := Write8(data, next, ifcType);
        PatchTwice(s0, pos, [ifcId], [ifcType]);
        next := WriteInt(data, next, ip, 4);
        PatchTwice(s0, pos, [ifcId] + [ifcType], BigEndian(ip, 4));
      case NonceHdr(nonce) =>
        next := WriteInt(data, next, nonce, 8);
      case IpChangeHdr(ifcId, ifcInfo) =>
        next := Write8(data, next, ifcId);
        next := Write8(data, next, ifcInfo);
        PatchTwice(s0, pos, [ifcId], [ifcInfo]);
      case ReadHdr(infos) =>
        next := Write16(data, next, |infos|);
        next := WriteInfos(data, next, infos);
        PatchTwice(s0, pos, Two(|infos|), EncInfos(infos));
    }
  }

  /** encodeOptionalHeader */
  method WriteOpt(data: array<u8>, pos: nat, o: OptHeader, pad: u8) returns (next: nat)
    requires Len(o) < CNT && pos + Len(o) <= data.Length
    modifies data
    ensures next == pos + Len(o) && data[..] == Patched(old(data[..]), pos, EncOpt(o, pad))
  {
    hide EncOpt, EncBody, OptStart, Patched, Type, Len;
    OptParts(o, pad);
    ghost var s0 := data[..];
    next := WriteOptStart(data, pos, Type(o), pad, Len(o));
    next := WriteBody(data, next, o);
    PatchTwice(s0, pos, OptStart(Type(o), pad, Len(o)), EncBody(o));
  }

  lemma OptParts(o: OptHeader, pad: u8)
    requires Len(o) < CNT
    ensures Len(o) >= 4 && |EncBody(o)| == Len(o) - 4
    ensures EncOpt(o, pad) == OptStart(Type(o), pad, Len(o)) + EncBody(o)
  {
  }

  method WriteOptStart(data: array<u8>, pos: nat, t: u8, pad: u8, len: u16) returns (next: nat)
    requires pos + 4 <= data.Length
    modifies data
    ensures next == pos + 4 && data[..] == Patched(old(data[..]), pos, OptStart(t, pad, len))
  {
    hide Two, Patched;
    ghost var s0 := data[..];
    next := Write8(data, pos, t);
    next := Write8(data, next, pad);
    PatchTwice(s0, pos, [t], [pad]);
    next := Write16(data, next, len);
    PatchTwice(s0, pos, [t] + [pad], Two(len));
  }

  /** A run of 16-bit fields */
  function Fields(vs: seq<u16>): (bs: seq<u8>)
    ensures |bs| == 2 * |vs|
  {
    if vs == [] then [] else Fields(vs[..|vs| - 1]) + Two(vs[|vs| - 1])
  }

  method WriteFields(data: array<u8>, pos: nat, vs: seq<u16>) returns (next: nat)
    requires pos + 2 * |vs| <= data.Length
    modifies data
    ensures next == pos + 2 * |vs| && data[..] == Patched(old(data[..]), pos, Fields(vs))
  {
    hide Two, Patched, Fields;
    ghost var s0 := data[..];
    PatchNothing(s0, pos);
    NoFields(vs);
    next := pos;
    for i := 0 to |vs|
      invariant next == pos + 2 * i && data[..] == Patched(s0, pos, Fields(vs[..i]))
    {
      FieldsSnoc(vs, i);
      next := Write16(data, next, vs[i]);
      PatchTwice(s0, pos, Fields(vs[..i]), Two(vs[i]));
    }
  }

  lemma NoFields(vs: seq<u16>)
    ensures Fields(vs[..0]) == [] && vs[..|vs|] == vs
  {
  }

  lemma FieldsSnoc(vs: seq<u16>, i: nat)
    requires i < |vs|
    ensures Fields(vs[..i + 1]) == Fields(vs[..i]) + Two(vs[i])
  {
    assert vs[..i + 1][..i] == vs[..i];
  }

  function HeaderFields(h: Header): seq<u16> {
    [h.flag, h.seqNo, h.ackNo, h.window, h.fingerPrint, h.flowId, h.flowSeqNo, h.origAckNo, h.padding]
  }

  lemma {:induction false} FieldsAt(vs: seq<u16>, i: nat)
    requires i < |vs|
    ensures Fields(vs)[2 * i] == Hi(vs[i]) && Fields(vs)[2 * i + 1] == Lo(vs[i])
  {
    if i < |vs| - 1 {
      FieldsAt(vs[..|vs| - 1], i);
    }
  }

  lemma HeaderInParts(h: Header, n: nat)
    ensures EncHeader(h, n) ==
      [Nibbled(h.version, n), Nibbled(h.ifcsrc, h.ifcdst)] + Fields(HeaderFields(h)) + BigEndian(Unsigned(h.sentTS), 8)
  {
    hide Hi, Lo, Nibbled, BigEndian, Unsigned, Fields;
    var vs := HeaderFields(h);
    forall i | 0 <= i < 9 ensures Fields(vs)[2 * i] == Hi(vs[i]) && Fields(vs)[2 * i + 1] == Lo(vs[i]) {
      FieldsAt(vs, i);
    }
    var f := Fields(vs);
    assert f[2 * 0] == Hi(vs[0]) && f[2 * 1] == Hi(vs[1]) && f[2 * 2] == Hi(vs[2]) && f[2 * 3] == Hi(vs[3])
        && f[2 * 4] == Hi(vs[4]);
    assert f[2 * 5] == Hi(vs[5]) && f[2 * 6] == Hi(vs[6]) && f[2 * 7] == Hi(vs[7]) && f[2 * 8] == Hi(vs[8]);
    assert f == [Hi(vs[0]), Lo(vs[0]), Hi(vs[1]), Lo(vs[1]), Hi(vs[2]), Lo(vs[2]), Hi(vs[3]), Lo(vs[3]),
                 Hi(vs[4]), Lo(vs[4]),
                 Hi(vs[5]), Lo(vs[5]), Hi(vs[6]), Lo(vs[6]), Hi(vs[7]), Lo(vs[7]), Hi(vs[8]), Lo(vs[8])];
  }

  /** The 28 fixed bytes */
  method WriteHeader(data: array<u8>, h: Header, optCount: nat) returns (next: nat)
    requires data.Length >= PACKET_HEADER_SIZE
    modifies data
    ensures next == PACKET_HEADER_SIZE && data[..] == Patched(old(data[..]), 0, EncHeader(h, optCount))
  {
    hide Fields, BigEndian, Unsigned, Nibbled, EncHeader, Patched;
    ghost var s0 := data[..];
    NibblePair(h.version, optCount);
    HeaderInParts(h, optCount);
    var tmp8 := h.version * 16 % 256 + optCount % 16;
    next := Write8(data, 0, tmp8);
    tmp8 := Nibbled(h.ifcsrc, h.ifcdst);
    next := Write8(data, next, tmp8);
    PatchTwice(s0, 0, [Nibbled(h.version, optCount)], [Nibbled(h.ifcsrc, h.ifcdst)]);
    TwoOfThem(Nibbled(h.version, optCount), Nibbled(h.ifcsrc, h.ifcdst));
    next := WriteFields(data, next, HeaderFields(h));
    PatchTwice(s0, 0, [Nibbled(h.version, optCount), Nibbled(h.ifcsrc, h.ifcdst)], Fields(HeaderFields(h)));
    next := WriteInt(data, next, Unsigned(h.sentTS), 8);
    PatchTwice(s0, 0, [Nibbled(h.version, optCount), Nibbled(h.ifcsrc, h.ifcdst)] + Fields(HeaderFields(h)),
               BigEndian(Unsigned(h.sentTS), 8));
  }

  lemma TwoOfThem(a: u8, b: u8)
    ensures [a] + [b] == [a, b]
  {
  }

  /**
   encodeHeader(pkt, data, dataLen): nothing is written into a buffer shorter than
   sizeof(PacketHeader), though 28 bytes would do for a packet without headers and data; any other
   buffer must hold the whole packet.
   */
  method EncodeHeader(p: Pkt, pads: seq<u8>, data: array<u8>) returns (n: nat)
    requires Fits(p.opts) && |pads| == |p.opts|
    requires data.Length >= SIZEOF_HEADER ==> |Encode(p, pads)| <= data.Length
    modifies data
    ensures data.Length < SIZEOF_HEADER ==> n == 0 && data[..] == old(data[..])
    ensures data.Length >= SIZEOF_HEADER ==>
      n == |Encode(p, pads)| && data[..] == Patched(old(data[..]), 0, Encode(p, pads))
  {
    hide EncHeader, EncOpts, Patched, Fits;
    if data.Length < SIZEOF_HEADER {
      return 0;
    }
    ghost var s0 := data[..];
    var opHdCnt := 0;
    while opHdCnt < |p.opts|
      invariant opHdCnt <= |p.opts|
    {
      opHdCnt := opHdCnt + 1;
    }
    n := WriteHeader(data, p.header, opHdCnt);
    n := WriteOpts(data, n, p.opts, pads);
    PatchTwice(s0, 0, EncHeader(p.header, |p.opts|), EncOpts(p.opts, pads));
    n := CopyData(data, n, p.data);
    PatchTwice(s0, 0, EncHeader(p.header, |p.opts|) + EncOpts(p.opts, pads), p.data);
  }

  method WriteOpts(data: array<u8>, pos: nat, os: seq<OptHeader>, pads: seq<u8>) returns (next: nat)
    requires Fits(os) && |pads| == |os| && pos + |EncOpts(os, pads)| <= data.Length
    modifies data
    ensures next == pos + |EncOpts(os, pads)| && data[..] == Patched(old(data[..]), pos, EncOpts(os, pads))
  {
    hide EncOpt, EncOpts, Patched, Len, Fits;
    ghost var s0 := data[..];
    PatchNothing(s0, pos);
    NoOpts(os, pads);
    next := pos;
    for i := 0 to |os|
      invariant Fits(os[..i]) && next == pos + |EncOpts(os[..i], pads[..i])|
      invariant next <= data.Length && data[..] == Patched(s0, pos, EncOpts(os[..i], pads[..i]))
    {
      OptsGrow(os, pads, i);
      next := WriteOpt(data, next, os[i], pads[i]);
      PatchTwice(s0, pos, EncOpts(os[..i], pads[..i]), EncOpt(os[i], pads[i]));
    }
  }

  lemma NoOpts(os: seq<OptHeader>, pads: seq<u8>)
    requires Fits(os) && |pads| == |os|
    ensures Fits(os[..0]) && EncOpts(os[..0], pads[..0]) == [] && os[..|os|] == os && pads[..|pads|] == pads
  {
  }

  lemma {:induction false} OptsSnoc(os: seq<OptHeader>, pads: seq<u8>, o: OptHeader, pad: u8)
    requires Fits(os) && |pads| == |os| && Len(o) < CNT
    ensures Fits(os + [o]) && EncOpts(os + [o], pads + [pad]) == EncOpts(os, pads) + EncOpt(o, pad)
  {
    hide EncOpt, Len;
    if os == [] {
      assert [o][1..] == [] && [pad][1..] == [];
    } else {
      OptsSnoc(os[1..], pads[1..], o, pad);
      assert (os + [o])[1..] == os[1..] + [o] && (pads + [pad])[1..] == pads[1..] + [pad];
      Associative(EncOpt(os[0], pads[0]), EncOpts(os[1..], pads[1..]), EncOpt(o, pad));
    }
  }

  lemma Prefixes(os: seq<OptHeader>, pads: seq<u8>, i: nat)
    requires Fits(os) && |pads| == |os| && i < |os|
    ensures Len(os[i]) < CNT && Fits(os[..i]) && Fits(os[..i + 1])
    ensures os[..i + 1] == os[..i] + [os[i]] && pads[..i + 1] == pads[..i] + [pads[i]]
  {
  }

  lemma {:induction false} OptsLonger(os: seq<OptHeader>, pads: seq<u8>, i: nat)
    requires Fits(os) && |pads| == |os| && i <= |os|
    ensures Fits(os[..i]) && |EncOpts(os[..i], pads[..i])| <= |EncOpts(os, pads)|
    decreases |os| - i
  {
    hide EncOpt, EncOpts, Len, Fits;
    if i < |os| {
      Prefixes(os, pads, i);
      OptsLonger(os, pads, i + 1);
      OptsSnoc(os[..i], pads[..i], os[i], pads[i]);
    } else {
      NoOpts(os, pads);
    }
  }

  lemma OptsGrow(os: seq<OptHeader>, pads: seq<u8>, i: nat)
    requires Fits(os) && |pads| == |os| && i < |os|
    ensures Len(os[i]) < CNT && Fits(os[..i]) && Fits(os[..i + 1])
    ensures EncOpts(os[..i + 1], pads[..i + 1]) == EncOpts(os[..i], pads[..i]) + EncOpt(os[i], pads[i])
    ensures |EncOpts(os[..i + 1], pads[..i + 1])| <= |EncOpts(os, pads)|
  {
    hide EncOpt, EncOpts, Len, Fits;
    Prefixes(os, pads, i);
    OptsLonger(os, pads, i + 1);
    OptsSnoc(os[..i], pads[..i], os[i], pads[i]);
  }

  /** memcpy of the payload */
  method CopyData(data: array<u8>, pos: nat, bytes: seq<u8>) returns (next: nat)
    requires pos + |bytes| <= data.Length
    modifies data
    ensures next == pos + |bytes| && data[..] == Patched(old(data[..]), pos, bytes)
  {
    for i := 0 to |bytes|
      invariant data[..pos] == old(data[..pos]) && data[pos..pos + i] == bytes[..i]
      invariant data[pos + i..] == old(data[pos + i..])
    {
      data[pos + i] := bytes[i];
    }
    next := pos + |bytes|;
    assert data[..] == data[..pos] + data[pos..next] + data[next..];
  }

  // ---------------------------------------------------------------------------------------
  // Reading from a buffer
  // ---------------------------------------------------------------------------------------

  /** READ_INT_32 and READ_INT_64 */
  method ReadInt(data: array<u8>, pos: nat, k: nat) returns (v: nat)
    requires pos + k <= data.Length
    ensures v == Value(data[pos..pos + k])
  {
    v := 0;
    for i := 0 to k
      invariant v == Value(data[pos..pos + i])
    {
      assert data[pos..pos + (i + 1)][..i] == data[pos..pos + i];
      v := v * 256 + data[pos + i];
    }
  }

  /** READ_INT_16 */
  method Read16(data: array<u8>, pos: nat) returns (v: u16)
    requires pos + 2 <= data.Length
    ensures v == U16(data[pos..], 0) == U16(data[..], pos)
  {
    var hi: int := data[pos];
    v := hi * 256 + data[pos + 1];
  }

  /** PacketReadHeader.decode: entries are put in front of the list. */
  method ReadInfos(data: array<u8>, pos: nat, cnt: nat) returns (infos: seq<Info>)
    requires pos + 4 * cnt <= data.Length
    ensures infos == DecInfos(data[pos..], cnt)
  {
    infos := [];
    var at := pos;
    for x := 0 to cnt
      invariant at == pos + 4 * x && DecInfos(data[pos..], cnt) == DecInfos(data[at..], cnt - x) + infos
    {
      var flowId := Read16(data, at);
      var readUp := Read16(data, at + 2);
      assert data[at..][4..] == data[at + 4..];
      infos := [Info(flowId, readUp)] + infos;
      at := at + 4;
    }
  }

  /** The five decodeOptional...Header functions; a buffer that ends too early is refused. */
  method ReadBody(data: array<u8>, pos: nat, t: u8) returns (o: Option)
    requires pos <= data.Length
    ensures o == DecBody(t, data[pos..])
  {
    hide U16, Value, DecInfos;
    var dataLen := data.Length - pos;
    o := None;
    if t == 1 && dataLen >= 4 {
      var flowId := Read16(data, pos);
      var ackNo := Read16(data, pos + 2);
      Shifted(data[..], pos, 2);
      o := Some(AckHdr(flowId, ackNo));
    } else if t == 2 && dataLen >= 6 {
      assert data[pos + 2..pos + 6] == data[pos..][2..6];
      Bounds(data[pos + 2..pos + 6]);
      var ip := ReadInt(data, pos + 2, 4);
      o := Some(IpHdr(data[pos], data[pos + 1], ip));
    } else if t == 3 && dataLen >= 8 {
      assert data[pos..pos + 8] == data[pos..][..8];
      Bounds(data[pos..pos + 8]);
      var nonce := ReadInt(data, pos, 8);
      o := Some(NonceHdr(nonce));
    } else if t == 4 && dataLen >= 2 {
      o := Some(IpChangeHdr(data[pos], data[pos + 1]));
    } else if t == 5 && dataLen >= 2 {
      var cnt: nat := Read16(data, pos);
      if dataLen - 2 >= 4 * cnt {
        assert data[pos..][2..] == data[pos + 2..];
        var infos := ReadInfos(data, pos + 2, cnt);
        o := Some(ReadHdr(infos));
      }
    }
  }

  lemma Shifted(s: seq<u8>, pos: nat, i: nat)
    requires pos + i + 2 <= |s|
    ensures U16(s[pos..], i) == U16(s, pos + i)
  {
  }

  lemma Bounds(bs: seq<u8>)
    ensures |bs| == 4 ==> Value(bs) < 0x1_0000_0000 && U32(bs) == Value(bs)
    ensures |bs| == 8 ==> Value(bs) < 0x1_0000_0000_0000_0000 && U64(bs) == Value(bs)
  {
    Powers();
    ValueBelow(bs);
  }

  /** decodeOptionalHeader */
  method ReadOpt(data: array<u8>, pos: nat) returns (o: Option)
    requires pos <= data.Length
    ensures match DecOpt(data[pos..])
            case Err => o == None
            case Ok(x, rest) => o == Some(x) && pos + Len(x) <= data.Length && rest == data[pos + Len(x)..]
  {
    if data.Length - pos < 4 {
      return None;
    }
    hide U16, DecBody;
    var t := data[pos];
    var len := Read16(data, pos + 2);
    Shifted(data[..], pos, 2);
    assert data[pos..][4..] == data[pos + 4..];
    DecBodyLength(t, data[pos + 4..]);
    o := ReadBody(data, pos + 4, t);
    if o.Some? {
      if len != Len(o.value) {
        return None;
      }
      assert data[pos..][Len(o.value)..] == data[pos + Len(o.value)..];
    }
  }

  /** decodeHeader(data, dataLen); an assertion that would fail, or a short buffer, gives Err. */
  method DecodeHeader(data: array<u8>) returns (r: Parsed<Pkt>)
    ensures r == Decode(data[..])
  {
    if data.Length < PACKET_HEADER_SIZE {
      return Err;
    }
    hide DecOpts, DecHeader;
    var h := ReadHeader(data);
    var os, pos := ReadOpts(data, PACKET_HEADER_SIZE, data[0] % 16);
    if os == NoList {
      return Err;
    }
    r := Ok(Pkt(h, os.list, data[pos..]), []);
  }

  /** The list of optional headers, if none of them was refused */
  datatype OptList = NoList | List(list: seq<OptHeader>)

  /** The loop over the optional headers, each put in front of the list */
  method ReadOpts(data: array<u8>, start: nat, n: nat) returns (os: OptList, pos: nat)
    requires start <= data.Length
    ensures pos <= data.Length
    ensures match DecOpts(data[start..], n)
            case Err => os == NoList
            case Ok(value, rest) => os == List(value) && rest == data[pos..]
  {
    hide DecOpt, DecOpts, Followed;
    var ohlen, tmpHead := n, [];
    pos := start;
    AppendNothing(data[pos..], ohlen);
    while ohlen != 0
      invariant pos <= data.Length && 0 <= ohlen
      invariant DecOpts(data[start..], n) == Followed(DecOpts(data[pos..], ohlen), tmpHead)
    {
      var tmp := ReadOpt(data, pos);
      DecStep(data[pos..], ohlen, tmpHead);
      if tmp == None {
        return NoList, pos;
      }
      pos := pos + Len(tmp.value);
      tmpHead := [tmp.value] + tmpHead;
      ohlen := ohlen - 1;
    }
    DecEnd(data[pos..], tmpHead);
    os := List(tmpHead);
  }

  lemma DecStep(bs: seq<u8>, n: nat, os: seq<OptHeader>)
    requires n > 0
    ensures match DecOpt(bs)
            case Err => Followed(DecOpts(bs, n), os) == Err
            case Ok(o, rest) => Followed(DecOpts(bs, n), os) == Followed(DecOpts(rest, n - 1), [o] + os)
  {
    hide DecOpt;
    match DecOpt(bs)
    case Err =>
    case Ok(o, rest) => FollowedOnce(DecOpts(rest, n - 1), o, os);
  }

  lemma DecEnd(bs: seq<u8>, os: seq<OptHeader>)
    ensures Followed(DecOpts(bs, 0), os) == Ok(os, bs)
  {
    assert [] + os == os;
  }

  /** Headers read earlier come after those still to be read. */
  function Followed(r: Parsed<seq<OptHeader>>, os: seq<OptHeader>): Parsed<seq<OptHeader>> {
    match r
    case Err => Err
    case Ok(value, rest) => Ok(value + os, rest)
  }

  lemma AppendNothing(bs: seq<u8>, n: nat)
    ensures Followed(DecOpts(bs, n), []) == DecOpts(bs, n)
  {
    if DecOpts(bs, n).Ok? {
      assert DecOpts(bs, n).value + [] == DecOpts(bs, n).value;
    }
    hide DecOpts;
  }

  lemma FollowedOnce(r: Parsed<seq<OptHeader>>, o: OptHeader, os: seq<OptHeader>)
    ensures r.Ok? ==> Followed(Ok(r.value + [o], r.rest), os) == Followed(r, [o] + os)
  {
    if r.Ok? {
      assert (r.value + [o]) + os == r.value + ([o] + os);
    }
  }

  method ReadHeader(data: array<u8>) returns (h: Header)
    requires data.Length >= PACKET_HEADER_SIZE
    ensures h == DecHeader(data[..])
  {
    hide U16;
    var flag := Read16(data, 2);
    var seqNo := Read16(data, 4);
    var ackNo := Read16(data, 6);
    var window := Read16(data, 8);
    var fingerPrint := Read16(data, 10);
    var flowId := Read16(data, 12);
    var flowSeqNo := Read16(data, 14);
    var origAckNo := Read16(data, 16);
    var padding := Read16(data, 18);
    Bounds(data[20..28]);
    var sentTS := ReadInt(data, 20, 8);
    h := Header(data[0] / 16, data[1] / 16, data[1] % 16, flag, seqNo, ackNo, window, fingerPrint, flowId, flowSeqNo,
                origAckNo, padding, Signed(sentTS));
  }
}
