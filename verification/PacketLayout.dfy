/** Where the bytes of an encoded packet lie. */
module PacketLayouts {
  import opened SeqNum
  import opened PacketCodec

  /** `v >> 8 * i` */
  function ShiftRight(v: nat, i: nat): nat {
    if i == 0 then v else ShiftRight(v / 256, i - 1)
  }

  /** Byte `i` from the end of a number in network order. */
  lemma {:induction false} Digit(v: nat, k: nat, i: nat)
    requires i < k
    ensures BigEndian(v, k)[k - 1 - i] == ShiftRight(v, i) % 256
  {
    if i > 0 {
      Digit(v / 256, k - 1, i - 1);
    }
  }

  /**
   The fixed part of the header byte by byte: version and number of optional headers share the
   first byte, the interface numbers the second, nine 16-bit fields follow in network order, then
   the time stamp.
   */
  lemma HeaderLayout(h: Header, optCount: nat)
    ensures var bs := EncHeader(h, optCount);
      && bs[0] == h.version % 16 * 16 + optCount % 16 && bs[1] == h.ifcsrc % 16 * 16 + h.ifcdst % 16
      && At16(bs, 2, h.flag) && At16(bs, 4, h.seqNo) && At16(bs, 6, h.ackNo) && At16(bs, 8, h.window)
      && At16(bs, 10, h.fingerPrint) && At16(bs, 12, h.flowId) && At16(bs, 14, h.flowSeqNo)
      && At16(bs, 16, h.origAckNo) && At16(bs, 18, h.padding)
      && bs[20..] == BigEndian(if h.sentTS >= 0 then h.sentTS else h.sentTS + 0x1_0000_0000_0000_0000, 8)
  {
    hide EncHeader, BigEndian;
    FirstFields(h, optCount);
    MoreFields(h, optCount);
    LastFields(h, optCount);
  }

  lemma FirstFields(h: Header, optCount: nat)
    ensures var bs := EncHeader(h, optCount);
      && bs[0] == h.version % 16 * 16 + optCount % 16 && bs[1] == h.ifcsrc % 16 * 16 + h.ifcdst % 16
      && At16(bs, 2, h.flag) && At16(bs, 4, h.seqNo) && At16(bs, 6, h.ackNo)
  {
    hide BigEndian;
  }

  lemma MoreFields(h: Header, optCount: nat)
    ensures var bs := EncHeader(h, optCount);
      && At16(bs, 8, h.window) && At16(bs, 10, h.fingerPrint) && At16(bs, 12, h.flowId) && At16(bs, 14, h.flowSeqNo)
  {
    hide BigEndian, Nibbled;
  }

  lemma LastFields(h: Header, optCount: nat)
    ensures var bs := EncHeader(h, optCount);
      && At16(bs, 16, h.origAckNo) && At16(bs, 18, h.padding)
      && bs[20..] == BigEndian(if h.sentTS >= 0 then h.sentTS else h.sentTS + 0x1_0000_0000_0000_0000, 8)
  {
    hide BigEndian, Nibbled;
  }

  /** The number `v` lies at position `i`, high byte first. */
  predicate At16(bs: seq<u8>, i: nat, v: u16)
    requires i + 2 <= |bs|
  {
    bs[i] == v / 256 && bs[i + 1] == v % 256
  }

  /** One optional header byte by byte: its kind, a pad byte, its length, and its fields in network order. */
  lemma OptLayout(o: OptHeader, pad: u8)
    requires Len(o) < CNT
    ensures var bs := EncOpt(o, pad);
      && bs[1] == pad && At16(bs, 2, |bs|)
      && match o
         case AckHdr(flowId, ackNo) => |bs| == 8 && bs[0] == 1 && At16(bs, 4, flowId) && At16(bs, 6, ackNo)
         case IpHdr(ifcId, ifcType, ip) =>
           |bs| == 10 && bs[0] == 2 && bs[4] == ifcId && bs[5] == ifcType && bs[6..] == BigEndian(ip, 4)
         case NonceHdr(nonce) => |bs| == 12 && bs[0] == 3 && bs[4..] == BigEndian(nonce, 8)
         case IpChangeHdr(ifcId, ifcInfo) => |bs| == 6 && bs[0] == 4 && bs[4] == ifcId && bs[5] == ifcInfo
         case ReadHdr(infos) =>
           && |bs| == 6 + 4 * |infos| && bs[0] == 5 && At16(bs, 4, |infos|)
           && forall i :: 0 <= i < |infos| ==>
                At16(bs, 6 + 4 * i, infos[i].flowId) && At16(bs, 8 + 4 * i, infos[i].readUpto)
  {
    hide BigEndian;
    var bs := EncOpt(o, pad);
    if o.ReadHdr? {
      hide EncInfos;
      assert bs[6..] == EncInfos(o.infos);
      forall i | 0 <= i < |o.infos|
        ensures At16(bs, 6 + 4 * i, o.infos[i].flowId) && At16(bs, 8 + 4 * i, o.infos[i].readUpto)
      {
        InfoLayout(o.infos, i);
        assert forall x :: 0 <= x < 4 * |o.infos| ==> bs[6 + x] == bs[6..][x];
      }
    }
  }

  lemma {:induction false} InfoLayout(xs: seq<Info>, i: nat)
    requires i < |xs|
    ensures var bs := EncInfos(xs); At16(bs, 4 * i, xs[i].flowId) && At16(bs, 4 * i + 2, xs[i].readUpto)
  {
    if i > 0 {
      InfoLayout(xs[1..], i - 1);
    }
  }

  /** How many bytes the first `j` optional headers take. */
  function Bytes(os: seq<OptHeader>, j: nat): nat
    requires j <= |os|
  {
    if j == 0 then 0 else Bytes(os, j - 1) + Len(os[j - 1])
  }

  lemma {:induction false} BytesShift(os: seq<OptHeader>, j: nat)
    requires 0 < j <= |os|
    ensures Bytes(os, j) == Len(os[0]) + Bytes(os[1..], j - 1)
  {
    if j > 1 {
      BytesShift(os, j - 1);
    }
  }

  lemma {:induction false} OptsLayout(os: seq<OptHeader>, pads: seq<u8>, j: nat)
    requires Fits(os) && |pads| == |os| && j < |os|
    ensures var bs, at := EncOpts(os, pads), Bytes(os, j);
      |bs| == Bytes(os, |os|) && at + Len(os[j]) <= |bs| && bs[at..at + Len(os[j])] == EncOpt(os[j], pads[j])
    decreases |os|
  {
    hide EncOpt, Len, Bytes;
    OptsLength(os, pads);
    OptsSplit(os, pads);
    var first, rest := EncOpt(os[0], pads[0]), EncOpts(os[1..], pads[1..]);
    if j > 0 {
      BytesShift(os, j);
      OptsLayout(os[1..], pads[1..], j - 1);
      SliceOfRest(first, rest, Bytes(os[1..], j - 1), Len(os[j]));
    } else {
      NoBytes(os);
      SliceOfFirst(first, rest);
    }
  }

  lemma OptsSplit(os: seq<OptHeader>, pads: seq<u8>)
    requires Fits(os) && |pads| == |os| && os != []
    ensures EncOpts(os, pads) == EncOpt(os[0], pads[0]) + EncOpts(os[1..], pads[1..])
  {
  }

  lemma NoBytes(os: seq<OptHeader>)
    ensures Bytes(os, 0) == 0
  {
  }

  lemma SliceOfRest(first: seq<u8>, rest: seq<u8>, at: nat, len: nat)
    requires at + len <= |rest|
    ensures (first + rest)[|first| + at..|first| + at + len] == rest[at..at + len]
  {
  }

  lemma SliceOfFirst(first: seq<u8>, rest: seq<u8>)
    ensures (first + rest)[0..|first|] == first
  {
  }

  lemma {:induction false} OptsLength(os: seq<OptHeader>, pads: seq<u8>)
    requires Fits(os) && |pads| == |os|
    ensures |EncOpts(os, pads)| == Bytes(os, |os|)
  {
    hide EncOpt, Len;
    if os != [] {
      OptsLength(os[1..], pads[1..]);
      BytesShift(os, |os|);
    }
  }

  /** The whole packet: the fixed header, the optional headers in list order without gaps, and the payload. */
  lemma PacketLayout(p: Pkt, pads: seq<u8>)
    requires Fits(p.opts) && |pads| == |p.opts|
    ensures var bs, end := Encode(p, pads), PACKET_HEADER_SIZE + Bytes(p.opts, |p.opts|);
      && |bs| == end + |p.data| && bs[..28] == EncHeader(p.header, |p.opts|) && bs[end..] == p.data
      && forall j :: 0 <= j < |p.opts| ==>
           var at := 28 + Bytes(p.opts, j);
           at + Len(p.opts[j]) <= |bs| && bs[at..at + Len(p.opts[j])] == EncOpt(p.opts[j], pads[j])
  {
    hide EncHeader, EncOpts, EncOpt, Len, Bytes;
    var h, os := EncHeader(p.header, |p.opts|), EncOpts(p.opts, pads);
    OptsLength(p.opts, pads);
    forall j | 0 <= j < |p.opts|
      ensures var bs, at := Encode(p, pads), 28 + Bytes(p.opts, j);
        at + Len(p.opts[j]) <= |bs| && bs[at..at + Len(p.opts[j])] == EncOpt(p.opts[j], pads[j])
    {
      OptsLayout(p.opts, pads, j);
      var at, len := Bytes(p.opts, j), Len(p.opts[j]);
      assert (h + os + p.data)[28 + at..28 + at + len] == os[at..at + len];
    }
  }
}
