/** The Internet checksum (sections 1 and 2 of RFC 1071) and the buffer udp4_checksum computes it over. */
module Checksums {

  type u8 = x: int | 0 <= x < 256
  type u16 = x: int | 0 <= x < 65536

  const IP_MAXPACKET := 65535

  /** The sum of the 16-bit words as a little-endian machine loads them, a last odd byte taken as it is. */
  function WordSum(bs: seq<u8>): nat
    decreases |bs|
  {
    if |bs| == 0 then 0
    else if |bs| == 1 then bs[0]
    else bs[0] + 256 * (bs[1] as int) + WordSum(bs[2..])
  }

  /** `while (sum >> 16) sum = (sum & 0xffff) + (sum >> 16)` */
  function Fold(sum: nat): (f: u16)
    decreases sum
  {
    if sum < 65536 then sum else Fold(sum % 65536 + sum / 65536)
  }

  /** Folding keeps the sum modulo 65535 and yields 0 only from 0. */
  lemma {:induction false} FoldKeeps(sum: nat)
    ensures Fold(sum) % 65535 == sum % 65535
    ensures Fold(sum) == 0 <==> sum == 0
    decreases sum
  {
    if sum >= 65536 {
      FoldKeeps(sum % 65536 + sum / 65536);
      FoldOnce(sum);
    }
  }

  lemma FoldOnce(sum: nat)
    ensures (sum % 65536 + sum / 65536) % 65535 == sum % 65535
  {
    assert sum == 65535 * (sum / 65536) + (sum % 65536 + sum / 65536);
    ModShift(sum % 65536 + sum / 65536, sum / 65536);
  }

  lemma {:induction false} ModShift(x: nat, k: nat)
    ensures (65535 * k + x) % 65535 == x % 65535
  {
    if k > 0 {
      ModShift(x, k - 1);
      assert (65535 * k + x) == 65535 * (k - 1) + x + 65535;
    }
  }

  /** No 32-bit overflow for anything that fits a packet. */
  lemma {:induction false} SumBounded(bs: seq<u8>)
    ensures WordSum(bs) <= 65535 * ((|bs| + 1) / 2)
    decreases |bs|
  {
    if |bs| >= 2 {
      SumBounded(bs[2..]);
    }
  }

  function Checksum(bs: seq<u8>): u16 {
    65535 - Fold(WordSum(bs))
  }

  /** checksum(addr, len); the sum fits 32 bits all along. */
  method Compute(addr: array<u8>, len: nat) returns (answer: u16)
    requires len <= addr.Length && len <= IP_MAXPACKET
    ensures answer == Checksum(addr[..len])
  {
    var at, count, sum := 0, len, 0;
    while count > 1
      invariant 0 <= at <= len && count == len - at
      invariant sum >= 0 && WordSum(addr[..len]) == sum + WordSum(addr[at..len])
    {
      assert addr[at..len][2..] == addr[at + 2..len];
      var high: int := addr[at + 1];
      sum := sum + addr[at] + 256 * high;
      at, count := at + 2, count - 2;
    }
    if count > 0 {
      sum := sum + addr[at];
    }
    SumBounded(addr[..len]);
    assert sum == WordSum(addr[..len]) < 0x1_0000_0000;
    while sum / 65536 != 0
      invariant 0 <= sum < 0x1_0000_0000 && Fold(sum) == Fold(WordSum(addr[..len]))
      decreases sum
    {
      sum := sum % 65536 + sum / 65536;
    }
    answer := 65535 - sum;
  }

  // ---------------------------------------------------------------------------------------
  // A filled-in checksum
  // ---------------------------------------------------------------------------------------

  /** The word at the even position `at` replaced by `c`, low byte first. */
  function Filled(bs: seq<u8>, at: nat, c: u16): seq<u8>
    requires at + 2 <= |bs|
  {
    bs[at := c % 256][at + 1 := c / 256]
  }

  lemma {:induction false} FilledSum(bs: seq<u8>, at: nat, c: u16)
    requires at + 2 <= |bs| && at % 2 == 0 && bs[at] == 0 && bs[at + 1] == 0
    ensures WordSum(Filled(bs, at, c)) == WordSum(bs) + c
    decreases at
  {
    var fs := Filled(bs, at, c);
    if at == 0 {
      assert fs[2..] == bs[2..];
    } else {
      FilledSum(bs[2..], at - 2, c);
      assert fs[2..] == Filled(bs[2..], at - 2, c);
    }
  }

  /** A buffer whose zeroed, aligned checksum field is filled with its checksum checks to 0. */
  lemma FilledChecks(bs: seq<u8>, at: nat)
    requires at + 2 <= |bs| && at % 2 == 0 && bs[at] == 0 && bs[at + 1] == 0
    ensures Checksum(Filled(bs, at, Checksum(bs))) == 0
  {
    var c, sum := Checksum(bs), WordSum(bs);
    FilledSum(bs, at, c);
    FoldKeeps(sum);
    FoldKeeps(sum + c);
    assert sum % 65535 == Fold(sum) % 65535;
    AddsToZero(sum, Fold(sum));
  }

  lemma AddsToZero(sum: nat, f: u16)
    requires sum % 65535 == f % 65535
    ensures (sum + (65535 - f)) % 65535 == 0
  {
    var q := sum / 65535;
    var p: int := f / 65535;
    assert sum + (65535 - f) == 65535 * (q - p + 1);
  }

  // ---------------------------------------------------------------------------------------
  // The UDP pseudo-header
  // ---------------------------------------------------------------------------------------

  /** Addresses, protocol and ports as they lie in memory; lengths are two bytes in network order. */
  datatype Udp = Udp(src: seq<u8>, dst: seq<u8>, protocol: u8, len: seq<u8>, source: seq<u8>, dest: seq<u8>)

  predicate WellFormed(u: Udp) {
    |u.src| == 4 && |u.dst| == 4 && |u.len| == 2 && |u.source| == 2 && |u.dest| == 2
  }

  /** Where the checksum field lies. */
  const CHECK_AT := 18

  /**
   What the checksum is computed over: pseudo-header, header with a zero checksum, payload, padding
   to an even length.
   */
  function Covered(u: Udp, payload: seq<u8>): seq<u8> {
    Headers(u) + payload + if |payload| % 2 == 1 then [0] else []
  }

  function Headers(u: Udp): seq<u8> {
    u.src + u.dst + [0] + [u.protocol] + u.len + u.source + u.dest + u.len + [0, 0]
  }

  /**
   The bytes in order: both addresses, a zero byte, the protocol and the length of the pseudo-header,
   then both ports, the length again, a zero checksum and the payload (RFC 768), padded with a zero
   byte to an even length.
   */
  lemma Layout(u: Udp, payload: seq<u8>)
    requires WellFormed(u)
    ensures var bs := Covered(u, payload);
      && |bs| == 20 + |payload| + |payload| % 2
      && bs[0..4] == u.src && bs[4..8] == u.dst && bs[8] == 0 && bs[9] == u.protocol && bs[10..12] == u.len
      && bs[12..14] == u.source && bs[14..16] == u.dest && bs[16..18] == u.len && bs[18] == 0 && bs[19] == 0
      && bs[20..20 + |payload|] == payload && (|payload| % 2 == 1 ==> bs[20 + |payload|] == 0)
  {
    var h := Headers(u);
    assert h[0..4] == u.src && h[4..8] == u.dst && h[10..12] == u.len;
    assert h[12..14] == u.source && h[14..16] == u.dest && h[16..18] == u.len;
    assert h[8] == 0 && h[9] == u.protocol && h[18] == 0 && h[19] == 0;
    var bs := Covered(u, payload);
    hide Headers;
    assert bs[..20] == h;
    assert forall i, j :: 0 <= i <= j <= 20 ==> bs[i..j] == bs[..20][i..j];
  }

  method CopyIn(buf: array<u8>, at: nat, bytes: seq<u8>) returns (next: nat)
    requires at + |bytes| <= buf.Length
    modifies buf
    ensures next == at + |bytes| && buf[..next] == old(buf[..at]) + bytes
  {
    for i := 0 to |bytes|
      invariant buf[..at + i] == old(buf[..at]) + bytes[..i]
    {
      buf[at + i] := bytes[i];
      assert buf[..at + (i + 1)] == buf[..at + i] + [bytes[i]];
    }
    next := at + |bytes|;
  }

  /** udp4_checksum(iphdr, udpheader, payload, payloadlen) */
  method Udp4Checksum(u: Udp, payload: seq<u8>) returns (check: u16)
    requires WellFormed(u) && |payload| + 21 <= IP_MAXPACKET
    ensures check == Checksum(Covered(u, payload))
  {
    hide Checksum, Headers;
    var buf := new u8[IP_MAXPACKET](_ => 0);
    var len := CopyHeaders(buf, u);
    len := CopyIn(buf, len, payload);
    if |payload| % 2 == 1 {
      len := CopyIn(buf, len, [0]);
    } else {
      assert Headers(u) + payload + [] == Headers(u) + payload;
    }
    check := Compute(buf, len);
  }

  method CopyHeaders(buf: array<u8>, u: Udp) returns (len: nat)
    requires WellFormed(u) && buf.Length >= 20
    modifies buf
    ensures len == 20 && buf[..len] == Headers(u)
  {
    len := CopyIn(buf, 0, u.src);
    len := CopyIn(buf, len, u.dst);
    len := CopyIn(buf, len, [0]);
    len := CopyIn(buf, len, [u.protocol]);
    len := CopyIn(buf, len, u.len);
    len := CopyIn(buf, len, u.source);
    len := CopyIn(buf, len, u.dest);
    len := CopyIn(buf, len, u.len);
    len := CopyIn(buf, len, [0, 0]);
    assert buf[..0] + u.src == u.src;
  }

  /** A datagram sent with the checksum in place checks to 0 at the receiver. */
  lemma UdpChecks(u: Udp, payload: seq<u8>)
    requires WellFormed(u)
    ensures var bs := Covered(u, payload);
      CHECK_AT + 2 <= |bs| && Checksum(Filled(bs, CHECK_AT, Checksum(bs))) == 0
  {
    var bs := Covered(u, payload);
    assert bs[CHECK_AT] == 0 && bs[CHECK_AT + 1] == 0;
    hide Covered;
    FilledChecks(bs, CHECK_AT);
  }
}
