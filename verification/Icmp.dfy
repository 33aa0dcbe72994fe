/** ICMP echo framing: the Internet checksum of RFC 1071, and requests and replies on the wire. */
module Icmp {
  import opened Model

  type Byte = x: int | 0 <= x < 256

  const ECHO_REQUEST: Byte := 8
  const ECHO_REPLY: Byte := 0
  const ECHO_REQUEST6: Byte := 128
  const ECHO_REPLY6: Byte := 129

  // ----- checksum ----------------------------------------------------------------------------

  /** Two bytes in network order. */
  function Word(hi: Byte, lo: Byte): (w: nat)
    ensures w < 65536
  {
    var h: int := hi;
    h * 256 + lo
  }

  /** The sum of the 16-bit big-endian words, an odd last byte padded with zero. */
  function WordSum(data: seq<Byte>): nat {
    if |data| == 0 then 0
    else if |data| == 1 then Word(data[0], 0)
    else Word(data[0], data[1]) + WordSum(data[2..])
  }

  /** One's-complement reduction to 16 bits in closed form: 0 stays 0, all else lands in 1 .. 65535. */
  function OnesReduce(n: nat): nat {
    if n == 0 then 0 else (n - 1) % 65535 + 1
  }

  function Checksum(data: seq<Byte>): nat {
    65535 - OnesReduce(WordSum(data))
  }

  lemma FoldStep(n: nat)
    requires n >= 65536
    ensures n % 65536 + n / 65536 < n
    ensures OnesReduce(n % 65536 + n / 65536) == OnesReduce(n)
  {
    var q, r := n / 65536, n % 65536;
    assert n == 65535 * q + (q + r);
    assert q + r > 0;
    ModPlusMultiple(q, q + r - 1);
  }

  lemma ModPlusMultiple(q: nat, m: nat)
    ensures (65535 * q + m) % 65535 == m % 65535
  {
  }

  lemma {:induction false} WordSumSplits(a: seq<Byte>, b: seq<Byte>)
    requires |a| % 2 == 0
    ensures WordSum(a + b) == WordSum(a) + WordSum(b)
    decreases |a|
  {
    if a == [] {
      assert a + b == b;
    } else {
      assert (a + b)[2..] == a[2..] + b;
      WordSumSplits(a[2..], b);
    }
  }

  lemma PaddingAddsNothing(data: seq<Byte>)
    requires |data| % 2 == 1
    ensures WordSum(data + [0]) == WordSum(data)
  {
    var front, last := data[..|data| - 1], data[|data| - 1..];
    assert data == front + last && data + [0] == front + (last + [0]);
    WordSumSplits(front, last);
    WordSumSplits(front, last + [0]);
  }

  /** Folds the carries back in until 16 bits remain. */
  method FoldCarries(sum: nat) returns (total: nat)
    ensures total == OnesReduce(sum) <= 65535
  {
    total := sum;
    while total / 65536 != 0
      invariant OnesReduce(total) == OnesReduce(sum)
      decreases total
    {
      FoldStep(total);
      total := total % 65536 + total / 65536;
    }
  }

  method IcmpChecksum(data: seq<Byte>) returns (c: nat)
    ensures c == Checksum(data) <= 65535
  {
    var total: nat := 0;
    var padded := data;
    if |data| % 2 != 0 {
      PaddingAddsNothing(data);
      padded := data + [0];
    }
    for i := 0 to |padded| / 2
      invariant total == WordSum(padded[..2 * i])
    {
      OneMoreWord(padded, 2 * i);
      total := total + Word(padded[2 * i], padded[2 * i + 1]);
    }
    assert padded[..2 * (|padded| / 2)] == padded;
    total := FoldCarries(total);
    c := 65535 - total;
  }

  lemma OneMoreWord(data: seq<Byte>, i: nat)
    requires i + 1 < |data| && i % 2 == 0
    ensures WordSum(data[..i + 2]) == WordSum(data[..i]) + Word(data[i], data[i + 1])
  {
    var two := data[i..i + 2];
    assert data[..i + 2] == data[..i] + two;
    WordSumSplits(data[..i], two);
    assert two[2..] == [];
  }

  /** Adding a sum's own checksum to it makes the total a positive multiple of 65535. */
  lemma ChecksumCancels(n: nat)
    ensures OnesReduce(n + (65535 - OnesReduce(n))) == 65535
  {
    if n > 0 {
      var q, r := (n - 1) / 65535, (n - 1) % 65535;
      assert n + (65535 - (r + 1)) == 65535 * q + 65535;
      ModPlusMultiple(q, 65534);
      assert n + (65535 - OnesReduce(n)) - 1 == 65535 * q + 65534;
    }
  }

  // ----- echo messages -----------------------------------------------------------------------

  function Hi(n: int): Byte { n % 65536 / 256 }
  function Lo(n: int): Byte { n % 256 }

  /** The 8-byte echo header in network order, followed by the payload. */
  function Echo(kind: Byte, code: Byte, checksum: int, ident: int, sequence: int, payload: seq<Byte>): seq<Byte> {
    [kind, code, Hi(checksum), Lo(checksum), Hi(ident), Lo(ident), Hi(sequence), Lo(sequence)] + payload
  }

  function BuildEchoRequest(ident: int, sequence: int, payload: seq<Byte>): seq<Byte> {
    Echo(ECHO_REQUEST, 0, Checksum(Echo(ECHO_REQUEST, 0, 0, ident, sequence, payload)), ident, sequence, payload)
  }

  /** The checksum is left to the kernel, which alone knows the pseudo-header of section 2.3 of RFC 4443. */
  function BuildEchoRequest6(ident: int, sequence: int, payload: seq<Byte>): seq<Byte> {
    Echo(ECHO_REQUEST6, 0, 0, ident, sequence, payload)
  }

  datatype Parsed = Parsed(ident: nat, sequence: nat, payload: seq<Byte>)

  function ParseEcho(icmp: seq<Byte>, kind: Byte): Option<Parsed>
    requires |icmp| >= 8
  {
    if icmp[0] != kind then None
    else Some(Parsed(Word(icmp[4], icmp[5]), Word(icmp[6], icmp[7]), icmp[8..]))
  }

  function ParseEchoReply(packet: seq<Byte>): Option<Parsed> {
    if |packet| < 20 then None
    else if packet[0] / 16 != 4 then None
    else
      var ihl := packet[0] % 16 * 4;
      if ihl < 20 || |packet| < ihl + 8 then None else ParseEcho(packet[ihl..], ECHO_REPLY)
  }

  function ParseEchoReply6(packet: seq<Byte>): Option<Parsed> {
    if |packet| < 8 then None else ParseEcho(packet, ECHO_REPLY6)
  }

  lemma HeaderSum(kind: Byte, code: Byte, checksum: int, ident: int, sequence: int, payload: seq<Byte>)
    ensures WordSum(Echo(kind, code, checksum, ident, sequence, payload)) ==
            Word(kind, code) + checksum % 65536 + ident % 65536 + sequence % 65536 + WordSum(payload)
  {
    var h: seq<Byte> := [kind, code, Hi(checksum), Lo(checksum), Hi(ident), Lo(ident), Hi(sequence), Lo(sequence)];
    WordSumSplits(h, payload);
    var h6, h4, h2 := h[2..], h[4..], h[6..];
    assert h6[2..] == h4 && h4[2..] == h2 && h2[2..] == [];
    assert WordSum(h2) == Word(Hi(sequence), Lo(sequence));
    assert WordSum(h4) == Word(Hi(ident), Lo(ident)) + WordSum(h2);
    assert WordSum(h6) == Word(Hi(checksum), Lo(checksum)) + WordSum(h4);
    TwoBytes(checksum);
    TwoBytes(ident);
    TwoBytes(sequence);
  }

  lemma TwoBytes(n: int)
    ensures Word(Hi(n), Lo(n)) == n % 65536
  {
    var r := n % 65536;
    var q, l := r / 256, r % 256;
    assert r == 256 * q + l;
    assert n == 256 * (256 * (n / 65536) + q) + l;
    RemainderOf(256 * (n / 65536) + q, l);
  }

  lemma RemainderOf(q: int, l: nat)
    requires l < 256
    ensures (256 * q + l) % 256 == l
  {
  }

  /** Every request built, whatever its identifier, sequence and payload (of odd or even length), carries a
      checksum that makes the receiver's recomputation come out as 0. */
  lemma RequestChecksumIsZero(ident: int, sequence: int, payload: seq<Byte>)
    ensures Checksum(BuildEchoRequest(ident, sequence, payload)) == 0
  {
    var blank := Echo(ECHO_REQUEST, 0, 0, ident, sequence, payload);
    var c := Checksum(blank);
    HeaderSum(ECHO_REQUEST, 0, 0, ident, sequence, payload);
    HeaderSum(ECHO_REQUEST, 0, c, ident, sequence, payload);
    ChecksumCancels(WordSum(blank));
  }

  /** An IPv4 header of any legal length. */
  ghost predicate Ipv4Header(h: seq<Byte>) {
    20 <= |h| <= 60 && |h| % 4 == 0 && h[0] == 64 + |h| / 4
  }

  /** `packet` is an echo reply with this identifier, sequence and payload behind an IPv4 header. */
  ghost predicate IsReply(packet: seq<Byte>, p: Parsed) {
    && p.ident < 65536 && p.sequence < 65536
    && exists h, code: Byte, checksum: nat :: Ipv4Header(h) && packet == h + Echo(ECHO_REPLY, code, checksum, p.ident, p.sequence, p.payload)
  }

  /** The parser accepts exactly the echo replies, and reads off their identifier, sequence and payload. */
  lemma ParsesExactlyReplies(packet: seq<Byte>, p: Parsed)
    ensures ParseEchoReply(packet) == Some(p) <==> IsReply(packet, p)
  {
    if IsReply(packet, p) {
      var h, code: Byte, checksum: nat :| Ipv4Header(h) && packet == h + Echo(ECHO_REPLY, code, checksum, p.ident, p.sequence, p.payload);
      ReplyParses(h, code, checksum, p);
    }
    if ParseEchoReply(packet) == Some(p) {
      ParsedIsReply(packet, p);
    }
  }

  lemma ReplyParses(h: seq<Byte>, code: Byte, checksum: nat, p: Parsed)
    requires Ipv4Header(h) && p.ident < 65536 && p.sequence < 65536
    ensures ParseEchoReply(h + Echo(ECHO_REPLY, code, checksum, p.ident, p.sequence, p.payload)) == Some(p)
  {
    var icmp := Echo(ECHO_REPLY, code, checksum, p.ident, p.sequence, p.payload);
    var packet := h + icmp;
    HeaderLength(h);
    SmallBytes(p.ident);
    SmallBytes(p.sequence);
    hide Hi, Lo, Word;
    assert packet[|h|..] == icmp && icmp[8..] == p.payload;
  }

  lemma SmallBytes(n: nat)
    requires n < 65536
    ensures Word(Hi(n), Lo(n)) == n
  {
    TwoBytes(n);
    assert n % 65536 == n;
  }

  lemma HeaderLength(h: seq<Byte>)
    requires Ipv4Header(h)
    ensures h[0] / 16 == 4 && h[0] % 16 * 4 == |h|
  {
    var n := |h| / 4;
    assert 5 <= n <= 15 && |h| == 4 * n;
  }

  lemma ParsedIsReply(packet: seq<Byte>, p: Parsed)
    requires ParseEchoReply(packet) == Some(p)
    ensures IsReply(packet, p)
  {
    var n := packet[0] % 16;
    var h, icmp := packet[..n * 4], packet[n * 4..];
    assert packet == h + icmp && Ipv4Header(h);
    var checksum := Word(icmp[2], icmp[3]);
    Unpack(icmp[2], icmp[3]);
    Unpack(icmp[4], icmp[5]);
    Unpack(icmp[6], icmp[7]);
    var echo := Echo(ECHO_REPLY, icmp[1], checksum, p.ident, p.sequence, p.payload);
    assert icmp == icmp[..8] + icmp[8..];
    assert icmp[..8] == [ECHO_REPLY, icmp[1], Hi(checksum), Lo(checksum), Hi(p.ident), Lo(p.ident), Hi(p.sequence), Lo(p.sequence)];
    assert icmp == echo;
  }

  lemma Unpack(hi: Byte, lo: Byte)
    ensures Hi(Word(hi, lo)) == hi && Lo(Word(hi, lo)) == lo
  {
    var w := Word(hi, lo);
    assert w % 65536 == w;
    DivideBack(hi, lo);
  }

  lemma DivideBack(q: nat, r: nat)
    requires r < 256
    ensures (256 * q + r) / 256 == q && (256 * q + r) % 256 == r
  {
  }

  /** The answer a conforming host sends to `request`: same identifier, sequence and payload, type 0. */
  function ReplyTo(header: seq<Byte>, request: seq<Byte>, code: Byte, c1: Byte, c2: Byte): seq<Byte>
    requires |request| >= 8
  {
    header + [ECHO_REPLY, code, c1, c2] + request[4..]
  }

  /** Request, reply behind any legal IPv4 header, parse: identifier and sequence come back modulo 2^16, the
      payload (and so the nonce) as it was sent. */
  lemma EchoRoundTrip(header: seq<Byte>, ident: int, sequence: int, payload: seq<Byte>, code: Byte, c1: Byte, c2: Byte)
    requires Ipv4Header(header)
    ensures ParseEchoReply(ReplyTo(header, BuildEchoRequest(ident, sequence, payload), code, c1, c2)) ==
            Some(Parsed(ident % 65536, sequence % 65536, payload))
  {
    var request := BuildEchoRequest(ident, sequence, payload);
    var i, s := ident % 65536, sequence % 65536;
    var packet := ReplyTo(header, request, code, c1, c2);
    Unpack(c1, c2);
    SameBytes(ident);
    SameBytes(sequence);
    assert request[4..] == [Hi(ident), Lo(ident), Hi(sequence), Lo(sequence)] + payload;
    assert packet == header + Echo(ECHO_REPLY, code, Word(c1, c2), i, s, payload);
    ParsesExactlyReplies(packet, Parsed(i, s, payload));
  }

  lemma SameBytes(n: int)
    ensures Hi(n % 65536) == Hi(n) && Lo(n % 65536) == Lo(n)
  {
    TwoBytes(n);
    TwoBytes(n % 65536);
  }

  /** The same for ICMPv6, where the kernel strips the IPv6 header; and neither family's parser takes a request. */
  lemma EchoRoundTrip6(ident: int, sequence: int, payload: seq<Byte>, code: Byte, c1: Byte, c2: Byte)
    ensures ParseEchoReply6([ECHO_REPLY6, code, c1, c2] + BuildEchoRequest6(ident, sequence, payload)[4..]) ==
            Some(Parsed(ident % 65536, sequence % 65536, payload))
    ensures ParseEchoReply6(BuildEchoRequest6(ident, sequence, payload)) == None
  {
    var packet: seq<Byte> := [ECHO_REPLY6, code, c1, c2] + BuildEchoRequest6(ident, sequence, payload)[4..];
    assert BuildEchoRequest6(ident, sequence, payload)[4..] == [Hi(ident), Lo(ident), Hi(sequence), Lo(sequence)] + payload;
    assert packet[8..] == payload;
    TwoBytes(ident);
    TwoBytes(sequence);
  }
}
