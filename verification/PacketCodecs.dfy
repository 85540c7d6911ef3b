/**
 The field-by-field packet codecs: Ipv4Packet with TcpPacket and UdpPacket inside, and IcmpPacket.
 Each class reads its fields off a buffer and writes them out again with a fresh checksum.
 */
module PacketCodecs {
  import opened Wrappers
  import opened Bytes
  import opened IPUtil
  import C = CheckSum
  import I = IpLayerPacket

  // ----- the decoded values -----

  datatype Tcp = Tcp(srcPort: int, dstPort: int, seqNo: nat, ack: nat, flags: int, window: int,
                     checksum: int, urgentPointer: int, options: seq<byte>, payload: seq<byte>)

  datatype Udp = Udp(srcPort: int, dstPort: int, len: int, checksum: int, payload: seq<byte>)

  datatype Icmp = Icmp(kind: byte, code: byte, checksum: int, identifier: int, sequence: int,
                       timestamp: nat, payload: seq<byte>)

  datatype Ipv4 = Ipv4(version: int, diffServices: byte, identifier: int, flags: int, liveTime: byte,
                       protocol: byte, checksum: int, srcIP: string, dstIP: string, payload: seq<byte>)

  /** The data offset in octets. */
  function TcpHeadLen(s: seq<byte>): nat
    requires |s| >= 20
  {
    s[12] / 16 * 4
  }

  /** Slices past the end or of negative length throw. */
  predicate TcpDecodable(s: seq<byte>) {
    |s| >= 20 && 20 <= TcpHeadLen(s) <= |s|
  }

  function DecodeTcp(s: seq<byte>): Tcp
    requires TcpDecodable(s)
  {
    Tcp(U16(s, 0), U16(s, 2), Unsigned(s[4..8]), Unsigned(s[8..12]), U16(s, 12), U16(s, 14),
        U16(s, 16), U16(s, 18), s[20..TcpHeadLen(s)], s[TcpHeadLen(s)..])
  }

  function WriteTcp(t: Tcp, checksum: int): seq<byte> {
    S16(t.srcPort) + S16(t.dstPort) + BigEndian(t.seqNo, 4) + BigEndian(t.ack, 4) + S16(t.flags) + S16(t.window)
    + S16(checksum) + S16(t.urgentPointer) + t.options + t.payload
  }

  predicate UdpDecodable(s: seq<byte>) {
    |s| >= 8 && 8 <= U16(s, 4) <= |s|
  }

  function DecodeUdp(s: seq<byte>): Udp
    requires UdpDecodable(s)
  {
    Udp(U16(s, 0), U16(s, 2), U16(s, 4), U16(s, 6), s[8..U16(s, 4)])
  }

  function WriteUdp(u: Udp, checksum: int): seq<byte> {
    S16(u.srcPort) + S16(u.dstPort) + S16(u.len) + S16(checksum) + u.payload
  }

  predicate IcmpDecodable(s: seq<byte>) {
    |s| >= 16
  }

  function DecodeIcmp(s: seq<byte>): Icmp
    requires IcmpDecodable(s)
  {
    Icmp(s[0], s[1], U16(s, 2), U16(s, 4), U16(s, 6), Unsigned(s[8..16]), s[16..])
  }

  function WriteIcmp(i: Icmp, checksum: int): seq<byte> {
    [i.kind, i.code] + S16(checksum) + S16(i.identifier) + S16(i.sequence) + BigEndian(i.timestamp, 8) + i.payload
  }

  function EncodeIcmp(i: Icmp): seq<byte> {
    WriteIcmp(i, I.Checksum([], WriteIcmp(i, 0)))
  }

  predicate Ipv4Writable(p: Ipv4) {
    IsIp(p.srcIP) && IsIp(p.dstIP)
  }

  function DecodeIpv4(b: seq<byte>): (p: Ipv4)
    requires I.IsPacket(b)
  {
    Ipv4(b[0] / 16, b[1], U16(b, 4), U16(b, 6), b[8], b[9], U16(b, 10), I.SrcIP(b), I.DstIP(b), b[20..])
  }

  /** A fixed header of five words; the total length counts the payload. */
  function WriteHeader(p: Ipv4, checksum: int): seq<byte>
    requires Ipv4Writable(p)
  {
    [(p.version * 16 + 5) % 256, p.diffServices] + S16(20 + |p.payload|) + S16(p.identifier) + S16(p.flags)
    + [p.liveTime, p.protocol] + S16(checksum) + Ip2Bytes(p.srcIP) + Ip2Bytes(p.dstIP)
  }

  function Pseudo(p: Ipv4): (r: seq<byte>)
    requires Ipv4Writable(p)
    ensures |r| == 12
  {
    Ip2Bytes(p.srcIP) + Ip2Bytes(p.dstIP) + [0, p.protocol] + S16(|p.payload|)
  }

  // ----- what a receiver computes -----

  /** The words of the pseudo-header: both addresses, the protocol, the length of what the packet carries. */
  function PseudoSum(p: Ipv4): nat
    requires Ipv4Writable(p)
  {
    var (src, dst) := (Ip2Bytes(p.srcIP), Ip2Bytes(p.dstIP));
    U16(src, 0) + U16(src, 2) + U16(dst, 0) + U16(dst, 2) + p.protocol + |p.payload|
  }

  /** Pseudo-header and segment sum to 0xffff. */
  predicate Accepted(pseudo: nat, s: seq<byte>) {
    C.Fold(pseudo + C.WordSum(s)) == 0xffff
  }

  /** The segment with a zero checksum has an odd length and ends in an octet of 0x80 or more, and the sum
      does not fit 16 bits. */
  predicate Overflows(pseudo: nat, zeroed: seq<byte>) {
    |zeroed| % 2 == 1 && zeroed[|zeroed| - 1] >= 128 && pseudo + C.WordSum(zeroed) >= 0x1_0000
  }

  lemma PseudoSums(p: Ipv4)
    requires Ipv4Writable(p) && |p.payload| <= 65535
    ensures C.WordSum(Pseudo(p)) == PseudoSum(p)
  {
    var s := Pseudo(p);
    assert U16(s, 8) == p.protocol && U16(s, 10) == |p.payload|;
    hide S16, IsIp, Ip2Bytes, U16;
    var (src, dst) := (Ip2Bytes(p.srcIP), Ip2Bytes(p.dstIP));
    SameWord(s, src, 0, 0);
    SameWord(s, src, 2, 2);
    SameWord(s, dst, 4, 0);
    SameWord(s, dst, 6, 2);
    I.SixWords(s);
  }

  lemma ComputedIsAccepted(prefix: seq<byte>, zeroed: seq<byte>, at: nat)
    requires (|prefix| == 12 || prefix == []) && at % 2 == 0 && at + 2 <= |zeroed| <= 65535 - 20
    requires zeroed == Put(zeroed, at, S16(0))
    ensures Accepted(C.WordSum(prefix), Put(zeroed, at, S16(I.Checksum(prefix, zeroed)))) <==>
      !Overflows(C.WordSum(prefix), zeroed)
  {
    hide Put, S16, C.HighLow, C.JavaSum, C.WordSum, I.Checksum;
    I.SumsFit(prefix, zeroed);
    C.StoredChecksumVerifies(prefix, zeroed, at, zeroed, I.Checksum(prefix, zeroed));
  }

  lemma TcpAccepted(t: Tcp, p: Ipv4)
    requires Ipv4Writable(p) && |p.payload| <= 65535 && |WriteTcp(t, 0)| <= 65535 - 20
    ensures Accepted(PseudoSum(p), EncodeTcp(t, p)) <==> !Overflows(PseudoSum(p), WriteTcp(t, 0))
  {
    hide IsIp, Pseudo, PseudoSum, Accepted, Overflows, I.Checksum, S16, BigEndian;
    PseudoSums(p);
    ComputedIsAccepted(Pseudo(p), WriteTcp(t, 0), 16);
    assert forall c :: WriteTcp(t, c) == Put(WriteTcp(t, 0), 16, S16(c));
  }

  lemma UdpAccepted(u: Udp, p: Ipv4)
    requires Ipv4Writable(p) && |p.payload| <= 65535 && |WriteUdp(u, 0)| <= 65535 - 20
    ensures Accepted(PseudoSum(p), EncodeUdp(u, p)) <==> !Overflows(PseudoSum(p), WriteUdp(u, 0))
  {
    hide IsIp, Pseudo, PseudoSum, Accepted, Overflows, I.Checksum, S16;
    PseudoSums(p);
    ComputedIsAccepted(Pseudo(p), WriteUdp(u, 0), 6);
    assert forall c :: WriteUdp(u, c) == Put(WriteUdp(u, 0), 6, S16(c));
  }

  lemma IcmpAccepted(i: Icmp)
    requires |WriteIcmp(i, 0)| <= 65535 - 20
    ensures Accepted(0, EncodeIcmp(i)) <==> !Overflows(0, WriteIcmp(i, 0))
  {
    hide Accepted, Overflows, I.Checksum, S16, BigEndian;
    ComputedIsAccepted([], WriteIcmp(i, 0), 2);
    assert forall c :: WriteIcmp(i, c) == Put(WriteIcmp(i, 0), 2, S16(c));
    I.NothingSums();
  }

  lemma HeaderAccepted(p: Ipv4)
    requires Ipv4Writable(p)
    ensures Accepted(0, WriteHeader(p, I.Checksum([], WriteHeader(p, 0))))
  {
    hide Accepted, I.Checksum, S16, IsIp, Ip2Bytes;
    ComputedIsAccepted([], WriteHeader(p, 0), 10);
    assert WriteHeader(p, I.Checksum([], WriteHeader(p, 0))) ==
      Put(WriteHeader(p, 0), 10, S16(I.Checksum([], WriteHeader(p, 0))));
    I.NothingSums();
  }

  function EncodeTcp(t: Tcp, p: Ipv4): seq<byte>
    requires Ipv4Writable(p)
  {
    WriteTcp(t, I.Checksum(Pseudo(p), WriteTcp(t, 0)))
  }

  function EncodeUdp(u: Udp, p: Ipv4): seq<byte>
    requires Ipv4Writable(p)
  {
    WriteUdp(u, I.Checksum(Pseudo(p), WriteUdp(u, 0)))
  }

  /** TCP and UDP payloads are decoded and encoded again; anything else is copied. */
  function EncodePayload(p: Ipv4): Option<seq<byte>>
    requires Ipv4Writable(p)
  {
    if p.protocol == I.TCP then
      if TcpDecodable(p.payload) then Some(EncodeTcp(DecodeTcp(p.payload), p)) else None
    else if p.protocol == I.UDP then
      if UdpDecodable(p.payload) then Some(EncodeUdp(DecodeUdp(p.payload), p)) else None
    else Some(p.payload)
  }

  function EncodeIpv4(p: Ipv4): Option<seq<byte>>
    requires Ipv4Writable(p)
  {
    match EncodePayload(p)
    case None => None
    case Some(payload) => Some(WriteHeader(p, I.Checksum([], WriteHeader(p, 0))) + payload)
  }

  // ----- the classes -----

  /** CheckSum.calcHighLow over a pseudo-header and a segment, as the codecs call it. */
  method CalcChecksum(ipHeader: seq<byte>, segment: seq<byte>) returns (sum: int)
    ensures sum == I.Checksum(ipHeader, segment)
  {
    hide C.JavaSum, C.HighLow, Int32;
    sum := C.CalcTcpUdp(ipHeader);
    var s := C.CalcTcpUdp(segment);
    Int32Sum(C.JavaSum(ipHeader), C.JavaSum(segment));
    sum := C.CalcHighLow(Int32(sum + s));
  }

  /** A buffer and how far it has been read. */
  class ByteBuf {
    const data: seq<byte>
    var readerIndex: nat

    constructor (data: seq<byte>)
      ensures this.data == data && readerIndex == 0
    {
      this.data := data;
      readerIndex := 0;
    }

    method ReadByte() returns (v: byte)
      requires readerIndex < |data|
      modifies this`readerIndex
      ensures v == data[old(readerIndex)] && readerIndex == old(readerIndex) + 1
    {
      v := data[readerIndex];
      readerIndex := readerIndex + 1;
    }

    method ReadUnsignedShort() returns (v: int)
      requires readerIndex + 2 <= |data|
      modifies this`readerIndex
      ensures v == U16(data, old(readerIndex)) && readerIndex == old(readerIndex) + 2
    {
      v := U16(data, readerIndex);
      readerIndex := readerIndex + 2;
    }

    method ReadUnsigned(n: nat) returns (v: nat)
      requires readerIndex + n <= |data|
      modifies this`readerIndex
      ensures v == Unsigned(data[old(readerIndex)..old(readerIndex) + n]) && readerIndex == old(readerIndex) + n
    {
      v := Unsigned(data[readerIndex..readerIndex + n]);
      readerIndex := readerIndex + n;
    }

    method ReadSlice(n: nat) returns (v: seq<byte>)
      requires readerIndex + n <= |data|
      modifies this`readerIndex
      ensures v == data[old(readerIndex)..old(readerIndex) + n] && readerIndex == old(readerIndex) + n
    {
      v := data[readerIndex..readerIndex + n];
      readerIndex := readerIndex + n;
    }
  }

  class TcpPacket {
    var value: Tcp

    constructor Decode(byteBuf: seq<byte>)
      requires TcpDecodable(byteBuf)
      ensures value == DecodeTcp(byteBuf) && WriteTcp(value, value.checksum) == byteBuf
    {
      hide Unsigned, U16, WriteTcp;
      var buf := new ByteBuf(byteBuf);
      var srcPort := buf.ReadUnsignedShort();
      var dstPort := buf.ReadUnsignedShort();
      var seqNo := buf.ReadUnsigned(4);
      var ack := buf.ReadUnsigned(4);
      var flags := buf.ReadUnsignedShort();
      var window := buf.ReadUnsignedShort();
      var checksum := buf.ReadUnsignedShort();
      var urgentPointer := buf.ReadUnsignedShort();
      var options := buf.ReadSlice(TcpHeadLen(byteBuf) - 20);
      var payload := buf.ReadSlice(|byteBuf| - buf.readerIndex);
      var packet := Tcp(srcPort, dstPort, seqNo, ack, flags, window, checksum, urgentPointer, options, payload);
      assert packet == DecodeTcp(byteBuf);
      TcpRoundTrip(byteBuf);
      value := packet;
    }

    method Encode(p: Ipv4, compute: bool, check: bool) returns (r: Option<seq<byte>>)
      requires Ipv4Writable(p)
      modifies this
      ensures var c := if compute then I.Checksum(Pseudo(p), WriteTcp(old(value), 0)) else old(value).checksum;
        if check && c != old(value).checksum then r == None && value == old(value)
        else r == Some(WriteTcp(old(value), c)) && value == old(value).(checksum := c)
      ensures compute && r.Some? && |p.payload| <= 65535 && |r.value| <= 65535 - 20 ==>
        (Accepted(PseudoSum(p), r.value) <==> !Overflows(PseudoSum(p), WriteTcp(old(value), 0)))
    {
      hide I.Checksum, WriteTcp, Ip2Bytes, IsIp, Pseudo, PseudoSum, Accepted, Overflows;
      var calcChecksum := value.checksum;
      if compute {
        calcChecksum := CalcChecksum(Pseudo(p), WriteTcp(value, 0));
      }
      if check && calcChecksum != value.checksum {
        return None;
      }
      r := Some(WriteTcp(value, calcChecksum));
      if compute && |p.payload| <= 65535 && |r.value| <= 65535 - 20 {
        SameLengths(value, calcChecksum);
        TcpAccepted(value, p);
      }
      value := value.(checksum := calcChecksum);
    }
  }

  class UdpPacket {
    var value: Udp

    constructor Decode(byteBuf: seq<byte>)
      requires UdpDecodable(byteBuf)
      ensures value == DecodeUdp(byteBuf) && WriteUdp(value, value.checksum) == byteBuf[..value.len]
    {
      hide U16, WriteUdp;
      var buf := new ByteBuf(byteBuf);
      var srcPort := buf.ReadUnsignedShort();
      var dstPort := buf.ReadUnsignedShort();
      var len := buf.ReadUnsignedShort();
      var checksum := buf.ReadUnsignedShort();
      var payload := buf.ReadSlice(len - 8);
      var packet := Udp(srcPort, dstPort, len, checksum, payload);
      assert packet == DecodeUdp(byteBuf);
      UdpRoundTrip(byteBuf);
      value := packet;
    }

    method Encode(p: Ipv4, check: bool) returns (r: Option<seq<byte>>)
      requires Ipv4Writable(p)
      modifies this
      ensures var c := I.Checksum(Pseudo(p), WriteUdp(old(value), 0));
        if check && c != old(value).checksum then r == None && value == old(value)
        else r == Some(WriteUdp(old(value), c)) && value == old(value).(checksum := c)
      ensures r.Some? && |p.payload| <= 65535 && |r.value| <= 65535 - 20 ==>
        (Accepted(PseudoSum(p), r.value) <==> !Overflows(PseudoSum(p), WriteUdp(old(value), 0)))
    {
      hide I.Checksum, S16, Ip2Bytes, IsIp, Pseudo, PseudoSum, Accepted, Overflows;
      var calcChecksum := CalcChecksum(Pseudo(p), WriteUdp(value, 0));
      if check && calcChecksum != value.checksum {
        return None;
      }
      r := Some(WriteUdp(value, calcChecksum));
      if |p.payload| <= 65535 && |r.value| <= 65535 - 20 {
        UdpAccepted(value, p);
      }
      value := value.(checksum := calcChecksum);
    }
  }

  class IcmpPacket {
    var value: Icmp

    constructor Decode(byteBuf: seq<byte>)
      requires IcmpDecodable(byteBuf)
      ensures value == DecodeIcmp(byteBuf) && WriteIcmp(value, value.checksum) == byteBuf
    {
      hide U16, Unsigned, WriteIcmp;
      var buf := new ByteBuf(byteBuf);
      var kind := buf.ReadByte();
      var code := buf.ReadByte();
      var checksum := buf.ReadUnsignedShort();
      var identifier := buf.ReadUnsignedShort();
      var sequence := buf.ReadUnsignedShort();
      var timestamp := buf.ReadUnsigned(8);
      var payload := buf.ReadSlice(|byteBuf| - buf.readerIndex);
      var packet := Icmp(kind, code, checksum, identifier, sequence, timestamp, payload);
      assert packet == DecodeIcmp(byteBuf);
      IcmpRoundTrip(byteBuf);
      value := packet;
    }

    /** Without calculation a zero checksum is written and kept. Writing consumes the payload. */
    method Encode(compute: bool, check: bool) returns (r: Option<seq<byte>>)
      modifies this
      ensures var c := if compute then I.Checksum([], WriteIcmp(old(value), 0)) else 0;
        if compute && check && c != old(value).checksum then r == None && value == old(value)
        else r == Some(WriteIcmp(old(value), c)) && value == old(value).(checksum := c, payload := [])
      ensures compute && r.Some? && |r.value| <= 65535 - 20 ==>
        (Accepted(0, r.value) <==> !Overflows(0, WriteIcmp(old(value), 0)))
    {
      hide I.Checksum, S16, BigEndian, Accepted, Overflows;
      var calcChecksum := 0;
      if compute {
        calcChecksum := CalcChecksum([], WriteIcmp(value, 0));
        if check && calcChecksum != value.checksum {
          return None;
        }
      }
      r := Some(WriteIcmp(value, calcChecksum));
      if compute && |r.value| <= 65535 - 20 {
        IcmpAccepted(value);
      }
      value := value.(checksum := calcChecksum, payload := []);
    }
  }

  class Ipv4Packet {
    var value: Ipv4

    constructor Decode(byteBuf: seq<byte>)
      requires I.IsPacket(byteBuf)
      ensures I.HeadLen(byteBuf) == 20 && LengthMatches(byteBuf) ==>
        Ipv4Writable(value) && WriteHeader(value, value.checksum) + value.payload == byteBuf
      ensures value == DecodeIpv4(byteBuf)
    {
      hide U16, Bytes2Ip, WriteHeader, LengthMatches, Ipv4Writable;
      var buf := new ByteBuf(byteBuf);
      var head := buf.ReadByte();
      var diffServices := buf.ReadByte();
      var totalLen := buf.ReadUnsignedShort();
      var identifier := buf.ReadUnsignedShort();
      var flags := buf.ReadUnsignedShort();
      var liveTime := buf.ReadByte();
      var protocol := buf.ReadByte();
      var checksum := buf.ReadUnsignedShort();
      var srcIPBytes := buf.ReadSlice(4);
      var dstIPBytes := buf.ReadSlice(4);
      var payload := buf.ReadSlice(|byteBuf| - buf.readerIndex);
      var packet := Ipv4(head / 16, diffServices, identifier, flags, liveTime, protocol, checksum,
                         Bytes2Ip(srcIPBytes), Bytes2Ip(dstIPBytes), payload);
      assert packet == DecodeIpv4(byteBuf);
      value := packet;
      if I.HeadLen(byteBuf) == 20 && LengthMatches(byteBuf) {
        Ipv4RoundTrip(byteBuf);
      }
    }

    /** With calculation and check, a stored checksum that differs from the computed one throws. The
        inner packet is encoded over the payload buffer, always with a computed checksum. */
    method Encode(compute: bool, check: bool) returns (r: Option<seq<byte>>)
      requires Ipv4Writable(value)
      modifies this
      ensures var c := if compute then I.Checksum([], WriteHeader(old(value), 0)) else old(value).checksum;
        var payload := EncodePayload(old(value));
        if (check && c != old(value).checksum) || payload == None then r == None
        else r == Some(WriteHeader(old(value), c) + payload.value)
             && value == old(value).(checksum := c, payload := payload.value)
      ensures compute && r.Some? ==> |r.value| >= 20 && Accepted(0, r.value[..20])
    {
      hide I.Checksum, WriteHeader, WriteTcp, WriteUdp, DecodeTcp, DecodeUdp, IsIp, Accepted;
      var calcChecksum := value.checksum;
      if compute {
        calcChecksum := CalcChecksum([], WriteHeader(value, 0));
      }
      if check && calcChecksum != value.checksum {
        return None;
      }
      var header := WriteHeader(value, calcChecksum);
      var payload := value.payload;
      if value.protocol == I.TCP {
        if !TcpDecodable(payload) {
          return None;
        }
        var packet := new TcpPacket.Decode(payload);
        var encode := packet.Encode(value, true, false);
        payload := encode.value;
      } else if value.protocol == I.UDP {
        if !UdpDecodable(payload) {
          return None;
        }
        var packet := new UdpPacket.Decode(payload);
        var encode := packet.Encode(value, false);
        payload := encode.value;
      }
      value := value.(checksum := calcChecksum, payload := payload);
      r := Some(header + payload);
      HeaderLength(old(value), calcChecksum);
      HeaderAccepted(old(value));
      assert (header + payload)[..20] == header;
    }
  }

  lemma SameLengths(t: Tcp, c: int)
    ensures |WriteTcp(t, c)| == |WriteTcp(t, 0)|
  {
  }

  lemma HeaderLength(p: Ipv4, c: int)
    requires Ipv4Writable(p)
    ensures |WriteHeader(p, c)| == 20
  {
  }

  // ----- where the fields stand, by RFC 9293, 768, 792 and 791 -----

  lemma WordAt(s: seq<byte>, i: nat, v: int)
    requires i + 2 <= |s| && s[i] == S16(v)[0] && s[i + 1] == S16(v)[1]
    ensures U16(s, i) == v % 0x1_0000
  {
    U16OfS16(v);
  }

  lemma LongAt(s: seq<byte>, i: nat, v: int, n: nat)
    requires i + n <= |s| && s[i..i + n] == BigEndian(v, n)
    ensures Unsigned(s[i..i + n]) == v % Pow256(n)
  {
    UnsignedOfBigEndian(v, n);
  }

  lemma TcpLayout(t: Tcp, c: int)
    ensures var (s, h) := (WriteTcp(t, c), 20 + |t.options|);
      && |s| == h + |t.payload| && s[20..h] == t.options && s[h..] == t.payload
      && U16(s, 0) == t.srcPort % 0x1_0000 && U16(s, 2) == t.dstPort % 0x1_0000
      && Unsigned(s[4..8]) == t.seqNo % Pow256(4) && Unsigned(s[8..12]) == t.ack % Pow256(4)
      && U16(s, 12) == t.flags % 0x1_0000 && U16(s, 14) == t.window % 0x1_0000
      && U16(s, 16) == c % 0x1_0000 && U16(s, 18) == t.urgentPointer % 0x1_0000
  {
    hide S16, U16, BigEndian, Unsigned, Pow256;
    var s := WriteTcp(t, c);
    WordAt(s, 0, t.srcPort);
    WordAt(s, 2, t.dstPort);
    LongAt(s, 4, t.seqNo, 4);
    LongAt(s, 8, t.ack, 4);
    WordAt(s, 12, t.flags);
    WordAt(s, 14, t.window);
    WordAt(s, 16, c);
    WordAt(s, 18, t.urgentPointer);
  }

  lemma UdpLayout(u: Udp, c: int)
    ensures var s := WriteUdp(u, c);
      && |s| == 8 + |u.payload| && s[8..] == u.payload
      && U16(s, 0) == u.srcPort % 0x1_0000 && U16(s, 2) == u.dstPort % 0x1_0000
      && U16(s, 4) == u.len % 0x1_0000 && U16(s, 6) == c % 0x1_0000
  {
    hide S16, U16;
    var s := WriteUdp(u, c);
    WordAt(s, 0, u.srcPort);
    WordAt(s, 2, u.dstPort);
    WordAt(s, 4, u.len);
    WordAt(s, 6, c);
  }

  lemma IcmpLayout(i: Icmp, c: int)
    ensures var s := WriteIcmp(i, c);
      && |s| == 16 + |i.payload| && s[16..] == i.payload && s[0] == i.kind && s[1] == i.code
      && U16(s, 2) == c % 0x1_0000 && U16(s, 4) == i.identifier % 0x1_0000 && U16(s, 6) == i.sequence % 0x1_0000
      && Unsigned(s[8..16]) == i.timestamp % Pow256(8)
  {
    hide S16, U16, BigEndian, Unsigned, Pow256;
    var s := WriteIcmp(i, c);
    WordAt(s, 2, c);
    WordAt(s, 4, i.identifier);
    WordAt(s, 6, i.sequence);
    LongAt(s, 8, i.timestamp, 8);
  }

  lemma Ipv4Layout(p: Ipv4, c: int)
    requires Ipv4Writable(p)
    ensures var s := WriteHeader(p, c);
      && |s| == 20 && s[0] == (p.version % 16) * 16 + 5 && s[1] == p.diffServices
      && U16(s, 2) == (20 + |p.payload|) % 0x1_0000 && U16(s, 4) == p.identifier % 0x1_0000
      && U16(s, 6) == p.flags % 0x1_0000 && s[8] == p.liveTime && s[9] == p.protocol && U16(s, 10) == c % 0x1_0000
      && s[12..16] == Ip2Bytes(p.srcIP) && s[16..20] == Ip2Bytes(p.dstIP)
  {
    hide S16, U16, Ip2Bytes, IsIp;
    var s := WriteHeader(p, c);
    assert p.version * 16 == 256 * (p.version / 16) + (p.version % 16) * 16;
    WordAt(s, 2, 20 + |p.payload|);
    WordAt(s, 4, p.identifier);
    WordAt(s, 6, p.flags);
    WordAt(s, 10, c);
  }

  // ----- decoding and writing back changes the checksum field only -----

  lemma TcpReassembles(s: seq<byte>, c: int)
    requires TcpDecodable(s)
    ensures WriteTcp(DecodeTcp(s), c) == Put(s, 16, S16(c))
  {
    hide S16, BigEndian, Unsigned, U16;
    S16OfU16(s, 0);
    S16OfU16(s, 2);
    BigEndianOfUnsigned(s[4..8]);
    BigEndianOfUnsigned(s[8..12]);
    S16OfU16(s, 12);
    S16OfU16(s, 14);
    S16OfU16(s, 18);
  }

  lemma UdpReassembles(s: seq<byte>, c: int)
    requires UdpDecodable(s) && U16(s, 4) == |s|
    ensures WriteUdp(DecodeUdp(s), c) == Put(s, 6, S16(c))
  {
    S16OfU16(s, 0);
    S16OfU16(s, 2);
    S16OfU16(s, 4);
    hide S16, U16;
  }

  lemma IcmpReassembles(s: seq<byte>, c: int)
    requires IcmpDecodable(s)
    ensures WriteIcmp(DecodeIcmp(s), c) == Put(s, 2, S16(c))
  {
    hide S16, BigEndian, Unsigned, U16;
    S16OfU16(s, 4);
    S16OfU16(s, 6);
    BigEndianOfUnsigned(s[8..16]);
  }

  /** The total length field tells the truth. */
  predicate LengthMatches(b: seq<byte>)
    requires I.IsPacket(b)
  {
    U16(b, 2) == |b|
  }

  lemma HeaderReassembles(b: seq<byte>, c: int)
    requires I.IsPacket(b) && I.HeadLen(b) == 20 && LengthMatches(b)
    ensures Ipv4Writable(DecodeIpv4(b))
    ensures WriteHeader(DecodeIpv4(b), c) == Put(b[..20], 10, S16(c))
    ensures Pseudo(DecodeIpv4(b)) == I.PseudoHeader(b)
  {
    hide S16, IsIp, Ip2Bytes, Bytes2Ip, U16;
    var p := DecodeIpv4(b);
    BytesRoundTrip(b[12..16]);
    BytesRoundTrip(b[16..20]);
    S16OfU16(b, 2);
    S16OfU16(b, 4);
    S16OfU16(b, 6);
    assert (p.version * 16 + 5) % 256 == b[0];
    assert 20 + |p.payload| == U16(b, 2);
  }

  /** What a field holds, written back over it, changes nothing. */
  lemma PutBack(s: seq<byte>, at: nat)
    requires at + 2 <= |s|
    ensures Put(s, at, S16(U16(s, at))) == s
  {
    S16OfU16(s, at);
    hide S16, U16;
  }

  lemma TcpRoundTrip(s: seq<byte>)
    requires TcpDecodable(s)
    ensures WriteTcp(DecodeTcp(s), DecodeTcp(s).checksum) == s
  {
    TcpReassembles(s, U16(s, 16));
    PutBack(s, 16);
    hide WriteTcp, S16, U16, Put, Unsigned;
  }

  lemma UdpRoundTrip(s: seq<byte>)
    requires UdpDecodable(s)
    ensures var u := DecodeUdp(s); WriteUdp(u, u.checksum) == s[..u.len]
  {
    var t := s[..U16(s, 4)];
    assert t[..8] == s[..8] && t[8..] == s[8..U16(s, 4)];
    SameWord(s, t, 0, 0);
    SameWord(s, t, 2, 2);
    SameWord(s, t, 4, 4);
    SameWord(s, t, 6, 6);
    UdpReassembles(t, U16(t, 6));
    PutBack(t, 6);
    hide WriteUdp, S16, U16, Put;
  }

  lemma IcmpRoundTrip(s: seq<byte>)
    requires IcmpDecodable(s)
    ensures WriteIcmp(DecodeIcmp(s), DecodeIcmp(s).checksum) == s
  {
    IcmpReassembles(s, U16(s, 2));
    PutBack(s, 2);
    hide WriteIcmp, S16, U16, Put, Unsigned;
  }

  lemma Ipv4RoundTrip(b: seq<byte>)
    requires I.IsPacket(b) && I.HeadLen(b) == 20 && LengthMatches(b)
    ensures var p := DecodeIpv4(b); Ipv4Writable(p) && WriteHeader(p, p.checksum) + p.payload == b
  {
    HeaderReassembles(b, U16(b, 10));
    SameWord(b, b[..20], 10, 10);
    PutBack(b[..20], 10);
    hide WriteHeader, S16, U16, Put, Ipv4Writable;
    assert b == b[..20] + b[20..];
  }

  /** What the inner codecs need: a TCP data offset inside the segment, a UDP length equal to it. */
  predicate SegmentWellFormed(b: seq<byte>)
    requires I.IsPacket(b)
  {
    var s := b[20..];
    && (b[9] == I.TCP ==> TcpDecodable(s))
    && (b[9] == I.UDP ==> UdpDecodable(s) && U16(s, 4) == |s|)
    && (b[9] == I.ICMP ==> |s| >= 4)
  }

  predicate IcmpChecksumValid(b: seq<byte>)
    requires I.IsPacket(b) && b[9] == I.ICMP && |b| >= 24
  {
    U16(b, 22) == I.Checksum([], Put(b[20..], 2, S16(0)))
  }

  /** A stored checksum survives recomputation exactly if it is the computed one. */
  lemma StoredIffSame(prefix: seq<byte>, s: seq<byte>, at: nat)
    requires at + 2 <= |s|
    ensures I.StoreChecksum(prefix, s, at) == s <==> U16(s, at) == I.Checksum(prefix, Put(s, at, S16(0)))
  {
    var c := I.Checksum(prefix, Put(s, at, S16(0)));
    hide I.Checksum;
    S16OfU16(s, at);
    U16OfS16(c);
    assert Put(s, at, S16(c))[at..at + 2] == S16(c);
    if U16(s, at) == c {
      assert Put(s, at, s[at..at + 2]) == s;
    }
  }

  lemma HeadersAgree(b: seq<byte>)
    requires I.IsPacket(b) && I.HeadLen(b) == 20 && LengthMatches(b)
    ensures var p := DecodeIpv4(b);
      Ipv4Writable(p) && WriteHeader(p, I.Checksum([], WriteHeader(p, 0))) == I.StoreChecksum([], b[..20], 10)
  {
    hide S16, U16, IsIp, I.Checksum, WriteHeader, I.PseudoHeader, Put;
    HeaderReassembles(b, 0);
    HeaderReassembles(b, I.Checksum([], Put(b[..20], 10, S16(0))));
  }

  lemma SegmentsAgree(b: seq<byte>)
    requires I.IsPacket(b) && I.HeadLen(b) == 20 && LengthMatches(b) && SegmentWellFormed(b)
    ensures var p, s := DecodeIpv4(b), b[20..];
      && Ipv4Writable(p)
      && EncodePayload(p).Some?
      && (I.HasTransportChecksum(b[9]) ==>
            (EncodePayload(p).value == I.StoreChecksum(I.Prefix(b), s, I.ChecksumAt(b[9]))
             <==> (b[9] == I.ICMP ==> IcmpChecksumValid(b))))
      && (!I.HasTransportChecksum(b[9]) ==> EncodePayload(p).value == s)
  {
    HeaderReassembles(b, 0);
    var p, s := DecodeIpv4(b), b[20..];
    hide S16, U16, IsIp, I.Checksum, WriteHeader, Pseudo, I.PseudoHeader, DecodeTcp, DecodeUdp, WriteTcp, WriteUdp, Put;
    if b[9] == I.TCP {
      TcpReassembles(s, 0);
      TcpReassembles(s, I.Checksum(Pseudo(p), WriteTcp(DecodeTcp(s), 0)));
    } else if b[9] == I.UDP {
      UdpReassembles(s, 0);
      UdpReassembles(s, I.Checksum(Pseudo(p), WriteUdp(DecodeUdp(s), 0)));
    } else if b[9] == I.ICMP {
      StoredIffSame([], s, 2);
      SameWord(s, b, 2, 22);
    }
  }

  /** Decoding and encoding gives the octets of the in-place rebuild: always for TCP and UDP, and for
      ICMP, whose segment the encoder copies, exactly when its checksum was right already. */
  lemma TwoEncodersAgree(b: seq<byte>)
    requires I.IsPacket(b) && I.HeadLen(b) == 20 && LengthMatches(b) && SegmentWellFormed(b)
    ensures Ipv4Writable(DecodeIpv4(b)) && I.Rebuildable(b)
    ensures EncodeIpv4(DecodeIpv4(b)) == Some(I.Rebuilt(b)) <==> (b[9] == I.ICMP ==> IcmpChecksumValid(b))
  {
    HeadersAgree(b);
    SegmentsAgree(b);
    I.RebuildParts(b);
    var r, payload := I.Rebuilt(b), EncodePayload(DecodeIpv4(b)).value;
    hide I.Rebuilt, I.StoreChecksum, WriteHeader, EncodePayload, DecodeIpv4, I.Prefix, IcmpChecksumValid, Ipv4Writable;
    assert r == r[..20] + r[20..];
    assert (r[..20] + payload)[20..] == payload;
  }

  /** The stored header checksum and the stored transport checksum are the computed ones. */
  predicate ChecksumsExact(b: seq<byte>)
    requires I.WellFormed(b)
  {
    && U16(b, 10) == I.Checksum([], Put(b[..20], 10, S16(0)))
    && (I.HasTransportChecksum(b[9]) ==>
          var at := I.ChecksumAt(b[9]);
          U16(b, I.HeadLen(b) + at) == I.Checksum(I.Prefix(b), Put(b[I.HeadLen(b)..], at, S16(0))))
  }

  /** rebuild is the identity exactly on packets whose stored checksums are the computed ones. */
  lemma RebuildReproduces(b: seq<byte>)
    requires I.WellFormed(b)
    ensures I.Rebuilt(b) == b <==> ChecksumsExact(b)
  {
    hide S16, U16, Put, I.Checksum, I.Rebuilt, I.Prefix;
    var r, h := I.Rebuilt(b), I.HeadLen(b);
    I.RebuildParts(b);
    assert r == r[..20] + r[20..h] + r[h..] && b == b[..20] + b[20..h] + b[h..];
    StoredIffSame([], b[..20], 10);
    assert U16(b[..20], 10) == U16(b, 10) by { SameWord(b, b[..20], 10, 10); }
    if I.HasTransportChecksum(b[9]) {
      StoredIffSame(I.Prefix(b), b[h..], I.ChecksumAt(b[9]));
      SameWord(b, b[h..], h + I.ChecksumAt(b[9]), I.ChecksumAt(b[9]));
    }
  }

  lemma SameWord(b: seq<byte>, c: seq<byte>, i: nat, j: nat)
    requires i + 2 <= |b| && j + 2 <= |c| && b[i] == c[j] && b[i + 1] == c[j + 1]
    ensures U16(b, i) == U16(c, j)
  {
  }

  /** The codecs reproduce a packet octet for octet exactly when its stored checksums are the computed ones. */
  lemma CodecReproduces(b: seq<byte>)
    requires I.IsPacket(b) && I.HeadLen(b) == 20 && LengthMatches(b) && SegmentWellFormed(b)
    requires b[9] == I.ICMP ==> IcmpChecksumValid(b)
    ensures I.WellFormed(b) && Ipv4Writable(DecodeIpv4(b))
    ensures EncodeIpv4(DecodeIpv4(b)) == Some(b) <==> ChecksumsExact(b)
  {
    hide EncodeIpv4, DecodeIpv4, ChecksumsExact, I.Rebuilt, IsIp;
    TwoEncodersAgree(b);
    RebuildReproduces(b);
  }
}
