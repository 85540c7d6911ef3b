/**
 In-place editing of an IPv4 packet and the rebuilding of its checksums. The packet occupies the
 readable octets of a growable buffer whose reader index is 0; a slice shares that buffer, so a
 slice written at index i is the packet written at headLen + i.
 */
module IpLayerPacket {
  import opened Wrappers
  import opened Bytes
  import opened IPUtil
  import C = CheckSum

  const ICMP := 1
  const TCP := 6
  const UDP := 17

  /** Long enough for the fixed part of the header. */
  predicate IsPacket(b: seq<byte>) {
    |b| >= 20
  }

  function HeadLen(b: seq<byte>): nat
    requires IsPacket(b)
  {
    b[0] % 16 * 4
  }

  function Protocol(b: seq<byte>): byte
    requires IsPacket(b)
  {
    b[9]
  }

  function SrcIP(b: seq<byte>): string
    requires IsPacket(b)
  {
    Bytes2Ip(b[12..16])
  }

  function DstIP(b: seq<byte>): string
    requires IsPacket(b)
  {
    Bytes2Ip(b[16..20])
  }

  /** The octets writeIp stores; the writer index is restored afterwards. */
  function WithSrcIP(b: seq<byte>, ip: string): (r: seq<byte>)
    requires IsPacket(b) && IsIp(ip)
    ensures |r| == |b|
  {
    Put(b, 12, Ip2Bytes(ip))
  }

  function WithDstIP(b: seq<byte>, ip: string): (r: seq<byte>)
    requires IsPacket(b) && IsIp(ip)
    ensures |r| == |b|
  {
    Put(b, 16, Ip2Bytes(ip))
  }

  /** The new total length is stored, the payload replaced, and the packet now ends with it. */
  function WithPayload(b: seq<byte>, payload: seq<byte>): (r: seq<byte>)
    requires IsPacket(b) && HeadLen(b) <= |b|
    ensures |r| == HeadLen(b) + |payload|
  {
    Put(b, 2, S16(HeadLen(b) + |payload|))[..HeadLen(b)] + payload
  }

  // ----- checksum fields -----

  /** What HighLow stores for a prefix and a segment summed into Java ints. */
  function Checksum(prefix: seq<byte>, s: seq<byte>): (r: int)
    ensures 0 <= r < 0x1_0000
  {
    C.HighLow(Int32(C.JavaSum(prefix) + C.JavaSum(s)))
  }

  /** Zero the field, sum, store. */
  function StoreChecksum(prefix: seq<byte>, s: seq<byte>, at: nat): (r: seq<byte>)
    requires at + 2 <= |s|
    ensures |r| == |s|
  {
    Put(s, at, S16(Checksum(prefix, Put(s, at, S16(0)))))
  }

  predicate HasTransportChecksum(protocol: byte) {
    protocol == ICMP || protocol == TCP || protocol == UDP
  }

  /** Index of the checksum field inside the segment. */
  function ChecksumAt(protocol: byte): nat
    requires HasTransportChecksum(protocol)
  {
    if protocol == TCP then 16 else if protocol == UDP then 6 else 2
  }

  /** The header is complete and the segment reaches over its checksum field; otherwise
      the first index operation past the end throws before anything is written. */
  predicate Rebuildable(b: seq<byte>) {
    && |b| >= 20
    && var h := b[0] % 16 * 4;
      && h <= |b|
      && (b[9] == 6 ==> h + 18 <= |b|)
      && (b[9] == 17 ==> h + 8 <= |b|)
      && (b[9] == 1 ==> h + 4 <= |b|)
  }

  function PseudoHeader(b: seq<byte>): (r: seq<byte>)
    requires IsPacket(b)
    ensures |r| == 12
  {
    b[12..16] + b[16..20] + [0, Protocol(b)] + S16(|b| - HeadLen(b))
  }

  /** What is summed before the segment: the pseudo-header, and nothing for ICMP. */
  function Prefix(b: seq<byte>): (r: seq<byte>)
    requires IsPacket(b)
    ensures |r| == 12 || |r| == 0
  {
    if Protocol(b) == ICMP then [] else PseudoHeader(b)
  }

  function FixTransport(b: seq<byte>): (r: seq<byte>)
    requires Rebuildable(b)
    ensures |r| == |b|
  {
    var h := HeadLen(b);
    if HasTransportChecksum(Protocol(b)) then b[..h] + StoreChecksum(Prefix(b), b[h..], ChecksumAt(Protocol(b)))
    else b
  }

  /** Only the first 20 octets are summed, whatever the header length. */
  function FixHeader(b: seq<byte>): (r: seq<byte>)
    requires IsPacket(b)
    ensures |r| == |b|
  {
    StoreChecksum([], b[..20], 10) + b[20..]
  }

  function Rebuilt(b: seq<byte>): (r: seq<byte>)
    requires Rebuildable(b)
    ensures |r| == |b|
  {
    FixHeader(FixTransport(b))
  }

  // ----- identifiers of flows -----

  /** Octets the identifier reads; a shorter packet makes the read throw. */
  predicate HasIdentifier(b: seq<byte>) {
    && IsPacket(b)
    && (Protocol(b) == ICMP ==> |b| >= 26)
    && (Protocol(b) == TCP || Protocol(b) == UDP ==> |b| >= 24)
  }

  function IcmpKey(id: nat, from: string, to: string): string {
    Dec(ICMP) + ":" + (Dec(id) + " " + (from + "->" + to))
  }

  function PortKey(protocol: nat, from: string, fromPort: nat, to: string, toPort: nat): string {
    Dec(protocol) + ":" + (" " + (from + ":" + (Dec(fromPort) + "->" + (to + ":" + Dec(toPort)))))
  }

  /** The key of a flow, with the two ends exchanged on request. Other protocols get a random id. */
  function Identifier(b: seq<byte>, exchangeIp: bool): Option<string>
    requires HasIdentifier(b)
  {
    var (src, dst) := (SrcIP(b), DstIP(b));
    if Protocol(b) == ICMP then
      Some(if exchangeIp then IcmpKey(U16(b, 24), dst, src) else IcmpKey(U16(b, 24), src, dst))
    else if Protocol(b) == TCP || Protocol(b) == UDP then
      Some(if exchangeIp then PortKey(Protocol(b), dst, U16(b, 22), src, U16(b, 20))
           else PortKey(Protocol(b), src, U16(b, 20), dst, U16(b, 22)))
    else None
  }

  class IpLayerPacket {
    var byteBuf: seq<byte>
    var update: bool

    constructor (bytes: seq<byte>)
      ensures byteBuf == bytes && !update
    {
      byteBuf := bytes;
      update := false;
    }

    method SetSrcIP(ip: string)
      requires IsPacket(byteBuf) && IsIp(ip)
      modifies this
      ensures byteBuf == WithSrcIP(old(byteBuf), ip) && update
      ensures byteBuf == old(byteBuf)[..12] + Ip2Bytes(ip) + old(byteBuf)[16..]
    {
      var bytes := Ip2BytesLoop(ip);
      byteBuf := Put(byteBuf, 12, bytes);
      update := true;
    }

    method SetDstIP(ip: string)
      requires IsPacket(byteBuf) && IsIp(ip)
      modifies this
      ensures byteBuf == WithDstIP(old(byteBuf), ip) && update
      ensures byteBuf == old(byteBuf)[..16] + Ip2Bytes(ip) + old(byteBuf)[20..]
    {
      var bytes := Ip2BytesLoop(ip);
      byteBuf := Put(byteBuf, 16, bytes);
      update := true;
    }

    method GetPayload() returns (payload: seq<byte>)
      requires IsPacket(byteBuf) && HeadLen(byteBuf) <= |byteBuf|
      ensures byteBuf[..HeadLen(byteBuf)] + payload == byteBuf
    {
      payload := byteBuf[HeadLen(byteBuf)..];
    }

    method SetPayload(payload: seq<byte>)
      requires IsPacket(byteBuf) && HeadLen(byteBuf) <= |byteBuf|
      modifies this
      ensures byteBuf == WithPayload(old(byteBuf), payload) && update
    {
      var headLen := HeadLen(byteBuf);
      byteBuf := Put(byteBuf, 2, S16(headLen + |payload|));
      byteBuf := byteBuf[..headLen] + payload;
      update := true;
    }

    /** reCalcTcpCheckSum, reCalcUdpCheckSum and reCalcIcmpCheckSum: zero the field, sum, store. */
    method ReCalcSegment(prefix: seq<byte>, headLen: nat, at: nat)
      requires headLen + at + 2 <= |byteBuf|
      modifies this`byteBuf
      ensures byteBuf == old(byteBuf)[..headLen] + StoreChecksum(prefix, old(byteBuf)[headLen..], at)
    {
      hide C.JavaSum, C.HighLow, S16, Int32, Put;
      ghost var before, seg := byteBuf, byteBuf[headLen..];
      var sum := C.CalcTcpUdp(prefix);
      byteBuf := Put(byteBuf, headLen + at, S16(0));
      PutTail(before, headLen, at, S16(0));
      var segmentSum := C.CalcTcpUdp(byteBuf[headLen..]);
      Int32Sum(C.JavaSum(prefix), C.JavaSum(byteBuf[headLen..]));
      sum := C.CalcHighLow(Int32(sum + segmentSum));
      PutTail(byteBuf, headLen, at, S16(sum));
      byteBuf := Put(byteBuf, headLen + at, S16(sum));
      PutOver(seg, at, S16(0), S16(sum));
    }

    method ReCalcIpCheckSum()
      requires IsPacket(byteBuf)
      modifies this`byteBuf
      ensures byteBuf == FixHeader(old(byteBuf))
    {
      hide C.JavaSum, C.HighLow, S16, Int32, Put;
      ghost var before, head := byteBuf, byteBuf[..20];
      byteBuf := Put(byteBuf, 10, S16(0));
      PutHead(before, 20, 10, S16(0));
      var sum := C.CalcIp(byteBuf[..20]);
      PutHead(byteBuf, 20, 10, S16(sum));
      assert byteBuf[20..] == before[20..];
      byteBuf := Put(byteBuf, 10, S16(sum));
      NothingSums();
      PutOver(head, 10, S16(0), S16(sum));
    }

    /** A false result stands for the index exception. */
    method Rebuild() returns (ok: bool)
      requires IsPacket(byteBuf)
      modifies this`byteBuf
      ensures ok <==> (old(update) ==> Rebuildable(old(byteBuf)))
      ensures byteBuf == if old(update) && ok then Rebuilt(old(byteBuf)) else old(byteBuf)
      ensures var b := old(byteBuf);
        old(update) && ok && b[0] % 16 >= 5 && |b| <= 65535 && (b[9] == 6 || b[9] == 17 || b[9] == 1) ==>
          |byteBuf| == |b| && byteBuf[0] == b[0] && (ReceiverAccepts(byteBuf) <==> !TransportDeviates(b))
    {
      hide StoreChecksum, FixHeader, ReceiverAccepts, TransportDeviates;
      ghost var before := byteBuf;
      ok := true;
      if !update {
        return;
      }
      var headLen, protocol := HeadLen(byteBuf), Protocol(byteBuf);
      if headLen > |byteBuf| || (HasTransportChecksum(protocol) && headLen + ChecksumAt(protocol) + 2 > |byteBuf|) {
        return false;
      }
      if protocol == TCP || protocol == UDP {
        var ipHeader := byteBuf[12..16] + byteBuf[16..20] + [0, protocol] + S16(|byteBuf| - headLen);
        ReCalcSegment(ipHeader, headLen, ChecksumAt(protocol));
      } else if protocol == ICMP {
        ReCalcSegment([], headLen, ChecksumAt(protocol));
      }
      ReCalcIpCheckSum();
      if headLen >= 20 && |before| <= 65535 && HasTransportChecksum(protocol) {
        RebuiltTransportVerifies(before);
      }
    }
  }

  // ----- rebuild leaves valid checksums -----

  lemma StoreTwice(prefix: seq<byte>, s: seq<byte>, at: nat)
    requires at + 2 <= |s|
    ensures StoreChecksum(prefix, StoreChecksum(prefix, s, at), at) == StoreChecksum(prefix, s, at)
  {
    hide Checksum, Put;
    var c := S16(Checksum(prefix, Put(s, at, S16(0))));
    PutOver(s, at, S16(0), c);
    PutOver(s, at, c, S16(0));
    PutOver(s, at, c, c);
  }

  /** A header of five or more words, as IPv4 demands. */
  predicate WellFormed(b: seq<byte>) {
    Rebuildable(b) && HeadLen(b) >= 20
  }

  lemma RebuildParts(b: seq<byte>)
    requires WellFormed(b)
    ensures var r, h := Rebuilt(b), HeadLen(b);
      && r[..20] == StoreChecksum([], b[..20], 10)
      && r[20..h] == b[20..h]
      && r[h..] == if HasTransportChecksum(Protocol(b)) then StoreChecksum(Prefix(b), b[h..],
          ChecksumAt(Protocol(b))) else b[h..]
  {
    hide Checksum;
    var t, h := FixTransport(b), HeadLen(b);
    assert t[..20] == b[..20] && t[20..h] == b[20..h];
    assert Rebuilt(b)[h..] == t[h..];
  }

  /** The two checksum fields are the only octets that change. */
  predicate IsChecksumIndex(b: seq<byte>, i: int)
    requires IsPacket(b)
  {
    var k := i - b[0] % 16 * 4;
    i in {10, 11} || (b[9] == 6 && k in {16, 17}) || (b[9] == 17 && k in {6, 7}) || (b[9] == 1 && k in {2, 3})
  }

  lemma RebuildFrame(b: seq<byte>)
    requires WellFormed(b)
    ensures forall i :: 0 <= i < |b| && !IsChecksumIndex(b, i) ==> Rebuilt(b)[i] == b[i]
    ensures var r := Rebuilt(b);
      IsPacket(r) && HeadLen(r) == HeadLen(b) && Protocol(r) == Protocol(b) && Prefix(r) == Prefix(b)
  {
    RebuildParts(b);
    var r, h := Rebuilt(b), HeadLen(b);
    hide Rebuilt, StoreChecksum, Bytes2Ip, HeadLen;
    StoreFrame([], b[..20], 10);
    forall i | 0 <= i < |b| && !IsChecksumIndex(b, i) ensures r[i] == b[i] {
      if i < 20 {
        assert r[i] == r[..20][i] == b[..20][i];
      } else if i < h {
        assert r[i] == r[20..h][i - 20] == b[20..h][i - 20];
      } else {
        assert r[i] == r[h..][i - h] && b[h..][i - h] == b[i];
        if HasTransportChecksum(Protocol(b)) {
          StoreFrame(Prefix(b), b[h..], ChecksumAt(Protocol(b)));
        }
      }
    }
    SameFields(b, r);
  }

  lemma SameFields(b: seq<byte>, r: seq<byte>)
    requires WellFormed(b) && |r| == |b| && forall i :: 0 <= i < 20 && i != 10 && i != 11 ==> r[i] == b[i]
    ensures HeadLen(r) == HeadLen(b) && Protocol(r) == Protocol(b) && Prefix(r) == Prefix(b)
  {
    hide S16;
    assert r[12..16] == b[12..16] && r[16..20] == b[16..20];
  }

  lemma StoreFrame(prefix: seq<byte>, s: seq<byte>, at: nat)
    requires at + 2 <= |s|
    ensures forall i :: 0 <= i < |s| && i != at && i != at + 1 ==> StoreChecksum(prefix, s, at)[i] == s[i]
  {
    hide Checksum, S16;
  }

  lemma RebuildIdempotent(b: seq<byte>)
    requires WellFormed(b)
    ensures WellFormed(Rebuilt(b)) && Rebuilt(Rebuilt(b)) == Rebuilt(b)
  {
    hide StoreChecksum, Put;
    var r, h := Rebuilt(b), HeadLen(b);
    RebuildFrame(b);
    RebuildParts(b);
    RebuildParts(r);
    StoreTwice([], b[..20], 10);
    if HasTransportChecksum(Protocol(b)) {
      StoreTwice(Prefix(b), b[h..], ChecksumAt(Protocol(b)));
    }
    var rr := Rebuilt(r);
    assert rr == rr[..20] + rr[20..h] + rr[h..];
    assert r == r[..20] + r[20..h] + r[h..];
  }

  // ----- what a receiver computes, by RFC 791, 768, 792 and 9293 -----

  /** The words of the pseudo-header of TCP and UDP: both addresses, the protocol, the segment's length. */
  function PseudoSum(b: seq<byte>): nat
    requires |b| >= 20 && b[0] % 16 * 4 <= |b|
  {
    if b[9] == 1 then 0
    else U16(b, 12) + U16(b, 14) + U16(b, 16) + U16(b, 18) + b[9] + (|b| - b[0] % 16 * 4)
  }

  /** Pseudo-header and segment, the stored checksum among its words, sum to 0xffff. */
  predicate ReceiverAccepts(b: seq<byte>)
    requires |b| >= 20 && b[0] % 16 * 4 <= |b|
  {
    C.Fold(PseudoSum(b) + C.WordSum(b[b[0] % 16 * 4..])) == 0xffff
  }

  /** The segment ends in an octet of 0x80 or more at an odd length, and what is summed, the checksum
      field counting as zero, does not fit 16 bits. */
  predicate TransportDeviates(b: seq<byte>)
    requires Rebuildable(b) && (b[9] == 6 || b[9] == 17 || b[9] == 1)
  {
    var s := b[b[0] % 16 * 4..];
    var zeroed := Put(s, if b[9] == 6 then 16 else if b[9] == 17 then 6 else 2, [0, 0]);
    |s| % 2 == 1 && s[|s| - 1] >= 128 && PseudoSum(b) + C.WordSum(zeroed) >= 0x1_0000
  }

  /** The pseudo-header the code builds sums to the standard's. */
  lemma PrefixSum(b: seq<byte>)
    requires IsPacket(b) && HeadLen(b) <= |b| <= 65535
    ensures C.WordSum(Prefix(b)) == PseudoSum(b)
  {
    var p := Prefix(b);
    if b[9] == 1 {
      assert C.WordSum(p) == 0;
    } else {
      assert U16(p, 0) == U16(b, 12) && U16(p, 2) == U16(b, 14) && U16(p, 4) == U16(b, 16) && U16(p, 6) == U16(b, 18);
      assert U16(p, 8) == b[9] && U16(p, 10) == |b| - HeadLen(b);
      hide S16, PseudoHeader, Prefix;
      SixWords(p);
    }
  }

  lemma SixWords(p: seq<byte>)
    requires |p| == 12
    ensures C.WordSum(p) == U16(p, 0) + U16(p, 2) + U16(p, 4) + U16(p, 6) + U16(p, 8) + U16(p, 10)
  {
    forall i | 0 <= i <= 10 ensures C.WordSum(p[i..]) == U16(p, i) + C.WordSum(p[i + 2..]) {
      assert p[i..][2..] == p[i + 2..];
    }
    assert p[0..] == p && p[12..] == [];
  }

  /** After rebuild a receiver accepts the transport checksum if and only if the sum did not deviate, for
      every datagram IPv4 can carry. */
  lemma RebuiltTransportVerifies(b: seq<byte>)
    requires WellFormed(b) && |b| <= 65535 && (b[9] == 6 || b[9] == 17 || b[9] == 1)
    ensures |Rebuilt(b)| == |b| && Rebuilt(b)[0] == b[0] && PseudoSum(Rebuilt(b)) == PseudoSum(b)
    ensures ReceiverAccepts(Rebuilt(b)) <==> !TransportDeviates(b)
  {
    hide Rebuilt, Put, S16, StoreChecksum, Prefix, C.Verifies, C.Deviates, PseudoSum, ReceiverAccepts,
         TransportDeviates;
    RebuildFrame(b);
    RebuildParts(b);
    var (r, h) := (Rebuilt(b), HeadLen(b));
    StoredVerifies(Prefix(b), b[h..], ChecksumAt(b[9]));
    PrefixSum(b);
    PrefixSum(r);
    AcceptsByPrefix(r);
    DeviatesByPrefix(b);
  }

  lemma AcceptsByPrefix(b: seq<byte>)
    requires IsPacket(b) && HeadLen(b) <= |b| <= 65535
    ensures ReceiverAccepts(b) <==> C.Verifies(Prefix(b), b[HeadLen(b)..])
  {
    PrefixSum(b);
    hide Prefix, PseudoSum, C.WordSum, C.Fold;
  }

  lemma DeviatesByPrefix(b: seq<byte>)
    requires WellFormed(b) && |b| <= 65535 && (b[9] == 6 || b[9] == 17 || b[9] == 1)
    ensures TransportDeviates(b) <==> C.Deviates(Prefix(b), Put(b[HeadLen(b)..], ChecksumAt(b[9]), S16(0)))
  {
    var (h, at) := (HeadLen(b), ChecksumAt(b[9]));
    assert S16(0) == [0, 0];
    PrefixSum(b);
    hide Put, S16, Prefix, PseudoSum, C.Deviates, C.WordSum;
    DeviatesByTail(Prefix(b), b[h..], at);
  }

  /** The checksum field is never the octet a segment of odd length ends in. */
  lemma DeviatesByTail(prefix: seq<byte>, s: seq<byte>, at: nat)
    requires at % 2 == 0 && at + 2 <= |s|
    ensures C.Deviates(prefix, Put(s, at, S16(0))) <==>
      |s| % 2 == 1 && s[|s| - 1] >= 128 && C.WordSum(prefix) + C.WordSum(Put(s, at, S16(0))) >= 0x1_0000
  {
    hide C.WordSum, S16;
  }

  lemma StoredVerifies(prefix: seq<byte>, s: seq<byte>, at: nat)
    requires |prefix| == 12 || |prefix| == 0
    requires at % 2 == 0 && at + 2 <= |s| <= 65535 - 20
    ensures C.Verifies(prefix, StoreChecksum(prefix, s, at)) <==> !C.Deviates(prefix, Put(s, at, S16(0)))
  {
    hide Put, S16, C.Verifies, C.Deviates, C.HighLow, C.JavaSum, Checksum;
    var zeroed := Put(s, at, S16(0));
    SumsFit(prefix, zeroed);
    C.StoredChecksumVerifies(prefix, s, at, zeroed, Checksum(prefix, zeroed));
  }

  lemma SumsFit(prefix: seq<byte>, s: seq<byte>)
    requires |prefix| == 12 || |prefix| == 0
    requires |s| <= 65535 - 20
    ensures Checksum(prefix, s) == C.HighLow(C.JavaSum(prefix) + C.JavaSum(s))
  {
    hide C.JavaSum, C.HighLow;
    C.JavaSumBounds(prefix);
    C.JavaSumBounds(s);
  }

  /** After rebuild the whole header verifies if and only if the options sum to a multiple of
      0xffff; without options it always does. */
  lemma RebuiltHeaderVerifies(b: seq<byte>)
    requires WellFormed(b)
    ensures var (r, h) := (Rebuilt(b), b[0] % 16 * 4);
      C.Fold(C.WordSum(r[..h])) == 0xffff <==> C.Fold(C.WordSum(b[20..h])) in {0, 0xffff}
    ensures b[0] % 16 == 5 ==> C.Fold(C.WordSum(Rebuilt(b)[..20])) == 0xffff
  {
    hide Rebuilt, StoreChecksum, C.WordSum, C.Fold, Put, S16;
    var h, r := HeadLen(b), Rebuilt(b);
    RebuildParts(b);
    StoredVerifies([], b[..20], 10);
    NothingSums();
    C.WordSumConcat(r[..20], r[20..h]);
    assert r[..h] == r[..20] + r[20..h];
    FullWord(C.WordSum(r[..20]), C.WordSum(b[20..h]));
    assert h == 20 ==> r[..h] == r[..20];
  }

  lemma NothingSums()
    ensures C.WordSum([]) == 0 && C.JavaSum([]) == 0
  {
  }

  /** Adding n to a total that folds to 0xffff keeps it there exactly for the multiples of 0xffff. */
  lemma FullWord(total: nat, n: nat)
    requires C.Fold(total) == 0xffff
    ensures C.Fold(total + n) == 0xffff <==> C.Fold(n) in {0, 0xffff}
  {
    var k := C.FoldRemainder(total);
    if n > 0 {
      C.FoldShift(n, k + 1);
    }
  }

  // ----- edits read back -----

  /** A new payload is what a reader finds behind the header, with the total length it announces; all
      else in the header stays. */
  lemma PayloadReadsBack(b: seq<byte>, payload: seq<byte>)
    requires IsPacket(b) && 20 <= b[0] % 16 * 4 <= |b| && b[0] % 16 * 4 + |payload| < 0x1_0000
    ensures var (r, h) := (WithPayload(b, payload), b[0] % 16 * 4);
      && |r| == h + |payload| && r[h..] == payload && U16(r, 2) == |r|
      && forall i :: 0 <= i < h && i != 2 && i != 3 ==> r[i] == b[i]
  {
    var (r, v) := (WithPayload(b, payload), S16(HeadLen(b) + |payload|));
    U16OfS16(HeadLen(b) + |payload|);
    assert r[2] == v[0] && r[3] == v[1];
    hide S16;
  }

  // ----- any sequence of edits -----

  datatype Edit = Src(ip: string) | Dst(ip: string) | Payload(octets: seq<byte>)

  ghost predicate Applicable(edits: seq<Edit>) {
    forall i :: 0 <= i < |edits| && !edits[i].Payload? ==> IsIp(edits[i].ip)
  }

  function Apply(b: seq<byte>, e: Edit): (r: seq<byte>)
    requires IsPacket(b) && 20 <= HeadLen(b) <= |b| && (!e.Payload? ==> IsIp(e.ip))
    ensures IsPacket(r) && HeadLen(r) == HeadLen(b) <= |r| && r[0] == b[0] && r[9] == b[9]
  {
    hide Ip2Bytes, IsIp;
    match e
    case Src(ip) => WithSrcIP(b, ip)
    case Dst(ip) => WithDstIP(b, ip)
    case Payload(p) => WithPayload(b, p)
  }

  function ApplyAll(b: seq<byte>, edits: seq<Edit>): (r: seq<byte>)
    requires IsPacket(b) && 20 <= HeadLen(b) <= |b| && Applicable(edits)
    ensures IsPacket(r) && HeadLen(r) == HeadLen(b) <= |r| && r[0] == b[0] && r[9] == b[9]
    decreases |edits|
  {
    if edits == [] then b else ApplyAll(Apply(b, edits[0]), edits[1..])
  }

  /** Whatever edits came before: rebuilding fixes every checksum a receiver checks unless the signed
      trailing octet interferes, touches nothing but the checksum fields, and needs doing once. */
  lemma RebuildAfterEdits(b: seq<byte>, edits: seq<Edit>)
    requires |b| >= 20 && b[0] % 16 == 5 && Applicable(edits)
    requires Rebuildable(ApplyAll(b, edits)) && |ApplyAll(b, edits)| <= 65535
    ensures var (e, r) := (ApplyAll(b, edits), Rebuilt(ApplyAll(b, edits)));
      && C.Fold(C.WordSum(r[..20])) == 0xffff
      && (b[9] == 6 || b[9] == 17 || b[9] == 1 ==> r[0] == b[0] && (ReceiverAccepts(r) <==> !TransportDeviates(e)))
      && |r| == |e| && (forall i :: 0 <= i < |e| && !IsChecksumIndex(e, i) ==> r[i] == e[i])
      && Rebuildable(r) && Rebuilt(r) == r
  {
    hide Rebuilt, ApplyAll, TransportDeviates, ReceiverAccepts, PseudoSum, Prefix, IsIp;
    var e := ApplyAll(b, edits);
    RebuiltHeaderVerifies(e);
    RebuildFrame(e);
    RebuildIdempotent(e);
    if b[9] == 6 || b[9] == 17 || b[9] == 1 {
      RebuiltTransportVerifies(e);
    }
  }
}
