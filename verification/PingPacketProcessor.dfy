/**
 The ICMP stamp processor: every pass over an echo request pushes an 8-octet time stamp in front of
 the ICMP payload, every pass over a reply pops one.
 */
module PingPacketProcessor {
  import opened Wrappers
  import opened Bytes
  import I = IpLayerPacket
  import P = PacketCodecs

  const ECHO := 8
  const REPLY := 0

  function Segment(b: seq<byte>): seq<byte>
    requires I.IsPacket(b) && I.HeadLen(b) <= |b|
  {
    b[I.HeadLen(b)..]
  }

  /** One pass; None stands for the index exception on a truncated message. */
  function PingStep(b: seq<byte>, nanoTime: int): Option<seq<byte>>
    requires I.IsPacket(b)
  {
    if I.Protocol(b) != I.ICMP then Some(b)
    else if I.HeadLen(b) > |b| || !P.IcmpDecodable(Segment(b)) then None
    else
      var icmp := P.DecodeIcmp(Segment(b));
      if icmp.kind == ECHO then
        Some(I.WithPayload(b, P.EncodeIcmp(icmp.(payload := BigEndian(nanoTime, 8) + icmp.payload))))
      else if icmp.kind == REPLY then
        if |icmp.payload| < 8 then None
        else Some(I.WithPayload(b, P.EncodeIcmp(icmp.(payload := icmp.payload[8..]))))
      else Some(b)
  }

  method Ping(packet: I.IpLayerPacket, nanoTime: int) returns (ok: bool)
    requires I.IsPacket(packet.byteBuf)
    modifies packet
    ensures ok <==> PingStep(old(packet.byteBuf), nanoTime).Some?
    ensures packet.byteBuf == if ok then PingStep(old(packet.byteBuf), nanoTime).value else old(packet.byteBuf)
    ensures packet.byteBuf != old(packet.byteBuf) ==> packet.update
  {
    hide P.WriteIcmp, I.Checksum, I.WithPayload;
    ok := true;
    if I.Protocol(packet.byteBuf) != I.ICMP {
      return;
    }
    if I.HeadLen(packet.byteBuf) > |packet.byteBuf| {
      return false;
    }
    var segment := packet.byteBuf[I.HeadLen(packet.byteBuf)..];
    if !P.IcmpDecodable(segment) {
      return false;
    }
    var icmp := new P.IcmpPacket.Decode(segment);
    if icmp.value.kind == ECHO {
      icmp.value := icmp.value.(payload := BigEndian(nanoTime, 8) + icmp.value.payload);
      var encode := icmp.Encode(true, false);
      packet.SetPayload(encode.value);
    } else if icmp.value.kind == REPLY {
      if |icmp.value.payload| < 8 {
        return false;
      }
      icmp.value := icmp.value.(payload := icmp.value.payload[8..]);
      var encode := icmp.Encode(true, false);
      packet.SetPayload(encode.value);
    }
  }

  // ----- stamps on ICMP messages -----

  /** An ICMP message with its 16 fixed octets. */
  type Message = m: seq<byte> | |m| >= 16 witness seq(16, i => 0)

  function Sum(m: Message): (r: Message)
    ensures |r| == |m| && r[0] == m[0]
  {
    I.StoreChecksum([], m, 2)
  }

  function Insert(m: Message, stamp: seq<byte>): Message {
    m[..16] + stamp + m[16..]
  }

  function Remove(m: Message): Message
    requires |m| >= 24
  {
    m[..16] + m[24..]
  }

  /** The peer answers an echo request with a reply. */
  function Flip(m: Message): Message {
    Put(m, 0, [REPLY])
  }

  function Push(m: Message, nanoTime: int): (r: Message)
    ensures |r| == |m| + 8 && r[0] == m[0]
  {
    Sum(Insert(m, BigEndian(nanoTime, 8)))
  }

  function Pop(m: Message): (r: Message)
    requires |m| >= 24
    ensures |r| == |m| - 8 && r[0] == m[0]
  {
    Sum(Remove(m))
  }

  /** The codec's push and pop are insertion and removal behind the fixed octets. */
  lemma CodecPushes(m: Message, nanoTime: int)
    ensures var icmp := P.DecodeIcmp(m);
            P.EncodeIcmp(icmp.(payload := BigEndian(nanoTime, 8) + icmp.payload)) == Push(m, nanoTime)
  {
    hide Sum, BigEndian, P.EncodeIcmp, P.WriteIcmp, P.DecodeIcmp, U16, Unsigned;
    var stamp := BigEndian(nanoTime, 8);
    var stamped := Insert(m, stamp);
    CodecSums(stamped);
    SameFixedPart(m, m);
    SameFixedPart(m, stamped);
    assert stamped[..16] == m[..16] && stamped[16..] == stamp + m[16..];
  }

  lemma CodecPops(m: Message)
    requires |m| >= 24
    ensures var icmp := P.DecodeIcmp(m);
            |icmp.payload| >= 8 && P.EncodeIcmp(icmp.(payload := icmp.payload[8..])) == Pop(m)
  {
    hide Sum, P.EncodeIcmp, P.WriteIcmp, P.DecodeIcmp, U16, Unsigned;
    CodecSums(Remove(m));
    SameFixedPart(m, m);
    SameFixedPart(m, Remove(m));
    assert Remove(m)[..16] == m[..16] && Remove(m)[16..] == m[16..][8..];
  }

  lemma SameFixedPart(m: Message, n: Message)
    requires m[..16] == n[..16]
    ensures P.DecodeIcmp(n) == P.DecodeIcmp(m).(payload := n[16..])
  {
    hide Unsigned;
    assert forall i :: 0 <= i < 16 ==> m[i] == m[..16][i] && n[i] == n[..16][i];
    assert m[8..16] == m[..16][8..] && n[8..16] == n[..16][8..];
  }

  lemma CodecSums(m: Message)
    ensures P.EncodeIcmp(P.DecodeIcmp(m)) == Sum(m)
  {
    hide P.WriteIcmp, P.DecodeIcmp, I.Checksum, S16, Put;
    P.IcmpReassembles(m, 0);
    P.IcmpReassembles(m, I.Checksum([], Put(m, 2, S16(0))));
  }

  // ----- summing commutes with the other edits up to the stored checksum -----

  lemma SumForgets(m: Message, v: seq<byte>)
    requires |v| == 2
    ensures Sum(Put(m, 2, v)) == Sum(m)
  {
    hide Put, S16, I.Checksum;
    PutOver(m, 2, v, S16(0));
    PutOver(m, 2, v, S16(I.Checksum([], Put(m, 2, S16(0)))));
  }

  lemma SumIsPut(m: Message) returns (v: seq<byte>)
    ensures |v| == 2 && Sum(m) == Put(m, 2, v)
  {
    hide Put, S16, I.Checksum;
    v := S16(I.Checksum([], Put(m, 2, S16(0))));
  }

  lemma SumTwice(m: Message)
    ensures Sum(Sum(m)) == Sum(m)
  {
    hide Sum, Put;
    var v := SumIsPut(m);
    SumForgets(m, v);
  }

  lemma SumOfFlip(m: Message)
    ensures Sum(Flip(Sum(m))) == Sum(Flip(m))
  {
    hide Sum;
    var v := SumIsPut(m);
    assert Flip(Put(m, 2, v)) == Put(Flip(m), 2, v);
    SumForgets(Flip(m), v);
  }

  lemma SumOfRemove(m: Message)
    requires |m| >= 24
    ensures Sum(Remove(Sum(m))) == Sum(Remove(m))
  {
    hide Sum;
    var v := SumIsPut(m);
    assert Remove(Put(m, 2, v)) == Put(Remove(m), 2, v);
    SumForgets(Remove(m), v);
  }

  function PushAll(m: Message, times: seq<int>): (r: Message)
    ensures |r| == |m| + 8 * |times| && r[0] == m[0]
    decreases |times|
  {
    if times == [] then m else PushAll(Push(m, times[0]), times[1..])
  }

  function PopAll(m: Message, n: nat): (r: Message)
    requires |m| >= 16 + 8 * n
    ensures |r| == |m| - 8 * n && r[0] == m[0]
  {
    if n == 0 then m else Pop(PopAll(m, n - 1))
  }

  /** n pushes, the flip and n pops leave the flipped message, up to its recomputed checksum. */
  lemma {:induction false} StampsAreAStack(m: Message, times: seq<int>)
    ensures Sum(PopAll(Flip(PushAll(m, times)), |times|)) == Sum(Flip(m))
    decreases |times|
  {
    if times != [] {
      StampsAreAStack(Push(m, times[0]), times[1..]);
      LastPop(m, BigEndian(times[0], 8), PopAll(Flip(PushAll(m, times)), |times| - 1));
    }
  }

  /** If the inner stack left the flipped pushed message, one more pop leaves the flipped message. */
  lemma LastPop(m: Message, stamp: seq<byte>, z: Message)
    requires |stamp| == 8 && Sum(z) == Sum(Flip(Sum(Insert(m, stamp))))
    ensures |z| >= 24 && Sum(Pop(z)) == Sum(Flip(m))
  {
    hide Sum, Put;
    var inserted := Insert(m, stamp);
    var pushed := Sum(inserted);
    SumTwice(Remove(z));
    SumOfRemove(z);
    SumOfRemove(Flip(pushed));
    RemoveOfFlip(pushed);
    SumOfFlip(Remove(pushed));
    SumOfRemove(inserted);
    SumOfFlip(Remove(inserted));
    assert Remove(inserted) == m;
  }

  lemma RemoveOfFlip(m: Message)
    requires |m| >= 24
    ensures Remove(Flip(m)) == Flip(Remove(m))
  {
  }

  /** Everything but the checksum field survives. */
  lemma SameSumSameRest(m: Message, n: Message)
    requires Sum(m) == Sum(n)
    ensures |m| == |n| && m[..2] == n[..2] && m[4..] == n[4..]
  {
    hide I.Checksum;
    assert Sum(m)[4..] == m[4..] && Sum(n)[4..] == n[4..];
    assert Sum(m)[..2] == m[..2] && Sum(n)[..2] == n[..2];
  }

  // ----- whole packets -----

  /** The packet r is b with octets from..to behind the fixed part of its ICMP message replaced by the stamp,
      a true total length and another ICMP checksum. */
  ghost predicate Edited(b: seq<byte>, r: seq<byte>, stamp: seq<byte>, to: nat)
    requires |b| >= 20 && b[0] % 16 * 4 + 16 <= to <= |b|
  {
    var h := b[0] % 16 * 4;
    && |r| == h + 16 + |stamp| + |b| - to && U16(r, 2) == |r| % 0x1_0000
    && r[h + 16..] == stamp + b[to..]
    && forall i :: 0 <= i < h + 16 && i !in {2, 3, h + 2, h + 3} ==> r[i] == b[i]
  }

  /** One pass over any packet: an echo request gets the time as 8 octets, a reply loses 8 octets, everything
      else passes as it is, and only messages too short for that throw. */
  lemma PingStepEdits(b: seq<byte>, nanoTime: int)
    requires |b| >= 20 && b[0] % 16 >= 5
    ensures var (h, r) := (b[0] % 16 * 4, PingStep(b, nanoTime));
      && (r == None <==> b[9] == 1 && (|b| < h + 16 || (b[h] == 0 && |b| < h + 24)))
      && (b[9] != 1 || (|b| >= h + 16 && b[h] !in {0, 8}) ==> r == Some(b))
      && (r.Some? && b[9] == 1 && b[h] == 0 ==> Edited(b, r.value, [], h + 24))
      && (r.Some? && b[9] == 1 && b[h] == 8 ==>
            exists stamp :: |stamp| == 8 && Unsigned(stamp) == nanoTime % Pow256(8) &&
              Edited(b, r.value, stamp, h + 16))
  {
    hide P.EncodeIcmp, I.WithPayload, BigEndian, Edited, Unsigned, Sum, Push, Pop;
    var h := b[0] % 16 * 4;
    if b[9] == 1 && |b| >= h + 16 {
      var m := Segment(b);
      if m[0] == 8 {
        UnsignedOfBigEndian(nanoTime, 8);
        CodecPushes(m, nanoTime);
        PushEdits(b, nanoTime);
        assert Edited(b, PingStep(b, nanoTime).value, BigEndian(nanoTime, 8), h + 16);
      } else if m[0] == 0 && |m| >= 24 {
        CodecPops(m);
        PopEdits(b);
      }
    }
  }

  lemma PushEdits(b: seq<byte>, nanoTime: int)
    requires |b| >= 20 && 20 <= b[0] % 16 * 4 && b[0] % 16 * 4 + 16 <= |b|
    ensures Edited(b, I.WithPayload(b, Push(Segment(b), nanoTime)), BigEndian(nanoTime, 8), b[0] % 16 * 4 + 16)
  {
    hide BigEndian, Sum, I.WithPayload, Edited;
    var (m, stamp) := (Segment(b), BigEndian(nanoTime, 8));
    InsertEdits(b, Insert(m, stamp), stamp, b[0] % 16 * 4 + 16);
  }

  lemma PopEdits(b: seq<byte>)
    requires |b| >= 20 && 20 <= b[0] % 16 * 4 && b[0] % 16 * 4 + 24 <= |b|
    ensures Edited(b, I.WithPayload(b, Pop(Segment(b))), [], b[0] % 16 * 4 + 24)
  {
    hide Sum, I.WithPayload, Edited;
    InsertEdits(b, Remove(Segment(b)), [], b[0] % 16 * 4 + 24);
  }

  lemma InsertEdits(b: seq<byte>, n: Message, stamp: seq<byte>, to: nat)
    requires |b| >= 20 && 20 <= b[0] % 16 * 4 && b[0] % 16 * 4 + 16 <= to <= |b|
    requires n == b[b[0] % 16 * 4..][..16] + stamp + b[to..]
    ensures Edited(b, I.WithPayload(b, Sum(n)), stamp, to)
  {
    hide Sum;
    var h := b[0] % 16 * 4;
    var v := SumIsPut(n);
    var r := I.WithPayload(b, Put(n, 2, v));
    U16OfS16(|r|);
    assert r[h + 16..] == n[16..];
    hide S16;
  }

  function EchoPasses(b: seq<byte>, times: seq<int>): (r: Option<seq<byte>>)
    requires I.IsPacket(b) && I.HeadLen(b) >= 20
    decreases |times|
  {
    if times == [] then Some(b)
    else
      match PingStep(b, times[0])
      case None => None
      case Some(b') => StepKeepsHeader(b, times[0]); EchoPasses(b', times[1..])
  }

  function ReplyPasses(b: seq<byte>, n: nat): (r: Option<seq<byte>>)
    requires I.IsPacket(b) && I.HeadLen(b) >= 20
    ensures r.Some? ==> I.IsPacket(r.value) && I.HeadLen(r.value) >= 20
  {
    if n == 0 then Some(b)
    else
      match ReplyPasses(b, n - 1)
      case None => None
      case Some(b') => StepKeepsHeader(b', 0); PingStep(b', 0)
  }

  lemma StepKeepsHeader(b: seq<byte>, nanoTime: int)
    requires I.IsPacket(b) && I.HeadLen(b) >= 20
    ensures var r := PingStep(b, nanoTime); r.Some? ==> I.IsPacket(r.value) && I.HeadLen(r.value) == I.HeadLen(b)
  {
    hide P.EncodeIcmp, P.DecodeIcmp, BigEndian;
  }

  predicate IcmpPacket(b: seq<byte>) {
    && I.IsPacket(b) && 20 <= I.HeadLen(b) && I.HeadLen(b) + 16 <= |b|
    && I.Protocol(b) == I.ICMP
  }

  /** Swapping the segment for another leaves the header, apart from the total length. */
  lemma PayloadTwice(b: seq<byte>, m: Message, n: Message)
    requires IcmpPacket(b)
    ensures var p := I.WithPayload(b, m);
      IcmpPacket(p) && I.HeadLen(p) == I.HeadLen(b) && Segment(p) == m && I.WithPayload(p, n) == I.WithPayload(b, n)
  {
    var h := I.HeadLen(b);
    var p := I.WithPayload(b, m);
    hide S16;
    assert p[..h] == Put(b, 2, S16(h + |m|))[..h];
    assert Put(p, 2, S16(h + |n|))[..h] == Put(b, 2, S16(h + |n|))[..h];
  }

  lemma {:induction false} EchoPassesPush(b: seq<byte>, m: Message, times: seq<int>)
    requires IcmpPacket(b) && m[0] == ECHO
    ensures IcmpPacket(I.WithPayload(b, m)) && EchoPasses(I.WithPayload(b, m), times) == Some(I.WithPayload(b,
        PushAll(m, times)))
    decreases |times|
  {
    hide Push, Pop, Sum, P.EncodeIcmp, I.WithPayload;
    PayloadTwice(b, m, m);
    if times != [] {
      CodecPushes(m, times[0]);
      PayloadTwice(b, m, Push(m, times[0]));
      EchoPassesPush(b, Push(m, times[0]), times[1..]);
    }
  }

  lemma {:induction false} ReplyPassesPop(b: seq<byte>, m: Message, n: nat)
    requires IcmpPacket(b) && m[0] == REPLY && |m| >= 16 + 8 * n
    ensures IcmpPacket(I.WithPayload(b, m)) && ReplyPasses(I.WithPayload(b, m), n) == Some(I.WithPayload(b,
        PopAll(m, n)))
  {
    hide Push, Pop, Sum, P.EncodeIcmp, I.WithPayload;
    PayloadTwice(b, m, m);
    if n > 0 {
      ReplyPassesPop(b, m, n - 1);
      var z := PopAll(m, n - 1);
      PayloadTwice(b, z, Pop(z));
      CodecPops(z);
    }
  }

  function FlipPacket(b: seq<byte>): seq<byte>
    requires IcmpPacket(b)
  {
    I.WithPayload(b, Flip(Segment(b)))
  }

  /** n echo passes, the peer's type flip and n reply passes, with any n and any stamps: no pass
      throws, the ICMP payload, the packet length and every header octet come back, and after rebuild
      the packet is the flipped original, rebuilt. */
  lemma PingRestores(b: seq<byte>, times: seq<int>)
    requires IcmpPacket(b) && P.LengthMatches(b) && Segment(b)[0] == ECHO
    ensures var echoed := EchoPasses(b, times);
      && echoed.Some? && IcmpPacket(echoed.value)
      && var replied := ReplyPasses(FlipPacket(echoed.value), |times|);
      && replied.Some? && |replied.value| == |b|
      && replied.value[..I.HeadLen(b)] == b[..I.HeadLen(b)]
      && replied.value[I.HeadLen(b) + 16..] == b[I.HeadLen(b) + 16..]
      && I.Rebuildable(replied.value) && I.Rebuildable(FlipPacket(b))
      && I.Rebuilt(replied.value) == I.Rebuilt(FlipPacket(b))
  {
    hide Push, Pop, Sum, PushAll, PopAll, PingStep, P.LengthMatches, I.WithPayload, I.Rebuilt, I.HeadLen;
    var m, n := Segment(b), |times|;
    var top := PushAll(m, times);
    var z := PopAll(Flip(top), n);
    WithOwnPayload(b);
    EchoPassesPush(b, m, times);
    PayloadTwice(b, top, Flip(top));
    FlipSets(m);
    FlipSets(top);
    ReplyPassesPop(b, Flip(top), n);
    StampsAreAStack(m, times);
    SameSumSameRest(z, Flip(m));
    assert z[16..] == z[4..][12..] && Flip(m)[16..] == Flip(m)[4..][12..];
    RestoredPacket(b, z);
    RestoredPacket(b, Flip(m));
    PayloadTwice(b, z, z);
    PayloadTwice(b, Flip(m), z);
    RebuildBySum(I.WithPayload(b, z), I.WithPayload(b, Flip(m)));
  }

  lemma FlipSets(m: Message)
    ensures Flip(m)[0] == REPLY && Flip(m)[16..] == m[16..]
  {
  }

  lemma WithOwnPayload(b: seq<byte>)
    requires IcmpPacket(b) && P.LengthMatches(b)
    ensures I.WithPayload(b, Segment(b)) == b
  {
    hide S16;
    S16OfU16(b, 2);
    assert Put(b, 2, b[2..4]) == b;
  }

  lemma RestoredPacket(b: seq<byte>, z: Message)
    requires IcmpPacket(b) && P.LengthMatches(b) && |z| == |b| - I.HeadLen(b) && z[16..] == Segment(b)[16..]
    ensures var r, h := I.WithPayload(b, z), I.HeadLen(b);
      |r| == |b| && r[..h] == b[..h] && r[h + 16..] == b[h + 16..]
  {
    hide S16;
    WithOwnPayload(b);
    var r, h := I.WithPayload(b, z), I.HeadLen(b);
    assert r[h + 16..] == z[16..];
    assert b[h + 16..] == Segment(b)[16..];
  }

  /** rebuild depends on an ICMP segment only up to its checksum field. */
  lemma RebuildBySum(p: seq<byte>, q: seq<byte>)
    requires IcmpPacket(p) && IcmpPacket(q) && I.HeadLen(p) == I.HeadLen(q) && |p| == |q|
    requires p[..I.HeadLen(p)] == q[..I.HeadLen(q)] && Sum(Segment(p)) == Sum(Segment(q))
    ensures I.Rebuildable(p) && I.Rebuildable(q) && I.Rebuilt(p) == I.Rebuilt(q)
  {
    hide I.Rebuilt, I.HeadLen, Sum, Segment, Assemble;
    IcmpRebuilt(p);
    IcmpRebuilt(q);
  }

  function Assemble(head: seq<byte>, segment: seq<byte>): seq<byte>
    requires |head| >= 20
  {
    I.StoreChecksum([], head[..20], 10) + head[20..] + segment
  }

  lemma IcmpRebuilt(p: seq<byte>)
    requires IcmpPacket(p)
    ensures I.Rebuildable(p) && I.Rebuilt(p) == Assemble(p[..I.HeadLen(p)], Sum(Segment(p)))
  {
    hide I.Rebuilt, I.StoreChecksum, I.PseudoHeader, S16, Put;
    I.RebuildParts(p);
    var h, r := I.HeadLen(p), I.Rebuilt(p);
    assert r[h..] == Sum(Segment(p));
    hide I.HeadLen, Sum, Segment;
    assert p[..20] == p[..h][..20] && p[20..h] == p[..h][20..];
    assert r == r[..20] + r[20..h] + r[h..];
  }
}
