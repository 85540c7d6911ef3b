/**
 The node's packet path: destination translation with a reverse cache, rules, and route choice.

 A prefix is an address text and a prefix length; the VNAT list is in the map's iteration order. Addresses
 and keys are compared as texts, as the router's maps and caches do. Cache expiry is removal at any
 moment.
 */
module VirtualRouter {
  import opened Wrappers
  import opened Bytes
  import opened IPUtil
  import P = IpLayerPacket
  import D = Cidr
  import R = RouteRule

  datatype PrefixText = PrefixText(ip: string, maskBits: int)

  type Prefix = p: PrefixText | IsIp(p.ip)
    witness (BytesRoundTrip([0, 0, 0, 0]); PrefixText(Bytes2Ip([0, 0, 0, 0]), 32))

  datatype Vnat = Vnat(src: Prefix, dst: Prefix)

  datatype Route = Route(destination: Prefix, nexthops: seq<string>)

  type Ip = ip: string | IsIp(ip)
    witness (BytesRoundTrip([0, 0, 0, 0]); Bytes2Ip([0, 0, 0, 0]))

  /** Caffeine cache of flow keys; expiry is removal at any time. */
  type Cache = map<string, Ip>

  // ----- translation of one address -----

  function FindVnat(vnats: seq<Vnat>, ip: string): Result<Option<Vnat>, D.CidrError>
    requires IsIp(ip)
  {
    if vnats == [] then Ok(None)
    else match D.StaticContains(vnats[0].src.ip, vnats[0].src.maskBits, ip)
      case Err(e) => Err(e)
      case Ok(contains) => if contains then Ok(Some(vnats[0])) else FindVnat(vnats[1..], ip)
  }

  function NatIp(vnat: Vnat, ip: string): Result<string, D.CidrError>
    requires IsIp(ip)
  {
    D.ParseIsValid(vnat.src.ip, vnat.src.maskBits);
    D.ParseIsValid(vnat.dst.ip, vnat.dst.maskBits);
    match D.ParseCidr(vnat.src.ip, vnat.src.maskBits)
    case Err(e) => Err(e)
    case Ok(from) =>
      match D.ParseCidr(vnat.dst.ip, vnat.dst.maskBits)
      case Err(e) => Err(e)
      case Ok(to) => D.Transform(ip, from, to)
  }

  /** None when no VNAT covers the address. */
  function Translate(vnats: seq<Vnat>, ip: string): (r: Result<Option<string>, D.CidrError>)
    requires IsIp(ip)
    ensures r.Ok? && r.value.Some? ==> IsCanonicalIp(r.value.value)
  {
    match FindVnat(vnats, ip)
    case Err(e) => Err(e)
    case Ok(None) => Ok(None)
    case Ok(Some(vnat)) =>
      NatIpIsCanonical(vnat, ip);
      match NatIp(vnat, ip)
      case Err(e) => Err(e)
      case Ok(natIp) => Ok(Some(natIp))
  }

  lemma NatIpIsCanonical(vnat: Vnat, ip: string)
    requires IsIp(ip)
    ensures NatIp(vnat, ip).Ok? ==> IsCanonicalIp(NatIp(vnat, ip).value)
  {
    hide Int2Ip, Ip2Long, IsIp, IsCanonicalIp, D.Transform, D.ParseCidr, D.Contains, D.Valid;
    D.ParseIsValid(vnat.src.ip, vnat.src.maskBits);
    D.ParseIsValid(vnat.dst.ip, vnat.dst.maskBits);
    var from, to := D.ParseCidr(vnat.src.ip, vnat.src.maskBits), D.ParseCidr(vnat.dst.ip, vnat.dst.maskBits);
    if from.Ok? && to.Ok? {
      D.TransformIsBijection(ip, from.value, to.value);
    }
  }

  // ----- one packet -----

  /** A packet not ok left an exception behind; octets and cache are what it had written by then. */
  datatype Outcome = Outcome(ok: bool, octets: seq<byte>, cache: Cache)

  /** Packets without ports or identifier get a random key, under which nothing is ever found. */
  function VnatOut(vnats: seq<Vnat>, cache: Cache, b: seq<byte>): Outcome
    requires P.IsPacket(b)
  {
    DstIsIp(b);
    match Translate(vnats, P.DstIP(b))
    case Err(_) => Outcome(false, b, cache)
    case Ok(None) => Outcome(true, b, cache)
    case Ok(Some(natIp)) =>
      var t := P.WithDstIP(b, natIp);
      if !P.HasIdentifier(t) then Outcome(false, t, cache)
      else match P.Identifier(t, true)
        case None => Outcome(true, t, cache)
        case Some(key) => Outcome(true, t, cache[key := P.DstIP(b)])
  }

  function VnatIn(cache: Cache, b: seq<byte>): Outcome
    requires P.IsPacket(b)
  {
    if !P.HasIdentifier(b) then Outcome(false, b, cache)
    else
      var identifier := P.Identifier(b, false);
      if identifier.Some? && identifier.value in cache
      then Outcome(true, P.WithSrcIP(b, cache[identifier.value]), cache)
      else Outcome(true, b, cache)
  }

  lemma DstIsIp(b: seq<byte>)
    requires P.IsPacket(b)
    ensures IsCanonicalIp(P.DstIP(b)) && IsCanonicalIp(P.SrcIP(b))
  {
    BytesRoundTrip(b[16..20]);
    BytesRoundTrip(b[12..16]);
  }

  // ----- route choice -----

  /** String.hashCode. */
  function HashCode(s: string): int {
    if s == [] then 0 else Int32(31 * HashCode(s[..|s| - 1]) + s[|s| - 1] as int)
  }

  datatype RouteError = BadDestination | NegativeIndex

  function FindRoute(routes: seq<Route>, srcIP: string, dstIP: string): Result<Option<string>, RouteError>
    requires IsIp(dstIP)
  {
    if routes == [] then Ok(None)
    else match D.StaticContains(routes[0].destination.ip, routes[0].destination.maskBits, dstIP)
      case Err(_) => Err(BadDestination)
      case Ok(contains) => if contains then Pick(routes[0].nexthops, srcIP) else FindRoute(routes[1..], srcIP, dstIP)
  }

  /** Math.abs leaves the smallest int negative, and the remainder has the sign of the dividend. */
  function Pick(nexthops: seq<string>, srcIP: string): Result<Option<string>, RouteError> {
    if nexthops == [] then Ok(None)
    else
      var h := HashCode(srcIP);
      var abs := if h < 0 then Int32(-h) else h;
      var rand := if abs < 0 then -(-abs % |nexthops|) else abs % |nexthops|;
      if rand < 0 then Err(NegativeIndex) else Ok(Some(nexthops[rand]))
  }

  /** The first route whose destination contains the address decides, and a malformed destination only
      matters when it comes before that route. */
  lemma FirstRouteDecides(routes: seq<Route>, srcIP: string, dstIP: string) returns (i: nat)
    requires IsIp(dstIP)
    ensures i <= |routes|
    ensures forall j :: 0 <= j < i ==>
      D.StaticContains(routes[j].destination.ip, routes[j].destination.maskBits, dstIP) == Ok(false)
    ensures i == |routes| ==> FindRoute(routes, srcIP, dstIP) == Ok(None)
    ensures i < |routes| ==>
      var contains := D.StaticContains(routes[i].destination.ip, routes[i].destination.maskBits, dstIP);
      contains != Ok(false)
      && FindRoute(routes, srcIP, dstIP)
         == if contains.Err? then Err(BadDestination) else Pick(routes[i].nexthops, srcIP)
  {
    hide IsIp, Pick, D.StaticContains;
    i := 0;
    if routes != [] {
      if D.StaticContains(routes[0].destination.ip, routes[0].destination.maskBits, dstIP) == Ok(false) {
        i := FirstRouteDecides(routes[1..], srcIP, dstIP);
        i := i + 1;
      }
    }
  }

  /** A source is sent to a nexthop of the route, except for a source whose hash is the smallest int
      when the number of nexthops is no power of two. */
  lemma PickFails(nexthops: seq<string>, srcIP: string)
    requires nexthops != []
    ensures Pick(nexthops, srcIP).Err? <==> HashCode(srcIP) == -INT_LIMIT && INT_LIMIT % |nexthops| != 0
    ensures Pick(nexthops, srcIP).Ok? ==>
        Pick(nexthops, srcIP).value.Some? && Pick(nexthops, srcIP).value.value in nexthops
  {
    HashCodeIsInt(srcIP);
  }

  lemma HashCodeIsInt(s: string)
    ensures -INT_LIMIT <= HashCode(s) < INT_LIMIT
  {
  }

  /** Such a source exists. */
  lemma PickFailsForSomeSource(nexthops: seq<string>)
    requires |nexthops| == 3
    ensures IsCanonicalIp("52.13.35.254") && Pick(nexthops, "52.13.35.254").Err?
  {
    SmallestHash();
    SmallestHashText();
    hide HashCode, IsCanonicalIp;
  }

  lemma SmallestHashText()
    ensures IsCanonicalIp("52.13.35.254")
  {
    hide Dec, Join, Split, IsIp, IsCanonicalIp, IsField, Ip2Bytes;
    BytesRoundTrip([52, 13, 35, 254]);
    Decimals();
    DottedText("52", "13", "35", "254");
    assert Bytes2Ip([52, 13, 35, 254]) == "52.13.35.254" by {
      assert "52" + "." + ("13" + "." + ("35" + "." + "254")) == "52.13.35.254";
    }
  }

  lemma Decimals()
    ensures Dec(52) == "52" && Dec(13) == "13" && Dec(35) == "35" && Dec(254) == "254"
  {
    assert Dec(25) == "25";
  }

  lemma DottedText(f0: string, f1: string, f2: string, f3: string)
    ensures Join([f0, f1, f2, f3], '.') == f0 + "." + (f1 + "." + (f2 + "." + f3))
  {
    JoinCons(f2, [f3]);
    JoinCons(f1, [f2, f3]);
    JoinCons(f0, [f1, f2, f3]);
  }

  lemma JoinCons(f: string, fields: seq<string>)
    requires fields != []
    ensures Join([f] + fields, '.') == f + "." + Join(fields, '.')
  {
    assert ([f] + fields)[1..] == fields;
  }

  lemma SmallestHash()
    ensures HashCode("52.13.35.254") == -INT_LIMIT
  {
    hide HashCode;
    var s := "52.13.35.254";
    HashNothing(s);
    HashStep(s, 0, 53);
    HashStep(s, 1, 1693);
    HashStep(s, 2, 52529);
    HashStep(s, 3, 1628448);
    HashStep(s, 4, 50481939);
    HashStep(s, 5, 1564940155);
    HashStep(s, 6, 1268504600);
    HashStep(s, 7, 668936989);
    HashStep(s, 8, -737789775);
    HashStep(s, 9, -1396646495);
    HashStep(s, 10, -346368332);
    HashStep(s, 11, -2147483648);
    assert s[..12] == s;
  }

  lemma HashNothing(s: string)
    ensures HashCode(s[..0]) == 0
  {
  }

  lemma HashStep(s: string, k: nat, h: int)
    requires k < |s| && Int32(31 * HashCode(s[..k]) + s[k] as int) == h
    ensures HashCode(s[..k + 1]) == h
  {
    assert s[..k + 1][..k] == s[..k];
  }

  // ----- flow keys -----

  /** r travels back along the flow of q: ends exchanged, same protocol, identifier or ports. */
  predicate Answers(r: seq<byte>, q: seq<byte>)
    requires P.HasIdentifier(r) && P.HasIdentifier(q)
  {
    && P.Protocol(r) == P.Protocol(q)
    && P.SrcIP(r) == P.DstIP(q) && P.DstIP(r) == P.SrcIP(q)
    && (P.Protocol(q) == P.ICMP ==> U16(r, 24) == U16(q, 24))
    && (P.Protocol(q) == P.TCP || P.Protocol(q) == P.UDP ==> U16(r, 20) == U16(q, 22) && U16(r, 22) == U16(q, 20))
  }

  predicate NoSeparator(s: string) {
    forall i :: 0 <= i < |s| ==> s[i] == '.' || '0' <= s[i] <= '9'
  }

  lemma AddressHasNoSeparator(b: Addr)
    ensures NoSeparator(Bytes2Ip(b))
  {
    var d := [Dec(b[3])];
    JoinCons(Dec(b[2]), d);
    JoinCons(Dec(b[1]), [Dec(b[2]), Dec(b[3])]);
    JoinCons(Dec(b[0]), [Dec(b[1]), Dec(b[2]), Dec(b[3])]);
    hide Dec, Join;
  }

  lemma CutDec(m: nat, x: string, n: nat, y: string, c: char)
    requires !('0' <= c <= '9') && Dec(m) + ([c] + x) == Dec(n) + ([c] + y)
    ensures m == n && x == y
  {
    hide Dec;
    assert Dec(m) + [c] + x == Dec(m) + ([c] + x) && Dec(n) + [c] + y == Dec(n) + ([c] + y);
    CutUnique(Dec(m), x, Dec(n), y, c);
    ParseOfDec(m);
    ParseOfDec(n);
  }

  lemma CutText(u: string, x: string, v: string, y: string, c: char)
    requires NoSeparator(u) && NoSeparator(v) && c != '.' && !('0' <= c <= '9') && u + ([c] + x) == v + ([c] + y)
    ensures u == v && x == y
  {
    assert u + [c] + x == u + ([c] + x) && v + [c] + y == v + ([c] + y);
    CutUnique(u, x, v, y, c);
  }

  lemma IcmpKeyInjective(id: nat, from: string, to: string, id': nat, from': string, to': string)
    requires NoSeparator(from) && NoSeparator(from')
    requires P.IcmpKey(id, from, to) == P.IcmpKey(id', from', to')
    ensures id == id' && from == from' && to == to'
  {
    hide Dec;
    IcmpKeyParts(id, from, to);
    IcmpKeyParts(id', from', to');
    CutDec(P.ICMP, Dec(id) + (" " + (from + "->" + to)), P.ICMP, Dec(id') + (" " + (from' + "->" + to')), ':');
    CutDec(id, from + "->" + to, id', from' + "->" + to', ' ');
    assert from + "->" + to == from + (['-'] + (['>'] + to)) && from' + "->" + to' == from' + (['-'] + (['>'] + to'));
    CutText(from, ['>'] + to, from', ['>'] + to', '-');
    assert to == (['>'] + to)[1..] && to' == (['>'] + to')[1..];
  }

  lemma IcmpKeyParts(id: nat, from: string, to: string)
    ensures P.IcmpKey(id, from, to) == Dec(P.ICMP) + ([':'] + (Dec(id) + (" " + (from + "->" + to))))
  {
    hide Dec;
  }

  lemma PortKeyInjective(p: nat, from: string, fp: nat, to: string, tp: nat,
                         p': nat, from': string, fp': nat, to': string, tp': nat)
    requires NoSeparator(from) && NoSeparator(from') && NoSeparator(to) && NoSeparator(to')
    requires P.PortKey(p, from, fp, to, tp) == P.PortKey(p', from', fp', to', tp')
    ensures p == p' && from == from' && fp == fp' && to == to' && tp == tp'
  {
    hide Dec;
    var (end, end') := (to + ([':'] + Dec(tp)), to' + ([':'] + Dec(tp')));
    var (mid, mid') := (Dec(fp) + (['-'] + (['>'] + end)), Dec(fp') + (['-'] + (['>'] + end')));
    PortKeyParts(p, from, fp, to, tp);
    PortKeyParts(p', from', fp', to', tp');
    CutDec(p, [' '] + (from + ([':'] + mid)), p', [' '] + (from' + ([':'] + mid')), ':');
    assert ([' '] + (from + ([':'] + mid)))[1..] == from + ([':'] + mid);
    assert ([' '] + (from' + ([':'] + mid')))[1..] == from' + ([':'] + mid');
    CutText(from, mid, from', mid', ':');
    CutDec(fp, ['>'] + end, fp', ['>'] + end', '-');
    assert end == (['>'] + end)[1..] && end' == (['>'] + end')[1..];
    CutText(to, Dec(tp), to', Dec(tp'), ':');
    ParseOfDec(tp);
    ParseOfDec(tp');
  }

  lemma PortKeyParts(p: nat, from: string, fp: nat, to: string, tp: nat)
    ensures P.PortKey(p, from, fp, to, tp)
         == Dec(p) + ([':'] + ([' '] + (from + ([':'] + (Dec(fp) + (['-'] + (['>'] + (to + ([':'] + Dec(tp))))))))))
  {
    hide Dec;
    assert from + ":" + (Dec(fp) + "->" + (to + ":" + Dec(tp)))
        == from + ([':'] + (Dec(fp) + (['-'] + (['>'] + (to + ([':'] + Dec(tp)))))));
  }

  lemma KindsDiffer(id: nat, from: string, to: string, p: nat, from': string, fp: nat, to': string, tp: nat)
    requires p != P.ICMP
    ensures P.IcmpKey(id, from, to) != P.PortKey(p, from', fp, to', tp)
  {
    hide Dec;
    PortKeyParts(p, from', fp, to', tp);
    if P.IcmpKey(id, from, to) == P.PortKey(p, from', fp, to', tp) {
      CutDec(P.ICMP, Dec(id) + (" " + (from + "->" + to)),
             p, [' '] + (from' + ([':'] + (Dec(fp) + (['-'] + (['>'] + (to' + ([':'] + Dec(tp)))))))), ':');
    }
  }

  /** A key names one flow: an incoming packet's key is a sent packet's exchanged key exactly when
      the one answers the other. */
  lemma KeysNameFlows(r: seq<byte>, q: seq<byte>)
    requires P.HasIdentifier(r) && P.HasIdentifier(q) && P.Identifier(q, true).Some?
    ensures P.Identifier(r, false) == P.Identifier(q, true) <==> Answers(r, q)
  {
    AddressHasNoSeparator(r[12..16]);
    AddressHasNoSeparator(r[16..20]);
    AddressHasNoSeparator(q[12..16]);
    AddressHasNoSeparator(q[16..20]);
    var (rs, rd, qs, qd) := (P.SrcIP(r), P.DstIP(r), P.SrcIP(q), P.DstIP(q));
    hide P.IcmpKey, P.PortKey, P.SrcIP, P.DstIP, NoSeparator, U16;
    if P.Identifier(r, false) == P.Identifier(q, true) {
      if P.Protocol(r) == P.ICMP && P.Protocol(q) == P.ICMP {
        IcmpKeyInjective(U16(r, 24), rs, rd, U16(q, 24), qd, qs);
      } else if P.Protocol(r) == P.ICMP {
        KindsDiffer(U16(r, 24), rs, rd, P.Protocol(q), qd, U16(q, 22), qs, U16(q, 20));
      } else if P.Protocol(q) == P.ICMP {
        KindsDiffer(U16(q, 24), qd, qs, P.Protocol(r), rs, U16(r, 20), rd, U16(r, 22));
      } else {
        PortKeyInjective(P.Protocol(r), rs, U16(r, 20), rd, U16(r, 22), P.Protocol(q), qd, U16(q, 22), qs, U16(q, 20));
      }
    }
  }

  // ----- runs -----

  datatype Event = Sent(octets: seq<byte>) | Received(octets: seq<byte>) | Evicted(key: string)

  ghost predicate Packets(events: seq<Event>) {
    forall i :: 0 <= i < |events| && !events[i].Evicted? ==> P.IsPacket(events[i].octets)
  }

  /** The cache after a run from an empty one. */
  ghost function RunCache(vnats: seq<Vnat>, events: seq<Event>): Cache
    requires Packets(events)
  {
    if events == [] then map[]
    else
      var n := |events| - 1;
      var before := RunCache(vnats, events[..n]);
      match events[n]
      case Sent(b) => VnatOut(vnats, before, b).cache
      case Received(b) => VnatIn(before, b).cache
      case Evicted(key) => before - {key}
  }

  /** The address a packet for ip leaves with, if it is translated. */
  function Nat(vnats: seq<Vnat>, ip: string): Option<string>
    requires IsIp(ip)
  {
    match Translate(vnats, ip)
    case Ok(Some(natIp)) => Some(natIp)
    case _ => None
  }

  /** Every entry's key is a flow key whose far end is the translation of the stored address. */
  ghost predicate Sound(vnats: seq<Vnat>, cache: Cache) {
    forall key :: key in cache ==> IsCanonicalIp(cache[key]) && KeyedBy(key, Nat(vnats, cache[key]))
  }

  ghost predicate KeyedBy(key: string, far: Option<string>) {
    exists q :: P.HasIdentifier(q) && P.Identifier(q, true) == Some(key) && far == Some(P.DstIP(q))
  }

  lemma {:induction false} RunIsSound(vnats: seq<Vnat>, events: seq<Event>)
    requires Packets(events)
    ensures Sound(vnats, RunCache(vnats, events))
  {
    hide Translate, KeyedBy, IsIp, IsCanonicalIp;
    if events != [] {
      var n := |events| - 1;
      RunIsSound(vnats, events[..n]);
      if events[n].Sent? {
        OutIsSound(vnats, RunCache(vnats, events[..n]), events[n].octets);
      }
    }
  }

  /** What sending does, by cases of the translation. */
  lemma OutCases(vnats: seq<Vnat>, cache: Cache, b: seq<byte>)
    requires P.IsPacket(b)
    ensures IsIp(P.DstIP(b))
    ensures var (o, far) := (VnatOut(vnats, cache, b), Nat(vnats, P.DstIP(b)));
      if far.None? then o.octets == b && o.cache == cache
      else
        && IsCanonicalIp(far.value)
        && var t := P.WithDstIP(b, far.value);
        && P.IsPacket(t) && o.octets == t && o.ok == P.HasIdentifier(t)
        && o.cache == if o.ok && P.Identifier(t, true).Some? then cache[P.Identifier(t,
            true).value := P.DstIP(b)] else cache
  {
    hide Translate, IsIp, IsCanonicalIp, P.DstIP, P.SrcIP, P.WithSrcIP, P.WithDstIP, P.Identifier, P.HasIdentifier;
    DstIsIp(b);
    CanonicalIsIp(P.DstIP(b));
    NatIsCanonical(vnats, P.DstIP(b));
    var far := Nat(vnats, P.DstIP(b));
    if far.Some? {
      CanonicalIsIp(far.value);
      Translated(b, far.value);
    }
  }

  lemma OutIsSound(vnats: seq<Vnat>, cache: Cache, b: seq<byte>)
    requires P.IsPacket(b) && Sound(vnats, cache)
    ensures Sound(vnats, VnatOut(vnats, cache, b).cache)
  {
    hide VnatOut, Nat, IsIp, IsCanonicalIp, P.WithDstIP, P.DstIP, P.SrcIP, P.Identifier, P.HasIdentifier, KeyedBy;
    DstIsIp(b);
    OutCases(vnats, cache, b);
    var far := Nat(vnats, P.DstIP(b));
    if far.Some? {
      CanonicalIsIp(far.value);
      Translated(b, far.value);
      KeyOfPacket(P.WithDstIP(b, far.value), far);
    }
  }

  lemma KeyOfPacket(t: seq<byte>, far: Option<string>)
    requires P.IsPacket(t) && far == Some(P.DstIP(t))
    ensures P.HasIdentifier(t) && P.Identifier(t, true).Some? ==> KeyedBy(P.Identifier(t, true).value, far)
  {
    hide P.Identifier, P.HasIdentifier, P.DstIP;
  }

  lemma CanonicalIsIp(ip: string)
    requires IsCanonicalIp(ip)
    ensures IsIp(ip)
  {
  }

  lemma Translated(b: seq<byte>, ip: string)
    requires P.IsPacket(b) && IsCanonicalIp(ip)
    ensures var t := P.WithDstIP(b, ip); P.IsPacket(t) && P.DstIP(t) == ip && P.SrcIP(t) == P.SrcIP(b)
    ensures var s := P.WithSrcIP(b, ip); P.IsPacket(s) && P.SrcIP(s) == ip && P.DstIP(s) == P.DstIP(b)
  {
    CanonicalIsIp(ip);
    hide IsIp, IsCanonicalIp;
    TextRoundTrip(ip);
    assert P.WithDstIP(b, ip)[16..20] == Ip2Bytes(ip) && P.WithDstIP(b, ip)[12..16] == b[12..16];
    assert P.WithSrcIP(b, ip)[12..16] == Ip2Bytes(ip) && P.WithSrcIP(b, ip)[16..20] == b[16..20];
    hide Ip2Bytes, Bytes2Ip;
  }

  /** No two addresses are translated to the same one. */
  ghost predicate Injective(vnats: seq<Vnat>) {
    forall x, y :: IsCanonicalIp(x) && IsCanonicalIp(y) ==>
      Nat(vnats, x).Some? && Nat(vnats, x) == Nat(vnats, y) ==> x == y
  }

  /** The packet sent in step i left translated, and r answers it while its key is still cached. */
  ghost predicate StillAnswered(vnats: seq<Vnat>, events: seq<Event>, i: nat, r: seq<byte>)
    requires Packets(events)
  {
    && i < |events| && events[i].Sent? && P.HasIdentifier(r)
    && var q := events[i].octets;
    && IsCanonicalIp(P.DstIP(q)) && Nat(vnats, P.DstIP(q)).Some?
    && var t := P.WithDstIP(q, Nat(vnats, P.DstIP(q)).value);
    && P.HasIdentifier(t) && P.Identifier(t, true).Some? && Answers(r, t)
    && P.Identifier(t, true).value in RunCache(vnats, events)
  }

  /** The reply reaches the host as coming from the address the packet was sent to. */
  ghost predicate Restored(vnats: seq<Vnat>, events: seq<Event>, i: nat, r: seq<byte>)
    requires Packets(events)
  {
    StillAnswered(vnats, events, i, r) ==>
      var back := VnatIn(RunCache(vnats, events), r);
      && back.ok && P.IsPacket(back.octets)
      && P.SrcIP(back.octets) == P.DstIP(events[i].octets) && P.DstIP(back.octets) == P.DstIP(r)
  }

  ghost predicate Faithful(vnats: seq<Vnat>) {
    forall events, i, r :: Packets(events) ==> Restored(vnats, events, i, r)
  }

  /** Any cached reply is restored to an address whose translation is the reply's source. */
  lemma CachedReplyInverts(vnats: seq<Vnat>, events: seq<Event>, r: seq<byte>)
    requires Packets(events) && P.HasIdentifier(r)
    requires P.Identifier(r, false).Some? && P.Identifier(r, false).value in RunCache(vnats, events)
    ensures var back := VnatIn(RunCache(vnats, events), r);
      && back.ok && P.IsPacket(back.octets) && IsCanonicalIp(P.SrcIP(back.octets)) && P.DstIP(back.octets) == P.DstIP(r)
      && Nat(vnats, P.SrcIP(back.octets)) == Some(P.SrcIP(r))
  {
    hide Nat, IsIp, IsCanonicalIp, P.DstIP, P.SrcIP, P.WithSrcIP, P.WithDstIP, P.Identifier, RunCache;
    var cache, key := RunCache(vnats, events), P.Identifier(r, false).value;
    RunIsSound(vnats, events);
    assert KeyedBy(key, Nat(vnats, cache[key]));
    var q :| P.HasIdentifier(q) && P.Identifier(q, true) == Some(key) && Nat(vnats, cache[key]) == Some(P.DstIP(q));
    KeysNameFlows(r, q);
    Translated(r, cache[key]);
  }

  lemma InjectiveIsFaithful(vnats: seq<Vnat>)
    requires Injective(vnats)
    ensures Faithful(vnats)
  {
    hide Nat, IsIp, IsCanonicalIp, P.DstIP, P.SrcIP, P.WithSrcIP, P.WithDstIP, P.Identifier, RunCache, VnatIn, Answers;
    forall events: seq<Event>, i: nat, r: seq<byte> | Packets(events) && StillAnswered(vnats, events, i, r)
      ensures Restored(vnats, events, i, r)
    {
      var q := events[i].octets;
      CanonicalIsIp(P.DstIP(q));
      var natIp := Nat(vnats, P.DstIP(q)).value;
      NatIsCanonical(vnats, P.DstIP(q));
      CanonicalIsIp(natIp);
      var t := P.WithDstIP(q, natIp);
      Translated(q, natIp);
      KeysNameFlows(r, t);
      CachedReplyInverts(vnats, events, r);
      AnswerSource(r, t);
    }
  }

  lemma NatIsCanonical(vnats: seq<Vnat>, ip: string)
    requires IsIp(ip)
    ensures Nat(vnats, ip).Some? ==> IsCanonicalIp(Nat(vnats, ip).value)
  {
    hide Translate, IsIp, IsCanonicalIp;
  }

  lemma AnswerSource(r: seq<byte>, t: seq<byte>)
    requires P.HasIdentifier(r) && P.HasIdentifier(t) && Answers(r, t)
    ensures P.SrcIP(r) == P.DstIP(t)
  {
  }

  // ----- replies to untranslated packets -----

  /** Some address is translated to this one. */
  ghost predicate IsTarget(vnats: seq<Vnat>, ip: string) {
    exists x :: IsCanonicalIp(x) && IsIp(x) && Nat(vnats, x) == Some(ip)
  }

  /** Whatever was sent and received before, the packet passes unchanged. */
  ghost predicate Undisturbed(vnats: seq<Vnat>, r: seq<byte>)
    requires P.IsPacket(r)
  {
    forall events :: Packets(events) ==>
      VnatIn(RunCache(vnats, events), r) == Outcome(true, r, RunCache(vnats, events))
  }

  lemma AsSent(b: seq<byte>)
    requires P.IsPacket(b)
    ensures IsCanonicalIp(P.DstIP(b)) && IsIp(P.DstIP(b)) && Ip2Bytes(P.DstIP(b)) == b[16..20]
  {
    BytesRoundTrip(b[16..20]);
    DstIsIp(b);
    hide IsIp, Ip2Bytes, Bytes2Ip;
  }

  /** Sending the same packet to x, where x is translated to its destination, leaves its key with x. */
  lemma TargetTakesKey(vnats: seq<Vnat>, q: seq<byte>, x: string)
    requires P.HasIdentifier(q) && P.Identifier(q, true).Some? && IsCanonicalIp(x) && IsIp(x)
    requires IsIp(P.DstIP(q)) && Nat(vnats, x) == Some(P.DstIP(q))
    ensures P.IsPacket(P.WithDstIP(q, x))
    ensures RunCache(vnats, [Sent(P.WithDstIP(q, x))]) == map[P.Identifier(q, true).value := x]
  {
    AsSent(q);
    Translated(q, x);
    var sent := P.WithDstIP(q, x);
    assert P.WithDstIP(sent, P.DstIP(q)) == q by { SetBack(q, x); }
    OutCases(vnats, map[], sent);
    LastSent(vnats, [Sent(sent)]);
    hide Nat, IsIp, IsCanonicalIp, P.DstIP, P.WithDstIP, P.Identifier, P.HasIdentifier, VnatOut;
    assert RunCache(vnats, [Sent(sent)][..0]) == map[];
  }

  lemma SetBack(q: seq<byte>, x: string)
    requires P.IsPacket(q) && IsIp(x) && IsIp(P.DstIP(q)) && Ip2Bytes(P.DstIP(q)) == q[16..20]
    ensures P.WithDstIP(P.WithDstIP(q, x), P.DstIP(q)) == q
  {
    hide IsIp, Ip2Bytes, P.DstIP;
  }

  /** Replies to a packet that left untranslated are left alone in every run, if and only if no address is
      translated to the packet's destination. */
  lemma UntranslatedIff(vnats: seq<Vnat>, q: seq<byte>, r: seq<byte>)
    requires P.HasIdentifier(q) && P.HasIdentifier(r) && P.Identifier(q, true).Some? && Answers(r, q)
    requires IsIp(P.DstIP(q)) && Nat(vnats, P.DstIP(q)).None?
    ensures Undisturbed(vnats, r) <==> !IsTarget(vnats, P.DstIP(q))
  {
    hide Nat, IsIp, IsCanonicalIp, P.DstIP, P.SrcIP, P.WithSrcIP, P.WithDstIP, P.Identifier, RunCache, Answers;
    KeysNameFlows(r, q);
    AnswerSource(r, q);
    if IsTarget(vnats, P.DstIP(q)) {
      var x :| IsCanonicalIp(x) && IsIp(x) && Nat(vnats, x) == Some(P.DstIP(q));
      TargetTakesKey(vnats, q, x);
      var events := [Sent(P.WithDstIP(q, x))];
      LookUp(vnats, events, r, P.Identifier(q, true).value);
      Translated(r, x);
      assert VnatIn(RunCache(vnats, events), r).octets != r;
    } else {
      forall events | Packets(events)
        ensures VnatIn(RunCache(vnats, events), r) == Outcome(true, r, RunCache(vnats, events))
      {
        if P.Identifier(r, false).value in RunCache(vnats, events) {
          CachedReplyInverts(vnats, events, r);
          CanonicalIsIp(P.SrcIP(VnatIn(RunCache(vnats, events), r).octets));
          assert false;
        }
      }
    }
  }

  // ----- when a configuration is faithful -----

  const NOWHERE: Addr := [0, 0, 0, 0]

  /** A UDP datagram header between two addresses, both ports 0. */
  function Datagram(from: Addr, to: Addr): (b: seq<byte>)
    ensures P.IsPacket(b) && P.HasIdentifier(b) && P.Protocol(b) == P.UDP && P.SrcIP(b) == Bytes2Ip(from) &&
        P.DstIP(b) == Bytes2Ip(to)
    ensures U16(b, 20) == 0 && U16(b, 22) == 0
  {
    var b := [69, 0, 0, 24, 0, 0, 0, 0, 64, 17, 0, 0] + from + to + [0, 0, 0, 0];
    assert b[12..16] == from && b[16..20] == to;
    b
  }

  lemma Redirected(from: Addr, to: Addr, ip: string)
    requires IsIp(ip)
    ensures P.WithDstIP(Datagram(from, to), ip) == Datagram(from, Ip2Bytes(ip))
  {
    hide IsIp, Ip2Bytes;
  }

  /** Two datagrams to addresses with one translation share a key, and the second wins. */
  lemma FaithfulIsInjective(vnats: seq<Vnat>)
    requires Faithful(vnats)
    ensures Injective(vnats)
  {
    hide IsIp, Nat;
    forall x, y | IsCanonicalIp(x) && IsCanonicalIp(y) && Nat(vnats, x).Some? && Nat(vnats, x) == Nat(vnats, y)
      ensures x == y
    {
      SharedKey(vnats, x, y);
    }
  }

  lemma SharedKey(vnats: seq<Vnat>, x: string, y: string)
    requires Faithful(vnats) && IsCanonicalIp(x) && IsCanonicalIp(y)
    requires IsIp(x) && IsIp(y) && Nat(vnats, x).Some? && Nat(vnats, x) == Nat(vnats, y)
    ensures x == y
  {
    hide IsIp, IsCanonicalIp, Nat, Datagram, VnatOut, VnatIn, P.WithDstIP, P.WithSrcIP, P.SrcIP, P.DstIP,
        P.Identifier, P.HasIdentifier,
         Bytes2Ip, Ip2Bytes, RunCache, Answers, Restored, StillAnswered;
    var n := Nat(vnats, x).value;
    NatIsCanonical(vnats, x);
    CanonicalIsIp(n);
    TextRoundTrip(x);
    TextRoundTrip(y);
    TextRoundTrip(n);
    var (qx, qy, t) := (Datagram(NOWHERE, Ip2Bytes(x)), Datagram(NOWHERE, Ip2Bytes(y)), Datagram(NOWHERE, Ip2Bytes(n)));
    Redirected(NOWHERE, Ip2Bytes(x), n);
    Redirected(NOWHERE, Ip2Bytes(y), n);
    var r := Datagram(Ip2Bytes(n), NOWHERE);
    DatagramsAnswer(Ip2Bytes(n), NOWHERE);
    var events := [Sent(qx), Sent(qy)];
    var first := RunCache(vnats, events[..1]);
    OutCases(vnats, first, qy);
    LastSent(vnats, events);
    var key := P.Identifier(t, true).value;
    assert RunCache(vnats, events) == first[key := y];
    LookUp(vnats, events, r, key);
    Answering(vnats, events, 0, r);
    assert Restored(vnats, events, 0, r);
    RestoredMeans(vnats, events, 0, r);
    Translated(r, y);
  }

  lemma LastSent(vnats: seq<Vnat>, events: seq<Event>)
    requires Packets(events) && events != [] && events[|events| - 1].Sent?
    ensures RunCache(vnats, events) == VnatOut(vnats, RunCache(vnats, events[..|events| - 1]),
        events[|events| - 1].octets).cache
  {
    hide VnatOut;
  }

  lemma LookUp(vnats: seq<Vnat>, events: seq<Event>, r: seq<byte>, key: string)
    requires Packets(events) && P.HasIdentifier(r) && P.Identifier(r, false) == Some(key) &&
        key in RunCache(vnats, events)
    ensures VnatIn(RunCache(vnats, events), r).octets == P.WithSrcIP(r, RunCache(vnats, events)[key])
  {
    hide RunCache, P.WithSrcIP, P.Identifier, P.HasIdentifier;
  }

  lemma Answering(vnats: seq<Vnat>, events: seq<Event>, i: nat, r: seq<byte>)
    requires Packets(events) && i < |events| && events[i].Sent? && P.HasIdentifier(r)
    requires IsCanonicalIp(P.DstIP(events[i].octets)) && IsIp(P.DstIP(events[i].octets))
    requires Nat(vnats, P.DstIP(events[i].octets)).Some? && IsIp(Nat(vnats, P.DstIP(events[i].octets)).value)
    requires var t := P.WithDstIP(events[i].octets, Nat(vnats, P.DstIP(events[i].octets)).value);
      && P.HasIdentifier(t) && P.Identifier(t, true).Some? && Answers(r, t)
      && P.Identifier(t, true).value in RunCache(vnats, events)
    ensures StillAnswered(vnats, events, i, r)
  {
    hide IsIp, IsCanonicalIp, Nat, P.WithDstIP, P.DstIP, P.Identifier, P.HasIdentifier, RunCache, Answers;
  }

  lemma RestoredMeans(vnats: seq<Vnat>, events: seq<Event>, i: nat, r: seq<byte>)
    requires Packets(events) && StillAnswered(vnats, events, i, r) && Restored(vnats, events, i, r)
    ensures var back := VnatIn(RunCache(vnats, events), r);
      P.IsPacket(back.octets) && P.SrcIP(back.octets) == P.DstIP(events[i].octets)
  {
    hide StillAnswered, RunCache, VnatIn, P.SrcIP, P.DstIP;
  }

  lemma DatagramsAnswer(from: Addr, to: Addr)
    ensures var (r, t) := (Datagram(from, to), Datagram(to, from));
      && Answers(r, t) && P.Identifier(t, true).Some? && P.Identifier(r, false) == P.Identifier(t, true)
  {
    hide Datagram, P.SrcIP, P.DstIP, P.PortKey, P.IcmpKey, Bytes2Ip;
  }

  predicate Covers(p: Prefix, ip: string)
    requires IsIp(ip)
  {
    D.StaticContains(p.ip, p.maskBits, ip) == Ok(true)
  }

  /** What the controller checks before it stores a VNAT, with a prefix length the node accepts. */
  predicate Checked(v: Vnat) {
    1 <= v.src.maskBits <= 32 && v.src.maskBits == v.dst.maskBits
  }

  ghost predicate AllChecked(vnats: seq<Vnat>) {
    forall i :: 0 <= i < |vnats| ==> Checked(vnats[i])
  }

  ghost predicate Apart(p: Prefix, q: Prefix) {
    forall ip :: IsCanonicalIp(ip) ==> !(Covers(p, ip) && Covers(q, ip))
  }

  ghost predicate DisjointSources(vnats: seq<Vnat>) {
    forall i, j :: 0 <= i < j < |vnats| ==> Apart(vnats[i].src, vnats[j].src)
  }

  ghost predicate DisjointTargets(vnats: seq<Vnat>) {
    forall i, j :: 0 <= i < j < |vnats| ==> Apart(vnats[i].dst, vnats[j].dst)
  }

  function Swap(v: Vnat): Vnat {
    Vnat(v.dst, v.src)
  }

  lemma FirstCovering(vnats: seq<Vnat>, ip: string) returns (i: nat)
    requires IsIp(ip) && AllChecked(vnats)
    ensures i <= |vnats| && forall j :: 0 <= j < i ==> !Covers(vnats[j].src, ip)
    ensures if i == |vnats| then FindVnat(vnats, ip) == Ok(None)
            else Covers(vnats[i].src, ip) && FindVnat(vnats, ip) == Ok(Some(vnats[i]))
  {
    hide IsIp, Ip2Long, D.IdentifierAddress, D.CalcMaxAddr, D.CalcCount;
    i := 0;
    if vnats != [] {
      assert Checked(vnats[0]);
      if !Covers(vnats[0].src, ip) {
        i := FirstCovering(vnats[1..], ip);
        i := i + 1;
      }
    }
  }

  /** One VNAT maps its source block one to one onto its destination block. */
  lemma NatIpIsBijection(v: Vnat, ip: string)
    requires Checked(v) && IsCanonicalIp(ip) && IsIp(ip)
    ensures NatIp(v, ip).Ok? <==> Covers(v.src, ip)
    ensures var n := NatIp(v, ip);
      n.Ok? ==> IsCanonicalIp(n.value) && IsIp(n.value) && Covers(v.dst, n.value) && NatIp(Swap(v), n.value) == Ok(ip)
  {
    hide IsIp, IsCanonicalIp, Ip2Long, Int2Ip, Ip2Bytes, Bytes2Ip, D.StaticContains, D.ParseCidr, D.Contains,
        D.Transform, D.Valid, D.Base;
    var m := v.src.maskBits;
    D.StaticAgreesWithInstance(v.src.ip, m, ip);
    D.ParseIsValid(v.src.ip, m);
    D.ParseIsValid(v.dst.ip, m);
    var from, to := D.ParseCidr(v.src.ip, m).value, D.ParseCidr(v.dst.ip, m).value;
    D.TransformIsBijection(ip, from, to);
    TextRoundTrip(ip);
    var n := NatIp(v, ip);
    if n.Ok? {
      CanonicalIsIp(n.value);
      D.StaticAgreesWithInstance(v.dst.ip, m, n.value);
    }
  }

  lemma NatByCovering(vnats: seq<Vnat>, ip: string) returns (i: nat)
    requires IsCanonicalIp(ip) && IsIp(ip) && AllChecked(vnats)
    ensures i <= |vnats| && (Nat(vnats, ip).Some? <==> i < |vnats|)
    ensures i < |vnats| ==>
      && Covers(vnats[i].src, ip)
      && NatIp(vnats[i], ip) == Ok(Nat(vnats, ip).value)
  {
    hide IsIp, IsCanonicalIp, NatIp, FindVnat, Covers;
    i := FirstCovering(vnats, ip);
    if i < |vnats| {
      assert Checked(vnats[i]);
      NatIpIsBijection(vnats[i], ip);
    }
  }

  lemma OneTarget(vnats: seq<Vnat>, i: nat, j: nat, ip: string)
    requires DisjointTargets(vnats) && i < |vnats| && j < |vnats| && IsCanonicalIp(ip) && IsIp(ip)
    ensures i != j ==> !(Covers(vnats[i].dst, ip) && Covers(vnats[j].dst, ip))
  {
    hide IsIp, IsCanonicalIp, Covers;
    if i < j {
      assert Apart(vnats[i].dst, vnats[j].dst);
    } else if j < i {
      assert Apart(vnats[j].dst, vnats[i].dst);
    }
  }

  lemma OneSource(vnats: seq<Vnat>, i: nat, j: nat, ip: string)
    requires DisjointSources(vnats) && i < |vnats| && j < |vnats| && IsCanonicalIp(ip) && IsIp(ip)
    ensures i != j ==> !(Covers(vnats[i].src, ip) && Covers(vnats[j].src, ip))
  {
    hide IsIp, IsCanonicalIp, Covers;
    if i < j {
      assert Apart(vnats[i].src, vnats[j].src);
    } else if j < i {
      assert Apart(vnats[j].src, vnats[i].src);
    }
  }

  lemma DisjointTargetsAreInjective(vnats: seq<Vnat>)
    requires AllChecked(vnats) && DisjointTargets(vnats)
    ensures Injective(vnats)
  {
    hide IsIp, NatIp, Nat, Covers, Checked;
    forall x, y | IsCanonicalIp(x) && IsCanonicalIp(y) && Nat(vnats, x).Some? && Nat(vnats, x) == Nat(vnats, y)
      ensures x == y
    {
      hide IsCanonicalIp;
      var i := NatByCovering(vnats, x);
      var j := NatByCovering(vnats, y);
      assert Checked(vnats[i]) && Checked(vnats[j]);
      NatIpIsBijection(vnats[i], x);
      NatIpIsBijection(vnats[j], y);
      OneTarget(vnats, i, j, Nat(vnats, x).value);
    }
  }

  /** An address covered by one source block is translated by that VNAT. */
  lemma OnlyCovering(vnats: seq<Vnat>, i: nat, ip: string)
    requires AllChecked(vnats) && DisjointSources(vnats) && i < |vnats|
    requires IsCanonicalIp(ip) && IsIp(ip) && Covers(vnats[i].src, ip)
    ensures NatIp(vnats[i], ip).Ok? && Nat(vnats, ip) == Some(NatIp(vnats[i], ip).value)
  {
    hide IsIp, IsCanonicalIp, NatIp, FindVnat, Covers;
    var k := FirstCovering(vnats, ip);
    assert Checked(vnats[i]);
    NatIpIsBijection(vnats[i], ip);
    OneSource(vnats, k, i, ip);
  }

  lemma InjectiveTargetsAreDisjoint(vnats: seq<Vnat>)
    requires AllChecked(vnats) && DisjointSources(vnats) && Injective(vnats)
    ensures DisjointTargets(vnats)
  {
    hide IsIp, NatIp, Nat, Covers, Checked;
    forall i, j | 0 <= i < j < |vnats|
      ensures Apart(vnats[i].dst, vnats[j].dst)
    {
      forall n | IsCanonicalIp(n) && Covers(vnats[i].dst, n)
        ensures !Covers(vnats[j].dst, n)
      {
        if Covers(vnats[j].dst, n) {
          Collide(vnats, i, j, n);
        }
      }
    }
  }

  lemma Collide(vnats: seq<Vnat>, i: nat, j: nat, n: string)
    requires AllChecked(vnats) && DisjointSources(vnats) && i < j < |vnats|
    requires IsCanonicalIp(n) && IsIp(n) && Covers(vnats[i].dst, n) && Covers(vnats[j].dst, n)
    ensures !Injective(vnats)
  {
    hide IsIp, IsCanonicalIp, NatIp, Nat, Covers;
    assert Checked(vnats[i]) && Checked(vnats[j]);
    hide AllChecked;
    NatIpIsBijection(Swap(vnats[i]), n);
    NatIpIsBijection(Swap(vnats[j]), n);
    var a, b := NatIp(Swap(vnats[i]), n).value, NatIp(Swap(vnats[j]), n).value;
    OnlyCovering(vnats, i, a);
    OnlyCovering(vnats, j, b);
    OneSource(vnats, i, j, a);
  }

  /** Exactly the configurations whose destination pools are disjoint restore every reply. */
  lemma FaithfulIffDisjointTargets(vnats: seq<Vnat>)
    requires AllChecked(vnats)
    ensures DisjointTargets(vnats) ==> Faithful(vnats)
    ensures DisjointSources(vnats) ==> (Faithful(vnats) <==> DisjointTargets(vnats))
  {
    hide Faithful, Injective, DisjointSources, DisjointTargets, AllChecked;
    if DisjointTargets(vnats) {
      DisjointTargetsAreInjective(vnats);
      InjectiveIsFaithful(vnats);
    }
    if Faithful(vnats) && DisjointSources(vnats) {
      FaithfulIsInjective(vnats);
      InjectiveTargetsAreDisjoint(vnats);
    }
  }

  /** The destination pools are what addresses are translated to. */
  lemma TargetsArePools(vnats: seq<Vnat>, n: string)
    requires AllChecked(vnats) && IsCanonicalIp(n) && IsIp(n)
    ensures IsTarget(vnats, n) ==> exists i :: 0 <= i < |vnats| && Covers(vnats[i].dst, n)
    ensures DisjointSources(vnats) && (exists i :: 0 <= i < |vnats| && Covers(vnats[i].dst, n)) ==> IsTarget(vnats, n)
  {
    hide IsIp, IsCanonicalIp, NatIp, Nat, Covers, DisjointSources;
    if IsTarget(vnats, n) {
      var x :| IsCanonicalIp(x) && IsIp(x) && Nat(vnats, x) == Some(n);
      var i := NatByCovering(vnats, x);
      assert Checked(vnats[i]);
      NatIpIsBijection(vnats[i], x);
    }
    if i :| 0 <= i < |vnats| && Covers(vnats[i].dst, n) && DisjointSources(vnats) {
      assert Checked(vnats[i]);
      NatIpIsBijection(Swap(vnats[i]), n);
      OnlyCovering(vnats, i, NatIp(Swap(vnats[i]), n).value);
    }
  }

  /** So a host that also sends untranslated to an address of a destination pool may get its replies changed,
      and one that does not never does. */
  lemma UntranslatedIffOutsidePools(vnats: seq<Vnat>, q: seq<byte>, r: seq<byte>)
    requires AllChecked(vnats) && DisjointSources(vnats)
    requires P.HasIdentifier(q) && P.HasIdentifier(r) && P.Identifier(q, true).Some? && Answers(r, q)
    requires IsIp(P.DstIP(q)) && Nat(vnats, P.DstIP(q)).None?
    ensures Undisturbed(vnats, r) <==> forall i :: 0 <= i < |vnats| ==> !Covers(vnats[i].dst, P.DstIP(q))
  {
    AsSent(q);
    UntranslatedIff(vnats, q, r);
    TargetsArePools(vnats, P.DstIP(q));
    hide IsIp, IsCanonicalIp, Nat, Covers, P.DstIP, P.Identifier, Undisturbed, IsTarget, AllChecked,
         DisjointSources, Answers;
  }

  // ----- when a packet makes the router throw -----

  /** Membership of an address in a prefix; a prefix length outside 1 to 32 is an error. */
  function Holds(p: Prefix, ip: string): (r: Result<bool, D.CidrError>)
    requires IsIp(ip)
    ensures r.Err? <==> !(1 <= p.maskBits <= 32)
  {
    D.StaticContains(p.ip, p.maskBits, ip)
  }

  function Sources(vnats: seq<Vnat>): (r: seq<Prefix>)
    ensures |r| == |vnats| && forall i :: 0 <= i < |r| ==> r[i] == vnats[i].src
  {
    seq(|vnats|, i requires 0 <= i < |vnats| => vnats[i].src)
  }

  function Destinations(routes: seq<Route>): (r: seq<Prefix>)
    ensures |r| == |routes| && forall i :: 0 <= i < |r| ==> r[i] == routes[i].destination
  {
    seq(|routes|, i requires 0 <= i < |routes| => routes[i].destination)
  }

  /** Every prefix before the i-th leaves the address out. */
  ghost predicate Reaches(prefixes: seq<Prefix>, ip: string, i: int)
    requires IsIp(ip)
  {
    0 <= i < |prefixes| && forall j :: 0 <= j < i ==> Holds(prefixes[j], ip) == Ok(false)
  }

  /** Up to the first VNAT covering the destination no prefix is malformed, and that VNAT can translate it and
      the packet is long enough for a flow key. */
  ghost predicate VnatSucceeds(vnats: seq<Vnat>, b: seq<byte>)
    requires |b| >= 20 && IsIp(Bytes2Ip(b[16..20]))
  {
    var dstIP := Bytes2Ip(b[16..20]);
    forall i :: Reaches(Sources(vnats), dstIP, i) ==>
      && Holds(vnats[i].src, dstIP).Ok?
      && (Holds(vnats[i].src, dstIP).value ==>
            && NatIp(vnats[i], dstIP).Ok?
            && (b[9] == 1 ==> |b| >= 26) && (b[9] == 6 || b[9] == 17 ==> |b| >= 24))
  }

  /** Up to the first route to the destination no prefix is malformed, and the source's hash picks a nexthop. */
  ghost predicate RouteSucceeds(routes: seq<Route>, srcIP: string, dstIP: string)
    requires IsIp(dstIP)
  {
    forall i :: Reaches(Destinations(routes), dstIP, i) ==>
      && Holds(routes[i].destination, dstIP).Ok?
      && (Holds(routes[i].destination, dstIP).value ==>
            var n := |routes[i].nexthops|;
            n == 0 || HashCode(srcIP) != -0x8000_0000 || 0x8000_0000 % n == 0)
  }

  /** The nexthop at the source's hash, made positive, modulo their number. */
  predicate IsPicked(nexthops: seq<string>, srcIP: string, vip: string) {
    var (h, n) := (HashCode(srcIP), |nexthops|);
    n > 0 && vip == nexthops[(if h < 0 then -h else h) % n]
  }

  /** The nexthop of the first route to the destination; none if there is no such route or it has no nexthops. */
  ghost predicate IsNexthop(routes: seq<Route>, srcIP: string, dstIP: string, vip: Option<string>)
    requires IsIp(dstIP)
  {
    && (vip.None? ==> forall i :: Reaches(Destinations(routes), dstIP, i) ==>
          Holds(routes[i].destination, dstIP) == Ok(false) || routes[i].nexthops == [])
    && (vip.Some? ==> exists i ::
          && Reaches(Destinations(routes), dstIP, i)
          && Holds(routes[i].destination, dstIP) == Ok(true)
          && IsPicked(routes[i].nexthops, srcIP, vip.value))
  }

  lemma OneReached(prefixes: seq<Prefix>, ip: string, i: int, k: int)
    requires IsIp(ip) && Reaches(prefixes, ip, i) && Reaches(prefixes, ip, k)
    requires Holds(prefixes[i], ip) != Ok(false) && Holds(prefixes[k], ip) != Ok(false)
    ensures i == k
  {
    hide IsIp, Holds;
  }

  lemma {:induction false} FirstVnat(vnats: seq<Vnat>, ip: string) returns (i: nat)
    requires IsIp(ip)
    ensures i <= |vnats| && forall j :: 0 <= j < i ==> Holds(vnats[j].src, ip) == Ok(false)
    ensures i == |vnats| ==> FindVnat(vnats, ip) == Ok(None)
    ensures i < |vnats| ==> Holds(vnats[i].src, ip) != Ok(false)
    ensures i < |vnats| && Holds(vnats[i].src, ip).Ok? ==> FindVnat(vnats, ip) == Ok(Some(vnats[i]))
    ensures i < |vnats| && Holds(vnats[i].src, ip).Err? ==> FindVnat(vnats, ip).Err?
  {
    hide IsIp, D.StaticContains;
    i := 0;
    if vnats != [] && Holds(vnats[0].src, ip) == Ok(false) {
      i := FirstVnat(vnats[1..], ip);
      i := i + 1;
    }
  }

  /** Sending throws exactly there. */
  lemma VnatOutOkIff(vnats: seq<Vnat>, cache: Cache, b: seq<byte>)
    requires |b| >= 20 && IsIp(Bytes2Ip(b[16..20]))
    ensures VnatOut(vnats, cache, b).ok <==> VnatSucceeds(vnats, b)
  {
    hide IsIp, IsCanonicalIp, NatIp, Bytes2Ip, Ip2Bytes, Holds, FindVnat, P.Identifier, P.HasIdentifier;
    var dstIP := Bytes2Ip(b[16..20]);
    var i := FirstVnat(vnats, dstIP);
    forall k | Reaches(Sources(vnats), dstIP, k) && Holds(vnats[k].src, dstIP) != Ok(false) ensures i == k {
      OneReached(Sources(vnats), dstIP, i, k);
    }
    if i < |vnats| {
      assert Reaches(Sources(vnats), dstIP, i);
      if NatIp(vnats[i], dstIP).Ok? {
        NatIpIsCanonical(vnats[i], dstIP);
        CanonicalIsIp(NatIp(vnats[i], dstIP).value);
        Lengths(b, P.WithDstIP(b, NatIp(vnats[i], dstIP).value));
      }
    }
  }

  lemma Lengths(b: seq<byte>, t: seq<byte>)
    requires |b| >= 20 && |t| == |b| && t[9] == b[9]
    ensures P.HasIdentifier(t) <==> (b[9] == 1 ==> |b| >= 26) && (b[9] == 6 || b[9] == 17 ==> |b| >= 24)
  {
  }

  /** The route search throws exactly there, and otherwise leads to that nexthop. */
  lemma RouteDecides(routes: seq<Route>, srcIP: string, dstIP: string)
    requires IsIp(dstIP)
    ensures FindRoute(routes, srcIP, dstIP).Ok? <==> RouteSucceeds(routes, srcIP, dstIP)
    ensures FindRoute(routes, srcIP, dstIP).Ok? ==>
      IsNexthop(routes, srcIP, dstIP, FindRoute(routes, srcIP, dstIP).value)
  {
    hide IsIp, Pick, D.StaticContains, HashCode, FindRoute, IsPicked;
    var i := FirstRouteDecides(routes, srcIP, dstIP);
    forall k | Reaches(Destinations(routes), dstIP, k) && Holds(routes[k].destination, dstIP) != Ok(false)
      ensures i == k
    {
      OneReached(Destinations(routes), dstIP, i, k);
    }
    if i < |routes| {
      assert Reaches(Destinations(routes), dstIP, i);
      PickIs(routes[i].nexthops, srcIP);
      if Holds(routes[i].destination, dstIP).Ok? {
        assert Holds(routes[i].destination, dstIP) == Ok(Holds(routes[i].destination, dstIP).value);
        assert FindRoute(routes, srcIP, dstIP) == Pick(routes[i].nexthops, srcIP);
      }
    }
  }

  lemma PickIs(nexthops: seq<string>, srcIP: string)
    ensures var (h, n, r) := (HashCode(srcIP), |nexthops|, Pick(nexthops, srcIP));
      && (r.Ok? <==> n == 0 || h != -0x8000_0000 || 0x8000_0000 % n == 0)
      && (n == 0 ==> r == Ok(None))
      && (n > 0 && r.Ok? ==> r.value.Some? && IsPicked(nexthops, srcIP, r.value.value))
  {
    HashCodeIsInt(srcIP);
    hide HashCode;
  }

  // ----- the router -----

  /** The rules' verdict on a packet's destination. */
  predicate Passes(rules: seq<R.Rule>, b: seq<byte>): (r: bool)
    requires P.IsPacket(b)
    ensures IsIp(Bytes2Ip(b[16..20])) && r == R.Process(rules, Bytes2Ip(b[16..20]))
  {
    DstIsIp(b);
    R.Process(rules, P.DstIP(b))
  }

  class VirtualRouter {
    var vnats: seq<Vnat>
    var vnatMappingCache: Cache
    var routes: seq<Route>
    var vipCidr: Prefix
    var routeInRules: seq<R.Rule>
    var routeOutRules: seq<R.Rule>

    method ProcessVnatOut(packet: P.IpLayerPacket) returns (ok: bool)
      requires P.IsPacket(packet.byteBuf)
      modifies packet, this`vnatMappingCache
      ensures P.IsPacket(packet.byteBuf)
      ensures Outcome(ok, packet.byteBuf, vnatMappingCache) == VnatOut(vnats, old(vnatMappingCache),
          old(packet.byteBuf))
      ensures IsIp(Bytes2Ip(old(packet.byteBuf)[16..20])) && (ok <==> VnatSucceeds(vnats, old(packet.byteBuf)))
      ensures packet.byteBuf != old(packet.byteBuf) ==> packet.update
    {
      hide IsIp, IsCanonicalIp, NatIp, VnatSucceeds, Bytes2Ip, D.StaticContains, P.WithDstIP, P.Identifier,
           P.HasIdentifier;
      var dstIP := P.DstIP(packet.byteBuf);
      DstIsIp(packet.byteBuf);
      CanonicalIsIp(dstIP);
      VnatOutOkIff(vnats, vnatMappingCache, packet.byteBuf);
      var n := 0;
      while n < |vnats| && D.StaticContains(vnats[n].src.ip, vnats[n].src.maskBits, dstIP) == Ok(false)
        invariant 0 <= n <= |vnats|
        invariant FindVnat(vnats, dstIP) == FindVnat(vnats[n..], dstIP)
      {
        assert vnats[n..][1..] == vnats[n + 1..];
        n := n + 1;
      }
      if n == |vnats| {
        return true;
      }
      if D.StaticContains(vnats[n].src.ip, vnats[n].src.maskBits, dstIP).Err? {
        return false;
      }
      var natIp := NatIp(vnats[n], dstIP);
      NatIpIsCanonical(vnats[n], dstIP);
      if natIp.Err? {
        return false;
      }
      CanonicalIsIp(natIp.value);
      Translated(packet.byteBuf, natIp.value);
      packet.SetDstIP(natIp.value);
      if !P.HasIdentifier(packet.byteBuf) {
        return false;
      }
      var identifier := P.Identifier(packet.byteBuf, true);
      if identifier.Some? {
        vnatMappingCache := vnatMappingCache[identifier.value := dstIP];
      }
      ok := true;
    }

    method ProcessVnatIn(packet: P.IpLayerPacket) returns (ok: bool)
      requires P.IsPacket(packet.byteBuf)
      modifies packet
      ensures Outcome(ok, packet.byteBuf, vnatMappingCache) == VnatIn(vnatMappingCache, old(packet.byteBuf))
      ensures var b := old(packet.byteBuf);
        ok <==> (b[9] == 1 ==> |b| >= 26) && (b[9] == 6 || b[9] == 17 ==> |b| >= 24)
      ensures packet.byteBuf != old(packet.byteBuf) ==> packet.update
    {
      hide IsIp, P.WithSrcIP, P.Identifier, P.HasIdentifier;
      Lengths(packet.byteBuf, packet.byteBuf);
      if !P.HasIdentifier(packet.byteBuf) {
        return false;
      }
      var identifier := P.Identifier(packet.byteBuf, false);
      if identifier.Some? && identifier.value in vnatMappingCache {
        packet.SetSrcIP(vnatMappingCache[identifier.value]);
      }
      ok := true;
    }

    /** None stands for null: the rules refused the packet as it arrived. */
    method RouteIn(packet: P.IpLayerPacket) returns (ok: bool, passed: bool)
      requires P.IsPacket(packet.byteBuf)
      modifies packet
      ensures var b := old(packet.byteBuf);
        ok <==> !Passes(routeInRules, b) || ((b[9] == 1 ==> |b| >= 26) && (b[9] == 6 || b[9] == 17 ==> |b| >= 24))
      ensures if !Passes(routeInRules, old(packet.byteBuf)) then ok && !passed && packet.byteBuf == old(packet.byteBuf)
              else passed == ok && Outcome(ok, packet.byteBuf, vnatMappingCache) == VnatIn(vnatMappingCache,
                  old(packet.byteBuf))
    {
      hide VnatIn, Passes;
      if !Passes(routeInRules, packet.byteBuf) {
        return true, false;
      }
      ok := ProcessVnatIn(packet);
      passed := ok;
    }

    /** The VIP to send to: the translated destination when it is a VIP itself, else a nexthop;
        none when the rules refuse the translated destination or no route leads there. */
    method RouteOut(packet: P.IpLayerPacket) returns (ok: bool, vip: Option<string>)
      requires P.IsPacket(packet.byteBuf)
      modifies packet, this`vnatMappingCache
      ensures P.IsPacket(packet.byteBuf) && IsIp(P.DstIP(packet.byteBuf))
      ensures var o := VnatOut(vnats, old(vnatMappingCache), old(packet.byteBuf));
        packet.byteBuf == o.octets && vnatMappingCache == o.cache && (ok ==> o.ok)
      ensures vip.Some? ==> ok && Passes(routeOutRules, packet.byteBuf)
      ensures IsIp(Bytes2Ip(old(packet.byteBuf)[16..20])) && IsIp(Bytes2Ip(packet.byteBuf[16..20]))
      ensures var (srcIP, dstIP) := (Bytes2Ip(packet.byteBuf[12..16]), Bytes2Ip(packet.byteBuf[16..20]));
        ok <==>
          && VnatSucceeds(vnats, old(packet.byteBuf))
          && (Passes(routeOutRules, packet.byteBuf) ==>
                Holds(vipCidr, dstIP).Ok? && (Holds(vipCidr, dstIP).value || RouteSucceeds(routes, srcIP, dstIP)))
      ensures ok && Passes(routeOutRules, packet.byteBuf) ==>
        var (srcIP, dstIP) := (Bytes2Ip(packet.byteBuf[12..16]), Bytes2Ip(packet.byteBuf[16..20]));
        if Holds(vipCidr, dstIP) == Ok(true) then vip == Some(dstIP) else IsNexthop(routes, srcIP, dstIP, vip)
    {
      hide IsIp, IsCanonicalIp, VnatOut, Bytes2Ip, FindRoute, Pick, Passes, D.StaticContains, VnatSucceeds,
           RouteSucceeds, IsNexthop;
      vip := None;
      ok := ProcessVnatOut(packet);
      var srcIP, dstIP := P.SrcIP(packet.byteBuf), P.DstIP(packet.byteBuf);
      DstIsIp(packet.byteBuf);
      CanonicalIsIp(dstIP);
      RouteDecides(routes, srcIP, dstIP);
      if !ok || !Passes(routeOutRules, packet.byteBuf) {
        return;
      }
      var isVip := D.StaticContains(vipCidr.ip, vipCidr.maskBits, dstIP);
      if isVip.Err? {
        return false, None;
      }
      if isVip.value {
        return true, Some(dstIP);
      }
      var route := FindRouteLoop(srcIP, dstIP);
      if route.Err? {
        return false, None;
      }
      vip := route.value;
    }

    method FindRouteLoop(srcIP: string, dstIP: string) returns (r: Result<Option<string>, RouteError>)
      requires IsIp(dstIP)
      ensures r == FindRoute(routes, srcIP, dstIP)
    {
      hide IsIp, Pick;
      var n := 0;
      while n < |routes|
        invariant 0 <= n <= |routes|
        invariant FindRoute(routes, srcIP, dstIP) == FindRoute(routes[n..], srcIP, dstIP)
      {
        assert routes[n..][1..] == routes[n + 1..];
        var contains := D.StaticContains(routes[n].destination.ip, routes[n].destination.maskBits, dstIP);
        if contains.Err? {
          return Err(BadDestination);
        }
        if contains.value {
          return Pick(routes[n].nexthops, srcIP);
        }
        n := n + 1;
      }
      r := Ok(None);
    }
  }
}
