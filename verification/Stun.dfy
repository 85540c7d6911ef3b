/**
 The STUN message codec: a type-length-value printer and parser over section 15 of RFC 5389, without
 its padding. Texts are the octets getBytes gives. Err stands for the index exception on short input.
 */
module Stun {
  import opened Wrappers
  import opened Bytes
  import opened IPUtil
  import D = Cidr

  const COOKIE := 0x2112_a442

  datatype ShortInput = ShortInput

  // ----- code tables -----

  datatype AttrType =
    | MappedAddress | SourceAddress | ChangedAddress | XorMappedAddress | ChangeRequest
    | ResponseOrigin | OtherAddress
    | Data | RelayToken | TransferType | Time | SrcVip

  const ATTR_TYPES := [MappedAddress, SourceAddress, ChangedAddress, XorMappedAddress, ChangeRequest,
                       ResponseOrigin, OtherAddress, Data, RelayToken, TransferType, Time, SrcVip]

  function Code(t: AttrType): int {
    match t
    case MappedAddress => 0x0001
    case SourceAddress => 0x0004
    case ChangedAddress => 0x0005
    case XorMappedAddress => 0x0020
    case ChangeRequest => 0x0003
    case ResponseOrigin => 0x802b
    case OtherAddress => 0x802c
    case Data => 0x8003
    case RelayToken => 0x8004
    case TransferType => 0x8005
    case Time => 0x8006
    case SrcVip => 0x8007
  }

  function CompatibleCode(t: AttrType): int {
    if t == OtherAddress then 0x0005 else 0
  }

  function Find(types: seq<AttrType>, code: int): Option<AttrType> {
    if types == [] then None
    else if Code(types[0]) == code then Some(types[0])
    else Find(types[1..], code)
  }

  function ValueOf(code: int): Option<AttrType> {
    Find(ATTR_TYPES, code)
  }

  lemma {:induction false} FindFirst(types: seq<AttrType>, code: int)
    ensures match Find(types, code)
            case Some(t) => t in types && Code(t) == code
            case None => forall i :: 0 <= i < |types| ==> Code(types[i]) != code
  {
    if types != [] {
      FindFirst(types[1..], code);
    }
  }

  /** The code table has no two equal codes, so looking up a code finds exactly its type. */
  lemma ValueOfInvertsCode(t: AttrType, code: int)
    ensures ValueOf(code) == Some(t) <==> Code(t) == code
  {
    FindFirst(ATTR_TYPES, code);
    hide Find;
    EveryTypeListed(t);
    var i :| 0 <= i < |ATTR_TYPES| && ATTR_TYPES[i] == t;
  }

  lemma EveryTypeListed(t: AttrType)
    ensures exists i :: 0 <= i < |ATTR_TYPES| && ATTR_TYPES[i] == t
  {
    var s := ATTR_TYPES;
    assert s[0] == MappedAddress && s[1] == SourceAddress && s[2] == ChangedAddress && s[3] == XorMappedAddress;
    assert s[4] == ChangeRequest && s[5] == ResponseOrigin && s[6] == OtherAddress && s[7] == Data;
    assert s[8] == RelayToken && s[9] == TransferType && s[10] == Time && s[11] == SrcVip;
  }

  datatype MessageType =
    | BindRequest | BindResponse | Transfer | BindRelayRequest | BindRelayResponse
    | RefreshRelayRequest | RefreshRelayResponse | PingRequest | PingResponse

  function MessageCode(t: MessageType): int {
    match t
    case BindRequest => 0x0001
    case BindResponse => 0x0101
    case Transfer => 0x0301
    case BindRelayRequest => 0x0303
    case BindRelayResponse => 0x0304
    case RefreshRelayRequest => 0x0305
    case RefreshRelayResponse => 0x0306
    case PingRequest => 0x0307
    case PingResponse => 0x0308
  }

  /** null for a code outside the table. */
  function MessageTypeOf(code: int): (r: Option<MessageType>)
    ensures forall t :: r == Some(t) <==> MessageCode(t) == code
  {
    if code == 0x0001 then Some(BindRequest)
    else if code == 0x0101 then Some(BindResponse)
    else if code == 0x0301 then Some(Transfer)
    else if code == 0x0303 then Some(BindRelayRequest)
    else if code == 0x0304 then Some(BindRelayResponse)
    else if code == 0x0305 then Some(RefreshRelayRequest)
    else if code == 0x0306 then Some(RefreshRelayResponse)
    else if code == 0x0307 then Some(PingRequest)
    else if code == 0x0308 then Some(PingResponse)
    else None
  }

  // ----- attribute values -----

  datatype ProtoFamily = IPv4 | IPv6

  function FamilyCode(f: ProtoFamily): byte {
    if f == IPv4 then 1 else 2
  }

  function FamilyOf(code: int): Option<ProtoFamily> {
    if code == 1 then Some(IPv4) else if code == 2 then Some(IPv6) else None
  }

  datatype Attr =
    | Address(family: Option<ProtoFamily>, ip: string, port: int)
    | ChangeRequested(changeIP: bool, changePort: bool)
    | Octets(octets: seq<byte>)
    | Long(value: int)

  const LONG_LIMIT := 0x8000_0000_0000_0000

  /** The attribute's class is the one its type decodes to, and its fields are in the wire's range. */
  predicate Fits(t: AttrType, a: Attr) {
    match t
    case MappedAddress | SourceAddress | ChangedAddress | XorMappedAddress | ResponseOrigin | OtherAddress =>
      a.Address? && a.family.Some? && IsCanonicalIp(a.ip) && 0 <= a.port < 0x1_0000
    case ChangeRequest => a.ChangeRequested?
    case Data | RelayToken | TransferType | SrcVip => a.Octets? && |a.octets| < 0x1_0000
    case Time => a.Long? && -LONG_LIMIT <= a.value < LONG_LIMIT
  }

  /** Attr.write; a null family is the null pointer exception. */
  predicate Writable(a: Attr) {
    a.Address? ==> a.family.Some? && IsIp(a.ip)
  }

  function Written(a: Attr): seq<byte>
    requires Writable(a)
  {
    match a
    case Address(family, ip, port) => [0, FamilyCode(family.value)] + S16(port) + Ip2Bytes(ip)
    case ChangeRequested(changeIP, changePort) =>
      [0, 0, 0, (if changeIP then 4 else 0) + (if changePort then 2 else 0)]
    case Octets(octets) => octets
    case Long(value) => BigEndian(value, 8)
  }

  /** Exclusive or of the low n bits. */
  function Xor(a: nat, b: nat, n: nat): nat
    decreases n
  {
    if n == 0 then 0 else 2 * Xor(a / 2, b / 2, n - 1) + (a % 2 + b % 2) % 2
  }

  function XorPort(port: nat): int {
    Xor(port, COOKIE / 0x1_0000, 16)
  }

  function XorIp(address: nat): string {
    Int2Ip(Int32(Xor(address, COOKIE, 32)))
  }

  /** readLong: the top bit is the sign. */
  function SignedLong(n: nat): int {
    (n + LONG_LIMIT) % (2 * LONG_LIMIT) - LONG_LIMIT
  }

  /** The decoder of the type's class, on the attribute's slice. */
  function DecodeValue(t: AttrType, v: seq<byte>): Result<Attr, ShortInput> {
    match t
    case MappedAddress | SourceAddress | ChangedAddress | ResponseOrigin | OtherAddress =>
      if |v| < 8 then Err(ShortInput) else Ok(Address(FamilyOf(v[1]), Bytes2Ip(v[4..8]), U16(v, 2)))
    case XorMappedAddress =>
      if |v| < 8 then Err(ShortInput) else Ok(Address(FamilyOf(v[1]), XorIp(Unsigned(v[4..8])), XorPort(U16(v, 2))))
    case ChangeRequest =>
      if |v| < 4 then Err(ShortInput) else Ok(ChangeRequested(v[3] / 4 % 2 == 1, v[3] / 2 % 2 == 1))
    case Data | RelayToken | TransferType | SrcVip => Ok(Octets(v))
    case Time =>
      if |v| < 8 then Err(ShortInput)
      else Ok(Long(SignedLong(Unsigned(v[..8]))))
  }

  // ----- exclusive or -----

  lemma {:induction false} XorBounds(a: nat, b: nat, n: nat)
    ensures Xor(a, b, n) < D.Pow2(n)
    decreases n
  {
    if n > 0 {
      XorBounds(a / 2, b / 2, n - 1);
    }
  }

  lemma {:induction false} XorTwice(a: nat, b: nat, n: nat)
    requires a < D.Pow2(n)
    ensures Xor(Xor(a, b, n), b, n) == a
    decreases n
  {
    if n > 0 {
      var x, bit := Xor(a / 2, b / 2, n - 1), (a % 2 + b % 2) % 2;
      assert a / 2 < D.Pow2(n - 1);
      hide D.Pow2;
      XorTwice(a / 2, b / 2, n - 1);
      XorStep(a, b, n);
      XorStep(2 * x + bit, b, n);
      Halves(x, bit);
      BitTwice(a % 2, b % 2);
      hide Xor;
    }
  }

  lemma Halves(x: nat, bit: nat)
    requires bit < 2
    ensures (2 * x + bit) / 2 == x && (2 * x + bit) % 2 == bit
  {
  }

  lemma BitTwice(a: nat, b: nat)
    requires a < 2 && b < 2
    ensures ((a + b) % 2 + b) % 2 == a
  {
  }

  lemma XorStep(a: nat, b: nat, n: nat)
    requires n > 0
    ensures Xor(a, b, n) == 2 * Xor(a / 2, b / 2, n - 1) + (a % 2 + b % 2) % 2
  {
  }

  lemma Powers()
    ensures D.Pow2(16) == 0x1_0000 && D.Pow2(32) == ADDRESS_COUNT && Pow256(4) == ADDRESS_COUNT &&
        Pow256(8) == 2 * LONG_LIMIT
  {
    D.Pow2Values();
    assert D.Pow2(6) == 64;
    assert D.Pow2(12) == 4096;
    assert Pow256(2) == 0x1_0000;
    assert Pow256(4) == ADDRESS_COUNT;
    assert Pow256(6) == 0x1_0000_0000_0000;
  }

  lemma SameLowOctets(x: int, y: int)
    requires x % ADDRESS_COUNT == y % ADDRESS_COUNT
    ensures Int2Ip(x) == Int2Ip(y)
  {
    hide BigEndian, Unsigned, Bytes2Ip;
    Powers();
    UnsignedOfBigEndian(x, 4);
    UnsignedOfBigEndian(y, 4);
    BigEndianOfUnsigned(BigEndian(x, 4));
    BigEndianOfUnsigned(BigEndian(y, 4));
  }

  /** XOR-MAPPED-ADDRESS as section 15.2 of RFC 5389 encodes it. */
  function XorEncoded(family: ProtoFamily, ip: string, port: nat): seq<byte>
    requires IsIp(ip) && port < 0x1_0000
  {
    [0, FamilyCode(family)] + S16(Xor(port, COOKIE / 0x1_0000, 16)) + BigEndian(Xor(Ip2Long(ip), COOKIE, 32), 4)
  }

  /** The decoder undoes the standard's encoding. */
  lemma XDecodeInvertsStandard(family: ProtoFamily, ip: string, port: nat)
    requires IsCanonicalIp(ip) && IsIp(ip) && port < 0x1_0000
    ensures DecodeValue(XorMappedAddress, XorEncoded(family, ip, port)) == Ok(Address(Some(family), ip, port))
  {
    hide IsIp, IsCanonicalIp, Ip2Long, Int2Ip, Bytes2Ip, Ip2Bytes, BigEndian, Unsigned, Xor, Int32, S16;
    Powers();
    hide D.Pow2, Pow256;
    IpTextOfLong(ip);
    var (x, p) := (Xor(Ip2Long(ip), COOKIE, 32), Xor(port, COOKIE / 0x1_0000, 16));
    TextRoundTrip(ip);
    XorBounds(Ip2Long(ip), COOKIE, 32);
    XorBounds(port, COOKIE / 0x1_0000, 16);
    XorTwice(Ip2Long(ip), COOKIE, 32);
    XorTwice(port, COOKIE / 0x1_0000, 16);
    UnsignedOfBigEndian(x, 4);
    D.Int32Residue(Ip2Long(ip));
    SameLowOctets(Int32(Ip2Long(ip)), Ip2Long(ip));
    var v := XorEncoded(family, ip, port);
    assert v[4..8] == BigEndian(x, 4);
    assert v[2..4] == S16(p);
    U16At(v, 2, p);
  }

  lemma U16At(v: seq<byte>, i: nat, n: nat)
    requires i + 2 <= |v| && v[i..i + 2] == S16(n) && n < 0x1_0000
    ensures U16(v, i) == n
  {
    assert v[i] == S16(n)[0] && v[i + 1] == S16(n)[1];
  }

  // ----- one attribute there and back -----

  function ReceivedType(t: AttrType): AttrType {
    if t == OtherAddress then ChangedAddress else t
  }

  /** What a written attribute decodes to: the printer never applies the exclusive or the parser undoes. */
  function ReceivedAttr(t: AttrType, a: Attr): Attr
    requires Fits(t, a)
  {
    if t == XorMappedAddress then Address(a.family, XorIp(Ip2Long(a.ip)), XorPort(a.port)) else a
  }

  lemma ValueRoundTrip(t: AttrType, a: Attr)
    requires Fits(t, a)
    ensures Writable(a) && |Written(a)| < 0x1_0000
    ensures DecodeValue(ReceivedType(t), Written(a)) == Ok(ReceivedAttr(t, a))
  {
    if a.Address? {
      AddressRoundTrip(t, a);
    } else if a.Long? {
      LongRoundTrip8(a.value);
    }
  }

  lemma AddressRoundTrip(t: AttrType, a: Attr)
    requires Fits(t, a) && a.Address?
    ensures Writable(a) && |Written(a)| == 8
    ensures DecodeValue(ReceivedType(t), Written(a)) == Ok(ReceivedAttr(t, a))
  {
    hide Bytes2Ip, Ip2Bytes, IsIp, S16, XorIp, XorPort, Unsigned;
    assert IsIp(a.ip);
    hide IsCanonicalIp;
    TextRoundTrip(a.ip);
    var v := Written(a);
    assert v[2..4] == S16(a.port) && v[4..8] == Ip2Bytes(a.ip);
    U16At(v, 2, a.port);
  }

  lemma LongRoundTrip8(value: int)
    requires -LONG_LIMIT <= value < LONG_LIMIT
    ensures DecodeValue(Time, BigEndian(value, 8)) == Ok(Long(value))
  {
    hide BigEndian, Unsigned, SignedLong;
    LongOctets(value);
    assert BigEndian(value, 8)[..8] == BigEndian(value, 8);
    SignBit(value);
  }

  lemma LongOctets(value: int)
    ensures Unsigned(BigEndian(value, 8)) == value % (2 * LONG_LIMIT)
  {
    hide BigEndian, Unsigned, Pow256;
    Powers();
    UnsignedOfBigEndian(value, 8);
  }

  lemma SignBit(value: int)
    requires -LONG_LIMIT <= value < LONG_LIMIT
    ensures SignedLong(value % (2 * LONG_LIMIT)) == value
  {
    var m := 2 * LONG_LIMIT;
    if value < 0 {
      DivModUnique(value, m, -1, value + m);
      DivModUnique(value + m + LONG_LIMIT, m, 1, value + LONG_LIMIT);
    } else {
      DivModUnique(value, m, 0, value);
      DivModUnique(value + LONG_LIMIT, m, 0, value + LONG_LIMIT);
    }
  }

  /** A plain XorMappedAddress never survives: the port alone changes. */
  lemma XorChanges(a: Attr)
    requires Fits(XorMappedAddress, a)
    ensures ReceivedAttr(XorMappedAddress, a) != a
  {
    hide Xor, XorIp, Ip2Long, IsIp, IsCanonicalIp;
    SecondBit(a.port);
  }

  lemma SecondBit(p: nat)
    ensures Xor(p, 0x2112, 16) != p
  {
    hide Xor;
    XorStep(p, 0x2112, 16);
    XorStep(p / 2, 0x2112 / 2, 15);
  }

  // ----- the attribute section -----

  /** One type-length-value entry: an attribute of the table, or a code the table does not have. */
  datatype Item = Known(attrType: AttrType, attr: Attr) | Unknown(code: int, octets: seq<byte>)

  ghost predicate Good(item: Item) {
    match item
    case Known(t, a) => Fits(t, a)
    case Unknown(code, octets) => 0 <= code < 0x1_0000 && ValueOf(code) == None && |octets| < 0x1_0000
  }

  ghost predicate AllGood(items: seq<Item>) {
    forall i :: 0 <= i < |items| ==> Good(items[i])
  }

  function Tlv(code: int, v: seq<byte>): (r: seq<byte>)
    ensures |r| == 4 + |v|
  {
    S16(code) + S16(|v|) + v
  }

  ghost function ItemOctets(item: Item): seq<byte>
    requires Good(item)
  {
    match item
    case Known(t, a) => ValueRoundTrip(t, a); Tlv(Code(t), Written(a))
    case Unknown(code, octets) => Tlv(code, octets)
  }

  ghost function Stream(items: seq<Item>): seq<byte>
    requires AllGood(items)
  {
    if items == [] then [] else ItemOctets(items[0]) + Stream(items[1..])
  }

  type Attrs = map<AttrType, Attr>

  /** The parser's loop on the rest of the slice, with the attributes put so far. */
  function DecodeAttrs(b: seq<byte>, attrs: Attrs): Result<Attrs, ShortInput>
    decreases |b|
  {
    if b == [] then Ok(attrs)
    else if |b| < 4 || |b| < 4 + U16(b, 2) then Err(ShortInput)
    else
      var (v, rest) := (b[4..4 + U16(b, 2)], b[4 + U16(b, 2)..]);
      match ValueOf(U16(b, 0))
      case None => DecodeAttrs(rest, attrs)
      case Some(t) =>
        CompatibleIsListed(t);
        var attrType := if CompatibleCode(t) > 0 then ValueOf(CompatibleCode(t)).value else t;
        match DecodeValue(attrType, v)
        case Err(e) => Err(e)
        case Ok(attr) => DecodeAttrs(rest, attrs[attrType := attr])
  }

  lemma CompatibleIsListed(t: AttrType)
    ensures CompatibleCode(t) > 0 ==> ValueOf(CompatibleCode(t)) == Some(ReceivedType(t))
    ensures CompatibleCode(t) <= 0 ==> ReceivedType(t) == t
  {
    ValueOfInvertsCode(ChangedAddress, 5);
    hide ValueOf;
  }

  /** The map the parser fills from a stream of entries. */
  ghost function Collect(items: seq<Item>, attrs: Attrs): Attrs
    requires AllGood(items)
  {
    if items == [] then attrs
    else match items[0]
      case Known(t, a) => Collect(items[1..], attrs[ReceivedType(t) := ReceivedAttr(t, a)])
      case Unknown(_, _) => Collect(items[1..], attrs)
  }

  lemma HeadOfTlv(code: int, v: seq<byte>, rest: seq<byte>)
    requires 0 <= code < 0x1_0000 && |v| < 0x1_0000
    ensures var b := Tlv(code, v) + rest;
      && |b| == 4 + |v| + |rest| && U16(b, 0) == code && U16(b, 2) == |v| && b[4..4 + |v|] == v && b[4 + |v|..] == rest
  {
    hide S16, U16;
    var b := Tlv(code, v) + rest;
    assert b[0..2] == S16(code) && b[2..4] == S16(|v|);
    U16At(b, 0, code);
    U16At(b, 2, |v|);
  }

  /** The parser reads back any stream of entries, in any order, skipping the unknown ones. */
  lemma {:induction false} DecodeReadsStream(items: seq<Item>, attrs: Attrs)
    requires AllGood(items)
    ensures DecodeAttrs(Stream(items), attrs) == Ok(Collect(items, attrs))
    decreases |items|
  {
    hide S16, U16, ValueOf, DecodeValue, ReceivedAttr, Fits, Written, Tlv;
    if items != [] {
      var (item, rest) := (items[0], items[1..]);
      assert Good(item);
      assert AllGood(rest);
      var b := Stream(items);
      match item
      case Known(t, a) =>
        ValueRoundTrip(t, a);
        ValueOfInvertsCode(t, Code(t));
        CompatibleIsListed(t);
        HeadOfTlv(Code(t), Written(a), Stream(rest));
        DecodeReadsStream(rest, attrs[ReceivedType(t) := ReceivedAttr(t, a)]);
      case Unknown(code, octets) =>
        HeadOfTlv(code, octets, Stream(rest));
        DecodeReadsStream(rest, attrs);
    }
  }

  // ----- what the map holds -----

  predicate Lands(item: Item, t: AttrType) {
    item.Known? && ReceivedType(item.attrType) == t
  }

  /** An entry of the result is the value of some entry that lands there, or was there before. */
  lemma {:induction false} CollectAt(items: seq<Item>, attrs: Attrs, t: AttrType)
    requires AllGood(items)
    ensures t in Collect(items, attrs) <==> t in attrs || exists i :: 0 <= i < |items| && Lands(items[i], t)
    ensures t in Collect(items, attrs) ==>
      || ((forall i :: 0 <= i < |items| ==> !Lands(items[i], t)) && t in attrs && Collect(items, attrs)[t] == attrs[t])
      || (exists i :: 0 <= i < |items| && Lands(items[i], t)
            && Collect(items, attrs)[t] == ReceivedAttr(items[i].attrType, items[i].attr))
    decreases |items|
  {
    hide ReceivedAttr, Fits, ReceivedType;
    if items != [] {
      var (item, rest) := (items[0], items[1..]);
      assert Good(item) && AllGood(rest);
      var next := if item.Known? then attrs[ReceivedType(item.attrType) := ReceivedAttr(item.attrType,
          item.attr)] else attrs;
      CollectAt(rest, next, t);
      assert forall i :: 0 <= i < |rest| ==> rest[i] == items[i + 1];
      assert (exists i :: 0 <= i < |items| && Lands(items[i], t))
        <==> Lands(item, t) || exists i :: 0 <= i < |rest| && Lands(rest[i], t) by {
        if i :| 0 <= i < |rest| && Lands(rest[i], t) {
          assert Lands(items[i + 1], t);
        }
        if i :| 0 <= i < |items| && Lands(items[i], t) {
          assert i > 0 ==> Lands(rest[i - 1], t);
        }
      }
    }
  }

  /** The known entries are exactly the attributes, each once. */
  ghost predicate Carries(items: seq<Item>, attrs: Attrs) {
    && (forall i, j :: 0 <= i < j < |items| && items[i].Known? && items[j].Known? ==>
        items[i].attrType != items[j].attrType)
    && (forall i :: 0 <= i < |items| && items[i].Known? ==>
          items[i].attrType in attrs && attrs[items[i].attrType] == items[i].attr)
    && (forall t :: t in attrs ==> exists i :: 0 <= i < |items| && items[i].Known? && items[i].attrType == t)
  }

  /** Neither the exclusive-or type nor the compatibility type. */
  predicate Plain(attrs: Attrs) {
    XorMappedAddress !in attrs && OtherAddress !in attrs
  }

  lemma CarriedItem(items: seq<Item>, attrs: Attrs, t: AttrType) returns (i: nat)
    requires Carries(items, attrs) && t in attrs
    ensures i < |items| && items[i] == Known(t, attrs[t])
    ensures forall j :: 0 <= j < |items| && items[j].Known? && items[j].attrType == t ==> j == i
  {
    i :| 0 <= i < |items| && items[i].Known? && items[i].attrType == t;
  }

  /** A stream brings the attributes back if and only if they are plain. */
  lemma CollectIsExact(items: seq<Item>, attrs: Attrs)
    requires AllGood(items) && Carries(items, attrs)
    ensures Collect(items, map[]) == attrs <==> Plain(attrs)
  {
    if Plain(attrs) {
      PlainCollect(items, attrs);
    } else if OtherAddress in attrs {
      CollectAt(items, map[], OtherAddress);
    } else {
      hide Collect;
      var i := CarriedItem(items, attrs, XorMappedAddress);
      assert Good(items[i]);
      CollectAt(items, map[], XorMappedAddress);
      assert Lands(items[i], XorMappedAddress);
      XorChanges(attrs[XorMappedAddress]);
    }
  }

  lemma PlainCollect(items: seq<Item>, attrs: Attrs)
    requires AllGood(items) && Carries(items, attrs) && Plain(attrs)
    ensures Collect(items, map[]) == attrs
  {
    hide Collect, Fits;
    forall t ensures t in Collect(items, map[]) <==> t in attrs
      ensures t in attrs ==> Collect(items, map[])[t] == attrs[t]
    {
      CollectAt(items, map[], t);
      if t in attrs {
        var i := CarriedItem(items, attrs, t);
        assert Lands(items[i], t);
      }
    }
  }

  // ----- messages -----

  datatype StunMessage = StunMessage(messageType: Option<MessageType>, tranId: seq<byte>, attrs: Attrs)

  /** A type of the table, a 12-octet id, attributes that fit their types. */
  ghost predicate Sendable(m: StunMessage) {
    && m.messageType.Some? && |m.tranId| == 12
    && forall t :: t in m.attrs ==> Fits(t, m.attrs[t])
  }

  /** An iteration order of the attribute map. */
  ghost predicate OrderOf(order: seq<AttrType>, attrs: Attrs) {
    && (forall i, j :: 0 <= i < j < |order| ==> order[i] != order[j])
    && (forall t :: t in order <==> t in attrs)
  }

  ghost function ItemsIn(order: seq<AttrType>, attrs: Attrs): (items: seq<Item>)
    requires forall t :: t in order ==> t in attrs
    ensures |items| == |order| && forall i :: 0 <= i < |items| ==> items[i] == Known(order[i], attrs[order[i]])
  {
    seq(|order|, i requires 0 <= i < |order| => assert order[i] in order; Known(order[i], attrs[order[i]]))
  }

  function Framed(messageType: MessageType, tranId: seq<byte>, body: seq<byte>): seq<byte> {
    S16(MessageCode(messageType)) + S16(|body|) + BigEndian(COOKIE, 4) + tranId + body
  }

  /** The cookie is skipped unread, and octets after the announced length are ignored. */
  function DecodeMessage(b: seq<byte>): Result<StunMessage, ShortInput> {
    if |b| < 20 || |b| < 20 + U16(b, 2) then Err(ShortInput)
    else match DecodeAttrs(b[20..20 + U16(b, 2)], map[])
      case Err(e) => Err(e)
      case Ok(attrs) => Ok(StunMessage(MessageTypeOf(U16(b, 0)), b[8..20], attrs))
  }

  lemma FrameParts(messageType: MessageType, tranId: seq<byte>, body: seq<byte>)
    requires |tranId| == 12 && |body| < 0x1_0000
    ensures var b := Framed(messageType, tranId, body);
      && |b| == 20 + |body| && U16(b, 0) == MessageCode(messageType) && U16(b, 2) == |body|
      && b[8..20] == tranId && b[20..20 + |body|] == body
  {
    hide S16, U16, BigEndian;
    var b := Framed(messageType, tranId, body);
    assert b[0..2] == S16(MessageCode(messageType)) && b[2..4] == S16(|body|);
    U16At(b, 0, MessageCode(messageType));
    U16At(b, 2, |body|);
  }

  /** The header of section 6 of RFC 5389 with its magic cookie. */
  lemma HeaderOctets(messageType: MessageType, tranId: seq<byte>, body: seq<byte>)
    requires |tranId| == 12
    ensures var b := Framed(messageType, tranId, body);
      && |b| == 20 + |body| && b[4..8] == [0x21, 0x12, 0xa4, 0x42] && b[8..20] == tranId && b[20..] == body
      && U16(b, 0) == MessageCode(messageType) && U16(b, 2) == |body| % 0x1_0000
  {
  }

  /** An attribute of section 15 of RFC 5389: type, length, value. */
  lemma EntryOctets(code: int, v: seq<byte>)
    ensures var b := Tlv(code, v);
      U16(b, 0) == code % 0x1_0000 && U16(b, 2) == |v| % 0x1_0000 && b[4..] == v
  {
  }

  /** The codes of RFC 5389 and RFC 5780, and those of this program's own types. */
  lemma Codes()
    ensures Code(MappedAddress) == 1 && Code(ChangeRequest) == 3 && Code(SourceAddress) == 4
    ensures Code(ChangedAddress) == 5 && Code(XorMappedAddress) == 0x20
    ensures Code(ResponseOrigin) == 0x802b && Code(OtherAddress) == 0x802c
    ensures Code(Data) == 0x8003 && Code(RelayToken) == 0x8004 && Code(TransferType) == 0x8005
    ensures Code(Time) == 0x8006 && Code(SrcVip) == 0x8007
    ensures MessageTypeOf(1) == Some(BindRequest) && MessageTypeOf(0x101) == Some(BindResponse)
    ensures MessageTypeOf(0x301) == Some(Transfer) && MessageTypeOf(0x303) == Some(BindRelayRequest)
    ensures MessageTypeOf(0x304) == Some(BindRelayResponse) && MessageTypeOf(0x305) == Some(RefreshRelayRequest)
    ensures MessageTypeOf(0x306) == Some(RefreshRelayResponse) && MessageTypeOf(0x307) == Some(PingRequest)
    ensures MessageTypeOf(0x308) == Some(PingResponse)
  {
  }

  /** Any stream carrying the attributes, unknown entries interleaved anywhere, decodes to the
      message exactly when its attributes are plain. */
  lemma StreamRoundTrip(m: StunMessage, items: seq<Item>)
    requires Sendable(m) && AllGood(items) && Carries(items, m.attrs) && |Stream(items)| < 0x1_0000
    ensures DecodeMessage(Framed(m.messageType.value, m.tranId, Stream(items))) == Ok(m) <==> Plain(m.attrs)
  {
    hide Stream, Collect, DecodeAttrs, Framed, U16, AllGood, Carries, Fits;
    assert m.messageType.Some? && |m.tranId| == 12;
    FrameParts(m.messageType.value, m.tranId, Stream(items));
    DecodeReadsStream(items, map[]);
    CollectIsExact(items, m.attrs);
  }

  lemma OrderCarries(order: seq<AttrType>, attrs: Attrs)
    requires OrderOf(order, attrs) && forall t :: t in attrs ==> Fits(t, attrs[t])
    ensures AllGood(ItemsIn(order, attrs)) && Carries(ItemsIn(order, attrs), attrs)
  {
    hide Fits;
    var items := ItemsIn(order, attrs);
    forall i | 0 <= i < |items| ensures Good(items[i]) {
      assert order[i] in order;
    }
    forall t | t in attrs ensures exists i :: 0 <= i < |items| && items[i].Known? && items[i].attrType == t {
      assert t in order;
      var i :| 0 <= i < |order| && order[i] == t;
      assert items[i].attrType == t;
    }
    forall i | 0 <= i < |items| ensures items[i].attrType in attrs && attrs[items[i].attrType] == items[i].attr {
      assert order[i] in order;
    }
  }

  ghost predicate AllWritable(order: seq<AttrType>, attrs: Attrs) {
    forall i :: 0 <= i < |order| ==> order[i] in attrs && Writable(attrs[order[i]])
  }

  ghost function Body(order: seq<AttrType>, attrs: Attrs): seq<byte>
    requires AllWritable(order, attrs)
  {
    if order == [] then []
    else
      var n := |order| - 1;
      Body(order[..n], attrs) + Tlv(Code(order[n]), Written(attrs[order[n]]))
  }

  lemma {:induction false} BodyIsStream(order: seq<AttrType>, attrs: Attrs)
    requires AllWritable(order, attrs) && forall i :: 0 <= i < |order| ==> Fits(order[i], attrs[order[i]])
    ensures var items := seq(|order|, i requires 0 <= i < |order| => Known(order[i], attrs[order[i]]));
            AllGood(items) && Stream(items) == Body(order, attrs)
    decreases |order|
  {
    hide Fits, Written, Tlv;
    if order != [] {
      var n := |order| - 1;
      var items := seq(|order|, i requires 0 <= i < |order| => Known(order[i], attrs[order[i]]));
      BodyIsStream(order[..n], attrs);
      assert items[..n] == seq(n, i requires 0 <= i < n => Known(order[..n][i], attrs[order[..n][i]]));
      assert items == items[..n] + [items[n]];
      assert Good(items[n]);
      hide Good;
      StreamSnoc(items[..n], items[n]);
      KnownOctets(order[n], attrs[order[n]]);
    }
  }

  lemma KnownOctets(t: AttrType, a: Attr)
    requires Good(Known(t, a))
    ensures Fits(t, a) && Writable(a) && ItemOctets(Known(t, a)) == Tlv(Code(t), Written(a))
  {
    ValueRoundTrip(t, a);
  }

  lemma {:induction false} StreamSnoc(items: seq<Item>, item: Item)
    requires AllGood(items) && Good(item)
    ensures AllGood(items + [item]) && Stream(items + [item]) == Stream(items) + ItemOctets(item)
    decreases |items|
  {
    hide ItemOctets, Good;
    assert AllGood(items + [item]);
    if items == [] {
      assert items + [item] == [item];
      assert Stream([item]) == ItemOctets(item) + Stream([]);
    } else {
      assert (items + [item])[1..] == items[1..] + [item];
      StreamSnoc(items[1..], item);
    }
  }

  /** The octets the printer produces for an iteration order. */
  ghost function Encoded(m: StunMessage, order: seq<AttrType>): seq<byte>
    requires m.messageType.Some? && AllWritable(order, m.attrs)
  {
    Framed(m.messageType.value, m.tranId, Body(order, m.attrs))
  }

  /** Decoding undoes encoding, whatever the iteration order, exactly for plain attributes. */
  lemma RoundTrip(m: StunMessage, order: seq<AttrType>)
    requires Sendable(m) && OrderOf(order, m.attrs)
    ensures AllWritable(order, m.attrs)
    ensures |Encoded(m, order)| < 20 + 0x1_0000 ==> (DecodeMessage(Encoded(m, order)) == Ok(m) <==> Plain(m.attrs))
  {
    OrderCarries(order, m.attrs);
    forall i | 0 <= i < |order| ensures order[i] in m.attrs && Fits(order[i], m.attrs[order[i]]) &&
        Writable(m.attrs[order[i]]) {
      assert order[i] in order;
      ValueRoundTrip(order[i], m.attrs[order[i]]);
    }
    hide Stream, DecodeMessage, AllGood, Carries, OrderOf, Plain, Body, Fits, Writable;
    BodyIsStream(order, m.attrs);
    var items := ItemsIn(order, m.attrs);
    assert items == seq(|order|, i requires 0 <= i < |order| => Known(order[i], m.attrs[order[i]]));
    if |Encoded(m, order)| < 20 + 0x1_0000 {
      StreamRoundTrip(m, items);
    }
  }

  // ----- the printer and the parser -----

  /** ChangeRequestAttr.write. */
  method WriteChangeRequest(changeIP: bool, changePort: bool) returns (octets: seq<byte>)
    ensures octets == Written(ChangeRequested(changeIP, changePort))
    ensures octets ==
      [0, 0, 0, if changeIP && changePort then 6 else if changeIP then 4 else if changePort then 2 else 0]
  {
    var flag := 0;
    if changeIP {
      flag := flag + 4;
    }
    if changePort {
      flag := flag + 2;
    }
    octets := [0, 0, 0, flag];
  }

  /** AddressAttr.write. */
  method WriteAddress(family: ProtoFamily, ip: string, port: int) returns (octets: seq<byte>)
    requires IsIp(ip)
    ensures octets == Written(Address(Some(family), ip, port))
    ensures |octets| == 8 && octets[0] == 0 && octets[1] == if family == IPv4 then 1 else 2
    ensures U16(octets, 2) == port % 0x1_0000 && octets[4..] == Ip2Bytes(ip)
  {
    octets := [0];
    octets := octets + [FamilyCode(family)];
    octets := octets + S16(port);
    U16OfS16(port);
    var bytes := Ip2BytesLoop(ip);
    octets := octets + bytes;
  }

  method Write(a: Attr) returns (octets: seq<byte>)
    requires Writable(a)
    ensures octets == Written(a)
  {
    match a
    case Address(family, ip, port) => octets := WriteAddress(family.value, ip, port);
    case ChangeRequested(changeIP, changePort) => octets := WriteChangeRequest(changeIP, changePort);
    case Octets(data) => octets := data;
    case Long(value) => octets := BigEndian(value, 8);
  }

  method Encode(m: StunMessage, order: seq<AttrType>) returns (byteBuf: seq<byte>)
    requires m.messageType.Some? && OrderOf(order, m.attrs) && AllWritable(order, m.attrs)
    ensures byteBuf == Encoded(m, order)
    ensures |m.tranId| == 12 ==>
      && |byteBuf| >= 20 && byteBuf[4..8] == [0x21, 0x12, 0xa4, 0x42] && byteBuf[8..20] == m.tranId
      && U16(byteBuf, 0) == MessageCode(m.messageType.value) && U16(byteBuf, 2) == (|byteBuf| - 20) % 0x1_0000
  {
    hide Written, Writable, S16, BigEndian;
    var attrsByteBuf: seq<byte>, n := [], 0;
    while n < |order|
      invariant 0 <= n <= |order|
      invariant attrsByteBuf == Body(order[..n], m.attrs)
    {
      var key := order[n];
      var value := Write(m.attrs[key]);
      assert order[..n + 1][..n] == order[..n];
      attrsByteBuf := attrsByteBuf + (S16(Code(key)) + S16(|value|) + value);
      n := n + 1;
    }
    assert order[..n] == order;
    byteBuf := S16(MessageCode(m.messageType.value)) + S16(|attrsByteBuf|) + BigEndian(COOKIE, 4);
    byteBuf := byteBuf + m.tranId + attrsByteBuf;
    if |m.tranId| == 12 {
      HeaderOctets(m.messageType.value, m.tranId, attrsByteBuf);
    }
  }

  /** A datagram's octets as the channel delivers them. */
  method Decode(b: seq<byte>) returns (r: Result<StunMessage, ShortInput>)
    ensures r == DecodeMessage(b)
  {
    hide DecodeValue, ValueOf, MessageTypeOf, U16;
    if |b| < 20 || |b| < 20 + U16(b, 2) {
      return Err(ShortInput);
    }
    var messageType, tranId := MessageTypeOf(U16(b, 0)), b[8..20];
    var attrs, message: Attrs := b[20..20 + U16(b, 2)], map[];
    while |attrs| > 0
      invariant DecodeAttrs(b[20..20 + U16(b, 2)], map[]) == DecodeAttrs(attrs, message)
    {
      if |attrs| < 4 || |attrs| < 4 + U16(attrs, 2) {
        return Err(ShortInput);
      }
      var t, l := U16(attrs, 0), U16(attrs, 2);
      var v := attrs[4..4 + l];
      var attrType := ValueOf(t);
      if attrType == None {
        attrs := attrs[4 + l..];
        continue;
      }
      CompatibleIsListed(attrType.value);
      if CompatibleCode(attrType.value) > 0 {
        attrType := ValueOf(CompatibleCode(attrType.value));
      }
      var attr := DecodeValue(attrType.value, v);
      if attr.Err? {
        return Err(attr.error);
      }
      message := message[attrType.value := attr.value];
      attrs := attrs[4 + l..];
    }
    r := Ok(StunMessage(messageType, tranId, message));
  }
}
