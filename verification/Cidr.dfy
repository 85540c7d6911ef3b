/**
 Address blocks: parsing, membership, block-to-block translation and the pool of usable addresses.

 Addresses are texts. A block keeps the texts of its network, mask, broadcast and gateway addresses, and its
 address count; the loops over a block go by offset.

 Prefix lengths 0 to 32 are parsed; the static membership test refuses 0.
 */
module Cidr {
  import opened Wrappers
  import opened Bytes
  import opened IPUtil

  datatype CidrError = MaskError | NotContained | MaskBitsDiffer

  datatype Cidr = Cidr(
    networkIdentifier: string,
    maskAddress: string,
    broadcastAddress: string,
    gatewayAddress: string,
    maskBits: int,
    count: int)

  function Pow2(n: nat): (r: nat)
    ensures r > 0
  {
    if n == 0 then 1 else 2 * Pow2(n - 1)
  }

  type MaskBits = m: int | 0 <= m <= 32

  function CalcCount(m: MaskBits): (r: nat)
    ensures r > 0
  {
    Pow2(32 - m)
  }

  function Shr(a: int, k: nat): int
    decreases k
  {
    if k == 0 then a else Shr(a / 2, k - 1)
  }

  function Shl(a: int, k: nat): int {
    if k == 0 then a else 2 * Shl(a, k - 1)
  }

  function IdentifierAddress(address: int, m: MaskBits): int {
    Shl(Shr(address, 32 - m), 32 - m)
  }

  function CalcMaxAddr(address: int, count: int): int {
    address + count - 1
  }

  /** Integer.MAX_VALUE << (32 - m) on a Java int, whose shift distance is taken modulo 32. */
  function MaskInt(m: MaskBits): int {
    Int32(Shl(0x7fff_ffff, (32 - m) % 32))
  }

  function Build(address: int, m: MaskBits): Cidr {
    var a := IdentifierAddress(address, m);
    Cidr(Int2Ip(a), Int2Ip(MaskInt(m)), Int2Ip(CalcMaxAddr(a, CalcCount(m))), Int2Ip(a + 1), m, CalcCount(m))
  }

  function ParseCidr(ip: string, m: int): Result<Cidr, CidrError>
    requires IsIp(ip)
  {
    if 0 <= m <= 32 then Ok(Build(Ip2Long(ip), m)) else Err(MaskError)
  }

  /** The values parseCidr produces; the constructor is private. */
  predicate Valid(c: Cidr) {
    0 <= c.maskBits <= 32 && IsIp(c.networkIdentifier) && c == Build(Ip2Long(c.networkIdentifier), c.maskBits)
  }

  /** First address of the block. */
  function Base(c: Cidr): int
    requires Valid(c)
  {
    IdentifierAddress(Ip2Long(c.networkIdentifier), c.maskBits)
  }

  function Contains(c: Cidr, ip: string): bool
    requires Valid(c) && IsIp(ip)
  {
    Base(c) <= Ip2Long(ip) <= CalcMaxAddr(Base(c), CalcCount(c.maskBits))
  }

  /** The static form checks the text first and refuses a prefix length of 0. */
  function StaticContains(cidrIp: string, m: int, ip: string): Result<bool, CidrError>
    requires IsIp(cidrIp) && IsIp(ip)
  {
    if m < 1 || m > 32 then Err(MaskError)
    else
      var a := IdentifierAddress(Ip2Long(cidrIp), m);
      Ok(a <= Ip2Long(ip) <= CalcMaxAddr(a, CalcCount(m)))
  }

  function GenIpByIdx(c: Cidr, idx: int): string
    requires Valid(c)
  {
    Int2Ip(Base(c) + idx)
  }

  predicate IsAvailableIp(c: Cidr, ip: string) {
    c.networkIdentifier != ip && c.maskAddress != ip && c.broadcastAddress != ip && c.gatewayAddress != ip
  }

  function Transform(ip: string, src: Cidr, target: Cidr): Result<string, CidrError>
    requires Valid(src) && Valid(target) && IsIp(ip)
  {
    if !Contains(src, ip) then Err(NotContained)
    else if src.maskBits != target.maskBits then Err(MaskBitsDiffer)
    else Ok(GenIpByIdx(target, Ip2Long(ip) - Base(src)))
  }

  // ----- the block arithmetic -----

  lemma {:induction false} ShiftBounds(a: int, k: nat)
    ensures Shl(Shr(a, k), k) <= a < Shl(Shr(a, k), k) + Pow2(k)
    decreases k
  {
    if k > 0 {
      ShiftBounds(a / 2, k - 1);
    }
  }

  lemma {:induction false} ShrOfShl(q: int, r: int, k: nat)
    requires 0 <= r < Pow2(k)
    ensures Shr(Shl(q, k) + r, k) == q
  {
    if k > 0 {
      assert (Shl(q, k) + r) / 2 == Shl(q, k - 1) + r / 2;
      ShrOfShl(q, r / 2, k - 1);
    }
  }

  lemma {:induction false} ShiftInside(a: int, k: nat, n: nat)
    requires 0 <= a < Pow2(k + n)
    ensures 0 <= Shl(Shr(a, k), k) && Shl(Shr(a, k), k) + Pow2(k) <= Pow2(k + n)
  {
    if k > 0 {
      ShiftInside(a / 2, k - 1, n);
    }
  }

  lemma Pow2Values()
    ensures Pow2(30) == 0x4000_0000 && Pow2(31) == INT_LIMIT && Pow2(32) == ADDRESS_COUNT
  {
    assert Pow2(6) == 64;
    assert Pow2(12) == 4096;
    assert Pow2(18) == 0x4_0000;
    assert Pow2(24) == 0x100_0000;
  }

  /** A block lies inside the 32-bit space. */
  lemma BlockInSpace(address: int, m: MaskBits)
    requires 0 <= address < ADDRESS_COUNT
    ensures 0 <= IdentifierAddress(address, m) <= address < IdentifierAddress(address, m) + CalcCount(m)
    ensures IdentifierAddress(address, m) + CalcCount(m) <= ADDRESS_COUNT
    ensures IdentifierAddress(IdentifierAddress(address, m), m) == IdentifierAddress(address, m)
  {
    Pow2Values();
    ShiftBounds(address, 32 - m);
    ShiftInside(address, 32 - m, m);
    ShrOfShl(Shr(address, 32 - m), 0, 32 - m);
  }

  lemma BuildIsValid(address: int, m: MaskBits)
    requires 0 <= address < ADDRESS_COUNT
    ensures Valid(Build(address, m)) && Base(Build(address, m)) == IdentifierAddress(address, m)
    ensures IsCanonicalIp(Build(address, m).networkIdentifier)
  {
    hide Int2Ip, Ip2Long, IsIp, IsCanonicalIp, Bytes2Ip, Ip2Bytes;
    BlockInSpace(address, m);
    TextOfAddress(IdentifierAddress(address, m));
  }

  /** Parsing yields a valid block around the address for exactly the prefix lengths 0 to 32. */
  lemma ParseIsValid(ip: string, m: int)
    requires IsIp(ip)
    ensures ParseCidr(ip, m).Ok? <==> 0 <= m <= 32
    ensures var r := ParseCidr(ip, m); r.Ok? ==> Valid(r.value) && Contains(r.value, ip) && r.value.maskBits == m
  {
    hide Int2Ip, Ip2Long, IsIp, IsCanonicalIp, Bytes2Ip, Ip2Bytes;
    if 0 <= m <= 32 {
      IpTextOfLong(ip);
      BuildIsValid(Ip2Long(ip), m);
      BlockInSpace(Ip2Long(ip), m);
    }
  }

  lemma BaseBounds(c: Cidr)
    requires Valid(c)
    ensures 0 <= Base(c) && Base(c) + CalcCount(c.maskBits) <= ADDRESS_COUNT
  {
    IpTextOfLong(c.networkIdentifier);
    BlockInSpace(Ip2Long(c.networkIdentifier), c.maskBits);
  }

  /** Membership as an interval is equality of the m leading bits. */
  lemma ContainsIsPrefixEquality(c: Cidr, ip: string)
    requires Valid(c) && IsIp(ip)
    ensures Contains(c, ip) <==> Shr(Ip2Long(ip), 32 - c.maskBits) == Shr(Ip2Long(c.networkIdentifier), 32 - c.maskBits)
  {
    hide Int2Ip, Ip2Long, IsIp, IsCanonicalIp, Bytes2Ip, Ip2Bytes;
    var k, x := 32 - c.maskBits, Ip2Long(ip);
    ShiftBounds(x, k);
    if Contains(c, ip) {
      ShrOfShl(Shr(Ip2Long(c.networkIdentifier), k), x - Base(c), k);
    }
  }

  /** The static and the instance test agree on every prefix length the static one accepts. */
  lemma StaticAgreesWithInstance(cidrIp: string, m: int, ip: string)
    requires IsIp(cidrIp) && IsIp(ip)
    ensures var parsed := ParseCidr(cidrIp, m);
            if 1 <= m <= 32 then parsed.Ok? && Valid(parsed.value)
              && StaticContains(cidrIp, m, ip) == Ok(Contains(parsed.value, ip))
            else StaticContains(cidrIp, m, ip).Err?
  {
    hide Int2Ip, Ip2Long, IsIp, IsCanonicalIp, Bytes2Ip, Ip2Bytes;
    ParseIsValid(cidrIp, m);
    if 1 <= m <= 32 {
      IpTextOfLong(cidrIp);
      BuildIsValid(Ip2Long(cidrIp), m);
    }
  }

  /** transform succeeds exactly inside the source block with equal prefix lengths; it lands in the
      target block at the same offset, and swapping the blocks undoes it. */
  lemma TransformIsBijection(ip: string, src: Cidr, target: Cidr)
    requires Valid(src) && Valid(target) && IsIp(ip)
    ensures Transform(ip, src, target).Ok? <==> Contains(src, ip) && src.maskBits == target.maskBits
    ensures var r := Transform(ip, src, target);
            r.Ok? ==>
              && IsCanonicalIp(r.value) && Contains(target, r.value)
              && Ip2Long(r.value) - Base(target) == Ip2Long(ip) - Base(src)
              && Transform(r.value, target, src) == Ok(Bytes2Ip(Ip2Bytes(ip)))
  {
    hide Int2Ip, Ip2Long, IsIp, IsCanonicalIp, Bytes2Ip, Ip2Bytes;
    if Transform(ip, src, target).Ok? {
      BaseBounds(target);
      TextOfAddress(Base(target) + Ip2Long(ip) - Base(src));
      IpTextOfLong(ip);
    }
  }

  /** The mask text is the netmask for 1 to 31 leading bits and wrong at 0 and at 32. */
  lemma MaskAddressBoundary(m: MaskBits)
    ensures MaskInt(m) % ADDRESS_COUNT == (ADDRESS_COUNT - CalcCount(m)) % ADDRESS_COUNT <==> 1 <= m <= 31
  {
    if m == 0 || m == 32 {
      MaskAtTheEnds(m);
    } else {
      MaskInside(m);
    }
  }

  lemma MaskInside(m: MaskBits)
    requires 1 <= m <= 31
    ensures MaskInt(m) % ADDRESS_COUNT == (ADDRESS_COUNT - CalcCount(m)) % ADDRESS_COUNT
  {
    hide Int32, Pow2, Shl;
    Pow2Values();
    ShiftedMax(32 - m);
    Int32Residue(Shl(0x7fff_ffff, 32 - m));
    DivModUnique(ADDRESS_COUNT - CalcCount(m), ADDRESS_COUNT, 0, ADDRESS_COUNT - CalcCount(m));
  }

  lemma MaskAtTheEnds(m: MaskBits)
    requires m == 0 || m == 32
    ensures MaskInt(m) % ADDRESS_COUNT != (ADDRESS_COUNT - CalcCount(m)) % ADDRESS_COUNT
  {
    Pow2Values();
    assert CalcCount(m) == if m == 0 then ADDRESS_COUNT else 1;
    assert Shl(0x7fff_ffff, 0) == 0x7fff_ffff && (32 - m) % 32 == 0;
    hide Shl, Pow2;
  }

  lemma {:induction false} ShiftedMax(k: nat)
    requires 1 <= k <= 31
    ensures Shl(0x7fff_ffff, k) % ADDRESS_COUNT == ADDRESS_COUNT - Pow2(k) && Pow2(k) <= Pow2(31)
  {
    Pow2Values();
    Pow2Increases(k, 31);
    if k > 1 {
      ShiftedMax(k - 1);
      var (x, p) := (Shl(0x7fff_ffff, k - 1), Pow2(k - 1));
      assert Shl(0x7fff_ffff, k) == 2 * x && Pow2(k) == 2 * p;
      hide Shl, Pow2;
      DivModUnique(2 * x, ADDRESS_COUNT, 2 * (x / ADDRESS_COUNT) + 1, ADDRESS_COUNT - 2 * p);
    }
  }

  lemma {:induction false} Pow2Increases(a: nat, b: nat)
    requires a <= b
    ensures Pow2(a) <= Pow2(b)
    decreases b
  {
    if a < b {
      Pow2Increases(a, b - 1);
    }
  }

  lemma Int32Residue(x: int)
    ensures Int32(x) % ADDRESS_COUNT == x % ADDRESS_COUNT
  {
  }

  // ----- the texts of a block -----

  lemma {:induction false} ShlIsProduct(q: int, k: nat)
    ensures Shl(q, k) == q * Pow2(k)
  {
    if k > 0 {
      ShlIsProduct(q, k - 1);
    }
  }

  /** Shifting right and left again clears the low bits. */
  lemma IdentifierClears(address: int, m: MaskBits)
    ensures IdentifierAddress(address, m) == address - address % Pow2(32 - m)
  {
    var (q, p) := (Shr(address, 32 - m), Pow2(32 - m));
    ShiftBounds(address, 32 - m);
    ShlIsProduct(q, 32 - m);
    hide Pow2, Shr, Shl;
    DivModUnique(address, p, q, address - q * p);
  }

  /** The texts of a parsed block: its first address, its last one, the one after the first, and a mask that
      is the netmask for 1 to 31 leading bits and 127.255.255.255 otherwise. */
  lemma BlockTexts(ip: string, m: int)
    requires IsIp(ip) && 0 <= m <= 32
    ensures var (c, n) := (ParseCidr(ip, m).value, Pow2(32 - m));
      var first := Ip2Long(ip) - Ip2Long(ip) % n;
      && c.maskBits == m && c.count == n
      && IsIp(c.networkIdentifier) && Ip2Long(c.networkIdentifier) == first
      && IsIp(c.broadcastAddress) && Ip2Long(c.broadcastAddress) == first + n - 1
      && IsIp(c.gatewayAddress) && Ip2Long(c.gatewayAddress) == (first + 1) % ADDRESS_COUNT
      && IsIp(c.maskAddress)
      && Ip2Long(c.maskAddress) == if 1 <= m <= 31 then (ADDRESS_COUNT - n) % ADDRESS_COUNT else 0x7fff_ffff
  {
    hide Int2Ip, Ip2Long, IsIp, Bytes2Ip, Ip2Bytes, IdentifierAddress, Pow2, Shl;
    var a := IdentifierAddress(Ip2Long(ip), m);
    IpTextOfLong(ip);
    IdentifierClears(Ip2Long(ip), m);
    BlockInSpace(Ip2Long(ip), m);
    TextOfAddress(a);
    TextOfAddress(a + CalcCount(m) - 1);
    TextModulo(a + 1);
    TextModulo(MaskInt(m));
    MaskAddressBoundary(m);
    if m == 0 || m == 32 {
      MaskOfNoShift(m);
    }
  }

  lemma TextModulo(n: int)
    ensures IsIp(Int2Ip(n)) && Ip2Long(Int2Ip(n)) == n % ADDRESS_COUNT
  {
    LongRoundTrip(n);
  }

  lemma MaskOfNoShift(m: MaskBits)
    requires m == 0 || m == 32
    ensures MaskInt(m) % ADDRESS_COUNT == 0x7fff_ffff
  {
    assert Shl(0x7fff_ffff, 0) == 0x7fff_ffff && (32 - m) % 32 == 0;
  }

  // ----- the address lists -----

  function IpRange(start: int, n: nat): (r: seq<string>)
    ensures |r| == n && forall i :: 0 <= i < n ==> r[i] == Int2Ip(start + i)
    decreases n
  {
    hide Int2Ip;
    if n == 0 then [] else IpRange(start, n - 1) + [Int2Ip(start + n - 1)]
  }

  function AllIps(c: Cidr): seq<string>
    requires Valid(c)
  {
    IpRange(Base(c), CalcCount(c.maskBits))
  }

  /** The loop counts with a Java int, so it ends only if the count is one. */
  lemma CountFitsInt(m: MaskBits)
    ensures CalcCount(m) < INT_LIMIT <==> 2 <= m
  {
    Pow2Values();
    if m >= 2 {
      Pow2Increases(32 - m, 30);
    }
  }

  method AllIpList(c: Cidr) returns (list: seq<string>)
    requires Valid(c) && c.maskBits >= 2
    ensures list == AllIps(c)
  {
    hide Int2Ip, Ip2Long, IsIp, IsCanonicalIp, Bytes2Ip, Ip2Bytes;
    var s, n := Base(c), 0;
    list := [];
    while n < CalcCount(c.maskBits)
      invariant 0 <= n <= CalcCount(c.maskBits) && s == Base(c) + n
      invariant list == IpRange(Base(c), n)
    {
      list := list + [Int2Ip(s)];
      s := s + 1;
      n := n + 1;
    }
  }

  function RemoveFirst(list: seq<string>, x: string): seq<string> {
    if list == [] then []
    else if list[0] == x then list[1..]
    else [list[0]] + RemoveFirst(list[1..], x)
  }

  method AvailableIpList(c: Cidr) returns (list: seq<string>)
    requires Valid(c) && c.maskBits >= 2
    ensures list == Filter(AllIps(c), ip => IsAvailableIp(c, ip))
    ensures forall ip :: ip in list <==>
      && IsCanonicalIp(ip) && Contains(c, ip)
      && ip !in [c.networkIdentifier, c.maskAddress, c.broadcastAddress, c.gatewayAddress]
  {
    hide IsCanonicalIp, IsIp, Valid, Contains, AllIps;
    list := AllIpList(c);
    AllIpsExact(c);
    forall ip ensures ip in Filter(list, ip => IsAvailableIp(c, ip)) <==> ip in list && IsAvailableIp(c, ip) {
      FilterKeeps(list, ip => IsAvailableIp(c, ip), ip);
    }
    AvailableIsFilter(c, list);
    list := RemoveFirst(list, c.networkIdentifier);
    list := RemoveFirst(list, c.maskAddress);
    list := RemoveFirst(list, c.broadcastAddress);
    list := RemoveFirst(list, c.gatewayAddress);
  }

  function Filter(list: seq<string>, keep: string -> bool): seq<string> {
    if list == [] then []
    else (if keep(list[0]) then [list[0]] else []) + Filter(list[1..], keep)
  }

  ghost predicate NoDup(list: seq<string>) {
    forall i, j :: 0 <= i < j < |list| ==> list[i] != list[j]
  }

  /** The pool has no duplicates, has 2^(32 - m) entries, and its entries are exactly the canonical
      texts of the addresses in the block. */
  lemma AllIpsExact(c: Cidr)
    requires Valid(c)
    ensures NoDup(AllIps(c)) && |AllIps(c)| == Pow2(32 - c.maskBits)
    ensures forall ip :: ip in AllIps(c) <==> IsCanonicalIp(ip) && Contains(c, ip)
  {
    hide IpRange, Int2Ip, Ip2Long, IsIp, Bytes2Ip, Ip2Bytes;
    var all, n := AllIps(c), CalcCount(c.maskBits);
    BaseBounds(c);
    forall i | 0 <= i < n
      ensures IsCanonicalIp(all[i]) && IsIp(all[i]) && Ip2Long(all[i]) == Base(c) + i
    {
      TextOfAddress(Base(c) + i);
    }
    forall ip | IsCanonicalIp(ip) && Contains(c, ip) ensures ip in all {
      IpTextOfLong(ip);
      TextRoundTrip(ip);
      assert all[Ip2Long(ip) - Base(c)] == ip;
    }
  }

  lemma {:induction false} RemoveFirstFilters(list: seq<string>, x: string, keep: string -> bool)
    requires NoDup(list)
    ensures RemoveFirst(list, x) == Filter(list, ip => ip != x)
    ensures Filter(Filter(list, ip => ip != x), keep) == Filter(list, ip => ip != x && keep(ip))
    ensures NoDup(RemoveFirst(list, x)) && forall ip :: ip in RemoveFirst(list, x) ==> ip in list
  {
    if list != [] {
      var rest := list[1..];
      RemoveFirstFilters(rest, x, keep);
      assert forall i :: 0 <= i < |rest| ==> rest[i] != list[0];
      if list[0] == x {
        KeepsAll(rest, x);
      } else {
        var r := Filter(rest, ip => ip != x);
        assert ([list[0]] + r)[1..] == r;
        NoDupCons(list[0], RemoveFirst(rest, x));
      }
    }
  }

  lemma NoDupCons(x: string, list: seq<string>)
    requires NoDup(list) && x !in list
    ensures NoDup([x] + list)
  {
    var l := [x] + list;
    forall i, j | 0 <= i < j < |l| ensures l[i] != l[j] {
      assert l[j] == list[j - 1];
    }
  }

  lemma {:induction false} KeepsAll(list: seq<string>, x: string)
    requires x !in list
    ensures Filter(list, ip => ip != x) == list
  {
    if list != [] {
      KeepsAll(list[1..], x);
    }
  }

  /** Removing the four reserved texts one after the other leaves what isAvailableIp accepts. */
  lemma AvailableIsFilter(c: Cidr, list: seq<string>)
    requires NoDup(list)
    ensures RemoveFirst(RemoveFirst(RemoveFirst(RemoveFirst(list, c.networkIdentifier),
                c.maskAddress), c.broadcastAddress), c.gatewayAddress)
            == Filter(list, ip => IsAvailableIp(c, ip))
  {
    var k4 := ip => ip != c.gatewayAddress;
    var k3 := ip => ip != c.broadcastAddress && k4(ip);
    var k2 := ip => ip != c.maskAddress && k3(ip);
    var k1 := ip => ip != c.networkIdentifier && k2(ip);
    var l1 := RemoveFirst(list, c.networkIdentifier);
    var l2 := RemoveFirst(l1, c.maskAddress);
    var l3 := RemoveFirst(l2, c.broadcastAddress);
    RemoveFirstFilters(list, c.networkIdentifier, k2);
    RemoveFirstFilters(l1, c.maskAddress, k3);
    RemoveFirstFilters(l2, c.broadcastAddress, k4);
    RemoveFirstFilters(l3, c.gatewayAddress, k4);
    FilterCongruence(list, k1, ip => IsAvailableIp(c, ip));
    FilterCongruence(l3, k4, ip => ip != c.gatewayAddress);
  }

  lemma {:induction false} FilterKeeps(list: seq<string>, keep: string -> bool, ip: string)
    ensures ip in Filter(list, keep) <==> ip in list && keep(ip)
  {
    if list != [] {
      FilterKeeps(list[1..], keep, ip);
      assert list == [list[0]] + list[1..];
    }
  }

  lemma {:induction false} FilterCongruence(list: seq<string>, p: string -> bool, q: string -> bool)
    requires forall ip :: p(ip) == q(ip)
    ensures Filter(list, p) == Filter(list, q)
  {
    if list != [] {
      FilterCongruence(list[1..], p, q);
    }
  }
}
