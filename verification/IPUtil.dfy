/** Dotted-decimal address text and its numeric forms (sdwan-common IPUtil). */
module IPUtil {
  import opened Bytes

  // ----- decimal fields -----

  function Digit(d: nat): (c: char)
    requires d < 10
    ensures '0' <= c <= '9'
  {
    '0' + d as char
  }

  function Dec(n: nat): (s: string)
    ensures IsDigits(s)
  {
    if n < 10 then [Digit(n)] else Dec(n / 10) + [Digit(n % 10)]
  }

  predicate AllDigits(s: string) {
    forall i :: 0 <= i < |s| ==> '0' <= s[i] <= '9'
  }

  predicate IsDigits(s: string) {
    s != [] && AllDigits(s)
  }

  function ParseDec(s: string): nat
    requires AllDigits(s)
  {
    if s == [] then 0 else ParseDec(s[..|s| - 1]) * 10 + (s[|s| - 1] - '0') as int
  }

  lemma {:induction false} ParseOfDec(n: nat)
    ensures ParseDec(Dec(n)) == n
  {
    if n >= 10 {
      ParseOfDec(n / 10);
      assert Dec(n)[..|Dec(n)| - 1] == Dec(n / 10);
    }
  }

  /** No superfluous leading zero. */
  predicate Canonical(s: string)
    requires s != []
  {
    |s| == 1 || s[0] != '0'
  }

  lemma {:induction false} DecIsCanonical(n: nat)
    ensures Canonical(Dec(n)) && (n > 0 ==> Dec(n)[0] != '0')
  {
    if n >= 10 {
      DecIsCanonical(n / 10);
    }
  }

  lemma {:induction false} DecOfParse(s: string)
    requires IsDigits(s) && Canonical(s)
    ensures Dec(ParseDec(s)) == s
    ensures s[0] != '0' ==> ParseDec(s) > 0
  {
    var front, last := s[..|s| - 1], s[|s| - 1];
    var n, d := ParseDec(s), (last - '0') as int;
    assert s == front + [last];
    assert Digit(d) == last && n == ParseDec(front) * 10 + d;
    assert |s| == 1 ==> ParseDec(front) == 0;
    hide Dec, Digit, ParseDec;
    if |s| == 1 {
      DecSnoc(0, d);
    } else {
      assert front[0] == s[0];
      DecOfParse(front);
      DecSnoc(ParseDec(front), d);
    }
  }

  lemma DecSnoc(q: nat, d: nat)
    requires d < 10
    ensures Dec(q * 10 + d) == (if q == 0 then [] else Dec(q)) + [Digit(d)]
  {
    DivModUnique(q * 10 + d, 10, q, d);
  }

  // ----- splitting at a separator -----

  function Split(s: string, c: char): (r: seq<string>)
    ensures |r| > 0
  {
    if s == [] then [""]
    else
      var rest := Split(s[1..], c);
      if s[0] == c then [""] + rest else [[s[0]] + rest[0]] + rest[1..]
  }

  function Join(fields: seq<string>, c: char): string
    requires fields != []
  {
    if |fields| == 1 then fields[0] else fields[0] + [c] + Join(fields[1..], c)
  }

  lemma {:induction false} SplitField(f: string, s: string, c: char)
    requires c !in f
    ensures Split(f, c) == [f]
    ensures Split(f + [c] + s, c) == [f] + Split(s, c)
  {
    if f == [] {
      assert f + [c] + s == [c] + s;
      assert ([c] + s)[1..] == s;
    } else {
      SplitField(f[1..], s, c);
      assert (f + [c] + s)[1..] == f[1..] + [c] + s;
      assert [f[0]] + f[1..] == f;
      assert ([f[1..]] + Split(s, c))[1..] == Split(s, c);
    }
  }

  lemma {:induction false} SplitOfJoin(fields: seq<string>, c: char)
    requires fields != [] && forall f :: f in fields ==> c !in f
    ensures Split(Join(fields, c), c) == fields
  {
    if |fields| == 1 {
      SplitField(fields[0], "", c);
    } else {
      SplitOfJoin(fields[1..], c);
      SplitField(fields[0], Join(fields[1..], c), c);
    }
  }

  lemma {:induction false} JoinOfSplit(s: string, c: char)
    ensures Join(Split(s, c), c) == s
  {
    if s != [] {
      JoinOfSplit(s[1..], c);
      var rest := Split(s[1..], c);
      if s[0] == c {
        assert ([""] + rest)[1..] == rest;
      } else {
        assert ([[s[0]] + rest[0]] + rest[1..])[1..] == rest[1..];
      }
    }
  }

  /** Text up to the first separator determines both halves. */
  lemma {:induction false} CutUnique(u: string, x: string, v: string, y: string, c: char)
    requires c !in u && c !in v && u + [c] + x == v + [c] + y
    ensures u == v && x == y
  {
    var l, r := u + [c] + x, v + [c] + y;
    assert l[0] == r[0];
    if u == [] || v == [] {
      assert x == l[1..] && y == r[1..];
    } else {
      assert l[1..] == u[1..] + [c] + x && r[1..] == v[1..] + [c] + y;
      CutUnique(u[1..], x, v[1..], y, c);
      assert u == [l[0]] + u[1..] && v == [r[0]] + v[1..];
    }
  }

  // ----- addresses -----

  type Addr = b: seq<byte> | |b| == 4 witness [0, 0, 0, 0]

  predicate IsField(f: string) {
    IsDigits(f) && ParseDec(f) < 256
  }

  /** Four decimal fields, each an octet. */
  predicate IsIp(ip: string) {
    var f := Split(ip, '.');
    |f| == 4 && IsField(f[0]) && IsField(f[1]) && IsField(f[2]) && IsField(f[3])
  }

  predicate IsCanonicalIp(ip: string) {
    IsIp(ip) && forall f :: f in Split(ip, '.') ==> f != [] && Canonical(f)
  }

  function Ip2Bytes(ip: string): Addr
    requires IsIp(ip)
  {
    var f := Split(ip, '.');
    [ParseDec(f[0]), ParseDec(f[1]), ParseDec(f[2]), ParseDec(f[3])]
  }

  function Bytes2Ip(b: Addr): string {
    Join([Dec(b[0]), Dec(b[1]), Dec(b[2]), Dec(b[3])], '.')
  }

  function Ip2Long(ip: string): int
    requires IsIp(ip)
  {
    Unsigned(Ip2Bytes(ip))
  }

  function Int2Ip(s: int): string {
    Bytes2Ip(BigEndian(s, 4))
  }

  /** Shifts of a Java long keep the sign, the masks keep one octet each. */
  lemma Int2IpOctets(s: int)
    ensures Int2Ip(s) == Join([Dec(s / 0x100_0000 % 256), Dec(s / 0x1_0000 % 256), Dec(s / 0x100 % 256),
        Dec(s % 256)], '.')
  {
    assert s / 256 / 256 == s / 0x1_0000 && s / 0x1_0000 / 256 == s / 0x100_0000;
    assert BigEndian(s, 4) == [s / 0x100_0000 % 256, s / 0x1_0000 % 256, s / 0x100 % 256, s % 256] by {
      assert BigEndian(s / 0x1_0000, 2) == [s / 0x100_0000 % 256, s / 0x1_0000 % 256];
      assert BigEndian(s / 0x100, 3) == BigEndian(s / 0x1_0000, 2) + [s / 0x100 % 256];
    }
  }

  lemma UnsignedOfAddr(b: Addr)
    ensures Unsigned(b) == (b[0] as int) * 0x100_0000 + (b[1] as int) * 0x1_0000 + (b[2] as int) * 0x100 + b[3]
  {
    var b3, b2, b1 := b[..3], b[..2], b[..1];
    assert b3[..2] == b2 && b2[..1] == b1 && b1[..0] == [];
    assert Unsigned(b1) == b[0];
    assert Unsigned(b2) == (b[0] as int) * 0x100 + b[1];
  }

  /** The text names the octets in their order. */
  lemma DottedExample()
    ensures Bytes2Ip([10, 5, 0, 254]) == "10.5.0.254"
  {
    assert Dec(10) == "10" && Dec(5) == "5" && Dec(0) == "0";
    assert Dec(25) == "25" && Dec(254) == "254";
    var f := [Dec(10), Dec(5), Dec(0), Dec(254)];
    assert f[1..] == [Dec(5), Dec(0), Dec(254)] && f[1..][1..] == [Dec(0), Dec(254)];
    assert f[1..][1..][1..] == [Dec(254)];
  }

  method Ip2BytesLoop(ip: string) returns (bytes: seq<byte>)
    requires IsIp(ip)
    ensures bytes == Ip2Bytes(ip)
  {
    var split := Split(ip, '.');
    bytes := [];
    for i := 0 to |split|
      invariant |bytes| == i
      invariant forall k :: 0 <= k < i ==> bytes[k] == ParseDec(split[k])
    {
      bytes := bytes + [ParseDec(split[i])];
    }
  }

  /** The fields occupy disjoint bits, so the source's `|=` is addition. */
  method Ip2LongLoop(ip: string) returns (s: int)
    requires IsIp(ip)
    ensures s == Ip2Long(ip)
  {
    var split := Split(ip, '.');
    UnsignedOfAddr(Ip2Bytes(ip));
    s := 0;
    var weight, i := 0x100_0000, 0;
    while i < |split|
      invariant 0 <= i <= 4
      invariant weight == [0x100_0000, 0x1_0000, 0x100, 1, 0][i]
      invariant s == (if i > 0 then ParseDec(split[0]) * 0x100_0000 else 0)
                   + (if i > 1 then ParseDec(split[1]) * 0x1_0000 else 0)
                   + (if i > 2 then ParseDec(split[2]) * 0x100 else 0)
                   + (if i > 3 then ParseDec(split[3]) else 0)
    {
      s := s + ParseDec(split[i]) * weight;
      weight := weight / 256;
      i := i + 1;
    }
  }

  lemma DottedFields(b: Addr)
    ensures Split(Bytes2Ip(b), '.') == [Dec(b[0]), Dec(b[1]), Dec(b[2]), Dec(b[3])]
  {
    SplitOfJoin([Dec(b[0]), Dec(b[1]), Dec(b[2]), Dec(b[3])], '.');
  }

  /** Writing an address as text and reading it back is the identity on octets. */
  lemma BytesRoundTrip(b: Addr)
    ensures IsCanonicalIp(Bytes2Ip(b)) && Ip2Bytes(Bytes2Ip(b)) == b
  {
    DottedFields(b);
    forall i | 0 <= i < 4 ensures ParseDec(Dec(b[i])) == b[i] && Canonical(Dec(b[i])) {
      ParseOfDec(b[i]);
      DecIsCanonical(b[i]);
    }
  }

  /** Reading text and writing it back is the identity exactly on text without leading zeros. */
  lemma TextRoundTrip(ip: string)
    requires IsIp(ip)
    ensures Bytes2Ip(Ip2Bytes(ip)) == ip <==> IsCanonicalIp(ip)
  {
    var f := Split(ip, '.');
    if IsCanonicalIp(ip) {
      forall i | 0 <= i < 4 ensures Dec(ParseDec(f[i])) == f[i] {
        assert f[i] in f;
        DecOfParse(f[i]);
      }
      assert f == [f[0], f[1], f[2], f[3]];
      JoinOfSplit(ip, '.');
    }
    BytesRoundTrip(Ip2Bytes(ip));
  }

  const ADDRESS_COUNT := 0x1_0000_0000

  /** int2ip and ip2long undo each other on the 32-bit addresses. */
  lemma LongRoundTrip(n: int)
    ensures IsCanonicalIp(Int2Ip(n)) && Ip2Long(Int2Ip(n)) == n % ADDRESS_COUNT
  {
    BytesRoundTrip(BigEndian(n, 4));
    UnsignedOfBigEndian(n, 4);
    assert Pow256(2) == 0x1_0000 && Pow256(4) == ADDRESS_COUNT;
  }

  lemma IpTextOfLong(ip: string)
    requires IsIp(ip)
    ensures 0 <= Ip2Long(ip) < ADDRESS_COUNT
    ensures Int2Ip(Ip2Long(ip)) == Bytes2Ip(Ip2Bytes(ip))
  {
    BigEndianOfUnsigned(Ip2Bytes(ip));
    assert Pow256(2) == 0x1_0000 && Pow256(4) == ADDRESS_COUNT;
  }

  /** On addresses in range the text determines the number and conversely. */
  lemma TextOfAddress(n: int)
    requires 0 <= n < ADDRESS_COUNT
    ensures IsCanonicalIp(Int2Ip(n)) && IsIp(Int2Ip(n)) && Ip2Long(Int2Ip(n)) == n
  {
    hide Int2Ip, Ip2Long, IsIp;
    LongRoundTrip(n);
  }
}
