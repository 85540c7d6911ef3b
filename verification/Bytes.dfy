/** Octets, big-endian fields and Java's fixed-width arithmetic, as the Netty buffers use them. */
module Bytes {
  type byte = x: int | 0 <= x < 256

  const INT_LIMIT := 0x8000_0000

  /** The value a Java `int` holds after storing x. */
  function Int32(x: int): (r: int)
    ensures -INT_LIMIT <= r < INT_LIMIT
    ensures -INT_LIMIT <= x < INT_LIMIT ==> r == x
  {
    (x + INT_LIMIT) % 0x1_0000_0000 - INT_LIMIT
  }

  lemma Int32Add(x: int, y: int)
    ensures Int32(Int32(x) + y) == Int32(x + y)
  {
    var m := 0x1_0000_0000;
    assert Int32(x) == x - ((x + INT_LIMIT) / m) * m;
    var (a, b, c) := ((Int32(x) + y + INT_LIMIT) / m, (x + y + INT_LIMIT) / m, (x + INT_LIMIT) / m);
    assert Int32(x + y) - Int32(Int32(x) + y) == m * (a - b + c);
  }

  lemma Int32Sum(x: int, y: int)
    ensures Int32(Int32(x) + Int32(y)) == Int32(x + y)
  {
    hide Int32;
    Int32Add(x, Int32(y));
    Int32Add(y, x);
  }

  /** readUnsignedShort at an absolute index. */
  function U16(b: seq<byte>, i: nat): (r: int)
    requires i + 2 <= |b|
    ensures 0 <= r < 0x1_0000
  {
    (b[i] as int) * 256 + b[i + 1]
  }

  /** writeShort: the low 16 bits, high octet first. */
  function S16(v: int): (r: seq<byte>)
    ensures |r| == 2
  {
    [v / 256 % 256, v % 256]
  }

  lemma S16OfU16(b: seq<byte>, i: nat)
    requires i + 2 <= |b|
    ensures S16(U16(b, i)) == b[i..i + 2]
  {
  }

  lemma U16OfS16(v: int)
    ensures U16(S16(v), 0) == v % 0x1_0000
  {
  }

  /** Overwrites the octets from index i on. */
  function Put(b: seq<byte>, i: nat, v: seq<byte>): (r: seq<byte>)
    requires i + |v| <= |b|
    ensures |r| == |b|
    ensures forall k :: 0 <= k < |b| ==> r[k] == if i <= k < i + |v| then v[k - i] else b[k]
  {
    b[..i] + v + b[i + |v|..]
  }

  /** Writing into a slice is writing into the buffer it shares. */
  lemma PutTail(b: seq<byte>, from: nat, at: nat, v: seq<byte>)
    requires from + at + |v| <= |b|
    ensures Put(b, from + at, v)[from..] == Put(b[from..], at, v)
    ensures Put(b, from + at, v) == b[..from] + Put(b[from..], at, v)
  {
  }

  lemma PutHead(b: seq<byte>, to: nat, at: nat, v: seq<byte>)
    requires at + |v| <= to <= |b|
    ensures Put(b, at, v)[..to] == Put(b[..to], at, v)
    ensures Put(b, at, v) == Put(b[..to], at, v) + b[to..]
  {
  }

  lemma PutOver(s: seq<byte>, at: nat, v: seq<byte>, w: seq<byte>)
    requires at + |v| <= |s| && |v| == |w|
    ensures Put(Put(s, at, v), at, w) == Put(s, at, w)
  {
  }

  function Pow256(n: nat): (r: nat)
    ensures r > 0
  {
    if n == 0 then 1 else 256 * Pow256(n - 1)
  }

  /** The low n octets of v, high octet first: writeInt (n = 4) and writeLong (n = 8). */
  function BigEndian(v: int, n: nat): (r: seq<byte>)
    ensures |r| == n
    decreases n
  {
    if n == 0 then [] else BigEndian(v / 256, n - 1) + [v % 256]
  }

  /** The unsigned value of a big-endian field. */
  function Unsigned(s: seq<byte>): (r: nat)
    ensures r < Pow256(|s|)
  {
    if s == [] then 0 else Unsigned(s[..|s| - 1]) * 256 + s[|s| - 1]
  }

  lemma {:induction false} BigEndianOfUnsigned(s: seq<byte>)
    ensures BigEndian(Unsigned(s), |s|) == s
  {
    if s != [] {
      BigEndianOfUnsigned(s[..|s| - 1]);
      DivModUnique(Unsigned(s), 256, Unsigned(s[..|s| - 1]), s[|s| - 1]);
      assert s == s[..|s| - 1] + [s[|s| - 1]];
    }
  }

  lemma {:induction false} UnsignedOfBigEndian(v: int, n: nat)
    ensures Unsigned(BigEndian(v, n)) == v % Pow256(n)
    decreases n
  {
    if n != 0 {
      var s := BigEndian(v, n);
      UnsignedOfBigEndian(v / 256, n - 1);
      assert s[..n - 1] == BigEndian(v / 256, n - 1);
      ModStep(v, Pow256(n - 1));
    }
  }

  lemma ModStep(v: int, p: nat)
    requires p > 0
    ensures v / 256 % p * 256 + v % 256 == v % (256 * p)
  {
    var q, r := v / 256 / p, v / 256 % p * 256 + v % 256;
    assert v == q * (256 * p) + r by {
      assert v / 256 == q * p + v / 256 % p;
      assert v == 256 * (v / 256) + v % 256;
      assert 256 * (q * p) == q * (256 * p);
    }
    DivModUnique(v, 256 * p, q, r);
  }

  lemma DivModUnique(v: int, m: nat, q: int, r: int)
    requires m > 0 && v == q * m + r && 0 <= r < m
    ensures v / m == q && v % m == r
  {
    var d := v / m - q;
    assert d * m == r - v % m;
    MultipleBounds(d, m);
  }

  lemma MultipleBounds(d: int, m: int)
    requires m > 0
    ensures d >= 1 ==> d * m >= m
    ensures d <= -1 ==> d * m <= -m
  {
  }
}
