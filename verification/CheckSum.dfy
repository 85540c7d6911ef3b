/**
 The checksum routines of sdwan-tun CheckSum, and how far they agree with the Internet
 checksum of section 1 of RFC 1071.
 */
module CheckSum {
  import opened Bytes

  /** readByte: the trailing octet of an odd buffer is read as a signed Java byte. */
  function SignedByte(b: byte): int {
    if b >= 128 then b - 256 else b
  }

  /** What the two read loops accumulate when nothing overflows. */
  function JavaSum(s: seq<byte>): int {
    if |s| == 0 then 0
    else if |s| == 1 then SignedByte(s[0]) * 256
    else U16(s, 0) + JavaSum(s[2..])
  }

  /** The sum RFC 1071 asks for: 16-bit words, an odd buffer padded with a zero octet. */
  function WordSum(s: seq<byte>): nat {
    if |s| == 0 then 0
    else if |s| == 1 then (s[0] as int) * 256
    else U16(s, 0) + WordSum(s[2..])
  }

  /** End-around carry until 16 bits suffice. */
  function Fold(n: nat): (r: nat)
    ensures r <= 0xffff && (r == 0 <==> n == 0)
  {
    if n <= 0xffff then n else Fold(n - 0xffff)
  }

  /** The complement calcHighLow stores. A negative sum skips the fold and loses its high half. */
  function HighLow(sum: int): (r: int)
    ensures 0 <= r < 0x1_0000
  {
    0xffff - if sum >= 0 then Fold(sum) else sum % 0x1_0000
  }

  method CalcTcpUdp(buf: seq<byte>) returns (sum: int)
    ensures sum == Int32(JavaSum(buf))
  {
    var i := 0;
    sum := 0;
    while |buf| - i >= 2
      invariant 0 <= i <= |buf|
      invariant sum == Int32(sum) && Int32(sum + JavaSum(buf[i..])) == Int32(JavaSum(buf))
    {
      assert buf[i..][2..] == buf[i + 2..];
      Int32Add(sum + U16(buf, i), JavaSum(buf[i + 2..]));
      sum := Int32(sum + U16(buf, i));
      i := i + 2;
    }
    while |buf| - i > 0
      invariant |buf| - 1 <= i <= |buf|
      invariant sum == Int32(sum) && Int32(sum + JavaSum(buf[i..])) == Int32(JavaSum(buf))
    {
      assert buf[i..][0] == buf[i];
      Int32Add(sum + SignedByte(buf[i]) * 256, 0);
      sum := Int32(sum + SignedByte(buf[i]) * 256);
      i := i + 1;
    }
  }

  method CalcHighLow(sum: int) returns (r: int)
    requires sum == Int32(sum)
    ensures r == HighLow(sum)
  {
    var s := sum;
    while s / 0x1_0000 > 0
      invariant sum >= 0 ==> s >= 0 && Fold(s) == Fold(sum)
      invariant sum < 0 ==> s == sum
      decreases s
    {
      FoldStep(s);
      s := s % 0x1_0000 + s / 0x1_0000;
    }
    r := 0xffff - s % 0x1_0000;
  }

  method CalcIp(buf: seq<byte>) returns (r: int)
    ensures r == HighLow(Int32(JavaSum(buf)))
  {
    var sum := CalcTcpUdp(buf);
    r := CalcHighLow(sum);
  }

  /** Folding preserves the sum modulo 0xffff. */
  lemma {:induction false} FoldRemainder(n: nat) returns (k: nat)
    ensures n == Fold(n) + k * 0xffff
  {
    k := 0;
    if n > 0xffff {
      k := FoldRemainder(n - 0xffff);
      k := k + 1;
    }
  }

  /** Multiples of 0xffff fold away from a positive sum. */
  lemma {:induction false} FoldShift(n: nat, k: nat)
    requires n > 0
    ensures Fold(n + k * 0xffff) == Fold(n)
  {
    if k > 0 {
      FoldShift(n, k - 1);
    }
  }

  /** One turn of the loop: high and low half are added. */
  lemma FoldStep(s: nat)
    requires s >= 0x1_0000
    ensures Fold(s % 0x1_0000 + s / 0x1_0000) == Fold(s)
  {
    FoldShift(s % 0x1_0000 + s / 0x1_0000, s / 0x1_0000);
  }

  // ----- the accumulator never overflows on an IPv4 datagram -----

  lemma {:induction false} JavaSumBounds(s: seq<byte>)
    ensures -0x8000 <= JavaSum(s) <= |s| / 2 * 0xffff + 0x7f00
    ensures |s| % 2 == 0 ==> 0 <= JavaSum(s) <= |s| / 2 * 0xffff
  {
    if |s| >= 2 {
      JavaSumBounds(s[2..]);
    }
  }

  /** Pseudo-header and segment of one datagram of at most 65535 octets (20 of them IP header). */
  lemma AccumulatorFits(pseudo: seq<byte>, segment: seq<byte>)
    requires |pseudo| == 12 && |segment| <= 65535 - 20
    ensures Int32(JavaSum(pseudo)) == JavaSum(pseudo)
    ensures Int32(JavaSum(segment)) == JavaSum(segment)
    ensures Int32(JavaSum(pseudo) + JavaSum(segment)) == JavaSum(pseudo) + JavaSum(segment)
  {
    JavaSumBounds(pseudo);
    JavaSumBounds(segment);
  }

  // ----- agreement with RFC 1071 -----

  /** One's complement addition with end-around carry. */
  function OnesAdd(a: nat, b: nat): nat {
    if a + b >= 0x1_0000 then a + b - 0xffff else a + b
  }

  function OnesSum(s: seq<byte>): nat {
    if |s| == 0 then 0
    else if |s| == 1 then (s[0] as int) * 256
    else OnesAdd(U16(s, 0), OnesSum(s[2..]))
  }

  function Rfc1071(s: seq<byte>): int {
    0xffff - OnesSum(s)
  }

  lemma {:induction false} OnesSumIsFold(s: seq<byte>)
    ensures OnesSum(s) == Fold(WordSum(s))
  {
    if |s| >= 2 {
      OnesSumIsFold(s[2..]);
      FoldAdd(U16(s, 0), WordSum(s[2..]));
    }
  }

  lemma FoldAdd(a: nat, n: nat)
    requires a < 0x1_0000
    ensures OnesAdd(a, Fold(n)) == Fold(a + n)
  {
    var k := FoldRemainder(n);
    if n > 0 {
      FoldShift(a + Fold(n), k);
    }
  }

  /** The worked example in section 3 of RFC 1071. */
  lemma Rfc1071Example()
    ensures var s := [0x00, 0x01, 0xf2, 0x03, 0xf4, 0xf5, 0xf6, 0xf7];
      WordSum(s) == 0x2ddf0 && Fold(WordSum(s)) == 0xddf2 && Rfc1071(s) == 0x220d && HighLow(JavaSum(s)) == 0x220d
  {
  }

  /** The signed read of a trailing octet of 0x80 or more. */
  predicate SignedTail(s: seq<byte>) {
    |s| % 2 == 1 && s[|s| - 1] >= 128
  }

  lemma {:induction false} JavaSumVersusWordSum(s: seq<byte>)
    ensures JavaSum(s) == WordSum(s) - if SignedTail(s) then 0x1_0000 else 0
  {
    if |s| >= 2 {
      JavaSumVersusWordSum(s[2..]);
      assert SignedTail(s[2..]) <==> SignedTail(s);
    }
  }

  lemma {:induction false} WordSumConcat(a: seq<byte>, b: seq<byte>)
    requires |a| % 2 == 0
    ensures WordSum(a + b) == WordSum(a) + WordSum(b)
    ensures JavaSum(a + b) == JavaSum(a) + JavaSum(b)
  {
    if a == [] {
      assert a + b == b;
    } else {
      assert (a + b)[2..] == a[2..] + b;
      WordSumConcat(a[2..], b);
    }
  }

  /** Exactly when the stored checksum is not the one of RFC 1071. */
  predicate Deviates(prefix: seq<byte>, s: seq<byte>) {
    SignedTail(s) && WordSum(prefix) + WordSum(s) >= 0x1_0000
  }

  /** Without the deviation the code stores the complement of the folded word sum; with it,
      the complement of that sum less one carry. */
  lemma HighLowOfSum(prefix: seq<byte>, s: seq<byte>)
    requires |prefix| % 2 == 0
    ensures var total := WordSum(prefix) + WordSum(s);
            HighLow(JavaSum(prefix) + JavaSum(s))
            == 0xffff - if Deviates(prefix, s) then Fold(total - 0x1_0000) else Fold(total)
  {
    JavaSumVersusWordSum(prefix);
    JavaSumVersusWordSum(s);
  }

  lemma FoldLessCarry(total: nat)
    requires total >= 0x1_0000
    ensures Fold(total - 0x1_0000) != Fold(total)
  {
    FoldAdd(1, total - 0x1_0000);
  }

  /** The computed checksum is the RFC 1071 checksum of prefix and segment together if and only if
      the segment does not end in a signed octet with a carry pending. */
  lemma AgreesWithRfc1071(prefix: seq<byte>, s: seq<byte>)
    requires |prefix| % 2 == 0
    ensures HighLow(JavaSum(prefix) + JavaSum(s)) == Rfc1071(prefix + s) <==> !Deviates(prefix, s)
  {
    hide HighLow, JavaSum, WordSum, OnesSum, Fold;
    WordSumConcat(prefix, s);
    OnesSumIsFold(prefix + s);
    HighLowOfSum(prefix, s);
    if Deviates(prefix, s) {
      FoldLessCarry(WordSum(prefix) + WordSum(s));
    }
  }

  // ----- storing the checksum makes the covered words verify -----

  /** What a receiver tests: all words, the checksum among them, fold to 0xffff. */
  predicate Verifies(prefix: seq<byte>, s: seq<byte>) {
    Fold(WordSum(prefix) + WordSum(s)) == 0xffff
  }

  lemma PutWord(s: seq<byte>, at: nat, v: int)
    requires at % 2 == 0 && at + 2 <= |s| && 0 <= v < 0x1_0000
    ensures WordSum(Put(s, at, S16(v))) == WordSum(s[..at]) + v + WordSum(s[at + 2..])
  {
    var w := S16(v);
    WordSumConcat(s[..at], w + s[at + 2..]);
    assert Put(s, at, w) == s[..at] + (w + s[at + 2..]);
    WordSumConcat(w, s[at + 2..]);
    assert w[2..] == [];
  }

  /** What storing does to the word total: the complement either completes it to a multiple of
      0xffff or, after a deviating sum, leaves it one too high. */
  lemma StoredTotal(total: nat, deviates: bool)
    requires deviates ==> total >= 0x1_0000
    ensures var c := 0xffff - if deviates then Fold(total - 0x1_0000) else Fold(total);
            Fold(total + c) == if deviates then 1 else 0xffff
  {
    if deviates {
      var k := FoldRemainder(total - 0x1_0000);
      FoldShift(1, k + 2);
    } else if total > 0 {
      var k := FoldRemainder(total);
      FoldShift(0xffff, k);
    }
  }

  lemma PutWordDelta(s: seq<byte>, at: nat, v: int)
    requires at % 2 == 0 && at + 2 <= |s| && 0 <= v < 0x1_0000
    ensures WordSum(Put(s, at, S16(v))) == WordSum(Put(s, at, S16(0))) + v
  {
    PutWord(s, at, v);
    PutWord(s, at, 0);
  }

  /** Zero the field, sum, store: the result verifies if and only if the sum did not deviate. */
  lemma StoredChecksumVerifies(prefix: seq<byte>, s: seq<byte>, at: nat, zeroed: seq<byte>, c: int)
    requires |prefix| % 2 == 0 && at % 2 == 0 && at + 2 <= |s|
    requires zeroed == Put(s, at, S16(0)) && c == HighLow(JavaSum(prefix) + JavaSum(zeroed))
    ensures Verifies(prefix, Put(s, at, S16(c))) <==> !Deviates(prefix, zeroed)
  {
    hide HighLow, JavaSum, WordSum, Fold, Put, S16;
    HighLowOfSum(prefix, zeroed);
    PutWordDelta(s, at, c);
    StoredTotal(WordSum(prefix) + WordSum(zeroed), Deviates(prefix, zeroed));
  }
}
