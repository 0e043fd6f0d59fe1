/** IPv4 addresses as bytes and as numbers (pkg/cubenetwork/servicenetwork/utils/ip2int.go). */
module Addresses {
  import opened Quotients

  type Byte = x: int | 0 <= x < 256
  type IP = seq<Byte>

  const WORD: nat := 0x1_0000_0000
  type Word = x: int | 0 <= x < 0x1_0000_0000

  function Pow2(k: nat): (p: nat)
    ensures p > 0
  {
    if k == 0 then 1 else 2 * Pow2(k - 1)
  }

  function BigEndian(ip: IP): Word
    requires |ip| == 4
  {
    var a: int, b: int, c: int, d: int := ip[0], ip[1], ip[2], ip[3];
    a * 0x100_0000 + b * 0x1_0000 + c * 0x100 + d
  }

  function Ip2int(ip: IP): Word
    requires |ip| == 4 || |ip| == 16
  {
    if |ip| == 16 then BigEndian(ip[12..]) else BigEndian(ip)
  }

  function Int2ip(n: Word): (ip: IP)
    ensures |ip| == 4
  {
    [n / 0x100_0000, n / 0x1_0000 % 256, n / 0x100 % 256, n % 256]
  }

  predicate IsMapped(ip: IP) {
    |ip| == 16 && (forall i :: 0 <= i < 10 ==> ip[i] == 0) && ip[10] == 255 && ip[11] == 255
  }

  /** The 4-byte form, or nothing for an address that is not IPv4. */
  function To4(ip: IP): IP {
    if |ip| == 4 then ip else if IsMapped(ip) then ip[12..] else []
  }

  /** The form ParseIP gives an IPv4 address. */
  function To16(ip: IP): (m: IP)
    requires |ip| == 4
    ensures |m| == 16
  {
    [0, 0, 0, 0, 0, 0, 0, 0, 0, 0, 255, 255] + ip
  }

  /** To4 finds exactly the addresses that are four bytes, in either form. */
  lemma To4Iff(ip: IP, four: IP)
    requires |four| == 4
    ensures To4(ip) == four <==> ip == four || ip == To16(four)
    ensures |To4(ip)| == 0 || |To4(ip)| == 4
  {
    if IsMapped(ip) {
      assert ip == ip[..12] + ip[12..];
      assert ip[..12] == [0, 0, 0, 0, 0, 0, 0, 0, 0, 0, 255, 255];
    }
    assert To16(four)[12..] == four;
  }

  /** The four digits of n to base 256. */
  lemma Digits(n: Word, a: Byte, b: Byte, c: Byte, d: Byte)
    ensures n == a * 0x100_0000 + b * 0x1_0000 + c * 0x100 + d <==>
            a == n / 0x100_0000 && b == n / 0x1_0000 % 256 && c == n / 0x100 % 256 && d == n % 256
  {
    var x: int := n;
    var u, v, w := x / 256, x / 0x1_0000, x / 0x100_0000;
    assert x == 256 * u + x % 256;
    assert v == u / 256 && w == v / 256;
    assert u == 256 * v + u % 256;
    assert v == 256 * w + v % 256;
  }

  lemma NumberRoundTrip(n: Word)
    ensures Ip2int(Int2ip(n)) == n && Ip2int(To16(Int2ip(n))) == n
  {
    var ip := Int2ip(n);
    Digits(n, ip[0], ip[1], ip[2], ip[3]);
    assert To16(Int2ip(n))[12..] == Int2ip(n);
  }

  lemma AddressRoundTrip(ip: IP)
    requires |ip| == 4
    ensures Int2ip(Ip2int(ip)) == ip && Ip2int(To16(ip)) == Ip2int(ip)
  {
    assert To16(ip)[12..] == ip;
    var n := BigEndian(ip);
    Digits(n, ip[0], ip[1], ip[2], ip[3]);
  }

  /** Addresses in either form have one number exactly when they are one IPv4 address. */
  lemma FormsAgree(a: IP, b: IP)
    requires To4(a) != [] && To4(b) != []
    ensures Ip2int(a) == Ip2int(b) <==> To4(a) == To4(b)
  {
    AddressRoundTrip(To4(a));
    AddressRoundTrip(To4(b));
  }

  // ----- CIDR ranges: masks compared byte by byte -----

  datatype Net = Net(base: IP, prefix: nat)

  ghost predicate IsNet(net: Net) {
    |net.base| == 4 && net.prefix <= 32
  }

  /** How many bits of byte i the mask clears. */
  function Cleared(prefix: nat, i: nat): (z: nat)
    ensures z <= 8
  {
    if 8 * (i + 1) <= prefix then 0 else if prefix <= 8 * i then 8 else 8 * (i + 1) - prefix
  }

  function Masked(x: int, z: nat): int {
    x - x % Pow2(z)
  }

  predicate Contains(net: Net, ip: IP): (yes: bool)
    requires |net.base| == 4
    ensures yes ==> (|ip| == 4 || |ip| == 16) && To4(ip) != []
  {
    var x := To4(ip);
    |x| == 4 && forall i :: 0 <= i < 4 ==> Masked(x[i], Cleared(net.prefix, i)) == Masked(net.base[i], Cleared(net.prefix, i))
  }

  function Size(net: Net): (n: nat)
    requires IsNet(net)
    ensures n > 0
  {
    Pow2(32 - net.prefix)
  }

  function Lowest(net: Net): (n: int)
    requires IsNet(net)
  {
    Masked(BigEndian(net.base), 32 - net.prefix)
  }

  predicate InRange(net: Net, n: int)
    requires IsNet(net)
  {
    Lowest(net) <= n < Lowest(net) + Size(net)
  }

  function Value(bs: seq<Byte>): nat {
    if bs == [] then 0 else Value(bs[..|bs| - 1]) * 256 + bs[|bs| - 1]
  }

  predicate BytesAgree(a: seq<Byte>, b: seq<Byte>, prefix: nat)
    requires |a| == |b|
  {
    forall i :: 0 <= i < |a| ==> Masked(a[i], Cleared(prefix, i)) == Masked(b[i], Cleared(prefix, i))
  }

  lemma Powers()
    ensures Pow2(0) == 1 && Pow2(1) == 2 && Pow2(2) == 4 && Pow2(3) == 8
    ensures Pow2(4) == 16 && Pow2(5) == 32 && Pow2(6) == 64 && Pow2(7) == 128 && Pow2(8) == 256
  {
    assert Pow2(4) == 16;
    assert Pow2(7) == 128;
  }

  lemma {:induction false} Pow2Plus8(k: nat)
    ensures Pow2(k + 8) == 256 * Pow2(k)
  {
    assert Pow2(k + 8) == 2 * Pow2(k + 7) == 4 * Pow2(k + 6) == 8 * Pow2(k + 5) == 16 * Pow2(k + 4);
    assert Pow2(k + 4) == 2 * Pow2(k + 3) == 4 * Pow2(k + 2) == 8 * Pow2(k + 1);
  }

  lemma {:induction false} Pow2AtMost(k: nat, m: nat)
    requires k <= m
    ensures Pow2(k) <= Pow2(m)
  {
    if k < m { Pow2AtMost(k, m - 1); }
  }

  lemma MaskedIffQuotient(x: int, y: int, z: nat)
    ensures Masked(x, z) == Masked(y, z) <==> x / Pow2(z) == y / Pow2(z)
  {
    Quotient(x, Pow2(z));
    Quotient(y, Pow2(z));
    Steps(Pow2(z), x / Pow2(z), y / Pow2(z));
  }

  lemma Quotient(x: int, d: nat)
    requires d > 0
    ensures x - x % d == d * (x / d)
  {
  }

  /** Dividing by 256 * p drops the last byte first. */
  lemma DropByte(hi: nat, b: Byte, p: nat)
    requires p > 0
    ensures (hi * 256 + b) / (256 * p) == hi / p
  {
    var q, r := hi / p, hi % p;
    var d := 256 * p;
    var rest := r * 256 + b;
    assert hi == p * q + r;
    assert hi * 256 + b == d * q + rest;
    assert 0 <= rest < d by { assert r * 256 <= (p - 1) * 256; }
    QuotientIs(hi * 256 + b, d, q, rest);
  }

  lemma SplitQuotient(hi: nat, b: Byte, p: nat, m: nat)
    requires p > 0 && p * m == 256
    ensures (hi * 256 + b) / p == m * hi + b / p && 0 <= b / p < m
  {
    var q, r := b / p, b % p;
    var h := m * hi;
    assert b == p * q + r;
    Steps(p, q, m);
    assert p * h == hi * 256 by { assert p * (m * hi) == (p * m) * hi; }
    assert p * (h + q) == p * h + p * q;
    QuotientIs(hi * 256 + b, p, h + q, r);
  }

  lemma SplitByte(hi: nat, b: Byte, hj: nat, c: Byte, z: nat)
    requires z <= 8
    ensures (hi * 256 + b) / Pow2(z) == (hj * 256 + c) / Pow2(z) <==> hi == hj && b / Pow2(z) == c / Pow2(z)
  {
    var p, m := Pow2(z), Pow2(8 - z);
    assert p * m == 256 by { PowersMultiply(z, 8 - z); Powers(); }
    SplitQuotient(hi, b, p, m);
    SplitQuotient(hj, c, p, m);
    Steps(m, hi, hj);
  }

  lemma LastByteAgrees(a: seq<Byte>, b: seq<Byte>, prefix: nat)
    requires |a| == |b| > 0
    ensures
      var n := |a| - 1;
      BytesAgree(a, b, prefix) <==>
      BytesAgree(a[..n], b[..n], if prefix <= 8 * n then prefix else 8 * n)
      && Masked(a[n], Cleared(prefix, n)) == Masked(b[n], Cleared(prefix, n))
  {
    hide Masked;
    var n := |a| - 1;
    var shorter := if prefix <= 8 * n then prefix else 8 * n;
    assert forall i :: 0 <= i < n ==> Cleared(prefix, i) == Cleared(shorter, i);
    assert forall i :: 0 <= i < n ==> a[..n][i] == a[i] && b[..n][i] == b[i];
  }

  lemma LastByteOfQuotient(hi: nat, x: Byte, hj: nat, y: Byte, n: nat, prefix: nat)
    requires prefix <= 8 * (n + 1)
    ensures
      var rest := if prefix <= 8 * n then 8 * n - prefix else 0;
      var d, z := Pow2(8 * (n + 1) - prefix), Cleared(prefix, n);
      (hi * 256 + x) / d == (hj * 256 + y) / d <==>
      hi / Pow2(rest) == hj / Pow2(rest) && Masked(x, z) == Masked(y, z)
  {
    var z := Cleared(prefix, n);
    MaskedIffQuotient(x, y, z);
    hide Masked;
    Powers();
    if prefix <= 8 * n {
      var p := Pow2(8 * n - prefix);
      assert Pow2(8 * (n + 1) - prefix) == 256 * p by { Pow2Plus8(8 * n - prefix); }
      DropByte(hi, x, p);
      DropByte(hj, y, p);
      assert x / Pow2(z) == 0 == y / Pow2(z);
    } else {
      SplitByte(hi, x, hj, y, z);
    }
  }

  /** Byte-wise masked equality is equality of the leading bits. */
  lemma {:induction false} AgreeIsPrefix(a: seq<Byte>, b: seq<Byte>, prefix: nat)
    requires |a| == |b| && prefix <= 8 * |a|
    ensures BytesAgree(a, b, prefix) <==> Value(a) / Pow2(8 * |a| - prefix) == Value(b) / Pow2(8 * |b| - prefix)
  {
    if a == [] { return; }
    var n := |a| - 1;
    var a', b', x, y := a[..n], b[..n], a[n], b[n];
    var shorter := if prefix <= 8 * n then prefix else 8 * n;
    assert Value(a) == Value(a') * 256 + x && Value(b) == Value(b') * 256 + y;
    hide Value, BytesAgree, Masked, Pow2;
    AgreeIsPrefix(a', b', shorter);
    LastByteAgrees(a, b, prefix);
    LastByteOfQuotient(Value(a'), x, Value(b'), y, n, prefix);
  }

  lemma ValueOfFour(ip: IP)
    requires |ip| == 4
    ensures Value(ip) == BigEndian(ip)
  {
    var a, b, c := ip[..3], ip[..2], ip[..1];
    assert a[..2] == b && b[..1] == c && c[..0] == [];
    assert Value(c) == ip[0];
    assert Value(b) == Value(c) * 256 + ip[1];
    assert Value(a) == Value(b) * 256 + ip[2];
  }

  lemma SameQuotientIsRange(n: int, base: int, size: nat)
    requires size > 0
    ensures n / size == base / size <==> base - base % size <= n < base - base % size + size
  {
    var q := base / size;
    assert base - base % size == size * q;
    if size * q <= n < size * q + size {
      QuotientIs(n, size, q, n - size * q);
    }
  }

  /** The masked comparison accepts exactly one block of 2^(32 - prefix) consecutive addresses. */
  lemma ContainsIsRange(net: Net, ip: IP)
    requires IsNet(net)
    ensures Contains(net, ip) <==> To4(ip) != [] && InRange(net, Ip2int(To4(ip)))
  {
    var x := To4(ip);
    if x != [] {
      AgreeIsPrefix(x, net.base, net.prefix);
      ValueOfFour(x);
      ValueOfFour(net.base);
      SameQuotientIsRange(BigEndian(x), BigEndian(net.base), Size(net));
    }
  }

  lemma ContainsNumber(net: Net, n: Word)
    requires IsNet(net)
    ensures Contains(net, Int2ip(n)) <==> InRange(net, n)
  {
    ContainsIsRange(net, Int2ip(n));
    NumberRoundTrip(n);
  }

  /** No block reaches past the last 32-bit address. */
  lemma RangeFits(net: Net)
    requires IsNet(net)
    ensures 0 <= Lowest(net) && Lowest(net) + Size(net) <= WORD
  {
    var k := Pow2(net.prefix);
    assert Size(net) * k == WORD by {
      PowersMultiply(32 - net.prefix, net.prefix);
      WordIsPow2();
    }
    BlockFits(BigEndian(net.base), Size(net), k);
  }

  lemma BlockFits(v: Word, s: nat, k: nat)
    requires s > 0 && s * k == WORD
    ensures 0 <= v - v % s <= WORD - s
  {
    var q := v / s;
    assert v == s * q + v % s;
    assert 0 <= q;
    Steps(s, k, q);
    Steps(s, q, k);
    assert q < k;
  }

  lemma {:induction false} PowersMultiply(a: nat, b: nat)
    ensures Pow2(a) * Pow2(b) == Pow2(a + b)
  {
    if a > 0 {
      PowersMultiply(a - 1, b);
      assert Pow2(a) * Pow2(b) == 2 * (Pow2(a - 1) * Pow2(b));
    }
  }

  lemma WordIsPow2()
    ensures Pow2(32) == WORD
  {
    Powers();
    Pow2Plus8(8);
    Pow2Plus8(16);
    Pow2Plus8(24);
  }
}
