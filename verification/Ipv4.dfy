/** IPv4 addresses: dotted-quad text and prefix masks (section 3.1 of RFC 4632). */
module Ipv4 {
  import opened Prelude

  datatype IP = IP(a: uint8, b: uint8, c: uint8, d: uint8)

  // ---------------------------------------------------------------------------
  // Text
  // ---------------------------------------------------------------------------

  function Digit(n: nat): char
    requires n < 10
  {
    ('0' as int + n) as char
  }

  predicate IsDigit(c: char) { '0' <= c <= '9' }

  function Value(c: char): nat
    requires IsDigit(c)
  {
    c as int - '0' as int
  }

  function Decimal(n: uint8): string {
    var n := n as nat;
    if n < 10 then [Digit(n)]
    else if n < 100 then [Digit(n / 10), Digit(n % 10)]
    else [Digit(n / 100), Digit(n / 10 % 10), Digit(n % 10)]
  }

  /** One field: one to three digits, no leading zero, at most 255. */
  function ParseOctet(s: string): Option<uint8> {
    if !(1 <= |s| <= 3) || (exists i :: 0 <= i < |s| && !IsDigit(s[i])) then None
    else if |s| > 1 && s[0] == '0' then None
    else
      var n := if |s| == 1 then Value(s[0])
               else if |s| == 2 then 10 * Value(s[0]) + Value(s[1])
               else 100 * Value(s[0]) + 10 * Value(s[1]) + Value(s[2]);
      if n < 0x100 then Some(n as uint8) else None
  }

  lemma ParsedPrints(s: string)
    requires ParseOctet(s).Some?
    ensures Decimal(ParseOctet(s).value) == s
  {
    var n := ParseOctet(s).value as nat;
    if |s| == 2 {
      assert Value(s[0]) > 0;
      assert n / 10 == Value(s[0]) && n % 10 == Value(s[1]);
    } else if |s| == 3 {
      assert Value(s[0]) > 0;
      assert n / 10 == 10 * Value(s[0]) + Value(s[1]);
      assert n / 100 == Value(s[0]);
    }
  }

  /** The digits of a printed number carry its value. */
  lemma PrintedValue(n: uint8)
    ensures var s, v := Decimal(n), n as nat;
            && (forall i :: 0 <= i < |s| ==> IsDigit(s[i]))
            && (v < 10 ==> |s| == 1 && Value(s[0]) == v)
            && (10 <= v < 100 ==> |s| == 2 && Value(s[0]) == v / 10 > 0 && Value(s[1]) == v % 10)
            && (100 <= v ==> |s| == 3 && Value(s[0]) == v / 100 > 0 && Value(s[1]) == v / 10 % 10 && Value(s[2]) == v % 10)
  {
  }

  lemma PrintedParses(n: uint8)
    ensures ParseOctet(Decimal(n)) == Some(n)
  {
    PrintedValue(n);
    DigitsOf(n as nat);
  }

  lemma DigitsOf(v: nat)
    ensures v == 10 * (v / 10) + v % 10 && v == 100 * (v / 100) + 10 * (v / 10 % 10) + v % 10
  {
    assert v / 10 == 10 * (v / 100) + v / 10 % 10;
  }

  lemma OctetTextIff(s: string, n: uint8)
    ensures ParseOctet(s) == Some(n) <==> s == Decimal(n)
  {
    PrintedParses(n);
    if ParseOctet(s) == Some(n) {
      ParsedPrints(s);
    }
  }

  /** The IPv4 branch of `net.ParseIP`. */
  function ParseIP(s: string): Option<IP> {
    var f := Split(s, '.');
    if |f| != 4 then None
    else
      var a, b, c, d := ParseOctet(f[0]), ParseOctet(f[1]), ParseOctet(f[2]), ParseOctet(f[3]);
      if a.Some? && b.Some? && c.Some? && d.Some? then Some(IP(a.value, b.value, c.value, d.value)) else None
  }

  /** `net.IP.String`. */
  function Dotted(ip: IP): string {
    Join([Decimal(ip.a), Decimal(ip.b), Decimal(ip.c), Decimal(ip.d)], '.')
  }

  lemma SplitOfDotted(ip: IP)
    ensures Split(Dotted(ip), '.') == [Decimal(ip.a), Decimal(ip.b), Decimal(ip.c), Decimal(ip.d)]
  {
    SplitOfJoin([Decimal(ip.a), Decimal(ip.b), Decimal(ip.c), Decimal(ip.d)], '.');
  }

  /** Text and address determine each other: only the printed form parses to an address. */
  lemma DottedIff(s: string, ip: IP)
    ensures ParseIP(s) == Some(ip) <==> s == Dotted(ip)
  {
    SplitOfDotted(ip);
    OctetTextIff(Decimal(ip.a), ip.a);
    OctetTextIff(Decimal(ip.b), ip.b);
    OctetTextIff(Decimal(ip.c), ip.c);
    OctetTextIff(Decimal(ip.d), ip.d);
    if ParseIP(s) == Some(ip) {
      var f := Split(s, '.');
      OctetTextIff(f[0], ip.a);
      OctetTextIff(f[1], ip.b);
      OctetTextIff(f[2], ip.c);
      OctetTextIff(f[3], ip.d);
      JoinOfSplit(s, '.');
      assert f == [Decimal(ip.a), Decimal(ip.b), Decimal(ip.c), Decimal(ip.d)];
    }
  }

  lemma DottedInjective(x: IP, y: IP)
    requires Dotted(x) == Dotted(y)
    ensures x == y
  {
    DottedIff(Dotted(x), x);
    DottedIff(Dotted(x), y);
  }

  // ---------------------------------------------------------------------------
  // Masks
  // ---------------------------------------------------------------------------

  /** `x` AND an octet of `ones` leading one bits: the low `8 - ones` bits are cleared. */
  function MaskOctet(x: uint8, ones: nat): uint8
    requires ones <= 8
  {
    var size := [0x100, 0x80, 0x40, 0x20, 0x10, 8, 4, 2, 1][ones];
    (x as int - x as int % size) as uint8
  }

  /** How many of the prefix's one bits fall into octet `i`. */
  function Ones(prefix: nat, i: nat): (n: nat)
    ensures n <= 8
  {
    if prefix <= 8 * i then 0 else if prefix >= 8 * i + 8 then 8 else prefix - 8 * i
  }

  function Mask(ip: IP, prefix: nat): IP {
    IP(MaskOctet(ip.a, Ones(prefix, 0)), MaskOctet(ip.b, Ones(prefix, 1)),
       MaskOctet(ip.c, Ones(prefix, 2)), MaskOctet(ip.d, Ones(prefix, 3)))
  }

  datatype Subnet = Subnet(base: IP, prefix: nat)

  /** `net.IPNet.Contains`. */
  predicate Contains(net: Subnet, ip: IP) {
    Mask(ip, net.prefix) == net.base
  }

  lemma MaskOctetIdempotent(x: uint8, ones: nat)
    requires ones <= 8
    ensures MaskOctet(MaskOctet(x, ones), ones) == MaskOctet(x, ones)
  {
  }

  lemma MaskIdempotent(ip: IP, prefix: nat)
    ensures Mask(Mask(ip, prefix), prefix) == Mask(ip, prefix)
  {
    MaskOctetIdempotent(ip.a, Ones(prefix, 0));
    MaskOctetIdempotent(ip.b, Ones(prefix, 1));
    MaskOctetIdempotent(ip.c, Ones(prefix, 2));
    MaskOctetIdempotent(ip.d, Ones(prefix, 3));
  }

  /** The address as a 32-bit number. */
  function Number(ip: IP): nat {
    ip.a as nat * 16777216 + ip.b as nat * 65536 + ip.c as nat * 256 + ip.d as nat
  }

  function Pow2(n: nat): (p: nat)
    ensures p > 0
  {
    if n == 0 then 1 else 2 * Pow2(n - 1)
  }

  lemma {:induction false} Pow2Sum(m: nat, n: nat)
    ensures Pow2(m + n) == Pow2(m) * Pow2(n)
  {
    if m > 0 {
      Pow2Sum(m - 1, n);
    }
  }

  lemma SmallPowers()
    ensures [Pow2(8), Pow2(7), Pow2(6), Pow2(5), Pow2(4), Pow2(3), Pow2(2), Pow2(1), Pow2(0)]
            == [0x100, 0x80, 0x40, 0x20, 0x10, 8, 4, 2, 1]
  {
    assert Pow2(1) == 2 && Pow2(2) == 4 && Pow2(3) == 8;
    assert Pow2(4) == 16 && Pow2(5) == 32 && Pow2(6) == 64 && Pow2(7) == 128;
  }

  lemma MaskedOctet(x: uint8, ones: nat)
    requires ones <= 8
    ensures MaskOctet(x, ones) as nat == x as nat - x as nat % Pow2(8 - ones)
  {
    SmallPowers();
  }

  /** The remainder of a number whose low part lies below the unit. */
  lemma RemainderOfUnits(x: nat, unit: nat, low: nat, size: nat)
    requires low < unit && size > 0
    ensures (x * unit + low) % (size * unit) == (x % size) * unit + low
  {
    var q, r := x / size, x % size;
    assert x * unit + low == q * (size * unit) + (r * unit + low) by {
      assert x == q * size + r;
      assert (q * size + r) * unit == q * (size * unit) + r * unit;
    }
    assert r * unit + low < size * unit by {
      assert r <= size - 1;
      assert r * unit <= (size - 1) * unit;
    }
    UniqueRemainder(x * unit + low, size * unit, q, r * unit + low);
  }

  lemma Multiples(d: int, m: nat)
    ensures d >= 1 ==> d * m >= m
    ensures d <= -1 ==> d * m + m <= 0
  {
  }

  lemma UniqueRemainder(n: nat, m: nat, q: nat, r: nat)
    requires n == q * m + r && r < m
    ensures n % m == r
  {
    var d: int := n / m - q;
    assert n == (n / m) * m + n % m;
    assert d * m == r - n % m;
    assert d * m < m && 0 < d * m + m;
    Multiples(d, m);
  }

  /** Modulo a power of two up to 256 only the last octet matters. */
  lemma RemainderWithin(high: nat, x: nat, size: nat, ones: nat)
    requires 0 < ones <= 8 && size == Pow2(8 - ones) && x < 256
    ensures (high * 256 + x) % size == x % size
  {
    Pow2Sum(8 - ones, ones);
    SmallPowers();
    assert size * Pow2(ones) == 256;
    var q := high * Pow2(ones) + x / size;
    assert high * 256 == (high * Pow2(ones)) * size;
    assert x == (x / size) * size + x % size;
    assert q * size == (high * Pow2(ones)) * size + (x / size) * size;
    UniqueRemainder(high * 256 + x, size, q, x % size);
  }

  // The four octets a prefix may end in.

  lemma MaskInFirst(ip: IP, prefix: nat)
    requires prefix <= 8
    ensures Number(Mask(ip, prefix)) == Number(ip) - Number(ip) % Pow2(32 - prefix)
  {
    MaskedOctet(ip.a, prefix);
    FullAndEmpty(ip);
    Pow2Sum(8 - prefix, 24);
    LargePowers();
    RemainderOfUnits(ip.a as nat, 16777216, ip.b as nat * 65536 + ip.c as nat * 256 + ip.d as nat, Pow2(8 - prefix));
  }

  lemma MaskInSecond(ip: IP, prefix: nat)
    requires 8 < prefix <= 16
    ensures Number(Mask(ip, prefix)) == Number(ip) - Number(ip) % Pow2(32 - prefix)
  {
    MaskedOctet(ip.b, prefix - 8);
    FullAndEmpty(ip);
    assert Pow2(32 - prefix) == Pow2(16 - prefix) * 65536 by {
      Pow2Sum(16 - prefix, 16);
      LargePowers();
    }
    assert Number(ip) % Pow2(32 - prefix) == ip.b as nat % Pow2(16 - prefix) * 65536 + ip.c as nat * 256 + ip.d as nat by {
      RemainderOfUnits(ip.a as nat * 256 + ip.b as nat, 65536, ip.c as nat * 256 + ip.d as nat, Pow2(16 - prefix));
      RemainderWithin(ip.a as nat, ip.b as nat, Pow2(16 - prefix), prefix - 8);
    }
  }

  lemma MaskInThird(ip: IP, prefix: nat)
    requires 16 < prefix <= 24
    ensures Number(Mask(ip, prefix)) == Number(ip) - Number(ip) % Pow2(32 - prefix)
  {
    MaskedOctet(ip.c, prefix - 16);
    FullAndEmpty(ip);
    assert Pow2(32 - prefix) == Pow2(24 - prefix) * 256 by {
      Pow2Sum(24 - prefix, 8);
      SmallPowers();
    }
    RemainderOfUnits(ip.a as nat * 65536 + ip.b as nat * 256 + ip.c as nat, 256, ip.d as nat, Pow2(24 - prefix));
    RemainderWithin(ip.a as nat * 256 + ip.b as nat, ip.c as nat, Pow2(24 - prefix), prefix - 16);
  }

  lemma MaskInFourth(ip: IP, prefix: nat)
    requires 24 < prefix <= 32
    ensures Number(Mask(ip, prefix)) == Number(ip) - Number(ip) % Pow2(32 - prefix)
  {
    MaskedOctet(ip.d, prefix - 24);
    FullAndEmpty(ip);
    RemainderWithin(ip.a as nat * 65536 + ip.b as nat * 256 + ip.c as nat, ip.d as nat, Pow2(32 - prefix), prefix - 24);
  }

  lemma FullAndEmpty(ip: IP)
    ensures MaskOctet(ip.a, 8) == ip.a && MaskOctet(ip.b, 8) == ip.b && MaskOctet(ip.c, 8) == ip.c
    ensures MaskOctet(ip.b, 0) == 0 && MaskOctet(ip.c, 0) == 0 && MaskOctet(ip.d, 0) == 0
  {
  }

  lemma LargePowers()
    ensures Pow2(16) == 65536 && Pow2(24) == 16777216
  {
    SmallPowers();
    Pow2Sum(8, 8);
    Pow2Sum(8, 16);
  }

  /** Masking keeps the leading `prefix` bits of the 32-bit number and clears the rest. */
  lemma MaskKeepsLeadingBits(ip: IP, prefix: nat)
    requires prefix <= 32
    ensures Number(Mask(ip, prefix)) == Number(ip) - Number(ip) % Pow2(32 - prefix)
  {
    if prefix <= 8 {
      MaskInFirst(ip, prefix);
    } else if prefix <= 16 {
      MaskInSecond(ip, prefix);
    } else if prefix <= 24 {
      MaskInThird(ip, prefix);
    } else {
      MaskInFourth(ip, prefix);
    }
  }

  /** Text runs from the most significant octet to the least. */
  lemma DottedExample()
    ensures Dotted(IP(10, 200, 0, 1)) == "10.200.0.1"
  {
    assert Decimal(10) == "10" && Decimal(200) == "200" && Decimal(0) == "0" && Decimal(1) == "1";
    assert Join(["10", "200", "0", "1"][1..][1..], '.') == "0.1";
  }
}
