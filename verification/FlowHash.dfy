/** FlowKey.hash5: 64-bit FNV-1a over a flow's canonical string. */
module FlowHash {
  import opened Arith
  import opened Wrappers

  const OFFSET_BASIS: nat := 0xcbf29ce484222325
  const PRIME: nat := 0x100000001b3
  /** The prime is odd, so it has an inverse modulo 2^64. */
  const PRIME_INVERSE: nat := 0xce965057aff6957b

  /** Addresses are the bytes of their text. */
  datatype FlowKey = FlowKey(srcAddr: seq<Byte>, dstAddr: seq<Byte>, srcPort: nat, dstPort: nat)

  function Decimal(n: nat): seq<Byte> {
    (if n < 10 then [] else Decimal(n / 10)) + [0x30 + n % 10]
  }

  const BAR: seq<Byte> := [0x7c]

  /** "src|dst|sport|dport|17" */
  function Canonical(f: FlowKey): seq<Byte> {
    f.srcAddr + BAR + f.dstAddr + BAR + Decimal(f.srcPort) + BAR + Decimal(f.dstPort) + BAR + [0x31, 0x37]
  }

  /** Exclusive or of the binary digits. */
  function Xor(a: nat, b: nat): nat {
    if a == 0 && b == 0 then 0 else (if a % 2 != b % 2 then 1 else 0) + 2 * Xor(a / 2, b / 2)
  }

  function Mix(h: nat, b: Byte): (r: nat)
    ensures r < TWO64
  {
    (Xor(h, b) * PRIME) % TWO64
  }

  function Fnv(s: seq<Byte>): (r: nat)
    ensures r < TWO64
  {
    if s == [] then OFFSET_BASIS else Mix(Fnv(s[..|s| - 1]), s[|s| - 1])
  }

  method Hash5(f: FlowKey) returns (h: nat)
    ensures h == Fnv(Canonical(f)) < TWO64
  {
    var s := Canonical(f);
    h := OFFSET_BASIS;
    for i := 0 to |s|
      invariant h == Fnv(s[..i])
    {
      assert s[..i + 1][..i] == s[..i];
      h := Xor(h, s[i]);
      h := (h * PRIME) % TWO64;
    }
    assert s[..|s|] == s;
  }

  lemma {:induction false} XorTwice(a: nat, b: nat)
    ensures Xor(Xor(a, b), b) == a
  {
    if a != 0 || b != 0 {
      XorTwice(a / 2, b / 2);
      var x := Xor(a / 2, b / 2);
      var d := if a % 2 != b % 2 then 1 else 0;
      assert (d + 2 * x) / 2 == x && (d + 2 * x) % 2 == d;
    }
  }

  lemma {:induction false} XorCommutes(a: nat, b: nat)
    ensures Xor(a, b) == Xor(b, a)
  {
    if a != 0 || b != 0 {
      XorCommutes(a / 2, b / 2);
    }
  }

  /** Exclusive or with a number below 2^n leaves the digits above n alone. */
  lemma {:induction false} XorHighDigits(a: nat, b: nat, m: nat)
    requires m in {1, 2, 4, 8, 16, 32, 64, 128, 256} && b < m
    ensures Xor(a, b) / m == a / m
  {
    if m == 1 {
      XorZero(a);
    } else {
      XorHighDigits(a / 2, b / 2, m / 2);
      var x := Xor(a / 2, b / 2);
      assert Xor(a, b) / 2 == x;
      HalfThenDivide(Xor(a, b), m);
      HalfThenDivide(a, m);
    }
  }

  lemma HalfThenDivide(a: nat, m: nat)
    requires m in {2, 4, 8, 16, 32, 64, 128, 256}
    ensures a / 2 / (m / 2) == a / m
  {
  }

  lemma {:induction false} XorZero(a: nat)
    ensures Xor(a, 0) == a
  {
    if a != 0 { XorZero(a / 2); }
  }

  lemma XorByteBelow(h: nat, b: Byte)
    requires h < TWO64
    ensures Xor(h, b) < TWO64
  {
    XorHighDigits(h, b, 256);
  }

  function Unmix(x: nat, b: Byte): nat { Xor((x * PRIME_INVERSE) % TWO64, b) }

  /** For a fixed byte, a step is a bijection of the 64-bit values. */
  lemma MixIsBijective(h: nat, b: Byte)
    requires h < TWO64
    ensures Unmix(Mix(h, b), b) == h
    ensures Unmix(h, b) < TWO64 && Mix(Unmix(h, b), b) == h
  {
    XorByteBelow(h, b);
    MulInverse(Xor(h, b));
    XorTwice(h, b);
    var y := (h * PRIME_INVERSE) % TWO64;
    XorByteBelow(y, b);
    XorTwice(y, b);
    MulInverse(h);
  }

  lemma MulInverse(h: nat)
    requires h < TWO64
    ensures ((h * PRIME) % TWO64 * PRIME_INVERSE) % TWO64 == h
    ensures ((h * PRIME_INVERSE) % TWO64 * PRIME) % TWO64 == h
  {
    TimesInverse(h, PRIME, PRIME_INVERSE, 0xce9650590f, TWO64);
    TimesInverse(h, PRIME_INVERSE, PRIME, 0xce9650590f, TWO64);
  }

  lemma DifferentBytes(h: nat, b: Byte, c: Byte)
    requires h < TWO64 && Mix(h, b) == Mix(h, c)
    ensures b == c
  {
    XorByteBelow(h, b);
    XorByteBelow(h, c);
    MulInverse(Xor(h, b));
    MulInverse(Xor(h, c));
    XorCommutes(h, b);
    XorCommutes(h, c);
    XorTwice(b, h);
    XorTwice(c, h);
  }

  /** Strings of one length that differ in exactly one byte never collide. */
  lemma {:induction false} OneByteApart(s: seq<Byte>, s': seq<Byte>, i: nat)
    requires |s| == |s'| && i < |s| && s[i] != s'[i]
    requires forall j :: 0 <= j < |s| && j != i ==> s[j] == s'[j]
    ensures Fnv(s) != Fnv(s')
  {
    var n := |s| - 1;
    if i == n {
      assert s[..n] == s'[..n];
      if Fnv(s) == Fnv(s') { DifferentBytes(Fnv(s[..n]), s[n], s'[n]); }
    } else {
      OneByteApart(s[..n], s'[..n], i);
      MixIsBijective(Fnv(s[..n]), s[n]);
      MixIsBijective(Fnv(s'[..n]), s[n]);
    }
  }

  /** So no two flows whose canonical strings are one byte apart, such as two
      source ports that differ in one digit, share a hash. */
  lemma FlowsOneByteApart(f: FlowKey, g: FlowKey, i: nat)
    requires |Canonical(f)| == |Canonical(g)| && i < |Canonical(f)| && Canonical(f)[i] != Canonical(g)[i]
    requires forall j :: 0 <= j < |Canonical(f)| && j != i ==> Canonical(f)[j] == Canonical(g)[j]
    ensures Fnv(Canonical(f)) != Fnv(Canonical(g))
  {
    OneByteApart(Canonical(f), Canonical(g), i);
  }

  // ---------------------------------------------------------------------
  // The canonical string tells flows apart
  // ---------------------------------------------------------------------

  lemma {:induction false} DecimalDigits(n: nat)
    ensures Decimal(n) != [] && forall i :: 0 <= i < |Decimal(n)| ==> 0x30 <= Decimal(n)[i] <= 0x39
  {
    if n >= 10 {
      DecimalDigits(n / 10);
    }
  }

  /** The number a string of digits stands for. */
  function NumberOf(s: seq<Byte>): int {
    if s == [] then 0 else 10 * NumberOf(s[..|s| - 1]) + s[|s| - 1] as int - 0x30
  }

  lemma {:induction false} DecimalStandsFor(n: nat)
    ensures NumberOf(Decimal(n)) == n
  {
    var d := Decimal(n);
    assert d[|d| - 1] == 0x30 + n % 10;
    if n >= 10 {
      DecimalStandsFor(n / 10);
      assert d[..|d| - 1] == Decimal(n / 10);
    } else {
      assert d[..|d| - 1] == [];
    }
  }

  /** The first bar stands after a part without bars. */
  lemma BarAt(x: seq<Byte>, u: seq<Byte>)
    requires 0x7c !in x
    ensures var s := x + BAR + u;
            && |s| > |x| && s[|x|] == 0x7c && s[..|x|] == x && s[|x| + 1..] == u
            && forall j :: 0 <= j < |x| ==> s[j] != 0x7c
  {
  }

  lemma SplitAtBar(x: seq<Byte>, u: seq<Byte>, y: seq<Byte>, v: seq<Byte>)
    requires 0x7c !in x && 0x7c !in y && x + BAR + u == y + BAR + v
    ensures x == y && u == v
  {
    BarAt(x, u);
    BarAt(y, v);
    var s := x + BAR + u;
    assert s[|x|] == 0x7c && s[|y|] == 0x7c;
  }

  function Ports(sport: nat, dport: nat): seq<Byte> { Decimal(sport) + BAR + (Decimal(dport) + BAR + [0x31, 0x37]) }

  lemma PortsAreInjective(sport: nat, dport: nat, sport': nat, dport': nat)
    requires Ports(sport, dport) == Ports(sport', dport')
    ensures sport == sport' && dport == dport'
  {
    DecimalDigits(sport);
    DecimalDigits(sport');
    SplitAtBar(Decimal(sport), Decimal(dport) + BAR + [0x31, 0x37],
               Decimal(sport'), Decimal(dport') + BAR + [0x31, 0x37]);
    DecimalDigits(dport);
    DecimalDigits(dport');
    SplitAtBar(Decimal(dport), [0x31, 0x37], Decimal(dport'), [0x31, 0x37]);
    DecimalStandsFor(sport);
    DecimalStandsFor(sport');
    DecimalStandsFor(dport);
    DecimalStandsFor(dport');
  }

  lemma CanonicalSplits(f: FlowKey)
    ensures Canonical(f) == f.srcAddr + BAR + (f.dstAddr + BAR + Ports(f.srcPort, f.dstPort))
  {
  }

  /** Flows between addresses without a bar, as all texts of addresses are, have the same
      canonical string only if they are the same flow. */
  lemma CanonicalIsInjective(f: FlowKey, g: FlowKey)
    requires 0x7c !in f.srcAddr && 0x7c !in f.dstAddr && 0x7c !in g.srcAddr && 0x7c !in g.dstAddr
    requires Canonical(f) == Canonical(g)
    ensures f == g
  {
    var p, q := Ports(f.srcPort, f.dstPort), Ports(g.srcPort, g.dstPort);
    CanonicalSplits(f);
    CanonicalSplits(g);
    SplitAtBar(f.srcAddr, f.dstAddr + BAR + p, g.srcAddr, g.dstAddr + BAR + q);
    SplitAtBar(f.dstAddr, p, g.dstAddr, q);
    PortsAreInjective(f.srcPort, f.dstPort, g.srcPort, g.dstPort);
  }

  lemma KnownPorts()
    ensures Ports(80, 7) == [0x38, 0x30, 0x7c, 0x37, 0x7c, 0x31, 0x37]
  {
    assert Decimal(8) == [0x38] && Decimal(80) == [0x38, 0x30] && Decimal(7) == [0x37];
  }

  /** A flow's string as it is written: "a|b|80|7|17". */
  lemma KnownString()
    ensures Canonical(FlowKey([0x61], [0x62], 80, 7))
            == [0x61, 0x7c, 0x62, 0x7c, 0x38, 0x30, 0x7c, 0x37, 0x7c, 0x31, 0x37]
  {
    KnownPorts();
    CanonicalSplits(FlowKey([0x61], [0x62], 80, 7));
  }

  /** The published FNV-1a hashes of "" and "a". */
  lemma KnownHashes()
    ensures Fnv([]) == 0xcbf29ce484222325 && Fnv([0x61]) == 0xaf63dc4c8601ec8c
  {
    XorZero(0x197e539c9084446);
    assert Xor(0x32fca739210888c, 1) == 0x32fca739210888d;
    assert Xor(0x65f94e724211119, 3) == 0x65f94e72421111a;
    assert Xor(0xcbf29ce48422232, 6) == 0xcbf29ce48422234;
    assert Xor(0x197e539c90844464, 12) == 0x197e539c90844468;
    assert Xor(0x32fca739210888c9, 24) == 0x32fca739210888d1;
    assert Xor(0x65f94e7242111192, 48) == 0x65f94e72421111a2;
    assert Xor(0xcbf29ce484222325, 97) == 0xcbf29ce484222344;
    assert [0x61][..0] == [];
    assert 0xcbf29ce484222344 * 0x100000001b3 == 0xcbf29ce5de * 0x1_0000_0000_0000_0000 + 0xaf63dc4c8601ec8c;
  }
}
