/** Arithmetic modulo m, and counting. */
module Arith {

  function Max(a: int, b: int): int { if a > b then a else b }

  function Min(a: int, b: int): int { if a < b then a else b }

  const TWO64: nat := 0x1_0000_0000_0000_0000

  lemma ModOfMultiple(x: int, z: int, m: int)
    requires 0 <= x < m
    ensures (x + m * z) % m == x
  {
    var q := (x + m * z) / m;
    var r := (x + m * z) % m;
    assert x + m * z == m * q + r;
    SmallMultiple(z - q, m, r - x);
  }

  /** The only multiple of m that lies strictly between -m and m is zero. */
  lemma SmallMultiple(k: int, m: int, d: int)
    requires -m < d < m && d == m * k
    ensures k == 0
  {
  }

  lemma Expand(x: int, g: int, gi: int, q: int, m: int)
    ensures (x * g - m * q) * gi == x * (g * gi) - m * (q * gi)
  {
    assert (x * g - m * q) * gi == (x * g) * gi - (m * q) * gi;
    assert (x * g) * gi == x * (g * gi);
    assert (m * q) * gi == m * (q * gi);
  }

  lemma TimesOneMore(x: int, k: int, m: int)
    ensures x * (1 + k * m) == x + m * (k * x)
  {
    assert x * (k * m) == m * (k * x);
  }

  /** Solves z + y * g == x modulo m for y. */
  lemma SolvesLinear(x: int, z: int, g: int, gi: int, k: int, m: int)
    requires 0 <= x < m && gi * g == 1 + k * m
    ensures (z + ((x - z) * gi) % m * g) % m == x
  {
    var d := x - z;
    var q := (d * gi) / m;
    assert (d * gi) % m == d * gi - m * q;
    Expand(d, gi, g, q, m);
    TimesOneMore(d, k, m);
    assert m * (k * d) - m * (q * g) == m * (k * d - q * g);
    ModOfMultiple(x, k * d - q * g, m);
  }

  /** Multiplying by g and then by its inverse modulo m gives the factor back. */
  lemma TimesInverse(x: int, g: int, gi: int, k: int, m: int)
    requires 0 <= x < m && g * gi == 1 + k * m
    ensures ((x * g) % m * gi) % m == x
  {
    SolvesLinear(x, 0, gi, g, k, m);
  }

  ghost function Interval(lo: nat, hi: nat): (s: set<nat>)
    ensures forall x :: x in s <==> lo <= x < hi
    decreases hi
  {
    if lo >= hi then {} else Interval(lo, hi - 1) + {hi - 1}
  }

  lemma {:induction false} IntervalSize(lo: nat, hi: nat)
    requires lo <= hi
    ensures |Interval(lo, hi)| == hi - lo
    decreases hi
  {
    if lo < hi {
      IntervalSize(lo, hi - 1);
    }
  }

  lemma {:induction false} SubsetSize<T>(a: set<T>, b: set<T>)
    requires a <= b
    ensures |a| <= |b| && (|a| == |b| ==> a == b)
  {
    if a != {} {
      var x :| x in a;
      SubsetSize(a - {x}, b - {x});
    }
  }

  /** An injection of a into b. */
  lemma {:induction false} InjectionSize<T, U>(a: set<T>, b: set<U>, f: T -> U)
    requires forall x :: x in a ==> f(x) in b
    requires forall x, y :: x in a && y in a ==> f(x) == f(y) ==> x == y
    ensures |a| <= |b|
  {
    if a != {} {
      var x :| x in a;
      InjectionSize(a - {x}, b - {f(x)}, f);
    }
  }
}
