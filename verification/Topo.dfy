/** Carrier construction and transit-spine choice (srv6_fabric/topo.py). */
module Topo {
  import opened Arith
  import opened Wrappers
  import opened Fabric

  /** The compressed uSID list as an outer destination. */
  function UsidOuterDst(t: Topology, tenant: Tenant, plane: int, spine: int, dstLeaf: int): (r: Result<Addr>)
    ensures r.Ok? <==> 0 <= plane < t.planes && 0 <= spine < t.spines && 0 <= dstLeaf < t.leaves
  {
    if !(0 <= plane < t.planes) then Err(PlaneOutOfRange)
    else if !(0 <= spine < t.spines) then Err(SpineOutOfRange)
    else if !(0 <= dstLeaf < t.leaves) then Err(HostOutOfRange)
    else Ok(Carrier(tenant, plane, spine, dstLeaf))
  }

  /** Out of range: the plane, then the spine, then the leaf is named in the error. */
  lemma UsidErrors(t: Topology, tenant: Tenant, plane: int, spine: int, dstLeaf: int)
    ensures UsidOuterDst(t, tenant, plane, spine, dstLeaf) == Err(PlaneOutOfRange) <==> !(0 <= plane < t.planes)
    ensures UsidOuterDst(t, tenant, plane, spine, dstLeaf) == Err(SpineOutOfRange) <==>
              0 <= plane < t.planes && !(0 <= spine < t.spines)
    ensures UsidOuterDst(t, tenant, plane, spine, dstLeaf) == Err(HostOutOfRange) <==>
              0 <= plane < t.planes && 0 <= spine < t.spines && !(0 <= dstLeaf < t.leaves)
  {
  }

  function Carrier(tenant: Tenant, plane: nat, spine: nat, dstLeaf: nat): Addr {
    if tenant.Green?
    then Addr(0xfc00, plane, 0xf000 + spine, 0xe000 + dstLeaf, 0xd000, 0, 0, 0)
    else Addr(0xfc00, plane, 0xf000 + spine, 0xe000 + dstLeaf, 0xe009, 0xd001, 0, 0)
  }

  const REFERENCE_PAIRS_SPINES: map<(nat, nat), nat> := map[
    (0, 15) := 0, (1, 14) := 2, (2, 13) := 4, (3, 12) := 6,
    (4, 11) := 1, (5, 10) := 3, (6, 9) := 5, (7, 8) := 7]

  /** The reference table first, whatever the topology; then a hash. */
  function SpineFor(t: Topology, src: nat, dst: nat): nat
    requires t.spines > 0
  {
    var a, b := if src < dst then src else dst, if src < dst then dst else src;
    if (a, b) in REFERENCE_PAIRS_SPINES then REFERENCE_PAIRS_SPINES[(a, b)]
    else (a * t.leaves + b) % t.spines
  }

  ghost predicate SpineChoiceInRange(t: Topology)
    requires t.spines > 0
  {
    forall a: nat, b: nat :: a < t.leaves && b < t.leaves && a != b ==> SpineFor(t, a, b) < t.spines
  }

  /** The reference table is not bounded by the topology: pair (7, 8) uses spine 7,
      so every choice names a spine that exists iff there are at least eight
      spines or no pair reaches the table. */
  lemma SpineChoiceInRangeIff(t: Topology)
    requires t.spines > 0
    ensures SpineChoiceInRange(t) <==> t.spines >= 8 || t.leaves <= 8
  {
    if t.leaves > 8 {
      assert SpineFor(t, 7, 8) == 7;
    }
    forall a: nat, b: nat | a < t.leaves && b < t.leaves && a != b && (t.spines >= 8 || t.leaves <= 8)
      ensures SpineFor(t, a, b) < t.spines
    {
    }
  }

  /** The eight reference pairs are (0, 15) to (7, 8) and use eight different spines. */
  lemma ReferencePairsSpread(t: Topology, a: nat, b: nat)
    requires t.spines > 0 && a < 8 && b < 8
    ensures SpineFor(t, a, 15 - a) < 8 && (a != b ==> SpineFor(t, a, 15 - a) != SpineFor(t, b, 15 - b))
    ensures forall k :: k in REFERENCE_PAIRS_SPINES <==> k.0 < 8 && k.0 + k.1 == 15
  {
  }

  /** Every other pair goes round the spines: one on with the higher host, as many on as
      there are leaves with the lower, from (0, 1) which takes spine 1. */
  lemma OtherPairsGoRound(t: Topology, a: nat, b: nat)
    requires t.spines > 0 && a < b && (a, b) !in REFERENCE_PAIRS_SPINES
    ensures (a, b + 1) !in REFERENCE_PAIRS_SPINES ==>
              SpineFor(t, a, b + 1) == (SpineFor(t, a, b) + 1) % t.spines
    ensures a + 1 < b && (a + 1, b) !in REFERENCE_PAIRS_SPINES ==>
              SpineFor(t, a + 1, b) == (SpineFor(t, a, b) + t.leaves) % t.spines
    ensures SpineFor(t, 0, 1) == if t.spines == 1 then 0 else 1
  {
    AddInside(a * t.leaves + b, 1, t.spines);
    AddInside(a * t.leaves + b, t.leaves, t.spines);
    assert (a + 1) * t.leaves + b == a * t.leaves + b + t.leaves;
    if t.spines > 1 { assert 1 % t.spines == 1; }
  }

  lemma AddInside(x: nat, y: nat, m: nat)
    requires m > 0
    ensures (x + y) % m == (x % m + y) % m
  {
    var r := x % m + y;
    ModOfMultiple(r % m, x / m + r / m, m);
    assert x + y == r % m + m * (x / m + r / m) by { assert x == m * (x / m) + x % m && r == m * (r / m) + r % m; }
  }

  /** A pair's two directions share one transit spine. */
  lemma SpineForSymmetric(t: Topology, a: nat, b: nat)
    requires t.spines > 0
    ensures SpineFor(t, a, b) == SpineFor(t, b, a)
  {
  }
}
