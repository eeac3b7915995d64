/** Spray policies (srv6_fabric/policy.py). Weights, thresholds and draws are exact. */
module Policy {
  import opened Wrappers
  import opened Arith
  import opened EvSpec
  import opened EvTable
  import opened FlowHash

  const GOLDEN_RATIO_64: nat := 0x9E3779B97F4A7C15
  /** The multiplier is odd, so it has an inverse modulo 2^64. */
  const GOLDEN_INVERSE: nat := 0xf1de83e19937733d

  predicate ProperWeights(w: seq<real>) {
    |w| > 0 && (forall i :: 0 <= i < |w| ==> w[i] >= 0.0) && Sum(w) > 0.0
  }

  /** Share of the planes up to and including i. */
  function CumulativeShare(w: seq<real>, i: int): real
    requires -1 <= i < |w| && Sum(w) > 0.0
  {
    Sum(w[..i + 1]) / Sum(w)
  }

  function Cdf(w: seq<real>): (c: seq<real>)
    requires |w| > 0 && Sum(w) > 0.0
    ensures |c| == |w|
  {
    seq(|w|, i requires 0 <= i < |w| => CumulativeShare(w, i))
  }

  /** Validation at construction. */
  method NewWeighted(numPlanes: nat, weights: seq<real>) returns (r: Option<seq<real>>)
    requires numPlanes > 0
    ensures r.Some? <==> |weights| == numPlanes && ProperWeights(weights)
    ensures r.Some? ==> r.value == Cdf(weights)
  {
    if |weights| != numPlanes { return None; }
    if exists i :: 0 <= i < |weights| && weights[i] < 0.0 { return None; }
    var total := SumOf(weights);
    if total <= 0.0 { return None; }
    var cdf := BuildCdf(weights);
    return Some(cdf);
  }

  method SumOf(w: seq<real>) returns (total: real)
    ensures total == Sum(w)
  {
    total := 0.0;
    for i := 0 to |w|
      invariant total == Sum(w[..i])
    {
      assert w[..i + 1][..i] == w[..i];
      total := total + w[i];
    }
    assert w[..|w|] == w;
  }

  /** The last threshold is forced to 1, which in exact arithmetic it already is. */
  method BuildCdf(w: seq<real>) returns (cdf: seq<real>)
    requires |w| > 0 && Sum(w) > 0.0
    ensures cdf == Cdf(w) && cdf[|w| - 1] == 1.0
  {
    var total := SumOf(w);
    var cum := 0.0;
    cdf := [];
    for i := 0 to |w|
      invariant |cdf| == i && cum == CumulativeShare(w, i - 1)
      invariant forall k :: 0 <= k < i ==> cdf[k] == CumulativeShare(w, k)
    {
      assert w[..i + 1][..i] == w[..i];
      AddQuotients(Sum(w[..i]), w[i], total);
      cum := cum + w[i] / total;
      cdf := cdf + [cum];
    }
    assert w[..|w|] == w;
    SelfQuotient(total);
    cdf := cdf[|w| - 1 := 1.0];
  }

  lemma AddQuotients(a: real, b: real, c: real)
    requires c > 0.0
    ensures a / c + b / c == (a + b) / c
  {
  }

  /** The 64-bit draw for a sequence number. */
  function Draw(hash: nat, seqno: nat): (x: nat)
    ensures x < TWO64
  {
    (hash + seqno * GOLDEN_RATIO_64) % TWO64
  }

  /** The first index whose threshold exceeds u, or the last index. */
  function FirstAbove(u: real, cdf: seq<real>): (p: nat)
    requires |cdf| > 0
    ensures p < |cdf| && (p < |cdf| - 1 ==> u < cdf[p])
    ensures forall q :: 0 <= q < p ==> cdf[q] <= u
  {
    var n := |cdf| - 1;
    if n == 0 then 0
    else
      var p := FirstAbove(u, cdf[..n]);
      if u < cdf[p] then p else n
  }

  method WeightedPick(seqno: nat, flow: FlowKey, cdf: seq<real>) returns (plane: nat)
    requires |cdf| > 0
    ensures plane == FirstAbove(Draw(Fnv(Canonical(flow)), seqno) as real / TWO64 as real, cdf)
  {
    var hash := Hash5(flow);
    var x := (hash + seqno * GOLDEN_RATIO_64) % TWO64;
    var u := x as real / TWO64 as real;
    for p := 0 to |cdf|
      invariant forall q :: 0 <= q < p ==> cdf[q] <= u
    {
      if u < cdf[p] {
        FirstAboveIs(u, cdf, p);
        return p;
      }
    }
    FirstAboveIs(u, cdf, |cdf| - 1);
    return |cdf| - 1;
  }

  lemma FirstAboveIs(u: real, cdf: seq<real>, p: nat)
    requires p < |cdf| && (p < |cdf| - 1 ==> u < cdf[p])
    requires forall q :: 0 <= q < p ==> cdf[q] <= u
    ensures FirstAbove(u, cdf) == p
  {
  }

  /** The plane picked from weights w. */
  function Pick(w: seq<real>, hash: nat, seqno: nat): (p: nat)
    requires |w| > 0 && Sum(w) > 0.0
    ensures p < |w|
  {
    FirstAbove(Draw(hash, seqno) as real / TWO64 as real, Cdf(w))
  }

  // ---------------------------------------------------------------------
  // Shares over 2^64 consecutive sequence numbers
  // ---------------------------------------------------------------------

  function Ceil(r: real): int { -((-r).Floor) }

  /** The first draw above plane i's share. */
  function Boundary(w: seq<real>, i: int): int
    requires -1 <= i < |w| && Sum(w) > 0.0
  {
    Ceil(CumulativeShare(w, i) * TWO64 as real)
  }

  lemma BelowBoundary(x: int, c: real)
    ensures x as real / TWO64 as real < c <==> x < Ceil(c * TWO64 as real)
  {
    var r := c * TWO64 as real;
    assert x as real / TWO64 as real < c <==> (x as real) < r;
  }

  lemma {:induction false} PrefixSumsGrow(w: seq<real>, i: int, j: int)
    requires 0 <= i <= j <= |w| && forall k :: 0 <= k < |w| ==> w[k] >= 0.0
    ensures Sum(w[..i]) <= Sum(w[..j])
  {
    if i < j {
      PrefixSumsGrow(w, i, j - 1);
      assert w[..j][..j - 1] == w[..j - 1];
    }
  }

  lemma QuotientMonotone(a: real, b: real, c: real)
    requires a <= b && c > 0.0
    ensures a / c <= b / c
  {
  }

  lemma SharesGrow(w: seq<real>, i: int, j: int)
    requires ProperWeights(w) && -1 <= i <= j < |w|
    ensures CumulativeShare(w, i) <= CumulativeShare(w, j)
    ensures CumulativeShare(w, -1) == 0.0 && CumulativeShare(w, |w| - 1) == 1.0
  {
    PrefixSumsGrow(w, i + 1, j + 1);
    QuotientMonotone(Sum(w[..i + 1]), Sum(w[..j + 1]), Sum(w));
    assert w[..|w|] == w;
    SelfQuotient(Sum(w));
  }

  /** A draw picks p iff it lies between p's boundaries. */
  lemma PickIffBetween(w: seq<real>, hash: nat, seqno: nat, p: nat)
    requires ProperWeights(w) && p < |w|
    ensures Pick(w, hash, seqno) == p <==> Boundary(w, p - 1) <= Draw(hash, seqno) < Boundary(w, p)
  {
    var x := Draw(hash, seqno);
    var u := x as real / TWO64 as real;
    BelowBoundary(x, CumulativeShare(w, p));
    BelowBoundary(x, CumulativeShare(w, p - 1));
    assert 0.0 <= u < 1.0;
    SharesGrow(w, p - 1, p);
    if Pick(w, hash, seqno) == p {
      if p > 0 { assert Cdf(w)[p - 1] <= u; }
    }
    if CumulativeShare(w, p - 1) <= u < CumulativeShare(w, p) {
      forall q | 0 <= q < p ensures Cdf(w)[q] <= u { SharesGrow(w, q, p - 1); }
      FirstAboveIs(u, Cdf(w), p);
    }
  }

  ghost function SeqsPicking(w: seq<real>, hash: nat, start: nat, p: nat): set<nat>
    requires |w| > 0 && Sum(w) > 0.0
  {
    set i | i in Interval(start, start + TWO64) && Pick(w, hash, i) == p
  }

  /** Two sequence numbers of one window have the same draw only if they are equal. */
  lemma DrawsDiffer(hash: nat, i: nat, j: nat)
    requires Draw(hash, i) == Draw(hash, j) && i - j < TWO64 && j - i < TWO64
    ensures i == j
  {
    var a, b := hash + i * GOLDEN_RATIO_64, hash + j * GOLDEN_RATIO_64;
    var q := a / TWO64 - b / TWO64;
    assert (i - j) * GOLDEN_RATIO_64 == TWO64 * q;
    var k := 0x957bbf35006ed677;
    var d := i - j;
    assert GOLDEN_RATIO_64 * GOLDEN_INVERSE == 1 + k * TWO64;
    assert d * GOLDEN_RATIO_64 * GOLDEN_INVERSE == d * (GOLDEN_RATIO_64 * GOLDEN_INVERSE);
    assert d * (1 + k * TWO64) == d + TWO64 * (k * d) by { TimesOneMore(d, k, TWO64); }
    assert TWO64 * q * GOLDEN_INVERSE == TWO64 * (q * GOLDEN_INVERSE);
    SmallMultiple(q * GOLDEN_INVERSE - k * d, TWO64, d);
  }

  /** Every draw occurs in every window. */
  function SeqnoFor(hash: nat, start: nat, x: nat): nat {
    start + ((x - (hash + start * GOLDEN_RATIO_64)) * GOLDEN_INVERSE) % TWO64
  }

  lemma SeqnoForDraws(hash: nat, start: nat, x: nat)
    requires x < TWO64
    ensures var i := SeqnoFor(hash, start, x); start <= i < start + TWO64 && Draw(hash, i) == x
  {
    var z := hash + start * GOLDEN_RATIO_64;
    var y := ((x - z) * GOLDEN_INVERSE) % TWO64;
    SolvesLinear(x, z, GOLDEN_RATIO_64, GOLDEN_INVERSE, 0x957bbf35006ed677, TWO64);
    assert hash + (start + y) * GOLDEN_RATIO_64 == z + y * GOLDEN_RATIO_64;
  }

  lemma PickedInjectsIntoDraws(w: seq<real>, hash: nat, start: nat, p: nat, lo: nat, hi: nat)
    requires ProperWeights(w) && p < |w| && lo == Boundary(w, p - 1) && hi == Boundary(w, p)
    ensures |SeqsPicking(w, hash, start, p)| <= |Interval(lo, hi)|
  {
    var picked := SeqsPicking(w, hash, start, p);
    forall i | i in picked ensures Draw(hash, i) in Interval(lo, hi) { PickIffBetween(w, hash, i, p); }
    forall i, j | i in picked && j in picked ensures Draw(hash, i) == Draw(hash, j) ==> i == j {
      if Draw(hash, i) == Draw(hash, j) { DrawsDiffer(hash, i, j); }
    }
    InjectionSize(picked, Interval(lo, hi), (i: nat) => Draw(hash, i));
  }

  lemma DrawsInjectIntoPicked(w: seq<real>, hash: nat, start: nat, p: nat, lo: nat, hi: nat)
    requires ProperWeights(w) && p < |w| && lo == Boundary(w, p - 1) && hi == Boundary(w, p) <= TWO64
    ensures |Interval(lo, hi)| <= |SeqsPicking(w, hash, start, p)|
  {
    var picked := SeqsPicking(w, hash, start, p);
    forall x | x in Interval(lo, hi)
      ensures SeqnoFor(hash, start, x) in picked && Draw(hash, SeqnoFor(hash, start, x)) == x
    {
      SeqnoForDraws(hash, start, x);
      PickIffBetween(w, hash, SeqnoFor(hash, start, x), p);
    }
    InjectionSize(Interval(lo, hi), picked, (x: nat) => SeqnoFor(hash, start, x));
  }

  /** Over any 2^64 consecutive sequence numbers of a flow the draw is a
      permutation, so plane p is picked as often as there are draws between its
      boundaries, which is within one of its exact share. */
  lemma SharesAreExact(w: seq<real>, hash: nat, start: nat, p: nat)
    requires ProperWeights(w) && p < |w|
    ensures |SeqsPicking(w, hash, start, p)| == Boundary(w, p) - Boundary(w, p - 1)
    ensures var share := w[p] / Sum(w) * TWO64 as real;
            share - 1.0 < |SeqsPicking(w, hash, start, p)| as real < share + 1.0
  {
    BoundariesInRange(w, p);
    var lo: nat, hi: nat := Boundary(w, p - 1), Boundary(w, p);
    IntervalSize(lo, hi);
    PickedInjectsIntoDraws(w, hash, start, p, lo, hi);
    DrawsInjectIntoPicked(w, hash, start, p, lo, hi);
    ShareOf(w, p);
  }

  // ---------------------------------------------------------------------
  // Shares over the flows' hashes, and from one packet to the next
  // ---------------------------------------------------------------------

  ghost function HashesPicking(w: seq<real>, seqno: nat, start: nat, p: nat): set<nat>
    requires |w| > 0 && Sum(w) > 0.0
  {
    set h | h in Interval(start, start + TWO64) && Pick(w, h, seqno) == p
  }

  lemma HashDrawsDiffer(seqno: nat, g: nat, h: nat)
    requires Draw(g, seqno) == Draw(h, seqno) && g - h < TWO64 && h - g < TWO64
    ensures g == h
  {
    var a, b := g + seqno * GOLDEN_RATIO_64, h + seqno * GOLDEN_RATIO_64;
    var q := a / TWO64 - b / TWO64;
    assert g - h == TWO64 * q;
    SmallMultiple(q, TWO64, g - h);
  }

  function HashFor(seqno: nat, start: nat, x: nat): nat {
    start + (x - (start + seqno * GOLDEN_RATIO_64)) % TWO64
  }

  lemma HashForDraws(seqno: nat, start: nat, x: nat)
    requires x < TWO64
    ensures var h := HashFor(seqno, start, x); start <= h < start + TWO64 && Draw(h, seqno) == x
  {
    SolvesLinear(x, start + seqno * GOLDEN_RATIO_64, 1, 1, 0, TWO64);
  }

  lemma HashesInjectIntoDraws(w: seq<real>, seqno: nat, start: nat, p: nat, lo: nat, hi: nat)
    requires ProperWeights(w) && p < |w| && lo == Boundary(w, p - 1) && hi == Boundary(w, p)
    ensures |HashesPicking(w, seqno, start, p)| <= |Interval(lo, hi)|
  {
    var picked := HashesPicking(w, seqno, start, p);
    forall h | h in picked ensures Draw(h, seqno) in Interval(lo, hi) { PickIffBetween(w, h, seqno, p); }
    forall g, h | g in picked && h in picked ensures Draw(g, seqno) == Draw(h, seqno) ==> g == h {
      if Draw(g, seqno) == Draw(h, seqno) { HashDrawsDiffer(seqno, g, h); }
    }
    InjectionSize(picked, Interval(lo, hi), (h: nat) => Draw(h, seqno));
  }

  lemma DrawsInjectIntoHashes(w: seq<real>, seqno: nat, start: nat, p: nat, lo: nat, hi: nat)
    requires ProperWeights(w) && p < |w| && lo == Boundary(w, p - 1) && hi == Boundary(w, p) <= TWO64
    ensures |Interval(lo, hi)| <= |HashesPicking(w, seqno, start, p)|
  {
    var picked := HashesPicking(w, seqno, start, p);
    forall x | x in Interval(lo, hi)
      ensures HashFor(seqno, start, x) in picked && Draw(HashFor(seqno, start, x), seqno) == x
    {
      HashForDraws(seqno, start, x);
      PickIffBetween(w, HashFor(seqno, start, x), seqno, p);
    }
    InjectionSize(Interval(lo, hi), picked, (x: nat) => HashFor(seqno, start, x));
  }

  /** At one sequence number flows spread just so: over any 2^64 consecutive hashes, so over
      all that there are, plane p is picked as often as there are draws between its boundaries. */
  lemma HashSharesAreExact(w: seq<real>, seqno: nat, start: nat, p: nat)
    requires ProperWeights(w) && p < |w|
    ensures |HashesPicking(w, seqno, start, p)| == Boundary(w, p) - Boundary(w, p - 1)
  {
    BoundariesInRange(w, p);
    var lo: nat, hi: nat := Boundary(w, p - 1), Boundary(w, p);
    IntervalSize(lo, hi);
    HashesInjectIntoDraws(w, seqno, start, p, lo, hi);
    DrawsInjectIntoHashes(w, seqno, start, p, lo, hi);
  }

  /** From one packet of a flow to the next the draw goes up by 2^64 over the golden ratio,
      or down by what that leaves of 2^64. */
  lemma NextDraw(hash: nat, seqno: nat)
    ensures var d := Draw(hash, seqno + 1) - Draw(hash, seqno);
            d == 0x9E3779B97F4A7C15 || d == 0x9E3779B97F4A7C15 - 0x1_0000_0000_0000_0000
  {
    var z := hash + seqno * GOLDEN_RATIO_64;
    assert hash + (seqno + 1) * GOLDEN_RATIO_64 == z + GOLDEN_RATIO_64;
  }

  /** So a plane that has no more of the draws than the smaller step is never picked
      twice running. */
  lemma NeverTwiceRunning(w: seq<real>, hash: nat, seqno: nat, p: nat)
    requires ProperWeights(w) && p < |w|
    requires Boundary(w, p) - Boundary(w, p - 1) <= 0x1_0000_0000_0000_0000 - 0x9E3779B97F4A7C15
    ensures !(Pick(w, hash, seqno) == p && Pick(w, hash, seqno + 1) == p)
  {
    PickIffBetween(w, hash, seqno, p);
    PickIffBetween(w, hash, seqno + 1, p);
    NextDraw(hash, seqno);
  }

  /** One of three or more equal planes, or any with at most a third of the weight. */
  lemma ThirdNeverTwiceRunning(w: seq<real>, hash: nat, seqno: nat, p: nat)
    requires ProperWeights(w) && p < |w| && 3.0 * w[p] <= Sum(w)
    ensures !(Pick(w, hash, seqno) == p && Pick(w, hash, seqno + 1) == p)
  {
    SharesAreExact(w, hash, 0, p);
    ThirdAtMost(w[p], Sum(w));
    NeverTwiceRunning(w, hash, seqno, p);
  }

  lemma ThirdAtMost(a: real, b: real)
    requires b > 0.0 && 3.0 * a <= b
    ensures a / b <= 1.0 / 3.0
  {
    var q := a / b;
    assert q * b == a;
  }

  lemma BoundariesInRange(w: seq<real>, p: nat)
    requires ProperWeights(w) && p < |w|
    ensures 0 <= Boundary(w, p - 1) <= Boundary(w, p) <= TWO64
  {
    SharesGrow(w, -1, p - 1);
    SharesGrow(w, p - 1, p);
    SharesGrow(w, p, |w| - 1);
  }

  lemma ShareOf(w: seq<real>, p: nat)
    requires ProperWeights(w) && p < |w|
    ensures CumulativeShare(w, p) - CumulativeShare(w, p - 1) == w[p] / Sum(w)
  {
    assert w[..p + 1][..p] == w[..p];
    AddQuotients(Sum(w[..p]), w[p], Sum(w));
  }

  // ---------------------------------------------------------------------
  // HealthAwareMrc: weights from the EV table
  // ---------------------------------------------------------------------

  lemma PickedHasWeight(w: seq<real>, hash: nat, seqno: nat)
    requires ProperWeights(w)
    ensures w[Pick(w, hash, seqno)] > 0.0
  {
    var p := Pick(w, hash, seqno);
    PickIffBetween(w, hash, seqno, p);
    ShareOf(w, p);
  }

  /** After any run of the EV table, no packet is sprayed on an AssumedBad plane. */
  lemma MrcPickAvoidsBadPlanes(cfg: Config, n: nat, evs: seq<Event>, hash: nat, seqno: nat)
    requires n >= 1
    ensures var recs := Run(cfg, n, evs);
            && Sum(Weights(recs)) > 0.0
            && !recs[Pick(Weights(recs), hash, seqno)].state.AssumedBad?
  {
    ReachableWeights(cfg, n, evs);
    PickedHasWeight(Weights(Run(cfg, n, evs)), hash, seqno);
  }

  /** A plane demoted for loss gets no packet until a quiet loss window is recorded for
      it, however its probes fare: and without packets it has no window to be quiet. */
  lemma NotSprayedUntilQuiet(cfg: Config, n: nat, evs: seq<Event>, k: nat, p: nat, hash: nat, seqno: nat)
    requires p < n && k <= |evs| && Run(cfg, n, evs[..k])[p].state.AssumedBad? && BadSinceQuiet(cfg, evs[..k], p) > 0
    requires forall i :: k <= i < |evs| && evs[i].plane == p ==> !IsQuietWindow(cfg, evs[i].signal)
    ensures Sum(Weights(Run(cfg, n, evs))) > 0.0 && Pick(Weights(Run(cfg, n, evs)), hash, seqno) != p
  {
    NotGoodUntilQuiet(cfg, n, evs, k, p);
    MrcPickAvoidsBadPlanes(cfg, n, evs, hash, seqno);
  }

  /** One plane with two bad windows, and then m successful probes. */
  function ProbedAfterLoss(m: nat): seq<Event> {
    if m == 0 then [Event(0, Window(0, 10)), Event(0, Window(0, 10))] else ProbedAfterLoss(m - 1) + [Event(0, ProbeOk)]
  }

  lemma {:induction false} ProbedIs(m: nat)
    ensures |ProbedAfterLoss(m)| == m + 2 && ProbedAfterLoss(m)[..2] == ProbedAfterLoss(0)
    ensures forall i :: 2 <= i < m + 2 ==> ProbedAfterLoss(m)[i] == Event(0, ProbeOk)
  {
    if m > 0 {
      ProbedIs(m - 1);
    }
  }

  lemma DemotedForLoss()
    ensures var cfg, evs := Config(3, 5, 0.05, 2, Some(1)), ProbedAfterLoss(0);
            Run(cfg, 2, evs)[0].state.AssumedBad? && BadSinceQuiet(cfg, evs, 0) == 2
  {
    var cfg, w := Config(3, 5, 0.05, 2, Some(1)), Event(0, Window(0, 10));
    var evs := ProbedAfterLoss(0);
    assert evs == [] + [w] + [w] && [w][..0] == [] && evs[..1] == [w];
    RunSnoc(cfg, 2, [], w);
    RunSnoc(cfg, 2, [w], w);
    assert LossRatio(0, 10) == 1.0;
    UsableInitial(2);
    UsableUpdate(Initial(2), 0, Run(cfg, 2, [w])[0]);
  }

  /** However many probes succeed after it: the plane is not sprayed again. */
  lemma ProbesAloneDoNotRecover(m: nat, hash: nat, seqno: nat)
    ensures var recs := Run(Config(3, 5, 0.05, 2, Some(1)), 2, ProbedAfterLoss(m));
            recs[0].state.AssumedBad? && Sum(Weights(recs)) > 0.0 && Pick(Weights(recs), hash, seqno) == 1
  {
    var cfg := Config(3, 5, 0.05, 2, Some(1));
    ProbedIs(m);
    DemotedForLoss();
    NotGoodUntilQuiet(cfg, 2, ProbedAfterLoss(m), 2, 0);
    NotSprayedUntilQuiet(cfg, 2, ProbedAfterLoss(m), 2, 0, hash, seqno);
  }

  method MrcPick(table: EvStateTable, tenant: string, seqno: nat, flow: FlowKey) returns (plane: nat)
    requires table.Valid() && tenant in table.tenants && table.numPlanes >= 1
    ensures var recs := table.Table()[tenant];
            && |recs| == table.numPlanes && Sum(Weights(recs)) > 0.0
            && plane == Pick(Weights(recs), Fnv(Canonical(flow)), seqno)
            && plane < table.numPlanes && !recs[plane].state.AssumedBad?
  {
    table.FloorOf(tenant);
    WeightsFollowStates(table.Table()[tenant]);
    var r := table.WeightsOf(tenant);
    var weights := r.value;
    var total := SumOf(weights);
    plane := seqno % table.numPlanes;
    // The fallback stands only for weights that sum to nothing, and these sum to 1.
    if total > 0.0 {
      var cdf := BuildCdf(weights);
      plane := WeightedPick(seqno, flow, cdf);
      PickedHasWeight(weights, Fnv(Canonical(flow)), seqno);
    }
  }

  // ---------------------------------------------------------------------
  // HealthAware: skip planes in a shared down set
  // ---------------------------------------------------------------------

  /** The mutable set that the health monitor writes and the policy reads. */
  class DownSet {
    var planes: set<int>

    constructor ()
      ensures planes == {}
    {
      planes := {};
    }
  }

  /** The k-th plane from a choice, going around. */
  function Around(choice: nat, k: nat, n: nat): nat
    requires n > 0
  {
    (choice + k) % n
  }

  /** The first plane that is not down is the k-th from the choice. */
  ghost predicate FirstUpAt(down: set<int>, n: nat, choice: nat, k: nat)
    requires n > 0
  {
    Around(choice, k, n) !in down && forall j: nat :: j < k ==> Around(choice, j, n) in down
  }

  /** The scan from the k-th plane on. */
  function Scan(down: set<int>, n: nat, choice: nat, k: nat): nat
    requires choice < n && k <= n
    decreases n - k
  {
    if k == n then choice
    else if Around(choice, k, n) !in down then Around(choice, k, n)
    else Scan(down, n, choice, k + 1)
  }

  function Picked(down: set<int>, n: nat, choice: nat): nat
    requires choice < n
  {
    if choice in down && |down| >= n then choice else Scan(down, n, choice, 0)
  }

  /** `choice` is the inner policy's. The result is the first up plane at or
      after it, going around, unless `choice` is down and `down` holds n entries or more. */
  method HealthAwarePick(down: DownSet, n: nat, choice: nat) returns (plane: nat)
    requires choice < n
    ensures plane == Picked(down.planes, n, choice)
    ensures choice in down.planes && |down.planes| >= n ==> plane == choice
    ensures choice !in down.planes || |down.planes| < n ==>
              exists k: nat :: k < n && FirstUpAt(down.planes, n, choice, k) && plane == Around(choice, k, n)
  {
    assert Around(choice, 0, n) == choice;
    if down.planes == {} || choice !in down.planes {
      assert FirstUpAt(down.planes, n, choice, 0);
      return choice;
    }
    if |down.planes| >= n {
      return choice;
    }
    for step := 1 to n
      invariant Scan(down.planes, n, choice, 0) == Scan(down.planes, n, choice, step)
      invariant forall j: nat :: j < step ==> Around(choice, j, n) in down.planes
    {
      var cand := (choice + step) % n;
      assert cand == Around(choice, step, n);
      if cand !in down.planes {
        assert FirstUpAt(down.planes, n, choice, step);
        return cand;
      }
    }
    SomeUp(down.planes, n, choice);
    return choice;
  }

  lemma {:induction false} ScanFinds(down: set<int>, n: nat, choice: nat, k: nat, j: nat)
    requires choice < n && k <= j < n && Around(choice, j, n) !in down
    ensures Scan(down, n, choice, k) !in down && Scan(down, n, choice, k) < n
    decreases j - k
  {
    if Around(choice, k, n) in down {
      ScanFinds(down, n, choice, k + 1, j);
    }
  }

  /** Going around all n planes from `choice` meets plane x. */
  lemma AroundMeets(n: nat, choice: nat, x: nat)
    requires choice < n && x < n
    ensures var j := if x >= choice then x - choice else x - choice + n; 0 <= j < n && Around(choice, j, n) == x
  {
    if x < choice { ModOfMultiple(x, 1, n); }
  }

  /** So fewer than n down planes leave one up. */
  lemma SomeUp(down: set<int>, n: nat, choice: nat)
    requires choice < n && |down| < n
    ensures exists j: nat :: j < n && Around(choice, j, n) !in down
  {
    IntervalSize(0, n);
    if Interval(0, n) <= down { SubsetSize(Interval(0, n), down); }
    var x: nat :| x < n && x !in down;
    AroundMeets(n, choice, x);
  }

  lemma {:induction false} ScanIsNearest(down: set<int>, n: nat, choice: nat, k: nat)
    requires choice < n && k <= n && forall j :: 0 <= j < k ==> Around(choice, j, n) in down
    ensures exists j :: 0 <= j < n && Around(choice, j, n) == Scan(down, n, choice, k)
              && forall i :: 0 <= i < j ==> Around(choice, i, n) in down
    decreases n - k
  {
    if k == n {
      assert Around(choice, 0, n) == choice;
    } else if Around(choice, k, n) in down {
      ScanIsNearest(down, n, choice, k + 1);
    }
  }

  /** It is the nearest that is up, going upwards from the choice and round: every plane
      passed over is down. */
  lemma PickedIsNearest(down: set<int>, n: nat, choice: nat)
    requires choice < n
    ensures exists j :: 0 <= j < n && Around(choice, j, n) == Picked(down, n, choice)
              && forall i :: 0 <= i < j ==> Around(choice, i, n) in down
  {
    ScanIsNearest(down, n, choice, 0);
    AroundIs(choice, 0, n);
  }

  lemma AroundIs(choice: nat, k: nat, n: nat)
    requires choice < n && k < n
    ensures Around(choice, k, n) == if choice + k < n then choice + k else choice + k - n
  {
    if choice + k >= n { ModOfMultiple(choice + k - n, 1, n); }
  }

  /** With `down` inside the plane range, the picked plane is up whenever any plane is. */
  lemma UpWheneverAnyIs(down: set<int>, n: nat, choice: nat, up: nat)
    requires choice < n && up < n && up !in down && forall d :: d in down ==> 0 <= d < n
    ensures Picked(down, n, choice) !in down && Picked(down, n, choice) < n
  {
    IntervalSize(0, n);
    assert down <= Interval(0, n) - {up};
    SubsetSize(down, Interval(0, n) - {up});
    SomeUp(down, n, choice);
    var j: nat :| j < n && Around(choice, j, n) !in down;
    ScanFinds(down, n, choice, 0, j);
  }
}
