/** What the per-plane EV state machine of one tenant does to its records, and
    what every run of it keeps (srv6_fabric/mrc/ev_state.py). */
module EvSpec {
  import opened Arith
  import opened Wrappers

  datatype EvState = Unknown | Good | AssumedBad

  datatype Config = Config(
    probeFail: nat,
    probeRecover: nat,
    lossThreshold: real,
    lossDemote: nat,
    minActivePlanes: Option<int>)

  /** The floor on usable planes. */
  function ResolveMinActive(cfg: Config, numPlanes: nat): (r: int)
    ensures numPlanes >= 1 ==> 1 <= r <= numPlanes
  {
    match cfg.minActivePlanes
    case None => Max(1, numPlanes / 2)
    case Some(m) => Max(1, if m < numPlanes then m else numPlanes)
  }

  /** One plane's record. */
  datatype Rec = Rec(
    state: EvState,
    timeouts: nat,
    successes: nat,
    lossWindows: nat,
    lastLoss: real,
    transitions: nat,
    suppressed: nat)

  const FRESH := Rec(Unknown, 0, 0, 0, 0.0, 0, 0)

  function Usable(recs: seq<Rec>): nat {
    if recs == [] then 0
    else Usable(recs[..|recs| - 1]) + (if recs[|recs| - 1].state.AssumedBad? then 0 else 1)
  }

  function UsableWithout(recs: seq<Rec>, plane: nat): int
    requires plane < |recs|
  {
    Usable(recs) - (if recs[plane].state.AssumedBad? then 0 else 1)
  }

  function Transitioned(r: Rec, to: EvState): Rec {
    if r.state == to then r
    else r.(state := to,
            transitions := r.transitions + 1,
            timeouts := if to.Good? then 0 else r.timeouts,
            successes := if to.AssumedBad? then 0 else r.successes)
  }

  /** Demotion, unless too few planes would stay usable. */
  function Demoted(r: Rec, mayDemote: bool): Rec {
    if mayDemote then Transitioned(r, AssumedBad) else r.(suppressed := r.suppressed + 1)
  }

  function ProbeStep(cfg: Config, mayDemote: bool, r: Rec, success: bool): Rec {
    if success then
      var r' := r.(successes := r.successes + 1, timeouts := 0);
      if !r.state.Good? && r'.successes >= cfg.probeRecover && r.lossWindows == 0 then Transitioned(r', Good) else r'
    else
      var r' := r.(timeouts := r.timeouts + 1, successes := 0);
      if !r.state.AssumedBad? && r'.timeouts >= cfg.probeFail then Demoted(r', mayDemote) else r'
  }

  /** Late arrivals can push `seen` past `expected`; that counts as no loss. */
  function LossRatio(seen: nat, expected: nat): (r: real)
    requires expected > 0
    ensures 0.0 <= r <= 1.0
  {
    (expected - if seen > expected then expected else seen) as real / expected as real
  }

  lemma LossRatioTimes(seen: nat, expected: nat)
    requires expected > 0
    ensures LossRatio(seen, expected) * expected as real == (if seen < expected then expected - seen else 0) as real
  {
  }

  function LossStep(cfg: Config, mayDemote: bool, r: Rec, seen: nat, expected: nat): Rec {
    if expected == 0 then r else
    var ratio := LossRatio(seen, expected);
    var r := r.(lastLoss := ratio);
    if ratio > cfg.lossThreshold then
      var r' := r.(lossWindows := r.lossWindows + 1);
      if !r.state.AssumedBad? && r'.lossWindows >= cfg.lossDemote then Demoted(r', mayDemote) else r'
    else if ratio <= cfg.lossThreshold / 2.0 then r.(lossWindows := 0)
    else r
  }

  // ---------------------------------------------------------------------
  // Spray weights
  // ---------------------------------------------------------------------

  function StateWeight(s: EvState): real {
    match s case Good => 1.0 case Unknown => 0.5 case AssumedBad => 0.0
  }

  function RawWeights(recs: seq<Rec>): seq<real> {
    seq(|recs|, i requires 0 <= i < |recs| => StateWeight(recs[i].state))
  }

  function Sum(w: seq<real>): real {
    if w == [] then 0.0 else Sum(w[..|w| - 1]) + w[|w| - 1]
  }

  /** Normalized, or uniform when nothing is usable. */
  function Weights(recs: seq<Rec>): (w: seq<real>)
    requires |recs| >= 1
    ensures |w| == |recs|
  {
    var raw := RawWeights(recs);
    var total := Sum(raw);
    if total <= 0.0 then seq(|recs|, _ => 1.0 / |recs| as real)
    else seq(|recs|, i requires 0 <= i < |recs| => raw[i] / total)
  }

  lemma {:induction false} SumScaled(w: seq<real>, v: seq<real>, c: real)
    requires c != 0.0 && |w| == |v| && forall i :: 0 <= i < |w| ==> v[i] == w[i] / c
    ensures Sum(v) == Sum(w) / c
  {
    if w != [] {
      SumScaled(w[..|w| - 1], v[..|v| - 1], c);
    }
  }

  lemma {:induction false} RawSumPositive(recs: seq<Rec>)
    ensures Sum(RawWeights(recs)) >= Usable(recs) as real / 2.0
  {
    if recs != [] {
      var init := recs[..|recs| - 1];
      RawSumPositive(init);
      assert RawWeights(recs)[..|recs| - 1] == RawWeights(init);
    }
  }

  lemma WeightsSum(recs: seq<Rec>)
    requires |recs| >= 1 && Sum(RawWeights(recs)) > 0.0
    ensures Sum(Weights(recs)) == 1.0
  {
    var total := Sum(RawWeights(recs));
    SumScaled(RawWeights(recs), Weights(recs), total);
    SelfQuotient(total);
  }

  lemma SelfQuotient(a: real)
    requires a > 0.0
    ensures a / a == 1.0
  {
  }

  /** While some plane is usable the weights sum to 1 and are zero exactly on
      the AssumedBad planes; the uniform fallback is not reached. */
  lemma WeightsFollowStates(recs: seq<Rec>)
    requires Usable(recs) >= 1
    ensures |recs| >= 1 && Sum(Weights(recs)) == 1.0
    ensures forall i :: 0 <= i < |recs| ==>
              Weights(recs)[i] >= 0.0 && (Weights(recs)[i] == 0.0 <==> recs[i].state.AssumedBad?)
  {
    var total := Sum(RawWeights(recs));
    RawSumPositive(recs);
    WeightsSum(recs);
    forall i | 0 <= i < |recs|
      ensures Weights(recs)[i] >= 0.0 && (Weights(recs)[i] == 0.0 <==> recs[i].state.AssumedBad?)
    {
      assert Weights(recs)[i] == StateWeight(recs[i].state) / total;
      QuotientSign(StateWeight(recs[i].state), total);
    }
  }

  lemma QuotientSign(a: real, b: real)
    requires a >= 0.0 && b > 0.0
    ensures a / b >= 0.0 && (a / b == 0.0 <==> a == 0.0)
  {
  }

  // ---------------------------------------------------------------------
  // Runs
  // ---------------------------------------------------------------------

  datatype Signal = ProbeOk | ProbeTimeout | Window(seen: nat, expected: nat)

  datatype Event = Event(plane: nat, signal: Signal)

  function RecStep(cfg: Config, mayDemote: bool, r: Rec, s: Signal): Rec {
    match s
    case ProbeOk => ProbeStep(cfg, mayDemote, r, true)
    case ProbeTimeout => ProbeStep(cfg, mayDemote, r, false)
    case Window(seen, expected) => LossStep(cfg, mayDemote, r, seen, expected)
  }

  predicate MayDemote(cfg: Config, recs: seq<Rec>, p: nat)
    requires p < |recs|
  {
    UsableWithout(recs, p) >= ResolveMinActive(cfg, |recs|)
  }

  /** One signal for one plane. A signal for a plane that does not exist is refused. */
  function Apply(cfg: Config, recs: seq<Rec>, e: Event): (r: seq<Rec>)
    ensures |r| == |recs|
  {
    if e.plane >= |recs| then recs
    else recs[e.plane := RecStep(cfg, MayDemote(cfg, recs, e.plane), recs[e.plane], e.signal)]
  }

  function Initial(numPlanes: nat): (r: seq<Rec>)
    ensures |r| == numPlanes
  {
    seq(numPlanes, _ => FRESH)
  }

  function Run(cfg: Config, numPlanes: nat, evs: seq<Event>): (r: seq<Rec>)
    ensures |r| == numPlanes
  {
    if evs == [] then Initial(numPlanes)
    else Apply(cfg, Run(cfg, numPlanes, evs[..|evs| - 1]), evs[|evs| - 1])
  }

  lemma RunSnoc(cfg: Config, numPlanes: nat, evs: seq<Event>, e: Event)
    ensures Run(cfg, numPlanes, evs + [e]) == Apply(cfg, Run(cfg, numPlanes, evs), e)
  {
    assert (evs + [e])[..|evs|] == evs;
  }

  // ---------------------------------------------------------------------
  // The floor
  // ---------------------------------------------------------------------

  lemma {:induction false} UsableUpdate(recs: seq<Rec>, p: nat, r: Rec)
    requires p < |recs|
    ensures Usable(recs[p := r]) ==
              Usable(recs) - (if recs[p].state.AssumedBad? then 0 else 1) + (if r.state.AssumedBad? then 0 else 1)
  {
    var n := |recs| - 1;
    if p < n {
      UsableUpdate(recs[..n], p, r);
      assert recs[p := r][..n] == recs[..n][p := r];
    } else {
      assert recs[p := r][..n] == recs[..n];
    }
  }

  lemma {:induction false} UsableInitial(n: nat)
    ensures Usable(Initial(n)) == n
  {
    if n > 0 {
      assert Initial(n)[..n - 1] == Initial(n - 1);
      UsableInitial(n - 1);
    }
  }

  /** In every reachable table at least `minActive` planes are usable. */
  lemma {:induction false} FloorHolds(cfg: Config, n: nat, evs: seq<Event>)
    requires n >= 1
    ensures Usable(Run(cfg, n, evs)) >= ResolveMinActive(cfg, n) >= 1
  {
    if evs == [] {
      UsableInitial(n);
    } else {
      var init, e := evs[..|evs| - 1], evs[|evs| - 1];
      FloorHolds(cfg, n, init);
      var recs := Run(cfg, n, init);
      if e.plane < n {
        UsableUpdate(recs, e.plane, Apply(cfg, recs, e)[e.plane]);
      }
    }
  }

  /** So in every reachable table the weights are those of the states, sum to 1
      and leave out exactly the AssumedBad planes. */
  lemma ReachableWeights(cfg: Config, n: nat, evs: seq<Event>)
    requires n >= 1
    ensures var recs := Run(cfg, n, evs);
            && Sum(Weights(recs)) == 1.0
            && forall i :: 0 <= i < n ==>
                 Weights(recs)[i] >= 0.0 && (Weights(recs)[i] == 0.0 <==> recs[i].state.AssumedBad?)
  {
    FloorHolds(cfg, n, evs);
    WeightsFollowStates(Run(cfg, n, evs));
  }

  // ---------------------------------------------------------------------
  // The documented floor counts GOOD planes alone
  // ---------------------------------------------------------------------

  function InState(recs: seq<Rec>, s: EvState): nat {
    if recs == [] then 0
    else InState(recs[..|recs| - 1], s) + (if recs[|recs| - 1].state == s then 1 else 0)
  }

  lemma {:induction false} UsableSplits(recs: seq<Rec>)
    ensures Usable(recs) == InState(recs, Good) + InState(recs, Unknown)
  {
    if recs != [] {
      UsableSplits(recs[..|recs| - 1]);
    }
  }

  lemma {:induction false} NoneInState(recs: seq<Rec>, s: EvState)
    ensures InState(recs, s) == 0 <==> forall p :: 0 <= p < |recs| ==> recs[p].state != s
  {
    if recs != [] {
      NoneInState(recs[..|recs| - 1], s);
      assert recs == recs[..|recs| - 1] + [recs[|recs| - 1]];
    }
  }

  lemma {:induction false} RawSumByState(recs: seq<Rec>)
    ensures 2.0 * Sum(RawWeights(recs)) == (2 * InState(recs, Good) + InState(recs, Unknown)) as real
  {
    if recs != [] {
      var init := recs[..|recs| - 1];
      RawSumByState(init);
      assert RawWeights(recs)[..|recs| - 1] == RawWeights(init);
    }
  }

  lemma DoubledQuotient(a: real, b: real)
    requires b > 0.0
    ensures a / b == (2.0 * a) / (2.0 * b)
  {
    var q := a / b;
    assert q * (2.0 * b) == 2.0 * a;
    assert (2.0 * a) / (2.0 * b) * (2.0 * b) == 2.0 * a;
    assert (q - (2.0 * a) / (2.0 * b)) * (2.0 * b) == 0.0;
  }

  /** A GOOD plane counts twice as much as an UNKNOWN one, an ASSUMED_BAD one not at all,
      in shares of the whole. */
  lemma WeightsByState(recs: seq<Rec>, p: nat)
    requires Usable(recs) >= 1 && p < |recs|
    ensures var all := 2 * InState(recs, Good) + InState(recs, Unknown);
            && all > 0
            && (recs[p].state.Good? ==> Weights(recs)[p] == 2.0 / all as real)
            && (recs[p].state.Unknown? ==> Weights(recs)[p] == 1.0 / all as real)
            && (recs[p].state.AssumedBad? ==> Weights(recs)[p] == 0.0)
  {
    UsableSplits(recs);
    RawSumByState(recs);
    RawSumPositive(recs);
    DoubledQuotient(StateWeight(recs[p].state), Sum(RawWeights(recs)));
    WeightsFollowStates(recs);
  }

  /** So of two planes a proved one gets twice the traffic of an unproved one. */
  lemma GoodWeighsTwice(recs: seq<Rec>, p: nat, q: nat)
    requires Usable(recs) >= 1 && p < |recs| && q < |recs|
    ensures recs[p].state.Good? && recs[q].state.Unknown? ==> Weights(recs)[p] == 2.0 * Weights(recs)[q]
    ensures recs[p].state == recs[q].state ==> Weights(recs)[p] == Weights(recs)[q]
  {
    WeightsByState(recs, p);
    WeightsByState(recs, q);
    TwiceQuotient((2 * InState(recs, Good) + InState(recs, Unknown)) as real);
  }

  lemma TwiceQuotient(b: real)
    requires b > 0.0
    ensures 2.0 / b == 2.0 * (1.0 / b)
  {
    var q := 1.0 / b;
    assert (2.0 * q) * b == 2.0;
  }

  function Except(recs: seq<Rec>, p: nat): seq<Rec>
    requires p < |recs|
  {
    recs[..p] + recs[p + 1..]
  }

  lemma {:induction false} InStateExcept(recs: seq<Rec>, p: nat, s: EvState)
    requires p < |recs|
    ensures InState(recs, s) == InState(Except(recs, p), s) + (if recs[p].state == s then 1 else 0)
  {
    var n := |recs| - 1;
    if p < n {
      InStateExcept(recs[..n], p, s);
      assert Except(recs, p)[..n - 1] == Except(recs[..n], p);
      assert Except(recs, p)[n - 1] == recs[n];
    } else {
      assert Except(recs, p) == recs[..n];
    }
  }

  /** The guard the documentation describes: enough other planes are GOOD. */
  predicate DocumentedMayDemote(cfg: Config, recs: seq<Rec>, p: nat)
    requires p < |recs|
  {
    InState(Except(recs, p), Good) >= ResolveMinActive(cfg, |recs|)
  }

  /** The documented guard is the stronger one, and the two differ exactly when the other
      GOOD planes are too few and the other UNKNOWN planes make up for them. */
  lemma GuardsDifferIff(cfg: Config, recs: seq<Rec>, p: nat)
    requires p < |recs|
    ensures DocumentedMayDemote(cfg, recs, p) ==> MayDemote(cfg, recs, p)
    ensures var floor, others := ResolveMinActive(cfg, |recs|), Except(recs, p);
            var good, unknown := InState(others, Good), InState(others, Unknown);
            MayDemote(cfg, recs, p) != DocumentedMayDemote(cfg, recs, p) <==> good < floor <= good + unknown
  {
    UsableSplits(recs);
    InStateExcept(recs, p, Good);
    InStateExcept(recs, p, Unknown);
  }

  /** A demotion leaves the documented floor of GOOD planes exactly if the documented
      guard held where it was made. */
  lemma DocumentedDemotionIff(cfg: Config, n: nat, evs: seq<Event>, e: Event, p: nat)
    requires p < n
    requires !Run(cfg, n, evs)[p].state.AssumedBad? && Run(cfg, n, evs + [e])[p].state.AssumedBad?
    ensures InState(Run(cfg, n, evs + [e]), Good) >= ResolveMinActive(cfg, n) <==>
            DocumentedMayDemote(cfg, Run(cfg, n, evs), p)
  {
    RunSnoc(cfg, n, evs, e);
    var before, after := Run(cfg, n, evs), Run(cfg, n, evs + [e]);
    StepIsLocal(cfg, before, e);
    InStateExcept(after, p, Good);
    assert Except(after, p) == Except(before, p);
  }

  /** From the moment no plane is UNKNOWN the documented floor holds for ever. */
  lemma DocumentedFloorOnceKnown(cfg: Config, n: nat, evs: seq<Event>, i: nat)
    requires n >= 1 && i <= |evs| && forall p :: 0 <= p < n ==> !Run(cfg, n, evs[..i])[p].state.Unknown?
    ensures InState(Run(cfg, n, evs), Good) >= ResolveMinActive(cfg, n)
  {
    forall p | 0 <= p < n ensures Run(cfg, n, evs)[p].state != Unknown {
      NeverUnknownAgain(cfg, n, evs, i, p);
    }
    NoneInState(Run(cfg, n, evs), Unknown);
    FloorHolds(cfg, n, evs);
    UsableSplits(Run(cfg, n, evs));
  }

  /** Before that it can fail: with floor 1, timeouts demote one of two fresh planes
      although no plane is GOOD. */
  lemma DemotedWithNoneGood()
    ensures var cfg := Config(1, 5, 0.05, 2, Some(1));
            var after := Run(cfg, 2, [Event(0, ProbeTimeout)]);
            && ResolveMinActive(cfg, 2) == 1 && after[0].state == AssumedBad && after[1].state == Unknown
            && InState(after, Good) == 0
  {
    var cfg := Config(1, 5, 0.05, 2, Some(1));
    var evs := [Event(0, ProbeTimeout)];
    assert evs[..0] == [];
    UsableInitial(2);
    assert MayDemote(cfg, Initial(2), 0);
    NoneInState(Run(cfg, 2, evs), Good);
  }

  /** m timeouts of one plane, and as many as demote a plane on each of the first k. */
  function Timeouts(p: nat, m: nat): seq<Event> {
    if m == 0 then [] else Timeouts(p, m - 1) + [Event(p, ProbeTimeout)]
  }

  function AllTimeOut(cfg: Config, k: nat): seq<Event> {
    if k == 0 then [] else AllTimeOut(cfg, k - 1) + Timeouts(k - 1, Max(1, cfg.probeFail))
  }

  /** Failing plane p, m times so far: it is demoted at the last time, if the floor allows it. */
  ghost predicate FailedTimes(cfg: Config, before: seq<Rec>, p: nat, m: nat, after: seq<Rec>) {
    && p < |before| == |after| && (forall q :: 0 <= q < |before| && q != p ==> after[q] == before[q])
    && if m < Max(1, cfg.probeFail)
       then after[p].state.Unknown? && after[p].timeouts == m && Usable(after) == Usable(before)
       else Usable(after) == Usable(before) - (if Usable(before) > ResolveMinActive(cfg, |before|) then 1 else 0)
  }

  lemma OneTimeoutMore(cfg: Config, before: seq<Rec>, p: nat, m: nat, after: seq<Rec>)
    requires m < Max(1, cfg.probeFail) && FailedTimes(cfg, before, p, m, after)
    ensures FailedTimes(cfg, before, p, m + 1, Apply(cfg, after, Event(p, ProbeTimeout)))
  {
    UsableUpdate(after, p, Apply(cfg, after, Event(p, ProbeTimeout))[p]);
  }

  lemma {:induction false} PlaneTimesOut(cfg: Config, n: nat, evs: seq<Event>, p: nat, m: nat)
    requires p < n && Run(cfg, n, evs)[p] == FRESH && m <= Max(1, cfg.probeFail)
    ensures FailedTimes(cfg, Run(cfg, n, evs), p, m, Run(cfg, n, evs + Timeouts(p, m)))
  {
    if m == 0 {
      assert evs + [] == evs;
    } else {
      PlaneTimesOut(cfg, n, evs, p, m - 1);
      assert evs + Timeouts(p, m) == evs + Timeouts(p, m - 1) + [Event(p, ProbeTimeout)];
      RunSnoc(cfg, n, evs + Timeouts(p, m - 1), Event(p, ProbeTimeout));
      OneTimeoutMore(cfg, Run(cfg, n, evs), p, m - 1, Run(cfg, n, evs + Timeouts(p, m - 1)));
    }
  }

  ghost predicate FirstFailed(cfg: Config, n: nat, k: nat, recs: seq<Rec>) {
    |recs| == n && (forall p :: k <= p < n ==> recs[p] == FRESH) && Usable(recs) == Max(ResolveMinActive(cfg, n), n - k)
  }

  lemma OneMoreFailed(cfg: Config, n: nat, k: nat, before: seq<Rec>, after: seq<Rec>)
    requires k < n && FirstFailed(cfg, n, k, before) && FailedTimes(cfg, before, k, Max(1, cfg.probeFail), after)
    ensures FirstFailed(cfg, n, k + 1, after)
  {
  }

  lemma {:induction false} TimeoutsDemote(cfg: Config, n: nat, k: nat)
    requires 1 <= n && k <= n
    ensures FirstFailed(cfg, n, k, Run(cfg, n, AllTimeOut(cfg, k)))
  {
    if k == 0 {
      UsableInitial(n);
    } else {
      var before, after := Run(cfg, n, AllTimeOut(cfg, k - 1)), Run(cfg, n, AllTimeOut(cfg, k));
      TimeoutsDemote(cfg, n, k - 1);
      PlaneTimesOut(cfg, n, AllTimeOut(cfg, k - 1), k - 1, Max(1, cfg.probeFail));
      OneMoreFailed(cfg, n, k - 1, before, after);
    }
  }

  /** When every plane fails the floor is what is left: by default half of the planes,
      rounded down but at least one, and else what is configured, at least one and at most all. */
  lemma FloorIsReached(cfg: Config, n: nat)
    requires n >= 1
    ensures var left, floor := Usable(Run(cfg, n, AllTimeOut(cfg, n))), cfg.minActivePlanes;
            && (floor.None? && n > 1 ==> n - 1 <= 2 * left <= n) && (floor.None? && n == 1 ==> left == 1)
            && (floor.Some? && floor.value < 1 ==> left == 1)
            && (floor.Some? && 1 <= floor.value <= n ==> left == floor.value)
            && (floor.Some? && floor.value > n ==> left == n)
  {
    TimeoutsDemote(cfg, n, n);
  }

  // ---------------------------------------------------------------------
  // Hysteresis: the counters are functions of the plane's signal history
  // ---------------------------------------------------------------------

  predicate IsBadWindow(cfg: Config, s: Signal) {
    s.Window? && s.expected > 0 && LossRatio(s.seen, s.expected) > cfg.lossThreshold
  }

  predicate IsQuietWindow(cfg: Config, s: Signal) {
    s.Window? && s.expected > 0 && LossRatio(s.seen, s.expected) <= cfg.lossThreshold
    && LossRatio(s.seen, s.expected) <= cfg.lossThreshold / 2.0
  }

  /** Plane p's probe results at the end of the history that are all timeouts. */
  function TrailingTimeouts(evs: seq<Event>, p: nat): nat {
    if evs == [] then 0 else
    var init, e := evs[..|evs| - 1], evs[|evs| - 1];
    if e.plane != p || e.signal.Window? then TrailingTimeouts(init, p)
    else if e.signal.ProbeTimeout? then TrailingTimeouts(init, p) + 1
    else 0
  }

  /** Plane p's probe results at the end of the history that are all successes. */
  function TrailingOks(evs: seq<Event>, p: nat): nat {
    if evs == [] then 0 else
    var init, e := evs[..|evs| - 1], evs[|evs| - 1];
    if e.plane != p || e.signal.Window? then TrailingOks(init, p)
    else if e.signal.ProbeOk? then TrailingOks(init, p) + 1
    else 0
  }

  /** Plane p's bad windows since its last quiet one. */
  function BadSinceQuiet(cfg: Config, evs: seq<Event>, p: nat): nat {
    if evs == [] then 0 else
    var init, e := evs[..|evs| - 1], evs[|evs| - 1];
    if e.plane != p then BadSinceQuiet(cfg, init, p)
    else if IsBadWindow(cfg, e.signal) then BadSinceQuiet(cfg, init, p) + 1
    else if IsQuietWindow(cfg, e.signal) then 0
    else BadSinceQuiet(cfg, init, p)
  }

  /** The events up to and including plane p's last demotion. */
  function LastDemotion(cfg: Config, n: nat, evs: seq<Event>, p: nat): (k: nat)
    requires p < n
    ensures k <= |evs|
  {
    if evs == [] then 0 else
    var init := evs[..|evs| - 1];
    if !Run(cfg, n, init)[p].state.AssumedBad? && Run(cfg, n, evs)[p].state.AssumedBad? then |evs|
    else LastDemotion(cfg, n, init, p)
  }

  lemma {:induction false} TimeoutsFollowHistory(cfg: Config, n: nat, evs: seq<Event>, p: nat)
    requires p < n
    ensures Run(cfg, n, evs)[p].timeouts == TrailingTimeouts(evs, p)
  {
    if evs != [] {
      TimeoutsFollowHistory(cfg, n, evs[..|evs| - 1], p);
    }
  }

  lemma {:induction false} LossFollowsHistory(cfg: Config, n: nat, evs: seq<Event>, p: nat)
    requires p < n
    ensures Run(cfg, n, evs)[p].lossWindows == BadSinceQuiet(cfg, evs, p)
  {
    if evs != [] {
      LossFollowsHistory(cfg, n, evs[..|evs| - 1], p);
    }
  }

  lemma SuccessesStep(cfg: Config, mayDemote: bool, r: Rec, s: Signal)
    ensures var r' := RecStep(cfg, mayDemote, r, s);
            r'.successes ==
              if s.ProbeOk? then r.successes + 1
              else if s.ProbeTimeout? || (!r.state.AssumedBad? && r'.state.AssumedBad?) then 0
              else r.successes
  {
  }

  lemma NoDemotionOnOk(cfg: Config, mayDemote: bool, r: Rec)
    ensures !r.state.AssumedBad? ==> !RecStep(cfg, mayDemote, r, ProbeOk).state.AssumedBad?
  {
  }

  lemma TrailingOksSnoc(evs: seq<Event>, e: Event, p: nat)
    ensures TrailingOks(evs + [e], p) ==
              if e.plane != p || e.signal.Window? then TrailingOks(evs, p)
              else if e.signal.ProbeOk? then TrailingOks(evs, p) + 1
              else 0
  {
    assert (evs + [e])[..|evs|] == evs;
  }

  lemma {:induction false} OksFollowHistory(cfg: Config, n: nat, evs: seq<Event>, p: nat)
    requires p < n
    ensures Run(cfg, n, evs)[p].successes == TrailingOks(evs[LastDemotion(cfg, n, evs, p)..], p)
  {
    if evs != [] {
      var init, e := evs[..|evs| - 1], evs[|evs| - 1];
      OksFollowHistory(cfg, n, init, p);
      var recs, d := Run(cfg, n, init), LastDemotion(cfg, n, init, p);
      TrailingOksSnoc(init[d..], e, p);
      assert evs[d..] == init[d..] + [e] && evs[|evs|..] == [];
      if e.plane == p {
        SuccessesStep(cfg, MayDemote(cfg, recs, p), recs[p], e.signal);
        NoDemotionOnOk(cfg, MayDemote(cfg, recs, p), recs[p]);
      }
    }
  }

  lemma WhenPromoted(cfg: Config, mayDemote: bool, r: Rec, s: Signal)
    requires !r.state.Good?
    ensures RecStep(cfg, mayDemote, r, s).state.Good? <==>
              s.ProbeOk? && r.successes + 1 >= cfg.probeRecover && r.lossWindows == 0
  {
  }

  /** A plane enters Good exactly when a probe succeeds, its last `probeRecover`
      results since its last demotion all succeeded, and no bad loss window came
      after its last quiet one. */
  lemma PromotedIff(cfg: Config, n: nat, evs: seq<Event>, e: Event, p: nat)
    requires p < n
    ensures var before := Run(cfg, n, evs)[p].state;
            var evs' := evs + [e];
            !before.Good? && Run(cfg, n, evs')[p].state.Good? <==>
              && !before.Good? && e == Event(p, ProbeOk)
              && TrailingOks(evs'[LastDemotion(cfg, n, evs, p)..], p) >= cfg.probeRecover
              && BadSinceQuiet(cfg, evs, p) == 0
  {
    RunSnoc(cfg, n, evs, e);
    LossFollowsHistory(cfg, n, evs, p);
    OksFollowHistory(cfg, n, evs, p);
    var d := LastDemotion(cfg, n, evs, p);
    assert (evs + [e])[d..] == evs[d..] + [e];
    assert (evs[d..] + [e])[..|evs| - d] == evs[d..];
    var recs := Run(cfg, n, evs);
    if e.plane == p && !recs[p].state.Good? {
      WhenPromoted(cfg, MayDemote(cfg, recs, p), recs[p], e.signal);
    }
  }

  /** Neither quiet nor promoted: until a quiet loss window comes, a plane with a bad
      one behind it stays out of GOOD, whatever its probes do; and ASSUMED_BAD stays. */
  lemma {:induction false} NotGoodUntilQuiet(cfg: Config, n: nat, evs: seq<Event>, k: nat, p: nat)
    requires p < n && k <= |evs| && BadSinceQuiet(cfg, evs[..k], p) > 0
    requires forall i :: k <= i < |evs| && evs[i].plane == p ==> !IsQuietWindow(cfg, evs[i].signal)
    ensures BadSinceQuiet(cfg, evs, p) > 0
    ensures !Run(cfg, n, evs[..k])[p].state.Good? ==> !Run(cfg, n, evs)[p].state.Good?
    ensures Run(cfg, n, evs[..k])[p].state.AssumedBad? ==> Run(cfg, n, evs)[p].state.AssumedBad?
  {
    if k == |evs| {
      assert evs[..k] == evs;
    } else {
      var init, e := evs[..|evs| - 1], evs[|evs| - 1];
      assert init[..k] == evs[..k] && evs == init + [e];
      NotGoodUntilQuiet(cfg, n, init, k, p);
      PromotedIff(cfg, n, init, e, p);
      if Run(cfg, n, init)[p].state.AssumedBad? {
        StaysOutOfUnknown(cfg, n, init, e, p);
      }
    }
  }

  lemma StaysOutOfUnknown(cfg: Config, n: nat, evs: seq<Event>, e: Event, p: nat)
    requires p < n && !Run(cfg, n, evs)[p].state.Unknown?
    ensures !Run(cfg, n, evs + [e])[p].state.Unknown?
  {
    RunSnoc(cfg, n, evs, e);
  }

  ghost predicate ReachesThreshold(cfg: Config, evs: seq<Event>, e: Event) {
    || (e.signal.ProbeTimeout? && TrailingTimeouts(evs + [e], e.plane) >= cfg.probeFail)
    || (IsBadWindow(cfg, e.signal) && BadSinceQuiet(cfg, evs + [e], e.plane) >= cfg.lossDemote)
  }

  /** A plane enters AssumedBad exactly on its `probeFail`-th straight timeout
      or later, or its `lossDemote`-th bad window since the last quiet one or
      later, when more than `minActive` planes are usable. */
  lemma DemotedIff(cfg: Config, n: nat, evs: seq<Event>, e: Event, p: nat)
    requires p < n
    ensures var before := Run(cfg, n, evs);
            !before[p].state.AssumedBad? && Run(cfg, n, evs + [e])[p].state.AssumedBad? <==>
              && !before[p].state.AssumedBad? && e.plane == p && ReachesThreshold(cfg, evs, e)
              && Usable(before) > ResolveMinActive(cfg, n)
  {
    RunSnoc(cfg, n, evs, e);
    TimeoutsFollowHistory(cfg, n, evs, p);
    LossFollowsHistory(cfg, n, evs, p);
    assert (evs + [e])[..|evs|] == evs;
  }

  /** No demotion is lost except to the floor: an event that reaches a threshold
      leaves its plane AssumedBad, or counts one suppression with exactly
      `minActive` usable planes. Suppressions are counted at no other time. */
  lemma NoDemotionLost(cfg: Config, n: nat, evs: seq<Event>, e: Event)
    requires e.plane < n
    ensures var before, after := Run(cfg, n, evs), Run(cfg, n, evs + [e]);
            var minActive := ResolveMinActive(cfg, n);
            && (ReachesThreshold(cfg, evs, e) ==>
                  || after[e.plane].state.AssumedBad?
                  || (after[e.plane].suppressed == before[e.plane].suppressed + 1 && Usable(after) == minActive))
            && (after[e.plane].suppressed != before[e.plane].suppressed ==>
                  ReachesThreshold(cfg, evs, e) && !after[e.plane].state.AssumedBad? && Usable(after) == minActive)
  {
    var p := e.plane;
    var recs := Run(cfg, n, evs);
    RunSnoc(cfg, n, evs, e);
    TimeoutsFollowHistory(cfg, n, evs, p);
    LossFollowsHistory(cfg, n, evs, p);
    FloorHolds(cfg, n, evs);
    assert (evs + [e])[..|evs|] == evs;
    UsableUpdate(recs, p, Apply(cfg, recs, e)[p]);
  }

  /** Once a plane has left Unknown it never returns. */
  lemma {:induction false} NeverUnknownAgain(cfg: Config, n: nat, evs: seq<Event>, i: nat, p: nat)
    requires p < n && i <= |evs| && !Run(cfg, n, evs[..i])[p].state.Unknown?
    ensures !Run(cfg, n, evs)[p].state.Unknown?
  {
    if i == |evs| {
      assert evs[..i] == evs;
    } else {
      var init := evs[..|evs| - 1];
      assert init[..i] == evs[..i];
      NeverUnknownAgain(cfg, n, init, i, p);
    }
  }

  /** An event leaves the other planes' records alone, and its own plane's
      transition count moves exactly with the state. */
  lemma StepIsLocal(cfg: Config, recs: seq<Rec>, e: Event)
    ensures forall p :: 0 <= p < |recs| && p != e.plane ==> Apply(cfg, recs, e)[p] == recs[p]
    ensures e.plane < |recs| ==>
              var b, a := recs[e.plane], Apply(cfg, recs, e)[e.plane];
              && a.transitions == b.transitions + (if a.state != b.state then 1 else 0)
              && a.lastLoss == (if e.signal.Window? && e.signal.expected > 0
                                then LossRatio(e.signal.seen, e.signal.expected) else b.lastLoss)
  {
  }
}
