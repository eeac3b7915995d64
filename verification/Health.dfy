/** The legacy per-plane liveness filter (srv6_fabric/health.py). */
module Health {
  import opened Policy

  /** One plane's streak counters and whether it is in the down set. */
  datatype Plane = Plane(fails: nat, passes: nat, down: bool)

  function RecordStep(threshold: nat, recovery: nat, p: Plane, ok: bool): Plane {
    if ok then Plane(0, p.passes + 1, p.down && p.passes + 1 < recovery)
    else Plane(p.fails + 1, 0, p.down || p.fails + 1 >= threshold)
  }

  /** A plane that started up, after its probe results so far. */
  function After(threshold: nat, recovery: nat, history: seq<bool>): Plane {
    if history == [] then Plane(0, 0, false)
    else RecordStep(threshold, recovery, After(threshold, recovery, history[..|history| - 1]), history[|history| - 1])
  }

  /** The `run` results up to position i were all `ok`. */
  ghost predicate RunEndsAt(history: seq<bool>, ok: bool, run: nat, i: int) {
    run <= i <= |history| && forall j :: i - run <= j < i ==> history[j] == ok
  }

  lemma {:induction false} StreaksCountRuns(threshold: nat, recovery: nat, history: seq<bool>, run: nat)
    requires run >= 1
    ensures var p := After(threshold, recovery, history);
            && (p.fails >= run <==> RunEndsAt(history, false, run, |history|))
            && (p.passes >= run <==> RunEndsAt(history, true, run, |history|))
  {
    if history != [] {
      var init := history[..|history| - 1];
      if run > 1 {
        StreaksCountRuns(threshold, recovery, init, run - 1);
        ExtendRun(history, false, run);
        ExtendRun(history, true, run);
      }
    }
  }

  lemma ExtendRun(history: seq<bool>, ok: bool, run: nat)
    requires run > 1 && history != []
    ensures RunEndsAt(history, ok, run, |history|) <==>
              RunEndsAt(history[..|history| - 1], ok, run - 1, |history| - 1) && history[|history| - 1] == ok
  {
    var n := |history| - 1;
    if RunEndsAt(history, ok, run, |history|) {
      forall j | n - (run - 1) <= j < n ensures history[..n][j] == ok { assert history[j] == ok; }
    }
    if RunEndsAt(history[..n], ok, run - 1, n) && history[n] == ok {
      forall j | n + 1 - run <= j < n + 1 ensures history[j] == ok {
        if j < n { assert history[..n][j] == ok; }
      }
    }
  }

  /** A run of `threshold` failures ends at i, with no later run of `recovery` successes. */
  ghost predicate FailedSince(threshold: nat, recovery: nat, history: seq<bool>, i: nat) {
    && RunEndsAt(history, false, threshold, i)
    && forall j :: i < j <= |history| ==> !RunEndsAt(history, true, recovery, j)
  }

  lemma RunInPrefix(history: seq<bool>, ok: bool, run: nat, i: int)
    requires history != [] && i < |history|
    ensures RunEndsAt(history, ok, run, i) <==> RunEndsAt(history[..|history| - 1], ok, run, i)
  {
  }

  /** A plane is down exactly when a run of `threshold` failures occurred with no
      later run of `recovery` successes. */
  lemma {:induction false} DownIff(threshold: nat, recovery: nat, history: seq<bool>)
    requires threshold >= 1 && recovery >= 1
    ensures After(threshold, recovery, history).down <==> exists i: nat :: FailedSince(threshold, recovery, history, i)
  {
    if history != [] {
      var n := |history| - 1;
      var init := history[..n];
      DownIff(threshold, recovery, init);
      forall i: nat | i <= n ensures RunEndsAt(history, false, threshold, i) <==> RunEndsAt(init, false, threshold, i) {
        RunInPrefix(history, false, threshold, i);
      }
      forall j: nat | j <= n ensures RunEndsAt(history, true, recovery, j) <==> RunEndsAt(init, true, recovery, j) {
        RunInPrefix(history, true, recovery, j);
      }
      StreaksCountRuns(threshold, recovery, history, recovery);
      StreaksCountRuns(threshold, recovery, history, threshold);
      if i: nat :| FailedSince(threshold, recovery, history, i) && i <= n {
        assert FailedSince(threshold, recovery, init, i);
      }
      if i: nat :| FailedSince(threshold, recovery, init, i) {
        if !RunEndsAt(history, true, recovery, n + 1) { assert FailedSince(threshold, recovery, history, i); }
      }
      if RunEndsAt(history, false, threshold, n + 1) { assert FailedSince(threshold, recovery, history, n + 1); }
      DownStep(threshold, recovery, history);
    }
  }

  /** The last result moves the down flag only at the end of a run. */
  lemma DownStep(threshold: nat, recovery: nat, history: seq<bool>)
    requires threshold >= 1 && recovery >= 1 && history != []
    ensures var before := After(threshold, recovery, history[..|history| - 1]).down;
            After(threshold, recovery, history).down <==>
              (before && !RunEndsAt(history, true, recovery, |history|)) || RunEndsAt(history, false, threshold,
                      |history|)
  {
    StreaksCountRuns(threshold, recovery, history, recovery);
    StreaksCountRuns(threshold, recovery, history, threshold);
  }

  // ---------------------------------------------------------------------
  // The monitor
  // ---------------------------------------------------------------------

  class HealthMonitor {
    /** Shared with the HealthAware policy. */
    const down: DownSet
    const numPlanes: nat
    const threshold: nat
    const recovery: nat
    var failStreak: seq<nat>
    var passStreak: seq<nat>

    ghost predicate Valid()
      reads this
    {
      threshold >= 1 && recovery >= 1 && numPlanes >= 1 && |failStreak| == |passStreak| == numPlanes
    }

    ghost function View(p: nat): Plane
      requires Valid() && p < numPlanes
      reads this, down
    {
      Plane(failStreak[p], passStreak[p], p in down.planes)
    }

    constructor (down: DownSet, numPlanes: nat, threshold: nat, recovery: nat)
      requires threshold >= 1 && recovery >= 1 && numPlanes >= 1
      ensures Valid() && this.down == down && this.numPlanes == numPlanes
      ensures this.threshold == threshold && this.recovery == recovery
      ensures forall p: nat :: p < numPlanes ==> View(p) == Plane(0, 0, p in down.planes)
    {
      this.down, this.numPlanes, this.threshold, this.recovery := down, numPlanes, threshold, recovery;
      failStreak := seq(numPlanes, _ => 0);
      passStreak := seq(numPlanes, _ => 0);
    }

    /** One round: plane p's probe returned results[p]. */
    method Tick(results: seq<bool>)
      requires Valid() && |results| == numPlanes
      modifies this, down
      ensures Valid()
      ensures forall p: nat :: p < numPlanes ==> View(p) == RecordStep(threshold, recovery, old(View(p)), results[p])
      ensures forall d :: !(0 <= d < numPlanes) ==> (d in down.planes <==> d in old(down.planes))
    {
      for plane := 0 to numPlanes
        invariant Valid()
        invariant forall p: nat :: p < plane ==> View(p) == RecordStep(threshold, recovery, old(View(p)), results[p])
        invariant forall p: nat :: plane <= p < numPlanes ==> View(p) == old(View(p))
        invariant forall d :: !(0 <= d < numPlanes) ==> (d in down.planes <==> d in old(down.planes))
      {
        Record(plane, results[plane]);
      }
    }

    method Record(plane: nat, ok: bool)
      requires Valid() && plane < numPlanes
      modifies this, down
      ensures Valid()
      ensures View(plane) == RecordStep(threshold, recovery, old(View(plane)), ok)
      ensures forall p: nat :: p < numPlanes && p != plane ==> View(p) == old(View(p))
      ensures forall d :: d != plane ==> (d in down.planes <==> d in old(down.planes))
    {
      if ok {
        failStreak := failStreak[plane := 0];
        passStreak := passStreak[plane := passStreak[plane] + 1];
        if plane in down.planes && passStreak[plane] >= recovery {
          down.planes := down.planes - {plane};
        }
      } else {
        passStreak := passStreak[plane := 0];
        failStreak := failStreak[plane := failStreak[plane] + 1];
        if plane !in down.planes && failStreak[plane] >= threshold {
          down.planes := down.planes + {plane};
        }
      }
    }
  }
}
