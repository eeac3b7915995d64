/** Pairing loss reports with the sender's own windows, and feeding them to the
    EV table (srv6_fabric/mrc/loss_compute.py). */
module LossCompute {
  import opened Wrappers
  import opened Wire
  import opened EvSpec
  import opened EvTable
  import LossWindow

  datatype SentWindow = SentWindow(startNs: int, endNs: int, sent: seq<nat>, windowId: nat) {
    /** Rounds down, also below zero. */
    function MidpointNs(): int { (startNs + endNs) / 2 }
  }

  /** As far from the start as from the end, to within one nanosecond. */
  lemma MidpointIsMiddle(w: SentWindow)
    ensures -1 <= (w.MidpointNs() - w.startNs) - (w.endNs - w.MidpointNs()) <= 0
  {
  }

  function Skew(w: SentWindow, target: int): nat {
    if w.MidpointNs() >= target then w.MidpointNs() - target else target - w.MidpointNs()
  }

  /** A window is within d of the target when its middle is, the half nanosecond rounded down. */
  lemma WithinSkewIff(w: SentWindow, target: int, d: nat)
    ensures Skew(w, target) <= d <==> 2 * (target - d) <= w.startNs + w.endNs <= 2 * (target + d) + 1
  {
  }

  /** The last `capacity` windows pushed. */
  function Recent(pushed: seq<SentWindow>, capacity: nat): seq<SentWindow> {
    if |pushed| <= capacity then pushed else pushed[|pushed| - capacity..]
  }

  /** A pushed window is in reach until `capacity` more were pushed, and then never again. */
  lemma RecentIff(pushed: seq<SentWindow>, capacity: nat, i: nat)
    requires i < |pushed|
    ensures |Recent(pushed, capacity)| <= capacity
    ensures i + capacity >= |pushed| <==>
            i >= |pushed| - |Recent(pushed, capacity)|
            && Recent(pushed, capacity)[i - (|pushed| - |Recent(pushed, capacity)|)] == pushed[i]
  {
  }

  /** The window the scan ends on. */
  function Closest(ring: seq<SentWindow>, target: int, maxSkew: int): Option<SentWindow> {
    if ring == [] then None else
    var best, w := Closest(ring[..|ring| - 1], target, maxSkew), ring[|ring| - 1];
    if Skew(w, target) <= maxSkew && (best.None? || Skew(w, target) < Skew(best.value, target)) then Some(w) else best
  }

  /** Window i is within reach, none is nearer, and every earlier one is farther. */
  ghost predicate Wins(ring: seq<SentWindow>, target: int, maxSkew: int, i: nat)
    requires i < |ring|
  {
    && Skew(ring[i], target) <= maxSkew
    && (forall j :: 0 <= j < |ring| ==> Skew(ring[j], target) >= Skew(ring[i], target))
    && (forall j :: 0 <= j < i ==> Skew(ring[j], target) > Skew(ring[i], target))
  }

  ghost predicate WinsWith(ring: seq<SentWindow>, target: int, maxSkew: int, w: SentWindow) {
    exists i :: 0 <= i < |ring| && w == ring[i] && Wins(ring, target, maxSkew, i)
  }

  /** `find_closest` is the earliest-pushed window of least skew among those within
      `maxSkew`, and None exactly when there is none. */
  lemma {:induction false} ClosestIsEarliestOfLeastSkew(ring: seq<SentWindow>, target: int, maxSkew: int)
    ensures match Closest(ring, target, maxSkew)
            case None => forall i :: 0 <= i < |ring| ==> Skew(ring[i], target) > maxSkew
            case Some(w) => WinsWith(ring, target, maxSkew, w)
  {
    if ring != [] {
      var init, n := ring[..|ring| - 1], |ring| - 1;
      ClosestIsEarliestOfLeastSkew(init, target, maxSkew);
      var best := Closest(init, target, maxSkew);
      if best.Some? {
        var i :| 0 <= i < n && best.value == init[i] && Wins(init, target, maxSkew, i);
        if Skew(ring[n], target) < Skew(ring[i], target) {
          LastWins(ring, target, maxSkew, i);
        } else {
          FormerWins(ring, target, maxSkew, i);
        }
      } else {
        AloneWins(ring, init, target, maxSkew);
      }
    }
  }

  lemma AloneWins(ring: seq<SentWindow>, init: seq<SentWindow>, target: int, maxSkew: int)
    requires ring != [] && init == ring[..|ring| - 1] && forall i :: 0 <= i < |init| ==> Skew(init[i], target) > maxSkew
    ensures forall i :: 0 <= i < |init| ==> Skew(ring[i], target) > maxSkew
    ensures Skew(ring[|ring| - 1], target) <= maxSkew ==> Wins(ring, target, maxSkew, |ring| - 1)
  {
    assert forall j :: 0 <= j < |init| ==> ring[j] == init[j];
  }

  lemma FormerWins(ring: seq<SentWindow>, target: int, maxSkew: int, i: nat)
    requires i < |ring| - 1 && Wins(ring[..|ring| - 1], target, maxSkew, i)
    requires Skew(ring[|ring| - 1], target) >= Skew(ring[i], target)
    ensures Wins(ring, target, maxSkew, i)
  {
    assert forall j :: 0 <= j < |ring| - 1 ==> ring[j] == ring[..|ring| - 1][j];
  }

  lemma LastWins(ring: seq<SentWindow>, target: int, maxSkew: int, i: nat)
    requires i < |ring| - 1 && Wins(ring[..|ring| - 1], target, maxSkew, i)
    requires Skew(ring[|ring| - 1], target) < Skew(ring[i], target)
    ensures Wins(ring, target, maxSkew, |ring| - 1)
  {
    var init := ring[..|ring| - 1];
    assert forall j :: 0 <= j < |init| ==> ring[j] == init[j];
  }

  class SentWindowRing {
    const numPlanes: nat
    const capacity: nat
    var ring: seq<SentWindow>
    /** Every window ever pushed. */
    ghost var pushed: seq<SentWindow>

    ghost predicate Valid()
      reads this
    {
      ring == Recent(pushed, capacity) && forall w :: w in pushed ==> |w.sent| == numPlanes
    }

    constructor (numPlanes: nat, capacity: nat)
      requires numPlanes > 0 && capacity > 0
      ensures Valid() && pushed == [] && this.numPlanes == numPlanes && this.capacity == capacity
    {
      this.numPlanes, this.capacity, ring, pushed := numPlanes, capacity, [], [];
    }

    method Push(window: SentWindow) returns (r: Result<()>)
      requires Valid()
      modifies this
      ensures Valid()
      ensures r == if |window.sent| == numPlanes then Ok(()) else Err(WrongPlaneCount)
      ensures pushed == if r.Ok? then old(pushed) + [window] else old(pushed)
    {
      if |window.sent| != numPlanes { return Err(WrongPlaneCount); }
      ring := if |ring| < capacity then ring + [window] else (ring + [window])[|ring| + 1 - capacity..];
      pushed := pushed + [window];
      return Ok(());
    }

    method FindClosest(targetNs: int, maxSkewNs: int) returns (best: Option<SentWindow>)
      requires Valid()
      ensures best == Closest(ring, targetNs, maxSkewNs)
    {
      best := None;
      var bestSkew := maxSkewNs + 1;
      for i := 0 to |ring|
        invariant best == Closest(ring[..i], targetNs, maxSkewNs)
        invariant bestSkew == if best.None? then maxSkewNs + 1 else Skew(best.value, targetNs)
        invariant best.Some? ==> Skew(best.value, targetNs) <= maxSkewNs
      {
        assert ring[..i + 1][..i] == ring[..i];
        var skew := Skew(ring[i], targetNs);
        if skew < bestSkew {
          bestSkew := skew;
          best := Some(ring[i]);
        }
      }
      assert ring[..|ring|] == ring;
    }
  }

  // ---------------------------------------------------------------------
  // The loss ratio
  // ---------------------------------------------------------------------

  function ComputeLossRatio(seen: nat, sentOrExpected: int): real {
    if sentOrExpected <= 0 || seen >= sentOrExpected then 0.0
    else 1.0 - seen as real / sentOrExpected as real
  }

  lemma QuotientIs(q: real, b: real, c: real)
    requires b > 0.0 && q * b == c
    ensures c / b == q
  {
  }

  lemma RatioComplement(a: real, b: real)
    requires b > 0.0
    ensures 1.0 - a / b == (b - a) / b
  {
    var q := a / b;
    assert q * b == a;
    QuotientIs(1.0 - q, b, b - a);
  }

  /** The helper's ratio is the one the EV table computes, and lies in [0, 1]. */
  lemma RatiosAgree(seen: nat, d: nat)
    ensures 0.0 <= ComputeLossRatio(seen, d) <= 1.0
    ensures d > 0 ==> ComputeLossRatio(seen, d) == LossRatio(seen, d)
  {
    if 0 < d && seen < d {
      RatioComplement(seen as real, d as real);
      assert (d - seen) as real == d as real - seen as real;
    } else if d > 0 {
      ZeroOver(d as real);
    }
  }

  lemma ZeroOver(b: real)
    requires b > 0.0
    ensures 0.0 / b == 0.0
  {
  }

  // ---------------------------------------------------------------------
  // Applying a report
  // ---------------------------------------------------------------------

  datatype Stats = Stats(processed: nat, updated: nat, skipped: nat, paired: nat, fellBack: nat, noWindow: nat)

  /** What a call does: the loss windows it records, in order, its counters and its outcome. */
  datatype Fusion = Fusion(windows: seq<Event>, stats: Stats, outcome: Result<()>)

  predicate BySender(paired: Option<SentWindow>, rec: PlaneLossRecord) {
    paired.Some? && rec.planeId < |paired.value.sent| && paired.value.sent[rec.planeId] > 0
  }

  /** The sender's own count where it has one, else the receiver's. */
  function Denominator(paired: Option<SentWindow>, rec: PlaneLossRecord): nat {
    if BySender(paired, rec) then paired.value.sent[rec.planeId] else rec.expected
  }

  /** What to do with a record: skip it, raise, or record it over a denominator. */
  datatype Choice = Skip | Raise(error: Error) | Use(denominator: nat, bySender: bool)

  function Chosen(paired: Option<SentWindow>, rec: PlaneLossRecord): Choice {
    if rec.seen == 0 && rec.expected == 0 then Skip
    else if paired.Some? && rec.planeId >= |paired.value.sent| then Raise(PlaneOutOfRange)
    else if Denominator(paired, rec) == 0 then Skip
    else Use(Denominator(paired, rec), BySender(paired, rec))
  }

  function Counted(stats: Stats, bySender: bool): Stats {
    stats.(updated := stats.updated + 1,
           paired := stats.paired + (if bySender then 1 else 0),
           fellBack := stats.fellBack + (if bySender then 0 else 1))
  }

  function Begun(stats: Stats, noWindow: bool): Stats {
    stats.(processed := stats.processed + 1, noWindow := stats.noWindow + (if noWindow then 1 else 0))
  }

  function FuseOne(n: nat, known: bool, paired: Option<SentWindow>, f: Fusion, rec: PlaneLossRecord): Fusion {
    if f.outcome.Err? then f else
    match Chosen(paired, rec)
    case Skip => f.(stats := f.stats.(skipped := f.stats.skipped + 1))
    case Raise(e) => f.(outcome := Err(e))
    case Use(d, bySender) =>
      if !known then f.(outcome := Err(UnknownTenant))
      else if rec.planeId >= n then f.(outcome := Err(PlaneOutOfRange))
      else Fusion(f.windows + [Event(rec.planeId, Window(rec.seen, d))], Counted(f.stats, bySender), Ok(()))
  }

  function FuseAll(n: nat, known: bool, paired: Option<SentWindow>, stats: Stats,
          planes: seq<PlaneLossRecord>): Fusion {
    if planes == [] then Fusion([], stats, Ok(()))
    else FuseOne(n, known, paired, FuseAll(n, known, paired, stats, planes[..|planes| - 1]), planes[|planes| - 1])
  }

  /** Nothing at all for a report without records. */
  function Fuse(n: nat, known: bool, paired: Option<SentWindow>, stats: Stats, planes: seq<PlaneLossRecord>): Fusion {
    if planes == [] then Fusion([], stats, Ok(()))
    else FuseAll(n, known, paired, Begun(stats, paired.None?), planes)
  }

  function ApplyAll(cfg: Config, recs: seq<Rec>, evs: seq<Event>): seq<Rec> {
    if evs == [] then recs else Apply(cfg, ApplyAll(cfg, recs, evs[..|evs| - 1]), evs[|evs| - 1])
  }

  /** A tenant's loss windows, recorded one after the other. */
  function Replay(cfg: Config, t: map<string, seq<Rec>>, tenant: string, evs: seq<Event>): map<string, seq<Rec>> {
    if tenant in t then t[tenant := ApplyAll(cfg, t[tenant], evs)] else t
  }

  lemma ReplaySnoc(cfg: Config, t: map<string, seq<Rec>>, tenant: string, evs: seq<Event>, e: Event)
    ensures Replay(cfg, t, tenant, evs + [e]) == ApplyTable(cfg, Replay(cfg, t, tenant, evs), TenantEvent(tenant, e))
  {
    assert (evs + [e])[..|evs|] == evs;
  }

  class LossFusionStats {
    var processed: nat
    var updated: nat
    var skipped: nat
    var paired: nat
    var fellBack: nat
    var noWindow: nat

    constructor ()
      ensures View() == Stats(0, 0, 0, 0, 0, 0)
    {
      processed, updated, skipped, paired, fellBack, noWindow := 0, 0, 0, 0, 0, 0;
    }

    function View(): Stats
      reads this
    {
      Stats(processed, updated, skipped, paired, fellBack, noWindow)
    }

    method Begin(noPairingWindow: bool)
      modifies this
      ensures View() == Begun(old(View()), noPairingWindow)
    {
      processed := processed + 1;
      if noPairingWindow { noWindow := noWindow + 1; }
    }

    method Skip()
      modifies this
      ensures View() == old(View()).(skipped := old(View()).skipped + 1)
    {
      skipped := skipped + 1;
    }

    method Count(usedSenderCounter: bool)
      modifies this
      ensures View() == Counted(old(View()), usedSenderCounter)
    {
      updated := updated + 1;
      if usedSenderCounter {
        paired := paired + 1;
      } else {
        fellBack := fellBack + 1;
      }
    }
  }

  method ApplyLossReport(table: EvStateTable, tenant: string, report: LossReport, ring: SentWindowRing,
                         receivedAtNs: int, maxWindowSkewNs: int, stats: LossFusionStats)
    returns (r: Result<()>)
    requires table.Valid() && ring.Valid() && stats !in table.repr && ring !in table.repr
    modifies table.repr, stats
    ensures table.Valid()
    ensures var f := Fuse(table.numPlanes, tenant in table.tenants, Closest(ring.ring, receivedAtNs, maxWindowSkewNs),
                          old(stats.View()), report.planes);
            && r == f.outcome && stats.View() == f.stats
            && table.Table() == Replay(table.cfg, old(table.Table()), tenant, f.windows)
  {
    if report.planes == [] { return Ok(()); }
    ghost var start := table.Table();
    var paired := ring.FindClosest(receivedAtNs, maxWindowSkewNs);
    stats.Begin(paired.None?);
    assert table.Valid() && table.Table() == start;
    r := ApplyRecords(table, tenant, report.planes, paired, stats, start);
  }

  method ApplyRecords(table: EvStateTable, tenant: string, planes: seq<PlaneLossRecord>, paired: Option<SentWindow>,
                      stats: LossFusionStats, ghost start: map<string, seq<Rec>>)
    returns (r: Result<()>)
    requires table.Valid() && stats !in table.repr && table.Table() == start
    modifies table.repr, stats
    ensures table.Valid()
    ensures var f := FuseAll(table.numPlanes, tenant in table.tenants, paired, old(stats.View()), planes);
            && r == f.outcome && stats.View() == f.stats
            && table.Table() == Replay(table.cfg, start, tenant, f.windows)
  {
    ghost var n, known, begun := table.numPlanes, tenant in table.tenants, stats.View();
    ghost var f := Fusion([], begun, Ok(()));
    for i := 0 to |planes|
      invariant table.Valid() && f == FuseAll(n, known, paired, begun, planes[..i])
      invariant f.outcome == Ok(()) && stats.View() == f.stats
      invariant table.Table() == Replay(table.cfg, start, tenant, f.windows)
    {
      FuseSnoc(n, known, paired, begun, planes, i);
      r := ApplyRecord(table, tenant, planes[i], paired, stats, start, f);
      f := FuseAll(n, known, paired, begun, planes[..i + 1]);
      if r.Err? {
        RestUnread(n, known, paired, begun, planes, i + 1);
        return;
      }
    }
    assert planes[..|planes|] == planes;
    return Ok(());
  }

  lemma FuseSnoc(n: nat, known: bool, paired: Option<SentWindow>, stats: Stats, planes: seq<PlaneLossRecord>, i: nat)
    requires i < |planes|
    ensures FuseAll(n, known, paired, stats, planes[..i + 1])
         == FuseOne(n, known, paired, FuseAll(n, known, paired, stats, planes[..i]), planes[i])
    ensures FuseAll(n, known, paired, stats, planes[..i]).outcome == Ok(()) ==>
              var o := FuseAll(n, known, paired, stats, planes[..i + 1]).outcome; o.Err? || o == Ok(())
  {
    assert planes[..i + 1][..i] == planes[..i];
  }

  method Choose(paired: Option<SentWindow>, rec: PlaneLossRecord) returns (c: Choice)
    ensures c == Chosen(paired, rec)
  {
    if rec.seen == 0 && rec.expected == 0 { return Skip; }
    var denominator := 0;
    var usedSenderCounter := false;
    if paired.Some? {
      if rec.planeId >= |paired.value.sent| { return Raise(PlaneOutOfRange); }
      var senderSent := paired.value.sent[rec.planeId];
      if senderSent > 0 {
        denominator := senderSent;
        usedSenderCounter := true;
      }
    }
    if denominator == 0 {
      denominator := rec.expected;
      if denominator == 0 { return Skip; }
    }
    return Use(denominator, usedSenderCounter);
  }

  method RecordWindow(table: EvStateTable, tenant: string, rec: PlaneLossRecord, denominator: nat,
                      ghost start: map<string, seq<Rec>>, ghost windows: seq<Event>)
    returns (r: Result<()>)
    requires table.Valid() && table.Table() == Replay(table.cfg, start, tenant, windows)
    modifies table.repr
    ensures table.Valid()
    ensures r == (if tenant !in table.tenants then Err(UnknownTenant)
                  else if rec.planeId >= table.numPlanes then Err(PlaneOutOfRange)
                  else Ok(()))
    ensures table.Table() == Replay(table.cfg, start, tenant,
              if r.Ok? then windows + [Event(rec.planeId, Window(rec.seen, denominator))] else windows)
  {
    ReplaySnoc(table.cfg, start, tenant, windows, Event(rec.planeId, Window(rec.seen, denominator)));
    r := table.RecordLossWindow(tenant, rec.planeId, rec.seen, denominator);
  }

  /** Recording a window and counting it. */
  method UseRecord(table: EvStateTable, tenant: string, rec: PlaneLossRecord, denominator: nat, usedSenderCounter: bool,
                   stats: LossFusionStats, ghost start: map<string, seq<Rec>>, ghost windows: seq<Event>)
    returns (r: Result<()>)
    requires table.Valid() && stats !in table.repr && table.Table() == Replay(table.cfg, start, tenant, windows)
    modifies table.repr, stats
    ensures table.Valid()
    ensures r == (if tenant !in table.tenants then Err(UnknownTenant)
                  else if rec.planeId >= table.numPlanes then Err(PlaneOutOfRange)
                  else Ok(()))
    ensures table.Table() == Replay(table.cfg, start, tenant,
              if r.Ok? then windows + [Event(rec.planeId, Window(rec.seen, denominator))] else windows)
    ensures stats.View() == if r.Ok? then Counted(old(stats.View()), usedSenderCounter) else old(stats.View())
  {
    r := RecordWindow(table, tenant, rec, denominator, start, windows);
    if r.Ok? { stats.Count(usedSenderCounter); }
  }

  /** The body of the loop for one record. */
  method ApplyRecord(table: EvStateTable, tenant: string, rec: PlaneLossRecord, paired: Option<SentWindow>,
                     stats: LossFusionStats, ghost start: map<string, seq<Rec>>, ghost f: Fusion)
    returns (r: Result<()>)
    requires table.Valid() && stats !in table.repr
    requires f.outcome == Ok(()) && stats.View() == f.stats
    requires table.Table() == Replay(table.cfg, start, tenant, f.windows)
    modifies table.repr, stats
    ensures table.Valid()
    ensures var g := FuseOne(table.numPlanes, tenant in table.tenants, paired, f, rec);
            r == g.outcome && stats.View() == g.stats && table.Table() == Replay(table.cfg, start, tenant, g.windows)
  {
    var choice := Choose(paired, rec);
    match choice
    case Skip =>
      stats.Skip();
      return Ok(());
    case Raise(e) =>
      return Err(e);
    case Use(denominator, usedSenderCounter) =>
      r := UseRecord(table, tenant, rec, denominator, usedSenderCounter, stats, start, f.windows);
  }

  /** A raise leaves the rest of the report unread. */
  lemma {:induction false} RestUnread(n: nat, known: bool, paired: Option<SentWindow>, stats: Stats,
          planes: seq<PlaneLossRecord>, i: nat)
    requires i <= |planes| && FuseAll(n, known, paired, stats, planes[..i]).outcome.Err?
    ensures FuseAll(n, known, paired, stats, planes) == FuseAll(n, known, paired, stats, planes[..i])
  {
    if i < |planes| {
      var init := planes[..|planes| - 1];
      assert init[..i] == planes[..i];
      RestUnread(n, known, paired, stats, init, i);
    } else {
      assert planes[..i] == planes;
    }
  }

  /** Every recorded window is one update and used exactly one of the two
      denominators; a report applied to its end was updated or skipped record by record. */
  lemma {:induction false} CountersBalance(n: nat, known: bool, paired: Option<SentWindow>, stats: Stats,
          planes: seq<PlaneLossRecord>)
    ensures var f := FuseAll(n, known, paired, stats, planes);
            && |f.windows| == f.stats.updated - stats.updated
            && |f.windows| == (f.stats.paired - stats.paired) + (f.stats.fellBack - stats.fellBack)
            && (f.outcome.Ok? ==> |f.windows| + (f.stats.skipped - stats.skipped) == |planes|)
            && f.stats.processed == stats.processed && f.stats.noWindow == stats.noWindow
  {
    if planes != [] {
      CountersBalance(n, known, paired, stats, planes[..|planes| - 1]);
    }
  }

  /** A report of one record: with a paired window in which the sender sent something on
      the plane, the sender's count is the denominator whatever the receiver expected;
      else the receiver's is. Which of the two it was is counted. */
  lemma OneRecord(n: nat, paired: Option<SentWindow>, stats: Stats, rec: PlaneLossRecord)
    requires rec.planeId < n && rec.expected > 0 && (paired.Some? ==> |paired.value.sent| == n)
    ensures var f := Fuse(n, true, paired, stats, [rec]);
            && f.outcome == Ok(()) && f.stats.updated == stats.updated + 1
            && (paired.Some? && paired.value.sent[rec.planeId] > 0 ==>
                  && f.windows == [Event(rec.planeId, Window(rec.seen, paired.value.sent[rec.planeId]))]
                  && f.stats.paired == stats.paired + 1 && f.stats.fellBack == stats.fellBack)
            && (paired.None? || paired.value.sent[rec.planeId] == 0 ==>
                  && f.windows == [Event(rec.planeId, Window(rec.seen, rec.expected))]
                  && f.stats.paired == stats.paired && f.stats.fellBack == stats.fellBack + 1)
            && f.stats.noWindow == stats.noWindow + (if paired.None? then 1 else 0)
            && f.stats.processed == stats.processed + 1 && f.stats.skipped == stats.skipped
  {
    var begun := Begun(stats, paired.None?);
    assert [rec][..0] == [];
    assert FuseAll(n, true, paired, begun, []) == Fusion([], begun, Ok(()));
  }

  // ---------------------------------------------------------------------
  // Reports of a receiver
  // ---------------------------------------------------------------------

  /** One loss window per record, in order. */
  function WindowsOf(paired: Option<SentWindow>, planes: seq<PlaneLossRecord>): (w: seq<Event>)
    ensures |w| == |planes|
  {
    if planes == [] then [] else
    var rec := planes[|planes| - 1];
    WindowsOf(paired, planes[..|planes| - 1]) + [Event(rec.planeId, Window(rec.seen, Denominator(paired, rec)))]
  }

  /** A report whose records all have a denominator and a plane the table has is
      applied to its end and skips none of them. */
  lemma {:induction false} CleanReportIsFolded(n: nat, paired: Option<SentWindow>, stats: Stats,
          planes: seq<PlaneLossRecord>)
    requires paired.Some? ==> |paired.value.sent| == n
    requires forall x :: x in planes ==> x.planeId < n && x.expected > 0
    ensures var f := FuseAll(n, true, paired, stats, planes);
            f.outcome.Ok? && f.windows == WindowsOf(paired, planes) && f.stats.skipped == stats.skipped
  {
    if planes != [] {
      CleanReportIsFolded(n, paired, stats, planes[..|planes| - 1]);
      assert planes[|planes| - 1] in planes;
    }
  }

  // ---------------------------------------------------------------------
  // Repeated planes: is the latest record the one that counts?
  // ---------------------------------------------------------------------

  function Without(planes: seq<PlaneLossRecord>, p: int): seq<PlaneLossRecord> {
    if planes == [] then [] else
    var last := planes[|planes| - 1];
    Without(planes[..|planes| - 1], p) + (if last.planeId == p then [] else [last])
  }

  /** Each plane's last record alone. */
  function Latest(planes: seq<PlaneLossRecord>): seq<PlaneLossRecord> {
    if planes == [] then [] else
    var last := planes[|planes| - 1];
    Without(Latest(planes[..|planes| - 1]), last.planeId) + [last]
  }

  predicate Counts(paired: Option<SentWindow>, rec: PlaneLossRecord) { Chosen(paired, rec).Use? }

  /** The loss windows of the records that count. */
  function Uses(paired: Option<SentWindow>, planes: seq<PlaneLossRecord>): seq<Event> {
    if planes == [] then [] else
    var rec := planes[|planes| - 1];
    Uses(paired, planes[..|planes| - 1])
    + (if Counts(paired, rec) then [Event(rec.planeId, Window(rec.seen, Denominator(paired, rec)))] else [])
  }

  ghost predicate InRange(n: nat, paired: Option<SentWindow>, planes: seq<PlaneLossRecord>) {
    (paired.Some? ==> |paired.value.sent| == n) && forall x :: x in planes ==> x.planeId < n
  }

  /** A report on planes the table has records a window for each record that counts. */
  lemma {:induction false} FuseRecordsUses(n: nat, paired: Option<SentWindow>, stats: Stats,
                                           planes: seq<PlaneLossRecord>)
    requires InRange(n, paired, planes)
    ensures var f := FuseAll(n, true, paired, stats, planes); f.outcome == Ok(()) && f.windows == Uses(paired, planes)
  {
    if planes != [] {
      FuseRecordsUses(n, paired, stats, planes[..|planes| - 1]);
      assert planes[|planes| - 1] in planes;
    }
  }

  ghost predicate UsesPlane(paired: Option<SentWindow>, planes: seq<PlaneLossRecord>, p: int) {
    exists i :: 0 <= i < |planes| && planes[i].planeId == p && Counts(paired, planes[i])
  }

  lemma UsesPlaneSnoc(paired: Option<SentWindow>, planes: seq<PlaneLossRecord>, p: int)
    requires planes != []
    ensures var init, rec := planes[..|planes| - 1], planes[|planes| - 1];
            UsesPlane(paired, planes, p) <==> UsesPlane(paired, init, p) || (rec.planeId == p && Counts(paired, rec))
  {
    var init := planes[..|planes| - 1];
    if UsesPlane(paired, init, p) {
      var i :| 0 <= i < |init| && init[i].planeId == p && Counts(paired, init[i]);
      assert planes[i] == init[i];
    }
    if UsesPlane(paired, planes, p) {
      var i :| 0 <= i < |planes| && planes[i].planeId == p && Counts(paired, planes[i]);
      assert i < |init| ==> init[i] == planes[i];
    }
  }

  lemma {:induction false} UsesHasPlane(paired: Option<SentWindow>, planes: seq<PlaneLossRecord>, p: int)
    ensures UsesPlane(paired, planes, p) <==> exists e :: e in Uses(paired, planes) && e.plane == p
  {
    if planes != [] {
      UsesHasPlane(paired, planes[..|planes| - 1], p);
      UsesPlaneSnoc(paired, planes, p);
    }
  }

  lemma {:induction false} WithoutUses(paired: Option<SentWindow>, planes: seq<PlaneLossRecord>, p: int)
    ensures |Uses(paired, Without(planes, p))| <= |Uses(paired, planes)|
    ensures if UsesPlane(paired, planes, p) then |Uses(paired, Without(planes, p))| < |Uses(paired, planes)|
            else Uses(paired, Without(planes, p)) == Uses(paired, planes)
  {
    if planes != [] {
      var init, last := planes[..|planes| - 1], planes[|planes| - 1];
      WithoutUses(paired, init, p);
      UsesPlaneSnoc(paired, planes, p);
      if last.planeId != p {
        assert (Without(init, p) + [last])[..|Without(init, p)|] == Without(init, p);
      } else {
        assert Without(planes, p) == Without(init, p);
      }
    }
  }

  /** No record that counts is followed by another of its plane. */
  ghost predicate LastOnesCount(paired: Option<SentWindow>, planes: seq<PlaneLossRecord>) {
    forall i, j :: 0 <= i < j < |planes| && planes[i].planeId == planes[j].planeId ==> !Counts(paired, planes[i])
  }

  lemma LastOnesSnoc(paired: Option<SentWindow>, planes: seq<PlaneLossRecord>)
    requires planes != []
    ensures var init, rec := planes[..|planes| - 1], planes[|planes| - 1];
            LastOnesCount(paired, planes) <==> LastOnesCount(paired, init) && !UsesPlane(paired, init, rec.planeId)
  {
    var init, n := planes[..|planes| - 1], |planes| - 1;
    assert forall i :: 0 <= i < n ==> init[i] == planes[i];
    if LastOnesCount(paired, planes) {
      forall i | 0 <= i < n && init[i].planeId == planes[n].planeId ensures !Counts(paired, init[i]) {
        assert planes[i].planeId == planes[n].planeId;
      }
    }
  }

  lemma {:induction false} LatestUses(paired: Option<SentWindow>, planes: seq<PlaneLossRecord>)
    ensures |Uses(paired, Latest(planes))| <= |Uses(paired, planes)|
    ensures if LastOnesCount(paired, planes) then Uses(paired, Latest(planes)) == Uses(paired, planes)
            else |Uses(paired, Latest(planes))| < |Uses(paired, planes)|
  {
    if planes != [] {
      var init, last := planes[..|planes| - 1], planes[|planes| - 1];
      var kept := Without(Latest(init), last.planeId);
      LatestUses(paired, init);
      WithoutUses(paired, Latest(init), last.planeId);
      LastOnesSnoc(paired, planes);
      UsesHasPlane(paired, init, last.planeId);
      UsesHasPlane(paired, Latest(init), last.planeId);
      assert (kept + [last])[..|kept|] == kept;
    }
  }

  lemma {:induction false} LatestInRange(n: nat, paired: Option<SentWindow>, planes: seq<PlaneLossRecord>)
    requires InRange(n, paired, planes)
    ensures InRange(n, paired, Latest(planes))
  {
    if planes != [] {
      var init := planes[..|planes| - 1];
      LatestInRange(n, paired, init);
      WithoutIsPart(Latest(init), planes[|planes| - 1].planeId);
    }
  }

  lemma {:induction false} WithoutIsPart(planes: seq<PlaneLossRecord>, p: int)
    ensures forall x :: x in Without(planes, p) ==> x in planes
  {
    if planes != [] {
      WithoutIsPart(planes[..|planes| - 1], p);
    }
  }

  /** A report on planes the table has is applied as if each plane's latest record were
      its only one exactly when no record that counts is followed by another of its plane. */
  lemma LatestWinsIff(n: nat, paired: Option<SentWindow>, stats: Stats, planes: seq<PlaneLossRecord>)
    requires InRange(n, paired, planes)
    ensures Fuse(n, true, paired, stats, planes).windows == Fuse(n, true, paired, stats, Latest(planes)).windows <==>
            LastOnesCount(paired, planes)
  {
    LatestInRange(n, paired, planes);
    FuseRecordsUses(n, paired, Begun(stats, paired.None?), planes);
    FuseRecordsUses(n, paired, Begun(stats, paired.None?), Latest(planes));
    LatestUses(paired, planes);
  }

  /** Where every record has a denominator, exactly when no plane is repeated. */
  lemma LatestWinsIffDistinct(n: nat, paired: Option<SentWindow>, stats: Stats, planes: seq<PlaneLossRecord>)
    requires InRange(n, paired, planes) && forall x :: x in planes ==> x.expected > 0
    ensures Fuse(n, true, paired, stats, planes).windows == Fuse(n, true, paired, stats, Latest(planes)).windows <==>
            forall i, j :: 0 <= i < j < |planes| ==> planes[i].planeId != planes[j].planeId
  {
    LatestWinsIff(n, paired, stats, planes);
    forall i | 0 <= i < |planes| ensures Counts(paired, planes[i]) { assert planes[i] in planes; }
  }

  const LOSSY := LossFields(0, 1, 10, 1)
  const TWICE: Config := Config(3, 5, 0.05, 2, None)

  /** A payload that repeats a plane decodes as it is, and demotes the plane that its
      latest record alone would have left UNKNOWN. */
  lemma RepeatedPlaneCountsTwice(stats: Stats)
    ensures var b := EncodedLossReport(0, [LOSSY, LOSSY]);
            && b.Ok? && DecodedLossReport(b.value) == Ok(LossReport(0, [LOSSY, LOSSY]))
            && Latest([LOSSY, LOSSY]) == [LOSSY]
    ensures var recs := ApplyAll(TWICE, Initial(2), Fuse(2, true, None, stats, [LOSSY, LOSSY]).windows);
            |recs| == 2 && recs[0].state == AssumedBad
    ensures var recs := ApplyAll(TWICE, Initial(2), Fuse(2, true, None, stats, [LOSSY]).windows);
            |recs| == 2 && recs[0].state == Unknown
  {
    LossReportRoundTrip(0, [LOSSY, LOSSY], []);
    var b := EncodedLossReport(0, [LOSSY, LOSSY]).value;
    assert b + [] == b;
    RepeatedIsDropped();
    var e := Event(0, Window(1, 10));
    OneLossyWindow(stats, e);
    TwoLossyWindows(stats, e);
  }

  lemma RepeatedIsDropped()
    ensures Latest([LOSSY, LOSSY]) == [LOSSY]
  {
    assert [LOSSY, LOSSY][..1] == [LOSSY] && [LOSSY][..0] == [];
    assert Latest([LOSSY]) == [LOSSY] && Without([LOSSY], 0) == [];
  }

  lemma LossyUses()
    ensures var e := Event(0, Window(1, 10)); Uses(None, [LOSSY]) == [e] && Uses(None, [LOSSY, LOSSY]) == [e, e]
  {
    assert [LOSSY][..0] == [] && [LOSSY, LOSSY][..1] == [LOSSY];
    assert Uses(None, [LOSSY]) == [Event(0, Window(1, 10))];
  }

  lemma OneLossyWindow(stats: Stats, e: Event)
    requires e == Event(0, Window(1, 10))
    ensures Fuse(2, true, None, stats, [LOSSY]).windows == [e]
    ensures ApplyAll(TWICE, Initial(2), [e]) == [FRESH.(lossWindows := 1, lastLoss := LossRatio(1, 10)), FRESH]
  {
    FuseRecordsUses(2, None, Begun(stats, true), [LOSSY]);
    LossyUses();
    assert [e][..0] == [];
    LossRatioTimes(1, 10);
  }

  lemma TwoLossyWindows(stats: Stats, e: Event)
    requires e == Event(0, Window(1, 10))
    ensures Fuse(2, true, None, stats, [LOSSY, LOSSY]).windows == [e, e]
    ensures |ApplyAll(TWICE, Initial(2), [e, e])| == 2 && ApplyAll(TWICE, Initial(2), [e, e])[0].state == AssumedBad
  {
    FuseRecordsUses(2, None, Begun(stats, true), [LOSSY, LOSSY]);
    LossyUses();
    OneLossyWindow(stats, e);
    LossRatioTimes(1, 10);
    assert [e, e][..1] == [e];
    TwoUsable(ApplyAll(TWICE, Initial(2), [e]));
  }

  lemma TwoUsable(recs: seq<Rec>)
    requires |recs| == 2 && !recs[0].state.AssumedBad? && !recs[1].state.AssumedBad?
    ensures Usable(recs) == 2
  {
    assert recs[..1] == [recs[0]] && recs[..1][..0] == [];
    assert Usable(recs[..1]) == 1;
  }

  /** End to end: whatever the receiver counted, the report it sends decodes to what
      it snapshotted, and applying it records one loss window for each plane that saw
      traffic, over the sender's count where that is positive and the receiver's
      otherwise. */
  lemma SnapshotReachesTable<K>(n: nat, ops: seq<LossWindow.Op<K>>, key: K, payload: seq<Byte>,
                                paired: Option<SentWindow>, stats: Stats)
    requires paired.Some? ==> |paired.value.sent| == n
    requires var f := LossWindow.FlowAt(LossWindow.Run(n, ops), n, key);
             && LossWindow.ReportOf(f).Ok?
             && Ok(payload) == EncodedLossReport(LossWindow.ReportOf(f).value.windowId,
                     LossWindow.ReportOf(f).value.planes)
    ensures DecodedLossReport(payload) == LossWindow.ReportOf(LossWindow.FlowAt(LossWindow.Run(n, ops), n, key))
    ensures var planes := DecodedLossReport(payload).value.planes;
            var f := Fuse(n, true, paired, stats, planes);
            && f.outcome.Ok? && f.windows == WindowsOf(paired, planes) && f.stats.skipped == stats.skipped
            && f.stats.updated - stats.updated == |planes|
            && |planes| == (f.stats.paired - stats.paired) + (f.stats.fellBack - stats.fellBack)
  {
    LossWindow.ReportsEncode(n, ops, key, []);
    assert payload + [] == payload;
    var planes := DecodedLossReport(payload).value.planes;
    var begun := Begun(stats, paired.None?);
    CleanReportIsFolded(n, paired, begun, planes);
    CountersBalance(n, true, paired, begun, planes);
  }
}
