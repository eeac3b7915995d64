/** Per-flow, per-plane reception counters on the receiver, cut into windows
    (srv6_fabric/mrc/loss_window.py). */
module LossWindow {
  import opened Arith
  import opened Wrappers
  import opened Wire

  const U32_MAX: nat := 0xFFFF_FFFF

  datatype CounterFields = CounterFields(seen: nat, minSeq: int, maxSeq: int, maxGap: nat, lastSeq: int)

  const EMPTY := CounterFields(0, -1, -1, 0, -1)

  type Counters = c: CounterFields | c.minSeq <= c.maxSeq witness EMPTY

  function CountStep(c: Counters, sq: nat): Counters {
    CounterFields(
      c.seen + 1,
      if c.minSeq < 0 || sq < c.minSeq then sq else c.minSeq,
      Max(c.maxSeq, sq),
      if c.lastSeq >= 0 then Max(c.maxGap, sq - c.lastSeq) else c.maxGap,
      sq)
  }

  /** The counters of a window in which these seqs arrived, in this order. */
  function Count(arrivals: seq<nat>): Counters {
    if arrivals == [] then EMPTY
    else CountStep(Count(arrivals[..|arrivals| - 1]), arrivals[|arrivals| - 1])
  }

  // ---------------------------------------------------------------------
  // What the counters say about the arrivals
  // ---------------------------------------------------------------------

  /** The size of the forward jump into arrival i, if it is one. */
  function Jump(arrivals: seq<nat>, i: nat): nat
    requires 0 < i < |arrivals|
  {
    if arrivals[i] > arrivals[i - 1] then arrivals[i] - arrivals[i - 1] else 0
  }

  ghost predicate Extremes(c: Counters, arrivals: seq<nat>)
    requires arrivals != []
  {
    && c.seen == |arrivals| && c.lastSeq == arrivals[|arrivals| - 1]
    && c.minSeq in arrivals && c.maxSeq in arrivals
    && forall x :: x in arrivals ==> c.minSeq <= x <= c.maxSeq
  }

  lemma ExtremesStep(c: Counters, init: seq<nat>, sq: nat)
    requires if init == [] then c == EMPTY else Extremes(c, init)
    ensures Extremes(CountStep(c, sq), init + [sq])
  {
  }

  lemma {:induction false} CountIsExtremes(arrivals: seq<nat>)
    requires arrivals != []
    ensures Extremes(Count(arrivals), arrivals)
  {
    var init, sq := arrivals[..|arrivals| - 1], arrivals[|arrivals| - 1];
    if init != [] {
      CountIsExtremes(init);
    }
    ExtremesStep(Count(init), init, sq);
    assert arrivals == init + [sq];
  }

  /** `max_gap` is the largest forward jump between consecutive arrivals. */
  lemma {:induction false} MaxGapIsLargestJump(arrivals: seq<nat>)
    ensures forall i :: 0 < i < |arrivals| ==> Jump(arrivals, i) <= Count(arrivals).maxGap
    ensures Count(arrivals).maxGap == 0 || exists i :: 0 < i < |arrivals| && Jump(arrivals, i) == Count(arrivals).maxGap
  {
    if arrivals != [] {
      var init, n := arrivals[..|arrivals| - 1], |arrivals| - 1;
      MaxGapIsLargestJump(init);
      assert forall i :: 0 < i < n ==> Jump(arrivals, i) == Jump(init, i);
      if n > 0 {
        CountIsExtremes(init);
        assert Count(arrivals).maxGap == Max(Count(init).maxGap, Jump(arrivals, n));
      }
    }
  }

  lemma GapWithinSpan(arrivals: seq<nat>)
    requires arrivals != []
    ensures var c := Count(arrivals); c.maxGap <= c.maxSeq - c.minSeq
  {
    MaxGapIsLargestJump(arrivals);
    CountIsExtremes(arrivals);
    var c := Count(arrivals);
    if c.maxGap > 0 {
      var i :| 0 < i < |arrivals| && Jump(arrivals, i) == c.maxGap;
      assert arrivals[i] in arrivals && arrivals[i - 1] in arrivals;
    }
  }

  ghost predicate Distinct(arrivals: seq<nat>) {
    forall i, j :: 0 <= i < j < |arrivals| ==> arrivals[i] != arrivals[j]
  }

  ghost predicate Increasing(arrivals: seq<nat>) {
    forall i, j :: 0 <= i < j < |arrivals| ==> arrivals[i] < arrivals[j]
  }

  function Elements(arrivals: seq<nat>): set<nat> { set x | x in arrivals }

  lemma {:induction false} DistinctSize(arrivals: seq<nat>)
    requires Distinct(arrivals)
    ensures |Elements(arrivals)| == |arrivals|
  {
    if arrivals != [] {
      var init, sq := arrivals[..|arrivals| - 1], arrivals[|arrivals| - 1];
      DistinctSize(init);
      assert arrivals == init + [sq];
      assert Elements(arrivals) == Elements(init) + {sq};
      assert forall i :: 0 <= i < |init| ==> arrivals[i] != sq;
    }
  }

  lemma ElementsWithin(c: Counters, arrivals: seq<nat>)
    requires arrivals != [] && Extremes(c, arrivals)
    ensures Elements(arrivals) <= Interval(c.minSeq, c.maxSeq + 1)
  {
  }

  lemma SeenWithinSpan(arrivals: seq<nat>)
    requires arrivals != [] && Distinct(arrivals)
    ensures var c := Count(arrivals); c.seen <= c.maxSeq - c.minSeq + 1
  {
    var c := Count(arrivals);
    CountIsExtremes(arrivals);
    DistinctSize(arrivals);
    ElementsWithin(c, arrivals);
    IntervalSize(c.minSeq, c.maxSeq + 1);
    SubsetSize(Elements(arrivals), Interval(c.minSeq, c.maxSeq + 1));
  }

  /** In-order arrivals: the span is covered by that many gaps of at most the largest. */
  lemma {:induction false} SpanWithinGaps(arrivals: seq<nat>)
    requires arrivals != [] && Increasing(arrivals)
    ensures var c := Count(arrivals);
            c.minSeq == arrivals[0] && c.maxSeq - c.minSeq <= (c.seen - 1) * c.maxGap
  {
    var init, n := arrivals[..|arrivals| - 1], |arrivals| - 1;
    var c := Count(arrivals);
    CountIsExtremes(arrivals);
    if n > 0 {
      SpanWithinGaps(init);
      CountIsExtremes(init);
      var b := Count(init);
      assert b.maxGap <= c.maxGap && c.maxSeq - b.maxSeq <= c.maxGap;
      OneMoreGap(b.seen - 1, b.maxGap, c.maxGap);
    }
  }

  lemma OneMoreGap(k: nat, a: nat, b: nat)
    requires a <= b
    ensures k * a + b <= (k + 1) * b
  {
    assert (k + 1) * b == k * b + b;
  }

  // ---------------------------------------------------------------------
  // Reports
  // ---------------------------------------------------------------------

  function Expected(c: Counters): nat { if c.minSeq < 0 then 0 else c.maxSeq - c.minSeq + 1 }

  function RecordOf(plane: nat, c: Counters): LossFields {
    LossFields(plane, Min(c.seen, U32_MAX), Min(Expected(c), U32_MAX), Min(c.maxGap, U32_MAX))
  }

  /** No plane that has to be reported has an id above 255. */
  predicate Reportable(planes: seq<Counters>) {
    forall p :: 0x100 <= p < |planes| ==> planes[p].seen == 0
  }

  /** The records with plane k's, if it saw traffic. */
  function Extended(planes: seq<Counters>, k: nat, r: seq<PlaneLossRecord>): seq<PlaneLossRecord>
    requires k < |planes| && Reportable(planes)
  {
    if planes[k].seen == 0 then r else r + [RecordOf(k, planes[k])]
  }

  function Records(planes: seq<Counters>, k: nat): seq<PlaneLossRecord>
    requires k <= |planes| && Reportable(planes)
  {
    if k == 0 then [] else Extended(planes, k - 1, Records(planes, k - 1))
  }

  ghost predicate InPlaneOrder(r: seq<PlaneLossRecord>) {
    forall i, j :: 0 <= i < j < |r| ==> r[i].planeId < r[j].planeId
  }

  /** Every record is of one of the first k planes, and of one that saw traffic. */
  ghost predicate OnlyActive(planes: seq<Counters>, k: nat, r: seq<PlaneLossRecord>)
    requires k <= |planes|
  {
    forall x :: x in r ==> 0 <= x.planeId < k && x == RecordOf(x.planeId, planes[x.planeId]) && x.seen > 0
  }

  ghost predicate AllActive(planes: seq<Counters>, k: nat, r: seq<PlaneLossRecord>)
    requires k <= |planes|
  {
    forall p :: 0 <= p < k && planes[p].seen > 0 ==> RecordOf(p, planes[p]) in r
  }

  lemma NextInOrder(planes: seq<Counters>, k: nat, r: seq<PlaneLossRecord>)
    requires k < |planes| && k <= 0xFF && InPlaneOrder(r) && OnlyActive(planes, k, r)
    ensures InPlaneOrder(r + [RecordOf(k, planes[k])])
  {
    forall i, j | 0 <= i < j < |r| + 1
      ensures (r + [RecordOf(k, planes[k])])[i].planeId < (r + [RecordOf(k, planes[k])])[j].planeId
    {
      assert r[i] in r;
    }
  }

  lemma NextActive(planes: seq<Counters>, k: nat, r: seq<PlaneLossRecord>)
    requires k < |planes| && k <= 0xFF && planes[k].seen > 0 && OnlyActive(planes, k, r) && AllActive(planes, k, r)
    ensures OnlyActive(planes, k + 1, r + [RecordOf(k, planes[k])])
    ensures AllActive(planes, k + 1, r + [RecordOf(k, planes[k])])
  {
  }

  lemma NextIdle(planes: seq<Counters>, k: nat, r: seq<PlaneLossRecord>)
    requires k < |planes| && planes[k].seen == 0 && OnlyActive(planes, k, r) && AllActive(planes, k, r)
    ensures OnlyActive(planes, k + 1, r) && AllActive(planes, k + 1, r)
  {
  }

  /** A report of the first k planes: exactly those that saw traffic, in plane order. */
  ghost predicate ReportsActive(planes: seq<Counters>, k: nat, r: seq<PlaneLossRecord>)
    requires k <= |planes|
  {
    && |r| <= k && (k >= 0x100 ==> |r| <= 0x100)
    && InPlaneOrder(r) && OnlyActive(planes, k, r) && AllActive(planes, k, r)
  }

  lemma NextRecord(planes: seq<Counters>, k: nat, r: seq<PlaneLossRecord>)
    requires k < |planes| && Reportable(planes) && ReportsActive(planes, k, r)
    ensures ReportsActive(planes, k + 1, Extended(planes, k, r))
  {
    if planes[k].seen > 0 {
      NextInOrder(planes, k, r);
      NextActive(planes, k, r);
    } else {
      NextIdle(planes, k, r);
    }
  }

  /** A report holds exactly the planes that saw traffic, in increasing plane order. */
  lemma {:induction false} RecordsInPlaneOrder(planes: seq<Counters>, k: nat)
    requires k <= |planes| && Reportable(planes)
    ensures ReportsActive(planes, k, Records(planes, k))
  {
    if k > 0 {
      RecordsInPlaneOrder(planes, k - 1);
      NextRecord(planes, k - 1, Records(planes, k - 1));
    }
  }

  /** What a record reports of a window of u32 seqs: never a zero denominator, seen
      bounded by it when seqs are distinct, and the largest gap below it except where
      the cap cuts the denominator. */
  lemma RecordBounds(plane: nat, arrivals: seq<nat>)
    requires arrivals != [] && forall x :: x in arrivals ==> U32(x)
    ensures var c, r := Count(arrivals), RecordOf(plane, Count(arrivals));
            && r.expected > 0 && r.seen > 0
            && (Distinct(arrivals) ==> r.seen <= r.expected)
            && (r.maxGap <= r.expected - 1 <==> c.maxGap < U32_MAX)
            && (Increasing(arrivals) ==> r.expected - 1 <= (c.seen - 1) * r.maxGap)
  {
    var c, r := Count(arrivals), RecordOf(plane, Count(arrivals));
    CountIsExtremes(arrivals);
    GapWithinSpan(arrivals);
    if Distinct(arrivals) { SeenWithinSpan(arrivals); }
    if Increasing(arrivals) {
      SpanWithinGaps(arrivals);
      assert r.maxGap == c.maxGap;
    }
  }

  /** The denominator is the span of the seqs that arrived, both ends counted. */
  lemma ExpectedIsSpan(plane: nat, arrivals: seq<nat>, lo: nat, hi: nat)
    requires lo in arrivals && hi in arrivals && forall x :: x in arrivals ==> lo <= x <= hi
    ensures RecordOf(plane, Count(arrivals)).expected == Min(hi - lo + 1, U32_MAX)
    ensures RecordOf(plane, Count(arrivals)).seen == Min(|arrivals|, U32_MAX)
  {
    CountIsExtremes(arrivals);
  }

  /** So with distinct seqs a report counts as lost exactly the seqs of the span that
      never arrived. */
  lemma LostIsMissing(plane: nat, arrivals: seq<nat>, lo: nat, hi: nat)
    requires lo in arrivals && hi in arrivals && forall x :: x in arrivals ==> lo <= x <= hi
    requires Distinct(arrivals) && hi - lo < U32_MAX
    ensures var r := RecordOf(plane, Count(arrivals));
            r.expected - r.seen == |set x | x in Interval(lo, hi + 1) && x !in arrivals|
  {
    ExpectedIsSpan(plane, arrivals, lo, hi);
    DistinctSize(arrivals);
    IntervalSize(lo, hi + 1);
    var span, there := Interval(lo, hi + 1), Elements(arrivals);
    assert there <= span;
    assert (set x | x in span && x !in arrivals) == span - there;
    SubsetSize(there, span);
  }

  /** The one case where a report's largest gap is not below its expected count. */
  lemma CapReachesGap()
    ensures RecordOf(0, Count([0, U32_MAX])) == LossFields(0, 2, U32_MAX, U32_MAX)
  {
    assert [0, U32_MAX][..1] == [0];
    assert Count([0]) == CounterFields(1, 0, 0, 0, 0);
  }

  // ---------------------------------------------------------------------
  // The table, as a value, over whole runs
  // ---------------------------------------------------------------------

  datatype Flow = Flow(nextWindowId: nat, planes: seq<Counters>)

  function NewFlow(n: nat): Flow { Flow(0, Zeroes(n)) }

  function Zeroes(n: nat): seq<Counters> { seq(n, _ => EMPTY) }

  function FlowAt<K>(t: map<K, Flow>, n: nat, key: K): Flow {
    if key in t then t[key] else NewFlow(n)
  }

  function RecordFlow(f: Flow, plane: nat, sq: nat): Flow
    requires plane < |f.planes|
  {
    f.(planes := f.planes[plane := CountStep(f.planes[plane], sq)])
  }

  /** Closing a window. A plane id that does not fit a report record raises after
      the window id has moved on and before the counters are reset. */
  function CloseFlow(f: Flow): Flow {
    Flow((f.nextWindowId + 1) % 0x1_0000, if Reportable(f.planes) then Zeroes(|f.planes|) else f.planes)
  }

  function ReportOf(f: Flow): Result<LossReport> {
    if Reportable(f.planes) then Ok(LossReport(f.nextWindowId, Records(f.planes, |f.planes|))) else Err(FieldOutOfRange)
  }

  datatype Op<K> = Record(key: K, plane: int, sq: int) | Snapshot(key: K) | Forget(key: K)

  predicate Counted<K(==)>(n: nat, op: Op<K>, key: K) {
    op.Record? && op.key == key && 0 <= op.plane < n && U32(op.sq)
  }

  function Do<K>(n: nat, t: map<K, Flow>, op: Op<K>): map<K, Flow>
    requires forall k :: k in t ==> |t[k].planes| == n
  {
    match op
    case Record(key, plane, sq) =>
      if 0 <= plane < n && U32(sq) then t[key := RecordFlow(FlowAt(t, n, key), plane, sq)] else t
    case Snapshot(key) => t[key := CloseFlow(FlowAt(t, n, key))]
    case Forget(key) => t - {key}
  }

  function Run<K(==)>(n: nat, ops: seq<Op<K>>): (t: map<K, Flow>)
    ensures forall k :: k in t ==> |t[k].planes| == n
  {
    if ops == [] then map[] else Do(n, Run(n, ops[..|ops| - 1]), ops[|ops| - 1])
  }

  /** A plane above 255 has counted an arrival since the flow was last forgotten: then
      snapshots raise and reset nothing. */
  function Blocked<K(==)>(n: nat, ops: seq<Op<K>>, key: K): bool {
    if ops == [] then false else
    var before, op := Blocked(n, ops[..|ops| - 1], key), ops[|ops| - 1];
    BlockedAfter(n, before, op, key)
  }

  predicate BlockedAfter<K(==)>(n: nat, before: bool, op: Op<K>, key: K) {
    if op.key != key then before
    else match op
      case Record(_, plane, _) => before || (Counted(n, op, key) && plane >= 0x100)
      case Snapshot(_) => before
      case Forget(_) => false
  }

  function ArrivalsAfter<K(==)>(n: nat, a: seq<nat>, blocked: bool, op: Op<K>, key: K, p: nat): seq<nat> {
    if op.key != key then a
    else match op
      case Record(_, plane, sq) => if plane == p && Counted(n, op, key) then a + [sq] else a
      case Snapshot(_) => if blocked then a else []
      case Forget(_) => []
  }

  /** The arrivals a plane of a flow has counted since its window opened. */
  function Arrivals<K(==)>(n: nat, ops: seq<Op<K>>, key: K, p: nat): seq<nat> {
    if ops == [] then [] else
    var init := ops[..|ops| - 1];
    ArrivalsAfter(n, Arrivals(n, init, key, p), Blocked(n, init, key), ops[|ops| - 1], key, p)
  }

  lemma {:induction false} ArrivalsAreUint32<K>(n: nat, ops: seq<Op<K>>, key: K, p: nat)
    ensures forall x :: x in Arrivals(n, ops, key, p) ==> U32(x)
  {
    if ops != [] {
      ArrivalsAreUint32(n, ops[..|ops| - 1], key, p);
    }
  }

  lemma CountSnoc(a: seq<nat>, sq: nat)
    ensures Count(a + [sq]) == CountStep(Count(a), sq)
  {
    assert (a + [sq])[..|a|] == a;
  }

  /** What an operation does to its own flow. */
  function FlowAfter<K>(n: nat, f: Flow, op: Op<K>): Flow
    requires |f.planes| == n
  {
    match op
    case Record(_, plane, sq) => if 0 <= plane < n && U32(sq) then RecordFlow(f, plane, sq) else f
    case Snapshot(_) => CloseFlow(f)
    case Forget(_) => NewFlow(n)
  }

  lemma DoIsLocal<K>(n: nat, t: map<K, Flow>, op: Op<K>, key: K)
    requires forall k :: k in t ==> |t[k].planes| == n
    ensures FlowAt(Do(n, t, op), n, key) == if op.key == key then FlowAfter(n, FlowAt(t, n, key), op)
            else FlowAt(t, n, key)
  {
  }

  lemma FlowMatchesArrivals<K>(n: nat, f: Flow, a: seq<nat>, op: Op<K>, p: nat)
    requires p < n && |f.planes| == n && f.planes[p] == Count(a)
    ensures |FlowAfter(n, f, op).planes| == n
    ensures FlowAfter(n, f, op).planes[p] == Count(ArrivalsAfter(n, a, !Reportable(f.planes), op, op.key, p))
  {
    match op
    case Record(_, plane, sq) =>
      if plane == p && Counted(n, op, op.key) { CountSnoc(a, sq); }
    case Snapshot(_) =>
    case Forget(_) =>
  }

  lemma FlowMatchesBlocked<K>(n: nat, f: Flow, op: Op<K>)
    requires |f.planes| == n
    ensures |FlowAfter(n, f, op).planes| == n
    ensures !Reportable(FlowAfter(n, f, op).planes) <==> BlockedAfter(n, !Reportable(f.planes), op, op.key)
  {
    var after := FlowAfter(n, f, op);
    if op.Record? && Counted(n, op, op.key) {
      assert after.planes[op.plane].seen > 0;
      assert forall q :: 0 <= q < n && q != op.plane ==> after.planes[q] == f.planes[q];
    }
  }

  /** A snapshot of a reachable table raises exactly if the flow is blocked. */
  lemma {:induction false} TableMatchesBlocked<K>(n: nat, ops: seq<Op<K>>, key: K)
    ensures ReportOf(FlowAt(Run(n, ops), n, key)).Err? <==> Blocked(n, ops, key)
    ensures n <= 0x100 ==> !Blocked(n, ops, key)
  {
    if ops != [] {
      var init := ops[..|ops| - 1];
      TableMatchesBlocked(n, init, key);
      DoIsLocal(n, Run(n, init), ops[|ops| - 1], key);
      FlowMatchesBlocked(n, FlowAt(Run(n, init), n, key), ops[|ops| - 1]);
    }
  }

  lemma RunSnoc<K>(n: nat, ops: seq<Op<K>>, op: Op<K>)
    ensures Run(n, ops + [op]) == Do(n, Run(n, ops), op)
  {
    assert (ops + [op])[..|ops|] == ops;
  }

  /** In every reachable table a flow's counters are exactly those of the arrivals
      since its window opened: flows, planes and windows do not leak into each other. */
  lemma {:induction false} TableMatchesArrivals<K>(n: nat, ops: seq<Op<K>>, key: K, p: nat)
    requires p < n
    ensures FlowAt(Run(n, ops), n, key).planes[p] == Count(Arrivals(n, ops, key, p))
  {
    if ops != [] {
      var init := ops[..|ops| - 1];
      TableMatchesArrivals(n, init, key, p);
      TableMatchesBlocked(n, init, key);
      DoIsLocal(n, Run(n, init), ops[|ops| - 1], key);
      FlowMatchesArrivals(n, FlowAt(Run(n, init), n, key), Arrivals(n, init, key, p), ops[|ops| - 1], p);
    }
  }

  /** So a report of a reachable table, always given with at most 256 planes, encodes,
      decodes to itself, and has a non-zero denominator in every record. */
  lemma ReportsEncode<K>(n: nat, ops: seq<Op<K>>, key: K, trailing: seq<Byte>)
    ensures n <= 0x100 ==> ReportOf(FlowAt(Run(n, ops), n, key)).Ok?
    ensures var f := FlowAt(Run(n, ops), n, key);
            ReportOf(f).Ok? ==>
              var report := ReportOf(f).value;
              && EncodedLossReport(report.windowId, report.planes).Ok?
              && DecodedLossReport(EncodedLossReport(report.windowId, report.planes).value + trailing) == ReportOf(f)
              && forall x :: x in report.planes ==> x.planeId < n && x.seen > 0 && x.expected > 0
  {
    var f := FlowAt(Run(n, ops), n, key);
    TableMatchesBlocked(n, ops, key);
    if ReportOf(f).Ok? {
      WindowIdIsUint16(n, ops, key);
      RecordsInPlaneOrder(f.planes, n);
      LossReportRoundTrip(f.nextWindowId, Records(f.planes, n), trailing);
      forall x | x in Records(f.planes, n) ensures x.expected > 0 {
        TableMatchesArrivals(n, ops, key, x.planeId);
        ArrivalsAreUint32(n, ops, key, x.planeId);
        RecordBounds(x.planeId, Arrivals(n, ops, key, x.planeId));
      }
    }
  }

  function SnapshotsSinceForget<K(==)>(ops: seq<Op<K>>, key: K): nat {
    if ops == [] then 0 else
    var init, op := ops[..|ops| - 1], ops[|ops| - 1];
    if op.key != key || op.Record? then SnapshotsSinceForget(init, key)
    else if op.Forget? then 0 else SnapshotsSinceForget(init, key) + 1
  }

  /** Window ids count a flow's snapshots, modulo 2^16. */
  lemma {:induction false} WindowIdCountsSnapshots<K>(n: nat, ops: seq<Op<K>>, key: K)
    ensures FlowAt(Run(n, ops), n, key).nextWindowId == SnapshotsSinceForget(ops, key) % 0x1_0000
  {
    if ops != [] {
      WindowIdCountsSnapshots(n, ops[..|ops| - 1], key);
    }
  }

  lemma WindowIdIsUint16<K>(n: nat, ops: seq<Op<K>>, key: K)
    ensures U16(FlowAt(Run(n, ops), n, key).nextWindowId)
  {
    WindowIdCountsSnapshots(n, ops, key);
  }

  // ---------------------------------------------------------------------
  // Conservation
  // ---------------------------------------------------------------------

  /** What a report says plane p has seen; an absent plane saw nothing. */
  function SeenIn(planes: seq<PlaneLossRecord>, p: nat): nat {
    if planes == [] then 0
    else (if planes[0].planeId == p then planes[0].seen else 0) + SeenIn(planes[1..], p)
  }

  lemma {:induction false} SeenInSnoc(planes: seq<PlaneLossRecord>, r: PlaneLossRecord, p: nat)
    ensures SeenIn(planes + [r], p) == SeenIn(planes, p) + (if r.planeId == p then r.seen else 0)
  {
    if planes != [] {
      SeenInSnoc(planes[1..], r, p);
      assert (planes + [r])[1..] == planes[1..] + [r];
    }
  }

  lemma {:induction false} SeenInReport(planes: seq<Counters>, k: nat, p: nat)
    requires k <= |planes| && Reportable(planes)
    ensures SeenIn(Records(planes, k), p) == if p < k then Min(planes[p].seen, U32_MAX) else 0
  {
    if k > 0 {
      SeenInReport(planes, k - 1, p);
      var init, c := Records(planes, k - 1), planes[k - 1];
      if c.seen > 0 {
        SeenInSnoc(init, RecordOf(k - 1, c), p);
        assert Records(planes, k) == init + [RecordOf(k - 1, c)];
      } else {
        assert Records(planes, k) == init;
      }
    }
  }

  /** Record calls for plane p of a flow. */
  function Calls<K(==)>(n: nat, ops: seq<Op<K>>, key: K, p: nat): nat {
    if ops == [] then 0 else
    var op := ops[|ops| - 1];
    Calls(n, ops[..|ops| - 1], key, p) + (if Counted(n, op, key) && op.plane == p then 1 else 0)
  }

  /** The sum of plane p's `seen` over every report the flow's snapshots returned. */
  function Reported<K(==)>(n: nat, ops: seq<Op<K>>, key: K, p: nat): nat {
    if ops == [] then 0 else
    var init, op := ops[..|ops| - 1], ops[|ops| - 1];
    var report := ReportOf(FlowAt(Run(n, init), n, key));
    Reported(n, init, key, p) + (if op == Snapshot(key) && report.Ok? then SeenIn(report.value.planes, p) else 0)
  }

  /** Arrivals dropped with a forgotten flow, and arrivals above the u32 cap of a report. */
  function Unreported<K(==)>(n: nat, ops: seq<Op<K>>, key: K, p: nat): nat {
    if ops == [] then 0 else
    var init, op := ops[..|ops| - 1], ops[|ops| - 1];
    var open := |Arrivals(n, init, key, p)|;
    Unreported(n, init, key, p)
    + (if op == Forget(key) then open
       else if op == Snapshot(key) && !Blocked(n, init, key) then Max(0, open - U32_MAX) else 0)
  }

  /** Every record call is in exactly one report, still open, forgotten or capped off. */
  lemma {:induction false} EveryArrivalAccounted<K>(n: nat, ops: seq<Op<K>>, key: K, p: nat)
    requires p < n
    ensures Calls(n, ops, key, p)
         == Reported(n, ops, key, p) + |Arrivals(n, ops, key, p)| + Unreported(n, ops, key, p)
  {
    if ops != [] {
      var init, op := ops[..|ops| - 1], ops[|ops| - 1];
      EveryArrivalAccounted(n, init, key, p);
      TableMatchesBlocked(n, init, key);
      if op == Snapshot(key) && !Blocked(n, init, key) {
        var f := FlowAt(Run(n, init), n, key);
        SeenInReport(f.planes, n, p);
        TableMatchesArrivals(n, init, key, p);
        if Arrivals(n, init, key, p) != [] { CountIsExtremes(Arrivals(n, init, key, p)); }
      }
    }
  }

  // ---------------------------------------------------------------------
  // The table, in place
  // ---------------------------------------------------------------------

  class FlowWindow<K> {
    ghost const key: K
    var nextWindowId: nat
    var planes: seq<Counters>

    constructor (key: K)
      ensures this.key == key && nextWindowId == 0 && planes == []
    {
      this.key, nextWindowId, planes := key, 0, [];
    }

    function View(): Flow
      reads this
    {
      Flow(nextWindowId, planes)
    }

    /** Keeps the window id. */
    method Reset(numPlanes: nat)
      modifies this`planes
      ensures planes == Zeroes(numPlanes)
    {
      planes := Zeroes(numPlanes);
    }

    method Add(plane: nat, sq: nat)
      requires plane < |planes|
      modifies this`planes
      ensures View() == RecordFlow(old(View()), plane, sq)
    {
      var c := Bump(planes[plane], sq);
      planes := planes[plane := c];
    }

    method Close(numPlanes: nat) returns (r: Result<LossReport>)
      requires |planes| == numPlanes
      modifies this
      ensures View() == CloseFlow(old(View())) && r == ReportOf(old(View()))
    {
      var windowId := nextWindowId;
      nextWindowId := (windowId + 1) % 0x1_0000;
      var records := CollectRecords(planes);
      if records.Err? { return Err(records.error); }
      Reset(numPlanes);
      return Ok(LossReport(windowId, records.value));
    }
  }

  method Bump(counters: Counters, sq: nat) returns (bumped: Counters)
    ensures bumped == CountStep(counters, sq)
  {
    var c: CounterFields := counters;
    c := c.(seen := c.seen + 1);
    if c.minSeq < 0 || sq < c.minSeq { c := c.(minSeq := sq); }
    if sq > c.maxSeq { c := c.(maxSeq := sq); }
    if c.lastSeq >= 0 {
      var gap := sq - c.lastSeq;
      if gap > c.maxGap { c := c.(maxGap := gap); }
    }
    return c.(lastSeq := sq);
  }

  /** The loop of a snapshot. Building a record for a plane above 255 raises. */
  method CollectRecords(planes: seq<Counters>) returns (r: Result<seq<PlaneLossRecord>>)
    ensures r == if Reportable(planes) then Ok(Records(planes, |planes|)) else Err(FieldOutOfRange)
  {
    var records: seq<PlaneLossRecord> := [];
    for plane := 0 to |planes|
      invariant forall p :: 0x100 <= p < plane ==> planes[p].seen == 0
      invariant Reportable(planes) ==> records == Records(planes, plane)
    {
      var counters := planes[plane];
      if counters.seen == 0 { continue; }
      if plane > 0xFF { return Err(FieldOutOfRange); }
      records := records + [RecordOf(plane, counters)];
    }
    return Ok(records);
  }

  class LossWindowTable<K(==)> {
    const numPlanes: nat
    var flows: map<K, FlowWindow<K>>

    ghost predicate Valid()
      reads this, flows.Values
    {
      forall k {:trigger flows[k]} :: k in flows ==> flows[k].key == k && |flows[k].planes| == numPlanes
    }

    ghost function Table(): (t: map<K, Flow>)
      requires Valid()
      reads this, flows.Values
      ensures forall k :: k in t ==> |t[k].planes| == numPlanes
    {
      map k | k in flows :: flows[k].View()
    }

    constructor (numPlanes: nat)
      requires numPlanes > 0
      ensures Valid() && this.numPlanes == numPlanes && Table() == map[]
    {
      this.numPlanes, flows := numPlanes, map[];
    }

    /** The flow's window, opened if it has none. */
    method Touch(key: K) returns (flow: FlowWindow<K>)
      requires Valid()
      modifies this`flows
      ensures Valid() && key in flows && flow == flows[key]
      ensures if key in old(flows) then flows == old(flows) else fresh(flow) && flows == old(flows)[key := flow]
      ensures flow.View() == FlowAt(old(Table()), numPlanes, key)
      ensures Table() == old(Table())[key := flow.View()]
    {
      if key in flows {
        flow := flows[key];
      } else {
        flow := new FlowWindow(key);
        flow.Reset(numPlanes);
        flows := flows[key := flow];
      }
    }

    method AddTo(key: K, flow: FlowWindow<K>, plane: nat, sq: nat)
      requires Valid() && key in flows && flows[key] == flow && plane < numPlanes
      modifies flow
      ensures Valid() && Table() == old(Table())[key := RecordFlow(old(flow.View()), plane, sq)]
    {
      flow.Add(plane, sq);
    }

    method Record(key: K, plane: int, sq: int) returns (r: Result<()>)
      requires Valid()
      modifies this`flows, flows.Values
      ensures Valid() && fresh(flows.Values - old(flows.Values))
      ensures r == (if !(0 <= plane < numPlanes) then Err(PlaneOutOfRange)
              else if !U32(sq) then Err(SeqNotUint32) else Ok(()))
      ensures Table() == Do(numPlanes, old(Table()), Op.Record(key, plane, sq))
    {
      if !(0 <= plane < numPlanes) { return Err(PlaneOutOfRange); }
      if sq < 0 || sq > 0xFFFF_FFFF { return Err(SeqNotUint32); }
      var flow := Touch(key);
      AddTo(key, flow, plane, sq);
      return Ok(());
    }

    method CloseWindow(key: K, flow: FlowWindow<K>) returns (r: Result<LossReport>)
      requires Valid() && key in flows && flows[key] == flow
      modifies flow
      ensures Valid() && Table() == old(Table())[key := CloseFlow(old(flow.View()))]
      ensures r == ReportOf(old(flow.View()))
    {
      r := flow.Close(numPlanes);
    }

    method SnapshotAndReset(key: K) returns (r: Result<LossReport>)
      requires Valid()
      modifies this`flows, flows.Values
      ensures Valid() && key in flows
      ensures if key in old(flows) then flows == old(flows)
              else fresh(flows[key]) && flows == old(flows)[key := flows[key]]
      ensures r == ReportOf(FlowAt(old(Table()), numPlanes, key))
      ensures Table() == Do(numPlanes, old(Table()), Snapshot(key))
    {
      var flow := Touch(key);
      r := CloseWindow(key, flow);
    }

    method KnownFlows() returns (keys: set<K>)
      requires Valid()
      ensures keys == Table().Keys
    {
      return flows.Keys;
    }

    method Forget(key: K)
      requires Valid()
      modifies this`flows
      ensures Valid() && flows.Values <= old(flows.Values)
      ensures Table() == Do(numPlanes, old(Table()), Op.Forget(key))
    {
      flows := flows - {key};
    }
  }
}
