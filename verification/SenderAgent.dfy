/** One turn of each thread body of the sender's MRC agent, over the shared probe
    clock, EV table, sent-window ring and fusion counters (srv6_fabric/mrc/agent.py). */
module SenderAgent {
  import opened Wrappers
  import opened Wire
  import opened EvTable
  import opened LossCompute
  import opened Agent
  import C = ProbeClock
  import E = EvSpec
  import Pr = Protocol

  datatype Identity = Identity(tenant: string, tenantId: int, srcId: int, reportPort: int)

  /** The payload for plane p's next probe, if it encodes. */
  function ProbeFor(id: Identity, c: C.PlaneClock, p: nat, now: int): Option<seq<Byte>> {
    match EncodeProbe(Probe(c.nextReqId, p, now, id.tenantId, id.srcId, id.reportPort))
    case Ok(payload) => Some(payload)
    case Err(_) => None
  }

  /** What a reply does: the clock after it, what it records, and whether that raises. */
  datatype Handled = Handled(clock: C.PlaneClock, results: seq<E.Event>, outcome: Result<()>)

  function HandleReply(c: C.PlaneClock, probe: Probe, now: int): Handled
    requires probe.reqId >= 0 && probe.planeId >= 0
  {
    var after := C.MatchStep(c, probe.reqId, probe.txNs);
    if !C.Answers(c, probe.reqId, probe.txNs) then Handled(after, [], Ok(()))
    else if now < probe.txNs then Handled(after, [], Err(BadRtt))
    else Handled(after, [E.Event(probe.planeId, E.ProbeOk)], Ok(()))
  }

  lemma ReplayNone(cfg: E.Config, t: map<string, seq<E.Rec>>, tenant: string)
    ensures Replay(cfg, t, tenant, []) == t
  {
  }

  function TimeoutEvents(timedOut: seq<(nat, nat)>): (evs: seq<E.Event>)
    ensures |evs| == |timedOut|
  {
    seq(|timedOut|, i requires 0 <= i < |timedOut| => E.Event(timedOut[i].0, E.ProbeTimeout))
  }

  method RecordTimeout(table: EvStateTable, tenant: string, plane: nat, ghost start: map<string, seq<E.Rec>>,
                       ghost done: seq<E.Event>)
    requires table.Valid() && tenant in table.tenants && plane < table.numPlanes
    requires table.Table() == Replay(table.cfg, start, tenant, done)
    modifies table.repr
    ensures table.Valid()
    ensures table.Table() == Replay(table.cfg, start, tenant, done + [E.Event(plane, E.ProbeTimeout)])
  {
    ReplaySnoc(table.cfg, start, tenant, done, E.Event(plane, E.ProbeTimeout));
    var _ := table.RecordProbeResult(tenant, plane, false, None);
  }

  method RecordTimeouts(table: EvStateTable, tenant: string, timedOut: seq<(nat, nat)>)
    requires table.Valid() && tenant in table.tenants && forall x :: x in timedOut ==> x.0 < table.numPlanes
    modifies table.repr
    ensures table.Valid()
    ensures table.Table() == Replay(table.cfg, old(table.Table()), tenant, TimeoutEvents(timedOut))
  {
    ghost var start := table.Table();
    ReplayNone(table.cfg, start, tenant);
    for i := 0 to |timedOut|
      invariant table.Valid() && table.Table() == Replay(table.cfg, start, tenant, TimeoutEvents(timedOut[..i]))
    {
      assert TimeoutEvents(timedOut[..i + 1])
              == TimeoutEvents(timedOut[..i]) + [E.Event(timedOut[i].0, E.ProbeTimeout)];
      RecordTimeout(table, tenant, timedOut[i].0, start, TimeoutEvents(timedOut[..i]));
    }
    assert timedOut[..|timedOut|] == timedOut;
  }

  /** Sweeping, and recording each timeout: separate steps under separate locks. */
  method SweepAndRecord(table: EvStateTable, tenant: string, clock: C.Tracker, now: int)
    requires table.Valid() && tenant in table.tenants && clock.Valid() && clock !in table.repr
    requires clock.numPlanes == table.numPlanes
    modifies clock, table.repr
    ensures table.Valid() && clock.Valid()
    ensures forall p :: 0 <= p < clock.numPlanes ==>
            clock.View(p) == C.SweepStep(old(clock.View(p)), now - clock.probeTimeoutNs)
    ensures table.Table() == Replay(table.cfg, old(table.Table()), tenant,
              TimeoutEvents(C.ExpiredOn(old(clock.outstanding), clock.numPlanes, now - clock.probeTimeoutNs)))
  {
    var timedOut := clock.SweepTimeouts(now);
    RecordTimeouts(table, tenant, timedOut);
  }

  method RecordSuccess(table: EvStateTable, tenant: string, plane: nat, rttNs: int) returns (r: Result<()>)
    requires table.Valid() && tenant in table.tenants && plane < table.numPlanes
    modifies table.repr
    ensures table.Valid() && r == if rttNs < 0 then Err(BadRtt) else Ok(())
    ensures table.Table() == Replay(table.cfg, old(table.Table()), tenant,
                                    if rttNs < 0 then [] else [E.Event(plane, E.ProbeOk)])
  {
    ReplayNone(table.cfg, table.Table(), tenant);
    ReplaySnoc(table.cfg, table.Table(), tenant, [], E.Event(plane, E.ProbeOk));
    assert [] + [E.Event(plane, E.ProbeOk)] == [E.Event(plane, E.ProbeOk)];
    r := table.RecordProbeResult(tenant, plane, true, Some(rttNs));
  }

  /** Matching a reply and recording its result: two steps under two locks. */
  method MatchAndRecord(table: EvStateTable, tenant: string, clock: C.Tracker, probe: Probe,
          now: int) returns (r: Result<()>)
    requires table.Valid() && tenant in table.tenants && clock.Valid() && clock !in table.repr
    requires clock.numPlanes == table.numPlanes && probe.reqId >= 0 && probe.planeId >= 0
    modifies clock, table.repr
    ensures table.Valid() && clock.Valid()
    ensures probe.planeId >= clock.numPlanes ==>
              && r == Err(PlaneOutOfRange) && table.Table() == old(table.Table())
    ensures probe.planeId < clock.numPlanes ==>
              var h := HandleReply(old(clock.View(probe.planeId)), probe, now);
              && r == h.outcome && table.Table() == Replay(table.cfg, old(table.Table()), tenant, h.results)
              && clock.View(probe.planeId) == h.clock
    ensures forall p :: 0 <= p < clock.numPlanes && p != probe.planeId ==> clock.View(p) == old(clock.View(p))
  {
    ReplayNone(table.cfg, table.Table(), tenant);
    var rtt := clock.MatchReply(probe.reqId, probe.planeId, probe.txNs, now);
    if rtt.Err? { return Err(rtt.error); }
    if rtt.value.None? { return Ok(()); }
    r := RecordSuccess(table, tenant, probe.planeId, rtt.value.value);
  }

  class SenderMrcAgent {
    const id: Identity
    const table: EvStateTable
    const probeClock: C.Tracker
    const windows: SenderWindows
    const stats: LossFusionStats
    const maxWindowSkewNs: int

    /** What the probe threads share. */
    ghost predicate ProbeSide()
      reads table, table.repr, probeClock
    {
      && table.Valid() && probeClock.Valid() && probeClock !in table.repr
      && id.tenant in table.tenants && probeClock.numPlanes == table.numPlanes
    }

    /** What the report and window threads share; the probe threads do not touch it. */
    ghost predicate LossSide()
      reads table, table.repr, windows, windows.sentRing, stats
    {
      && table.Valid() && windows.Valid()
      && stats !in table.repr && windows !in table.repr && windows.sentRing !in table.repr
      && id.tenant in table.tenants && windows.numPlanes == table.numPlanes
    }

    /** NUM_PLANES is the table's plane count; the code refuses any other. */
    constructor (id: Identity, table: EvStateTable, probeTimeoutNs: nat, maxOutstanding: nat,
            maxWindowSkewNs: int, now: int)
      requires table.Valid() && table.numPlanes > 0 && id.tenant in table.tenants
      requires probeTimeoutNs > 0 && maxOutstanding > 0
      ensures ProbeSide() && LossSide() && this.table == table && this.id == id
    {
      this.id, this.table, this.maxWindowSkewNs := id, table, maxWindowSkewNs;
      probeClock := new C.Tracker(table.numPlanes, probeTimeoutNs, maxOutstanding);
      windows := new SenderWindows(table.numPlanes, now);
      stats := new LossFusionStats();
    }

    /** The body of the emit loop for one plane. */
    method EmitProbe(plane: nat, now: int) returns (payload: Option<seq<Byte>>)
      requires probeClock.Valid() && plane < probeClock.numPlanes
      modifies probeClock
      ensures probeClock.Valid()
      ensures forall p :: 0 <= p < probeClock.numPlanes ==>
                probeClock.View(p) == if p == plane
                                      then C.EmitStep(probeClock.maxOutstanding, old(probeClock.View(p)), p, now)
                                      else old(probeClock.View(p))
      ensures payload == ProbeFor(id, old(probeClock.View(plane)), plane, now)
    {
      var stamped := probeClock.Emit(plane, now);
      var (reqId, txNs) := stamped.value;
      var encoded := EncodeProbe(Probe(reqId, plane, txNs, id.tenantId, id.srcId, id.reportPort));
      return if encoded.Ok? then Some(encoded.value) else None;
    }

    /** One round of the emit loop: a probe per plane, all stamped with the same
        clock reading. A probe that does not encode is not sent, but is outstanding. */
    method EmitRound(now: int) returns (sent: seq<Option<seq<Byte>>>)
      requires ProbeSide()
      modifies probeClock
      ensures ProbeSide() && |sent| == table.numPlanes
      ensures forall p :: 0 <= p < table.numPlanes ==>
                && probeClock.View(p) == C.EmitStep(probeClock.maxOutstanding, old(probeClock.View(p)), p, now)
                && sent[p] == ProbeFor(id, old(probeClock.View(p)), p, now)
    {
      sent := [];
      ghost var start := probeClock.Views();
      for plane := 0 to probeClock.numPlanes
        invariant probeClock.Valid() && sent == Payloads(id, start, now)[..plane]
        invariant forall p :: 0 <= p < probeClock.numPlanes ==>
                    probeClock.View(p) ==
                      if p < plane then C.EmitStep(probeClock.maxOutstanding, start[p], p, now) else start[p]
      {
        var payload := EmitProbe(plane, now);
        sent := sent + [payload];
      }
    }

    /** One turn of the sweep loop: every timeout is recorded against its plane, in
        the order of the sweep, and none is refused. */
    method SweepRound(now: int)
      requires ProbeSide()
      modifies probeClock, table.repr
      ensures ProbeSide()
      ensures forall p :: 0 <= p < table.numPlanes ==>
                probeClock.View(p) == C.SweepStep(old(probeClock.View(p)), now - probeClock.probeTimeoutNs)
      ensures table.Table() == Replay(table.cfg, old(table.Table()), id.tenant,
                TimeoutEvents(C.ExpiredOn(old(probeClock.outstanding), table.numPlanes,
                        now - probeClock.probeTimeoutNs)))
    {
      SweepAndRecord(table, id.tenant, probeClock, now);
    }

    /** One turn of a reply loop. Malformed and stale replies leave the EV table alone.
        A plane the clock does not have raises; so does a negative RTT, after the probe
        has been taken off the clock. */
    method OnReply(payload: seq<Byte>, now: int) returns (r: Result<()>)
      requires ProbeSide()
      modifies probeClock, table.repr
      ensures ProbeSide()
      ensures DecodeProbeReply(payload).Err? ==>
                && r == Ok(()) && table.Table() == old(table.Table())
                && forall p :: 0 <= p < table.numPlanes ==> probeClock.View(p) == old(probeClock.View(p))
      ensures DecodeProbeReply(payload).Ok? ==>
                var probe := DecodeProbeReply(payload).value.probe;
                && 0 <= probe.planeId && 0 <= probe.reqId
                && (probe.planeId >= table.numPlanes ==>
                          r == Err(PlaneOutOfRange) && table.Table() == old(table.Table()))
                && (probe.planeId < table.numPlanes ==>
                      var h := HandleReply(old(probeClock.View(probe.planeId)), probe, now);
                      && r == h.outcome && table.Table() == Replay(table.cfg, old(table.Table()), id.tenant, h.results)
                      && probeClock.View(probe.planeId) == h.clock)
                && forall p :: 0 <= p < table.numPlanes && p != probe.planeId ==>
                          probeClock.View(p) == old(probeClock.View(p))
    {
      var decoded := DecodeProbeReply(payload);
      if decoded.Err? { return Ok(()); }
      DecodeProbeReplyIff(payload);
      r := MatchAndRecord(table, id.tenant, probeClock, decoded.value.probe, now);
    }

    /** One turn of the report loop. */
    method OnReport(payload: seq<Byte>, now: int) returns (r: Result<()>)
      requires LossSide()
      modifies table.repr, stats
      ensures LossSide()
      ensures DecodedLossReport(payload).Err? ==>
                r == Ok(()) && table.Table() == old(table.Table()) && stats.View() == old(stats.View())
      ensures DecodedLossReport(payload).Ok? ==>
                var f := Fuse(table.numPlanes, true, Closest(windows.sentRing.ring, now, maxWindowSkewNs),
                              old(stats.View()), DecodedLossReport(payload).value.planes);
                && r == f.outcome && stats.View() == f.stats
                && table.Table() == Replay(table.cfg, old(table.Table()), id.tenant, f.windows)
    {
      var decoded := DecodeLossReport(payload);
      if decoded.Err? { return Ok(()); }
      r := ApplyLossReport(table, id.tenant, decoded.value, windows.sentRing, now, maxWindowSkewNs, stats);
    }
  }

  // ---------------------------------------------------------------------
  // Turns of the threads are protocol steps
  // ---------------------------------------------------------------------

  lemma ApplyOne(cfg: E.Config, recs: seq<E.Rec>, e: E.Event)
    ensures ApplyAll(cfg, recs, []) == recs && ApplyAll(cfg, recs, [e]) == E.Apply(cfg, recs, e)
  {
    assert [e][..0] == [];
  }

  lemma {:induction false} ApplyFirst(cfg: E.Config, recs: seq<E.Rec>, e: E.Event, evs: seq<E.Event>)
    ensures ApplyAll(cfg, recs, [e] + evs) == ApplyAll(cfg, E.Apply(cfg, recs, e), evs)
  {
    if evs == [] {
      assert [e] + evs == [e];
      ApplyOne(cfg, recs, e);
    } else {
      var n := |evs| - 1;
      ApplyFirst(cfg, recs, e, evs[..n]);
      assert ([e] + evs)[..|[e] + evs| - 1] == [e] + evs[..n];
    }
  }

  /** Recording `count` waiting results, from position `at` on, one step at a time. */
  function RecordFrom(pr: Pr.Params, s: Pr.System, at: nat, count: nat): Pr.System
    requires at + count <= |s.pending|
    decreases count
  {
    if count == 0 then s else
    var next := Pr.DoRecord(pr, s, at);
    if |next.pending| < at + count - 1 then next else RecordFrom(pr, next, at, count - 1)
  }

  function OutcomeEvents(outcomes: seq<Pr.Outcome>): (evs: seq<E.Event>)
    ensures |evs| == |outcomes|
  {
    seq(|outcomes|, i requires 0 <= i < |outcomes| => Pr.EventOf(Pr.ProbeResult(outcomes[i])))
  }

  ghost predicate Recordable(n: nat, outcomes: seq<Pr.Outcome>) {
    forall i :: 0 <= i < |outcomes| ==>
      outcomes[i].probe.plane < n && (outcomes[i].verdict.Answered? ==> outcomes[i].verdict.rttNs >= 0)
  }

  /** Recording a turn's own results leaves those of other threads waiting, and makes the
      records those after the turn's events. */
  lemma {:induction false} RecordsOwn(pr: Pr.Params, s: Pr.System, waiting: seq<Pr.Outcome>, own: seq<Pr.Outcome>)
    requires s.pending == waiting + own && Recordable(|s.recs|, own)
    ensures var after := RecordFrom(pr, s, |waiting|, |own|);
            && after.pending == waiting && after.clocks == s.clocks
            && after.recs == ApplyAll(pr.cfg, s.recs, OutcomeEvents(own))
    decreases |own|
  {
    if own == [] {
      assert waiting + own == waiting;
      ApplyOne(pr.cfg, s.recs, E.Event(0, E.ProbeOk));
    } else {
      var next := Pr.DoRecord(pr, s, |waiting|);
      assert s.pending[|waiting|] == own[0] && !Pr.RecordRaises(s, own[0]);
      assert next.pending == waiting + own[1..];
      RecordsOwn(pr, next, waiting, own[1..]);
      ApplyFirst(pr.cfg, s.recs, Pr.EventOf(Pr.ProbeResult(own[0])), OutcomeEvents(own[1..]));
      assert OutcomeEvents(own) == [Pr.EventOf(Pr.ProbeResult(own[0]))] + OutcomeEvents(own[1..]);
    }
  }

  ghost predicate OwnPlanes(s: Pr.System) {
    forall p :: 0 <= p < |s.clocks| ==> Pr.PlaneOfLive(s.clocks[p], p)
  }

  /** A turn of the reply loop that does not raise is matching, and then recording the
      result that waits, if there is one, whatever other results wait. */
  lemma ReplyTurnIsSteps(pr: Pr.Params, s: Pr.System, h: Pr.Held)
    requires |s.recs| == |s.clocks| == pr.n && !Pr.MatchRaises(s, h) && OwnPlanes(s)
    requires HandleReply(s.clocks[h.reply.probe.planeId], h.reply.probe, h.nowNs).outcome.Ok?
    ensures var p := h.reply.probe.planeId;
            var turn, matched := HandleReply(s.clocks[p], h.reply.probe, h.nowNs), Pr.DoMatch(s, h);
            && matched.clocks == s.clocks[p := turn.clock]
            && |matched.pending| == |s.pending| + |turn.results|
            && var after := RecordFrom(pr, matched, |s.pending|, |turn.results|);
               after.clocks == matched.clocks && after.pending == s.pending
               && after.recs == ApplyAll(pr.cfg, s.recs, turn.results)
  {
    var p := h.reply.probe.planeId;
    var turn, matched := HandleReply(s.clocks[p], h.reply.probe, h.nowNs), Pr.DoMatch(s, h);
    assert Pr.PlaneOfLive(s.clocks[p], p);
    if turn.results == [] {
      assert s.clocks == s.clocks[p := s.clocks[p]];
      RecordsOwn(pr, matched, s.pending, []);
      assert OutcomeEvents([]) == [] && s.pending + [] == s.pending;
    } else {
      Pr.MatchWaits(s, h.reply, h.nowNs);
      var own := [Pr.Outcome(Pr.EntryOf(h.reply.probe), Pr.Answered(h.nowNs, h.nowNs - h.reply.probe.txNs))];
      RecordsOwn(pr, matched, s.pending, own);
      assert OutcomeEvents(own) == turn.results;
    }
  }

  /** The state after sweeping planes 0 to k - 1. */
  function SweepPlanes(pr: Pr.Params, s: Pr.System, k: nat, now: int): (r: Pr.System)
    requires k <= |s.clocks|
    ensures |r.clocks| == |s.clocks|
  {
    if k == 0 then s else Pr.DoSweep(pr, SweepPlanes(pr, s, k - 1, now), k - 1, now)
  }

  function Outstanding(clocks: seq<C.PlaneClock>): (d: seq<seq<C.Entry>>)
    ensures |d| == |clocks|
  {
    seq(|clocks|, p requires 0 <= p < |clocks| => clocks[p].live)
  }

  lemma SameTimeouts(expired: seq<C.Entry>, p: nat, now: int)
    requires forall i :: 0 <= i < |expired| ==> expired[i].plane == p
    ensures OutcomeEvents(Pr.TimeoutsOf(expired, now)) == TimeoutEvents(C.Ids(p, expired))
  {
  }

  lemma EventsConcat(a: seq<Pr.Outcome>, b: seq<Pr.Outcome>)
    ensures OutcomeEvents(a + b) == OutcomeEvents(a) + OutcomeEvents(b)
  {
  }

  lemma TimeoutsConcat(a: seq<(nat, nat)>, b: seq<(nat, nat)>)
    ensures TimeoutEvents(a + b) == TimeoutEvents(a) + TimeoutEvents(b)
  {
  }

  /** The results that sweeping planes 0 to k - 1 adds. */
  function SweepResults(pr: Pr.Params, s: Pr.System, k: nat, now: int): seq<Pr.Outcome>
    requires k <= |s.clocks|
  {
    if k == 0 then []
    else SweepResults(pr, s, k - 1, now) + Pr.TimeoutsOf(C.Expired(s.clocks[k - 1].live, now - pr.timeoutNs), now)
  }

  lemma SweepNext(pr: Pr.Params, s: Pr.System, swept: Pr.System, p: nat, now: int)
    requires p < |s.clocks| == |swept.clocks| && swept.clocks[p] == s.clocks[p]
    requires swept == s.(clocks := swept.clocks, pending := s.pending + SweepResults(pr, s, p, now))
    ensures var next := Pr.DoSweep(pr, swept, p, now);
            && next == s.(clocks := next.clocks, pending := s.pending + SweepResults(pr, s, p + 1, now))
            && next.clocks == swept.clocks[p := C.SweepStep(s.clocks[p], now - pr.timeoutNs)]
  {
    var out := Pr.TimeoutsOf(C.Expired(s.clocks[p].live, now - pr.timeoutNs), now);
    assert s.pending + SweepResults(pr, s, p, now) + out == s.pending + (SweepResults(pr, s, p, now) + out);
  }

  lemma {:induction false} SweepPlanesIs(pr: Pr.Params, s: Pr.System, k: nat, now: int)
    requires k <= |s.clocks| == pr.n
    ensures var r := SweepPlanes(pr, s, k, now);
            && r == s.(clocks := r.clocks, pending := s.pending + SweepResults(pr, s, k, now))
            && forall p :: 0 <= p < |s.clocks| ==>
                 r.clocks[p] == if p < k then C.SweepStep(s.clocks[p], now - pr.timeoutNs) else s.clocks[p]
  {
    if k > 0 {
      SweepPlanesIs(pr, s, k - 1, now);
      SweepNext(pr, s, SweepPlanes(pr, s, k - 1, now), k - 1, now);
    } else {
      assert s.pending + [] == s.pending;
    }
  }

  lemma {:induction false} SweepResultsRecordable(pr: Pr.Params, s: Pr.System, k: nat, now: int)
    requires k <= |s.clocks| == pr.n && OwnPlanes(s)
    ensures Recordable(pr.n, SweepResults(pr, s, k, now))
  {
    if k > 0 {
      SweepResultsRecordable(pr, s, k - 1, now);
      ExpiredOwnPlane(s.clocks[k - 1], k - 1, now - pr.timeoutNs);
    }
  }

  lemma {:induction false} SweepResultsAre(pr: Pr.Params, s: Pr.System, k: nat, now: int)
    requires k <= |s.clocks| == pr.n && OwnPlanes(s)
    ensures var own := SweepResults(pr, s, k, now);
            OutcomeEvents(own) == TimeoutEvents(C.ExpiredOn(Outstanding(s.clocks), k, now - pr.timeoutNs))
  {
    if k > 0 {
      SweepResultsAre(pr, s, k - 1, now);
      var expired := C.Expired(s.clocks[k - 1].live, now - pr.timeoutNs);
      ExpiredOwnPlane(s.clocks[k - 1], k - 1, now - pr.timeoutNs);
      SameTimeouts(expired, k - 1, now);
      EventsConcat(SweepResults(pr, s, k - 1, now), Pr.TimeoutsOf(expired, now));
      TimeoutsConcat(C.ExpiredOn(Outstanding(s.clocks), k - 1, now - pr.timeoutNs), C.Ids(k - 1, expired));
    }
  }

  lemma ExpiredOwnPlane(c: C.PlaneClock, p: nat, deadline: int)
    requires Pr.PlaneOfLive(c, p)
    ensures forall i :: 0 <= i < |C.Expired(c.live, deadline)| ==> C.Expired(c.live, deadline)[i].plane == p
  {
    C.SweepPartitions(c.live, deadline);
    var expired := C.Expired(c.live, deadline);
    forall i | 0 <= i < |expired| ensures expired[i].plane == p { assert expired[i] in c.live; }
  }

  /** A turn of the sweep loop is the protocol's sweep of every plane, and then recording
      the timeouts it left waiting, in order, whatever other results wait. */
  lemma SweepTurnIsSteps(pr: Pr.Params, s: Pr.System, now: int)
    requires |s.recs| == |s.clocks| == pr.n && OwnPlanes(s)
    ensures var swept := SweepPlanes(pr, s, pr.n, now);
            var timeouts := C.ExpiredOn(Outstanding(s.clocks), pr.n, now - pr.timeoutNs);
            && (forall p :: 0 <= p < pr.n ==> swept.clocks[p] == C.SweepStep(s.clocks[p], now - pr.timeoutNs))
            && |swept.pending| == |s.pending| + |timeouts|
            && var after := RecordFrom(pr, swept, |s.pending|, |timeouts|);
               after.clocks == swept.clocks && after.pending == s.pending
               && after.recs == ApplyAll(pr.cfg, s.recs, TimeoutEvents(timeouts))
  {
    SweepPlanesIs(pr, s, pr.n, now);
    SweepResultsRecordable(pr, s, pr.n, now);
    SweepResultsAre(pr, s, pr.n, now);
    RecordsOwn(pr, SweepPlanes(pr, s, pr.n, now), s.pending, SweepResults(pr, s, pr.n, now));
  }

  ghost predicate AreWindows(n: nat, evs: seq<E.Event>) {
    forall i :: 0 <= i < |evs| ==> evs[i].plane < n && evs[i].signal.Window?
  }

  /** The protocol's loss steps for these windows, one after the other. */
  function LossSteps(pr: Pr.Params, s: Pr.System, evs: seq<E.Event>): (r: Pr.System)
    requires |s.clocks| == pr.n && AreWindows(pr.n, evs)
    ensures |r.clocks| == pr.n
  {
    if evs == [] then s else
    var init, e := evs[..|evs| - 1], evs[|evs| - 1];
    Pr.Do(pr, LossSteps(pr, s, init), Pr.Loss(e.plane, e.signal.seen, e.signal.expected))
  }

  lemma {:induction false} LossStepsAre(pr: Pr.Params, s: Pr.System, evs: seq<E.Event>)
    requires |s.clocks| == pr.n && AreWindows(pr.n, evs)
    ensures var r := LossSteps(pr, s, evs);
            && r == s.(log := r.log, recs := ApplyAll(pr.cfg, s.recs, evs))
            && Pr.Results(r.log) == Pr.Results(s.log) && Pr.Events(r.log) == Pr.Events(s.log) + evs
  {
    if evs != [] {
      var init, e := evs[..|evs| - 1], evs[|evs| - 1];
      LossStepsAre(pr, s, init);
      var before, logged := LossSteps(pr, s, init), Pr.LossWindow(e.plane, e.signal.seen, e.signal.expected);
      assert (before.log + [logged])[..|before.log|] == before.log;
      assert Pr.Events(s.log) + evs == Pr.Events(s.log) + init + [e];
    } else {
      assert Pr.Events(s.log) + [] == Pr.Events(s.log);
    }
  }

  lemma {:induction false} FusedAreWindows(n: nat, paired: Option<SentWindow>, stats: Stats,
                                           planes: seq<PlaneLossRecord>)
    ensures AreWindows(n, FuseAll(n, true, paired, stats, planes).windows)
  {
    if planes != [] {
      FusedAreWindows(n, paired, stats, planes[..|planes| - 1]);
    }
  }

  /** A turn of the report loop is the protocol's loss step for each window it records, in
      order, and touches nothing else: whatever the report says, and if it raises halfway. */
  lemma ReportTurnIsSteps(pr: Pr.Params, s: Pr.System, paired: Option<SentWindow>, stats: Stats,
                          planes: seq<PlaneLossRecord>)
    requires |s.clocks| == pr.n
    ensures var f := Fuse(pr.n, true, paired, stats, planes);
            && AreWindows(pr.n, f.windows)
            && var r := LossSteps(pr, s, f.windows);
               && r == s.(log := r.log, recs := ApplyAll(pr.cfg, s.recs, f.windows))
               && Pr.Results(r.log) == Pr.Results(s.log) && Pr.Events(r.log) == Pr.Events(s.log) + f.windows
  {
    FusedAreWindows(pr.n, paired, Begun(stats, paired.None?), planes);
    LossStepsAre(pr, s, Fuse(pr.n, true, paired, stats, planes).windows);
  }

  /** The state after emitting on planes 0 to k - 1. */
  function EmitPlanes(pr: Pr.Params, s: Pr.System, k: nat): (r: Pr.System)
    requires k <= |s.clocks|
    ensures |r.clocks| == |s.clocks|
  {
    if k == 0 then s else Pr.DoEmit(pr, EmitPlanes(pr, s, k - 1), k - 1)
  }

  /** Halfway through a round of emits: the clocks of planes 0 to k - 1 are stepped, the
      others and everything recorded are untouched. */
  ghost predicate SteppedSoFar(pr: Pr.Params, s: Pr.System, k: nat, r: Pr.System) {
    && |r.clocks| == |s.clocks|
    && (forall p :: 0 <= p < |s.clocks| ==>
          r.clocks[p] == if p < k then C.EmitStep(pr.cap, s.clocks[p], p, s.stamp) else s.clocks[p])
    && r.pending == s.pending && r.log == s.log && r.recs == s.recs && r.stamp == s.stamp
  }

  lemma SteppedNext(pr: Pr.Params, s: Pr.System, k: nat, r: Pr.System)
    requires k < |s.clocks| && SteppedSoFar(pr, s, k, r)
    ensures SteppedSoFar(pr, s, k + 1, Pr.DoEmit(pr, r, k))
  {
  }

  lemma {:induction false} EmitPlanesClocks(pr: Pr.Params, s: Pr.System, k: nat)
    requires k <= |s.clocks|
    ensures SteppedSoFar(pr, s, k, EmitPlanes(pr, s, k))
  {
    if k > 0 {
      EmitPlanesClocks(pr, s, k - 1);
      SteppedNext(pr, s, k - 1, EmitPlanes(pr, s, k - 1));
    }
  }

  /** The payloads of every plane's next probe, where it encodes. */
  function Payloads(id: Identity, clocks: seq<C.PlaneClock>, stamp: int): (r: seq<Option<seq<Byte>>>)
    ensures |r| == |clocks|
  {
    seq(|clocks|, p requires 0 <= p < |clocks| => ProbeFor(id, clocks[p], p, stamp))
  }

  function Sending(payload: Option<seq<Byte>>): set<seq<Byte>> { if payload.Some? then {payload.value} else {} }

  function SendingAll(payloads: seq<Option<seq<Byte>>>, k: nat): set<seq<Byte>>
    requires k <= |payloads|
  {
    if k == 0 then {} else SendingAll(payloads, k - 1) + Sending(payloads[k - 1])
  }

  lemma {:induction false} InSendingAll(payloads: seq<Option<seq<Byte>>>, k: nat, b: seq<Byte>)
    requires k <= |payloads|
    ensures b in SendingAll(payloads, k) <==> exists p :: 0 <= p < k && payloads[p] == Some(b)
  {
    if k > 0 {
      InSendingAll(payloads, k - 1, b);
    }
  }

  lemma EmitNet(pr: Pr.Params, id: Identity, s: Pr.System, p: nat)
    requires p < |s.clocks|
    requires id.tenantId == pr.tenantId && id.srcId == pr.srcId && id.reportPort == pr.replyPort
    ensures Pr.DoEmit(pr, s, p).net == s.net + Sending(ProbeFor(id, s.clocks[p], p, s.stamp))
  {
  }

  /** Halfway through a round of emits: planes from k on are untouched, and what the
      others sent is on the network. */
  ghost predicate EmittedSoFar(s: Pr.System, payloads: seq<Option<seq<Byte>>>, k: nat, r: Pr.System)
    requires k <= |s.clocks| == |payloads|
  {
    && |r.clocks| == |s.clocks| && r.stamp == s.stamp
    && (forall p :: k <= p < |s.clocks| ==> r.clocks[p] == s.clocks[p])
    && r.net == s.net + SendingAll(payloads, k)
  }

  lemma EmittedNext(pr: Pr.Params, id: Identity, s: Pr.System, k: nat, r: Pr.System)
    requires k < |s.clocks| && EmittedSoFar(s, Payloads(id, s.clocks, s.stamp), k, r)
    requires id.tenantId == pr.tenantId && id.srcId == pr.srcId && id.reportPort == pr.replyPort
    ensures EmittedSoFar(s, Payloads(id, s.clocks, s.stamp), k + 1, Pr.DoEmit(pr, r, k))
  {
    EmitNet(pr, id, r, k);
  }

  lemma {:induction false} EmitPlanesNet(pr: Pr.Params, id: Identity, s: Pr.System, k: nat)
    requires k <= |s.clocks|
    requires id.tenantId == pr.tenantId && id.srcId == pr.srcId && id.reportPort == pr.replyPort
    ensures EmittedSoFar(s, Payloads(id, s.clocks, s.stamp), k, EmitPlanes(pr, s, k))
  {
    if k > 0 {
      EmitPlanesNet(pr, id, s, k - 1);
      EmittedNext(pr, id, s, k - 1, EmitPlanes(pr, s, k - 1));
    }
  }

  /** A round of the emit loop is reading the clock, and then the protocol's emit of every
      plane: the same clocks, and exactly the payloads that encode are sent. */
  lemma EmitTurnIsSteps(pr: Pr.Params, id: Identity, s: Pr.System)
    requires |s.clocks| == pr.n
    requires id.tenantId == pr.tenantId && id.srcId == pr.srcId && id.reportPort == pr.replyPort
    ensures var begun := Pr.Do(pr, s, Pr.StartRound);
            var r := EmitPlanes(pr, begun, pr.n);
            && (forall p :: 0 <= p < pr.n ==> r.clocks[p] == C.EmitStep(pr.cap, s.clocks[p], p, s.time))
            && r.pending == s.pending && r.log == s.log && r.recs == s.recs && r.stamp == s.time
            && forall b :: b in r.net <==>
                           b in s.net || exists p :: 0 <= p < pr.n && Payloads(id, s.clocks, s.time)[p] == Some(b)
  {
    var begun := Pr.Do(pr, s, Pr.StartRound);
    EmitPlanesClocks(pr, begun, pr.n);
    EmitPlanesNet(pr, id, begun, pr.n);
    forall b
      ensures b in SendingAll(Payloads(id, s.clocks, s.time), pr.n) <==>
              exists p :: 0 <= p < pr.n && Payloads(id, s.clocks, s.time)[p] == Some(b)
    {
      InSendingAll(Payloads(id, s.clocks, s.time), pr.n, b);
    }
  }
}
