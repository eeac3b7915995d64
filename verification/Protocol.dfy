/** The probe protocol as a whole: a sender, a receiver and a network that loses,
    duplicates and reorders (srv6_fabric/mrc/agent.py). Every lock-protected piece
    of a thread body is one step; matching a reply or sweeping a timeout, and
    recording the result in the EV table, are separate steps, and results may be
    recorded in any order. */
module Protocol {
  import opened Wrappers
  import opened Wire
  import C = ProbeClock
  import E = EvSpec
  import opened Policy

  datatype Params = Params(
    n: nat, cap: nat, timeoutNs: nat, cfg: E.Config, tenantId: int, srcId: int, replyPort: int)

  datatype Verdict = Answered(nowNs: int, rttNs: int) | TimedOut(sweptNs: int)

  datatype Outcome = Outcome(probe: C.Entry, verdict: Verdict)

  /** What has been recorded in the EV table. */
  datatype Logged = ProbeResult(outcome: Outcome) | LossWindow(plane: nat, seen: nat, expected: nat)

  /** A reply taken off a socket, and the clock read after it. */
  datatype Held = Held(reply: ProbeReply, nowNs: int)

  /** `net` holds every payload ever sent: any of them may arrive at any time, any
      number of times, or never. `emitted`, `echoed` and `dropped` are history. */
  datatype System = System(
    time: int,
    stamp: int,
    clocks: seq<C.PlaneClock>,
    net: set<seq<Byte>>,
    held: set<Held>,
    pending: seq<Outcome>,
    log: seq<Logged>,
    recs: seq<E.Rec>,
    emitted: seq<C.Entry>,
    echoed: set<C.Entry>,
    dropped: seq<C.Entry>)

  datatype Step =
    | Tick(now: int)
    | StartRound
    | Emit(plane: nat)
    | Echo(payload: seq<Byte>)
    | Receive(payload: seq<Byte>)
    | Match(held: Held)
    | Sweep(plane: nat, now: int)
    | Record(index: nat)
    | Loss(plane: nat, seen: nat, expected: nat)

  /** Sweeping happens plane by plane here and with a clock value read earlier: this
      allows every interleaving the code does, and more. */
  predicate Enabled(pr: Params, s: System, step: Step) {
    match step
    case Tick(now) => now >= s.time
    case StartRound => true
    case Emit(p) => p < pr.n
    case Echo(b) => b in s.net
    case Receive(b) => b in s.net
    case Match(h) => h in s.held
    case Sweep(p, now) => p < pr.n && now <= s.time
    case Record(i) => i < |s.pending|
    case Loss(p, _, _) => p < pr.n
  }

  function EntryOf(p: Probe): C.Entry
    requires p.reqId >= 0 && p.planeId >= 0
  {
    C.Entry(p.reqId, p.planeId, p.txNs)
  }

  /** What an emit drops from the outstanding map: the evicted entry, and the one
      whose live req_id is reused. */
  function Lost(cap: nat, live: seq<C.Entry>, id: nat): seq<C.Entry> {
    var room := C.Room(cap, live);
    (if room == live then [] else live[..1])
    + (if C.Has(room, id) then [room[C.IndexOf(room, id)]] else [])
  }

  function DoEmit(pr: Params, s: System, p: nat): System
    requires p < |s.clocks|
  {
    var c := s.clocks[p];
    var e := C.Entry(c.nextReqId, p, s.stamp);
    var encoded := EncodeProbe(Probe(c.nextReqId, p, s.stamp, pr.tenantId, pr.srcId, pr.replyPort));
    s.(clocks := s.clocks[p := C.EmitStep(pr.cap, c, p, s.stamp)],
       net := if encoded.Ok? then s.net + {encoded.value} else s.net,
       emitted := s.emitted + [e],
       dropped := s.dropped + Lost(pr.cap, c.live, c.nextReqId))
  }

  /** The receiver's answer to a payload, and the probe it answers. */
  function ReplyTo(payload: seq<Byte>): Option<(Probe, seq<Byte>)> {
    match DecodeProbe(payload)
    case Err(_) => None
    case Ok(probe) =>
      match EncodeProbeReply(ProbeReply(probe, 0))
      case Err(_) => None
      case Ok(reply) => Some((probe, reply))
  }

  function DoEcho(s: System, payload: seq<Byte>): System {
    match ReplyTo(payload)
    case None => s
    case Some((probe, reply)) =>
      if probe.reqId < 0 || probe.planeId < 0 then s
      else s.(net := s.net + {reply}, echoed := s.echoed + {EntryOf(probe)})
  }

  function DoReceive(s: System, payload: seq<Byte>): System {
    match DecodeProbeReply(payload)
    case Err(_) => s
    case Ok(reply) => s.(held := s.held + {Held(reply, s.time)})
  }

  /** A plane id out of range would raise. */
  predicate MatchRaises(s: System, h: Held) {
    h.reply.probe.planeId < 0 || h.reply.probe.planeId >= |s.clocks| || h.reply.probe.reqId < 0
  }

  function DoMatch(s: System, h: Held): System {
    if MatchRaises(s, h) then s else
    var probe := h.reply.probe;
    var c := s.clocks[probe.planeId];
    if !C.Answers(c, probe.reqId, probe.txNs) then s
    else s.(clocks := s.clocks[probe.planeId := C.MatchStep(c, probe.reqId, probe.txNs)],
            pending := s.pending + [Outcome(c.live[C.IndexOf(c.live, probe.reqId)],
                                            Answered(h.nowNs, h.nowNs - probe.txNs))])
  }

  function TimeoutsOf(expired: seq<C.Entry>, now: int): seq<Outcome> {
    seq(|expired|, i requires 0 <= i < |expired| => Outcome(expired[i], TimedOut(now)))
  }

  function DoSweep(pr: Params, s: System, p: nat, now: int): System
    requires p < |s.clocks|
  {
    var c, deadline := s.clocks[p], now - pr.timeoutNs;
    s.(clocks := s.clocks[p := C.SweepStep(c, deadline)],
       pending := s.pending + TimeoutsOf(C.Expired(c.live, deadline), now))
  }

  function EventOf(l: Logged): E.Event {
    match l
    case ProbeResult(o) => E.Event(o.probe.plane, if o.verdict.Answered? then E.ProbeOk else E.ProbeTimeout)
    case LossWindow(p, seen, expected) => E.Event(p, E.Window(seen, expected))
  }

  /** An unknown plane or a negative RTT would raise. */
  predicate RecordRaises(s: System, o: Outcome) {
    o.probe.plane >= |s.recs| || (o.verdict.Answered? && o.verdict.rttNs < 0)
  }

  function Append(pr: Params, s: System, l: Logged): System {
    s.(log := s.log + [l], recs := E.Apply(pr.cfg, s.recs, EventOf(l)))
  }

  function DoRecord(pr: Params, s: System, i: nat): System
    requires i < |s.pending|
  {
    var o := s.pending[i];
    if RecordRaises(s, o) then s
    else Append(pr, s.(pending := s.pending[..i] + s.pending[i + 1..]), ProbeResult(o))
  }

  function Do(pr: Params, s: System, step: Step): System
    requires Enabled(pr, s, step) && |s.clocks| == pr.n
  {
    match step
    case Tick(now) => s.(time := now)
    case StartRound => s.(stamp := s.time)
    case Emit(p) => DoEmit(pr, s, p)
    case Echo(b) => DoEcho(s, b)
    case Receive(b) => DoReceive(s, b)
    case Match(h) => DoMatch(s, h)
    case Sweep(p, now) => DoSweep(pr, s, p, now)
    case Record(i) => DoRecord(pr, s, i)
    case Loss(p, seen, expected) => Append(pr, s, LossWindow(p, seen, expected))
  }

  function Start(pr: Params, now: int): System {
    System(now, now, seq(pr.n, _ => C.IDLE), {}, {}, [], [], E.Initial(pr.n), [], {}, [])
  }

  /** The states of a run: each step is enabled where it is taken. */
  ghost predicate Reaches(pr: Params, now: int, steps: seq<Step>, s: System) {
    if steps == [] then s == Start(pr, now)
    else exists before ::
      && Reaches(pr, now, steps[..|steps| - 1], before)
      && |before.clocks| == pr.n && Enabled(pr, before, steps[|steps| - 1])
      && s == Do(pr, before, steps[|steps| - 1])
  }

  // ---------------------------------------------------------------------
  // The ledger
  // ---------------------------------------------------------------------

  function Count(d: seq<C.Entry>, e: C.Entry): nat {
    if d == [] then 0 else (if d[0] == e then 1 else 0) + Count(d[1..], e)
  }

  /** How often an entry is outstanding. */
  function Live(clocks: seq<C.PlaneClock>, e: C.Entry): nat {
    if clocks == [] then 0 else Live(clocks[..|clocks| - 1], e) + Count(clocks[|clocks| - 1].live, e)
  }

  /** How many outcomes are of an entry. */
  function Of(outcomes: seq<Outcome>, e: C.Entry): nat {
    if outcomes == [] then 0
    else Of(outcomes[..|outcomes| - 1], e) + (if outcomes[|outcomes| - 1].probe == e then 1 else 0)
  }

  function Results(log: seq<Logged>): seq<Outcome> {
    if log == [] then [] else
    Results(log[..|log| - 1])
    + (match log[|log| - 1] case ProbeResult(o) => [o] case LossWindow(_, _, _) => [])
  }

  function Events(log: seq<Logged>): seq<E.Event> {
    if log == [] then [] else Events(log[..|log| - 1]) + [EventOf(log[|log| - 1])]
  }

  lemma {:induction false} LiveUpdate(clocks: seq<C.PlaneClock>, p: nat, c: C.PlaneClock, e: C.Entry)
    requires p < |clocks|
    ensures Live(clocks[p := c], e) + Count(clocks[p].live, e) == Live(clocks, e) + Count(c.live, e)
  {
    var n := |clocks| - 1;
    if p < n {
      LiveUpdate(clocks[..n], p, c, e);
      assert clocks[p := c][..n] == clocks[..n][p := c];
    } else {
      assert clocks[p := c][..n] == clocks[..n];
    }
  }

  lemma {:induction false} OfConcat(a: seq<Outcome>, b: seq<Outcome>, e: C.Entry)
    ensures Of(a + b, e) == Of(a, e) + Of(b, e)
  {
    if b == [] {
      assert a + b == a;
    } else {
      OfConcat(a, b[..|b| - 1], e);
      assert (a + b)[..|a + b| - 1] == a + b[..|b| - 1];
    }
  }

  lemma OfOne(o: Outcome, e: C.Entry)
    ensures Of([o], e) == if o.probe == e then 1 else 0
  {
    assert [o][..0] == [];
  }

  lemma OfInsert(l: seq<Outcome>, o: Outcome, r: seq<Outcome>, e: C.Entry)
    ensures Of(l + [o] + r, e) == Of(l + r, e) + (if o.probe == e then 1 else 0)
  {
    OfConcat(l, r, e);
    OfConcat(l + [o], r, e);
    OfConcat(l, [o], e);
    OfOne(o, e);
  }

  lemma OfRemove(a: seq<Outcome>, i: nat, e: C.Entry)
    requires i < |a|
    ensures Of(a, e) == Of(a[..i] + a[i + 1..], e) + (if a[i].probe == e then 1 else 0)
  {
    assert a == a[..i] + [a[i]] + a[i + 1..];
    OfInsert(a[..i], a[i], a[i + 1..], e);
  }

  lemma {:induction false} CountConcat(a: seq<C.Entry>, b: seq<C.Entry>, e: C.Entry)
    ensures Count(a + b, e) == Count(a, e) + Count(b, e)
  {
    if a == [] {
      assert a + b == b;
    } else {
      CountConcat(a[1..], b, e);
      assert (a + b)[1..] == a[1..] + b;
    }
  }

  lemma CountOne(x: C.Entry, e: C.Entry)
    ensures Count([x], e) == if x == e then 1 else 0
  {
    assert [x][1..] == [];
  }

  lemma CountInsert(l: seq<C.Entry>, x: C.Entry, r: seq<C.Entry>, e: C.Entry)
    ensures Count(l + [x] + r, e) == Count(l + r, e) + (if x == e then 1 else 0)
  {
    CountConcat(l, r, e);
    CountConcat(l + [x], r, e);
    CountConcat(l, [x], e);
    CountOne(x, e);
  }

  lemma {:induction false} OfTimeouts(expired: seq<C.Entry>, now: int, e: C.Entry)
    ensures Of(TimeoutsOf(expired, now), e) == Count(expired, e)
  {
    if expired != [] {
      var rest := expired[1..];
      OfTimeouts(rest, now, e);
      assert TimeoutsOf(expired, now) == [Outcome(expired[0], TimedOut(now))] + TimeoutsOf(rest, now);
      OfConcat([Outcome(expired[0], TimedOut(now))], TimeoutsOf(rest, now), e);
      OfOne(Outcome(expired[0], TimedOut(now)), e);
    }
  }

  /** Every emitted probe is outstanding, has one result waiting or recorded, or was dropped. */
  ghost predicate Ledger(s: System, e: C.Entry) {
    Count(s.emitted, e) == Live(s.clocks, e) + Of(s.pending, e) + Of(Results(s.log), e) + Count(s.dropped, e)
  }

  lemma RoomLoses(cap: nat, live: seq<C.Entry>, e: C.Entry)
    ensures var room := C.Room(cap, live);
            Count(room, e) + Count(if room == live then [] else live[..1], e) == Count(live, e)
  {
    if C.Room(cap, live) != live {
      assert live == live[..1] + live[1..];
      CountConcat(live[..1], live[1..], e);
    }
  }

  lemma PutReplaces(d: seq<C.Entry>, x: C.Entry, e: C.Entry)
    ensures Count(C.Put(d, x), e) + Count(if C.Has(d, x.reqId) then [d[C.IndexOf(d, x.reqId)]] else [], e)
         == Count(d, e) + (if x == e then 1 else 0)
  {
    var i := C.IndexOf(d, x.reqId);
    if i < |d| {
      var l, r := d[..i], d[i + 1..];
      assert d == l + [d[i]] + r && d[i := x] == l + [x] + r;
      CountInsert(l, d[i], r, e);
      CountInsert(l, x, r, e);
      CountOne(d[i], e);
    } else {
      CountConcat(d, [x], e);
      CountOne(x, e);
    }
  }

  /** What an emit drops is what was outstanding and no longer is, and nothing else. */
  lemma LostIsTheRest(cap: nat, live: seq<C.Entry>, x: C.Entry, e: C.Entry)
    ensures Count(C.Put(C.Room(cap, live), x), e) + Count(Lost(cap, live, x.reqId), e)
            == Count(live, e) + (if x == e then 1 else 0)
  {
    var room := C.Room(cap, live);
    RoomLoses(cap, live, e);
    PutReplaces(room, x, e);
    CountConcat(if room == live then [] else live[..1],
                if C.Has(room, x.reqId) then [room[C.IndexOf(room, x.reqId)]] else [], e);
  }

  lemma EmitKeepsLedger(pr: Params, s: System, p: nat, e: C.Entry)
    requires p < |s.clocks| && Ledger(s, e)
    ensures Ledger(DoEmit(pr, s, p), e)
  {
    var c := s.clocks[p];
    var x := C.Entry(c.nextReqId, p, s.stamp);
    LostIsTheRest(pr.cap, c.live, x, e);
    LiveUpdate(s.clocks, p, C.EmitStep(pr.cap, c, p, s.stamp), e);
    CountConcat(s.emitted, [x], e);
    CountOne(x, e);
    CountConcat(s.dropped, Lost(pr.cap, c.live, c.nextReqId), e);
  }

  /** As many are dropped as the clock counts as evicted or overwritten. */
  lemma LostIsCounted(cap: nat, c: C.PlaneClock, p: nat, now: int)
    ensures var after := C.EmitStep(cap, c, p, now);
            |Lost(cap, c.live, c.nextReqId)| == (after.evicted - c.evicted) + (after.overwritten - c.overwritten)
  {
  }

  lemma DelTakesOne(live: seq<C.Entry>, id: nat, e: C.Entry)
    requires C.Has(live, id)
    ensures Count(live, e) == Count(C.Del(live, id), e) + (if live[C.IndexOf(live, id)] == e then 1 else 0)
  {
    var i := C.IndexOf(live, id);
    var before, after := live[..i], live[i + 1..];
    CountInsert(before, live[i], after, e);
    assert live == before + [live[i]] + after && C.Del(live, id) == before + after;
  }

  /** Moving entries of one clock to the waiting results. */
  lemma LedgerMoves(s: System, s': System, p: nat, e: C.Entry)
    requires p < |s.clocks| && Ledger(s, e)
    requires s' == s.(clocks := s'.clocks, pending := s'.pending)
    requires |s'.clocks| == |s.clocks| && s'.clocks == s.clocks[p := s'.clocks[p]]
    requires Count(s'.clocks[p].live, e) + Of(s'.pending, e) == Count(s.clocks[p].live, e) + Of(s.pending, e)
    ensures Ledger(s', e)
  {
    LiveUpdate(s.clocks, p, s'.clocks[p], e);
  }

  lemma MatchKeepsLedger(s: System, h: Held, e: C.Entry)
    requires Ledger(s, e)
    ensures Ledger(DoMatch(s, h), e)
  {
    var probe := h.reply.probe;
    if !MatchRaises(s, h) && C.Answers(s.clocks[probe.planeId], probe.reqId, probe.txNs) {
      var c := s.clocks[probe.planeId];
      var o := Outcome(c.live[C.IndexOf(c.live, probe.reqId)], Answered(h.nowNs, h.nowNs - probe.txNs));
      DelTakesOne(c.live, probe.reqId, e);
      OfConcat(s.pending, [o], e);
      OfOne(o, e);
      LedgerMoves(s, DoMatch(s, h), probe.planeId, e);
    }
  }

  lemma {:induction false} SweepCounts(d: seq<C.Entry>, deadline: int, e: C.Entry)
    ensures Count(C.Kept(d, deadline), e) + Count(C.Expired(d, deadline), e) == Count(d, e)
  {
    if d != [] {
      var kept, expired := C.Kept(d[1..], deadline), C.Expired(d[1..], deadline);
      SweepCounts(d[1..], deadline, e);
      assert [] + kept == kept && [] + expired == expired;
      assert ([d[0]] + kept)[1..] == kept && ([d[0]] + expired)[1..] == expired;
    }
  }

  lemma SweptResults(pending: seq<Outcome>, expired: seq<C.Entry>, now: int, e: C.Entry)
    ensures Of(pending + TimeoutsOf(expired, now), e) == Of(pending, e) + Count(expired, e)
  {
    OfTimeouts(expired, now, e);
    OfConcat(pending, TimeoutsOf(expired, now), e);
  }

  lemma SweepKeepsLedger(pr: Params, s: System, p: nat, now: int, e: C.Entry)
    requires p < |s.clocks| && Ledger(s, e)
    ensures Ledger(DoSweep(pr, s, p, now), e)
  {
    var live, deadline := s.clocks[p].live, now - pr.timeoutNs;
    SweepCounts(live, deadline, e);
    SweptResults(s.pending, C.Expired(live, deadline), now, e);
    LedgerMoves(s, DoSweep(pr, s, p, now), p, e);
  }

  lemma LogSnoc(log: seq<Logged>, l: Logged)
    ensures Events(log + [l]) == Events(log) + [EventOf(l)]
    ensures Results(log + [l]) == Results(log) + (if l.ProbeResult? then [l.outcome] else [])
  {
    assert (log + [l])[..|log|] == log;
  }

  lemma ResultsCount(log: seq<Logged>, l: Logged, e: C.Entry)
    ensures Of(Results(log + [l]), e) == Of(Results(log), e) + (if l.ProbeResult? && l.outcome.probe == e then 1 else 0)
  {
    LogSnoc(log, l);
    if l.ProbeResult? {
      OfConcat(Results(log), [l.outcome], e);
      OfOne(l.outcome, e);
    } else {
      assert Results(log + [l]) == Results(log);
    }
  }

  lemma RecordKeepsLedger(pr: Params, s: System, i: nat, e: C.Entry)
    requires i < |s.pending| && Ledger(s, e)
    ensures Ledger(DoRecord(pr, s, i), e)
  {
    OfRemove(s.pending, i, e);
    ResultsCount(s.log, ProbeResult(s.pending[i]), e);
  }

  lemma StepKeepsLedger(pr: Params, s: System, step: Step, e: C.Entry)
    requires |s.clocks| == pr.n && Enabled(pr, s, step) && Ledger(s, e)
    ensures Ledger(Do(pr, s, step), e)
  {
    match step
    case Tick(_) =>
    case StartRound =>
    case Emit(p) => EmitKeepsLedger(pr, s, p, e);
    case Echo(_) =>
    case Receive(_) =>
    case Match(h) => MatchKeepsLedger(s, h, e);
    case Sweep(p, now) => SweepKeepsLedger(pr, s, p, now, e);
    case Record(i) => RecordKeepsLedger(pr, s, i, e);
    case Loss(p, seen, expected) => ResultsCount(s.log, LossWindow(p, seen, expected), e);
  }

  // ---------------------------------------------------------------------
  // The clocks and the table
  // ---------------------------------------------------------------------

  ghost predicate PlaneOk(pr: Params, s: System, p: nat)
    requires p < |s.clocks|
  {
    C.Sound(pr.cap, s.clocks[p]) && forall e :: e in s.clocks[p].live ==> e.plane == p && e.txNs <= s.time
  }

  ghost predicate ClocksOk(pr: Params, s: System) {
    && |s.clocks| == pr.n && s.stamp <= s.time
    && forall p :: 0 <= p < pr.n ==> PlaneOk(pr, s, p)
  }

  lemma EmitKeepsPlane(pr: Params, s: System, p: nat)
    requires pr.cap >= 1 && ClocksOk(pr, s) && p < pr.n
    ensures PlaneOk(pr, DoEmit(pr, s, p), p)
  {
    assert PlaneOk(pr, s, p);
    C.EmitKeepsSound(pr.cap, s.clocks[p], p, s.stamp);
  }

  lemma MatchKeepsPlane(pr: Params, s: System, h: Held, p: nat)
    requires ClocksOk(pr, s) && p < pr.n
    ensures PlaneOk(pr, DoMatch(s, h), p)
  {
    assert PlaneOk(pr, s, p);
    if !MatchRaises(s, h) {
      C.MatchKeepsSound(pr.cap, s.clocks[p], h.reply.probe.reqId, h.reply.probe.txNs);
    }
  }

  lemma SweepKeepsPlane(pr: Params, s: System, p: nat, now: int)
    requires ClocksOk(pr, s) && p < pr.n
    ensures PlaneOk(pr, DoSweep(pr, s, p, now), p)
  {
    assert PlaneOk(pr, s, p);
    C.SweepKeepsSound(pr.cap, s.clocks[p], now - pr.timeoutNs);
    C.SweepPartitions(s.clocks[p].live, now - pr.timeoutNs);
  }

  lemma StepKeepsPlane(pr: Params, s: System, step: Step, p: nat)
    requires pr.cap >= 1 && ClocksOk(pr, s) && Enabled(pr, s, step) && p < pr.n
    ensures p < |Do(pr, s, step).clocks| && PlaneOk(pr, Do(pr, s, step), p)
  {
    assert PlaneOk(pr, s, p);
    match step
    case Emit(q) => if q == p { EmitKeepsPlane(pr, s, p); }
    case Match(h) => MatchKeepsPlane(pr, s, h, p);
    case Sweep(q, now) => if q == p { SweepKeepsPlane(pr, s, p, now); }
    case _ =>
  }

  lemma StepKeepsClocks(pr: Params, s: System, step: Step)
    requires pr.cap >= 1 && ClocksOk(pr, s) && Enabled(pr, s, step)
    ensures ClocksOk(pr, Do(pr, s, step))
  {
    forall p | 0 <= p < pr.n ensures p < |Do(pr, s, step).clocks| && PlaneOk(pr, Do(pr, s, step), p) {
      StepKeepsPlane(pr, s, step, p);
    }
  }

  /** The EV table is a run of the recorded events, in the order of recording. */
  ghost predicate TableOk(pr: Params, s: System) {
    s.recs == E.Run(pr.cfg, pr.n, Events(s.log))
  }

  lemma AppendKeepsTable(pr: Params, s: System, l: Logged)
    requires TableOk(pr, s)
    ensures TableOk(pr, Append(pr, s, l))
  {
    LogSnoc(s.log, l);
    E.RunSnoc(pr.cfg, pr.n, Events(s.log), EventOf(l));
  }

  lemma StepKeepsTable(pr: Params, s: System, step: Step)
    requires |s.clocks| == pr.n && Enabled(pr, s, step) && TableOk(pr, s)
    ensures TableOk(pr, Do(pr, s, step))
  {
    match step
    case Record(i) =>
      AppendKeepsTable(pr, s.(pending := s.pending[..i] + s.pending[i + 1..]), ProbeResult(s.pending[i]));
    case Loss(p, seen, expected) => AppendKeepsTable(pr, s, LossWindow(p, seen, expected));
    case _ =>
  }

  // ---------------------------------------------------------------------
  // What travels
  // ---------------------------------------------------------------------

  ghost predicate PayloadOk(s: System, b: seq<Byte>) {
    && (DecodeProbe(b).Ok? ==> ProbeInRange(DecodeProbe(b).value) && EntryOf(DecodeProbe(b).value) in s.emitted)
    && (DecodeProbeReply(b).Ok? ==>
          ProbeInRange(DecodeProbeReply(b).value.probe) && EntryOf(DecodeProbeReply(b).value.probe) in s.echoed)
  }

  ghost predicate HeldOk(s: System, h: Held) {
    && ProbeInRange(h.reply.probe) && EntryOf(h.reply.probe) in s.echoed
    && h.reply.probe.txNs <= h.nowNs <= s.time
  }

  ghost predicate TravelOk(pr: Params, s: System) {
    && s.stamp <= s.time
    && (forall e :: e in s.emitted ==> e.plane < pr.n && e.txNs <= s.time)
    && (forall e :: e in s.echoed ==> e in s.emitted)
    && (forall b :: b in s.net ==> PayloadOk(s, b))
    && (forall h :: h in s.held ==> HeldOk(s, h))
  }

  lemma PayloadLasts(s: System, s': System, b: seq<Byte>)
    requires PayloadOk(s, b) && (forall e :: e in s.emitted ==> e in s'.emitted) && s.echoed <= s'.echoed
    ensures PayloadOk(s', b)
  {
  }

  lemma HeldLasts(s: System, s': System, h: Held)
    requires HeldOk(s, h) && s.time <= s'.time && s.echoed <= s'.echoed
    ensures HeldOk(s', h)
  {
  }

  /** A state that has grown by at most one good payload still travels well. */
  lemma TravelGrows(pr: Params, s: System, s': System, b: seq<Byte>)
    requires TravelOk(pr, s) && s'.net <= s.net + {b} && (b in s'.net ==> PayloadOk(s', b)) && s'.held == s.held
    requires s.time <= s'.time && s'.stamp <= s'.time && (forall e :: e in s.emitted ==> e in s'.emitted)
            && s.echoed <= s'.echoed
    requires forall e :: e in s'.emitted ==> e.plane < pr.n && e.txNs <= s'.time
    requires forall e :: e in s'.echoed ==> e in s'.emitted
    ensures TravelOk(pr, s')
  {
    forall x | x in s'.net ensures PayloadOk(s', x) {
      if x != b { PayloadLasts(s, s', x); }
    }
    forall h | h in s'.held ensures HeldOk(s', h) { HeldLasts(s, s', h); }
  }

  lemma OthersKeepTravel(pr: Params, s: System, s': System)
    requires TravelOk(pr, s) && s'.stamp <= s'.time && s.time <= s'.time
    requires s'.net == s.net && s'.held == s.held && (forall e :: e in s.emitted ==> e in s'.emitted)
            && s'.echoed == s.echoed
    requires forall e :: e in s'.emitted ==> e.plane < pr.n && e.txNs <= s'.time
    ensures TravelOk(pr, s')
  {
    forall b | b in s'.net ensures PayloadOk(s', b) { PayloadLasts(s, s', b); }
    forall h | h in s'.held ensures HeldOk(s', h) { HeldLasts(s, s', h); }
  }

  lemma EmittedPayload(s: System, probe: Probe, b: seq<Byte>)
    requires EncodeProbe(probe) == Ok(b) && EntryOf(probe) in s.emitted
    ensures PayloadOk(s, b)
  {
    ProbeRoundTrip(probe, []);
    assert b + [] == b;
  }

  lemma EmitKeepsTravel(pr: Params, s: System, p: nat)
    requires |s.clocks| == pr.n && p < pr.n && TravelOk(pr, s)
    ensures TravelOk(pr, DoEmit(pr, s, p))
  {
    var s' := DoEmit(pr, s, p);
    var probe := Probe(s.clocks[p].nextReqId, p, s.stamp, pr.tenantId, pr.srcId, pr.replyPort);
    if EncodeProbe(probe).Ok? {
      EmittedPayload(s', probe, EncodeProbe(probe).value);
      TravelGrows(pr, s, s', EncodeProbe(probe).value);
    } else {
      OthersKeepTravel(pr, s, s');
    }
  }

  lemma EchoedPayload(s: System, payload: seq<Byte>)
    requires PayloadOk(s, payload) && ReplyTo(payload).Some?
    ensures var (probe, reply) := ReplyTo(payload).value;
            && ProbeInRange(probe) && EntryOf(probe) in s.emitted
            && DecodeProbe(reply).Err? && DecodeProbeReply(reply) == Ok(ProbeReply(probe, 0))
  {
    var (probe, reply) := ReplyTo(payload).value;
    ProbeReplyRoundTrip(ProbeReply(probe, 0), []);
    assert reply + [] == reply;
  }

  lemma EchoKeepsTravel(pr: Params, s: System, payload: seq<Byte>)
    requires payload in s.net && TravelOk(pr, s)
    ensures TravelOk(pr, DoEcho(s, payload))
  {
    if ReplyTo(payload).Some? {
      EchoedPayload(s, payload);
      TravelGrows(pr, s, DoEcho(s, payload), ReplyTo(payload).value.1);
    }
  }

  lemma ReceiveKeepsTravel(pr: Params, s: System, payload: seq<Byte>)
    requires payload in s.net && TravelOk(pr, s)
    ensures TravelOk(pr, DoReceive(s, payload))
  {
    var s' := DoReceive(s, payload);
    assert PayloadOk(s, payload);
    assert forall b :: b in s'.net ==> PayloadOk(s, b);
    forall h | h in s'.held ensures HeldOk(s', h) {
      if h in s.held {
        assert HeldOk(s, h);
      }
    }
  }

  lemma StepKeepsTravel(pr: Params, s: System, step: Step)
    requires |s.clocks| == pr.n && Enabled(pr, s, step) && TravelOk(pr, s)
    ensures TravelOk(pr, Do(pr, s, step))
  {
    match step
    case Emit(p) => EmitKeepsTravel(pr, s, p);
    case Echo(b) => EchoKeepsTravel(pr, s, b);
    case Receive(b) => ReceiveKeepsTravel(pr, s, b);
    case _ => OthersKeepTravel(pr, s, Do(pr, s, step));
  }

  // ---------------------------------------------------------------------
  // Results
  // ---------------------------------------------------------------------

  /** A success answers a probe that was emitted on its plane and echoed, with the
      time since its emission; a timeout is of a probe at least the timeout old. */
  ghost predicate OutcomeOk(pr: Params, s: System, o: Outcome) {
    && o.probe.plane < pr.n
    && match o.verdict
       case Answered(now, rtt) => o.probe in s.echoed && rtt == now - o.probe.txNs >= 0 && now <= s.time
       case TimedOut(swept) => o.probe.txNs <= swept - pr.timeoutNs && swept <= s.time
  }

  ghost predicate OutcomesOk(pr: Params, s: System) {
    && (forall o :: o in s.pending ==> OutcomeOk(pr, s, o))
    && (forall o :: o in Results(s.log) ==> OutcomeOk(pr, s, o))
  }

  lemma OutcomeLasts(pr: Params, s: System, s': System, o: Outcome)
    requires OutcomeOk(pr, s, o) && s.time <= s'.time && s.echoed <= s'.echoed
    ensures OutcomeOk(pr, s', o)
  {
  }

  /** What a step adds to the waiting results. */
  lemma MatchOutcomes(pr: Params, s: System, h: Held)
    requires ClocksOk(pr, s) && TravelOk(pr, s) && OutcomesOk(pr, s) && h in s.held
    ensures forall o :: o in DoMatch(s, h).pending ==> OutcomeOk(pr, s, o)
  {
    assert HeldOk(s, h);
    var probe := h.reply.probe;
    if !MatchRaises(s, h) && C.Answers(s.clocks[probe.planeId], probe.reqId, probe.txNs) {
      var c := s.clocks[probe.planeId];
      assert PlaneOk(pr, s, probe.planeId);
      var e := c.live[C.IndexOf(c.live, probe.reqId)];
      assert e in c.live && e == EntryOf(probe);
    }
  }

  lemma SweepOutcomes(pr: Params, s: System, p: nat, now: int)
    requires ClocksOk(pr, s) && OutcomesOk(pr, s) && p < pr.n && now <= s.time
    ensures forall o :: o in DoSweep(pr, s, p, now).pending ==> OutcomeOk(pr, s, o)
  {
    assert PlaneOk(pr, s, p);
    var expired := C.Expired(s.clocks[p].live, now - pr.timeoutNs);
    C.SweepPartitions(s.clocks[p].live, now - pr.timeoutNs);
    forall o | o in TimeoutsOf(expired, now) ensures OutcomeOk(pr, s, o) {
      assert o.probe in expired;
    }
  }

  lemma StepOutcomes(pr: Params, s: System, step: Step)
    requires ClocksOk(pr, s) && TravelOk(pr, s) && OutcomesOk(pr, s) && Enabled(pr, s, step)
    ensures forall o :: o in Do(pr, s, step).pending ==> OutcomeOk(pr, s, o)
    ensures forall o :: o in Results(Do(pr, s, step).log) ==> OutcomeOk(pr, s, o)
  {
    match step
    case Match(h) => MatchOutcomes(pr, s, h);
    case Sweep(p, now) => SweepOutcomes(pr, s, p, now);
    case Record(i) => LogSnoc(s.log, ProbeResult(s.pending[i]));
    case Loss(p, seen, expected) => LogSnoc(s.log, LossWindow(p, seen, expected));
    case _ =>
  }

  lemma StepGrows(pr: Params, s: System, step: Step)
    requires |s.clocks| == pr.n && Enabled(pr, s, step)
    ensures s.time <= Do(pr, s, step).time && s.echoed <= Do(pr, s, step).echoed
  {
  }

  // ---------------------------------------------------------------------
  // Every reachable state
  // ---------------------------------------------------------------------

  ghost predicate Inv(pr: Params, s: System) {
    (forall e :: Ledger(s, e)) && ClocksOk(pr, s) && TableOk(pr, s) && TravelOk(pr, s) && OutcomesOk(pr, s)
  }

  lemma StepKeepsInv(pr: Params, s: System, step: Step)
    requires pr.cap >= 1 && Inv(pr, s) && Enabled(pr, s, step)
    ensures Inv(pr, Do(pr, s, step))
  {
    forall e ensures Ledger(Do(pr, s, step), e) { StepKeepsLedger(pr, s, step, e); }
    StepKeepsClocks(pr, s, step);
    StepKeepsTable(pr, s, step);
    StepKeepsTravel(pr, s, step);
    StepOutcomes(pr, s, step);
    StepGrows(pr, s, step);
    var s' := Do(pr, s, step);
    forall o | OutcomeOk(pr, s, o) ensures OutcomeOk(pr, s', o) { OutcomeLasts(pr, s, s', o); }
  }

  lemma {:induction false} NothingLive(n: nat, e: C.Entry)
    ensures Live(seq(n, _ => C.IDLE), e) == 0
  {
    if n > 0 {
      var clocks := seq(n, _ => C.IDLE);
      assert clocks[..n - 1] == seq(n - 1, _ => C.IDLE);
      NothingLive(n - 1, e);
    }
  }

  lemma {:induction false} ReachableInv(pr: Params, now: int, steps: seq<Step>, s: System)
    requires pr.cap >= 1 && Reaches(pr, now, steps, s)
    ensures Inv(pr, s)
  {
    if steps == [] {
      forall e ensures Ledger(s, e) { NothingLive(pr.n, e); }
    } else {
      var init, step := steps[..|steps| - 1], steps[|steps| - 1];
      var before :| Reaches(pr, now, init, before)
        && |before.clocks| == pr.n && Enabled(pr, before, step) && s == Do(pr, before, step);
      ReachableInv(pr, now, init, before);
      StepKeepsInv(pr, before, step);
    }
  }

  /** However the network loses, duplicates and reorders, a probe identity has at
      most as many results, waiting and recorded, as probes emitted with it. */
  lemma AtMostOneResultEach(pr: Params, now: int, steps: seq<Step>, s: System, e: C.Entry)
    requires pr.cap >= 1 && Reaches(pr, now, steps, s)
    ensures Of(s.pending, e) + Of(Results(s.log), e) <= Count(s.emitted, e)
  {
    ReachableInv(pr, now, steps, s);
    assert Ledger(s, e);
  }

  lemma TwoOccurrences(a: seq<Outcome>, i: nat, j: nat)
    requires i < j < |a| && a[i].probe == a[j].probe
    ensures Of(a, a[i].probe) >= 2
  {
    var e := a[i].probe;
    OfRemove(a, j, e);
    var b := a[..j] + a[j + 1..];
    assert b[i] == a[i];
    OfRemove(b, i, e);
  }

  /** So a probe whose (plane, req_id, tx_ns) no other probe shares is recorded at
      most once: never as a success and a timeout. */
  lemma NeverBothVerdicts(pr: Params, now: int, steps: seq<Step>, s: System, i: nat, j: nat)
    requires pr.cap >= 1 && Reaches(pr, now, steps, s)
    requires i < |Results(s.log)| && j < |Results(s.log)| && Results(s.log)[i].probe == Results(s.log)[j].probe
    requires Count(s.emitted, Results(s.log)[i].probe) == 1
    ensures i == j
  {
    AtMostOneResultEach(pr, now, steps, s, Results(s.log)[i].probe);
    if i < j {
      TwoOccurrences(Results(s.log), i, j);
    } else if j < i {
      TwoOccurrences(Results(s.log), j, i);
    }
  }

  /** Every recorded success is of a probe that was emitted on its plane and echoed,
      with the time from its emission to its arrival, never negative; every recorded
      timeout is of an emitted probe at least the timeout old. */
  lemma RecordedResultsAreReal(pr: Params, now: int, steps: seq<Step>, s: System, o: Outcome)
    requires pr.cap >= 1 && Reaches(pr, now, steps, s) && o in Results(s.log)
    ensures o.probe in s.emitted && o.probe.plane < pr.n
    ensures match o.verdict
            case Answered(at, rtt) => o.probe in s.echoed && rtt == at - o.probe.txNs && rtt >= 0 && at <= s.time
            case TimedOut(swept) => o.probe.txNs <= swept - pr.timeoutNs && swept <= s.time
  {
    ReachableInv(pr, now, steps, s);
    assert OutcomeOk(pr, s, o);
    AtMostOneResultEach(pr, now, steps, s, o.probe);
    OfAtLeastOne(Results(s.log), o);
    CountedIsIn(s.emitted, o.probe);
  }

  lemma {:induction false} CountedIsIn(d: seq<C.Entry>, e: C.Entry)
    requires Count(d, e) >= 1
    ensures e in d
  {
    if d[0] != e {
      CountedIsIn(d[1..], e);
    }
  }

  lemma OfAtLeastOne(a: seq<Outcome>, o: Outcome)
    requires o in a
    ensures Of(a, o.probe) >= 1
  {
    var i :| 0 <= i < |a| && a[i] == o;
    OfRemove(a, i, o.probe);
  }

  /** No step of a run raises: a reply always names a plane the sender has, and a
      result to record always has a plane and, if a success, an RTT of at least 0. */
  lemma NothingRaises(pr: Params, now: int, steps: seq<Step>, s: System)
    requires pr.cap >= 1 && Reaches(pr, now, steps, s)
    ensures forall h :: h in s.held ==> !MatchRaises(s, h)
    ensures forall o :: o in s.pending ==> !RecordRaises(s, o)
  {
    ReachableInv(pr, now, steps, s);
    forall h | h in s.held ensures !MatchRaises(s, h) {
      assert HeldOk(s, h);
      assert EntryOf(h.reply.probe) in s.emitted;
    }
    forall o | o in s.pending ensures !RecordRaises(s, o) {
      assert OutcomeOk(pr, s, o);
    }
  }

  lemma PutIsFound(d: seq<C.Entry>, e: C.Entry)
    ensures C.Has(C.Put(d, e), e.reqId) && C.Put(d, e)[C.IndexOf(C.Put(d, e), e.reqId)] == e
  {
    var put := C.Put(d, e);
    var i := C.IndexOf(d, e.reqId);
    assert put[i] == e;
    assert forall j :: 0 <= j < i ==> put[j] == d[j];
  }

  ghost predicate PlaneOfLive(c: C.PlaneClock, p: nat) { forall e :: e in c.live ==> e.plane == p }

  function NextProbe(pr: Params, s: System, p: nat): Probe
    requires p < |s.clocks|
  {
    Probe(s.clocks[p].nextReqId, p, s.stamp, pr.tenantId, pr.srcId, pr.replyPort)
  }

  /** The payload of plane p's next probe, and the receiver's reply to it. */
  ghost predicate OnTheWire(pr: Params, s: System, p: nat, b: seq<Byte>, reply: seq<Byte>)
    requires p < |s.clocks|
  {
    EncodeProbe(NextProbe(pr, s, p)) == Ok(b) && EncodeProbeReply(ProbeReply(NextProbe(pr, s, p), 0)) == Ok(reply)
  }

  lemma WireCarries(pr: Params, s: System, p: nat, b: seq<Byte>, reply: seq<Byte>)
    requires p < |s.clocks| && OnTheWire(pr, s, p, b, reply)
    ensures ReplyTo(b) == Some((NextProbe(pr, s, p), reply))
    ensures DecodeProbeReply(reply) == Ok(ProbeReply(NextProbe(pr, s, p), 0))
  {
    ProbeRoundTrip(NextProbe(pr, s, p), []);
    ProbeReplyRoundTrip(ProbeReply(NextProbe(pr, s, p), 0), []);
    assert b + [] == b && reply + [] == reply;
  }

  lemma EmitAnswers(cap: nat, c: C.PlaneClock, p: nat, stamp: int)
    requires PlaneOfLive(c, p)
    ensures C.Answers(C.EmitStep(cap, c, p, stamp), c.nextReqId, stamp) && PlaneOfLive(C.EmitStep(cap, c, p, stamp), p)
  {
    PutIsFound(C.Room(cap, c.live), C.Entry(c.nextReqId, p, stamp));
  }

  lemma EmitSends(pr: Params, s: System, p: nat, b: seq<Byte>)
    requires p < |s.clocks| && EncodeProbe(NextProbe(pr, s, p)) == Ok(b) && PlaneOfLive(s.clocks[p], p)
    ensures b in DoEmit(pr, s, p).net && |DoEmit(pr, s, p).clocks| == |s.clocks|
    ensures DoEmit(pr, s, p).pending == s.pending
    ensures C.Answers(DoEmit(pr, s, p).clocks[p], s.clocks[p].nextReqId, s.stamp)
    ensures PlaneOfLive(DoEmit(pr, s, p).clocks[p], p)
  {
    EmitAnswers(pr.cap, s.clocks[p], p, s.stamp);
  }

  lemma MatchWaits(s: System, reply: ProbeReply, now: int)
    requires !MatchRaises(s, Held(reply, now))
    requires C.Answers(s.clocks[reply.probe.planeId], reply.probe.reqId, reply.probe.txNs)
    requires PlaneOfLive(s.clocks[reply.probe.planeId], reply.probe.planeId)
    ensures DoMatch(s, Held(reply, now)).pending
         == s.pending + [Outcome(EntryOf(reply.probe), Answered(now, now - reply.probe.txNs))]
  {
  }

  lemma EchoIs(s: System, b: seq<Byte>, probe: Probe, reply: seq<Byte>)
    requires ReplyTo(b) == Some((probe, reply)) && probe.reqId >= 0 && probe.planeId >= 0
    ensures DoEcho(s, b) == s.(net := s.net + {reply}, echoed := s.echoed + {EntryOf(probe)})
  {
  }

  lemma ReceiveIs(s: System, b: seq<Byte>, reply: ProbeReply)
    requires DecodeProbeReply(b) == Ok(reply)
    ensures DoReceive(s, b) == s.(held := s.held + {Held(reply, s.time)})
  {
  }

  lemma ReachablePlane(pr: Params, now: int, steps: seq<Step>, s: System, p: nat)
    requires pr.cap >= 1 && Reaches(pr, now, steps, s) && p < pr.n
    ensures p < |s.clocks| && PlaneOfLive(s.clocks[p], p)
  {
    ReachableInv(pr, now, steps, s);
    assert PlaneOk(pr, s, p);
  }

  /** The state after a payload was echoed and, at `later`, its reply received. */
  function BackAt(s: System, b: seq<Byte>, reply: seq<Byte>, later: int): System {
    DoReceive(DoEcho(s, b).(time := later), reply)
  }

  lemma BackAtIs(s: System, b: seq<Byte>, probe: Probe, reply: seq<Byte>, later: int)
    requires ReplyTo(b) == Some((probe, reply)) && probe.reqId >= 0 && probe.planeId >= 0
    requires DecodeProbeReply(reply) == Ok(ProbeReply(probe, 0))
    ensures reply in DoEcho(s, b).net
    ensures var back := BackAt(s, b, reply, later);
            Held(ProbeReply(probe, 0), later) in back.held && back.clocks == s.clocks && back.pending == s.pending
  {
    EchoIs(s, b, probe, reply);
    ReceiveIs(DoEcho(s, b).(time := later), reply, ProbeReply(probe, 0));
  }

  /** Echoing b, receiving the reply at `later` and matching it are all enabled in
      turn, and leave a success with round-trip time `later - tx_ns` waiting. */
  ghost predicate Succeeds(s: System, b: seq<Byte>, probe: Probe, reply: seq<Byte>, later: int)
    requires probe.reqId >= 0 && probe.planeId >= 0
  {
    var held, back := Held(ProbeReply(probe, 0), later), BackAt(s, b, reply, later);
    && b in s.net && reply in DoEcho(s, b).net && held in back.held
    && DoMatch(back, held).pending == s.pending + [Outcome(EntryOf(probe), Answered(later, later - probe.txNs))]
  }

  lemma ReturnSucceeds(s: System, b: seq<Byte>, probe: Probe, reply: seq<Byte>, later: int)
    requires b in s.net && ReplyTo(b) == Some((probe, reply)) && DecodeProbeReply(reply) == Ok(ProbeReply(probe, 0))
    requires probe.reqId >= 0 && 0 <= probe.planeId < |s.clocks|
    requires C.Answers(s.clocks[probe.planeId], probe.reqId, probe.txNs)
            && PlaneOfLive(s.clocks[probe.planeId], probe.planeId)
    ensures Succeeds(s, b, probe, reply, later)
  {
    BackAtIs(s, b, probe, reply, later);
    var back := BackAt(s, b, reply, later);
    assert !MatchRaises(back, Held(ProbeReply(probe, 0), later));
    MatchWaits(back, ProbeReply(probe, 0), later);
  }

  lemma {:induction false} CountInIff(d: seq<C.Entry>, e: C.Entry)
    ensures Count(d, e) > 0 <==> e in d
  {
    if d != [] {
      CountInIff(d[1..], e);
      assert d == [d[0]] + d[1..];
    }
  }

  /** An entry is outstanding on its own plane alone. */
  lemma {:induction false} LiveOnOwnPlane(clocks: seq<C.PlaneClock>, e: C.Entry)
    requires forall p :: 0 <= p < |clocks| ==> PlaneOfLive(clocks[p], p)
    ensures Live(clocks, e) == if e.plane < |clocks| then Count(clocks[e.plane].live, e) else 0
  {
    if clocks != [] {
      var n := |clocks| - 1;
      LiveOnOwnPlane(clocks[..n], e);
      assert forall p :: 0 <= p < n ==> clocks[..n][p] == clocks[p];
      CountInIff(clocks[n].live, e);
    }
  }

  /** A probe with this identity has neither a result, waiting or recorded, nor been dropped. */
  ghost predicate Unresolved(s: System, e: C.Entry) {
    Of(s.pending, e) + Of(Results(s.log), e) + Count(s.dropped, e) < Count(s.emitted, e)
  }

  lemma UnresolvedIffLive(pr: Params, s: System, e: C.Entry)
    requires Inv(pr, s)
    ensures Unresolved(s, e) <==> e.plane < pr.n && e in s.clocks[e.plane].live
  {
    assert Ledger(s, e);
    forall p | 0 <= p < pr.n ensures PlaneOfLive(s.clocks[p], p) { assert PlaneOk(pr, s, p); }
    LiveOnOwnPlane(s.clocks, e);
    if e.plane < pr.n { CountInIff(s.clocks[e.plane].live, e); }
  }

  lemma UnresolvedIsLive(pr: Params, now: int, steps: seq<Step>, s: System, e: C.Entry)
    requires pr.cap >= 1 && Reaches(pr, now, steps, s)
    ensures |s.clocks| == pr.n
    ensures Unresolved(s, e) <==> e.plane < pr.n && e in s.clocks[e.plane].live
    ensures e.plane < pr.n ==> C.DistinctIds(s.clocks[e.plane].live)
  {
    ReachableInv(pr, now, steps, s);
    UnresolvedIffLive(pr, s, e);
    assert e.plane < pr.n ==> PlaneOk(pr, s, e.plane);
  }

  lemma AnswersIffLive(c: C.PlaneClock, e: C.Entry)
    requires C.DistinctIds(c.live) && PlaneOfLive(c, e.plane)
    ensures C.Answers(c, e.reqId, e.txNs) <==> e in c.live
  {
    var i := C.IndexOf(c.live, e.reqId);
    if e in c.live {
      var j :| 0 <= j < |c.live| && c.live[j] == e;
      assert j == i;
    }
    if C.Answers(c, e.reqId, e.txNs) {
      assert c.live[i] in c.live;
    }
  }

  lemma HeldInRange(pr: Params, now: int, steps: seq<Step>, s: System, h: Held)
    requires pr.cap >= 1 && Reaches(pr, now, steps, s) && h in s.held
    ensures h.reply.probe.reqId >= 0 && 0 <= h.reply.probe.planeId < pr.n == |s.clocks|
  {
    ReachableInv(pr, now, steps, s);
    assert HeldOk(s, h) && EntryOf(h.reply.probe) in s.emitted;
  }

  lemma MatchIff(s: System, h: Held)
    requires h.reply.probe.reqId >= 0 && 0 <= h.reply.probe.planeId < |s.clocks|
    requires C.DistinctIds(s.clocks[h.reply.probe.planeId].live)
    requires PlaneOfLive(s.clocks[h.reply.probe.planeId], h.reply.probe.planeId)
    ensures var e := EntryOf(h.reply.probe);
            if e in s.clocks[e.plane].live
            then DoMatch(s, h).pending == s.pending + [Outcome(e, Answered(h.nowNs, h.nowNs - e.txNs))]
            else DoMatch(s, h) == s
  {
    AnswersIffLive(s.clocks[h.reply.probe.planeId], EntryOf(h.reply.probe));
    if EntryOf(h.reply.probe) in s.clocks[h.reply.probe.planeId].live {
      MatchWaits(s, h.reply, h.nowNs);
    }
  }

  /** Completeness, in every reachable state, whatever happened between: matching a reply
      that was received leaves a success with the probe's true round-trip time waiting
      exactly if its probe is unresolved, and changes nothing otherwise. */
  lemma RoundTripSucceeds(pr: Params, now: int, steps: seq<Step>, s: System, h: Held)
    requires pr.cap >= 1 && Reaches(pr, now, steps, s) && h in s.held
    ensures h.reply.probe.reqId >= 0 && h.reply.probe.planeId >= 0
    ensures var e := EntryOf(h.reply.probe);
            if Unresolved(s, e)
            then DoMatch(s, h).pending == s.pending + [Outcome(e, Answered(h.nowNs, h.nowNs - e.txNs))]
            else DoMatch(s, h) == s
  {
    HeldInRange(pr, now, steps, s, h);
    UnresolvedIsLive(pr, now, steps, s, EntryOf(h.reply.probe));
    ReachablePlane(pr, now, steps, s, h.reply.probe.planeId);
    MatchIff(s, h);
  }

  // ---------------------------------------------------------------------
  // What ends an outstanding probe
  // ---------------------------------------------------------------------

  /** Only these steps resolve a probe: matching a reply to it, sweeping its plane when it
      is old enough, and an emit on its plane that evicts it or takes over its live req_id
      (and is not a second probe with the same id and stamp). */
  predicate Resolves(pr: Params, s: System, step: Step, e: C.Entry) {
    match step
    case Match(h) => h.reply.probe.reqId >= 0 && h.reply.probe.planeId >= 0 && EntryOf(h.reply.probe) == e
    case Sweep(p, now) => p == e.plane && e.txNs <= now - pr.timeoutNs
    case Emit(p) =>
      && p == e.plane && p < |s.clocks|
      && var c := s.clocks[p]; e in Lost(pr.cap, c.live, c.nextReqId) && e != C.Entry(c.nextReqId, p, s.stamp)
    case _ => false
  }

  lemma {:induction false} DistinctCount(d: seq<C.Entry>, e: C.Entry)
    requires C.DistinctIds(d)
    ensures Count(d, e) <= 1
  {
    if d != [] {
      DistinctCount(d[1..], e);
      CountInIff(d[1..], e);
      assert forall j :: 0 < j < |d| ==> d[j].reqId != d[0].reqId;
    }
  }

  lemma EmitResolves(cap: nat, live: seq<C.Entry>, x: C.Entry, e: C.Entry)
    requires C.DistinctIds(live) && e in live
    ensures e in C.Put(C.Room(cap, live), x) <==> !(e in Lost(cap, live, x.reqId) && e != x)
  {
    var put := C.Put(C.Room(cap, live), x);
    LostIsTheRest(cap, live, x, e);
    DistinctCount(live, e);
    CountInIff(live, e);
    CountInIff(put, e);
    CountInIff(Lost(cap, live, x.reqId), e);
    if e == x { assert put[C.IndexOf(C.Room(cap, live), x.reqId)] == x; }
  }

  lemma MatchResolves(c: C.PlaneClock, x: C.Entry, e: C.Entry)
    requires C.DistinctIds(c.live) && PlaneOfLive(c, x.plane) && e in c.live
    ensures e in C.MatchStep(c, x.reqId, x.txNs).live <==> e != x
  {
    AnswersIffLive(c, x);
    if x in c.live {
      var i := C.IndexOf(c.live, x.reqId);
      assert c.live[i] in c.live && c.live[i] == x;
      DelTakesOne(c.live, x.reqId, e);
      DistinctCount(c.live, e);
      CountInIff(c.live, e);
      CountInIff(C.Del(c.live, x.reqId), e);
    }
  }

  lemma LiveUntil(pr: Params, s: System, step: Step, e: C.Entry)
    requires ClocksOk(pr, s) && Enabled(pr, s, step) && e.plane < pr.n && e in s.clocks[e.plane].live
    ensures |Do(pr, s, step).clocks| == pr.n
    ensures e in Do(pr, s, step).clocks[e.plane].live <==> !Resolves(pr, s, step, e)
  {
    var c := s.clocks[e.plane];
    assert PlaneOk(pr, s, e.plane);
    match step
    case Emit(p) =>
      if p == e.plane { EmitResolves(pr.cap, c.live, C.Entry(c.nextReqId, p, s.stamp), e); }
    case Match(h) =>
      if !MatchRaises(s, h) && h.reply.probe.planeId == e.plane { MatchResolves(c, EntryOf(h.reply.probe), e); }
    case Sweep(p, now) =>
      if p == e.plane { C.SweepPartitions(c.live, now - pr.timeoutNs); }
    case _ =>
  }

  /** And in every reachable state a step leaves an unresolved probe unresolved exactly
      unless it is one of those. */
  lemma UnresolvedUntil(pr: Params, now: int, steps: seq<Step>, s: System, step: Step, e: C.Entry)
    requires pr.cap >= 1 && Reaches(pr, now, steps, s) && Enabled(pr, s, step) && Unresolved(s, e)
    ensures |s.clocks| == pr.n && (Unresolved(Do(pr, s, step), e) <==> !Resolves(pr, s, step, e))
  {
    ReachableInv(pr, now, steps, s);
    StepKeepsInv(pr, s, step);
    UnresolvedIffLive(pr, s, e);
    UnresolvedIffLive(pr, Do(pr, s, step), e);
    LiveUntil(pr, s, step, e);
  }

  /** After a sweep no probe of its plane that old is unresolved. */
  lemma NothingOverdue(pr: Params, now: int, steps: seq<Step>, s: System, p: nat, at: int, e: C.Entry)
    requires pr.cap >= 1 && Reaches(pr, now, steps, s) && Enabled(pr, s, Sweep(p, at)) && e.plane == p
    ensures |s.clocks| == pr.n && (Unresolved(Do(pr, s, Sweep(p, at)), e) ==> e.txNs > at - pr.timeoutNs)
  {
    ReachableInv(pr, now, steps, s);
    StepKeepsInv(pr, s, Sweep(p, at));
    UnresolvedIffLive(pr, Do(pr, s, Sweep(p, at)), e);
    C.SweepPartitions(s.clocks[p].live, at - pr.timeoutNs);
  }

  /** In particular through both codecs: a probe just emitted, echoed, received and
      matched, with nothing in between. */
  lemma BackToBackSucceeds(pr: Params, now: int, steps: seq<Step>, s: System, p: nat, later: int)
    requires pr.cap >= 1 && Reaches(pr, now, steps, s)
    requires p < |s.clocks| == pr.n && ProbeInRange(NextProbe(pr, s, p)) && later >= s.time
    ensures var probe := NextProbe(pr, s, p);
            && EncodeProbe(probe).Ok? && EncodeProbeReply(ProbeReply(probe, 0)).Ok?
            && Succeeds(DoEmit(pr, s, p), EncodeProbe(probe).value, probe, EncodeProbeReply(ProbeReply(probe,
                    0)).value, later)
    ensures DoEmit(pr, s, p).pending == s.pending
  {
    var probe := NextProbe(pr, s, p);
    var b, reply := EncodeProbe(probe).value, EncodeProbeReply(ProbeReply(probe, 0)).value;
    ReachablePlane(pr, now, steps, s, p);
    EmitSends(pr, s, p, b);
    WireCarries(pr, s, p, b, reply);
    ReturnSucceeds(DoEmit(pr, s, p), b, probe, reply, later);
  }

  // ---------------------------------------------------------------------
  // Runs that end in a recorded result
  // ---------------------------------------------------------------------

  lemma Extend(pr: Params, now: int, steps: seq<Step>, s: System, step: Step)
    requires Reaches(pr, now, steps, s) && |s.clocks| == pr.n && Enabled(pr, s, step)
    ensures Reaches(pr, now, steps + [step], Do(pr, s, step))
  {
    assert (steps + [step])[..|steps|] == steps;
  }

  /** Nothing that was recorded, waits or is accounted for has changed. */
  ghost predicate SameBooks(s: System, s': System) {
    && s'.pending == s.pending && s'.log == s.log && s'.recs == s.recs
    && s'.emitted == s.emitted && s'.dropped == s.dropped && |s'.clocks| == |s.clocks|
  }

  /** One more result than in s is recorded, of e with this verdict, and nothing else. */
  ghost predicate Recorded(pr: Params, s: System, e: C.Entry, v: Verdict, after: System) {
    && Results(after.log) == Results(s.log) + [Outcome(e, v)] && after.log[..|after.log| - 1] == s.log
    && after.recs == E.Apply(pr.cfg, s.recs, E.Event(e.plane, if v.Answered? then E.ProbeOk else E.ProbeTimeout))
  }

  /** Recording the result that waits at i. */
  lemma RecordRun(pr: Params, now: int, steps: seq<Step>, s: System, i: nat, o: Outcome) returns (after: System)
    requires pr.cap >= 1 && Reaches(pr, now, steps, s) && i < |s.pending| && s.pending[i] == o
    ensures Reaches(pr, now, steps + [Record(i)], after) && after.time == s.time
    ensures after.pending == s.pending[..i] + s.pending[i + 1..]
    ensures Recorded(pr, s, o.probe, o.verdict, after)
  {
    NothingRaises(pr, now, steps, s);
    ReachableInv(pr, now, steps, s);
    Extend(pr, now, steps, s, Record(i));
    after := Do(pr, s, Record(i));
    assert s.pending[i] in s.pending;
    LogSnoc(s.log, ProbeResult(s.pending[i]));
  }

  /** Taking a reply to an outstanding probe off the network at `later`. */
  lemma ReceiveRun(pr: Params, now: int, steps: seq<Step>, s: System, reply: seq<Byte>, probe: Probe, later: int)
    returns (after: System)
    requires pr.cap >= 1 && Reaches(pr, now, steps, s) && reply in s.net && later >= s.time
    requires DecodeProbeReply(reply) == Ok(ProbeReply(probe, 0)) && ProbeInRange(probe)
    ensures Reaches(pr, now, steps + [Tick(later), Receive(reply)], after)
    ensures after.time == later && SameBooks(s, after) && Held(ProbeReply(probe, 0), later) in after.held
  {
    ReachableInv(pr, now, steps, s);
    Extend(pr, now, steps, s, Tick(later));
    var ticked := Do(pr, s, Tick(later));
    Extend(pr, now, steps + [Tick(later)], ticked, Receive(reply));
    after := Do(pr, ticked, Receive(reply));
    assert steps + [Tick(later)] + [Receive(reply)] == steps + [Tick(later), Receive(reply)];
  }

  lemma EchoedBack(probe: Probe, b: seq<Byte>) returns (reply: seq<Byte>)
    requires EncodeProbe(probe) == Ok(b)
    ensures EncodeProbeReply(ProbeReply(probe, 0)) == Ok(reply) && ReplyTo(b) == Some((probe, reply))
    ensures DecodeProbeReply(reply) == Ok(ProbeReply(probe, 0)) && ProbeInRange(probe)
  {
    ProbeRoundTrip(probe, []);
    ProbeReplyRoundTrip(ProbeReply(probe, 0), []);
    reply := EncodeProbeReply(ProbeReply(probe, 0)).value;
    assert b + [] == b && reply + [] == reply;
  }

  lemma EchoRun(pr: Params, now: int, steps: seq<Step>, s: System, b: seq<Byte>, probe: Probe)
    returns (reply: seq<Byte>, after: System)
    requires pr.cap >= 1 && Reaches(pr, now, steps, s) && b in s.net && EncodeProbe(probe) == Ok(b)
    ensures EncodeProbeReply(ProbeReply(probe, 0)) == Ok(reply)
    ensures DecodeProbeReply(reply) == Ok(ProbeReply(probe, 0))
    ensures Reaches(pr, now, steps + [Echo(b)], after)
    ensures after.time == s.time && SameBooks(s, after) && reply in after.net
  {
    ReachableInv(pr, now, steps, s);
    reply := EchoedBack(probe, b);
    EchoIs(s, b, probe, reply);
    Extend(pr, now, steps, s, Echo(b));
    after := Do(pr, s, Echo(b));
  }

  /** The verdict that a held reply gives its probe. */
  function VerdictOf(h: Held): Verdict { Answered(h.nowNs, h.nowNs - h.reply.probe.txNs) }

  /** Matching a held reply to an unresolved probe. */
  lemma MatchRun(pr: Params, now: int, steps: seq<Step>, s: System, h: Held) returns (after: System)
    requires pr.cap >= 1 && Reaches(pr, now, steps, s) && h in s.held && ProbeInRange(h.reply.probe)
    requires Unresolved(s, EntryOf(h.reply.probe))
    ensures Reaches(pr, now, steps + [Match(h)], after) && after.time == s.time
    ensures after.pending == s.pending + [Outcome(EntryOf(h.reply.probe), VerdictOf(h))]
    ensures after.log == s.log && after.recs == s.recs
  {
    ReachableInv(pr, now, steps, s);
    RoundTripSucceeds(pr, now, steps, s, h);
    Extend(pr, now, steps, s, Match(h));
    after := Do(pr, s, Match(h));
  }

  function Answering(b: seq<Byte>, reply: seq<Byte>, probe: Probe, later: int, waiting: nat): seq<Step> {
    [Echo(b), Tick(later), Receive(reply), Match(Held(ProbeReply(probe, 0), later)), Record(waiting)]
  }

  lemma AnsweringIs(steps: seq<Step>, b: seq<Byte>, reply: seq<Byte>, probe: Probe, later: int, waiting: nat)
    ensures steps + Answering(b, reply, probe, later, waiting)
            == steps + [Echo(b)] + [Tick(later), Receive(reply)]
               + [Match(Held(ProbeReply(probe, 0), later)), Record(waiting)]
  {
  }

  /** Matching a held reply and recording the result that it leaves waiting. */
  lemma HeldRun(pr: Params, now: int, steps: seq<Step>, s: System, h: Held) returns (after: System)
    requires pr.cap >= 1 && Reaches(pr, now, steps, s) && h in s.held && ProbeInRange(h.reply.probe)
    requires Unresolved(s, EntryOf(h.reply.probe))
    ensures Reaches(pr, now, steps + [Match(h), Record(|s.pending|)], after)
    ensures after.time == s.time && after.pending == s.pending
    ensures Recorded(pr, s, EntryOf(h.reply.probe), VerdictOf(h), after)
  {
    var e := EntryOf(h.reply.probe);
    var matched := MatchRun(pr, now, steps, s, h);
    after := RecordRun(pr, now, steps + [Match(h)], matched, |s.pending|, Outcome(e, VerdictOf(h)));
    RecordedSince(pr, s, matched, e, VerdictOf(h), after);
    assert steps + [Match(h)] + [Record(|s.pending|)] == steps + [Match(h), Record(|s.pending|)];
    assert after.pending == s.pending;
  }

  lemma SameBooksSame(s: System, s': System, e: C.Entry)
    requires SameBooks(s, s')
    ensures Unresolved(s', e) <==> Unresolved(s, e)
  {
  }

  lemma RecordedSince(pr: Params, s: System, s': System, e: C.Entry, v: Verdict, after: System)
    requires s'.log == s.log && s'.recs == s.recs && Recorded(pr, s', e, v, after)
    ensures Recorded(pr, s, e, v, after)
  {
  }

  /** From every reachable state, a probe whose payload is on the network and that is
      unresolved can still be answered at any later time: the run goes on to a state that
      records its success, with the true round-trip time, and nothing else. */
  lemma CanBeAnswered(pr: Params, now: int, steps: seq<Step>, s: System, b: seq<Byte>, probe: Probe, later: int)
    returns (reply: seq<Byte>, verdict: Verdict, after: System)
    requires pr.cap >= 1 && Reaches(pr, now, steps, s) && b in s.net && EncodeProbe(probe) == Ok(b) && later >= s.time
    requires ProbeInRange(probe) && Unresolved(s, EntryOf(probe))
    ensures Reaches(pr, now, steps + Answering(b, reply, probe, later, |s.pending|), after)
    ensures EncodeProbeReply(ProbeReply(probe, 0)) == Ok(reply) && after.time == later && after.pending == s.pending
    ensures Recorded(pr, s, EntryOf(probe), verdict, after) && verdict == Answered(later, later - probe.txNs)
  {
    var echoed, received;
    reply, echoed := EchoRun(pr, now, steps, s, b, probe);
    SameBooksSame(s, echoed, EntryOf(probe));
    received := ReceiveRun(pr, now, steps + [Echo(b)], echoed, reply, probe, later);
    SameBooksSame(echoed, received, EntryOf(probe));
    var h := Held(ProbeReply(probe, 0), later);
    after := HeldRun(pr, now, steps + [Echo(b)] + [Tick(later), Receive(reply)], received, h);
    verdict := VerdictOf(h);
    RecordedSince(pr, s, received, EntryOf(probe), verdict, after);
    AnsweringIs(steps, b, reply, probe, later, |s.pending|);
  }

  /** A new round's probe on plane p: it is on the network if it encodes, and unresolved. */
  lemma EmitRun(pr: Params, now: int, steps: seq<Step>, s: System, p: nat) returns (probe: Probe, after: System)
    requires pr.cap >= 1 && Reaches(pr, now, steps, s) && p < pr.n
    ensures |s.clocks| == pr.n && s.clocks[p].nextReqId >= 0
    ensures probe == Probe(s.clocks[p].nextReqId, p, s.time, pr.tenantId, pr.srcId, pr.replyPort)
    ensures Reaches(pr, now, steps + [StartRound, Emit(p)], after)
    ensures after.time == s.time && after.pending == s.pending && after.log == s.log && after.recs == s.recs
    ensures Unresolved(after, EntryOf(probe))
    ensures EncodeProbe(probe).Ok? ==> EncodeProbe(probe).value in after.net
  {
    ReachableInv(pr, now, steps, s);
    Extend(pr, now, steps, s, StartRound);
    var begun := Do(pr, s, StartRound);
    probe := NextProbe(pr, begun, p);
    Extend(pr, now, steps + [StartRound], begun, Emit(p));
    after := Do(pr, begun, Emit(p));
    assert steps + [StartRound] + [Emit(p)] == steps + [StartRound, Emit(p)];
    var live := C.Room(pr.cap, s.clocks[p].live);
    PutIsFound(live, EntryOf(probe));
    UnresolvedIsLive(pr, now, steps + [StartRound, Emit(p)], after, EntryOf(probe));
  }

  /** So the protocol does what it is for: from every reachable state, on every plane, a
      probe is sent and answered at any later time, and its success recorded. */
  lemma SuccessRun(pr: Params, now: int, steps: seq<Step>, s: System, p: nat, later: int)
    returns (b: seq<Byte>, reply: seq<Byte>, verdict: Verdict, after: System)
    requires pr.cap >= 1 && Reaches(pr, now, steps, s) && p < pr.n && later >= s.time
    requires p < |s.clocks| ==>
               ProbeInRange(Probe(s.clocks[p].nextReqId, p, s.time, pr.tenantId, pr.srcId, pr.replyPort))
    ensures |s.clocks| == pr.n
    ensures var probe := Probe(s.clocks[p].nextReqId, p, s.time, pr.tenantId, pr.srcId, pr.replyPort);
            && EncodeProbe(probe) == Ok(b) && EncodeProbeReply(ProbeReply(probe, 0)) == Ok(reply)
            && Reaches(pr, now, steps + [StartRound, Emit(p)] + Answering(b, reply, probe, later, |s.pending|), after)
            && after.time == later && after.pending == s.pending
            && Recorded(pr, s, EntryOf(probe), verdict, after) && verdict == Answered(later, later - s.time)
  {
    var probe, sent := EmitRun(pr, now, steps, s, p);
    b := EncodeProbe(probe).value;
    reply, verdict, after := CanBeAnswered(pr, now, steps + [StartRound, Emit(p)], sent, b, probe, later);
    RecordedSince(pr, s, sent, EntryOf(probe), verdict, after);
  }

  lemma TickRun(pr: Params, now: int, steps: seq<Step>, s: System, later: int) returns (after: System)
    requires pr.cap >= 1 && Reaches(pr, now, steps, s) && later >= s.time
    ensures Reaches(pr, now, steps + [Tick(later)], after)
    ensures after.time == later && SameBooks(s, after) && after.clocks == s.clocks && |s.clocks| == pr.n
    ensures after.stamp == s.stamp
  {
    ReachableInv(pr, now, steps, s);
    Extend(pr, now, steps, s, Tick(later));
    after := Do(pr, s, Tick(later));
  }

  /** Where in the results of a sweep an entry that was old enough stands. */
  lemma SweptAt(pr: Params, s: System, e: C.Entry, later: int) returns (i: nat)
    requires e.plane < |s.clocks| && e in s.clocks[e.plane].live && e.txNs <= later - pr.timeoutNs
    ensures var after := DoSweep(pr, s, e.plane, later);
            i < |after.pending| && after.pending[i] == Outcome(e, TimedOut(later))
  {
    var expired := C.Expired(s.clocks[e.plane].live, later - pr.timeoutNs);
    var j := ExpiredAt(s.clocks[e.plane].live, later - pr.timeoutNs, e);
    i := |s.pending| + j;
    assert TimeoutsOf(expired, later)[j] == Outcome(e, TimedOut(later));
  }

  lemma ExpiredAt(d: seq<C.Entry>, deadline: int, e: C.Entry) returns (j: nat)
    requires e in d && e.txNs <= deadline
    ensures j < |C.Expired(d, deadline)| && C.Expired(d, deadline)[j] == e
  {
    C.SweepPartitions(d, deadline);
    j :| 0 <= j < |C.Expired(d, deadline)| && C.Expired(d, deadline)[j] == e;
  }

  lemma SweepRun(pr: Params, now: int, steps: seq<Step>, s: System, e: C.Entry) returns (i: nat, after: System)
    requires pr.cap >= 1 && Reaches(pr, now, steps, s) && Unresolved(s, e) && e.txNs <= s.time - pr.timeoutNs
    ensures Reaches(pr, now, steps + [Sweep(e.plane, s.time)], after)
    ensures after.time == s.time && after.log == s.log && after.recs == s.recs
    ensures i < |after.pending| && after.pending[i] == Outcome(e, TimedOut(s.time))
  {
    UnresolvedIsLive(pr, now, steps, s, e);
    Extend(pr, now, steps, s, Sweep(e.plane, s.time));
    i := SweptAt(pr, s, e, s.time);
    after := Do(pr, s, Sweep(e.plane, s.time));
  }

  /** And a probe that stays unresolved for the timeout can be timed out, from every
      reachable state, and that is recorded. */
  lemma CanTimeOut(pr: Params, now: int, steps: seq<Step>, s: System, e: C.Entry, later: int)
    returns (i: nat, after: System)
    requires pr.cap >= 1 && Reaches(pr, now, steps, s) && Unresolved(s, e)
    requires later >= s.time && e.txNs <= later - pr.timeoutNs
    ensures Reaches(pr, now, steps + [Tick(later), Sweep(e.plane, later), Record(i)], after) && after.time == later
    ensures Recorded(pr, s, e, TimedOut(later), after)
  {
    var ticked, swept;
    ticked := TickRun(pr, now, steps, s, later);
    SameBooksSame(s, ticked, e);
    i, swept := SweepRun(pr, now, steps + [Tick(later)], ticked, e);
    var sofar := steps + [Tick(later)] + [Sweep(e.plane, later)];
    after := RecordRun(pr, now, sofar, swept, i, Outcome(e, TimedOut(later)));
    RecordedSince(pr, s, swept, e, TimedOut(later), after);
    assert sofar + [Record(i)] == steps + [Tick(later), Sweep(e.plane, later), Record(i)];
  }

  /** In particular one that was just sent and is never answered. */
  lemma TimeoutRun(pr: Params, now: int, steps: seq<Step>, s: System, p: nat, later: int)
    returns (i: nat, after: System)
    requires pr.cap >= 1 && Reaches(pr, now, steps, s) && p < pr.n && later >= s.time + pr.timeoutNs
    ensures |s.clocks| == pr.n
    ensures Reaches(pr, now, steps + [StartRound, Emit(p)] + [Tick(later), Sweep(p, later), Record(i)], after)
    ensures after.time == later && Recorded(pr, s, C.Entry(s.clocks[p].nextReqId, p, s.time), TimedOut(later), after)
  {
    var probe, sent := EmitRun(pr, now, steps, s, p);
    i, after := CanTimeOut(pr, now, steps + [StartRound, Emit(p)], sent, EntryOf(probe), later);
    RecordedSince(pr, s, sent, EntryOf(probe), TimedOut(later), after);
  }

  /** All probes of a round carry the clock as it was read when the round began, however
      late they are sent. */
  lemma LateEmitRun(pr: Params, now: int, steps: seq<Step>, s: System, p: nat, later: int) returns (after: System)
    requires pr.cap >= 1 && Reaches(pr, now, steps, s) && p < pr.n && later >= s.time
    ensures |s.clocks| == pr.n
    ensures Reaches(pr, now, steps + [StartRound] + [Tick(later)] + [Emit(p)], after) && after.time == later
    ensures after.emitted == s.emitted + [C.Entry(s.clocks[p].nextReqId, p, s.time)]
  {
    ReachableInv(pr, now, steps, s);
    Extend(pr, now, steps, s, StartRound);
    var ticked := TickRun(pr, now, steps + [StartRound], Do(pr, s, StartRound), later);
    assert ticked.stamp == s.time;
    Extend(pr, now, steps + [StartRound] + [Tick(later)], ticked, Emit(p));
    after := Do(pr, ticked, Emit(p));
  }

  /** A loss window is recorded in every reachable state, with any counts. */
  lemma LossRun(pr: Params, now: int, steps: seq<Step>, s: System, p: nat, seen: nat, expected: nat)
    returns (after: System)
    requires pr.cap >= 1 && Reaches(pr, now, steps, s) && p < pr.n
    ensures Reaches(pr, now, steps + [Loss(p, seen, expected)], after)
    ensures Events(after.log) == Events(s.log) + [E.Event(p, E.Window(seen, expected))]
    ensures after.recs == E.Apply(pr.cfg, s.recs, E.Event(p, E.Window(seen, expected)))
  {
    ReachableInv(pr, now, steps, s);
    Extend(pr, now, steps, s, Loss(p, seen, expected));
    after := Do(pr, s, Loss(p, seen, expected));
    assert after.log[..|s.log|] == s.log;
  }

  /** So in every state of the protocol the floor holds, and the spray weights sum to
      1 and leave out exactly the AssumedBad planes. */
  lemma WeightsAreAlwaysUsable(pr: Params, now: int, steps: seq<Step>, s: System)
    requires pr.n >= 1 && pr.cap >= 1 && Reaches(pr, now, steps, s)
    ensures |s.recs| == pr.n && E.Usable(s.recs) >= E.ResolveMinActive(pr.cfg, pr.n) >= 1
    ensures E.Sum(E.Weights(s.recs)) == 1.0
    ensures forall p :: 0 <= p < pr.n ==>
              E.Weights(s.recs)[p] >= 0.0 && (E.Weights(s.recs)[p] == 0.0 <==> s.recs[p].state.AssumedBad?)
  {
    ReachableInv(pr, now, steps, s);
    E.FloorHolds(pr.cfg, pr.n, Events(s.log));
    E.ReachableWeights(pr.cfg, pr.n, Events(s.log));
  }

  /** And no packet is sprayed on an AssumedBad plane, whatever its flow and number. */
  lemma SprayAvoidsBadPlanes(pr: Params, now: int, steps: seq<Step>, s: System, hash: nat, seqno: nat)
    requires pr.n >= 1 && pr.cap >= 1 && Reaches(pr, now, steps, s)
    ensures |s.recs| == pr.n && E.Sum(E.Weights(s.recs)) > 0.0
    ensures !s.recs[Pick(E.Weights(s.recs), hash, seqno)].state.AssumedBad?
  {
    ReachableInv(pr, now, steps, s);
    MrcPickAvoidsBadPlanes(pr.cfg, pr.n, Events(s.log), hash, seqno);
  }
}
