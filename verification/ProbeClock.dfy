/** Outstanding probes per plane and their timeouts (srv6_fabric/mrc/probe_clock.py).
    A Python dict is the sequence of its values in insertion order: writing to a
    key that is present keeps its place. */
module ProbeClock {
  import opened Wrappers

  const ID_SPACE: nat := 0x10000

  datatype Entry = Entry(reqId: nat, plane: nat, txNs: int)

  /** The position of a key, or the length if it is absent. */
  function IndexOf(d: seq<Entry>, id: nat): (i: nat)
    ensures i <= |d| && (i < |d| ==> d[i].reqId == id)
    ensures forall j :: 0 <= j < i ==> d[j].reqId != id
  {
    if d == [] then 0 else if d[0].reqId == id then 0 else 1 + IndexOf(d[1..], id)
  }

  predicate Has(d: seq<Entry>, id: nat) { IndexOf(d, id) < |d| }

  function Del(d: seq<Entry>, id: nat): seq<Entry> {
    var i := IndexOf(d, id);
    if i < |d| then d[..i] + d[i + 1..] else d
  }

  function Put(d: seq<Entry>, e: Entry): seq<Entry> {
    var i := IndexOf(d, e.reqId);
    if i < |d| then d[i := e] else d + [e]
  }

  function Kept(d: seq<Entry>, deadline: int): seq<Entry> {
    if d == [] then [] else (if d[0].txNs <= deadline then [] else [d[0]]) + Kept(d[1..], deadline)
  }

  function Expired(d: seq<Entry>, deadline: int): seq<Entry> {
    if d == [] then [] else (if d[0].txNs <= deadline then [d[0]] else []) + Expired(d[1..], deadline)
  }

  /** One plane. `evicted` and `overwritten` count what the code drops silently. */
  datatype PlaneClock = PlaneClock(
    nextReqId: nat,
    live: seq<Entry>,
    emitted: nat,
    replied: nat,
    timedOut: nat,
    evicted: nat,
    overwritten: nat)

  const IDLE := PlaneClock(0, [], 0, 0, 0, 0, 0)

  /** The oldest entry makes room when the plane is at its cap. */
  function Room(cap: nat, live: seq<Entry>): seq<Entry> {
    if |live| >= cap && live != [] then live[1..] else live
  }

  function EmitStep(cap: nat, c: PlaneClock, plane: nat, now: int): PlaneClock {
    var room := Room(cap, c.live);
    c.(nextReqId := (c.nextReqId + 1) % ID_SPACE,
       live := Put(room, Entry(c.nextReqId, plane, now)),
       emitted := c.emitted + 1,
       evicted := c.evicted + |c.live| - |room|,
       overwritten := c.overwritten + (if Has(room, c.nextReqId) then 1 else 0))
  }

  predicate Answers(c: PlaneClock, id: nat, tx: int) {
    Has(c.live, id) && c.live[IndexOf(c.live, id)].txNs == tx
  }

  function MatchStep(c: PlaneClock, id: nat, tx: int): PlaneClock {
    if Answers(c, id, tx) then c.(live := Del(c.live, id), replied := c.replied + 1) else c
  }

  function SweepStep(c: PlaneClock, deadline: int): PlaneClock {
    c.(live := Kept(c.live, deadline), timedOut := c.timedOut + |Expired(c.live, deadline)|)
  }

  // ---------------------------------------------------------------------
  // What every operation keeps
  // ---------------------------------------------------------------------

  ghost predicate DistinctIds(d: seq<Entry>) {
    forall i, j :: 0 <= i < j < |d| ==> d[i].reqId != d[j].reqId
  }

  /** A key is live at most once, at most `cap` are, and every emitted probe was
      answered, timed out, is still live, was evicted or was overwritten. */
  ghost predicate Sound(cap: nat, c: PlaneClock) {
    && DistinctIds(c.live) && |c.live| <= cap
    && c.nextReqId == c.emitted % ID_SPACE
    && c.emitted == c.replied + c.timedOut + |c.live| + c.evicted + c.overwritten
  }

  lemma EmitKeepsSound(cap: nat, c: PlaneClock, plane: nat, now: int)
    requires cap >= 1 && Sound(cap, c)
    ensures Sound(cap, EmitStep(cap, c, plane, now))
  {
    ModSucc(c.emitted);
  }

  /** Below the cap an emit evicts nothing, and takes no entry but one with the id it reuses. */
  lemma BelowCapNothingGoes(cap: nat, c: PlaneClock, plane: nat, now: int)
    requires |c.live| < cap
    ensures var after := EmitStep(cap, c, plane, now);
            && after.evicted == c.evicted && Entry(c.nextReqId, plane, now) in after.live
            && forall e :: e in c.live && e.reqId != c.nextReqId ==> e in after.live
  {
    PutKeepsOthers(c.live, Entry(c.nextReqId, plane, now));
  }

  /** At the cap it evicts the first entry alone. */
  lemma AtCapFirstGoes(cap: nat, c: PlaneClock, plane: nat, now: int)
    requires 1 <= cap <= |c.live|
    ensures var after := EmitStep(cap, c, plane, now);
            && after.evicted == c.evicted + 1 && Entry(c.nextReqId, plane, now) in after.live
            && forall e :: e in c.live[1..] && e.reqId != c.nextReqId ==> e in after.live
  {
    PutKeepsOthers(c.live[1..], Entry(c.nextReqId, plane, now));
  }

  lemma PutKeepsOthers(d: seq<Entry>, x: Entry)
    ensures x in Put(d, x) && forall e :: e in d && e.reqId != x.reqId ==> e in Put(d, x)
  {
    var put := Put(d, x);
    assert put[IndexOf(d, x.reqId)] == x;
    forall e | e in d && e.reqId != x.reqId ensures e in put {
      var j :| 0 <= j < |d| && d[j] == e;
      assert put[j] == e;
    }
  }

  lemma ModSucc(n: nat)
    ensures (n % ID_SPACE + 1) % ID_SPACE == (n + 1) % ID_SPACE
  {
  }

  lemma MatchKeepsSound(cap: nat, c: PlaneClock, id: nat, tx: int)
    requires Sound(cap, c)
    ensures Sound(cap, MatchStep(c, id, tx))
    ensures !Answers(MatchStep(c, id, tx), id, tx)
  {
  }

  /** A sweep partitions the live entries, by age alone and in order. */
  lemma {:induction false} SweepPartitions(d: seq<Entry>, deadline: int)
    ensures |Kept(d, deadline)| + |Expired(d, deadline)| == |d|
    ensures multiset(Kept(d, deadline)) + multiset(Expired(d, deadline)) == multiset(d)
    ensures forall e :: e in Kept(d, deadline) <==> e in d && e.txNs > deadline
    ensures forall e :: e in Expired(d, deadline) <==> e in d && e.txNs <= deadline
  {
    if d != [] {
      SweepPartitions(d[1..], deadline);
      assert d == [d[0]] + d[1..];
    }
  }

  lemma {:induction false} KeptDistinct(d: seq<Entry>, deadline: int)
    requires DistinctIds(d)
    ensures DistinctIds(Kept(d, deadline))
  {
    if d != [] {
      KeptDistinct(d[1..], deadline);
      SweepPartitions(d[1..], deadline);
    }
  }

  lemma SweepKeepsSound(cap: nat, c: PlaneClock, deadline: int)
    requires Sound(cap, c)
    ensures Sound(cap, SweepStep(c, deadline))
  {
    SweepPartitions(c.live, deadline);
    KeptDistinct(c.live, deadline);
  }

  // ---------------------------------------------------------------------
  // Runs
  // ---------------------------------------------------------------------

  datatype Op = Emit(now: int) | Reply(reqId: nat, txNs: int) | Sweep(deadline: int)

  function Do(cap: nat, c: PlaneClock, plane: nat, op: Op): PlaneClock {
    match op
    case Emit(now) => EmitStep(cap, c, plane, now)
    case Reply(id, tx) => MatchStep(c, id, tx)
    case Sweep(deadline) => SweepStep(c, deadline)
  }

  function Run(cap: nat, plane: nat, ops: seq<Op>): PlaneClock {
    if ops == [] then IDLE else Do(cap, Run(cap, plane, ops[..|ops| - 1]), plane, ops[|ops| - 1])
  }

  /** Accounting in every reachable clock. */
  lemma {:induction false} RunIsSound(cap: nat, plane: nat, ops: seq<Op>)
    requires cap >= 1
    ensures Sound(cap, Run(cap, plane, ops))
  {
    if ops != [] {
      var c := Run(cap, plane, ops[..|ops| - 1]);
      RunIsSound(cap, plane, ops[..|ops| - 1]);
      match ops[|ops| - 1]
      case Emit(now) => EmitKeepsSound(cap, c, plane, now);
      case Reply(id, tx) => MatchKeepsSound(cap, c, id, tx);
      case Sweep(deadline) => SweepKeepsSound(cap, c, deadline);
    }
  }

  ghost predicate ByAge(d: seq<Entry>) { forall i, j :: 0 <= i < j < |d| ==> d[i].txNs <= d[j].txNs }

  ghost predicate ClockMonotone(ops: seq<Op>) {
    forall i, j :: 0 <= i < j < |ops| && ops[i].Emit? && ops[j].Emit? ==> ops[i].now <= ops[j].now
  }

  lemma {:induction false} KeptByAge(d: seq<Entry>, deadline: int)
    requires ByAge(d)
    ensures ByAge(Kept(d, deadline))
  {
    if d != [] {
      KeptByAge(d[1..], deadline);
      SweepPartitions(d[1..], deadline);
    }
  }

  lemma LiveWereThere(cap: nat, c: PlaneClock, plane: nat, op: Op)
    ensures forall e :: e in Do(cap, c, plane, op).live ==> e in c.live || (e.plane == plane && op == Emit(e.txNs))
  {
    if op.Sweep? { SweepPartitions(c.live, op.deadline); }
  }

  lemma {:induction false} LiveWereEmitted(cap: nat, plane: nat, ops: seq<Op>)
    ensures forall e :: e in Run(cap, plane, ops).live ==> e.plane == plane && Emit(e.txNs) in ops
  {
    if ops != [] {
      var init := ops[..|ops| - 1];
      LiveWereEmitted(cap, plane, init);
      assert forall o :: o in init ==> o in ops;
      LiveWereThere(cap, Run(cap, plane, init), plane, ops[|ops| - 1]);
    }
  }

  // ---------------------------------------------------------------------
  // When the order of age is kept: a reused live req_id keeps its old place
  // ---------------------------------------------------------------------

  /** The next req_id is not live, or nothing that stands behind its place is older than `now`. */
  predicate ReuseKeepsOrder(cap: nat, c: PlaneClock, now: int) {
    var room := Room(cap, c.live);
    forall j :: IndexOf(room, c.nextReqId) < j < |room| ==> room[j].txNs >= now
  }

  ghost predicate NoneAfter(d: seq<Entry>, now: int) { forall e :: e in d ==> e.txNs <= now }

  lemma RoomByAge(cap: nat, live: seq<Entry>, now: int)
    requires ByAge(live) && NoneAfter(live, now)
    ensures ByAge(Room(cap, live)) && NoneAfter(Room(cap, live), now)
  {
  }

  lemma OverwriteByAgeIff(d: seq<Entry>, i: nat, e: Entry)
    requires i < |d| && ByAge(d) && forall j :: 0 <= j < |d| ==> d[j].txNs <= e.txNs
    ensures ByAge(d[i := e]) <==> forall j :: i < j < |d| ==> d[j].txNs >= e.txNs
  {
    if ByAge(d[i := e]) {
      forall j | i < j < |d| ensures d[j].txNs >= e.txNs {
        assert d[i := e][i].txNs <= d[i := e][j].txNs;
      }
    }
  }

  lemma AppendByAge(d: seq<Entry>, e: Entry)
    requires ByAge(d) && forall j :: 0 <= j < |d| ==> d[j].txNs <= e.txNs
    ensures ByAge(d + [e])
  {
  }

  lemma PutByAgeIff(d: seq<Entry>, e: Entry)
    requires ByAge(d) && NoneAfter(d, e.txNs)
    ensures ByAge(Put(d, e)) <==> forall j :: IndexOf(d, e.reqId) < j < |d| ==> d[j].txNs >= e.txNs
  {
    forall j | 0 <= j < |d| ensures d[j].txNs <= e.txNs { assert d[j] in d; }
    if Has(d, e.reqId) {
      OverwriteByAgeIff(d, IndexOf(d, e.reqId), e);
    } else {
      AppendByAge(d, e);
    }
  }

  /** An emit keeps the order of age exactly under that guard. */
  lemma EmitByAgeIff(cap: nat, c: PlaneClock, plane: nat, now: int)
    requires ByAge(c.live) && NoneAfter(c.live, now)
    ensures ByAge(EmitStep(cap, c, plane, now).live) <==> ReuseKeepsOrder(cap, c, now)
  {
    RoomByAge(cap, c.live, now);
    PutByAgeIff(Room(cap, c.live), Entry(c.nextReqId, plane, now));
  }

  /** Outstanding probes stand in order of age after every prefix of a run. */
  ghost predicate AlwaysByAge(cap: nat, plane: nat, ops: seq<Op>) {
    && ByAge(Run(cap, plane, ops).live)
    && (ops == [] || AlwaysByAge(cap, plane, ops[..|ops| - 1]))
  }

  /** Every emit of a run meets the guard in the clock it finds. */
  ghost predicate EveryReuseKeepsOrder(cap: nat, plane: nat, ops: seq<Op>) {
    ops == [] || var init, op := ops[..|ops| - 1], ops[|ops| - 1];
    && EveryReuseKeepsOrder(cap, plane, init)
    && (op.Emit? ==> ReuseKeepsOrder(cap, Run(cap, plane, init), op.now))
  }

  lemma LiveNoneAfter(cap: nat, plane: nat, ops: seq<Op>)
    requires ops != [] && ClockMonotone(ops) && ops[|ops| - 1].Emit?
    ensures NoneAfter(Run(cap, plane, ops[..|ops| - 1]).live, ops[|ops| - 1].now)
  {
    var init := ops[..|ops| - 1];
    LiveWereEmitted(cap, plane, init);
    forall e | e in Run(cap, plane, init).live ensures e.txNs <= ops[|ops| - 1].now {
      var i :| 0 <= i < |init| && init[i] == Emit(e.txNs);
      assert ops[i] == Emit(e.txNs);
    }
  }

  lemma LastStepByAge(cap: nat, plane: nat, ops: seq<Op>)
    requires ops != [] && ClockMonotone(ops) && ByAge(Run(cap, plane, ops[..|ops| - 1]).live)
    ensures ByAge(Run(cap, plane, ops).live) <==>
            (ops[|ops| - 1].Emit? ==> ReuseKeepsOrder(cap, Run(cap, plane, ops[..|ops| - 1]), ops[|ops| - 1].now))
  {
    var c := Run(cap, plane, ops[..|ops| - 1]);
    match ops[|ops| - 1]
    case Emit(now) =>
      LiveNoneAfter(cap, plane, ops);
      EmitByAgeIff(cap, c, plane, now);
    case Reply(_, _) =>
    case Sweep(deadline) => KeptByAge(c.live, deadline);
  }

  /** Over whole runs, under a clock that does not go back: outstanding probes stand
      in order of age at every moment iff every emit meets the guard. */
  lemma {:induction false} AlwaysByAgeIff(cap: nat, plane: nat, ops: seq<Op>)
    requires ClockMonotone(ops)
    ensures AlwaysByAge(cap, plane, ops) <==> EveryReuseKeepsOrder(cap, plane, ops)
  {
    if ops != [] {
      var init := ops[..|ops| - 1];
      AlwaysByAgeIff(cap, plane, init);
      if ByAge(Run(cap, plane, init).live) {
        LastStepByAge(cap, plane, ops);
      }
    }
  }

  ghost predicate HeadIsOldest(live: seq<Entry>) {
    live != [] ==> forall e :: e in live ==> live[0].txNs <= e.txNs
  }

  /** So then what an emit evicts is a probe no live probe is older than. */
  lemma EvictsOldest(cap: nat, plane: nat, ops: seq<Op>)
    requires cap >= 1 && ClockMonotone(ops) && EveryReuseKeepsOrder(cap, plane, ops)
    requires |Run(cap, plane, ops).live| >= cap
    ensures var live := Run(cap, plane, ops).live; Room(cap, live) == live[1..] && HeadIsOldest(live)
  {
    AlwaysByAgeIff(cap, plane, ops);
  }

  lemma LastWithoutReuse(cap: nat, plane: nat, ops: seq<Op>)
    requires ops != [] && Run(cap, plane, ops).overwritten == 0
    ensures var c := Run(cap, plane, ops[..|ops| - 1]);
            c.overwritten == 0 && (ops[|ops| - 1].Emit? ==> ReuseKeepsOrder(cap, c, ops[|ops| - 1].now))
  {
  }

  /** In particular while no live req_id is reused. */
  lemma {:induction false} NoReuseKeepsOrder(cap: nat, plane: nat, ops: seq<Op>)
    requires Run(cap, plane, ops).overwritten == 0
    ensures EveryReuseKeepsOrder(cap, plane, ops)
  {
    if ops != [] {
      var init := ops[..|ops| - 1];
      LastWithoutReuse(cap, plane, ops);
      NoReuseKeepsOrder(cap, plane, init);
    }
  }

  lemma LiveByAge(cap: nat, plane: nat, ops: seq<Op>)
    requires ClockMonotone(ops) && Run(cap, plane, ops).overwritten == 0
    ensures ByAge(Run(cap, plane, ops).live)
  {
    NoReuseKeepsOrder(cap, plane, ops);
    AlwaysByAgeIff(cap, plane, ops);
  }

  lemma ReusedHeadIff(d: seq<Entry>, e: Entry)
    requires d != [] && d[0].reqId == e.reqId
    ensures HeadIsOldest(Put(d, e)) <==> forall j :: 0 < j < |d| ==> d[j].txNs >= e.txNs
  {
    var r := Put(d, e);
    assert r == [e] + d[1..];
    forall j | 0 < j < |d| ensures d[j] in r { assert r[j] == d[j]; }
  }

  lemma KeptHead(d: seq<Entry>, e: Entry)
    requires ByAge(d) && NoneAfter(d, e.txNs) && (d == [] || d[0].reqId != e.reqId)
    ensures HeadIsOldest(Put(d, e))
  {
    if d != [] {
      assert d[0] in d && Put(d, e)[0] == d[0];
    }
  }

  /** What the next eviction removes after an emit is the oldest probe exactly if the
      emit did not reuse the foremost live req_id in front of an older probe. */
  lemma NextEvictedIsOldestIff(cap: nat, c: PlaneClock, plane: nat, now: int)
    requires ByAge(c.live) && NoneAfter(c.live, now)
    ensures HeadIsOldest(EmitStep(cap, c, plane, now).live) <==>
            var room := Room(cap, c.live);
            room == [] || room[0].reqId != c.nextReqId || forall j :: 0 < j < |room| ==> room[j].txNs >= now
  {
    RoomByAge(cap, c.live, now);
    var room, e := Room(cap, c.live), Entry(c.nextReqId, plane, now);
    if room != [] && room[0].reqId == e.reqId {
      ReusedHeadIff(room, e);
    } else {
      KeptHead(room, e);
    }
  }

  // ---------------------------------------------------------------------
  // An eviction of a newer probe while an older one is live
  // ---------------------------------------------------------------------

  /** Probes 0 and 3 stay unanswered, the others up to k are each answered at once. */
  function LongRun(k: nat): seq<Op> {
    if k == 0 then [Emit(0)] else OneMore(LongRun(k - 1), k)
  }

  function OneMore(ops: seq<Op>, k: nat): seq<Op> { ops + if k == 3 then [Emit(k)] else [Emit(k), Reply(k, k)] }

  lemma RunSnoc(cap: nat, plane: nat, ops: seq<Op>, op: Op)
    ensures Run(cap, plane, ops + [op]) == Do(cap, Run(cap, plane, ops), plane, op)
  {
    assert (ops + [op])[..|ops|] == ops;
  }

  lemma RunTwo(cap: nat, plane: nat, ops: seq<Op>, a: Op, b: Op)
    ensures Run(cap, plane, ops + [a, b]) == Do(cap, Do(cap, Run(cap, plane, ops), plane, a), plane, b)
  {
    assert ops + [a, b] == ops + [a] + [b];
    RunSnoc(cap, plane, ops, a);
    RunSnoc(cap, plane, ops + [a], b);
  }

  lemma PutThenDel(d: seq<Entry>, e: Entry)
    requires !Has(d, e.reqId)
    ensures Put(d, e) == d + [e] && Has(d + [e], e.reqId) && IndexOf(d + [e], e.reqId) == |d|
            && Del(d + [e], e.reqId) == d
  {
    assert (d + [e])[|d|] == e;
  }

  /** The parts of a clock that the run below is about. */
  ghost predicate Is(c: PlaneClock, live: seq<Entry>, next: nat, evicted: nat) {
    c.live == live && c.nextReqId == next && c.evicted == evicted
  }

  lemma EmitAppends(c: PlaneClock, live: seq<Entry>, next: nat, evicted: nat, now: int)
    requires Is(c, live, next, evicted) && |live| < 3 && !Has(live, next)
    ensures Is(EmitStep(3, c, 0, now), live + [Entry(next, 0, now)], (next + 1) % ID_SPACE, evicted)
  {
  }

  lemma MatchRemovesLast(c: PlaneClock, live: seq<Entry>, e: Entry, next: nat, evicted: nat)
    requires Is(c, live + [e], next, evicted) && !Has(live, e.reqId)
    ensures Is(MatchStep(c, e.reqId, e.txNs), live, next, evicted)
  {
    PutThenDel(live, e);
  }

  lemma AnsweredAtOnce(c: PlaneClock, live: seq<Entry>, next: nat, evicted: nat, now: int)
    requires Is(c, live, next, evicted) && |live| < 3 && !Has(live, next)
    ensures Is(Do(3, Do(3, c, 0, Emit(now)), 0, Reply(next, now)), live, (next + 1) % ID_SPACE, evicted)
  {
    EmitAppends(c, live, next, evicted, now);
    MatchRemovesLast(EmitStep(3, c, 0, now), live, Entry(next, 0, now), (next + 1) % ID_SPACE, evicted);
  }

  function Unanswered(k: nat): seq<Entry> {
    if k < 3 then [Entry(0, 0, 0)] else [Entry(0, 0, 0), Entry(3, 0, 3)]
  }

  ghost predicate Reached(ops: seq<Op>, k: nat) {
    Is(Run(3, 0, ops), Unanswered(k), (k + 1) % ID_SPACE, 0)
  }

  lemma KeptProbe(ops: seq<Op>)
    requires Is(Run(3, 0, ops), Unanswered(2), 3, 0)
    ensures Is(Run(3, 0, ops + [Emit(3)]), Unanswered(3), 4, 0)
  {
    RunSnoc(3, 0, ops, Emit(3));
    KeptStep(Run(3, 0, ops));
  }

  lemma KeptStep(c: PlaneClock)
    requires Is(c, Unanswered(2), 3, 0)
    ensures Is(EmitStep(3, c, 0, 3), Unanswered(3), 4, 0)
  {
    SmallMod(4);
    EmitAppends(c, Unanswered(2), 3, 0, 3);
    assert Unanswered(2) + [Entry(3, 0, 3)] == Unanswered(3);
  }

  lemma AnsweredProbe(ops: seq<Op>, k: nat)
    requires 1 <= k < ID_SPACE && k != 3 && Is(Run(3, 0, ops), Unanswered(k - 1), k, 0)
    ensures Is(Run(3, 0, ops + [Emit(k), Reply(k, k)]), Unanswered(k), (k + 1) % ID_SPACE, 0)
  {
    RunTwo(3, 0, ops, Emit(k), Reply(k, k));
    assert !Has(Unanswered(k - 1), k);
    AnsweredAtOnce(Run(3, 0, ops), Unanswered(k - 1), k, 0, k);
  }

  lemma SmallMod(k: nat)
    requires k < ID_SPACE
    ensures k % ID_SPACE == k
  {
  }

  lemma OneMoreProbe(ops: seq<Op>, k: nat)
    requires 1 <= k < ID_SPACE && Reached(ops, k - 1)
    ensures Reached(OneMore(ops, k), k)
  {
    SmallMod(k);
    if k == 3 {
      SmallMod(4);
      KeptProbe(ops);
    } else {
      AnsweredProbe(ops, k);
    }
  }

  lemma FirstProbe()
    ensures Reached(LongRun(0), 0)
  {
    EmitAppends(IDLE, [], 0, 0, 0);
    RunSnoc(3, 0, [], Emit(0));
    assert [] + [Emit(0)] == LongRun(0);
  }

  lemma {:induction false} AfterLongRun(k: nat)
    requires k < ID_SPACE
    ensures Reached(LongRun(k), k)
  {
    if k == 0 {
      FirstProbe();
    } else {
      AfterLongRun(k - 1);
      OneMoreProbe(LongRun(k - 1), k);
    }
  }

  lemma ReusesFirst(c: PlaneClock)
    requires Is(c, [Entry(0, 0, 0), Entry(3, 0, 3)], 0, 0)
    ensures Is(EmitStep(3, c, 0, ID_SPACE), [Entry(0, 0, ID_SPACE), Entry(3, 0, 3)], 1, 0)
  {
  }

  lemma EvictsFirst(c: PlaneClock)
    requires Is(c, [Entry(0, 0, ID_SPACE), Entry(3, 0, 3), Entry(1, 0, ID_SPACE + 1)], 2, 0)
    ensures Is(EmitStep(3, c, 0, ID_SPACE + 2),
               [Entry(3, 0, 3), Entry(1, 0, ID_SPACE + 1), Entry(2, 0, ID_SPACE + 2)], 3, 1)
  {
    var room := Room(3, c.live);
    assert room == [Entry(3, 0, 3), Entry(1, 0, ID_SPACE + 1)] && !Has(room, 2);
  }

  lemma ReusesThenAppends(c: PlaneClock)
    requires Is(c, [Entry(0, 0, 0), Entry(3, 0, 3)], 0, 0)
    ensures Is(EmitStep(3, EmitStep(3, c, 0, ID_SPACE), 0, ID_SPACE + 1),
               [Entry(0, 0, ID_SPACE), Entry(3, 0, 3), Entry(1, 0, ID_SPACE + 1)], 2, 0)
  {
    ReusesFirst(c);
    SmallMod(2);
    var live := [Entry(0, 0, ID_SPACE), Entry(3, 0, 3)];
    EmitAppends(EmitStep(3, c, 0, ID_SPACE), live, 1, 0, ID_SPACE + 1);
    assert live + [Entry(1, 0, ID_SPACE + 1)] == [Entry(0, 0, ID_SPACE), Entry(3, 0, 3), Entry(1, 0, ID_SPACE + 1)];
  }

  lemma AfterWrap(ops: seq<Op>)
    requires Is(Run(3, 0, ops), [Entry(0, 0, 0), Entry(3, 0, 3)], 0, 0)
    ensures Is(Run(3, 0, ops + [Emit(ID_SPACE), Emit(ID_SPACE + 1)]),
               [Entry(0, 0, ID_SPACE), Entry(3, 0, 3), Entry(1, 0, ID_SPACE + 1)], 2, 0)
  {
    RunTwo(3, 0, ops, Emit(ID_SPACE), Emit(ID_SPACE + 1));
    ReusesThenAppends(Run(3, 0, ops));
  }

  /** After the ids wrap, probe 0's id is reused in its old place; two emits later the
      cap is reached and the probe stamped 65536 is evicted, while the one stamped 3 is
      live and stays so. */
  lemma ReuseEvictsNewer()
    ensures var full := LongRun(ID_SPACE - 1) + [Emit(ID_SPACE), Emit(ID_SPACE + 1)];
            && Is(Run(3, 0, full), [Entry(0, 0, ID_SPACE), Entry(3, 0, 3), Entry(1, 0, ID_SPACE + 1)], 2, 0)
            && Is(Run(3, 0, full + [Emit(ID_SPACE + 2)]),
                  [Entry(3, 0, 3), Entry(1, 0, ID_SPACE + 1), Entry(2, 0, ID_SPACE + 2)], 3, 1)
  {
    AfterLongRun(ID_SPACE - 1);
    AfterWrap(LongRun(ID_SPACE - 1));
    Evicts(LongRun(ID_SPACE - 1) + [Emit(ID_SPACE), Emit(ID_SPACE + 1)]);
  }

  lemma Evicts(ops: seq<Op>)
    requires Is(Run(3, 0, ops), [Entry(0, 0, ID_SPACE), Entry(3, 0, 3), Entry(1, 0, ID_SPACE + 1)], 2, 0)
    ensures Is(Run(3, 0, ops + [Emit(ID_SPACE + 2)]),
               [Entry(3, 0, 3), Entry(1, 0, ID_SPACE + 1), Entry(2, 0, ID_SPACE + 2)], 3, 1)
  {
    RunSnoc(3, 0, ops, Emit(ID_SPACE + 2));
    EvictsFirst(Run(3, 0, ops));
  }

  // ---------------------------------------------------------------------
  // The tracker
  // ---------------------------------------------------------------------

  class Tracker {
    const numPlanes: nat
    const probeTimeoutNs: nat
    const maxOutstanding: nat
    var nextReqId: seq<nat>
    var outstanding: seq<seq<Entry>>
    var emitCount: seq<nat>
    var replyCount: seq<nat>
    var timeoutCount: seq<nat>
    var staleReplies: nat
    ghost var evicted: seq<nat>
    ghost var overwritten: seq<nat>

    ghost predicate Shape()
      reads this
    {
      && |nextReqId| == |outstanding| == |emitCount| == |replyCount| == |timeoutCount| == numPlanes
      && |evicted| == |overwritten| == numPlanes && maxOutstanding >= 1
    }

    ghost function View(p: nat): PlaneClock
      requires Shape() && p < numPlanes
      reads this
    {
      PlaneClock(nextReqId[p], outstanding[p], emitCount[p], replyCount[p], timeoutCount[p], evicted[p], overwritten[p])
    }

    ghost function Views(): (c: seq<PlaneClock>)
      requires Shape()
      reads this
      ensures |c| == numPlanes && forall p :: 0 <= p < numPlanes ==> c[p] == View(p)
    {
      seq(numPlanes, p requires 0 <= p < numPlanes && Shape() reads this => View(p))
    }

    ghost predicate Valid()
      reads this
    {
      Shape() && forall p :: 0 <= p < numPlanes ==> Sound(maxOutstanding, View(p))
    }

    constructor (numPlanes: nat, probeTimeoutNs: nat, maxOutstanding: nat)
      requires numPlanes > 0 && probeTimeoutNs > 0 && maxOutstanding > 0
      ensures Valid() && staleReplies == 0
      ensures this.numPlanes == numPlanes && this.probeTimeoutNs == probeTimeoutNs
              && this.maxOutstanding == maxOutstanding
      ensures forall p :: 0 <= p < numPlanes ==> View(p) == IDLE
    {
      this.numPlanes, this.probeTimeoutNs, this.maxOutstanding := numPlanes, probeTimeoutNs, maxOutstanding;
      nextReqId, outstanding := seq(numPlanes, _ => 0), seq(numPlanes, _ => []);
      emitCount, replyCount, timeoutCount := seq(numPlanes, _ => 0), seq(numPlanes, _ => 0), seq(numPlanes, _ => 0);
      staleReplies := 0;
      evicted, overwritten := seq(numPlanes, _ => 0), seq(numPlanes, _ => 0);
    }

    method Emit(plane: int, now: int) returns (r: Result<(nat, int)>)
      requires Valid()
      modifies this
      ensures Valid() && staleReplies == old(staleReplies)
      ensures !(0 <= plane < numPlanes) ==> r == Err(PlaneOutOfRange)
      ensures 0 <= plane < numPlanes ==>
                && r == Ok((old(View(plane)).nextReqId, now))
                && View(plane) == EmitStep(maxOutstanding, old(View(plane)), plane, now)
      ensures forall p :: 0 <= p < numPlanes && p != plane ==> View(p) == old(View(p))
    {
      if !(0 <= plane < numPlanes) { return Err(PlaneOutOfRange); }
      EmitKeepsSound(maxOutstanding, View(plane), plane, now);
      var reqId := Register(plane, now);
      return Ok((reqId, now));
    }

    /** The block under the lock. */
    method Register(plane: nat, now: int) returns (reqId: nat)
      requires Shape() && plane < numPlanes
      modifies this
      ensures Shape() && staleReplies == old(staleReplies) && reqId == old(View(plane)).nextReqId
      ensures View(plane) == EmitStep(maxOutstanding, old(View(plane)), plane, now)
      ensures forall p :: 0 <= p < numPlanes && p != plane ==> View(p) == old(View(p))
    {
      reqId := nextReqId[plane];
      nextReqId := nextReqId[plane := (reqId + 1) % 0x10000];
      var live := outstanding[plane];
      if |live| >= maxOutstanding {
        live := live[1..];
        evicted := evicted[plane := evicted[plane] + 1];
      }
      overwritten := overwritten[plane := overwritten[plane] + if Has(live, reqId) then 1 else 0];
      outstanding := outstanding[plane := Put(live, Entry(reqId, plane, now))];
      emitCount := emitCount[plane := emitCount[plane] + 1];
    }

    method MatchReply(reqId: nat, plane: int, replyTxNs: int, now: int) returns (r: Result<Option<int>>)
      requires Valid()
      modifies this
      ensures Valid()
      ensures !(0 <= plane < numPlanes) ==> r == Err(PlaneOutOfRange) && staleReplies == old(staleReplies)
      ensures 0 <= plane < numPlanes ==>
                && r == Ok(if Answers(old(View(plane)), reqId, replyTxNs) then Some(now - replyTxNs) else None)
                && View(plane) == MatchStep(old(View(plane)), reqId, replyTxNs)
                && staleReplies == old(staleReplies) + (if r.value.None? then 1 else 0)
      ensures forall p :: 0 <= p < numPlanes && p != plane ==> View(p) == old(View(p))
    {
      if !(0 <= plane < numPlanes) { return Err(PlaneOutOfRange); }
      MatchKeepsSound(maxOutstanding, View(plane), reqId, replyTxNs);
      var live := outstanding[plane];
      var i := IndexOf(live, reqId);
      if i == |live| || live[i].txNs != replyTxNs {
        staleReplies := staleReplies + 1;
        assert forall p :: 0 <= p < numPlanes ==> View(p) == old(View(p));
        return Ok(None);
      }
      outstanding := outstanding[plane := Del(live, reqId)];
      replyCount := replyCount[plane := replyCount[plane] + 1];
      assert forall p :: 0 <= p < numPlanes && p != plane ==> View(p) == old(View(p));
      return Ok(Some(now - live[i].txNs));
    }

    /** Every (plane, req_id) that timed out, plane by plane, oldest place first. */
    method SweepTimeouts(now: int) returns (timedOut: seq<(nat, nat)>)
      requires Valid()
      modifies this
      ensures Valid() && staleReplies == old(staleReplies)
      ensures forall p :: 0 <= p < numPlanes ==> View(p) == SweepStep(old(View(p)), now - probeTimeoutNs)
      ensures timedOut == ExpiredOn(old(outstanding), numPlanes, now - probeTimeoutNs)
      ensures forall x :: x in timedOut ==> x.0 < numPlanes
    {
      var deadline := now - probeTimeoutNs;
      ExpiredInRange(outstanding, numPlanes, deadline);
      timedOut := [];
      for plane := 0 to numPlanes
        invariant Shape() && staleReplies == old(staleReplies)
        invariant forall p :: 0 <= p < plane ==> View(p) == SweepStep(old(View(p)), deadline)
        invariant forall p :: plane <= p < numPlanes ==> View(p) == old(View(p))
        invariant timedOut == ExpiredOn(old(outstanding), plane, deadline)
      {
        assert View(plane) == old(View(plane)) && Sound(maxOutstanding, View(plane));
        var ids := SweepPlane(plane, deadline);
        timedOut := timedOut + ids;
      }
      forall p | 0 <= p < numPlanes ensures Sound(maxOutstanding, View(p)) {
        SweepKeepsSound(maxOutstanding, old(View(p)), deadline);
      }
    }

    method SweepPlane(plane: nat, deadline: int) returns (ids: seq<(nat, nat)>)
      requires Shape() && plane < numPlanes && DistinctIds(outstanding[plane])
      modifies this`outstanding, this`timeoutCount
      ensures Shape() && View(plane) == SweepStep(old(View(plane)), deadline)
      ensures forall p :: 0 <= p < numPlanes && p != plane ==> View(p) == old(View(p))
      ensures ids == Ids(plane, Expired(old(outstanding)[plane], deadline))
    {
      var live, timeouts;
      live, ids, timeouts := SweepItems(outstanding[plane], plane, timeoutCount[plane], deadline);
      outstanding, timeoutCount := outstanding[plane := live], timeoutCount[plane := timeouts];
    }
  }

  /** The sweep's inner loop, over a copy of one plane's items. */
  method SweepItems(items: seq<Entry>, plane: nat, count: nat, deadline: int)
    returns (live: seq<Entry>, ids: seq<(nat, nat)>, timeouts: nat)
    requires DistinctIds(items)
    ensures live == Kept(items, deadline)
    ensures ids == Ids(plane, Expired(items, deadline)) && timeouts == count + |Expired(items, deadline)|
  {
    live, ids, timeouts := items, [], count;
    for i := 0 to |items|
      invariant live == Kept(items[..i], deadline) + items[i..]
      invariant ids == Ids(plane, Expired(items[..i], deadline)) && timeouts == count + |Expired(items[..i], deadline)|
    {
      SweepOne(items, i, plane, deadline);
      if items[i].txNs <= deadline {
        live := Del(live, items[i].reqId);
        ids := ids + [(plane, items[i].reqId)];
        timeouts := timeouts + 1;
      }
    }
    assert items[..|items|] == items;
  }

  function Ids(plane: nat, d: seq<Entry>): (r: seq<(nat, nat)>)
    ensures |r| == |d|
  {
    seq(|d|, i requires 0 <= i < |d| => (plane, d[i].reqId))
  }

  function ExpiredOn(outstanding: seq<seq<Entry>>, planes: nat, deadline: int): seq<(nat, nat)>
    requires planes <= |outstanding|
  {
    if planes == 0 then []
    else ExpiredOn(outstanding, planes - 1, deadline) + Ids(planes - 1, Expired(outstanding[planes - 1], deadline))
  }

  lemma {:induction false} ExpiredInRange(outstanding: seq<seq<Entry>>, planes: nat, deadline: int)
    requires planes <= |outstanding|
    ensures forall x :: x in ExpiredOn(outstanding, planes, deadline) ==> x.0 < planes
  {
    if planes > 0 {
      ExpiredInRange(outstanding, planes - 1, deadline);
    }
  }

  lemma {:induction false} KeptSnoc(d: seq<Entry>, e: Entry, deadline: int)
    ensures Kept(d + [e], deadline) == Kept(d, deadline) + (if e.txNs <= deadline then [] else [e])
  {
    if d == [] {
    } else {
      KeptSnoc(d[1..], e, deadline);
      assert (d + [e])[1..] == d[1..] + [e];
    }
  }

  lemma {:induction false} ExpiredSnoc(d: seq<Entry>, e: Entry, deadline: int)
    ensures Expired(d + [e], deadline) == Expired(d, deadline) + (if e.txNs <= deadline then [e] else [])
  {
    if d == [] {
    } else {
      ExpiredSnoc(d[1..], e, deadline);
      assert (d + [e])[1..] == d[1..] + [e];
    }
  }

  /** One turn of the sweep's inner loop. */
  lemma SweepOne(items: seq<Entry>, i: nat, plane: nat, deadline: int)
    requires i < |items| && DistinctIds(items)
    ensures var before, after := Kept(items[..i], deadline) + items[i..], Kept(items[..i + 1],
            deadline) + items[i + 1..];
            after == if items[i].txNs <= deadline then Del(before, items[i].reqId) else before
    ensures var before, after := Expired(items[..i], deadline), Expired(items[..i + 1], deadline);
            if items[i].txNs <= deadline
            then |after| == |before| + 1 && Ids(plane, after) == Ids(plane, before) + [(plane, items[i].reqId)]
            else after == before
  {
    assert items[..i + 1] == items[..i] + [items[i]];
    KeptSnoc(items[..i], items[i], deadline);
    ExpiredSnoc(items[..i], items[i], deadline);
    if items[i].txNs <= deadline {
      DelMiddle(items, i, deadline);
    }
  }

  lemma DelMiddle(items: seq<Entry>, i: nat, deadline: int)
    requires i < |items| && DistinctIds(items)
    ensures Del(Kept(items[..i], deadline) + items[i..], items[i].reqId) == Kept(items[..i], deadline) + items[i + 1..]
  {
    var kept := Kept(items[..i], deadline);
    SweepPartitions(items[..i], deadline);
    var d := kept + items[i..];
    forall j | 0 <= j < |kept| ensures d[j].reqId != items[i].reqId { assert kept[j] in kept; }
    assert d[|kept|] == items[i];
    assert IndexOf(d, items[i].reqId) == |kept|;
  }
}
