/** The bookkeeping of the two MRC agents (srv6_fabric/mrc/agent.py): the sender's
    emit windows, and the receiver's learned senders and report rounds, over whole runs. */
module Agent {
  import opened Arith
  import opened Wrappers
  import opened Wire
  import opened LossCompute
  import LossWindow

  // ---------------------------------------------------------------------
  // The sender's windows, as a value
  // ---------------------------------------------------------------------

  datatype Windows = Windows(sent: seq<nat>, startNs: int, id: nat, pushed: seq<SentWindow>)

  datatype SenderOp = Sent(plane: int) | Rotate(now: int)

  function NoneSent(n: nat): seq<nat> { seq(n, _ => 0) }

  predicate AnySent(sent: seq<nat>) { exists p :: 0 <= p < |sent| && sent[p] > 0 }

  function SentStep(w: Windows, plane: int): Windows {
    if 0 <= plane < |w.sent| then w.(sent := w.sent[plane := w.sent[plane] + 1]) else w
  }

  function RotateStep(w: Windows, now: int): Windows {
    Windows(NoneSent(|w.sent|), now, (w.id + 1) % 0x1_0000,
            if AnySent(w.sent) then w.pushed + [SentWindow(w.startNs, now, w.sent, w.id)] else w.pushed)
  }

  function Run(n: nat, start: int, ops: seq<SenderOp>): (w: Windows)
    ensures |w.sent| == n
  {
    if ops == [] then Windows(NoneSent(n), start, 0, []) else
    var w := Run(n, start, ops[..|ops| - 1]);
    match ops[|ops| - 1]
    case Sent(plane) => SentStep(w, plane)
    case Rotate(now) => RotateStep(w, now)
  }

  // ---------------------------------------------------------------------
  // Conservation and order
  // ---------------------------------------------------------------------

  function Calls(ops: seq<SenderOp>, p: nat): nat {
    if ops == [] then 0
    else Calls(ops[..|ops| - 1], p) + (if ops[|ops| - 1] == Sent(p) then 1 else 0)
  }

  function CallsSinceRotate(ops: seq<SenderOp>, p: nat): nat {
    if ops == [] || ops[|ops| - 1].Rotate? then 0
    else CallsSinceRotate(ops[..|ops| - 1], p) + (if ops[|ops| - 1] == Sent(p) then 1 else 0)
  }

  function SumSent(pushed: seq<SentWindow>, p: nat): nat {
    if pushed == [] then 0
    else SumSent(pushed[..|pushed| - 1], p)
         + (if p < |pushed[|pushed| - 1].sent| then pushed[|pushed| - 1].sent[p] else 0)
  }

  lemma SumSentSnoc(pushed: seq<SentWindow>, w: SentWindow, p: nat)
    ensures SumSent(pushed + [w], p) == SumSent(pushed, p) + (if p < |w.sent| then w.sent[p] else 0)
  {
    assert (pushed + [w])[..|pushed|] == pushed;
  }

  /** A window counts the calls between two rotations, no more and no fewer. */
  lemma {:induction false} OpenWindowCountsCalls(n: nat, start: int, ops: seq<SenderOp>, p: nat)
    requires p < n
    ensures Run(n, start, ops).sent[p] == CallsSinceRotate(ops, p)
  {
    if ops != [] {
      OpenWindowCountsCalls(n, start, ops[..|ops| - 1], p);
    }
  }

  /** Every in-range `record_sent` is in exactly one pushed window or still open;
      windows that are not pushed are empty. */
  lemma {:induction false} SentIsConserved(n: nat, start: int, ops: seq<SenderOp>, p: nat)
    requires p < n
    ensures var w := Run(n, start, ops); SumSent(w.pushed, p) + w.sent[p] == Calls(ops, p)
  {
    if ops != [] {
      var w, op := Run(n, start, ops[..|ops| - 1]), ops[|ops| - 1];
      SentIsConserved(n, start, ops[..|ops| - 1], p);
      if op.Rotate? {
        SumSentSnoc(w.pushed, SentWindow(w.startNs, op.now, w.sent, w.id), p);
      }
    }
  }

  /** When the open window began, and how many were closed before it. */
  function LastRotation(start: int, ops: seq<SenderOp>): int {
    if ops == [] then start
    else if ops[|ops| - 1].Rotate? then ops[|ops| - 1].now else LastRotation(start, ops[..|ops| - 1])
  }

  function Rotations(ops: seq<SenderOp>): nat {
    if ops == [] then 0 else Rotations(ops[..|ops| - 1]) + (if ops[|ops| - 1].Rotate? then 1 else 0)
  }

  lemma {:induction false} OpenWindowIs(n: nat, start: int, ops: seq<SenderOp>)
    ensures Run(n, start, ops).startNs == LastRotation(start, ops)
    ensures Run(n, start, ops).id == Rotations(ops) % 0x1_0000
  {
    if ops != [] {
      OpenWindowIs(n, start, ops[..|ops| - 1]);
    }
  }

  lemma RunSnoc(n: nat, start: int, ops: seq<SenderOp>, op: SenderOp)
    ensures op.Sent? ==> Run(n, start, ops + [op]) == SentStep(Run(n, start, ops), op.plane)
    ensures op.Rotate? ==> Run(n, start, ops + [op]) == RotateStep(Run(n, start, ops), op.now)
  {
    assert (ops + [op])[..|ops|] == ops;
  }

  /** A rotation pushes the calls since the one before it, from its time to now, under its
      number modulo 2^16; an empty window is not pushed, and nothing else pushes. */
  lemma RotationPushes(n: nat, start: int, ops: seq<SenderOp>, now: int, plane: int)
    ensures var before, after := Run(n, start, ops).pushed, Run(n, start, ops + [Rotate(now)]).pushed;
            if forall p :: 0 <= p < n ==> CallsSinceRotate(ops, p) == 0 then after == before
            else |after| == |before| + 1 && after[..|before|] == before
                 && var w := after[|before|];
                    && w.startNs == LastRotation(start, ops) && w.endNs == now
                    && w.windowId == Rotations(ops) % 0x1_0000 && |w.sent| == n
                    && forall p :: 0 <= p < n ==> w.sent[p] == CallsSinceRotate(ops, p)
    ensures Run(n, start, ops + [Sent(plane)]).pushed == Run(n, start, ops).pushed
  {
    RunSnoc(n, start, ops, Rotate(now));
    RunSnoc(n, start, ops, Sent(plane));
    OpenWindowIs(n, start, ops);
    forall p | 0 <= p < n ensures Run(n, start, ops).sent[p] == CallsSinceRotate(ops, p) {
      OpenWindowCountsCalls(n, start, ops, p);
    }
  }

  ghost predicate ClockMonotone(start: int, ops: seq<SenderOp>) {
    && (forall i :: 0 <= i < |ops| && ops[i].Rotate? ==> start <= ops[i].now)
    && (forall i, j :: 0 <= i < j < |ops| && ops[i].Rotate? && ops[j].Rotate? ==> ops[i].now <= ops[j].now)
  }

  ghost predicate Ordered(pushed: seq<SentWindow>, start: int, now: int) {
    && start <= now
    && (forall i :: 0 <= i < |pushed| ==> start <= pushed[i].startNs <= pushed[i].endNs <= now)
    && (forall i, j :: 0 <= i < j < |pushed| ==> pushed[i].endNs <= pushed[j].startNs)
  }

  lemma {:induction false} StartIsLastRotation(n: nat, start: int, ops: seq<SenderOp>)
    ensures var s := Run(n, start, ops).startNs;
            s == start || exists i :: 0 <= i < |ops| && ops[i] == Rotate(s)
  {
    if ops != [] {
      var init := ops[..|ops| - 1];
      StartIsLastRotation(n, start, init);
      var s := Run(n, start, init).startNs;
      if ops[|ops| - 1].Rotate? {
        assert ops[|ops| - 1] == Rotate(Run(n, start, ops).startNs);
      } else if s != start {
        var i :| 0 <= i < |init| && init[i] == Rotate(s);
        assert ops[i] == Rotate(s);
      }
    }
  }

  /** Under a clock that does not go back, pushed windows follow one another without overlap. */
  lemma {:induction false} WindowsAreOrdered(n: nat, start: int, ops: seq<SenderOp>)
    requires ClockMonotone(start, ops)
    ensures var w := Run(n, start, ops); Ordered(w.pushed, start, w.startNs)
  {
    if ops != [] {
      var init, op := ops[..|ops| - 1], ops[|ops| - 1];
      WindowsAreOrdered(n, start, init);
      if op.Rotate? {
        StartIsLastRotation(n, start, init);
        var s := Run(n, start, init).startNs;
        if s != start {
          var i :| 0 <= i < |init| && init[i] == Rotate(s);
          assert ops[i].now <= ops[|ops| - 1].now;
        }
      }
    }
  }

  /** So the midpoints `find_closest` compares grow with the order of pushing. */
  lemma MidpointsAreOrdered(n: nat, start: int, ops: seq<SenderOp>, i: nat, j: nat)
    requires ClockMonotone(start, ops) && i < j < |Run(n, start, ops).pushed|
    ensures var pushed := Run(n, start, ops).pushed;
            pushed[i].MidpointNs() <= pushed[i].endNs <= pushed[j].startNs <= pushed[j].MidpointNs()
  {
    WindowsAreOrdered(n, start, ops);
  }

  // ---------------------------------------------------------------------
  // The sender's windows, in place
  // ---------------------------------------------------------------------

  class SenderWindows {
    const numPlanes: nat
    const sentRing: SentWindowRing
    var currentWindowSent: seq<nat>
    var currentWindowStartNs: int
    var currentWindowId: nat

    ghost predicate Valid()
      reads this, sentRing
    {
      |currentWindowSent| == numPlanes == sentRing.numPlanes && sentRing.Valid()
    }

    ghost function View(): Windows
      reads this, sentRing
    {
      Windows(currentWindowSent, currentWindowStartNs, currentWindowId, sentRing.pushed)
    }

    constructor (numPlanes: nat, now: int)
      requires numPlanes > 0
      ensures Valid() && fresh(sentRing) && sentRing.capacity == 16 && View() == Run(numPlanes, now, [])
    {
      this.numPlanes := numPlanes;
      sentRing := new SentWindowRing(numPlanes, 16);
      currentWindowSent, currentWindowStartNs, currentWindowId := NoneSent(numPlanes), now, 0;
    }

    /** Planes out of range are dropped. */
    method RecordSent(plane: int)
      requires Valid()
      modifies this`currentWindowSent
      ensures Valid() && View() == SentStep(old(View()), plane)
    {
      if 0 <= plane < numPlanes {
        currentWindowSent := currentWindowSent[plane := currentWindowSent[plane] + 1];
      }
    }

    method RotateWindow(now: int)
      requires Valid()
      modifies this, sentRing
      ensures Valid() && View() == RotateStep(old(View()), now)
    {
      var sent, start, wid := currentWindowSent, currentWindowStartNs, currentWindowId;
      currentWindowSent := NoneSent(numPlanes);
      currentWindowStartNs := now;
      currentWindowId := (wid + 1) % 0x1_0000;
      if AnySent(sent) {
        var _ := sentRing.Push(SentWindow(start, now, sent, wid));
      }
    }
  }

  // ---------------------------------------------------------------------
  // The receiver
  // ---------------------------------------------------------------------

  /** The convention for flow keys on the receiver. */
  datatype FlowKey = FlowKey(tenantId: nat, srcId: nat, dstId: nat)

  /** A source address, as given by the socket, and the port to report to. */
  datatype SenderAddr = SenderAddr(underlayAddr: string, reportPort: nat)

  datatype Datagram = Datagram(payload: seq<Byte>, to: SenderAddr)

  /** What a round sends for a flow: nothing if its window is empty or its sender unknown. */
  function ReportFor(f: LossWindow.Flow, senders: map<(nat, nat), SenderAddr>, key: FlowKey): Option<Datagram>
    requires |f.planes| <= 0x100
  {
    var report := LossWindow.ReportOf(f).value;
    if report.planes == [] || (key.tenantId, key.srcId) !in senders then None
    else match EncodedLossReport(report.windowId, report.planes)
      case Ok(payload) => Some(Datagram(payload, senders[(key.tenantId, key.srcId)]))
      case Err(_) => None
  }

  /** In every reachable table: a datagram goes out exactly for a flow that saw
      traffic and whose sender is known, and it decodes to the flow's whole window. */
  lemma ReportForIff(n: nat, ops: seq<LossWindow.Op<FlowKey>>, senders: map<(nat, nat), SenderAddr>, key: FlowKey)
    requires n <= 0x100
    ensures var f := LossWindow.FlowAt(LossWindow.Run(n, ops), n, key);
            var d := ReportFor(f, senders, key);
            && (d.Some? <==> (key.tenantId, key.srcId) in senders && exists p :: 0 <= p < n && f.planes[p].seen > 0)
            && (d.Some? ==> DecodedLossReport(d.value.payload) == LossWindow.ReportOf(f))
  {
    var f := LossWindow.FlowAt(LossWindow.Run(n, ops), n, key);
    LossWindow.ReportsEncode(n, ops, key, []);
    LossWindow.RecordsInPlaneOrder(f.planes, n);
    var planes := LossWindow.ReportOf(f).value.planes;
    if planes != [] {
      var first := planes[0];
      assert first in planes && f.planes[first.planeId].seen > 0;
      var bytes := EncodedLossReport(f.nextWindowId, planes).value;
      assert bytes + [] == bytes;
    }
  }

  // ---------------------------------------------------------------------
  // The receiver over whole runs: where every recorded packet goes
  // ---------------------------------------------------------------------

  datatype Receiver = Receiver(flows: map<FlowKey, LossWindow.Flow>, senders: map<(nat, nat), SenderAddr>)

  datatype ReceiverOp =
    | Data(key: FlowKey, plane: int, sq: int)
    | Learn(tenantId: nat, srcId: nat, sender: SenderAddr)
    | Round

  ghost predicate Wide(n: nat, r: Receiver) { forall k :: k in r.flows ==> |r.flows[k].planes| == n }

  function CloseAll(flows: map<FlowKey, LossWindow.Flow>): map<FlowKey, LossWindow.Flow> {
    map k | k in flows :: LossWindow.CloseFlow(flows[k])
  }

  function ReceiverStep(n: nat, r: Receiver, op: ReceiverOp): (r': Receiver)
    requires Wide(n, r)
    ensures Wide(n, r')
  {
    match op
    case Data(key, plane, sq) => r.(flows := LossWindow.Do(n, r.flows, LossWindow.Op.Record(key, plane, sq)))
    case Learn(t, s, a) => r.(senders := r.senders[(t, s) := a])
    case Round => r.(flows := CloseAll(r.flows))
  }

  function ReceiverRun(n: nat, ops: seq<ReceiverOp>): (r: Receiver)
    ensures Wide(n, r)
  {
    if ops == [] then Receiver(map[], map[])
    else ReceiverStep(n, ReceiverRun(n, ops[..|ops| - 1]), ops[|ops| - 1])
  }

  predicate Knows(r: Receiver, key: FlowKey) { (key.tenantId, key.srcId) in r.senders }

  /** The address that the last probe from a sender came with. */
  function LastLearned(ops: seq<ReceiverOp>, tenantId: nat, srcId: nat): Option<SenderAddr> {
    if ops == [] then None else
    var op := ops[|ops| - 1];
    if op.Learn? && op.tenantId == tenantId && op.srcId == srcId then Some(op.sender)
    else LastLearned(ops[..|ops| - 1], tenantId, srcId)
  }

  lemma {:induction false} SendersAreLastLearned(n: nat, ops: seq<ReceiverOp>, tenantId: nat, srcId: nat)
    ensures At(ReceiverRun(n, ops).senders, (tenantId, srcId)) == LastLearned(ops, tenantId, srcId)
  {
    if ops != [] {
      SendersAreLastLearned(n, ops[..|ops| - 1], tenantId, srcId);
    }
  }

  /** Over whole runs a report goes to where the last probe of its flow's sender came from,
      and to nobody if there was none. */
  lemma ReportGoesToLastLearned(n: nat, ops: seq<ReceiverOp>, key: FlowKey)
    requires n <= 0x100
    ensures var d := SentFor(n, ReceiverRun(n, ops), key);
            d.Some? ==> LastLearned(ops, key.tenantId, key.srcId) == Some(d.value.to)
  {
    SendersAreLastLearned(n, ops, key.tenantId, key.srcId);
  }

  /** What a round in this state sends for a flow. */
  function SentFor(n: nat, r: Receiver, key: FlowKey): Option<Datagram>
    requires n <= 0x100 && Wide(n, r)
  {
    if key in r.flows then ReportFor(r.flows[key], r.senders, key) else None
  }

  /** What a datagram tells its receiver that plane p has seen. */
  function CarriedBy(d: Option<Datagram>, p: nat): nat {
    if d.None? then 0 else
    match DecodedLossReport(d.value.payload)
    case Ok(report) => LossWindow.SeenIn(report.planes, p)
    case Err(_) => 0
  }

  /** The packets of plane p in a flow's open window. */
  function Open(n: nat, r: Receiver, key: FlowKey, p: nat): nat
    requires Wide(n, r) && p < n
  {
    LossWindow.FlowAt(r.flows, n, key).planes[p].seen
  }

  /** The record calls for plane p of a flow that are not refused. */
  function Recorded(n: nat, ops: seq<ReceiverOp>, key: FlowKey, p: nat): nat {
    if ops == [] then 0 else
    var op := ops[|ops| - 1];
    Recorded(n, ops[..|ops| - 1], key, p)
    + (if op.Data? && op.key == key && op.plane == p < n && U32(op.sq) then 1 else 0)
  }

  function Carried(n: nat, ops: seq<ReceiverOp>, key: FlowKey, p: nat): nat
    requires p < n <= 0x100
  {
    if ops == [] then 0 else
    var init := ops[..|ops| - 1];
    Carried(n, init, key, p)
    + (if ops[|ops| - 1].Round? then CarriedBy(SentFor(n, ReceiverRun(n, init), key), p) else 0)
  }

  /** Packets in windows that a round closed while the flow's sender was unknown. */
  function Unrouted(n: nat, ops: seq<ReceiverOp>, key: FlowKey, p: nat): nat
    requires p < n
  {
    if ops == [] then 0 else
    var init := ops[..|ops| - 1];
    var r := ReceiverRun(n, init);
    Unrouted(n, init, key, p) + (if ops[|ops| - 1].Round? && !Knows(r, key) then Open(n, r, key, p) else 0)
  }

  /** Packets above the u32 cap of a report that was sent. */
  function AboveCap(n: nat, ops: seq<ReceiverOp>, key: FlowKey, p: nat): nat
    requires p < n
  {
    if ops == [] then 0 else
    var init := ops[..|ops| - 1];
    var r := ReceiverRun(n, init);
    AboveCap(n, init, key, p)
    + (if ops[|ops| - 1].Round? && Knows(r, key) then Max(0, Open(n, r, key, p) - LossWindow.U32_MAX) else 0)
  }

  /** What a receiver's run does to one flow, as operations of the loss-window table. */
  function FlowOps(n: nat, ops: seq<ReceiverOp>, key: FlowKey): seq<LossWindow.Op<FlowKey>> {
    if ops == [] then [] else
    var init, op := ops[..|ops| - 1], ops[|ops| - 1];
    if op.Data? && op.key == key then FlowOps(n, init, key) + [LossWindow.Op.Record(key, op.plane, op.sq)]
    else if op.Round? && key in ReceiverRun(n, init).flows then FlowOps(n, init, key) + [LossWindow.Snapshot(key)]
    else FlowOps(n, init, key)
  }

  lemma {:induction false} FlowIsTables(n: nat, ops: seq<ReceiverOp>, key: FlowKey)
    ensures LossWindow.FlowAt(ReceiverRun(n, ops).flows, n, key)
         == LossWindow.FlowAt(LossWindow.Run(n, FlowOps(n, ops, key)), n, key)
  {
    if ops != [] {
      var init, op := ops[..|ops| - 1], ops[|ops| - 1];
      var r, done := ReceiverRun(n, init), FlowOps(n, init, key);
      FlowIsTables(n, init, key);
      if op.Data? {
        var record := LossWindow.Op.Record(op.key, op.plane, op.sq);
        LossWindow.DoIsLocal(n, r.flows, record, key);
        LossWindow.DoIsLocal(n, LossWindow.Run(n, done), record, key);
        LossWindow.RunSnoc(n, done, record);
      } else if op.Round? && key in r.flows {
        LossWindow.DoIsLocal(n, LossWindow.Run(n, done), LossWindow.Snapshot(key), key);
        LossWindow.RunSnoc(n, done, LossWindow.Snapshot(key));
      }
    }
  }

  /** A round sends a flow's open window, up to the cap, if it knows the sender; it closes
      the window in any case. */
  lemma RoundAccounts(n: nat, ops: seq<ReceiverOp>, key: FlowKey, p: nat)
    requires p < n <= 0x100
    ensures var r := ReceiverRun(n, ops);
            && CarriedBy(SentFor(n, r, key), p)
               == (if Knows(r, key) then Min(Open(n, r, key, p), LossWindow.U32_MAX) else 0)
            && Open(n, ReceiverStep(n, r, Round), key, p) == 0
  {
    var r := ReceiverRun(n, ops);
    var f := LossWindow.FlowAt(r.flows, n, key);
    FlowIsTables(n, ops, key);
    if key in r.flows {
      ReportForIff(n, FlowOps(n, ops, key), r.senders, key);
      LossWindow.SeenInReport(f.planes, n, p);
    }
  }

  lemma DataCounts(n: nat, r: Receiver, op: ReceiverOp, key: FlowKey, p: nat)
    requires Wide(n, r) && p < n && !op.Round?
    ensures Open(n, ReceiverStep(n, r, op), key, p) == Open(n, r, key, p) +
            (if op.Data? && op.key == key && op.plane == p && U32(op.sq) then 1 else 0)
  {
  }

  /** Every recorded packet is carried by a datagram, in the open window, above the cap, or
      in a window that was closed while its sender was unknown. */
  lemma {:induction false} ReceiverConserves(n: nat, ops: seq<ReceiverOp>, key: FlowKey, p: nat)
    requires p < n <= 0x100
    ensures Recorded(n, ops, key, p) == Carried(n, ops, key, p) + Open(n, ReceiverRun(n, ops), key, p)
                                        + Unrouted(n, ops, key, p) + AboveCap(n, ops, key, p)
  {
    if ops != [] {
      var init, op := ops[..|ops| - 1], ops[|ops| - 1];
      ReceiverConserves(n, init, key, p);
      if op.Round? {
        RoundAccounts(n, init, key, p);
      } else {
        DataCounts(n, ReceiverRun(n, init), op, key, p);
      }
    }
  }

  /** The packets recorded before the last round that did not know the flow's sender. */
  function RecordedTooEarly(n: nat, ops: seq<ReceiverOp>, key: FlowKey, p: nat): nat {
    if ops == [] then 0 else
    var init := ops[..|ops| - 1];
    if ops[|ops| - 1].Round? && !Knows(ReceiverRun(n, init), key) then Recorded(n, init, key, p)
    else RecordedTooEarly(n, init, key, p)
  }

  lemma {:induction false} UnknownSendsNothing(n: nat, ops: seq<ReceiverOp>, key: FlowKey, p: nat)
    requires p < n <= 0x100 && !Knows(ReceiverRun(n, ops), key)
    ensures Carried(n, ops, key, p) == 0 && AboveCap(n, ops, key, p) == 0
  {
    if ops != [] {
      UnknownSendsNothing(n, ops[..|ops| - 1], key, p);
    }
  }

  /** Those, all of them and no others, are in no report ever: nothing is retried. */
  lemma {:induction false} UnroutedAreTooEarly(n: nat, ops: seq<ReceiverOp>, key: FlowKey, p: nat)
    requires p < n <= 0x100
    ensures Unrouted(n, ops, key, p) == RecordedTooEarly(n, ops, key, p)
  {
    if ops != [] {
      var init := ops[..|ops| - 1];
      UnroutedAreTooEarly(n, init, key, p);
      if ops[|ops| - 1].Round? && !Knows(ReceiverRun(n, init), key) {
        UnknownSendsNothing(n, init, key, p);
        ReceiverConserves(n, init, key, p);
      }
    }
  }

  function EarlyRound(key: FlowKey): seq<ReceiverOp> { [Data(key, 0, 7)] + [Round] }

  lemma EarlyRoundLoses(n: nat, key: FlowKey)
    requires n >= 1
    ensures var early := EarlyRound(key);
            && !Knows(ReceiverRun(n, early), key) && Open(n, ReceiverRun(n, early), key, 0) == 0
            && Recorded(n, early, key, 0) == 1 && RecordedTooEarly(n, early, key, 0) == 1
  {
    var first, early := [Data(key, 0, 7)], EarlyRound(key);
    assert first[..0] == [] && early[..1] == first;
    DataCounts(n, ReceiverRun(n, []), Data(key, 0, 7), key, 0);
    assert Recorded(n, first, key, 0) == 1;
    assert ReceiverRun(n, early) == ReceiverStep(n, ReceiverRun(n, first), Round);
  }

  lemma NothingMoreLost(n: nat, ops: seq<ReceiverOp>, op: ReceiverOp, key: FlowKey, p: nat)
    requires p < n && (op.Learn? || (op.Round? && Knows(ReceiverRun(n, ops), key)))
    ensures Recorded(n, ops + [op], key, p) == Recorded(n, ops, key, p)
    ensures RecordedTooEarly(n, ops + [op], key, p) == RecordedTooEarly(n, ops, key, p)
    ensures ReceiverRun(n, ops + [op]) == ReceiverStep(n, ReceiverRun(n, ops), op)
  {
    assert (ops + [op])[..|ops|] == ops;
  }

  /** A packet, a round, the sender's first probe, a round: the packet is in no report of
      either round and in no window any more. */
  lemma ReportIsNotRetried(n: nat, key: FlowKey, sender: SenderAddr)
    requires 1 <= n <= 0x100
    ensures var learn := Learn(key.tenantId, key.srcId, sender);
            var ops := EarlyRound(key) + [learn] + [Round];
            && Knows(ReceiverRun(n, EarlyRound(key) + [learn]), key)
            && Recorded(n, ops, key, 0) == 1 && Unrouted(n, ops, key, 0) == 1
            && Carried(n, ops, key, 0) == 0 && Open(n, ReceiverRun(n, ops), key, 0) == 0
  {
    var learn := Learn(key.tenantId, key.srcId, sender);
    var learned := EarlyRound(key) + [learn];
    EarlyRoundLoses(n, key);
    NothingMoreLost(n, EarlyRound(key), learn, key, 0);
    NothingMoreLost(n, learned, Round, key, 0);
    UnroutedAreTooEarly(n, learned + [Round], key, 0);
    ReceiverConserves(n, learned + [Round], key, 0);
  }

  /** The body of a round for one flow. */
  method EmitOne(table: LossWindow.LossWindowTable<FlowKey>, senders: map<(nat, nat), SenderAddr>, key: FlowKey)
    returns (d: Option<Datagram>)
    requires table.Valid() && table.numPlanes <= 0x100 && key in table.Table()
    modifies table`flows, table.flows.Values
    ensures table.Valid() && table.flows == old(table.flows)
    ensures table.Table() == old(table.Table())[key := LossWindow.CloseFlow(old(table.Table())[key])]
    ensures d == ReportFor(old(table.Table())[key], senders, key)
  {
    var report := table.SnapshotAndReset(key);
    if report.value.planes == [] || (key.tenantId, key.srcId) !in senders { return None; }
    var payload := EncodeLossReport(report.value.windowId, report.value.planes);
    if payload.Err? { return None; }
    return Some(Datagram(payload.value, senders[(key.tenantId, key.srcId)]));
  }

  ghost predicate Narrow(flows: map<FlowKey, LossWindow.Flow>) {
    forall k :: k in flows ==> |flows[k].planes| <= 0x100
  }

  /** What a round sends, by flow. */
  function Reports(flows: map<FlowKey, LossWindow.Flow>, senders: map<(nat, nat), SenderAddr>)
    : map<FlowKey, Option<Datagram>>
    requires Narrow(flows)
  {
    map k | k in flows :: ReportFor(flows[k], senders, k)
  }

  function At<K, V>(m: map<K, V>, k: K): Option<V> { if k in m then Some(m[k]) else None }

  /** Halfway through a round, with `rest` still to do: there the flows are as before, and
      elsewhere closed, their reports sent. */
  ghost predicate RoundSoFar(before: map<FlowKey, LossWindow.Flow>, closed: map<FlowKey, LossWindow.Flow>,
                             reports: map<FlowKey, Option<Datagram>>, rest: set<FlowKey>,
                             now: map<FlowKey, LossWindow.Flow>, sent: map<FlowKey, Datagram>)
  {
    && rest <= before.Keys == closed.Keys == reports.Keys == now.Keys && sent.Keys <= before.Keys - rest
    && (forall k :: k in rest ==> now[k] == before[k])
    && (forall k :: k in before && k !in rest ==> now[k] == closed[k] && At(sent, k) == reports[k])
  }

  lemma RoundStep(before: map<FlowKey, LossWindow.Flow>, closed: map<FlowKey, LossWindow.Flow>,
                  reports: map<FlowKey, Option<Datagram>>, rest: set<FlowKey>,
                  now: map<FlowKey, LossWindow.Flow>, sent: map<FlowKey, Datagram>, key: FlowKey)
    requires RoundSoFar(before, closed, reports, rest, now, sent) && key in rest
    ensures now[key] == before[key]
    ensures RoundSoFar(before, closed, reports, rest - {key}, now[key := closed[key]],
                       if reports[key].Some? then sent[key := reports[key].value] else sent)
  {
  }

  lemma RoundStarts(before: map<FlowKey, LossWindow.Flow>, closed: map<FlowKey, LossWindow.Flow>,
                    reports: map<FlowKey, Option<Datagram>>)
    requires before.Keys == closed.Keys == reports.Keys
    ensures RoundSoFar(before, closed, reports, before.Keys, before, map[])
  {
  }

  lemma RoundEnds(before: map<FlowKey, LossWindow.Flow>, closed: map<FlowKey, LossWindow.Flow>,
                  reports: map<FlowKey, Option<Datagram>>, now: map<FlowKey, LossWindow.Flow>,
                  sent: map<FlowKey, Datagram>)
    requires RoundSoFar(before, closed, reports, {}, now, sent)
    ensures now == closed && sent.Keys <= now.Keys && forall k :: k in now ==> At(sent, k) == reports[k]
  {
  }

  /** A round's next flow. */
  method EmitNext(table: LossWindow.LossWindowTable<FlowKey>, senders: map<(nat, nat), SenderAddr>, key: FlowKey,
                  sofar: map<FlowKey, Datagram>, ghost before: map<FlowKey, LossWindow.Flow>, ghost rest: set<FlowKey>)
    returns (sent: map<FlowKey, Datagram>)
    requires table.Valid() && table.numPlanes <= 0x100 && key in rest && Narrow(before)
    requires RoundSoFar(before, CloseAll(before), Reports(before, senders), rest, table.Table(), sofar)
    modifies table`flows, table.flows.Values
    ensures table.Valid() && table.flows == old(table.flows)
    ensures RoundSoFar(before, CloseAll(before), Reports(before, senders), rest - {key}, table.Table(), sent)
  {
    RoundStep(before, CloseAll(before), Reports(before, senders), rest, table.Table(), sofar, key);
    var datagram := EmitOne(table, senders, key);
    sent := if datagram.Some? then sofar[key := datagram.value] else sofar;
  }

  /** A round over every known flow. */
  method EmitAll(table: LossWindow.LossWindowTable<FlowKey>, senders: map<(nat, nat), SenderAddr>)
    returns (sent: map<FlowKey, Datagram>)
    requires table.Valid() && table.numPlanes <= 0x100
    modifies table`flows, table.flows.Values
    ensures table.Valid() && table.flows == old(table.flows) && table.Table() == CloseAll(old(table.Table()))
    ensures sent.Keys <= table.Table().Keys
    ensures forall k :: k in table.Table() ==> At(sent, k) == Reports(old(table.Table()), senders)[k]
  {
    sent := map[];
    ghost var before := table.Table();
    RoundStarts(before, CloseAll(before), Reports(before, senders));
    var keys := table.KnownFlows();
    while keys != {}
      invariant table.Valid() && table.flows == old(table.flows)
      invariant RoundSoFar(before, CloseAll(before), Reports(before, senders), keys, table.Table(), sent)
      decreases keys
    {
      var key :| key in keys;
      sent := EmitNext(table, senders, key, sent, before, keys);
      keys := keys - {key};
    }
    RoundEnds(before, CloseAll(before), Reports(before, senders), table.Table(), sent);
  }

  class ReceiverAgent {
    const lossTable: LossWindow.LossWindowTable<FlowKey>
    var senders: map<(nat, nat), SenderAddr>

    ghost predicate Valid()
      reads this, lossTable, lossTable.flows.Values
    {
      lossTable.Valid() && 0 < lossTable.numPlanes <= 0x100
    }

    constructor (numPlanes: nat)
      requires 0 < numPlanes <= 0x100
      ensures Valid() && fresh(lossTable) && lossTable.numPlanes == numPlanes
      ensures View() == ReceiverRun(numPlanes, [])
    {
      lossTable := new LossWindow.LossWindowTable(numPlanes);
      senders := map[];
    }

    ghost function View(): (r: Receiver)
      requires Valid()
      reads this, lossTable, lossTable.flows.Values
      ensures Wide(lossTable.numPlanes, r)
    {
      Receiver(lossTable.Table(), senders)
    }

    /** One data packet. A plane or seq out of range raises. */
    method RecordData(key: FlowKey, plane: int, sq: int) returns (r: Result<()>)
      requires Valid()
      modifies lossTable`flows, lossTable.flows.Values
      ensures Valid() && View() == ReceiverStep(lossTable.numPlanes, old(View()), Data(key, plane, sq))
      ensures r.Ok? <==> 0 <= plane < lossTable.numPlanes && U32(sq)
    {
      r := lossTable.Record(key, plane, sq);
    }

    /** The latest probe of a sender decides where its reports go. */
    method LearnSender(tenantId: nat, srcId: nat, underlayAddr: string, reportPort: nat)
      requires Valid()
      modifies this`senders
      ensures Valid() && View() == ReceiverStep(lossTable.numPlanes, old(View()),
                                                Learn(tenantId, srcId, SenderAddr(underlayAddr, reportPort)))
    {
      senders := senders[(tenantId, srcId) := SenderAddr(underlayAddr, reportPort)];
    }

    /** Closes every known flow's window and sends the reports that have somewhere to
        go. A window whose sender is unknown is closed all the same. */
    method EmitOneRound() returns (sent: map<FlowKey, Datagram>)
      requires Valid()
      modifies lossTable`flows, lossTable.flows.Values
      ensures Valid() && View() == ReceiverStep(lossTable.numPlanes, old(View()), Round)
      ensures forall k :: (if k in sent then Some(sent[k]) else None) == SentFor(lossTable.numPlanes, old(View()), k)
    {
      sent := EmitAll(lossTable, senders);
    }
  }
}
