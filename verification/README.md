# Verified model of the MRC control loop and the uSID fabric

A Dafny 4.11 model of an SRv6 multi-plane lab: a sender sprays packets over
several disjoint planes, each a leaf-spine fabric routed by compressed SIDs
(uSIDs), and a probe and loss-report loop decides which planes it may use.

Check everything with `dafny verify dfyconfig.toml`.

## What is modelled

**The probe and loss loop.**
`Protocol.dfy` is the whole probe protocol as a state machine over a network of
byte strings that loses, duplicates and reorders: emitting, echoing, receiving,
matching and sweeping are steps, and matching or sweeping a probe and recording
its result are separate steps, as in the code, which releases one lock before it
takes the other. Its invariant holds in every state of every run, and every run can
go on to send a probe and record its success or its timeout. The steps are built
from the functions that the classes are proved against:
`ProbeClock.dfy` (outstanding probes), `EvSpec.dfy` and `EvTable.dfy` (the
UNKNOWN / GOOD / ASSUMED_BAD machine, as a value over whole runs and as objects
mutated in place), `Wire.dfy` (the three messages, byte by byte),
`LossWindow.dfy` (the receiver's counters and reports), `LossCompute.dfy` (pairing
reports with sent windows), `Agent.dfy` (sent windows, learned senders, report
rounds) and `SenderAgent.dfy` (one turn of each sender thread).

**Source routing.**
`Fabric.dfy` builds the tables that the generator writes for every node: local
SIDs, static locator routes, interface addresses and links. `Forwarding.dfy` gives
their meaning, shift and forward: uN and uA are End and End.X with the NEXT-CSID
flavor, sections 4.1.1 and 4.1.2 of RFC 9800; uDT6 is End.DT6, section 4.6 of
RFC 8986. `Topo.dfy` builds carriers, `Delivery.dfy` proves where they go, and
`Routes.dfy` expands route specs and applies them.

**Spraying and measuring.**
`Policy.dfy` (the low-discrepancy picker and the legacy liveness wrapper),
`FlowHash.dfy` (FNV-1a flow hashes), `Reorder.dfy` (the receiver's per-flow
statistics) and `Health.dfy` (the K-of-N liveness filter). `Arith.dfy` and
`Wrappers.dfy` hold shared arithmetic, and results for operations that raise.

## Modelling choices

- Weights, CDFs, ratios and percentile targets are exact reals; the code uses floats.
- 16-, 32- and 64-bit values are unbounded integers with the wrap or the range check
  written where the code has it.
- An IPv6 address is its eight 16-bit groups. Within the encoding limits there are at
  most 16 planes and 16 leaves (one hex digit each) and 8 spines (the ninth would
  share a port with the hosts: `Fabric.LinksUsePortsOnce`).
- Local-SID lookup does not depend on the ingress VRF. A host decapsulates or drops,
  and never forwards. A uN or uA whose argument is all zero is terminal. The hop limit
  plays no part: no run has more than 20 moves.
- Every piece of code under one lock is one step, and a clock is an argument; where
  a theorem needs it, the clock does not go back. `record_sent` and the rotation of
  windows are atomic steps, without the small race that the code accepts.
- `Protocol` sweeps plane by plane, with any clock value read earlier, and records
  waiting results in any order. The code does less; every run of the code is a run here.
- A Python dict is a sequence of entries in insertion order where the order matters
  (outstanding probes), and a map elsewhere.
- The policy reads the weights of one state of the table. The code reads the cached tuple
  without the lock, so it may be the one from before a transition that is under way.
- One tenant's record list and its weights-cache entry are fields of one object
  (`EvTable.TenantPlanes`).
- Raising is an `Err` result, with the state as the code leaves it.
- `Config` thresholds are not restricted: theorems that need no restriction have none.

## Where code and documentation differ, and claims that hold only conditionally

The model follows the code.

- The design notes (docs/design-mrc.md:186, 253) say the floor counts GOOD planes; the
  code counts planes that are not ASSUMED_BAD, so UNKNOWN planes count too
  (`EvSpec.FloorHolds`). A fresh table with floor 1 can lose a plane with no plane GOOD
  (`EvSpec.DemotedWithNoneGood`). The two guards differ iff other UNKNOWN planes make up
  for too few GOOD ones (`EvSpec.GuardsDifferIff`), and a demotion keeps the documented
  floor iff the documented guard held (`EvSpec.DocumentedDemotionIff`); it is kept for
  ever once no plane is UNKNOWN (`EvSpec.DocumentedFloorOnceKnown`).
- `emit` is documented to drop the oldest probe at the cap. A live req_id that is reused
  keeps its old place, so a newer probe can be dropped first
  (`ProbeClock.ReuseEvictsNewer`). Order of age is kept iff every emit finds its req_id
  free or nothing older behind it (`ProbeClock.EmitByAgeIff`,
  `ProbeClock.AlwaysByAgeIff`), and then the oldest is dropped (`ProbeClock.EvictsOldest`).
- The reference table of transit spines is not bounded by the topology, so `auto` can name
  a spine that does not exist (`Topo.SpineChoiceInRangeIff`, `Routes.AutoSpineCanBeMissing`).
- Duplicate plane ids in a LOSS_REPORT are said to be latest-wins; `apply_loss_report`
  records each of them (`LossCompute.RepeatedPlaneCountsTwice`). The two agree iff no
  record that counts is followed by another of its plane (`LossCompute.LatestWinsIff`).
- A comment (srv6_fabric/mrc/loss_compute.py:221-225) says that a plane demoted for loss
  recovers by its probes. No probe promotes it before a quiet loss window is recorded for
  it, and until then it is not sprayed (`EvSpec.NotGoodUntilQuiet`,
  `Policy.NotSprayedUntilQuiet`, `Policy.ProbesAloneDoNotRecover`).
- The design notes give the messages without magic, version and sender fields
  (docs/design-mrc.md, section Probe wire format); `Wire.dfy` has the bytes of the code.
- A plane's max_gap is always below its expected count, but at the u32 cap a record can
  report the two equal (`LossWindow.RecordBounds`, `LossWindow.CapReachesGap`).
- A window whose sender is unknown is closed and its report lost, although a comment
  (srv6_fabric/mrc/agent.py:903-905) says that the report will be retried
  (`Agent.ReportIsNotRetried`). The packets lost so are exactly those recorded before the
  last round that did not know the sender (`Agent.UnroutedAreTooEarly`).
- `loss` counts never-seen packets only if nothing earlier than the first arrival and no
  missed duplicate was counted, or nothing is missing (`Reorder.LossIff`,
  `Reorder.EarlyArrivalHidesLoss`).

## Model

| member | source | states |
|---|---|---|
| Protocol.ReachableInv | srv6_fabric/mrc/agent.py:413-497 | Every state of every run, under any interleaving and any loss, duplication and reordering, keeps the ledger of emitted probes, sound clocks, payloads and results that trace back to emitted probes, and an EV table that is a run of what was recorded |
| Protocol.AtMostOneResultEach | srv6_fabric/mrc/agent.py:455-497 | A probe identity never has more results, waiting and recorded together, than probes were emitted with it |
| Protocol.NeverBothVerdicts | srv6_fabric/mrc/agent.py:455-497 | A probe whose (plane, req_id, tx_ns) no other probe shares is recorded at most once, so never as a success and a timeout |
| Protocol.RecordedResultsAreReal | srv6_fabric/mrc/agent.py:466-497 | Every recorded success is of a probe emitted on that plane and echoed, with RTT = arrival clock minus tx_ns, at least 0; every recorded timeout is of an emitted probe at least the timeout old |
| Protocol.RoundTripSucceeds | srv6_fabric/mrc/probe_clock.py:143-178 | The converse, in every reachable state: matching a received reply leaves a success with its true RTT waiting exactly if its probe is unresolved, and changes nothing otherwise |
| Protocol.SuccessRun | srv6_fabric/mrc/agent.py:413-497 | Through the steps of runs alone: from every reachable state, on every plane whose next probe is in range, a probe is sent, echoed, received and matched at any later time, and exactly its success is recorded, with the true RTT, and applied to the table |
| Protocol.CanBeAnswered | srv6_fabric/mrc/agent.py:466-497 | The same for any unresolved probe whose payload is on the network, in every reachable state |
| Protocol.TimeoutRun | srv6_fabric/mrc/agent.py:455-464 | From every reachable state a probe is sent on every plane and, not answered for the timeout, swept, and exactly its timeout is recorded and applied to the table |
| Protocol.CanTimeOut | srv6_fabric/mrc/agent.py:455-464 | The same for any unresolved probe as old as the timeout |
| Protocol.LateEmitRun | srv6_fabric/mrc/agent.py:413-446 | A probe carries the clock as it was read when its round began, however late it is sent |
| Protocol.LossRun | srv6_fabric/mrc/agent.py:499-522 | In every reachable state a loss window is recorded, as one event of the table |
| Protocol.UnresolvedIsLive | srv6_fabric/mrc/probe_clock.py:126-178 | In every reachable state the probes that were emitted, have no result and were not dropped are exactly the outstanding ones |
| Protocol.UnresolvedUntil | srv6_fabric/mrc/probe_clock.py:126-200 | In every reachable state a step resolves a probe exactly if it matches a reply to it, sweeps its plane when the probe is old enough, or is an emit on its plane that evicts it or takes over its live req_id |
| Protocol.NothingOverdue | srv6_fabric/mrc/probe_clock.py:187-200 | After a sweep no unresolved probe of its plane is as old as the timeout |
| Protocol.BackToBackSucceeds | srv6_fabric/mrc/agent.py:766-839 | In particular through both codecs: a probe emitted, echoed, received and matched ends as a success with its true RTT |
| Protocol.NothingRaises | srv6_fabric/mrc/agent.py:480-497 | In no reachable state can matching a reply or recording a result raise: planes are in range and RTTs are not negative |
| Protocol.WeightsAreAlwaysUsable | srv6_fabric/mrc/ev_state.py:405-459 | In every reachable state at least min_active planes are usable, and the weights sum to 1 and are zero exactly on ASSUMED_BAD planes |
| Protocol.SprayAvoidsBadPlanes | srv6_fabric/policy.py:216-228 | In every reachable state the policy picks no ASSUMED_BAD plane, for every flow and sequence number |
| Protocol.StepKeepsInv | srv6_fabric/mrc/agent.py:413-497 | Each protocol step keeps the invariant |
| Protocol.LostIsTheRest | srv6_fabric/mrc/probe_clock.py:126-141 | What an emit silently drops is exactly what was outstanding and no longer is: the evicted entry and the entry whose live req_id is reused |
| Protocol.LostIsCounted | srv6_fabric/mrc/probe_clock.py:126-141 | As many entries are dropped as the clock counts as evicted or overwritten |
| SenderAgent.SenderMrcAgent.EmitRound | srv6_fabric/mrc/agent.py:413-446 | One emit round registers one probe per plane with the same stamp and sends exactly the probes that encode |
| SenderAgent.SenderMrcAgent.SweepRound | srv6_fabric/mrc/agent.py:455-464 | One sweep turn removes the expired probes of every plane and records each as a timeout against its plane, in order, none refused |
| SenderAgent.SenderMrcAgent.OnReply | srv6_fabric/mrc/agent.py:466-497 | One reply turn: the clock and table after it in every case, including malformed, stale, out-of-range and negative-RTT replies |
| SenderAgent.SenderMrcAgent.OnReport | srv6_fabric/mrc/agent.py:499-522 | One report turn: nothing for a malformed report, else the fusion of the decoded report with the closest sent window |
| SenderAgent.ReplyTurnIsSteps | srv6_fabric/mrc/agent.py:466-497 | A turn of the reply loop that does not raise is the protocol's matching step and then its recording step, whatever other results wait |
| SenderAgent.SweepTurnIsSteps | srv6_fabric/mrc/agent.py:455-464 | A turn of the sweep loop is the protocol's sweep of every plane and then the recording of exactly its timeouts, in order, whatever other results wait |
| SenderAgent.EmitTurnIsSteps | srv6_fabric/mrc/agent.py:413-446 | A round of the emit loop is reading the clock and the protocol's emit of every plane: the same clocks, and exactly the payloads that encode on the network |
| SenderAgent.ReportTurnIsSteps | srv6_fabric/mrc/agent.py:499-522 | A turn of the report loop is the protocol's loss step for each window it records, in order, and nothing else, also if it raises halfway |
| Agent.SentIsConserved | srv6_fabric/mrc/agent.py:395-409 | Per plane, counts over all windows ever pushed plus the open window equal the in-range record_sent calls |
| Agent.OpenWindowCountsCalls | srv6_fabric/mrc/agent.py:395-409 | The open window counts exactly the calls since the last rotation |
| Agent.WindowsAreOrdered | srv6_fabric/mrc/agent.py:533-551 | Under a clock that does not go back, pushed windows follow one another without overlap |
| Agent.MidpointsAreOrdered | srv6_fabric/mrc/loss_compute.py:73-74 | So window midpoints grow in the order of pushing |
| Agent.RotationPushes | srv6_fabric/mrc/agent.py:533-551 | A rotation pushes exactly the calls since the one before it, with that one's time, its own and the window's number modulo 65536; an empty window is not pushed |
| Agent.SenderWindows.RecordSent | srv6_fabric/mrc/agent.py:395-409 | Counts one packet on a plane in range and ignores any other plane |
| Agent.SenderWindows.RotateWindow | srv6_fabric/mrc/agent.py:533-551 | Closes the window: pushes it if anything was sent, starts an empty one with the next 16-bit id |
| Agent.ReceiverAgent.EmitOneRound | srv6_fabric/mrc/agent.py:885-917 | Closes every known flow's window and sends its report exactly when it has one and its sender is known |
| Agent.ReportForIff | srv6_fabric/mrc/agent.py:885-917 | A datagram goes out exactly for a flow that saw traffic and whose sender is known, and it decodes to the whole window |
| Agent.ReportGoesToLastLearned | srv6_fabric/mrc/agent.py:899-929 | Over whole runs a report goes to the address of the last probe of its (tenant, src), and to nobody if there was none |
| Agent.ReceiverConserves | srv6_fabric/mrc/agent.py:885-917 | Over whole runs, per flow and plane: packets recorded = carried by datagrams + open + above the u32 cap + closed while the sender was unknown |
| Agent.UnroutedAreTooEarly | srv6_fabric/mrc/agent.py:902-906 | The last are exactly the packets recorded before the last round that did not know the flow's sender |
| Agent.ReportIsNotRetried | srv6_fabric/mrc/agent.py:902-906 | A run: a packet, a round, the sender's first probe, a round. The packet is carried by no report and is in no window |
| Agent.ReceiverAgent.RecordData | srv6_fabric/mrc/agent.py:755-757 | Counts one data packet in its flow's window, or raises for a plane or seq out of range |
| Agent.ReceiverAgent.LearnSender | srv6_fabric/mrc/agent.py:921-929 | The latest probe of a (tenant, src) decides where its reports go |
| ProbeClock.RunIsSound | srv6_fabric/mrc/probe_clock.py:126-200 | In every reachable clock emitted = replied + timed out + outstanding + evicted + overwritten, req_ids are live at most once, and at most the cap are outstanding |
| ProbeClock.SweepPartitions | srv6_fabric/mrc/probe_clock.py:187-200 | A sweep removes exactly the entries with tx_ns at or before the deadline, and keeps the rest in order |
| ProbeClock.BelowCapNothingGoes | srv6_fabric/mrc/probe_clock.py:126-141 | Below the cap an emit evicts nothing: every outstanding probe with another req_id stays |
| ProbeClock.AtCapFirstGoes | srv6_fabric/mrc/probe_clock.py:129-136 | At the cap it evicts the first entry alone |
| ProbeClock.EmitByAgeIff | srv6_fabric/mrc/probe_clock.py:126-141 | An emit keeps outstanding probes in order of age exactly if its req_id is not live, or no probe standing behind that one is older than the new stamp |
| ProbeClock.AlwaysByAgeIff | srv6_fabric/mrc/probe_clock.py:126-141 | Over whole runs under a clock that does not go back, outstanding probes stand in order of age at every moment iff every emit meets that guard |
| ProbeClock.LiveByAge | srv6_fabric/mrc/probe_clock.py:126-141 | In particular while no live req_id is reused |
| ProbeClock.EvictsOldest | srv6_fabric/mrc/probe_clock.py:129-136 | While every emit meets the guard, the probe evicted at the cap is one no outstanding probe is older than |
| ProbeClock.NextEvictedIsOldestIff | srv6_fabric/mrc/probe_clock.py:129-139 | After an emit the next probe to be evicted is the oldest exactly unless the emit reused the foremost live req_id in front of an older probe |
| ProbeClock.ReuseEvictsNewer | srv6_fabric/mrc/probe_clock.py:122-139 | Where it fails: a run in which probe 0's req_id is reused after 65536 emits, and at the cap the probe stamped 65536 is evicted while the one stamped 3 stays outstanding |
| ProbeClock.Tracker.Emit | srv6_fabric/mrc/probe_clock.py:114-141 | emit on one plane: id and stamp returned, the clock after it, other planes untouched, error out of range |
| ProbeClock.Tracker.MatchReply | srv6_fabric/mrc/probe_clock.py:143-178 | match_reply: RTT exactly for the outstanding probe with that id and stamp, which is removed; else a stale count |
| ProbeClock.Tracker.SweepTimeouts | srv6_fabric/mrc/probe_clock.py:180-200 | sweep_timeouts over all planes: every plane swept, and the (plane, req_id) list in order |
| ProbeClock.SweepItems | srv6_fabric/mrc/probe_clock.py:192-199 | The inner loop over a copy of the items deletes and lists exactly the expired ones |
| EvSpec.FloorHolds | srv6_fabric/mrc/ev_state.py:405-422 | In every reachable table at least min_active planes are not ASSUMED_BAD |
| EvSpec.GuardsDifferIff | srv6_fabric/mrc/ev_state.py:405-422 | The demotion guard and the documented one, which counts GOOD planes, differ exactly when the other GOOD planes are too few and the other UNKNOWN ones make up for them |
| EvSpec.DocumentedDemotionIff | docs/design-mrc.md:253-255 | A demotion in a run leaves at least min_active planes GOOD exactly if the documented guard, which counts other GOOD planes, held where it was made |
| EvSpec.DocumentedFloorOnceKnown | docs/design-mrc.md:186 | From the moment no plane is UNKNOWN, at least min_active planes are GOOD for ever |
| EvSpec.DemotedWithNoneGood | srv6_fabric/mrc/ev_state.py:405-422 | Before that it can fail: with floor 1, a timeout demotes one of two fresh planes although no plane is GOOD |
| EvSpec.ReachableWeights | srv6_fabric/mrc/ev_state.py:447-459 | In every reachable table the weights sum to 1 and are zero exactly on ASSUMED_BAD planes; the uniform fallback is unreachable |
| EvSpec.WeightsFollowStates | srv6_fabric/mrc/ev_state.py:447-459 | Weights of any states with a usable plane: sum 1, non-negative, zero exactly on ASSUMED_BAD |
| EvSpec.WeightsByState | srv6_fabric/mrc/ev_state.py:447-459 | In closed form: with g GOOD and u UNKNOWN planes a GOOD plane weighs 2 / (2g + u), an UNKNOWN one 1 / (2g + u), an ASSUMED_BAD one 0 |
| EvSpec.GoodWeighsTwice | srv6_fabric/mrc/ev_state.py:45-49 | A GOOD plane weighs twice an UNKNOWN one, and planes in one state weigh the same |
| EvSpec.ResolveMinActive | srv6_fabric/mrc/ev_state.py:71-74 | The floor is between 1 and the number of planes |
| EvSpec.FloorIsReached | srv6_fabric/mrc/ev_state.py:71-74 | When every plane fails exactly the floor is left usable: half of the planes rounded down by default, else the number configured; at least one and at most all |
| EvSpec.PromotedIff | srv6_fabric/mrc/ev_state.py:214-232 | A plane enters GOOD exactly on a success when its results since its last demotion end in probe_recover_threshold successes and no bad window came after its last quiet one |
| EvSpec.DemotedIff | srv6_fabric/mrc/ev_state.py:233-241 | A plane enters ASSUMED_BAD exactly when a timeout or bad window reaches its threshold and more than min_active planes are usable |
| EvSpec.NotGoodUntilQuiet | srv6_fabric/mrc/ev_state.py:214-232 | A plane with a bad loss window behind it is not promoted, whatever its probes do, until a quiet loss window is recorded for it |
| EvSpec.NoDemotionLost | srv6_fabric/mrc/ev_state.py:405-422 | An event that reaches a threshold leaves its plane ASSUMED_BAD, or counts one suppression with exactly min_active usable planes; suppressions are counted at no other time |
| EvSpec.NeverUnknownAgain | srv6_fabric/mrc/ev_state.py:424-445 | A plane that left UNKNOWN never returns to it |
| EvSpec.TimeoutsFollowHistory | srv6_fabric/mrc/ev_state.py:214-241 | The timeout counter is the length of the plane's trailing run of timeouts |
| EvSpec.OksFollowHistory | srv6_fabric/mrc/ev_state.py:214-241 | The success counter is the plane's trailing run of successes since its last demotion |
| EvSpec.LossFollowsHistory | srv6_fabric/mrc/ev_state.py:285-299 | The loss counter is the number of bad windows since the last quiet one |
| EvSpec.StepIsLocal | srv6_fabric/mrc/ev_state.py:214-299 | An event leaves other planes' records alone, and the transition count moves exactly with the state |
| EvSpec.LossRatioTimes | srv6_fabric/mrc/ev_state.py:278-284 | The loss ratio times the expected count is the number lost, zero when seen exceeds expected |
| EvTable.EvStateTable.RecordProbeResult | srv6_fabric/mrc/ev_state.py:191-241 | In place: the errors, and the table after a probe result; other tenants untouched |
| EvTable.EvStateTable.RecordLossWindow | srv6_fabric/mrc/ev_state.py:247-299 | In place: the errors, and the table after a loss window; other tenants untouched |
| EvTable.EvStateTable.State | srv6_fabric/mrc/ev_state.py:305-310 | The state of a plane, or the error |
| EvTable.EvStateTable.WeightsOf | srv6_fabric/mrc/ev_state.py:312-321 | The cached weights are always those recomputed from the states |
| EvTable.EvStateTable.FloorOf | srv6_fabric/mrc/ev_state.py:405-422 | At least min_active planes of every tenant are usable in every valid table object |
| EvTable.EvStateTable.constructor | srv6_fabric/mrc/ev_state.py:130-165 | Every tenant starts with fresh records and the weights of those |
| EvTable.TenantPlanes.TryDemote | srv6_fabric/mrc/ev_state.py:405-422 | In place: demotion, or one suppression when too few planes would stay usable |
| EvTable.TenantPlanes.Transition | srv6_fabric/mrc/ev_state.py:424-441 | In place: the new state, its counters, and rebuilt weights |
| EvTable.TenantPlanes.RebuildWeights | srv6_fabric/mrc/ev_state.py:447-459 | The cache entry becomes the weights of the states |
| EvTable.TenantsAreIndependent | srv6_fabric/mrc/ev_state.py:191-299 | A tenant's records after any run are those of its own events alone |
| Wire.ProbeRoundTrip | srv6_fabric/mrc/probe.py:179-205 | A PROBE encodes exactly when its fields are in range, decodes to itself whatever bytes follow, and is never read as a reply |
| Wire.ProbeReplyRoundTrip | srv6_fabric/mrc/probe.py:208-234 | The same for PROBE_REPLY, which is never read as a probe |
| Wire.DecodeProbeIff | srv6_fabric/mrc/probe.py:330-358 | A payload is a PROBE exactly by length, magic and version; re-encoding gives its bytes back exactly when reserved and service-time bytes are zero |
| Wire.DecodeProbeReplyIff | srv6_fabric/mrc/probe.py:282-290 | The same for PROBE_REPLY and its reserved byte |
| Wire.LossReportRoundTrip | srv6_fabric/mrc/probe.py:237-268 | A report with a u16 window id and at most 65535 records encodes, and decodes to itself whatever bytes follow |
| Wire.DecodeLossReportIff | srv6_fabric/mrc/probe.py:293-327 | A decoded report re-encodes to the payload's own prefix exactly when every reserved byte is zero |
| Wire.MessagesDistinct | srv6_fabric/mrc/probe.py:84-86 | No payload decodes as two of the three messages |
| Wire.ProbeBytes | srv6_fabric/mrc/probe.py:76-84 | Where each field of a PROBE lies, byte by byte and high byte first, in what is decoded and in what is encoded |
| Wire.ProbeReplyBytes | srv6_fabric/mrc/probe.py:76-85 | The same for PROBE_REPLY |
| Wire.LossReportBytes | srv6_fabric/mrc/probe.py:293-327 | Where the header and each record of a decoded LOSS_REPORT lie |
| Wire.EncodedReportBytes | srv6_fabric/mrc/probe.py:237-268 | The same for an encoded one |
| Wire.ProbeErrors | srv6_fabric/mrc/probe.py:330-358 | What is no PROBE or PROBE_REPLY is refused for its length, its magic or its version, in this order, and for nothing else |
| Wire.LossReportErrors | srv6_fabric/mrc/probe.py:293-327 | The same for LOSS_REPORT, and then for too few bytes for its records |
| Wire.EncodeLossReport | srv6_fabric/mrc/probe.py:237-268 | The encoder's loop gives the header and the records end to end, or the error |
| Wire.DecodeLossReport | srv6_fabric/mrc/probe.py:293-327 | The decoder's loop gives every record in order, or the error that the first failing check raises |
| Wire.UnpackPack | srv6_fabric/mrc/probe.py:76-87 | Unpacking what was packed gives every big-endian field back, for any list of widths |
| Wire.PackUnpack | srv6_fabric/mrc/probe.py:76-87 | Packing what was unpacked gives the bytes back, for any list of widths |
| LossWindow.TableMatchesBlocked | srv6_fabric/mrc/loss_window.py:136-205 | Snapshotting a flow of a reachable table, of any width, raises exactly if an arrival on a plane above 255 was counted since the flow was last forgotten; never with at most 256 planes |
| LossWindow.TableMatchesArrivals | srv6_fabric/mrc/loss_window.py:136-155 | In every reachable table, of any width, a flow's counters are those of the arrivals since its window opened: flows, planes and windows do not leak |
| LossWindow.EveryArrivalAccounted | srv6_fabric/mrc/loss_window.py:109-219 | record calls = reported over all snapshots + open + dropped by forget + above the u32 cap, per flow and plane |
| LossWindow.WindowIdCountsSnapshots | srv6_fabric/mrc/loss_window.py:174-176 | The window id is the number of snapshots since the flow was last forgotten, modulo 65536 |
| LossWindow.CountIsExtremes | srv6_fabric/mrc/loss_window.py:142-147 | seen, minimum, maximum and last seq are those of the arrivals |
| LossWindow.MaxGapIsLargestJump | srv6_fabric/mrc/loss_window.py:148-155 | max_gap is the largest forward jump between consecutive arrivals |
| LossWindow.GapWithinSpan | srv6_fabric/mrc/loss_window.py:148-155 | max_gap never exceeds the span of the arrivals |
| LossWindow.SeenWithinSpan | srv6_fabric/mrc/loss_window.py:142-147 | With distinct seqs, seen is at most the span plus one |
| LossWindow.SpanWithinGaps | srv6_fabric/mrc/loss_window.py:142-155 | With increasing arrivals the span is at most (seen - 1) times max_gap |
| LossWindow.RecordBounds | srv6_fabric/mrc/loss_window.py:186-204 | A reported record never has a zero denominator; max_gap is at most expected - 1 exactly when max_gap is below the u32 cap |
| LossWindow.ExpectedIsSpan | srv6_fabric/mrc/loss_window.py:186-204 | A record's denominator is the span of the seqs that arrived, last - first + 1, and its seen their number, both capped at u32 |
| LossWindow.LostIsMissing | srv6_fabric/mrc/loss_window.py:186-204 | With distinct seqs expected - seen is the number of seqs of the span that never arrived |
| LossWindow.CapReachesGap | srv6_fabric/mrc/loss_window.py:193-196 | The counterexample at the cap: seqs 0 and 2^32 - 1 report max_gap equal to expected |
| LossWindow.RecordsInPlaneOrder | srv6_fabric/mrc/loss_window.py:178-204 | A report holds exactly the planes that saw traffic, with strictly increasing plane ids |
| LossWindow.ReportsEncode | srv6_fabric/mrc/loss_window.py:157-205 | Every report of a reachable table encodes without error and decodes to itself; with at most 256 planes there always is one |
| LossWindow.LossWindowTable.Record | srv6_fabric/mrc/loss_window.py:109-155 | In place: the errors, and the table after one arrival |
| LossWindow.LossWindowTable.SnapshotAndReset | srv6_fabric/mrc/loss_window.py:157-205 | In place: the report, the next window id and the reset counters; a new flow is opened |
| LossWindow.LossWindowTable.Forget | srv6_fabric/mrc/loss_window.py:212-219 | In place: the flow is gone, and nothing else |
| LossWindow.CollectRecords | srv6_fabric/mrc/loss_window.py:178-204 | The snapshot loop: one record per plane with traffic, or the error for a plane id above 255 |
| LossWindow.Bump | srv6_fabric/mrc/loss_window.py:142-155 | The per-packet update of one plane's counters |
| LossCompute.ClosestIsEarliestOfLeastSkew | srv6_fabric/mrc/loss_compute.py:98-115 | find_closest is the earliest-pushed window of least skew within max_skew, and None exactly when there is none |
| LossCompute.MidpointIsMiddle | srv6_fabric/mrc/loss_compute.py:73-74 | A midpoint is as far from the start as from the end, to within one nanosecond |
| LossCompute.WithinSkewIff | srv6_fabric/mrc/loss_compute.py:108-114 | A window is within a skew exactly when the middle of its two ends is |
| LossCompute.SentWindowRing.FindClosest | srv6_fabric/mrc/loss_compute.py:98-115 | The loop with a running best finds that window |
| LossCompute.SentWindowRing.Push | srv6_fabric/mrc/loss_compute.py:89-96 | The ring holds the last `capacity` of all windows pushed; a window of the wrong width is refused |
| LossCompute.RecentIff | srv6_fabric/mrc/loss_compute.py:86-96 | A pushed window is in the ring exactly until `capacity` more were pushed |
| LossCompute.RatiosAgree | srv6_fabric/mrc/loss_compute.py:124-135 | compute_loss_ratio lies in [0, 1] and is the ratio the EV table computes |
| LossCompute.ApplyLossReport | srv6_fabric/mrc/loss_compute.py:150-234 | In place: the loss windows recorded, the counters, and what a raise halfway leaves applied |
| LossCompute.Choose | srv6_fabric/mrc/loss_compute.py:193-209 | Per record: skip, raise, or the sender's count if positive and the receiver's otherwise |
| LossCompute.OneRecord | srv6_fabric/mrc/loss_compute.py:193-234 | With a paired window that sent something on the plane the sender's count is the denominator, else the receiver's, and the counters say which it was |
| LossCompute.CountersBalance | srv6_fabric/mrc/loss_compute.py:186-234 | updated = paired + fell back = windows recorded, and updated + skipped = records of a report applied to its end |
| LossCompute.CleanReportIsFolded | srv6_fabric/mrc/loss_compute.py:193-234 | A report whose records have a denominator and a known plane is applied whole: one loss window per record, in order, none skipped |
| LossCompute.LatestWinsIff | srv6_fabric/mrc/probe.py:165-166 | A report on known planes is applied as if each plane's latest record were its only one exactly if no record that counts is followed by another of its plane |
| LossCompute.LatestWinsIffDistinct | srv6_fabric/mrc/probe.py:165-166 | Where every record has a denominator: exactly if no plane id is repeated |
| LossCompute.RepeatedPlaneCountsTwice | srv6_fabric/mrc/loss_compute.py:186-234 | Where it fails: a decodable report with one plane twice demotes it, and its latest record alone leaves it UNKNOWN |
| LossCompute.SnapshotReachesTable | srv6_fabric/mrc/loss_compute.py:150-234 | End to end: any receiver's report decodes to its snapshot and is applied whole, one loss window per plane that saw traffic |
| Fabric.WriteLeafFrr | generators/fabric.py:440-493 | A leaf's SID and route lists hold exactly the SIDs and routes of the design, each once |
| Fabric.WriteSpineFrr | generators/fabric.py:534-553 | A spine's SID and route lists hold exactly the SIDs and routes of the design, each once |
| Fabric.WriteLeafInterfaces | generators/fabric.py:299-334 | A leaf's IPv6 interface addresses are its loopback and exactly its uplinks and its two host ports |
| Fabric.WriteSpineInterfaces | generators/fabric.py:366-380 | A spine's IPv6 interface addresses are its loopback and exactly its downlinks |
| Fabric.WriteLinks | generators/fabric.py:725-747 | The link list holds exactly the fabric and host links, each once |
| Fabric.LinksUsePortsOnce | generators/fabric.py:725-747 | No port is used by two links exactly when there are at most eight spines |
| Fabric.LinkAddresses | generators/fabric.py:139-145 | Every fabric link has a /127 of its own in the plane, with the spine at 0 and the leaf at 1 |
| Fabric.HostAddresses | generators/fabric.py:238-268 | A host port is ::1 of the /64 in which its host is ::2; tenants and hosts do not share a prefix |
| Forwarding.StepIsolatesAndProgresses | generators/fabric.py:440-493 | Each hop of a plane's carrier stays in the plane and lowers a measure |
| Forwarding.RunsStayInPlaneAndStop | generators/fabric.py:534-553 | For every carrier in a plane's block, from any node of the plane, under any ECMP choice, every run stays in the plane and has at most 21 states |
| Forwarding.ForeignCarrierIsDropped | generators/fabric.py:122-128 | A carrier of another block is neither forwarded nor decapsulated |
| Forwarding.SpentCarrierStops | generators/fabric.py:446-475 | A carrier ends at a uN or uA behind which it carries nothing, and at a loopback |
| Delivery.CarrierDelivers | srv6_fabric/topo.py:319-330 | Every run of the carrier visits leaf(src), spine, leaf(dst) and is decapsulated exactly once, at its end, on host dst's NIC of that plane |
| Delivery.PathIsRun | srv6_fabric/topo.py:319-330 | That path is a run |
| Delivery.OnlyPath | srv6_fabric/topo.py:319-330 | And the only one |
| Delivery.DeliveredOnceAtEnd | generators/fabric.py:707-718 | Decapsulation happens at its last state alone: at the leaf for green, on the host for yellow |
| Delivery.LeafLocatorFromLeaf | generators/fabric.py:479-493 | From a leaf, another leaf's locator goes to any spine of the plane, unchanged |
| Delivery.SpineLocatorFromLeaf | generators/fabric.py:481-484 | From a leaf, a spine's locator goes to that spine alone, unchanged |
| Delivery.LocatorsFromSpine | generators/fabric.py:543-548 | From a spine, a leaf's locator goes to that leaf, and no other locator is routed |
| Delivery.MissingSpineIsDropped | generators/fabric.py:446-451 | A carrier naming a spine that does not exist is dropped by the first leaf |
| Topo.UsidOuterDst | srv6_fabric/topo.py:319-330 | Defined exactly for a plane, spine and leaf of the topology |
| Topo.UsidErrors | srv6_fabric/topo.py:319-330 | Out of range, the first of plane, spine and leaf that is wrong is named |
| Topo.SpineChoiceInRangeIff | srv6_fabric/topo.py:150-157 | Every automatic spine exists exactly when there are eight spines or at most eight leaves |
| Topo.SpineForSymmetric | srv6_fabric/topo.py:150-157 | Both directions of a pair share a spine |
| Topo.ReferencePairsSpread | srv6_fabric/topo.py:138-141 | The reference pairs are (0, 15) to (7, 8) and use eight different spines |
| Topo.OtherPairsGoRound | srv6_fabric/topo.py:150-157 | Every other pair goes round the spines: one on with the higher host, as many as there are leaves with the lower, from spine 1 for (0, 1) |
| FlowHash.Hash5 | srv6_fabric/topo.py:347-355 | The byte loop computes the FNV-1a fold of the canonical string |
| FlowHash.CanonicalIsInjective | srv6_fabric/topo.py:347-350 | Two flows between addresses whose text has no bar have the same canonical string only if they are the same |
| FlowHash.KnownString | srv6_fabric/topo.py:347-350 | A flow's canonical string as written |
| FlowHash.KnownHashes | srv6_fabric/topo.py:351-355 | Two published FNV-1a hashes |
| FlowHash.MixIsBijective | srv6_fabric/topo.py:351-354 | For a fixed byte a hash step is undone by its inverse: a bijection on 64-bit values |
| FlowHash.OneByteApart | srv6_fabric/topo.py:347-355 | Strings of equal length that differ in exactly one byte never share a hash |
| FlowHash.FlowsOneByteApart | srv6_fabric/topo.py:347-355 | So two such flow keys never share hash5 |
| Policy.BuildCdf | srv6_fabric/policy.py:104-118 | The loop accumulates the normalized prefix sums, the last forced to 1 |
| Policy.WeightedPick | srv6_fabric/policy.py:121-133 | The scan finds the first index whose threshold exceeds the draw |
| Policy.PickIffBetween | srv6_fabric/policy.py:121-133 | Plane p is picked exactly when the draw lies in p's slice of [0, 2^64) |
| Policy.SharesAreExact | srv6_fabric/policy.py:101-133 | Over any 2^64 consecutive seqs plane p is picked exactly ceil(cdf[p] 2^64) - ceil(cdf[p-1] 2^64) times, within one of its exact share |
| Policy.HashSharesAreExact | srv6_fabric/policy.py:121-133 | At one seq, over any 2^64 consecutive flow hashes plane p is picked exactly as often: flows spread like seqs |
| Policy.NeverTwiceRunning | srv6_fabric/policy.py:96-133 | A plane with at most 2^64 - 0x9E3779B97F4A7C15 of the 2^64 draws is never picked for two seqs running of a flow |
| Policy.ThirdNeverTwiceRunning | srv6_fabric/policy.py:96-133 | So no plane with at most a third of the weight is |
| Policy.PickedHasWeight | srv6_fabric/policy.py:121-133 | A plane of weight zero is never picked |
| Policy.MrcPickAvoidsBadPlanes | srv6_fabric/policy.py:216-228 | After any run of the EV table the picked plane is not ASSUMED_BAD |
| Policy.NotSprayedUntilQuiet | srv6_fabric/mrc/loss_compute.py:212-225 | A plane demoted for loss is picked for no flow and seq until a quiet loss window is recorded for it, however its probes fare |
| Policy.ProbesAloneDoNotRecover | srv6_fabric/mrc/loss_compute.py:221-225 | A run: two bad windows and then any number of successful probes leave the plane ASSUMED_BAD and unsprayed |
| Policy.MrcPick | srv6_fabric/policy.py:216-228 | The pick from the cached weights of any valid table is never ASSUMED_BAD, and the fallback for a zero sum is never taken |
| Policy.NewWeighted | srv6_fabric/policy.py:79-88 | A weighted policy is refused exactly for a wrong length, a negative weight or a zero sum |
| Policy.HealthAwarePick | srv6_fabric/policy.py:152-162 | The first plane that is up, cyclically from the inner choice |
| Policy.PickedIsNearest | srv6_fabric/policy.py:152-162 | Going upwards from the choice and round, every plane passed over is down |
| Policy.UpWheneverAnyIs | srv6_fabric/policy.py:152-162 | The picked plane is up whenever any plane is |
| Health.DownIff | srv6_fabric/health.py:125-137 | A plane is down exactly if a run of `threshold` failures ended with no later run of `recovery` successes |
| Health.DownStep | srv6_fabric/health.py:125-137 | One more result changes `down` exactly when it completes such a run |
| Health.StreaksCountRuns | srv6_fabric/health.py:125-137 | The streak counters reach a length exactly when a run of it just ended |
| Health.HealthMonitor.Tick | srv6_fabric/health.py:116-123 | One round records every plane's result and nothing else in the shared set |
| Health.HealthMonitor.Record | srv6_fabric/health.py:125-137 | In place: one plane's streaks and its membership of the shared set |
| Reorder.WindowIsTop | srv6_fabric/reorder.py:53-60 | The bounded window always holds the `_window_cap` largest distinct seqs observed |
| Reorder.DuplicateIff | srv6_fabric/reorder.py:53-55 | An arrival counts as a duplicate exactly if it was seen before and fewer than cap distinct larger seqs have been seen |
| Reorder.CountersMatchHistory | srv6_fabric/reorder.py:49-71 | received + duplicates = arrivals, and both, first and last seq are those of the history |
| Reorder.BinsMatchHistory | srv6_fabric/reorder.py:66-71 | Each histogram bin counts the arrivals with exactly that lateness |
| Reorder.PlanesMatchHistory | srv6_fabric/reorder.py:62-64 | Each plane's count is the number of counted arrivals on it |
| Reorder.BinZeroIff | srv6_fabric/reorder.py:66-71 | Bin 0 counts exactly the strict new maxima in every history iff the window cap is positive |
| Reorder.LossIff | srv6_fabric/reorder.py:75-85 | `loss` is the number of never-seen seqs in [first, last] exactly under the stated condition on early and missed arrivals |
| Reorder.EarlyArrivalHidesLoss | srv6_fabric/reorder.py:75-85 | Where it fails: after arrivals 5, 3, 7 the loss is 0 although 6 was never seen |
| Reorder.MassEquals | srv6_fabric/reorder.py:62-71 | The histogram's mass is the number received |
| Reorder.ReorderPercentile | srv6_fabric/reorder.py:99-113 | The smallest bin that covers pct percent of the arrivals, and no smaller D does; 0 for an empty histogram, or the error |
| Reorder.FlowStats.Observe | srv6_fabric/reorder.py:49-71 | In place: the statistics after one arrival |
| Routes.ExpandSpec | srv6_fabric/cli/routes.py:277-340 | The first failing check's error, NoPairs, or the expansion: one pair per (tenant, a < b) named, in order, with the last spine and planes given for it |
| Routes.LastWins | srv6_fabric/cli/routes.py:324-331 | The dictionary keeps exactly the named pairs, each with its last entry |
| Routes.LastEntryDecides | srv6_fabric/cli/routes.py:277-340 | The last entry that names a pair, in either order, decides its spine, fixed or automatic, and its planes, given or all |
| Routes.FirstWrongPair | srv6_fabric/cli/routes.py:288-299 | Pairs are refused for what is wrong with the first wrong one: its tenant, a host, its spine or a plane, in this order |
| Routes.FirstWrongMesh | srv6_fabric/cli/routes.py:302-317 | The same for meshes |
| Routes.ExpandedInOrder | srv6_fabric/cli/routes.py:334-334 | Pairs come out green before yellow, then by the lower and the higher host |
| Routes.ProductIs | srv6_fabric/cli/routes.py:302-317 | A mesh is the cartesian product without the diagonal |
| Routes.PlanesSorted | srv6_fabric/cli/routes.py:251-257 | Planes are sorted without repetition and are those given |
| Routes.CollectPairs | srv6_fabric/cli/routes.py:288-299 | The loop over explicit pairs, with the error of the first bad one |
| Routes.CollectMeshes | srv6_fabric/cli/routes.py:302-317 | The loop over meshes, with the error of the first bad one |
| Routes.SortKeys | srv6_fabric/cli/routes.py:334-334 | The pairs come out strictly sorted, all of them |
| Routes.Emit | srv6_fabric/cli/routes.py:213-226 | A pair's routes: both directions, every plane |
| Routes.AllRoutesAre | srv6_fabric/cli/routes.py:213-226 | The routes of a spec are exactly those of its pairs, in both directions and on every plane, on that host, for that destination, by eth(plane + 1) with metric 100 + plane; and that many |
| Routes.RouteKeysDistinct | srv6_fabric/cli/routes.py:213-226 | All routes of sorted pairs have distinct (host, dst, dev, metric) keys, each belonging to one of the pairs |
| Routes.ExpandedKeysDistinct | srv6_fabric/cli/routes.py:213-226 | So all routes of an expanded spec have distinct keys |
| Routes.AnyOrderSameTable | srv6_fabric/cli/routes.py:370-387 | In whatever order routes are applied or deleted, the kernel table ends the same |
| Routes.ApplyIsIdempotent | srv6_fabric/cli/routes.py:370-375 | Applying a spec twice is applying it once |
| Routes.DeleteUndoesApply | srv6_fabric/cli/routes.py:378-387 | Deleting an applied spec removes exactly its keys, and absent ones are no error |
| Routes.RouteDeliversIff | srv6_fabric/cli/routes.py:169-172 | A packet sent by a route is delivered once, at the host the route is for, exactly when the spine its carrier names exists; else it is dropped at once |
| Routes.ExpandedSpinesExist | srv6_fabric/cli/routes.py:175-183 | With eight spines or at most eight leaves every expanded route names a spine that exists |
| Routes.AutoSpineCanBeMissing | srv6_fabric/cli/routes.py:175-183 | With fewer spines and more leaves an automatic pair does not: the reference table names spine 7 |

## Left out

- Sockets, device binding, thread start and stop, timers and sleeping: input and output; each thread body is one turn with its clock value as an argument.
- Failed sends: a probe that is not sent is a probe the network loses.
- docker exec, tc, netem and the thread pools of the route tool: foreign calls; applying and deleting routes are operations on a map.
- Text emission of frr.conf, config_db.json and the clab topology, management addresses, MACs and port lanes: only the tables the text encodes are modelled.
- Scenario validation, the environment JSON, argument parsing, reports and their merging, and the apiVersion, kind and YAML type checks of a route spec: field checks that would add easy members.
- Parsing and canonicalizing IPv6 strings, and the parsing of `ip route` output.
- Rounding of floats, RTT rings and their percentiles, `reorder_mean`, `snapshot()` and the transition callback.
- RoundRobin and Hash5Tuple: one modulo each.
- Deprecated aliases and `leaf_gateway_addr` in topo.py.
- LossWindow.LossWindowTable: one plane's counters are a value in their flow's list, not an object of their own; they are never shared. The dict's insertion order is not kept, so a report round visits the flows in some order.
- LossCompute.ApplyLossReport: the counters object is always given; leaving it out only discards the counts.
- Agent.ReceiverAgent: flow keys follow the (tenant, source, destination) convention; the skipping of keys of another shape is not modelled.
- Fabric.WriteLeafInterfaces: the IPv4 loopback, and the default routes of hosts, are not modelled.
- Fabric.WriteSpineInterfaces: the IPv4 loopback is not modelled.
- Protocol.ReachableInv: one sender and one receiver; probes of other senders and forged payloads are not on the network. Loss windows may be recorded at any time with any counts.
- SenderAgent.SenderMrcAgent.EmitRound: one round is atomic here; `Protocol` interleaves its probes with the other threads.
