/** EVStateTable: the records of every tenant and plane, mutated in place, and
    the cached weight tuples the spray policy reads. */
module EvTable {
  import opened Wrappers
  import opened EvSpec

  class PlaneRecord {
    ghost const tenant: string
    ghost const plane: nat
    var state: EvState
    var timeouts: nat
    var successes: nat
    var lossWindows: nat
    var lastLoss: real
    var transitions: nat
    var suppressed: nat

    constructor (ghost tenant: string, ghost plane: nat)
      ensures this.tenant == tenant && this.plane == plane && View() == FRESH
    {
      this.tenant, this.plane := tenant, plane;
      state, timeouts, successes, lossWindows, lastLoss, transitions, suppressed := Unknown, 0, 0, 0, 0.0, 0, 0;
    }

    ghost function View(): Rec
      reads this
    {
      Rec(state, timeouts, successes, lossWindows, lastLoss, transitions, suppressed)
    }
  }

  /** One tenant's list of records together with its entry of the weights cache. */
  class TenantPlanes {
    ghost const tenant: string
    const cfg: Config
    const minActive: int
    const planes: seq<PlaneRecord>
    ghost const records: set<PlaneRecord>
    var weights: seq<real>
    /** The records' values. */
    ghost var recs: seq<Rec>

    ghost predicate Shape() {
      && |planes| >= 1
      && minActive == ResolveMinActive(cfg, |planes|)
      && (forall p :: 0 <= p < |planes| ==> planes[p] in records && planes[p].plane == p)
      && (forall r :: r in records ==> r.tenant == tenant)
    }

    ghost predicate RecsAreCurrent()
      requires Shape()
      reads this`recs, records
    {
      |recs| == |planes| && forall p :: 0 <= p < |planes| ==> planes[p].View() == recs[p]
    }

    /** The cached weights are those the states give. */
    ghost predicate Valid()
      reads this, records
    {
      Shape() && RecsAreCurrent() && weights == Weights(recs)
    }

    constructor (ghost tenant: string, numPlanes: nat, cfg: Config)
      requires numPlanes >= 1
      ensures Valid() && fresh(records)
      ensures this.tenant == tenant && this.cfg == cfg && recs == Initial(numPlanes)
    {
      var row: seq<PlaneRecord> := [];
      for p := 0 to numPlanes
        invariant |row| == p
        invariant forall k :: 0 <= k < p ==>
                    fresh(row[k]) && row[k].tenant == tenant && row[k].plane == k && row[k].View() == FRESH
      {
        var r := new PlaneRecord(tenant, p);
        row := row + [r];
      }
      this.tenant, this.cfg, this.minActive := tenant, cfg, ResolveMinActive(cfg, numPlanes);
      this.planes := row;
      this.records := set p | 0 <= p < numPlanes :: row[p];
      this.recs := Initial(numPlanes);
      this.weights := [];
      new;
      RebuildWeights();
    }

    method RecordProbe(plane: nat, success: bool)
      requires Valid() && plane < |planes|
      modifies this, records
      ensures Valid()
      ensures recs == Apply(cfg, old(recs), Event(plane, if success then ProbeOk else ProbeTimeout))
    {
      var rec := planes[plane];
      assert rec.View() == recs[plane];
      if success {
        rec.successes := rec.successes + 1;
        rec.timeouts := 0;
        CountersWritten(plane);
        if !rec.state.Good? && rec.successes >= cfg.probeRecover && rec.lossWindows == 0 {
          Transition(plane, Good);
        }
      } else {
        rec.timeouts := rec.timeouts + 1;
        rec.successes := 0;
        CountersWritten(plane);
        if !rec.state.AssumedBad? && rec.timeouts >= cfg.probeFail {
          TryDemote(plane);
        }
      }
    }

    method RecordProbeKeepingFloor(plane: nat, success: bool)
      requires Valid() && plane < |planes| && Floor(cfg, recs)
      modifies this, records
      ensures Valid() && Floor(cfg, recs)
      ensures recs == Apply(cfg, old(recs), Event(plane, if success then ProbeOk else ProbeTimeout))
    {
      ApplyKeepsFloor(cfg, recs, Event(plane, if success then ProbeOk else ProbeTimeout));
      RecordProbe(plane, success);
    }

    method RecordLossKeepingFloor(plane: nat, seen: nat, expected: nat)
      requires Valid() && plane < |planes| && expected > 0 && Floor(cfg, recs)
      modifies this, records
      ensures Valid() && Floor(cfg, recs)
      ensures recs == Apply(cfg, old(recs), Event(plane, Window(seen, expected)))
    {
      ApplyKeepsFloor(cfg, recs, Event(plane, Window(seen, expected)));
      RecordLoss(plane, seen, expected);
    }

    method RecordLoss(plane: nat, seen: nat, expected: nat)
      requires Valid() && plane < |planes| && expected > 0
      modifies this, records
      ensures Valid()
      ensures recs == Apply(cfg, old(recs), Event(plane, Window(seen, expected)))
    {
      var rec := planes[plane];
      assert rec.View() == recs[plane];
      var clamped := if seen > expected then expected else seen;
      var ratio := (expected - clamped) as real / expected as real;
      assert ratio == LossRatio(seen, expected);
      LossWindowSteps(cfg, recs, plane, seen, expected);
      rec.lastLoss := ratio;
      if ratio > cfg.lossThreshold {
        rec.lossWindows := rec.lossWindows + 1;
        CountersWritten(plane);
        if !rec.state.AssumedBad? && rec.lossWindows >= cfg.lossDemote {
          TryDemote(plane);
        }
      } else {
        if ratio <= cfg.lossThreshold / 2.0 {
          rec.lossWindows := 0;
        }
        CountersWritten(plane);
      }
    }

    /** Brings `recs` up to date after a record's counters, not its state, were written. */
    ghost method CountersWritten(plane: nat)
      requires Shape() && plane < |planes| == |recs| && weights == Weights(recs)
      requires forall p :: 0 <= p < |planes| && p != plane ==> planes[p].View() == recs[p]
      requires planes[plane].state == recs[plane].state
      modifies this`recs
      ensures Valid()
      ensures recs == old(recs)[plane := planes[plane].View()]
      ensures MayDemote(cfg, recs, plane) == MayDemote(cfg, old(recs), plane)
    {
      CountersOnly(cfg, recs, plane, planes[plane].View());
      recs := recs[plane := planes[plane].View()];
    }

    method UsableOthers(plane: nat) returns (usable: int)
      requires Valid() && plane < |planes|
      ensures usable == UsableWithout(recs, plane)
    {
      usable := 0;
      for p := 0 to |planes|
        invariant usable == Usable(recs[..p]) - (if plane < p && !recs[plane].state.AssumedBad? then 1 else 0)
      {
        assert recs[..p + 1][..p] == recs[..p];
        assert planes[p].View() == recs[p];
        if p != plane && !planes[p].state.AssumedBad? {
          usable := usable + 1;
        }
      }
      assert recs[..|planes|] == recs;
    }

    method TryDemote(plane: nat)
      requires Valid() && plane < |planes|
      modifies this, records
      ensures Valid()
      ensures recs == old(recs)[plane := Demoted(old(recs)[plane], MayDemote(cfg, old(recs), plane))]
    {
      var usableAfter := UsableOthers(plane);
      if usableAfter < minActive {
        var rec := planes[plane];
        assert rec.View() == recs[plane];
        rec.suppressed := rec.suppressed + 1;
        CountersWritten(plane);
        return;
      }
      Transition(plane, AssumedBad);
    }

    method Transition(plane: nat, to: EvState)
      requires Valid() && plane < |planes|
      modifies this, records
      ensures Valid()
      ensures recs == old(recs)[plane := Transitioned(old(recs)[plane], to)]
    {
      var rec := planes[plane];
      assert rec.View() == recs[plane];
      if rec.state == to { return; }
      rec.state := to;
      rec.transitions := rec.transitions + 1;
      if to.Good? { rec.timeouts := 0; }
      if to.AssumedBad? { rec.successes := 0; }
      recs := recs[plane := rec.View()];
      RebuildWeights();
    }

    method RebuildWeights()
      requires Shape() && RecsAreCurrent()
      modifies this`weights
      ensures Valid()
    {
      var raw: seq<real> := [];
      var total := 0.0;
      for p := 0 to |planes|
        invariant |raw| == p && raw == RawWeights(recs)[..p] && total == Sum(raw)
      {
        var w := StateWeight(planes[p].state);
        assert planes[p].View() == recs[p];
        assert (raw + [w])[..p] == raw;
        raw := raw + [w];
        total := total + w;
      }
      assert raw == RawWeights(recs);
      if total <= 0.0 {
        weights := seq(|planes|, _ => 1.0 / |planes| as real);
      } else {
        weights := seq(|planes|, p requires 0 <= p < |raw| => raw[p] / total);
      }
    }
  }

  /** A row in order that holds these records, with the floor kept. */
  ghost predicate RowHolds(row: TenantPlanes, recs: seq<Rec>)
    reads row, row.records
  {
    row.Valid() && row.recs == recs && Floor(row.cfg, recs)
  }

  ghost predicate RowsHold(rows: map<string, TenantPlanes>, owned: set<object>, contents: map<string, seq<Rec>>)
    reads owned
  {
    && contents.Keys == rows.Keys
    && forall t {:trigger RowHolds(rows[t], contents[t])} :: t in rows ==>
         rows[t] in owned && rows[t].records <= owned && RowHolds(rows[t], contents[t])
  }

  class EvStateTable {
    const tenants: seq<string>
    const numPlanes: nat
    const cfg: Config
    const rows: map<string, TenantPlanes>
    /** The rows and their records. */
    ghost const owned: set<object>
    ghost const repr: set<object>
    /** The records' values, by tenant. */
    ghost var contents: map<string, seq<Rec>>

    ghost predicate Wired() {
      && this !in owned && repr == owned + {this}
      && (forall t {:trigger t in rows} :: t in rows <==> t in tenants)
      && (forall t {:trigger rows[t]} :: t in rows ==>
            && rows[t] in owned && rows[t].records <= owned && rows[t].Shape()
            && rows[t].tenant == t && rows[t].cfg == cfg && |rows[t].planes| == numPlanes)
    }

    ghost predicate Valid()
      reads this, repr
    {
      && Wired() && RowsHold(rows, owned, contents)
      && numPlanes >= 1 && (forall t {:trigger contents[t]} :: t in contents ==> |contents[t]| == numPlanes)
    }

    ghost function Table(): map<string, seq<Rec>>
      reads this
    {
      contents
    }

    constructor (tenants: seq<string>, numPlanes: nat, cfg: Config)
      requires tenants != [] && numPlanes >= 1
      ensures Valid() && fresh(repr)
      ensures this.tenants == tenants && this.numPlanes == numPlanes && this.cfg == cfg
      ensures Table() == map t | t in tenants :: Initial(numPlanes)
    {
      var rows, owned, contents := NewRows(tenants, numPlanes, cfg);
      this.tenants, this.numPlanes, this.cfg, this.rows := tenants, numPlanes, cfg, rows;
      this.owned, this.repr, this.contents := owned, owned + {this}, contents;
    }

    lemma RowsApart(tenant: string)
      requires Wired() && tenant in rows
      ensures forall t :: t in rows && t != tenant ==>
                rows[t] != rows[tenant] && rows[t].records !! rows[tenant].records
    {
      forall t | t in rows && t != tenant
        ensures rows[t] != rows[tenant] && rows[t].records !! rows[tenant].records
      {
        assert forall r :: r in rows[t].records ==> r.tenant == t;
        assert forall r :: r in rows[tenant].records ==> r.tenant == tenant;
      }
    }

    /** After one row alone was written, the others hold what they did. */
    twostate lemma OthersStayValid(tenant: string)
      requires old(Valid()) && tenant in rows
      requires forall o :: o in repr && o != rows[tenant] && o !in rows[tenant].records ==> unchanged(o)
      ensures OthersHold(tenant)
    {
      RowsApart(tenant);
      forall t | t in rows && t != tenant ensures RowHolds(rows[t], contents[t]) {
        var row := rows[t];
        assert old(RowHolds(row, contents[t]));
        assert unchanged(row) && forall r :: r in row.records ==> unchanged(r);
      }
    }

    ghost predicate OthersHold(tenant: string)
      requires Wired()
      reads this, repr
    {
      && contents.Keys == rows.Keys
      && forall t {:trigger RowHolds(rows[t], contents[t])} ::
           t in rows && t != tenant ==> RowHolds(rows[t], contents[t])
    }

    lemma AllHold(tenant: string)
      requires Wired() && tenant in rows && OthersHold(tenant) && RowHolds(rows[tenant], rows[tenant].recs)
      ensures RowsHold(rows, owned, contents[tenant := rows[tenant].recs])
    {
      var after := contents[tenant := rows[tenant].recs];
      forall t | t in rows ensures RowHolds(rows[t], after[t]) {
        if t != tenant { assert RowHolds(rows[t], contents[t]); }
      }
    }

    /** Brings `contents` up to date after one tenant's records were written. */
    ghost method Sync(tenant: string)
      requires Wired() && tenant in rows && RowsHold(rows, owned, contents[tenant := rows[tenant].recs])
      requires numPlanes >= 1 && forall t :: t in contents ==> |contents[t]| == numPlanes
      modifies this`contents
      ensures Valid() && contents == old(contents)[tenant := rows[tenant].recs]
    {
      assert RowHolds(rows[tenant], contents[tenant := rows[tenant].recs][tenant]);
      contents := contents[tenant := rows[tenant].recs];
    }

    lemma RowOf(tenant: string)
      requires Valid() && tenant in rows
      ensures RowHolds(rows[tenant], contents[tenant])
      ensures rows[tenant].cfg == cfg && |rows[tenant].planes| == numPlanes
      ensures rows[tenant] in owned && rows[tenant].records <= owned
    {
      assert RowHolds(rows[tenant], contents[tenant]);
    }

    method ProbeRow(tenant: string, plane: nat, success: bool)
      requires Valid() && tenant in rows && plane < numPlanes
      modifies repr
      ensures Valid()
      ensures contents == old(contents)[tenant := Apply(cfg, old(contents)[tenant], Event(plane,
              if success then ProbeOk else ProbeTimeout))]
    {
      var row := rows[tenant];
      RowOf(tenant);
      row.RecordProbeKeepingFloor(plane, success);
      OthersStayValid(tenant);
      AllHold(tenant);
      Sync(tenant);
    }

    method LossRow(tenant: string, plane: nat, seen: nat, expected: nat)
      requires Valid() && tenant in rows && plane < numPlanes && expected > 0
      modifies repr
      ensures Valid()
      ensures contents == old(contents)[tenant := Apply(cfg, old(contents)[tenant], Event(plane, Window(seen,
              expected)))]
    {
      var row := rows[tenant];
      RowOf(tenant);
      row.RecordLossKeepingFloor(plane, seen, expected);
      OthersStayValid(tenant);
      AllHold(tenant);
      Sync(tenant);
    }

    method RecordProbeResult(tenant: string, plane: int, success: bool, rttNs: Option<int>) returns (r: Result<()>)
      requires Valid()
      modifies repr
      ensures Valid()
      ensures r == (if tenant !in tenants then Err(UnknownTenant)
                    else if !(0 <= plane < numPlanes) then Err(PlaneOutOfRange)
                    else if success && (rttNs.None? || rttNs.value < 0) then Err(BadRtt)
                    else Ok(()))
      ensures Table() == if r.Err? then old(Table()) else
                ApplyTable(cfg, old(Table()), TenantEvent(tenant, Event(plane, if success then ProbeOk
                        else ProbeTimeout)))
    {
      if tenant !in rows { return Err(UnknownTenant); }
      if !(0 <= plane < numPlanes) { return Err(PlaneOutOfRange); }
      if success && (rttNs.None? || rttNs.value < 0) { return Err(BadRtt); }
      ProbeRow(tenant, plane, success);
      return Ok(());
    }

    method RecordLossWindow(tenant: string, plane: int, seen: int, expected: int) returns (r: Result<()>)
      requires Valid()
      modifies repr
      ensures Valid()
      ensures r == (if tenant !in tenants then Err(UnknownTenant)
                    else if !(0 <= plane < numPlanes) then Err(PlaneOutOfRange)
                    else if seen < 0 || expected < 0 then Err(NegativeCount)
                    else Ok(()))
      ensures Table() == if r.Err? then old(Table()) else
                ApplyTable(cfg, old(Table()), TenantEvent(tenant, Event(plane, Window(seen, expected))))
    {
      if tenant !in rows { return Err(UnknownTenant); }
      if !(0 <= plane < numPlanes) { return Err(PlaneOutOfRange); }
      if seen < 0 || expected < 0 { return Err(NegativeCount); }
      if expected == 0 {
        EmptyWindowIsNoop(cfg, Table(), tenant, plane, seen);
        return Ok(());
      }
      LossRow(tenant, plane, seen, expected);
      return Ok(());
    }

    /** The floor holds in every valid table, reached in whatever way. */
    lemma FloorOf(tenant: string)
      requires Valid() && tenant in tenants
      ensures |Table()[tenant]| == numPlanes && Usable(Table()[tenant]) >= ResolveMinActive(cfg, numPlanes) >= 1
    {
      assert tenant in rows;
      RowOf(tenant);
    }

    method State(tenant: string, plane: int) returns (r: Result<EvState>)
      requires Valid()
      ensures r == (if tenant !in tenants then Err(UnknownTenant)
                    else if !(0 <= plane < numPlanes) then Err(PlaneOutOfRange)
                    else Ok(Table()[tenant][plane].state))
    {
      if tenant !in rows { return Err(UnknownTenant); }
      if !(0 <= plane < numPlanes) { return Err(PlaneOutOfRange); }
      RowOf(tenant);
      assert rows[tenant].planes[plane].View() == rows[tenant].recs[plane];
      return Ok(rows[tenant].planes[plane].state);
    }

    method WeightsOf(tenant: string) returns (r: Result<seq<real>>)
      requires Valid()
      ensures r == (if tenant !in tenants then Err(UnknownTenant) else Ok(Weights(Table()[tenant])))
    {
      if tenant !in rows { return Err(UnknownTenant); }
      RowOf(tenant);
      return Ok(rows[tenant].weights);
    }
  }

  /** A repeated tenant name gets one row, the last. */
  method NewRows(tenants: seq<string>, numPlanes: nat, cfg: Config)
    returns (rows: map<string, TenantPlanes>, ghost owned: set<object>, ghost contents: map<string, seq<Rec>>)
    requires numPlanes >= 1
    ensures fresh(owned) && rows.Keys == set t | t in tenants
    ensures forall t :: t in rows ==> rows[t] in owned && rows[t].records <= owned && rows[t].tenant == t
    ensures forall t {:trigger rows[t]} :: t in rows ==>
              rows[t].Shape() && rows[t].cfg == cfg && |rows[t].planes| == numPlanes
    ensures contents == (map t | t in tenants :: Initial(numPlanes)) && RowsHold(rows, owned, contents)
  {
    UsableInitial(numPlanes);
    rows, owned := map[], {};
    for i := 0 to |tenants|
      invariant fresh(owned) && forall t :: t in rows <==> t in tenants[..i]
      invariant forall t :: t in rows ==> rows[t] in owned && rows[t].records <= owned && rows[t].tenant == t
      invariant forall t {:trigger rows[t]} :: t in rows ==>
                  rows[t].Shape() && rows[t].cfg == cfg && |rows[t].planes| == numPlanes
      invariant forall t {:trigger RowHolds(rows[t], Initial(numPlanes))} :: t in rows ==>
                  RowHolds(rows[t], Initial(numPlanes))
    {
      var row := new TenantPlanes(tenants[i], numPlanes, cfg);
      rows := rows[tenants[i] := row];
      owned := owned + {row} + row.records;
    }
    contents := map t | t in tenants :: Initial(numPlanes);
    forall t | t in rows ensures RowHolds(rows[t], contents[t]) { assert RowHolds(rows[t], Initial(numPlanes)); }
  }

  lemma EmptyWindowIsNoop(cfg: Config, table: map<string, seq<Rec>>, tenant: string, plane: nat, seen: nat)
    ensures ApplyTable(cfg, table, TenantEvent(tenant, Event(plane, Window(seen, 0)))) == table
  {
    if tenant in table {
      assert Apply(cfg, table[tenant], Event(plane, Window(seen, 0))) == table[tenant];
    }
  }

  /** A loss window is writing the counters, and then trying a demotion at the threshold. */
  lemma LossWindowSteps(cfg: Config, recs: seq<Rec>, p: nat, seen: nat, expected: nat)
    requires p < |recs| && expected > 0
    ensures var ratio := LossRatio(seen, expected);
            var bad := recs[p].(lastLoss := ratio, lossWindows := recs[p].lossWindows + 1);
            var calm := recs[p].(lastLoss := ratio,
                                 lossWindows := if ratio <= cfg.lossThreshold / 2.0 then 0 else recs[p].lossWindows);
            Apply(cfg, recs, Event(p, Window(seen, expected))) ==
              if ratio <= cfg.lossThreshold then recs[p := calm]
              else if bad.state.AssumedBad? || bad.lossWindows < cfg.lossDemote then recs[p := bad]
              else recs[p := Demoted(bad, MayDemote(cfg, recs, p))]
  {
  }

  predicate Floor(cfg: Config, recs: seq<Rec>) { Usable(recs) >= ResolveMinActive(cfg, |recs|) }

  lemma ApplyKeepsFloor(cfg: Config, recs: seq<Rec>, e: Event)
    requires Floor(cfg, recs)
    ensures Floor(cfg, Apply(cfg, recs, e))
  {
    if e.plane < |recs| { UsableUpdate(recs, e.plane, Apply(cfg, recs, e)[e.plane]); }
  }

  /** Writing counters moves neither the weights nor the floor. */
  lemma CountersOnly(cfg: Config, recs: seq<Rec>, p: nat, r: Rec)
    requires p < |recs| && r.state == recs[p].state
    ensures Weights(recs[p := r]) == Weights(recs)
    ensures MayDemote(cfg, recs[p := r], p) == MayDemote(cfg, recs, p) && Usable(recs[p := r]) == Usable(recs)
  {
    assert RawWeights(recs[p := r]) == RawWeights(recs);
    UsableUpdate(recs, p, r);
  }

  // ---------------------------------------------------------------------
  // Several tenants
  // ---------------------------------------------------------------------

  datatype TenantEvent = TenantEvent(tenant: string, event: Event)

  /** A table as a value. An event for a tenant that does not exist is refused. */
  function ApplyTable(cfg: Config, table: map<string, seq<Rec>>, e: TenantEvent): map<string, seq<Rec>> {
    if e.tenant in table then table[e.tenant := Apply(cfg, table[e.tenant], e.event)] else table
  }

  function RunTable(cfg: Config, tenants: set<string>, n: nat, evs: seq<TenantEvent>): (r: map<string, seq<Rec>>)
    ensures r.Keys == tenants
  {
    if evs == [] then map t | t in tenants :: Initial(n)
    else ApplyTable(cfg, RunTable(cfg, tenants, n, evs[..|evs| - 1]), evs[|evs| - 1])
  }

  function EventsOf(evs: seq<TenantEvent>, t: string): seq<Event> {
    if evs == [] then [] else
    var init, e := evs[..|evs| - 1], evs[|evs| - 1];
    EventsOf(init, t) + (if e.tenant == t then [e.event] else [])
  }

  /** Tenants do not interfere: a tenant's records after any run of the table are
      those of its own events alone. */
  lemma {:induction false} TenantsAreIndependent(cfg: Config, tenants: set<string>, n: nat,
          evs: seq<TenantEvent>, t: string)
    requires t in tenants
    ensures RunTable(cfg, tenants, n, evs)[t] == Run(cfg, n, EventsOf(evs, t))
  {
    if evs != [] {
      var init, e := evs[..|evs| - 1], evs[|evs| - 1];
      TenantsAreIndependent(cfg, tenants, n, init, t);
      if e.tenant == t {
        RunSnoc(cfg, n, EventsOf(init, t), e.event);
      } else {
        assert EventsOf(evs, t) == EventsOf(init, t);
      }
    }
  }
}
