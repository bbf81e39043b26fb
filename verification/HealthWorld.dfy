/** The writers at work on one table: what the web UI does with a probe result
    (`webui/api_handlers.go`), and a service loop in which every step of a run is
    carried out by the statements themselves. */
module HealthWorld {
  import opened Wrappers
  import opened Storage
  import opened Health
  import opened Refresh
  import opened HealthRuns
  import opened HealthClock
  import RefreshTx

  // ------------------------------------------------ one probe result

  datatype Verdict = Valid | GeoRejected | Invalid

  /** A probe of `snapshot`, the row as it was read before the probe began. */
  datatype ProbeResult = ProbeResult(snapshot: Proxy, verdict: Verdict, o: Observation)

  /** The result is still about this row, and its parent accepts probes. */
  predicate Current(db: Db, x: ProbeResult) {
    SameRoute(db, IdentityOf(x.snapshot)) && ParentIsActive(db, x.snapshot.route)
  }

  /** `applyProbeResult`, with nothing written in between its statements.  A
      result for a route that is no longer there writes nothing, and neither does
      a valid one with an incomplete exit. */
  method ApplyProbeResult(table: Table, x: ProbeResult, now: int) returns (ok: bool)
    modifies table`rows
    ensures OnlyRow(old(table.rows), table.rows, x.snapshot.id)
    ensures !ok ==> table.rows == old(table.rows)
    ensures ok <==> Current(old(table.Value()), x) && (x.verdict == Valid ==> Trusted(x.o))
                    && (x.verdict == Invalid && x.snapshot.status == Disabled ==>
                        old(table.rows)[x.snapshot.id].status == Disabled)
    ensures ok ==> Settles(old(table.rows)[x.snapshot.id], x, table.rows[x.snapshot.id], now)
  {
    hide Settles, Current, OnlyRow;
    match x.verdict {
      case GeoRejected => ok := ApplyRejected(table, x, now);
      case Invalid => ok := ApplyInvalid(table, x, now);
      case Valid => ok := ApplyValid(table, x, now);
    }
  }

  /** The other rows are as they were. */
  predicate OnlyRow(before: Rows, after: Rows, id: ProxyId) {
    after.Keys == before.Keys && forall k | k in before && k != id :: after[k] == before[k]
  }

  method ApplyRejected(table: Table, x: ProbeResult, now: int) returns (ok: bool)
    requires x.verdict == GeoRejected
    modifies table`rows
    ensures OnlyRow(old(table.rows), table.rows, x.snapshot.id) && (!ok ==> table.rows == old(table.rows))
    ensures ok <==> Current(old(table.Value()), x)
    ensures ok ==> Settles(old(table.rows)[x.snapshot.id], x, table.rows[x.snapshot.id], now)
  {
    hide EvidenceAfter, RegionOf, Trusted, RiskTaken;
    var who := IdentityOf(x.snapshot);
    if who.id in table.rows {
      ExitAfter(table.rows[who.id].evidence, ApplyProbe(x.o), now);
      RiskAfter(table.rows[who.id].evidence, ApplyProbe(x.o), now);
    }
    var r := table.DisableRouteForPolicy(who, now);
    if !r.Written? { return false; }
    r := table.ApplyProbeObservation(who, x.o, now);
    return r.Written?;
  }

  method ApplyInvalid(table: Table, x: ProbeResult, now: int) returns (ok: bool)
    requires x.verdict == Invalid
    modifies table`rows
    ensures OnlyRow(old(table.rows), table.rows, x.snapshot.id) && (!ok ==> table.rows == old(table.rows))
    ensures ok <==> Current(old(table.Value()), x)
                    && (x.snapshot.status == Disabled ==> old(table.rows)[x.snapshot.id].status == Disabled)
    ensures ok ==> Settles(old(table.rows)[x.snapshot.id], x, table.rows[x.snapshot.id], now)
  {
    hide EvidenceAfter, RegionOf, Trusted, RiskTaken;
    var who := IdentityOf(x.snapshot);
    if who.id in table.rows {
      ExitAfter(table.rows[who.id].evidence, DisabledProbeFailure(x.o), now);
      RiskAfter(table.rows[who.id].evidence, DisabledProbeFailure(x.o), now);
      ExitAfter(table.rows[who.id].evidence, ProbeFailure(x.o, 1), now);
      RiskAfter(table.rows[who.id].evidence, ProbeFailure(x.o, 1), now);
    }
    var r;
    if x.snapshot.status == Disabled {
      r := table.RecordDisabledProbeFailure(who, x.o, now);
    } else {
      r := table.RecordProbeFailure(who, x.o, 1, now);
    }
    return r.Written?;
  }

  method ApplyValid(table: Table, x: ProbeResult, now: int) returns (ok: bool)
    requires x.verdict == Valid
    modifies table`rows
    ensures OnlyRow(old(table.rows), table.rows, x.snapshot.id) && (!ok ==> table.rows == old(table.rows))
    ensures ok <==> Current(old(table.Value()), x) && Trusted(x.o)
    ensures ok ==> Settles(old(table.rows)[x.snapshot.id], x, table.rows[x.snapshot.id], now)
  {
    hide EvidenceAfter, RegionOf, Trusted, RiskTaken;
    var who := IdentityOf(x.snapshot);
    if who.id in table.rows {
      ExitAfter(table.rows[who.id].evidence, Recover(x.o), now);
      RiskAfter(table.rows[who.id].evidence, Recover(x.o), now);
      ExitAfter(table.rows[who.id].evidence, ApplyProbe(x.o), now);
      RiskAfter(table.rows[who.id].evidence, ApplyProbe(x.o), now);
    }
    var r := table.RecoverProxyFromProbe(who, x.o, now);
    if r.Written? { return true; }
    if r.BadArgument? { return false; }
    r := table.ApplyProbeObservation(who, x.o, now);
    return r.Written?;
  }

  /** What a result that was written means for its row. */
  predicate Settles(was: Proxy, x: ProbeResult, row: Proxy, now: int) {
    && row.route == was.route && row.userPaused == was.userPaused && row.lastCheck == Some(now)
        && row.lastUsed == was.lastUsed
    && (Trusted(x.o) ==> row.evidence.checkedAt == Some(now) && row.evidence.exitIP == x.o.exitIP
                         && row.evidence.exitLocation == x.o.exitLocation)
    && (!Trusted(x.o) ==>
        row.evidence.checkedAt == was.evidence.checkedAt && row.evidence.exitIP == was.evidence.exitIP)
    && RiskTaken(was.evidence, x.o, row.evidence)
    && row.region == (if Trusted(x.o) && !was.regionManual && RegionOf(x.o.exitLocation) != ""
                      then RegionOf(x.o.exitLocation) else was.region)
    && match x.verdict
       case Valid =>
         row.failCount == 0
         && (if was.status == Disabled && !was.userPaused then row.status == Active && row.disabledAt == None
             else row.status == was.status && row.disabledAt == was.disabledAt)
       case GeoRejected => row.status == Disabled && row.disabledAt == None && row.failCount == 0
       case Invalid =>
         if x.snapshot.status == Disabled then
           row.status == Disabled && row.failCount == was.failCount && row.disabledAt == Since(was.disabledAt, now)
         else
           row.failCount == was.failCount + 1
           && (was.failCount >= 0 ==> row.status == Disabled && row.disabledAt == Since(was.disabledAt, now))
  }

  /** A clock that runs is left alone. */
  function Since(clock: Option<int>, now: int): Option<int> {
    if clock.Some? then clock else Some(now)
  }

  // ------------------------------------------------ a service loop over the table

  class World {
    const table: Table
    var nextId: ProxyId
    var now: int
    ghost var flights: set<Identity>
    ghost var seen: set<Sighting>

    ghost function State(): Sys
      reads this, table
    {
      Sys(table.Value(), nextId, flights, seen, now)
    }

    constructor (db: Db, nextId: ProxyId, now: int)
      ensures State() == Sys(db, nextId, {}, {}, now) && fresh(table)
    {
      table := new Table(db);
      this.nextId, this.now, flights, seen := nextId, now, {}, {};
    }

    /** A report is delivered by its statement. */
    method Report(who: Identity, r: Health.Report) returns (outcome: Outcome)
      modifies table`rows
      ensures table.Value() == DbAfter(old(table.Value()), who, r, now)
    {
      hide RowAfter, Lands, Refused, OutcomeOf;
      match r {
        case ApplyProbe(o) => outcome := table.ApplyProbeObservation(who, o, now);
        case ForwardFailure(threshold) => outcome := table.RecordForwardFailure(who, threshold, now);
        case ForwardSuccess => outcome := table.RecordForwardSuccess(who, now);
        case ProbeFailure(o, threshold) => outcome := table.RecordProbeFailure(who, o, threshold, now);
        case Recover(o) => outcome := table.RecoverProxyFromProbe(who, o, now);
        case DisabledProbeFailure(o) => outcome := table.RecordDisabledProbeFailure(who, o, now);
        case PolicyDisable => outcome := table.DisableRouteForPolicy(who, now);
      }
    }

    /** The statements carry out exactly the step of the state machine. */
    method Perform(a: Action)
      requires Enabled(State(), a)
      modifies this, table
      ensures State() == Next(old(State()), a)
    {
      hide DbAfter, Enabled, Toggled, Paused;
      ghost var s := State();
      if a.Deliver? {
        var _ := Report(a.who, a.r);
      } else if a.Toggle? {
        var _ := table.ToggleSubscription(a.sub);
      } else if a.PauseSub? {
        var _ := table.PauseSubscription(a.sub);
      } else {
        var db := NextDb(table.Value(), now, a);
        table.rows, table.subs := db.rows, db.subs;
      }
      flights, seen := Next(s, a).flights, Next(s, a).seen;
      if a.Replace? {
        nextId := a.nextId;
      } else if a.WriteManual? && a.id == nextId {
        nextId := nextId + 1;
      } else if a.Tick? {
        now := now + a.delta;
      }
    }

    /** A refresh is carried out by its transaction, and is the `Replace` step or
        nothing at all. */
    method Refresh(sub: int, entries: seq<Entry>) returns (ok: bool, ids: seq<ProxyId>)
      requires Unique(table.rows) && UniqueKeys(table.rows, sub) && forall id | id in table.rows :: id < nextId
      modifies this`nextId, table`rows
      ensures Unique(table.rows) && UniqueKeys(table.rows, sub)
      ensures ok <==> sub in table.subs && TmpClear(old(table.rows), sub, Kept(entries))
      ensures ok ==> Enabled(old(State()), Replace(sub, Kept(entries), table.rows, ids, nextId))
      ensures ok ==> State() == Next(old(State()), Replace(sub, Kept(entries), table.rows, ids, nextId))
      ensures !ok ==> State() == old(State())
    {
      hide Unique, UniqueKeys, TmpClear, Kept, Refreshed;
      var tx := new RefreshTx.Tx(table.rows, nextId);
      ok, ids := RefreshTx.Replace(tx, table.subs, sub, entries);
      table.rows, nextId := tx.rows, tx.nextId;
    }

    /** Any sequence of steps, carried out on the table, keeps what the run
        theorems promise. */
    method Serve(actions: seq<Action>)
      requires Feasible(State(), actions) && EvidenceHolds(State()) && RowsHold(State()) && ServiceHolds(State())
      modifies this, table
      ensures State() == After(old(State()), actions)
      ensures EvidenceHolds(State()) && RowsHold(State()) && ServiceHolds(State())
    {
      hide EvidenceHolds, RowsHold, ServiceHolds, Enabled, Next;
      for i := 0 to |actions|
        invariant Feasible(State(), actions[i..]) && After(State(), actions[i..]) == After(old(State()), actions)
        invariant EvidenceHolds(State()) && RowsHold(State()) && ServiceHolds(State())
      {
        assert actions[i..][0] == actions[i] && actions[i..][1..] == actions[i + 1..];
        EvidenceStep(State(), actions[i]);
        RowsStep(State(), actions[i]);
        ServiceStep(State(), actions[i]);
        Perform(actions[i]);
      }
    }
  }

  ghost predicate Feasible(s: Sys, actions: seq<Action>)
    decreases |actions|
  {
    actions != [] ==> Enabled(s, actions[0]) && Feasible(Next(s, actions[0]), actions[1..])
  }

  ghost function After(s: Sys, actions: seq<Action>): Sys
    requires Feasible(s, actions)
    decreases |actions|
  {
    if actions == [] then s else After(Next(s, actions[0]), actions[1..])
  }
}
