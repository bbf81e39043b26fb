/** Everything that writes node rows, interleaved: probes and forwards whose
    results come back at any later time, subscription refreshes, pauses, policy
    sweeps and edits of manual nodes. */
module HealthRuns {
  import opened Wrappers
  import opened Storage
  import opened Health
  import opened Refresh

  /** A probe dialed `route` and found `o`. */
  datatype Sighting = Sighting(route: Route, o: Observation)

  /** `flights` holds the snapshots taken so far, `seen` what probes of them
      found; neither is part of the database. */
  datatype Sys = Sys(db: Db, nextId: ProxyId, flights: set<Identity>, seen: set<Sighting>, now: int)

  datatype Action =
    | Take(id: ProxyId)
    | Sight(who: Identity, o: Observation)
    | Deliver(who: Identity, r: Report)
    | Replace(sub: int, es: seq<Entry>, rows: Rows, ids: seq<ProxyId>, nextId: ProxyId)
    | PauseRow(id: ProxyId)
    | UnpauseRow(id: ProxyId)
    | DeleteRow(id: ProxyId)
    | Toggle(sub: int)
    | PauseSub(sub: int)
    | DeleteSub(sub: int)
    | AddSub(sub: int)
    | Sweep(swept: set<ProxyId>)
    | EditRegion(id: ProxyId, region: string, manual: bool)
    | WriteManual(id: ProxyId, row: Proxy)
    | Tick(delta: nat)

  /** A report carries what a probe of its snapshot found; callers use
      thresholds up to three. */
  predicate Deliverable(s: Sys, who: Identity, r: Report) {
    && who in s.flights
    && (Probed(r) ==> Sighting(who.route, r.o) in s.seen)
    && (r.ForwardFailure? || r.ProbeFailure? ==> r.threshold <= 3)
  }

  /** What adding, re-adding and rebinding a manual node may do to its row. */
  predicate ManualChange(s: Sys, id: ProxyId, row: Proxy) {
    && row.id == id && row.route.source == Manual
    && if id in s.db.rows then
         var was := s.db.rows[id];
         && was.route.source == Manual && row.userPaused == was.userPaused
         && row.useCount == was.useCount && row.successCount == was.successCount
         && (row.status == was.status || row.status == Disabled)
         && (row.failCount == was.failCount || row.failCount == 0)
         && (row.disabledAt == was.disabledAt || (row.disabledAt == None && row.route != was.route))
       else
         id == s.nextId && row.status == Disabled && row.disabledAt == None && row.failCount == 0
         && row.useCount == 0 && row.successCount == 0
  }

  predicate Enabled(s: Sys, a: Action) {
    match a
    case Take(id) => id in s.db.rows
    case Sight(who, _) => who in s.flights
    case Deliver(who, r) => Deliverable(s, who, r)
    case Replace(sub, es, rows, ids, nextId) =>
      && sub in s.db.subs && nextId >= s.nextId && (forall id | id in rows :: id < nextId)
      && Refreshed(s.db.rows, rows, sub, s.db.subs[sub], es, ids, s.nextId)
    case WriteManual(id, row) => ManualChange(s, id, row)
    case _ => true
  }

  /** A change of one row, if it is there. */
  function WithRow(db: Db, id: ProxyId, change: Proxy -> Proxy): Db {
    if id in db.rows then db.(rows := db.rows[id := change(db.rows[id])]) else db
  }

  function AfterSweep(rows: Rows, ids: set<ProxyId>): Rows {
    map id | id in rows :: if id in ids then rows[id].(status := Disabled) else rows[id]
  }

  function WithoutSub(rows: Rows, sub: int): Rows {
    map id | id in rows && !Mine(rows[id], sub) :: rows[id]
  }

  function NextDb(db: Db, now: int, a: Action): Db {
    match a
    case Take(_) => db
    case Sight(_, _) => db
    case Deliver(who, r) => DbAfter(db, who, r, now)
    case Replace(_, _, rows, _, _) => db.(rows := rows)
    case PauseRow(id) => WithRow(db, id, (p: Proxy) => p.(userPaused := true))
    case UnpauseRow(id) => WithRow(db, id, (p: Proxy) => p.(userPaused := false, failCount := 0))
    case DeleteRow(id) => db.(rows := db.rows - {id})
    case Toggle(sub) => Toggled(db, sub)
    case PauseSub(sub) => Paused(db, sub)
    case DeleteSub(sub) => if sub !in db.subs then db else Db(WithoutSub(db.rows, sub), db.subs - {sub})
    case AddSub(sub) => if sub in db.subs then db else db.(subs := db.subs[sub := "active"])
    case Sweep(ids) => db.(rows := AfterSweep(db.rows, ids))
    case EditRegion(id, region, manual) => WithRow(db, id, (p: Proxy) => p.(region := region, regionManual := manual))
    case WriteManual(id, row) => db.(rows := db.rows[id := row])
    case Tick(_) => db
  }

  function Next(s: Sys, a: Action): Sys
    requires Enabled(s, a)
  {
    Sys(NextDb(s.db, s.now, a),
        if a.Replace? then a.nextId else if a.WriteManual? && a.id == s.nextId then s.nextId + 1 else s.nextId,
        if a.Take? then s.flights + {IdentityOf(s.db.rows[a.id])} else s.flights,
        if a.Sight? then s.seen + {Sighting(a.who.route, a.o)} else s.seen,
        if a.Tick? then s.now + a.delta else s.now)
  }

  // ------------------------------------------------ what a row's evidence rests on

  predicate ExitBacked(seen: set<Sighting>, route: Route, ev: Evidence) {
    if ev.checkedAt.None? then ev.exitIP == "" && ev.exitLocation == ""
    else exists x | x in seen ::
        x.route == route && Trusted(x.o) && x.o.exitIP == ev.exitIP && x.o.exitLocation == ev.exitLocation
  }

  predicate LatencyBacked(seen: set<Sighting>, route: Route, ev: Evidence) {
    ev.latency != 0 ==> exists x | x in seen ::
        x.route == route && x.o.latency == ev.latency && ev.grade == Grade(x.o.latency)
  }

  predicate RiskBacked(seen: set<Sighting>, route: Route, ev: Evidence) {
    && (ev.abuse >= 0.0 ==> exists x | x in seen :: x.route == route && x.o.abuse == ev.abuse)
    && (ev.flagsSeen ==> exists x | x in seen :: x.route == route && x.o.flagsKnown && x.o.flags == ev.flags)
    && (ev.cfBlocked >= 0 ==> exists x | x in seen :: x.route == route && x.o.cfBlocked == ev.cfBlocked)
    && (ev.ai != map[] ==> exists x | x in seen :: x.route == route && x.o.ai == ev.ai)
  }

  /** The three groups of columns, each backed. */
  predicate EvidenceBacked(seen: set<Sighting>, route: Route, ev: Evidence) {
    ExitBacked(seen, route, ev) && LatencyBacked(seen, route, ev) && RiskBacked(seen, route, ev)
  }

  /** Every column that says something was observed on this very route. */
  predicate Backed(seen: set<Sighting>, p: Proxy) {
    EvidenceBacked(seen, p.route, p.evidence)
  }

  predicate EvidenceHolds(s: Sys) {
    forall id | id in s.db.rows && s.db.rows[id].route.source == Subscription :: Backed(s.seen, s.db.rows[id])
  }

  /** A usable row has fewer than three failures, a running clock means
      disabled, and successes are among the uses. */
  predicate Sound(p: Proxy) {
    && 0 <= p.successCount <= p.useCount && 0 <= p.failCount && (p.status != Disabled ==> p.failCount < 3)
    && (p.disabledAt.Some? ==> p.status == Disabled)
  }

  predicate RowsHold(s: Sys) {
    && (forall id | id in s.db.rows :: id < s.nextId && s.db.rows[id].id == id)
    && (forall id | id in s.db.rows :: Sound(s.db.rows[id]))
  }

  /** A subscription row in service has a checked exit. */
  predicate Checked(p: Proxy) {
    p.route.source == Subscription && p.status != Disabled ==> p.evidence.checkedAt.Some?
  }

  predicate ServiceHolds(s: Sys) {
    forall id | id in s.db.rows :: Checked(s.db.rows[id])
  }

  /** Rows of a paused subscription are out of service. */
  predicate PauseHolds(s: Sys) {
    forall id | id in s.db.rows && s.db.rows[id].route.source == Subscription
                && s.db.rows[id].route.subscriptionId in s.db.subs
                && s.db.subs[s.db.rows[id].route.subscriptionId] == "paused" :: s.db.rows[id].status == Disabled
  }

  /** A run from any table that meets the invariants. */
  predicate IsRun(run: seq<Sys>, actions: seq<Action>) {
    && |run| == |actions| + 1
    && EvidenceHolds(run[0]) && RowsHold(run[0]) && ServiceHolds(run[0]) && PauseHolds(run[0])
    && (forall i | 0 <= i < |actions| :: Enabled(run[i], actions[i]) && run[i + 1] == Next(run[i], actions[i]))
  }

  // ------------------------------------------------ evidence

  lemma LatencyBacks(seen: set<Sighting>, route: Route, ev: Evidence, o: Observation)
    requires EvidenceBacked(seen, route, ev) && Sighting(route, o) in seen
    ensures EvidenceBacked(seen, route, WithLatency(ev, o))
  {
    var x := Sighting(route, o);
    assert x.route == route && x.o.latency == WithLatency(ev, o).latency;
  }

  lemma ExitAndRiskBack(seen: set<Sighting>, route: Route, ev: Evidence, o: Observation, now: int)
    requires EvidenceBacked(seen, route, ev) && Sighting(route, o) in seen
    ensures EvidenceBacked(seen, route, WithRisk(WithExit(ev, o, now), o))
  {
    var x := Sighting(route, o);
    var exit := WithExit(ev, o, now);
    assert ExitBacked(seen, route, exit) by {
      assert Trusted(o) ==> x.route == route && Trusted(x.o);
    }
    RiskBacks(seen, route, exit, o);
  }

  lemma RiskBacks(seen: set<Sighting>, route: Route, ev: Evidence, o: Observation)
    requires RiskBacked(seen, route, ev) && Sighting(route, o) in seen
    ensures RiskBacked(seen, route, WithRisk(ev, o))
  {
    var x := Sighting(route, o);
    assert x in seen && x.route == route;
  }

  lemma ReportBacked(seen: set<Sighting>, p: Proxy, r: Report, now: int)
    requires Backed(seen, p) && (Probed(r) ==> Sighting(p.route, r.o) in seen)
    ensures Backed(seen, RowAfter(p, r, now)) && RowAfter(p, r, now).route == p.route
  {
    hide EvidenceBacked, WithExit, WithRisk, WithLatency, RegionAfter;
    if Probed(r) {
      LatencyBacks(seen, p.route, p.evidence, r.o);
      ExitAndRiskBack(seen, p.route, if Timed(r) then WithLatency(p.evidence, r.o) else p.evidence, r.o, now);
    }
  }

  lemma SurvivorBacked(seen: set<Sighting>, was: Proxy, e: Entry, subStatus: string)
    requires was.route.source == Subscription && was.route.nodeKey == e.nodeKey && Backed(seen, was)
    ensures Backed(seen, Survivor(was, e, subStatus))
  {
    hide StaysActive;
    if !RouteChanged(was, e) {
      assert Survivor(was, e, subStatus).route == was.route;
    }
  }

  lemma RefreshBacked(s: Sys, a: Action)
    requires EvidenceHolds(s) && Enabled(s, a) && a.Replace?
    ensures EvidenceHolds(Next(s, a))
  {
    hide Backed, Survivor, NewRow, InheritsPause;
    var rows := s.db.rows;
    forall id | id in a.rows && a.rows[id].route.source == Subscription ensures Backed(s.seen, a.rows[id]) {
      if !(id in rows && !Mine(rows[id], a.sub)) {
        var i :| 0 <= i < |a.ids| && a.ids[i] == id;
        if id in rows {
          SurvivorBacked(s.seen, rows[id], a.es[i], s.db.subs[a.sub]);
        } else {
          NewRowBacked(s.seen, id, a.es[i], a.sub, InheritsPause(rows, a.sub, a.es[i]));
        }
      }
    }
  }

  lemma NewRowBacked(seen: set<Sighting>, id: ProxyId, e: Entry, sub: int, paused: bool)
    ensures Backed(seen, NewRow(id, e, sub, paused))
  {
  }

  lemma MoreSeen(seen: set<Sighting>, more: set<Sighting>, p: Proxy)
    requires Backed(seen, p) && seen <= more
    ensures Backed(more, p)
  {
  }

  lemma EvidenceStep(s: Sys, a: Action)
    requires EvidenceHolds(s) && Enabled(s, a)
    ensures EvidenceHolds(Next(s, a))
  {
    hide Backed, RowAfter, Refreshed, Lands, Refused;
    var s' := Next(s, a);
    if a.Replace? {
      RefreshBacked(s, a);
    } else {
      forall id | id in s'.db.rows && s'.db.rows[id].route.source == Subscription
        ensures Backed(s'.seen, s'.db.rows[id])
      {
        EvidenceRowStep(s, a, id);
      }
    }
  }

  lemma EvidenceRowStep(s: Sys, a: Action, id: ProxyId)
    requires EvidenceHolds(s) && Enabled(s, a) && !a.Replace?
    requires id in Next(s, a).db.rows && Next(s, a).db.rows[id].route.source == Subscription
    ensures Backed(Next(s, a).seen, Next(s, a).db.rows[id])
  {
    hide Backed, RowAfter, Refused, ManualChange;
    var s' := Next(s, a);
    if a.Deliver? && id == a.who.id && s'.db != s.db {
      RouteKept(s.db.rows[id], a.r, s.now);
      ReportBacked(s.seen, s.db.rows[id], a.r, s.now);
    } else {
      OtherRowEvidence(s, a, id);
      MoreSeen(s.seen, s'.seen, s.db.rows[id]);
      SameColumnsBacked(s'.seen, s.db.rows[id], s'.db.rows[id]);
    }
  }

  lemma RouteKept(p: Proxy, r: Report, now: int)
    ensures RowAfter(p, r, now).route == p.route && RowAfter(p, r, now).id == p.id
              && RowAfter(p, r, now).userPaused == p.userPaused
  {
  }

  lemma SameColumnsBacked(seen: set<Sighting>, p: Proxy, q: Proxy)
    requires Backed(seen, p) && p.route == q.route && p.evidence == q.evidence
    ensures Backed(seen, q)
  {
  }

  /** Only reports and refreshes touch a subscription row's route and evidence. */
  lemma OtherRowEvidence(s: Sys, a: Action, id: ProxyId)
    requires Enabled(s, a) && !a.Replace? && id in Next(s, a).db.rows
    requires Next(s, a).db.rows[id].route.source == Subscription
    requires !(a.Deliver? && id == a.who.id && Next(s, a).db != s.db)
    ensures id in s.db.rows && s.db.rows[id].route == Next(s, a).db.rows[id].route
    ensures s.db.rows[id].evidence == Next(s, a).db.rows[id].evidence
  {
    hide RowAfter, Refused, Lands;
  }

  /** In every interleaving, what a subscription row says about its exit, its
      latency and its risk was observed on the route the row has now. */
  lemma {:induction false} EvidenceInEveryRun(run: seq<Sys>, actions: seq<Action>, n: nat)
    requires IsRun(run, actions) && n < |run|
    ensures EvidenceHolds(run[n])
  {
    if n > 0 {
      hide EvidenceHolds, Enabled, Next;
      EvidenceInEveryRun(run, actions, n - 1);
      EvidenceStep(run[n - 1], actions[n - 1]);
    }
  }

  // ------------------------------------------------ only checked routes are in service

  lemma ReportChecked(p: Proxy, r: Report, now: int)
    requires Checked(p) && !Refused(r)
    ensures Checked(RowAfter(p, r, now))
  {
    hide EvidenceAfter, RegionAfter;
    if Probed(r) {
      ExitAfter(p.evidence, r, now);
    }
    EvidenceUntouched(p.evidence, r, now);
  }

  lemma EvidenceUntouched(ev: Evidence, r: Report, now: int)
    ensures !Probed(r) ==> EvidenceAfter(ev, r, now) == ev
  {
    hide WithRisk, WithExit, WithLatency;
  }

  lemma RefreshChecked(s: Sys, a: Action)
    requires ServiceHolds(s) && Enabled(s, a) && a.Replace?
    ensures ServiceHolds(Next(s, a))
  {
    hide Checked, Survivor, NewRow, InheritsPause;
    var rows := s.db.rows;
    forall id | id in a.rows ensures Checked(a.rows[id]) {
      if !(id in rows && !Mine(rows[id], a.sub)) {
        var i :| 0 <= i < |a.ids| && a.ids[i] == id;
        if id in rows {
          SurvivorChecked(rows[id], a.es[i], s.db.subs[a.sub]);
        } else {
          NewRowChecked(id, a.es[i], a.sub, InheritsPause(rows, a.sub, a.es[i]));
        }
      }
    }
  }

  lemma SurvivorChecked(was: Proxy, e: Entry, subStatus: string)
    requires Checked(was)
    ensures Checked(Survivor(was, e, subStatus))
  {
  }

  lemma NewRowChecked(id: ProxyId, e: Entry, sub: int, paused: bool)
    ensures Checked(NewRow(id, e, sub, paused))
  {
  }

  lemma ServiceStep(s: Sys, a: Action)
    requires ServiceHolds(s) && Enabled(s, a)
    ensures ServiceHolds(Next(s, a))
  {
    hide RowAfter, Refreshed, Lands, Refused;
    var s' := Next(s, a);
    if a.Replace? {
      RefreshChecked(s, a);
    } else if a.Deliver? {
      if !Refused(a.r) && a.who.id in s.db.rows {
        ReportChecked(s.db.rows[a.who.id], a.r, s.now);
      }
      DeliverRows(s, a);
    } else {
      forall id | id in s'.db.rows ensures Checked(s'.db.rows[id]) {}
    }
  }

  lemma DeliverRows(s: Sys, a: Action)
    requires Enabled(s, a) && a.Deliver?
    ensures forall id | id in Next(s, a).db.rows ::
              id in s.db.rows && (Next(s, a).db.rows[id] == s.db.rows[id]
                || (id == a.who.id && !Refused(a.r) && Next(s, a).db.rows[id] == RowAfter(s.db.rows[id], a.r, s.now)))
  {
    hide RowAfter, Refused, ParentIsActive;
  }

  /** In every run a subscription row in service carries an exit that a probe saw,
      completely, on the row's present route. */
  lemma {:induction false} InServiceInEveryRun(run: seq<Sys>, actions: seq<Action>, n: nat)
    requires IsRun(run, actions) && n < |run|
    ensures ServiceHolds(run[n])
    ensures forall id | id in run[n].db.rows && run[n].db.rows[id].route.source == Subscription
                        && run[n].db.rows[id].status != Disabled :: InService(run[n].seen, run[n].db.rows[id])
  {
    hide EvidenceHolds, Enabled, Next, ServiceHolds, InService;
    EvidenceInEveryRun(run, actions, n);
    if n > 0 {
      InServiceInEveryRun(run, actions, n - 1);
      ServiceStep(run[n - 1], actions[n - 1]);
    }
    InServiceNow(run[n]);
  }

  predicate InService(seen: set<Sighting>, p: Proxy) {
    exists x | x in seen :: x.route == p.route && Trusted(x.o)
      && x.o.exitIP == p.evidence.exitIP && x.o.exitLocation == p.evidence.exitLocation
  }

  lemma InServiceNow(s: Sys)
    requires EvidenceHolds(s) && ServiceHolds(s)
    ensures forall id | id in s.db.rows && s.db.rows[id].route.source == Subscription
              && s.db.rows[id].status != Disabled ::
              InService(s.seen, s.db.rows[id])
  {
    hide LatencyBacked, RiskBacked;
  }

  // ------------------------------------------------ paused subscriptions

  lemma PauseReport(s: Sys, a: Action)
    requires PauseHolds(s) && Enabled(s, a) && a.Deliver?
    ensures PauseHolds(Next(s, a))
  {
    hide EvidenceAfter, RegionAfter;
  }

  lemma PauseRefresh(s: Sys, a: Action)
    requires PauseHolds(s) && Enabled(s, a) && a.Replace?
    ensures PauseHolds(Next(s, a))
  {
    hide Survivor, NewRow, InheritsPause;
    var rows := s.db.rows;
    forall id | id in a.rows && a.rows[id].route.source == Subscription && a.rows[id].route.subscriptionId in s.db.subs
                && s.db.subs[a.rows[id].route.subscriptionId] == "paused" ensures a.rows[id].status == Disabled
    {
      if !(id in rows && !Mine(rows[id], a.sub)) {
        var i :| 0 <= i < |a.ids| && a.ids[i] == id;
        if id in rows {
          SurvivorPaused(rows[id], a.es[i], s.db.subs[a.sub]);
        } else {
          NewRowDisabled(id, a.es[i], a.sub, InheritsPause(rows, a.sub, a.es[i]));
        }
      }
    }
  }

  lemma SurvivorPaused(was: Proxy, e: Entry, subStatus: string)
    ensures Survivor(was, e, subStatus).status == Disabled || subStatus == "active"
    ensures Survivor(was, e, subStatus).route.subscriptionId == was.route.subscriptionId
  {
  }

  lemma NewRowDisabled(id: ProxyId, e: Entry, sub: int, paused: bool)
    ensures NewRow(id, e, sub, paused).status == Disabled
  {
  }

  lemma PauseOther(s: Sys, a: Action)
    requires PauseHolds(s) && Enabled(s, a) && !a.Deliver? && !a.Replace?
    ensures PauseHolds(Next(s, a))
  {
  }

  /** In every run no row of a paused subscription is in service. */
  lemma {:induction false} PausedInEveryRun(run: seq<Sys>, actions: seq<Action>, n: nat)
    requires IsRun(run, actions) && n < |run|
    ensures PauseHolds(run[n])
  {
    if n > 0 {
      hide PauseHolds, Enabled, Next, EvidenceHolds, RowsHold, ServiceHolds;
      PausedInEveryRun(run, actions, n - 1);
      var s, a := run[n - 1], actions[n - 1];
      if a.Deliver? { PauseReport(s, a); } else if a.Replace? { PauseRefresh(s, a); } else { PauseOther(s, a); }
    }
  }
}
