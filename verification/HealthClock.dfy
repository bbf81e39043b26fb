/** The disabled clock and the way back: failure counts, `disabled_at` and
    recovery over every run of the row writers. */
module HealthClock {
  import opened Wrappers
  import opened Storage
  import opened Health
  import opened Refresh
  import opened HealthRuns

  /** The report recovers row `id`: same route, system-disabled, not paused by
      the user, active parent, and an exit a probe saw on this route. */
  predicate Recovers(s: Sys, a: Action, id: ProxyId) {
    && a.Deliver? && a.r.Recover? && a.who.id == id && Lands(s.db, a.who, a.r)
    && Trusted(a.r.o) && Sighting(s.db.rows[id].route, a.r.o) in s.seen
  }

  /** The steps that may stop a running clock. */
  predicate StopsClock(s: Sys, a: Action, id: ProxyId)
    requires Enabled(s, a)
  {
    || Recovers(s, a, id)
    || (a.Deliver? && a.r.PolicyDisable? && a.who.id == id && Lands(s.db, a.who, a.r))
    || ((a.Replace? || a.WriteManual?) && id in s.db.rows && id in Next(s, a).db.rows
        && Next(s, a).db.rows[id].route != s.db.rows[id].route)
  }

  /** What one step may do to a row that stays. */
  predicate RowMoves(s: Sys, a: Action, id: ProxyId)
    requires Enabled(s, a) && id in s.db.rows && id in Next(s, a).db.rows
  {
    var was, row := s.db.rows[id], Next(s, a).db.rows[id];
    && (Sound(was) ==> Sound(row))
    && (row.disabledAt == was.disabledAt
        || (was.disabledAt == None && row.disabledAt == Some(s.now) && row.status == Disabled)
        || (row.disabledAt == None && StopsClock(s, a, id)))
    && (was.status == Disabled && row.status != Disabled ==>
        Recovers(s, a, id) && row.status == Active && row.disabledAt == None)
    && (row.userPaused == was.userPaused || a == PauseRow(id) || a == UnpauseRow(id))
  }

  lemma ReportMoves(s: Sys, a: Action, id: ProxyId)
    requires Enabled(s, a) && a.Deliver? && id in s.db.rows
    ensures RowMoves(s, a, id)
  {
    hide ParentIsActive, WithExit, WithRisk, WithLatency, RegionAfter;
    if a.who.id == id && !Refused(a.r) && Lands(s.db, a.who, a.r) {
      assert Next(s, a).db.rows[id] == RowAfter(s.db.rows[id], a.r, s.now);
    }
  }

  lemma SurvivorMoves(was: Proxy, e: Entry, subStatus: string)
    requires was.route.nodeKey == e.nodeKey
    ensures var row := Survivor(was, e, subStatus);
            && (Sound(was) ==> Sound(row)) && row.userPaused == was.userPaused && row.id == was.id
            && (row.disabledAt == was.disabledAt || (row.disabledAt == None && row.route != was.route))
            && (row.status != Disabled ==> was.status != Disabled)
  {
  }

  lemma RefreshMoves(s: Sys, a: Action, id: ProxyId)
    requires Enabled(s, a) && a.Replace? && id in s.db.rows && id in a.rows
    ensures RowMoves(s, a, id)
  {
    hide Survivor, NewRow, InheritsPause, Sound;
    if Mine(s.db.rows[id], a.sub) {
      var i :| 0 <= i < |a.ids| && a.ids[i] == id;
      SurvivorMoves(s.db.rows[id], a.es[i], s.db.subs[a.sub]);
    }
  }

  lemma EditMoves(s: Sys, a: Action, id: ProxyId)
    requires Enabled(s, a) && !a.Replace? && !a.Deliver? && id in s.db.rows && id in Next(s, a).db.rows
    ensures RowMoves(s, a, id)
  {
  }

  lemma EveryMove(s: Sys, a: Action, id: ProxyId)
    requires Enabled(s, a) && id in s.db.rows && id in Next(s, a).db.rows
    ensures RowMoves(s, a, id)
  {
    hide RowMoves, Enabled, Next;
    if a.Deliver? {
      ReportMoves(s, a, id);
    } else if a.Replace? {
      RefreshMovesStep(s, a, id);
    } else {
      EditMoves(s, a, id);
    }
  }

  lemma RefreshMovesStep(s: Sys, a: Action, id: ProxyId)
    requires Enabled(s, a) && a.Replace? && id in s.db.rows && id in Next(s, a).db.rows
    ensures RowMoves(s, a, id)
  {
    hide RowMoves;
    RefreshMoves(s, a, id);
  }

  /** A row that appears is new: its id was never used and it starts disabled
      with no clock. */
  lemma Arrivals(s: Sys, a: Action, id: ProxyId)
    requires Enabled(s, a) && RowsHold(s) && id !in s.db.rows && id in Next(s, a).db.rows
    ensures var row := Next(s, a).db.rows[id];
            id >= s.nextId && row.id == id && row.status == Disabled && row.disabledAt == None && Sound(row)
  {
    hide RowAfter, InheritsPause;
    if a.Replace? {
      var i :| 0 <= i < |a.ids| && a.ids[i] == id;
    }
  }

  lemma IdsKept(s: Sys, a: Action)
    requires Enabled(s, a) && RowsHold(s)
    ensures Next(s, a).nextId >= s.nextId
    ensures forall id | id in Next(s, a).db.rows :: id < Next(s, a).nextId && Next(s, a).db.rows[id].id == id
  {
    hide RowAfter, Sound, Refused;
    if a.Deliver? && a.who.id in s.db.rows {
      RouteKept(s.db.rows[a.who.id], a.r, s.now);
    }
    if a.Replace? {
      forall id | id in a.rows ensures a.rows[id].id == id {
        RefreshIds(s, a, id);
      }
    }
  }

  lemma RefreshIds(s: Sys, a: Action, id: ProxyId)
    requires Enabled(s, a) && RowsHold(s) && a.Replace? && id in a.rows
    ensures a.rows[id].id == id
  {
    hide InheritsPause, StaysActive, RouteChanged, Sound;
    if !(id in s.db.rows && !Mine(s.db.rows[id], a.sub)) {
      var i :| 0 <= i < |a.ids| && a.ids[i] == id;
    }
  }

  lemma RowsStep(s: Sys, a: Action)
    requires Enabled(s, a) && RowsHold(s)
    ensures RowsHold(Next(s, a)) && Next(s, a).nextId >= s.nextId
  {
    hide Enabled, Next, Sound;
    IdsKept(s, a);
    forall id | id in Next(s, a).db.rows ensures Sound(Next(s, a).db.rows[id]) {
      if id in s.db.rows {
        EveryMove(s, a, id);
      } else {
        Arrivals(s, a, id);
      }
    }
  }

  /** In every run a usable row has fewer than three failures and a row whose
      clock runs is disabled. */
  lemma {:induction false} SoundInEveryRun(run: seq<Sys>, actions: seq<Action>, n: nat)
    requires IsRun(run, actions) && n < |run|
    ensures RowsHold(run[n])
  {
    if n > 0 {
      hide RowsHold, Enabled, Next;
      SoundInEveryRun(run, actions, n - 1);
      RowsStep(run[n - 1], actions[n - 1]);
    }
  }

  /** Ids are never given out twice, so a row seen at two moments was there in
      between. */
  lemma {:induction false} StaysBetween(run: seq<Sys>, actions: seq<Action>, i: nat, j: nat, id: ProxyId)
    requires IsRun(run, actions) && i <= j < |run| && id in run[i].db.rows
    ensures run[i].nextId <= run[j].nextId && id < run[j].nextId
    ensures id in run[j].db.rows ==> forall k | i <= k <= j :: id in run[k].db.rows
  {
    hide Enabled, Next, EvidenceHolds, Sound;
    SoundInEveryRun(run, actions, i);
    if i < j {
      StaysBetween(run, actions, i, j - 1, id);
      SoundInEveryRun(run, actions, j - 1);
      RowsStep(run[j - 1], actions[j - 1]);
      if id in run[j].db.rows && id !in run[j - 1].db.rows {
        Arrivals(run[j - 1], actions[j - 1], id);
      }
    }
  }

  /** The disabled clock is never moved: once running it shows the same time
      until a recovery, a policy disable or a change of route stops it. */
  lemma {:induction false} ClockInEveryRun(run: seq<Sys>, actions: seq<Action>, i: nat, j: nat, id: ProxyId)
    requires IsRun(run, actions) && i <= j < |run| && id in run[i].db.rows && id in run[j].db.rows
    requires run[i].db.rows[id].disabledAt.Some?
    requires forall k | i <= k < j :: !StopsClock(run[k], actions[k], id)
    ensures run[j].db.rows[id].disabledAt == run[i].db.rows[id].disabledAt
    ensures run[j].db.rows[id].status == Disabled
  {
    hide Enabled, Next, EvidenceHolds, Sound, StopsClock;
    StaysBetween(run, actions, i, j, id);
    if i < j {
      ClockInEveryRun(run, actions, i, j - 1, id);
      EveryMove(run[j - 1], actions[j - 1], id);
    }
    SoundInEveryRun(run, actions, j);
    SoundClock(run[j].db.rows[id]);
  }

  lemma SoundClock(p: Proxy)
    requires Sound(p)
    ensures p.disabledAt.Some? ==> p.status == Disabled
  {
  }

  /** A row that was disabled, or not there yet, is usable later only through a
      recovery in between. */
  lemma {:induction false} RecoveryInEveryRun(run: seq<Sys>, actions: seq<Action>, i: nat, j: nat, id: ProxyId)
    requires IsRun(run, actions) && i <= j < |run|
    requires id in run[i].db.rows ==> run[i].db.rows[id].status == Disabled
    requires id in run[j].db.rows && run[j].db.rows[id].status != Disabled
    ensures exists k | i <= k < j :: Recovers(run[k], actions[k], id)
  {
    hide Enabled, Next, EvidenceHolds, RowsHold, Recovers;
    var last := j - 1;
    SoundInEveryRun(run, actions, last);
    if id in run[last].db.rows && run[last].db.rows[id].status == Disabled {
      EveryMove(run[last], actions[last], id);
    } else {
      if id !in run[last].db.rows {
        Arrivals(run[last], actions[last], id);
      }
      RecoveryInEveryRun(run, actions, i, last, id);
    }
  }
}
