/** `storage/proxy_updates.go` and `storage/subscriptions.go`: the guarded writes
    that move a node through its health states.  Each SQL statement is one
    atomic update of a row picked by its full route identity. */
module Health {
  import opened Wrappers
  import opened Text
  import opened Storage

  /** The route snapshot an asynchronous dial or probe carries back. */
  datatype Identity = Identity(id: ProxyId, route: Route)

  datatype Observation = Observation(
    exitIP: string, exitLocation: string, latency: int, abuse: real,
    flags: string, flagsKnown: bool, cfBlocked: int, ai: map<string, int>)

  /** Both halves of the exit are known. */
  predicate Trusted(o: Observation) {
    o.exitIP != "" && o.exitLocation != ""
  }

  function IdentityOf(p: Proxy): Identity {
    Identity(p.id, p.route)
  }

  // ------------------------------------------------ derived columns

  /** `CalculateQualityGrade`. */
  function Grade(latency: int): string {
    if latency <= 200 then "S" else if latency <= 500 then "A" else if latency <= 1000 then "B"
    else if latency <= 2000 then "C" else "D"
  }

  function FirstField(s: string): string {
    if s == "" || IsSpace(s[0]) then "" else [s[0]] + FirstField(s[1..])
  }

  /** `regionFromExitLocation`: the leading two-letter country code, if any. */
  function RegionOf(exitLocation: string): string {
    var field := FirstField(TrimLeft(exitLocation));
    if |field| == 2 && IsLetter(field[0]) && IsLetter(field[1]) then ToLower(field) else ""
  }

  lemma FirstWord(word: string, rest: string)
    requires forall i | 0 <= i < |word| :: !IsSpace(word[i])
    requires rest == "" || IsSpace(rest[0])
    ensures FirstField(word + rest) == word
  {
    if word == "" {
      assert word + rest == rest;
    } else {
      assert (word + rest)[1..] == word[1..] + rest;
      FirstWord(word[1..], rest);
    }
  }

  /** A location that begins with a country code gives that code in lower case. */
  lemma RegionReads(a: char, b: char, rest: string)
    requires IsLetter(a) && IsLetter(b) && (rest == "" || IsSpace(rest[0]))
    ensures RegionOf([a, b] + rest) == [LowerChar(a), LowerChar(b)]
  {
    FirstWord([a, b], rest);
    assert TrimLeft([a, b] + rest) == [a, b] + rest;
    assert ToLower([a, b]) == [LowerChar(a), LowerChar(b)];
  }

  // ------------------------------------------------ reports

  /** What an asynchronous result asks to write; each kind is one statement. */
  datatype Report =
    | ApplyProbe(o: Observation)
    | ForwardFailure(threshold: int)
    | ForwardSuccess
    | ProbeFailure(o: Observation, threshold: int)
    | Recover(o: Observation)
    | DisabledProbeFailure(o: Observation)
    | PolicyDisable

  predicate Probed(r: Report) {
    r.ApplyProbe? || r.ProbeFailure? || r.Recover? || r.DisabledProbeFailure?
  }

  predicate Forwarded(r: Report) {
    r.ForwardFailure? || r.ForwardSuccess?
  }

  /** The failure that reaches its threshold. */
  predicate Trips(p: Proxy, r: Report) {
    (r.ForwardFailure? || r.ProbeFailure?) && p.failCount + 1 >= r.threshold
  }

  // ------------------------------------------------ the meaning, column by column over all reports

  /** Failures are counted, and forgotten whenever something worked; a recheck of
      a disabled node and a policy decision are neither. */
  function FailCountAfter(p: Proxy, r: Report): int {
    if r.ForwardFailure? || r.ProbeFailure? then p.failCount + 1
    else if r.DisabledProbeFailure? || r.PolicyDisable? then p.failCount
    else 0
  }

  function StatusAfter(p: Proxy, r: Report): Status {
    if Trips(p, r) || r.PolicyDisable? then Disabled else if r.Recover? then Active else p.status
  }

  /** The clock of a system disable starts once and is stopped by recovery and
      by policy. */
  function ClockAfter(p: Proxy, r: Report, now: int): Option<int> {
    if r.Recover? || r.PolicyDisable? then None
    else if p.disabledAt.None? && (Trips(p, r) || r.DisabledProbeFailure?) then Some(now)
    else p.disabledAt
  }

  /** The risk columns: unknown values never overwrite known ones. */
  function WithRisk(ev: Evidence, o: Observation): Evidence {
    ev.(abuse := if o.abuse >= 0.0 then o.abuse else ev.abuse,
        flags := if o.flagsKnown then o.flags else ev.flags,
        flagsSeen := o.flagsKnown || ev.flagsSeen,
        cfBlocked := if o.cfBlocked >= 0 then o.cfBlocked else ev.cfBlocked,
        ai := if o.ai != map[] then o.ai else ev.ai)
  }

  function WithLatency(ev: Evidence, o: Observation): Evidence {
    ev.(latency := o.latency, grade := Grade(o.latency))
  }

  /** A partial exit never replaces a complete one. */
  function WithExit(ev: Evidence, o: Observation, now: int): Evidence {
    if Trusted(o) then ev.(exitIP := o.exitIP, exitLocation := o.exitLocation, checkedAt := Some(now)) else ev
  }

  /** A success always measured a latency; a failure may have. */
  predicate Timed(r: Report)
    requires Probed(r)
  {
    r.ApplyProbe? || r.Recover? || r.o.latency > 0
  }

  function EvidenceAfter(ev: Evidence, r: Report, now: int): Evidence {
    if !Probed(r) then ev
    else WithRisk(WithExit(if Timed(r) then WithLatency(ev, r.o) else ev, r.o, now), r.o)
  }

  /** The exit columns of a probe: all of them or none. */
  lemma ExitAfter(ev: Evidence, r: Report, now: int)
    requires Probed(r)
    ensures var after := EvidenceAfter(ev, r, now);
            (after.exitIP, after.exitLocation, after.checkedAt)
            == if Trusted(r.o) then (r.o.exitIP, r.o.exitLocation, Some(now))
               else (ev.exitIP, ev.exitLocation, ev.checkedAt)
    ensures EvidenceAfter(ev, r, now).latency == if Timed(r) then r.o.latency else ev.latency
  {
    hide Grade;
  }

  /** Known risk values are taken over, unknown ones replace nothing. */
  predicate RiskTaken(was: Evidence, o: Observation, ev: Evidence) {
    && ev.abuse == (if o.abuse >= 0.0 then o.abuse else was.abuse)
    && ev.flags == (if o.flagsKnown then o.flags else was.flags) && (ev.flagsSeen <==> o.flagsKnown || was.flagsSeen)
    && ev.cfBlocked == (if o.cfBlocked >= 0 then o.cfBlocked else was.cfBlocked)
    && ev.ai == (if o.ai != map[] then o.ai else was.ai)
  }

  lemma RiskAfter(ev: Evidence, r: Report, now: int)
    requires Probed(r)
    ensures RiskTaken(ev, r.o, EvidenceAfter(ev, r, now))
  {
    hide Grade;
  }

  function RegionAfter(p: Proxy, r: Report): string {
    if Probed(r) && Trusted(r.o) && !p.regionManual && RegionOf(r.o.exitLocation) != "" then RegionOf(r.o.exitLocation)
    else p.region
  }

  /** Traffic never refreshes what probes know, and probes never move the time
      of last use. */
  function RowAfter(p: Proxy, r: Report, now: int): Proxy {
    p.(useCount := p.useCount + (if Forwarded(r) || r.ProbeFailure? then 1 else 0),
       successCount := p.successCount + (if r.ForwardSuccess? then 1 else 0),
       failCount := FailCountAfter(p, r),
       status := StatusAfter(p, r),
       disabledAt := ClockAfter(p, r, now),
       lastUsed := if Forwarded(r) then Some(now) else p.lastUsed,
       lastCheck := if Probed(r) then Some(now) else p.lastCheck,
       region := RegionAfter(p, r),
       evidence := EvidenceAfter(p.evidence, r, now))
  }

  // ------------------------------------------------ guards

  /** `routeIdentityWhere`. */
  predicate SameRoute(db: Db, who: Identity) {
    who.id in db.rows && db.rows[who.id].route == who.route
  }

  predicate ParentIsActive(db: Db, route: Route) {
    route.source != Subscription || (route.subscriptionId in db.subs && db.subs[route.subscriptionId] == "active")
  }

  /** The call is refused before any statement is issued. */
  predicate Refused(r: Report) {
    ((r.ForwardFailure? || r.ProbeFailure?) && r.threshold <= 0) || (r.Recover? && !Trusted(r.o))
  }

  /** The statement's WHERE clause picks the row. */
  predicate Lands(db: Db, who: Identity, r: Report) {
    && SameRoute(db, who)
    && (Forwarded(r) || ParentIsActive(db, who.route))
    && (r.Recover? || r.DisabledProbeFailure? ==> db.rows[who.id].status == Disabled)
    && (r.Recover? ==> !db.rows[who.id].userPaused)
  }

  function DbAfter(db: Db, who: Identity, r: Report, now: int): Db {
    if Refused(r) || !Lands(db, who, r) then db
    else db.(rows := db.rows[who.id := RowAfter(db.rows[who.id], r, now)])
  }

  datatype Outcome = Written(disabled: bool) | NoRows | BadArgument

  /** The result of a call: an error before the statement, no matching row, or
      whether the row is disabled afterwards. */
  function OutcomeOf(db: Db, who: Identity, r: Report): Outcome {
    if Refused(r) then BadArgument
    else if !Lands(db, who, r) then NoRows
    else Written(StatusAfter(db.rows[who.id], r) == Disabled)
  }

  // ------------------------------------------------ subscriptions

  /** Pausing a subscription disables its rows and starts no clock. */
  function WithSubPaused(rows: map<ProxyId, Proxy>, sub: int): map<ProxyId, Proxy> {
    map id | id in rows ::
      if rows[id].route.source == Subscription && rows[id].route.subscriptionId == sub
      then rows[id].(status := Disabled) else rows[id]
  }

  function Paused(db: Db, sub: int): Db {
    if sub !in db.subs then db else Db(WithSubPaused(db.rows, sub), db.subs[sub := "paused"])
  }

  /** Activating a subscription touches no row. */
  function Toggled(db: Db, sub: int): Db {
    if sub in db.subs && db.subs[sub] != "active" then db.(subs := db.subs[sub := "active"]) else Paused(db, sub)
  }

  // ------------------------------------------------ the table

  /** A counted failure: the row is disabled exactly if it was, or if its failures
      have reached the threshold; below it status and clock stay, at it a clock
      that does not run starts. */
  predicate OneMoreFailure(was: Proxy, row: Proxy, threshold: int, now: int) {
    && row.failCount == was.failCount + 1 && row.useCount == was.useCount + 1
    && (row.status == Disabled <==> was.status == Disabled || was.failCount + 1 >= threshold)
    && (was.failCount + 1 < threshold ==> row.status == was.status && row.disabledAt == was.disabledAt)
    && (was.failCount + 1 >= threshold ==>
          row.disabledAt == if was.disabledAt.Some? then was.disabledAt else Some(now))
  }

  /** The statements as they are written: a WHERE clause, then one expression per
      column of the SET list. */
  class Table {
    var rows: map<ProxyId, Proxy>
    var subs: map<int, string>

    constructor (db: Db)
      ensures Value() == db
    {
      rows, subs := db.rows, db.subs;
    }

    function Value(): Db
      reads this
    {
      Db(rows, subs)
    }

    function Matches(who: Identity): bool
      reads this
    {
      who.id in rows && rows[who.id].route == who.route
    }

    function ParentActive(route: Route): bool
      reads this
    {
      route.source != Subscription
      || (exists sub | sub in subs :: sub == route.subscriptionId && subs[sub] == "active")
    }

    method ApplyProbeObservation(who: Identity, o: Observation, now: int) returns (r: Outcome)
      modifies this`rows
      ensures Value() == DbAfter(old(Value()), who, ApplyProbe(o), now)
      ensures r.Written? <==> SameRoute(old(Value()), who) && ParentIsActive(old(Value()), who.route)
      ensures r.Written? ==>
                rows[who.id].status == old(rows)[who.id].status
                    && rows[who.id].disabledAt == old(rows)[who.id].disabledAt
                && rows[who.id].failCount == 0 && rows[who.id].evidence.latency == o.latency
      ensures r.Written? && Trusted(o) ==>
                rows[who.id].evidence.exitIP == o.exitIP && rows[who.id].evidence.exitLocation == o.exitLocation
                && rows[who.id].evidence.checkedAt == Some(now)
    {
      hide ObservedColumns, EvidenceAfter, RegionOf;
      var trusted, region := o.exitIP != "" && o.exitLocation != "", RegionOf(o.exitLocation);
      if !Matches(who) || !ParentActive(who.route) { return NoRows; }
      var p := rows[who.id];
      ObservedColumnsMean(p.evidence, ApplyProbe(o), now);
      ExitAfter(p.evidence, ApplyProbe(o), now);
      rows := rows[who.id := p.(
        evidence := ObservedColumns(p.evidence, o, trusted, true, now), failCount := 0, lastCheck := Some(now),
        region := if trusted && !p.regionManual && region != "" then region else p.region)];
      return Written(p.status == Disabled);
    }

    method RecordForwardFailure(who: Identity, threshold: int, now: int) returns (r: Outcome)
      modifies this`rows
      ensures Value() == DbAfter(old(Value()), who, ForwardFailure(threshold), now)
      ensures r == OutcomeOf(old(Value()), who, ForwardFailure(threshold))
      ensures r.Written? <==> threshold > 0 && SameRoute(old(Value()), who)
      ensures r.Written? ==>
                OneMoreFailure(old(rows)[who.id], rows[who.id], threshold, now)
                    && (r.disabled <==> rows[who.id].status == Disabled)
      ensures r.Written? ==>
                rows[who.id].evidence == old(rows)[who.id].evidence
                && rows[who.id].lastCheck == old(rows)[who.id].lastCheck
    {
      if threshold <= 0 { return BadArgument; }
      if !Matches(who) { return NoRows; }
      var p := rows[who.id];
      var status := if p.failCount + 1 >= threshold then Disabled else p.status;
      var disabledAt := if p.failCount + 1 >= threshold && p.disabledAt == None then Some(now) else p.disabledAt;
      rows := rows[who.id := p.(useCount := p.useCount + 1, failCount := p.failCount + 1, status := status,
                                lastUsed := Some(now), disabledAt := disabledAt)];
      return Written(status == Disabled);
    }

    method RecordForwardSuccess(who: Identity, now: int) returns (r: Outcome)
      modifies this`rows
      ensures Value() == DbAfter(old(Value()), who, ForwardSuccess, now)
      ensures r.Written? <==> SameRoute(old(Value()), who)
      ensures r.Written? ==>
                rows[who.id].failCount == 0 && rows[who.id].disabledAt == old(rows)[who.id].disabledAt
                && rows[who.id].useCount == old(rows)[who.id].useCount + 1
                && rows[who.id].successCount == old(rows)[who.id].successCount + 1
      ensures r.Written? ==>
                rows[who.id].status == old(rows)[who.id].status && rows[who.id].evidence == old(rows)[who.id].evidence
    {
      if !Matches(who) { return NoRows; }
      var p := rows[who.id];
      rows := rows[who.id := p.(useCount := p.useCount + 1, successCount := p.successCount + 1, failCount := 0,
                                lastUsed := Some(now))];
      return Written(p.status == Disabled);
    }

    method RecordProbeFailure(who: Identity, o: Observation, threshold: int, now: int) returns (r: Outcome)
      modifies this`rows
      ensures Value() == DbAfter(old(Value()), who, ProbeFailure(o, threshold), now)
      ensures r == OutcomeOf(old(Value()), who, ProbeFailure(o, threshold))
      ensures r.Written? <==> threshold > 0 && SameRoute(old(Value()), who) && ParentIsActive(old(Value()), who.route)
      ensures r.Written? ==>
                OneMoreFailure(old(rows)[who.id], rows[who.id], threshold, now)
                    && (r.disabled <==> rows[who.id].status == Disabled)
    {
      hide ObservedColumns, EvidenceAfter, RegionOf;
      if threshold <= 0 { return BadArgument; }
      var trusted, hasLatency := o.exitIP != "" && o.exitLocation != "", o.latency > 0;
      if !Matches(who) || !ParentActive(who.route) { return NoRows; }
      var p := rows[who.id];
      var status := if p.failCount + 1 >= threshold then Disabled else p.status;
      var disabledAt := if p.failCount + 1 >= threshold && p.disabledAt == None then Some(now) else p.disabledAt;
      ObservedColumnsMean(p.evidence, ProbeFailure(o, threshold), now);
      var ev := ObservedColumns(p.evidence, o, trusted, hasLatency, now);
      rows := rows[who.id := p.(useCount := p.useCount + 1, failCount := p.failCount + 1, status := status,
                                lastCheck := Some(now), disabledAt := disabledAt, evidence := ev,
                                region := Relocated(p, o, trusted))];
      return Written(status == Disabled);
    }

    method RecoverProxyFromProbe(who: Identity, o: Observation, now: int) returns (r: Outcome)
      modifies this`rows
      ensures Value() == DbAfter(old(Value()), who, Recover(o), now)
      ensures r.BadArgument? <==> !Trusted(o)
      ensures r.Written? <==>
                Trusted(o) && SameRoute(old(Value()), who) && ParentIsActive(old(Value()), who.route)
                && old(rows)[who.id].status == Disabled && !old(rows)[who.id].userPaused
      ensures r.Written? ==>
                rows[who.id].status == Active && rows[who.id].failCount == 0 && rows[who.id].disabledAt == None
      ensures r.Written? ==> rows[who.id].evidence.exitIP == o.exitIP && rows[who.id].evidence.checkedAt == Some(now)
    {
      hide ObservedColumns, EvidenceAfter, RegionOf;
      if o.exitIP == "" || o.exitLocation == "" { return BadArgument; }
      if !Matches(who) || rows[who.id].status != Disabled || rows[who.id].userPaused || !ParentActive(who.route) {
        return NoRows;
      }
      var p, region := rows[who.id], RegionOf(o.exitLocation);
      ObservedColumnsMean(p.evidence, Recover(o), now);
      ExitAfter(p.evidence, Recover(o), now);
      rows := rows[who.id := p.(
        evidence := ObservedColumns(p.evidence, o, true, true, now), status := Active, failCount := 0,
        lastCheck := Some(now), disabledAt := None,
        region := if !p.regionManual && region != "" then region else p.region)];
      return Written(false);
    }

    method RecordDisabledProbeFailure(who: Identity, o: Observation, now: int) returns (r: Outcome)
      modifies this`rows
      ensures Value() == DbAfter(old(Value()), who, DisabledProbeFailure(o), now)
      ensures r.Written? <==>
                SameRoute(old(Value()), who) && ParentIsActive(old(Value()), who.route)
                && old(rows)[who.id].status == Disabled
      ensures r.Written? ==> rows[who.id].disabledAt.Some? && rows[who.id].failCount == old(rows)[who.id].failCount
      ensures r.Written? && old(rows)[who.id].disabledAt.Some? ==>
                rows[who.id].disabledAt == old(rows)[who.id].disabledAt
    {
      hide ObservedColumns, EvidenceAfter, RegionOf;
      var trusted, hasLatency := o.exitIP != "" && o.exitLocation != "", o.latency > 0;
      if !Matches(who) || rows[who.id].status != Disabled || !ParentActive(who.route) { return NoRows; }
      var p := rows[who.id];
      ObservedColumnsMean(p.evidence, DisabledProbeFailure(o), now);
      var ev := ObservedColumns(p.evidence, o, trusted, hasLatency, now);
      rows := rows[who.id := p.(lastCheck := Some(now), evidence := ev, region := Relocated(p, o, trusted),
                                disabledAt := if p.disabledAt.Some? then p.disabledAt else Some(now))];
      return Written(true);
    }

    method DisableRouteForPolicy(who: Identity, ghost now: int) returns (r: Outcome)
      modifies this`rows
      ensures Value() == DbAfter(old(Value()), who, PolicyDisable, now)
      ensures r.Written? <==> SameRoute(old(Value()), who) && ParentIsActive(old(Value()), who.route)
      ensures r.Written? ==> rows[who.id] == old(rows)[who.id].(status := Disabled, disabledAt := None)
    {
      if !Matches(who) || !ParentActive(who.route) { return NoRows; }
      rows := rows[who.id := rows[who.id].(status := Disabled, disabledAt := None)];
      return Written(true);
    }

    /** `ToggleSubscription`; an unknown id is an error. */
    method ToggleSubscription(sub: int) returns (status: Option<string>)
      modifies this
      ensures Value() == Toggled(old(Value()), sub)
      ensures status.Some? <==> sub in old(subs)
      ensures status.Some? ==> status.value == subs[sub] && (status.value == "active" <==> old(subs)[sub] != "active")
      ensures status == Some("active") ==> rows == old(rows)
      ensures forall id | status == Some("paused") && id in rows && rows[id].route.source == Subscription
                && rows[id].route.subscriptionId == sub ::
                rows[id].status == Disabled && rows[id].disabledAt == old(rows)[id].disabledAt
    {
      if sub !in subs { return None; }
      var next := "paused";
      if subs[sub] != "active" { next := "active"; }
      subs := subs[sub := next];
      if next == "paused" { DisableRowsOf(sub); }
      return Some(next);
    }

    method PauseSubscription(sub: int) returns (ok: bool)
      modifies this
      ensures Value() == Paused(old(Value()), sub) && (ok <==> sub in old(subs))
      ensures forall id | ok && id in rows && rows[id].route.source == Subscription
                && rows[id].route.subscriptionId == sub ::
                rows[id].status == Disabled && rows[id].disabledAt == old(rows)[id].disabledAt
    {
      if sub !in subs { return false; }
      subs := subs[sub := "paused"];
      DisableRowsOf(sub);
      return true;
    }

    /** `UPDATE proxies SET status = 'disabled' WHERE … AND status != 'disabled'`. */
    method DisableRowsOf(sub: int)
      modifies this`rows
      ensures rows == WithSubPaused(old(rows), sub)
    {
      rows := map id | id in rows ::
        if rows[id].route.source == Subscription && rows[id].route.subscriptionId == sub && rows[id].status != Disabled
        then rows[id].(status := Disabled) else rows[id];
    }
  }

  /** The observed columns as the SET lists write them: the exit if it is
      trusted, the latency if one was measured, the risk values that are known. */
  function ObservedColumns(ev: Evidence, o: Observation, trusted: bool, hasLatency: bool, now: int): Evidence {
    Evidence(
      if trusted then o.exitIP else ev.exitIP,
      if trusted then o.exitLocation else ev.exitLocation,
      if trusted then Some(now) else ev.checkedAt,
      if hasLatency then o.latency else ev.latency,
      if hasLatency then Grade(o.latency) else ev.grade,
      if o.abuse >= 0.0 then o.abuse else ev.abuse,
      if o.flagsKnown then o.flags else ev.flags,
      if o.flagsKnown then true else ev.flagsSeen,
      if o.cfBlocked >= 0 then o.cfBlocked else ev.cfBlocked,
      if |o.ai| != 0 then o.ai else ev.ai)
  }

  lemma ObservedColumnsMean(ev: Evidence, r: Report, now: int)
    requires Probed(r)
    ensures ObservedColumns(ev, r.o, Trusted(r.o), Timed(r), now) == EvidenceAfter(ev, r, now)
  {
    hide Grade;
  }

  function Relocated(p: Proxy, o: Observation, trusted: bool): string {
    var region := RegionOf(o.exitLocation);
    if trusted && !p.regionManual && region != "" then region else p.region
  }
}
