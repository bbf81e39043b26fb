/** The failure threshold over runs: a usable row outlives every failure below
    the threshold, the one that reaches it disables the row, and anything that
    works starts the count afresh. */
module HealthFailures {
  import opened Wrappers
  import opened Storage
  import opened Health
  import opened HealthRuns

  /** A failed forward or probe, with this threshold, is written to row `id`. */
  predicate FailureLands(s: Sys, a: Action, id: ProxyId, threshold: int) {
    && a.Deliver? && a.who.id == id && (a.r.ForwardFailure? || a.r.ProbeFailure?) && a.r.threshold == threshold
    && threshold > 0 && Lands(s.db, a.who, a.r)
  }

  /** A forward that worked or a probe result is written to row `id`. */
  predicate SuccessLands(s: Sys, a: Action, id: ProxyId) {
    a.Deliver? && a.who.id == id && (a.r.ForwardSuccess? || a.r.ApplyProbe?) && Lands(s.db, a.who, a.r)
  }

  /** The step does not write to row `id`. */
  predicate Spares(s: Sys, s': Sys, id: ProxyId) {
    id in s.db.rows && id in s'.db.rows && s'.db.rows[id] == s.db.rows[id]
  }

  /** Only such failures reach row `id` between the two states. */
  predicate OnlyFailures(run: seq<Sys>, actions: seq<Action>, id: ProxyId, threshold: int, i: nat, j: nat)
    requires i <= j < |run| == |actions| + 1
  {
    forall k | i <= k < j :: FailureLands(run[k], actions[k], id, threshold) || Spares(run[k], run[k + 1], id)
  }

  function Failures(run: seq<Sys>, actions: seq<Action>, id: ProxyId, threshold: int, i: nat, j: nat): nat
    requires i <= j < |run| == |actions| + 1
    decreases j
  {
    if i == j then 0
    else Failures(run, actions, id, threshold, i, j - 1)
         + (if FailureLands(run[j - 1], actions[j - 1], id, threshold) then 1 else 0)
  }

  lemma FailureStep(s: Sys, a: Action, id: ProxyId, threshold: int)
    requires Enabled(s, a) && FailureLands(s, a, id, threshold)
    ensures id in s.db.rows && id in Next(s, a).db.rows
    ensures OneMoreFailure(s.db.rows[id], Next(s, a).db.rows[id], threshold, s.now)
  {
    hide EvidenceAfter, RegionAfter, ParentIsActive;
  }

  lemma SuccessStep(s: Sys, a: Action, id: ProxyId)
    requires Enabled(s, a) && SuccessLands(s, a, id)
    ensures id in s.db.rows && id in Next(s, a).db.rows && Next(s, a).db.rows[id].failCount == 0
    ensures Next(s, a).db.rows[id].status == s.db.rows[id].status
    ensures Next(s, a).db.rows[id].disabledAt == s.db.rows[id].disabledAt
  {
    hide EvidenceAfter, RegionAfter, ParentIsActive;
  }

  /** What `n` failures do to a usable row. */
  predicate AfterFailures(was: Proxy, row: Proxy, threshold: int, n: nat) {
    && row.failCount == was.failCount + n
    && (n == 0 || was.failCount + n < threshold ==> row.status == was.status && row.disabledAt == was.disabledAt)
    && (n > 0 && was.failCount + n >= threshold ==> row.status == Disabled && row.disabledAt.Some?)
  }

  lemma OneMore(was: Proxy, row: Proxy, row': Proxy, threshold: int, n: nat, now: int)
    requires AfterFailures(was, row, threshold, n) && OneMoreFailure(row, row', threshold, now)
    ensures AfterFailures(was, row', threshold, n + 1)
  {
  }

  /** In every run: through its failures below the threshold a row keeps its
      status and clock, and the failure that reaches the threshold disables it. */
  lemma {:induction false} FailuresInEveryRun(run: seq<Sys>, actions: seq<Action>, id: ProxyId, threshold: int,
                                              i: nat, j: nat)
    requires IsRun(run, actions) && |run| == |actions| + 1 && i <= j < |run| && id in run[i].db.rows
    requires OnlyFailures(run, actions, id, threshold, i, j)
    ensures id in run[j].db.rows
    ensures AfterFailures(run[i].db.rows[id], run[j].db.rows[id], threshold,
              Failures(run, actions, id, threshold, i, j))
    decreases j
  {
    if i < j {
      hide Enabled, Next, FailureLands, AfterFailures, OneMoreFailure, EvidenceHolds, RowsHold, ServiceHolds;
      FailuresInEveryRun(run, actions, id, threshold, i, j - 1);
      var k, n := j - 1, Failures(run, actions, id, threshold, i, j - 1);
      if FailureLands(run[k], actions[k], id, threshold) {
        FailureStep(run[k], actions[k], id, threshold);
        OneMore(run[i].db.rows[id], run[k].db.rows[id], run[j].db.rows[id], threshold, n, run[k].now);
      } else {
        assert Spares(run[k], run[k + 1], id);
      }
    }
  }

  /** After a success the row has the whole threshold ahead of it again. */
  lemma SuccessRestartsInEveryRun(run: seq<Sys>, actions: seq<Action>, id: ProxyId, threshold: int, i: nat, j: nat)
    requires IsRun(run, actions) && |run| == |actions| + 1 && i < j < |run| && threshold > 0
    requires SuccessLands(run[i], actions[i], id) && OnlyFailures(run, actions, id, threshold, i + 1, j)
    ensures id in run[i].db.rows && id in run[j].db.rows
    ensures var n := Failures(run, actions, id, threshold, i + 1, j);
            if n < threshold then run[j].db.rows[id].status == run[i].db.rows[id].status
            else run[j].db.rows[id].status == Disabled
  {
    hide Enabled, Next, FailureLands, SuccessLands, EvidenceHolds, RowsHold, ServiceHolds;
    SuccessStep(run[i], actions[i], id);
    FailuresInEveryRun(run, actions, id, threshold, i + 1, j);
  }
}
