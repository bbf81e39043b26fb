/** The `proxies` and `subscriptions` tables of `storage/` as values. */
module Storage {
  import opened Text
  import opened Wrappers

  datatype Status = Active | Degraded | Disabled

  datatype Source = Manual | Subscription

  /** The columns that say which upstream a row dials, and how. */
  datatype Route = Route(
    address: string, protocol: string, nodeKey: string, username: string, password: string,
    source: Source, subscriptionId: int, dual: bool)

  /** The columns a probe fills in.  `checkedAt` is `exit_checked_at`; `ai` maps
      a service to its reachability, with no entry where nothing is known. */
  datatype Evidence = Evidence(
    exitIP: string, exitLocation: string, checkedAt: Option<int>, latency: int, grade: string,
    abuse: real, flags: string, flagsSeen: bool, cfBlocked: int, ai: map<string, int>)

  const NO_EVIDENCE := Evidence("", "", None, 0, "C", -1.0, "", false, -1, map[])

  datatype Proxy = Proxy(
    id: ProxyId, route: Route, evidence: Evidence, region: string, regionManual: bool,
    status: Status, userPaused: bool, useCount: int, successCount: int, failCount: int,
    lastUsed: Option<int>, lastCheck: Option<int>, disabledAt: Option<int>)

  /** Rows by primary key, and the status text of every subscription. */
  datatype Db = Db(rows: map<ProxyId, Proxy>, subs: map<int, string>) {
    predicate Valid() {
      forall id | id in rows :: rows[id].id == id
    }
  }

  // ------------------------------------------------ selection predicates

  /** `proxyAvailable`. */
  predicate Available(p: Proxy) {
    !p.userPaused && (p.status == Active || p.status == Degraded) && p.failCount < 3
  }

  /** `regionMismatch`, which takes the requested text as given. */
  predicate RegionMismatch(nodeRegion: string, requested: string) {
    requested != "" && NormalizeRegion(nodeRegion) != NormalizeRegion(requested)
  }

  /** `proxyMatchesUnlock`: every token must be known and satisfied. */
  predicate MatchesUnlock(p: Proxy, unlock: seq<string>) {
    forall i | 0 <= i < |unlock| :: Unlocks(p, unlock[i])
  }

  predicate Unlocks(p: Proxy, token: string) {
    if token == "cf" then p.evidence.cfBlocked == 0
    else (token == "openai" || token == "claude" || token == "grok" || token == "gemini")
         && token in p.evidence.ai && p.evidence.ai[token] == 0
  }

  /** The parent subscription exists and is paused. */
  predicate PausedParent(db: Db, p: Proxy) {
    p.route.source == Subscription && p.route.subscriptionId > 0
    && p.route.subscriptionId in db.subs && db.subs[p.route.subscriptionId] == "paused"
  }

  /** `selectableSubscriptionScopeSQL`. */
  predicate SelectableScope(db: Db, p: Proxy) {
    p.route.source != Subscription
    || (p.route.subscriptionId in db.subs && db.subs[p.route.subscriptionId] != "paused")
  }

  /** The rows `GetByRegion` selects. */
  predicate InRegion(db: Db, region: string, excludes: seq<ProxyId>, p: Proxy) {
    && p.id in db.rows && db.rows[p.id] == p
    && Available(p) && SelectableScope(db, p)
    && (NormalizeRegion(region) != "" ==> p.region == NormalizeRegion(region))
    && p.id !in excludes
  }

  /** `list` holds exactly the selected rows, each once; the order is the query's. */
  predicate ListsRegion(list: seq<Proxy>, db: Db, region: string, excludes: seq<ProxyId>) {
    && (forall i | 0 <= i < |list| :: InRegion(db, region, excludes, list[i]))
    && (forall i, j | 0 <= i < j < |list| :: list[i].id != list[j].id)
    && (forall id | id in db.rows && InRegion(db, region, excludes, db.rows[id]) :: db.rows[id] in list)
  }

  /** `GetProxyByAddress` and `GetProxyByNodeKey` succeed on a single match only. */
  function Matching(db: Db, node: string): set<ProxyId> {
    if "key-" <= node then
      var key := TrimSpace(node[4..]);
      set id | id in db.rows && key != "" && db.rows[id].route.nodeKey == key
    else set id | id in db.rows && db.rows[id].route.address == node
  }

  /** A pinned row: the only one that matches. */
  predicate IsPinned(db: Db, node: string, p: Proxy) {
    p.id in db.rows && db.rows[p.id] == p && Matching(db, node) == {p.id}
  }

  datatype ParentReading = ParentActive | ParentPaused | ParentMissing

  /** `IsSubscriptionPaused` for a positive id. */
  function ReadParent(db: Db, subscriptionId: int): ParentReading {
    if subscriptionId !in db.subs then ParentMissing
    else if db.subs[subscriptionId] == "paused" then ParentPaused
    else ParentActive
  }
}
