/** `custom/manager.go`: normalizing a refreshed batch of subscription nodes and
    replacing the subscription's rows in one transaction. */
module Refresh {
  import opened Wrappers
  import opened Text
  import opened Storage

  datatype Entry = Entry(addr: string, proto: string, dual: bool, username: string, password: string, nodeKey: string)

  // ------------------------------------------------ normalization

  predicate SameSlot(a: Entry, b: Entry) {
    a.addr == b.addr || (a.nodeKey != "" && a.nodeKey == b.nodeKey)
  }

  /** Some kept entry has the address or the node key of `e`. */
  predicate Taken(kept: seq<Entry>, e: Entry) {
    exists i | 0 <= i < |kept| :: SameSlot(kept[i], e)
  }

  /** First come, first served. */
  function Kept(entries: seq<Entry>): seq<Entry> {
    if entries == [] then []
    else
      var k := |entries| - 1;
      var kept := Kept(entries[..k]);
      if Taken(kept, entries[k]) then kept else kept + [entries[k]]
  }

  /** Addresses are distinct and so are node keys, where present. */
  predicate Normalized(es: seq<Entry>) {
    forall i, j | 0 <= i < j < |es| :: !SameSlot(es[i], es[j])
  }

  /** `normalizeSubscriptionProxyEntries`. */
  method NormalizeEntries(entries: seq<Entry>) returns (normalized: seq<Entry>)
    ensures normalized == Kept(entries)
  {
    normalized := [];
    var byNodeKey: map<string, nat> := map[];
    var byAddress: map<string, nat> := map[];
    for n := 0 to |entries|
      invariant normalized == Kept(entries[..n])
      invariant forall k | k in byNodeKey ::
                  k != "" && byNodeKey[k] < |normalized| && normalized[byNodeKey[k]].nodeKey == k
      invariant forall a | a in byAddress :: byAddress[a] < |normalized| && normalized[byAddress[a]].addr == a
      invariant forall i | 0 <= i < |normalized| ::
                  normalized[i].addr in byAddress && (normalized[i].nodeKey != "" ==>
                      normalized[i].nodeKey in byNodeKey)
    {
      var entry := entries[n];
      assert entries[..n + 1][..n] == entries[..n];
      if entry.nodeKey != "" && entry.nodeKey in byNodeKey {
        assert SameSlot(normalized[byNodeKey[entry.nodeKey]], entry);
        continue;
      }
      if entry.addr in byAddress {
        assert SameSlot(normalized[byAddress[entry.addr]], entry);
        continue;
      }
      assert !Taken(normalized, entry);
      byAddress := byAddress[entry.addr := |normalized|];
      if entry.nodeKey != "" {
        byNodeKey := byNodeKey[entry.nodeKey := |normalized|];
      }
      normalized := normalized + [entry];
    }
    assert entries[..|entries|] == entries;
  }

  lemma KeepOne(kept: seq<Entry>, e: Entry)
    requires Normalized(kept) && !Taken(kept, e)
    ensures Normalized(kept + [e]) && Taken(kept + [e], e)
  {
    assert (kept + [e])[|kept|] == e;
    assert forall i | 0 <= i < |kept| :: !SameSlot(kept[i], e);
  }

  lemma TakenStays(kept: seq<Entry>, e: Entry, x: Entry)
    requires Taken(kept, x)
    ensures Taken(kept + [e], x)
  {
    var i :| 0 <= i < |kept| && SameSlot(kept[i], x);
    assert (kept + [e])[i] == kept[i];
  }

  /** What is kept is distinct and comes from the batch, and every entry of the
      batch is kept or shares a slot with a kept one. */
  lemma {:induction false} KeptNormalized(entries: seq<Entry>)
    ensures Normalized(Kept(entries))
    ensures forall i | 0 <= i < |Kept(entries)| :: Kept(entries)[i] in entries
    ensures forall e | e in entries :: Taken(Kept(entries), e)
  {
    if entries != [] {
      hide Normalized, Taken;
      var k := |entries| - 1;
      var kept := Kept(entries[..k]);
      KeptNormalized(entries[..k]);
      if !Taken(kept, entries[k]) {
        KeepOne(kept, entries[k]);
        forall e | e in entries[..k] ensures Taken(kept + [entries[k]], e) {
          TakenStays(kept, entries[k], e);
        }
      }
      assert entries == entries[..k] + [entries[k]];
    } else {
      assert Kept(entries) == [];
    }
  }

  /** First come, first served: later entries never change what was kept. */
  lemma {:induction false} KeptPrefix(entries: seq<Entry>, more: seq<Entry>)
    ensures Kept(entries) <= Kept(entries + more)
    decreases |more|
  {
    hide Taken;
    if more == [] {
      assert entries + more == entries;
    } else {
      var k := |more| - 1;
      KeptPrefix(entries, more[..k]);
      assert (entries + more)[..|entries + more| - 1] == entries + more[..k];
    }
  }

  // ------------------------------------------------ rows of one subscription

  type Rows = map<ProxyId, Proxy>

  predicate Mine(p: Proxy, sub: int) {
    p.route.source == Subscription && p.route.subscriptionId == sub
  }

  /** The columns of UNIQUE(address, source, subscription_id). */
  predicate SameIdentity(a: Proxy, b: Proxy) {
    a.route.address == b.route.address && a.route.source == b.route.source
    && a.route.subscriptionId == b.route.subscriptionId
  }

  predicate Unique(rows: Rows) {
    && (forall a | a in rows :: rows[a].id == a)
    && (forall a, b | a in rows && b in rows && a != b :: !SameIdentity(rows[a], rows[b]))
  }

  /** Node keys are unique within the subscription, where present. */
  predicate UniqueKeys(rows: Rows, sub: int) {
    forall a, b | a in rows && b in rows && Mine(rows[a], sub) && Mine(rows[b], sub)
                  && rows[a].route.nodeKey != "" && rows[a].route.nodeKey == rows[b].route.nodeKey :: a == b
  }

  /** Row `id` of the subscription carries the entry's stable key. */
  predicate IsOld(rows: Rows, sub: int, id: ProxyId, e: Entry) {
    id in rows && Mine(rows[id], sub) && e.nodeKey != "" && rows[id].route.nodeKey == e.nodeKey
  }

  function RouteOf(e: Entry, sub: int): Route {
    Route(e.addr, e.proto, e.nodeKey, e.username, e.password, Subscription, sub, e.dual)
  }

  /** A surviving row keeps its evidence only if nothing about its route changed. */
  predicate RouteChanged(was: Proxy, e: Entry) {
    was.route.address != e.addr || was.route.protocol != e.proto || was.route.dual != e.dual
    || was.route.username != e.username || was.route.password != e.password
  }

  predicate StaysActive(was: Proxy, e: Entry, subStatus: string) {
    subStatus == "active" && was.status == Active && !was.userPaused && was.failCount == 0
    && was.evidence.checkedAt.Some? && was.evidence.exitIP != "" && was.evidence.exitLocation != ""
    && was.evidence.latency > 0 && !RouteChanged(was, e)
  }

  function TmpAddr(id: ProxyId): string {
    "rebind-" + Decimal(id) + ".invalid:0"
  }

  /** A surviving row with the columns the first UPDATE writes, at `addr`. */
  function Rewritten(was: Proxy, e: Entry, subStatus: string, addr: string): Proxy {
    var route := Route(addr, e.proto, e.nodeKey, e.username, e.password, was.route.source, was.route.subscriptionId,
        e.dual);
    var status := if StaysActive(was, e, subStatus) then Active else Disabled;
    if RouteChanged(was, e) then
      was.(route := route, status := status, failCount := 0, lastCheck := None, disabledAt := None,
           evidence := NO_EVIDENCE, region := if was.regionManual then was.region else "")
    else was.(route := route, status := status)
  }

  function Survivor(was: Proxy, e: Entry, subStatus: string): Proxy {
    Rewritten(was, e, subStatus, e.addr)
  }

  function NewRow(id: ProxyId, e: Entry, sub: int, paused: bool): Proxy {
    Proxy(id, RouteOf(e, sub), NO_EVIDENCE, "", false, Disabled, paused, 0, 0, 0, None, None, None)
  }

  /** A new row without a stable key inherits the pause flag of its address. */
  predicate PausedByAddress(rows: Rows, sub: int, addr: string) {
    exists id | id in rows :: Mine(rows[id], sub) && rows[id].userPaused && rows[id].route.address == addr
  }

  function InheritsPause(rows: Rows, sub: int, e: Entry): bool {
    e.nodeKey == "" && PausedByAddress(rows, sub, e.addr)
  }

  /** No temporary address gets in the way: neither of a row still at its old
      address when it is taken, nor of an entry's address while another row
      still waits at it. */
  predicate TmpClear(rows: Rows, sub: int, es: seq<Entry>) {
    forall i, j, a, b | 0 <= i < j < |es| && a in rows && b in rows && IsOld(rows, sub, a, es[i])
        && IsOld(rows, sub, b, es[j]) ::
      TmpAddr(a) != rows[b].route.address && es[i].addr != TmpAddr(b)
  }

  /** What a committed refresh leaves: one row per entry and no other in the
      subscription; rows with a known key survive under their id; everything
      outside the subscription is as it was. */
  predicate Refreshed(before: Rows, rows: Rows, sub: int, subStatus: string, es: seq<Entry>, ids: seq<ProxyId>,
                      nextId: ProxyId) {
    && |ids| == |es|
    && (forall i, j | 0 <= i < j < |ids| :: ids[i] != ids[j])
    && (forall i | 0 <= i < |ids| ::
          ids[i] in rows &&
          if ids[i] in before then IsOld(before, sub, ids[i], es[i])
              && rows[ids[i]] == Survivor(before[ids[i]], es[i], subStatus)
          else ids[i] >= nextId && (forall a | a in before :: !IsOld(before, sub, a, es[i]))
               && rows[ids[i]] == NewRow(ids[i], es[i], sub, InheritsPause(before, sub, es[i])))
    && (forall id | id in rows :: if id in before && !Mine(before[id], sub) then rows[id] == before[id] else id in ids)
    && (forall id | id in before && !Mine(before[id], sub) :: id in rows)
  }

  /** A row that is in service and proven: active, not paused, without failures
      and with a complete exit and a latency on record. */
  predicate Proven(p: Proxy) {
    && p.status == Active && !p.userPaused && p.failCount == 0
    && p.evidence.checkedAt.Some? && p.evidence.exitIP != "" && p.evidence.exitLocation != "" && p.evidence.latency > 0
  }

  /** Every row whose key is in the batch keeps its id, pause flag and use counts,
      whatever address its entry now has, and takes the entry's route.  It stays
      in service exactly if the subscription is active, the row was proven and
      its route did not change; with a new route everything observed is
      forgotten, with the same one nothing is. */
  lemma SurvivorsKeepIdentity(before: Rows, rows: Rows, sub: int, subStatus: string, es: seq<Entry>,
                              ids: seq<ProxyId>, nextId: ProxyId, id: ProxyId, i: nat)
    requires UniqueKeys(before, sub) && Refreshed(before, rows, sub, subStatus, es, ids, nextId)
    requires i < |es| && IsOld(before, sub, id, es[i])
    ensures id in rows && ids[i] == id
    ensures rows[id].userPaused == before[id].userPaused && rows[id].route == RouteOf(es[i], sub)
    ensures rows[id].useCount == before[id].useCount && rows[id].successCount == before[id].successCount
    ensures var same := before[id].route == RouteOf(es[i], sub);
            && (rows[id].status == Active <==> subStatus == "active" && Proven(before[id]) && same)
            && (rows[id].status != Active ==> rows[id].status == Disabled)
            && rows[id].evidence == (if same then before[id].evidence else NO_EVIDENCE)
            && rows[id].failCount == (if same then before[id].failCount else 0)
            && rows[id].disabledAt == (if same then before[id].disabledAt else None)
            && rows[id].lastCheck == (if same then before[id].lastCheck else None)
            && rows[id].region == (if same || before[id].regionManual then before[id].region else "")
  {
    hide InheritsPause;
    assert ids[i] in before;
    assert IsOld(before, sub, ids[i], es[i]);
  }

  /** Exactly the proven rows whose route did not change stay in service. */
  predicate ServiceKept(before: Rows, rows: Rows, sub: int, subStatus: string, es: seq<Entry>) {
    forall id, i | id in before && 0 <= i < |es| && IsOld(before, sub, id, es[i]) ::
      id in rows &&
      (rows[id].status == Active <==>
         subStatus == "active" && Proven(before[id]) && before[id].route == RouteOf(es[i], sub))
  }

  /** Every entry, known or new, ends as a row with its route; its pause flag is
      that of the old row with its key, or, without a key, with its address. */
  lemma EntriesBecomeRows(before: Rows, rows: Rows, sub: int, subStatus: string, es: seq<Entry>,
                          ids: seq<ProxyId>, nextId: ProxyId, i: nat)
    requires UniqueKeys(before, sub) && Refreshed(before, rows, sub, subStatus, es, ids, nextId) && i < |es|
    ensures ids[i] in rows && rows[ids[i]].route == RouteOf(es[i], sub)
    ensures rows[ids[i]].userPaused <==>
            exists id | id in before :: Mine(before[id], sub) && before[id].userPaused
              && (if es[i].nodeKey != "" then before[id].route.nodeKey == es[i].nodeKey
                  else before[id].route.address == es[i].addr)
    ensures ids[i] !in before ==>
              rows[ids[i]].status == Disabled && rows[ids[i]].evidence == NO_EVIDENCE && rows[ids[i]].disabledAt == None
  {
    hide StaysActive, RouteChanged;
    var id := ids[i];
    if id in before {
      assert IsOld(before, sub, id, es[i]);
      if before[id].userPaused {
        assert Mine(before[id], sub) && before[id].route.nodeKey == es[i].nodeKey;
      }
    }
  }

  // ------------------------------------------------ addresses the parsers let through

  /** `net.JoinHostPort`; an IPv6 host comes with its brackets. */
  function JoinHostPort(host: string, port: nat): string {
    host + ":" + Digits(port)
  }

  /** What the parsers and the port allocator produce: `validatePort` refuses
      ports below 1, and allocated ports lie above a shard's base. */
  ghost predicate Dialable(addr: string) {
    exists host: string, port: nat :: port >= 1 && addr == JoinHostPort(host, port)
  }

  predicate PortZero(addr: string) {
    |addr| >= 2 && addr[|addr| - 2] == ':' && addr[|addr| - 1] == '0'
  }

  lemma JoinedHasPort(host: string, port: nat)
    requires port >= 1
    ensures !PortZero(JoinHostPort(host, port))
  {
    var d := Digits(port);
    DigitsShape(port);
    var addr := JoinHostPort(host, port);
    assert addr[|addr| - 1] == d[|d| - 1];
    if |d| >= 2 {
      assert addr[|addr| - 2] == d[|d| - 2];
    } else {
      assert d == [Digit(port)];
    }
  }

  /** A temporary address has port 0, so it never meets one that has not. */
  lemma TmpHasPortZero(id: ProxyId)
    ensures PortZero(TmpAddr(id))
  {
    var s := TmpAddr(id);
    assert s == ("rebind-" + Decimal(id)) + ".invalid:0";
    assert s[|s| - 2] == ".invalid:0"[8] && s[|s| - 1] == ".invalid:0"[9];
  }

  ghost predicate DialableRows(rows: Rows, sub: int) {
    forall id | id in rows && Mine(rows[id], sub) :: Dialable(rows[id].route.address)
  }

  ghost predicate DialableEntries(es: seq<Entry>) {
    forall i | 0 <= i < |es| :: Dialable(es[i].addr)
  }

  /** For tables and batches that went through the parsers no temporary address
      is ever in the way. */
  lemma DialableClear(rows: Rows, sub: int, es: seq<Entry>)
    requires DialableRows(rows, sub) && DialableEntries(es)
    ensures TmpClear(rows, sub, es)
  {
    hide TmpAddr, Dialable, PortZero;
    forall i, j, a, b | 0 <= i < j < |es| && a in rows && b in rows && IsOld(rows, sub, a, es[i])
        && IsOld(rows, sub, b, es[j])
      ensures TmpAddr(a) != rows[b].route.address && es[i].addr != TmpAddr(b)
    {
      TmpHasPortZero(a);
      TmpHasPortZero(b);
      DialableHasPort(rows[b].route.address);
      DialableHasPort(es[i].addr);
    }
  }

  lemma DialableHasPort(addr: string)
    requires Dialable(addr)
    ensures !PortZero(addr)
  {
    var host: string, port: nat :| port >= 1 && addr == JoinHostPort(host, port);
    JoinedHasPort(host, port);
  }

  /** Normalizing keeps the batch dialable, and a refresh keeps the table so. */
  lemma KeptDialable(entries: seq<Entry>)
    requires DialableEntries(entries)
    ensures DialableEntries(Kept(entries))
  {
    hide Dialable;
    KeptNormalized(entries);
    forall i | 0 <= i < |Kept(entries)| ensures Dialable(Kept(entries)[i].addr) {
      assert Kept(entries)[i] in entries;
    }
  }

  lemma RefreshedDialable(before: Rows, rows: Rows, sub: int, subStatus: string, es: seq<Entry>, ids: seq<ProxyId>,
                          nextId: ProxyId)
    requires DialableEntries(es) && Refreshed(before, rows, sub, subStatus, es, ids, nextId)
    ensures DialableRows(rows, sub)
  {
    hide Dialable, StaysActive, InheritsPause, RouteChanged;
    forall id | id in rows && Mine(rows[id], sub) ensures Dialable(rows[id].route.address) {
      if !(id in before && !Mine(before[id], sub)) {
        var i :| 0 <= i < |ids| && ids[i] == id;
        assert rows[id].route.address == es[i].addr;
      }
    }
  }

  /** The bare transaction, on tables no parser produces: a later row at the
      temporary address of an earlier one blocks the refresh that keeps both. */
  lemma TmpAddressInTheWay(rows: Rows, sub: int, es: seq<Entry>, a: ProxyId, b: ProxyId, i: nat, j: nat)
    requires i < j < |es| && IsOld(rows, sub, a, es[i]) && IsOld(rows, sub, b, es[j])
    requires rows[b].route.address == TmpAddr(a)
    ensures !TmpClear(rows, sub, es)
  {
    hide TmpAddr;
    assert a in rows && b in rows;
  }
}
