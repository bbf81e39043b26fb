/** The refresh transaction of `replaceSubscriptionProxies`: stale rows go,
    surviving rows move to temporary addresses and from there to their final
    ones, new rows are inserted.  A statement that would break
    UNIQUE(address, source, subscription_id) fails and rolls everything back. */
module RefreshTx {
  import opened Wrappers
  import opened Text
  import opened Storage
  import opened Refresh

  /** Another row already has the identity of `row`. */
  predicate Clashes(rows: Rows, row: Proxy) {
    exists id | id in rows :: id != row.id && SameIdentity(rows[id], row)
  }

  lemma PutKeepsUnique(rows: Rows, row: Proxy)
    requires Unique(rows) && !Clashes(rows, row)
    ensures Unique(rows[row.id := row])
  {
  }

  /** The `DO UPDATE` arm: the identity and everything observed stay. */
  function Upserted(was: Proxy, e: Entry, paused: bool): Proxy {
    was.(status := Disabled, userPaused := paused,
         route := was.route.(protocol := e.proto, dual := e.dual, username := e.username, password := e.password,
                             nodeKey := if e.nodeKey != "" then e.nodeKey else was.route.nodeKey))
  }

  class Tx {
    var rows: Rows
    var nextId: ProxyId

    /** The table satisfies its constraints; ids are never reused. */
    ghost predicate Valid()
      reads this
    {
      Unique(rows) && forall id | id in rows :: id < nextId
    }

    constructor (rows: Rows, nextId: ProxyId)
      requires Unique(rows) && forall id | id in rows :: id < nextId
      ensures Valid() && this.rows == rows && this.nextId == nextId
    {
      this.rows, this.nextId := rows, nextId;
    }

    method Rollback(rows: Rows, nextId: ProxyId)
      requires Unique(rows) && forall id | id in rows :: id < nextId
      modifies this
      ensures Valid() && this.rows == rows && this.nextId == nextId
    {
      this.rows, this.nextId := rows, nextId;
    }

    method Delete(id: ProxyId)
      requires Valid()
      modifies this`rows
      ensures Valid() && rows == old(rows) - {id}
    {
      rows := rows - {id};
    }

    /** `UPDATE … WHERE id = ?`. */
    method Update(row: Proxy) returns (ok: bool)
      requires Valid() && row.id in rows
      modifies this`rows
      ensures Valid() && ok == !Clashes(old(rows), row)
      ensures rows == if ok then old(rows)[row.id := row] else old(rows)
    {
      if Clashes(rows, row) { return false; }
      PutKeepsUnique(rows, row);
      rows := rows[row.id := row];
      return true;
    }

    /** `INSERT … ON CONFLICT DO UPDATE`, then the id by full identity. */
    method Upsert(e: Entry, sub: int, paused: bool) returns (id: ProxyId)
      requires Valid()
      modifies this
      ensures Valid() && id in rows && nextId >= old(nextId)
      ensures !Clashes(old(rows), NewRow(old(nextId), e, sub, paused)) ==>
                id == old(nextId) && nextId == id + 1 && rows == old(rows)[id := NewRow(id, e, sub, paused)]
      ensures Clashes(old(rows), NewRow(old(nextId), e, sub, paused)) ==>
                id in old(rows) && SameIdentity(old(rows)[id], NewRow(id, e, sub, paused))
                && rows == old(rows)[id := Upserted(old(rows)[id], e, paused)]
    {
      var row := NewRow(nextId, e, sub, paused);
      if Clashes(rows, row) {
        id :| id in rows && id != row.id && SameIdentity(rows[id], row);
        rows := rows[id := Upserted(rows[id], e, paused)];
      } else {
        PutKeepsUnique(rows, row);
        id := nextId;
        rows := rows[id := row];
        nextId := nextId + 1;
      }
    }
  }

  // ------------------------------------------------ planning

  predicate HasEntry(p: Proxy, es: seq<Entry>) {
    p.route.nodeKey != "" && exists i | 0 <= i < |es| :: es[i].nodeKey == p.route.nodeKey
  }

  predicate Stale(p: Proxy, sub: int, es: seq<Entry>) {
    Mine(p, sub) && !HasEntry(p, es)
  }

  /** `plan[i]` is the id of the row that entry `i` lives on in, if any. */
  predicate IsPlan(rows: Rows, sub: int, es: seq<Entry>, plan: seq<Option<ProxyId>>) {
    && |plan| == |es|
    && (forall i | 0 <= i < |es| && plan[i].Some? :: IsOld(rows, sub, plan[i].value, es[i]))
    && (forall i, a | 0 <= i < |es| && plan[i].None? && a in rows :: !IsOld(rows, sub, a, es[i]))
  }

  /** Sorts the old rows of the subscription into stale ones and rows to keep
      by node key. */
  method SplitOld(rows: Rows, sub: int, es: seq<Entry>) returns (stale: seq<ProxyId>, keyToOld: map<string, ProxyId>)
    ensures forall id :: id in stale <==> id in rows && Stale(rows[id], sub, es)
    ensures forall k | k in keyToOld ::
              k != "" && keyToOld[k] in rows && Mine(rows[keyToOld[k]], sub) && rows[keyToOld[k]].route.nodeKey == k
    ensures forall id | id in rows && Mine(rows[id], sub) && HasEntry(rows[id], es) ::
              rows[id].route.nodeKey in keyToOld
  {
    var incoming := set i | 0 <= i < |es| && es[i].nodeKey != "" :: es[i].nodeKey;
    stale, keyToOld := [], map[];
    var todo := rows.Keys;
    while todo != {}
      invariant todo <= rows.Keys
      invariant forall id :: id in stale <==> id in rows && id !in todo && Stale(rows[id], sub, es)
      invariant forall k | k in keyToOld ::
                  k != "" && keyToOld[k] in rows && Mine(rows[keyToOld[k]], sub) && rows[keyToOld[k]].route.nodeKey == k
      invariant forall id | id in rows && id !in todo && Mine(rows[id], sub) && HasEntry(rows[id], es) ::
                  rows[id].route.nodeKey in keyToOld
      decreases todo
    {
      SomeMember(todo);
      var id :| id in todo;
      todo := todo - {id};
      var key := rows[id].route.nodeKey;
      assert HasEntry(rows[id], es) <==> key in incoming;
      if Mine(rows[id], sub) {
        if key in incoming {
          keyToOld := keyToOld[key := id];
        } else {
          stale := stale + [id];
        }
      }
    }
  }

  /** Splits the batch into entries with and without a row to live on in. */
  method MakePlan(rows: Rows, sub: int, es: seq<Entry>) returns (stale: seq<ProxyId>, plan: seq<Option<ProxyId>>)
    ensures forall id :: id in stale <==> id in rows && Stale(rows[id], sub, es)
    ensures IsPlan(rows, sub, es, plan)
  {
    var keyToOld;
    stale, keyToOld := SplitOld(rows, sub, es);
    plan := [];
    for i := 0 to |es|
      invariant |plan| == i
      invariant forall j | 0 <= j < i && plan[j].Some? :: IsOld(rows, sub, plan[j].value, es[j])
      invariant forall j, a | 0 <= j < i && plan[j].None? && a in rows :: !IsOld(rows, sub, a, es[j])
    {
      var key := es[i].nodeKey;
      forall a | a in rows && IsOld(rows, sub, a, es[i]) ensures key in keyToOld {
        assert HasEntry(rows[a], es);
      }
      plan := plan + [if key != "" && key in keyToOld then Some(keyToOld[key]) else None];
    }
  }

  // ------------------------------------------------ intermediate tables

  /** Where each surviving row's entry is. */
  predicate Positions(rows: Rows, sub: int, es: seq<Entry>, plan: seq<Option<ProxyId>>, pos: map<ProxyId, nat>) {
    && IsPlan(rows, sub, es, plan) && |plan| == |es|
    && (forall id | id in rows :: Mine(rows[id], sub) <==> id in pos)
    && (forall id | id in pos :: id in rows && pos[id] < |es| && plan[pos[id]] == Some(id))
    && (forall i | 0 <= i < |es| && plan[i].Some? :: plan[i].value in pos && pos[plan[i].value] == i)
  }

  /** The surviving rows when the first `a` entries have been moved away and the
      first `b` of them moved home. */
  function Mid(rows: Rows, es: seq<Entry>, pos: map<ProxyId, nat>, subStatus: string, a: nat, b: nat): Rows
    requires forall id | id in pos :: pos[id] < |es|
  {
    map id | id in rows ::
      if id !in pos || (pos[id] >= a && pos[id] >= b) then rows[id]
      else if pos[id] < b then Survivor(rows[id], es[pos[id]], subStatus)
      else Rewritten(rows[id], es[pos[id]], subStatus, TmpAddr(id))
  }

  lemma TmpAddrInjective(a: ProxyId, b: ProxyId)
    requires TmpAddr(a) == TmpAddr(b)
    ensures a == b
  {
    var s := TmpAddr(a);
    assert Decimal(a) == s[7..|s| - 10] && Decimal(b) == TmpAddr(b)[7..|s| - 10];
    DecimalInjective(a, b);
  }

  /** Moving entry `n` away clashes exactly with a later row whose old address
      is the temporary one. */
  lemma MoveAwayClash(rows: Rows, sub: int, es: seq<Entry>, plan: seq<Option<ProxyId>>, pos: map<ProxyId, nat>,
                      subStatus: string, n: nat)
    requires Unique(rows) && Positions(rows, sub, es, plan, pos) && n < |es| && plan[n].Some?
    ensures var id := plan[n].value;
            var row := Rewritten(rows[id], es[n], subStatus, TmpAddr(id));
            Clashes(Mid(rows, es, pos, subStatus, n, 0), row)
            <==> exists b | b in pos :: pos[b] > n && rows[b].route.address == TmpAddr(id)
  {
    hide Unique, IsPlan, StaysActive, RouteChanged, TmpAddr;
    var id := plan[n].value;
    var row := Rewritten(rows[id], es[n], subStatus, TmpAddr(id));
    var mid := Mid(rows, es, pos, subStatus, n, 0);
    RowIds(rows, id);
    assert Mine(rows[id], sub);
    forall b | b in mid && b != id
      ensures SameIdentity(mid[b], row) <==> b in pos && pos[b] > n && rows[b].route.address == TmpAddr(id)
    {
      if b in pos && pos[b] < n && TmpAddr(b) == TmpAddr(id) {
        TmpAddrInjective(b, id);
      }
    }
  }

  lemma RowIds(rows: Rows, id: ProxyId)
    requires Unique(rows) && id in rows
    ensures rows[id].id == id
  {
  }

  /** Moving entry `n` home clashes exactly with a later row still waiting at
      that address. */
  lemma MoveHomeClash(rows: Rows, sub: int, es: seq<Entry>, plan: seq<Option<ProxyId>>, pos: map<ProxyId, nat>,
                      subStatus: string, n: nat)
    requires Unique(rows) && Normalized(es) && Positions(rows, sub, es, plan, pos) && n < |es| && plan[n].Some?
    ensures var id := plan[n].value;
            Clashes(Mid(rows, es, pos, subStatus, |es|, n), Survivor(rows[id], es[n], subStatus))
            <==> exists b | b in pos :: pos[b] > n && es[n].addr == TmpAddr(b)
  {
    hide Unique, IsPlan, StaysActive, RouteChanged, TmpAddr, Normalized;
    var id := plan[n].value;
    var row := Survivor(rows[id], es[n], subStatus);
    var mid := Mid(rows, es, pos, subStatus, |es|, n);
    RowIds(rows, id);
    assert Mine(rows[id], sub);
    forall b | b in mid && b != id
      ensures SameIdentity(mid[b], row) <==> b in pos && pos[b] > n && es[n].addr == TmpAddr(b)
    {
      if b in pos && pos[b] < n {
        DistinctAddresses(es, pos[b], n);
      }
    }
  }

  lemma DistinctAddresses(es: seq<Entry>, i: nat, j: nat)
    requires Normalized(es) && i < |es| && j < |es| && i != j
    ensures es[i].addr != es[j].addr
  {
    if i < j {
      assert !SameSlot(es[i], es[j]);
    } else {
      assert !SameSlot(es[j], es[i]);
    }
  }

  /** One step of each phase leads from one intermediate table to the next. */
  lemma MoveAwayStep(rows: Rows, sub: int, es: seq<Entry>, plan: seq<Option<ProxyId>>, pos: map<ProxyId, nat>,
                     subStatus: string, n: nat)
    requires Unique(rows) && Positions(rows, sub, es, plan, pos) && n < |es|
    ensures var mid := Mid(rows, es, pos, subStatus, n, 0);
            Mid(rows, es, pos, subStatus, n + 1, 0)
            == if plan[n].None? then mid
               else mid[plan[n].value := Rewritten(rows[plan[n].value], es[n], subStatus, TmpAddr(plan[n].value))]
  {
    hide Unique, IsPlan, Rewritten, TmpAddr;
  }

  lemma MoveHomeStep(rows: Rows, sub: int, es: seq<Entry>, plan: seq<Option<ProxyId>>, pos: map<ProxyId, nat>,
                     subStatus: string, n: nat)
    requires Unique(rows) && Positions(rows, sub, es, plan, pos) && n < |es|
    ensures var mid := Mid(rows, es, pos, subStatus, |es|, n);
            Mid(rows, es, pos, subStatus, |es|, n + 1)
            == if plan[n].None? then mid else mid[plan[n].value := Survivor(rows[plan[n].value], es[n], subStatus)]
  {
    hide Unique, IsPlan, Rewritten, TmpAddr;
  }

  // ------------------------------------------------ the two rename phases

  /** The first pass of `TmpClear`, for entries before `n`. */
  predicate AwayClear(rows: Rows, pos: map<ProxyId, nat>, n: nat)
    requires forall id | id in pos :: id in rows
  {
    forall a, b | a in pos && b in pos && pos[a] < n && pos[a] < pos[b] :: rows[b].route.address != TmpAddr(a)
  }

  predicate HomeClear(es: seq<Entry>, pos: map<ProxyId, nat>, n: nat)
    requires forall id | id in pos :: pos[id] < |es|
  {
    forall a, b | a in pos && b in pos && pos[a] < n && pos[a] < pos[b] :: es[pos[a]].addr != TmpAddr(b)
  }

  method MoveAway(tx: Tx, es: seq<Entry>, plan: seq<Option<ProxyId>>, subStatus: string, paused: set<string>,
                  ghost sub: int, ghost pos: map<ProxyId, nat>)
    returns (ok: bool)
    requires tx.Valid() && Positions(tx.rows, sub, es, plan, pos)
    requires forall id | id in pos :: tx.rows[id].userPaused <==> es[pos[id]].nodeKey in paused
    modifies tx`rows
    ensures tx.Valid() && ok == AwayClear(old(tx.rows), pos, |es|)
    ensures ok ==> tx.rows == Mid(old(tx.rows), es, pos, subStatus, |es|, 0)
  {
    hide Unique, IsPlan, Rewritten, TmpAddr, Clashes;
    ghost var start := tx.rows;
    assert tx.rows == Mid(start, es, pos, subStatus, 0, 0);
    for n := 0 to |es|
      invariant tx.Valid() && tx.rows == Mid(start, es, pos, subStatus, n, 0) && AwayClear(start, pos, n)
    {
      MoveAwayStep(start, sub, es, plan, pos, subStatus, n);
      if plan[n].Some? {
        var id := plan[n].value;
        MoveAwayClash(start, sub, es, plan, pos, subStatus, n);
        var row := Rewritten(tx.rows[id], es[n], subStatus, TmpAddr(id));
        RewrittenFacts(tx.rows[id], es[n], subStatus, TmpAddr(id));
        RowIds(start, id);
        var done := tx.Update(row.(userPaused := es[n].nodeKey in paused));
        if !done { return false; }
      }
    }
    return true;
  }

  lemma RewrittenFacts(was: Proxy, e: Entry, subStatus: string, addr: string)
    ensures var r := Rewritten(was, e, subStatus, addr); r.id == was.id && r.(userPaused := was.userPaused) == r
    ensures Rewritten(was, e, subStatus, addr).route.(address := e.addr) == Survivor(was, e, subStatus).route
    ensures var r := Rewritten(was, e, subStatus, addr);
            r.(route := r.route.(address := e.addr)) == Survivor(was, e, subStatus)
  {
  }

  method MoveHome(tx: Tx, es: seq<Entry>, plan: seq<Option<ProxyId>>, ghost start: Rows, ghost subStatus: string,
                  ghost sub: int, ghost pos: map<ProxyId, nat>)
    returns (ok: bool)
    requires tx.Valid() && Unique(start) && Normalized(es) && Positions(start, sub, es, plan, pos)
    requires tx.rows == Mid(start, es, pos, subStatus, |es|, 0)
    modifies tx`rows
    ensures tx.Valid() && ok == HomeClear(es, pos, |es|)
    ensures ok ==> tx.rows == Mid(start, es, pos, subStatus, |es|, |es|)
  {
    hide Unique, IsPlan, Rewritten, Survivor, TmpAddr, Clashes, Normalized;
    for n := 0 to |es|
      invariant tx.Valid() && tx.rows == Mid(start, es, pos, subStatus, |es|, n) && HomeClear(es, pos, n)
    {
      MoveHomeStep(start, sub, es, plan, pos, subStatus, n);
      if plan[n].Some? {
        var id := plan[n].value;
        MoveHomeClash(start, sub, es, plan, pos, subStatus, n);
        RewrittenFacts(start[id], es[n], subStatus, TmpAddr(id));
        RowIds(start, id);
        var row := tx.rows[id];
        var done := tx.Update(row.(route := row.route.(address := es[n].addr)));
        if !done { return false; }
      }
    }
    return true;
  }

  // ------------------------------------------------ inserts

  /** The rows of entries without an old row are in place, for entries before `n`. */
  predicate Inserted(mid: Rows, rows: Rows, plan: seq<Option<ProxyId>>, es: seq<Entry>, sub: int, inherits: seq<bool>,
                     ids: seq<ProxyId>, firstId: ProxyId)
    requires |ids| <= |plan| == |es| == |inherits|
  {
    && (forall i | 0 <= i < |ids| ::
          if plan[i].Some? then ids[i] == plan[i].value
          else ids[i] >= firstId && ids[i] in rows && rows[ids[i]] == NewRow(ids[i], es[i], sub, inherits[i]))
    && (forall i, j | 0 <= i < j < |ids| && plan[i].None? && plan[j].None? :: ids[i] < ids[j])
    && (forall id | id in mid :: id < firstId && id in rows && rows[id] == mid[id])
    && (forall id | id in rows && id !in mid :: id in ids)
  }

  /** The address of a new entry is free: survivors and earlier inserts have
      other addresses. */
  lemma InsertFree(mid: Rows, rows: Rows, plan: seq<Option<ProxyId>>, es: seq<Entry>, sub: int, inherits: seq<bool>,
                   ids: seq<ProxyId>, firstId: ProxyId, nextId: ProxyId, home: map<ProxyId, nat>)
    requires |ids| < |plan| == |es| == |inherits| && plan[|ids|].None? && Normalized(es)
    requires Inserted(mid, rows, plan, es, sub, inherits, ids, firstId)
    requires forall id | id in mid && Mine(mid[id], sub) ::
               id in home && home[id] < |es| && plan[home[id]].Some? && mid[id].route.address == es[home[id]].addr
    requires forall i | 0 <= i < |plan| && plan[i].Some? :: plan[i].value in mid
    ensures !Clashes(rows, NewRow(nextId, es[|ids|], sub, inherits[|ids|]))
  {
    hide Normalized;
    var row := NewRow(nextId, es[|ids|], sub, inherits[|ids|]);
    forall id | id in rows ensures !SameIdentity(rows[id], row) {
      if id in mid {
        if Mine(mid[id], sub) {
          DistinctAddresses(es, home[id], |ids|);
        }
      } else {
        var i :| 0 <= i < |ids| && ids[i] == id;
        if plan[i].None? {
          DistinctAddresses(es, i, |ids|);
        }
      }
    }
  }

  lemma InsertedNothing(mid: Rows, plan: seq<Option<ProxyId>>, es: seq<Entry>, sub: int, inherits: seq<bool>,
                        firstId: ProxyId)
    requires |plan| == |es| == |inherits| && forall id | id in mid :: id < firstId
    ensures Inserted(mid, mid, plan, es, sub, inherits, [], firstId)
  {
  }

  lemma InsertedSkip(mid: Rows, rows: Rows, plan: seq<Option<ProxyId>>, es: seq<Entry>, sub: int, inherits: seq<bool>,
                     ids: seq<ProxyId>, firstId: ProxyId)
    requires |ids| < |plan| == |es| == |inherits| && plan[|ids|].Some?
    requires Inserted(mid, rows, plan, es, sub, inherits, ids, firstId)
    ensures Inserted(mid, rows, plan, es, sub, inherits, ids + [plan[|ids|].value], firstId)
  {
    hide NewRow;
  }

  lemma InsertedAdd(mid: Rows, rows: Rows, plan: seq<Option<ProxyId>>, es: seq<Entry>, sub: int, inherits: seq<bool>,
                    ids: seq<ProxyId>, firstId: ProxyId, id: ProxyId)
    requires |ids| < |plan| == |es| == |inherits| && plan[|ids|].None? && id >= firstId && id !in rows
    requires Inserted(mid, rows, plan, es, sub, inherits, ids, firstId)
    requires forall i | 0 <= i < |ids| && plan[i].None? :: ids[i] < id
    ensures Inserted(mid, rows[id := NewRow(id, es[|ids|], sub, inherits[|ids|])], plan, es, sub, inherits,
              ids + [id], firstId)
  {
    hide NewRow;
  }

  method InsertNew(tx: Tx, es: seq<Entry>, plan: seq<Option<ProxyId>>, sub: int, inherits: seq<bool>,
                   ghost home: map<ProxyId, nat>)
    returns (ids: seq<ProxyId>)
    requires tx.Valid() && |plan| == |es| == |inherits| && Normalized(es)
    requires forall id | id in tx.rows && Mine(tx.rows[id], sub) ::
               id in home && home[id] < |es| && plan[home[id]].Some? && tx.rows[id].route.address == es[home[id]].addr
    requires forall i | 0 <= i < |plan| && plan[i].Some? :: plan[i].value in tx.rows
    modifies tx
    ensures tx.Valid() && |ids| == |es| && tx.nextId >= old(tx.nextId)
    ensures Inserted(old(tx.rows), tx.rows, plan, es, sub, inherits, ids, old(tx.nextId))
  {
    hide Unique, Normalized, Clashes, Inserted, NewRow, SameIdentity, Upserted;
    ids := [];
    ghost var mid, firstId := tx.rows, tx.nextId;
    InsertedNothing(mid, plan, es, sub, inherits, firstId);
    for n := 0 to |es|
      invariant tx.Valid() && |ids| == n && tx.nextId >= firstId
      invariant Inserted(mid, tx.rows, plan, es, sub, inherits, ids, firstId)
      invariant forall i | 0 <= i < n && plan[i].None? :: ids[i] < tx.nextId
    {
      if plan[n].Some? {
        InsertedSkip(mid, tx.rows, plan, es, sub, inherits, ids, firstId);
        ids := ids + [plan[n].value];
      } else {
        InsertFree(mid, tx.rows, plan, es, sub, inherits, ids, firstId, tx.nextId, home);
        InsertedAdd(mid, tx.rows, plan, es, sub, inherits, ids, firstId, tx.nextId);
        var id := tx.Upsert(es[n], sub, inherits[n]);
        ids := ids + [id];
      }
    }
  }

  // ------------------------------------------------ the whole transaction

  function PausedKeys(rows: Rows, sub: int): set<string> {
    set id | id in rows && Mine(rows[id], sub) && rows[id].userPaused && rows[id].route.nodeKey != "" ::
        rows[id].route.nodeKey
  }

  function PausedAddresses(rows: Rows, sub: int): set<string> {
    set id | id in rows && Mine(rows[id], sub) && rows[id].userPaused :: rows[id].route.address
  }

  /** The pause flag the transaction writes for an entry. */
  function PauseFor(e: Entry, byKey: set<string>, byAddr: set<string>): bool {
    if e.nodeKey != "" then e.nodeKey in byKey else e.addr in byAddr
  }

  /** The table without the stale rows. */
  function Remaining(rows: Rows, stale: seq<ProxyId>): Rows {
    map id | id in rows && id !in stale :: rows[id]
  }

  method DeleteStale(tx: Tx, stale: seq<ProxyId>)
    requires tx.Valid()
    modifies tx`rows
    ensures tx.Valid() && tx.rows == Remaining(old(tx.rows), stale)
  {
    hide Unique;
    ghost var start := tx.rows;
    for n := 0 to |stale|
      invariant tx.Valid() && tx.rows == Remaining(start, stale[..n])
    {
      tx.Delete(stale[n]);
      assert stale[..n + 1] == stale[..n] + [stale[n]];
    }
    assert stale[..|stale|] == stale;
  }

  ghost function PositionOf(plan: seq<Option<ProxyId>>, id: ProxyId): (n: nat)
    requires Some(id) in plan
    ensures n < |plan| && plan[n] == Some(id)
  {
    var n :| 0 <= n < |plan| && plan[n] == Some(id); n
  }

  /** Each surviving row belongs to one entry. */
  lemma PositionsExist(rows: Rows, sub: int, es: seq<Entry>, stale: seq<ProxyId>, plan: seq<Option<ProxyId>>)
      returns (pos: map<ProxyId, nat>)
    requires UniqueKeys(rows, sub) && Normalized(es) && IsPlan(rows, sub, es, plan)
    requires forall id :: id in stale <==> id in rows && Stale(rows[id], sub, es)
    ensures Positions(Remaining(rows, stale), sub, es, plan, pos)
    ensures forall id | id in pos :: IsOld(rows, sub, id, es[pos[id]])
  {
    hide Normalized, UniqueKeys, HasEntry;
    var rest := Remaining(rows, stale);
    forall id | id in rest && Mine(rest[id], sub) ensures Some(id) in plan {
      SurvivorPlanned(rows, sub, es, plan, id);
    }
    pos := map id | id in rest && Mine(rest[id], sub) :: PositionOf(plan, id);
    forall i | 0 <= i < |es| && plan[i].Some? ensures plan[i].value in pos && pos[plan[i].value] == i {
      var id := plan[i].value;
      assert IsOld(rows, sub, id, es[i]);
      EntryKept(rows, sub, es, stale, id, i);
      assert plan[pos[id]] == Some(id);
      assert IsOld(rows, sub, id, es[pos[id]]);
      if pos[id] != i { DistinctKeys(es, pos[id], i); }
    }
    PlanRemains(rows, sub, es, stale, plan);
  }

  lemma PlanRemains(rows: Rows, sub: int, es: seq<Entry>, stale: seq<ProxyId>, plan: seq<Option<ProxyId>>)
    requires IsPlan(rows, sub, es, plan)
    requires forall id :: id in stale <==> id in rows && Stale(rows[id], sub, es)
    ensures IsPlan(Remaining(rows, stale), sub, es, plan)
  {
    hide HasEntry;
    var rest := Remaining(rows, stale);
    forall i | 0 <= i < |es| && plan[i].Some? ensures IsOld(rest, sub, plan[i].value, es[i]) {
      EntryKept(rows, sub, es, stale, plan[i].value, i);
    }
  }

  lemma SurvivorPlanned(rows: Rows, sub: int, es: seq<Entry>, plan: seq<Option<ProxyId>>, id: ProxyId)
    requires UniqueKeys(rows, sub) && IsPlan(rows, sub, es, plan)
    requires id in rows && Mine(rows[id], sub) && HasEntry(rows[id], es)
    ensures Some(id) in plan
  {
    var i :| 0 <= i < |es| && es[i].nodeKey == rows[id].route.nodeKey;
    assert IsOld(rows, sub, id, es[i]);
    assert plan[i].Some?;
    assert IsOld(rows, sub, plan[i].value, es[i]);
    assert plan[i] in plan;
  }

  lemma DistinctKeys(es: seq<Entry>, i: nat, j: nat)
    requires Normalized(es) && i < |es| && j < |es| && i != j
    ensures es[i].nodeKey != "" ==> es[i].nodeKey != es[j].nodeKey
  {
    if i < j {
      assert !SameSlot(es[i], es[j]);
    } else {
      assert !SameSlot(es[j], es[i]);
    }
  }

  /** The two passes succeed exactly when the temporary addresses are clear. */
  lemma ClearIff(rows: Rows, sub: int, es: seq<Entry>, stale: seq<ProxyId>, plan: seq<Option<ProxyId>>,
                 pos: map<ProxyId, nat>)
    requires Normalized(es) && Positions(Remaining(rows, stale), sub, es, plan, pos)
    requires forall id :: id in stale <==> id in rows && Stale(rows[id], sub, es)
    requires forall id | id in pos :: id in rows && IsOld(rows, sub, id, es[pos[id]])
    ensures TmpClear(rows, sub, es) <==> AwayClear(Remaining(rows, stale), pos, |es|) && HomeClear(es, pos, |es|)
  {
    hide TmpAddr, IsPlan, Normalized, Stale, TmpClear, IsOld;
    assert forall id | id in pos :: id in Remaining(rows, stale);
    forall a, i | 0 <= i < |es| && IsOld(rows, sub, a, es[i]) ensures a in pos && pos[a] == i {
      OldPosition(rows, sub, es, stale, plan, pos, a, i);
    }
    ClearByPosition(rows, sub, es, pos);
  }

  lemma OldPosition(rows: Rows, sub: int, es: seq<Entry>, stale: seq<ProxyId>, plan: seq<Option<ProxyId>>,
                    pos: map<ProxyId, nat>, a: ProxyId, i: nat)
    requires Normalized(es) && Positions(Remaining(rows, stale), sub, es, plan, pos)
    requires forall id :: id in stale <==> id in rows && Stale(rows[id], sub, es)
    requires forall id | id in pos :: id in rows && IsOld(rows, sub, id, es[pos[id]])
    requires i < |es| && IsOld(rows, sub, a, es[i])
    ensures a in pos && pos[a] == i
  {
    hide IsPlan, Normalized, Stale;
    EntryKept(rows, sub, es, stale, a, i);
    assert a in pos;
    assert IsOld(rows, sub, a, es[pos[a]]);
    if pos[a] != i { DistinctKeys(es, pos[a], i); }
  }

  lemma ClearByPosition(rows: Rows, sub: int, es: seq<Entry>, pos: map<ProxyId, nat>)
    requires forall id | id in pos :: id in rows && pos[id] < |es| && IsOld(rows, sub, id, es[pos[id]])
    requires forall a, i | 0 <= i < |es| && IsOld(rows, sub, a, es[i]) :: a in pos && pos[a] == i
    ensures TmpClear(rows, sub, es) <==> AwayClear(rows, pos, |es|) && HomeClear(es, pos, |es|)
  {
    hide TmpAddr, IsOld;
    if TmpClear(rows, sub, es) {
      forall a, b | a in pos && b in pos && pos[a] < pos[b]
        ensures TmpAddr(a) != rows[b].route.address && es[pos[a]].addr != TmpAddr(b)
      {
        assert IsOld(rows, sub, a, es[pos[a]]) && IsOld(rows, sub, b, es[pos[b]]);
      }
    }
  }

  lemma EntryKept(rows: Rows, sub: int, es: seq<Entry>, stale: seq<ProxyId>, a: ProxyId, i: nat)
    requires forall id :: id in stale <==> id in rows && Stale(rows[id], sub, es)
    requires i < |es| && IsOld(rows, sub, a, es[i])
    ensures a in Remaining(rows, stale)
  {
    assert HasEntry(rows[a], es);
  }

  /** A surviving row's pause flag is the one recorded for its key. */
  lemma PausedIff(rows: Rows, sub: int, es: seq<Entry>, pos: map<ProxyId, nat>)
    requires UniqueKeys(rows, sub)
    requires forall id | id in pos :: id in rows && pos[id] < |es| && IsOld(rows, sub, id, es[pos[id]])
    ensures forall id | id in pos :: rows[id].userPaused <==> es[pos[id]].nodeKey in PausedKeys(rows, sub)
  {
  }

  /** The pause flags of new entries: only those without a key inherit one. */
  lemma PauseForNew(rows: Rows, sub: int, e: Entry)
    requires forall a | a in rows :: !IsOld(rows, sub, a, e)
    ensures PauseFor(e, PausedKeys(rows, sub), PausedAddresses(rows, sub)) == InheritsPause(rows, sub, e)
  {
    if e.nodeKey == "" && PausedByAddress(rows, sub, e.addr) {
      var id :| id in rows && Mine(rows[id], sub) && rows[id].userPaused && rows[id].route.address == e.addr;
      assert rows[id].route.address in PausedAddresses(rows, sub);
    }
  }

  /** After both passes the subscription's rows are at their entries' addresses. */
  lemma HomeRows(rest: Rows, sub: int, es: seq<Entry>, plan: seq<Option<ProxyId>>, pos: map<ProxyId, nat>,
                 subStatus: string)
    requires Positions(rest, sub, es, plan, pos)
    ensures var home := Mid(rest, es, pos, subStatus, |es|, |es|);
            && home.Keys == rest.Keys
            && (forall id | id in home && Mine(home[id], sub) ::
                  id in pos && pos[id] < |es| && plan[pos[id]].Some? && home[id].route.address == es[pos[id]].addr)
            && (forall i | 0 <= i < |plan| && plan[i].Some? :: plan[i].value in home)
            && (forall id | id in rest ::
                home[id] == if id in pos then Survivor(rest[id], es[pos[id]], subStatus) else rest[id])
  {
    hide IsPlan, StaysActive, RouteChanged;
    var home := Mid(rest, es, pos, subStatus, |es|, |es|);
    forall i | 0 <= i < |plan| && plan[i].Some? ensures plan[i].value in home {
      var id := plan[i].value;
      assert id in pos && pos[id] == i;
      assert id in rest;
    }
  }

  /** The final table, read entry by entry. */
  lemma SettledEntry(rows: Rows, sub: int, subStatus: string, es: seq<Entry>, stale: seq<ProxyId>,
                     plan: seq<Option<ProxyId>>, pos: map<ProxyId, nat>, inherits: seq<bool>, final: Rows,
                     ids: seq<ProxyId>, nextId: ProxyId, i: nat)
    requires Positions(Remaining(rows, stale), sub, es, plan, pos) && IsPlan(rows, sub, es, plan)
    requires |ids| == |es| == |plan| == |inherits| && i < |es|
    requires forall j | 0 <= j < |es| ::
               inherits[j] == PauseFor(es[j], PausedKeys(rows, sub), PausedAddresses(rows, sub))
    requires Inserted(Mid(Remaining(rows, stale), es, pos, subStatus, |es|, |es|), final, plan, es, sub, inherits,
               ids, nextId)
    requires forall id | id in rows :: id < nextId
    ensures ids[i] in final
    ensures ids[i] in rows <==> plan[i].Some?
    ensures plan[i].Some? ==>
              ids[i] in pos && pos[ids[i]] == i && IsOld(rows, sub, ids[i], es[i])
              && final[ids[i]] == Survivor(rows[ids[i]], es[i], subStatus)
    ensures plan[i].None? ==> && ids[i] >= nextId && (forall a | a in rows :: !IsOld(rows, sub, a, es[i]))
                              && final[ids[i]] == NewRow(ids[i], es[i], sub, InheritsPause(rows, sub, es[i]))
  {
    hide IsOld, Survivor, Rewritten, NewRow, PauseFor, PausedKeys, PausedAddresses, InheritsPause, Mid;
    HomeRows(Remaining(rows, stale), sub, es, plan, pos, subStatus);
    if plan[i].None? {
      PauseForNew(rows, sub, es[i]);
    }
  }

  lemma Settled(rows: Rows, sub: int, subStatus: string, es: seq<Entry>, stale: seq<ProxyId>,
                plan: seq<Option<ProxyId>>, pos: map<ProxyId, nat>, inherits: seq<bool>, final: Rows,
                ids: seq<ProxyId>, nextId: ProxyId)
    requires Positions(Remaining(rows, stale), sub, es, plan, pos) && IsPlan(rows, sub, es, plan)
    requires forall id :: id in stale <==> id in rows && Stale(rows[id], sub, es)
    requires |ids| == |es| == |plan| == |inherits|
    requires forall j | 0 <= j < |es| ::
               inherits[j] == PauseFor(es[j], PausedKeys(rows, sub), PausedAddresses(rows, sub))
    requires Inserted(Mid(Remaining(rows, stale), es, pos, subStatus, |es|, |es|), final, plan, es, sub, inherits,
               ids, nextId)
    requires forall id | id in rows :: id < nextId
    ensures Refreshed(rows, final, sub, subStatus, es, ids, nextId)
  {
    hide IsOld, Survivor, Rewritten, NewRow, PauseFor, PausedKeys, PausedAddresses, InheritsPause, Mid, IsPlan,
        HasEntry;
    HomeRows(Remaining(rows, stale), sub, es, plan, pos, subStatus);
    forall i | 0 <= i < |es|
      ensures ids[i] in final && (ids[i] in rows <==> plan[i].Some?)
      ensures plan[i].Some? ==> ids[i] in pos && pos[ids[i]] == i
      ensures if ids[i] in rows then IsOld(rows, sub, ids[i], es[i])
                && final[ids[i]] == Survivor(rows[ids[i]], es[i], subStatus)
              else ids[i] >= nextId && (forall a | a in rows :: !IsOld(rows, sub, a, es[i]))
                   && final[ids[i]] == NewRow(ids[i], es[i], sub, InheritsPause(rows, sub, es[i]))
    {
      SettledEntry(rows, sub, subStatus, es, stale, plan, pos, inherits, final, ids, nextId, i);
    }
    forall id | id in final ensures if id in rows && !Mine(rows[id], sub) then final[id] == rows[id] else id in ids {
      if id in pos {
        assert ids[pos[id]] == id;
      }
    }
  }

  /** A refreshed subscription has unique keys again. */
  lemma KeysStayUnique(rows: Rows, final: Rows, sub: int, subStatus: string, es: seq<Entry>, ids: seq<ProxyId>,
                       nextId: ProxyId)
    requires Normalized(es) && Refreshed(rows, final, sub, subStatus, es, ids, nextId)
    ensures UniqueKeys(final, sub)
  {
    hide Normalized, StaysActive, RouteChanged, InheritsPause;
    forall i | 0 <= i < |es| ensures final[ids[i]].route.nodeKey == es[i].nodeKey {}
    forall a, b | a in final && b in final && Mine(final[a], sub) && Mine(final[b], sub)
                  && final[a].route.nodeKey != "" && final[a].route.nodeKey == final[b].route.nodeKey ensures a == b
    {
      var i :| 0 <= i < |ids| && ids[i] == a;
      var j :| 0 <= j < |ids| && ids[j] == b;
      if i != j { DistinctKeys(es, i, j); }
    }
  }

  lemma StaysInService(rows: Rows, final: Rows, sub: int, subStatus: string, es: seq<Entry>, ids: seq<ProxyId>,
                       nextId: ProxyId)
    requires UniqueKeys(rows, sub) && Refreshed(rows, final, sub, subStatus, es, ids, nextId)
    ensures ServiceKept(rows, final, sub, subStatus, es)
  {
    hide Refreshed, UniqueKeys, IsOld, Proven;
    forall id, i | id in rows && 0 <= i < |es| && IsOld(rows, sub, id, es[i])
      ensures id in final
      ensures final[id].status == Active <==>
              subStatus == "active" && Proven(rows[id]) && rows[id].route == RouteOf(es[i], sub)
    {
      SurvivorsKeepIdentity(rows, final, sub, subStatus, es, ids, nextId, id, i);
    }
  }

  /** `replaceSubscriptionProxies`: all or nothing, on every batch. */
  method Replace(tx: Tx, subs: map<int, string>, sub: int, entries: seq<Entry>) returns (ok: bool, ids: seq<ProxyId>)
    requires tx.Valid() && UniqueKeys(tx.rows, sub)
    modifies tx
    ensures tx.Valid() && UniqueKeys(tx.rows, sub) && tx.nextId >= old(tx.nextId)
    ensures ok <==> sub in subs && TmpClear(old(tx.rows), sub, Kept(entries))
    ensures DialableRows(old(tx.rows), sub) && DialableEntries(entries) ==>
              (ok <==> sub in subs) && DialableRows(tx.rows, sub)
    ensures ok ==> Refreshed(old(tx.rows), tx.rows, sub, subs[sub], Kept(entries), ids, old(tx.nextId))
    ensures ok ==> ServiceKept(old(tx.rows), tx.rows, sub, subs[sub], Kept(entries))
    ensures !ok ==> tx.rows == old(tx.rows) && tx.nextId == old(tx.nextId)
  {
    hide Unique, UniqueKeys, IsPlan, TmpClear, AwayClear, HomeClear, Refreshed, Inserted, Normalized, Mid, Kept,
        DialableRows, DialableEntries, ServiceKept;
    var es := NormalizeEntries(entries);
    KeptNormalized(entries);
    if DialableRows(tx.rows, sub) && DialableEntries(entries) {
      KeptDialable(entries);
      DialableClear(tx.rows, sub, es);
    }
    if sub !in subs { return false, []; }
    var rows, nextId := tx.rows, tx.nextId;
    var byKey, byAddr := PausedKeys(rows, sub), PausedAddresses(rows, sub);
    var stale, plan := MakePlan(rows, sub, es);
    DeleteStale(tx, stale);
    ghost var rest := tx.rows;
    ghost var pos := PositionsExist(rows, sub, es, stale, plan);
    ClearIff(rows, sub, es, stale, plan, pos);
    PausedIff(rows, sub, es, pos);
    ok := MoveAway(tx, es, plan, subs[sub], byKey, sub, pos);
    if ok { ok := MoveHome(tx, es, plan, rest, subs[sub], sub, pos); }
    if !ok {
      tx.Rollback(rows, nextId);
      return false, [];
    }
    assert |plan| == |es|;
    var inherits := seq(|es|, i requires 0 <= i < |es| => PauseFor(es[i], byKey, byAddr));
    ghost var mid := tx.rows;
    HomeRows(rest, sub, es, plan, pos, subs[sub]);
    ids := InsertNew(tx, es, plan, sub, inherits, pos);
    Settled(rows, sub, subs[sub], es, stale, plan, pos, inherits, tx.rows, ids, nextId);
    KeysStayUnique(rows, tx.rows, sub, subs[sub], es, ids, nextId);
    StaysInService(rows, tx.rows, sub, subs[sub], es, ids, nextId);
    if DialableEntries(es) {
      RefreshedDialable(rows, tx.rows, sub, subs[sub], es, ids, nextId);
    }
  }
}
