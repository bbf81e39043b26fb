/** Node listing: `storage/node_api_query.go` and the connect-mode scan of
    `webui/api_v1_nodes.go`, on one snapshot of the table.  `W` stands for the
    conditions the SQL `WHERE` clause tests, `ai` for the AI reachability filter
    done in Go, `mode` for the connect-mode filter. */
module Paging {
  import opened Storage
  import opened Filtering

  const DEFAULT_LIMIT := 500
  const MAX_LIMIT := 2000

  type Filter = Proxy -> bool

  // ------------------------------------------------ the simple form

  /** `ORDER BY latency ASC, id ASC`. */
  predicate Precedes(a: Proxy, b: Proxy) {
    a.evidence.latency < b.evidence.latency || (a.evidence.latency == b.evidence.latency && a.id < b.id)
  }

  predicate Ordered(rows: seq<Proxy>) {
    forall i, j | 0 <= i < j < |rows| :: Precedes(rows[i], rows[j])
  }

  /** `LIMIT limit OFFSET offset`. */
  function Page(rows: seq<Proxy>, offset: nat, limit: nat): seq<Proxy> {
    if offset >= |rows| then []
    else if offset + limit >= |rows| then rows[offset..]
    else rows[offset..offset + limit]
  }

  /** Filtering keeps members, order and distinctness. */
  lemma {:induction false} WhereOrdered(rows: seq<Proxy>, f: Filter)
    requires Ordered(rows)
    ensures Ordered(Where(rows, f)) && |Where(rows, f)| <= |rows|
    ensures forall i | 0 <= i < |Where(rows, f)| :: Where(rows, f)[i] in rows && f(Where(rows, f)[i])
  {
    if rows != [] {
      WhereOrdered(rows[..|rows| - 1], f);
    }
  }

  // ------------------------------------------------ SQL, on an ordered snapshot

  datatype Cursor = NoCursor | Cursor(latency: int, id: int)

  predicate Past(c: Cursor, p: Proxy) {
    c.Cursor? ==> p.evidence.latency > c.latency || (p.evidence.latency == c.latency && p.id > c.id)
  }

  /** `SELECT … WHERE w AND (past the cursor) ORDER BY latency, id LIMIT limit`
      over rows kept in that order. */
  function Batch(rows: seq<Proxy>, w: Filter, c: Cursor, limit: nat): seq<Proxy> {
    Page(Where(rows, p => w(p) && Past(c, p)), 0, limit)
  }

  /** The cursor after the first `k` rows. */
  function CursorAt(all: seq<Proxy>, k: nat): Cursor
    requires k <= |all|
  {
    if k == 0 then NoCursor else Cursor(all[k - 1].evidence.latency, all[k - 1].id)
  }

  /** The rows past the cursor of position `k` are those from `k` on. */
  lemma PastIsSuffix(all: seq<Proxy>, k: nat, past: Filter)
    requires Ordered(all) && k <= |all| && forall p :: past(p) == Past(CursorAt(all, k), p)
    ensures Where(all, past) == all[k..]
  {
    hide Where, Ordered, Past, CursorAt;
    var before, after := all[..k], all[k..];
    assert all == before + after;
    WhereAppend(before, after, past);
    forall i | 0 <= i < |before| ensures !past(before[i]) {
      CursorDivides(all, k, i);
    }
    forall i | 0 <= i < |after| ensures past(after[i]) {
      CursorDivides(all, k, k + i);
    }
    WhereNone(before, past);
    WhereAll(after, past);
  }

  lemma CursorDivides(all: seq<Proxy>, k: nat, i: nat)
    requires Ordered(all) && k <= |all| && i < |all|
    ensures Past(CursorAt(all, k), all[i]) <==> i >= k
  {
    if i < k - 1 {
      assert Precedes(all[i], all[k - 1]);
    } else if 0 < k <= i {
      assert Precedes(all[k - 1], all[i]);
    }
  }

  /** A batch is the next stretch of the filtered list. */
  lemma BatchIsNext(rows: seq<Proxy>, w: Filter, k: nat)
    requires Ordered(rows) && k <= |Where(rows, w)|
    ensures var all := Where(rows, w); Batch(rows, w, CursorAt(all, k), MAX_LIMIT) == Page(all[k..], 0, MAX_LIMIT)
  {
    hide Page, Past;
    var all := Where(rows, w);
    var c := CursorAt(all, k);
    var past := (p: Proxy) => Past(c, p);
    WhereOrdered(rows, w);
    PastIsSuffix(all, k, past);
    WhereBoth(rows, w, past, p => w(p) && Past(c, p));
  }

  // ------------------------------------------------ paging

  /** `normalizeNodeAPIPaging`. */
  function NormalizeLimit(limit: int): (r: nat)
    ensures 1 <= r <= MAX_LIMIT
    ensures 1 <= limit <= MAX_LIMIT ==> r == limit
    ensures limit <= 0 ==> r == 500
    ensures limit > MAX_LIMIT ==> r == 2000
  {
    if limit <= 0 then DEFAULT_LIMIT else if limit > MAX_LIMIT then MAX_LIMIT else limit
  }

  function NormalizeOffset(offset: int): (r: nat)
    ensures offset >= 0 ==> r == offset
    ensures offset < 0 ==> r == 0
  {
    if offset < 0 then 0 else offset
  }

  /** The counters of a scan that has seen the rows `seen`. */
  predicate Scanned(page: seq<Proxy>, total: nat, seen: seq<Proxy>, f: Filter, offset: nat, limit: nat) {
    total == |Where(seen, f)| && page == Page(Where(seen, f), offset, limit)
  }

  lemma ScannedNothing(f: Filter, offset: nat, limit: nat)
    ensures Scanned([], 0, [], f, offset, limit)
  {
  }

  /** One more row: it counts if it passes, and enters the page if the offset is
      behind and there is room. */
  lemma ScannedPush(page: seq<Proxy>, total: nat, seen: seq<Proxy>, f: Filter, offset: nat, limit: nat, row: Proxy)
    requires Scanned(page, total, seen, f, offset, limit)
    ensures !f(row) ==> Scanned(page, total, seen + [row], f, offset, limit)
    ensures f(row) && (total < offset || |page| >= limit) ==> Scanned(page, total + 1, seen + [row], f, offset, limit)
    ensures f(row) && !(total < offset || |page| >= limit) ==>
              Scanned(page + [row], total + 1, seen + [row], f, offset, limit)
  {
    WherePush(seen, f, row);
    hide Where;
    var hits := Where(seen, f);
    assert Where(seen + [row], f) == if f(row) then hits + [row] else hits;
    SlicePush(hits, row, offset, limit);
  }

  lemma SlicePush(hits: seq<Proxy>, row: Proxy, offset: nat, limit: nat)
    ensures Page(hits + [row], offset, limit)
            == if |hits| < offset || |Page(hits, offset, limit)| >= limit then Page(hits, offset, limit)
               else Page(hits, offset, limit) + [row]
  {
  }

  lemma SliceSize(rows: seq<Proxy>, offset: nat, limit: nat)
    ensures offset <= |rows| ==>
              |Page(rows, offset, limit)| == if |rows| - offset < limit then |rows| - offset else limit
    ensures forall i | 0 <= i < |Page(rows, offset, limit)| ::
              offset + i < |rows| && Page(rows, offset, limit)[i] == rows[offset + i]
  {
    var page := Page(rows, offset, limit);
    if offset < |rows| {
      var end := if offset + limit >= |rows| then |rows| else offset + limit;
      assert page == rows[offset..end];
    }
  }

  /** `listNodesForAPIWithAI`: batches past a (latency, id) cursor, filtered in
      Go, until a short batch. */
  method ListWithAI(rows: seq<Proxy>, w: Filter, ai: Filter, limit: nat, offset: nat)
      returns (page: seq<Proxy>, total: nat)
    requires Ordered(rows)
    ensures Scanned(page, total, Where(rows, w), ai, offset, limit)
  {
    hide Where, Page, Batch, Ordered, Scanned;
    ghost var all := Where(rows, w);
    total, page := 0, [];
    var skipped := 0;
    var cursor := NoCursor;
    ghost var k := 0;
    ScannedNothing(ai, offset, limit);
    assert all[..0] == [];
    while true
      invariant k <= |all| && cursor == CursorAt(all, k)
      invariant Scanned(page, total, all[..k], ai, offset, limit)
      invariant skipped == if total < offset then total else offset
      decreases |all| - k
    {
      var batch := Batch(rows, w, cursor, MAX_LIMIT);
      BatchIsNext(rows, w, k);
      SliceSize(all[k..], 0, MAX_LIMIT);
      ghost var k0 := k;
      for i := 0 to |batch|
        invariant k == k0 + i <= |all| && cursor == CursorAt(all, k)
        invariant Scanned(page, total, all[..k], ai, offset, limit)
        invariant skipped == if total < offset then total else offset
      {
        var p := batch[i];
        assert p == all[k0..][0 + i] == all[k];
        cursor := Cursor(p.evidence.latency, p.id);
        assert all[..k + 1] == all[..k] + [p];
        ScannedPush(page, total, all[..k], ai, offset, limit, p);
        k := k + 1;
        if ai(p) {
          total := total + 1;
          if skipped < offset {
            skipped := skipped + 1;
          } else if |page| < limit {
            page := page + [p];
          }
        }
      }
      if |batch| < MAX_LIMIT {
        break;
      }
    }
    assert all[..|all|] == all;
  }

  /** `listNodesForAPI`: the AI scan when a service is asked for, else a count
      and one page. */
  method ListNodes(rows: seq<Proxy>, w: Filter, wantAI: bool, ai: Filter, rawLimit: int, rawOffset: int)
    returns (page: seq<Proxy>, total: nat)
    requires Ordered(rows)
    ensures total == |Selected(rows, w, wantAI, ai)|
    ensures page == Page(Selected(rows, w, wantAI, ai), NormalizeOffset(rawOffset), NormalizeLimit(rawLimit))
  {
    var limit, offset := NormalizeLimit(rawLimit), NormalizeOffset(rawOffset);
    if wantAI {
      page, total := ListWithAI(rows, w, ai, limit, offset);
    } else {
      var matching := Where(rows, w);
      total := |matching|;
      if offset >= total { return [], total; }
      page := Page(matching, offset, limit);
    }
  }

  /** Filter first, slice later. */
  function Selected(rows: seq<Proxy>, w: Filter, wantAI: bool, ai: Filter): seq<Proxy> {
    if wantAI then Where(Where(rows, w), ai) else Where(rows, w)
  }

  /** `listNodesAPIViewWithConnectFilter`: pages through the listing by offset and
      keeps the rows of one connect mode.  The handler has already refused
      negative values and limits above the maximum. */
  method ListConnected(rows: seq<Proxy>, w: Filter, wantAI: bool, ai: Filter, mode: Filter, rawLimit: nat,
                       pageOffset: nat)
    returns (nodes: seq<Proxy>, total: nat)
    requires Ordered(rows)
    ensures Scanned(nodes, total, Selected(rows, w, wantAI, ai), mode, pageOffset,
                    if rawLimit == 0 then DEFAULT_LIMIT else rawLimit)
  {
    hide Where, Page, Ordered, Scanned, Selected;
    var pageLimit := if rawLimit == 0 then DEFAULT_LIMIT else rawLimit;
    ghost var all := Selected(rows, w, wantAI, ai);
    var scanOffset := 0;
    total, nodes := 0, [];
    ScannedNothing(mode, pageOffset, pageLimit);
    assert all[..0] == [];
    while true
      invariant scanOffset <= |all| && Scanned(nodes, total, all[..scanOffset], mode, pageOffset, pageLimit)
      decreases |all| - scanOffset
    {
      var proxies, filteredTotal := ListNodes(rows, w, wantAI, ai, MAX_LIMIT, scanOffset);
      SliceSize(all, scanOffset, MAX_LIMIT);
      for i := 0 to |proxies|
        invariant scanOffset + i <= |all|
        invariant Scanned(nodes, total, all[..scanOffset + i], mode, pageOffset, pageLimit)
      {
        var p := proxies[i];
        assert all[..scanOffset + i + 1] == all[..scanOffset + i] + [p];
        ScannedPush(nodes, total, all[..scanOffset + i], mode, pageOffset, pageLimit, p);
        if mode(p) {
          total := total + 1;
          if !(total <= pageOffset || |nodes| >= pageLimit) {
            nodes := nodes + [p];
          }
        }
      }
      if |proxies| == 0 || scanOffset + |proxies| >= filteredTotal {
        assert all[..scanOffset + |proxies|] == all;
        break;
      }
      scanOffset := scanOffset + |proxies|;
    }
  }
}
