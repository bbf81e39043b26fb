/** What `Resolve` returns, on every path and in every interleaving, and what
    the retry loops of `proxy/server.go` get from it. */
module BindResult {
  import opened Wrappers
  import opened Text
  import opened Affinity
  import opened Storage
  import opened BindProtocol

  /** The row is available, serves the requested region and every unlock
      token, and was not dialed before. */
  predicate Suitable(row: Proxy, route: Username, tried: seq<ProxyId>) {
    && Available(row)
    && (NormalizeRegion(route.region) == "" || NormalizeRegion(row.region) == NormalizeRegion(route.region))
    && MatchesUnlock(row, route.unlock)
    && row.id !in tried
  }

  /** The row was read from a database state of this call. */
  predicate ReadAt(history: seq<Db>, begun: nat, row: Proxy, at: nat) {
    begun <= at < |history| && row.id in history[at].rows && history[at].rows[row.id] == row
  }

  /** So was its parent, no earlier, and it was not paused. */
  predicate SeenWell(history: seq<Db>, begun: nat, row: Proxy, seen: Seen) {
    ReadAt(history, begun, row, seen.rowAt) && seen.rowAt <= seen.parentAt < |history|
    && !PausedParent(history[seen.parentAt], row)
  }

  predicate AllWell(history: seq<Db>, th: Thread, rows: seq<Proxy>, at: nat) {
    forall i | 0 <= i < |rows| ::
      Suitable(rows[i], th.route, th.tried) && SeenWell(history, th.begun, rows[i], Seen(at, at))
  }

  predicate Well(history: seq<Db>, th: Thread, row: Proxy, seen: Seen) {
    Suitable(row, th.route, th.tried) && SeenWell(history, th.begun, row, seen)
  }

  /** What a thread knows at each program counter. */
  predicate ThreadInv(history: seq<Db>, th: Thread) {
    match th.pc
    case PlainChoose(rows, at) => AllWell(history, th, rows, at)
    case PinParent(row, at) => Suitable(row, th.route, th.tried) && ReadAt(history, th.begun, row, at)
    case StickyParent(row, at, _) => Suitable(row, th.route, th.tried) && ReadAt(history, th.begun, row, at)
    case PinWait(row, seen) => Well(history, th, row, seen)
    case PinGet(row, seen) => Well(history, th, row, seen)
    case PinCount(row, seen) => Well(history, th, row, seen)
    case PinCool(row, seen) => Well(history, th, row, seen)
    case Bind(row, seen) => Well(history, th, row, seen)
    case ReadNow(row, seen) => Well(history, th, row, seen)
    case SetCool(row, seen, _) => Well(history, th, row, seen)
    case Done(row, seen) => Well(history, th, row, seen)
    case ReleaseRemove(region) => th.route.region != "" ==> region == th.route.region
    case Query(region) => th.route.region != "" ==> region == th.route.region
    case Occupancy(todo, kept, at) => AllWell(history, th, todo, at) && AllWell(history, th, kept, at)
    case Cooldown(todo, kept, at) => AllWell(history, th, todo, at) && AllWell(history, th, kept, at)
    case Choose(rows, at) => AllWell(history, th, rows, at)
    case _ => true
  }

  predicate DistinctIds(tried: seq<ProxyId>) {
    forall i, j | 0 <= i < j < |tried| :: tried[i] != tried[j]
  }

  /** The attempt serves what the client asked for; only a missing region may
      be filled in. */
  predicate Serves(th: Thread) {
    th.route.(region := th.asked.region) == th.asked && (th.asked.region != "" ==> th.route == th.asked)
  }

  predicate ResultInv(s: Sys) {
    forall t | t in s.threads ::
      && s.threads[t].begun < |s.history| && ThreadInv(s.history, s.threads[t])
      && DistinctIds(s.threads[t].tried) && Serves(s.threads[t])
  }

  // ------------------------------------------------ reading rows

  /** A row of a region query that passes the unlock filter is suitable, and its
      parent was not paused in the same database state. */
  lemma QueryRowWell(history: seq<Db>, th: Thread, region: string, row: Proxy, at: nat)
    requires th.begun <= at < |history|
    requires th.route.region != "" ==> region == th.route.region
    requires InRegion(history[at], region, th.tried, row) && MatchesUnlock(row, th.route.unlock)
    ensures Well(history, th, row, Seen(at, at))
  {
    NormalizeRegionIdempotent(region);
    if th.route.region == "" {
      assert NormalizeRegion("") == "";
    }
  }

  lemma {:induction false} EligibleWell(history: seq<Db>, th: Thread, region: string, list: seq<Proxy>, at: nat)
    requires th.begun <= at < |history|
    requires th.route.region != "" ==> region == th.route.region
    requires forall i | 0 <= i < |list| :: InRegion(history[at], region, th.tried, list[i])
    ensures AllWell(history, th, Eligible(list, th.route), at)
  {
    if list != [] {
      EligibleWell(history, th, region, list[1..], at);
      if MatchesUnlock(list[0], th.route.unlock) {
        QueryRowWell(history, th, region, list[0], at);
      }
    }
  }

  /** A row that fits is suitable. */
  lemma FitsSuitable(row: Proxy, th: Thread)
    requires Fits(row, th)
    ensures Suitable(row, th.route, th.tried)
  {
    assert NormalizeRegion("") == "";
  }

  lemma ActiveParentNotPaused(db: Db, row: Proxy)
    requires row.route.subscriptionId <= 0 || ReadParent(db, row.route.subscriptionId) == ParentActive
    ensures !PausedParent(db, row)
  {
  }

  // ------------------------------------------------ thread steps

  /** Steps that read the database. */
  lemma ReadingStep(cfg: Config, st: State, now: int, history: seq<Db>, th: Thread, c: Choice)
    requires |history| > 0 && history[|history| - 1].Valid() && th.begun < |history| && ThreadInv(history, th)
    requires Admissible(th, history[|history| - 1], c)
    requires th.pc.Start? || th.pc.PinParent? || th.pc.StickyRow? || th.pc.StickyParent? || th.pc.Query?
    ensures ThreadInv(history, th.(pc := NextPc(cfg, st, now, history[|history| - 1], |history| - 1, th, c)))
  {
    hide ThreadInv, NextPc, Admissible;
    if th.pc.Start? {
      StartStep(cfg, st, now, history, th, c);
    } else if th.pc.Query? {
      QueryStep(cfg, st, now, history, th, c);
    } else if th.pc.StickyRow? {
      StickyRowStep(cfg, st, now, history, th, c);
    } else {
      ParentStep(cfg, st, now, history, th, c);
    }
  }

  lemma StartStep(cfg: Config, st: State, now: int, history: seq<Db>, th: Thread, c: Choice)
    requires |history| > 0 && history[|history| - 1].Valid() && th.begun < |history| && ThreadInv(history, th)
    requires Admissible(th, history[|history| - 1], c)
    requires th.pc.Start?
    ensures ThreadInv(history, th.(pc := NextPc(cfg, st, now, history[|history| - 1], |history| - 1, th, c)))
  {
    hide Suitable, PausedParent, Fits, Eligible, InRegion, IsPinned;
    var at := |history| - 1;
    var db := history[at];
    if th.route.node != "" {
      if c.Pick? && Fits(c.picked, th) {
        FitsSuitable(c.picked, th);
        PinnedRead(db, th.route.node, c.picked);
        if c.picked.route.subscriptionId <= 0 { ActiveParentNotPaused(db, c.picked); }
      }
    } else if c.Rows? && th.route.session == "" {
      EligibleWell(history, th, th.route.region, c.list, at);
    }
  }

  lemma QueryStep(cfg: Config, st: State, now: int, history: seq<Db>, th: Thread, c: Choice)
    requires |history| > 0 && history[|history| - 1].Valid() && th.begun < |history| && ThreadInv(history, th)
    requires Admissible(th, history[|history| - 1], c)
    requires th.pc.Query?
    ensures ThreadInv(history, th.(pc := NextPc(cfg, st, now, history[|history| - 1], |history| - 1, th, c)))
  {
    hide Suitable, SeenWell, Eligible, InRegion;
    if c.Rows? {
      EligibleWell(history, th, th.pc.region, c.list, |history| - 1);
    }
  }

  lemma StickyRowStep(cfg: Config, st: State, now: int, history: seq<Db>, th: Thread, c: Choice)
    requires |history| > 0 && history[|history| - 1].Valid() && th.begun < |history| && ThreadInv(history, th)
    requires Admissible(th, history[|history| - 1], c)
    requires th.pc.StickyRow?
    ensures ThreadInv(history, th.(pc := NextPc(cfg, st, now, history[|history| - 1], |history| - 1, th, c)))
  {
    hide Suitable, PausedParent, Fits;
    var db, id := history[|history| - 1], th.pc.binding.proxyId;
    if id in db.rows && Fits(db.rows[id], th) {
      FitsSuitable(db.rows[id], th);
      if db.rows[id].route.subscriptionId <= 0 { ActiveParentNotPaused(db, db.rows[id]); }
    }
  }

  lemma ParentStep(cfg: Config, st: State, now: int, history: seq<Db>, th: Thread, c: Choice)
    requires |history| > 0 && history[|history| - 1].Valid() && th.begun < |history| && ThreadInv(history, th)
    requires Admissible(th, history[|history| - 1], c)
    requires th.pc.PinParent? || th.pc.StickyParent?
    ensures ThreadInv(history, th.(pc := NextPc(cfg, st, now, history[|history| - 1], |history| - 1, th, c)))
  {
    hide Suitable, PausedParent;
    var db := history[|history| - 1];
    if ReadParent(db, th.pc.row.route.subscriptionId) == ParentActive {
      ActiveParentNotPaused(db, th.pc.row);
    }
  }

  lemma PinnedRead(db: Db, node: string, row: Proxy)
    requires IsPinned(db, node, row)
    ensures row.id in db.rows && db.rows[row.id] == row
  {
  }

  /** Steps that work on the store or pick among the rows at hand. */
  lemma StoreStep(cfg: Config, st: State, now: int, history: seq<Db>, th: Thread, c: Choice)
    requires |history| > 0 && ThreadInv(history, th) && Admissible(th, history[|history| - 1], c)
    requires !th.pc.Start? && !th.pc.PinParent? && !th.pc.StickyRow? && !th.pc.StickyParent? && !th.pc.Query?
    ensures ThreadInv(history, th.(pc := NextPc(cfg, st, now, history[|history| - 1], |history| - 1, th, c)))
  {
    hide ThreadInv, NextPc, Admissible;
    if th.pc.PlainChoose? || th.pc.Choose? {
      ChooseStep(cfg, st, now, history, th, c);
    } else if th.pc.Occupancy? || th.pc.Cooldown? {
      FilterStep(cfg, st, now, history, th, c);
    } else {
      RowStep(cfg, st, now, history, th, c);
    }
  }

  lemma ChooseStep(cfg: Config, st: State, now: int, history: seq<Db>, th: Thread, c: Choice)
    requires |history| > 0 && ThreadInv(history, th) && Admissible(th, history[|history| - 1], c)
    requires th.pc.PlainChoose? || th.pc.Choose?
    ensures ThreadInv(history, th.(pc := NextPc(cfg, st, now, history[|history| - 1], |history| - 1, th, c)))
  {
    hide Suitable, SeenWell, LatencyRank;
    if th.pc.PlainChoose? {
      var i :| 0 <= i < |th.pc.plain| && th.pc.plain[i] == c.picked;
    } else {
      var i :| 0 <= i < |th.pc.candidates| && th.pc.candidates[i] == c.picked;
    }
  }

  lemma FilterStep(cfg: Config, st: State, now: int, history: seq<Db>, th: Thread, c: Choice)
    requires |history| > 0 && ThreadInv(history, th) && (th.pc.Occupancy? || th.pc.Cooldown?)
    ensures ThreadInv(history, th.(pc := NextPc(cfg, st, now, history[|history| - 1], |history| - 1, th, c)))
  {
    hide Suitable, SeenWell, LiveHolders, Cooling;
  }

  lemma RowStep(cfg: Config, st: State, now: int, history: seq<Db>, th: Thread, c: Choice)
    requires |history| > 0 && ThreadInv(history, th)
    requires !th.pc.Start? && !th.pc.PinParent? && !th.pc.StickyRow? && !th.pc.StickyParent? && !th.pc.Query?
    requires !th.pc.PlainChoose? && !th.pc.Choose? && !th.pc.Occupancy? && !th.pc.Cooldown?
    ensures ThreadInv(history, th.(pc := NextPc(cfg, st, now, history[|history| - 1], |history| - 1, th, c)))
  {
    hide Suitable, SeenWell, GetResult, LiveHolders, Cooling, RegionMismatch, Fits, Eligible, ReadParent;
  }

  // ------------------------------------------------ system steps

  lemma HistoryGrows(history: seq<Db>, db: Db, th: Thread)
    requires ThreadInv(history, th)
    ensures ThreadInv(history + [db], th)
  {
    hide Suitable, PausedParent;
    assert forall i | 0 <= i < |history| :: (history + [db])[i] == history[i];
  }

  lemma ResultStep(cfg: Config, s: Sys, a: Action)
    requires Enabled(s, a) && ResultInv(s)
    ensures ResultInv(Step(cfg, s, a))
  {
    hide ThreadInv, NextPc, NextStore, Admissible, DistinctIds;
    var s' := Step(cfg, s, a);
    forall t | t in s'.threads
      ensures s'.threads[t].begun < |s'.history| && ThreadInv(s'.history, s'.threads[t])
      ensures DistinctIds(s'.threads[t].tried) && Serves(s'.threads[t])
    {
      if a.Run? && t == a.tid {
        ThreadStep(cfg, s, s.threads[t], a.choice);
      } else if a.Write? {
        HistoryGrows(s.history, a.db, s.threads[t]);
      } else if a.DialFails? && t == a.tid {
        DialedOnce(s.history, s.threads[t]);
        Trivial(s'.history, s'.threads[t]);
      } else if (a.Begin? || a.Finish?) && t == a.tid {
        Trivial(s'.history, s'.threads[t]);
      }
    }
  }

  lemma ThreadStep(cfg: Config, s: Sys, th: Thread, c: Choice)
    requires WellFormed(s) && ThreadInv(s.history, th) && th.begun < |s.history| && Admissible(th, Current(s), c)
    ensures ThreadInv(s.history, th.(pc := NextPc(cfg, s.store, s.now, Current(s), |s.history| - 1, th, c)))
  {
    hide ThreadInv, NextPc, Admissible;
    if th.pc.Start? || th.pc.PinParent? || th.pc.StickyRow? || th.pc.StickyParent? || th.pc.Query? {
      ReadingStep(cfg, s.store, s.now, s.history, th, c);
    } else {
      StoreStep(cfg, s.store, s.now, s.history, th, c);
    }
  }

  lemma Trivial(history: seq<Db>, th: Thread)
    requires th.pc.Start? || th.pc.Idle? || th.pc.Failed?
    ensures ThreadInv(history, th)
    ensures DistinctIds([])
  {
  }

  /** The node a request is about to dial is none it dialed before. */
  lemma DialedOnce(history: seq<Db>, th: Thread)
    requires th.pc.Done? && ThreadInv(history, th) && DistinctIds(th.tried)
    ensures DistinctIds(th.tried + [th.pc.row.id])
  {
  }

  lemma DoneWell(s: Sys)
    requires ResultInv(s)
    ensures forall t | t in s.threads && s.threads[t].pc.Done? ::
              var th := s.threads[t]; Serves(th) && Well(s.history, th, th.pc.row, th.pc.seen)
    ensures forall t | t in s.threads :: DistinctIds(s.threads[t].tried)
  {
    hide Serves, DistinctIds, Well;
  }

  /** In every run: a node that `Resolve` returns is available, matches the
      region in force and every unlock token, was not tried before, and had no
      paused parent when looked at during the call; a region the client asked
      for is in force on every attempt; and no request dials the same node
      twice. */
  lemma {:induction false} ResultInEveryRun(cfg: Config, run: seq<Sys>, actions: seq<Action>, k: nat)
    requires IsRun(cfg, run, actions) && k < |run|
    ensures ResultInv(run[k])
    ensures forall t | t in run[k].threads && run[k].threads[t].pc.Done? ::
              var th := run[k].threads[t]; Serves(th) && Well(run[k].history, th, th.pc.row, th.pc.seen)
    ensures forall t | t in run[k].threads :: DistinctIds(run[k].threads[t].tried)
    decreases k
  {
    if k > 0 {
      hide IsRun, Enabled, Step, Serves, DistinctIds, Well;
      ResultInEveryRun(cfg, run, actions, k - 1);
      RunStep(cfg, run, actions, k - 1);
      ResultStep(cfg, run[k - 1], actions[k - 1]);
      DoneWell(run[k]);
    } else {
      DoneWell(run[0]);
    }
  }

  // ------------------------------------------------ bindings over runs

  /** The steps that may cost a session its live binding: its own release of a
      stale binding, its own new binding, and a dial of its own that failed on
      the very node it is bound to. */
  predicate Loses(s: Sys, a: Action, session: Session) {
    (a.Run? || a.DialFails?) && a.tid in s.threads && s.threads[a.tid].route.session == session
    && GivesUp(s.store, s.threads[a.tid].pc, a, session)
  }

  predicate GivesUp(st: State, pc: Pc, a: Action, session: Session) {
    || (a.Run? && (pc.ReleaseRemove? || pc.Bind?))
    || (a.DialFails? && pc.Done? && BoundTo(st, session, pc.row.id))
  }

  predicate BoundTo(st: State, session: Session, p: ProxyId) {
    session in st.bindings && st.bindings[session].proxyId == p
  }

  lemma ThreadKeepsBinding(st: State, now: int, th: Thread, session: Session)
    requires Live(st, session, now)
    requires th.route.session == session ==> !th.pc.ReleaseRemove? && !th.pc.Bind?
    ensures BoundTo(NextStore(st, now, th), session, st.bindings[session].proxyId)
  {
  }

  lemma BoundNow(st: State, session: Session)
    requires session in st.bindings
    ensures BoundTo(st, session, st.bindings[session].proxyId)
  {
  }

  /** The session has no binding that has expired. */
  predicate Unexpired(s: Sys, session: Session) {
    session in s.store.bindings ==> Live(s.store, session, s.now)
  }

  lemma BindingStep(cfg: Config, s: Sys, a: Action, session: Session, p: ProxyId)
    requires Enabled(s, a) && BoundTo(s.store, session, p) && Unexpired(s, session) && !Loses(s, a, session)
    ensures BoundTo(Step(cfg, s, a).store, session, p)
  {
    hide NextPc, NextStore, Admissible;
    if a.Run? {
      ThreadKeepsBinding(s.store, s.now, s.threads[a.tid], session);
    }
  }

  /** In every run a binding that does not expire lasts until its own session
      gives it up: failed dials on other nodes or of other sessions, counting,
      the GC and TTL changes never cost a session its node. */
  lemma {:induction false} BindingInEveryRun(cfg: Config, run: seq<Sys>, actions: seq<Action>, i: nat, j: nat,
                                             session: Session)
    requires IsRun(cfg, run, actions) && i <= j < |run| && session in run[i].store.bindings
    requires forall k | i <= k < j :: Unexpired(run[k], session) && !Loses(run[k], actions[k], session)
    ensures BoundTo(run[j].store, session, run[i].store.bindings[session].proxyId)
    decreases j
  {
    hide IsRun, Enabled, Step, Loses, Unexpired, BoundTo;
    var p := run[i].store.bindings[session].proxyId;
    BoundNow(run[i].store, session);
    if i < j {
      BindingInEveryRun(cfg, run, actions, i, j - 1, session);
      RunStep(cfg, run, actions, j - 1);
      var k := j - 1;
      assert Unexpired(run[k], session) && !Loses(run[k], actions[k], session);
      BindingStep(cfg, run[k], actions[k], session, p);
    }
  }
}
