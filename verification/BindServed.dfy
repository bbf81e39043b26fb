/** Availability: a call fails only for a reason, a returned node was bound to the
    session, and a session that is moved stays in its region. */
module BindServed {
  import opened Wrappers
  import opened Text
  import opened Affinity
  import opened Storage
  import opened BindProtocol
  import opened BindResult

  // ------------------------------------------------ calls do not fail without a reason

  predicate AcceptsRegion(asked: string, region: string) {
    NormalizeRegion(asked) == "" || NormalizeRegion(asked) == region == NormalizeRegion(region)
  }

  /** Row `q`, in region `region` and subscription `g`, can serve the request: it
      is suitable, has room and does not cool. */
  predicate Offers(cfg: Config, s: Sys, th: Thread, q: ProxyId, region: string, g: int) {
    && WellFormed(s) && q in Current(s).rows && q !in th.tried
    && RowOffers(Current(s), Current(s).rows[q], th, q, region, g)
    && (cfg.limit > 0 ==> |LiveHolders(s.store, q, s.now)| < cfg.limit)
    && (cfg.cooldown > 0 ==> !Cooling(s.store, q, s.now))
    && AcceptsRegion(th.route.region, region)
    && (Live(s.store, th.route.session, s.now) ==> AcceptsRegion(s.store.bindings[th.route.session].region, region))
  }

  predicate RowOffers(db: Db, row: Proxy, th: Thread, q: ProxyId, region: string, g: int) {
    && Available(row) && MatchesUnlock(row, th.route.unlock) && SelectableScope(db, row)
    && row.region == region && row.route.subscriptionId == g && (g > 0 ==> ReadParent(db, g) == ParentActive)
    && (th.route.node != "" ==> Matching(db, th.route.node) == {q} && !RegionMismatch(region, th.route.region))
  }

  /** The thread's reads are answered: a pinned lookup by its row, a listing by
      rows, the others without a fault. */
  predicate Answered(th: Thread, c: Choice) {
    && !c.Fault?
    && (th.pc.Start? && th.route.node != "" ==> c.Pick?)
    && (th.pc.Start? && th.route.node == "" && th.route.session == "" ==> c.Rows?)
    && (th.pc.Query? ==> c.Rows?)
  }

  predicate Offered(cfg: Config, s: Sys, a: Action, t: Tid, q: ProxyId, region: string, g: int) {
    && t in s.threads && Offers(cfg, s, s.threads[t], q, region, g)
    && (a.Begin? || a.DialFails? || a.Finish? ==> a.tid != t)
    && (a.Run? && a.tid == t ==> Answered(s.threads[t], a.choice))
  }

  predicate HasId(rows: seq<Proxy>, q: ProxyId) {
    exists i | 0 <= i < |rows| :: rows[i].id == q
  }

  /** Row `q` is still among the thread's possibilities. */
  predicate StillServed(pc: Pc, q: ProxyId, region: string, g: int) {
    match pc
    case Idle => false
    case Failed => false
    case PinParent(row, _) => row.id == q && row.route.subscriptionId == g > 0
    case PinWait(row, _) => row.id == q
    case PinGet(row, _) => row.id == q
    case PinCount(row, _) => row.id == q
    case PinCool(row, _) => row.id == q
    case ReleaseRemove(wanted) => AcceptsRegion(wanted, region)
    case Query(wanted) => AcceptsRegion(wanted, region)
    case Occupancy(todo, kept, _) => HasId(todo, q) || HasId(kept, q)
    case Cooldown(todo, kept, _) => HasId(todo, q) || HasId(kept, q)
    case _ => true
  }

  lemma {:induction false} EligibleComplete(list: seq<Proxy>, route: Username, row: Proxy)
    requires row in list && Available(row) && MatchesUnlock(row, route.unlock)
    ensures HasId(Eligible(list, route), row.id)
  {
    hide Available, MatchesUnlock;
    var rest := Eligible(list[1..], route);
    if list[0] == row {
      assert Eligible(list, route)[0] == row;
    } else {
      EligibleComplete(list[1..], route, row);
      var i :| 0 <= i < |rest| && rest[i].id == row.id;
      var k := |Eligible(list, route)| - |rest|;
      assert Eligible(list, route)[k + i] == rest[i];
    }
  }

  /** A listing of the region holds the row, and the unlock filter keeps it. */
  lemma ListingServes(list: seq<Proxy>, db: Db, wanted: string, th: Thread, q: ProxyId, region: string, g: int)
    requires db.Valid() && q in db.rows && q !in th.tried && RowOffers(db, db.rows[q], th, q, region, g)
    requires AcceptsRegion(wanted, region) && ListsRegion(list, db, wanted, th.tried)
    ensures HasId(Eligible(list, th.route), q)
  {
    hide Available, MatchesUnlock, SelectableScope, ReadParent, NormalizeRegion, Matching;
    assert InRegion(db, wanted, th.tried, db.rows[q]);
    EligibleComplete(list, th.route, db.rows[q]);
  }

  lemma PinServes(s: Sys, th: Thread, row: Proxy, q: ProxyId, region: string, g: int)
    requires WellFormed(s) && q in Current(s).rows && q !in th.tried && th.route.node != ""
    requires RowOffers(Current(s), Current(s).rows[q], th, q, region, g) && AcceptsRegion(th.route.region, region)
    requires IsPinned(Current(s), th.route.node, row)
    ensures row.id == q && Fits(row, th) && row.route.subscriptionId == g
  {
    hide Available, MatchesUnlock, SelectableScope, ReadParent, NormalizeRegion, Matching, RegionMismatch;
    assert q in Matching(Current(s), th.route.node);
    assert Matching(Current(s), th.route.node) == {row.id};
  }

  lemma StartServed(cfg: Config, s: Sys, th: Thread, c: Choice, q: ProxyId, region: string, g: int)
    requires Offers(cfg, s, th, q, region, g) && th.pc.Start? && Answered(th, c) && Admissible(th, Current(s), c)
    ensures StillServed(NextPc(cfg, s.store, s.now, Current(s), |s.history| - 1, th, c), q, region, g)
  {
    hide RowOffers, AcceptsRegion, Fits, Eligible, IsPinned, ListsRegion, LiveHolders, Cooling, HasId;
    if th.route.node != "" {
      PinServes(s, th, c.picked, q, region, g);
    } else if th.route.session == "" {
      ListingServes(c.list, Current(s), th.route.region, th, q, region, g);
      HasSome(Eligible(c.list, th.route), q);
    }
  }

  lemma HasSome(rows: seq<Proxy>, q: ProxyId)
    ensures HasId(rows, q) ==> rows != []
    ensures !HasId([], q)
  {
  }

  lemma QueryServed(cfg: Config, s: Sys, th: Thread, c: Choice, q: ProxyId, region: string, g: int)
    requires Offers(cfg, s, th, q, region, g) && th.pc.Query? && Answered(th, c) && Admissible(th, Current(s), c)
    requires StillServed(th.pc, q, region, g)
    ensures StillServed(NextPc(cfg, s.store, s.now, Current(s), |s.history| - 1, th, c), q, region, g)
  {
    hide RowOffers, AcceptsRegion, Eligible, ListsRegion, LiveHolders, Cooling, HasId;
    ListingServes(c.list, Current(s), th.pc.region, th, q, region, g);
    HasSome(Eligible(c.list, th.route), q);
  }

  /** Looking at the next row loses `q` only if `q` is that row and is refused. */
  lemma FilterKeeps(todo: seq<Proxy>, kept: seq<Proxy>, keep: bool, q: ProxyId)
    requires todo != [] && (HasId(todo, q) || HasId(kept, q)) && (todo[0].id == q ==> keep)
    ensures HasId(todo[1..], q) || HasId(if keep then kept + [todo[0]] else kept, q)
  {
    if HasId(kept, q) {
      var i :| 0 <= i < |kept| && kept[i].id == q;
      assert keep ==> (kept + [todo[0]])[i] == kept[i];
    } else {
      var i :| 0 <= i < |todo| && todo[i].id == q;
      if i == 0 {
        assert (kept + [todo[0]])[|kept|] == todo[0];
      } else {
        assert todo[1..][i - 1] == todo[i];
      }
    }
  }

  lemma FilterServed(cfg: Config, s: Sys, th: Thread, c: Choice, q: ProxyId, region: string, g: int)
    requires Offers(cfg, s, th, q, region, g) && (th.pc.Occupancy? || th.pc.Cooldown?)
    requires FiltersOn(cfg, th.pc) && StillServed(th.pc, q, region, g)
    ensures StillServed(NextPc(cfg, s.store, s.now, Current(s), |s.history| - 1, th, c), q, region, g)
  {
    hide RowOffers, AcceptsRegion, LiveHolders, Cooling, HasId;
    var todo, kept := th.pc.todo, th.pc.kept;
    HasSome(kept, q);
    if todo != [] {
      var keep := if th.pc.Occupancy? then |LiveHolders(s.store, todo[0].id, s.now)| < cfg.limit
                  else !Cooling(s.store, todo[0].id, s.now);
      FilterKeeps(todo, kept, keep, q);
    }
  }

  lemma OtherServed(cfg: Config, s: Sys, th: Thread, c: Choice, q: ProxyId, region: string, g: int)
    requires Offers(cfg, s, th, q, region, g) && Running(th.pc) && Answered(th, c)
    requires !th.pc.Start? && !th.pc.Query? && !th.pc.Occupancy? && !th.pc.Cooldown?
    requires FiltersOn(cfg, th.pc) && StillServed(th.pc, q, region, g)
    ensures StillServed(NextPc(cfg, s.store, s.now, Current(s), |s.history| - 1, th, c), q, region, g)
  {
    hide AcceptsRegion, LiveHolders, Cooling, HasId, Fits, RegionMismatch, Available, MatchesUnlock, SelectableScope,
        Matching;
  }

  /** Filters run only if they are switched on. */
  predicate FiltersOn(cfg: Config, pc: Pc) {
    (pc.Occupancy? || pc.PinCount? ==> cfg.limit > 0) && (pc.Cooldown? || pc.PinCool? ==> cfg.cooldown > 0)
  }

  lemma FiltersStayOn(cfg: Config, st: State, now: int, db: Db, at: nat, th: Thread, c: Choice)
    requires FiltersOn(cfg, th.pc)
    ensures FiltersOn(cfg, NextPc(cfg, st, now, db, at, th, c))
  {
    hide Fits, Eligible, LiveHolders, Cooling, GetResult, RegionMismatch, ReadParent;
  }

  lemma ServedStep(cfg: Config, s: Sys, a: Action, t: Tid, q: ProxyId, region: string, g: int)
    requires Enabled(s, a) && Offered(cfg, s, a, t, q, region, g)
    requires StillServed(s.threads[t].pc, q, region, g) && FiltersOn(cfg, s.threads[t].pc)
    ensures var s' := Step(cfg, s, a);
            t in s'.threads && StillServed(s'.threads[t].pc, q, region, g) && FiltersOn(cfg, s'.threads[t].pc)
  {
    hide NextPc, NextStore, Admissible, Offers, StillServed, FiltersOn, Answered;
    if a.Run? && a.tid == t {
      var th := s.threads[t];
      FiltersStayOn(cfg, s.store, s.now, Current(s), |s.history| - 1, th, a.choice);
      if th.pc.Start? {
        StartServed(cfg, s, th, a.choice, q, region, g);
      } else if th.pc.Query? {
        QueryServed(cfg, s, th, a.choice, q, region, g);
      } else if th.pc.Occupancy? || th.pc.Cooldown? {
        FilterServed(cfg, s, th, a.choice, q, region, g);
      } else {
        OtherServed(cfg, s, th, a.choice, q, region, g);
      }
    }
  }

  /** In every run a call does not fail as long as one node stays suitable, with
      room and not cooling, and the reads are answered. */
  lemma {:induction false} ServedInEveryRun(cfg: Config, run: seq<Sys>, actions: seq<Action>, t: Tid, q: ProxyId,
                                            region: string, g: int, i: nat, j: nat)
    requires IsRun(cfg, run, actions) && i <= j < |run| && t in run[i].threads && run[i].threads[t].pc.Start?
    requires forall k | i <= k < j :: Offered(cfg, run[k], actions[k], t, q, region, g)
    ensures t in run[j].threads && !run[j].threads[t].pc.Failed?
    ensures StillServed(run[j].threads[t].pc, q, region, g) && FiltersOn(cfg, run[j].threads[t].pc)
    decreases j
  {
    hide IsRun, Enabled, Step, Offered;
    if i < j {
      ServedInEveryRun(cfg, run, actions, t, q, region, g, i, j - 1);
      RunStep(cfg, run, actions, j - 1);
      ServedStep(cfg, run[j - 1], actions[j - 1], t, q, region, g);
    }
  }

  // ------------------------------------------------ returned nodes were bound

  predicate LiveOn(s: Sys, session: Session, p: ProxyId) {
    Live(s.store, session, s.now) && s.store.bindings[session].proxyId == p
  }

  /** The node a thread is about to return because its session is bound to it. */
  function Claims(pc: Pc): Option<ProxyId> {
    match pc
    case StickyRow(b, _) => Some(b.proxyId)
    case StickyParent(row, _, _) => Some(row.id)
    case ReadNow(row, _) => Some(row.id)
    case SetCool(row, _, _) => Some(row.id)
    case Done(row, _) => Some(row.id)
    case _ => None
  }

  /** A claim is carried over, read off the store, or made by binding. */
  lemma ClaimStep(cfg: Config, s: Sys, th: Thread, c: Choice, p: ProxyId)
    requires WellFormed(s) && Running(th.pc) && !th.pc.PlainChoose? && th.route.session != ""
    requires Claims(NextPc(cfg, s.store, s.now, Current(s), |s.history| - 1, th, c)) == Some(p)
    ensures Claims(th.pc) == Some(p) || LiveOn(s, th.route.session, p) || (th.pc.Bind? && th.pc.row.id == p)
  {
    hide Fits, Eligible, LiveHolders, Cooling, RegionMismatch, ReadParent;
    assert Current(s).Valid();
  }

  /** Only a request without a session picks freely. */
  lemma PlainHasNoSession(cfg: Config, st: State, now: int, db: Db, at: nat, th: Thread, c: Choice)
    requires th.pc.PlainChoose? ==> th.route.session == ""
    ensures NextPc(cfg, st, now, db, at, th, c).PlainChoose? ==> th.route.session == ""
  {
    hide Fits, Eligible, LiveHolders, Cooling, RegionMismatch, ReadParent, GetResult;
  }

  lemma BindMakesLive(cfg: Config, s: Sys, a: Action)
    requires Enabled(s, a) && a.Run? && s.threads[a.tid].pc.Bind?
    ensures LiveOn(Step(cfg, s, a), s.threads[a.tid].route.session, s.threads[a.tid].pc.row.id)
  {
    hide NextPc, Admissible;
  }

  /** A step that is not a new attempt of the thread. */
  predicate StaysInCall(a: Action, t: Tid) {
    a.Begin? || a.DialFails? || a.Finish? ==> a.tid != t
  }

  predicate SeenLive(run: seq<Sys>, i: nat, j: nat, session: Session, p: ProxyId)
    requires j < |run|
  {
    exists k | i <= k <= j :: LiveOn(run[k], session, p)
  }

  lemma ClaimInCall(cfg: Config, s: Sys, a: Action, t: Tid, p: ProxyId)
    requires Enabled(s, a) && StaysInCall(a, t) && t in s.threads && s.threads[t].route.session != ""
    requires !s.threads[t].pc.PlainChoose?
    ensures var s' := Step(cfg, s, a); t in s'.threads && s'.threads[t].route == s.threads[t].route
    ensures !Step(cfg, s, a).threads[t].pc.PlainChoose?
    ensures Claims(Step(cfg, s, a).threads[t].pc) == Some(p) ==>
              || Claims(s.threads[t].pc) == Some(p)
              || LiveOn(s, s.threads[t].route.session, p)
              || LiveOn(Step(cfg, s, a), s.threads[t].route.session, p)
  {
    hide NextPc, NextStore, Admissible, LiveOn, Claims;
    if a.Run? && a.tid == t {
      var th := s.threads[t];
      PlainHasNoSession(cfg, s.store, s.now, Current(s), |s.history| - 1, th, a.choice);
      if Claims(Step(cfg, s, a).threads[t].pc) == Some(p) {
        ClaimStep(cfg, s, th, a.choice, p);
        if th.pc.Bind? {
          BindMakesLive(cfg, s, a);
        }
      }
    }
  }

  /** In every run, a node returned to a request with a session was that
      session's live binding at some moment of the call. */
  lemma {:induction false} ReturnedWasBoundInEveryRun(cfg: Config, run: seq<Sys>, actions: seq<Action>, t: Tid,
                                                      i: nat, j: nat)
    requires IsRun(cfg, run, actions) && |run| == |actions| + 1 && i <= j < |run| && t in run[i].threads
    requires run[i].threads[t].pc.Start? && run[i].threads[t].route.session != ""
    requires forall k | i <= k < j :: StaysInCall(actions[k], t)
    ensures t in run[j].threads && run[j].threads[t].route == run[i].threads[t].route
    ensures !run[j].threads[t].pc.PlainChoose?
    ensures Claims(run[j].threads[t].pc).Some? ==>
              SeenLive(run, i, j, run[i].threads[t].route.session, Claims(run[j].threads[t].pc).value)
    decreases j
  {
    hide IsRun, Enabled, Step, StaysInCall, LiveOn, Claims, SeenLive;
    if i < j {
      ReturnedWasBoundInEveryRun(cfg, run, actions, t, i, j - 1);
      RunStep(cfg, run, actions, j - 1);
      ThreadStays(cfg, run[j - 1], actions[j - 1], t);
      var claim := Claims(run[j].threads[t].pc);
      var p := if claim.Some? then claim.value else 0;
      ClaimInCall(cfg, run[j - 1], actions[j - 1], t, p);
      if claim.Some? {
        SeenLonger(run, i, j, run[i].threads[t].route.session, p, Claims(run[j - 1].threads[t].pc));
      }
    } else {
      NoClaimYet(run[i].threads[t].pc);
    }
  }

  lemma ThreadStays(cfg: Config, s: Sys, a: Action, t: Tid)
    requires Enabled(s, a) && t in s.threads
    ensures t in Step(cfg, s, a).threads
  {
    hide NextPc, NextStore, Admissible;
  }

  lemma NoClaimYet(pc: Pc)
    requires pc.Start?
    ensures Claims(pc).None?
  {
  }

  lemma SeenLonger(run: seq<Sys>, i: nat, j: nat, session: Session, p: ProxyId, before: Option<ProxyId>)
    requires i < j < |run| && (before.Some? ==> SeenLive(run, i, j - 1, session, before.value))
    requires before == Some(p) || LiveOn(run[j - 1], session, p) || LiveOn(run[j], session, p)
    ensures SeenLive(run, i, j, session, p)
  {
    hide LiveOn;
  }

  // ------------------------------------------------ a moved session stays in its region

  predicate InBound(row: Proxy, bound: string) {
    NormalizeRegion(bound) == "" || row.region == NormalizeRegion(bound)
  }

  predicate AllInBound(rows: seq<Proxy>, bound: string) {
    forall i | 0 <= i < |rows| :: InBound(rows[i], bound)
  }

  /** What a thread that gives up a binding in region `bound` may still do. */
  predicate Within(pc: Pc, bound: string) {
    match pc
    case ReleaseRemove(region) => region == bound
    case Query(region) => region == bound
    case Occupancy(todo, kept, _) => AllInBound(todo, bound) && AllInBound(kept, bound)
    case Cooldown(todo, kept, _) => AllInBound(todo, bound) && AllInBound(kept, bound)
    case Choose(rows, _) => AllInBound(rows, bound)
    case Bind(row, _) => InBound(row, bound)
    case ReadNow(row, _) => InBound(row, bound)
    case SetCool(row, _, _) => InBound(row, bound)
    case Done(row, _) => InBound(row, bound)
    case Failed => true
    case _ => false
  }

  lemma {:induction false} EligibleInBound(list: seq<Proxy>, db: Db, th: Thread, bound: string)
    requires forall i | 0 <= i < |list| :: InRegion(db, bound, th.tried, list[i])
    ensures AllInBound(Eligible(list, th.route), bound)
  {
    hide Available, MatchesUnlock, SelectableScope, NormalizeRegion;
    if list != [] {
      assert forall i | 0 <= i < |list| - 1 :: list[1..][i] == list[i + 1];
      EligibleInBound(list[1..], db, th, bound);
    }
  }

  lemma WithinThread(cfg: Config, s: Sys, th: Thread, c: Choice, bound: string)
    requires WellFormed(s) && Within(th.pc, bound) && Admissible(th, Current(s), c)
    ensures Within(NextPc(cfg, s.store, s.now, Current(s), |s.history| - 1, th, c), bound)
  {
    hide Available, MatchesUnlock, SelectableScope, NormalizeRegion, LiveHolders, Cooling, Eligible, InRegion, InBound;
    if th.pc.Query? && c.Rows? {
      EligibleInBound(c.list, Current(s), th, bound);
    } else if th.pc.Choose? {
      var i :| 0 <= i < |th.pc.candidates| && th.pc.candidates[i] == c.picked;
    }
  }

  lemma WithinStep(cfg: Config, s: Sys, a: Action, t: Tid, bound: string)
    requires Enabled(s, a) && StaysInCall(a, t) && t in s.threads && Within(s.threads[t].pc, bound)
    ensures t in Step(cfg, s, a).threads && Within(Step(cfg, s, a).threads[t].pc, bound)
  {
    hide NextPc, NextStore, Admissible, Within;
    if a.Run? && a.tid == t {
      WithinThread(cfg, s, s.threads[t], a.choice, bound);
    }
  }

  /** In every run, a request that names no region and gives up a live binding is
      served in that binding's region or not at all. */
  lemma {:induction false} RebindRegionInEveryRun(cfg: Config, run: seq<Sys>, actions: seq<Action>, t: Tid, i: nat,
                                                  j: nat)
    requires IsRun(cfg, run, actions) && |run| == |actions| + 1 && i < j < |run| && t in run[i].threads
    requires run[i].threads[t].pc.ReleaseGet? && run[i].threads[t].route.region == ""
    requires Live(run[i].store, run[i].threads[t].route.session, run[i].now)
    requires actions[i].Run? && actions[i].tid == t && forall k | i <= k < j :: StaysInCall(actions[k], t)
    ensures t in run[j].threads
    ensures Within(run[j].threads[t].pc, run[i].store.bindings[run[i].threads[t].route.session].region)
    decreases j
  {
    if i + 1 < j {
      hide IsRun, Enabled, Step, StaysInCall, Within, Live;
      RebindRegionInEveryRun(cfg, run, actions, t, i, j - 1);
      RunStep(cfg, run, actions, j - 1);
      WithinStep(cfg, run[j - 1], actions[j - 1], t, run[i].store.bindings[run[i].threads[t].route.session].region);
    } else {
      hide IsRun, StaysInCall, Admissible, NextStore;
      RunStep(cfg, run, actions, i);
    }
  }

  // ------------------------------------------------ failed dials

  /** A new binding of the session to the node. */
  predicate BindsTo(s: Sys, a: Action, session: Session, p: ProxyId) {
    a.Run? && a.tid in s.threads && s.threads[a.tid].route.session == session
    && s.threads[a.tid].pc.Bind? && s.threads[a.tid].pc.row.id == p
  }

  lemma NotBoundStep(cfg: Config, s: Sys, a: Action, session: Session, p: ProxyId)
    requires Enabled(s, a) && !BoundTo(s.store, session, p) && !BindsTo(s, a, session, p)
    ensures !BoundTo(Step(cfg, s, a).store, session, p)
  {
    hide NextPc, NextStore, Admissible;
    if a.Run? {
      NotBoundThread(s.store, s.now, s.threads[a.tid], session, p);
    }
  }

  lemma NotBoundThread(st: State, now: int, th: Thread, session: Session, p: ProxyId)
    requires !BoundTo(st, session, p) && !(th.route.session == session && th.pc.Bind? && th.pc.row.id == p)
    ensures !BoundTo(NextStore(st, now, th), session, p)
  {
  }

  lemma FailedDialReleases(cfg: Config, s: Sys, a: Action)
    requires Enabled(s, a) && a.DialFails? && s.threads[a.tid].route.session != ""
    ensures !BoundTo(Step(cfg, s, a).store, s.threads[a.tid].route.session, s.threads[a.tid].pc.row.id)
  {
    hide NextPc, NextStore, Admissible;
  }

  /** In every run, after a dial that failed its session is not bound to that node
      until it is bound to it anew. */
  lemma {:induction false} FailedDialInEveryRun(cfg: Config, run: seq<Sys>, actions: seq<Action>, i: nat, j: nat,
                                                session: Session, p: ProxyId)
    requires IsRun(cfg, run, actions) && |run| == |actions| + 1 && i < j < |run|
    requires actions[i].DialFails? && actions[i].tid in run[i].threads && session != ""
    requires run[i].threads[actions[i].tid].route.session == session
    requires run[i].threads[actions[i].tid].pc.Done? && run[i].threads[actions[i].tid].pc.row.id == p
    requires forall k | i < k < j :: !BindsTo(run[k], actions[k], session, p)
    ensures !BoundTo(run[j].store, session, p)
    decreases j
  {
    hide IsRun, Enabled, Step, BindsTo, BoundTo;
    RunStep(cfg, run, actions, j - 1);
    if i + 1 == j {
      FailedDialReleases(cfg, run[i], actions[i]);
    } else {
      FailedDialInEveryRun(cfg, run, actions, i, j - 1, session, p);
      NotBoundStep(cfg, run[j - 1], actions[j - 1], session, p);
    }
  }

  predicate HasTried(s: Sys, t: Tid, p: ProxyId) {
    t in s.threads && p in s.threads[t].tried
  }

  lemma TriedStep(cfg: Config, s: Sys, a: Action, t: Tid, p: ProxyId)
    requires Enabled(s, a) && (a.Begin? ==> a.tid != t)
    requires HasTried(s, t, p) || (a.DialFails? && a.tid == t && s.threads[t].pc.row.id == p)
    ensures HasTried(Step(cfg, s, a), t, p)
  {
    hide NextPc, NextStore, Admissible;
  }

  /** In every run a node on which a request's dial failed stays on its list of
      tried nodes, so the request is never handed that node again. */
  lemma {:induction false} NeverDialedAgainInEveryRun(cfg: Config, run: seq<Sys>, actions: seq<Action>, t: Tid,
                                                      i: nat, j: nat, p: ProxyId)
    requires IsRun(cfg, run, actions) && |run| == |actions| + 1 && i < j < |run|
    requires actions[i].DialFails? && actions[i].tid == t && t in run[i].threads
    requires run[i].threads[t].pc.Done? && run[i].threads[t].pc.row.id == p
    requires forall k | i <= k < j :: actions[k].Begin? ==> actions[k].tid != t
    ensures HasTried(run[j], t, p)
    ensures run[j].threads[t].pc.Done? ==> run[j].threads[t].pc.row.id != p
    decreases j
  {
    hide IsRun, Enabled, Step, ResultInv;
    RunStep(cfg, run, actions, j - 1);
    if i + 1 < j {
      NeverDialedAgainInEveryRun(cfg, run, actions, t, i, j - 1, p);
    }
    TriedStep(cfg, run[j - 1], actions[j - 1], t, p);
    ResultInEveryRun(cfg, run, actions, j);
  }
}
