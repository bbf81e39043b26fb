/** `selector.Resolve` as threads over one session store.  Every step is one
    store method, one database read or one lock operation; between steps other
    threads, the GC, TTL changes, database writes and the clock may run. */
module BindProtocol {
  import opened Wrappers
  import opened Text
  import opened Affinity
  import opened Storage
  import Dsl

  type Tid = int
  type Username = Dsl.ParsedUsername

  /** `max_sessions_per_proxy` and the cooldown as a duration; zero disables. */
  datatype Config = Config(limit: nat, cooldown: nat)

  /** Which database states showed the row and its parent. */
  datatype Seen = Seen(rowAt: nat, parentAt: nat)

  datatype Pc =
    | Idle
    | Start
    | PlainChoose(plain: seq<Proxy>, plainAt: nat)
    | PinParent(row: Proxy, rowAt: nat)
    | PinWait(row: Proxy, seen: Seen)
    | PinGet(row: Proxy, seen: Seen)
    | PinCount(row: Proxy, seen: Seen)
    | PinCool(row: Proxy, seen: Seen)
    | StickyGet(locked: bool)
    | StickyRow(binding: Binding, locked: bool)
    | StickyParent(row: Proxy, rowAt: nat, locked: bool)
    | BindWait
    | ReleaseGet
    | ReleaseRemove(region: string)
    | Query(region: string)
    | Occupancy(todo: seq<Proxy>, kept: seq<Proxy>, at: nat)
    | Cooldown(todo: seq<Proxy>, kept: seq<Proxy>, at: nat)
    | Choose(candidates: seq<Proxy>, at: nat)
    | Bind(row: Proxy, seen: Seen)
    | ReadNow(row: Proxy, seen: Seen)
    | SetCool(row: Proxy, seen: Seen, until: int)
    | Done(row: Proxy, seen: Seen)
    | Failed

  /** Between `BeginFirstBind` and `EndFirstBind`. */
  predicate Holding(pc: Pc) {
    match pc
    case PinGet(_, _) => true
    case PinCount(_, _) => true
    case PinCool(_, _) => true
    case StickyGet(locked) => locked
    case StickyRow(_, locked) => locked
    case StickyParent(_, _, locked) => locked
    case ReleaseGet => true
    case ReleaseRemove(_) => true
    case Query(_) => true
    case Occupancy(_, _, _) => true
    case Cooldown(_, _, _) => true
    case Choose(_, _) => true
    case Bind(_, _) => true
    case ReadNow(_, _) => true
    case SetCool(_, _, _) => true
    case _ => false
  }

  predicate Waiting(pc: Pc) {
    pc.PinWait? || pc.BindWait?
  }

  predicate Running(pc: Pc) {
    !pc.Idle? && !pc.Done? && !pc.Failed?
  }

  /** `withDefaultRegion`, applied anew to the parsed username on each attempt. */
  function WithDefaultRegion(asked: Username, default: string): Username {
    if asked.region != "" || default == "" then asked else asked.(region := NormalizeRegion(default))
  }

  /** One request: its parsed username, the route of the current attempt, the
      nodes already dialed, and the database state in which the current
      `Resolve` call began. */
  datatype Thread = Thread(asked: Username, route: Username, tried: seq<ProxyId>, begun: nat, pc: Pc)

  /** A new binding of a proxy, at a time. */
  datatype BindEvent = BindEvent(proxy: ProxyId, time: int)

  /** `history` is every database state so far, the last one current; `binds`
      is every `SetProxy` so far. */
  datatype Sys = Sys(
    store: State, now: int, lock: Option<Tid>, threads: map<Tid, Thread>,
    history: seq<Db>, binds: seq<BindEvent>)

  /** What a step cannot decide by itself: a database error, the order of a
      query, the pick among candidates. */
  datatype Choice = Plain | Fault | Rows(list: seq<Proxy>) | Pick(picked: Proxy)

  datatype Action =
    | Begin(tid: Tid, asked: Username, default: string)
    | Run(tid: Tid, choice: Choice)
    | DialFails(tid: Tid, retry: bool, default: string)
    | Finish(tid: Tid)
    | Collect
    | ChangeTTL(ttl: int)
    | Write(db: Db)
    | Tick(delta: nat)

  // ------------------------------------------------ one thread step

  /** Eligible rows of a region query for this request. */
  function Eligible(list: seq<Proxy>, route: Username): seq<Proxy> {
    if list == [] then []
    else (if Available(list[0]) && MatchesUnlock(list[0], route.unlock) then [list[0]] else [])
         + Eligible(list[1..], route)
  }

  function LatencyRank(p: Proxy): int {
    if p.evidence.latency <= 0 then 0x4000_0000 else p.evidence.latency
  }

  predicate Fits(row: Proxy, th: Thread) {
    row.id !in th.tried && Available(row) && !RegionMismatch(row.region, th.route.region)
    && MatchesUnlock(row, th.route.unlock)
  }

  function AfterPin(th: Thread, row: Proxy, seen: Seen): Pc {
    if th.route.session == "" then Done(row, seen) else PinWait(row, seen)
  }

  function StickyMiss(locked: bool): Pc {
    if locked then ReleaseGet else BindWait
  }

  function FromQuery(cfg: Config, list: seq<Proxy>, th: Thread, at: nat): Pc {
    var available := Eligible(list, th.route);
    if available == [] then Failed
    else if cfg.limit > 0 then Occupancy(available, [], at)
    else if cfg.cooldown > 0 then Cooldown(available, [], at)
    else Choose(available, at)
  }

  /** The program counter after a step of thread `th`, given what it observes. */
  function NextPc(cfg: Config, st: State, now: int, db: Db, at: nat, th: Thread, c: Choice): Pc {
    var s := th.route.session;
    match th.pc
    case Start =>
      if th.route.node != "" then
        if !c.Pick? || !Fits(c.picked, th) then Failed
        else if c.picked.route.subscriptionId > 0 then PinParent(c.picked, at)
        else AfterPin(th, c.picked, Seen(at, at))
      else if s == "" then
        if !c.Rows? || Eligible(c.list, th.route) == [] then Failed
        else PlainChoose(Eligible(c.list, th.route), at)
      else StickyGet(false)
    case PlainChoose(_, k) => if c.Pick? then Done(c.picked, Seen(k, k)) else th.pc
    case PinParent(row, k) =>
      if c.Fault? || ReadParent(db, row.route.subscriptionId) != ParentActive then Failed
      else AfterPin(th, row, Seen(k, at))
    case PinWait(row, seen) => PinGet(row, seen)
    case PinGet(row, seen) =>
      var b := GetResult(st, s, now);
      if b.Some? && b.value.proxyId == row.id then Done(row, seen)
      else if cfg.limit > 0 then PinCount(row, seen)
      else if cfg.cooldown > 0 then PinCool(row, seen)
      else Bind(row, seen)
    case PinCount(row, seen) =>
      if |LiveHolders(st, row.id, now)| >= cfg.limit then Failed
      else if cfg.cooldown > 0 then PinCool(row, seen)
      else Bind(row, seen)
    case PinCool(row, seen) => if Cooling(st, row.id, now) then Failed else Bind(row, seen)
    case StickyGet(locked) =>
      var b := GetResult(st, s, now);
      if b.None? || b.value.proxyId <= 0 || b.value.proxyId in th.tried
         || RegionMismatch(b.value.region, th.route.region) then StickyMiss(locked)
      else StickyRow(b.value, locked)
    case StickyRow(b, locked) =>
      if c.Fault? || b.proxyId !in db.rows || !Fits(db.rows[b.proxyId], th) then StickyMiss(locked)
      else if db.rows[b.proxyId].route.subscriptionId > 0 then StickyParent(db.rows[b.proxyId], at, locked)
      else Done(db.rows[b.proxyId], Seen(at, at))
    case StickyParent(row, k, locked) =>
      if c.Fault? || ReadParent(db, row.route.subscriptionId) != ParentActive then StickyMiss(locked)
      else Done(row, Seen(k, at))
    case BindWait => StickyGet(true)
    case ReleaseGet =>
      var b := GetResult(st, s, now);
      if b.None? then Query(th.route.region)
      else ReleaseRemove(if th.route.region != "" then th.route.region else b.value.region)
    case ReleaseRemove(region) => Query(region)
    case Query(_) => if c.Rows? then FromQuery(cfg, c.list, th, at) else Failed
    case Occupancy(todo, kept, k) =>
      if todo != [] then
        Occupancy(todo[1..], if |LiveHolders(st, todo[0].id, now)| < cfg.limit then kept + [todo[0]] else kept, k)
      else if kept == [] then Failed
      else if cfg.cooldown > 0 then Cooldown(kept, [], k)
      else Choose(kept, k)
    case Cooldown(todo, kept, k) =>
      if todo != [] then
        Cooldown(todo[1..], if !Cooling(st, todo[0].id, now) then kept + [todo[0]] else kept, k)
      else if kept == [] then Failed
      else Choose(kept, k)
    case Choose(_, k) => if c.Pick? then Bind(c.picked, Seen(k, k)) else th.pc
    case Bind(row, seen) => if cfg.cooldown > 0 then ReadNow(row, seen) else Done(row, seen)
    case ReadNow(row, seen) => SetCool(row, seen, now + cfg.cooldown)
    case SetCool(row, seen, _) => Done(row, seen)
    case _ => th.pc
  }

  /** The store after the step. */
  function NextStore(st: State, now: int, th: Thread): State {
    var s := th.route.session;
    match th.pc
    case PinGet(_, _) => AfterGet(st, s, now)
    case StickyGet(_) => AfterGet(st, s, now)
    case ReleaseGet => AfterGet(st, s, now)
    case ReleaseRemove(_) => Without(st, s)
    case PinCount(row, _) => AfterCount(st, row.id, now)
    case Occupancy(todo, _, _) => if todo != [] then AfterCount(st, todo[0].id, now) else st
    case PinCool(row, _) => AfterInCooldown(st, row.id, now)
    case Cooldown(todo, _, _) => if todo != [] then AfterInCooldown(st, todo[0].id, now) else st
    case Bind(row, _) => AfterSetProxy(st, s, row.id, row.route.address, row.region, now)
    case SetCool(row, _, until) => AfterSetCooldown(st, row.id, until)
    case _ => st
  }

  /** The choice fits what the step reads: a pinned lookup that found its row, a
      listing of the region, a pick among the candidates.  `Plain` answers a
      lookup that found nothing. */
  predicate Admissible(th: Thread, db: Db, c: Choice) {
    match th.pc
    case Start =>
      if th.route.node != "" then c.Pick? ==> IsPinned(db, th.route.node, c.picked)
      else if th.route.session == "" then c.Rows? ==> ListsRegion(c.list, db, th.route.region, th.tried)
      else true
    case Query(region) => c.Rows? ==> ListsRegion(c.list, db, region, th.tried)
    case PlainChoose(plain, _) =>
      c.Pick? && c.picked in plain && forall i | 0 <= i < |plain| :: LatencyRank(c.picked) <= LatencyRank(plain[i])
    case Choose(candidates, _) => c.Pick? && c.picked in candidates
    case _ => true
  }

  // ------------------------------------------------ the system

  predicate WellFormed(s: Sys) {
    |s.history| > 0 && forall i | 0 <= i < |s.history| :: s.history[i].Valid()
  }

  function Current(s: Sys): Db
    requires WellFormed(s)
  {
    s.history[|s.history| - 1]
  }

  predicate Initial(s: Sys) {
    WellFormed(s) && s.store.bindings == map[] && s.store.cooldown == map[] && s.lock == None
    && s.threads == map[] && s.binds == []
  }

  predicate Enabled(s: Sys, a: Action) {
    WellFormed(s) &&
    match a
    case Begin(t, _, _) => t in s.threads ==> s.threads[t].pc.Idle?
    case Run(t, c) =>
      t in s.threads && Running(s.threads[t].pc) && (Waiting(s.threads[t].pc) ==> s.lock == None)
      && Admissible(s.threads[t], Current(s), c)
    case DialFails(t, _, _) => t in s.threads && s.threads[t].pc.Done?
    case Finish(t) => t in s.threads && (s.threads[t].pc.Done? || s.threads[t].pc.Failed?)
    case Write(db) => db.Valid()
    case _ => true
  }

  function NextLock(lock: Option<Tid>, t: Tid, pc: Pc, pc': Pc): Option<Tid> {
    if Holding(pc') then Some(t) else if Holding(pc) then None else lock
  }

  function NextBinds(binds: seq<BindEvent>, now: int, pc: Pc): seq<BindEvent> {
    if pc.Bind? then binds + [BindEvent(pc.row.id, now)] else binds
  }

  function Step(cfg: Config, s: Sys, a: Action): Sys
    requires Enabled(s, a)
  {
    match a
    case Begin(t, asked, default) =>
      s.(threads := s.threads[t := Thread(asked, WithDefaultRegion(asked, default), [], |s.history| - 1, Start)])
    case Run(t, c) =>
      var th := s.threads[t];
      var pc' := NextPc(cfg, s.store, s.now, Current(s), |s.history| - 1, th, c);
      s.(store := NextStore(s.store, s.now, th),
         lock := NextLock(s.lock, t, th.pc, pc'),
         threads := s.threads[t := th.(pc := pc')],
         binds := NextBinds(s.binds, s.now, th.pc))
    case DialFails(t, retry, default) =>
      var th := s.threads[t];
      s.(store := if th.route.session == "" then s.store
                  else AfterRemoveIf(s.store, th.route.session, th.pc.row.id, s.now),
         threads := s.threads[t := th.(route := WithDefaultRegion(th.asked, default),
                                       tried := th.tried + [th.pc.row.id],
                                       begun := |s.history| - 1, pc := if retry then Start else Failed)])
    case Finish(t) => s.(threads := s.threads[t := s.threads[t].(pc := Idle)])
    case Collect => s.(store := AfterCollect(s.store, s.now))
    case ChangeTTL(ttl) => s.(store := s.store.(ttl := ttl))
    case Write(db) => s.(history := s.history + [db])
    case Tick(delta) => s.(now := s.now + delta)
  }

  /** A run: states linked by enabled actions, starting empty. */
  predicate IsRun(cfg: Config, run: seq<Sys>, actions: seq<Action>) {
    && |run| == |actions| + 1
    && Initial(run[0])
    && (forall i | 0 <= i < |actions| :: Enabled(run[i], actions[i]) && run[i + 1] == Step(cfg, run[i], actions[i]))
  }

  lemma RunStep(cfg: Config, run: seq<Sys>, actions: seq<Action>, k: nat)
    requires IsRun(cfg, run, actions) && k + 1 < |run|
    ensures |run| == |actions| + 1
    ensures Enabled(run[k], actions[k]) && run[k + 1] == Step(cfg, run[k], actions[k])
  {
    hide Enabled, Step;
  }

  lemma RunLength(cfg: Config, run: seq<Sys>, actions: seq<Action>)
    requires IsRun(cfg, run, actions)
    ensures |run| == |actions| + 1
  {
  }
}
