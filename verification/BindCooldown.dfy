/** New bindings of one proxy are spaced by the cooldown in every interleaving. */
module BindCooldown {
  import opened Wrappers
  import opened Affinity
  import opened Storage
  import opened BindProtocol
  import opened BindSafety

  /** The rows a thread has found out of cooldown. */
  function Cooled(pc: Pc): seq<Proxy> {
    match pc
    case Cooldown(_, kept, _) => kept
    case Choose(candidates, _) => candidates
    case Bind(row, _) => [row]
    case _ => []
  }

  predicate Elapsed(cfg: Config, now: int, binds: seq<BindEvent>, p: ProxyId) {
    forall i | 0 <= i < |binds| && binds[i].proxy == p :: now >= binds[i].time + cfg.cooldown
  }

  predicate AllElapsed(cfg: Config, now: int, binds: seq<BindEvent>, rows: seq<Proxy>) {
    forall i | 0 <= i < |rows| :: Elapsed(cfg, now, binds, rows[i].id)
  }

  /** The thread in the critical section has bound `p` and not yet set its cooldown. */
  predicate MidBind(s: Sys, p: ProxyId) {
    s.lock.Some? && s.lock.value in s.threads
    && var pc := s.threads[s.lock.value].pc; (pc.ReadNow? || pc.SetCool?) && pc.row.id == p
  }

  /** A binding keeps its proxy out of reach until the cooldown has elapsed. */
  predicate Guarded(cfg: Config, s: Sys, e: BindEvent) {
    && e.time <= s.now
    && (s.now >= e.time + cfg.cooldown
        || (e.proxy in s.store.cooldown && s.store.cooldown[e.proxy] >= e.time + cfg.cooldown)
        || MidBind(s, e.proxy))
  }

  /** Two bindings of the same proxy are at least the cooldown apart. */
  predicate Spaced(cfg: Config, binds: seq<BindEvent>) {
    forall i, j | 0 <= i < j < |binds| && binds[i].proxy == binds[j].proxy ::
      binds[j].time >= binds[i].time + cfg.cooldown
  }

  /** A deadline about to be stored covers every binding of its proxy. */
  predicate DeadlineCovers(cfg: Config, binds: seq<BindEvent>, pc: Pc) {
    pc.SetCool? ==>
      forall i | 0 <= i < |binds| && binds[i].proxy == pc.row.id :: pc.until >= binds[i].time + cfg.cooldown
  }

  predicate CooldownInv(cfg: Config, s: Sys) {
    && (forall i | 0 <= i < |s.binds| :: Guarded(cfg, s, s.binds[i]))
    && Spaced(cfg, s.binds)
    && (forall t | t in s.threads ::
          AllElapsed(cfg, s.now, s.binds, Cooled(s.threads[t].pc)) && DeadlineCovers(cfg, s.binds, s.threads[t].pc))
  }

  /** Steps of others leave the lock and its holder alone. */
  lemma HolderUndisturbed(cfg: Config, s: Sys, a: Action)
    requires Enabled(s, a) && LockInv(s) && s.lock.Some?
    requires !(a.Run? && a.tid == s.lock.value)
    ensures var s' := Step(cfg, s, a);
            s'.lock == s.lock && s.lock.value in s'.threads && s'.threads[s.lock.value] == s.threads[s.lock.value]
  {
    hide NextPc, NextStore, Admissible;
    if a.Run? && Holding(NextPc(cfg, s.store, s.now, Current(s), |s.history| - 1, s.threads[a.tid], a.choice)) {
      EntersFromWaiting(cfg, s.store, s.now, Current(s), |s.history| - 1, s.threads[a.tid], a.choice);
    }
  }

  lemma CooledNeedsLock(pc: Pc)
    requires !Holding(pc)
    ensures Cooled(pc) == [] && !pc.SetCool?
  {
  }

  lemma ElapsedLater(cfg: Config, now: int, now': int, binds: seq<BindEvent>, rows: seq<Proxy>)
    requires now <= now' && AllElapsed(cfg, now, binds, rows)
    ensures AllElapsed(cfg, now', binds, rows)
  {
    forall i | 0 <= i < |rows| ensures Elapsed(cfg, now', binds, rows[i].id) {
      assert Elapsed(cfg, now, binds, rows[i].id);
    }
  }

  /** Away from its own critical steps a binding stays guarded. */
  lemma GuardKept(cfg: Config, s: Sys, s': Sys, e: BindEvent)
    requires Guarded(cfg, s, e) && s.now <= s'.now
    requires CoolingKept(s.store, s'.store, s.now)
    requires MidBind(s, e.proxy) ==> MidBind(s', e.proxy)
    ensures Guarded(cfg, s', e)
  {
  }

  // ------------------------------------------------ the critical steps

  /** The step that binds: the proxy was out of cooldown, so the new event is
      spaced; the thread that made it now guards it. */
  lemma BindSpaced(cfg: Config, s: Sys, a: Action)
    requires cfg.cooldown > 0 && Enabled(s, a) && LockInv(s) && CooldownInv(cfg, s) && IsBind(s, a)
    ensures CooldownInv(cfg, Step(cfg, s, a))
  {
    var s' := Step(cfg, s, a);
    var th := s.threads[a.tid];
    var e := BindEvent(th.pc.row.id, s.now);
    assert s'.binds == s.binds + [e];
    assert Elapsed(cfg, s.now, s.binds, e.proxy) by {
      assert [th.pc.row][0].id == e.proxy;
    }
    SpacedAppend(cfg, s.binds, e);
    hide Spaced, NextStore;
    assert s'.lock == Some(a.tid) && s'.threads[a.tid].pc.ReadNow?;
    forall i | 0 <= i < |s'.binds| ensures Guarded(cfg, s', s'.binds[i]) {
      if i < |s.binds| {
        assert Guarded(cfg, s, s.binds[i]);
        BindKeepsCooldown(s.store, s.now, th);
        GuardKept(cfg, s, s', s.binds[i]);
      }
    }
    forall t | t in s'.threads
      ensures AllElapsed(cfg, s'.now, s'.binds, Cooled(s'.threads[t].pc))
                && DeadlineCovers(cfg, s'.binds, s'.threads[t].pc)
    {
      if t != a.tid {
        CooledNeedsLock(s.threads[t].pc);
      }
    }
  }

  lemma SpacedAppend(cfg: Config, binds: seq<BindEvent>, e: BindEvent)
    requires Spaced(cfg, binds) && Elapsed(cfg, e.time, binds, e.proxy)
    ensures Spaced(cfg, binds + [e])
  {
  }

  lemma BindKeepsCooldown(st: State, now: int, th: Thread)
    requires th.pc.Bind?
    ensures CoolingKept(st, NextStore(st, now, th), now)
  {
  }

  /** Reading the clock after binding gives a deadline that covers the binding. */
  lemma DeadlineRead(cfg: Config, s: Sys, a: Action)
    requires Enabled(s, a) && LockInv(s) && CooldownInv(cfg, s) && a.Run? && s.threads[a.tid].pc.ReadNow?
    ensures CooldownInv(cfg, Step(cfg, s, a))
  {
    hide Spaced, Elapsed;
    var s' := Step(cfg, s, a);
    assert s'.store == s.store && s'.lock == Some(a.tid) && s'.binds == s.binds;
    forall i | 0 <= i < |s'.binds|
      ensures Guarded(cfg, s', s'.binds[i])
      ensures s'.threads[a.tid].pc.until >= s.binds[i].time + cfg.cooldown
    {
      assert Guarded(cfg, s, s.binds[i]);
    }
  }

  /** Storing the deadline hands the guard over to the cooldown table. */
  lemma DeadlineStored(cfg: Config, s: Sys, a: Action)
    requires Enabled(s, a) && LockInv(s) && CooldownInv(cfg, s) && IsCoolStep(s, a)
    ensures CooldownInv(cfg, Step(cfg, s, a))
  {
    hide Spaced, Elapsed;
    var s' := Step(cfg, s, a);
    var pc := s.threads[a.tid].pc;
    assert s'.store.cooldown == s.store.cooldown[pc.row.id := pc.until] && s'.binds == s.binds;
    assert s.lock == Some(a.tid);
    forall i | 0 <= i < |s'.binds| ensures Guarded(cfg, s', s'.binds[i]) {
      assert Guarded(cfg, s, s.binds[i]);
    }
  }

  // ------------------------------------------------ every other step

  predicate Critical(s: Sys, a: Action)
    requires Enabled(s, a)
  {
    a.Run? && (s.threads[a.tid].pc.Bind? || s.threads[a.tid].pc.ReadNow? || s.threads[a.tid].pc.SetCool?)
  }

  lemma GuardedInOtherSteps(cfg: Config, s: Sys, a: Action)
    requires Enabled(s, a) && LockInv(s) && CooldownInv(cfg, s) && !Critical(s, a)
    ensures Step(cfg, s, a).binds == s.binds && s.now <= Step(cfg, s, a).now
    ensures forall i | 0 <= i < |s.binds| :: Guarded(cfg, Step(cfg, s, a), s.binds[i])
  {
    hide Spaced, NextPc, NextStore, Admissible, AllElapsed, CoolingKept;
    var s' := Step(cfg, s, a);
    StoreCooldown(cfg, s, a);
    forall i | 0 <= i < |s.binds| ensures Guarded(cfg, s', s.binds[i]) {
      assert Guarded(cfg, s, s.binds[i]);
      if MidBind(s, s.binds[i].proxy) {
        HolderUndisturbed(cfg, s, a);
      }
      GuardKept(cfg, s, s', s.binds[i]);
    }
  }

  /** A proxy found not cooling has no recent binding: whoever holds the lock
      while asking is not in the middle of binding it. */
  lemma NotCoolingElapsed(cfg: Config, s: Sys, t: Tid, p: ProxyId)
    requires LockInv(s) && CooldownInv(cfg, s)
    requires t in s.threads && (s.threads[t].pc.PinCool? || s.threads[t].pc.Cooldown?)
    requires !Cooling(s.store, p, s.now)
    ensures Elapsed(cfg, s.now, s.binds, p)
  {
    assert s.lock == Some(t);
    forall i | 0 <= i < |s.binds| && s.binds[i].proxy == p ensures s.now >= s.binds[i].time + cfg.cooldown {
      assert Guarded(cfg, s, s.binds[i]);
    }
  }

  lemma ElapsedAppend(cfg: Config, now: int, binds: seq<BindEvent>, rows: seq<Proxy>, row: Proxy)
    requires AllElapsed(cfg, now, binds, rows) && Elapsed(cfg, now, binds, row.id)
    ensures AllElapsed(cfg, now, binds, rows + [row])
  {
    forall i | 0 <= i < |rows + [row]| ensures Elapsed(cfg, now, binds, (rows + [row])[i].id) {
      if i < |rows| {
        assert Elapsed(cfg, now, binds, rows[i].id);
      }
    }
  }

  /** Steps that do not consult the cooldown table cool nothing new. */
  lemma NothingNewCooled(cfg: Config, st: State, now: int, db: Db, at: nat, th: Thread, c: Choice)
    requires cfg.cooldown > 0
    requires !th.pc.PinCool? && !th.pc.Cooldown? && !th.pc.Choose? && !th.pc.ReadNow?
    ensures var pc' := NextPc(cfg, st, now, db, at, th, c);
            (Cooled(pc') == [] || Cooled(pc') == Cooled(th.pc)) && (pc'.SetCool? ==> pc' == th.pc)
  {
    hide Fits, Eligible, ReadParent, Storage.RegionMismatch, GetResult, LiveHolders;
  }

  lemma ThreadCools(cfg: Config, s: Sys, a: Action)
    requires cfg.cooldown > 0 && Enabled(s, a) && LockInv(s) && CooldownInv(cfg, s) && !Critical(s, a) && a.Run?
    ensures var pc' := NextPc(cfg, s.store, s.now, Current(s), |s.history| - 1, s.threads[a.tid], a.choice);
            AllElapsed(cfg, s.now, s.binds, Cooled(pc')) && DeadlineCovers(cfg, s.binds, pc')
  {
    hide Spaced, Elapsed, Cooling, Eligible;
    var th := s.threads[a.tid];
    assert AllElapsed(cfg, s.now, s.binds, Cooled(th.pc));
    if th.pc.PinCool? {
      if !Cooling(s.store, th.pc.row.id, s.now) {
        NotCoolingElapsed(cfg, s, a.tid, th.pc.row.id);
      }
    } else if th.pc.Cooldown? {
      var todo := th.pc.todo;
      if todo != [] && !Cooling(s.store, todo[0].id, s.now) {
        NotCoolingElapsed(cfg, s, a.tid, todo[0].id);
        ElapsedAppend(cfg, s.now, s.binds, th.pc.kept, todo[0]);
      }
    } else if th.pc.Choose? {
      var i :| 0 <= i < |th.pc.candidates| && th.pc.candidates[i] == a.choice.picked;
      assert Elapsed(cfg, s.now, s.binds, th.pc.candidates[i].id);
    } else {
      hide NextPc, Admissible, Cooled;
      NothingNewCooled(cfg, s.store, s.now, Current(s), |s.history| - 1, th, a.choice);
    }
  }

  lemma CooldownOtherStep(cfg: Config, s: Sys, a: Action)
    requires cfg.cooldown > 0 && Enabled(s, a) && LockInv(s) && CooldownInv(cfg, s) && !Critical(s, a)
    ensures CooldownInv(cfg, Step(cfg, s, a))
  {
    hide Spaced, NextPc, NextStore, Admissible, AllElapsed, Guarded;
    var s' := Step(cfg, s, a);
    GuardedInOtherSteps(cfg, s, a);
    forall t | t in s'.threads
      ensures AllElapsed(cfg, s'.now, s'.binds, Cooled(s'.threads[t].pc))
                && DeadlineCovers(cfg, s'.binds, s'.threads[t].pc)
    {
      if a.Run? && t == a.tid {
        ThreadCools(cfg, s, a);
      } else if t in s.threads && s'.threads[t].pc == s.threads[t].pc {
        ElapsedLater(cfg, s.now, s'.now, s.binds, Cooled(s.threads[t].pc));
      } else {
        NothingElapsed(cfg, s'.now, s'.binds);
      }
    }
  }

  lemma NothingElapsed(cfg: Config, now: int, binds: seq<BindEvent>)
    ensures AllElapsed(cfg, now, binds, [])
  {
  }

  /** In every run with a positive cooldown any two new bindings of the same
      proxy are at least the cooldown apart. */
  lemma {:induction false} CooldownInEveryRun(cfg: Config, run: seq<Sys>, actions: seq<Action>, k: nat)
    requires cfg.cooldown > 0 && IsRun(cfg, run, actions) && k < |run|
    ensures LockInv(run[k]) && CooldownInv(cfg, run[k])
    ensures Spaced(cfg, run[k].binds)
    decreases k
  {
    if k > 0 {
      CooldownInEveryRun(cfg, run, actions, k - 1);
      var s, a := run[k - 1], actions[k - 1];
      assert Enabled(s, a) && run[k] == Step(cfg, s, a);
      LockStep(cfg, s, a);
      if IsBind(s, a) {
        BindSpaced(cfg, s, a);
      } else if IsCoolStep(s, a) {
        DeadlineStored(cfg, s, a);
      } else if a.Run? && s.threads[a.tid].pc.ReadNow? {
        DeadlineRead(cfg, s, a);
      } else {
        CooldownOtherStep(cfg, s, a);
      }
    }
  }

  // ------------------------------------------------ deadlines over runs

  /** The step that ends a new binding of `p` by setting its deadline. */
  predicate SetsDeadline(s: Sys, a: Action, p: ProxyId) {
    a.Run? && a.tid in s.threads && s.threads[a.tid].pc.SetCool? && s.threads[a.tid].pc.row.id == p
  }

  /** The deadline stands, or is gone because it has passed. */
  predicate DeadlineStands(st: State, now: int, p: ProxyId, until: int) {
    if p in st.cooldown then st.cooldown[p] == until else until <= now
  }

  lemma ThreadKeepsDeadline(st: State, now: int, th: Thread, p: ProxyId, until: int)
    requires DeadlineStands(st, now, p, until) && !(th.pc.SetCool? && th.pc.row.id == p)
    ensures DeadlineStands(NextStore(st, now, th), now, p, until)
  {
  }

  lemma DeadlineStep(cfg: Config, s: Sys, a: Action, p: ProxyId, until: int)
    requires Enabled(s, a) && !SetsDeadline(s, a, p) && DeadlineStands(s.store, s.now, p, until)
    ensures var s' := Step(cfg, s, a); DeadlineStands(s'.store, s'.now, p, until)
  {
    hide NextPc, NextStore, Admissible;
    if a.Run? {
      ThreadKeepsDeadline(s.store, s.now, s.threads[a.tid], p, until);
    }
  }

  /** In every run, between two new bindings of a proxy its deadline is neither
      delayed nor cleared early: sticky hits, pinned hits, counting, releases,
      the GC and TTL changes leave it alone. */
  lemma {:induction false} DeadlineInEveryRun(cfg: Config, run: seq<Sys>, actions: seq<Action>, i: nat, j: nat,
                                              p: ProxyId)
    requires IsRun(cfg, run, actions) && i <= j < |run| && p in run[i].store.cooldown
    requires forall k | i <= k < j :: !SetsDeadline(run[k], actions[k], p)
    ensures DeadlineStands(run[j].store, run[j].now, p, run[i].store.cooldown[p])
    decreases j
  {
    if i < j {
      hide IsRun, Enabled, Step, SetsDeadline, DeadlineStands;
      DeadlineInEveryRun(cfg, run, actions, i, j - 1, p);
      RunStep(cfg, run, actions, j - 1);
      DeadlineStep(cfg, run[j - 1], actions[j - 1], p, run[i].store.cooldown[p]);
    }
  }
}
