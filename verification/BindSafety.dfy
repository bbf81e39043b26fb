/** What every interleaving of `Resolve` calls keeps. */
module BindSafety {
  import opened Wrappers
  import opened Text
  import opened Affinity
  import opened Storage
  import opened BindProtocol

  // ------------------------------------------------ the first-bind lock

  /** The lock is held by exactly the thread inside the critical section. */
  predicate LockInv(s: Sys) {
    && (s.lock.Some? ==> s.lock.value in s.threads && Holding(s.threads[s.lock.value].pc))
    && (forall t | t in s.threads && Holding(s.threads[t].pc) :: s.lock == Some(t))
  }

  /** A thread that enters the critical section was waiting for the lock. */
  lemma EntersFromWaiting(cfg: Config, st: State, now: int, db: Db, at: nat, th: Thread, c: Choice)
    requires Holding(NextPc(cfg, st, now, db, at, th, c))
    ensures Holding(th.pc) || Waiting(th.pc)
  {
  }

  lemma LockStep(cfg: Config, s: Sys, a: Action)
    requires Enabled(s, a) && LockInv(s)
    ensures LockInv(Step(cfg, s, a))
  {
    hide NextPc, NextStore, NextBinds, Admissible;
    if a.Run? {
      var th := s.threads[a.tid];
      if Holding(NextPc(cfg, s.store, s.now, Current(s), |s.history| - 1, th, a.choice)) {
        EntersFromWaiting(cfg, s.store, s.now, Current(s), |s.history| - 1, th, a.choice);
      }
    }
  }

  // ------------------------------------------------ what a step does to the store

  predicate IsBind(s: Sys, a: Action)
    requires Enabled(s, a)
  {
    a.Run? && s.threads[a.tid].pc.Bind?
  }

  predicate IsCoolStep(s: Sys, a: Action)
    requires Enabled(s, a)
  {
    a.Run? && s.threads[a.tid].pc.SetCool?
  }

  /** `b'` holds no session that `b` does not hold on the same proxy. */
  predicate Shrinks(b: Bindings, b': Bindings) {
    forall s | s in b' :: s in b && b'[s].proxyId == b[s].proxyId
  }

  lemma ThreadStoreShrinks(st: State, now: int, th: Thread)
    requires !th.pc.Bind?
    ensures Shrinks(st.bindings, NextStore(st, now, th).bindings)
  {
  }

  /** Only `SetProxy` adds a binding. */
  lemma StoreShrinks(cfg: Config, s: Sys, a: Action)
    requires Enabled(s, a) && !IsBind(s, a)
    ensures Shrinks(s.store.bindings, Step(cfg, s, a).store.bindings)
  {
    hide NextPc, NextStore, Admissible;
    if a.Run? {
      ThreadStoreShrinks(s.store, s.now, s.threads[a.tid]);
    }
  }

  lemma ShrinkHolders(b: Bindings, b': Bindings, p: ProxyId)
    requires Shrinks(b, b')
    ensures |Holders(b', p)| <= |Holders(b, p)|
  {
    assert Holders(b', p) <= Holders(b, p);
    SubsetSize(Holders(b', p), Holders(b, p));
  }

  /** Cooldown deadlines only disappear once they have passed. */
  predicate CoolingKept(st: State, st': State, now: int) {
    forall p | p in st.cooldown && now < st.cooldown[p] :: p in st'.cooldown && st'.cooldown[p] == st.cooldown[p]
  }

  lemma ThreadCooldown(st: State, now: int, th: Thread)
    requires !th.pc.SetCool?
    ensures CoolingKept(st, NextStore(st, now, th), now)
  {
  }

  lemma StoreCooldown(cfg: Config, s: Sys, a: Action)
    requires Enabled(s, a) && !IsCoolStep(s, a)
    ensures CoolingKept(s.store, Step(cfg, s, a).store, s.now)
  {
    hide NextPc, NextStore, Admissible;
    if a.Run? {
      ThreadCooldown(s.store, s.now, s.threads[a.tid]);
    }
  }

  // ------------------------------------------------ capacity

  /** The rows a thread has found to have room for one more session. */
  function Vetted(pc: Pc): seq<Proxy> {
    match pc
    case PinCool(row, _) => [row]
    case Occupancy(_, kept, _) => kept
    case Cooldown(todo, kept, _) => todo + kept
    case Choose(candidates, _) => candidates
    case Bind(row, _) => [row]
    case _ => []
  }

  predicate RoomIn(b: Bindings, limit: nat, rows: seq<Proxy>) {
    forall i | 0 <= i < |rows| :: |Holders(b, rows[i].id)| < limit
  }

  ghost predicate WithinLimit(b: Bindings, limit: nat) {
    forall p :: |Holders(b, p)| <= limit
  }

  ghost predicate CapacityInv(cfg: Config, s: Sys) {
    WithinLimit(s.store.bindings, cfg.limit)
    && forall t | t in s.threads :: RoomIn(s.store.bindings, cfg.limit, Vetted(s.threads[t].pc))
  }

  lemma ShrinkKeepsRoom(b: Bindings, b': Bindings, limit: nat, rows: seq<Proxy>)
    requires Shrinks(b, b') && RoomIn(b, limit, rows)
    ensures RoomIn(b', limit, rows)
  {
    forall i | 0 <= i < |rows| ensures |Holders(b', rows[i].id)| < limit {
      ShrinkHolders(b, b', rows[i].id);
    }
  }

  /** A count below the limit leaves room on the counted proxy: everything it
      still holds is live. */
  lemma CountLeavesRoom(st: State, now: int, p: ProxyId, limit: nat)
    requires |LiveHolders(st, p, now)| < limit
    ensures |Holders(AfterCount(st, p, now).bindings, p)| < limit
  {
    CountPurges(st, p, now);
  }

  lemma RoomAppend(b: Bindings, limit: nat, kept: seq<Proxy>, row: Proxy)
    requires RoomIn(b, limit, kept) && |Holders(b, row.id)| < limit
    ensures RoomIn(b, limit, kept + [row])
  {
  }

  lemma CountVets(cfg: Config, st: State, now: int, db: Db, at: nat, th: Thread, c: Choice)
    requires cfg.limit > 0
    requires RoomIn(st.bindings, cfg.limit, Vetted(th.pc)) && th.pc.PinCount?
    ensures RoomIn(NextStore(st, now, th).bindings, cfg.limit, Vetted(NextPc(cfg, st, now, db, at, th, c)))
  {
    var row := th.pc.row;
    if |LiveHolders(st, row.id, now)| < cfg.limit {
      CountLeavesRoom(st, now, row.id, cfg.limit);
    }
  }

  lemma OccupancyVets(cfg: Config, st: State, now: int, db: Db, at: nat, th: Thread, c: Choice)
    requires cfg.limit > 0
    requires RoomIn(st.bindings, cfg.limit, Vetted(th.pc)) && th.pc.Occupancy?
    ensures RoomIn(NextStore(st, now, th).bindings, cfg.limit, Vetted(NextPc(cfg, st, now, db, at, th, c)))
  {
    var Occupancy(todo, kept, _) := th.pc;
    if todo != [] {
      hide Holders, LiveHolders;
      var st' := NextStore(st, now, th);
      ThreadStoreShrinks(st, now, th);
      ShrinkKeepsRoom(st.bindings, st'.bindings, cfg.limit, kept);
      if |LiveHolders(st, todo[0].id, now)| < cfg.limit {
        CountLeavesRoom(st, now, todo[0].id, cfg.limit);
        RoomAppend(st'.bindings, cfg.limit, kept, todo[0]);
      }
    }
  }

  lemma CooldownVets(cfg: Config, st: State, now: int, db: Db, at: nat, th: Thread, c: Choice)
    requires cfg.limit > 0
    requires RoomIn(st.bindings, cfg.limit, Vetted(th.pc)) && th.pc.Cooldown?
    ensures RoomIn(NextStore(st, now, th).bindings, cfg.limit, Vetted(NextPc(cfg, st, now, db, at, th, c)))
  {
    hide Holders, RoomIn;
    var Cooldown(todo, kept, _) := th.pc;
    RoomSubset(st.bindings, cfg.limit, todo + kept, Vetted(NextPc(cfg, st, now, db, at, th, c)));
  }

  lemma ChooseVets(cfg: Config, st: State, now: int, db: Db, at: nat, th: Thread, c: Choice)
    requires cfg.limit > 0
    requires RoomIn(st.bindings, cfg.limit, Vetted(th.pc)) && th.pc.Choose? && Admissible(th, db, c)
    ensures RoomIn(NextStore(st, now, th).bindings, cfg.limit, Vetted(NextPc(cfg, st, now, db, at, th, c)))
  {
    hide Holders, RoomIn;
    RoomSubset(st.bindings, cfg.limit, th.pc.candidates, [c.picked]);
  }

  /** Every other step vets nothing new. */
  lemma NothingNewVetted(cfg: Config, st: State, now: int, db: Db, at: nat, th: Thread, c: Choice)
    requires cfg.limit > 0
    requires !th.pc.PinCount? && !th.pc.Occupancy? && !th.pc.Cooldown? && !th.pc.Choose? && !th.pc.Bind?
    ensures var vetted := Vetted(NextPc(cfg, st, now, db, at, th, c)); vetted == [] || vetted == Vetted(th.pc)
  {
    hide Fits, Eligible, ReadParent, RegionMismatch, GetResult;
  }

  /** The rows a thread vets in a step have room after it. */
  lemma ThreadVets(cfg: Config, st: State, now: int, db: Db, at: nat, th: Thread, c: Choice)
    requires cfg.limit > 0 && !th.pc.Bind? && Admissible(th, db, c)
    requires RoomIn(st.bindings, cfg.limit, Vetted(th.pc))
    ensures RoomIn(NextStore(st, now, th).bindings, cfg.limit, Vetted(NextPc(cfg, st, now, db, at, th, c)))
  {
    match th.pc
    case PinCount(_, _) => CountVets(cfg, st, now, db, at, th, c);
    case Occupancy(_, _, _) => OccupancyVets(cfg, st, now, db, at, th, c);
    case Cooldown(_, _, _) => CooldownVets(cfg, st, now, db, at, th, c);
    case Choose(_, _) => ChooseVets(cfg, st, now, db, at, th, c);
    case _ =>
      hide NextPc, NextStore, RoomIn, Admissible, Shrinks, Vetted;
      NothingNewVetted(cfg, st, now, db, at, th, c);
      ThreadStoreShrinks(st, now, th);
      ShrinkKeepsRoom(st.bindings, NextStore(st, now, th).bindings, cfg.limit, Vetted(th.pc));
      NothingVetted(NextStore(st, now, th).bindings, cfg.limit);
  }

  lemma RoomSubset(b: Bindings, limit: nat, rows: seq<Proxy>, rows': seq<Proxy>)
    requires RoomIn(b, limit, rows) && forall row | row in rows' :: row in rows
    ensures RoomIn(b, limit, rows')
  {
    forall i | 0 <= i < |rows'| ensures |Holders(b, rows'[i].id)| < limit {
      assert rows'[i] in rows;
    }
  }

  /** Binding a session to a proxy with room keeps every proxy within the limit. */
  lemma BindWithinLimit(b: Bindings, s: Session, n: Binding, limit: nat)
    requires WithinLimit(b, limit) && |Holders(b, n.proxyId)| < limit
    ensures WithinLimit(b[s := n], limit)
  {
    var b' := b[s := n];
    forall p ensures |Holders(b', p)| <= limit {
      if p == n.proxyId {
        SubsetSize(Holders(b', p), Holders(b, p) + {s});
      } else {
        SubsetSize(Holders(b', p), Holders(b, p));
      }
    }
  }

  /** Threads outside the critical section have vetted nothing. */
  lemma VettedNeedsLock(pc: Pc)
    requires !Holding(pc)
    ensures Vetted(pc) == []
  {
  }

  lemma CapacityBindStep(cfg: Config, s: Sys, a: Action)
    requires cfg.limit > 0 && Enabled(s, a) && LockInv(s) && CapacityInv(cfg, s) && IsBind(s, a)
    ensures CapacityInv(cfg, Step(cfg, s, a))
  {
    hide Holders, WithinLimit, Admissible, RoomIn;
    var s' := Step(cfg, s, a);
    var th := s.threads[a.tid];
    var row := th.pc.row;
    HasRoom(s.store.bindings, cfg.limit, row);
    BindWithinLimit(s.store.bindings, th.route.session,
                    Binding(row.id, row.route.address, row.region, s.now), cfg.limit);
    forall t | t in s'.threads ensures RoomIn(s'.store.bindings, cfg.limit, Vetted(s'.threads[t].pc)) {
      if t != a.tid {
        VettedNeedsLock(s.threads[t].pc);
      }
      NothingVetted(s'.store.bindings, cfg.limit);
    }
  }

  lemma HasRoom(b: Bindings, limit: nat, row: Proxy)
    requires RoomIn(b, limit, [row])
    ensures |Holders(b, row.id)| < limit
  {
    assert [row][0] == row;
  }

  lemma NothingVetted(b: Bindings, limit: nat)
    ensures RoomIn(b, limit, [])
  {
  }

  lemma CapacityOtherStep(cfg: Config, s: Sys, a: Action)
    requires cfg.limit > 0 && Enabled(s, a) && CapacityInv(cfg, s) && !IsBind(s, a)
    ensures CapacityInv(cfg, Step(cfg, s, a))
  {
    hide Holders, Admissible, RoomIn, Shrinks, NextPc, NextStore;
    var s' := Step(cfg, s, a);
    StoreShrinks(cfg, s, a);
    forall p ensures |Holders(s'.store.bindings, p)| <= cfg.limit {
      ShrinkHolders(s.store.bindings, s'.store.bindings, p);
    }
    forall t | t in s'.threads ensures RoomIn(s'.store.bindings, cfg.limit, Vetted(s'.threads[t].pc)) {
      if a.Run? && t == a.tid {
        ThreadVets(cfg, s.store, s.now, Current(s), |s.history| - 1, s.threads[t], a.choice);
      } else if t in s.threads && s'.threads[t].pc == s.threads[t].pc {
        ShrinkKeepsRoom(s.store.bindings, s'.store.bindings, cfg.limit, Vetted(s.threads[t].pc));
      } else {
        NothingVetted(s'.store.bindings, cfg.limit);
      }
    }
  }

  /** In every run with a positive limit no proxy ever has more bindings than
      the limit, counting expired ones that were not collected yet. */
  lemma {:induction false} CapacityInEveryRun(cfg: Config, run: seq<Sys>, actions: seq<Action>, k: nat)
    requires cfg.limit > 0 && IsRun(cfg, run, actions) && k < |run|
    ensures LockInv(run[k]) && CapacityInv(cfg, run[k])
    ensures forall p :: |Holders(run[k].store.bindings, p)| <= cfg.limit
    decreases k
  {
    if k == 0 {
      forall p ensures |Holders(run[0].store.bindings, p)| <= cfg.limit {
        assert Holders(run[0].store.bindings, p) == {};
      }
    } else {
      CapacityInEveryRun(cfg, run, actions, k - 1);
      var s, a := run[k - 1], actions[k - 1];
      assert Enabled(s, a) && run[k] == Step(cfg, s, a);
      LockStep(cfg, s, a);
      if IsBind(s, a) {
        CapacityBindStep(cfg, s, a);
      } else {
        CapacityOtherStep(cfg, s, a);
      }
    }
  }
}
