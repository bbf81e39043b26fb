/** Stickiness: a session whose node is still good gets it back, and gives it up
    only for a reason. */
module BindSticky {
  import opened Wrappers
  import opened Text
  import opened Affinity
  import opened Storage
  import opened BindProtocol
  import opened BindResult

  /** The session of `th` is live-bound to `p`, and row `p` of subscription `g`
      still serves the request, which pins this node or none. */
  predicate Good(s: Sys, th: Thread, p: ProxyId, g: int) {
    && WellFormed(s) && th.route.session != "" && p > 0 && p !in th.tried
    && (th.route.node != "" ==> Matching(Current(s), th.route.node) == {p})
    && Live(s.store, th.route.session, s.now) && GoodBinding(s.store.bindings[th.route.session], th, p)
    && p in Current(s).rows && GoodRow(Current(s), Current(s).rows[p], th, g)
  }

  predicate GoodBinding(b: Binding, th: Thread, p: ProxyId) {
    b.proxyId == p && !RegionMismatch(b.region, th.route.region)
  }

  predicate GoodRow(db: Db, row: Proxy, th: Thread, g: int) {
    && Available(row) && !RegionMismatch(row.region, th.route.region) && MatchesUnlock(row, th.route.unlock)
    && row.route.subscriptionId == g && (g > 0 ==> ReadParent(db, g) == ParentActive)
  }

  /** Nothing speaks against the binding in this state, and the step is not a new
      attempt of the thread nor a read of its that faults. */
  predicate Undisturbed(s: Sys, a: Action, t: Tid, p: ProxyId, g: int) {
    && t in s.threads && Good(s, s.threads[t], p, g)
    && (a.Begin? || a.DialFails? || a.Finish? ==> a.tid != t)
    && (a.Run? && a.tid == t ==> !a.choice.Fault? && (PinLookup(s.threads[t]) ==> a.choice.Pick?))
  }

  /** About to look up the pinned node. */
  predicate PinLookup(th: Thread) {
    th.pc.Start? && th.route.node != ""
  }

  /** On the way to the bound node, without counting, releasing or binding. */
  predicate OnSticky(pc: Pc, p: ProxyId, g: int) {
    match pc
    case Start => true
    case PinParent(row, _) => row.id == p && row.route.subscriptionId == g > 0
    case PinWait(row, _) => row.id == p
    case PinGet(row, _) => row.id == p
    case StickyGet(locked) => !locked
    case StickyRow(b, locked) => b.proxyId == p && !locked
    case StickyParent(row, _, locked) => row.id == p && row.route.subscriptionId == g > 0 && !locked
    case Done(row, _) => row.id == p
    case _ => false
  }

  predicate SameCall(th: Thread, th': Thread) {
    th'.route == th.route && th'.tried == th.tried && th'.begun == th.begun
  }

  lemma StickyThread(cfg: Config, s: Sys, th: Thread, c: Choice, p: ProxyId, g: int)
    requires Good(s, th, p, g) && OnSticky(th.pc, p, g) && Running(th.pc) && !c.Fault?
    requires Admissible(th, Current(s), c) && (PinLookup(th) ==> c.Pick?)
    ensures OnSticky(NextPc(cfg, s.store, s.now, Current(s), |s.history| - 1, th, c), p, g)
    ensures !th.pc.Bind? && !th.pc.ReleaseRemove?
  {
    hide RegionMismatch, Available, MatchesUnlock, ReadParent, Matching;
    assert Current(s).Valid();
    assert Current(s).rows[p].id == p;
    if PinLookup(th) {
      assert Matching(Current(s), th.route.node) == {c.picked.id};
      assert p in Matching(Current(s), th.route.node);
    }
  }

  lemma StickyStep(cfg: Config, s: Sys, a: Action, t: Tid, p: ProxyId, g: int)
    requires Enabled(s, a) && Undisturbed(s, a, t, p, g) && OnSticky(s.threads[t].pc, p, g)
    ensures var s' := Step(cfg, s, a);
            t in s'.threads && OnSticky(s'.threads[t].pc, p, g) && SameCall(s.threads[t], s'.threads[t])
    ensures a.Run? && a.tid == t ==> Step(cfg, s, a).binds == s.binds
  {
    hide NextPc, NextStore, Admissible, Good, OnSticky;
    if a.Run? && a.tid == t {
      StickyThread(cfg, s, s.threads[t], a.choice, p, g);
    }
  }

  /** In every run: as long as nothing speaks against its binding, a call with a
      session, pinned to this node or not, never counts, releases or binds
      anything, however full or cooling the node is, and the only node it can
      return is the bound one. */
  lemma {:induction false} StickyInEveryRun(cfg: Config, run: seq<Sys>, actions: seq<Action>, t: Tid, p: ProxyId,
                                            g: int, i: nat, j: nat)
    requires IsRun(cfg, run, actions) && i <= j < |run| && t in run[i].threads && run[i].threads[t].pc.Start?
    requires forall k | i <= k < j :: Undisturbed(run[k], actions[k], t, p, g)
    ensures t in run[j].threads && OnSticky(run[j].threads[t].pc, p, g)
    ensures SameCall(run[i].threads[t], run[j].threads[t])
    ensures forall k | i <= k < j && actions[k].Run? && actions[k].tid == t :: run[k + 1].binds == run[k].binds
    decreases j
  {
    hide IsRun, Enabled, Step, Undisturbed;
    if i < j {
      StickyInEveryRun(cfg, run, actions, t, p, g, i, j - 1);
      RunStep(cfg, run, actions, j - 1);
      StickyStep(cfg, run[j - 1], actions[j - 1], t, p, g);
    }
  }

  /** So a call that left the sticky path, in particular one about to release the
      session's binding, has met a reason: in some state of the call the binding
      was not live or not on this node, the node did not serve the request or its
      parent was not active, or a read faulted. */
  lemma ReleaseHasReason(cfg: Config, run: seq<Sys>, actions: seq<Action>, t: Tid, p: ProxyId, g: int, i: nat, j: nat)
    requires IsRun(cfg, run, actions) && i <= j < |run| && t in run[i].threads && run[i].threads[t].pc.Start?
    requires t in run[j].threads && !OnSticky(run[j].threads[t].pc, p, g)
    ensures exists k | i <= k < j :: !Undisturbed(run[k], actions[k], t, p, g)
  {
    RunLength(cfg, run, actions);
    hide IsRun, Undisturbed, OnSticky;
    if forall k | i <= k < j :: Undisturbed(run[k], actions[k], t, p, g) {
      StickyInEveryRun(cfg, run, actions, t, p, g, i, j);
    }
  }

  // ------------------------------------------------ renewal

  /** A read of the session's binding by one of its own requests. */
  predicate OwnRead(s: Sys, a: Action, session: Session) {
    a.Run? && a.tid in s.threads && s.threads[a.tid].route.session == session
    && (s.threads[a.tid].pc.PinGet? || s.threads[a.tid].pc.StickyGet? || s.threads[a.tid].pc.ReleaseGet?)
  }

  /** When the session was last read, counting from state `i`. */
  function LastRead(run: seq<Sys>, actions: seq<Action>, session: Session, i: nat, k: nat): int
    requires i <= k < |run| == |actions| + 1 && session in run[i].store.bindings
    decreases k
  {
    if k == i then run[i].store.bindings[session].lastActive
    else if OwnRead(run[k - 1], actions[k - 1], session) then run[k - 1].now
    else LastRead(run, actions, session, i, k - 1)
  }

  /** Less than the TTL has passed since then. */
  predicate ReadInTime(run: seq<Sys>, actions: seq<Action>, session: Session, i: nat, k: nat)
    requires i <= k < |run| == |actions| + 1 && session in run[i].store.bindings
  {
    run[k].store.ttl <= 0 || run[k].now - LastRead(run, actions, session, i, k) < run[k].store.ttl
  }

  predicate ActiveAt(st: State, session: Session, p: ProxyId, time: int) {
    BoundTo(st, session, p) && st.bindings[session].lastActive == time
  }

  lemma ThreadRenews(st: State, now: int, th: Thread, session: Session, p: ProxyId, time: int)
    requires ActiveAt(st, session, p, time) && Live(st, session, now)
    requires th.route.session == session ==> !th.pc.ReleaseRemove? && !th.pc.Bind?
    ensures var renews := th.route.session == session && (th.pc.PinGet? || th.pc.StickyGet? || th.pc.ReleaseGet?);
            ActiveAt(NextStore(st, now, th), session, p, if renews then now else time)
  {
  }

  lemma RenewStep(cfg: Config, s: Sys, a: Action, session: Session, p: ProxyId, time: int)
    requires Enabled(s, a) && ActiveAt(s.store, session, p, time) && Live(s.store, session, s.now)
    requires !Loses(s, a, session)
    ensures ActiveAt(Step(cfg, s, a).store, session, p, if OwnRead(s, a, session) then s.now else time)
  {
    hide NextPc, NextStore, Admissible;
    if a.Run? {
      ThreadRenews(s.store, s.now, s.threads[a.tid], session, p, time);
    }
  }

  /** In every run a session that is read at intervals below the TTL never
      expires: it stays live on its node until it gives it up itself. */
  lemma {:induction false} AliveInEveryRun(cfg: Config, run: seq<Sys>, actions: seq<Action>, session: Session,
                                           i: nat, j: nat)
    requires IsRun(cfg, run, actions) && |run| == |actions| + 1 && i <= j < |run| && session in run[i].store.bindings
    requires forall k | i <= k <= j :: ReadInTime(run, actions, session, i, k)
    requires forall k | i <= k < j :: !Loses(run[k], actions[k], session)
    ensures ActiveAt(run[j].store, session, run[i].store.bindings[session].proxyId,
                     LastRead(run, actions, session, i, j))
    ensures Live(run[j].store, session, run[j].now)
    decreases j
  {
    hide IsRun, Enabled, Step, Loses, OwnRead;
    if i < j {
      var k := j - 1;
      AliveInEveryRun(cfg, run, actions, session, i, k);
      RunStep(cfg, run, actions, k);
      RenewStep(cfg, run[k], actions[k], session, run[i].store.bindings[session].proxyId,
                LastRead(run, actions, session, i, k));
    }
    assert ReadInTime(run, actions, session, i, j);
  }
}
