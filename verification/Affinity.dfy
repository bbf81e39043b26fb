/** The session store of `affinity/store.go`: session bindings, their reverse
    index by proxy, and cooldown deadlines.  Every method is one critical
    section and takes the clock reading it works with. */
module Affinity {
  import opened Wrappers

  type Session = string
  datatype Binding = Binding(proxyId: ProxyId, address: string, region: string, lastActive: int)

  type Bindings = map<Session, Binding>

  /** `ttl <= 0` means that bindings never expire. */
  predicate Expired(b: Binding, ttl: int, now: int) {
    ttl > 0 && now - b.lastActive >= ttl
  }

  // ------------------------------------------------ the store as a value

  /** What the store is about; the reverse index follows from it. */
  datatype State = State(bindings: Bindings, cooldown: map<ProxyId, int>, ttl: int)

  predicate Live(st: State, s: Session, now: int) {
    s in st.bindings && !Expired(st.bindings[s], st.ttl, now)
  }

  /** Every session bound to `p`, expired or not. */
  function Holders(b: Bindings, p: ProxyId): set<Session> {
    set s | s in b && b[s].proxyId == p
  }

  function LiveHolders(st: State, p: ProxyId, now: int): set<Session> {
    set s | s in st.bindings && st.bindings[s].proxyId == p && !Expired(st.bindings[s], st.ttl, now)
  }

  /** The reverse index as a function of the bindings: no empty sets. */
  function Inverse(b: Bindings): map<ProxyId, set<Session>> {
    map p | p in (set s | s in b :: b[s].proxyId) :: Holders(b, p)
  }

  function Without(st: State, s: Session): State {
    st.(bindings := st.bindings - {s})
  }

  function AfterGet(st: State, s: Session, now: int): State {
    if Live(st, s, now) then st.(bindings := st.bindings[s := st.bindings[s].(lastActive := now)])
    else Without(st, s)
  }

  function GetResult(st: State, s: Session, now: int): Option<Binding> {
    if Live(st, s, now) then Some(st.bindings[s].(lastActive := now)) else None
  }

  function AfterSetProxy(st: State, s: Session, p: ProxyId, address: string, region: string, now: int): State {
    st.(bindings := st.bindings[s := Binding(p, address, region, now)])
  }

  /** `RemoveIfProxyID` also drops an expired binding it happens to meet. */
  function AfterRemoveIf(st: State, s: Session, p: ProxyId, now: int): State {
    if s in st.bindings && (Expired(st.bindings[s], st.ttl, now) || st.bindings[s].proxyId == p) then Without(st, s)
    else st
  }

  /** Counting drops the expired holders of `p` and nothing else. */
  function AfterCount(st: State, p: ProxyId, now: int): State {
    st.(bindings := map s | s in st.bindings && (st.bindings[s].proxyId == p ==> !Expired(st.bindings[s], st.ttl, now))
                      :: st.bindings[s])
  }

  predicate Cooling(st: State, p: ProxyId, now: int) {
    p in st.cooldown && now < st.cooldown[p]
  }

  /** Reading a cooldown drops a deadline that has passed. */
  function AfterInCooldown(st: State, p: ProxyId, now: int): State {
    if Cooling(st, p, now) then st else st.(cooldown := st.cooldown - {p})
  }

  function AfterSetCooldown(st: State, p: ProxyId, until: int): State {
    st.(cooldown := st.cooldown[p := until])
  }

  function AfterCollect(st: State, now: int): State {
    State(map s | s in st.bindings && !Expired(st.bindings[s], st.ttl, now) :: st.bindings[s],
          map p | p in st.cooldown && now < st.cooldown[p] :: st.cooldown[p],
          st.ttl)
  }

  // ------------------------------------------------ the store

  datatype SessionBinding = SessionBinding(session: Session, binding: Binding)

  class Store {
    var bindings: Bindings
    var reverse: map<ProxyId, set<Session>>
    var cooldown: map<ProxyId, int>
    var ttl: int

    /** The reverse index is exactly the inverse of the bindings. */
    ghost predicate Valid()
      reads this
    {
      reverse == Inverse(bindings)
    }

    ghost function Abs(): State
      reads this
    {
      State(bindings, cooldown, ttl)
    }

    constructor (ttl: int)
      ensures Valid() && Abs() == State(map[], map[], ttl)
    {
      this.bindings, this.reverse, this.cooldown, this.ttl := map[], map[], map[], ttl;
    }

    method AttachReverse(s: Session, p: ProxyId)
      modifies this`reverse
      ensures reverse == old(reverse)[p := (if p in old(reverse) then old(reverse)[p] else {}) + {s}]
    {
      if p !in reverse {
        reverse := reverse[p := {}];
      }
      reverse := reverse[p := reverse[p] + {s}];
    }

    method DetachReverse(s: Session, p: ProxyId)
      modifies this`reverse
      ensures reverse == Detached(old(reverse), s, p)
    {
      if p !in reverse { return; }
      reverse := reverse[p := reverse[p] - {s}];
      if reverse[p] == {} {
        reverse := reverse - {p};
      }
    }

    method RemoveBinding(s: Session, p: ProxyId)
      requires Valid() && s in bindings && bindings[s].proxyId == p
      modifies this`bindings, this`reverse
      ensures Valid() && Abs() == Without(old(Abs()), s)
    {
      DetachKeepsInverse(bindings, s);
      bindings := bindings - {s};
      DetachReverse(s, p);
    }

    method Get(s: Session, now: int) returns (r: Option<Binding>)
      requires Valid()
      modifies this`bindings, this`reverse
      ensures Valid()
      ensures Abs() == AfterGet(old(Abs()), s, now) && r == GetResult(old(Abs()), s, now)
      ensures r.Some? <==> old(Live(Abs(), s, now))
      ensures r.Some? ==> s in bindings && r.value == bindings[s] == old(bindings)[s].(lastActive := now)
      ensures r.None? ==> s !in bindings
      ensures forall x | x != s :: x in bindings <==> x in old(bindings)
      ensures forall x | x != s && x in bindings :: bindings[x] == old(bindings)[x]
    {
      if s !in bindings {
        assert bindings - {s} == bindings;
        return None;
      }
      var b := bindings[s];
      if Expired(b, ttl, now) {
        RemoveBinding(s, b.proxyId);
        return None;
      }
      b := b.(lastActive := now);
      RefreshKeepsInverse(bindings, s, b);
      bindings := bindings[s := b];
      return Some(b);
    }

    method SetProxy(s: Session, p: ProxyId, address: string, region: string, now: int)
      requires Valid()
      modifies this`bindings, this`reverse
      ensures Valid()
      ensures Abs() == AfterSetProxy(old(Abs()), s, p, address, region, now)
      ensures bindings == old(bindings)[s := Binding(p, address, region, now)] && Live(Abs(), s, now)
    {
      AttachKeepsInverse(bindings, s, Binding(p, address, region, now));
      if s in bindings {
        DetachReverse(s, bindings[s].proxyId);
      }
      bindings := bindings[s := Binding(p, address, region, now)];
      AttachReverse(s, p);
    }

    method Remove(s: Session)
      requires Valid()
      modifies this`bindings, this`reverse
      ensures Valid() && Abs() == Without(old(Abs()), s)
    {
      if s in bindings {
        RemoveBinding(s, bindings[s].proxyId);
      } else {
        assert bindings - {s} == bindings;
      }
    }

    method RemoveIfProxyID(s: Session, p: ProxyId, now: int) returns (removed: bool)
      requires Valid()
      modifies this`bindings, this`reverse
      ensures Valid() && Abs() == AfterRemoveIf(old(Abs()), s, p, now)
      ensures removed <==> old(Live(Abs(), s, now)) && old(bindings)[s].proxyId == p
      ensures s in bindings <==> old(Live(Abs(), s, now)) && !removed
      ensures forall x | x != s :: x in bindings <==> x in old(bindings)
      ensures forall x | x in bindings :: bindings[x] == old(bindings)[x]
    {
      if s !in bindings { return false; }
      var b := bindings[s];
      if Expired(b, ttl, now) {
        RemoveBinding(s, b.proxyId);
        return false;
      }
      if b.proxyId != p { return false; }
      RemoveBinding(s, p);
      return true;
    }

    method SetCooldown(p: ProxyId, until: int)
      modifies this`cooldown
      ensures Abs() == AfterSetCooldown(old(Abs()), p, until)
    {
      cooldown := cooldown[p := until];
    }

    method InCooldown(p: ProxyId, now: int) returns (cooling: bool)
      modifies this`cooldown
      ensures cooling == Cooling(old(Abs()), p, now) && Abs() == AfterInCooldown(old(Abs()), p, now)
    {
      if p !in cooldown {
        assert cooldown - {p} == cooldown;
        return false;
      }
      if now >= cooldown[p] {
        cooldown := cooldown - {p};
        return false;
      }
      return true;
    }

    method CooldownRemaining(p: ProxyId, now: int) returns (rem: int)
      modifies this`cooldown
      ensures Abs() == AfterInCooldown(old(Abs()), p, now)
      ensures rem == if Cooling(old(Abs()), p, now) then old(cooldown)[p] - now else 0
    {
      if p !in cooldown {
        assert cooldown - {p} == cooldown;
        return 0;
      }
      rem := cooldown[p] - now;
      if rem <= 0 {
        cooldown := cooldown - {p};
        return 0;
      }
    }

    /** Purges the expired holders of `p` while walking its index entry. */
    method CountByProxy(p: ProxyId, now: int) returns (count: nat)
      requires Valid()
      modifies this`bindings, this`reverse
      ensures Valid() && Abs() == AfterCount(old(Abs()), p, now)
      ensures count == |LiveHolders(old(Abs()), p, now)| == |Holders(bindings, p)|
      ensures forall s | old(Live(Abs(), s, now)) :: s in bindings && bindings[s] == old(bindings)[s]
    {
      if p !in reverse {
        NoHolders(old(Abs()), p, now);
        return 0;
      }
      var todo := reverse[p];
      while todo != {}
        invariant Valid()
        invariant cooldown == old(cooldown) && ttl == old(ttl)
        invariant todo <= Holders(bindings, p)
        invariant bindings.Keys <= old(bindings).Keys
        invariant forall s | s in bindings :: bindings[s] == old(bindings)[s]
        invariant forall s | s in old(bindings) && s !in bindings ::
                    old(bindings)[s].proxyId == p && Expired(old(bindings)[s], ttl, now)
        invariant forall s | s in bindings && bindings[s].proxyId == p && s !in todo :: !Expired(bindings[s], ttl, now)
        decreases todo
      {
        var s :| s in todo;
        todo := todo - {s};
        if Expired(bindings[s], ttl, now) {
          RemoveBinding(s, p);
        }
      }
      assert Holders(bindings, p) == LiveHolders(old(Abs()), p, now);
      assert bindings == AfterCount(old(Abs()), p, now).bindings;
      if p !in reverse {
        NoHolders(Abs(), p, now);
        return 0;
      }
      return |reverse[p]|;
    }

    /** One GC sweep. */
    method CollectExpired(now: int)
      requires Valid()
      modifies this`bindings, this`reverse, this`cooldown
      ensures Valid() && Abs() == AfterCollect(old(Abs()), now)
      ensures forall s :: s in bindings <==> old(Live(Abs(), s, now))
      ensures forall s | s in bindings :: bindings[s] == old(bindings)[s]
      ensures forall p :: p in cooldown <==> p in old(cooldown) && now < old(cooldown)[p]
      ensures forall p | p in cooldown :: cooldown[p] == old(cooldown)[p]
    {
      var todo := bindings.Keys;
      while todo != {}
        invariant Valid() && todo <= bindings.Keys <= old(bindings).Keys
        invariant cooldown == old(cooldown) && ttl == old(ttl)
        invariant forall s | s in bindings :: bindings[s] == old(bindings)[s]
        invariant forall s | s in old(bindings) && s !in bindings :: Expired(old(bindings)[s], ttl, now)
        invariant forall s | s in bindings && s !in todo :: !Expired(bindings[s], ttl, now)
        decreases todo
      {
        var s :| s in todo;
        todo := todo - {s};
        if Expired(bindings[s], ttl, now) {
          RemoveBinding(s, bindings[s].proxyId);
        }
      }
      assert bindings == AfterCollect(old(Abs()), now).bindings;
      cooldown := map p | p in cooldown && now < cooldown[p] :: cooldown[p];
    }

    method SetTTL(ttl: int)
      modifies this`ttl
      ensures Abs() == old(Abs()).(ttl := ttl)
    {
      this.ttl := ttl;
    }

    /** A snapshot of the live bindings, in no particular order. */
    method List(now: int) returns (result: seq<SessionBinding>)
      requires Valid()
      ensures Lists(result, Abs(), now)
    {
      result := [];
      var todo := bindings.Keys;
      while todo != {}
        invariant todo <= bindings.Keys
        invariant forall i | 0 <= i < |result| ::
                    result[i].session !in todo && Live(Abs(), result[i].session, now)
                    && result[i].binding == bindings[result[i].session]
        invariant forall i, j | 0 <= i < j < |result| :: result[i].session != result[j].session
        invariant forall s | Live(Abs(), s, now) && s !in todo :: SessionBinding(s, bindings[s]) in result
        decreases todo
      {
        var s :| s in todo;
        todo := todo - {s};
        if !Expired(bindings[s], ttl, now) {
          result := result + [SessionBinding(s, bindings[s])];
          assert result[|result| - 1] == SessionBinding(s, bindings[s]);
        }
      }
    }
  }

  function Detached(reverse: map<ProxyId, set<Session>>, s: Session, p: ProxyId): map<ProxyId, set<Session>> {
    if p !in reverse then reverse
    else if reverse[p] - {s} == {} then reverse - {p}
    else reverse[p := reverse[p] - {s}]
  }

  // ------------------------------------------------ the index

  lemma InverseHolds(b: Bindings, p: ProxyId)
    ensures p in Inverse(b) <==> Holders(b, p) != {}
    ensures p in Inverse(b) ==> Inverse(b)[p] == Holders(b, p)
  {
    if p in Inverse(b) {
      var s :| s in b && b[s].proxyId == p;
      assert s in Holders(b, p);
    }
    if Holders(b, p) != {} {
      var s :| s in Holders(b, p);
      assert b[s].proxyId in (set s | s in b :: b[s].proxyId);
    }
  }

  /** A map that agrees with the holders everywhere is the inverse. */
  lemma InverseUnique(b: Bindings, r: map<ProxyId, set<Session>>)
    requires forall p :: p in r <==> Holders(b, p) != {}
    requires forall p | p in r :: r[p] == Holders(b, p)
    ensures r == Inverse(b)
  {
    forall p ensures p in r <==> p in Inverse(b) {
      InverseHolds(b, p);
    }
    forall p | p in r ensures r[p] == Inverse(b)[p] {
      InverseHolds(b, p);
    }
  }

  /** Detaching a session keeps the index exact. */
  lemma DetachKeepsInverse(b: Bindings, s: Session)
    requires s in b
    ensures Detached(Inverse(b), s, b[s].proxyId) == Inverse(b - {s})
  {
    var r := Detached(Inverse(b), s, b[s].proxyId);
    forall p ensures (p in r <==> Holders(b - {s}, p) != {}) && (p in r ==> r[p] == Holders(b - {s}, p)) {
      InverseHolds(b, p);
      if p == b[s].proxyId {
        assert s in Holders(b, p);
        assert Holders(b - {s}, p) == Holders(b, p) - {s};
      } else {
        assert Holders(b - {s}, p) == Holders(b, p);
      }
    }
    InverseUnique(b - {s}, r);
  }

  lemma RefreshKeepsInverse(b: Bindings, s: Session, n: Binding)
    requires s in b && n.proxyId == b[s].proxyId
    ensures Inverse(b[s := n]) == Inverse(b)
  {
    forall p
      ensures p in Inverse(b) <==> Holders(b[s := n], p) != {}
      ensures p in Inverse(b) ==> Inverse(b)[p] == Holders(b[s := n], p)
    {
      InverseHolds(b, p);
      assert Holders(b[s := n], p) == Holders(b, p);
    }
    InverseUnique(b[s := n], Inverse(b));
  }

  /** Attaching a session after detaching its old binding keeps it exact too. */
  lemma AttachKeepsInverse(b: Bindings, s: Session, n: Binding)
    ensures var r := if s in b then Detached(Inverse(b), s, b[s].proxyId) else Inverse(b);
            r[n.proxyId := (if n.proxyId in r then r[n.proxyId] else {}) + {s}] == Inverse(b[s := n])
  {
    if s in b {
      DetachKeepsInverse(b, s);
    } else {
      assert b - {s} == b;
    }
    var c := b - {s};
    var r := Inverse(c);
    var r' := r[n.proxyId := (if n.proxyId in r then r[n.proxyId] else {}) + {s}];
    forall p ensures (p in r' <==> Holders(b[s := n], p) != {}) && (p in r' ==> r'[p] == Holders(b[s := n], p)) {
      InverseHolds(c, p);
      if p == n.proxyId {
        assert s in Holders(b[s := n], p);
        assert Holders(b[s := n], p) == Holders(c, p) + {s};
      } else {
        assert Holders(b[s := n], p) == Holders(c, p);
      }
    }
    InverseUnique(b[s := n], r');
  }

  lemma NoHolders(st: State, p: ProxyId, now: int)
    requires p !in Inverse(st.bindings)
    ensures LiveHolders(st, p, now) == {} && AfterCount(st, p, now) == st
  {
    InverseHolds(st.bindings, p);
    assert LiveHolders(st, p, now) <= Holders(st.bindings, p);
    forall s | s in st.bindings ensures st.bindings[s].proxyId != p {
      assert s !in Holders(st.bindings, p);
    }
    assert AfterCount(st, p, now).bindings == st.bindings;
  }

  // ------------------------------------------------ counting

  /** `list` names every live session once, with its binding. */
  predicate Lists(list: seq<SessionBinding>, st: State, now: int) {
    && (forall i | 0 <= i < |list| ::
          Live(st, list[i].session, now) && list[i].binding == st.bindings[list[i].session])
    && (forall i, j | 0 <= i < j < |list| :: list[i].session != list[j].session)
    && (forall s | s in st.bindings && Live(st, s, now) :: SessionBinding(s, st.bindings[s]) in list)
  }

  function CountIn(list: seq<SessionBinding>, p: ProxyId): nat {
    if list == [] then 0
    else (if list[0].binding.proxyId == p then 1 else 0) + CountIn(list[1..], p)
  }

  function SessionsIn(list: seq<SessionBinding>, p: ProxyId): set<Session> {
    set i | 0 <= i < |list| && list[i].binding.proxyId == p :: list[i].session
  }

  lemma SessionsStep(list: seq<SessionBinding>, p: ProxyId)
    requires list != []
    ensures SessionsIn(list, p)
         == (if list[0].binding.proxyId == p then {list[0].session} else {}) + SessionsIn(list[1..], p)
  {
    var rest := list[1..];
    forall s | s in SessionsIn(list, p)
      ensures s in SessionsIn(rest, p) || (list[0].binding.proxyId == p && list[0].session == s)
    {
      var i :| 0 <= i < |list| && list[i].binding.proxyId == p && list[i].session == s;
      if i > 0 {
        assert rest[i - 1] == list[i];
      }
    }
    forall s | s in SessionsIn(rest, p) ensures s in SessionsIn(list, p) {
      var i :| 0 <= i < |rest| && rest[i].binding.proxyId == p && rest[i].session == s;
      assert list[i + 1] == rest[i];
    }
  }

  lemma {:induction false} CountInIsCardinality(list: seq<SessionBinding>, p: ProxyId)
    requires forall i, j | 0 <= i < j < |list| :: list[i].session != list[j].session
    ensures CountIn(list, p) == |SessionsIn(list, p)|
  {
    if list != [] {
      var rest := list[1..];
      CountInIsCardinality(rest, p);
      var head := if list[0].binding.proxyId == p then {list[0].session} else {};
      SessionsStep(list, p);
      assert head !! SessionsIn(rest, p);
    }
  }

  /** Counting a proxy equals counting it in any listing of the same instant. */
  lemma CountMatchesList(list: seq<SessionBinding>, st: State, p: ProxyId, now: int)
    requires Lists(list, st, now)
    ensures CountIn(list, p) == |LiveHolders(st, p, now)|
  {
    CountInIsCardinality(list, p);
    forall s | s in LiveHolders(st, p, now) ensures s in SessionsIn(list, p) {
      var i :| 0 <= i < |list| && list[i] == SessionBinding(s, st.bindings[s]);
    }
    assert SessionsIn(list, p) == LiveHolders(st, p, now);
  }

  /** After a count every holder of the proxy is live, so the count is the
      number of all its bindings; other proxies keep theirs. */
  lemma CountPurges(st: State, p: ProxyId, now: int)
    ensures Holders(AfterCount(st, p, now).bindings, p) == LiveHolders(st, p, now)
    ensures forall q | q != p :: Holders(AfterCount(st, p, now).bindings, q) == Holders(st.bindings, q)
    ensures forall s | Live(st, s, now) ::
              s in AfterCount(st, p, now).bindings && AfterCount(st, p, now).bindings[s] == st.bindings[s]
  {
  }
}
