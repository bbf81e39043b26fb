/** The per-key token bucket of `webui/api_key_middleware.go`, with its eviction
    of idle buckets.  Time is in seconds and never runs backwards; tokens are
    reals. */
module RateLimit {
  import opened Wrappers

  const IDLE_TTL := 600.0
  const SWEEP_INTERVAL := 60.0
  const MAX_BUCKETS := 10000

  datatype Bucket = Bucket(tokens: real, lastSeen: real)

  type Buckets = map<string, Bucket>

  function Min(a: real, b: real): real {
    if a < b then a else b
  }

  /** Tokens gained over a time: `rate` per minute. */
  function Gain(rate: nat, seconds: real): real {
    seconds * rate as real / 60.0
  }

  /** The bucket brought up to date. */
  function Refilled(b: Bucket, rate: nat, now: real): Bucket {
    if now - b.lastSeen > 0.0 then
      Bucket(Min(b.tokens + Gain(rate, now - b.lastSeen), rate as real), now)
    else b
  }

  // ------------------------------------------------ the limiter as a value

  datatype State = State(rate: nat, buckets: Buckets, lastSweep: Option<real>)

  /** Buckets hold between zero and `rate` tokens and none is newer than `now`. */
  predicate Sane(st: State, now: real) {
    && st.rate > 0
    && |st.buckets| <= MAX_BUCKETS
    && (forall k | k in st.buckets ::
          0.0 <= st.buckets[k].tokens <= st.rate as real && st.buckets[k].lastSeen <= now)
  }

  predicate SweepDue(st: State, now: real) {
    |st.buckets| >= MAX_BUCKETS || st.lastSweep.None? || now - st.lastSweep.value >= SWEEP_INTERVAL
  }

  function Swept(st: State, now: real): State {
    if SweepDue(st, now) then
      State(st.rate, map k | k in st.buckets && now - st.buckets[k].lastSeen < IDLE_TTL :: st.buckets[k], Some(now))
    else st
  }

  /** The bucket a request finds, or the full one it creates. */
  function Found(st: State, key: string, now: real): Bucket {
    if key in st.buckets then Refilled(st.buckets[key], st.rate, now) else Bucket(st.rate as real, now)
  }

  predicate CapReached(st: State, key: string) {
    key !in st.buckets && |st.buckets| >= MAX_BUCKETS
  }

  predicate Allowed(st: State, key: string, now: real) {
    key != "" && var sw := Swept(st, now); !CapReached(sw, key) && Found(sw, key, now).tokens >= 1.0
  }

  function After(st: State, key: string, now: real): State {
    if key == "" then st
    else
      var sw := Swept(st, now);
      if CapReached(sw, key) then sw
      else
        var b := Found(sw, key, now);
        sw.(buckets := sw.buckets[key := if b.tokens >= 1.0 then b.(tokens := b.tokens - 1.0) else b])
  }

  // ------------------------------------------------ the limiter

  class Limiter {
    const ratePerMin: nat
    var buckets: Buckets
    var lastSweep: Option<real>

    ghost function Abs(): State
      reads this
    {
      State(ratePerMin, buckets, lastSweep)
    }

    constructor (ratePerMin: int)
      ensures Abs() == State(if ratePerMin <= 0 then 60 else ratePerMin, map[], None)
    {
      this.ratePerMin := if ratePerMin <= 0 then 60 else ratePerMin;
      buckets, lastSweep := map[], None;
    }

    method EvictStale(now: real)
      modifies this
      ensures Abs() == Swept(old(Abs()), now)
      ensures var due := |old(buckets)| >= 10000 || old(lastSweep).None? || now - old(lastSweep).value >= 60.0;
              && lastSweep == (if due then Some(now) else old(lastSweep))
              && (forall k :: k in buckets <==> k in old(buckets) && (due ==> now - old(buckets)[k].lastSeen < 600.0))
              && (forall k | k in buckets :: buckets[k] == old(buckets)[k])
    {
      var forced := |buckets| >= MAX_BUCKETS;
      if !forced && lastSweep.Some? && now - lastSweep.value < SWEEP_INTERVAL { return; }
      lastSweep := Some(now);
      var todo := buckets.Keys;
      while todo != {}
        invariant todo <= buckets.Keys <= old(buckets).Keys && lastSweep == Some(now)
        invariant forall k | k in buckets :: buckets[k] == old(buckets)[k]
        invariant forall k | k in old(buckets) && k !in buckets :: now - old(buckets)[k].lastSeen >= IDLE_TTL
        invariant forall k | k in buckets && k !in todo :: now - buckets[k].lastSeen < IDLE_TTL
        decreases todo
      {
        var k :| k in todo;
        todo := todo - {k};
        if now - buckets[k].lastSeen >= IDLE_TTL {
          buckets := buckets - {k};
        }
      }
      assert buckets == Swept(old(Abs()), now).buckets;
    }

    method Allow(key: string, now: real) returns (allowed: bool)
      modifies this
      ensures allowed == Allowed(old(Abs()), key, now)
      ensures Abs() == After(old(Abs()), key, now)
      ensures Sane(old(Abs()), now) ==>
                && (allowed <==>
                    key != "" && !CapReached(Swept(old(Abs()), now), key) && Level(old(Abs()), key, now) >= 1.0)
                && Level(Abs(), key, now) == Level(old(Abs()), key, now) - (if allowed then 1.0 else 0.0)
    {
      hide Gain, Swept;
      if Sane(Abs(), now) { RequestTakesOne(Abs(), key, now, key); }
      if key == "" { return false; }
      EvictStale(now);
      var b;
      if key !in buckets {
        if |buckets| >= MAX_BUCKETS { return false; }
        b := Bucket(ratePerMin as real, now);
      } else {
        b := buckets[key];
        var elapsed := now - b.lastSeen;
        if elapsed > 0.0 {
          var tokens := b.tokens + Gain(ratePerMin, elapsed);
          if tokens > ratePerMin as real {
            tokens := ratePerMin as real;
          }
          b := Bucket(tokens, now);
        }
      }
      buckets := buckets[key := b];
      if b.tokens < 1.0 { return false; }
      buckets := buckets[key := b.(tokens := b.tokens - 1.0)];
      return true;
    }
  }

  // ------------------------------------------------ the level of a key

  /** The tokens a request of `key` at `now` would find. */
  function Level(st: State, key: string, now: real): real {
    Found(st, key, now).tokens
  }

  lemma GainFacts(rate: nat, x: real, y: real)
    requires 0.0 <= x && 0.0 <= y
    ensures Gain(rate, x) >= 0.0 && Gain(rate, y) >= 0.0
    ensures Gain(rate, x + y) == Gain(rate, x) + Gain(rate, y)
    ensures Gain(rate, 60.0) == rate as real
  {
    assert (x + y) * rate as real == x * rate as real + y * rate as real;
  }

  /** A bucket idle for a minute is full again. */
  lemma IdleIsFull(b: Bucket, rate: nat, now: real)
    requires 0.0 <= b.tokens && now - b.lastSeen >= 60.0
    ensures Refilled(b, rate, now) == Bucket(rate as real, now)
  {
    hide Gain;
    GainFacts(rate, 60.0, now - b.lastSeen - 60.0);
    assert 60.0 + (now - b.lastSeen - 60.0) == now - b.lastSeen;
  }

  lemma LevelBounds(st: State, key: string, now: real)
    requires Sane(st, now)
    ensures 0.0 <= Level(st, key, now) <= st.rate as real
  {
    hide Gain;
    if key in st.buckets {
      GainFacts(st.rate, now - st.buckets[key].lastSeen, 0.0);
    }
  }

  /** Eviction changes no level: what it drops is full. */
  lemma SweepKeepsLevels(st: State, key: string, now: real, later: real)
    requires Sane(st, now) && now <= later
    ensures Sane(Swept(st, now), now)
    ensures Level(Swept(st, now), key, later) == Level(st, key, later)
  {
    var sw := Swept(st, now);
    assert sw.buckets.Keys <= st.buckets.Keys;
    SubsetSize(sw.buckets.Keys, st.buckets.Keys);
    if key in st.buckets && key !in sw.buckets {
      IdleIsFull(st.buckets[key], st.rate, later);
    }
  }

  /** The exact law of refilling: a level grows with time until it is full. */
  lemma LevelLaw(st: State, key: string, now: real, later: real)
    requires Sane(st, now) && now <= later
    ensures Level(st, key, later) == Min(st.rate as real, Level(st, key, now) + Gain(st.rate, later - now))
    ensures Level(st, key, now) <= Level(st, key, later) <= Level(st, key, now) + Gain(st.rate, later - now)
  {
    hide Gain;
    LevelBounds(st, key, now);
    GainFacts(st.rate, 0.0, later - now);
    if key in st.buckets {
      var b := st.buckets[key];
      GainFacts(st.rate, now - b.lastSeen, later - now);
      assert later - b.lastSeen == (now - b.lastSeen) + (later - now);
    }
  }

  /** A request lowers the level of its key by one if it is allowed, and leaves
      every other level alone. */
  lemma RequestTakesOne(st: State, key: string, now: real, other: string)
    requires Sane(st, now)
    ensures Sane(After(st, key, now), now)
    ensures Level(After(st, key, now), other, now)
            == Level(st, other, now) - (if other == key && Allowed(st, key, now) then 1.0 else 0.0)
    ensures Allowed(st, key, now) <==> key != "" && !CapReached(Swept(st, now), key) && Level(st, key, now) >= 1.0
  {
    hide Gain, Swept;
    var sw := Swept(st, now);
    SweepKeepsLevels(st, key, now, now);
    SweepKeepsLevels(st, other, now, now);
    LevelBounds(sw, key, now);
  }

  // ------------------------------------------------ runs

  datatype Request = Request(key: string, time: real)

  /** The states of the limiter over a run of requests. */
  function StateAt(start: State, run: seq<Request>, i: nat): State
    requires i <= |run|
  {
    if i == 0 then start else After(StateAt(start, run, i - 1), run[i - 1].key, run[i - 1].time)
  }

  predicate DecisionAt(start: State, run: seq<Request>, i: nat)
    requires i < |run|
  {
    Allowed(StateAt(start, run, i), run[i].key, run[i].time)
  }

  /** The clock never runs backwards. */
  predicate Monotone(begin: real, run: seq<Request>) {
    (forall i | 0 <= i < |run| :: begin <= run[i].time)
    && forall i, j | 0 <= i < j < |run| :: run[i].time <= run[j].time
  }

  function TimeAt(begin: real, run: seq<Request>, i: nat): real
    requires i <= |run|
  {
    if i == 0 then begin else run[i - 1].time
  }

  /** The table never exceeds its cap, in every run. */
  lemma {:induction false} SaneInEveryRun(start: State, begin: real, run: seq<Request>, i: nat)
    requires Sane(start, begin) && Monotone(begin, run) && i <= |run|
    ensures Sane(StateAt(start, run, i), TimeAt(begin, run, i))
    ensures |StateAt(start, run, i).buckets| <= MAX_BUCKETS
  {
    if i > 0 {
      SaneInEveryRun(start, begin, run, i - 1);
      SaneLater(StateAt(start, run, i - 1), TimeAt(begin, run, i - 1), run[i - 1].time);
      RequestTakesOne(StateAt(start, run, i - 1), run[i - 1].key, run[i - 1].time, run[i - 1].key);
    }
  }

  lemma SaneLater(st: State, now: real, later: real)
    requires Sane(st, now) && now <= later
    ensures Sane(st, later)
  {
  }

  /** Allowed requests of a key among `run[i..j]`. */
  function AllowedBetween(start: State, run: seq<Request>, key: string, i: nat, j: nat): nat
    requires i <= j <= |run|
    decreases j
  {
    if i == j then 0
    else AllowedBetween(start, run, key, i, j - 1)
         + (if run[j - 1].key == key && DecisionAt(start, run, j - 1) then 1 else 0)
  }

  /** Tokens taken since request `i` plus tokens left never exceed a full bucket
      plus what has been refilled since. */
  lemma {:induction false} TokensConserved(start: State, begin: real, run: seq<Request>, key: string, i: nat, j: nat)
    requires Sane(start, begin) && Monotone(begin, run) && i < j <= |run|
    ensures AllowedBetween(start, run, key, i, j) as real
            + Level(StateAt(start, run, j), key, run[j - 1].time)
            <= start.rate as real + Gain(start.rate, run[j - 1].time - run[i].time)
    decreases j
  {
    hide Gain, Level, After, Allowed;
    var st, t := StateAt(start, run, j - 1), run[j - 1].time;
    SaneInEveryRun(start, begin, run, j - 1);
    RateFixed(start, run, j - 1);
    SaneLater(st, TimeAt(begin, run, j - 1), t);
    RequestTakesOne(st, run[j - 1].key, t, key);
    if i == j - 1 {
      LevelBounds(st, key, t);
      GainFacts(start.rate, 0.0, 0.0);
      assert AllowedBetween(start, run, key, i, i) == 0;
    } else {
      var u := run[j - 2].time;
      TokensConserved(start, begin, run, key, i, j - 1);
      LevelLaw(st, key, u, t);
      GainFacts(start.rate, u - run[i].time, t - u);
      assert (u - run[i].time) + (t - u) == t - run[i].time;
    }
  }

  lemma {:induction false} RateFixed(start: State, run: seq<Request>, i: nat)
    requires i <= |run|
    ensures StateAt(start, run, i).rate == start.rate
  {
    if i > 0 {
      RateFixed(start, run, i - 1);
    }
  }

  /** Any window of `D` seconds allows a key at most `rate + rate * D / 60`
      requests, whatever is evicted or refused in between. */
  lemma WindowBound(start: State, begin: real, run: seq<Request>, key: string, i: nat, j: nat)
    requires Sane(start, begin) && Monotone(begin, run) && i < j <= |run|
    ensures AllowedBetween(start, run, key, i, j) as real
            <= start.rate as real + Gain(start.rate, run[j - 1].time - run[i].time)
  {
    TokensConserved(start, begin, run, key, i, j);
    SaneInEveryRun(start, begin, run, j);
    LevelBounds(StateAt(start, run, j), key, run[j - 1].time);
  }

  // ------------------------------------------------ the limiter that never evicts

  predicate IdealAllowed(st: State, key: string, now: real) {
    key != "" && Found(st, key, now).tokens >= 1.0
  }

  function IdealAfter(st: State, key: string, now: real): State {
    if key == "" then st
    else
      var b := Found(st, key, now);
      st.(buckets := st.buckets[key := if b.tokens >= 1.0 then b.(tokens := b.tokens - 1.0) else b])
  }

  function IdealAt(start: State, run: seq<Request>, i: nat): State
    requires i <= |run|
  {
    if i == 0 then start else IdealAfter(IdealAt(start, run, i - 1), run[i - 1].key, run[i - 1].time)
  }

  /** No request of the run so far was refused for lack of a bucket. */
  predicate CapNotReached(start: State, run: seq<Request>, n: nat)
    requires n <= |run|
  {
    forall i: nat | i < n :: !CapReached(Swept(StateAt(start, run, i), run[i].time), run[i].key)
  }

  /** The evicting limiter's table is the other one's, minus buckets that have
      been idle long enough to be full. */
  predicate Simulates(st: State, ideal: State, now: real) {
    && st.rate == ideal.rate
    && (forall k | k in st.buckets :: k in ideal.buckets && ideal.buckets[k] == st.buckets[k])
    && (forall k | k in ideal.buckets ::
          0.0 <= ideal.buckets[k].tokens
          && (k !in st.buckets ==> now - ideal.buckets[k].lastSeen >= 60.0))
  }

  lemma SimulatedFound(st: State, ideal: State, key: string, now: real)
    requires Simulates(st, ideal, now)
    ensures Found(st, key, now) == Found(ideal, key, now)
  {
    hide Gain;
    if key in ideal.buckets && key !in st.buckets {
      IdleIsFull(ideal.buckets[key], st.rate, now);
    }
  }

  lemma SimulationStep(st: State, ideal: State, key: string, now: real)
    requires Sane(st, now) && Simulates(st, ideal, now)
    requires !CapReached(Swept(st, now), key)
    ensures Allowed(st, key, now) == IdealAllowed(ideal, key, now)
    ensures Simulates(After(st, key, now), IdealAfter(ideal, key, now), now)
  {
    hide Gain;
    var sw := Swept(st, now);
    assert Simulates(sw, ideal, now);
    SimulatedFound(sw, ideal, key, now);
    SweepKeepsLevels(st, key, now, now);
    LevelBounds(sw, key, now);
  }

  lemma SimulatesItself(st: State, now: real)
    requires Sane(st, now)
    ensures Simulates(st, st, now)
  {
  }

  lemma SimulatesLater(st: State, ideal: State, now: real, later: real)
    requires Simulates(st, ideal, now) && now <= later
    ensures Simulates(st, ideal, later)
  {
  }

  lemma EvictionStart(start: State, begin: real, run: seq<Request>)
    requires Sane(start, begin)
    ensures Simulates(StateAt(start, run, 0), IdealAt(start, run, 0), TimeAt(begin, run, 0))
  {
    SimulatesItself(start, begin);
  }

  /** One more request of a run keeps the two limiters together. */
  lemma EvictionStep(start: State, begin: real, run: seq<Request>, i: nat)
    requires Sane(start, begin) && Monotone(begin, run) && i < |run|
    requires Simulates(StateAt(start, run, i), IdealAt(start, run, i), TimeAt(begin, run, i))
    requires !CapReached(Swept(StateAt(start, run, i), run[i].time), run[i].key)
    ensures Simulates(StateAt(start, run, i + 1), IdealAt(start, run, i + 1), TimeAt(begin, run, i + 1))
    ensures DecisionAt(start, run, i) == IdealAllowed(IdealAt(start, run, i), run[i].key, run[i].time)
  {
    hide After, IdealAfter, Allowed, IdealAllowed, Simulates, CapReached, Swept, Sane;
    var st, ideal, now := StateAt(start, run, i), IdealAt(start, run, i), run[i].time;
    SaneInEveryRun(start, begin, run, i);
    SaneLater(st, TimeAt(begin, run, i), now);
    SimulatesLater(st, ideal, TimeAt(begin, run, i), now);
    SimulationStep(st, ideal, run[i].key, now);
  }

  /** While the cap on buckets is not reached, evicting gives the same decision
      on every request as never evicting. */
  lemma {:induction false} EvictionUnobservable(start: State, begin: real, run: seq<Request>, n: nat)
    requires Sane(start, begin) && Monotone(begin, run) && n <= |run| && CapNotReached(start, run, n)
    ensures Simulates(StateAt(start, run, n), IdealAt(start, run, n), TimeAt(begin, run, n))
    ensures forall i: nat | i < n ::
              DecisionAt(start, run, i) == IdealAllowed(IdealAt(start, run, i), run[i].key, run[i].time)
  {
    hide StateAt, IdealAt, IdealAllowed, DecisionAt, Simulates, CapReached, Swept, Sane, Monotone, TimeAt;
    if n == 0 {
      EvictionStart(start, begin, run);
    } else {
      EvictionUnobservable(start, begin, run, n - 1);
      EvictionStep(start, begin, run, n - 1);
    }
  }
}
