/** What the limiter owes a key: the level is fixed by the key's own history, and
    a request is refused only if the key has used up a window. */
module RateEntitlement {
  import opened Wrappers
  import opened RateLimit

  /** What a full bucket at request `m` leaves for request `n`. */
  function Left(start: State, run: seq<Request>, key: string, m: nat, n: nat): real
    requires m <= n < |run|
  {
    start.rate as real + Gain(start.rate, run[n].time - run[m].time) - AllowedBetween(start, run, key, m, n) as real
  }

  /** The level that request `n` finds. */
  function LevelAt(start: State, run: seq<Request>, key: string, n: nat): real
    requires n < |run|
  {
    Level(StateAt(start, run, n), key, run[n].time)
  }

  lemma TimesApart(begin: real, run: seq<Request>, m: nat, n: nat)
    requires Monotone(begin, run) && m <= n < |run|
    ensures run[m].time <= run[n].time && begin <= run[m].time
    decreases n - m
  {
  }

  /** From one request to the next: what was allowed is taken, then refilled. */
  lemma LevelNext(start: State, begin: real, run: seq<Request>, key: string, n: nat)
    requires Sane(start, begin) && Monotone(begin, run) && n + 1 < |run|
    ensures var taken := if run[n].key == key && DecisionAt(start, run, n) then 1.0 else 0.0;
            LevelAt(start, run, key, n + 1)
            == Min(start.rate as real,
                   LevelAt(start, run, key, n) - taken + Gain(start.rate, run[n + 1].time - run[n].time))
  {
    hide Gain, Level, After, Allowed, Sane, Min;
    var st, now := StateAt(start, run, n), run[n].time;
    SaneInEveryRun(start, begin, run, n);
    RateFixed(start, run, n);
    RateFixed(start, run, n + 1);
    TimesApart(begin, run, n, n + 1);
    BeforeNext(begin, run, n);
    SaneLater(st, TimeAt(begin, run, n), now);
    RequestTakesOne(st, run[n].key, now, key);
    LevelLaw(After(st, run[n].key, now), key, now, run[n + 1].time);
  }

  lemma BeforeNext(begin: real, run: seq<Request>, n: nat)
    requires Monotone(begin, run) && n < |run|
    ensures TimeAt(begin, run, n) <= run[n].time
  {
    if n > 0 { TimesApart(begin, run, n - 1, n); } else { TimesApart(begin, run, 0, 0); }
  }

  /** A key that starts full always finds exactly what some window leaves: the
      level never falls further than the key's own allowed requests explain. */
  lemma {:induction false} LevelIsSomeWindow(start: State, begin: real, run: seq<Request>, key: string, n: nat)
    requires Sane(start, begin) && Monotone(begin, run) && n < |run| && Level(start, key, begin) == start.rate as real
    ensures exists m: nat :: m <= n && LevelAt(start, run, key, n) == Left(start, run, key, m, n)
  {
    hide Gain, Level, Left, LevelAt, StateAt, DecisionAt, Sane, Monotone;
    if n == 0 {
      FirstLevel(start, begin, run, key);
    } else {
      LevelIsSomeWindow(start, begin, run, key, n - 1);
      var m: nat :| m <= n - 1 && LevelAt(start, run, key, n - 1) == Left(start, run, key, m, n - 1);
      LevelNext(start, begin, run, key, n - 1);
      WindowGrows(start, begin, run, key, m, n - 1);
      WindowStarts(start, run, key, n);
    }
  }

  lemma FirstLevel(start: State, begin: real, run: seq<Request>, key: string)
    requires Sane(start, begin) && Monotone(begin, run) && 0 < |run| && Level(start, key, begin) == start.rate as real
    ensures LevelAt(start, run, key, 0) == Left(start, run, key, 0, 0)
  {
    hide Gain, Level, Sane;
    TimesApart(begin, run, 0, 0);
    LevelLaw(start, key, begin, run[0].time);
    GainFacts(start.rate, run[0].time - begin, 0.0);
    WindowStarts(start, run, key, 0);
  }

  lemma WindowStarts(start: State, run: seq<Request>, key: string, n: nat)
    requires n < |run|
    ensures Left(start, run, key, n, n) == start.rate as real
  {
    hide Gain;
    GainFacts(start.rate, 0.0, 0.0);
    assert run[n].time - run[n].time == 0.0;
  }

  lemma WindowGrows(start: State, begin: real, run: seq<Request>, key: string, m: nat, n: nat)
    requires Monotone(begin, run) && m <= n && n + 1 < |run|
    ensures var taken := if run[n].key == key && DecisionAt(start, run, n) then 1.0 else 0.0;
            Left(start, run, key, m, n + 1)
            == Left(start, run, key, m, n) - taken + Gain(start.rate, run[n + 1].time - run[n].time)
  {
    hide Gain, DecisionAt;
    TimesApart(begin, run, m, n);
    TimesApart(begin, run, n, n + 1);
    GainFacts(start.rate, run[n].time - run[m].time, run[n + 1].time - run[n].time);
    assert (run[n].time - run[m].time) + (run[n + 1].time - run[n].time) == run[n + 1].time - run[m].time;
  }

  /** No window leaves less than the level. */
  lemma LevelBelowWindows(start: State, begin: real, run: seq<Request>, key: string, m: nat, n: nat)
    requires Sane(start, begin) && Monotone(begin, run) && m <= n < |run|
    ensures LevelAt(start, run, key, n) <= Left(start, run, key, m, n)
    decreases n - m
  {
    hide Gain, Level, Sane, Left;
    if m == n {
      SaneInEveryRun(start, begin, run, n);
      RateFixed(start, run, n);
      BeforeNext(begin, run, n);
      SaneLater(StateAt(start, run, n), TimeAt(begin, run, n), run[n].time);
      LevelBounds(StateAt(start, run, n), key, run[n].time);
      WindowStarts(start, run, key, n);
    } else {
      LevelBelowWindows(start, begin, run, key, m, n - 1);
      LevelNext(start, begin, run, key, n - 1);
      WindowGrows(start, begin, run, key, m, n - 1);
    }
  }

  /** The window from request `m` has allowed the key more than a full bucket plus
      the refill minus one. */
  predicate UsedUp(start: State, run: seq<Request>, key: string, m: nat, n: nat)
    requires m <= n < |run|
  {
    AllowedBetween(start, run, key, m, n) as real
    > start.rate as real + Gain(start.rate, run[n].time - run[m].time) - 1.0
  }

  /** Exactly when a request is refused: the cap on buckets aside, if and only if
      some window that ends with it is used up. */
  lemma RefusedIff(start: State, begin: real, run: seq<Request>, n: nat)
    requires Sane(start, begin) && Monotone(begin, run) && n < |run| && run[n].key != ""
    requires Level(start, run[n].key, begin) == start.rate as real
    requires !CapReached(Swept(StateAt(start, run, n), run[n].time), run[n].key)
    ensures !DecisionAt(start, run, n) <==>
            exists m: nat :: m <= n && UsedUp(start, run, run[n].key, m, n)
  {
    hide Gain, Level, Sane, CapReached, Swept;
    var key := run[n].key;
    SaneInEveryRun(start, begin, run, n);
    BeforeNext(begin, run, n);
    SaneLater(StateAt(start, run, n), TimeAt(begin, run, n), run[n].time);
    RequestTakesOne(StateAt(start, run, n), key, run[n].time, key);
    assert DecisionAt(start, run, n) <==> LevelAt(start, run, key, n) >= 1.0;
    LevelIsSomeWindow(start, begin, run, key, n);
    forall m: nat | m <= n ensures LevelAt(start, run, key, n) <= Left(start, run, key, m, n) {
      LevelBelowWindows(start, begin, run, key, m, n);
    }
    if !DecisionAt(start, run, n) {
      var m: nat :| m <= n && LevelAt(start, run, key, n) == Left(start, run, key, m, n);
      assert UsedUp(start, run, key, m, n);
    }
    if m: nat :| m <= n && UsedUp(start, run, key, m, n) {
      assert LevelAt(start, run, key, n) <= Left(start, run, key, m, n);
    }
  }

  // ------------------------------------------------ keys that ask evenly are never refused

  /** Any two requests of the key are at least a token's time apart. */
  predicate Evenly(start: State, run: seq<Request>, key: string) {
    forall i, j | 0 <= i < j < |run| && run[i].key == key && run[j].key == key ::
      Gain(start.rate, run[j].time - run[i].time) >= 1.0
  }

  /** As many tokens are refilled as the key was allowed. */
  lemma {:induction false} EvenlyRefilled(start: State, begin: real, run: seq<Request>, key: string, m: nat, n: nat)
    requires Monotone(begin, run) && Evenly(start, run, key) && m <= n < |run| && run[n].key == key
    ensures AllowedBetween(start, run, key, m, n) as real <= Gain(start.rate, run[n].time - run[m].time)
    decreases n
  {
    hide Gain, DecisionAt;
    TimesApart(begin, run, m, n);
    GainFacts(start.rate, run[n].time - run[m].time, 0.0);
    var k := LastOf(run, key, m, n);
    if k < n {
      EvenlyRefilled(start, begin, run, key, m, k);
      AllowedSkips(start, run, key, m, k, n);
      TimesApart(begin, run, m, k);
      TimesApart(begin, run, k, n);
      GainFacts(start.rate, run[k].time - run[m].time, run[n].time - run[k].time);
      assert (run[k].time - run[m].time) + (run[n].time - run[k].time) == run[n].time - run[m].time;
    } else {
      AllowedNone(start, run, key, m, n);
    }
  }

  /** The last request of the key in `run[m..n]`, or `n` if there is none. */
  function LastOf(run: seq<Request>, key: string, m: nat, n: nat): (k: nat)
    requires m <= n < |run|
    ensures m <= k <= n && (k < n ==> run[k].key == key)
    ensures forall i | m <= i < n && (k == n || i > k) :: run[i].key != key
    decreases n
  {
    if m == n then n
    else if run[n - 1].key == key then n - 1
    else var k := LastOf(run, key, m, n - 1); if k == n - 1 then n else k
  }

  lemma {:induction false} AllowedNone(start: State, run: seq<Request>, key: string, m: nat, n: nat)
    requires m <= n <= |run| && forall i | m <= i < n :: run[i].key != key
    ensures AllowedBetween(start, run, key, m, n) == 0
    decreases n
  {
    if m < n { AllowedNone(start, run, key, m, n - 1); }
  }

  lemma {:induction false} AllowedSkips(start: State, run: seq<Request>, key: string, m: nat, k: nat, n: nat)
    requires m <= k < n <= |run| && forall i | k < i < n :: run[i].key != key
    ensures AllowedBetween(start, run, key, m, n) <= AllowedBetween(start, run, key, m, k) + 1
    decreases n
  {
    hide DecisionAt;
    if k + 1 < n { AllowedSkips(start, run, key, m, k, n - 1); }
  }

  /** A key that asks at most at the refill rate, evenly spaced, is never refused
      for lack of tokens. */
  lemma EvenlyNeverRefused(start: State, begin: real, run: seq<Request>, n: nat)
    requires Sane(start, begin) && Monotone(begin, run) && n < |run| && run[n].key != ""
    requires Level(start, run[n].key, begin) == start.rate as real && Evenly(start, run, run[n].key)
    requires !CapReached(Swept(StateAt(start, run, n), run[n].time), run[n].key)
    ensures DecisionAt(start, run, n)
  {
    var key, rate := run[n].key, start.rate;
    assert rate >= 1;
    hide Gain, Level, Sane, CapReached, Swept, Evenly, DecisionAt;
    RefusedIff(start, begin, run, n);
    forall m: nat | m <= n ensures !UsedUp(start, run, key, m, n) {
      EvenlyRefilled(start, begin, run, key, m, n);
    }
  }
}
