/** The weighted rendezvous pick of `selector/selector.go`. */
module Rendezvous {
  import opened Wrappers
  import opened Text
  import opened Storage

  // ------------------------------------------------ string order and tie keys

  /** Go's `<` on strings: lexicographic by byte. */
  predicate Less(a: string, b: string) {
    if b == "" then false
    else if a == "" then true
    else a[0] < b[0] || (a[0] == b[0] && Less(a[1..], b[1..]))
  }

  lemma LessTransitive(a: string, b: string, c: string)
    requires Less(a, b) && Less(b, c)
    ensures Less(a, c)
  {
  }

  lemma {:induction false} LessTrichotomy(a: string, b: string)
    ensures Less(a, b) || Less(b, a) || a == b
    ensures !(Less(a, b) && Less(b, a))
  {
    if a != "" && b != "" && a[0] == b[0] {
      LessTrichotomy(a[1..], b[1..]);
      assert a == [a[0]] + a[1..] && b == [b[0]] + b[1..];
    }
  }

  /** `sessionProxyIdentity`. */
  function Identity(p: Proxy): string {
    if p.id != 0 then "id:" + Decimal(p.id)
    else if p.route.nodeKey != "" then "key:" + p.route.nodeKey
    else "address:" + p.route.address
  }

  /** The separator of the tie key is the four characters `\x00`. */
  const SEPARATOR := "\\x00"

  /** `sessionProxyTieKey`. */
  function TieKey(p: Proxy): string {
    Identity(p) + SEPARATOR + p.route.nodeKey + SEPARATOR + p.route.address + SEPARATOR + Decimal(p.id)
  }

  lemma DecimalHasNoBackslash(i: int, k: nat)
    requires k < |Decimal(i)|
    ensures Decimal(i)[k] != '\\'
  {
    DigitsShape(if i < 0 then -i else i);
  }

  /** What follows the last separator is determined by the string. */
  lemma LastFieldNotShorter(u: string, d: string, v: string, e: string)
    requires u + SEPARATOR + d == v + SEPARATOR + e
    requires '\\' !in e
    ensures |e| <= |d|
  {
    var s := v + SEPARATOR + e;
    forall k | |v| < k < |s| ensures s[k] != '\\' {
      assert s[k] == if k < |v| + 4 then SEPARATOR[k - |v|] else e[k - |v| - 4];
    }
    assert (u + SEPARATOR + d)[|u|] == '\\';
  }

  /** Rows with different ids have different tie keys. */
  lemma TieKeyInjective(a: Proxy, b: Proxy)
    requires TieKey(a) == TieKey(b)
    ensures a.id == b.id
  {
    var u := Identity(a) + SEPARATOR + a.route.nodeKey + SEPARATOR + a.route.address;
    var v := Identity(b) + SEPARATOR + b.route.nodeKey + SEPARATOR + b.route.address;
    var d, e := Decimal(a.id), Decimal(b.id);
    forall k | 0 <= k < |d| ensures d[k] != '\\' { DecimalHasNoBackslash(a.id, k); }
    forall k | 0 <= k < |e| ensures e[k] != '\\' { DecimalHasNoBackslash(b.id, k); }
    LastFieldNotShorter(u, d, v, e);
    LastFieldNotShorter(v, e, u, d);
    assert d == TieKey(a)[|TieKey(a)| - |d|..] && e == TieKey(b)[|TieKey(b)| - |e|..];
    DecimalInjective(a.id, b.id);
  }

  // ------------------------------------------------ the pick

  type Score = Proxy -> real

  /** Lower score first, then lower tie key. */
  predicate Before(score: Score, a: Proxy, b: Proxy) {
    score(a) < score(b) || (score(a) == score(b) && Less(TieKey(a), TieKey(b)))
  }

  /** No candidate comes before `p`. */
  predicate IsPick(score: Score, candidates: set<Proxy>, p: Proxy) {
    p in candidates && forall q | q in candidates :: !Before(score, q, p)
  }

  predicate DistinctRows(candidates: set<Proxy>) {
    forall p, q | p in candidates && q in candidates && p.id == q.id :: p == q
  }

  lemma BeforeTransitive(score: Score, a: Proxy, b: Proxy, c: Proxy)
    requires Before(score, a, b) && !Before(score, c, b)
    ensures Before(score, a, c)
  {
    LessTrichotomy(TieKey(b), TieKey(c));
    LessTrichotomy(TieKey(a), TieKey(b));
    if score(a) == score(b) == score(c) && TieKey(b) != TieKey(c) {
      LessTransitive(TieKey(a), TieKey(b), TieKey(c));
    }
  }

  /** The best so far, as against the rows seen. */
  predicate BestOf(score: Score, seen: seq<Proxy>, best: Proxy) {
    best in seen && forall j | 0 <= j < |seen| :: !Before(score, seen[j], best)
  }

  lemma BestAfter(score: Score, seen: seq<Proxy>, best: Proxy, next: Proxy)
    requires BestOf(score, seen, best)
    ensures BestOf(score, seen + [next], if Before(score, next, best) then next else best)
  {
    hide TieKey, Less;
    LessTrichotomy(TieKey(next), TieKey(next));
    var all := seen + [next];
    if Before(score, next, best) {
      assert next == all[|seen|];
      forall j | 0 <= j < |all| ensures !Before(score, all[j], next) {
        if j < |seen| && Before(score, seen[j], next) {
          LessTrichotomy(TieKey(best), TieKey(next));
          BeforeTransitive(score, seen[j], next, best);
        }
      }
    } else {
      var i :| 0 <= i < |seen| && seen[i] == best;
      assert all[i] == best;
    }
  }

  /** `pickSessionCandidateWithAffinity`: one pass that keeps the best score and
      computes tie keys only when scores are equal. */
  method PickSessionCandidate(proxies: seq<Proxy>, score: Score) returns (picked: Proxy)
    requires |proxies| > 0
    ensures IsPick(score, (set p | p in proxies), picked)
  {
    hide TieKey, Less, BestOf;
    picked := proxies[0];
    var bestScore := score(picked);
    var bestTieKey := "";
    var hasBestTieKey := false;
    BestOfOne(score, proxies);
    for i := 1 to |proxies|
      invariant BestOf(score, proxies[..i], picked)
      invariant bestScore == score(picked)
      invariant hasBestTieKey ==> bestTieKey == TieKey(picked)
    {
      BestAfter(score, proxies[..i], picked, proxies[i]);
      assert proxies[..i + 1] == proxies[..i] + [proxies[i]];
      var s := score(proxies[i]);
      if s < bestScore {
        picked, bestScore, hasBestTieKey := proxies[i], s, false;
      } else if s == bestScore {
        if !hasBestTieKey {
          bestTieKey, hasBestTieKey := TieKey(picked), true;
        }
        var tieKey := TieKey(proxies[i]);
        if Less(tieKey, bestTieKey) {
          picked, bestTieKey := proxies[i], tieKey;
        }
      }
    }
    assert proxies[..|proxies|] == proxies;
    BestOfAll(score, proxies, picked);
  }

  lemma BestOfOne(score: Score, proxies: seq<Proxy>)
    requires |proxies| > 0
    ensures BestOf(score, proxies[..1], proxies[0])
  {
    LessTrichotomy(TieKey(proxies[0]), TieKey(proxies[0]));
  }

  lemma BestOfAll(score: Score, proxies: seq<Proxy>, best: Proxy)
    requires BestOf(score, proxies, best)
    ensures IsPick(score, (set p | p in proxies), best)
  {
  }

  /** The pick is determined by the set of candidates alone: the order in which
      they are listed does not matter. */
  lemma PickUnique(score: Score, candidates: set<Proxy>, p: Proxy, q: Proxy)
    requires DistinctRows(candidates) && IsPick(score, candidates, p) && IsPick(score, candidates, q)
    ensures p == q
  {
    LessTrichotomy(TieKey(p), TieKey(q));
    if TieKey(p) == TieKey(q) {
      TieKeyInjective(p, q);
    }
  }

  /** Losing a candidate that was not picked changes nothing. */
  lemma PickSurvivesRemoval(score: Score, candidates: set<Proxy>, p: Proxy, gone: Proxy, q: Proxy)
    requires DistinctRows(candidates) && IsPick(score, candidates, p) && gone != p
    requires IsPick(score, candidates - {gone}, q)
    ensures q == p
  {
    assert IsPick(score, candidates - {gone}, p);
    PickUnique(score, candidates - {gone}, p, q);
  }

  /** A new candidate either takes the session or leaves it where it was. */
  lemma PickAfterArrival(score: Score, candidates: set<Proxy>, p: Proxy, arrival: Proxy, q: Proxy)
    requires DistinctRows(candidates + {arrival}) && IsPick(score, candidates, p)
    requires IsPick(score, candidates + {arrival}, q)
    ensures q == p || q == arrival
  {
    if q != arrival {
      assert IsPick(score, candidates, q);
      PickUnique(score, candidates, p, q);
    }
  }

  // ------------------------------------------------ weights, over the reals

  function LatencyWeight(latency: int): real {
    if latency <= 0 then 1.0 else 1.0 + 250.0 / (250.0 + latency as real)
  }

  function ReliabilityWeight(useCount: int, successCount: int): real {
    var uses := if useCount < 0 then 0 else useCount;
    var wins := if successCount < 0 then 0 else successCount;
    var successes := if wins > uses then uses else wins;
    0.75 + 0.5 * ((successes as real + 2.0) / (uses as real + 4.0))
  }

  function LoadWeight(activeBindings: int): real {
    var n := if activeBindings < 0 then 0 else activeBindings;
    0.5 + 0.5 / (1.0 + n as real)
  }

  /** `sessionCandidateWeight`. */
  function CandidateWeight(p: Proxy, activeBindings: int): real {
    LatencyWeight(p.evidence.latency) * ReliabilityWeight(p.useCount, p.successCount) * LoadWeight(activeBindings)
  }

  lemma MulMonotone(x: real, y: real, b: real)
    requires b > 0.0
    ensures x <= y ==> x * b <= y * b
    ensures x < y ==> x * b < y * b
  {
    assert y * b - x * b == (y - x) * b;
    if x < y {
      assert (y - x) * b > 0.0;
    }
  }

  lemma PositiveFactor(x: real, b: real)
    requires b > 0.0 && x * b > 0.0
    ensures x > 0.0
  {
    MulMonotone(x, 0.0, b);
  }

  lemma FactorBelowOne(q: real, a: real, b: real)
    requires 0.0 < a < b && q * b == a
    ensures 0.0 < q < 1.0
  {
    PositiveFactor(q, b);
    assert (1.0 - q) * b == b - a;
    PositiveFactor(1.0 - q, b);
  }

  lemma QuotientBelowOne(a: real, b: real)
    requires 0.0 < a < b
    ensures 0.0 < a / b < 1.0
  {
    FactorBelowOne(a / b, a, b);
  }

  lemma QuotientAtMostHalf(n: nat)
    ensures 0.0 < 0.5 / (1.0 + n as real) <= 0.5
  {
    var b := 1.0 + n as real;
    var q := 0.5 / b;
    assert q * b == 0.5;
    MulMonotone(0.5, q, b);
    MulMonotone(q, 0.0, b);
  }

  lemma ProductBounds(x: real, y: real, z: real)
    requires 1.0 <= x < 2.0 && 0.75 < y < 1.25 && 0.5 < z <= 1.0
    ensures 0.375 < x * y * z < 2.5
  {
    assert 0.75 < x * y < 2.5 by {
      assert x * y >= 1.0 * y;
      assert x * y < 2.0 * y;
    }
    assert (x * y) * z > 0.75 * z;
    assert (x * y) * z <= (x * y) * 1.0;
  }

  /** A larger denominator makes a smaller quotient. */
  lemma QuotientFalls(a: real, b: real, c: real)
    requires a > 0.0 && 0.0 < b < c
    ensures a / c < a / b
  {
    var q := a / c;
    assert q * c == a;
    assert q > 0.0;
    assert q * b < q * c;
    assert (a / b) * b == a;
    if q >= a / b {
      MulMonotone(a / b, q, b);
    }
  }

  lemma QuotientRises(a: real, b: real, c: real)
    requires a < b && c > 0.0
    ensures a / c < b / c
  {
    assert b / c - a / c == (b - a) / c;
  }

  /** Measured latencies: the faster node weighs more, and an unmeasured one less
      than any. */
  lemma LatencyLowersWeight(fast: int, slow: int, unknown: int)
    requires 0 < fast < slow && unknown <= 0
    ensures LatencyWeight(fast) > LatencyWeight(slow) > LatencyWeight(unknown) == 1.0
  {
    QuotientFalls(250.0, 250.0 + fast as real, 250.0 + slow as real);
  }

  lemma LoadLowersWeight(few: int, many: int)
    requires 0 <= few < many
    ensures LoadWeight(few) > LoadWeight(many)
    ensures LoadWeight(0) == 1.0
  {
    QuotientFalls(0.5, 1.0 + few as real, 1.0 + many as real);
  }

  lemma SuccessRaisesWeight(uses: int, wins: int, more: int)
    requires 0 <= wins < more <= uses
    ensures ReliabilityWeight(uses, wins) < ReliabilityWeight(uses, more)
  {
    QuotientRises(wins as real + 2.0, more as real + 2.0, uses as real + 4.0);
  }

  predicate AllElseEqual(p: Proxy, q: Proxy) {
    p.evidence.latency == q.evidence.latency && p.useCount == q.useCount && p.successCount == q.successCount
  }

  /** The weight of a candidate falls with its load and its measured latency and
      rises with its successes, other things being equal. */
  lemma WeightOrders(p: Proxy, q: Proxy, few: int, many: int)
    requires 0 <= few < many
    ensures AllElseEqual(p, q) ==> CandidateWeight(p, few) > CandidateWeight(q, many)
    ensures AllElseEqual(p, q.(evidence := p.evidence)) && 0 < p.evidence.latency < q.evidence.latency ==>
              CandidateWeight(p, few) > CandidateWeight(q, few)
    ensures AllElseEqual(p, q.(successCount := p.successCount))
              && 0 <= q.successCount < p.successCount <= p.useCount ==>
              CandidateWeight(p, few) > CandidateWeight(q, few)
  {
    hide LatencyWeight, ReliabilityWeight, LoadWeight;
    var (a, b) := (LatencyWeight(p.evidence.latency), ReliabilityWeight(p.useCount, p.successCount));
    var (c, d) := (LatencyWeight(q.evidence.latency), ReliabilityWeight(q.useCount, q.successCount));
    PositiveWeights(p, few);
    PositiveWeights(q, few);
    LoadLowersWeight(few, many);
    PositiveProduct(a, b);
    StrictProduct(LoadWeight(many), LoadWeight(few), a * b);
    if 0 < p.evidence.latency < q.evidence.latency {
      LatencyLowersWeight(p.evidence.latency, q.evidence.latency, 0);
      StrictProduct(c, a, b);
      StrictProduct(c * b, a * b, LoadWeight(few));
    }
    if p.useCount == q.useCount && 0 <= q.successCount < p.successCount <= p.useCount {
      SuccessRaisesWeight(p.useCount, q.successCount, p.successCount);
      StrictProduct(d, b, a);
      StrictProduct(a * d, a * b, LoadWeight(few));
    }
  }

  lemma PositiveWeights(p: Proxy, n: int)
    requires n >= 0
    ensures LatencyWeight(p.evidence.latency) > 0.0 && ReliabilityWeight(p.useCount, p.successCount) > 0.0
              && LoadWeight(n) > 0.0
  {
    if p.evidence.latency > 0 {
      LatencyLowersWeight(p.evidence.latency, p.evidence.latency + 1, 0);
    }
    LoadLowersWeight(n, n + 1);
    ReliabilityPositive(p.useCount, p.successCount);
  }

  lemma ReliabilityPositive(useCount: int, successCount: int)
    ensures ReliabilityWeight(useCount, successCount) > 0.0
  {
    var uses := if useCount < 0 then 0 else useCount;
    var wins := if successCount < 0 then 0 else successCount;
    var successes := if wins > uses then uses else wins;
    QuotientRises(0.0, successes as real + 2.0, uses as real + 4.0);
  }

  lemma PositiveProduct(a: real, b: real)
    requires a > 0.0 && b > 0.0
    ensures a * b > 0.0
  {
  }

  lemma StrictProduct(x: real, y: real, b: real)
    requires x < y && b > 0.0
    ensures x * b < y * b && b * x < b * y
  {
    PositiveProduct(y - x, b);
  }

  /** Every weight lies strictly between 0.375 and 2.5, so no candidate is ever
      excluded and none dominates without bound. */
  lemma WeightBounds(p: Proxy, activeBindings: int)
    ensures 0.375 < CandidateWeight(p, activeBindings) < 2.5
  {
    var latency := p.evidence.latency;
    if latency > 0 {
      QuotientBelowOne(250.0, 250.0 + latency as real);
    }
    var uses := if p.useCount < 0 then 0 else p.useCount;
    var wins := if p.successCount < 0 then 0 else p.successCount;
    var successes := if wins > uses then uses else wins;
    QuotientBelowOne(successes as real + 2.0, uses as real + 4.0);
    QuotientAtMostHalf(if activeBindings < 0 then 0 else activeBindings);
    ProductBounds(LatencyWeight(latency), ReliabilityWeight(p.useCount, p.successCount), LoadWeight(activeBindings));
  }

  // ------------------------------------------------ the streaming hash

  const FNV_PRIME: bv64 := 1099511628211

  /** One FNV-1a step. */
  function WriteByte(hash: bv64, c: char): bv64 {
    (hash ^ ((c as int % 256) as bv64)) * FNV_PRIME
  }

  function WriteString(hash: bv64, s: string): bv64
    decreases |s|
  {
    if s == "" then hash else WriteString(WriteByte(hash, s[0]), s[1..])
  }

  lemma {:induction false} WriteStringAppend(hash: bv64, a: string, b: string)
    ensures WriteString(hash, a + b) == WriteString(WriteString(hash, a), b)
    decreases |a|
  {
    hide WriteByte;
    if a == "" {
      assert a + b == b;
    } else {
      assert (a + b)[1..] == a[1..] + b;
      WriteStringAppend(WriteByte(hash, a[0]), a[1..], b);
    }
  }

  function Pow10(k: nat): nat {
    if k == 0 then 1 else 10 * Pow10(k - 1)
  }

  lemma TwentyDigits(m: nat)
    requires m < 0x1_0000_0000_0000_0000
    ensures m < Pow10(20)
  {
    assert Pow10(5) == 100_000;
    assert Pow10(10) == 100_000 * Pow10(5);
    assert Pow10(15) == 100_000 * Pow10(10);
    assert Pow10(20) == 100_000 * Pow10(15);
  }

  /** Writes the decimal digits of a 64-bit magnitude to the end of a buffer of
      twenty bytes, which is always long enough. */
  method FormatDigits(m: nat) returns (digits: array<char>, index: nat)
    requires m < 0x1_0000_0000_0000_0000
    ensures digits.Length == 20 && index <= 20 && digits[index..] == Digits(m)
  {
    digits := new char[20](_ => '0');
    index := 20;
    var magnitude: nat := m;
    if magnitude == 0 {
      index := 19;
      digits[index] := '0';
      assert digits[index..] == ['0'];
      return;
    }
    TwentyDigits(m);
    hide Digits, Pow10;
    while magnitude > 0
      invariant 0 <= index <= 20
      invariant magnitude > 0 ==> magnitude < Pow10(index)
      invariant (if magnitude == 0 then "" else Digits(magnitude)) + digits[index..] == Digits(m)
    {
      ghost var tail := digits[index..];
      RoomLeft(magnitude, index);
      index := index - 1;
      digits[index] := Digit(magnitude % 10);
      assert digits[index..] == [Digit(magnitude % 10)] + tail;
      DigitsSplit(magnitude, tail);
      magnitude := magnitude / 10;
    }
    assert "" + digits[index..] == digits[index..];
  }

  lemma RoomLeft(m: nat, k: nat)
    requires 0 < m < Pow10(k)
    ensures k > 0 && m / 10 < Pow10(k - 1)
  {
  }

  lemma DigitsSplit(m: nat, tail: string)
    ensures (if m / 10 == 0 then "" else Digits(m / 10)) + ([Digit(m % 10)] + tail) == Digits(m) + tail
  {
  }

  /** `sessionFNVWriteInt64` hashes the decimal text of an `int64`. */
  method WriteInt64(hash: bv64, value: int) returns (r: bv64)
    requires -0x8000_0000_0000_0000 <= value < 0x8000_0000_0000_0000
    ensures r == WriteString(hash, Decimal(value))
  {
    hide WriteByte, Digits;
    r := hash;
    var magnitude: nat := 0;
    if value < 0 {
      assert Decimal(value)[1..] == Digits(-value);
      r := WriteByte(r, '-');
      magnitude := -(value + 1) + 1;
    } else {
      magnitude := value;
    }
    ghost var start := r;
    var digits, index := FormatDigits(magnitude);
    while index < 20
      invariant 0 <= index <= 20
      invariant WriteString(r, digits[index..]) == WriteString(start, Digits(magnitude))
    {
      assert digits[index..][1..] == digits[index + 1..];
      r := WriteByte(r, digits[index]);
      index := index + 1;
    }
  }

  /** `sessionProxyHash` never builds the identity text, yet hashes it. */
  method ProxyHash(seed: bv64, p: Proxy) returns (r: bv64)
    requires -0x8000_0000_0000_0000 <= p.id < 0x8000_0000_0000_0000
    ensures r == WriteString(seed, Identity(p))
  {
    if p.id != 0 {
      WriteStringAppend(seed, "id:", Decimal(p.id));
      r := WriteInt64(WriteString(seed, "id:"), p.id);
    } else if p.route.nodeKey != "" {
      WriteStringAppend(seed, "key:", p.route.nodeKey);
      r := WriteString(WriteString(seed, "key:"), p.route.nodeKey);
    } else {
      WriteStringAppend(seed, "address:", p.route.address);
      r := WriteString(WriteString(seed, "address:"), p.route.address);
    }
  }
}
