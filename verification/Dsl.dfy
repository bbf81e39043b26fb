/** The username DSL of `auth/dsl.go`:
    `<base>[-region-<cc>][-unlock-<tokens>][-node-<pin>][-session-<id>]`. */
module Dsl {
  import opened Text
  import Base64Url

  const REGION := "-region-"
  const UNLOCK := "-unlock-"
  const SESSION := "-session-"
  const NODE := "-node-"
  const KEY_PREFIX := "key-"
  const MAX_SESSION_LENGTH := 64
  const MAX_NODE_LENGTH := 255

  datatype ParsedUsername = ParsedUsername(base: string, region: string, unlock: seq<string>, node: string,
      session: string)

  datatype DslError =
    | UsernameEmpty | BaseEmpty | RegionInvalid | UnlockEmpty | UnlockUnknown
    | NodeKeyInvalid | NodeEmpty | NodeTooLong | NodeInvalid
    | SessionEmpty | SessionTooLong | SessionInvalid | SuffixInvalid

  /** `Panic` is the outcome of a slice expression whose bounds are out of range. */
  datatype Outcome<+T> = Ok(value: T) | Err(error: DslError) | Panic {
    predicate IsFailure() { !Ok? }
    function PropagateFailure<U>(): Outcome<U>
      requires IsFailure()
    {
      if Err? then Err(error) else Panic
    }
    function Extract(): T
      requires Ok?
    {
      value
    }
  }

  // ---------------------------------------------------------------- markers

  predicate IsMarker(m: string) {
    m == REGION || m == UNLOCK || m == SESSION || m == NODE
  }

  predicate HasPrefix(s: string, p: string) {
    p <= s
  }

  /** `m` occurs in `s` at index `i`. */
  predicate OccursAt(s: string, m: string, i: nat) {
    i + |m| <= |s| && s[i..i + |m|] == m
  }

  /** Some marker starts at index `i`. */
  predicate MarkerAt(s: string, i: nat) {
    OccursAt(s, REGION, i) || OccursAt(s, UNLOCK, i) || OccursAt(s, SESSION, i) || OccursAt(s, NODE, i)
  }

  predicate MarkerFree(s: string) {
    forall i: nat | i < |s| :: !MarkerAt(s, i)
  }

  /** `s` ends in a marker that only lacks its last dash, so a dash written
      after `s` would complete the marker. */
  predicate EndsOpen(s: string) {
    EndsIn(s, REGION[..7]) || EndsIn(s, UNLOCK[..7]) || EndsIn(s, SESSION[..8]) || EndsIn(s, NODE[..5])
  }

  predicate EndsIn(s: string, t: string) {
    |t| <= |s| && s[|s| - |t|..] == t
  }

  /** `strings.Index`, searching from `i`. */
  function IndexFrom(s: string, m: string, i: nat): (k: int)
    requires i <= |s| && m != ""
    ensures k == -1 || (i <= k < |s| && OccursAt(s, m, k))
    ensures forall j: nat | i <= j < (if k == -1 then |s| else k) :: !OccursAt(s, m, j)
    decreases |s| - i
  {
    if i == |s| then -1
    else if OccursAt(s, m, i) then i
    else IndexFrom(s, m, i + 1)
  }

  function Index(s: string, m: string): int
    requires m != ""
  {
    IndexFrom(s, m, 0)
  }

  function FirstOf(end: int, p: int): int {
    if p >= 0 && (end < 0 || p < end) then p else end
  }

  /** `firstMarker`: the smallest non-negative position, the last of which is
      the default length. */
  function FirstMarker(a: int, b: int, c: int, d: int, len: nat): int {
    FirstOf(FirstOf(FirstOf(FirstOf(FirstOf(-1, a), b), c), d), len)
  }

  /** Where the text before the first marker ends. */
  function SplitEnd(s: string): (e: nat)
    ensures e <= |s|
    ensures forall i: nat | i < e :: !MarkerAt(s, i)
    ensures e < |s| ==> MarkerAt(s, e)
  {
    FirstMarker(Index(s, REGION), Index(s, UNLOCK), Index(s, SESSION), Index(s, NODE), |s|)
  }

  /** `splitValue`. */
  function SplitValue(raw: string): (string, string) {
    (raw[..SplitEnd(raw)], raw[SplitEnd(raw)..])
  }

  // ---------------------------------------------------------------- values

  predicate IsDigitChar(c: char) { '0' <= c <= '9' }

  predicate IsAlpha(s: string) {
    forall i | 0 <= i < |s| :: IsLetter(s[i])
  }

  predicate IsSessionId(s: string) {
    forall i | 0 <= i < |s| :: s[i] == '-' || s[i] == '_' || IsDigitChar(s[i]) || IsLetter(s[i])
  }

  predicate IsHostChar(c: char) { c == '.' || c == '-' || IsDigitChar(c) || IsLetter(c) }

  /** `strings.LastIndex(value, ":")`. */
  function LastColon(s: string): (k: int)
    ensures -1 <= k < |s|
    ensures k >= 0 ==> s[k] == ':'
    ensures forall i | k < i < |s| :: s[i] != ':'
  {
    if s == "" then -1
    else if s[|s| - 1] == ':' then |s| - 1
    else LastColon(s[..|s| - 1])
  }

  /** `isNodeAddress`: host and numeric port around one colon. */
  predicate IsNodeAddress(s: string) {
    var k := LastColon(s);
    0 < k < |s| - 1
    && (forall i | 0 <= i < k :: IsHostChar(s[i]))
    && (forall i | k < i < |s| :: IsDigitChar(s[i]))
  }

  function RegionOf(value: string): Outcome<string> {
    if |value| != 2 || !IsAlpha(value) then Err(RegionInvalid) else Ok(ToLower(value))
  }

  function SessionOf(value: string): Outcome<string> {
    if value == "" then Err(SessionEmpty)
    else if |value| > MAX_SESSION_LENGTH then Err(SessionTooLong)
    else if !IsSessionId(value) then Err(SessionInvalid)
    else Ok(value)
  }

  predicate IsUnlockSeparator(c: char) { c == '+' || c == ',' }

  /** Length of the run of separators (or non-separators) that `s` starts with. */
  function RunLength(s: string, separators: bool): (n: nat)
    ensures n <= |s|
    ensures forall i | 0 <= i < n :: IsUnlockSeparator(s[i]) == separators
    ensures n < |s| ==> IsUnlockSeparator(s[n]) != separators
  {
    if s != "" && IsUnlockSeparator(s[0]) == separators then 1 + RunLength(s[1..], separators) else 0
  }

  /** `strings.FieldsFunc` on the separators. */
  function Fields(s: string): seq<string>
    decreases |s|
  {
    var t := s[RunLength(s, true)..];
    if t == "" then []
    else
      var n := RunLength(t, false);
      [t[..n]] + Fields(t[n..])
  }

  /** `normalizeUnlockToken`: the signals a token stands for, none if unknown. */
  function TokenSignals(token: string): seq<string> {
    var t := ToLower(TrimSpace(token));
    if t == "gpt" || t == "openai" || t == "chatgpt" then ["openai"]
    else if t == "claude" then ["claude"]
    else if t == "gemini" then ["gemini"]
    else if t == "grok" then ["grok"]
    else if t == "cf" || t == "cloudflare" then ["cf"]
    else if t == "all" then ["openai", "claude", "grok", "gemini", "cf"]
    else []
  }

  /** Appends the signals not yet present, in order. */
  function AddSignals(out: seq<string>, signals: seq<string>): seq<string>
    decreases signals
  {
    if signals == [] then out
    else AddSignals(if signals[0] in out then out else out + [signals[0]], signals[1..])
  }

  function CollectSignals(out: seq<string>, parts: seq<string>): Outcome<seq<string>>
    decreases parts
  {
    if parts == [] then Ok(out)
    else if TokenSignals(parts[0]) == [] then Err(UnlockUnknown)
    else CollectSignals(AddSignals(out, TokenSignals(parts[0])), parts[1..])
  }

  function UnlockOf(value: string): Outcome<seq<string>> {
    if value == "" || Fields(value) == [] then Err(UnlockEmpty)
    else
      match CollectSignals([], Fields(value))
      case Ok(out) => if out == [] then Err(UnlockEmpty) else Ok(out)
      case Err(e) => Err(e)
      case Panic => Panic
  }

  /** The node pin, given the whole text after `-node-` and its split value. */
  function NodeOf(raw: string, value: string): Outcome<string> {
    if HasPrefix(raw, KEY_PREFIX) then
      if |value| < |KEY_PREFIX| then Panic
      else
        var enc := value[|KEY_PREFIX|..];
        if enc == "" || !Base64Url.AllSymbols(enc) then Err(NodeKeyInvalid)
        else
          match Base64Url.Decode(enc)
          case None => Err(NodeKeyInvalid)
          case Some(key) => if key == "" then Err(NodeKeyInvalid) else Ok(KEY_PREFIX + key)
    else if value == "" then Err(NodeEmpty)
    else if |value| > MAX_NODE_LENGTH then Err(NodeTooLong)
    else if !IsNodeAddress(value) then Err(NodeInvalid)
    else Ok(value)
  }

  // ---------------------------------------------------------------- parser

  /** `parseRegion`, `parseUnlock`, `parseNode` and `parseSession` take the text
      after their marker and return the value and what follows it. */
  function ParseRegion(raw: string): Outcome<(string, string)> {
    var (value, rest) := SplitValue(raw);
    var region :- RegionOf(value);
    Ok((region, rest))
  }

  function ParseUnlock(raw: string): Outcome<(seq<string>, string)> {
    var (value, rest) := SplitValue(raw);
    var unlock :- UnlockOf(value);
    Ok((unlock, rest))
  }

  function ParseNode(raw: string): Outcome<(string, string)> {
    var (value, rest) := SplitValue(raw);
    var node :- NodeOf(raw, value);
    Ok((node, rest))
  }

  function ParseSession(raw: string): Outcome<(string, string)> {
    var (value, rest) := SplitValue(raw);
    var session :- SessionOf(value);
    Ok((session, rest))
  }

  /** The loops of `parseUnlock`. */
  method CollectUnlock(value: string) returns (r: Outcome<seq<string>>)
    ensures r == UnlockOf(value)
  {
    if value == "" { return Err(UnlockEmpty); }
    var parts := Fields(value);
    if |parts| == 0 { return Err(UnlockEmpty); }
    var out: seq<string> := [];
    var seen: set<string> := {};
    for i := 0 to |parts|
      invariant seen == set x | x in out
      invariant CollectSignals([], parts) == CollectSignals(out, parts[i..])
    {
      var signals := TokenSignals(parts[i]);
      if signals == [] { return Err(UnlockUnknown); }
      ghost var before := out;
      assert parts[i..][1..] == parts[i + 1..];
      for j := 0 to |signals|
        invariant seen == set x | x in out
        invariant AddSignals(before, signals) == AddSignals(out, signals[j..])
      {
        assert signals[j..][1..] == signals[j + 1..];
        if signals[j] !in seen {
          seen := seen + {signals[j]};
          out := out + [signals[j]];
        }
      }
    }
    if out == [] { return Err(UnlockEmpty); }
    return Ok(out);
  }

  function RegionStep(rem: string): Outcome<(string, string)> {
    if HasPrefix(rem, REGION) then ParseRegion(rem[|REGION|..]) else Ok(("", rem))
  }

  function UnlockStep(rem: string): Outcome<(seq<string>, string)> {
    if HasPrefix(rem, UNLOCK) then ParseUnlock(rem[|UNLOCK|..]) else Ok(([], rem))
  }

  function NodeStep(rem: string): Outcome<(string, string)> {
    if HasPrefix(rem, NODE) then ParseNode(rem[|NODE|..]) else Ok(("", rem))
  }

  function SessionStep(rem: string): Outcome<(string, string)> {
    if HasPrefix(rem, SESSION) then ParseSession(rem[|SESSION|..]) else Ok(("", rem))
  }

  /** What `ParseUsername` returns. */
  function Parse(raw: string): Outcome<ParsedUsername> {
    if raw == "" then Err(UsernameEmpty)
    else if SplitEnd(raw) == 0 then Err(BaseEmpty)
    else
      var (region, rem1) :- RegionStep(raw[SplitEnd(raw)..]);
      var (unlock, rem2) :- UnlockStep(rem1);
      var (node, rem3) :- NodeStep(rem2);
      var (session, rem4) :- SessionStep(rem3);
      if rem4 != "" then Err(SuffixInvalid)
      else Ok(ParsedUsername(raw[..SplitEnd(raw)], region, unlock, node, session))
  }

  /** `ParseUsername`, which consumes the remainder segment by segment. */
  method ParseUsername(raw: string) returns (r: Outcome<ParsedUsername>)
    ensures r == Parse(raw)
  {
    hide ParseRegion, UnlockOf, ParseNode, ParseSession, MarkerAt, SplitValue;
    if raw == "" { return Err(UsernameEmpty); }
    var baseEnd := SplitEnd(raw);
    if baseEnd == 0 { return Err(BaseEmpty); }
    var parsed := ParsedUsername(raw[..baseEnd], "", [], "", "");
    var remainder := raw[baseEnd..];
    if remainder == "" { return Ok(parsed); }
    if HasPrefix(remainder, REGION) {
      var region := ParseRegion(remainder[|REGION|..]);
      if !region.Ok? { return region.PropagateFailure(); }
      parsed := parsed.(region := region.value.0);
      remainder := region.value.1;
    }
    if HasPrefix(remainder, UNLOCK) {
      var (value, rest) := SplitValue(remainder[|UNLOCK|..]);
      var unlock := CollectUnlock(value);
      if !unlock.Ok? { return unlock.PropagateFailure(); }
      parsed := parsed.(unlock := unlock.value);
      remainder := rest;
    }
    if HasPrefix(remainder, NODE) {
      var node := ParseNode(remainder[|NODE|..]);
      if !node.Ok? { return node.PropagateFailure(); }
      parsed := parsed.(node := node.value.0);
      remainder := node.value.1;
    }
    if HasPrefix(remainder, SESSION) {
      var session := ParseSession(remainder[|SESSION|..]);
      if !session.Ok? { return session.PropagateFailure(); }
      parsed := parsed.(session := session.value.0);
      remainder := session.value.1;
    }
    if remainder != "" { return Err(SuffixInvalid); }
    return Ok(parsed);
  }
}
