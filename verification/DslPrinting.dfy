/** Printers of the username DSL: the canonical form and the gateway hint of
    `webui/api_v1_nodes.go`. */
module DslPrinting {
  import opened Text
  import opened Dsl
  import opened DslGrammar
  import Base64Url

  predicate IsSignal(t: string) {
    t == "openai" || t == "claude" || t == "grok" || t == "gemini" || t == "cf"
  }

  predicate IsCountry(region: string) {
    |region| == 2 && forall i | 0 <= i < 2 :: 'a' <= region[i] <= 'z'
  }

  predicate NoRepeats(s: seq<string>) {
    forall i, j | 0 <= i < j < |s| :: s[i] != s[j]
  }

  function Join(tokens: seq<string>): string {
    if tokens == [] then ""
    else if |tokens| == 1 then tokens[0]
    else tokens[0] + "+" + Join(tokens[1..])
  }

  /** The wire form of a node pin. */
  function Pin(node: string): string
    requires Base64Url.IsBytes(node)
  {
    if HasPrefix(node, KEY_PREFIX) then KEY_PREFIX + Base64Url.Encode(node[|KEY_PREFIX|..]) else node
  }

  function ToSegments(p: ParsedUsername): Segments
    requires Base64Url.IsBytes(p.node)
  {
    Segments(
      p.base,
      if p.region == "" then Absent else Present(p.region),
      if p.unlock == [] then Absent else Present(Join(p.unlock)),
      if p.node == "" then Absent else Present(Pin(p.node)),
      if p.session == "" then Absent else Present(p.session))
  }

  function Print(p: ParsedUsername): string
    requires Base64Url.IsBytes(p.node)
  {
    ToSegments(p).Render()
  }

  /** A stable-key pin of ASCII text, or an address that holds no marker. */
  predicate PrintableNode(node: string) {
    if HasPrefix(node, KEY_PREFIX) then |node| > |KEY_PREFIX| && Base64Url.IsAscii(node)
    else |node| <= MAX_NODE_LENGTH && IsNodeAddress(node) && MarkerFree(node)
  }

  predicate WellFormed(p: ParsedUsername)
    requires Base64Url.IsBytes(p.node)
  {
    && p.base != "" && Separated(p.base, ToSegments(p).AfterBase())
    && (p.region == "" || IsCountry(p.region))
    && NoRepeats(p.unlock) && (forall i | 0 <= i < |p.unlock| :: IsSignal(p.unlock[i]))
    && (p.node == "" || PrintableNode(p.node))
    && (p.session == "" || (SessionOf(p.session).Ok? && MarkerFree(p.session)))
  }

  // ---------------------------------------------------------------- separation

  /** A marker starts with a dash and one of four letters. */
  lemma MarkerStart(s: string, i: nat)
    requires MarkerAt(s, i)
    ensures i + 1 < |s| && s[i] == '-' && s[i + 1] in {'r', 'u', 's', 'n'}
  {
    var m := if OccursAt(s, REGION, i) then REGION else if OccursAt(s, UNLOCK, i) then UNLOCK
             else if OccursAt(s, SESSION, i) then SESSION else NODE;
    assert s[i..i + |m|][0] == s[i] && s[i..i + |m|][1] == s[i + 1];
  }

  /** So does an open end. */
  lemma OpenStart(s: string)
    requires EndsOpen(s)
    ensures exists i: nat :: i + 1 < |s| && s[i] == '-' && s[i + 1] in {'r', 'u', 's', 'n'} && |s| - i >= 5
  {
    var m := if EndsIn(s, REGION[..7]) then REGION[..7] else if EndsIn(s, UNLOCK[..7]) then UNLOCK[..7]
             else if EndsIn(s, SESSION[..8]) then SESSION[..8] else NODE[..5];
    var i := |s| - |m|;
    assert s[i] == s[i..][0] == m[0] && s[i + 1] == s[i..][1] == m[1];
  }

  /** Where no dash is followed by a marker's letter nothing can go wrong. */
  lemma NoStartSeparated(s: string, rest: string)
    requires forall i | 0 <= i < |s| - 1 :: s[i] == '-' ==> s[i + 1] !in {'r', 'u', 's', 'n'}
    ensures Separated(s, rest)
  {
    forall i: nat | i < |s| ensures !MarkerAt(s, i) {
      if MarkerAt(s, i) {
        MarkerStart(s, i);
      }
    }
    if EndsOpen(s) {
      OpenStart(s);
    }
  }

  /** The pin of an ASCII key holds no marker and completes none. */
  lemma AsciiPinSeparated(key: string, rest: string)
    requires Base64Url.IsBytes(key) && Base64Url.IsAscii(key) && key != ""
    ensures Separated(KEY_PREFIX + Base64Url.Encode(key), rest)
  {
    hide Base64Url.Encode, Base64Url.DashesPlaced;
    Base64Url.AsciiSymbols(key);
    PinNoStart(Base64Url.Encode(key));
    NoStartSeparated(KEY_PREFIX + Base64Url.Encode(key), rest);
  }

  lemma PinNoStart(enc: string)
    requires Base64Url.DashesPlaced(enc)
    ensures var pin := KEY_PREFIX + enc;
            forall i | 0 <= i < |pin| - 1 :: pin[i] == '-' ==> pin[i + 1] !in {'r', 'u', 's', 'n'}
  {
    var pin := KEY_PREFIX + enc;
    forall i | 0 <= i < |pin| - 1 && pin[i] == '-' ensures pin[i + 1] !in {'r', 'u', 's', 'n'} {
      assert i == 3 || (i >= 4 && enc[i - 4] == '-' && (i - 4) % 4 == 3);
      assert pin[i + 1] == enc[i - 3] && (i - 3) % 4 == 0;
    }
  }

  lemma OpenLast(s: string)
    requires EndsOpen(s)
    ensures s != "" && s[|s| - 1] in {'n', 'k', 'e'}
  {
    var m := if EndsIn(s, REGION[..7]) then REGION[..7] else if EndsIn(s, UNLOCK[..7]) then UNLOCK[..7]
             else if EndsIn(s, SESSION[..8]) then SESSION[..8] else NODE[..5];
    assert s[|s| - 1] == s[|s| - |m|..][|m| - 1] == m[|m| - 1];
  }

  /** An address ends in a digit, so it is never open. */
  lemma AddressNotOpen(s: string)
    requires IsNodeAddress(s)
    ensures !EndsOpen(s)
  {
    if EndsOpen(s) {
      OpenLast(s);
    }
  }

  // ---------------------------------------------------------------- unlock lists

  lemma {:induction false} JoinNoDash(tokens: seq<string>)
    requires forall i | 0 <= i < |tokens| :: IsSignal(tokens[i])
    ensures '-' !in Join(tokens)
    ensures tokens != [] ==> Join(tokens) != "" && !IsUnlockSeparator(Join(tokens)[0])
  {
    if |tokens| > 1 {
      JoinNoDash(tokens[1..]);
      assert IsSignal(tokens[0]);
    } else if |tokens| == 1 {
      assert IsSignal(tokens[0]);
    }
  }

  lemma RunLengthIs(s: string, separators: bool, n: nat)
    requires n <= |s| && forall i | 0 <= i < n :: IsUnlockSeparator(s[i]) == separators
    requires n < |s| ==> IsUnlockSeparator(s[n]) != separators
    ensures RunLength(s, separators) == n
  {
  }

  lemma SignalNoSeparator(t: string)
    requires IsSignal(t)
    ensures t != "" && forall i | 0 <= i < |t| :: !IsUnlockSeparator(t[i])
  {
  }

  /** The first field of a joined list is its first token. */
  lemma FirstField(tokens: seq<string>, lead: string)
    requires tokens != [] && forall i | 0 <= i < |tokens| :: IsSignal(tokens[i])
    requires lead == "" || lead == "+"
    ensures var t := Join(tokens);
            t != "" && RunLength(lead + t, true) == |lead| && RunLength(t, false) == |tokens[0]|
            && tokens[0] <= t
            && t[|tokens[0]|..] == (if |tokens| > 1 then "+" else "") + Join(tokens[1..])
  {
    hide IsSignal;
    JoinNoDash(tokens);
    SignalNoSeparator(tokens[0]);
    RunLengthIs(lead + Join(tokens), true, |lead|);
    RunLengthIs(Join(tokens), false, |tokens[0]|);
  }

  lemma FieldsStep(lead: string, t: string, first: string)
    requires t != "" && first <= t
    requires RunLength(lead + t, true) == |lead| && RunLength(t, false) == |first|
    ensures Fields(lead + t) == [first] + Fields(t[|first|..])
  {
    hide RunLength;
    assert (lead + t)[|lead|..] == t;
    assert t[..|first|] == first;
  }

  /** Splitting a joined list returns its tokens. */
  lemma {:induction false} FieldsOfJoin(tokens: seq<string>, lead: string)
    requires forall i | 0 <= i < |tokens| :: IsSignal(tokens[i])
    requires lead == "" || lead == "+"
    ensures Fields(lead + Join(tokens)) == tokens
    decreases |tokens|
  {
    hide IsSignal, RunLength, Join, Fields;
    if tokens != [] {
      FirstField(tokens, lead);
      FieldsStep(lead, Join(tokens), tokens[0]);
      FieldsOfJoin(tokens[1..], if |tokens| > 1 then "+" else "");
      assert [tokens[0]] + tokens[1..] == tokens;
    } else {
      FieldsOfBlank(lead);
      JoinEmpty();
      assert tokens == [] && lead + "" == lead;
    }
  }

  lemma JoinEmpty()
    ensures Join([]) == ""
  {
  }

  lemma FieldsOfBlank(lead: string)
    requires lead == "" || lead == "+"
    ensures Fields(lead) == []
  {
    RunLengthIs(lead, true, |lead|);
  }

  lemma LowerStays(t: string)
    requires forall i | 0 <= i < |t| :: !('A' <= t[i] <= 'Z')
    ensures ToLower(t) == t
  {
    hide ToLower;
  }

  lemma SignalPlain(t: string)
    requires IsSignal(t)
    ensures Trimmed(t) && forall i | 0 <= i < |t| :: 'a' <= t[i] <= 'z'
  {
  }

  lemma SignalStandsForItself(t: string)
    requires IsSignal(t)
    ensures TokenSignals(t) == [t]
  {
    hide TrimSpace, ToLower, Trimmed;
    SignalPlain(t);
    TrimSpaceTrims(t);
    LowerStays(t);
  }

  lemma AddNew(out: seq<string>, t: string)
    requires t !in out
    ensures AddSignals(out, [t]) == out + [t]
  {
    assert AddSignals(out, [t]) == AddSignals(out + [t], []);
  }

  /** The first of the remaining tokens is new. */
  lemma FirstIsNew(out: seq<string>, tokens: seq<string>)
    requires NoRepeats(out + tokens) && tokens != []
    ensures tokens[0] !in out && out + tokens == (out + [tokens[0]]) + tokens[1..]
  {
    forall i | 0 <= i < |out| ensures out[i] != tokens[0] {
      assert (out + tokens)[i] != (out + tokens)[|out|];
    }
  }

  /** Distinct signals are collected as they are. */
  lemma {:induction false} CollectDistinct(out: seq<string>, tokens: seq<string>)
    requires forall i | 0 <= i < |tokens| :: IsSignal(tokens[i])
    requires NoRepeats(out + tokens)
    ensures CollectSignals(out, tokens) == Ok(out + tokens)
    decreases |tokens|
  {
    hide TokenSignals, AddSignals, IsSignal, NoRepeats;
    if tokens == [] {
      assert out + tokens == out;
    } else {
      SignalStandsForItself(tokens[0]);
      FirstIsNew(out, tokens);
      AddNew(out, tokens[0]);
      CollectDistinct(out + [tokens[0]], tokens[1..]);
    }
  }

  lemma UnlockReadsBack(tokens: seq<string>)
    requires tokens != [] && NoRepeats(tokens) && forall i | 0 <= i < |tokens| :: IsSignal(tokens[i])
    ensures UnlockOf(Join(tokens)) == Ok(tokens)
  {
    hide Fields, CollectSignals, Join, IsSignal, NoRepeats, TokenSignals;
    JoinNoDash(tokens);
    FieldsOfJoin(tokens, "");
    assert "" + Join(tokens) == Join(tokens);
    assert [] + tokens == tokens;
    CollectDistinct([], tokens);
  }

  // ---------------------------------------------------------------- aliases

  /** A token without separators is a single field. */
  lemma SingleField(t: string)
    requires t != "" && forall i | 0 <= i < |t| :: !IsUnlockSeparator(t[i])
    ensures Fields(t) == [t]
  {
    RunLengthIs(t, true, 0);
    RunLengthIs(t, false, |t|);
    assert t[0..] == t && t[..|t|] == t && t[|t|..] == "";
    FieldsOfBlank("");
  }

  /** The canonical signals an unlock token stands for. */
  function Meaning(name: string): seq<string> {
    match name
    case "gpt" => ["openai"]
    case "chatgpt" => ["openai"]
    case "cloudflare" => ["cf"]
    case "all" => ["openai", "claude", "grok", "gemini", "cf"]
    case _ => if IsSignal(name) then [name] else []
  }

  lemma TokenMeans(token: string)
    ensures TokenSignals(token) == Meaning(ToLower(TrimSpace(token)))
  {
    hide ToLower, TrimSpace;
  }

  lemma MeaningDistinct(name: string)
    ensures AddSignals([], Meaning(name)) == Meaning(name)
  {
    if name == "all" {
      AddAll();
    }
  }

  lemma AddAll()
    ensures AddSignals([], ["openai", "claude", "grok", "gemini", "cf"]) == ["openai", "claude", "grok", "gemini", "cf"]
  {
    var a, b, c, d, e := "openai", "claude", "grok", "gemini", "cf";
    AddFirst([], a, [b, c, d, e]);
    AddFirst([a], b, [c, d, e]);
    AddFirst([a, b], c, [d, e]);
    AddFirst([a, b, c], d, [e]);
    AddFirst([a, b, c, d], e, []);
  }

  lemma AddFirst(out: seq<string>, t: string, rest: seq<string>)
    requires t !in out
    ensures AddSignals(out, [t] + rest) == AddSignals(out + [t], rest)
  {
    assert ([t] + rest)[1..] == rest;
  }

  /** In any spelling, an alias is read as its signal and `all` as every signal;
      anything else is refused. */
  lemma AliasReads(token: string)
    requires token != "" && forall i | 0 <= i < |token| :: !IsUnlockSeparator(token[i])
    ensures var meaning := Meaning(ToLower(TrimSpace(token)));
            UnlockOf(token) == if meaning == [] then Err(UnlockUnknown) else Ok(meaning)
  {
    hide ToLower, TrimSpace, TokenSignals, Meaning, AddSignals, Fields;
    SingleField(token);
    TokenMeans(token);
    MeaningDistinct(ToLower(TrimSpace(token)));
    var meaning := Meaning(ToLower(TrimSpace(token)));
    CollectOne(token);
    assert meaning != [] ==> UnlockOf(token) == Ok(meaning);
  }

  lemma CollectOne(token: string)
    ensures var s := TokenSignals(token);
            CollectSignals([], [token]) == if s == [] then Err(UnlockUnknown) else Ok(AddSignals([], s))
  {
    hide TokenSignals, AddSignals;
    assert [token][1..] == [];
    assert forall out :: CollectSignals(out, []) == Ok(out);
  }

  // ---------------------------------------------------------------- round trip

  lemma PrintableSeparated(p: ParsedUsername)
    requires Base64Url.IsBytes(p.node) && WellFormed(p)
    ensures ToSegments(p).Clean()
  {
    var s := ToSegments(p);
    if p.region != "" {
      NoStartSeparated(p.region, s.AfterRegion());
    }
    if p.unlock != [] {
      JoinNoDash(p.unlock);
      NoStartSeparated(Join(p.unlock), s.AfterUnlock());
    }
    if p.node != "" {
      if HasPrefix(p.node, KEY_PREFIX) {
        AsciiPinSeparated(p.node[|KEY_PREFIX|..], s.AfterNode());
      } else {
        AddressNotOpen(p.node);
      }
    }
  }

  lemma NodeReadsBack(node: string)
    requires Base64Url.IsBytes(node) && HasPrefix(node, KEY_PREFIX) && |node| > |KEY_PREFIX|
    ensures NodeOf(Pin(node), Pin(node)) == Ok(node)
  {
    var key := node[|KEY_PREFIX|..];
    Base64Url.DecodeEncode(key);
    Base64Url.EncodeSymbols(key);
    assert Pin(node)[|KEY_PREFIX|..] == Base64Url.Encode(key);
    assert node == KEY_PREFIX + key;
  }

  /** Every well-formed parse result is what its canonical printing parses to. */
  lemma ParsePrint(p: ParsedUsername)
    requires Base64Url.IsBytes(p.node) && WellFormed(p)
    ensures Parse(Print(p)) == Ok(p)
  {
    var s := ToSegments(p);
    PrintableSeparated(p);
    ReadRendered(s);
    if p.unlock != [] {
      UnlockReadsBack(p.unlock);
    }
    if p.node != "" && HasPrefix(p.node, KEY_PREFIX) {
      NodeReadsBack(p.node);
    }
    MeaningOfPrint(p);
    ParseMeansSegments(Print(p), p);
  }

  lemma MeaningOfPrint(p: ParsedUsername)
    requires Base64Url.IsBytes(p.node) && WellFormed(p)
    requires p.unlock != [] ==> UnlockOf(Join(p.unlock)) == Ok(p.unlock)
    requires HasPrefix(p.node, KEY_PREFIX) ==> NodeOf(Pin(p.node), Pin(p.node)) == Ok(p.node)
    ensures Interpret(ToSegments(p)) == Ok(p)
  {
    hide UnlockOf;
    if p.region != "" {
      assert ToLower(p.region) == p.region;
    }
    if p.unlock != [] {
      JoinNoDash(p.unlock);
    }
  }

  // ---------------------------------------------------------------- gateway hint

  datatype HintResult = Hint(username: string) | InvalidRegion | MissingNodeKey

  /** `config.NormalizeCountryCode` followed by `strings.ToLower`: two letters
      in lower case, or nothing. */
  function CountryCode(region: string): string {
    var code := TrimSpace(region);
    if |code| == 2 && IsAlpha(code) then ToLower(code) else ""
  }

  function HintBase(base: string): string {
    if TrimSpace(base) == "" then "username" else TrimSpace(base)
  }

  /** `gatewayUsernameHint`, with `EncodeNodeKeyPin` inlined. */
  function GatewayUsernameHint(base: string, region: string, nodeKey: string): HintResult
    requires Base64Url.IsBytes(nodeKey)
  {
    var cc := CountryCode(TrimSpace(region));
    var key := TrimSpace(nodeKey);
    TrimBytes(nodeKey);
    if TrimSpace(region) != "" && cc == "" then InvalidRegion
    else if key == "" then MissingNodeKey
    else if cc == "" then Hint(HintBase(base) + "-node-key-" + Base64Url.Encode(key) + "-session-api")
    else Hint(HintBase(base) + "-region-" + cc + "-node-key-" + Base64Url.Encode(key) + "-session-api")
  }

  lemma TrimBytes(s: string)
    requires Base64Url.IsBytes(s)
    ensures Base64Url.IsBytes(TrimSpace(s))
  {
    TrimRightDropsBlanks(TrimLeft(s));
    TrimLeftSuffix(s);
  }

  lemma TrimLeftSuffix(s: string)
    ensures |TrimLeft(s)| <= |s| && TrimLeft(s) == s[|s| - |TrimLeft(s)|..]
  {
    if s != "" && IsSpace(s[0]) {
      TrimLeftSuffix(s[1..]);
    }
  }

  /** What a reader of the hint is meant to get back. */
  function HintMeaning(base: string, region: string, nodeKey: string): ParsedUsername {
    ParsedUsername(HintBase(base), CountryCode(TrimSpace(region)), [], KEY_PREFIX + TrimSpace(nodeKey), "api")
  }

  /** The texts that a hint must keep apart: its base and its pin. */
  predicate HintSafe(base: string, nodeKey: string)
    requires Base64Url.IsBytes(nodeKey)
  {
    TrimBytes(nodeKey);
    Separated(HintBase(base), "-") && Separated(KEY_PREFIX + Base64Url.Encode(TrimSpace(nodeKey)), "-")
  }

  /** The segments of what a hint means. */
  function HintSegments(base: string, cc: string, enc: string): Segments {
    Segments(base, if cc == "" then Absent else Present(cc), Absent, Present(KEY_PREFIX + enc), Present("api"))
  }

  lemma HintFacts(base: string, region: string, nodeKey: string)
    requires Base64Url.IsBytes(nodeKey) && GatewayUsernameHint(base, region, nodeKey).Hint?
    ensures Base64Url.IsBytes(TrimSpace(nodeKey)) && TrimSpace(nodeKey) != ""
    ensures Base64Url.IsBytes(KEY_PREFIX + TrimSpace(nodeKey))
    ensures ToSegments(HintMeaning(base, region, nodeKey))
         == HintSegments(HintBase(base), CountryCode(TrimSpace(region)), Base64Url.Encode(TrimSpace(nodeKey)))
  {
    hide Base64Url.Encode, TrimSpace, CountryCode, HintBase;
    TrimBytes(nodeKey);
    var key := TrimSpace(nodeKey);
    assert (KEY_PREFIX + key)[|KEY_PREFIX|..] == key;
  }

  lemma HintCodeShape(region: string)
    ensures CountryCode(region) == "" || IsCountry(CountryCode(region))
  {
    hide TrimSpace;
  }

  lemma HintTail(base: string, cc: string, enc: string)
    ensures HintSegments(base, cc, enc).AfterRegion() == "-node-key-" + enc + "-session-api"
  {
    var s := HintSegments(base, cc, enc);
    assert s.AfterNode() == "-session-api";
    assert NODE + (KEY_PREFIX + enc) == "-node-key-" + enc;
    assert s.AfterUnlock() == "-node-key-" + enc + "-session-api";
  }

  lemma HintRendered(base: string, cc: string, enc: string)
    ensures HintSegments(base, cc, enc).Render()
         == if cc == "" then base + "-node-key-" + enc + "-session-api"
            else base + "-region-" + cc + "-node-key-" + enc + "-session-api"
  {
    HintTail(base, cc, enc);
    var pin := "-node-key-" + enc + "-session-api";
    Regroup(base, "-node-key-", enc, "-session-api");
    if cc != "" {
      Regroup(base + "-region-" + cc, "-node-key-", enc, "-session-api");
      assert base + ((REGION + cc) + pin) == (base + "-region-" + cc) + pin;
    }
  }

  lemma Regroup(a: string, b: string, c: string, d: string)
    ensures a + b + c + d == a + (b + c + d)
  {
  }

  lemma HintIsRendering(base: string, region: string, nodeKey: string)
    requires Base64Url.IsBytes(nodeKey) && GatewayUsernameHint(base, region, nodeKey).Hint?
    ensures Base64Url.IsBytes(KEY_PREFIX + TrimSpace(nodeKey))
    ensures GatewayUsernameHint(base, region, nodeKey).username
            == ToSegments(HintMeaning(base, region, nodeKey)).Render()
  {
    hide Base64Url.Encode, TrimSpace, CountryCode, HintBase, ToSegments, HintMeaning;
    HintFacts(base, region, nodeKey);
    HintRendered(HintBase(base), CountryCode(TrimSpace(region)), Base64Url.Encode(TrimSpace(nodeKey)));
  }

  lemma HintSegmentsClean(base: string, region: string, nodeKey: string)
    requires Base64Url.IsBytes(nodeKey) && GatewayUsernameHint(base, region, nodeKey).Hint?
    requires HintSafe(base, nodeKey)
    ensures Base64Url.IsBytes(KEY_PREFIX + TrimSpace(nodeKey))
    ensures ToSegments(HintMeaning(base, region, nodeKey)).Clean()
  {
    hide Base64Url.Encode, TrimSpace, CountryCode, ToSegments, HintMeaning;
    HintFacts(base, region, nodeKey);
    HintCodeShape(TrimSpace(region));
    var cc := CountryCode(TrimSpace(region));
    if cc != "" {
      NoStartSeparated(cc, "-");
    }
    NoStartSeparated("api", "");
    HintBaseNonEmpty(base);
    HintClean(HintBase(base), cc, Base64Url.Encode(TrimSpace(nodeKey)));
  }

  lemma HintBaseNonEmpty(base: string)
    ensures HintBase(base) != ""
  {
    hide TrimSpace;
  }

  lemma HintClean(base: string, cc: string, enc: string)
    requires base != "" && Separated(base, "-") && Separated(KEY_PREFIX + enc, "-")
    requires (cc == "" || Separated(cc, "-")) && Separated("api", "")
    ensures HintSegments(base, cc, enc).Clean()
  {
    hide MarkerFree, EndsOpen;
    var s := HintSegments(base, cc, enc);
    assert s.AfterNode() != "" && s.AfterUnlock() != "" && s.AfterRegion() != "" && s.AfterBase() != "";
  }

  lemma HintInterprets(base: string, region: string, nodeKey: string)
    requires Base64Url.IsBytes(nodeKey) && GatewayUsernameHint(base, region, nodeKey).Hint?
    ensures Base64Url.IsBytes(KEY_PREFIX + TrimSpace(nodeKey))
    ensures var p := HintMeaning(base, region, nodeKey); Interpret(ToSegments(p)) == Ok(p)
  {
    hide Base64Url.Encode, TrimSpace, CountryCode, HintBase, ToSegments, NodeOf;
    HintFacts(base, region, nodeKey);
    var key := TrimSpace(nodeKey);
    assert (KEY_PREFIX + key)[|KEY_PREFIX|..] == key;
    NodeReadsBack(KEY_PREFIX + key);
    CountryReadsBack(TrimSpace(region));
    assert SessionOf("api") == Ok("api");
  }

  lemma CountryReadsBack(region: string)
    ensures CountryCode(region) != "" ==> RegionOf(CountryCode(region)) == Ok(CountryCode(region))
  {
    hide TrimSpace;
    var cc := CountryCode(region);
    HintCodeShape(region);
    if cc != "" {
      assert ToLower(cc) == cc;
    }
  }

  /** From the segments of an accepted hint back to the texts it was made of. */
  lemma HintTexts(base: string, region: string, nodeKey: string, s: Segments)
    requires Base64Url.IsBytes(nodeKey) && GatewayUsernameHint(base, region, nodeKey).Hint?
    requires s.Render() == GatewayUsernameHint(base, region, nodeKey).username
    requires Interpret(s) == Ok(HintMeaning(base, region, nodeKey))
    ensures Base64Url.IsBytes(TrimSpace(nodeKey))
    ensures s.base == HintBase(base) && s.AfterBase() != "" && s.AfterNode() != ""
    ensures s.node == Present(KEY_PREFIX + Base64Url.Encode(TrimSpace(nodeKey)))
  {
    hide Base64Url.Encode, TrimSpace, CountryCode, HintBase, ToSegments, NodeOf, RegionOf, UnlockOf,
        GatewayUsernameHint;
    HintFacts(base, region, nodeKey);
    HintIsRendering(base, region, nodeKey);
    var cc, enc := CountryCode(TrimSpace(region)), Base64Url.Encode(TrimSpace(nodeKey));
    HintShapes(s, HintMeaning(base, region, nodeKey));
    SameTexts(s, HintSegments(HintBase(base), cc, enc));
  }

  /** Which segments are there follows from what they mean. */
  lemma HintShapes(s: Segments, p: ParsedUsername)
    requires Interpret(s) == Ok(p) && p.unlock == [] && p.node != "" && p.session == "api"
    ensures s.base == p.base && s.unlock.Absent? && s.session == Present("api") && s.node.Present?
    ensures if p.region == "" then s.region.Absent? else s.region.Present? && |s.region.text| == |p.region| == 2
  {
    hide NodeOf, Fields, CollectSignals;
  }

  /** With equal lengths around it, the node text can be read off the username. */
  lemma SameTexts(s: Segments, q: Segments)
    requires s.Render() == q.Render() && s.base == q.base && s.unlock.Absent? && q.unlock.Absent?
    requires s.session == q.session && s.session.Present? && s.node.Present? && q.node.Present?
    requires s.region.Present? == q.region.Present? && (s.region.Present? ==> |s.region.text| == |q.region.text|)
    ensures s.node == q.node && s.AfterBase() != "" && s.AfterNode() != ""
  {
    assert s.AfterBase() == s.Render()[|s.base|..] == q.AfterBase();
    var r := |s.region.Render(REGION)|;
    assert r == |q.region.Render(REGION)|;
    assert s.AfterRegion() == s.AfterBase()[r..] == q.AfterRegion();
    SameNode(s, q);
  }

  lemma SameNode(s: Segments, q: Segments)
    requires s.AfterRegion() == q.AfterRegion() && s.unlock.Absent? && q.unlock.Absent?
    requires s.session == q.session && s.session.Present? && s.node.Present? && q.node.Present?
    ensures s.node == q.node && s.AfterBase() != "" && s.AfterNode() != ""
  {
    var tail := s.AfterNode();
    assert s.AfterRegion() == (NODE + s.node.text) + tail;
    assert q.AfterRegion() == (NODE + q.node.text) + tail;
    assert |s.node.text| == |q.node.text|;
    var k := |NODE| + |s.node.text|;
    assert NODE + s.node.text == s.AfterRegion()[..k] == q.AfterRegion()[..k] == NODE + q.node.text;
    assert s.node.text == (NODE + s.node.text)[|NODE|..] == (NODE + q.node.text)[|NODE|..] == q.node.text;
  }

  /** The hint parses back to its base, region, node key and session exactly
      when its base and its pin hold no marker and end in none that lacks only
      its last dash. */
  lemma HintReadsBackIff(base: string, region: string, nodeKey: string)
    requires Base64Url.IsBytes(nodeKey) && GatewayUsernameHint(base, region, nodeKey).Hint?
    ensures Parse(GatewayUsernameHint(base, region, nodeKey).username) == Ok(HintMeaning(base, region, nodeKey))
            <==> HintSafe(base, nodeKey)
  {
    var hint := GatewayUsernameHint(base, region, nodeKey).username;
    var p := HintMeaning(base, region, nodeKey);
    HintIsRendering(base, region, nodeKey);
    ParseMeansSegments(hint, p);
    if HintSafe(base, nodeKey) {
      HintSegmentsClean(base, region, nodeKey);
      ReadRendered(ToSegments(p));
      HintInterprets(base, region, nodeKey);
    }
    if Parse(hint) == Ok(p) {
      ReadSound(hint);
      HintTexts(base, region, nodeKey, ReadSegments(hint).segments);
    }
  }

  /** For ASCII keys only the base matters. */
  lemma AsciiHintReadsBack(base: string, region: string, nodeKey: string)
    requires Base64Url.IsBytes(nodeKey) && Base64Url.IsAscii(nodeKey)
    requires GatewayUsernameHint(base, region, nodeKey).Hint?
    ensures Parse(GatewayUsernameHint(base, region, nodeKey).username) == Ok(HintMeaning(base, region, nodeKey))
            <==> MarkerFree(HintBase(base)) && !EndsOpen(HintBase(base))
  {
    TrimBytes(nodeKey);
    TrimRightDropsBlanks(TrimLeft(nodeKey));
    TrimLeftSuffix(nodeKey);
    AsciiPinSeparated(TrimSpace(nodeKey), "-");
    HintReadsBackIff(base, region, nodeKey);
  }
}
