/** Where the username DSL falls short of what its comments promise: the parser
    is not total, and a key outside ASCII can break its own pin. */
module DslLimits {
  import opened Text
  import opened Dsl
  import opened DslGrammar
  import opened DslPrinting
  import Base64Url

  /** The text after `-node-` is `key` and then a marker. */
  predicate KeyCutShort(raw: string) {
    HasPrefix(raw, "key" + REGION) || HasPrefix(raw, "key" + UNLOCK)
    || HasPrefix(raw, "key" + SESSION) || HasPrefix(raw, "key" + NODE)
  }

  lemma CutShortHasMarker(raw: string)
    requires KeyCutShort(raw)
    ensures |raw| > 3 && MarkerAt(raw, 3)
  {
    var m := if HasPrefix(raw, "key" + REGION) then REGION else if HasPrefix(raw, "key" + UNLOCK) then UNLOCK
             else if HasPrefix(raw, "key" + SESSION) then SESSION else NODE;
    assert raw[..3 + |m|] == "key" + m;
    assert raw[3..3 + |m|] == raw[..3 + |m|][3..] == m;
  }

  lemma MarkerCutsShort(raw: string)
    requires HasPrefix(raw, KEY_PREFIX) && MarkerAt(raw, 3)
    ensures KeyCutShort(raw)
  {
    var m := if OccursAt(raw, REGION, 3) then REGION else if OccursAt(raw, UNLOCK, 3) then UNLOCK
             else if OccursAt(raw, SESSION, 3) then SESSION else NODE;
    assert raw[..3] == "key";
    assert raw[..3 + |m|] == raw[..3] + raw[3..3 + |m|] == "key" + m;
  }

  lemma KeyCutShortSplits(raw: string)
    requires HasPrefix(raw, KEY_PREFIX)
    ensures SplitEnd(raw) < 4 <==> KeyCutShort(raw)
  {
    hide KeyCutShort, MarkerAt;
    var e := SplitEnd(raw);
    if KeyCutShort(raw) {
      CutShortHasMarker(raw);
    }
    if e < 4 {
      MarkerStart(raw, e);
      assert raw[0] == 'k' && raw[1] == 'e' && raw[2] == 'y';
      MarkerCutsShort(raw);
    }
  }

  lemma NodePanicsIff(raw: string)
    ensures ParseNode(raw).Panic? <==> KeyCutShort(raw)
  {
    hide KeyCutShort, Base64Url.Decode, IsNodeAddress;
    if HasPrefix(raw, KEY_PREFIX) {
      KeyCutShortSplits(raw);
    } else {
      NotCutShort(raw);
    }
  }

  lemma NotCutShort(raw: string)
    requires !HasPrefix(raw, KEY_PREFIX)
    ensures !KeyCutShort(raw)
  {
  }

  lemma {:induction false} CollectNeverPanics(out: seq<string>, parts: seq<string>)
    ensures !CollectSignals(out, parts).Panic?
    decreases parts
  {
    if parts != [] && TokenSignals(parts[0]) != [] {
      CollectNeverPanics(AddSignals(out, TokenSignals(parts[0])), parts[1..]);
    }
  }

  /** The parser indexes out of range exactly when its first steps succeed and
      leave such a pin. */
  lemma StepsPanicIff(raw: string)
    ensures Parse(raw).Panic? <==>
            raw != "" && SplitEnd(raw) > 0
            && RegionStep(raw[SplitEnd(raw)..]).Ok?
            && UnlockStep(RegionStep(raw[SplitEnd(raw)..]).value.1).Ok?
            && var rem := UnlockStep(RegionStep(raw[SplitEnd(raw)..]).value.1).value.1;
               HasPrefix(rem, NODE) && KeyCutShort(rem[|NODE|..])
  {
    hide KeyCutShort, ParseNode, ParseRegion, ParseUnlock, ParseSession, MarkerAt;
    if raw != "" && SplitEnd(raw) > 0 {
      var rem0 := raw[SplitEnd(raw)..];
      EarlyStepsNeverPanic(rem0);
      if RegionStep(rem0).Ok? {
        var rem1 := RegionStep(rem0).value.1;
        EarlyStepsNeverPanic(rem1);
        if UnlockStep(rem1).Ok? {
          var rem2 := UnlockStep(rem1).value.1;
          if HasPrefix(rem2, NODE) {
            NodePanicsIff(rem2[|NODE|..]);
          }
          if NodeStep(rem2).Ok? {
            EarlyStepsNeverPanic(NodeStep(rem2).value.1);
          }
        }
      }
    }
  }

  /** Only a node pin can make the parser panic. */
  lemma EarlyStepsNeverPanic(rem: string)
    ensures !RegionStep(rem).Panic? && !UnlockStep(rem).Panic? && !SessionStep(rem).Panic?
  {
    hide CollectSignals, Fields, SplitValue;
    if HasPrefix(rem, UNLOCK) {
      CollectNeverPanics([], Fields(SplitValue(rem[|UNLOCK|..]).0));
    }
  }

  /** A username that stops in the middle of a stable pin: a base, an optional
      region, an optional unlock list, `-node-key`, and then another marker. */
  datatype Truncated = Truncated(base: string, region: Segment, unlock: Segment, tail: string) {
    function AfterUnlock(): string { NODE + ("key" + tail) }
    function AfterRegion(): string { unlock.Render(UNLOCK) + AfterUnlock() }
    function AfterBase(): string { region.Render(REGION) + AfterRegion() }
    function Render(): string { base + AfterBase() }

    predicate Reads() {
      && base != "" && Separated(base, "-") && MarkerAt(tail, 0)
      && (region.Present? ==> Separated(region.text, "-") && RegionOf(region.text).Ok?)
      && (unlock.Present? ==> Separated(unlock.text, "-") && UnlockOf(unlock.text).Ok?)
    }
  }

  lemma CutShortIff(pin: string)
    ensures KeyCutShort(pin) <==> HasPrefix(pin, "key") && MarkerAt(pin[3..], 0)
  {
    hide MarkerAt, KeyCutShort;
    if KeyCutShort(pin) {
      CutShortHasMarker(pin);
      CutShortKey(pin);
      MarkerShift(pin, 3);
    }
    if HasPrefix(pin, "key") && MarkerAt(pin[3..], 0) {
      MarkerDash(pin[3..], 0);
      MarkerShift(pin, 3);
      assert pin[..3] == "key" && pin[3] == '-';
      assert pin[..4] == pin[..3] + [pin[3]];
      MarkerCutsShort(pin);
    }
  }

  lemma CutShortKey(pin: string)
    requires KeyCutShort(pin)
    ensures HasPrefix(pin, "key")
  {
    assert pin[..3] == "key";
  }

  lemma SeparatedFromMore(text: string, rest: string)
    requires rest != ""
    ensures Separated(text, rest) <==> Separated(text, "-")
  {
    hide MarkerFree, EndsOpen;
  }

  /** Every truncated username panics. */
  lemma TruncatedPanics(t: Truncated)
    requires t.Reads()
    ensures Parse(t.Render()).Panic?
  {
    hide MarkerAt, Separated, Take, SplitValue, RegionOf, UnlockOf, Parse, KeyCutShort, RegionStep, UnlockStep;
    var rem0, rem1, rem2 := t.AfterBase(), t.AfterRegion(), t.AfterUnlock();
    NodeIsLater(rem2, "key" + t.tail);
    TakeTruncated(t);
    TruncatedSplits(t);
    StepsTake(rem0);
    StepsTake(rem1);
    CutShortIff("key" + t.tail);
    assert ("key" + t.tail)[3..] == t.tail && rem2[|NODE|..] == "key" + t.tail;
    StepsPanicIff(t.Render());
  }

  lemma NodeIsLater(rem: string, pin: string)
    requires rem == NODE + pin
    ensures HasPrefix(rem, NODE) && Later(rem, UNLOCK) && Later(rem, REGION) && rem != ""
  {
  }

  lemma TakeTruncated(t: Truncated)
    requires t.Reads()
    ensures Take(t.AfterBase(), REGION) == (t.region, t.AfterRegion())
    ensures Take(t.AfterRegion(), UNLOCK) == (t.unlock, t.AfterUnlock())
    ensures Suffix(t.AfterBase()) && t.AfterBase() != ""
  {
    hide MarkerAt, Separated, Take, RegionOf, UnlockOf, Suffix, Later;
    var rem1, rem2 := t.AfterRegion(), t.AfterUnlock();
    NodeIsLater(rem2, "key" + t.tail);
    if t.unlock.Present? { SeparatedFromMore(t.unlock.text, rem2); }
    if t.region.Present? { SeparatedFromMore(t.region.text, rem1); }
    TakeRendered(t.unlock, UNLOCK, rem2);
    RenderedLater(t.unlock, UNLOCK, rem2, REGION);
    TakeRendered(t.region, REGION, rem1);
    RenderedIsSuffix(t.region, REGION, rem1);
  }

  lemma TruncatedSplits(t: Truncated)
    requires t.Reads() && Suffix(t.AfterBase()) && t.AfterBase() != ""
    ensures var raw := t.Render();
            SplitEnd(raw) > 0 && raw != "" && raw[SplitEnd(raw)..] == t.AfterBase()
  {
    hide MarkerAt, Separated, RegionOf, UnlockOf, Suffix, SplitEnd;
    SeparatedFromMore(t.base, t.AfterBase());
    SplitSeparated(t.base, t.AfterBase());
    assert t.Render()[..SplitEnd(t.Render())] == t.base;
  }

  /** The parser indexes out of range exactly on truncated usernames. */
  lemma ParsePanicsIff(raw: string)
    ensures Parse(raw).Panic? <==> exists t: Truncated :: t.Reads() && t.Render() == raw
  {
    hide Parse, Separated, MarkerAt, KeyCutShort;
    if Parse(raw).Panic? {
      var t := TruncationOf(raw);
      assert t.Reads() && t.Render() == raw;
    }
    if t: Truncated :| t.Reads() && t.Render() == raw {
      TruncatedPanics(t);
    }
  }

  lemma TruncationOf(raw: string) returns (t: Truncated)
    requires Parse(raw).Panic?
    ensures t.Reads() && t.Render() == raw
  {
    hide MarkerAt, Separated, Take, RegionOf, UnlockOf, Parse, KeyCutShort, RegionStep, UnlockStep, Suffix, SplitEnd;
    StepsPanicIff(raw);
    var e := SplitEnd(raw);
    var rem0 := raw[e..];
    StepsTake(rem0);
    var (region, rem1) := Take(rem0, REGION);
    StepsTake(rem1);
    var (unlock, rem2) := Take(rem1, UNLOCK);
    SplitSound(raw);
    TakeSound(rem0, REGION);
    TakeSound(rem1, UNLOCK);
    var pin := rem2[|NODE|..];
    CutShortIff(pin);
    t := Truncated(raw[..e], region, unlock, pin[3..]);
    assert pin == "key" + pin[3..] && rem2 == NODE + pin;
    assert rem2 != "" && rem1 == t.AfterRegion() && rem0 == t.AfterBase();
    assert raw == raw[..e] + rem0;
    SeparatedFromMore(t.base, rem0);
    if region.Present? { SeparatedFromMore(region.text, rem1); }
    if unlock.Present? { SeparatedFromMore(unlock.text, rem2); }
  }

  /** A family of usernames on which it does: `<base>-node-key-node-<tail>`. */
  lemma PanicFamily(base: string, tail: string)
    requires base != "" && Separated(base, "-")
    ensures Parse(base + (NODE + ("key" + NODE + tail))).Panic?
  {
    hide Separated, Parse;
    var t := Truncated(base, Absent, Absent, NODE + tail);
    assert OccursAt(NODE + tail, NODE, 0);
    assert "key" + (NODE + tail) == "key" + NODE + tail;
    assert t.AfterBase() == NODE + ("key" + (NODE + tail));
    TruncatedPanics(t);
  }

  // ------------------------------------------------ keys outside ASCII

  /** The UTF-8 bytes of two characters, U+F9E1 and U+05FE. */
  const WIDE := ['\U{EF}', '\U{A7}', '\U{A1}', '\U{D7}', '\U{BE}']

  /** After one byte of a group they encode to `-node-`, whatever that byte is. */
  lemma WideQuads(b: nat)
    requires b < 256
    ensures Base64Url.Quad(b, 0xEF, 0xA7)[2..] == "-n" && Base64Url.Quad(0xA1, 0xD7, 0xBE) == "ode-"
  {
  }

  lemma WideGroups(b: char, suffix: string)
    requires b as int < 256 && Base64Url.IsBytes(suffix)
    ensures Base64Url.IsBytes([b] + WIDE + suffix)
    ensures OccursAt(Base64Url.Encode([b] + WIDE + suffix), NODE, 2)
  {
    hide Base64Url.Quad;
    var key := [b] + WIDE + suffix;
    WideQuads(b as int);
    var q, r := Base64Url.Quad(b as int, 0xEF, 0xA7), Base64Url.Quad(0xA1, 0xD7, 0xBE);
    assert key[3..] == WIDE[2..] + suffix && key[3..][3..] == suffix;
    assert Base64Url.Encode(key) == q + (r + Base64Url.Encode(suffix));
    assert (q + (r + Base64Url.Encode(suffix)))[2..8] == q[2..] + r;
  }

  /** So any key with these characters after a prefix of length 1 modulo 3 has a
      marker in its pin. */
  lemma WidePin(prefix: string, suffix: string)
    requires Base64Url.IsBytes(prefix) && Base64Url.IsBytes(suffix) && |prefix| % 3 == 1
    ensures Base64Url.IsBytes(prefix + WIDE + suffix)
    ensures !Separated(KEY_PREFIX + Base64Url.Encode(prefix + WIDE + suffix), "-")
  {
    hide Base64Url.Encode, MarkerAt;
    var k := |prefix| - 1;
    var head, tail := prefix[..k], [prefix[k]] + WIDE + suffix;
    assert prefix + WIDE + suffix == head + tail;
    WideGroups(prefix[k], suffix);
    Base64Url.EncodeAppend(head, tail);
    var enc := Base64Url.Encode(head);
    var pin := KEY_PREFIX + (enc + Base64Url.Encode(tail));
    var i := |KEY_PREFIX| + |enc| + 2;
    assert pin[i..i + |NODE|] == Base64Url.Encode(tail)[2..2 + |NODE|];
    OccursIsMarker(pin, NODE, i);
  }

  /** A family of keys whose hints never read back, whatever base and region. */
  lemma NonAsciiHintBroken(base: string, region: string, nodeKey: string, prefix: string, suffix: string)
    requires Base64Url.IsBytes(nodeKey) && GatewayUsernameHint(base, region, nodeKey).Hint?
    requires TrimSpace(nodeKey) == prefix + WIDE + suffix && |prefix| % 3 == 1
    ensures Parse(GatewayUsernameHint(base, region, nodeKey).username) != Ok(HintMeaning(base, region, nodeKey))
  {
    hide Base64Url.Encode, GatewayUsernameHint, HintMeaning, Separated, Parse, TrimSpace;
    TrimBytes(nodeKey);
    BytesOfParts(prefix, suffix);
    WidePin(prefix, suffix);
    HintReadsBackIff(base, region, nodeKey);
  }

  lemma BytesOfParts(prefix: string, suffix: string)
    requires Base64Url.IsBytes(prefix + WIDE + suffix)
    ensures Base64Url.IsBytes(prefix) && Base64Url.IsBytes(suffix)
  {
    var key := prefix + WIDE + suffix;
    forall i | 0 <= i < |prefix| ensures prefix[i] as int < 256 {
      assert key[i] == prefix[i];
    }
    forall i | 0 <= i < |suffix| ensures suffix[i] as int < 256 {
      assert key[|prefix| + |WIDE| + i] == suffix[i];
    }
  }

  /** `NodeKey()`: type, server, port and a hash in hexadecimal. */
  function NodeKeyText(kind: string, server: string, port: nat, hash: string): string {
    kind + ":" + server + ":" + Digits(port) + ":" + hash
  }

  /** A server name can carry the two characters into a real key. */
  lemma ServerNameBreaksHint(base: string, region: string, kind: string, name: string, rest: string, port: nat,
                             hash: string)
    requires kind != "" && !IsSpace(kind[0]) && hash != "" && !IsSpace(hash[|hash| - 1]) && (|kind| + |name|) % 3 == 0
    requires var key := NodeKeyText(kind, name + WIDE + rest, port, hash);
             Base64Url.IsBytes(key) && GatewayUsernameHint(base, region, key).Hint?
    ensures var key := NodeKeyText(kind, name + WIDE + rest, port, hash);
            Parse(GatewayUsernameHint(base, region, key).username) != Ok(HintMeaning(base, region, key))
  {
    hide GatewayUsernameHint, HintMeaning, Parse, Digits, TrimSpace;
    var key := NodeKeyText(kind, name + WIDE + rest, port, hash);
    var prefix, suffix := kind + ":" + name, rest + ":" + Digits(port) + ":" + hash;
    assert key == prefix + WIDE + suffix;
    assert key[0] == kind[0] && key[|key| - 1] == hash[|hash| - 1];
    TrimSpaceTrims(key);
    NonAsciiHintBroken(base, region, key, prefix, suffix);
  }
}
