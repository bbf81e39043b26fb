/** What the username parser accepts: a grammar of segments, its unique reading,
    and the printers whose output it reads back. */
module DslGrammar {
  import opened Text
  import opened Dsl
  import Base64Url

  /** One optional segment of the suffix. */
  datatype Segment = Absent | Present(text: string) {
    function Render(marker: string): string {
      if Absent? then "" else marker + text
    }
  }

  /** The texts of a username before they are interpreted. */
  datatype Segments = Segments(base: string, region: Segment, unlock: Segment, node: Segment, session: Segment) {

    function AfterNode(): string { session.Render(SESSION) }
    function AfterUnlock(): string { node.Render(NODE) + AfterNode() }
    function AfterRegion(): string { unlock.Render(UNLOCK) + AfterUnlock() }
    function AfterBase(): string { region.Render(REGION) + AfterRegion() }

    /** Base and present segments in the order region, unlock, node, session. */
    function Render(): string { base + AfterBase() }

    /** No text holds a marker, and none completes one with the dash that follows it. */
    predicate Clean() {
      base != ""
      && Separated(base, AfterBase())
      && (region.Present? ==> Separated(region.text, AfterRegion()))
      && (unlock.Present? ==> Separated(unlock.text, AfterUnlock()))
      && (node.Present? ==> Separated(node.text, AfterNode()))
      && (session.Present? ==> Separated(session.text, ""))
    }
  }

  predicate Separated(text: string, rest: string) {
    MarkerFree(text) && (rest != "" ==> !EndsOpen(text))
  }

  /** Interprets every present segment, in the order the parser meets them. */
  function Interpret(s: Segments): Outcome<ParsedUsername> {
    var region :- if s.region.Absent? then Ok("") else RegionOf(s.region.text);
    var unlock :- if s.unlock.Absent? then Ok([]) else UnlockOf(s.unlock.text);
    var node :- if s.node.Absent? then Ok("") else NodeOf(s.node.text, s.node.text);
    var session :- if s.session.Absent? then Ok("") else SessionOf(s.session.text);
    Ok(ParsedUsername(s.base, region, unlock, node, session))
  }

  // ---------------------------------------------------------------- splitting

  /** Nothing, or a marker and more. */
  predicate Suffix(rest: string) {
    rest == "" || MarkerAt(rest, 0)
  }

  /** A marker has its dashes at its ends and nowhere else. */
  lemma MarkerShape(m: string)
    requires IsMarker(m)
    ensures |m| >= 6 && m[0] == '-' && m[|m| - 1] == '-' && forall k | 0 < k < |m| - 1 :: m[k] != '-'
  {
  }

  lemma MarkerDash(s: string, i: nat)
    requires MarkerAt(s, i)
    ensures i < |s| && s[i] == '-'
  {
    var m := if OccursAt(s, REGION, i) then REGION else if OccursAt(s, UNLOCK, i) then UNLOCK
             else if OccursAt(s, SESSION, i) then SESSION else NODE;
    assert s[i] == s[i..i + |m|][0] == m[0];
  }

  lemma OccursIsMarker(s: string, m: string, i: nat)
    requires IsMarker(m) && OccursAt(s, m, i)
    ensures MarkerAt(s, i)
  {
  }

  /** A marker that starts in a marker-free `text` and ends in `rest` consists
      of an open end of `text` and the first dash of `rest`. */
  lemma MarkerAcross(text: string, rest: string, m: string, i: nat)
    requires IsMarker(m) && Suffix(rest) && MarkerFree(text) && i < |text|
    ensures OccursAt(text + rest, m, i) ==> EndsIn(text, m[..|m| - 1]) && rest != ""
  {
    hide IsMarker, MarkerAt;
    MarkerShape(m);
    if OccursAt(text + rest, m, i) {
      if i + |m| <= |text| {
        assert text[i..i + |m|] == (text + rest)[i..i + |m|];
        OccursIsMarker(text, m, i);
      } else {
        MarkerDash(rest, 0);
        AcrossOpen(text, rest, m, i);
      }
    }
  }

  lemma AcrossOpen(text: string, rest: string, m: string, i: nat)
    requires |m| > 0 && (forall k | 0 < k < |m| - 1 :: m[k] != '-')
    requires i < |text| < i + |m| && OccursAt(text + rest, m, i) && rest != "" && rest[0] == '-'
    ensures EndsIn(text, m[..|m| - 1])
  {
    var s, k := text + rest, |text| - i;
    var here := s[i..i + |m|];
    assert here == m;
    assert here[k] == s[i + k];
    assert s[i + k] == rest[0];
    assert k == |m| - 1;
    assert text[i..] == here[..k];
  }

  /** Splitting a separated text from what follows finds the boundary. */
  lemma SplitSeparated(text: string, rest: string)
    requires Suffix(rest) && Separated(text, rest)
    ensures SplitValue(text + rest) == (text, rest)
  {
    var s := text + rest;
    forall i: nat | i < |text| ensures !MarkerAt(s, i) {
      MarkerAcross(text, rest, REGION, i);
      MarkerAcross(text, rest, UNLOCK, i);
      MarkerAcross(text, rest, SESSION, i);
      MarkerAcross(text, rest, NODE, i);
    }
    if rest != "" {
      assert s[|text|..] == rest;
      MarkerShift(s, |text|);
    }
    assert SplitEnd(s) == |text|;
  }

  lemma MarkerShift(s: string, i: nat)
    requires i < |s|
    ensures MarkerAt(s, i) <==> MarkerAt(s[i..], 0)
  {
    forall m | IsMarker(m) ensures OccursAt(s, m, i) <==> OccursAt(s[i..], m, 0) {
      if i + |m| <= |s| {
        assert s[i..i + |m|] == s[i..][0..|m|];
      }
    }
  }

  lemma MarkerInPrefix(raw: string, e: nat, i: nat)
    requires e <= |raw| && MarkerAt(raw[..e], i)
    ensures MarkerAt(raw, i)
  {
    hide IsMarker;
    var value := raw[..e];
    var m := if OccursAt(value, REGION, i) then REGION else if OccursAt(value, UNLOCK, i) then UNLOCK
             else if OccursAt(value, SESSION, i) then SESSION else NODE;
    assert raw[i..i + |m|] == value[i..i + |m|];
  }

  /** What a split returns is separated, and is the input again. */
  lemma SplitSound(raw: string)
    ensures var (value, rest) := SplitValue(raw);
            value + rest == raw && Suffix(rest) && Separated(value, rest)
  {
    hide MarkerAt, EndsOpen;
    var e := SplitEnd(raw);
    var value := raw[..e];
    forall i: nat | i < e ensures !MarkerAt(value, i) {
      if MarkerAt(value, i) {
        MarkerInPrefix(raw, e, i);
      }
    }
    if e < |raw| {
      MarkerShift(raw, e);
      if EndsOpen(value) {
        OpenCompletes(raw, e);
      }
    }
  }

  /** An open end followed by a dash is a marker. */
  lemma OpenCompletes(raw: string, e: nat)
    requires e < |raw| && MarkerAt(raw, e) && EndsOpen(raw[..e])
    ensures exists i: nat :: i < e && MarkerAt(raw, i)
  {
    hide MarkerAt, EndsIn, OccursAt;
    MarkerDash(raw, e);
    var value := raw[..e];
    var m := if EndsIn(value, REGION[..7]) then REGION else if EndsIn(value, UNLOCK[..7]) then UNLOCK
             else if EndsIn(value, SESSION[..8]) then SESSION else NODE;
    Close(raw, e, m);
    OccursIsMarker(raw, m, e + 1 - |m|);
  }

  lemma Close(raw: string, e: nat, m: string)
    requires IsMarker(m) && e < |raw| && raw[e] == '-' && EndsIn(raw[..e], m[..|m| - 1])
    ensures 0 <= e + 1 - |m| < e && OccursAt(raw, m, e + 1 - |m|)
  {
    hide IsMarker;
    MarkerShape(m);
    var i := e + 1 - |m|;
    assert raw[i..e] == raw[..e][i..] == m[..|m| - 1];
    assert raw[i..i + |m|] == raw[i..e] + [raw[e]];
    assert m == m[..|m| - 1] + [m[|m| - 1]];
  }

  // ---------------------------------------------------------------- reading

  /** Takes the segment of `marker` off the front of the remainder. */
  function Take(rem: string, marker: string): (Segment, string) {
    if HasPrefix(rem, marker) then
      var (value, rest) := SplitValue(rem[|marker|..]);
      (Present(value), rest)
    else (Absent, rem)
  }

  datatype Reading = Unreadable | Read(segments: Segments)

  /** Splits a username into segments, with nothing left over. */
  function ReadSegments(raw: string): Reading {
    var (base, rem0) := SplitValue(raw);
    var (region, rem1) := Take(rem0, REGION);
    var (unlock, rem2) := Take(rem1, UNLOCK);
    var (node, rem3) := Take(rem2, NODE);
    var (session, rem4) := Take(rem3, SESSION);
    if base == "" || rem4 != "" then Unreadable
    else Read(Segments(base, region, unlock, node, session))
  }

  /** `rest` starts with none of the markers up to `marker` in the fixed order. */
  predicate Later(rest: string, marker: string) {
    rest == ""
    || (HasPrefix(rest, SESSION) && marker != SESSION)
    || (HasPrefix(rest, NODE) && (marker == UNLOCK || marker == REGION))
    || (HasPrefix(rest, UNLOCK) && marker == REGION)
  }

  lemma LaterIsSuffix(rest: string, marker: string)
    requires Later(rest, marker)
    ensures Suffix(rest)
    ensures IsMarker(marker) ==> !HasPrefix(rest, marker)
  {
    if rest != "" {
      var m := if HasPrefix(rest, SESSION) then SESSION else if HasPrefix(rest, NODE) then NODE else UNLOCK;
      assert rest[0..|m|] == m;
      assert OccursAt(rest, m, 0);
      assert rest[1] == m[1];
    }
  }

  /** Taking a rendered segment returns it and what follows. */
  lemma TakeRendered(segment: Segment, marker: string, rest: string)
    requires IsMarker(marker) && Later(rest, marker)
    requires segment.Present? ==> Separated(segment.text, rest)
    ensures Take(segment.Render(marker) + rest, marker) == (segment, rest)
  {
    hide MarkerAt, MarkerFree, EndsOpen, Separated, Suffix, Later, SplitValue, IsMarker;
    LaterIsSuffix(rest, marker);
    var rem := segment.Render(marker) + rest;
    if segment.Present? {
      assert rem == marker + (segment.text + rest);
      assert rem[..|marker|] == marker && rem[|marker|..] == segment.text + rest;
      SplitSeparated(segment.text, rest);
    } else {
      assert rem == rest;
    }
  }

  lemma RenderedLater(segment: Segment, marker: string, rest: string, before: string)
    requires (before, marker) in {(REGION, UNLOCK), (UNLOCK, NODE), (NODE, SESSION)}
    requires Later(rest, marker)
    ensures Later(segment.Render(marker) + rest, before)
  {
    if segment.Absent? {
      assert segment.Render(marker) + rest == rest;
    }
  }

  lemma RenderedIsSuffix(segment: Segment, marker: string, rest: string)
    requires IsMarker(marker) && Later(rest, marker)
    ensures Suffix(segment.Render(marker) + rest)
  {
    var rem := segment.Render(marker) + rest;
    if segment.Absent? {
      assert rem == rest;
      LaterIsSuffix(rest, marker);
    } else {
      assert rem[0..|marker|] == marker;
      assert OccursAt(rem, marker, 0);
    }
  }

  /** Reading a rendering returns its segments: the reading is unique. */
  lemma ReadRendered(s: Segments)
    requires s.Clean()
    ensures ReadSegments(s.Render()) == Read(s)
  {
    hide Take, SplitValue, MarkerAt, MarkerFree, EndsOpen, Separated, Suffix;
    var a1, a2, a3 := s.AfterRegion(), s.AfterUnlock(), s.AfterNode();
    assert a3 == s.session.Render(SESSION) + "";
    RenderedLater(s.session, SESSION, "", NODE);
    RenderedLater(s.node, NODE, a3, UNLOCK);
    RenderedLater(s.unlock, UNLOCK, a2, REGION);
    TakeRendered(s.session, SESSION, "");
    TakeRendered(s.node, NODE, a3);
    TakeRendered(s.unlock, UNLOCK, a2);
    TakeRendered(s.region, REGION, a1);
    RenderedIsSuffix(s.region, REGION, a1);
    SplitSeparated(s.base, s.AfterBase());
  }

  lemma TakeSound(rem: string, marker: string)
    requires Suffix(rem) && IsMarker(marker)
    ensures var (segment, rest) := Take(rem, marker);
            segment.Render(marker) + rest == rem && Suffix(rest)
            && (segment.Present? ==> Separated(segment.text, rest))
  {
    hide MarkerAt, EndsOpen, MarkerFree, SplitValue, IsMarker;
    if HasPrefix(rem, marker) {
      SplitSound(rem[|marker|..]);
      assert rem == marker + rem[|marker|..];
    }
  }

  /** What was read is clean and renders to the username. */
  lemma ReadSound(raw: string)
    requires ReadSegments(raw).Read?
    ensures var s := ReadSegments(raw).segments;
            s.Clean() && s.Render() == raw
  {
    SplitSound(raw);
    var (base, rem0) := SplitValue(raw);
    TakeSound(rem0, REGION);
    var (region, rem1) := Take(rem0, REGION);
    TakeSound(rem1, UNLOCK);
    var (unlock, rem2) := Take(rem1, UNLOCK);
    TakeSound(rem2, NODE);
    var (node, rem3) := Take(rem2, NODE);
    TakeSound(rem3, SESSION);
    var (session, rem4) := Take(rem3, SESSION);
    assert session.Render(SESSION) + "" == session.Render(SESSION);
  }

  // ---------------------------------------------------------------- acceptance

  lemma NodeOfPrefix(raw: string, value: string)
    requires value <= raw
    ensures NodeOf(raw, value).Ok? <==> NodeOf(value, value).Ok?
    ensures NodeOf(raw, value).Ok? ==> NodeOf(raw, value) == NodeOf(value, value)
  {
    if HasPrefix(raw, KEY_PREFIX) && |value| < |KEY_PREFIX| {
      assert value == KEY_PREFIX[..|value|];
      assert forall i | 0 <= i < |value| :: value[i] != ':';
      assert LastColon(value) == -1;
    }
  }

  function WithRest<T>(o: Outcome<T>, rest: string): Outcome<(T, string)> {
    if o.Ok? then Ok((o.value, rest)) else o.PropagateFailure()
  }

  lemma StepsTake(rem: string)
    ensures var (g, rest) := Take(rem, REGION);
            RegionStep(rem) == WithRest(if g.Absent? then Ok("") else RegionOf(g.text), rest)
    ensures var (g, rest) := Take(rem, UNLOCK);
            UnlockStep(rem) == WithRest(if g.Absent? then Ok([]) else UnlockOf(g.text), rest)
    ensures var (g, rest) := Take(rem, NODE);
            NodeStep(rem) == WithRest(if g.Absent? then Ok("") else NodeOf(rem[|NODE|..], g.text), rest)
    ensures var (g, rest) := Take(rem, SESSION);
            SessionStep(rem) == WithRest(if g.Absent? then Ok("") else SessionOf(g.text), rest)
  {
    hide RegionOf, UnlockOf, NodeOf, SessionOf, MarkerAt;
  }

  /** The node pin of a remainder is accepted exactly when its text is. */
  lemma NodeStepTakes(rem: string, p: string)
    ensures var (g, rest) := Take(rem, NODE);
            NodeStep(rem) == Ok((p, rest)) <==> (if g.Absent? then Ok("") else NodeOf(g.text, g.text)) == Ok(p)
    ensures NodeStep(rem).Ok? ==> NodeStep(rem).value.1 == Take(rem, NODE).1
  {
    hide NodeOf, MarkerAt;
    if HasPrefix(rem, NODE) {
      NodeOfPrefix(rem[|NODE|..], SplitValue(rem[|NODE|..]).0);
    }
  }

  /** A username is accepted exactly when it reads as segments whose texts are
      all valid, and the result is what the segments mean. */
  lemma ParseMeansSegments(raw: string, p: ParsedUsername)
    ensures Parse(raw) == Ok(p) <==> ReadSegments(raw).Read? && Interpret(ReadSegments(raw).segments) == Ok(p)
  {
    hide RegionOf, UnlockOf, NodeOf, SessionOf, Take, RegionStep, UnlockStep, NodeStep, SessionStep, SplitEnd;
    var (base, rem0) := SplitValue(raw);
    var (region, rem1) := Take(rem0, REGION);
    var (unlock, rem2) := Take(rem1, UNLOCK);
    var (node, rem3) := Take(rem2, NODE);
    StepsTake(rem0);
    StepsTake(rem1);
    NodeStepTakes(rem2, p.node);
    StepsTake(rem3);
  }

  /** Every accepted username is a base and optional segments in the fixed
      order with nothing left over, in one way only. */
  lemma AcceptedUniquely(raw: string, s: Segments)
    requires Parse(raw).Ok?
    requires s.Clean() && s.Render() == raw
    ensures ReadSegments(raw) == Read(s)
    ensures Interpret(s) == Parse(raw)
  {
    ParseMeansSegments(raw, Parse(raw).value);
    ReadRendered(s);
  }

  lemma AcceptedHasReading(raw: string)
    requires Parse(raw).Ok?
    ensures exists s: Segments :: s.Clean() && s.Render() == raw
  {
    ParseMeansSegments(raw, Parse(raw).value);
    ReadSound(raw);
    var s := ReadSegments(raw).segments;
    assert s.Clean() && s.Render() == raw;
  }
}
