/** Unpadded base64url (section 5 of RFC 4648), as `base64.RawURLEncoding`
    encodes and decodes it. */
module Base64Url {
  import opened Wrappers

  /** Every character is a byte. */
  predicate IsBytes(s: string) {
    forall i | 0 <= i < |s| :: s[i] as int < 256
  }

  predicate IsAscii(s: string) {
    forall i | 0 <= i < |s| :: s[i] as int < 128
  }

  /** The encoding alphabet. */
  function Symbol(v: nat): (c: char)
    requires v < 64
  {
    if v < 26 then ('A' as int + v) as char
    else if v < 52 then ('a' as int + (v - 26)) as char
    else if v < 62 then ('0' as int + (v - 52)) as char
    else if v == 62 then '-'
    else '_'
  }

  predicate IsSymbol(c: char) {
    'A' <= c <= 'Z' || 'a' <= c <= 'z' || '0' <= c <= '9' || c == '-' || c == '_'
  }

  predicate AllSymbols(s: string) {
    forall i | 0 <= i < |s| :: IsSymbol(s[i])
  }

  function Value(c: char): (v: nat)
    requires IsSymbol(c)
    ensures v < 64 && Symbol(v) == c
  {
    if 'A' <= c <= 'Z' then c as int - 'A' as int
    else if 'a' <= c <= 'z' then c as int - 'a' as int + 26
    else if '0' <= c <= '9' then c as int - '0' as int + 52
    else if c == '-' then 62
    else 63
  }

  // The four sextets of a group of three bytes, and the bytes back.

  function S0(b0: nat): nat { b0 / 4 }
  function S1(b0: nat, b1: nat): nat { b0 % 4 * 16 + b1 / 16 }
  function S2(b1: nat, b2: nat): nat { b1 % 16 * 4 + b2 / 64 }
  function S3(b2: nat): nat { b2 % 64 }

  function B0(v0: nat, v1: nat): nat { v0 * 4 + v1 / 16 }
  function B1(v1: nat, v2: nat): nat { v1 % 16 * 16 + v2 / 4 }
  function B2(v2: nat, v3: nat): nat { v2 % 4 * 64 + v3 }

  lemma GroupBounds(b0: nat, b1: nat, b2: nat)
    requires b0 < 256 && b1 < 256 && b2 < 256
    ensures S0(b0) < 64 && S1(b0, b1) < 64 && S2(b1, b2) < 64 && S3(b2) < 64
  {
  }

  lemma GroupInverse(b0: nat, b1: nat, b2: nat)
    requires b0 < 256 && b1 < 256 && b2 < 256
    ensures B0(S0(b0), S1(b0, b1)) == b0
    ensures B1(S1(b0, b1), S2(b1, b2)) == b1
    ensures B2(S2(b1, b2), S3(b2)) == b2
  {
  }

  /** The symbols of three bytes. */
  function Quad(b0: nat, b1: nat, b2: nat): (q: string)
    requires b0 < 256 && b1 < 256 && b2 < 256
    ensures |q| == 4
  {
    GroupBounds(b0, b1, b2);
    [Symbol(S0(b0)), Symbol(S1(b0, b1)), Symbol(S2(b1, b2)), Symbol(S3(b2))]
  }

  function Encode(s: string): string
    requires IsBytes(s)
  {
    if |s| == 0 then ""
    else if |s| == 1 then Quad(s[0] as int, 0, 0)[..2]
    else if |s| == 2 then Quad(s[0] as int, s[1] as int, 0)[..3]
    else Quad(s[0] as int, s[1] as int, s[2] as int) + Encode(s[3..])
  }

  function Byte0(t: string): nat
    requires AllSymbols(t) && |t| >= 2
  {
    B0(Value(t[0]), Value(t[1]))
  }

  function Byte1(t: string): nat
    requires AllSymbols(t) && |t| >= 3
  {
    B1(Value(t[1]), Value(t[2]))
  }

  function Byte2(t: string): nat
    requires AllSymbols(t) && |t| >= 4
  {
    B2(Value(t[2]), Value(t[3]))
  }

  /** Decoding is not strict: the unused low bits of a short last group are
      ignored.  A last group of one symbol is an error. */
  function Decode(t: string): Option<string>
    requires AllSymbols(t)
  {
    if |t| == 0 then Some("")
    else if |t| == 1 then None
    else if |t| == 2 then Some([Byte0(t) as char])
    else if |t| == 3 then Some([Byte0(t) as char, Byte1(t) as char])
    else
      match Decode(t[4..])
      case None => None
      case Some(rest) => Some([Byte0(t) as char, Byte1(t) as char, Byte2(t) as char] + rest)
  }

  lemma SymbolValue(v: nat)
    requires v < 64
    ensures IsSymbol(Symbol(v)) && Value(Symbol(v)) == v
  {
  }

  lemma QuadSymbols(b0: nat, b1: nat, b2: nat)
    requires b0 < 256 && b1 < 256 && b2 < 256
    ensures var q := Quad(b0, b1, b2);
            AllSymbols(q)
            && Value(q[0]) == S0(b0) && Value(q[1]) == S1(b0, b1)
            && Value(q[2]) == S2(b1, b2) && Value(q[3]) == S3(b2)
  {
    GroupBounds(b0, b1, b2);
    SymbolValue(S0(b0));
    SymbolValue(S1(b0, b1));
    SymbolValue(S2(b1, b2));
    SymbolValue(S3(b2));
  }

  /** A group decodes to its bytes, whatever follows it. */
  lemma QuadDecodes(b0: nat, b1: nat, b2: nat, t: string)
    requires b0 < 256 && b1 < 256 && b2 < 256 && AllSymbols(t)
    requires 2 <= |t| && t[0] == Quad(b0, b1, b2)[0] && t[1] == Quad(b0, b1, b2)[1]
    ensures Byte0(t) == b0
    ensures |t| > 2 && t[2] == Quad(b0, b1, b2)[2] ==> Byte1(t) == b1
    ensures |t| > 3 && t[2] == Quad(b0, b1, b2)[2] && t[3] == Quad(b0, b1, b2)[3] ==> Byte2(t) == b2
  {
    QuadSymbols(b0, b1, b2);
    GroupInverse(b0, b1, b2);
  }

  lemma {:induction false} EncodeSymbols(s: string)
    requires IsBytes(s)
    ensures AllSymbols(Encode(s))
    ensures s != "" ==> |Encode(s)| >= 2
  {
    if |s| == 1 {
      QuadSymbols(s[0] as int, 0, 0);
    } else if |s| == 2 {
      QuadSymbols(s[0] as int, s[1] as int, 0);
    } else if |s| >= 3 {
      QuadSymbols(s[0] as int, s[1] as int, s[2] as int);
      EncodeSymbols(s[3..]);
    }
  }

  /** Decoding an encoding returns the bytes. */
  lemma {:induction false} DecodeEncode(s: string)
    requires IsBytes(s)
    ensures AllSymbols(Encode(s))
    ensures Decode(Encode(s)) == Some(s)
  {
    EncodeSymbols(s);
    var t := Encode(s);
    if |s| == 1 {
      QuadDecodes(s[0] as int, 0, 0, t);
      assert s == [s[0]];
    } else if |s| == 2 {
      QuadDecodes(s[0] as int, s[1] as int, 0, t);
      assert s == [s[0], s[1]];
    } else if |s| >= 3 {
      DecodeEncode(s[3..]);
      GroupOfThree(s, t);
    }
  }

  lemma GroupOfThree(s: string, t: string)
    requires IsBytes(s) && |s| >= 3 && t == Encode(s)
    requires AllSymbols(t) && AllSymbols(Encode(s[3..])) && Decode(Encode(s[3..])) == Some(s[3..])
    ensures Decode(t) == Some(s)
  {
    hide Quad, Byte0, Byte1, Byte2, AllSymbols;
    var q := Quad(s[0] as int, s[1] as int, s[2] as int);
    assert t == q + Encode(s[3..]);
    QuadDecodes(s[0] as int, s[1] as int, s[2] as int, t);
    assert t[4..] == Encode(s[3..]);
    assert s == [s[0], s[1], s[2]] + s[3..];
    DecodesGroup(t, s[3..]);
  }

  lemma DecodesGroup(t: string, rest: string)
    requires AllSymbols(t) && |t| >= 4 && Decode(t[4..]) == Some(rest)
    ensures Decode(t) == Some([Byte0(t) as char, Byte1(t) as char, Byte2(t) as char] + rest)
  {
    hide Byte0, Byte1, Byte2, AllSymbols;
  }

  /** Whole groups are encoded independently of what follows. */
  lemma {:induction false} EncodeAppend(a: string, b: string)
    requires IsBytes(a) && IsBytes(b) && |a| % 3 == 0
    ensures IsBytes(a + b) && Encode(a + b) == Encode(a) + Encode(b)
  {
    hide Quad;
    if a == "" {
      assert a + b == b;
    } else {
      EncodeAppend(a[3..], b);
      assert (a + b)[3..] == a[3..] + b;
    }
  }

  lemma AsciiSextets(b0: nat, b1: nat, b2: nat)
    requires b0 < 128 && b1 < 128 && b2 < 128
    ensures S0(b0) < 32 && S1(b0, b1) != 62 && S2(b1, b2) != 62
  {
    assert b1 / 16 < 8;
    assert b2 / 64 < 2;
  }

  /** For ASCII bytes the first symbol of a group is a letter up to `f`, and a
      dash can only be its last symbol. */
  lemma AsciiQuad(b0: nat, b1: nat, b2: nat)
    requires b0 < 128 && b1 < 128 && b2 < 128
    ensures var q := Quad(b0, b1, b2); 'A' <= q[0] <= 'f' && q[1] != '-' && q[2] != '-'
  {
    AsciiSextets(b0, b1, b2);
    GroupBounds(b0, b1, b2);
  }

  /** Every dash sits at an index congruent to 3 modulo 4, and every symbol at
      a multiple of 4 is a letter up to `f`. */
  predicate DashesPlaced(t: string) {
    forall i | 0 <= i < |t| :: (i % 4 == 0 ==> 'A' <= t[i] <= 'f') && (t[i] == '-' ==> i % 4 == 3)
  }

  lemma DashesPlacedAppend(q: string, u: string)
    requires |q| <= 4 && |u| > 0 ==> |q| == 4
    requires |q| > 0 ==> 'A' <= q[0] <= 'f'
    requires |q| <= 4 && (|q| > 1 ==> q[1] != '-') && (|q| > 2 ==> q[2] != '-')
    requires DashesPlaced(u)
    ensures DashesPlaced(q + u)
  {
    forall i | 0 <= i < |q + u|
      ensures (i % 4 == 0 ==> 'A' <= (q + u)[i] <= 'f') && ((q + u)[i] == '-' ==> i % 4 == 3)
    {
      if i >= |q| {
        assert (q + u)[i] == u[i - 4] && (i - 4) % 4 == i % 4;
      }
    }
  }

  /** The encoding of ASCII bytes places its dashes. */
  lemma {:induction false} AsciiSymbols(s: string)
    requires IsBytes(s) && IsAscii(s)
    ensures DashesPlaced(Encode(s))
  {
    hide Quad;
    if |s| > 0 {
      var b1 := if |s| > 1 then s[1] as int else 0;
      var b2 := if |s| > 2 then s[2] as int else 0;
      AsciiQuad(s[0] as int, b1, b2);
      var q := Quad(s[0] as int, b1, b2);
      if |s| >= 3 {
        AsciiSymbols(s[3..]);
        DashesPlacedAppend(q, Encode(s[3..]));
      } else {
        DashesPlacedAppend(q[..|s| + 1], "");
        assert Encode(s) == q[..|s| + 1] + "";
      }
    }
  }
}
