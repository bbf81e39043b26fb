/** String helpers shared by the models.  A Go string is a `string` whose
    characters stand for its bytes; only ASCII letters, digits and blanks are
    classified. */
module Text {

  predicate IsSpace(c: char) {
    c == ' ' || '\t' <= c <= '\r'
  }

  function TrimLeft(s: string): string {
    if s != "" && IsSpace(s[0]) then TrimLeft(s[1..]) else s
  }

  function TrimRight(s: string): string {
    if s != "" && IsSpace(s[|s| - 1]) then TrimRight(s[..|s| - 1]) else s
  }

  function TrimSpace(s: string): string {
    TrimRight(TrimLeft(s))
  }

  predicate IsLetter(c: char) {
    'a' <= c <= 'z' || 'A' <= c <= 'Z'
  }

  function LowerChar(c: char): char {
    if 'A' <= c <= 'Z' then (c as int + 32) as char else c
  }

  function ToLower(s: string): (r: string)
    ensures |r| == |s| && forall i | 0 <= i < |s| :: r[i] == LowerChar(s[i])
  {
    if s == "" then "" else [LowerChar(s[0])] + ToLower(s[1..])
  }

  /** `strings.ToLower(strings.TrimSpace(region))`. */
  function NormalizeRegion(s: string): string {
    ToLower(TrimSpace(s))
  }

  /** No blank at either end. */
  predicate Trimmed(s: string) {
    s == "" || (!IsSpace(s[0]) && !IsSpace(s[|s| - 1]))
  }

  lemma TrimLeftDropsBlanks(s: string)
    ensures TrimLeft(s) == "" || !IsSpace(TrimLeft(s)[0])
  {
  }

  lemma TrimRightDropsBlanks(s: string)
    ensures TrimRight(s) <= s
    ensures TrimRight(s) == "" || !IsSpace(TrimRight(s)[|TrimRight(s)| - 1])
  {
  }

  lemma TrimSpaceTrims(s: string)
    ensures Trimmed(TrimSpace(s))
    ensures Trimmed(s) ==> TrimSpace(s) == s
  {
    TrimLeftDropsBlanks(s);
    TrimRightDropsBlanks(TrimLeft(s));
  }

  /** Normalizing twice changes nothing, so a normalized region compares equal
      to the stored one whichever side was normalized first. */
  lemma NormalizeRegionIdempotent(s: string)
    ensures NormalizeRegion(NormalizeRegion(s)) == NormalizeRegion(s)
  {
    var t := TrimSpace(s);
    TrimSpaceTrims(s);
    assert Trimmed(ToLower(t));
    TrimSpaceTrims(ToLower(t));
    assert ToLower(ToLower(t)) == ToLower(t);
  }

  function Digit(d: nat): (c: char)
    requires d < 10
    ensures c == ('0' as int + d) as char
  {
    ('0' as int + d) as char
  }

  /** Decimal digits of a natural number, as `%d` prints them. */
  function Digits(n: nat): string {
    if n < 10 then [Digit(n)] else Digits(n / 10) + [Digit(n % 10)]
  }

  /** `fmt.Sprintf("%d", i)`. */
  function Decimal(i: int): string {
    if i < 0 then "-" + Digits(-i) else Digits(i)
  }

  lemma {:induction false} DigitsShape(n: nat)
    ensures |Digits(n)| > 0
    ensures forall k | 0 <= k < |Digits(n)| :: '0' <= Digits(n)[k] <= '9'
  {
    if n >= 10 {
      DigitsShape(n / 10);
    }
  }

  lemma {:induction false} DigitsInjective(a: nat, b: nat)
    requires Digits(a) == Digits(b)
    ensures a == b
    decreases a
  {
    var s, t := Digits(a), Digits(b);
    assert s[|s| - 1] == Digit(a % 10) && t[|t| - 1] == Digit(b % 10);
    assert a % 10 == b % 10;
    DigitsShape(a / 10);
    DigitsShape(b / 10);
    if a >= 10 && b >= 10 {
      assert s[..|s| - 1] == Digits(a / 10) && t[..|t| - 1] == Digits(b / 10);
      DigitsInjective(a / 10, b / 10);
    }
  }

  /** Only negative numbers print with a sign. */
  lemma DecimalSign(i: int)
    ensures Decimal(i) != "" && (Decimal(i)[0] == '-' <==> i < 0)
    ensures i < 0 ==> Decimal(i)[1..] == Digits(-i)
  {
    hide Digits;
    DigitsShape(if i < 0 then -i else i);
  }

  lemma DecimalInjective(a: int, b: int)
    requires Decimal(a) == Decimal(b)
    ensures a == b
  {
    hide Digits;
    DecimalSign(a);
    DecimalSign(b);
    if a < 0 {
      DigitsInjective(-a, -b);
    } else {
      DigitsInjective(a, b);
    }
  }
}
