/** Reading the text a user types into a transition-probability field.

    A token is trimmed, loses one trailing '%', and is read as a decimal
    number; a number above 1 is taken to be a percentage and divided by 100,
    a number at most 1 is taken to be a fraction already. */
module Percentage {
  import opened Errors

  /** Whitespace as Python's str.strip() removes it (its Latin-1 part). */
  predicate IsSpace(c: char) {
    c == ' ' || '\t' <= c <= '\r' || '\U{1C}' <= c <= '\U{1F}' || c == '\U{85}' || c == '\U{A0}'
  }

  predicate Blank(w: string) {
    forall i :: 0 <= i < |w| ==> IsSpace(w[i])
  }

  /** Text with nothing to strip at either end. */
  predicate Trimmed(t: string) {
    t == [] || (!IsSpace(t[0]) && !IsSpace(t[|t| - 1]))
  }

  /** Number of whitespace characters at the front of s. */
  function LeadingSpaces(s: string): (k: nat)
    ensures k <= |s|
  {
    if s != [] && IsSpace(s[0]) then 1 + LeadingSpaces(s[1..]) else 0
  }

  /** Number of whitespace characters at the back of s. */
  function TrailingSpaces(s: string): (k: nat)
    ensures k <= |s|
  {
    if s != [] && IsSpace(s[|s| - 1]) then 1 + TrailingSpaces(s[..|s| - 1]) else 0
  }

  /** LeadingSpaces counts a blank run that stops at a non-space character
      or at the end. */
  lemma {:induction false} LeadingSpacesSpec(s: string)
    ensures Blank(s[..LeadingSpaces(s)])
    ensures LeadingSpaces(s) == |s| || !IsSpace(s[LeadingSpaces(s)])
  {
    if s != [] && IsSpace(s[0]) {
      LeadingSpacesSpec(s[1..]);
      var k := LeadingSpaces(s);
      assert s[..k] == [s[0]] + s[1..][..k - 1];
    }
  }

  lemma {:induction false} TrailingSpacesSpec(s: string)
    ensures Blank(s[|s| - TrailingSpaces(s)..])
    ensures TrailingSpaces(s) == |s| || !IsSpace(s[|s| - 1 - TrailingSpaces(s)])
  {
    if s != [] && IsSpace(s[|s| - 1]) {
      var s' := s[..|s| - 1];
      TrailingSpacesSpec(s');
      var k := TrailingSpaces(s);
      assert k == 1 + TrailingSpaces(s');
      var tail, tail' := s[|s| - k..], s'[|s'| - (k - 1)..];
      forall i | 0 <= i < k
        ensures IsSpace(tail[i])
      {
        if i < k - 1 {
          assert tail[i] == tail'[i];
        }
      }
    }
  }

  /** str.strip(): s without its leading and trailing whitespace. */
  function Strip(s: string): string
  {
    var t := s[LeadingSpaces(s)..];
    t[..|t| - TrailingSpaces(t)]
  }

  /** What strip() leaves is a trimmed slice of s, and everything it cuts
      off on either side is whitespace. */
  lemma StripSpec(s: string)
    ensures Trimmed(Strip(s))
    ensures LeadingSpaces(s) + |Strip(s)| <= |s|
    ensures Strip(s) == s[LeadingSpaces(s)..LeadingSpaces(s) + |Strip(s)|]
    ensures Blank(s[..LeadingSpaces(s)]) && Blank(s[LeadingSpaces(s) + |Strip(s)|..])
  {
    LeadingSpacesSpec(s);
    StripSlice(s);
    StripBackBlank(s);
    StripEnds(s);
  }

  /** Where the stripped text sits in s. */
  lemma StripSlice(s: string)
    ensures LeadingSpaces(s) + |Strip(s)| <= |s|
    ensures Strip(s) == s[LeadingSpaces(s)..LeadingSpaces(s) + |Strip(s)|]
  {
    var a := LeadingSpaces(s);
    var t := s[a..];
    var r := t[..|t| - TrailingSpaces(t)];
    assert r == s[a..a + |r|];
  }

  /** What strip() cuts off at the back is whitespace. */
  lemma StripBackBlank(s: string)
    ensures LeadingSpaces(s) + |Strip(s)| <= |s|
    ensures Blank(s[LeadingSpaces(s) + |Strip(s)|..])
  {
    var a := LeadingSpaces(s);
    var t := s[a..];
    var b := TrailingSpaces(t);
    TrailingSpacesSpec(t);
    assert t[|t| - b..] == s[a + |Strip(s)|..];
  }

  /** The stripped text starts and ends with a non-space character. */
  lemma StripEnds(s: string)
    ensures Trimmed(Strip(s))
  {
    var a := LeadingSpaces(s);
    var t := s[a..];
    var b := TrailingSpaces(t);
    var r := t[..|t| - b];
    if r != [] {
      LeadingSpacesSpec(s);
      TrailingSpacesSpec(t);
      assert r[0] == t[0] == s[a];
      assert r[|r| - 1] == t[|t| - 1 - b];
    }
  }

  lemma BlankConcat(a: string, b: string)
    requires Blank(a) && Blank(b)
    ensures Blank(a + b)
  {
  }

  /** LeadingSpaces is the only count whose prefix is blank and that stops at
      a non-space character (or the end). */
  lemma {:induction false} LeadingSpacesIs(s: string, k: nat)
    requires k <= |s| && Blank(s[..k]) && (k == |s| || !IsSpace(s[k]))
    ensures LeadingSpaces(s) == k
  {
    if k > 0 {
      assert IsSpace(s[..k][0]);
      assert s[1..][..k - 1] == s[1..k];
      LeadingSpacesIs(s[1..], k - 1);
    }
  }

  lemma {:induction false} TrailingSpacesIs(s: string, k: nat)
    requires k <= |s| && Blank(s[|s| - k..]) && (k == |s| || !IsSpace(s[|s| - 1 - k]))
    ensures TrailingSpaces(s) == k
  {
    if k > 0 {
      assert IsSpace(s[|s| - k..][k - 1]);
      var s' := s[..|s| - 1];
      assert s'[|s'| - (k - 1)..] == s[|s| - k..|s| - 1];
      TrailingSpacesIs(s', k - 1);
    }
  }

  /** Stripping text made of blank padding around trimmed text gives that text. */
  lemma StripOf(a: string, m: string, b: string)
    requires Blank(a) && Blank(b) && Trimmed(m)
    ensures Strip(a + m + b) == m
  {
    var s := a + m + b;
    if m == [] {
      assert s == a + b;
      BlankConcat(a, b);
      assert s[..|s|] == s;
      LeadingSpacesIs(s, |s|);
    } else {
      assert s[..|a|] == a;
      assert s[|a|] == m[0];
      LeadingSpacesIs(s, |a|);
      var t := s[|a|..];
      assert t == m + b;
      assert t[|t| - |b|..] == b;
      assert t[|t| - 1 - |b|] == m[|m| - 1];
      TrailingSpacesIs(t, |b|);
      assert t[..|t| - |b|] == m;
    }
  }

  /** s is blank padding around Strip(s). */
  lemma StripDecompose(s: string) returns (front: string, back: string)
    ensures Blank(front) && Blank(back) && s == front + Strip(s) + back
  {
    var k := LeadingSpaces(s);
    LeadingSpacesSpec(s);
    StripSlice(s);
    StripBackBlank(s);
    front, back := s[..k], s[k + |Strip(s)|..];
    assert s == front + s[k..k + |Strip(s)|] + back;
  }

  /** strip() ignores any amount of whitespace added at either end. */
  lemma StripPadded(a: string, s: string, b: string)
    requires Blank(a) && Blank(b)
    ensures Strip(a + s + b) == Strip(s)
  {
    var r := Strip(s);
    var front, back := StripDecompose(s);
    StripEnds(s);
    BlankConcat(a, front);
    BlankConcat(back, b);
    assert a + s + b == (a + front) + r + (back + b);
    StripOf(a + front, r, back + b);
  }

  lemma StripTrimmed(t: string)
    requires Trimmed(t)
    ensures Strip(t) == t
  {
    assert [] + t + [] == t;
    StripOf([], t, []);
  }

  lemma StripIdempotent(s: string)
    ensures Strip(Strip(s)) == Strip(s)
  {
    StripSpec(s);
    StripTrimmed(Strip(s));
  }

  predicate IsDigit(c: char) {
    '0' <= c <= '9'
  }

  predicate AllDigits(d: string) {
    forall i :: 0 <= i < |d| ==> IsDigit(d[i])
  }

  /** The number a run of decimal digits denotes. */
  function DigitsValue(d: string): nat
    requires AllDigits(d)
  {
    if d == [] then 0 else 10 * DigitsValue(d[..|d| - 1]) + (d[|d| - 1] as int - '0' as int)
  }

  /** The value of the digits after a decimal point: "25" stands for 0.25. */
  function FractionValue(d: string): (r: real)
    requires AllDigits(d)
    ensures 0.0 <= r <= 1.0
  {
    if d == [] then 0.0 else ((d[0] as int - '0' as int) as real + FractionValue(d[1..])) / 10.0
  }

  /** Decimal digits of n, without leading zeros: the text str(n) gives. */
  function Render(n: nat): (d: string)
    ensures AllDigits(d) && d != []
  {
    var last := ['0' + (n % 10) as char];
    if n < 10 then last else Render(n / 10) + last
  }

  /** Reading back the digits of n gives n. */
  lemma {:induction false} RenderRoundTrip(n: nat)
    ensures DigitsValue(Render(n)) == n
  {
    var d := Render(n);
    if n >= 10 {
      RenderRoundTrip(n / 10);
      assert d[..|d| - 1] == Render(n / 10);
    }
  }

  /** Index of the first '.' in s, or |s| when there is none. */
  function DotIndex(s: string): (k: nat)
    ensures k <= |s|
  {
    if s == [] || s[0] == '.' then 0 else 1 + DotIndex(s[1..])
  }

  /** Text without a '.' is all whole part. */
  lemma {:induction false} DotIndexOfNoDot(s: string)
    requires forall i :: 0 <= i < |s| ==> s[i] != '.'
    ensures DotIndex(s) == |s|
  {
    if s != [] {
      assert forall i :: 0 <= i < |s| - 1 ==> s[1..][i] == s[i + 1];
      DotIndexOfNoDot(s[1..]);
    }
  }

  /** Text made of digits only has no '.'. */
  lemma {:induction false} DotIndexOfDigits(s: string)
    requires AllDigits(s)
    ensures DotIndex(s) == |s|
  {
    if s != [] {
      DotIndexOfDigits(s[1..]);
    }
  }

  /** An unsigned decimal: digits, optionally one '.' and more digits, at
      least one digit in all ("5", "5.", ".5", "0.25"). */
  function ParseUnsigned(s: string): Option<real>
  {
    var k := DotIndex(s);
    var whole := s[..k];
    var frac := if k < |s| then s[k + 1..] else [];
    if AllDigits(whole) && AllDigits(frac) && |whole| + |frac| > 0 then
      Some(DigitsValue(whole) as real + FractionValue(frac))
    else
      None
  }

  /** Digits alone read as the whole number they denote. */
  lemma ParseUnsignedDigits(s: string)
    requires AllDigits(s) && s != []
    ensures ParseUnsigned(s) == Some(DigitsValue(s) as real)
  {
    DotIndexOfDigits(s);
    assert s[..|s|] == s;
  }

  /** Whitespace float() skips around its text (its Latin-1 part): the ASCII
      space and '\t' .. '\r', and U+0085 and U+00A0, which it turns into
      spaces first. Unlike str.strip(), it keeps U+001C .. U+001F. */
  predicate FloatSpace(c: char) {
    c == ' ' || '\t' <= c <= '\r' || c == '\U{85}' || c == '\U{A0}'
  }

  /** s without the whitespace float() skips at either end. */
  function FloatTrim(s: string): (t: string)
    ensures |t| <= |s|
    decreases |s|
  {
    if s != [] && FloatSpace(s[0]) then FloatTrim(s[1..])
    else if s != [] && FloatSpace(s[|s| - 1]) then FloatTrim(s[..|s| - 1])
    else s
  }

  /** float() skips no less than strip() keeps: text strip() leaves alone,
      float() reads as it stands. */
  lemma FloatTrimOfTrimmed(t: string)
    requires Trimmed(t)
    ensures FloatTrim(t) == t
  {
    assert t != [] ==> !FloatSpace(t[0]) && !FloatSpace(t[|t| - 1]);
  }

  /** float(s) over decimal text: surrounding whitespace is skipped and an
      optional sign may precede the digits. */
  function ParseFloat(s: string): Option<real>
  {
    var t := FloatTrim(s);
    if t != [] && (t[0] == '+' || t[0] == '-') then
      match ParseUnsigned(t[1..])
      case None => None
      case Some(x) => Some(if t[0] == '-' then -x else x)
    else
      ParseUnsigned(t)
  }

  /** The text handed to float(): the token stripped and without one
      trailing '%'. */
  function NumberText(token: string): string
  {
    var s := Strip(token);
    if s != [] && s[|s| - 1] == '%' then s[..|s| - 1] else s
  }

  /** The probability the text handed to float() stands for: a number above 1
      is a percentage, any other number is a fraction already. */
  function ReadNumber(text: string): Result<real>
  {
    match ParseFloat(text)
    case None => Err(Unparsable(text))
    case Some(x) => Ok(if x > 1.0 then x / 100.0 else x)
  }

  /** parse_percentage: the probability a token denotes. */
  function ParsePercentage(token: string): Result<real>
  {
    ReadNumber(NumberText(token))
  }

  /** A token is refused exactly when float() cannot read its text, and the
      error carries that text; a readable token is a probability exactly when
      its number lies in [0, 100]. */
  lemma ParseOutcome(token: string)
    ensures ParsePercentage(token).Err? <==> ParseFloat(NumberText(token)).None?
    ensures ParsePercentage(token).Err? ==> ParsePercentage(token).error == Unparsable(NumberText(token))
    ensures ParsePercentage(token).Ok? ==>
      (0.0 <= ParsePercentage(token).value <= 1.0 <==> 0.0 <= ParseFloat(NumberText(token)).value <= 100.0)
  {
  }

  /** What a whole number reads as, with or without a '%' sign: n / 100 for
      n above 1, and n itself for 0 and 1. */
  function WholeNumberMeaning(n: nat): real
  {
    if n > 1 then n as real / 100.0 else n as real
  }

  lemma ParseRendered(n: nat)
    ensures ParseFloat(Render(n)) == Some(n as real)
  {
    var d := Render(n);
    FloatTrimOfTrimmed(d);
    ParseUnsignedDigits(d);
    RenderRoundTrip(n);
  }

  /** Trimmed text that does not end in '%' reaches float() unchanged. */
  lemma NumberTextOfTrimmed(t: string)
    requires Trimmed(t) && (t == [] || t[|t| - 1] != '%')
    ensures NumberText(t) == t
  {
    StripTrimmed(t);
  }

  /** The same text with one '%' appended reaches float() as that text. */
  lemma NumberTextOfPercent(t: string)
    requires Trimmed(t) && (t == [] || t[|t| - 1] != '%')
    ensures NumberText(t + "%") == t
  {
    var u := t + "%";
    assert Trimmed(u);
    StripTrimmed(u);
    assert u[..|u| - 1] == t;
  }

  /** Writing a whole number with or without a trailing '%' gives the same
      probability. */
  lemma PercentRoundTrip(n: nat)
    ensures ParsePercentage(Render(n)) == Ok(WholeNumberMeaning(n))
    ensures ParsePercentage(Render(n) + "%") == Ok(WholeNumberMeaning(n))
  {
    var d := Render(n);
    NumberTextOfTrimmed(d);
    NumberTextOfPercent(d);
    ParseRendered(n);
    assert ReadNumber(d) == Ok(WholeNumberMeaning(n));
  }

  /** Tokens that strip to the same text read the same. */
  lemma SameStripSameReading(x: string, y: string)
    requires Strip(x) == Strip(y)
    ensures ParsePercentage(x) == ParsePercentage(y)
  {
    assert NumberText(x) == NumberText(y);
  }

  /** Whitespace around a token never changes what it reads as. */
  lemma PaddingIgnored(a: string, token: string, b: string)
    requires Blank(a) && Blank(b)
    ensures ParsePercentage(a + token + b) == ParsePercentage(token)
  {
    StripPadded(a, token, b);
    SameStripSameReading(a + token + b, token);
  }

  /** A '%' sign written right after trimmed text is optional. */
  lemma PercentSignOptional(t: string)
    requires Trimmed(t) && (t == [] || t[|t| - 1] != '%')
    ensures ParsePercentage(t + "%") == ParsePercentage(t)
  {
    NumberTextOfTrimmed(t);
    NumberTextOfPercent(t);
  }

  /** Only one '%' is removed: "50%%" cannot be read. */
  lemma OnlyOnePercentRemoved()
    ensures ParsePercentage("50%%") == Err(Unparsable("50%"))
  {
    var s := "50%%";
    StripTrimmed(s);
    assert NumberText(s) == "50%";
    PercentIsNoDigit();
  }

  lemma PercentIsNoDigit()
    ensures ParseFloat("50%") == None
  {
    var u := "50%";
    FloatTrimOfTrimmed(u);
    DotIndexOfNoDot(u);
    assert !IsDigit(u[2]);
  }

  /** "50" and "50%" both mean one half. */
  lemma FiftyIsHalf()
    ensures ParsePercentage("50") == Ok(0.5)
    ensures ParsePercentage("50%") == Ok(0.5)
  {
    assert Render(5) == "5";
    assert Render(50) == Render(5) + "0" == "50";
    assert Render(50) + "%" == "50%";
    PercentRoundTrip(50);
    assert WholeNumberMeaning(50) == 0.5;
  }

  /** "1" means certainty, not one percent, and so does "1%", while "2"
      means two percent. */
  lemma OneIsCertainty()
    ensures ParsePercentage("1") == Ok(1.0)
    ensures ParsePercentage("1%") == Ok(1.0)
    ensures ParsePercentage("2") == Ok(0.02)
  {
    assert Render(1) == "1";
    assert Render(1) + "%" == "1%";
    PercentRoundTrip(1);
    assert Render(2) == "2";
    PercentRoundTrip(2);
  }

  /** "150%" reads as 1.5, which is not a probability. */
  lemma OverHundredPercent()
    ensures ParsePercentage("150%") == Ok(1.5)
  {
    assert Render(1) == "1";
    assert Render(15) == Render(1) + "5" == "15";
    assert Render(150) == Render(15) + "0" == "150";
    assert Render(150) + "%" == "150%";
    PercentRoundTrip(150);
    assert WholeNumberMeaning(150) == 1.5;
  }

  /** "0.5" is a fraction already. */
  lemma DecimalHalf()
    ensures ParsePercentage("0.5") == Ok(0.5)
  {
    var h := "0.5";
    NumberTextOfTrimmed(h);
    FloatTrimOfTrimmed(h);
    assert DotIndex(h) == 1;
    assert h[..1] == "0" && h[2..] == "5";
    assert DigitsValue("0") == 0;
    assert FractionValue("5") == 0.5;
  }

  /** "-0.5" keeps its sign: a negative number is never divided by 100. */
  lemma NegativeHalf()
    ensures ParsePercentage("-0.5") == Ok(-0.5)
  {
    var t := "-0.5";
    StripTrimmed(t);
    FloatTrimOfTrimmed(t);
    assert NumberText(t) == t;
    assert t[1..] == "0.5";
    var h := "0.5";
    assert DotIndex(h) == 1;
    assert h[..1] == "0" && h[2..] == "5";
    assert DigitsValue("0") == 0;
    assert FractionValue("5") == 0.5;
    assert ParseUnsigned(h) == Some(0.5);
  }

  /** U+001C before the '%' survives strip(), is not skipped by float(),
      and so the field is refused with it in the text. */
  lemma SeparatorBeforePercentRefused()
    ensures ParsePercentage("50\U{1C}%") == Err(Unparsable("50\U{1C}"))
  {
    var s := "50\U{1C}%";
    StripTrimmed(s);
    var t := "50\U{1C}";
    assert NumberText(s) == t;
    assert FloatTrim(t) == t;
    DotIndexOfNoDot(t);
    assert !IsDigit(t[2]);
  }

  /** A no-break space before the '%' survives strip() but float() skips
      it, so "50\u00a0%" still means one half. */
  lemma NoBreakSpaceBeforePercent()
    ensures ParsePercentage("50\U{A0}%") == Ok(0.5)
  {
    var s := "50\U{A0}%";
    StripTrimmed(s);
    var t := "50\U{A0}";
    assert NumberText(s) == t;
    assert t[..|t| - 1] == "50";
    FloatTrimOfTrimmed("50");
    assert FloatTrim(t) == "50";
    assert Render(5) == "5";
    assert Render(50) == Render(5) + "0" == "50";
    ParseRendered(50);
  }
}
