/** Strings as JavaScript treats them: `trim`, and numbers in decimal. */
module Text {
  // ----- trimming -----

  /** White space and line terminators, as `trim` removes them. */
  predicate IsSpace(c: char) {
    c == ' ' || '\t' <= c <= '\r' || c == '\U{A0}' || c == '\U{1680}' || '\U{2000}' <= c <= '\U{200A}'
    || c == '\U{2028}' || c == '\U{2029}' || c == '\U{202F}' || c == '\U{205F}' || c == '\U{3000}' || c == '\U{FEFF}'
  }

  function TrimStart(s: string): string {
    if s != "" && IsSpace(s[0]) then TrimStart(s[1..]) else s
  }

  function TrimEnd(s: string): string {
    if s != "" && IsSpace(s[|s| - 1]) then TrimEnd(s[..|s| - 1]) else s
  }

  function Trim(s: string): string {
    TrimEnd(TrimStart(s))
  }

  /** Nothing for `trim` to remove. */
  predicate Trimmed(s: string) {
    s == "" || (!IsSpace(s[0]) && !IsSpace(s[|s| - 1]))
  }

  lemma {:induction false} TrimEndTrims(s: string)
    ensures var t := TrimEnd(s); (t != "" ==> s != "" && t[0] == s[0] && !IsSpace(t[|t| - 1]))
    ensures s != "" && !IsSpace(s[|s| - 1]) ==> TrimEnd(s) == s
    decreases |s|
  {
    if s != "" && IsSpace(s[|s| - 1]) {
      TrimEndTrims(s[..|s| - 1]);
    }
  }

  lemma {:induction false} TrimStartTrims(s: string)
    ensures TrimStart(s) != "" ==> !IsSpace(TrimStart(s)[0])
    ensures s != "" && !IsSpace(s[0]) ==> TrimStart(s) == s
    decreases |s|
  {
    if s != "" && IsSpace(s[0]) {
      TrimStartTrims(s[1..]);
    }
  }

  lemma TrimTrims(s: string)
    ensures Trimmed(Trim(s))
    ensures Trimmed(s) ==> Trim(s) == s && Trim(" " + s) == s
  {
    hide IsSpace;
    TrimStartTrims(s);
    TrimEndTrims(TrimStart(s));
    SpaceIsSpace();
    assert (" " + s)[1..] == s;
  }

  lemma SpaceIsSpace()
    ensures IsSpace(' ') && IsSpace('\r') && IsSpace('\n')
  {
  }

  /** The visible characters of a text. */
  function Glyphs(s: string): string {
    if s == "" then "" else (if IsSpace(s[0]) then "" else s[..1]) + Glyphs(s[1..])
  }

  lemma {:induction false} GlyphsConcat(a: string, b: string)
    ensures Glyphs(a + b) == Glyphs(a) + Glyphs(b)
    decreases |a|
  {
    hide IsSpace;
    if a == "" {
      assert a + b == b;
    } else {
      assert (a + b)[1..] == a[1..] + b && (a + b)[..1] == a[..1];
      GlyphsConcat(a[1..], b);
    }
  }

  /** Trimming loses no visible character, and leaves nothing only of blank text. */
  lemma {:induction false} TrimKeepsGlyphs(s: string)
    ensures Glyphs(Trim(s)) == Glyphs(s)
    ensures Trim(s) == "" <==> Glyphs(s) == ""
  {
    hide IsSpace;
    TrimStartKeepsGlyphs(s);
    TrimEndKeepsGlyphs(TrimStart(s));
    TrimTrims(s);
  }

  lemma {:induction false} TrimStartKeepsGlyphs(s: string)
    ensures Glyphs(TrimStart(s)) == Glyphs(s)
    decreases |s|
  {
    hide IsSpace;
    if s != "" && IsSpace(s[0]) {
      TrimStartKeepsGlyphs(s[1..]);
    }
  }

  lemma {:induction false} TrimEndKeepsGlyphs(s: string)
    ensures Glyphs(TrimEnd(s)) == Glyphs(s)
    decreases |s|
  {
    hide IsSpace;
    if s != "" && IsSpace(s[|s| - 1]) {
      var front := s[..|s| - 1];
      TrimEndKeepsGlyphs(front);
      assert s == front + s[|s| - 1..];
      GlyphsConcat(front, s[|s| - 1..]);
    }
  }

  // ----- decimal numbers -----

  function Digit(d: nat): char
    requires d < 10
  {
    '0' + d as char
  }

  predicate IsDigit(c: char) {
    '0' <= c <= '9'
  }

  predicate Digits(s: string) {
    forall i | 0 <= i < |s| :: IsDigit(s[i])
  }

  function Decimal(n: nat): (s: string)
    ensures s != "" && Digits(s)
  {
    if n < 10 then [Digit(n)] else Decimal(n / 10) + [Digit(n % 10)]
  }

  function Value(s: string): nat
    requires Digits(s)
  {
    if s == "" then 0 else Value(s[..|s| - 1]) * 10 + (s[|s| - 1] as int - '0' as int)
  }

  lemma {:induction false} ValueOfDecimal(n: nat)
    ensures Value(Decimal(n)) == n
  {
    if n >= 10 {
      ValueOfDecimal(n / 10);
      assert Decimal(n)[..|Decimal(n)| - 1] == Decimal(n / 10);
    }
  }

  lemma {:induction false} LeadingZero(s: string)
    requires Digits(s)
    ensures Value("0" + s) == Value(s)
    decreases |s|
  {
    if s != "" {
      LeadingZero(s[..|s| - 1]);
      assert ("0" + s)[..|s|] == "0" + s[..|s| - 1];
    }
  }

  /** `padStart(width, '0')` */
  function PadStart(s: string, width: nat): string
    decreases width - |s|
  {
    if |s| >= width then s else PadStart("0" + s, width)
  }

  lemma {:induction false} ValueOfPadded(s: string, width: nat)
    requires Digits(s)
    ensures Digits(PadStart(s, width)) && Value(PadStart(s, width)) == Value(s)
    decreases width - |s|
  {
    if |s| < width {
      LeadingZero(s);
      ValueOfPadded("0" + s, width);
    }
  }
}
