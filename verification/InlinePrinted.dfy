/** What the printer writes, character by character. */
module InlinePrinted {
  import opened Options
  import opened InlineScanner
  import opened InlinePrinter
  import opened InlineRoundTrip
  import opened PrinterLoops

  /** Escaping puts a backslash before each of the six marks and leaves every other character. */
  lemma EscapeIsLocal(a: string, c: char, b: string)
    ensures Escape(a + [c] + b) ==
            Escape(a) + (if c == '\\' || c == '*' || c == '`' || c == '[' || c == ']' || c == '=' then ['\\', c] else [c]) + Escape(b)
  {
    EscapeConcat(a + [c], b);
    EscapeConcat(a, [c]);
    assert Escape([c]) == EscapeChar(c) by {
      assert [c][1..] == "" && EscapeChar(c) + "" == EscapeChar(c);
    }
  }

  lemma NoHighlightAt(s: string, i: nat)
    requires i < |s| && !(i + 1 < |s| && s[i] == '=' && s[i + 1] == '=')
    ensures HighlightEnd(s, i).None?
  {
    if i + 2 <= |s| {
      assert s[i..i + 2] == [s[i], s[i + 1]];
    }
  }

  /** Text without a highlight is escaped as it stands. */
  lemma PlainTextIsEscaped(s: string)
    requires forall i | 0 <= i < |s| - 1 :: !(s[i] == '=' && s[i + 1] == '=')
    ensures Print(Text(s)) == Escape(s)
  {
    hide HighlightEnd;
    forall i | 0 <= i < |s| ensures HighlightEnd(s, i).None? {
      NoHighlightAt(s, i);
    }
    PrintTextUpTo(s, 0, |s|);
    assert s[0..|s|] == s && PrintText(s, |s|) == "" && Escape(s) + "" == Escape(s);
  }

  lemma {:induction false} RunOf(s: string, i: nat, h: string, k: nat)
    requires i + |h| <= |s| && s[i..i + |h|] == h && k <= |h| && '=' !in h && '\n' !in h
    requires i + |h| < |s| ==> s[i + |h|] == '='
    ensures MarkedRun(s, i + k) == |h| - k
    decreases |h| - k
  {
    if k < |h| {
      assert s[i + k] == h[k] && h[k] in h;
      RunOf(s, i, h, k + 1);
    }
  }

  lemma HighlightHere(a: string, h: string, b: string)
    requires h != "" && '=' !in h && '\n' !in h
    ensures HighlightEnd(a + "==" + h + "==" + b, |a|) == Some(|a| + 2 + |h|)
  {
    var s := a + "==" + h + "==" + b;
    assert s[|a|..|a| + 2] == "==" && s[|a| + 2..|a| + 2 + |h|] == h && s[|a| + 2 + |h|..|a| + 4 + |h|] == "==";
    assert s[|a| + 2 + |h|] == '=';
    RunOf(s, |a| + 2, h, 0);
  }

  lemma {:induction false} PrintRest(s: string, t: string, k: nat, i: nat)
    requires k <= |s| && s[k..] == t && i <= |t|
    ensures PrintText(s, k + i) == PrintText(t, i)
    decreases |t| - i
  {
    hide HighlightEnd, EscapeChar, Escape, PrintText, StartsWith;
    if i == |t| {
      NothingLeft(s, k + i);
      NothingLeft(t, i);
    } else {
      EndInRest(s, t, k, i);
      var end := HighlightEnd(t, i);
      if end.Some? {
        PrintRest(s, t, k, end.value + 2);
        MatchInRest(s, t, k, i, end.value);
      } else {
        PrintRest(s, t, k, i + 1);
        CharInRest(s, t, k, i);
      }
    }
  }

  lemma NothingLeft(s: string, i: nat)
    requires i >= |s|
    ensures PrintText(s, i) == ""
  {
  }

  lemma SliceOfRest(s: string, k: nat, a: nat, b: nat)
    requires k <= |s| && a <= b <= |s| - k
    ensures s[k + a..k + b] == s[k..][a..b]
  {
  }

  lemma MatchInRest(s: string, t: string, k: nat, i: nat, end: nat)
    requires k <= |s| && s[k..] == t && i < |t| && i + 2 <= end && end + 2 <= |t|
    requires HighlightEnd(s, k + i) == Some(k + end) && HighlightEnd(t, i) == Some(end)
    requires PrintText(s, k + (end + 2)) == PrintText(t, end + 2)
    ensures PrintText(s, k + i) == PrintText(t, i)
  {
    hide HighlightEnd, Escape, PrintText;
    SliceOfRest(s, k, i + 2, end);
    PrintTextMatch(s, k + i, k + end);
    PrintTextMatch(t, i, end);
  }

  lemma CharInRest(s: string, t: string, k: nat, i: nat)
    requires k <= |s| && s[k..] == t && i < |t| && HighlightEnd(s, k + i).None? && HighlightEnd(t, i).None?
    requires PrintText(s, k + (i + 1)) == PrintText(t, i + 1)
    ensures PrintText(s, k + i) == PrintText(t, i)
  {
    hide HighlightEnd, EscapeChar, PrintText;
    assert s[k + i] == t[i];
    PrintTextChar(s, k + i);
    PrintTextChar(t, i);
  }

  lemma {:induction false} RunInRest(s: string, t: string, k: nat, i: nat)
    requires k <= |s| && s[k..] == t && i <= |t|
    ensures MarkedRun(s, k + i) == MarkedRun(t, i)
    decreases |t| - i
  {
    if i < |t| {
      assert s[k + i] == t[i];
      RunInRest(s, t, k, i + 1);
    }
  }

  lemma StartsInRest(s: string, t: string, k: nat, i: nat)
    requires k <= |s| && s[k..] == t && i <= |t|
    ensures StartsWith(s, "==", k + i) == StartsWith(t, "==", i)
  {
    if i + 2 <= |t| {
      assert s[k + i..k + i + 2] == t[i..i + 2];
    }
  }

  lemma EndInRest(s: string, t: string, k: nat, i: nat)
    requires k <= |s| && s[k..] == t && i < |t|
    ensures HighlightEnd(s, k + i) == if HighlightEnd(t, i).None? then None else Some(k + HighlightEnd(t, i).value)
  {
    hide StartsWith;
    StartsInRest(s, t, k, i);
    if i + 2 <= |t| {
      RunInRest(s, t, k, i + 2);
      StartsInRest(s, t, k, i + 2 + MarkedRun(t, i + 2));
    } else {
      TooShort(s, k + i);
      TooShort(t, i);
    }
  }

  lemma TooShort(s: string, i: nat)
    requires i + 2 > |s|
    ensures !StartsWith(s, "==", i)
  {
  }

  lemma NoneBefore(a: string, h: string, b: string)
    requires '=' !in a
    ensures forall i | 0 <= i < |a| :: HighlightEnd(a + "==" + h + "==" + b, i).None?
  {
    hide HighlightEnd;
    var s := a + "==" + h + "==" + b;
    forall i | 0 <= i < |a| ensures HighlightEnd(s, i).None? {
      assert s[i] == a[i] && a[i] in a;
      NoHighlightAt(s, i);
    }
  }

  lemma PartsOf(a: string, h: string, b: string)
    ensures var s := a + "==" + h + "==" + b;
            |s| == |a| + 4 + |h| + |b| && s[0..|a|] == a && s[|a| + 2..|a| + 2 + |h|] == h && s[|a| + 4 + |h|..] == b
  {
  }

  /** The first highlight of a text is printed bold, with its markers gone: what stands between
      two pairs of equals signs on one line, without an equals sign of its own. */
  lemma HighlightIsBold(a: string, h: string, b: string)
    requires '=' !in a && h != "" && '=' !in h && '\n' !in h
    ensures Print(Text(a + "==" + h + "==" + b)) == Escape(a) + ("**" + Escape(h) + "**") + Print(Text(b))
  {
    hide Print, HighlightEnd, Escape, PrintText;
    var s := a + "==" + h + "==" + b;
    assert HighlightEnd(s, |a|) == Some(|a| + 2 + |h|) && forall i | 0 <= i < |a| :: HighlightEnd(s, i).None? by {
      NoneBefore(a, h, b);
      HighlightHere(a, h, b);
    }
    assert |s| == |a| + 4 + |h| + |b| && s[0..|a|] == a && s[|a| + 2..|a| + 2 + |h|] == h && s[|a| + 4 + |h|..] == b by {
      PartsOf(a, h, b);
    }
    BoldAt(s, a, h, b);
  }

  lemma BoldAt(s: string, a: string, h: string, b: string)
    requires |s| == |a| + 4 + |h| + |b|
    requires s[0..|a|] == a && s[|a| + 2..|a| + 2 + |h|] == h && s[|a| + 4 + |h|..] == b
    requires HighlightEnd(s, |a|) == Some(|a| + 2 + |h|) && forall i | 0 <= i < |a| :: HighlightEnd(s, i).None?
    ensures Print(Text(s)) == Escape(a) + ("**" + Escape(h) + "**") + Print(Text(b))
  {
    hide Print, HighlightEnd, Escape, PrintText;
    FirstIsBold(s, |a|, |a| + 2 + |h|);
    PrintRest(s, b, |a| + 4 + |h|, 0);
    TextIsPrinted(b);
  }

  lemma TextIsPrinted(s: string)
    ensures Print(Text(s)) == PrintText(s, 0)
  {
    hide PrintText;
  }

  lemma FirstIsBold(s: string, start: nat, end: nat)
    requires start < |s| && HighlightEnd(s, start) == Some(end) && forall i | 0 <= i < start :: HighlightEnd(s, i).None?
    ensures start + 2 <= end && end + 2 <= |s|
    ensures Print(Text(s)) == Escape(s[0..start]) + ("**" + Escape(s[start + 2..end]) + "**") + PrintText(s, end + 2)
  {
    hide HighlightEnd, Escape, PrintText, Print;
    TextIsPrinted(s);
    PrintTextUpTo(s, 0, start);
    PrintTextMatch(s, start, end);
    Regroup("", Escape(s[0..start]), "**" + Escape(s[start + 2..end]) + "**", PrintText(s, end + 2));
  }

  /** `n` backticks stand at `i`. */
  predicate Ticks(s: string, i: nat, n: nat) {
    i + n <= |s| && forall k | i <= k < i + n :: s[k] == '`'
  }

  lemma {:induction false} RunIsTicks(s: string, i: nat)
    requires i <= |s|
    ensures var n := CountRun(s, i, '`'); Ticks(s, i, n) && (i + n < |s| ==> s[i + n] != '`')
    decreases |s| - i
  {
    if i < |s| && s[i] == '`' {
      RunIsTicks(s, i + 1);
    }
  }

  lemma {:induction false} LongestIsLongest(s: string, i: nat) returns (at: nat)
    requires i <= |s|
    ensures i <= at && Ticks(s, at, LongestRun(s, i))
    ensures forall j: nat, n: nat | i <= j && Ticks(s, j, n) :: n <= LongestRun(s, i)
    decreases |s| - i
  {
    hide CountRun, Ticks;
    if i < |s| {
      if s[i] == '`' {
        var run := CountRun(s, i, '`');
        RunIsTicks(s, i);
        RunIsPositive(s, i);
        at := LongestIsLongest(s, i + run);
        at := if run > LongestRun(s, i + run) then i else at;
        forall j: nat, n: nat | i <= j && Ticks(s, j, n) ensures n <= LongestRun(s, i) {
          InRun(s, i, run, j, n);
        }
      } else {
        at := LongestIsLongest(s, i + 1);
        forall j: nat, n: nat | i <= j && Ticks(s, j, n) ensures n <= LongestRun(s, i) {
          NotHere(s, i, j, n);
        }
      }
    } else {
      at := i;
      assert Ticks(s, i, 0) by { NoTicks(s); }
      forall j: nat, n: nat | i <= j && Ticks(s, j, n) ensures n <= 0 {
        AtEnd(s, i, j, n);
      }
    }
  }

  lemma RunIsPositive(s: string, i: nat)
    requires i < |s| && s[i] == '`'
    ensures CountRun(s, i, '`') > 0
  {
  }

  lemma NoTicks(s: string)
    ensures Ticks(s, |s|, 0)
  {
  }

  lemma AtEnd(s: string, i: nat, j: nat, n: nat)
    requires i >= |s| && i <= j && Ticks(s, j, n)
    ensures n == 0
  {
  }

  lemma NotHere(s: string, i: nat, j: nat, n: nat)
    requires i < |s| && s[i] != '`' && i <= j && Ticks(s, j, n)
    ensures n == 0 || j >= i + 1
  {
    assert n > 0 ==> s[j] == '`';
  }

  /** A run that begins inside a maximal one ends inside it. */
  lemma InRun(s: string, i: nat, run: nat, j: nat, n: nat)
    requires run > 0 && Ticks(s, i, run) && (i + run < |s| ==> s[i + run] != '`') && i <= j && Ticks(s, j, n)
    ensures n <= run || j > i + run
  {
  }

  /** A code span is fenced by the fewest backticks that it does not hold in a row: all but one
      of them stand at `at`. */
  lemma FenceIsShortest(s: string) returns (n: nat, at: nat)
    ensures n > 0 && Print(InlineCode(s)) == Repeat('`', n) + s + Repeat('`', n)
    ensures (forall j: nat :: !Ticks(s, j, n)) && Ticks(s, at, n - 1)
  {
    hide Ticks, LongestRun;
    n := LongestRun(s, 0) + 1;
    at := LongestIsLongest(s, 0);
  }

  /** The marks, and the two ways to print a link. */
  lemma MarksArePrinted(cs: seq<Node>, url: string)
    ensures Print(Strong(cs)) == "**" + PrintAll(cs) + "**" && Print(Emphasis(cs)) == "*" + PrintAll(cs) + "*"
    ensures Print(Break) == "\n" && Print(Group(cs)) == Escape(TextOfAll(cs))
    ensures IsWeb(url) ==> Print(Link(url, cs)) == "[" + PrintAll(cs) + "](" + url + ")"
    ensures !IsWeb(url) ==> Print(Link(url, cs)) == Escape(TextOfAll(cs))
  {
    TextsEscape(cs);
  }

  lemma {:induction false} TextsEscape(cs: seq<Node>)
    ensures EscapedTexts(cs) == Escape(TextOfAll(cs))
  {
    if cs != [] {
      TextsEscape(cs[1..]);
      EscapeConcat(TextOf(cs[0]), TextOfAll(cs[1..]));
    }
  }
}
