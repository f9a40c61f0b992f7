/** The text case of `convertNode`: a loop over the matches of the highlight pattern. */
module PrinterLoops {
  import opened Options
  import opened InlineScanner
  import opened InlinePrinter

  /** The leftmost match at or after `from`, as the pattern is applied by `matchAll`. */
  method NextMatch(s: string, from: nat) returns (start: nat, end: Option<nat>)
    requires from <= |s|
    ensures from <= start <= |s| && forall i | from <= i < start :: HighlightEnd(s, i).None?
    ensures if start < |s| then end.Some? && HighlightEnd(s, start) == end else end.None?
  {
    start, end := from, None;
    while start < |s|
      invariant from <= start <= |s| && end == None
      invariant forall i | from <= i < start :: HighlightEnd(s, i).None?
    {
      if HighlightEnd(s, start).Some? {
        return start, HighlightEnd(s, start);
      }
      start := start + 1;
    }
  }

  lemma {:induction false} PrintTextUpTo(s: string, k: nat, start: nat)
    requires k <= start <= |s| && forall i | k <= i < start :: HighlightEnd(s, i).None?
    ensures PrintText(s, k) == Escape(s[k..start]) + PrintText(s, start)
    decreases start - k
  {
    hide HighlightEnd, EscapeChar, PrintText, Escape;
    if k < start {
      PrintTextUpTo(s, k + 1, start);
      PrintTextChar(s, k);
      EscapeSlice(s, k, start);
      var c, e, rest := EscapeChar(s[k]), Escape(s[k + 1..start]), PrintText(s, start);
      assert c + (e + rest) == c + e + rest;
    } else {
      EscapeEmpty(s[k..start]);
    }
  }

  lemma PrintTextChar(s: string, k: nat)
    requires k < |s| && HighlightEnd(s, k).None?
    ensures PrintText(s, k) == EscapeChar(s[k]) + PrintText(s, k + 1)
  {
    hide HighlightEnd;
  }

  lemma EscapeSlice(s: string, k: nat, start: nat)
    requires k < start <= |s|
    ensures Escape(s[k..start]) == EscapeChar(s[k]) + Escape(s[k + 1..start])
  {
    assert s[k..start][1..] == s[k + 1..start];
  }

  lemma EscapeEmpty(s: string)
    requires s == ""
    ensures Escape(s) == ""
  {
  }

  /** What one match adds to the output. */
  lemma MatchStep(s: string, printed: string, cursor: nat, start: nat, end: nat)
    requires cursor <= start < |s| && HighlightEnd(s, start) == Some(end)
    requires forall i | cursor <= i < start :: HighlightEnd(s, i).None?
    ensures end + 2 <= |s| && start + 2 <= end
    ensures printed + PrintText(s, cursor)
         == printed + Escape(s[cursor..start]) + ("**" + Escape(s[start + 2..end]) + "**") + PrintText(s, end + 2)
  {
    hide HighlightEnd, Escape, PrintText;
    PrintTextUpTo(s, cursor, start);
    PrintTextMatch(s, start, end);
    Regroup(printed, Escape(s[cursor..start]), "**" + Escape(s[start + 2..end]) + "**", PrintText(s, end + 2));
  }

  lemma Regroup(a: string, b: string, c: string, d: string)
    ensures a + (b + (c + d)) == a + b + c + d
  {
  }

  lemma PrintTextMatch(s: string, start: nat, end: nat)
    requires start < |s| && HighlightEnd(s, start) == Some(end)
    ensures end + 2 <= |s| && start + 2 <= end
    ensures PrintText(s, start) == ("**" + Escape(s[start + 2..end]) + "**") + PrintText(s, end + 2)
  {
    hide HighlightEnd, Escape;
  }

  method ConvertText(value: string) returns (printed: string)
    ensures printed == PrintText(value, 0)
  {
    hide HighlightEnd, Escape, PrintText;
    printed := "";
    var cursor := 0;
    var start, end := NextMatch(value, 0);
    assert "" + PrintText(value, 0) == PrintText(value, 0);
    while end.Some?
      invariant cursor <= start <= |value| && (forall i | cursor <= i < start :: HighlightEnd(value, i).None?)
      invariant if start < |value| then end.Some? && HighlightEnd(value, start) == end else end.None?
      invariant printed + PrintText(value, cursor) == PrintText(value, 0)
      decreases |value| - cursor
    {
      MatchStep(value, printed, cursor, start, end.value);
      printed := printed + Escape(value[cursor..start]) + ("**" + Escape(value[start + 2..end.value]) + "**");
      cursor := end.value + 2;
      start, end := NextMatch(value, cursor);
    }
    PrintTextUpTo(value, cursor, |value|);
    LastPart(value, cursor);
    printed := printed + Escape(value[cursor..]);
  }

  lemma LastPart(s: string, cursor: nat)
    requires cursor <= |s|
    ensures Escape(s[cursor..|s|]) + PrintText(s, |s|) == Escape(s[cursor..])
  {
    assert s[cursor..|s|] == s[cursor..];
    assert Escape(s[cursor..]) + "" == Escape(s[cursor..]);
  }
}
