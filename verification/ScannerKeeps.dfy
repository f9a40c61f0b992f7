/** What the scanner keeps of any text, printed or not: everything that opens and closes
    nothing stays as it is written, and backslash runs lose exactly the half that escapes. */
module ScannerKeeps {
  import opened Options
  import opened InlineScanner
  import opened InlineRoundTrip
  import opened InlineLimits

  // ----- the scanner does not look back -----

  lemma Shift(p: string, b: string, i: nat)
    requires i < |b|
    ensures (p + b)[|p| + i] == b[i]
  {
  }

  lemma ShiftStarts(p: string, b: string, w: string, i: nat)
    ensures StartsWith(p + b, w, |p| + i) <==> StartsWith(b, w, i)
  {
    if i + |w| <= |b| {
      assert (p + b)[|p| + i..|p| + i + |w|] == b[i..i + |w|];
    }
  }

  lemma {:induction false} RunShift(p: string, b: string, i: nat, c: char)
    ensures CountRun(p + b, |p| + i, c) == CountRun(b, i, c)
    decreases |b| - i
  {
    if i < |b| {
      Shift(p, b, i);
      if b[i] == c {
        RunShift(p, b, i + 1, c);
      }
    }
  }

  function Shifted(r: Option<nat>, n: nat): Option<nat> {
    match r
    case None => None
    case Some(k) => Some(n + k)
  }

  lemma {:induction false} CodeEndShift(p: string, b: string, i: nat, n: nat)
    ensures FindInlineCodeEnd(p + b, |p| + i, n) == Shifted(FindInlineCodeEnd(b, i, n), |p|)
    decreases |b| - i
  {
    hide CountRun;
    if i < |b| {
      Shift(p, b, i);
      RunShift(p, b, i, '`');
      if b[i] == '`' {
        var run := CountRun(b, i, '`');
        if run != n {
          CodeEndShift(p, b, i + run, n);
        }
      } else {
        CodeEndShift(p, b, i + 1, n);
      }
    }
  }

  lemma SkipShift(p: string, b: string, i: nat)
    requires i < |b| && (b[i] == '\\' || b[i] == '`')
    ensures (p + b)[|p| + i] == b[i]
    ensures b[i] == '\\' ==> SkipEscape(p + b, |p| + i) == |p| + SkipEscape(b, i)
    ensures b[i] == '`' ==> SkipCode(p + b, |p| + i) == |p| + SkipCode(b, i)
  {
    hide CountRun, FindInlineCodeEnd;
    Shift(p, b, i);
    RunShift(p, b, i, b[i]);
    CodeEndShift(p, b, i + CountRun(b, i, '`'), CountRun(b, i, '`'));
  }

  lemma {:induction false} LabelShift(p: string, b: string, i: nat, limit: nat, s: Scan)
    requires limit <= |b|
    ensures var (r, t) := FindLabelEnd(b, i, limit, s);
            FindLabelEnd(p + b, |p| + i, |p| + limit, s) == (Shifted(r, |p|), t)
    decreases |b| - i
  {
    hide SkipEscape, SkipCode, Pay;
    if i < limit && CanPay(s) {
      Shift(p, b, i);
      if b[i] == '\\' {
        SkipShift(p, b, i);
        LabelShift(p, b, SkipEscape(b, i), limit, Pay(s));
      } else if b[i] == '`' {
        SkipShift(p, b, i);
        LabelShift(p, b, SkipCode(b, i), limit, Pay(s));
      } else if b[i] != ']' {
        LabelShift(p, b, i + 1, limit, Pay(s));
      }
    }
  }

  lemma {:induction false} TargetShift(p: string, b: string, i: nat, limit: nat, depth: nat, s: Scan)
    requires limit <= |b| && depth > 0
    ensures var (r, t) := FindTargetEnd(b, i, limit, depth, s);
            FindTargetEnd(p + b, |p| + i, |p| + limit, depth, s) == (Shifted(r, |p|), t)
    decreases |b| - i
  {
    hide SkipEscape, Pay;
    if i < limit && CanPay(s) {
      Shift(p, b, i);
      if b[i] == '\\' {
        SkipShift(p, b, i);
        TargetShift(p, b, SkipEscape(b, i), limit, depth, Pay(s));
      } else if !(b[i] == ')' && depth == 1) {
        var deeper := if b[i] == '(' then depth + 1 else if b[i] == ')' then depth - 1 else depth;
        TargetShift(p, b, i + 1, limit, deeper, Pay(s));
      }
    }
  }

  function ShiftedLink(r: Option<LinkSpan>, n: nat): Option<LinkSpan> {
    match r
    case None => None
    case Some(l) => Some(LinkSpan(n + l.labelEnd, n + l.end))
  }

  lemma LinkShift(p: string, b: string, i: nat, s: Scan)
    requires i < |b|
    ensures var (r, t) := FindLinkEnd(b, i, s);
            FindLinkEnd(p + b, |p| + i, s) == (ShiftedLink(r, |p|), t)
  {
    hide FindLabelEnd, FindTargetEnd;
    var limit := Min(|b|, i + 1 + MAX_LINK_LABEL);
    LabelShift(p, b, i + 1, limit, s);
    var (bracket, scan1) := FindLabelEnd(b, i + 1, limit, s);
    if bracket.Some? && bracket.value + 1 < |b| {
      Shift(p, b, bracket.value + 1);
      if b[bracket.value + 1] == '(' {
        var from := bracket.value + 2;
        TargetShift(p, b, from, Min(|b|, from + MAX_LINK_TARGET), 1, scan1);
      }
    }
  }

  lemma {:induction false} MarkEndShift(p: string, b: string, d: string, i: nat)
    requires d != ""
    ensures FindMarkEnd(p + b, d, |p| + i) == Shifted(FindMarkEnd(b, d, i), |p|)
    decreases |b| - i
  {
    hide SkipEscape, SkipCode, StartsWith;
    if i < |b| {
      Shift(p, b, i);
      if b[i] == '\\' {
        SkipShift(p, b, i);
        MarkEndShift(p, b, d, SkipEscape(b, i));
      } else if b[i] == '`' {
        SkipShift(p, b, i);
        MarkEndShift(p, b, d, SkipCode(b, i));
      } else {
        ShiftStarts(p, b, d, i);
        if !StartsWith(b, d, i) {
          MarkEndShift(p, b, d, i + 1);
        }
      }
    }
  }

  /** A single star opens no emphasis right after another star. */
  predicate Apart(p: string, b: string, i: nat) {
    i > 0 || p == "" || p[|p| - 1] != '*' || b == "" || b[0] != '*'
  }

  lemma DelimiterShift(p: string, b: string, i: nat)
    requires i < |b| && Apart(p, b, i)
    ensures Delimiter(p + b, |p| + i) == Delimiter(b, i)
  {
    hide StartsWith;
    ShiftStarts(p, b, "**", i);
    ShiftStarts(p, b, "==", i);
    Shift(p, b, i);
    if i + 1 < |b| {
      Shift(p, b, i + 1);
    }
    if i > 0 {
      Shift(p, b, i - 1);
    } else if p != "" {
      assert (p + b)[|p| - 1] == p[|p| - 1];
    }
  }

  lemma EscapeShift(p: string, b: string, i: nat, s: Scan)
    requires i < |b| && b[i] == '\\'
    ensures (p + b)[|p| + i] == '\\'
    ensures var t := EscapeToken(b, i, s); EscapeToken(p + b, |p| + i, s) == t.(next := |p| + t.next)
  {
    hide CountRun, IsEscapable;
    RunShift(p, b, i, '\\');
    Shift(p, b, i);
    var after := i + CountRun(b, i, '\\');
    if after < |b| {
      Shift(p, b, after);
    }
  }

  lemma CodeShift(p: string, b: string, i: nat, s: Scan)
    requires i < |b| && b[i] == '`'
    ensures (p + b)[|p| + i] == '`'
    ensures var t := CodeToken(b, i, s); CodeToken(p + b, |p| + i, s) == t.(next := |p| + t.next)
  {
    hide CountRun, FindInlineCodeEnd;
    RunShift(p, b, i, '`');
    Shift(p, b, i);
    var run := CountRun(b, i, '`');
    CodeEndShift(p, b, i + run, run);
    if FindInlineCodeEnd(b, i + run, run).Some? {
      var end := FindInlineCodeEnd(b, i + run, run).value;
      assert (p + b)[|p| + i + run..|p| + end] == b[i + run..end];
    }
  }

  lemma SliceShift(p: string, b: string, i: nat, j: nat)
    requires i <= j <= |b|
    ensures (p + b)[|p| + i..|p| + j] == b[i..j]
  {
  }

  lemma TokenShift(p: string, b: string, i: nat, s: Scan)
    requires i < |b| && Apart(p, b, i)
    ensures var t := NextToken(b, i, s); NextToken(p + b, |p| + i, s) == t.(next := |p| + t.next)
  {
    hide EscapeToken, CodeToken, FindLinkEnd, FindMarkEnd, Delimiter, PlainFrom;
    Shift(p, b, i);
    if b[i] == '\\' {
      EscapeShift(p, b, i, s);
    } else if b[i] == '`' {
      CodeShift(p, b, i, s);
    } else if b[i] == '[' {
      LinkShift(p, b, i, s);
      var link := FindLinkEnd(b, i, s).0;
      if link.Some? {
        SliceShift(p, b, link.value.labelEnd + 2, link.value.end - 1);
        SliceShift(p, b, i + 1, link.value.labelEnd);
      }
    } else {
      DelimiterShift(p, b, i);
      var d := Delimiter(b, i);
      if d != "" {
        MarkEndShift(p, b, d, i + |d|);
        if FindMarkEnd(b, d, i + |d|).Some? {
          SliceShift(p, b, i + |d|, FindMarkEnd(b, d, i + |d|).value);
        }
      }
    }
  }

  /** Scanning on after `p` is scanning the rest from its start. */
  lemma {:induction false} PlainShift(p: string, b: string, i: nat, s: Scan)
    requires Apart(p, b, i)
    ensures PlainFrom(p + b, |p| + i, s) == PlainFrom(b, i, s)
    decreases |b| - i
  {
    hide NextToken;
    if i < |b| {
      TokenShift(p, b, i, s);
      var t := NextToken(b, i, s);
      PlainShift(p, b, t.next, t.scan);
    }
  }

  /** One token, and then the rest. */
  lemma TokenThen(p: string, b: string, s: Scan, text: string, t: Scan)
    requires p != "" && Apart(p, b, 0) && NextToken(p + b, 0, s) == Token(text, |p|, t)
    ensures PlainFrom(p + b, 0, s) == (text + PlainFrom(b, 0, t).0, PlainFrom(b, 0, t).1)
  {
    hide NextToken;
    PlainShift(p, b, 0, t);
  }

  // ----- what opens nothing -----

  /** No character that can open, close or escape anything. */
  predicate Quiet(a: string) {
    forall c <- a :: c !in "\\`*[="
  }

  lemma StartsChars(v: string, w: string, i: nat)
    ensures StartsWith(v, w, i) ==> i + |w| <= |v| && forall k | 0 <= k < |w| :: v[i + k] == w[k]
  {
    if StartsWith(v, w, i) {
      forall k | 0 <= k < |w| ensures v[i + k] == w[k] {
        assert v[i..i + |w|][k] == v[i + k];
      }
    }
  }

  lemma StartsTail(v: string, w: string, i: nat)
    requires w != "" && StartsWith(v, w, i)
    ensures i < |v| && v[i] == w[0] && StartsWith(v, w[1..], i + 1)
  {
    StartsChars(v, w, i);
    assert v[i + 1..i + |w|] == v[i..i + |w|][1..];
  }

  lemma NotStart(v: string, w: string, i: nat)
    requires w != "" && i < |v| && v[i] != w[0]
    ensures !StartsWith(v, w, i)
  {
    StartsChars(v, w, i);
  }

  lemma QuietToken(c: char, b: string, s: Scan)
    requires c !in "\\`*["
    requires c == '=' ==> b == "" || b[0] != '='
    ensures NextToken([c] + b, 0, s) == Token([c], 1, s)
  {
    var v := [c] + b;
    assert v[0] == c;
    StartsChars(v, "**", 0);
    StartsChars(v, "==", 0);
  }

  /** Quiet text stays as it is, whatever follows it. */
  lemma {:induction false} QuietIsKept(a: string, b: string, s: Scan)
    requires Quiet(a)
    ensures PlainFrom(a + b, 0, s) == (a + PlainFrom(b, 0, s).0, PlainFrom(b, 0, s).1)
    decreases |a|
  {
    hide NextToken, PlainFrom;
    if a == "" {
      assert a + b == b && "" + PlainFrom(b, 0, s).0 == PlainFrom(b, 0, s).0;
    } else {
      var rest := a[1..] + b;
      assert a + b == [a[0]] + rest && a[0] in a;
      QuietToken(a[0], rest, s);
      TokenThen([a[0]], rest, s, [a[0]], s);
      QuietIsKept(a[1..], b, s);
      assert [a[0]] + (a[1..] + PlainFrom(b, 0, s).0) == a + PlainFrom(b, 0, s).0;
    }
  }

  /** A text without any special character is what the scanner shows. */
  lemma QuietTextIsKept(a: string, s: Scan)
    requires Quiet(a)
    ensures PlainFrom(a, 0, s) == (a, s)
  {
    QuietIsKept(a, "", s);
    assert a + "" == a;
  }

  // ----- backslashes -----

  lemma BackslashToken(n: nat, b: string, s: Scan)
    requires n > 0 && (b == "" || b[0] != '\\')
    ensures var v := Repeat('\\', n) + b; v[0] == '\\' && CountRun(v, 0, '\\') == n
  {
    hide CountRun;
    var v := Repeat('\\', n) + b;
    assert StartsWith(v, Repeat('\\', n), 0);
    PrefixRun(v, 0, '\\', n);
    RunShift(Repeat('\\', n), b, 0, '\\');
    RunAtStart(b);
  }

  lemma RunAtStart(b: string)
    requires b == "" || b[0] != '\\'
    ensures CountRun(b, 0, '\\') == 0
  {
  }

  /** A run of n backslashes.  An odd one escapes a punctuation character after it; otherwise
      half of the run stays, rounded up. */
  lemma BackslashRun(n: nat, b: string, s: Scan)
    requires n > 0 && (b == "" || b[0] != '\\')
    ensures var (text, t) := PlainFrom(Repeat('\\', n) + b, 0, s);
            if n % 2 == 1 && b != "" && b[0] in "`*{}[]()#+-.!_>="
            then text == Repeat('\\', n / 2) + [b[0]] + PlainFrom(b, 1, s).0 && t == PlainFrom(b, 1, s).1
            else text == Repeat('\\', (n + 1) / 2) + PlainFrom(b, 0, s).0 && t == PlainFrom(b, 0, s).1
  {
    hide CountRun, PlainFrom, Repeat;
    var p := Repeat('\\', n);
    assert |p| == n && p[n - 1] == '\\' by { RepeatedChar(n); }
    BackslashToken(n, b, s);
    if b != "" {
      Shift(p, b, 0);
      Escapables(b[0]);
    }
    HalfUp(n);
    assert NextToken(p + b, 0, s) == EscapeToken(p + b, 0, s);
    if n % 2 == 1 && b != "" && IsEscapable(b[0]) {
      PlainShift(p, b, 1, s);
      assert PlainFrom(p + b, 0, s) == ((Repeat('\\', n / 2) + [b[0]]) + PlainFrom(p + b, n + 1, s).0, PlainFrom(p + b, n + 1, s).1) by {
        PlainUnfolds(p + b, s);
      }
    } else {
      TokenThen(p, b, s, EscapeToken(p + b, 0, s).text, s);
    }
  }

  lemma PlainUnfolds(v: string, s: Scan)
    requires v != ""
    ensures var t := NextToken(v, 0, s);
            PlainFrom(v, 0, s) == (t.text + PlainFrom(v, t.next, t.scan).0, PlainFrom(v, t.next, t.scan).1)
  {
    hide NextToken;
  }

  lemma RepeatedChar(n: nat)
    requires n > 0
    ensures |Repeat('\\', n)| == n && Repeat('\\', n)[n - 1] == '\\'
  {
  }

  lemma HalfUp(n: nat)
    ensures n % 2 == 1 ==> Repeat('\\', n / 2) + "\\" == Repeat('\\', (n + 1) / 2)
    ensures n % 2 == 0 ==> n / 2 == (n + 1) / 2
  {
  }

  lemma Escapables(c: char)
    requires c != '\\'
    ensures IsEscapable(c) <==> c in "`*{}[]()#+-.!_>="
  {
  }

  // ----- what is never closed -----

  lemma {:induction false} NoMarkEnd(v: string, d: string, i: nat)
    requires d != "" && forall k | i <= k < |v| :: v[k] != d[0]
    ensures FindMarkEnd(v, d, i) == None
    decreases |v| - i
  {
    hide SkipEscape, SkipCode;
    if i < |v| {
      if v[i] == '\\' {
        NoMarkEnd(v, d, SkipEscape(v, i));
      } else if v[i] == '`' {
        NoMarkEnd(v, d, SkipCode(v, i));
      } else {
        StartsChars(v, d, i);
        NoMarkEnd(v, d, i + 1);
      }
    }
  }

  /** An opening mark that is never closed stays as written. */
  lemma UnclosedMarkStays(d: string, b: string, s: Scan)
    requires d in {"*", "**", "=="} && d[0] !in b
    ensures PlainFrom(d + b, 0, s) == (d + PlainFrom(b, 0, s).0, PlainFrom(b, 0, s).1)
  {
    hide PlainFrom, FindMarkEnd;
    var v := d + b;
    assert forall k | |d| <= k < |v| :: v[k] == b[k - |d|] && v[k] in b;
    NoMarkEnd(v, d, |d|);
    assert v[0] == d[0];
    assert b != "" ==> b[0] in b;
    if |d| == 1 {
      UnclosedStarToken(b, s);
      TokenThen(d, b, s, d, s);
    } else {
      UnclosedPairToken(d, b, s);
      var rest := [d[1]] + b;
      assert v == [d[0]] + rest;
      PlainUnfolds(v, s);
      assert PlainFrom(v, 1, s) == ([d[1]] + PlainFrom(b, 0, s).0, PlainFrom(b, 0, s).1) by {
        SecondOfPair(d, b, s);
      }
      assert [d[0]] + ([d[1]] + PlainFrom(b, 0, s).0) == d + PlainFrom(b, 0, s).0;
    }
  }

  lemma UnclosedStarToken(b: string, s: Scan)
    requires '*' !in b && FindMarkEnd("*" + b, "*", 1) == None
    ensures NextToken("*" + b, 0, s) == Token("*", 1, s)
  {
    hide FindMarkEnd;
    var v := "*" + b;
    if |v| > 1 {
      assert v[1] == b[0] && b[0] in b;
    }
    StartsChars(v, "**", 0);
    StartsChars(v, "==", 0);
  }

  lemma UnclosedPairToken(d: string, b: string, s: Scan)
    requires d in {"**", "=="} && FindMarkEnd(d + b, d, 2) == None
    ensures NextToken(d + b, 0, s) == Token([d[0]], 1, s)
  {
    hide FindMarkEnd;
    var v := d + b;
    assert v[0..2] == d && v[0] == d[0];
  }

  /** The second character of the pair opens nothing either. */
  lemma SecondOfPair(d: string, b: string, s: Scan)
    requires d in {"**", "=="} && d[0] !in b
    ensures PlainFrom(d + b, 1, s) == ([d[1]] + PlainFrom(b, 0, s).0, PlainFrom(b, 0, s).1)
  {
    hide PlainFrom;
    var v := d + b;
    assert v[0] == d[0] && v[1] == d[1] == d[0];
    assert b != "" ==> b[0] in b;
    if |v| > 2 {
      assert v[2] == b[0];
    }
    StartsChars(v, "**", 1);
    StartsChars(v, "==", 1);
    assert NextToken(v, 1, s) == Token([d[1]], 2, s);
    PlainUnfoldsAt(v, 1, s);
    PlainShift(d, b, 0, s);
  }

  lemma PlainUnfoldsAt(v: string, i: nat, s: Scan)
    requires i < |v|
    ensures var t := NextToken(v, i, s);
            PlainFrom(v, i, s) == (t.text + PlainFrom(v, t.next, t.scan).0, PlainFrom(v, t.next, t.scan).1)
  {
    hide NextToken;
  }

  lemma {:induction false} NoFence(v: string, i: nat, n: nat)
    requires forall k | i <= k < |v| :: v[k] != '`'
    ensures FindInlineCodeEnd(v, i, n) == None
    decreases |v| - i
  {
    if i < |v| {
      NoFence(v, i + 1, n);
    }
  }

  /** A fence that is never closed stays as written. */
  lemma UnclosedFenceStays(n: nat, b: string, s: Scan)
    requires n > 0 && '`' !in b
    ensures var f := Repeat('`', n);
            PlainFrom(f + b, 0, s) == (f + PlainFrom(b, 0, s).0, PlainFrom(b, 0, s).1)
  {
    hide CountRun, PlainFrom, FindInlineCodeEnd;
    var f := Repeat('`', n);
    var v := f + b;
    assert v[0] == '`' && StartsWith(v, f, 0);
    PrefixRun(v, 0, '`', n);
    assert forall k | n <= k < |v| :: v[k] == b[k - n] && v[k] in b;
    NoRunAt(v, n);
    NoFence(v, n, n);
    TokenThen(f, b, s, f, s);
  }

  lemma NoRunAt(v: string, i: nat)
    requires i < |v| ==> v[i] != '`'
    ensures CountRun(v, i, '`') == 0
  {
  }

  lemma {:induction false} NoLabelEnd(v: string, i: nat, limit: nat, s: Scan)
    requires limit <= |v| && forall k | i <= k < |v| :: v[k] != ']'
    ensures FindLabelEnd(v, i, limit, s).0 == None
    decreases |v| - i
  {
    hide SkipEscape, SkipCode, Pay;
    if i < limit && CanPay(s) {
      if v[i] == '\\' {
        NoLabelEnd(v, SkipEscape(v, i), limit, Pay(s));
      } else if v[i] == '`' {
        NoLabelEnd(v, SkipCode(v, i), limit, Pay(s));
      } else {
        NoLabelEnd(v, i + 1, limit, Pay(s));
      }
    }
  }

  /** Without a closing bracket the budget does not matter. */
  lemma {:induction false} TextIgnoresScan(v: string, i: nat, s: Scan, t: Scan)
    requires ']' !in v
    ensures PlainFrom(v, i, s).0 == PlainFrom(v, i, t).0
    decreases |v|, |v| - i, 1
  {
    hide NextToken;
    if i < |v| {
      TokenIgnoresScan(v, i, s, t);
      var x, y := NextToken(v, i, s), NextToken(v, i, t);
      TextIgnoresScan(v, x.next, x.scan, y.scan);
    }
  }

  lemma {:induction false} TokenIgnoresScan(v: string, i: nat, s: Scan, t: Scan)
    requires i < |v| && ']' !in v
    ensures NextToken(v, i, s).text == NextToken(v, i, t).text && NextToken(v, i, s).next == NextToken(v, i, t).next
    decreases |v|, |v| - i, 0
  {
    hide FindLabelEnd, FindTargetEnd, FindMarkEnd, Delimiter, PlainFrom;
    if v[i] == '[' {
      assert forall k | i + 1 <= k < |v| :: v[k] in v;
      NoLabelEnd(v, i + 1, Min(|v|, i + 1 + MAX_LINK_LABEL), s);
      NoLabelEnd(v, i + 1, Min(|v|, i + 1 + MAX_LINK_LABEL), t);
    } else if v[i] != '\\' && v[i] != '`' {
      var d := Delimiter(v, i);
      if d != "" && FindMarkEnd(v, d, i + |d|).Some? {
        var inner := v[i + |d|..FindMarkEnd(v, d, i + |d|).value];
        assert forall c <- inner :: c in v;
        TextIgnoresScan(inner, 0, s, t);
      }
    }
  }

  /** A bracket that is never closed stays as written. */
  lemma UnclosedBracketStays(b: string, s: Scan)
    requires ']' !in b
    ensures PlainFrom("[" + b, 0, s).0 == "[" + PlainFrom(b, 0, s).0
  {
    hide PlainFrom, FindLabelEnd, FindTargetEnd;
    var v := "[" + b;
    assert forall k | 1 <= k < |v| :: v[k] == b[k - 1] && v[k] in b;
    var limit := Min(|v|, 1 + MAX_LINK_LABEL);
    NoLabelEnd(v, 1, limit, s);
    var t := FindLabelEnd(v, 1, limit, s).1;
    assert NextToken(v, 0, s) == Token("[", 1, t);
    TokenThen("[", b, s, "[", t);
    TextIgnoresScan(b, 0, s, t);
  }

  // ----- what is closed -----

  lemma {:induction false} QuietMarkEnd(v: string, d: string, i: nat, x: string)
    requires d != "" && d[0] in "*=" && Quiet(x) && StartsWith(v, x + d, i)
    ensures FindMarkEnd(v, d, i) == Some(i + |x|)
    decreases |x|
  {
    hide StartsWith, SkipEscape, SkipCode;
    StartsTail(v, x + d, i);
    if x == "" {
      assert x + d == d;
    } else {
      assert (x + d)[1..] == x[1..] + d && (x + d)[0] == x[0] && x[0] in x;
      NotStart(v, d, i);
      QuietMarkEnd(v, d, i + 1, x[1..]);
    }
  }

  /** A closed pair of marks goes, and what is between them stays. */
  lemma ClosedMarkGoes(d: string, x: string, b: string, s: Scan)
    requires d in {"**", "=="} && Quiet(x) && (d == "**" && b != "" ==> b[0] != '*')
    ensures PlainFrom(d + x + d + b, 0, s) == (x + PlainFrom(b, 0, s).0, PlainFrom(b, 0, s).1)
  {
    hide PlainFrom, FindMarkEnd;
    var v := d + x + d + b;
    ClosedToken(d, x, b, s);
    hide NextToken;
    var p := d + x + d;
    assert p[|p| - 1] == d[1];
    TokenThen(p, b, s, x, s);
  }

  lemma ClosedToken(d: string, x: string, b: string, s: Scan)
    requires d in {"**", "=="} && Quiet(x)
    ensures NextToken(d + x + d + b, 0, s) == Token(x, 4 + |x|, s)
  {
    hide PlainFrom, FindMarkEnd;
    var v := d + x + d + b;
    assert v[0..2] == d && v[0] == d[0];
    assert v[2..2 + |x + d|] == x + d;
    QuietMarkEnd(v, d, 2, x);
    assert v[2..2 + |x|] == x;
    QuietTextIsKept(x, s);
  }

  // ----- links -----

  lemma {:induction false} QuietLabel(v: string, i: nat, x: string, limit: nat, s: Scan)
    requires Quiet(x) && ']' !in x && StartsWith(v, x + "]", i) && limit <= |v| && i <= limit && s.unlimited
    ensures var (r, t) := FindLabelEnd(v, i, limit, s);
            && r == (if i + |x| < limit then Some(i + |x|) else None)
            && t.unlimited && t.links == s.links
    decreases |x|
  {
    if i < limit {
      assert v[i..i + |x + "]"|][0] == (x + "]")[0] == v[i];
      if x != "" {
        assert x[0] in x;
        assert v[i + 1..i + 1 + |x[1..] + "]"|] == (x + "]")[1..] == x[1..] + "]";
        QuietLabel(v, i + 1, x[1..], limit, Pay(s));
      }
    }
  }

  lemma {:induction false} QuietTarget(v: string, i: nat, u: string, limit: nat, s: Scan)
    requires (forall c <- u :: c !in "\\()") && StartsWith(v, u + ")", i) && limit <= |v| && i <= limit && s.unlimited
    ensures var (r, t) := FindTargetEnd(v, i, limit, 1, s);
            && r == (if i + |u| < limit then Some(i + |u|) else None)
            && t.unlimited && t.links == s.links
    decreases |u|
  {
    if i < limit {
      assert v[i..i + |u + ")"|][0] == (u + ")")[0] == v[i];
      if u != "" {
        assert u[0] in u;
        assert v[i + 1..i + 1 + |u[1..] + ")"|] == (u + ")")[1..] == u[1..] + ")";
        QuietTarget(v, i + 1, u[1..], limit, Pay(s));
      }
    }
  }

  /** A simple link is read as one if and only if its label is shorter than 500 characters and
      its target shorter than 2000; otherwise it stays as written. */
  lemma LinkIsReadIff(x: string, u: string)
    requires Quiet(x) && ']' !in x && Quiet(u) && (forall c <- u :: c !in "()")
    ensures var v := "[" + x + "](" + u + ")"; var (text, t) := PlainFrom(v, 0, UNLIMITED);
            if |x| < 500 && |u| < 2000 then text == x && t.links == [u] else text == v && t.links == []
  {
    hide PlainFrom, FindLabelEnd, FindTargetEnd, NextToken;
    var v := "[" + x + "](" + u + ")";
    LinkToken(x, u);
    var t := NextToken(v, 0, UNLIMITED);
    if |x| < 500 && |u| < 2000 {
      TokenThen(v, "", UNLIMITED, x, t.scan) by { assert v + "" == v; }
      assert v + "" == v && x + "" == x;
      EndIsEmpty(t.scan);
    } else {
      var rest := x + "](" + u + ")";
      assert v == "[" + rest;
      TokenThen("[", rest, UNLIMITED, "[", t.scan);
      assert Quiet(rest);
      QuietTextIsKept(rest, t.scan);
    }
  }

  lemma EndIsEmpty(s: Scan)
    ensures PlainFrom("", 0, s) == ("", s)
  {
  }

  lemma LinkToken(x: string, u: string)
    requires Quiet(x) && ']' !in x && Quiet(u) && (forall c <- u :: c !in "()")
    ensures var v := "[" + x + "](" + u + ")"; var t := NextToken(v, 0, UNLIMITED);
            if |x| < 500 && |u| < 2000 then t.text == x && t.next == |v| && t.scan.links == [u]
            else t.text == "[" && t.next == 1 && t.scan.links == []
  {
    hide PlainFrom, FindLabelEnd, FindTargetEnd;
    var v := "[" + x + "](" + u + ")";
    assert v[0] == '[' && v[1..1 + |x + "]"|] == x + "]";
    QuietLabel(v, 1, x, Min(|v|, 1 + MAX_LINK_LABEL), UNLIMITED);
    if |x| < 500 {
      var s := FindLabelEnd(v, 1, Min(|v|, 1 + MAX_LINK_LABEL), UNLIMITED).1;
      var from := |x| + 3;
      assert v[|x| + 2] == '(' && v[from..from + |u + ")"|] == u + ")";
      QuietTarget(v, from, u, Min(|v|, from + MAX_LINK_TARGET), s);
      if |u| < 2000 {
        assert v[from..from + |u|] == u && v[1..1 + |x|] == x;
        assert [] + [u] == [u];
        var scan2 := FindTargetEnd(v, from, Min(|v|, from + MAX_LINK_TARGET), 1, s).1;
        QuietTextIsKept(x, scan2.(links := scan2.links + [u]));
      }
    }
  }
}
