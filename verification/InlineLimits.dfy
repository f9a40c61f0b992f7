/** Exactly where the inline subset stops round-tripping: code spans with a backtick at
    an end, and the neighbours that run into one another. */
module InlineLimits {
  import opened Options
  import opened InlineScanner
  import opened InlinePrinter
  import opened InlineRoundTrip
  import opened InlineTheorems
  import ScannerProperties

  // ----- code spans -----

  lemma {:induction false} SubsequenceIsShorter(a: string, b: string)
    requires ScannerProperties.IsSubsequence(a, b)
    ensures |a| <= |b|
    decreases |b|
  {
    if a != "" {
      if a[0] == b[0] {
        SubsequenceIsShorter(a[1..], b[1..]);
      } else {
        SubsequenceIsShorter(a, b[1..]);
      }
    }
  }

  lemma OutputIsShorter(v: string, i: nat, s: Scan)
    requires i <= |v|
    ensures |PlainFrom(v, i, s).0| <= |v| - i
  {
    ScannerProperties.PlainIsSubsequence(v, i, s);
    SubsequenceIsShorter(PlainFrom(v, i, s).0, v[i..]);
  }

  lemma {:induction false} PrefixRun(v: string, i: nat, c: char, n: nat)
    requires StartsWith(v, Repeat(c, n), i)
    ensures CountRun(v, i, c) == n + CountRun(v, i + n, c)
    decreases n
  {
    if n > 0 {
      AtChar(v, i, Repeat(c, n), 0);
      assert Repeat(c, n) == [c] + Repeat(c, n - 1);
      At(v, i, [c], Repeat(c, n - 1));
      PrefixRun(v, i + 1, c, n - 1);
    }
  }

  /** A run of backticks at the end of the code joins the closing fence, which then no
      longer matches the opening one. */
  lemma {:induction false} NoCodeEnd(v: string, base: nat, s: string, k: nat, n: nat)
    requires k < |s| && s[|s| - 1] == '`' && LongestRun(s, k) < n
    requires StartsWith(v, s, base) && StartsWith(v, Repeat('`', n), base + |s|) && |v| == base + |s| + n
    ensures FindInlineCodeEnd(v, base + k, n) == None
    decreases |s| - k
  {
    hide Repeat;
    AtChar(v, base, s, k);
    if s[k] == '`' {
      var run := CountRun(s, k, '`');
      RunInto(v, base, s, k, n);
      if k + run < |s| {
        NoCodeEnd(v, base, s, k + run, n);
      }
    } else {
      NoCodeEnd(v, base, s, k + 1, n);
    }
  }

  lemma {:induction false} RunInto(v: string, base: nat, s: string, k: nat, n: nat)
    requires k <= |s| && StartsWith(v, s, base)
    requires StartsWith(v, Repeat('`', n), base + |s|) && |v| == base + |s| + n
    ensures var run := CountRun(s, k, '`');
            CountRun(v, base + k, '`') == if k + run < |s| then run else run + n
    decreases |s| - k
  {
    if k < |s| {
      AtChar(v, base, s, k);
      if s[k] == '`' {
        RunInto(v, base, s, k + 1, n);
      }
    } else {
      PrefixRun(v, base + k, '`', n);
    }
  }

  lemma LongestAtLeastFirst(s: string)
    ensures CountRun(s, 0, '`') <= LongestRun(s, 0)
  {
  }

  lemma FencedParts(x: string, n: nat)
    requires n > 0
    ensures var f := Repeat('`', n); var v := f + x + f;
            && |v| == 2 * n + |x| && v[0] == '`'
            && StartsWith(v, f, 0) && StartsWith(v, x, n) && StartsWith(v, f, n + |x|)
            && CountRun(v, 0, '`') == n + CountRun(v, n, '`')
  {
    hide CountRun;
    var f := Repeat('`', n);
    var v := f + x + f;
    assert v[n..n + |x|] == x;
    PrefixRun(v, 0, '`', n);
  }

  /** The opening run of an unsafe span is longer than its fence, or never closed. */
  lemma UnsafeCodeOpens(x: string, n: nat)
    requires !CodeSafe(x) && n == LongestRun(x, 0) + 1
    ensures var v := Repeat('`', n) + x + Repeat('`', n); var run := CountRun(v, 0, '`');
            && run >= n
            && (run == n ==> FindInlineCodeEnd(v, run, run) == None)
  {
    hide FindInlineCodeEnd, Repeat, LongestRun, CountRun, StartsWith;
    var v := Repeat('`', n) + x + Repeat('`', n);
    FencedParts(x, n);
    if CountRun(v, 0, '`') == n {
      RunInto(v, n, x, 0, n);
      if x != "" {
        AtChar(v, n, x, 0);
        StartsWithoutRun(v, n, '`');
        NoCodeEnd(v, n, x, 0, n);
      }
    }
  }

  lemma UnsafeCodeBreaks(x: string, s: Scan)
    requires !CodeSafe(x)
    ensures PlainFrom(Print(InlineCode(x)), 0, s).0 != x
  {
    hide PlainFrom, FindInlineCodeEnd, Repeat, CountRun, CodeSafe, Yields, LongestRun;
    var n := LongestRun(x, 0) + 1;
    var v := Repeat('`', n) + x + Repeat('`', n);
    FencedParts(x, n);
    UnsafeCodeOpens(x, n);
    LongestAtLeastFirst(x);
    var run := CountRun(v, 0, '`');
    CodeTokenYields(v, run, s);
    if FindInlineCodeEnd(v, run, run).Some? {
      OutputIsShorter(v, FindInlineCodeEnd(v, run, run).value + run, s);
    } else {
      RepeatedPrefix(PlainFrom(v, 0, s).0, run);
    }
  }

  lemma CodeTokenYields(v: string, run: nat, s: Scan)
    requires v != "" && v[0] == '`' && CountRun(v, 0, '`') == run
    ensures var out := PlainFrom(v, 0, s).0;
            match FindInlineCodeEnd(v, run, run)
            case Some(end) => |out| == end - run + |PlainFrom(v, end + run, s).0|
            case None => run <= |out| && out[..run] == Repeat('`', run)
  {
    hide PlainFrom, FindInlineCodeEnd, CountRun;
    TokenYields(v, 0, s);
  }

  lemma StartsWithoutRun(v: string, i: nat, c: char)
    requires i < |v|
    ensures CountRun(v, i, c) == 0 <==> v[i] != c
  {
  }

  lemma RepeatedPrefix(out: string, n: nat)
    requires n <= |out| && out[..n] == Repeat('`', n)
    ensures CountRun(out, 0, '`') >= n
  {
    PrefixRun(out, 0, '`', n);
  }

  /** An inline code span keeps its text exactly when that text is not empty and has no
      backtick at either end. */
  lemma CodeRoundTripsIff(x: string, s: Scan)
    ensures PlainFrom(Print(InlineCode(x)), 0, s).0 == x <==> CodeSafe(x)
  {
    hide PlainFrom, Print;
    if CodeSafe(x) {
      var v := Print(InlineCode(x));
      assert v + "" == v;
      Whole(v);
      YieldsCode(v, 0, x, "", s);
      YieldsWhole(v, s, x, s);
    } else {
      UnsafeCodeBreaks(x, s);
    }
  }

  // ----- neighbours -----

  predicate PlainText(ns: seq<Node>) {
    |ns| == 1 && ns[0].Text? && !HasHighlight(ns[0].value)
  }

  /** A node that round-trips on its own: text, and marks around text. */
  predicate Segment(n: Node) {
    match n
    case Text(x) => x != "" && !HasHighlight(x)
    case Strong(cs) => PlainText(cs)
    case Emphasis(cs) => PlainText(cs) && cs[0].value != ""
    case InlineCode(x) => CodeSafe(x)
    case _ => false
  }

  /** The neighbours the subset cannot tell apart: emphasis after anything that ends in
      a star, and code right after code. */
  predicate Collide(x: Node, y: Node) {
    (y.Emphasis? && EndsInStar(Print(x), false)) || (x.InlineCode? && y.InlineCode?)
  }

  lemma PrintsPlainText(ns: seq<Node>)
    requires PlainText(ns)
    ensures PrintAll(ns) == Escape(ns[0].value) && ShownAll(ns) == ns[0].value && TargetsAll(ns) == []
    ensures Inside(ns, "*", "*") && Inside(ns, "**", "**") && Fits(ns, "", false)
  {
    hide Escape, HasHighlight;
    var x := ns[0].value;
    PrintTextPlain(x, 0);
    assert ns[1..] == [] && Escape(x) + "" == Escape(x) && x + "" == x;
    assert x[0..] == x && PrintAll(ns[1..]) == "" && ShownAll(ns[1..]) == "";
    assert Inside(ns[1..], "*", "*") && Inside(ns[1..], "**", "**");
    assert Fits(ns[1..], "", EndsInStar(Print(ns[0]), false));
  }

  lemma EscapeStart(x: string, c: char)
    requires c in LITERALS && c != '\\'
    ensures !Opens(Escape(x), c)
  {
  }

  lemma SegmentStart(n: Node)
    requires Segment(n) && !n.InlineCode?
    ensures !Opens(Print(n), '`')
  {
    if n.Text? {
      PrintTextPlain(n.value, 0);
      EscapeStart(n.value, '`');
    }
  }

  lemma SegmentFits(n: Node, after: string, afterStar: bool)
    requires Segment(n) && (n.Emphasis? ==> !afterStar) && (n.InlineCode? ==> !Opens(after, '`'))
    ensures FitsNode(n, after, afterStar) && Targets(n) == []
  {
    match n
    case Strong(cs) => PrintsPlainText(cs);
    case Emphasis(cs) =>
      PrintsPlainText(cs);
      assert Escape(cs[0].value) != "";
    case _ =>
  }

  lemma SegmentsFit(x: Node, y: Node)
    requires Segment(x) && Segment(y) && !Collide(x, y)
    ensures Fits([x, y], "", false) && PrintAll([x, y]) == Print(x) + Print(y)
    ensures ShownAll([x, y]) == Shown(x) + Shown(y) && TargetsAll([x, y]) == []
  {
    hide FitsNode, Segment, Print, Shown, Targets;
    assert [x, y][1..] == [y] && [y][1..] == [];
    assert PrintAll([y]) == Print(y);
    assert ShownAll([y]) == Shown(y) + ShownAll([y][1..]) == Shown(y);
    assert TargetsAll([y]) == Targets(y) + TargetsAll([y][1..]) == Targets(y);
    assert PrintAll([y]) + "" == Print(y) && PrintAll([]) + "" == "";
    if !y.InlineCode? {
      SegmentStart(y);
    }
    SegmentFits(x, Print(y), false);
    SegmentFits(y, "", EndsInStar(Print(x), false));
    assert Fits([y], "", EndsInStar(Print(x), false));
  }

  /** A star after a star opens nothing: it is shown, and so is the one meant to close. */
  lemma StarsShow(v: string, i: nat, x: string, s: Scan)
    requires i > 0 && x != "" && |v| == i + |Escape(x)| + 2 && v[i - 1] == '*'
    requires StartsWith(v, "*" + Escape(x) + "*", i)
    ensures PlainFrom(v, i, s).0 == "*" + x + "*"
  {
    hide PlainFrom, Escape, FindMarkEnd, Yields, StartsWith;
    var e := Escape(x);
    assert "*" + e + "*" == "*" + (e + "*");
    At(v, i, "*", e + "*");
    At(v, i + 1, e, "*");
    AtChar(v, i, "*", 0);
    AtChar(v, i + 1 + |e|, "*", 0);
    EscapeNotEmpty(x);
    EscapeStart(x, '*');
    AtChar(v, i + 1, e, 0);
    StarAfterStar(v, i, s);
    YieldsEscape(v, i + 1, x, s);
    LastStar(v, s);
    YieldsThen(v, i, s, "*", i + 1, s, x, i + 1 + |e|, s);
    YieldsThen(v, i, s, "*" + x, i + 1 + |e|, s, "*", |v|, s);
    YieldsEnd(v, i, s, "*" + x + "*");
  }

  lemma YieldsEnd(v: string, i: nat, s: Scan, x: string)
    requires Yields(v, i, s, x, |v|, s)
    ensures PlainFrom(v, i, s).0 == x
  {
    assert x + "" == x;
  }

  lemma EscapeNotEmpty(x: string)
    requires x != ""
    ensures Escape(x) != ""
  {
  }

  lemma StarAfterStar(v: string, i: nat, s: Scan)
    requires 0 < i && i + 1 < |v| && v[i - 1] == '*' && v[i] == '*' && v[i + 1] != '*'
    ensures Yields(v, i, s, "*", i + 1, s)
  {
    hide PlainFrom, Yields;
    if StartsWith(v, "**", i) {
      AtChar(v, i, "**", 1);
    }
    if StartsWith(v, "==", i) {
      AtChar(v, i, "==", 0);
    }
    TokenYields(v, i, s);
  }

  lemma LastStar(v: string, s: Scan)
    requires v != "" && v[|v| - 1] == '*'
    ensures Yields(v, |v| - 1, s, "*", |v|, s)
  {
    hide PlainFrom, Yields;
    TokenYields(v, |v| - 1, s);
  }

  lemma EmphasisAfterStar(x: Node, y: Node, s: Scan)
    requires Segment(x) && Segment(y) && y.Emphasis? && EndsInStar(Print(x), false)
    ensures PlainFrom(Print(x) + Print(y), 0, s).0 == Shown(x) + "*" + Shown(y) + "*"
  {
    hide PlainFrom, Escape, Print, Shown, FitsNode, Yields, StartsWith;
    var v, i := Print(x) + Print(y), |Print(x)|;
    Whole(v);
    At(v, 0, Print(x), Print(y));
    AtChar(v, 0, Print(x), i - 1);
    EmphasisText(y);
    var text := y.children[0].value;
    SegmentStart(y);
    SegmentFits(x, Print(y), false);
    var t := YieldsNode(v, 0, x, Print(y), false, s);
    StarsShow(v, i, text, s);
    assert Shown(x) + ("*" + text + "*") == Shown(x) + "*" + text + "*";
    YieldsOut(v, 0, s, Shown(x), i, s);
  }

  lemma YieldsOut(v: string, i: nat, s: Scan, x: string, j: nat, t: Scan)
    requires Yields(v, i, s, x, j, t)
    ensures PlainFrom(v, i, s).0 == x + PlainFrom(v, j, t).0
  {
  }

  lemma EmphasisText(n: Node)
    requires Segment(n) && n.Emphasis?
    ensures var x := n.children[0].value; x != "" && Print(n) == "*" + Escape(x) + "*" && Shown(n) == x
  {
    PrintsPlainText(n.children);
  }

  /** Code after code: the fences in the middle join, so the first span is never closed
      there and its text is not followed by the text of the second. */
  lemma CodeAfterCode(a: string, b: string, s: Scan)
    requires CodeSafe(a) && CodeSafe(b)
    ensures PlainFrom(Print(InlineCode(a)) + Print(InlineCode(b)), 0, s).0 != a + b
  {
    hide PlainFrom, FindInlineCodeEnd, CountRun, Repeat, LongestRun;
    var n, m := LongestRun(a, 0) + 1, LongestRun(b, 0) + 1;
    var v := Print(InlineCode(a)) + Print(InlineCode(b));
    CodePairParts(a, b, n, m);
    CodePair(v, a, b, n, m);
    TokenYields(v, 0, s);
    var out := PlainFrom(v, 0, s).0;
    match FindInlineCodeEnd(v, n, n)
    case Some(end) =>
      assert out[|a|] == v[n..end][|a|] == '`';
      assert (a + b)[|a|] == b[0];
    case None =>
      assert out[0] == '`' by { RepeatFirst('`', n); }
      assert (a + b)[0] == a[0];
  }

  lemma RepeatFirst(c: char, n: nat)
    requires n > 0
    ensures |Repeat(c, n)| == n && Repeat(c, n)[0] == c
  {
  }

  lemma CodePairParts(a: string, b: string, n: nat, m: nat)
    requires n > 0 && m > 0
    ensures var v := Repeat('`', n) + a + Repeat('`', n) + (Repeat('`', m) + b + Repeat('`', m));
            && StartsWith(v, Repeat('`', n), 0) && StartsWith(v, a, n)
            && StartsWith(v, Repeat('`', n + m), n + |a|) && StartsWith(v, b, n + |a| + n + m)
  {
    var f, g, h := Repeat('`', n), Repeat('`', m), Repeat('`', n + m);
    assert f + g == h;
    var v := f + a + f + (g + b + g);
    assert v == f + a + h + b + g;
  }

  lemma CodePair(v: string, a: string, b: string, n: nat, m: nat)
    requires CodeSafe(a) && CodeSafe(b) && n == LongestRun(a, 0) + 1 && m > 0
    requires StartsWith(v, Repeat('`', n), 0) && StartsWith(v, a, n)
    requires StartsWith(v, Repeat('`', n + m), n + |a|) && StartsWith(v, b, n + |a| + n + m)
    ensures v != "" && v[0] == '`' && CountRun(v, 0, '`') == n && n + |a| < |v| && v[n + |a|] == '`'
    ensures var end := FindInlineCodeEnd(v, n, n); end.Some? ==> end.value > n + |a|
  {
    hide FindInlineCodeEnd, CountRun, LongestRun, Repeat, StartsWith;
    StartsInside(v, n + |a| + n + m, b);
    StartsInside(v, n, a);
    RepeatFirst('`', n);
    RepeatFirst('`', n + m);
    AtChar(v, 0, Repeat('`', n), 0);
    AtChar(v, n, a, 0);
    AtChar(v, n + |a|, Repeat('`', n + m), 0);
    AtChar(v, n + |a| + n + m, b, 0);
    RepeatedRun(v, 0, '`', n);
    RepeatedRun(v, n + |a|, '`', n + m);
    CodeEndPasses(v, n, a, 0, n);
    SkipsOtherRun(v, n + |a|, n);
  }

  lemma SkipsOtherRun(v: string, i: nat, n: nat)
    requires i < |v| && v[i] == '`' && CountRun(v, i, '`') != n
    ensures var end := FindInlineCodeEnd(v, i, n); end.Some? ==> end.value > i
  {
  }

  /** Two neighbours that each round-trip do so together exactly when they do not collide. */
  lemma NeighboursRoundTripIff(x: Node, y: Node)
    requires Segment(x) && Segment(y)
    ensures PlainFrom(Print(x) + Print(y), 0, FRESH).0 == Shown(x) + Shown(y) <==> !Collide(x, y)
  {
    hide PlainFrom, Print, Shown, Fits;
    if !Collide(x, y) {
      SegmentsFit(x, y);
      PrintThenScanOnBudget([x, y]);
    } else if y.Emphasis? && EndsInStar(Print(x), false) {
      EmphasisAfterStar(x, y, FRESH);
    } else {
      ShownCode(x);
      ShownCode(y);
      CodeAfterCode(x.value, y.value, FRESH);
    }
  }

  lemma ShownCode(n: Node)
    requires n.InlineCode? && Segment(n)
    ensures Shown(n) == n.value && CodeSafe(n.value)
  {
  }
}
