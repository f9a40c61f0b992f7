/** Scanning what the printer wrote: the main results about the inline subset. */
module InlineTheorems {
  import opened Options
  import opened InlineScanner
  import opened InlinePrinter
  import opened InlineRoundTrip
  import ScannerProperties

  /** From `i` with scan state `s`, the scanner outputs `text` and is at `j` with `t`. */
  predicate Yields(v: string, i: nat, s: Scan, text: string, j: nat, t: Scan) {
    PlainFrom(v, i, s) == (text + PlainFrom(v, j, t).0, PlainFrom(v, j, t).1)
  }

  lemma YieldsThen(v: string, i: nat, s: Scan, x: string, j: nat, t: Scan, y: string, k: nat, u: Scan)
    requires Yields(v, i, s, x, j, t) && Yields(v, j, t, y, k, u)
    ensures Yields(v, i, s, x + y, k, u)
  {
    hide PlainFrom;
    assert x + (y + PlainFrom(v, k, u).0) == x + y + PlainFrom(v, k, u).0;
  }

  lemma Whole(v: string)
    ensures StartsWith(v, v, 0)
  {
  }

  lemma YieldsWhole(v: string, s: Scan, text: string, t: Scan)
    requires Yields(v, 0, s, text, |v|, t)
    ensures PlainFrom(v, 0, s) == (text, t)
  {
    assert text + "" == text;
  }

  // ----- escaped text -----

  lemma RunAfterTwo(v: string, i: nat, c: char)
    requires i + 1 < |v| && v[i] == c && v[i + 1] == c
    ensures CountRun(v, i, c) == 2 + CountRun(v, i + 2, c)
    ensures CountRun(v, i + 2, c) > 0 <==> i + 2 < |v| && v[i + 2] == c
  {
    assert CountRun(v, i, c) == 1 + CountRun(v, i + 1, c);
    assert CountRun(v, i + 1, c) == 1 + CountRun(v, i + 2, c);
  }

  /** Two backslashes of a run can be read off before the rest of it. */
  lemma EscapeTwo(v: string, i: nat, s: Scan)
    requires i + 1 < |v| && v[i] == '\\' && v[i + 1] == '\\'
    ensures var t := EscapeToken(v, i, s);
            if i + 2 < |v| && v[i + 2] == '\\'
            then t == EscapeToken(v, i + 2, s).(text := "\\" + EscapeToken(v, i + 2, s).text)
            else t == Token("\\", i + 2, s)
  {
    hide CountRun;
    RunAfterTwo(v, i, '\\');
    var k := CountRun(v, i, '\\') / 2;
    assert CountRun(v, i + 2, '\\') / 2 == k - 1;
    assert Repeat('\\', k) == "\\" + Repeat('\\', k - 1);
  }

  lemma YieldsPair(v: string, i: nat, s: Scan)
    requires i + 1 < |v| && v[i] == '\\' && v[i + 1] == '\\'
    ensures Yields(v, i, s, "\\", i + 2, s)
  {
    hide EscapeToken, PlainFrom;
    EscapeTwo(v, i, s);
    TokenYields(v, i, s);
    if i + 2 < |v| && v[i + 2] == '\\' {
      TokenYields(v, i + 2, s);
      var u := EscapeToken(v, i + 2, s);
      assert "\\" + u.text + PlainFrom(v, u.next, u.scan).0 == "\\" + (u.text + PlainFrom(v, u.next, u.scan).0);
    }
  }

  lemma TokenYields(v: string, i: nat, s: Scan)
    requires i < |v|
    ensures Yields(v, i, s, NextToken(v, i, s).text, NextToken(v, i, s).next, NextToken(v, i, s).scan)
  {
    hide NextToken;
  }

  lemma YieldsChar(v: string, i: nat, c: char, s: Scan)
    requires StartsWith(v, EscapeChar(c), i)
    ensures Yields(v, i, s, [c], i + |EscapeChar(c)|, s)
  {
    hide Yields, PlainFrom;
    AtChar(v, i, EscapeChar(c), 0);
    if c == '\\' {
      AtChar(v, i, EscapeChar(c), 1);
      YieldsPair(v, i, s);
    } else {
      TokenYields(v, i, s);
      if c in LITERALS {
        AtChar(v, i, EscapeChar(c), 1);
        EscapeOne(v, i, s);
      } else {
        PlainToken(v, i, s);
      }
    }
  }

  lemma EscapeOne(v: string, i: nat, s: Scan)
    requires i + 1 < |v| && v[i] == '\\' && v[i + 1] in LITERALS && v[i + 1] != '\\'
    ensures NextToken(v, i, s) == Token([v[i + 1]], i + 2, s)
  {
    hide CountRun;
    RunIsOne(v, i, '\\');
  }

  lemma PlainToken(v: string, i: nat, s: Scan)
    requires i < |v| && v[i] !in LITERALS
    ensures NextToken(v, i, s) == Token([v[i]], i + 1, s)
  {
    if StartsWith(v, "**", i) {
      AtChar(v, i, "**", 0);
    }
    if StartsWith(v, "==", i) {
      AtChar(v, i, "==", 0);
    }
    assert Delimiter(v, i) == "";
  }

  lemma {:induction false} YieldsEscape(v: string, i: nat, x: string, s: Scan)
    requires StartsWith(v, Escape(x), i)
    ensures Yields(v, i, s, x, i + |Escape(x)|, s)
    decreases |x|
  {
    hide PlainFrom, StartsWith, Yields;
    YieldsNothing(v, i, s);
    if x != "" {
      At(v, i, EscapeChar(x[0]), Escape(x[1..]));
      YieldsChar(v, i, x[0], s);
      var j := i + |EscapeChar(x[0])|;
      YieldsEscape(v, j, x[1..], s);
      YieldsThen(v, i, s, [x[0]], j, s, x[1..], i + |Escape(x)|, s);
      assert [x[0]] + x[1..] == x;
    }
  }

  /** Escape, then scan: the identity, for every string and every scan state. */
  lemma EscapeThenScan(x: string, s: Scan)
    ensures PlainFrom(Escape(x), 0, s) == (x, s)
  {
    hide Escape, PlainFrom, Yields;
    Whole(Escape(x));
    YieldsEscape(Escape(x), 0, x, s);
    YieldsWhole(Escape(x), s, x, s);
  }

  // ----- marks -----

  /** A mark that opens at `i` and closes at `end` shows what is between. */
  lemma YieldsMarked(v: string, i: nat, d: string, end: nat, s: Scan, text: string, t: Scan)
    requires i < |v| && IsMark(d) && v[i] == '*' && Delimiter(v, i) == d
    requires FindMarkEnd(v, d, i + |d|) == Some(end) && PlainFrom(v[i + |d|..end], 0, s) == (text, t)
    ensures Yields(v, i, s, text, end + |d|, t)
  {
    hide PlainFrom, FindMarkEnd, Delimiter, Yields;
    TokenYields(v, i, s);
  }

  lemma DoubleOpens(v: string, i: nat)
    requires StartsWith(v, "**", i)
    ensures i < |v| && v[i] == '*' && Delimiter(v, i) == "**"
  {
    AtChar(v, i, "**", 0);
  }

  lemma MarkEndHere(v: string, d: string, i: nat)
    requires IsMark(d) && StartsWith(v, d, i)
    ensures FindMarkEnd(v, d, i) == Some(i)
  {
    AtChar(v, i, d, 0);
  }

  /** `**text**`, the form of a highlight and of strong text alike. */
  lemma YieldsDouble(v: string, i: nat, inner: string, s: Scan, text: string, t: Scan)
    requires StartsWith(v, "**" + inner + "**", i)
    requires FindMarkEnd(v, "**", i + 2) == FindMarkEnd(v, "**", i + 2 + |inner|)
    requires PlainFrom(inner, 0, s) == (text, t)
    ensures Yields(v, i, s, text, i + |inner| + 4, t)
  {
    hide PlainFrom, FindMarkEnd, Yields, StartsWith, Delimiter;
    assert "**" + inner + "**" == "**" + (inner + "**");
    At(v, i, "**", inner + "**");
    At(v, i + 2, inner, "**");
    DoubleOpens(v, i);
    var end := i + 2 + |inner|;
    MarkEndHere(v, "**", end);
    SliceAt(v, i + 2, inner);
    YieldsMarked(v, i, "**", end, s, text, t);
  }

  lemma SliceAt(v: string, i: nat, w: string)
    requires StartsWith(v, w, i)
    ensures i + |w| <= |v| && v[i..i + |w|] == w
  {
  }

  /** Text with highlights shows without their markers. */
  lemma {:induction false} YieldsText(v: string, i: nat, x: string, k: nat, s: Scan)
    requires StartsWith(v, PrintText(x, k), i)
    ensures Yields(v, i, s, StripHighlights(x, k), i + |PrintText(x, k)|, s)
    decreases |x| - k
  {
    hide PlainFrom, StartsWith, HighlightEnd, Yields, FindMarkEnd, Escape;
    var stop := i + |PrintText(x, k)|;
    if k >= |x| {
      YieldsNothing(v, i, s);
    } else if HighlightEnd(x, k).Some? {
      var end := HighlightEnd(x, k).value;
      var marked := x[k + 2..end];
      var whole := "**" + Escape(marked) + "**";
      assert PrintText(x, k) == whole + PrintText(x, end + 2);
      At(v, i, whole, PrintText(x, end + 2));
      YieldsHighlight(v, i, marked, s);
      YieldsText(v, i + |whole|, x, end + 2, s);
      YieldsThen(v, i, s, marked, i + |whole|, s, StripHighlights(x, end + 2), stop, s);
    } else {
      var j := i + |EscapeChar(x[k])|;
      At(v, i, EscapeChar(x[k]), PrintText(x, k + 1));
      YieldsChar(v, i, x[k], s);
      YieldsText(v, j, x, k + 1, s);
      YieldsThen(v, i, s, [x[k]], j, s, StripHighlights(x, k + 1), stop, s);
    }
  }

  lemma YieldsNothing(v: string, i: nat, s: Scan)
    ensures Yields(v, i, s, "", i, s)
  {
    hide PlainFrom;
    assert "" + PlainFrom(v, i, s).0 == PlainFrom(v, i, s).0;
  }

  lemma YieldsHighlight(v: string, i: nat, x: string, s: Scan)
    requires StartsWith(v, "**" + Escape(x) + "**", i)
    ensures Yields(v, i, s, x, i + |"**" + Escape(x) + "**"|, s)
  {
    hide PlainFrom, Yields, FindMarkEnd, StartsWith;
    assert "**" + Escape(x) + "**" == "**" + (Escape(x) + "**");
    At(v, i, "**", Escape(x) + "**");
    At(v, i + 2, Escape(x), "**");
    MarkPassesEscape(v, "**", i + 2, x);
    EscapeThenScan(x, s);
    YieldsDouble(v, i, Escape(x), s, x, s);
  }

  // ----- links -----

  lemma {:induction false} TargetPasses(v: string, base: nat, url: string, k: nat, limit: nat, depth: nat, s: Scan)
    requires StartsWith(v, url + ")", base) && k <= |url| && base + |url| < limit <= |v|
    requires depth > 0 && Balanced(url, k, depth) && s.unlimited
    ensures FindTargetEnd(v, base + k, limit, depth, s).0 == Some(base + |url|)
    decreases |url| - k
  {
    hide StartsWith, CountRun;
    AtChar(v, base, url + ")", k);
    if k < |url| {
      var deeper := if url[k] == '(' then depth + 1 else if url[k] == ')' then depth - 1 else depth;
      TargetPasses(v, base, url, k + 1, limit, deeper, Pay(s));
    }
  }

  lemma LinkIsFound(v: string, i: nat, url: string, cs: seq<Node>, s: Scan) returns (t: Scan)
    requires IsWeb(url) && StartsWith(v, Print(Link(url, cs)), i) && s.unlimited
    requires InLabel(cs, "]") && |PrintAll(cs)| < MAX_LINK_LABEL && |url| < MAX_LINK_TARGET && Balanced(url, 0, 1)
    ensures var labelEnd := i + 1 + |PrintAll(cs)|;
            && i < |v| && FindLinkEnd(v, i, s) == (Some(LinkSpan(labelEnd, labelEnd + 3 + |url|)), t)
    ensures t.unlimited && t.links == s.links
  {
    hide StartsWith, PrintAll, IsWeb, LabelEnd, FindTargetEnd, InLabel, Balanced, CountRun, FindInlineCodeEnd;
    var n := |PrintAll(cs)|;
    var close := i + 1 + n;
    LinkParts(v, i, url, cs);
    LinkTail(v, i, url, cs);
    var limit := Min(|v|, i + 1 + MAX_LINK_LABEL);
    LabelPassesAll(v, i + 1, limit, cs, "]");
    AtChar(v, close, "](", 0);
    AtChar(v, close, "](", 1);
    LabelTurn(v, close, limit);
    LabelSpec(v, i + 1, limit, s);
    var s1 := FindLabelEnd(v, i + 1, limit, s).1;
    var limit2 := Min(|v|, close + 2 + MAX_LINK_TARGET);
    TargetPasses(v, close + 2, url, 0, limit2, 1, s1);
    ScannerProperties.TargetSpends(v, close + 2, limit2, 1, s1);
    t := FindTargetEnd(v, close + 2, limit2, 1, s1).1;
  }

  lemma LinkTail(v: string, i: nat, url: string, cs: seq<Node>)
    requires IsWeb(url) && StartsWith(v, Print(Link(url, cs)), i)
    ensures StartsWith(v, url + ")", i + 3 + |PrintAll(cs)|) && i + |PrintAll(cs)| + |url| + 4 <= |v|
  {
    hide PrintAll, IsWeb;
    var before := "[" + PrintAll(cs) + "](";
    assert Print(Link(url, cs)) == before + (url + ")");
    At(v, i, before, url + ")");
  }

  lemma LabelSpec(v: string, i: nat, limit: nat, s: Scan)
    requires limit <= |v| && s.unlimited
    ensures var (r, t) := FindLabelEnd(v, i, limit, s); r == LabelEnd(v, i, limit) && t.unlimited && t.links == s.links
  {
    LabelEndIgnoresScan(v, i, limit, s, UNLIMITED);
    ScannerProperties.LabelSpends(v, i, limit, s);
  }

  // ----- trees -----

  /** What scanning a printed list of nodes does to the scan state. */
  predicate Collects(s: Scan, targets: seq<string>, t: Scan) {
    t.unlimited == s.unlimited && t.links == s.links + targets && (targets == [] ==> t == s)
  }

  predicate CanCollect(s: Scan, targets: seq<string>) {
    s.unlimited || targets == []
  }

  lemma {:induction false} YieldsNode(v: string, i: nat, n: Node, after: string, afterStar: bool, s: Scan)
    returns (t: Scan)
    requires StartsWith(v, Print(n) + after, i) && (after == "" ==> i + |Print(n)| == |v|)
    requires FitsNode(n, after, afterStar) && (afterStar <==> i > 0 && v[i - 1] == '*') && CanCollect(s, Targets(n))
    ensures Yields(v, i, s, Shown(n), i + |Print(n)|, t) && Collects(s, Targets(n), t)
    decreases n, 0
  {
    hide PlainFrom, Yields, StartsWith, FindMarkEnd, Escape, PrintText, StripHighlights, HasHighlight, Fence;
    At(v, i, Print(n), after);
    t := s;
    if Escaped(n).Some? {
      EscapedPrints(n);
      YieldsEscape(v, i, Escaped(n).value, s);
    } else {
      match n
      case Text(x) => YieldsText(v, i, x, 0, s);
      case Break =>
        assert EscapeChar('\n') == "\n";
        YieldsChar(v, i, '\n', s);
      case InlineCode(x) => YieldsCode(v, i, x, after, s);
      case Strong(cs) => t := YieldsStrong(v, i, cs, s);
      case Emphasis(cs) => t := YieldsEmphasis(v, i, cs, s);
      case Link(url, cs) => t := YieldsLink(v, i, url, cs, s);
    }
  }

  lemma YieldsCode(v: string, i: nat, x: string, after: string, s: Scan)
    requires CodeSafe(x) && !Opens(after, '`') && StartsWith(v, Print(InlineCode(x)) + after, i)
    requires after == "" ==> i + |Print(InlineCode(x))| == |v|
    ensures Yields(v, i, s, x, i + |Print(InlineCode(x))|, s)
  {
    hide PlainFrom, Yields, StartsWith, Fence, FindInlineCodeEnd, CountRun;
    var p := Print(InlineCode(x));
    At(v, i, p, after);
    if after != "" {
      AtChar(v, i + |p|, after, 0);
    }
    CodeIsFound(v, i, x);
    TokenYields(v, i, s);
  }

  lemma {:induction false} YieldsInner(ns: seq<Node>, s: Scan) returns (t: Scan)
    requires Fits(ns, "", false) && CanCollect(s, TargetsAll(ns))
    ensures PlainFrom(PrintAll(ns), 0, s) == (ShownAll(ns), t) && Collects(s, TargetsAll(ns), t)
    decreases ns, 2
  {
    hide Yields, Fits, PrintAll;
    var v := PrintAll(ns);
    assert v + "" == v;
    Whole(v);
    t := YieldsAll(v, 0, ns, "", false, s);
    YieldsWhole(v, s, ShownAll(ns), t);
  }

  lemma {:induction false} YieldsStrong(v: string, i: nat, cs: seq<Node>, s: Scan) returns (t: Scan)
    requires StartsWith(v, Print(Strong(cs)), i) && Inside(cs, "**", "**") && Fits(cs, "", false)
    requires CanCollect(s, TargetsAll(cs))
    ensures Yields(v, i, s, ShownAll(cs), i + |Print(Strong(cs))|, t) && Collects(s, TargetsAll(cs), t)
    decreases cs, 3
  {
    hide PlainFrom, Yields, StartsWith, FindMarkEnd, Inside, Fits, PrintAll;
    var inner := PrintAll(cs);
    t := YieldsInner(cs, s);
    assert "**" + inner + "**" == "**" + (inner + "**");
    At(v, i, "**", inner + "**");
    MarkPassesAll(v, "**", i + 2, cs, "**");
    YieldsDouble(v, i, inner, s, ShownAll(cs), t);
  }

  /** A lone star that opens emphasis. */
  lemma SingleOpens(v: string, i: nat)
    requires i + 1 < |v| && v[i] == '*' && v[i + 1] != '*' && !(i > 0 && v[i - 1] == '*')
    ensures Delimiter(v, i) == "*"
  {
    if StartsWith(v, "**", i) {
      AtChar(v, i, "**", 1);
    }
    if StartsWith(v, "==", i) {
      AtChar(v, i, "==", 0);
    }
  }

  lemma {:induction false} YieldsEmphasis(v: string, i: nat, cs: seq<Node>, s: Scan) returns (t: Scan)
    requires StartsWith(v, Print(Emphasis(cs)), i) && !(i > 0 && v[i - 1] == '*')
    requires PrintAll(cs) != "" && Inside(cs, "*", "*") && Fits(cs, "", false) && CanCollect(s, TargetsAll(cs))
    ensures Yields(v, i, s, ShownAll(cs), i + |Print(Emphasis(cs))|, t) && Collects(s, TargetsAll(cs), t)
    decreases cs, 3
  {
    hide PlainFrom, Yields, StartsWith, FindMarkEnd, Inside, Fits, PrintAll, Delimiter;
    var inner := PrintAll(cs);
    t := YieldsInner(cs, s);
    assert "*" + inner + "*" == "*" + (inner + "*");
    At(v, i, "*", inner + "*");
    At(v, i + 1, inner, "*");
    AtChar(v, i, "*", 0);
    AtChar(v, i + 1, inner, 0);
    SliceAt(v, i + 1, inner);
    StarlessStart(cs, "*");
    SingleOpens(v, i);
    MarkPassesAll(v, "*", i + 1, cs, "*");
    MarkEndHere(v, "*", i + 1 + |inner|);
    YieldsMarked(v, i, "*", i + 1 + |inner|, s, ShownAll(cs), t);
  }

  lemma {:induction false} YieldsLink(v: string, i: nat, url: string, cs: seq<Node>, s: Scan) returns (t: Scan)
    requires IsWeb(url) && StartsWith(v, Print(Link(url, cs)), i) && s.unlimited
    requires InLabel(cs, "]") && |PrintAll(cs)| < MAX_LINK_LABEL && |url| < MAX_LINK_TARGET && Balanced(url, 0, 1)
    requires Fits(cs, "", false)
    ensures Yields(v, i, s, ShownAll(cs), i + |Print(Link(url, cs))|, t)
    ensures Collects(s, [url] + TargetsAll(cs), t)
    decreases cs, 3
  {
    hide PlainFrom, Yields, StartsWith, Fits, PrintAll, FindLinkEnd, InLabel, Balanced, IsWeb;
    var n := |PrintAll(cs)|;
    var s1 := LinkIsFound(v, i, url, cs, s);
    LinkParts(v, i, url, cs);
    SliceAt(v, i + 1, PrintAll(cs));
    SliceAt(v, i + 3 + n, url);
    AtChar(v, i, "[", 0);
    var s2 := s1.(links := s1.links + [url]);
    t := YieldsInner(cs, s2);
    TokenYields(v, i, s);
    assert t.links == s.links + ([url] + TargetsAll(cs));
  }

  lemma {:induction false} YieldsAll(v: string, i: nat, ns: seq<Node>, after: string, afterStar: bool, s: Scan)
    returns (t: Scan)
    requires StartsWith(v, PrintAll(ns) + after, i) && (after == "" ==> i + |PrintAll(ns)| == |v|)
    requires Fits(ns, after, afterStar) && (afterStar <==> i > 0 && v[i - 1] == '*') && CanCollect(s, TargetsAll(ns))
    ensures Yields(v, i, s, ShownAll(ns), i + |PrintAll(ns)|, t) && Collects(s, TargetsAll(ns), t)
    decreases ns, 1
  {
    hide PlainFrom, Yields, StartsWith, FitsNode, Print, Shown, Targets;
    if ns == [] {
      t := s;
      YieldsNothing(v, i, s);
    } else {
      var p, rest := Print(ns[0]), PrintAll(ns[1..]);
      var j := i + |p|;
      assert PrintAll(ns) + after == p + (rest + after);
      At(v, i, p, rest + after);
      var t1 := YieldsNode(v, i, ns[0], rest + after, afterStar, s);
      if p != "" {
        AtChar(v, i, p, |p| - 1);
      }
      t := YieldsAll(v, j, ns[1..], after, EndsInStar(p, afterStar), t1);
      YieldsThen(v, i, s, Shown(ns[0]), j, t1, ShownAll(ns[1..]), j + |rest|, t);
      assert t1.links + TargetsAll(ns[1..]) == s.links + TargetsAll(ns);
    }
  }

  // ----- main results -----

  /** A tree whose marks do not collide reads back as what it shows, at any nesting of
      strong text, emphasis, code, highlights and links, and every link target is
      collected once, in reading order. */
  lemma PrintThenScan(ns: seq<Node>)
    requires Fits(ns, "", false)
    ensures var (text, scan) := PlainFrom(PrintAll(ns), 0, UNLIMITED);
            text == ShownAll(ns) && scan.links == TargetsAll(ns)
  {
    hide PlainFrom, Fits;
    var t := YieldsInner(ns, UNLIMITED);
    assert [] + TargetsAll(ns) == TargetsAll(ns);
  }

  /** The same for the scanner as it runs, with its budget: unless it reports that the
      budget was exceeded, and always when the tree holds no link. */
  lemma PrintThenScanOnBudget(ns: seq<Node>)
    requires Fits(ns, "", false)
    ensures var (text, scan) := PlainFrom(PrintAll(ns), 0, FRESH);
            && (!scan.exceeded ==> text == ShownAll(ns) && scan.links == TargetsAll(ns))
            && (TargetsAll(ns) == [] ==> text == ShownAll(ns) && scan == FRESH)
  {
    hide PlainFrom, Fits;
    PrintThenScan(ns);
    ScannerProperties.BudgetOnlyMattersWhenExceeded(PrintAll(ns));
    if TargetsAll(ns) == [] {
      var t := YieldsInner(ns, FRESH);
    }
  }

  /** No highlight markers and no line breaks anywhere. */
  predicate Literal(ns: seq<Node>) {
    ns == [] || (LiteralNode(ns[0]) && Literal(ns[1..]))
  }

  predicate LiteralNode(n: Node) {
    match n
    case Text(s) => !HasHighlight(s)
    case Break => false
    case Strong(cs) => Literal(cs)
    case Emphasis(cs) => Literal(cs)
    case Link(_, cs) => Literal(cs)
    case _ => true
  }

  /** Then what a tree shows is its `textOf`. */
  lemma {:induction false} ShownIsTextOf(ns: seq<Node>)
    requires Literal(ns)
    ensures ShownAll(ns) == TextOfAll(ns)
  {
    if ns != [] {
      ShownIsTextOf(ns[1..]);
      match ns[0]
      case Text(s) => PrintTextPlain(s, 0);
      case Strong(cs) => ShownIsTextOf(cs);
      case Emphasis(cs) => ShownIsTextOf(cs);
      case Link(_, cs) => ShownIsTextOf(cs);
      case _ =>
    }
  }
}
