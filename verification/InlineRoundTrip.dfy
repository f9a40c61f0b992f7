/** Printing and then scanning gives back what the reader should see, with every link
    target collected, for every tree of phrasing nodes whose marks do not collide. */
module InlineRoundTrip {
  import opened Options
  import opened InlineScanner
  import opened InlinePrinter

  // ----- positions -----

  lemma At(v: string, i: nat, a: string, b: string)
    requires StartsWith(v, a + b, i)
    ensures StartsWith(v, a, i) && StartsWith(v, b, i + |a|)
  {
    assert (a + b)[..|a|] == a && (a + b)[|a|..] == b;
    assert v[i..i + |a|] == v[i..i + |a + b|][..|a|];
    assert v[i + |a|..i + |a| + |b|] == v[i..i + |a + b|][|a|..];
  }

  lemma AtChar(v: string, i: nat, w: string, k: nat)
    requires StartsWith(v, w, i) && k < |w|
    ensures v[i + k] == w[k]
  {
    assert v[i..i + |w|][k] == w[k];
  }

  lemma RunIsOne(v: string, i: nat, c: char)
    requires i < |v| && v[i] == c && (i + 1 < |v| ==> v[i + 1] != c)
    ensures CountRun(v, i, c) == 1
  {
    assert CountRun(v, i + 1, c) == 0;
  }

  // ----- what the searches for a closing mark or bracket pass over -----

  predicate IsMark(d: string) {
    d == "*" || d == "**"
  }

  lemma PairSkip(v: string, d: string, i: nat)
    requires d != "" && i + 1 < |v| && v[i] == '\\' && v[i + 1] == '\\'
    ensures FindMarkEnd(v, d, i) == FindMarkEnd(v, d, i + 2)
  {
    hide FindInlineCodeEnd, StartsWith;
    assert CountRun(v, i, '\\') == 2 + CountRun(v, i + 2, '\\');
  }

  lemma {:induction false} MarkPassesEscape(v: string, d: string, i: nat, s: string)
    requires IsMark(d) && StartsWith(v, Escape(s), i)
    ensures FindMarkEnd(v, d, i) == FindMarkEnd(v, d, i + |Escape(s)|)
    decreases |s|
  {
    hide EscapeChar, FindMarkEnd, StartsWith;
    if s != "" {
      At(v, i, EscapeChar(s[0]), Escape(s[1..]));
      MarkPassesEscape(v, d, i + |EscapeChar(s[0])|, s[1..]);
      MarkPassesChar(v, d, i, s[0]);
    }
  }

  lemma MarkPassesChar(v: string, d: string, i: nat, c: char)
    requires IsMark(d) && StartsWith(v, EscapeChar(c), i)
    ensures FindMarkEnd(v, d, i) == FindMarkEnd(v, d, i + |EscapeChar(c)|)
  {
    hide FindInlineCodeEnd, StartsWith, CountRun;
    StartsInside(v, i, EscapeChar(c));
    AtChar(v, i, EscapeChar(c), 0);
    if c in LITERALS {
      AtChar(v, i, EscapeChar(c), 1);
      if c == '\\' {
        PairSkip(v, d, i);
      } else {
        RunIsOne(v, i, '\\');
      }
    } else {
      NotAMark(v, d, i);
    }
  }

  lemma NotAMark(v: string, d: string, i: nat)
    requires IsMark(d) && i < |v| && v[i] != '*'
    ensures !StartsWith(v, d, i)
  {
    if StartsWith(v, d, i) {
      AtChar(v, i, d, 0);
    }
  }

  function LabelEnd(v: string, i: nat, limit: nat): Option<nat>
    requires limit <= |v|
  {
    FindLabelEnd(v, i, limit, UNLIMITED).0
  }

  lemma {:induction false} LabelEndIgnoresScan(v: string, i: nat, limit: nat, s: Scan, t: Scan)
    requires limit <= |v| && s.unlimited && t.unlimited
    ensures FindLabelEnd(v, i, limit, s).0 == FindLabelEnd(v, i, limit, t).0
    decreases |v| - i
  {
    if i < limit {
      if v[i] == '\\' {
        LabelEndIgnoresScan(v, SkipEscape(v, i), limit, Pay(s), Pay(t));
      } else if v[i] == '`' {
        LabelEndIgnoresScan(v, SkipCode(v, i), limit, Pay(s), Pay(t));
      } else if v[i] != ']' {
        LabelEndIgnoresScan(v, i + 1, limit, Pay(s), Pay(t));
      }
    }
  }

  /** One turn of the label search, without the bookkeeping. */
  lemma LabelTurn(v: string, i: nat, limit: nat)
    requires i < limit <= |v|
    ensures LabelEnd(v, i, limit)
         == if v[i] == '\\' then LabelEnd(v, SkipEscape(v, i), limit)
            else if v[i] == '`' then LabelEnd(v, SkipCode(v, i), limit)
            else if v[i] == ']' then Some(i)
            else LabelEnd(v, i + 1, limit)
  {
    hide CountRun, FindInlineCodeEnd;
    if v[i] == '\\' {
      LabelEndIgnoresScan(v, SkipEscape(v, i), limit, UNLIMITED, Pay(UNLIMITED));
    } else if v[i] == '`' {
      LabelEndIgnoresScan(v, SkipCode(v, i), limit, UNLIMITED, Pay(UNLIMITED));
    } else {
      LabelEndIgnoresScan(v, i + 1, limit, UNLIMITED, Pay(UNLIMITED));
    }
  }

  lemma LabelPairSkip(v: string, i: nat, limit: nat)
    requires i + 1 < limit <= |v| && v[i] == '\\' && v[i + 1] == '\\'
    ensures LabelEnd(v, i, limit) == LabelEnd(v, i + 2, limit)
  {
    hide LabelEnd;
    LabelTurn(v, i, limit);
    assert CountRun(v, i, '\\') == 2 + CountRun(v, i + 2, '\\');
    if CountRun(v, i + 2, '\\') > 0 {
      if i + 2 < limit {
        LabelTurn(v, i + 2, limit);
      } else {
        LabelPast(v, i + 2, limit);
        LabelPast(v, SkipEscape(v, i), limit);
      }
    }
  }

  lemma LabelPast(v: string, i: nat, limit: nat)
    requires limit <= |v| && limit <= i
    ensures LabelEnd(v, i, limit) == None
  {
  }

  lemma LabelPassesChar(v: string, i: nat, limit: nat, c: char)
    requires StartsWith(v, EscapeChar(c), i) && i + |EscapeChar(c)| <= limit <= |v|
    ensures LabelEnd(v, i, limit) == LabelEnd(v, i + |EscapeChar(c)|, limit)
  {
    hide LabelEnd, FindInlineCodeEnd;
    LabelTurn(v, i, limit);
    AtChar(v, i, EscapeChar(c), 0);
    if c in LITERALS {
      AtChar(v, i, EscapeChar(c), 1);
      if c == '\\' {
        LabelPairSkip(v, i, limit);
      } else {
        RunIsOne(v, i, '\\');
      }
    }
  }

  lemma {:induction false} LabelPassesEscape(v: string, i: nat, limit: nat, s: string)
    requires StartsWith(v, Escape(s), i) && i + |Escape(s)| <= limit <= |v|
    ensures LabelEnd(v, i, limit) == LabelEnd(v, i + |Escape(s)|, limit)
    decreases |s|
  {
    hide LabelEnd;
    if s != "" {
      At(v, i, EscapeChar(s[0]), Escape(s[1..]));
      LabelPassesChar(v, i, limit, s[0]);
      LabelPassesEscape(v, i + |EscapeChar(s[0])|, limit, s[1..]);
    }
  }

  /** Text with highlights: each of them reads as two stars around escaped text. */
  lemma {:induction false} LabelPassesText(v: string, i: nat, limit: nat, s: string, k: nat)
    requires StartsWith(v, PrintText(s, k), i) && i + |PrintText(s, k)| <= limit <= |v|
    ensures LabelEnd(v, i, limit) == LabelEnd(v, i + |PrintText(s, k)|, limit)
    decreases |s| - k
  {
    hide LabelEnd, HighlightEnd, Escape;
    if k < |s| {
      match HighlightEnd(s, k)
      case Some(end) =>
        var inner := Escape(s[k + 2..end]);
        var rest := PrintText(s, end + 2);
        assert PrintText(s, k) == "**" + (inner + ("**" + rest));
        At(v, i, "**", inner + ("**" + rest));
        At(v, i + 2, inner, "**" + rest);
        At(v, i + 2 + |inner|, "**", rest);
        LabelPassesStars(v, i, limit);
        LabelPassesEscape(v, i + 2, limit, s[k + 2..end]);
        LabelPassesStars(v, i + 2 + |inner|, limit);
        LabelPassesText(v, i + 4 + |inner|, limit, s, end + 2);
      case None =>
        At(v, i, EscapeChar(s[k]), PrintText(s, k + 1));
        LabelPassesChar(v, i, limit, s[k]);
        LabelPassesText(v, i + |EscapeChar(s[k])|, limit, s, k + 1);
    }
  }

  lemma LabelPassesStars(v: string, i: nat, limit: nat)
    requires StartsWith(v, "**", i) && i + 2 <= limit <= |v|
    ensures LabelEnd(v, i, limit) == LabelEnd(v, i + 2, limit)
  {
    hide LabelEnd;
    AtChar(v, i, "**", 0);
    AtChar(v, i, "**", 1);
    LabelTurn(v, i, limit);
    LabelTurn(v, i + 1, limit);
  }

  // ----- code spans -----

  lemma {:induction false} RepeatedRun(v: string, i: nat, c: char, n: nat)
    requires StartsWith(v, Repeat(c, n), i) && (i + n < |v| ==> v[i + n] != c)
    ensures CountRun(v, i, c) == n
    decreases n
  {
    if n > 0 {
      AtChar(v, i, Repeat(c, n), 0);
      assert Repeat(c, n) == [c] + Repeat(c, n - 1);
      At(v, i, [c], Repeat(c, n - 1));
      RepeatedRun(v, i + 1, c, n - 1);
    }
  }

  lemma {:induction false} RunWithin(v: string, base: nat, s: string, k: nat, c: char)
    requires StartsWith(v, s, base) && k < |s| && s[|s| - 1] != c
    ensures CountRun(v, base + k, c) == CountRun(s, k, c) && k + CountRun(s, k, c) < |s|
    decreases |s| - k
  {
    AtChar(v, base, s, k);
    if s[k] == c {
      RunWithin(v, base, s, k + 1, c);
    }
  }

  /** No run inside the code is as long as the fence. */
  lemma {:induction false} CodeEndPasses(v: string, base: nat, s: string, k: nat, n: nat)
    requires StartsWith(v, s, base) && k <= |s| && CodeSafe(s) && LongestRun(s, k) < n
    ensures FindInlineCodeEnd(v, base + k, n) == FindInlineCodeEnd(v, base + |s|, n)
    decreases |s| - k
  {
    if k < |s| {
      AtChar(v, base, s, k);
      RunWithin(v, base, s, k, '`');
      if s[k] == '`' {
        CodeEndPasses(v, base, s, k + CountRun(s, k, '`'), n);
      } else {
        CodeEndPasses(v, base, s, k + 1, n);
      }
    }
  }

  /** Where the parts of a printed code span lie. */
  lemma CodeParts(v: string, i: nat, s: string)
    requires CodeSafe(s) && StartsWith(v, Fence(s) + s + Fence(s), i)
    ensures var n := |Fence(s)|;
            && n == LongestRun(s, 0) + 1
            && StartsWith(v, Fence(s), i) && StartsWith(v, s, i + n) && StartsWith(v, Fence(s), i + n + |s|)
            && v[i] == '`' && v[i + n] != '`' && v[i + n + |s|] == '`'
  {
    hide LongestRun;
    var n := |Fence(s)|;
    assert Fence(s) + s + Fence(s) == Fence(s) + (s + Fence(s));
    At(v, i, Fence(s), s + Fence(s));
    At(v, i + n, s, Fence(s));
    AtChar(v, i, Fence(s), 0);
    AtChar(v, i + n, s, 0);
    AtChar(v, i + n + |s|, Fence(s), 0);
  }

  /** A printed code span is found again, whatever else surrounds it. */
  lemma CodeIsFound(v: string, i: nat, s: string)
    requires CodeSafe(s) && StartsWith(v, Fence(s) + s + Fence(s), i)
    requires var j := i + |Fence(s) + s + Fence(s)|; j < |v| ==> v[j] != '`'
    ensures var n := |Fence(s)|;
            && i < |v| && v[i] == '`' && CountRun(v, i, '`') == n
            && FindInlineCodeEnd(v, i + n, n) == Some(i + n + |s|)
            && v[i + n..i + n + |s|] == s
  {
    hide LongestRun, FindInlineCodeEnd, CountRun, Repeat;
    var n := |Fence(s)|;
    CodeParts(v, i, s);
    RepeatedRun(v, i, '`', n);
    RepeatedRun(v, i + n + |s|, '`', n);
    CodeEndPasses(v, i + n, s, 0, n);
    CodeEndHere(v, i + n + |s|, n);
  }

  lemma CodeEndHere(v: string, i: nat, n: nat)
    requires i < |v| && v[i] == '`' && CountRun(v, i, '`') == n
    ensures FindInlineCodeEnd(v, i, n) == Some(i)
  {
  }

  // ----- what is printed -----

  lemma {:induction false} EscapeConcat(a: string, b: string)
    ensures Escape(a + b) == Escape(a) + Escape(b)
  {
    if a == "" {
      assert a + b == b;
    } else {
      assert (a + b)[1..] == a[1..] + b;
      EscapeConcat(a[1..], b);
    }
  }

  lemma {:induction false} EscapedTextsIsEscape(ns: seq<Node>)
    ensures EscapedTexts(ns) == Escape(TextOfAll(ns))
  {
    if ns != [] {
      EscapeConcat(TextOf(ns[0]), TextOfAll(ns[1..]));
      EscapedTextsIsEscape(ns[1..]);
    }
  }

  lemma {:induction false} PrintTextPlain(s: string, k: nat)
    requires k <= |s| && !HasHighlight(s)
    ensures PrintText(s, k) == Escape(s[k..]) && StripHighlights(s, k) == s[k..]
    decreases |s| - k
  {
    if k < |s| {
      PrintTextPlain(s, k + 1);
      assert s[k..][1..] == s[k + 1..];
    }
  }

  /** The escaped text of a node that prints as nothing but escaped text. */
  function Escaped(n: Node): Option<string> {
    match n
    case Text(s) => if HasHighlight(s) then None else Some(s)
    case Leaf(s) => Some(s)
    case Group(cs) => Some(TextOfAll(cs))
    case Link(url, cs) => if IsWeb(url) then None else Some(TextOfAll(cs))
    case _ => None
  }

  lemma EscapedPrints(n: Node)
    requires Escaped(n).Some?
    ensures Print(n) == Escape(Escaped(n).value) && Shown(n) == Escaped(n).value && Targets(n) == []
  {
    match n
    case Text(s) => PrintTextPlain(s, 0);
    case Link(_, cs) => EscapedTextsIsEscape(cs);
    case _ =>
  }

  lemma {:induction false} StarlessStart(ns: seq<Node>, after: string)
    requires Inside(ns, "*", after)
    ensures !Opens(PrintAll(ns), '*')
  {
    if ns != [] {
      StarlessStart(ns[1..], after);
      if Escaped(ns[0]).Some? {
        EscapedPrints(ns[0]);
      }
    }
  }

  lemma {:induction false} InsideBoth(ns: seq<Node>, after: string)
    requires Inside(ns, "*", after)
    ensures Inside(ns, "**", after)
  {
    if ns != [] {
      InsideBoth(ns[1..], after);
      if ns[0].Link? && IsWeb(ns[0].url) {
        InsideBoth(ns[0].children, "]");
      }
    }
  }

  // ----- a search for a closing mark passes over nodes -----

  lemma MarkPassesOne(v: string, d: string, i: nat)
    requires IsMark(d) && i < |v| && v[i] != '\\' && v[i] != '`' && v[i] != '*'
    ensures FindMarkEnd(v, d, i) == FindMarkEnd(v, d, i + 1)
  {
    hide StartsWith, FindInlineCodeEnd, CountRun;
    NotAMark(v, d, i);
  }

  lemma {:induction false} MarkPassesUnmarked(v: string, d: string, i: nat, w: string, k: nat)
    requires IsMark(d) && StartsWith(v, w, i) && Unmarked(w) && k <= |w|
    ensures FindMarkEnd(v, d, i + k) == FindMarkEnd(v, d, i + |w|)
    decreases |w| - k
  {
    hide FindMarkEnd, StartsWith;
    if k < |w| {
      assert i + |w| <= |v| by { StartsInside(v, i, w); }
      AtChar(v, i, w, k);
      assert w[k] in w;
      MarkPassesOne(v, d, i + k);
      MarkPassesUnmarked(v, d, i, w, k + 1);
    }
  }

  lemma StartsInside(v: string, i: nat, w: string)
    requires StartsWith(v, w, i)
    ensures i + |w| <= |v|
  {
  }

  lemma MarkPassesCode(v: string, d: string, i: nat, s: string, after: string)
    requires IsMark(d) && CodeSafe(s) && after != "" && !Opens(after, '`')
    requires StartsWith(v, Print(InlineCode(s)) + after, i)
    ensures FindMarkEnd(v, d, i) == FindMarkEnd(v, d, i + |Print(InlineCode(s))|)
  {
    hide Fence, FindInlineCodeEnd, CountRun;
    var j := i + |Print(InlineCode(s))|;
    At(v, i, Print(InlineCode(s)), after);
    AtChar(v, j, after, 0);
    CodeIsFound(v, i, s);
    assert SkipCode(v, i) == j;
  }

  /** A lone star is not the mark `**`. */
  lemma MarkPassesStar(v: string, i: nat)
    requires i + 1 < |v| && v[i] == '*' && v[i + 1] != '*'
    ensures FindMarkEnd(v, "**", i) == FindMarkEnd(v, "**", i + 1)
  {
    if StartsWith(v, "**", i) {
      AtChar(v, i, "**", 1);
    }
  }

  lemma {:induction false} MarkPassesNode(v: string, d: string, i: nat, n: Node, after: string)
    requires IsMark(d) && after != "" && InsideNode(n, d, after) && StartsWith(v, Print(n) + after, i)
    ensures FindMarkEnd(v, d, i) == FindMarkEnd(v, d, i + |Print(n)|)
    decreases n, 0
  {
    hide FindMarkEnd, Escape, StartsWith, PrintText, PrintAll, Fence, Inside;
    At(v, i, Print(n), after);
    if Escaped(n).Some? {
      EscapedPrints(n);
      MarkPassesEscape(v, d, i, Escaped(n).value);
    } else {
      match n
      case InlineCode(s) => MarkPassesCode(v, d, i, s, after);
      case Break => MarkPassesUnmarked(v, d, i, "\n", 0);
      case Emphasis(cs) => MarkPassesEmphasis(v, i, cs, after);
      case Link(url, cs) => MarkPassesLink(v, d, i, url, cs);
    }
  }

  lemma {:induction false} MarkPassesEmphasis(v: string, i: nat, cs: seq<Node>, after: string)
    requires PrintAll(cs) != "" && Inside(cs, "*", "*") && after != "" && !Opens(after, '*')
    requires StartsWith(v, Print(Emphasis(cs)) + after, i)
    ensures FindMarkEnd(v, "**", i) == FindMarkEnd(v, "**", i + |Print(Emphasis(cs))|)
    decreases cs, 2
  {
    hide FindMarkEnd, StartsWith, PrintAll, Inside;
    var inner := PrintAll(cs);
    var close := i + 1 + |inner|;
    assert Print(Emphasis(cs)) + after == "*" + (inner + "*" + after);
    At(v, i, "*", inner + "*" + after);
    At(v, i + 1, inner + "*", after);
    At(v, i + 1, inner, "*");
    AtChar(v, i, "*", 0);
    AtChar(v, i + 1, inner, 0);
    AtChar(v, close, "*", 0);
    AtChar(v, close + 1, after, 0);
    StarlessStart(cs, "*");
    InsideBoth(cs, "*");
    MarkPassesStar(v, i);
    MarkPassesAll(v, "**", i + 1, cs, "*");
    MarkPassesStar(v, close);
  }

  lemma LinkParts(v: string, i: nat, url: string, cs: seq<Node>)
    requires IsWeb(url) && StartsWith(v, Print(Link(url, cs)), i)
    ensures var inner := PrintAll(cs);
            && StartsWith(v, "[", i) && StartsWith(v, inner, i + 1) && StartsWith(v, inner + "]", i + 1)
            && StartsWith(v, "](", i + 1 + |inner|) && StartsWith(v, url, i + 3 + |inner|)
            && StartsWith(v, ")", i + 3 + |inner| + |url|)
            && |Print(Link(url, cs))| == |inner| + |url| + 4
  {
    hide StartsWith, PrintAll, IsWeb;
    var inner := PrintAll(cs);
    assert Print(Link(url, cs)) == "[" + (inner + ("](" + (url + ")")));
    At(v, i, "[", inner + ("](" + (url + ")")));
    At(v, i + 1, inner, "](" + (url + ")"));
    At(v, i + 1 + |inner|, "](", url + ")");
    At(v, i + 3 + |inner|, url, ")");
    assert inner + ("](" + (url + ")")) == (inner + "]") + ("(" + (url + ")"));
    At(v, i + 1, inner + "]", "(" + (url + ")"));
  }

  lemma {:induction false} MarkPassesLink(v: string, d: string, i: nat, url: string, cs: seq<Node>)
    requires IsMark(d) && IsWeb(url) && Inside(cs, d, "]") && Unmarked(url)
    requires StartsWith(v, Print(Link(url, cs)), i)
    ensures FindMarkEnd(v, d, i) == FindMarkEnd(v, d, i + |Print(Link(url, cs))|)
    decreases cs, 2
  {
    hide FindMarkEnd, StartsWith, PrintAll, IsWeb, Inside;
    var n := |PrintAll(cs)|;
    LinkParts(v, i, url, cs);
    MarkPassesUnmarked(v, d, i, "[", 0);
    MarkPassesAll(v, d, i + 1, cs, "]");
    MarkPassesUnmarked(v, d, i + 1 + n, "](", 0);
    MarkPassesUnmarked(v, d, i + 3 + n, url, 0);
    MarkPassesUnmarked(v, d, i + 3 + n + |url|, ")", 0);
  }

  /** Nothing printed for `ns` is taken for the closing mark `d`. */
  lemma {:induction false} MarkPassesAll(v: string, d: string, i: nat, ns: seq<Node>, after: string)
    requires IsMark(d) && after != "" && Inside(ns, d, after) && StartsWith(v, PrintAll(ns) + after, i)
    ensures FindMarkEnd(v, d, i) == FindMarkEnd(v, d, i + |PrintAll(ns)|)
    decreases ns, 1
  {
    hide FindMarkEnd, InsideNode, Print;
    if ns != [] {
      assert PrintAll(ns) + after == Print(ns[0]) + (PrintAll(ns[1..]) + after);
      At(v, i, Print(ns[0]), PrintAll(ns[1..]) + after);
      MarkPassesNode(v, d, i, ns[0], PrintAll(ns[1..]) + after);
      MarkPassesAll(v, d, i + |Print(ns[0])|, ns[1..], after);
    }
  }

  // ----- a search for the end of a label passes over nodes -----

  lemma {:induction false} LabelPassesNode(v: string, i: nat, limit: nat, n: Node, after: string)
    requires after != "" && InLabelNode(n, after) && StartsWith(v, Print(n) + after, i)
    requires i + |Print(n)| <= limit <= |v|
    ensures LabelEnd(v, i, limit) == LabelEnd(v, i + |Print(n)|, limit)
    decreases n, 0
  {
    hide LabelEnd, Escape, Fence, FindInlineCodeEnd, CountRun, StartsWith, PrintText, InLabel;
    var j := i + |Print(n)|;
    At(v, i, Print(n), after);
    if Escaped(n).Some? {
      EscapedPrints(n);
      LabelPassesEscape(v, i, limit, Escaped(n).value);
    } else {
      match n
      case Text(s) => LabelPassesText(v, i, limit, s, 0);
      case Break =>
        AtChar(v, i, "\n", 0);
        LabelTurn(v, i, limit);
      case InlineCode(s) =>
        AtChar(v, j, after, 0);
        CodeIsFound(v, i, s);
        LabelTurn(v, i, limit);
      case Strong(cs) => LabelPassesMarked(v, i, limit, "**", cs);
      case Emphasis(cs) => LabelPassesMarked(v, i, limit, "*", cs);
    }
  }

  lemma {:induction false} LabelPassesMarked(v: string, i: nat, limit: nat, d: string, cs: seq<Node>)
    requires IsMark(d) && InLabel(cs, "*") && StartsWith(v, d + PrintAll(cs) + d, i)
    requires i + |d + PrintAll(cs) + d| <= limit <= |v|
    ensures LabelEnd(v, i, limit) == LabelEnd(v, i + |d + PrintAll(cs) + d|, limit)
    decreases cs, 2
  {
    hide LabelEnd, StartsWith, PrintAll, InLabel;
    var inner := PrintAll(cs);
    assert d + inner + d == d + (inner + "*" + d[1..]);
    At(v, i, d, inner + "*" + d[1..]);
    At(v, i + |d|, inner + "*", d[1..]);
    assert inner + "*" + d[1..] == inner + d;
    At(v, i + |d|, inner, d);
    LabelPassesMark(v, i, limit, d);
    LabelPassesAll(v, i + |d|, limit, cs, "*");
    LabelPassesMark(v, i + |d| + |inner|, limit, d);
  }

  lemma LabelPassesMark(v: string, i: nat, limit: nat, d: string)
    requires IsMark(d) && StartsWith(v, d, i) && i + |d| <= limit <= |v|
    ensures LabelEnd(v, i, limit) == LabelEnd(v, i + |d|, limit)
  {
    if d == "**" {
      LabelPassesStars(v, i, limit);
    } else {
      AtChar(v, i, d, 0);
      LabelTurn(v, i, limit);
    }
  }

  lemma {:induction false} LabelPassesAll(v: string, i: nat, limit: nat, ns: seq<Node>, after: string)
    requires after != "" && InLabel(ns, after) && StartsWith(v, PrintAll(ns) + after, i)
    requires i + |PrintAll(ns)| <= limit <= |v|
    ensures LabelEnd(v, i, limit) == LabelEnd(v, i + |PrintAll(ns)|, limit)
    decreases ns, 1
  {
    hide LabelEnd, InLabelNode, Print;
    if ns != [] {
      assert PrintAll(ns) + after == Print(ns[0]) + (PrintAll(ns[1..]) + after);
      At(v, i, Print(ns[0]), PrintAll(ns[1..]) + after);
      LabelPassesNode(v, i, limit, ns[0], PrintAll(ns[1..]) + after);
      LabelPassesAll(v, i + |Print(ns[0])|, limit, ns[1..], after);
    }
  }
}
