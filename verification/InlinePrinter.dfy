/** The printer side of the scanner: phrasing nodes of a Markdown tree to the inline
    subset that `InlineScanner` reads, and what a reader should then see of them. */
module InlinePrinter {
  import opened Options
  import opened InlineScanner

  const LITERALS: set<char> := {'\\', '*', '`', '[', ']', '='}

  /** Phrasing nodes.  `Leaf` stands for html, images and footnotes, which only have a
      text; `Group` for node types with children that have no Markdown of their own. */
  datatype Node =
    | Text(value: string)
    | Strong(children: seq<Node>)
    | Emphasis(children: seq<Node>)
    | InlineCode(value: string)
    | Link(url: string, children: seq<Node>)
    | Break
    | Leaf(alt: string)
    | Group(children: seq<Node>)

  function EscapeChar(c: char): string {
    if c in LITERALS then ['\\', c] else [c]
  }

  function Escape(s: string): string {
    if s == "" then "" else EscapeChar(s[0]) + Escape(s[1..])
  }

  function TextOfAll(ns: seq<Node>): string {
    if ns == [] then "" else TextOf(ns[0]) + TextOfAll(ns[1..])
  }

  function TextOf(n: Node): string {
    match n
    case Text(s) => s
    case InlineCode(s) => s
    case Leaf(s) => s
    case Break => ""
    case Strong(cs) => TextOfAll(cs)
    case Emphasis(cs) => TextOfAll(cs)
    case Link(_, cs) => TextOfAll(cs)
    case Group(cs) => TextOfAll(cs)
  }

  // ----- highlights: the matches of ==([^=\n]+)== -----

  function MarkedRun(s: string, i: nat): (n: nat)
    ensures i <= |s| ==> i + n <= |s|
    decreases |s| - i
  {
    if i < |s| && s[i] != '=' && s[i] != '\n' then 1 + MarkedRun(s, i + 1) else 0
  }

  /** Where the closing `==` of a highlight starting at `i` stands. */
  function HighlightEnd(s: string, i: nat): (r: Option<nat>)
    ensures r.Some? ==> i + 2 < r.value && r.value + 2 <= |s|
  {
    var end := i + 2 + MarkedRun(s, i + 2);
    if StartsWith(s, "==", i) && end > i + 2 && StartsWith(s, "==", end) then Some(end) else None
  }

  predicate HasHighlight(s: string) {
    exists i | 0 <= i < |s| :: HighlightEnd(s, i).Some?
  }

  function PrintText(s: string, i: nat): string
    decreases |s| - i
  {
    if i >= |s| then ""
    else
      match HighlightEnd(s, i)
      case Some(end) => "**" + Escape(s[i + 2..end]) + "**" + PrintText(s, end + 2)
      case None => EscapeChar(s[i]) + PrintText(s, i + 1)
  }

  /** The text with the markers of its highlights removed. */
  function StripHighlights(s: string, i: nat): string
    decreases |s| - i
  {
    if i >= |s| then ""
    else
      match HighlightEnd(s, i)
      case Some(end) => s[i + 2..end] + StripHighlights(s, end + 2)
      case None => [s[i]] + StripHighlights(s, i + 1)
  }

  // ----- code fences and links -----

  function LongestRun(s: string, i: nat): nat
    decreases |s| - i
  {
    if i >= |s| then 0
    else if s[i] == '`' then
      var run := CountRun(s, i, '`');
      var rest := LongestRun(s, i + run);
      if run > rest then run else rest
    else LongestRun(s, i + 1)
  }

  function Fence(s: string): string {
    Repeat('`', LongestRun(s, 0) + 1)
  }

  function Lower(c: char): char {
    if 'A' <= c <= 'Z' then c + 'a' - 'A' else c
  }

  predicate HasScheme(url: string, scheme: string) {
    |scheme| <= |url| && forall i | 0 <= i < |scheme| :: Lower(url[i]) == scheme[i]
  }

  predicate IsWeb(url: string) {
    HasScheme(url, "http:") || HasScheme(url, "https:") || HasScheme(url, "mailto:")
  }

  // ----- the printer -----

  function EscapedTexts(ns: seq<Node>): string {
    if ns == [] then "" else Escape(TextOf(ns[0])) + EscapedTexts(ns[1..])
  }

  function PrintAll(ns: seq<Node>): string {
    if ns == [] then "" else Print(ns[0]) + PrintAll(ns[1..])
  }

  function Print(n: Node): string {
    match n
    case Text(s) => PrintText(s, 0)
    case Strong(cs) => "**" + PrintAll(cs) + "**"
    case Emphasis(cs) => "*" + PrintAll(cs) + "*"
    case InlineCode(s) => Fence(s) + s + Fence(s)
    case Link(url, cs) => if IsWeb(url) then "[" + PrintAll(cs) + "](" + url + ")" else EscapedTexts(cs)
    case Break => "\n"
    case Leaf(s) => Escape(s)
    case Group(cs) => Escape(TextOfAll(cs))
  }

  // ----- what a reader of the plain text should see -----

  function ShownAll(ns: seq<Node>): string {
    if ns == [] then "" else Shown(ns[0]) + ShownAll(ns[1..])
  }

  function Shown(n: Node): string {
    match n
    case Text(s) => StripHighlights(s, 0)
    case Strong(cs) => ShownAll(cs)
    case Emphasis(cs) => ShownAll(cs)
    case InlineCode(s) => s
    case Link(url, cs) => if IsWeb(url) then ShownAll(cs) else TextOfAll(cs)
    case Break => "\n"
    case Leaf(s) => s
    case Group(cs) => TextOfAll(cs)
  }

  function TargetsAll(ns: seq<Node>): seq<string> {
    if ns == [] then [] else Targets(ns[0]) + TargetsAll(ns[1..])
  }

  /** The link targets in reading order. */
  function Targets(n: Node): seq<string> {
    match n
    case Strong(cs) => TargetsAll(cs)
    case Emphasis(cs) => TargetsAll(cs)
    case Link(url, cs) => if IsWeb(url) then [url] + TargetsAll(cs) else []
    case _ => []
  }

  // ----- where the subset is unambiguous -----

  predicate Opens(s: string, c: char) {
    s != "" && s[0] == c
  }

  /** A code span that keeps its text: not empty, no backtick at either end. */
  predicate CodeSafe(s: string) {
    s != "" && s[0] != '`' && s[|s| - 1] != '`'
  }

  predicate Unmarked(s: string) {
    forall c <- s :: c != '\\' && c != '`' && c != '*'
  }

  /** A search for the closing mark `d` passes over `ns`, which is followed by `after`. */
  predicate Inside(ns: seq<Node>, d: string, after: string) {
    ns == [] || (InsideNode(ns[0], d, PrintAll(ns[1..]) + after) && Inside(ns[1..], d, after))
  }

  predicate InsideNode(n: Node, d: string, after: string) {
    match n
    case Text(s) => !HasHighlight(s)
    case Strong(_) => false
    case Emphasis(cs) => d == "**" && PrintAll(cs) != "" && Inside(cs, "*", "*") && !Opens(after, '*')
    case InlineCode(s) => CodeSafe(s) && !Opens(after, '`')
    case Link(url, cs) => IsWeb(url) ==> Inside(cs, d, "]") && Unmarked(url)
    case _ => true
  }

  /** A search for the end of a link label passes over `ns`. */
  predicate InLabel(ns: seq<Node>, after: string) {
    ns == [] || (InLabelNode(ns[0], PrintAll(ns[1..]) + after) && InLabel(ns[1..], after))
  }

  predicate InLabelNode(n: Node, after: string) {
    match n
    case Strong(cs) => InLabel(cs, "*")
    case Emphasis(cs) => InLabel(cs, "*")
    case InlineCode(s) => CodeSafe(s) && !Opens(after, '`')
    case Link(url, _) => !IsWeb(url)
    case _ => true
  }

  /** Parentheses balance from `depth` open ones, and nothing is escaped. */
  predicate Balanced(url: string, i: nat, depth: nat)
    decreases |url| - i
  {
    if i >= |url| then depth == 1
    else if url[i] == '\\' then false
    else if url[i] == '(' then Balanced(url, i + 1, depth + 1)
    else if url[i] == ')' then depth > 1 && Balanced(url, i + 1, depth - 1)
    else Balanced(url, i + 1, depth)
  }

  predicate EndsInStar(s: string, before: bool) {
    if s == "" then before else s[|s| - 1] == '*'
  }

  /** The printed form of `ns` reads back unambiguously.  `after` follows it, and
      `afterStar` tells whether the character before it is a star. */
  predicate Fits(ns: seq<Node>, after: string, afterStar: bool) {
    ns == []
    || (FitsNode(ns[0], PrintAll(ns[1..]) + after, afterStar)
        && Fits(ns[1..], after, EndsInStar(Print(ns[0]), afterStar)))
  }

  predicate FitsNode(n: Node, after: string, afterStar: bool) {
    match n
    case Strong(cs) => Inside(cs, "**", "**") && Fits(cs, "", false)
    case Emphasis(cs) => !afterStar && PrintAll(cs) != "" && Inside(cs, "*", "*") && Fits(cs, "", false)
    case InlineCode(s) => CodeSafe(s) && !Opens(after, '`')
    case Link(url, cs) =>
      IsWeb(url) ==>
        InLabel(cs, "]") && |PrintAll(cs)| < MAX_LINK_LABEL && |url| < MAX_LINK_TARGET
        && Balanced(url, 0, 1) && Fits(cs, "", false)
    case _ => true
  }
}
