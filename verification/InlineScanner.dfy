/** The inline scanner of the lesson-block package: Markdown-subset text to plain text,
    collecting link targets under a budget.  Functions state what is scanned; the
    methods at the end are the scanning loops themselves. */
module InlineScanner {
  import opened Options

  const MAX_LINK_LABEL := 500
  const MAX_LINK_TARGET := 2000
  const LINK_SCAN_BUDGET := 50_000

  const ESCAPABLE: set<char> :=
    {'\\', '`', '*', '{', '}', '[', ']', '(', ')', '#', '+', '-', '.', '!', '_', '>', '='}

  predicate IsEscapable(c: char) {
    c in ESCAPABLE
  }

  /** The scan state threaded through one field.  `unlimited` marks the reference
      scanner that has no budget; `steps` counts completed link-scan iterations. */
  datatype Scan = Scan(unlimited: bool, links: seq<string>, budget: int, exceeded: bool, steps: nat)

  const FRESH := Scan(false, [], LINK_SCAN_BUDGET, false, 0)
  const UNLIMITED := Scan(true, [], LINK_SCAN_BUDGET, false, 0)

  /** One iteration of a link scan: pay for it, or run out. */
  function Pay(scan: Scan): Scan {
    if scan.unlimited then scan.(steps := scan.steps + 1)
    else if scan.budget - 1 < 0 then scan.(budget := scan.budget - 1, exceeded := true)
    else scan.(budget := scan.budget - 1, steps := scan.steps + 1)
  }

  predicate CanPay(scan: Scan) {
    scan.unlimited || scan.budget - 1 >= 0
  }

  function Min(a: nat, b: nat): nat {
    if a < b then a else b
  }

  function Repeat(c: char, n: nat): string {
    seq(n, _ => c)
  }

  predicate StartsWith(v: string, w: string, i: nat) {
    i + |w| <= |v| && v[i..i + |w|] == w
  }

  function CountRun(v: string, start: nat, c: char): (n: nat)
    ensures start <= |v| ==> start + n <= |v|
    ensures start < |v| && v[start] == c ==> n > 0
    decreases |v| - start
  {
    if start < |v| && v[start] == c then 1 + CountRun(v, start + 1, c) else 0
  }

  function FindInlineCodeEnd(v: string, start: nat, length: nat): (r: Option<nat>)
    ensures r.Some? ==> start <= r.value < |v| && CountRun(v, r.value, '`') == length
    decreases |v| - start
  {
    if start >= |v| then None
    else if v[start] == '`' then
      var run := CountRun(v, start, '`');
      if run == length then Some(start) else FindInlineCodeEnd(v, start + run, length)
    else FindInlineCodeEnd(v, start + 1, length)
  }

  /** Past a run of backslashes and, when it is odd, the character it escapes. */
  function SkipEscape(v: string, i: nat): (next: nat)
    requires i < |v| && v[i] == '\\'
    ensures next > i
  {
    var run := CountRun(v, i, '\\');
    i + run + run % 2
  }

  /** Past a code span, or past its fence when the span is never closed. */
  function SkipCode(v: string, i: nat): (next: nat)
    requires i < |v| && v[i] == '`'
    ensures i < next <= |v|
  {
    var run := CountRun(v, i, '`');
    match FindInlineCodeEnd(v, i + run, run)
    case None => i + run
    case Some(end) => end + run
  }

  datatype LinkSpan = LinkSpan(labelEnd: nat, end: nat)

  function FindLabelEnd(v: string, i: nat, limit: nat, scan: Scan): (r: (Option<nat>, Scan))
    requires limit <= |v|
    ensures r.0.Some? ==> i <= r.0.value < limit && v[r.0.value] == ']'
    decreases |v| - i
  {
    if i >= limit then (None, scan)
    else if !CanPay(scan) then (None, Pay(scan))
    else if v[i] == '\\' then FindLabelEnd(v, SkipEscape(v, i), limit, Pay(scan))
    else if v[i] == '`' then FindLabelEnd(v, SkipCode(v, i), limit, Pay(scan))
    else if v[i] == ']' then (Some(i), Pay(scan))
    else FindLabelEnd(v, i + 1, limit, Pay(scan))
  }

  function FindTargetEnd(v: string, i: nat, limit: nat, depth: nat, scan: Scan): (r: (Option<nat>, Scan))
    requires limit <= |v| && depth > 0
    ensures r.0.Some? ==> i <= r.0.value < limit && v[r.0.value] == ')'
    decreases |v| - i
  {
    if i >= limit then (None, scan)
    else if !CanPay(scan) then (None, Pay(scan))
    else if v[i] == '\\' then FindTargetEnd(v, SkipEscape(v, i), limit, depth, Pay(scan))
    else if v[i] == ')' && depth == 1 then (Some(i), Pay(scan))
    else
      var deeper := if v[i] == '(' then depth + 1 else if v[i] == ')' then depth - 1 else depth;
      FindTargetEnd(v, i + 1, limit, deeper, Pay(scan))
  }

  function FindLinkEnd(v: string, start: nat, scan: Scan): (r: (Option<LinkSpan>, Scan))
    requires start < |v|
    ensures r.0.Some? ==> start < r.0.value.labelEnd && r.0.value.labelEnd + 2 < r.0.value.end <= |v|
  {
    var (bracket, scan1) := FindLabelEnd(v, start + 1, Min(|v|, start + 1 + MAX_LINK_LABEL), scan);
    match bracket
    case None => (None, scan1)
    case Some(labelEnd) =>
      if labelEnd + 1 >= |v| || v[labelEnd + 1] != '(' then (None, scan1)
      else
        var (paren, scan2) :=
          FindTargetEnd(v, labelEnd + 2, Min(|v|, labelEnd + 2 + MAX_LINK_TARGET), 1, scan1);
        match paren
        case None => (None, scan2)
        case Some(close) => (Some(LinkSpan(labelEnd, close + 1)), scan2)
  }

  function FindMarkEnd(v: string, delimiter: string, start: nat): (r: Option<nat>)
    requires delimiter != ""
    ensures r.Some? ==> start <= r.value && StartsWith(v, delimiter, r.value)
    decreases |v| - start
  {
    if start >= |v| then None
    else if v[start] == '\\' then FindMarkEnd(v, delimiter, SkipEscape(v, start))
    else if v[start] == '`' then FindMarkEnd(v, delimiter, SkipCode(v, start))
    else if StartsWith(v, delimiter, start) then Some(start)
    else FindMarkEnd(v, delimiter, start + 1)
  }

  /** The mark opened at `i`, or the empty string. */
  function Delimiter(v: string, i: nat): (d: string)
    requires i < |v|
    ensures d != "" ==> StartsWith(v, d, i)
  {
    if StartsWith(v, "**", i) then "**"
    else if StartsWith(v, "==", i) then "=="
    else if v[i] == '*' && (i + 1 >= |v| || v[i + 1] != '*') && (i == 0 || v[i - 1] != '*') then "*"
    else ""
  }

  /** What one turn of the main loop appends, and where it goes on. */
  datatype Token = Token(text: string, next: nat, scan: Scan)

  function EscapeToken(v: string, i: nat, scan: Scan): (t: Token)
    requires i < |v| && v[i] == '\\'
    ensures i < t.next <= |v|
  {
    var run := CountRun(v, i, '\\');
    var half := Repeat('\\', run / 2);
    var after := i + run;
    if run % 2 == 0 then Token(half, after, scan)
    else if after < |v| && IsEscapable(v[after]) then Token(half + [v[after]], after + 1, scan)
    else Token(half + "\\", after, scan)
  }

  function CodeToken(v: string, i: nat, scan: Scan): (t: Token)
    requires i < |v| && v[i] == '`'
    ensures i < t.next <= |v|
  {
    var run := CountRun(v, i, '`');
    match FindInlineCodeEnd(v, i + run, run)
    case Some(end) => Token(v[i + run..end], end + run, scan)
    case None => Token(Repeat('`', run), i + run, scan)
  }

  function NextToken(v: string, i: nat, scan: Scan): (t: Token)
    requires i < |v|
    ensures i < t.next <= |v|
    decreases |v|, |v| - i, 0
  {
    if v[i] == '\\' then EscapeToken(v, i, scan)
    else if v[i] == '`' then CodeToken(v, i, scan)
    else if v[i] == '[' then
      var (link, scan1) := FindLinkEnd(v, i, scan);
      match link
      case Some(LinkSpan(labelEnd, end)) =>
        var scan2 := scan1.(links := scan1.links + [v[labelEnd + 2..end - 1]]);
        var (inner, scan3) := PlainFrom(v[i + 1..labelEnd], 0, scan2);
        Token(inner, end, scan3)
      case None => Token([v[i]], i + 1, scan1)
    else
      var d := Delimiter(v, i);
      if d == "" then Token([v[i]], i + 1, scan)
      else
        match FindMarkEnd(v, d, i + |d|)
        case Some(end) =>
          var (inner, scan1) := PlainFrom(v[i + |d|..end], 0, scan);
          Token(inner, end + |d|, scan1)
        case None => Token([v[i]], i + 1, scan)
  }

  /** The plain text of `v` from `i` on, and the scan state afterwards. */
  function PlainFrom(v: string, i: nat, scan: Scan): (string, Scan)
    decreases |v|, |v| - i, 1
  {
    if i >= |v| then ("", scan)
    else
      var t := NextToken(v, i, scan);
      var (rest, scan') := PlainFrom(v, t.next, t.scan);
      (t.text + rest, scan')
  }
}
