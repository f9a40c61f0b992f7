/** The scanning loops as the source runs them: an index moves over the text and the
    scan object is updated in place.  Each is proved equal to its function. */
module ScannerLoops {
  import opened Options
  import opened InlineScanner

  /** The source returns -1 for "not found". */
  function Index(r: Option<nat>): int {
    match r
    case None => -1
    case Some(i) => i
  }

  class LinkScan {
    var links: seq<string>
    var budget: int
    var exceeded: bool
    ghost var steps: nat

    constructor ()
      ensures State() == FRESH
    {
      links, budget, exceeded, steps := [], LINK_SCAN_BUDGET, false, 0;
    }

    ghost function State(): Scan
      reads this
    {
      Scan(false, links, budget, exceeded, steps)
    }

    /** One turn of a link scan; false when the budget has run out. */
    method Turn() returns (ok: bool)
      modifies this
      ensures ok == CanPay(old(State())) && State() == Pay(old(State()))
    {
      budget := budget - 1;
      if budget < 0 {
        exceeded := true;
        return false;
      }
      steps := steps + 1;
      return true;
    }
  }

  method RunLength(value: string, start: nat, c: char) returns (n: nat)
    ensures n == CountRun(value, start, c)
  {
    var end := start;
    while end < |value| && value[end] == c
      invariant start <= end && CountRun(value, start, c) == end - start + CountRun(value, end, c)
    {
      end := end + 1;
    }
    n := end - start;
  }

  method InlineCodeEnd(value: string, start: nat, length: nat) returns (r: int)
    ensures r == Index(FindInlineCodeEnd(value, start, length))
  {
    var index := start;
    while index < |value|
      invariant FindInlineCodeEnd(value, start, length) == FindInlineCodeEnd(value, index, length)
    {
      if value[index] == '`' {
        var runLength := RunLength(value, index, '`');
        if runLength == length {
          return index;
        }
        index := index + runLength;
      } else {
        index := index + 1;
      }
    }
    r := -1;
  }

  /** Past the backslashes at `index` and the character they escape. */
  method PastEscape(value: string, index: nat) returns (next: nat)
    requires index < |value| && value[index] == '\\'
    ensures next == SkipEscape(value, index)
  {
    var runLength := RunLength(value, index, '\\');
    next := index + runLength;
    if runLength % 2 == 1 {
      next := next + 1;
    }
  }

  /** Past the code span at `index`, or past its fence. */
  method PastCode(value: string, index: nat) returns (next: nat)
    requires index < |value| && value[index] == '`'
    ensures next == SkipCode(value, index)
  {
    hide CountRun, FindInlineCodeEnd;
    var runLength := RunLength(value, index, '`');
    var codeEnd := InlineCodeEnd(value, index + runLength, runLength);
    next := if codeEnd < 0 then index + runLength else codeEnd + runLength;
  }

  method MarkEnd(value: string, delimiter: string, start: nat) returns (r: int)
    requires delimiter != ""
    ensures r == Index(FindMarkEnd(value, delimiter, start))
  {
    hide SkipEscape, SkipCode;
    var index := start;
    while index < |value|
      invariant FindMarkEnd(value, delimiter, start) == FindMarkEnd(value, delimiter, index)
    {
      if value[index] == '\\' {
        index := PastEscape(value, index);
      } else if value[index] == '`' {
        index := PastCode(value, index);
      } else if index + |delimiter| <= |value| && value[index..index + |delimiter|] == delimiter {
        return index;
      } else {
        index := index + 1;
      }
    }
    r := -1;
  }

  method LinkEnd(value: string, start: nat, scan: LinkScan) returns (r: Option<LinkSpan>)
    requires start < |value|
    modifies scan
    ensures (r, scan.State()) == FindLinkEnd(value, start, old(scan.State()))
  {
    hide SkipEscape, SkipCode, Pay, CanPay;
    ghost var before := scan.State();
    var labelEnd := -1;
    var index := start + 1;
    var limit := Min(|value|, start + 1 + MAX_LINK_LABEL);
    while index < limit
      invariant FindLabelEnd(value, start + 1, limit, before) == FindLabelEnd(value, index, limit, scan.State())
      decreases limit - index
    {
      var ok := scan.Turn();
      if !ok {
        return None;
      }
      if value[index] == '\\' {
        index := PastEscape(value, index);
      } else if value[index] == '`' {
        index := PastCode(value, index);
      } else if value[index] == ']' {
        labelEnd := index;
        break;
      } else {
        index := index + 1;
      }
    }
    assert (if labelEnd < 0 then None else Some(labelEnd), scan.State()) == FindLabelEnd(value, start + 1, limit, before);
    if labelEnd < 0 || labelEnd + 1 >= |value| || value[labelEnd + 1] != '(' {
      return None;
    }
    r := TargetEnd(value, labelEnd, scan);
  }

  /** The second half of `findLinkEnd`: to the parenthesis that closes the target. */
  method TargetEnd(value: string, labelEnd: nat, scan: LinkScan) returns (r: Option<LinkSpan>)
    requires labelEnd + 1 < |value|
    modifies scan
    ensures var (paren, s) :=
              FindTargetEnd(value, labelEnd + 2, Min(|value|, labelEnd + 2 + MAX_LINK_TARGET), 1, old(scan.State()));
            && scan.State() == s
            && r == match paren case None => None case Some(close) => Some(LinkSpan(labelEnd, close + 1))
  {
    hide SkipEscape, Pay, CanPay;
    ghost var before := scan.State();
    var depth := 1;
    var index := labelEnd + 2;
    var limit := Min(|value|, labelEnd + 2 + MAX_LINK_TARGET);
    while index < limit
      invariant depth > 0
      invariant FindTargetEnd(value, labelEnd + 2, limit, 1, before)
             == FindTargetEnd(value, index, limit, depth, scan.State())
      decreases limit - index
    {
      var ok := scan.Turn();
      if !ok {
        return None;
      }
      if value[index] == '\\' {
        index := PastEscape(value, index);
      } else {
        if value[index] == '(' {
          depth := depth + 1;
        }
        if value[index] == ')' {
          depth := depth - 1;
          if depth == 0 {
            return Some(LinkSpan(labelEnd, index + 1));
          }
        }
        index := index + 1;
      }
    }
    return None;
  }

  method Plain(value: string, scan: LinkScan) returns (output: string)
    modifies scan
    ensures (output, scan.State()) == PlainFrom(value, 0, old(scan.State()))
    decreases |value|, 1
  {
    hide NextToken;
    ghost var before := scan.State();
    output := "";
    var index := 0;
    assert output + PlainFrom(value, 0, before).0 == PlainFrom(value, 0, before).0;
    while index < |value|
      invariant index <= |value|
      invariant PlainFrom(value, 0, before)
             == (output + PlainFrom(value, index, scan.State()).0, PlainFrom(value, index, scan.State()).1)
    {
      ghost var state := scan.State();
      var text, next := PlainTurn(value, index, scan);
      ghost var rest := PlainFrom(value, next, scan.State()).0;
      assert PlainFrom(value, index, state).0 == text + rest;
      assert output + (text + rest) == output + text + rest;
      output, index := output + text, next;
    }
    assert output + "" == output;
  }

  /** One turn of the main loop: what is appended to the output, and the next index. */
  method PlainTurn(value: string, index: nat, scan: LinkScan) returns (text: string, next: nat)
    requires index < |value|
    modifies scan
    ensures Token(text, next, scan.State()) == NextToken(value, index, old(scan.State()))
    decreases |value|, 0
  {
    hide PlainFrom, FindLinkEnd, FindMarkEnd, CountRun, FindInlineCodeEnd;
    var c := value[index];
    if c == '\\' {
      text, next := EscapeTurn(value, index, scan.State());
      return;
    }
    if c == '`' {
      var delimiterLength := RunLength(value, index, '`');
      var end := InlineCodeEnd(value, index + delimiterLength, delimiterLength);
      if end >= 0 {
        return value[index + delimiterLength..end], end + delimiterLength;
      }
      return Repeat('`', delimiterLength), index + delimiterLength;
    }
    if c == '[' {
      var link := LinkEnd(value, index, scan);
      if link.Some? {
        var LinkSpan(labelEnd, end) := link.value;
        scan.links := scan.links + [value[labelEnd + 2..end - 1]];
        text := Plain(value[index + 1..labelEnd], scan);
        return text, end;
      }
      return [c], index + 1;
    }
    var delimiter := Delimiter(value, index);
    if delimiter != "" {
      var end := MarkEnd(value, delimiter, index + |delimiter|);
      if end >= 0 {
        text := Plain(value[index + |delimiter|..end], scan);
        return text, end + |delimiter|;
      }
    }
    return [c], index + 1;
  }

  method EscapeTurn(value: string, index: nat, ghost scan: Scan) returns (text: string, next: nat)
    requires index < |value| && value[index] == '\\'
    ensures Token(text, next, scan) == EscapeToken(value, index, scan)
  {
    hide CountRun, IsEscapable;
    var runLength := RunLength(value, index, '\\');
    text := Repeat('\\', runLength / 2);
    next := index + runLength;
    if runLength % 2 == 1 {
      if next < |value| && IsEscapable(value[next]) {
        text, next := text + [value[next]], next + 1;
      } else {
        text := text + "\\";
      }
    }
  }
}
