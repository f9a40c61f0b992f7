/** What the budget does and does not change, and what the scanner can output. */
module ScannerProperties {
  import opened Options
  import opened InlineScanner

  // ----- the budget bounds the work -----

  /** A metered scan has paid for each of its steps out of the budget. */
  predicate Metered(scan: Scan) {
    && !scan.unlimited
    && scan.steps + (if scan.budget > 0 then scan.budget else 0) <= LINK_SCAN_BUDGET
    && (scan.exceeded <==> scan.budget < 0)
  }

  /** From one scan state to a later one. */
  predicate Spends(s: Scan, t: Scan) {
    && t.unlimited == s.unlimited
    && (Metered(s) ==> Metered(t) && t.budget <= s.budget)
    && (s.exceeded ==> t.exceeded)
    && s.steps <= t.steps
    && s.links <= t.links
  }

  lemma {:induction false} LabelSpends(v: string, i: nat, limit: nat, scan: Scan)
    requires limit <= |v|
    ensures var t := FindLabelEnd(v, i, limit, scan).1; Spends(scan, t) && t.links == scan.links
    decreases |v| - i
  {
    if i < limit && CanPay(scan) {
      if v[i] == '\\' {
        LabelSpends(v, SkipEscape(v, i), limit, Pay(scan));
      } else if v[i] == '`' {
        LabelSpends(v, SkipCode(v, i), limit, Pay(scan));
      } else if v[i] != ']' {
        LabelSpends(v, i + 1, limit, Pay(scan));
      }
    }
  }

  lemma {:induction false} TargetSpends(v: string, i: nat, limit: nat, depth: nat, scan: Scan)
    requires limit <= |v| && depth > 0
    ensures var t := FindTargetEnd(v, i, limit, depth, scan).1; Spends(scan, t) && t.links == scan.links
    decreases |v| - i
  {
    if i < limit && CanPay(scan) {
      if v[i] == '\\' {
        TargetSpends(v, SkipEscape(v, i), limit, depth, Pay(scan));
      } else if v[i] != ')' || depth != 1 {
        var deeper := if v[i] == '(' then depth + 1 else if v[i] == ')' then depth - 1 else depth;
        TargetSpends(v, i + 1, limit, deeper, Pay(scan));
      }
    }
  }

  lemma LinkSpends(v: string, start: nat, scan: Scan)
    requires start < |v|
    ensures var t := FindLinkEnd(v, start, scan).1; Spends(scan, t) && t.links == scan.links
  {
    var limit := Min(|v|, start + 1 + MAX_LINK_LABEL);
    LabelSpends(v, start + 1, limit, scan);
    var (bracket, scan1) := FindLabelEnd(v, start + 1, limit, scan);
    if bracket.Some? && bracket.value + 1 < |v| {
      TargetSpends(v, bracket.value + 2, Min(|v|, bracket.value + 2 + MAX_LINK_TARGET), 1, scan1);
    }
  }

  lemma {:induction false} TokenSpends(v: string, i: nat, scan: Scan)
    requires i < |v|
    ensures Spends(scan, NextToken(v, i, scan).scan)
    decreases |v|, |v| - i, 0
  {
    hide PlainFrom, FindLinkEnd, FindMarkEnd, Delimiter, CountRun, FindInlineCodeEnd;
    if v[i] == '[' {
      LinkSpends(v, i, scan);
      var (link, scan1) := FindLinkEnd(v, i, scan);
      if link.Some? {
        var l := link.value;
        PlainSpends(v[i + 1..l.labelEnd], 0, scan1.(links := scan1.links + [v[l.labelEnd + 2..l.end - 1]]));
      }
    } else if v[i] != '\\' && v[i] != '`' {
      var d := Delimiter(v, i);
      if d != "" && FindMarkEnd(v, d, i + |d|).Some? {
        PlainSpends(v[i + |d|..FindMarkEnd(v, d, i + |d|).value], 0, scan);
      }
    }
  }

  lemma {:induction false} PlainSpends(v: string, i: nat, scan: Scan)
    ensures Spends(scan, PlainFrom(v, i, scan).1)
    decreases |v|, |v| - i, 1
  {
    if i < |v| {
      TokenSpends(v, i, scan);
      var t := NextToken(v, i, scan);
      PlainSpends(v, t.next, t.scan);
    }
  }

  /** However deeply marks and links nest, one field costs at most the budget. */
  lemma LinkScanIsBounded(v: string)
    ensures PlainFrom(v, 0, FRESH).1.steps <= LINK_SCAN_BUDGET
  {
    PlainSpends(v, 0, FRESH);
  }

  // ----- the budget changes nothing unless it is exceeded -----

  /** The same scan state with and without a budget, the budget not yet overdrawn. */
  predicate Twins(m: Scan, u: Scan) {
    && !m.unlimited && u.unlimited && m.links == u.links && m.steps == u.steps
    && !m.exceeded && m.budget >= 0 && m.steps + m.budget == LINK_SCAN_BUDGET
  }

  /** Either the budget was overdrawn, and then the unbudgeted scanner took more steps
      than the budget allows, or the two scanners still agree. */
  predicate Outcome(m: Scan, u: Scan, same: bool) {
    if m.exceeded then u.steps > LINK_SCAN_BUDGET else same && Twins(m, u)
  }

  lemma {:induction false} LabelRefines(v: string, i: nat, limit: nat, m: Scan, u: Scan)
    requires limit <= |v| && Twins(m, u)
    ensures var (rm, m') := FindLabelEnd(v, i, limit, m); var (ru, u') := FindLabelEnd(v, i, limit, u);
            Outcome(m', u', rm == ru)
    decreases |v| - i
  {
    if i < limit {
      if !CanPay(m) {
        LabelSpends(v, i, limit, u);
        LabelPays(v, i, limit, u);
      } else if v[i] == '\\' {
        LabelRefines(v, SkipEscape(v, i), limit, Pay(m), Pay(u));
      } else if v[i] == '`' {
        LabelRefines(v, SkipCode(v, i), limit, Pay(m), Pay(u));
      } else if v[i] != ']' {
        LabelRefines(v, i + 1, limit, Pay(m), Pay(u));
      }
    }
  }

  /** The unbudgeted scanner always completes the iteration it has started. */
  lemma LabelPays(v: string, i: nat, limit: nat, u: Scan)
    requires i < limit <= |v| && u.unlimited
    ensures FindLabelEnd(v, i, limit, u).1.steps > u.steps
  {
    if v[i] == '\\' {
      LabelSpends(v, SkipEscape(v, i), limit, Pay(u));
    } else if v[i] == '`' {
      LabelSpends(v, SkipCode(v, i), limit, Pay(u));
    } else if v[i] != ']' {
      LabelSpends(v, i + 1, limit, Pay(u));
    }
  }

  lemma {:induction false} TargetRefines(v: string, i: nat, limit: nat, depth: nat, m: Scan, u: Scan)
    requires limit <= |v| && depth > 0 && Twins(m, u)
    ensures var (rm, m') := FindTargetEnd(v, i, limit, depth, m);
            var (ru, u') := FindTargetEnd(v, i, limit, depth, u);
            Outcome(m', u', rm == ru)
    decreases |v| - i
  {
    if i < limit {
      var deeper := if v[i] == '(' then depth + 1 else if v[i] == ')' then depth - 1 else depth;
      if !CanPay(m) {
        if v[i] == '\\' {
          TargetSpends(v, SkipEscape(v, i), limit, depth, Pay(u));
        } else if v[i] != ')' || depth != 1 {
          TargetSpends(v, i + 1, limit, deeper, Pay(u));
        }
      } else if v[i] == '\\' {
        TargetRefines(v, SkipEscape(v, i), limit, depth, Pay(m), Pay(u));
      } else if v[i] != ')' || depth != 1 {
        TargetRefines(v, i + 1, limit, deeper, Pay(m), Pay(u));
      }
    }
  }

  lemma LinkRefines(v: string, start: nat, m: Scan, u: Scan)
    requires start < |v| && Twins(m, u)
    ensures var (rm, m') := FindLinkEnd(v, start, m); var (ru, u') := FindLinkEnd(v, start, u);
            Outcome(m', u', rm == ru)
  {
    hide FindLabelEnd, FindTargetEnd;
    var limit := Min(|v|, start + 1 + MAX_LINK_LABEL);
    LabelRefines(v, start + 1, limit, m, u);
    var (bm, m1) := FindLabelEnd(v, start + 1, limit, m);
    var (bu, u1) := FindLabelEnd(v, start + 1, limit, u);
    if bm.Some? {
      TargetSpends(v, bm.value + 2, Min(|v|, bm.value + 2 + MAX_LINK_TARGET), 1, m1);
    }
    if bu.Some? {
      TargetSpends(v, bu.value + 2, Min(|v|, bu.value + 2 + MAX_LINK_TARGET), 1, u1);
    }
    if !m1.exceeded && bm.Some? {
      TargetRefines(v, bm.value + 2, Min(|v|, bm.value + 2 + MAX_LINK_TARGET), 1, m1, u1);
    }
  }

  lemma {:induction false} TokenRefines(v: string, i: nat, m: Scan, u: Scan)
    requires i < |v| && Twins(m, u)
    ensures var tm := NextToken(v, i, m); var tu := NextToken(v, i, u);
            Outcome(tm.scan, tu.scan, tm.text == tu.text && tm.next == tu.next)
    decreases |v|, |v| - i, 0
  {
    hide PlainFrom, FindLinkEnd, FindMarkEnd, Delimiter, CountRun, FindInlineCodeEnd;
    if v[i] == '[' {
      LinkRefines(v, i, m, u);
      var (lm, m1) := FindLinkEnd(v, i, m);
      var (lu, u1) := FindLinkEnd(v, i, u);
      if lm.Some? {
        var l := lm.value;
        var target := [v[l.labelEnd + 2..l.end - 1]];
        PlainSpends(v[i + 1..l.labelEnd], 0, m1.(links := m1.links + target));
        if !m1.exceeded {
          PlainRefines(v[i + 1..l.labelEnd], 0, m1.(links := m1.links + target), u1.(links := u1.links + target));
        }
      }
      if lu.Some? {
        var l := lu.value;
        PlainSpends(v[i + 1..l.labelEnd], 0, u1.(links := u1.links + [v[l.labelEnd + 2..l.end - 1]]));
      }
    } else if v[i] != '\\' && v[i] != '`' {
      var d := Delimiter(v, i);
      if d != "" && FindMarkEnd(v, d, i + |d|).Some? {
        PlainRefines(v[i + |d|..FindMarkEnd(v, d, i + |d|).value], 0, m, u);
      }
    }
  }

  lemma {:induction false} PlainRefines(v: string, i: nat, m: Scan, u: Scan)
    requires Twins(m, u)
    ensures var (om, m') := PlainFrom(v, i, m); var (ou, u') := PlainFrom(v, i, u);
            Outcome(m', u', om == ou)
    decreases |v|, |v| - i, 1
  {
    hide NextToken;
    if i < |v| {
      TokenRefines(v, i, m, u);
      var tm, tu := NextToken(v, i, m), NextToken(v, i, u);
      PlainSpends(v, tm.next, tm.scan);
      PlainSpends(v, tu.next, tu.scan);
      if !tm.scan.exceeded {
        PlainRefines(v, tm.next, tm.scan, tu.scan);
      }
    }
  }

  /** The budgeted scanner refines the unbudgeted one.  Unless it reports `exceeded`,
      its text and its link targets are those of the unbudgeted scanner; and the report
      is exact: it is made precisely when the unbudgeted scanner needs more link-scan
      steps than the budget. */
  lemma BudgetOnlyMattersWhenExceeded(v: string)
    ensures var (text, scan) := PlainFrom(v, 0, FRESH); var (text', scan') := PlainFrom(v, 0, UNLIMITED);
            && (!scan.exceeded ==> text == text' && scan.links == scan'.links)
            && (scan.exceeded <==> scan'.steps > LINK_SCAN_BUDGET)
  {
    hide PlainFrom;
    PlainRefines(v, 0, FRESH, UNLIMITED);
    PlainSpends(v, 0, FRESH);
  }

  // ----- the output is a subsequence of the input -----

  predicate IsSubsequence(a: string, b: string) {
    a == "" || (b != "" && (if a[0] == b[0] then IsSubsequence(a[1..], b[1..]) else IsSubsequence(a, b[1..])))
  }

  lemma {:induction false} SubsequenceTail(a: string, b: string)
    requires a != "" && IsSubsequence(a, b)
    ensures IsSubsequence(a[1..], b)
  {
    if a[0] == b[0] {
      if |a| > 1 {
        SubsequenceMore(a[1..], b);
      }
    } else {
      SubsequenceTail(a, b[1..]);
      SubsequenceMore(a[1..], b);
    }
  }

  lemma {:induction false} SubsequenceMore(a: string, b: string)
    requires b != "" && IsSubsequence(a, b[1..])
    ensures IsSubsequence(a, b)
  {
    if a != "" && a[0] == b[0] {
      SubsequenceTail(a, b[1..]);
    }
  }

  lemma {:induction false} SubsequenceAppend(a: string, b: string, c: string, d: string)
    requires IsSubsequence(a, b) && IsSubsequence(c, d)
    ensures IsSubsequence(a + c, b + d)
    decreases |a| + |b|
  {
    if b == "" {
      assert a + c == c && b + d == d;
    } else if a == "" {
      SubsequenceAppend(a, b[1..], c, d);
      assert (b + d)[1..] == b[1..] + d;
      SubsequenceMore(a + c, b + d);
    } else {
      assert (b + d)[1..] == b[1..] + d && (a + c)[1..] == a[1..] + c;
      if a[0] == b[0] {
        SubsequenceAppend(a[1..], b[1..], c, d);
      } else {
        SubsequenceAppend(a, b[1..], c, d);
      }
    }
  }

  lemma {:induction false} SubsequenceRefl(a: string)
    ensures IsSubsequence(a, a)
  {
    if a != "" {
      SubsequenceRefl(a[1..]);
    }
  }

  /** Dropping what lies around `inner` keeps a subsequence of it one of the whole. */
  lemma SubsequenceWithin(a: string, before: string, inner: string, after: string)
    requires IsSubsequence(a, inner)
    ensures IsSubsequence(a, before + inner + after)
  {
    assert "" + a == a && a + "" == a;
    SubsequenceAppend("", before, a, inner);
    SubsequenceAppend(a, before + inner, "", after);
  }

  lemma {:induction false} RunIsUniform(v: string, i: nat, c: char)
    requires i <= |v|
    ensures forall k :: i <= k < i + CountRun(v, i, c) ==> v[k] == c
    decreases |v| - i
  {
    if i < |v| && v[i] == c {
      RunIsUniform(v, i + 1, c);
    }
  }

  lemma LastOfRun(v: string, i: nat, c: char)
    requires i < |v| && v[i] == c
    ensures var end := i + CountRun(v, i, c); i < end <= |v| && v[end - 1] == c && [v[end - 1]] == [c]
  {
    RunIsUniform(v, i, c);
  }

  /** Any part of a run is a repetition of its character. */
  lemma RunIsRepeat(v: string, i: nat, c: char, n: nat)
    requires i <= |v| && n <= CountRun(v, i, c)
    ensures v[i..i + n] == Repeat(c, n)
  {
    RunIsUniform(v, i, c);
  }

  lemma SliceWithin(a: string, v: string, i: nat, from: nat, to: nat, next: nat)
    requires i <= from <= to <= next <= |v| && IsSubsequence(a, v[from..to])
    ensures IsSubsequence(a, v[i..next])
  {
    assert v[i..next] == v[i..from] + v[from..to] + v[to..next];
    SubsequenceWithin(a, v[i..from], v[from..to], v[to..next]);
  }

  /** An escape leaves half of its backslashes, and one more character when they are odd. */
  lemma EscapeTokenShape(v: string, i: nat, scan: Scan) returns (at: nat)
    requires i < |v| && v[i] == '\\'
    ensures var half := CountRun(v, i, '\\') / 2; var t := EscapeToken(v, i, scan);
            && i + half <= t.next
            && (t.text == v[i..i + half] || (i + half <= at < t.next && t.text == v[i..i + half] + [v[at]]))
  {
    hide CountRun, Repeat, IsEscapable;
    var run := CountRun(v, i, '\\');
    var after := i + run;
    RunIsRepeat(v, i, '\\', run / 2);
    var half := Repeat('\\', run / 2);
    at := after;
    if run % 2 == 0 {
      assert EscapeToken(v, i, scan) == Token(half, after, scan);
    } else if after < |v| && IsEscapable(v[after]) {
      assert EscapeToken(v, i, scan) == Token(half + [v[after]], after + 1, scan);
    } else {
      LastOfRun(v, i, '\\');
      at := after - 1;
      assert EscapeToken(v, i, scan) == Token(half + [v[after - 1]], after, scan);
    }
  }

  lemma HalfAndOne(v: string, i: nat, mid: nat, at: nat, next: nat)
    requires i <= mid <= at < next <= |v|
    ensures IsSubsequence(v[i..mid] + [v[at]], v[i..next])
  {
    hide IsSubsequence;
    SubsequenceRefl(v[i..mid]);
    SubsequenceRefl([v[at]]);
    assert [v[at]] == v[at..at + 1];
    SliceWithin([v[at]], v, mid, at, at + 1, next);
    SubsequenceAppend(v[i..mid], v[i..mid], [v[at]], v[mid..next]);
    assert v[i..mid] + v[mid..next] == v[i..next];
  }

  lemma EscapeTokenIsSubsequence(v: string, i: nat, scan: Scan)
    requires i < |v| && v[i] == '\\'
    ensures var t := EscapeToken(v, i, scan); IsSubsequence(t.text, v[i..t.next])
  {
    hide IsSubsequence, CountRun, EscapeToken;
    var mid := i + CountRun(v, i, '\\') / 2;
    var t := EscapeToken(v, i, scan);
    var at := EscapeTokenShape(v, i, scan);
    SubsequenceRefl(v[i..mid]);
    if t.text == v[i..mid] {
      SliceWithin(v[i..mid], v, i, i, mid, t.next);
    } else {
      HalfAndOne(v, i, mid, at, t.next);
    }
  }

  lemma CodeTokenIsSubsequence(v: string, i: nat, scan: Scan)
    requires i < |v| && v[i] == '`'
    ensures var t := CodeToken(v, i, scan); IsSubsequence(t.text, v[i..t.next])
  {
    hide IsSubsequence, CountRun, FindInlineCodeEnd, Repeat;
    var run := CountRun(v, i, '`');
    match FindInlineCodeEnd(v, i + run, run)
    case Some(end) =>
      SubsequenceRefl(v[i + run..end]);
      SliceWithin(v[i + run..end], v, i, i + run, end, end + run);
    case None =>
      RunIsRepeat(v, i, '`', run);
      SubsequenceRefl(Repeat('`', run));
  }

  lemma {:induction false} TokenIsSubsequence(v: string, i: nat, scan: Scan)
    requires i < |v|
    ensures var t := NextToken(v, i, scan); IsSubsequence(t.text, v[i..t.next])
    decreases |v|, |v| - i, 0
  {
    hide IsSubsequence, PlainFrom, FindMarkEnd, FindLinkEnd, Delimiter, EscapeToken, CodeToken;
    if v[i] == '\\' {
      EscapeTokenIsSubsequence(v, i, scan);
    } else if v[i] == '`' {
      CodeTokenIsSubsequence(v, i, scan);
    } else {
      SubsequenceRefl([v[i]]);
      assert v[i..i + 1] == [v[i]];
      if v[i] == '[' {
        var (link, scan1) := FindLinkEnd(v, i, scan);
        if link.Some? {
          var l := link.value;
          var inner := v[i + 1..l.labelEnd];
          var scan2 := scan1.(links := scan1.links + [v[l.labelEnd + 2..l.end - 1]]);
          PlainIsSubsequence(inner, 0, scan2);
          assert inner[0..] == inner;
          SliceWithin(PlainFrom(inner, 0, scan2).0, v, i, i + 1, l.labelEnd, l.end);
        }
      } else {
        var d := Delimiter(v, i);
        if d != "" && FindMarkEnd(v, d, i + |d|).Some? {
          var end := FindMarkEnd(v, d, i + |d|).value;
          var inner := v[i + |d|..end];
          PlainIsSubsequence(inner, 0, scan);
          assert inner[0..] == inner;
          SliceWithin(PlainFrom(inner, 0, scan).0, v, i, i + |d|, end, end + |d|);
        }
      }
    }
  }

  /** The scanner only ever drops characters: it invents and reorders nothing. */
  lemma {:induction false} PlainIsSubsequence(v: string, i: nat, scan: Scan)
    requires i <= |v|
    ensures IsSubsequence(PlainFrom(v, i, scan).0, v[i..])
    decreases |v|, |v| - i, 1
  {
    hide IsSubsequence, NextToken;
    if i < |v| {
      var t := NextToken(v, i, scan);
      TokenIsSubsequence(v, i, scan);
      PlainIsSubsequence(v, t.next, t.scan);
      SubsequenceAppend(t.text, v[i..t.next], PlainFrom(v, t.next, t.scan).0, v[t.next..]);
      assert v[i..t.next] + v[t.next..] == v[i..];
    } else {
      SubsequenceRefl("");
      assert v[i..] == "";
    }
  }
}
