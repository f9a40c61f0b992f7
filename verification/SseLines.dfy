/** The frames of a stream, as far as carriage returns can change them at all: only a line
    of two or more of them, after another line, can matter.  Without one every chunking
    gives the frames of a reader that drops all carriage returns before a line feed. */
module SseLines {
  import opened Text
  import opened SseStream
  import opened SseProperties
  import B = SseBlocks
  import F = SseFrames

  // ----- dropping every carriage return before a line feed -----

  function Strip(s: string): string {
    if s == "" then ""
    else if s[0] == '\r' && B.OnlyCrs(s[1..]) then Strip(s[1..])
    else s[..1] + Strip(s[1..])
  }

  predicate TwoCrs(s: string) {
    |s| >= 2 && s[0] == '\r' && s[1] == '\r'
  }

  /** A line of two or more carriage returns and nothing else, after another line. */
  predicate HasCrLine(s: string) {
    s != "" && ((s[0] == '\n' && TwoCrs(s[1..]) && B.OnlyCrs(s[1..])) || HasCrLine(s[1..]))
  }

  /** No line of carriage returns stands after a line feed. */
  predicate Tight(s: string) {
    s == "" || ((s[0] == '\n' && B.OnlyCrs(s[1..]) ==> s[1] == '\n') && Tight(s[1..]))
  }

  lemma StripCons(c: string, s: string)
    requires |c| == 1
    ensures Strip(c + s) == if c == "\r" && B.OnlyCrs(s) then Strip(s) else c + Strip(s)
  {
    assert (c + s)[1..] == s && (c + s)[..1] == c;
  }

  /** Normalising part of the text first changes nothing. */
  lemma {:induction false} StripAfterNorm(a: string, b: string)
    ensures Strip(Norm(a) + b) == Strip(a + b)
    decreases |a|
  {
    hide B.OnlyCrs, Strip, Norm;
    NormEmpty(a);
    if a != "" {
      NormOne(a);
      var k := if |a| >= 2 && a[0] == '\r' && a[1] == '\n' then 2 else 1;
      var c := if k == 2 then "\n" else a[..1];
      StripAfterNorm(a[k..], b);
      B.NormKeepsOnlyCrs(a[k..], b);
      StripCons(c, Norm(a[k..]) + b);
      StripCons(c, a[k..] + b);
      assert Norm(a) + b == c + (Norm(a[k..]) + b);
      if k == 2 {
        StripCrLf(a, b);
      } else {
        assert a + b == c + (a[1..] + b);
      }
    }
  }

  lemma StripCrLf(a: string, b: string)
    requires |a| >= 2 && a[0] == '\r' && a[1] == '\n'
    ensures Strip(a + b) == Strip("\n" + (a[2..] + b))
  {
    hide Strip, B.OnlyCrs;
    StripCons("\r", "\n" + (a[2..] + b));
    assert a + b == "\r" + ("\n" + (a[2..] + b));
    LfIsOnlyCrs(a[2..] + b);
  }

  lemma LfIsOnlyCrs(s: string)
    ensures B.OnlyCrs("\n" + s)
  {
  }

  lemma {:induction false} OnlyCrsOfConcat(a: string, b: string)
    requires a != "" && a[|a| - 1] == '\n'
    ensures B.OnlyCrs(a + b) <==> B.OnlyCrs(a)
    decreases |a|
  {
    if a[0] == '\r' {
      OnlyCrsOfConcat(a[1..], b);
      assert (a + b)[1..] == a[1..] + b;
    }
  }

  lemma {:induction false} StripConcat(a: string, b: string)
    requires a == "" || a[|a| - 1] == '\n'
    ensures Strip(a + b) == Strip(a) + Strip(b)
    decreases |a|
  {
    hide B.OnlyCrs;
    if a == "" {
      assert a + b == b;
    } else {
      StripConcat(a[1..], b);
      assert a + b == a[..1] + (a[1..] + b) && a == a[..1] + a[1..];
      StripCons(a[..1], a[1..] + b);
      StripCons(a[..1], a[1..]);
      if a[1..] != "" {
        OnlyCrsOfConcat(a[1..], b);
      }
      assert a[..1] + (Strip(a[1..]) + Strip(b)) == a[..1] + Strip(a[1..]) + Strip(b);
    }
  }

  lemma {:induction false} StripKeepsOnlyCrs(s: string)
    ensures B.OnlyCrs(Strip(s)) <==> B.OnlyCrs(s)
  {
    if s != "" {
      StripKeepsOnlyCrs(s[1..]);
    }
  }

  lemma {:induction false} StripKeepsCanOpen(s: string)
    ensures B.CanOpen(Strip(s)) <==> B.CanOpen(s)
  {
    hide B.CanOpen, B.OnlyCrs, Strip;
    StripEmpty();
    if s != "" {
      StripKeepsCanOpen(s[1..]);
      StripKeepsOnlyCrs(s[1..]);
      assert s == s[..1] + s[1..];
      StripCons(s[..1], s[1..]);
      B.CanOpenCons(s[..1], s[1..]);
      B.CanOpenCons(s[..1], Strip(s[1..]));
    }
  }

  lemma StripEmpty()
    ensures Strip("") == ""
  {
  }

  // ----- lines of carriage returns -----

  lemma HasCrLineCons(c: string, s: string)
    requires |c| == 1
    ensures HasCrLine(c + s) <==> (c == "\n" && TwoCrs(s) && B.OnlyCrs(s)) || HasCrLine(s)
  {
    assert (c + s)[1..] == s;
  }

  lemma FirstOfNorm(s: string)
    requires s != ""
    ensures Norm(s) != "" && (Norm(s)[0] == '\r' ==> s[0] == '\r')
  {
    NormEmpty(s);
  }

  lemma TwoCrsBefore(a: string, b: string)
    ensures TwoCrs(Norm(a) + b) ==> TwoCrs(a + b)
  {
    if a != "" {
      FirstOfNorm(a);
      NormOne(a);
      if |a| == 1 {
        NormEmpty(a[1..]);
        assert a[..1] + "" == a;
      } else {
        FirstOfNorm(a[1..]);
        hide Norm;
        if a[0] == '\r' && a[1] != '\n' {
          assert (Norm(a) + b)[1] == Norm(a[1..])[0];
        }
      }
    }
  }

  /** Normalising never makes a line of two carriage returns. */
  lemma {:induction false} NormMakesNoCrLine(a: string, b: string)
    ensures HasCrLine(Norm(a) + b) ==> HasCrLine(a + b)
    decreases |a|
  {
    hide B.OnlyCrs, HasCrLine, Norm, TwoCrs;
    NormEmpty(a);
    if a != "" {
      NormOne(a);
      var k := if |a| >= 2 && a[0] == '\r' && a[1] == '\n' then 2 else 1;
      var c := if k == 2 then "\n" else a[..1];
      NormMakesNoCrLine(a[k..], b);
      B.NormKeepsOnlyCrs(a[k..], b);
      TwoCrsBefore(a[k..], b);
      HasCrLineCons(c, Norm(a[k..]) + b);
      HasCrLineCons(c, a[k..] + b);
      assert Norm(a) + b == c + (Norm(a[k..]) + b);
      if k == 2 {
        HasCrLineCons("\r", "\n" + (a[2..] + b));
        assert a + b == "\r" + ("\n" + (a[2..] + b));
      } else {
        assert a + b == c + (a[1..] + b);
      }
    }
  }

  lemma TightCons(c: string, s: string)
    requires |c| == 1
    ensures Tight(c + s) <==> (c == "\n" && B.OnlyCrs(s) ==> s[0] == '\n') && Tight(s)
  {
    assert (c + s)[1..] == s;
  }

  lemma OneCrGoes(s: string)
    requires B.OnlyCrs(s) && !TwoCrs(s)
    ensures Norm(s) != "" && Norm(s)[0] == '\n'
  {
    NormLeavesCrLfIff(s);
  }

  lemma {:induction false} NormIsTight(s: string)
    requires !HasCrLine(s)
    ensures Tight(Norm(s))
    decreases |s|
  {
    hide B.OnlyCrs, Norm, TwoCrs, Tight, HasCrLine;
    NormEmpty(s);
    if s == "" {
      TightEmpty();
    } else {
      NormOne(s);
      var k := if |s| >= 2 && s[0] == '\r' && s[1] == '\n' then 2 else 1;
      var c := if k == 2 then "\n" else s[..1];
      assert s == s[..1] + s[1..];
      HasCrLineCons(s[..1], s[1..]);
      if k == 2 {
        HasCrLineCons("\n", s[2..]);
        assert s[1..] == "\n" + s[2..];
      }
      NormIsTight(s[k..]);
      TightCons(c, Norm(s[k..]));
      B.NormKeepsOnlyCrs(s[k..], "");
      assert Norm(s[k..]) + "" == Norm(s[k..]) && s[k..] + "" == s[k..];
      if c == "\n" && B.OnlyCrs(s[k..]) {
        OneCrGoes(s[k..]);
      }
    }
  }

  lemma TightEmpty()
    ensures Tight("")
  {
  }

  lemma {:induction false} TightAt(s: string, i: nat)
    requires Tight(s) && i < |s|
    ensures Tight(s[i + 1..]) && (s[i] == '\n' && B.OnlyCrs(s[i + 1..]) ==> s[i + 1] == '\n')
  {
    if i > 0 {
      TightAt(s[1..], i - 1);
      assert s[1..][i..] == s[i + 1..] && s[1..][i - 1] == s[i];
    }
  }

  lemma {:induction false} BeforeFirst(s: string, from: nat, i: nat)
    requires from <= i && i + 1 < |s| && (IndexOf(s, "\n\n", from) < 0 || i < IndexOf(s, "\n\n", from))
    ensures !(s[i] == '\n' && s[i + 1] == '\n')
    decreases |s| - from
  {
    F.BlankAt(s, from);
    if from < i {
      BeforeFirst(s, from + 1, i);
    }
  }

  /** Before the first blank line nothing can open. */
  lemma HeadIsClosed(s: string, n: nat)
    requires Tight(s) && n <= |s| && IndexOf(s, "\n\n", 0) == (if n == |s| then -1 else n - 1)
    ensures !B.CanOpen(s[..n])
  {
    hide Tight, IndexOf;
    if B.CanOpen(s[..n]) {
      var i := BlankIn(s, n);
      BeforeFirst(s, 0, i);
    }
  }

  lemma BlankIn(s: string, n: nat) returns (i: nat)
    requires Tight(s) && n <= |s| && B.CanOpen(s[..n])
    ensures i + 1 < n && s[i] == '\n' && s[i + 1] == '\n'
  {
    hide Tight, B.CanOpen, B.OnlyCrs;
    i := B.OpensAt(s[..n]);
    B.OnlyCrsMore(s[..n][i + 1..], s[n..]);
    assert s[..n][i + 1..] + s[n..] == s[i + 1..];
    TightAt(s, i);
  }

  // ----- one block -----

  function DropCrs(line: string): string {
    if line != "" && line[|line| - 1] == '\r' then DropCrs(line[..|line| - 1]) else line
  }

  function DropAll(lines: seq<string>): seq<string> {
    if lines == [] then [] else [DropCrs(lines[0])] + DropAll(lines[1..])
  }

  lemma {:induction false} DropCons(c: string, line: string)
    requires |c| == 1
    ensures DropCrs(c + line) == if c == "\r" && DropCrs(line) == "" then "" else c + DropCrs(line)
    decreases |line|
  {
    var s := c + line;
    if line == "" {
      assert s == c && s[..0] == "";
    } else if line[|line| - 1] == '\r' {
      DropCons(c, line[..|line| - 1]);
      assert s[..|s| - 1] == c + line[..|line| - 1];
    }
  }

  lemma {:induction false} FirstLineIsCrs(s: string)
    ensures B.OnlyCrs(s + "\n") <==> DropCrs(Split(s)[0]) == ""
  {
    if s != "" {
      assert (s + "\n")[1..] == s[1..] + "\n";
      if s[0] != '\n' {
        FirstLineIsCrs(s[1..]);
        DropCons(s[..1], Split(s[1..])[0]);
      }
    }
  }

  /** A block with the carriage returns before its line ends dropped. */
  function StripBlock(s: string): string {
    if s == "" then ""
    else if s[0] == '\r' && B.OnlyCrs(s[1..] + "\n") then StripBlock(s[1..])
    else s[..1] + StripBlock(s[1..])
  }

  lemma {:induction false} StripOfBlock(s: string)
    ensures Strip(s + "\n") == StripBlock(s) + "\n"
  {
    hide B.OnlyCrs;
    if s == "" {
      StripCons("\n", "");
      assert "\n" + "" == "\n" && "" + "\n" == "\n";
    } else {
      StripOfBlock(s[1..]);
      StripCons(s[..1], s[1..] + "\n");
      assert s + "\n" == s[..1] + (s[1..] + "\n");
    }
  }

  lemma {:induction false} SplitOfStripped(s: string)
    ensures Split(StripBlock(s)) == DropAll(Split(s))
  {
    hide B.OnlyCrs, DropCrs;
    DropEmpty();
    if s != "" {
      SplitOfStripped(s[1..]);
      FirstLineIsCrs(s[1..]);
      var rest := Split(s[1..]);
      if s[0] == '\n' {
        assert ([""] + rest)[1..] == rest;
        assert StripBlock(s) == "\n" + StripBlock(s[1..]);
      } else {
        DropCons(s[..1], rest[0]);
        assert Split(s)[1..] == rest[1..] && DropAll(rest)[1..] == DropAll(rest[1..]);
        if !(s[0] == '\r' && B.OnlyCrs(s[1..] + "\n")) {
          assert StripBlock(s) == s[..1] + StripBlock(s[1..]);
          assert StripBlock(s)[1..] == StripBlock(s[1..]) && StripBlock(s)[..1] == s[..1];
        }
      }
    }
  }

  lemma DropEmpty()
    ensures DropCrs("") == "" && DropAll([""]) == [""]
  {
    var lines: seq<string> := [""];
    assert lines[1..] == [];
  }

  lemma {:induction false} TrimStartMore(s: string, c: char)
    requires IsSpace(c)
    ensures TrimStart(s + [c]) == if TrimStart(s) == "" then "" else TrimStart(s) + [c]
  {
    hide IsSpace;
    if s == "" {
      assert s + [c] == [c] && [c][1..] == "";
    } else if IsSpace(s[0]) {
      TrimStartMore(s[1..], c);
      assert (s + [c])[1..] == s[1..] + [c];
    }
  }

  lemma TrimIgnoresCr(s: string)
    ensures Trim(s + "\r") == Trim(s)
  {
    hide IsSpace;
    SpaceIsSpace();
    TrimStartMore(s, '\r');
    var t := TrimStart(s);
    if t != "" {
      assert (t + "\r")[..|t + "\r"| - 1] == t;
    }
  }

  lemma {:induction false} FieldIgnoresCrs(line: string, w: string)
    requires w != "" && '\r' !in w
    ensures Starts(line, w) <==> Starts(DropCrs(line), w)
    ensures Starts(line, w) ==> Trim(line[|w|..]) == Trim(DropCrs(line)[|w|..])
    decreases |line|
  {
    hide Trim;
    if line != "" && line[|line| - 1] == '\r' {
      var front := line[..|line| - 1];
      FieldIgnoresCrs(front, w);
      assert |w| <= |front| ==> front[..|w|] == line[..|w|];
      if Starts(line, w) {
        ShorterThanLine(line, w);
        assert front[..|w|] == line[..|w|] && line[|w|..] == front[|w|..] + "\r";
        TrimIgnoresCr(front[|w|..]);
      }
    }
  }

  lemma ShorterThanLine(line: string, w: string)
    requires line != "" && line[|line| - 1] == '\r' && '\r' !in w && Starts(line, w)
    ensures |w| < |line|
  {
    assert line[..|line|] == line;
    assert w != "" ==> w[|w| - 1] in w;
  }

  lemma {:induction false} LinesIgnoreCrs(lines: seq<string>, event: string)
    ensures DataOf(DropAll(lines)) == DataOf(lines)
    ensures EventOf(DropAll(lines), event) == EventOf(lines, event)
  {
    hide Trim, Starts, DropCrs;
    if lines != [] {
      FieldIgnoresCrs(lines[0], "event:");
      FieldIgnoresCrs(lines[0], "data:");
      StartsFits(lines[0], "event:");
      StartsFits(DropCrs(lines[0]), "event:");
      var next := if Starts(lines[0], "event:") then Trim(lines[0][6..]) else event;
      LinesIgnoreCrs(lines[1..], next);
      LinesIgnoreCrs(lines[1..], event);
      assert DropAll(lines)[1..] == DropAll(lines[1..]);
    }
  }

  lemma StartsFits(line: string, w: string)
    ensures Starts(line, w) ==> |w| <= |line|
  {
  }

  /** Carriage returns before line ends do not change what a block says. */
  lemma BlockIgnoresCrs(raw: string)
    ensures ReadFrame(StripBlock(raw)) == ReadFrame(raw)
  {
    hide Split, DataOf, EventOf;
    SplitOfStripped(raw);
    LinesIgnoreCrs(Split(raw), "message");
  }

  // ----- all blocks -----

  lemma ClosedHasNoBlank(s: string)
    requires !B.CanOpen(s + "\n")
    ensures F.NoBlankLine(s)
  {
    forall i | 0 <= i < |s| && s[i] == '\n' ensures i + 1 < |s| && s[i + 1] != '\n' {
      if i + 1 == |s| || s[i + 1] == '\n' {
        OpenAt(s + "\n", i);
      }
    }
  }

  lemma {:induction false} OpenAt(s: string, i: nat)
    requires i + 1 < |s| && s[i] == '\n' && s[i + 1] == '\n'
    ensures B.CanOpen(s)
  {
    if i > 0 {
      OpenAt(s[1..], i - 1);
    }
  }

  /** The first block of a tight text, with and without its carriage returns. */
  lemma FirstBlock(s: string, more: string, n: nat)
    requires Tight(s) && IndexOf(s, "\n\n", 0) == n
    ensures n + 2 <= |s| && Tight(s[n + 2..])
    ensures Cut(Strip(s + more)) ==
            ([StripBlock(s[..n])] + Cut(Strip(s[n + 2..] + more)).0, Cut(Strip(s[n + 2..] + more)).1)
  {
    hide Tight, IndexOf, Strip, Cut;
    var raw, rest := s[..n], s[n + 2..] + more;
    assert s[n..n + 2] == "\n\n";
    assert s[n] == s[n..n + 2][0] && s[n + 1] == s[n..n + 2][1];
    TightAt(s, n);
    TightAt(s, n + 1);
    assert s[n + 1 + 1..] == s[n + 2..];
    HeadIsClosed(s, n + 1);
    assert s[..n + 1] == raw + "\n";
    StripOfBlock(raw);
    StripKeepsCanOpen(raw + "\n");
    ClosedHasNoBlank(StripBlock(raw));
    assert s + more == raw + "\n" + ("\n" + rest);
    StripConcat(raw + "\n", "\n" + rest);
    StripCons("\n", rest);
    assert StripBlock(raw) + "\n" + ("\n" + Strip(rest)) == StripBlock(raw) + "\n\n" + Strip(rest);
    F.CutBlock(StripBlock(raw), Strip(rest));
  }

  lemma {:induction false} CutStrips(s: string, more: string)
    requires Tight(s)
    ensures Frames(Cut(Strip(s + more)).0) == Frames(Cut(s).0) + Frames(Cut(Strip(Cut(s).1 + more)).0)
    ensures !B.CanOpen(Cut(s).1)
    decreases |s|
  {
    hide Tight, IndexOf, Strip, B.CanOpen, ReadFrame;
    var n := IndexOf(s, "\n\n", 0);
    if n < 0 {
      NotFoundIsMinusOne(s, 0);
      HeadIsClosed(s, |s|);
      assert s[..|s|] == s;
    } else {
      FirstBlock(s, more, n);
      CutStrips(s[n + 2..], more);
      BlockIgnoresCrs(s[..n]);
    }
  }

  lemma {:induction false} NotFoundIsMinusOne(s: string, from: nat)
    ensures IndexOf(s, "\n\n", from) < 0 ==> IndexOf(s, "\n\n", from) == -1
    decreases |s| - from
  {
    if from + 2 <= |s| {
      NotFoundIsMinusOne(s, from + 1);
    }
  }

  lemma {:induction false} FeedStrips(buffer: string, chunks: seq<string>)
    requires !B.CanOpen(buffer) && !HasCrLine(buffer + Concat(chunks))
    ensures Frames(Feed(buffer, chunks).0) == Frames(Cut(Strip(buffer + Concat(chunks))).0)
    decreases |chunks|
  {
    hide Cut, Strip, Norm, B.CanOpen, HasCrLine, Tight, ReadFrame;
    if chunks == [] {
      assert buffer + "" == buffer;
      StripKeepsCanOpen(buffer);
      assert Strip(buffer) + "" == Strip(buffer);
      B.NoBlockYet(Strip(buffer), "");
    } else {
      var arrived, more := buffer + chunks[0], Concat(chunks[1..]);
      assert buffer + Concat(chunks) == arrived + more;
      var (blocks, rest) := Cut(Norm(arrived));
      NoCrLineInPart(arrived, more);
      NormIsTight(arrived);
      CutStrips(Norm(arrived), more);
      StripAfterNorm(arrived, more);
      NormMakesNoCrLine(arrived, more);
      B.CutIsText(Norm(arrived));
      assert Norm(arrived) + more == B.Text(blocks) + (rest + more);
      NoCrLineInRest(B.Text(blocks), rest + more);
      FeedStrips(rest, chunks[1..]);
      FramesConcat(blocks, Feed(rest, chunks[1..]).0);
    }
  }

  lemma {:induction false} NoCrLineInRest(a: string, b: string)
    requires !HasCrLine(a + b)
    ensures !HasCrLine(b)
  {
    if a == "" {
      assert a + b == b;
    } else {
      assert (a + b)[1..] == a[1..] + b;
      NoCrLineInRest(a[1..], b);
    }
  }

  lemma {:induction false} NoCrLineInPart(a: string, b: string)
    requires !HasCrLine(a + b)
    ensures !HasCrLine(a)
  {
    if a != "" {
      assert (a + b)[1..] == a[1..] + b;
      NoCrLineInPart(a[1..], b);
      B.OnlyCrsMore(a[1..], b);
    }
  }

  /** Unless a line of two or more carriage returns, and nothing else, stands after another
      line, chunks do not matter: the frames are those of the text without any carriage
      return before a line feed. */
  lemma OnlyCrLinesMatter(s: string, chunks: seq<string>)
    requires !HasCrLine(s) && Concat(chunks) == s
    ensures Frames(Feed("", chunks).0) == Frames(Cut(Strip(s)).0)
  {
    assert "" + s == s;
    FeedStrips("", chunks);
  }

  // ----- and it does matter -----

  /** Every further chunk takes one carriage return away. */
  lemma {:induction false} EmptiesShorten(a: string, n: nat, last: string)
    requires F.Datum(a)
    ensures Feed(F.Between(a, n + 1), B.Empties(n) + [last]) == Feed(F.Between(a, 1), [last])
  {
    hide Norm, Cut, F.Between, F.Datum;
    if n == 0 {
      assert B.Empties(0) + [last] == [last];
    } else {
      var held := F.Between(a, n + 1);
      F.NormBetween(a, n + 1);
      F.NoBlockBetween(a, n);
      var chunks := B.Empties(n) + [last];
      assert chunks[0] == "" && chunks[1..] == B.Empties(n - 1) + [last] && held + "" == held;
      assert [] + Feed(F.Between(a, n), chunks[1..]).0 == Feed(F.Between(a, n), chunks[1..]).0;
      EmptiesShorten(a, n - 1, last);
    }
  }

  lemma {:induction false} ConcatAppend(a: seq<string>, b: seq<string>)
    ensures Concat(a + b) == Concat(a) + Concat(b)
  {
    if a == [] {
      assert a + b == b;
    } else {
      assert (a + b)[1..] == a[1..] + b;
      ConcatAppend(a[1..], b);
    }
  }

  /** A chunk that ends after the carriage returns, and as many more as it takes. */
  function Waiting(a: string, b: string, n: nat): seq<string>
    requires n >= 2
  {
    [F.Between(a, n)] + (B.Empties(n - 2) + [F.Second(b)])
  }

  lemma WaitingIsCut(a: string, b: string, n: nat)
    requires F.Datum(a) && F.Datum(b) && n >= 2
    ensures Concat(Waiting(a, b, n)) == F.Between(a, n) + F.Second(b)
    ensures Frames(Feed("", Waiting(a, b, n)).0) == [Frame("message", a), Frame("message", b)]
  {
    hide Norm, Cut, F.Between, F.Datum, Frames;
    var rest := B.Empties(n - 2) + [F.Second(b)];
    var chunks := Waiting(a, b, n);
    assert chunks[0] == F.Between(a, n) && chunks[1..] == rest && "" + chunks[0] == chunks[0];
    ConcatAppend(B.Empties(n - 2), [F.Second(b)]);
    B.ConcatEmpties(n - 2);
    ConcatOne(F.Second(b));
    F.NormBetween(a, n);
    F.NoBlockBetween(a, n - 1);
    EmptiesShorten(a, n - 2, F.Second(b));
    F.FeedLast(F.Between(a, 1), F.Second(b));
    F.NormSecond(a, b, 1);
    F.FramesBetween(a, b, 0);
    assert [] + Feed(F.Between(a, n - 1), rest).0 == Feed(F.Between(a, n - 1), rest).0;
  }

  lemma ConcatOne(s: string)
    ensures Concat([s]) == s
  {
    assert [s][1..] == [] && s + "" == s;
  }

  lemma FewCrsDoNotMatter(a: string, b: string, n: nat)
    requires F.Datum(a) && F.Datum(b) && n < 2
    ensures !HasCrLine(F.Between(a, n) + F.Second(b))
  {
    hide F.Datum, F.DataLine, HasCrLine, B.OnlyCrs, F.OneLine, Norm;
    var x, tail := F.DataLine(a), F.Second(b);
    F.DataLineFacts(a);
    F.DataLineFacts(b);
    F.DataLineStarts(b);
    LineEndsHaveNone();
    NoCrLineAfter(F.DataLine(b), "\n\n");
    var mid := F.Crs(n) + "\n" + tail;
    MidHasNone(tail, n);
    NoCrLineAfter(x, "\n" + mid);
    assert F.Between(a, n) + tail == x + ("\n" + mid);
  }

  lemma MidHasNone(tail: string, n: nat)
    requires n < 2 && !HasCrLine(tail) && tail != "" && tail[0] == 'd'
    ensures !HasCrLine("\n" + (F.Crs(n) + "\n" + tail))
  {
    hide HasCrLine, B.OnlyCrs;
    var mid := F.Crs(n) + "\n" + tail;
    HasCrLineCons("\n", tail);
    HasCrLineCons("\r", "\n" + tail);
    HasCrLineCons("\n", mid);
    assert F.Crs(0) == "" && F.Crs(1) == "\r" + F.Crs(0) == "\r";
    assert mid == if n == 0 then "\n" + tail else "\r" + ("\n" + tail);
  }

  lemma LineEndsHaveNone()
    ensures !HasCrLine("\n\n")
  {
    assert "\n\n"[1..] == "\n" && "\n"[1..] == "";
  }

  lemma {:induction false} NoCrLineAfter(a: string, b: string)
    requires F.OneLine(a) && !HasCrLine(b)
    ensures !HasCrLine(a + b)
  {
    if a == "" {
      assert a + b == b;
    } else {
      assert (a + b)[1..] == a[1..] + b;
      NoCrLineAfter(a[1..], b);
    }
  }

  /** Two data lines with a line of n carriage returns between them: their frames are the
      same for every chunking if and only if n is less than two. */
  lemma CrLineMattersIff(a: string, b: string, n: nat)
    requires F.Datum(a) && F.Datum(b)
    ensures var s := F.Between(a, n) + F.Second(b);
            (forall chunks | Concat(chunks) == s :: Frames(Feed("", chunks).0) == Frames(Feed("", [s]).0)) <==> n < 2
  {
    hide Norm, Cut, Frames, F.Between, F.Datum, Feed, Concat, Waiting, HasCrLine;
    var s := F.Between(a, n) + F.Second(b);
    if n < 2 {
      FewCrsDoNotMatter(a, b, n);
      ConcatOne(s);
      OnlyCrLinesMatter(s, [s]);
      forall chunks | Concat(chunks) == s ensures Frames(Feed("", chunks).0) == Frames(Feed("", [s]).0) {
        OnlyCrLinesMatter(s, chunks);
      }
    } else {
      WaitingIsCut(a, b, n);
      F.FeedWhole(s);
      F.NormSecond(a, b, n);
      F.FramesBetween(a, b, n - 1);
      assert Concat(Waiting(a, b, n)) == s;
    }
  }
}
