/** What the controller writes for an event, and what the parser reads from it. */
module SseFrames {
  import opened Text
  import opened SseStream
  import opened SseProperties

  function PrintFrame(f: Frame): string {
    "event: " + f.event + "\ndata: " + f.data + "\n\n"
  }

  function PrintFrames(fs: seq<Frame>): string {
    if fs == [] then "" else PrintFrame(fs[0]) + PrintFrames(fs[1..])
  }

  predicate OneLine(s: string) {
    '\n' !in s
  }

  /** Event types and JSON texts: one line, no white space at either end. */
  predicate Printable(f: Frame) {
    OneLine(f.event) && OneLine(f.data) && Trimmed(f.event) && Trimmed(f.data)
  }

  // ----- lines -----

  lemma {:induction false} SplitLine(line: string, rest: string)
    requires OneLine(line)
    ensures Split(line + "\n" + rest) == [line] + Split(rest)
    decreases |line|
  {
    var s := line + "\n" + rest;
    if line == "" {
      assert s[1..] == rest;
    } else {
      assert s[1..] == line[1..] + "\n" + rest && s[..1] + line[1..] == line;
      SplitLine(line[1..], rest);
    }
  }

  lemma {:induction false} SplitLast(line: string)
    requires OneLine(line)
    ensures Split(line) == [line]
    decreases |line|
  {
    if line != "" {
      SplitLast(line[1..]);
      assert line[..1] + line[1..] == line;
    }
  }

  /** No blank line inside, and none begun. */
  predicate NoBlankLine(s: string) {
    forall i | 0 <= i < |s| && s[i] == '\n' :: i + 1 < |s| && s[i + 1] != '\n'
  }

  lemma BlankAt(v: string, k: nat)
    requires k + 2 <= |v|
    ensures v[k..k + 2] == "\n\n" <==> v[k] == '\n' && v[k + 1] == '\n'
  {
    assert v[k..k + 2] == [v[k], v[k + 1]];
  }

  lemma {:induction false} BlankLineFound(s: string, rest: string, from: nat)
    requires NoBlankLine(s) && from <= |s|
    ensures IndexOf(s + "\n\n" + rest, "\n\n", from) == |s|
    decreases |s| - from
  {
    var v := s + "\n\n" + rest;
    BlankAt(v, from);
    if from < |s| {
      assert v[from] == s[from] && (from + 1 < |s| ==> v[from + 1] == s[from + 1]);
      BlankLineFound(s, rest, from + 1);
    }
  }

  /** A block of lines, its blank line, and the rest of the stream. */
  lemma CutBlock(raw: string, rest: string)
    requires NoBlankLine(raw)
    ensures Cut(raw + "\n\n" + rest) == ([raw] + Cut(rest).0, Cut(rest).1)
  {
    hide IndexOf, NoBlankLine;
    BlankLineFound(raw, rest, 0);
    var v := raw + "\n\n" + rest;
    assert v[|raw| + 2..] == rest && v[..|raw|] == raw;
  }

  // ----- printed frames -----

  function Lines(f: Frame): string {
    "event: " + f.event + "\ndata: " + f.data
  }

  lemma LinesHaveNoBlank(f: Frame)
    requires OneLine(f.event) && OneLine(f.data)
    ensures NoBlankLine(Lines(f))
  {
    TwoLines("event: " + f.event, "data: " + f.data);
    assert Lines(f) == "event: " + f.event + "\n" + ("data: " + f.data);
  }

  lemma TwoLines(a: string, b: string)
    requires OneLine(a) && OneLine(b) && b != ""
    ensures NoBlankLine(a + "\n" + b)
  {
    var s := a + "\n" + b;
    forall i | 0 <= i < |s| ensures s[i] == '\n' ==> i == |a| {
      if i < |a| {
        assert s[i] == a[i];
      } else if i > |a| {
        assert s[i] == b[i - |a| - 1];
      }
    }
    assert s[|a| + 1] == b[0];
  }

  lemma LinesRead(f: Frame)
    requires Printable(f)
    ensures ReadFrame(Lines(f)) == [f]
  {
    hide Trim, Trimmed, Split, OneLine;
    var e, d := "event: " + f.event, "data: " + f.data;
    LinesSplit(f);
    var last: seq<string> := [d];
    assert [e, d][1..] == last && |last[1..]| == 0;
    assert e[..6] == "event:" && e[6..] == " " + f.event && d[..5] == "data:" && d[5..] == " " + f.data;
    TrimTrims(f.event);
    TrimTrims(f.data);
    assert e[0] == 'e' && d[0] == 'd';
    assert DataOf([d]) == [f.data] && EventOf([d], f.event) == f.event;
  }

  lemma LinesSplit(f: Frame)
    requires OneLine(f.event) && OneLine(f.data)
    ensures Split(Lines(f)) == ["event: " + f.event, "data: " + f.data]
  {
    var e, d := "event: " + f.event, "data: " + f.data;
    SplitLine(e, d);
    SplitLast(d);
    assert Lines(f) == e + "\n" + d;
  }

  /** A printed frame holds no CR LF: nothing in it is rewritten. */
  lemma NormLines(f: Frame)
    requires Printable(f)
    ensures Norm(PrintFrame(f)) == PrintFrame(f) && !EndsInCr(PrintFrame(f))
  {
    hide Norm, IsSpace;
    var e, d := "event: " + f.event, "\ndata: " + f.data;
    SpaceIsSpace();
    LastOf("event: ", f.event);
    LastOf("\ndata: ", f.data);
    NormPart(e);
    NormPart(d[1..]);
    NormCons("\n", d[1..]);
    assert "\n" + d[1..] == d;
    NormPart("");
    NormCons("\n", "");
    NormCons("\n", "\n");
    assert "\n" + "\n" == "\n\n" && "\n" + "" == "\n";
    NormConcat(e, d);
    NormConcat(e + d, "\n\n");
    assert PrintFrame(f) == e + d + "\n\n";
  }

  lemma LastOf(a: string, b: string)
    requires a != "" && a[|a| - 1] == ' '
    ensures (a + b)[|a + b| - 1] == if b == "" then ' ' else b[|b| - 1]
  {
  }

  lemma NormPart(s: string)
    requires OneLine(s)
    ensures Norm(s) == s
  {
    NormIsIdentity(s);
  }

  lemma {:induction false} NormFrames(fs: seq<Frame>)
    requires forall f <- fs :: Printable(f)
    ensures Norm(PrintFrames(fs)) == PrintFrames(fs)
  {
    hide Norm, Printable, PrintFrame;
    if fs == [] {
      NormEmpty("");
    } else {
      NormLines(fs[0]);
      NormFrames(fs[1..]);
      NormConcat(PrintFrame(fs[0]), PrintFrames(fs[1..]));
    }
  }

  lemma {:induction false} CutFrames(fs: seq<Frame>)
    requires forall f <- fs :: Printable(f)
    ensures Frames(Cut(PrintFrames(fs)).0) == fs && Cut(PrintFrames(fs)).1 == ""
  {
    hide Cut, Printable, ReadFrame;
    EmptyCut();
    if fs != [] {
      var f, rest := fs[0], PrintFrames(fs[1..]);
      OneLines(f);
      LinesHaveNoBlank(f);
      LinesRead(f);
      CutBlock(Lines(f), rest);
      assert PrintFrames(fs) == Lines(f) + "\n\n" + rest;
      CutFrames(fs[1..]);
      FramesConcat([Lines(f)], Cut(rest).0);
      OneFrame(Lines(f));
      assert [f] + fs[1..] == fs;
    }
  }

  lemma OneLines(f: Frame)
    requires Printable(f)
    ensures OneLine(f.event) && OneLine(f.data)
  {
  }

  /** Whatever sequence of events the controller prints, and however the network cuts
      the text into chunks, the parser yields exactly these events and nothing is left. */
  lemma PrintedEventsAreRead(fs: seq<Frame>, chunks: seq<string>)
    requires (forall f <- fs :: Printable(f)) && Concat(chunks) == PrintFrames(fs)
    ensures Frames(Feed("", chunks).0) == fs && Feed("", chunks).1 == ""
  {
    hide Cut, Norm, Printable, HasCrLf, HasCrCrLf;
    var s := PrintFrames(fs);
    NormFrames(fs);
    CutFrames(fs);
    NoCrLfIn(s);
    ChunksDoNotMatter(chunks);
    FeedWhole(s);
  }

  lemma NoCrLfIn(s: string)
    requires Norm(s) == s
    ensures !HasCrCrLf(s)
  {
    NormLeavesCrLfIff(s);
    assert !HasCrLf(s) by {
      if HasCrLf(s) {
        NormChanges(s);
      }
    }
    assert !HasCrLf(Norm(s));
  }

  lemma FeedLast(buffer: string, s: string)
    ensures Feed(buffer, [s]) == Cut(Norm(buffer + s))
  {
    hide Cut, Norm;
    assert [s][1..] == [] && Cut(Norm(buffer + s)).0 + [] == Cut(Norm(buffer + s)).0;
  }

  lemma FeedWhole(s: string)
    ensures Feed("", [s]) == Cut(Norm(s))
  {
    hide Cut, Norm, Feed;
    FeedLast("", s);
    assert "" + s == s;
  }

  // ----- what the parser can yield at all -----

  lemma {:induction false} EventIsTrimmed(lines: seq<string>, event: string)
    requires Trimmed(event)
    ensures Trimmed(EventOf(lines, event))
  {
    hide Trimmed, Trim;
    if lines != [] {
      if Starts(lines[0], "event:") {
        TrimTrims(lines[0][6..]);
        EventIsTrimmed(lines[1..], Trim(lines[0][6..]));
      } else {
        EventIsTrimmed(lines[1..], event);
      }
    }
  }

  lemma {:induction false} DataIsTrimmed(lines: seq<string>)
    ensures forall line <- DataOf(lines) :: Trimmed(line)
  {
    hide Trimmed, Trim;
    if lines != [] {
      DataIsTrimmed(lines[1..]);
      if Starts(lines[0], "data:") {
        TrimTrims(lines[0][5..]);
      }
    }
  }

  lemma ReadIsTrimmed(raw: string)
    ensures forall f <- ReadFrame(raw) :: Trimmed(f.event) && (OneLine(f.data) ==> Trimmed(f.data))
  {
    EventIsTrimmed(Split(raw), "message");
    DataIsTrimmed(Split(raw));
    var data := DataOf(Split(raw));
    if |data| >= 2 {
      assert Join(data)[|data[0]|] == '\n';
    }
  }

  lemma {:induction false} FramesAreTrimmed(blocks: seq<string>)
    ensures forall f <- Frames(blocks) :: Trimmed(f.event) && (OneLine(f.data) ==> Trimmed(f.data))
  {
    hide ReadFrame, Trimmed, OneLine;
    if blocks != [] {
      ReadIsTrimmed(blocks[0]);
      FramesAreTrimmed(blocks[1..]);
    }
  }

  /** One event comes back unchanged exactly when neither part has white space at an end. */
  lemma EventIsReadIff(f: Frame)
    requires OneLine(f.event) && OneLine(f.data)
    ensures Frames(Feed("", [PrintFrame(f)]).0) == [f] <==> Trimmed(f.event) && Trimmed(f.data)
  {
    hide Trimmed, OneLine, Norm, Cut, Feed;
    FeedWhole(PrintFrame(f));
    if Trimmed(f.event) && Trimmed(f.data) {
      assert [f][1..] == [] && PrintFrames([f]) == PrintFrame(f);
      assert Concat([PrintFrame(f)]) == PrintFrame(f);
      PrintedEventsAreRead([f], [PrintFrame(f)]);
    } else {
      FramesAreTrimmed(Feed("", [PrintFrame(f)]).0);
      assert f in [f];
    }
  }

  // ----- the boundary that matters -----

  function DataLine(d: string): string {
    "data: " + d
  }

  predicate Datum(d: string) {
    OneLine(d) && Trimmed(d)
  }

  lemma DataLineStarts(d: string)
    ensures DataLine(d) != "" && DataLine(d)[0] == 'd'
  {
  }

  lemma DataLineFacts(d: string)
    requires Datum(d)
    ensures OneLine(DataLine(d)) && DataLine(d) != "" && !EndsInCr(DataLine(d)) && Norm(DataLine(d)) == DataLine(d)
    ensures !Starts(DataLine(d), "event:") && Starts(DataLine(d), "data:") && Trim(DataLine(d)[5..]) == d
  {
    hide Trim, Norm, IsSpace;
    var line := DataLine(d);
    NormPart(line);
    TrimTrims(d);
    SpaceIsSpace();
    LastOf("data: ", d);
    assert line[..5] == "data:" && line[5..] == " " + d && line[0] == 'd';
  }

  /** Two data lines, with or without a stray carriage return between them. */
  lemma ReadOne(d: string)
    requires Datum(d)
    ensures ReadFrame(DataLine(d)) == [Frame("message", d)]
  {
    hide Trim, OneLine, Trimmed, DataLine, Starts;
    DataLineFacts(d);
    SplitLast(DataLine(d));
    ReadLast(DataLine(d), "message");
  }

  lemma ReadLast(line: string, event: string)
    requires !Starts(line, "event:") && Starts(line, "data:")
    ensures DataOf([line]) == [Trim(line[5..])] && EventOf([line], event) == event
  {
    hide Trim;
    var lines: seq<string> := [line];
    assert |lines[1..]| == 0;
  }

  function Crs(n: nat): string {
    if n == 0 then "" else "\r" + Crs(n - 1)
  }

  lemma {:induction false} CrsAreNoField(n: nat)
    ensures OneLine(Crs(n)) && !Starts(Crs(n), "event:") && !Starts(Crs(n), "data:") && |Crs(n)| == n
  {
    if n > 0 {
      CrsAreNoField(n - 1);
      assert Crs(n)[0] == '\r';
    }
  }

  /** Two data lines with a line of carriage returns between them are one frame. */
  lemma ReadTwo(a: string, b: string, n: nat)
    requires Datum(a) && Datum(b)
    ensures ReadFrame(Between(a, n) + DataLine(b)) == [Frame("message", a + "\n" + b)]
  {
    hide Trim, OneLine, Trimmed, DataLine, Starts, Split, Datum, Crs;
    DataLineFacts(a);
    DataLineFacts(b);
    var x, y := DataLine(a), DataLine(b);
    CrsAreNoField(n);
    SplitThree(x, Crs(n), y);
    assert Between(a, n) + y == x + "\n" + (Crs(n) + "\n" + y);
    var lines, later, last: seq<string> := [x, Crs(n), y], [Crs(n), y], [y];
    assert lines[1..] == later && later[1..] == last;
    ReadLast(y, "message");
    assert DataOf(later) == [b] && EventOf(later, "message") == "message";
    assert [a] + [b] == [a, b] && [a, b][1..] == [b];
    assert Join([a, b]) == a + "\n" + b;
  }

  lemma SplitThree(x: string, mid: string, y: string)
    requires OneLine(x) && OneLine(mid) && OneLine(y)
    ensures Split(x + "\n" + (mid + "\n" + y)) == [x, mid, y]
  {
    hide Split, OneLine;
    SplitLine(x, mid + "\n" + y);
    SplitLine(mid, y);
    SplitLast(y);
  }

  lemma ThreeLines(x: string, mid: string, y: string)
    requires OneLine(x) && OneLine(mid) && OneLine(y) && mid != "" && y != ""
    ensures NoBlankLine(x + "\n" + mid + "\n" + y)
  {
    var s := x + "\n" + mid + "\n" + y;
    var k := |x| + 1 + |mid|;
    forall i | 0 <= i < |s| ensures s[i] == '\n' ==> i == |x| || i == k {
      if i < |x| {
        assert s[i] == x[i];
      } else if |x| < i < k {
        assert s[i] == mid[i - |x| - 1];
      } else if i > k {
        assert s[i] == y[i - k - 1];
      }
    }
    assert s[|x| + 1] == mid[0] && mid[0] in mid && s[k + 1] == y[0] && y[0] in y;
  }

  lemma OneLineHasNoBlank(x: string)
    requires OneLine(x)
    ensures NoBlankLine(x)
  {
  }

  /** A data line and a line of so many carriage returns. */
  function Between(a: string, n: nat): string {
    DataLine(a) + "\n" + Crs(n) + "\n"
  }

  function Second(b: string): string {
    DataLine(b) + "\n\n"
  }

  lemma CutLast(raw: string)
    requires NoBlankLine(raw)
    ensures Cut(raw + "\n\n") == ([raw], "")
  {
    hide Cut, NoBlankLine;
    EmptyCut();
    CutBlock(raw, "");
    assert raw + "\n\n" + "" == raw + "\n\n" && [raw] + [] == [raw];
  }

  /** With carriage returns between them the lines are one block, without they are two. */
  lemma CutBetween(a: string, b: string, n: nat)
    requires Datum(a) && Datum(b)
    ensures Cut(Between(a, n) + Second(b)) ==
            (if n > 0 then [Between(a, n) + DataLine(b)] else [DataLine(a), DataLine(b)], "")
  {
    hide Cut, DataLine, OneLine, Trimmed, Datum, NoBlankLine, Norm;
    var x, y := DataLine(a), DataLine(b);
    DataLineFacts(a);
    DataLineFacts(b);
    if n > 0 {
      CrsAreNoField(n);
      ThreeLines(x, Crs(n), y);
      CutLast(Between(a, n) + y);
      assert Between(a, n) + y + "\n\n" == Between(a, n) + Second(b);
    } else {
      OneLineHasNoBlank(x);
      OneLineHasNoBlank(y);
      CutLast(y);
      CutBlock(x, Second(b));
      assert Crs(0) == "" && x + "\n\n" + Second(b) == Between(a, 0) + Second(b);
      assert [x] + [y] == [x, y];
    }
  }

  lemma FramesBetween(a: string, b: string, n: nat)
    requires Datum(a) && Datum(b)
    ensures Frames(Cut(Between(a, n) + Second(b)).0) ==
            if n > 0 then [Frame("message", a + "\n" + b)] else [Frame("message", a), Frame("message", b)]
  {
    hide ReadFrame, DataLine, Datum, Frames, Cut, Between, Second;
    CutBetween(a, b, n);
    ReadTwo(a, b, n);
    ReadOne(a);
    ReadOne(b);
    OneFrame(Between(a, n) + DataLine(b));
    FramesConcat([DataLine(a)], [DataLine(b)]);
    OneFrame(DataLine(a));
    OneFrame(DataLine(b));
    assert [DataLine(a)] + [DataLine(b)] == [DataLine(a), DataLine(b)];
    assert [Frame("message", a)] + [Frame("message", b)] == [Frame("message", a), Frame("message", b)];
  }

  lemma {:induction false} NormCrs(n: nat)
    ensures Norm(Crs(n) + "\n") == Crs(if n > 0 then n - 1 else 0) + "\n"
  {
    hide Norm;
    NormEmpty("");
    if n <= 1 {
      NormCons("\n", "");
      assert "\n" + "" == "\n" && Crs(0) + "\n" == "\n";
      if n == 1 {
        NormCrLf("");
        assert Crs(1) == "\r" + Crs(0);
        assert Crs(1) + "\n" == "\r\n" + "" == "\r\n";
      }
    } else {
      NormCrs(n - 1);
      assert Crs(n) + "\n" == "\r" + (Crs(n - 1) + "\n");
      assert (Crs(n - 1) + "\n")[0] == '\r';
      NormCons("\r", Crs(n - 1) + "\n");
      assert "\r" + (Crs(n - 2) + "\n") == Crs(n - 1) + "\n";
    }
  }

  lemma NormCrLf(s: string)
    ensures Norm("\r\n" + s) == "\n" + Norm(s)
  {
    assert ("\r\n" + s)[2..] == s;
  }

  lemma NormBetween(a: string, n: nat)
    requires Datum(a)
    ensures Norm(Between(a, n)) == Between(a, if n > 0 then n - 1 else 0)
    ensures !EndsInCr(Between(a, n))
  {
    hide Norm, DataLine, Datum;
    var x := DataLine(a);
    DataLineFacts(a);
    NormEmpty("");
    NormCons("\n", "");
    assert "\n" + "" == "\n";
    NormConcat(x, "\n");
    NormCrs(n);
    NormConcat(x + "\n", Crs(n) + "\n");
    assert Between(a, n) == x + "\n" + (Crs(n) + "\n");
    assert forall k: nat :: Between(a, k) == x + "\n" + (Crs(k) + "\n");
  }

  lemma NormSecond(a: string, b: string, n: nat)
    requires Datum(a) && Datum(b)
    ensures Norm(Between(a, n) + Second(b)) == Between(a, if n > 0 then n - 1 else 0) + Second(b)
  {
    hide Norm, DataLine, Datum, Between;
    var y := DataLine(b);
    DataLineFacts(b);
    NormEmpty("");
    NormCons("\n", "");
    NormCons("\n", "\n");
    assert "\n" + "" == "\n" && "\n" + "\n" == "\n\n";
    NormConcat(y, "\n\n");
    NormBetween(a, n);
    NormConcat(Between(a, n), Second(b));
  }

  lemma NoBlockBetween(a: string, n: nat)
    requires Datum(a) && n > 0
    ensures Cut(Between(a, n)) == ([], Between(a, n))
  {
    hide DataLine, Datum;
    var x, held := DataLine(a), Between(a, n);
    DataLineFacts(a);
    CrsAreNoField(n);
    var k := |x| + 1 + n;
    forall i | 0 <= i < |held| - 1 ensures !(held[i] == '\n' && held[i + 1] == '\n') {
      if i < |x| {
        assert held[i] == x[i];
      } else if i == |x| {
        assert held[i + 1] == Crs(n)[0];
      } else {
        assert held[i] == Crs(n)[i - |x| - 1];
      }
    }
    NotFound(held, 0);
  }

  lemma {:induction false} NotFound(s: string, from: nat)
    requires forall k | from <= k < |s| - 1 :: !(s[k] == '\n' && s[k + 1] == '\n')
    ensures IndexOf(s, "\n\n", from) == -1
    decreases |s| - from
  {
    if from + 2 <= |s| {
      BlankAt(s, from);
      NotFound(s, from + 1);
    }
  }
}
