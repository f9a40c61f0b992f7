/** The agent's event stream: cutting a chunked text into frames and reading each one. */
module SseStream {
  import opened Text

  datatype Frame = Frame(event: string, data: string)

  // ----- line ends -----

  /** `replace(/\r\n/g, '\n')` */
  function Norm(s: string): string {
    if s == "" then ""
    else if |s| >= 2 && s[0] == '\r' && s[1] == '\n' then "\n" + Norm(s[2..])
    else s[..1] + Norm(s[1..])
  }

  predicate HasCrLf(s: string) {
    exists i | 0 <= i < |s| - 1 :: s[i] == '\r' && s[i + 1] == '\n'
  }

  predicate HasCrCrLf(s: string) {
    exists i | 0 <= i < |s| - 2 :: s[i] == '\r' && s[i + 1] == '\r' && s[i + 2] == '\n'
  }

  predicate EndsInCr(s: string) {
    s != "" && s[|s| - 1] == '\r'
  }

  // ----- one frame -----

  function IndexOf(s: string, w: string, from: nat): (r: int)
    requires w != ""
    ensures r == -1 || (from <= r && r + |w| <= |s| && s[r..r + |w|] == w)
    decreases |s| - from
  {
    if from + |w| > |s| then -1
    else if s[from..from + |w|] == w then from
    else IndexOf(s, w, from + 1)
  }

  function Split(s: string): (lines: seq<string>)
    ensures lines != []
  {
    if s == "" then [""]
    else if s[0] == '\n' then [""] + Split(s[1..])
    else
      var rest := Split(s[1..]);
      [s[..1] + rest[0]] + rest[1..]
  }

  predicate Starts(line: string, w: string) {
    |w| <= |line| && line[..|w|] == w
  }

  /** The event name after reading `lines`, starting from `event`. */
  function EventOf(lines: seq<string>, event: string): string {
    if lines == [] then event
    else if Starts(lines[0], "event:") then EventOf(lines[1..], Trim(lines[0][6..]))
    else EventOf(lines[1..], event)
  }

  function DataOf(lines: seq<string>): seq<string> {
    if lines == [] then []
    else if Starts(lines[0], "data:") then [Trim(lines[0][5..])] + DataOf(lines[1..])
    else DataOf(lines[1..])
  }

  function Join(lines: seq<string>): string {
    if lines == [] then ""
    else if |lines| == 1 then lines[0]
    else lines[0] + "\n" + Join(lines[1..])
  }

  /** The frame a block of lines holds, if it holds data. */
  function ReadFrame(raw: string): seq<Frame> {
    var data := DataOf(Split(raw));
    if data == [] then [] else [Frame(EventOf(Split(raw), "message"), Join(data))]
  }

  // ----- the whole stream -----

  /** Every complete block of lines in `buffer`, and what is left over. */
  function Cut(buffer: string): (seq<string>, string)
    decreases |buffer|
  {
    var boundary := IndexOf(buffer, "\n\n", 0);
    if boundary < 0 then ([], buffer)
    else
      var (blocks, rest) := Cut(buffer[boundary + 2..]);
      ([buffer[..boundary]] + blocks, rest)
  }

  /** The blocks that come out of a stream chunk by chunk, and the buffer at its end. */
  function Feed(buffer: string, chunks: seq<string>): (seq<string>, string)
    decreases |chunks|
  {
    if chunks == [] then ([], buffer)
    else
      var (blocks, rest) := Cut(Norm(buffer + chunks[0]));
      var (more, last) := Feed(rest, chunks[1..]);
      (blocks + more, last)
  }

  function Frames(blocks: seq<string>): seq<Frame> {
    if blocks == [] then [] else ReadFrame(blocks[0]) + Frames(blocks[1..])
  }

  lemma {:induction false} FramesConcat(a: seq<string>, b: seq<string>)
    ensures Frames(a + b) == Frames(a) + Frames(b)
  {
    hide ReadFrame;
    if a == [] {
      assert a + b == b;
    } else {
      assert (a + b)[1..] == a[1..] + b;
      FramesConcat(a[1..], b);
    }
  }

  lemma OneFrame(block: string)
    ensures Frames([block]) == ReadFrame(block)
  {
    hide ReadFrame;
    var blocks: seq<string> := [block];
    assert blocks[1..] == [];
  }

  function Concat(chunks: seq<string>): string {
    if chunks == [] then "" else chunks[0] + Concat(chunks[1..])
  }

  // ----- the loops -----

  method ParseFrame(raw: string) returns (frame: seq<Frame>)
    ensures frame == ReadFrame(raw)
  {
    hide Trim, Split;
    var event := "message";
    var dataLines: seq<string> := [];
    var lines := Split(raw);
    var i := 0;
    while i < |lines|
      invariant 0 <= i <= |lines|
      invariant EventOf(lines, "message") == EventOf(lines[i..], event)
      invariant DataOf(lines) == dataLines + DataOf(lines[i..])
    {
      var line := lines[i];
      assert lines[i..][1..] == lines[i + 1..];
      if Starts(line, ":") {
        assert line[0] == ':';
      } else if Starts(line, "event:") {
        event := Trim(line[6..]);
        assert line[0] == 'e';
      } else if Starts(line, "data:") {
        assert dataLines + ([Trim(line[5..])] + DataOf(lines[i + 1..]))
            == dataLines + [Trim(line[5..])] + DataOf(lines[i + 1..]);
        dataLines := dataLines + [Trim(line[5..])];
      }
      i := i + 1;
    }
    assert dataLines + [] == dataLines;
    frame := if dataLines == [] then [] else [Frame(event, Join(dataLines))];
  }

  lemma CutFirst(buffer: string)
    ensures var boundary := IndexOf(buffer, "\n\n", 0);
            if boundary < 0 then Cut(buffer) == ([], buffer)
            else var later := Cut(buffer[boundary + 2..]); Cut(buffer) == ([buffer[..boundary]] + later.0, later.1)
  {
  }

  lemma FeedFirst(buffer: string, chunks: seq<string>, i: nat, blocks: seq<string>)
    requires i < |chunks|
    ensures var (now, rest) := Cut(Norm(buffer + chunks[i])); var (more, last) := Feed(rest, chunks[i + 1..]);
            (blocks + Feed(buffer, chunks[i..]).0, Feed(buffer, chunks[i..]).1) == (blocks + now + more, last)
  {
    hide Cut, Norm;
    assert chunks[i..][1..] == chunks[i + 1..];
    var now := Cut(Norm(buffer + chunks[i])).0;
    var more := Feed(Cut(Norm(buffer + chunks[i])).1, chunks[i + 1..]).0;
    assert blocks + (now + more) == blocks + now + more;
  }

  lemma NextBlock(before: seq<string>, whole: seq<string>, blocks: seq<string>, raw: string, later: seq<string>)
    requires before + whole == blocks + ([raw] + later)
    ensures before + whole == blocks + [raw] + later
    ensures Frames(blocks + [raw]) == Frames(blocks) + ReadFrame(raw)
  {
    hide ReadFrame;
    FramesConcat(blocks, [raw]);
    OneFrame(raw);
  }

  method ParseStream(chunks: seq<string>) returns (yielded: seq<Frame>, buffer: string)
    ensures yielded == Frames(Feed("", chunks).0) && buffer == Feed("", chunks).1
  {
    hide ReadFrame, Norm, Frames, Cut, IndexOf, Feed;
    yielded, buffer := [], "";
    ghost var blocks: seq<string> := [];
    assert Frames([]) == [] by { NoFrames(); }
    assert chunks[0..] == chunks && [] + Feed("", chunks).0 == Feed("", chunks).0;
    var i := 0;
    while i < |chunks|
      invariant 0 <= i <= |chunks| && yielded == Frames(blocks)
      invariant Feed("", chunks) == (blocks + Feed(buffer, chunks[i..]).0, Feed(buffer, chunks[i..]).1)
    {
      ghost var before := blocks;
      FeedFirst(buffer, chunks, i, blocks);
      buffer := Norm(buffer + chunks[i]);
      ghost var whole := Cut(buffer);
      var boundary := IndexOf(buffer, "\n\n", 0);
      while boundary != -1
        invariant boundary == IndexOf(buffer, "\n\n", 0) && yielded == Frames(blocks)
        invariant before + whole.0 == blocks + Cut(buffer).0 && whole.1 == Cut(buffer).1
        decreases |buffer|
      {
        CutFirst(buffer);
        var raw := buffer[..boundary];
        var frame := ParseFrame(raw);
        NextBlock(before, whole.0, blocks, raw, Cut(buffer[boundary + 2..]).0);
        buffer := buffer[boundary + 2..];
        yielded := yielded + frame;
        blocks := blocks + [raw];
        boundary := IndexOf(buffer, "\n\n", 0);
      }
      CutFirst(buffer);
      assert blocks + [] == blocks;
      i := i + 1;
    }
    NothingMore(buffer, blocks);
    assert chunks[i..] == [];
  }

  lemma NoFrames()
    ensures Frames([]) == []
  {
  }

  lemma NothingMore(buffer: string, blocks: seq<string>)
    ensures blocks + Feed(buffer, []).0 == blocks && Feed(buffer, []).1 == buffer
  {
  }
}
