/** What the parser reads from a stream, by the lines and characters of the text. */
module SseReading {
  import opened Text
  import opened SseStream
  import opened SseProperties

  // ----- trimming and splitting -----

  /** `Trim` takes off exactly the white space at both ends. */
  predicate IsTrimOf(t: string, s: string) {
    exists i, j | 0 <= i <= j <= |s| ::
      && t == s[i..j] && (forall k | 0 <= k < |s| && (k < i || j <= k) :: IsSpace(s[k]))
      && (i < j ==> !IsSpace(s[i]) && !IsSpace(s[j - 1]))
  }

  lemma {:induction false} TrimStartCuts(s: string) returns (i: nat)
    ensures i <= |s| && TrimStart(s) == s[i..] && (forall k | 0 <= k < i :: IsSpace(s[k])) && (i < |s| ==> !IsSpace(s[i]))
    decreases |s|
  {
    hide IsSpace;
    i := 0;
    if s != "" && IsSpace(s[0]) {
      i := TrimStartCuts(s[1..]);
      assert forall k | 1 <= k < i + 1 :: s[k] == s[1..][k - 1];
      i := i + 1;
    }
  }

  lemma {:induction false} TrimEndCuts(s: string) returns (j: nat)
    ensures j <= |s| && TrimEnd(s) == s[..j] && (forall k | j <= k < |s| :: IsSpace(s[k])) && (j > 0 ==> !IsSpace(s[j - 1]))
    decreases |s|
  {
    hide IsSpace;
    j := |s|;
    if s != "" && IsSpace(s[|s| - 1]) {
      j := TrimEndCuts(s[..|s| - 1]);
    } else {
      assert s[..j] == s;
    }
  }

  lemma TrimIsTrim(s: string)
    ensures IsTrimOf(Trim(s), s)
  {
    hide IsSpace;
    var i := TrimStartCuts(s);
    var j := TrimEndCuts(s[i..]);
    assert Trim(s) == s[i..i + j];
    assert forall k | i <= k < |s| :: s[k] == s[i..][k - i];
  }

  /** The lines are those of the text: none holds a line feed, and joined they give it back. */
  lemma {:induction false} SplitIsJoined(s: string)
    ensures Join(Split(s)) == s && forall line | line in Split(s) :: '\n' !in line
    decreases |s|
  {
    if s != "" {
      SplitIsJoined(s[1..]);
      var rest := Split(s[1..]);
      JoinFirst(rest);
      JoinFirst(Split(s));
      if s[0] == '\n' {
        assert Split(s)[1..] == rest;
      } else {
        assert Split(s)[1..] == rest[1..] && Split(s)[0] == s[..1] + rest[0];
      }
    }
  }

  lemma JoinFirst(lines: seq<string>)
    requires lines != []
    ensures Join(lines) == if |lines| == 1 then lines[0] else lines[0] + "\n" + Join(lines[1..])
  {
  }

  // ----- one block -----

  /** The last `event:` line names the event; without one it is a message. */
  predicate NamesEvent(lines: seq<string>, event: string) {
    if exists line | line in lines :: Starts(line, "event:") then
      exists i | 0 <= i < |lines| ::
        Starts(lines[i], "event:") && IsTrimOf(event, lines[i][6..])
        && forall k | i < k < |lines| :: !Starts(lines[k], "event:")
    else event == "message"
  }

  /** `at` are the places of the `data:` lines, in order; `data` are their texts. */
  predicate HoldsData(lines: seq<string>, at: seq<nat>, data: seq<string>) {
    && |data| == |at|
    && (forall i | 0 <= i < |at| ::
          at[i] < |lines| && Starts(lines[at[i]], "data:") && IsTrimOf(data[i], lines[at[i]][5..]))
    && (forall i, j | 0 <= i < j < |at| :: at[i] < at[j])
    && (forall k: nat | k < |lines| && Starts(lines[k], "data:") :: k in at)
  }

  lemma {:induction false} NoName(lines: seq<string>, event: string)
    requires forall line | line in lines :: !Starts(line, "event:")
    ensures EventOf(lines, event) == event
  {
    hide Trim;
    if lines != [] {
      NoName(lines[1..], event);
    }
  }

  /** The lines from the last named one on. */
  lemma {:induction false} LastName(lines: seq<string>, event: string) returns (i: nat)
    requires exists line | line in lines :: Starts(line, "event:")
    ensures i < |lines| && Starts(lines[i], "event:") && EventOf(lines, event) == Trim(lines[i][6..])
    ensures forall k | i < k < |lines| :: !Starts(lines[k], "event:")
    decreases |lines|
  {
    hide Trim;
    var rest := lines[1..];
    var name := if Starts(lines[0], "event:") then Trim(lines[0][6..]) else event;
    assert lines == [lines[0]] + rest;
    if exists line | line in rest :: Starts(line, "event:") {
      i := LastName(rest, name);
      assert forall k | i + 1 < k < |lines| :: lines[k] == rest[k - 1];
      i := i + 1;
    } else {
      NoName(rest, name);
      assert forall k | 0 < k < |lines| :: lines[k] == rest[k - 1];
      i := 0;
    }
  }

  lemma EventIsLast(lines: seq<string>)
    ensures NamesEvent(lines, EventOf(lines, "message"))
  {
    hide IsTrimOf, Trim;
    if exists line | line in lines :: Starts(line, "event:") {
      var i := LastName(lines, "message");
      TrimIsTrim(lines[i][6..]);
    } else {
      NoName(lines, "message");
    }
  }

  lemma {:induction false} DataIsInOrder(lines: seq<string>) returns (at: seq<nat>)
    ensures HoldsData(lines, at, DataOf(lines))
    decreases |lines|
  {
    hide IsTrimOf, Trim, HoldsData;
    if lines == [] {
      at := [];
      NoData();
    } else {
      var rest := lines[1..];
      var later := DataIsInOrder(rest);
      assert lines == [lines[0]] + rest;
      at := OneLineMore(lines[0], rest, later, DataOf(rest));
      if Starts(lines[0], "data:") {
        TrimIsTrim(lines[0][5..]);
        at := OneDatumMore(lines[0], rest, at, later, DataOf(rest), Trim(lines[0][5..]));
      }
    }
  }

  lemma NoData()
    ensures HoldsData([], [], [])
  {
  }

  /** The places of the lines that follow, one further on. */
  predicate Shifted(at: seq<nat>, later: seq<nat>) {
    |at| == |later| && forall i | 0 <= i < |later| :: at[i] == later[i] + 1
  }

  lemma OneLineMore(line: string, rest: seq<string>, later: seq<nat>, data: seq<string>) returns (at: seq<nat>)
    requires HoldsData(rest, later, data)
    ensures Shifted(at, later) && (!Starts(line, "data:") ==> HoldsData([line] + rest, at, data))
  {
    hide IsTrimOf, Starts;
    at := seq(|later|, i requires 0 <= i < |later| => later[i] + 1);
    forall k: nat | 0 < k < |rest| + 1 && Starts(([line] + rest)[k], "data:") ensures k in at {
      ShiftedHas(at, later, k);
    }
  }

  lemma ShiftedHas(at: seq<nat>, later: seq<nat>, k: nat)
    requires Shifted(at, later) && k > 0 && k - 1 in later
    ensures k in at
  {
    var i :| 0 <= i < |later| && later[i] == k - 1;
    assert at[i] == k;
  }

  lemma OneDatumMore(line: string, rest: seq<string>, shifted: seq<nat>, later: seq<nat>, data: seq<string>, datum: string)
      returns (at: seq<nat>)
    requires HoldsData(rest, later, data) && Shifted(shifted, later)
    requires Starts(line, "data:") && IsTrimOf(datum, line[5..])
    ensures HoldsData([line] + rest, at, [datum] + data)
  {
    hide IsTrimOf;
    at := [0] + shifted;
    var lines := [line] + rest;
    forall k: nat | k < |lines| && Starts(lines[k], "data:") ensures k in at {
      if k > 0 {
        assert lines[k] == rest[k - 1];
        ShiftedHas(shifted, later, k);
      } else {
        assert at[0] == 0;
      }
    }
  }

  /** A block with `data:` lines is one frame: their trimmed texts in order, a line feed
      between each two, under the name on the last `event:` line.  Other lines, comments among
      them, do not matter, and a block without `data:` lines is no frame. */
  lemma FrameMeans(raw: string)
    ensures var lines := Split(raw); var frame := ReadFrame(raw);
            if forall line | line in lines :: !Starts(line, "data:") then frame == []
            else
              && |frame| == 1 && NamesEvent(lines, frame[0].event)
              && exists at, data :: HoldsData(lines, at, data) && frame[0].data == Join(data)
  {
    hide IsTrimOf;
    var lines := Split(raw);
    EventIsLast(lines);
    var at := DataIsInOrder(lines);
    if DataOf(lines) == [] {
      forall line | line in lines ensures !Starts(line, "data:") {
        var k :| 0 <= k < |lines| && lines[k] == line;
        assert Starts(line, "data:") ==> k in at;
      }
    } else {
      assert lines[at[0]] in lines;
    }
  }

  // ----- the blocks -----

  /** Every CR LF becomes a line feed, and nothing else changes. */
  lemma NormReplaces(a: string, b: string)
    requires !HasCrLf(a)
    ensures Norm(a) == a && Norm(a + "\r\n" + b) == a + "\n" + Norm(b)
  {
    NormIsIdentity(a);
    NormConcat(a, "\r\n" + b);
    assert a + "\r\n" + b == a + ("\r\n" + b) && ("\r\n" + b)[2..] == b;
    assert a + ("\n" + Norm(b)) == a + "\n" + Norm(b);
  }

  predicate HasBlankLine(s: string) {
    exists i | 0 <= i < |s| - 1 :: s[i] == '\n' && s[i + 1] == '\n'
  }

  lemma {:induction false} BoundaryIsFirst(s: string, from: nat)
    requires from <= |s|
    ensures var b := IndexOf(s, "\n\n", from);
            forall i | from <= i < (if b < 0 then |s| - 1 else b) :: !(s[i] == '\n' && s[i + 1] == '\n')
    decreases |s| - from
  {
    if from + 2 <= |s| {
      assert s[from..from + 2] == [s[from], s[from + 1]];
      if s[from..from + 2] != "\n\n" {
        BoundaryIsFirst(s, from + 1);
      }
    }
  }

  /** A text is cut at its first blank line, and what holds none is kept. */
  lemma CutMeans(s: string)
    ensures !HasBlankLine(s) ==> Cut(s) == ([], s)
    ensures HasBlankLine(s) ==>
              exists b | 0 <= b < |s| - 1 ::
                && s[b] == '\n' && s[b + 1] == '\n' && !HasBlankLine(s[..b + 1])
                && Cut(s) == ([s[..b]] + Cut(s[b + 2..]).0, Cut(s[b + 2..]).1)
  {
    hide Cut, IndexOf;
    BoundaryIsFirst(s, 0);
    CutFirst(s);
    var b := IndexOf(s, "\n\n", 0);
    if b >= 0 {
      assert s[b..b + 2] == [s[b], s[b + 1]];
      assert HasBlankLine(s) && !HasBlankLine(s[..b + 1]);
    } else {
      assert !HasBlankLine(s);
    }
  }
}
