/** Exactly which streams come apart into the same blocks however they are cut into chunks. */
module SseBlocks {
  import opened SseStream
  import opened SseProperties

  /** The rest of a line that is empty but for carriage returns. */
  predicate OnlyCrs(s: string) {
    s != "" && (s[0] == '\n' || (s[0] == '\r' && OnlyCrs(s[1..])))
  }

  /** A line end followed by a line of carriage returns only: normalising often enough
      makes a blank line of it. */
  predicate CanOpen(s: string) {
    s != "" && ((s[0] == '\n' && OnlyCrs(s[1..])) || CanOpen(s[1..]))
  }

  predicate HoldsCrLf(blocks: seq<string>) {
    exists i | 0 <= i < |blocks| :: HasCrLf(blocks[i] + "\n")
  }

  /** Normalising once more would change no complete block and complete no other. */
  predicate Settled(s: string) {
    var (blocks, rest) := Cut(Norm(s));
    !HoldsCrLf(blocks) && !CanOpen(rest)
  }

  // ----- the text of the blocks -----

  function Text(blocks: seq<string>): string {
    if blocks == [] then "" else blocks[0] + "\n\n" + Text(blocks[1..])
  }

  lemma {:induction false} CutIsText(s: string)
    ensures s == Text(Cut(s).0) + Cut(s).1
    decreases |s|
  {
    hide IndexOf;
    var boundary := IndexOf(s, "\n\n", 0);
    if boundary >= 0 {
      CutIsText(s[boundary + 2..]);
      assert s == s[..boundary] + s[boundary..boundary + 2] + s[boundary + 2..];
    }
  }

  lemma {:induction false} TextConcat(a: seq<string>, b: seq<string>)
    ensures Text(a + b) == Text(a) + Text(b)
  {
    if a == [] {
      assert a + b == b;
    } else {
      assert (a + b)[1..] == a[1..] + b;
      TextConcat(a[1..], b);
    }
  }

  lemma {:induction false} TextEnds(blocks: seq<string>)
    requires blocks != []
    ensures var t := Text(blocks); |t| >= 2 && t[|t| - 2] == '\n' && t[|t| - 1] == '\n'
  {
    if |blocks| > 1 {
      TextEnds(blocks[1..]);
    }
  }

  lemma CrLfInside(a: string, s: string, b: string)
    ensures HasCrLf(s) ==> HasCrLf(a + s + b)
  {
    if HasCrLf(s) {
      var i :| 0 <= i < |s| - 1 && s[i] == '\r' && s[i + 1] == '\n';
      assert (a + s + b)[|a| + i] == '\r' && (a + s + b)[|a| + i + 1] == '\n';
    }
  }

  lemma {:induction false} TextHoldsCrLf(blocks: seq<string>)
    ensures HasCrLf(Text(blocks)) <==> HoldsCrLf(blocks)
  {
    hide HasCrLf;
    if blocks == [] {
      EmptyHasNone();
    } else {
      var rest := Text(blocks[1..]);
      TextHoldsCrLf(blocks[1..]);
      JoinHasCrLf(blocks[0] + "\n", "\n" + rest);
      ConsCrLf("\n", rest);
      assert Text(blocks) == blocks[0] + "\n" + ("\n" + rest);
      assert forall i | 0 < i < |blocks| :: blocks[i] == blocks[1..][i - 1];
      assert forall i | 0 <= i < |blocks| - 1 :: blocks[1..][i] == blocks[i + 1];
    }
  }

  lemma EmptyHasNone()
    ensures !HasCrLf("")
  {
  }

  lemma JoinHasCrLf(a: string, b: string)
    requires b != "" && !EndsInCr(a)
    ensures HasCrLf(a + b) <==> HasCrLf(a) || HasCrLf(b)
  {
    CrLfInside("", a, b);
    CrLfInside(a, b, "");
    assert "" + a + b == a + b && a + b + "" == a + b;
    if HasCrLf(a + b) {
      var s := a + b;
      var i :| 0 <= i < |s| - 1 && s[i] == '\r' && s[i + 1] == '\n';
      if i + 1 < |a| {
        assert a[i] == '\r' && a[i + 1] == '\n';
      } else if i >= |a| {
        assert b[i - |a|] == '\r' && b[i - |a| + 1] == '\n';
      }
    }
  }

  // ----- what can never become a block -----

  lemma {:induction false} NormKeepsOnlyCrs(a: string, b: string)
    ensures OnlyCrs(Norm(a) + b) <==> OnlyCrs(a + b)
    decreases |a|
  {
    hide OnlyCrs, Norm;
    NormEmpty(a);
    if a != "" {
      NormOne(a);
      if |a| >= 2 && a[0] == '\r' && a[1] == '\n' {
        OnlyCrsCons("\n", Norm(a[2..]) + b);
        OnlyCrsCons("\n", a[2..] + b);
        OnlyCrsCons("\r", "\n" + (a[2..] + b));
        assert a + b == "\r" + ("\n" + (a[2..] + b));
        assert Norm(a) + b == "\n" + (Norm(a[2..]) + b);
      } else {
        NormKeepsOnlyCrs(a[1..], b);
        OnlyCrsCons(a[..1], a[1..] + b);
        OnlyCrsCons(a[..1], Norm(a[1..]) + b);
        assert a + b == a[..1] + (a[1..] + b);
        assert Norm(a) + b == a[..1] + (Norm(a[1..]) + b);
      }
    }
  }

  lemma OnlyCrsCons(c: string, s: string)
    requires |c| == 1
    ensures OnlyCrs(c + s) <==> c == "\n" || (c == "\r" && OnlyCrs(s))
  {
    assert (c + s)[1..] == s && (c + s)[0] == c[0];
  }

  lemma {:induction false} NormKeepsCanOpen(a: string, b: string)
    ensures CanOpen(Norm(a) + b) <==> CanOpen(a + b)
    decreases |a|
  {
    hide CanOpen, OnlyCrs, Norm;
    NormEmpty(a);
    if a != "" {
      NormOne(a);
      var k := if |a| >= 2 && a[0] == '\r' && a[1] == '\n' then 2 else 1;
      var c := if k == 2 then "\n" else a[..1];
      NormKeepsCanOpen(a[k..], b);
      NormKeepsOnlyCrs(a[k..], b);
      CanOpenCons(c, Norm(a[k..]) + b);
      CanOpenCons(c, a[k..] + b);
      assert Norm(a) + b == c + (Norm(a[k..]) + b);
      if k == 2 {
        CrBeforeLf(a, b);
      } else {
        assert a + b == c + (a[1..] + b);
      }
    }
  }

  lemma CrBeforeLf(a: string, b: string)
    requires |a| >= 2 && a[0] == '\r' && a[1] == '\n'
    ensures CanOpen(a + b) <==> CanOpen("\n" + (a[2..] + b))
  {
    hide CanOpen;
    CanOpenCons("\r", "\n" + (a[2..] + b));
    assert a + b == "\r" + ("\n" + (a[2..] + b));
  }

  lemma CanOpenCons(c: string, s: string)
    requires |c| == 1
    ensures CanOpen(c + s) <==> (c == "\n" && OnlyCrs(s)) || CanOpen(s)
  {
    assert (c + s)[1..] == s;
  }

  lemma {:induction false} OnlyCrsMore(s: string, more: string)
    ensures OnlyCrs(s) ==> OnlyCrs(s + more)
  {
    if s != "" {
      OnlyCrsMore(s[1..], more);
      assert (s + more)[1..] == s[1..] + more;
    }
  }

  lemma {:induction false} CanOpenMore(s: string, more: string)
    ensures CanOpen(s) ==> CanOpen(s + more)
  {
    if s != "" {
      CanOpenMore(s[1..], more);
      OnlyCrsMore(s[1..], more);
      assert (s + more)[1..] == s[1..] + more;
    }
  }

  lemma {:induction false} BlankLineOpens(s: string, from: nat)
    requires from <= |s| && IndexOf(s, "\n\n", from) >= 0
    ensures CanOpen(s[from..])
    decreases |s| - from
  {
    if s[from..from + 2] == "\n\n" {
      assert s[from] == s[from..from + 2][0] && s[from + 1] == s[from..from + 2][1];
      assert OnlyCrs(s[from..][1..]);
    } else {
      BlankLineOpens(s, from + 1);
      assert s[from..][1..] == s[from + 1..];
    }
  }

  /** No chunk completes a block. */
  lemma {:induction false} NothingOpens(buffer: string, chunks: seq<string>)
    requires !CanOpen(buffer + Concat(chunks))
    ensures Feed(buffer, chunks).0 == []
    decreases |chunks|
  {
    hide Norm, CanOpen, IndexOf;
    if chunks != [] {
      var arrived, more := buffer + chunks[0], Concat(chunks[1..]);
      assert buffer + Concat(chunks) == arrived + more;
      NormKeepsCanOpen(arrived, more);
      NoBlockYet(Norm(arrived), more);
      NothingOpens(Norm(arrived), chunks[1..]);
      assert [] + Feed(Norm(arrived), chunks[1..]).0 == [];
    }
  }

  lemma NoBlockYet(s: string, more: string)
    requires !CanOpen(s + more)
    ensures Cut(s) == ([], s)
  {
    hide IndexOf, CanOpen;
    CanOpenMore(s, more);
    assert s[0..] == s;
    if IndexOf(s, "\n\n", 0) >= 0 {
      BlankLineOpens(s, 0);
    }
  }

  // ----- settled streams -----

  /** The text whose normal form ends at a line end. */
  lemma {:induction false} NormSplits(s: string, a: string, b: string) returns (k: nat)
    requires Norm(s) == a + b && a != "" && a[|a| - 1] == '\n'
    ensures k <= |s| && Norm(s[..k]) == a && Norm(s[k..]) == b && k > 0 && s[k - 1] == '\n'
    decreases |s|
  {
    hide Norm;
    NormOne(s) by { NormEmpty(s); }
    NormEmpty(s);
    var n := if |s| >= 2 && s[0] == '\r' && s[1] == '\n' then 2 else 1;
    var c := if n == 2 then "\n" else s[..1];
    assert Norm(s)[1..] == Norm(s[n..]) && (a + b)[1..] == a[1..] + b;
    assert a[0] == Norm(s)[0] == c[0];
    if |a| == 1 {
      k := n;
      assert a == c && a[1..] == "";
      assert s[..n][..1] == s[..1];
      NormOne(s[..n]);
      NormEmpty(s[..n][n..]);
      assert c + "" == c;
    } else {
      var deeper := NormSplits(s[n..], a[1..], b);
      k := n + deeper;
      assert s[n..][..deeper] == s[n..k] && s[n..][deeper..] == s[k..];
      NormFirst(s, k, n);
      assert a == c + a[1..];
    }
  }

  lemma NormFirst(s: string, k: nat, n: nat)
    requires n < k <= |s| && n == if |s| >= 2 && s[0] == '\r' && s[1] == '\n' then 2 else 1
    ensures Norm(s[..k]) == (if n == 2 then "\n" else s[..1]) + Norm(s[n..k])
  {
    assert s[..k][..1] == s[..1] && s[..k][n..] == s[n..k];
    assert n == 2 ==> s[..k][0] == '\r' && s[..k][1] == '\n';
    assert n == 1 && k >= 2 ==> !(s[..k][0] == '\r' && s[..k][1] == '\n');
  }

  lemma NotCrAtEnd(s: string, k: nat)
    requires 0 < k <= |s| && s[k - 1] == '\n'
    ensures !EndsInCr(s[..k])
  {
  }

  /** The chunk in which the last complete block ends. */
  lemma LastChunk(before: string, chunk: string, k: nat, chunks: seq<string>)
    requires k <= |chunk| && !HasCrCrLf(before + chunk[..k]) && !EndsInCr(before + chunk[..k])
    requires Cut(Norm(before + chunk[..k])).1 == "" && !CanOpen(Norm(chunk[k..] + Concat(chunks)))
    ensures Cut(Norm(before)).0 + Feed(Cut(Norm(before)).1, [chunk] + chunks).0 == Cut(Norm(before + chunk[..k])).0
  {
    hide Cut, Norm, HasCrCrLf, CanOpen;
    var first, last := chunk[..k], chunk[k..];
    var (blocks, rest) := Cut(Norm(before));
    var more := Cut(Norm(rest + first)).0;
    FeedOne(before, first);
    RestEndsLikeText(before, first);
    NormConcat(rest + first, last);
    assert rest + chunk == rest + first + last by { assert chunk == first + last; }
    assert Norm(rest + first) + "" == Norm(rest + first);
    CutOff(Norm(rest + first), "", Norm(last));
    NormKeepsCanOpen(last + Concat(chunks), "");
    assert Norm(last + Concat(chunks)) + "" == Norm(last + Concat(chunks));
    assert last + Concat(chunks) + "" == last + Concat(chunks);
    NormKeepsCanOpen(last, Concat(chunks));
    NoBlockYet(Norm(last), Concat(chunks));
    NothingOpens(Norm(last), chunks);
    assert ([chunk] + chunks)[1..] == chunks;
    assert Cut(Norm(rest + chunk)) == (more + [], Norm(last));
    assert more + [] + [] == more;
  }

  lemma RestEndsLikeText(before: string, first: string)
    requires !EndsInCr(before + first) && Cut(Norm(before + first)).1 == ""
    ensures !EndsInCr(Cut(Norm(before)).1 + first)
  {
    hide Cut;
    if first == "" {
      assert before + first == before;
    } else {
      var rest := Cut(Norm(before)).1;
      assert (rest + first)[|rest + first| - 1] == first[|first| - 1];
      assert (before + first)[|before + first| - 1] == first[|first| - 1];
    }
  }

  /** As long as the last complete block has not ended, chunks do not matter; afterwards
      nothing more comes. */
  lemma {:induction false} SettledFeed(before: string, chunks: seq<string>, k: nat)
    requires var s := before + Concat(chunks);
             && |before| <= k <= |s| && !HasCrCrLf(s[..k]) && !EndsInCr(s[..k])
             && Cut(Norm(s[..k])).1 == "" && !CanOpen(Norm(s[k..]))
    ensures var s := before + Concat(chunks);
            Cut(Norm(before)).0 + Feed(Cut(Norm(before)).1, chunks).0 == Cut(Norm(s[..k])).0
    decreases |chunks|
  {
    hide Cut, Norm, HasCrCrLf, CanOpen, EndsInCr;
    var s := before + Concat(chunks);
    var (blocks, rest) := Cut(Norm(before));
    if chunks == [] {
      assert s[..k] == before && blocks + [] == blocks;
    } else {
      var next, later := before + chunks[0], chunks[1..];
      assert s == next + Concat(later);
      if |next| <= k {
        assert s[..k] == next + s[|next|..k];
        CrCrLfStays(next, s[|next|..k]);
        FeedOne(before, chunks[0]);
        SettledFeed(next, later, k);
        var x, y := Cut(Norm(rest + chunks[0])).0, Feed(Cut(Norm(next)).1, later).0;
        assert blocks + x + y == blocks + (x + y);
      } else {
        var j := k - |before|;
        assert s[..k] == before + chunks[0][..j] && s[k..] == chunks[0][j..] + Concat(later);
        LastChunk(before, chunks[0], j, later);
        assert [chunks[0]] + later == chunks;
      }
    }
  }

  lemma SettledIsStable(s: string, chunks: seq<string>)
    requires Settled(s) && Concat(chunks) == s
    ensures Feed("", chunks).0 == Cut(Norm(s)).0
  {
    hide Cut, Norm, HasCrCrLf, HasCrLf, HoldsCrLf, CanOpen, EndsInCr;
    var (blocks, rest) := Cut(Norm(s));
    CutIsText(Norm(s));
    assert "" + Concat(chunks) == s;
    if blocks == [] {
      assert Norm(s) + "" == rest && s + "" == s;
      NormKeepsCanOpen(s, "");
      NothingOpens("", chunks);
    } else {
      TextEnds(blocks);
      var k := NormSplits(s, Text(blocks), rest);
      TextHoldsCrLf(blocks);
      NormLeavesCrLfIff(s[..k]);
      NotCrAtEnd(s, k);
      EmptyCut();
      CutOff(Text(blocks), rest, "");
      assert Text(blocks) + "" == Text(blocks) && blocks + [] == blocks;
      SettledFeed("", chunks, k);
      assert [] + Feed("", chunks).0 == Feed("", chunks).0;
    }
  }

  // ----- the others -----

  function Empties(n: nat): seq<string> {
    if n == 0 then [] else [""] + Empties(n - 1)
  }

  lemma {:induction false} ConcatEmpties(n: nat)
    ensures Concat(Empties(n)) == ""
  {
    if n > 0 {
      ConcatEmpties(n - 1);
      assert Empties(n)[1..] == Empties(n - 1);
    }
  }

  lemma {:induction false} CanOpenHasCrLf(s: string)
    requires CanOpen(s) && IndexOf(s, "\n\n", 0) < 0
    ensures HasCrLf(s)
  {
    var i := OpensAt(s);
    if s[i + 1] == '\n' {
      NoBlankFound(s, 0, i);
    } else {
      OnlyCrsEnds(s, i + 1);
    }
  }

  lemma {:induction false} OpensAt(s: string) returns (i: nat)
    requires CanOpen(s)
    ensures i < |s| && s[i] == '\n' && OnlyCrs(s[i + 1..]) && i + 1 < |s|
    decreases |s|
  {
    if s[0] == '\n' && OnlyCrs(s[1..]) {
      i := 0;
    } else {
      var j := OpensAt(s[1..]);
      i := j + 1;
      assert s[1..][j + 1..] == s[i + 1..];
    }
  }

  lemma {:induction false} OnlyCrsEnds(s: string, i: nat)
    requires i < |s| && s[i] == '\r' && OnlyCrs(s[i..])
    ensures HasCrLf(s)
    decreases |s| - i
  {
    assert s[i..][1..] == s[i + 1..];
    if s[i + 1] != '\n' {
      OnlyCrsEnds(s, i + 1);
    }
  }

  lemma {:induction false} NoBlankFound(s: string, from: nat, i: nat)
    requires from <= i && i + 1 < |s| && s[i] == '\n' && s[i + 1] == '\n'
    ensures IndexOf(s, "\n\n", from) >= 0
    decreases i - from
  {
    assert s[i..i + 2] == "\n\n";
    if from < i {
      NoBlankFound(s, from + 1, i);
    }
  }

  /** Empty chunks alone bring the block out. */
  lemma {:induction false} OpensAfterAll(buffer: string) returns (n: nat)
    requires CanOpen(buffer) && IndexOf(buffer, "\n\n", 0) < 0
    ensures Feed(buffer, Empties(n)).0 != []
    decreases |buffer|
  {
    hide Norm, CanOpen, IndexOf;
    CanOpenHasCrLf(buffer);
    NormChanges(buffer);
    NormKeepsCanOpen(buffer, "");
    assert buffer + "" == buffer && Norm(buffer) + "" == Norm(buffer);
    if IndexOf(Norm(buffer), "\n\n", 0) >= 0 {
      n := 1;
      OneMoreEmpty(buffer, 0);
    } else {
      var m := OpensAfterAll(Norm(buffer));
      n := m + 1;
      OneMoreEmpty(buffer, m);
    }
  }

  lemma OneMoreEmpty(buffer: string, n: nat)
    ensures var (blocks, rest) := Cut(Norm(buffer));
            Feed(buffer, Empties(n + 1)).0 == blocks + Feed(rest, Empties(n)).0
  {
    hide Norm, Cut;
    assert Empties(n + 1)[1..] == Empties(n) && buffer + "" == buffer;
  }

  lemma LeftoverOpens(s: string) returns (chunks: seq<string>)
    requires CanOpen(Cut(Norm(s)).1)
    ensures Concat(chunks) == s && Feed("", chunks).0 != Cut(Norm(s)).0
  {
    hide Norm, CanOpen, IndexOf, Cut;
    var (blocks, rest) := Cut(Norm(s));
    LeftoverIsOpen(Norm(s));
    var n := OpensAfterAll(rest);
    chunks := [s] + Empties(n);
    ConcatEmpties(n);
    assert chunks[1..] == Empties(n) && s + "" == s && "" + s == s;
    assert |blocks + Feed(rest, Empties(n)).0| > |blocks|;
  }

  lemma {:induction false} LeftoverIsOpen(s: string)
    ensures IndexOf(Cut(s).1, "\n\n", 0) < 0
    decreases |s|
  {
    hide IndexOf;
    var boundary := IndexOf(s, "\n\n", 0);
    if boundary >= 0 {
      LeftoverIsOpen(s[boundary + 2..]);
    }
  }

  lemma {:induction false} FirstCrCrLf(s: string, n: nat) returns (k: nat)
    requires HasCrCrLf(s) && n < |s| && !HasCrCrLf(s[..n])
    ensures k + 3 <= |s| && s[k..k + 3] == "\r\r\n" && !HasCrCrLf(s[..k])
    decreases |s| - n
  {
    assert s[..|s|] == s;
    if HasCrCrLf(s[..n + 1]) {
      k := n - 2;
      var i :| 0 <= i < n - 1 && s[..n + 1][i] == '\r' && s[..n + 1][i + 1] == '\r' && s[..n + 1][i + 2] == '\n';
      if i < n - 2 {
        CrCrLfWithin(s[..n], i);
      }
      assert s[..n] == s[..k] + s[k..n];
      CrCrLfStays(s[..k], s[k..n]);
    } else {
      k := FirstCrCrLf(s, n + 1);
    }
  }

  lemma CrCrLfWithin(s: string, i: nat)
    requires i < |s| - 2 && s[i] == '\r' && s[i + 1] == '\r' && s[i + 2] == '\n'
    ensures HasCrCrLf(s)
  {
  }

  /** Normalising up to the first CR CR LF, and once more when the rest arrives. */
  lemma TwoPasses(head: string, tail: string)
    requires !HasCrCrLf(head)
    ensures var s := head + "\r\r\n" + tail; var u := Norm(head);
            && !HasCrLf(u) && Norm(head + "\r\r\n") == u + "\r\n"
            && Norm(s) == u + "\r\n" + Norm(tail)
            && Norm(u + "\r\n" + tail) == u + "\n" + Norm(tail)
  {
    hide Norm, HasCrCrLf;
    var u := Norm(head);
    NormLeavesCrLfIff(head);
    NormIsIdentity(u);
    NormEnds();
    NormConcat(head, "\r\r\n");
    NormConcat(head + "\r\r\n", tail);
    NormConcat(u, "\r\n");
    NormConcat(u + "\r\n", tail);
  }

  lemma NormEnds()
    ensures Norm("\r\r\n") == "\r\n" && Norm("\r\n") == "\n"
  {
    assert Norm("\r\n"[2..]) == "";
    assert "\r\r\n"[1..] == "\r\n" && "\r\r\n"[..1] == "\r";
  }

  /** A block that holds CR LF changes when a chunk ends right after it. */
  lemma BlockChanges(s: string) returns (chunks: seq<string>)
    requires HoldsCrLf(Cut(Norm(s)).0)
    ensures Concat(chunks) == s && Feed("", chunks).0 != Cut(Norm(s)).0
  {
    hide Norm, HasCrCrLf, HasCrLf, Cut, HoldsCrLf;
    var (blocks, rest) := Cut(Norm(s));
    TextHoldsCrLf(blocks);
    CutIsText(Norm(s));
    CrLfInside("", Text(blocks), rest);
    assert "" + Text(blocks) + rest == Norm(s);
    NormLeavesCrLfIff(s);
    assert s != "" && !HasCrCrLf(s[..0]) by {
      NothingHasCrCrLf("");
      assert s[..0] == "";
    }
    var k := FirstCrCrLf(s, 0);
    var head, tail := s[..k], s[k + 3..];
    assert s == head + "\r\r\n" + tail by { assert s == s[..k] + s[k..k + 3] + s[k + 3..]; }
    chunks := [head + "\r\r\n", tail];
    assert Concat(chunks) == s by { ConcatTwo(head + "\r\r\n", tail); }
    TwoPasses(head, tail);
    var u := Norm(head);
    var late := FeedsAs(u, head, tail);
    assert Norm(s) == u + ("\r\n" + Norm(tail));
    PrefixHasNone(Text(blocks), rest, u, "\r\n" + Norm(tail));
    NotBoth(Text(blocks), Norm(s), u + "\n" + Norm(tail), |u|);
  }

  lemma NotBoth(text: string, a: string, b: string, n: nat)
    requires n < |text| && n < |a| && n < |b| && a[n] != b[n]
    ensures !(text <= a && text <= b)
  {
  }

  lemma NothingHasCrCrLf(s: string)
    requires s == ""
    ensures !HasCrCrLf(s)
  {
  }

  lemma ConcatTwo(a: string, b: string)
    ensures Concat([a, b]) == a + b
  {
    var chunks, last: seq<string> := [a, b], [b];
    assert chunks[1..] == last && last[1..] == [];
    assert Concat(last) == b + "";
  }

  /** What the two chunks yield, as a text. */
  lemma FeedsAs(u: string, head: string, tail: string) returns (late: string)
    requires u == Norm(head) && !HasCrLf(u) && Norm(head + "\r\r\n") == u + "\r\n"
    requires Norm(u + "\r\n" + tail) == u + "\n" + Norm(tail)
    ensures Text(Feed("", [head + "\r\r\n", tail]).0) + late == u + "\n" + Norm(tail)
  {
    hide Norm, HasCrLf, Cut;
    var (first, held) := Cut(u + "\r\n");
    CutIsText(u + "\r\n");
    FirstPart(first, held, u);
    var taken := Text(first);
    assert u + "\r\n" + tail == taken + (held + tail);
    NormConcat(taken, held + tail);
    var (second, last) := Cut(Norm(held + tail));
    CutIsText(Norm(held + tail));
    TextConcat(first, second);
    late := last;
    var chunks, rest: seq<string> := [head + "\r\r\n", tail], [tail];
    assert chunks[1..] == rest && rest[1..] == [] && "" + chunks[0] == chunks[0];
    assert Feed(held, rest).0 == second + [] == second;
  }

  lemma FirstPart(first: seq<string>, held: string, u: string)
    requires Text(first) + held == u + "\r\n" && !HasCrLf(u)
    ensures Norm(Text(first)) == Text(first) && !EndsInCr(Text(first))
  {
    hide Norm;
    var taken := Text(first);
    if first != [] {
      TextEnds(first);
      var n := |u|;
      assert (u + "\r\n")[n] == '\r' && (u + "\r\n")[n + 1] == '\n';
      assert taken[|taken| - 1] == (u + "\r\n")[|taken| - 1] && taken[|taken| - 2] == (u + "\r\n")[|taken| - 2];
      ShorterPrefix(taken, held, u, "\r\n");
      if HasCrLf(taken) {
        CrLfOfPrefix(taken, u);
      }
    }
    NormIsIdentity(taken);
  }

  lemma PrefixHasNone(text: string, rest: string, u: string, more: string)
    requires text + rest == u + more && HasCrLf(text) && !HasCrLf(u)
    ensures |text| > |u|
  {
    if |text| <= |u| {
      ShorterPrefix(text, rest, u, more);
      CrLfOfPrefix(text, u);
    }
  }

  lemma ShorterPrefix(text: string, rest: string, u: string, more: string)
    requires text + rest == u + more && |text| <= |u|
    ensures text <= u
  {
    assert text == (u + more)[..|text|] == u[..|text|];
  }

  lemma CrLfOfPrefix(text: string, u: string)
    requires text <= u && HasCrLf(text)
    ensures HasCrLf(u)
  {
    CrLfStays(text, u[|text|..]);
    assert u == text + u[|text|..];
  }

  /** Exactly the settled streams have the same blocks for every way of cutting them into
      chunks: those where, after the line ends of the whole have been normalised once, no
      complete block holds CR LF and nothing left over can still become a blank line. */
  lemma SameBlocksIff(s: string)
    ensures (forall chunks | Concat(chunks) == s :: Feed("", chunks).0 == Cut(Norm(s)).0) <==> Settled(s)
  {
    hide Cut, Norm, CanOpen, HoldsCrLf, Feed, Concat;
    if Settled(s) {
      forall chunks | Concat(chunks) == s ensures Feed("", chunks).0 == Cut(Norm(s)).0 {
        SettledIsStable(s, chunks);
      }
    } else if HoldsCrLf(Cut(Norm(s)).0) {
      var chunks := BlockChanges(s);
    } else {
      var chunks := LeftoverOpens(s);
    }
  }
}
