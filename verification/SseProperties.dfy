/** Chunk boundaries do not matter to the event-stream parser, and what the controller
    prints is what the parser reads. */
module SseProperties {
  import opened SseStream

  // ----- cutting -----

  lemma {:induction false} IndexOfPrefix(s: string, t: string, w: string, from: nat)
    requires w != "" && IndexOf(s, w, from) >= 0
    ensures IndexOf(s + t, w, from) == IndexOf(s, w, from)
    decreases |s| - from
  {
    assert (s + t)[from..from + |w|] == s[from..from + |w|];
    if s[from..from + |w|] != w {
      IndexOfPrefix(s, t, w, from + 1);
    }
  }

  /** What `Cut` leaves over follows a blank line, or nothing was cut off. */
  lemma {:induction false} CutRest(s: string) returns (consumed: string)
    ensures s == consumed + Cut(s).1 && (consumed == "" || consumed[|consumed| - 1] == '\n')
    decreases |s|
  {
    hide IndexOf;
    var boundary := IndexOf(s, "\n\n", 0);
    if boundary >= 0 {
      var deeper := CutRest(s[boundary + 2..]);
      consumed := s[..boundary + 2] + deeper;
      assert s[boundary..boundary + 2][1] == '\n';
      Rejoin(s, boundary + 2, deeper, Cut(s).1);
    } else {
      consumed := "";
    }
  }

  lemma Rejoin(s: string, k: nat, a: string, b: string)
    requires k <= |s| && s[k..] == a + b
    ensures s == s[..k] + a + b
  {
    assert s == s[..k] + s[k..];
  }

  // ----- line ends -----

  lemma NormOne(s: string)
    requires s != ""
    ensures if |s| >= 2 && s[0] == '\r' && s[1] == '\n' then Norm(s) == "\n" + Norm(s[2..]) else Norm(s) == s[..1] + Norm(s[1..])
  {
  }

  lemma {:induction false} NormConcat(a: string, b: string)
    requires !EndsInCr(a) || b == "" || b[0] != '\n'
    ensures Norm(a + b) == Norm(a) + Norm(b)
    decreases |a|
  {
    if a == "" {
      assert a + b == b;
    } else {
      var k := if |a| >= 2 && a[0] == '\r' && a[1] == '\n' then 2 else 1;
      NormConcat(a[k..], b);
      hide Norm;
      assert (a + b)[k..] == a[k..] + b && (a + b)[..1] == a[..1];
      NormOne(a);
      NormOne(a + b);
      Grouped(if k == 2 then "\n" else a[..1], Norm(a[k..]), Norm(b));
    }
  }

  lemma Grouped(a: string, b: string, c: string)
    ensures a + (b + c) == a + b + c
  {
  }

  lemma CrLfLater(s: string)
    ensures s != "" && HasCrLf(s[1..]) ==> HasCrLf(s)
  {
    if s != "" && HasCrLf(s[1..]) {
      var i :| 0 <= i < |s[1..]| - 1 && s[1..][i] == '\r' && s[1..][i + 1] == '\n';
      assert s[i + 1] == '\r' && s[i + 2] == '\n';
    }
  }

  lemma {:induction false} NormIsIdentity(s: string)
    requires !HasCrLf(s)
    ensures Norm(s) == s
    decreases |s|
  {
    if s != "" {
      CrLfLater(s);
      NormIsIdentity(s[1..]);
      assert s == s[..1] + s[1..];
    }
  }

  lemma NormCons(c: string, s: string)
    requires |c| == 1 && !(c == "\r" && s != "" && s[0] == '\n')
    ensures Norm(c + s) == c + Norm(s)
  {
    assert (c + s)[1..] == s && (c + s)[..1] == c;
  }

  /** Normalising leaves a CR LF behind exactly where a CR stood before one. */
  lemma {:induction false} NormLeavesCrLfIff(s: string)
    ensures HasCrLf(Norm(s)) <==> HasCrCrLf(s)
    ensures Norm(s) != "" && Norm(s)[0] == '\n'
       <==> (s != "" && s[0] == '\n') || (|s| >= 2 && s[0] == '\r' && s[1] == '\n')
    decreases |s|
  {
    if s != "" {
      hide HasCrLf, HasCrCrLf;
      var k := if |s| >= 2 && s[0] == '\r' && s[1] == '\n' then 2 else 1;
      NormLeavesCrLfIff(s[k..]);
      ConsCrLf(if k == 2 then "\n" else s[..1], Norm(s[k..]));
      DropCrCrLf(s, k);
    }
  }

  lemma ConsCrLf(c: string, s: string)
    requires |c| == 1
    ensures HasCrLf(c + s) <==> HasCrLf(s) || (c == "\r" && s != "" && s[0] == '\n')
  {
    if HasCrLf(s) {
      var i :| 0 <= i < |s| - 1 && s[i] == '\r' && s[i + 1] == '\n';
      assert (c + s)[i + 1] == '\r' && (c + s)[i + 2] == '\n';
    }
    if c == "\r" && s != "" && s[0] == '\n' {
      assert (c + s)[0] == '\r' && (c + s)[1] == '\n';
    }
    if HasCrLf(c + s) {
      var i :| 0 <= i < |c + s| - 1 && (c + s)[i] == '\r' && (c + s)[i + 1] == '\n';
      if i > 0 {
        assert s[i - 1] == '\r' && s[i] == '\n';
      }
    }
  }

  lemma DropCrCrLf(s: string, k: nat)
    requires (k == 1 && |s| >= 1) || (k == 2 && |s| >= 2 && s[1] == '\n')
    ensures HasCrCrLf(s) <==> HasCrCrLf(s[k..]) || (k == 1 && |s| >= 3 && s[..3] == "\r\r\n")
  {
    if HasCrCrLf(s[k..]) {
      var i :| 0 <= i < |s[k..]| - 2 && s[k..][i] == '\r' && s[k..][i + 1] == '\r' && s[k..][i + 2] == '\n';
      assert s[i + k] == '\r' && s[i + k + 1] == '\r' && s[i + k + 2] == '\n';
    }
    if |s| >= 3 && s[..3] == "\r\r\n" {
      assert s[0] == s[..3][0] && s[1] == s[..3][1] && s[2] == s[..3][2];
      assert HasCrCrLf(s);
    }
    if HasCrCrLf(s) {
      var i :| 0 <= i < |s| - 2 && s[i] == '\r' && s[i + 1] == '\r' && s[i + 2] == '\n';
      if i >= k {
        assert s[k..][i - k] == '\r' && s[k..][i - k + 1] == '\r' && s[k..][i - k + 2] == '\n';
      }
    }
  }

  /** Normalising what has arrived before more arrives changes nothing: the carriage
      return that a chunk boundary separates from its line feed is kept and meets it. */
  lemma {:induction false} NormInTwoSteps(a: string, b: string)
    requires !HasCrCrLf(a + b)
    ensures Norm(Norm(a) + b) == Norm(a + b)
    decreases |a|
  {
    hide HasCrCrLf;
    if a == "" {
    } else if |a| >= 2 && a[0] == '\r' && a[1] == '\n' {
      DropCrCrLf(a + b, 2);
      assert (a + b)[2..] == a[2..] + b;
      NormInTwoSteps(a[2..], b);
      assert Norm(a) + b == "\n" + (Norm(a[2..]) + b);
      NormCons("\n", Norm(a[2..]) + b);
    } else {
      DropCrCrLf(a + b, 1);
      assert (a + b)[1..] == a[1..] + b;
      NormInTwoSteps(a[1..], b);
      assert a[..1] + a[1..] == a;
      OneBeforeTwoSteps(a[..1], a[1..], b);
    }
  }

  lemma OneBeforeTwoSteps(c: string, a: string, b: string)
    requires |c| == 1 && !HasCrCrLf(c + a + b) && !(c == "\r" && a != "" && a[0] == '\n')
    requires Norm(Norm(a) + b) == Norm(a + b)
    ensures Norm(Norm(c + a) + b) == Norm(c + a + b)
  {
    hide Norm, HasCrCrLf;
    NormCons(c, a);
    assert c + Norm(a) + b == c + (Norm(a) + b) && c + a + b == c + (a + b);
    NormEmpty(a);
    if a == "" {
      assert Norm(a) + b == a + b == b;
    } else {
      NormCons(c, a + b);
      NormLeavesCrLfIff(a);
      CrThenCrLf(c, a, b);
      NormCons(c, Norm(a) + b);
    }
  }

  lemma CrThenCrLf(c: string, a: string, b: string)
    requires |c| == 1
    ensures c == "\r" && |a| >= 2 && a[0] == '\r' && a[1] == '\n' ==> HasCrCrLf(c + a + b)
  {
    if c == "\r" && |a| >= 2 && a[0] == '\r' && a[1] == '\n' {
      var s := c + a + b;
      assert s[0] == '\r' && s[1] == '\r' && s[2] == '\n';
    }
  }

  lemma NormEmpty(s: string)
    ensures Norm(s) == "" <==> s == ""
  {
  }

  // ----- chunks -----

  /** One more chunk: cutting the parts gives the blocks of the whole. */
  lemma FeedOne(before: string, chunk: string)
    requires !HasCrCrLf(before + chunk)
    ensures var (blocks, rest) := Cut(Norm(before));
            var (more, last) := Cut(Norm(rest + chunk));
            Cut(Norm(before + chunk)) == (blocks + more, last)
  {
    hide Cut, Norm, HasCrLf, HasCrCrLf;
    var whole := Norm(before);
    var rest := Cut(whole).1;
    var consumed := CutRest(whole);
    CrCrLfStays(before, chunk);
    NormLeavesCrLfIff(before);
    CrLfStays(consumed, rest);
    NormIsIdentity(consumed);
    NormInTwoSteps(before, chunk);
    assert whole + chunk == consumed + (rest + chunk);
    NormConcat(consumed, rest + chunk);
    CutOff(consumed, rest, Norm(rest + chunk));
  }

  lemma CrCrLfStays(a: string, b: string)
    ensures HasCrCrLf(a) ==> HasCrCrLf(a + b)
  {
    if HasCrCrLf(a) {
      var i :| 0 <= i < |a| - 2 && a[i] == '\r' && a[i + 1] == '\r' && a[i + 2] == '\n';
      assert (a + b)[i] == '\r' && (a + b)[i + 1] == '\r' && (a + b)[i + 2] == '\n';
    }
  }

  lemma CrLfStays(a: string, b: string)
    ensures HasCrLf(a) ==> HasCrLf(a + b)
  {
    if HasCrLf(a) {
      var i :| 0 <= i < |a| - 1 && a[i] == '\r' && a[i + 1] == '\n';
      assert (a + b)[i] == '\r' && (a + b)[i + 1] == '\n';
    }
  }

  /** The text before the remainder yields the blocks, whatever comes after it. */
  lemma {:induction false} CutOff(consumed: string, rest: string, next: string)
    requires Cut(consumed + rest).1 == rest
    ensures Cut(consumed + next) == (Cut(consumed + rest).0 + Cut(next).0, Cut(next).1)
    decreases |consumed|
  {
    hide IndexOf;
    var s := consumed + rest;
    var boundary := IndexOf(s, "\n\n", 0);
    if boundary < 0 {
      assert |consumed| == 0;
      assert consumed + next == next && [] + Cut(next).0 == Cut(next).0;
    } else {
      CutShorter(s[boundary + 2..]);
      assert boundary + 2 <= |consumed|;
      var tail := consumed[boundary + 2..];
      assert s[boundary + 2..] == tail + rest;
      assert s[..boundary] == consumed[..boundary];
      BoundaryWithin(consumed, rest, next, boundary);
      assert (consumed + next)[boundary + 2..] == tail + next;
      assert (consumed + next)[..boundary] == consumed[..boundary];
      CutOff(tail, rest, next);
      var x, y := Cut(tail + rest).0, Cut(next).0;
      assert [consumed[..boundary]] + (x + y) == [consumed[..boundary]] + x + y;
    }
  }

  lemma {:induction false} CutShorter(s: string)
    ensures |Cut(s).1| <= |s|
    decreases |s|
  {
    var consumed := CutRest(s);
  }

  lemma BoundaryWithin(consumed: string, rest: string, next: string, boundary: nat)
    requires boundary == IndexOf(consumed + rest, "\n\n", 0) && boundary + 2 <= |consumed|
    ensures IndexOf(consumed + next, "\n\n", 0) == boundary
  {
    IndexOfWithin(consumed, rest, "\n\n", 0);
    IndexOfPrefix(consumed, next, "\n\n", 0);
  }

  lemma {:induction false} IndexOfWithin(s: string, t: string, w: string, from: nat)
    requires w != "" && 0 <= IndexOf(s + t, w, from) && IndexOf(s + t, w, from) + |w| <= |s|
    ensures IndexOf(s, w, from) == IndexOf(s + t, w, from)
    decreases |s| - from
  {
    assert (s + t)[from..from + |w|] == s[from..from + |w|];
    if s[from..from + |w|] != w {
      IndexOfWithin(s, t, w, from + 1);
    }
  }

  lemma {:induction false} FeedAll(before: string, chunks: seq<string>)
    requires !HasCrCrLf(before + Concat(chunks))
    ensures var (blocks, rest) := Cut(Norm(before));
            var (more, last) := Feed(rest, chunks);
            Cut(Norm(before + Concat(chunks))) == (blocks + more, last)
    decreases |chunks|
  {
    hide Cut, Norm, HasCrCrLf;
    var (blocks, rest) := Cut(Norm(before));
    if chunks == [] {
      assert before + "" == before && blocks + [] == blocks;
    } else {
      var next := before + chunks[0];
      assert before + Concat(chunks) == next + Concat(chunks[1..]);
      CrCrLfStays(next, Concat(chunks[1..]));
      FeedOne(before, chunks[0]);
      FeedAll(next, chunks[1..]);
      var x, y := Cut(Norm(rest + chunks[0])).0, Feed(Cut(Norm(next)).1, chunks[1..]).0;
      assert blocks + x + y == blocks + (x + y);
    }
  }

  /** However a stream is cut into chunks, it holds the same blocks, hence the same frames. */
  lemma ChunksDoNotMatter(chunks: seq<string>)
    requires !HasCrCrLf(Concat(chunks))
    ensures Feed("", chunks) == Feed("", [Concat(chunks)])
  {
    hide Cut, HasCrCrLf;
    var whole := Concat(chunks);
    assert "" + whole == whole;
    EmptyCut();
    FeedAll("", chunks);
    assert [] + Feed("", chunks).0 == Feed("", chunks).0;
    assert [whole][1..] == [];
    assert Cut(Norm(whole)).0 + [] == Cut(Norm(whole)).0;
  }

  lemma EmptyCut()
    ensures Norm("") == "" && Cut("") == ([], "")
  {
  }

  /** The condition is exact for the normalised text: exactly the streams with CR CR LF
      have a chunk boundary at which normalising twice gives another text. */
  lemma TwoStepNormIff(s: string)
    ensures (forall k | 0 <= k <= |s| :: Norm(Norm(s[..k]) + s[k..]) == Norm(s)) <==> !HasCrCrLf(s)
  {
    if !HasCrCrLf(s) {
      forall k | 0 <= k <= |s| ensures Norm(Norm(s[..k]) + s[k..]) == Norm(s) {
        assert s[..k] + s[k..] == s;
        NormInTwoSteps(s[..k], s[k..]);
      }
    } else {
      NormLeavesCrLfIff(s);
      assert s[..|s|] == s && s[|s|..] == "" && Norm(s) + "" == Norm(s);
      NormChanges(Norm(s));
      assert Norm(Norm(s[..|s|]) + s[|s|..]) != Norm(s);
    }
  }

  lemma {:induction false} NormChanges(s: string)
    requires HasCrLf(s)
    ensures |Norm(s)| < |s|
    decreases |s|
  {
    if |s| >= 2 && s[0] == '\r' && s[1] == '\n' {
      NormShrinks(s[2..]);
    } else {
      var i :| 0 <= i < |s| - 1 && s[i] == '\r' && s[i + 1] == '\n';
      assert s[1..][i - 1] == '\r' && s[1..][i] == '\n';
      NormChanges(s[1..]);
    }
  }

  lemma {:induction false} NormShrinks(s: string)
    ensures |Norm(s)| <= |s|
    decreases |s|
  {
    if |s| >= 2 && s[0] == '\r' && s[1] == '\n' {
      NormShrinks(s[2..]);
    } else if s != "" {
      NormShrinks(s[1..]);
    }
  }
}
