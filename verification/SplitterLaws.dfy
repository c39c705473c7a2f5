/**
 What the splitter promises its caller: it cuts at the semicolons of normal
 mode and nowhere else, and what it returns can be joined and split again.
 */
module SplitterLaws {
  import opened Splitter

  function Join(ts: seq<string>, sep: string): string {
    if ts == [] then "" else if |ts| == 1 then ts[0] else ts[0] + sep + Join(ts[1..], sep)
  }

  ghost predicate AllSpace(w: string) {
    forall k :: 0 <= k < |w| ==> Space(w[k])
  }

  ghost predicate AllPlain(w: string) {
    forall k :: 0 <= k < |w| ==> Space(w[k]) ==> PlainSpace(w[k])
  }

  /** No semicolon of s is met in normal mode. */
  ghost predicate Whole(s: string) {
    NextCut(s, 0, Normal) == |s|
  }

  ghost function Ends(s: string): Mode {
    EndMode(s, 0, Normal)
  }

  // ---------- Single tokens ----------

  lemma SpaceToken(s: string, i: nat, m: Mode)
    requires i < |s| && Space(s[i]) && WellFormed(m)
    ensures Len(s, i, m) == 1
    ensures After(s, i, m) == if m.LineComment? && s[i] == '\n' then Normal else m
    ensures PlainSpace(s[i]) ==> !Content(s, i, m)
  {
  }

  lemma DanglingToken(s: string, i: nat, m: Mode)
    requires i < |s| && Dangling(s, i, m)
    ensures Len(s, i, m) == 1 && After(s, i, m).SingleQuote?
  {
  }

  lemma EscapedToken(s: string, i: nat, m: Mode)
    requires i + 1 < |s| && m.SingleQuote? && s[i] == '\\'
    ensures Len(s, i, m) == 2 && After(s, i, m) == m
  {
  }

  /** A string literal begins with content. */
  lemma LiteralStart(s: string, i: nat, m: Mode)
    requires i < |s| && WellFormed(m)
    ensures After(s, i, m).SingleQuote? ==> m.SingleQuote? || Content(s, i, m)
  {
  }

  // ---------- Scanning a concatenation ----------

  lemma {:induction false} Shifted(s: string, k: nat, i: nat, m: Mode)
    requires k + i <= |s| && WellFormed(m)
    ensures NextCut(s, k + i, m) == k + NextCut(s[k..], i, m)
    ensures EndMode(s, k + i, m) == EndMode(s[k..], i, m)
    ensures MeaningfulFrom(s, k + i, m) == MeaningfulFrom(s[k..], i, m)
    decreases |s| - i
  {
    hide Len, After, Content;
    if k + i < |s| {
      StepShift(s, k, i, m);
      Shifted(s, k, i + Len(s[k..], i, m), After(s[k..], i, m));
    }
  }

  lemma {:induction false} ScanThrough(a: string, b: string, i: nat, m: Mode)
    requires NeutralStart(b) && i <= |a| && WellFormed(m) && NextCut(a, i, m) == |a|
    requires !EndMode(a, i, m).SingleQuote?
    ensures NextCut(a + b, i, m) == NextCut(a + b, |a|, EndMode(a, i, m))
    ensures EndMode(a + b, i, m) == EndMode(a + b, |a|, EndMode(a, i, m))
    ensures MeaningfulFrom(a + b, i, m) == (MeaningfulFrom(a, i, m) || MeaningfulFrom(a + b, |a|, EndMode(a, i, m)))
    decreases |a| - i
  {
    hide Len, After, Content;
    if i < |a| {
      assert (a + b)[i] == a[i];
      if Dangling(a, i, m) {
        DanglingToken(a, i, m);
      }
      StepLocal(a, b, i, m);
      ScanThrough(a, b, i + Len(a, i, m), After(a, i, m));
    }
  }

  /** Scanning a and then b, when nothing of a looks into b. */
  lemma Concat(a: string, b: string)
    requires NeutralStart(b) && Whole(a) && !Ends(a).SingleQuote?
    ensures NextCut(a + b, 0, Normal) == |a| + NextCut(b, 0, Ends(a))
    ensures Ends(a + b) == EndMode(b, 0, Ends(a))
    ensures Meaningful(a + b) == (Meaningful(a) || MeaningfulFrom(b, 0, Ends(a)))
  {
    ScanThrough(a, b, 0, Normal);
    assert (a + b)[|a|..] == b;
    Shifted(a + b, |a|, 0, Ends(a));
  }

  /** White space in front changes nothing. */
  lemma {:induction false} Lead(w: string, q: string)
    requires AllSpace(w)
    ensures NextCut(w + q, 0, Normal) == |w| + NextCut(q, 0, Normal)
    ensures Ends(w + q) == Ends(q)
    ensures AllPlain(w) ==> Meaningful(w + q) == Meaningful(q)
    decreases |w|
  {
    hide Len, After, Content;
    if w == "" {
      assert w + q == q;
    } else {
      assert (w + q)[1..] == w[1..] + q;
      SpaceToken(w + q, 0, Normal);
      Shifted(w + q, 1, 0, Normal);
      Lead(w[1..], q);
    }
  }

  /** White space read in a mode that only its own delimiter ends. */
  lemma {:induction false} Trail(w: string, m: Mode)
    requires AllSpace(w) && WellFormed(m)
    ensures NextCut(w, 0, m) == |w|
    ensures EndMode(w, 0, m) == m || (m.LineComment? && EndMode(w, 0, m).Normal?)
    ensures AllPlain(w) ==> !MeaningfulFrom(w, 0, m)
    decreases |w|
  {
    hide Len, After, Content;
    if w != "" {
      SpaceToken(w, 0, m);
      Shifted(w, 1, 0, After(w, 0, m));
      Trail(w[1..], After(w, 0, m));
    }
  }

  /** A cut inside a is found whatever follows a. */
  lemma {:induction false} CutStays(a: string, b: string, i: nat, m: Mode)
    requires NeutralStart(b) && i <= |a| && WellFormed(m) && NextCut(a, i, m) < |a|
    ensures NextCut(a + b, i, m) == NextCut(a, i, m)
    decreases |a| - i
  {
    hide Len, After, Content;
    assert (a + b)[i] == a[i];
    if !(m.Normal? && a[i] == ';') {
      StepLocal(a, b, i, m);
      CutStays(a, b, i + Len(a, i, m), After(a, i, m));
    }
  }

  /** A text that ends inside a string literal still does with white space behind it, and the literal is content. */
  lemma {:induction false} OpenLiteral(t: string, w: string, i: nat, m: Mode)
    requires AllSpace(w) && i <= |t| && WellFormed(m) && EndMode(t, i, m).SingleQuote?
    ensures EndMode(t + w, i, m).SingleQuote?
    ensures !m.SingleQuote? ==> MeaningfulFrom(t, i, m) && MeaningfulFrom(t + w, i, m)
    decreases |t| - i
  {
    hide Len, After, Content;
    if i == |t| {
      assert (t + w)[i..] == w;
      Shifted(t + w, i, 0, m);
      Trail(w, m);
    } else {
      assert (t + w)[i] == t[i];
      LiteralStart(t, i, m);
      if Dangling(t, i, m) && w != "" {
        EscapedToken(t + w, i, m);
        assert (t + w)[i + 2..] == w[1..];
        Shifted(t + w, i + 2, 0, m);
        Trail(w[1..], m);
      } else {
        StepLocal(t, w, i, m);
        OpenLiteral(t, w, i + Len(t, i, m), After(t, i, m));
      }
    }
  }

  // ---------- Trimming ----------

  lemma {:induction false} TrimLeftIs(s: string) returns (w: string)
    ensures s == w + TrimLeft(s) && AllSpace(w)
    ensures TrimLeft(s) == "" || !Space(TrimLeft(s)[0])
    decreases |s|
  {
    w := "";
    if s != "" && Space(s[0]) {
      var rest := TrimLeftIs(s[1..]);
      w := [s[0]] + rest;
      assert s == [s[0]] + s[1..];
    }
  }

  lemma {:induction false} TrimRightIs(s: string) returns (w: string)
    ensures s == TrimRight(s) + w && AllSpace(w)
    ensures TrimRight(s) == "" || !Space(TrimRight(s)[|TrimRight(s)| - 1])
    decreases |s|
  {
    w := "";
    if s != "" && Space(s[|s| - 1]) {
      var rest := TrimRightIs(s[..|s| - 1]);
      w := rest + [s[|s| - 1]];
      assert s == s[..|s| - 1] + [s[|s| - 1]];
    }
  }

  /** A text without white space at either end. */
  ghost predicate Trimmed(t: string) {
    t == "" || (!Space(t[0]) && !Space(t[|t| - 1]))
  }

  lemma TrimIs(s: string) returns (lead: string, trail: string)
    ensures s == lead + (Trim(s) + trail) && AllSpace(lead) && AllSpace(trail) && Trimmed(Trim(s))
  {
    lead := TrimLeftIs(s);
    trail := TrimRightIs(TrimLeft(s));
    var t := Trim(s);
    if t != "" {
      assert t[0] == TrimLeft(s)[0];
    }
  }

  lemma {:induction false} TrimLeftOf(w: string, t: string)
    requires AllSpace(w) && (t == "" || !Space(t[0]))
    ensures TrimLeft(w + t) == t
    decreases |w|
  {
    if w == "" {
      assert w + t == t;
    } else {
      assert (w + t)[1..] == w[1..] + t;
      TrimLeftOf(w[1..], t);
    }
  }

  lemma {:induction false} TrimRightOf(t: string, w: string)
    requires AllSpace(w) && (t == "" || !Space(t[|t| - 1]))
    ensures TrimRight(t + w) == t
    decreases |w|
  {
    if w == "" {
      assert t + w == t;
    } else {
      assert (t + w)[..|t + w| - 1] == t + w[..|w| - 1];
      TrimRightOf(t, w[..|w| - 1]);
    }
  }

  /** Trim finds what white space was put around. */
  lemma TrimOf(lead: string, t: string, trail: string)
    requires AllSpace(lead) && AllSpace(trail) && Trimmed(t) && t != ""
    ensures Trim(lead + (t + trail)) == t
  {
    assert (t + trail)[0] == t[0];
    TrimLeftOf(lead, t + trail);
    TrimRightOf(t, trail);
  }

  // ---------- The pieces ----------

  /** The piece up to the first cut, read alone: no cut in it, and it ends in normal mode. */
  lemma {:induction false} FirstPiece(s: string, i: nat, m: Mode)
    requires i <= |s| && WellFormed(m)
    ensures var c := NextCut(s, i, m);
            && NextCut(s[..c], i, m) == c
            && (c < |s| ==> EndMode(s[..c], i, m).Normal?)
    decreases |s| - i
  {
    hide Len, After, Content;
    var c := NextCut(s, i, m);
    if i == |s| {
      assert s[..c] == s;
    } else if !(m.Normal? && s[i] == ';') {
      var j, m' := i + Len(s, i, m), After(s, i, m);
      StepInPiece(s, c, i, m);
      assert s[..c][i] == s[i];
      FirstPiece(s, j, m');
    }
  }

  /** Each piece has no cut inside, and every one but the last was ended by a semicolon met in normal mode. */
  ghost predicate AreCuts(ps: seq<string>) {
    ps != [] && forall k :: 0 <= k < |ps| ==> Whole(ps[k]) && (k < |ps| - 1 ==> Ends(ps[k]).Normal?)
  }

  /** Pieces is the inverse of joining with a semicolon: nothing of the script is lost, and the cuts are exactly the right ones. */
  lemma {:induction false} PiecesAreTheCuts(s: string)
    ensures AreCuts(Pieces(s)) && Join(Pieces(s), ";") == s
    decreases |s|
  {
    hide Len, After, Content, EndMode;
    FirstPiece(s, 0, Normal);
    var c := NextCut(s, 0, Normal);
    if c == |s| {
      assert s[..c] == s;
    } else {
      PiecesAreTheCuts(s[c + 1..]);
      var tail := Pieces(s[c + 1..]);
      assert Pieces(s)[1..] == tail;
      assert s == s[..c] + ";" + s[c + 1..];
    }
  }

  /** ... and the only list of such pieces that joins to the script. */
  lemma {:induction false} CutsAreThePieces(ps: seq<string>)
    requires AreCuts(ps)
    ensures Pieces(Join(ps, ";")) == ps
    decreases |ps|
  {
    hide Len, After, Content;
    if |ps| > 1 {
      var rest := Join(ps[1..], ";");
      var b := ";" + rest;
      assert Join(ps, ";") == ps[0] + b;
      Concat(ps[0], b);
      assert (ps[0] + b)[..|ps[0]|] == ps[0] && (ps[0] + b)[|ps[0]| + 1..] == rest;
      CutsAreThePieces(ps[1..]);
    }
  }

  // ---------- Statements ----------

  /** A text the splitter could return: trimmed, not empty, without a cut. */
  ghost predicate Unit(t: string) {
    t != "" && Trimmed(t) && Whole(t)
  }

  /** What trimming leaves of a piece. */
  lemma TrimmedPiece(p: string)
    requires Whole(p)
    ensures Trim(p) != "" ==> Unit(Trim(p))
    ensures Ends(p).Normal? ==> Ends(Trim(p)).Normal? || Ends(Trim(p)).LineComment?
    ensures AllPlain(p) ==> Meaningful(Trim(p)) == Meaningful(p)
  {
    hide Len, After, Content, TrimLeft, TrimRight, MeaningfulFrom;
    var lead, trail := TrimIs(p);
    var t := Trim(p);
    Lead(lead, t + trail);
    assert NeutralStart(trail);
    if !Whole(t) {
      CutStays(t, trail, 0, Normal);
    }
    assert AllPlain(p) ==> AllPlain(lead) && AllPlain(trail) by {
      assert forall k :: 0 <= k < |lead| ==> lead[k] == p[k];
      assert forall k :: 0 <= k < |trail| ==> trail[k] == p[|lead| + |t| + k];
    }
    if Ends(t).SingleQuote? {
      OpenLiteral(t, trail, 0, Normal);
    } else {
      Concat(t, trail);
      Trail(trail, Ends(t));
    }
  }

  lemma {:induction false} KeptAreUnits(ps: seq<string>)
    requires forall k :: 0 <= k < |ps| ==> Whole(ps[k]) && (k < |ps| - 1 ==> Ends(ps[k]).Normal?)
    ensures var ts := Kept(ps);
            && |ts| <= |ps|
            && (forall k :: 0 <= k < |ts| ==> Unit(ts[k]))
            && (forall k :: 0 <= k < |ts| - 1 ==> Ends(ts[k]).Normal? || Ends(ts[k]).LineComment?)
            && ((forall k :: 0 <= k < |ps| ==> AllPlain(ps[k])) ==> forall k :: 0 <= k < |ts| ==> Meaningful(ts[k]))
    decreases |ps|
  {
    hide Len, After, Content, NextCut, EndMode, MeaningfulFrom, Trim;
    if ps != [] {
      TrimmedPiece(ps[0]);
      KeptAreUnits(ps[1..]);
      assert |ps| == 1 ==> Kept(ps[1..]) == [];
    }
  }

  /** What Split returns. */
  lemma SplitResult(s: string)
    ensures var ts := Split(s);
            && (forall k :: 0 <= k < |ts| ==> Unit(ts[k]))
            && (forall k :: 0 <= k < |ts| - 1 ==> Ends(ts[k]).Normal? || Ends(ts[k]).LineComment?)
            && (AllPlain(s) ==> forall k :: 0 <= k < |ts| ==> Meaningful(ts[k]))
  {
    PiecesAreTheCuts(s);
    KeptAreUnits(Pieces(s));
    if AllPlain(s) {
      PlainPieces(s);
    }
  }

  lemma {:induction false} PlainPieces(s: string)
    requires AllPlain(s)
    ensures forall k :: 0 <= k < |Pieces(s)| ==> AllPlain(Pieces(s)[k])
    decreases |s|
  {
    hide Len, After, Content;
    var c := NextCut(s, 0, Normal);
    if c < |s| {
      assert AllPlain(s[c + 1..]) by {
        var rest := s[c + 1..];
        assert forall k :: 0 <= k < |rest| ==> rest[k] == s[c + 1 + k];
      }
      PlainPieces(s[c + 1..]);
    }
  }

  // ---------- Joining and splitting again ----------

  /** The statements of ts a splitter would keep. */
  function Contentful(ts: seq<string>): seq<string> {
    if ts == [] then [] else (if Meaningful(ts[0]) then [ts[0]] else []) + Contentful(ts[1..])
  }

  /** Units that x and a semicolon take apart: x brings each but the last back to normal mode. */
  ghost predicate Separable(ts: seq<string>, x: string) {
    && ts != []
    && (forall k :: 0 <= k < |ts| ==> Unit(ts[k]))
    && (forall k :: 0 <= k < |ts| - 1 ==> !Ends(ts[k]).SingleQuote? && Whole(ts[k] + x) && Ends(ts[k] + x).Normal?)
  }

  /** One statement with white space around it. */
  lemma Padded(w: string, t: string, x: string)
    requires Unit(t) && AllSpace(w) && AllPlain(w) && (x == "" || x == "\n")
    requires !Ends(t).SingleQuote? || x == ""
    ensures Kept([w + (t + x)]) == Contentful([t])
    ensures NextCut(w + (t + x), 0, Normal) == |w| + NextCut(t + x, 0, Normal)
    ensures Ends(w + (t + x)) == Ends(t + x)
  {
    hide Len, After, Content, NextCut, EndMode, TrimLeft, TrimRight, Trim;
    TrimOf(w, t, x);
    Lead(w, t + x);
    if x == "" {
      assert t + x == t;
    } else {
      Concat(t, x);
      Trail(x, Ends(t));
    }
  }

  lemma UncutPieces(p: string)
    requires Whole(p)
    ensures Pieces(p) == [p]
  {
  }

  /** A piece, a semicolon in normal mode, and the rest. */
  lemma CutOne(a: string, rest: string)
    requires Whole(a) && Ends(a).Normal?
    ensures Pieces(a + (";" + rest)) == [a] + Pieces(rest)
  {
    hide Content, MeaningfulFrom, EndMode, Len, After;
    Concat(a, ";" + rest);
    var s := a + (";" + rest);
    assert NextCut(s, 0, Normal) == |a|;
    assert s[..|a|] == a && s[|a| + 1..] == rest;
  }

  lemma {:induction false} SplitJoin(w: string, ts: seq<string>, x: string)
    requires AllSpace(w) && AllPlain(w) && (x == "" || x == "\n") && Separable(ts, x)
    ensures Split(w + Join(ts, x + ";\n")) == Contentful(ts)
    decreases |ts|
  {
    hide Split, Meaningful, Unit, Whole, Ends;
    var t := ts[0];
    if |ts| == 1 {
      SplitLast(w, t);
      assert ts == [t];
    } else {
      var rest := Join(ts[1..], x + ";\n");
      SplitFirst(w, t, x, "\n" + rest);
      assert w + Join(ts, x + ";\n") == (w + (t + x)) + (";" + ("\n" + rest));
      SplitJoin("\n", ts[1..], x);
    }
  }

  lemma SplitLast(w: string, t: string)
    requires Unit(t) && AllSpace(w) && AllPlain(w)
    ensures Split(w + t) == Contentful([t])
  {
    hide Len, After, Content, EndMode, Trim, MeaningfulFrom, Keep, Pieces, NextCut, Kept;
    Padded(w, t, "");
    assert t + "" == t;
    UncutPieces(w + t);
  }

  /** The first statement of a join is cut off, kept if it has content. */
  lemma SplitFirst(w: string, t: string, x: string, rest: string)
    requires Unit(t) && AllSpace(w) && AllPlain(w) && (x == "" || x == "\n")
    requires !Ends(t).SingleQuote? && Whole(t + x) && Ends(t + x).Normal?
    ensures Split((w + (t + x)) + (";" + rest)) == Contentful([t]) + Split(rest)
  {
    hide Len, After, Content, EndMode, Trim, MeaningfulFrom, Keep, Pieces, NextCut;
    var a := w + (t + x);
    Padded(w, t, x);
    CutOne(a, rest);
    KeptConcat([a], Pieces(rest));
  }

  lemma {:induction false} KeptConcat(a: seq<string>, b: seq<string>)
    ensures Kept(a + b) == Kept(a) + Kept(b)
    decreases |a|
  {
    hide Keep, Trim;
    if a == [] {
      assert a + b == b;
    } else {
      assert (a + b)[1..] == a[1..] + b;
      KeptConcat(a[1..], b);
    }
  }

  lemma {:induction false} ContentfulIsAll(ts: seq<string>)
    ensures |Contentful(ts)| <= |ts|
    ensures Contentful(ts) == ts <==> forall k :: 0 <= k < |ts| ==> Meaningful(ts[k])
    decreases |ts|
  {
    hide Meaningful;
    if ts != [] {
      ContentfulIsAll(ts[1..]);
      assert ts == [ts[0]] + ts[1..];
      if Meaningful(ts[0]) {
        assert Contentful(ts)[1..] == Contentful(ts[1..]);
      }
    }
  }

  /**
   With the separator newline, semicolon, newline a splitter result splits back
   into itself exactly when each statement has content of its own, which every
   script without white space beyond the four plain characters guarantees.
   */
  lemma RoundTripWithNewlines(script: string)
    ensures var ts := Split(script);
            Split(Join(ts, "\n;\n")) == ts <==> forall k :: 0 <= k < |ts| ==> Meaningful(ts[k])
    ensures AllPlain(script) ==> Split(Join(Split(script), "\n;\n")) == Split(script)
  {
    hide Split, Meaningful, Whole, Ends;
    var ts := Split(script);
    SplitResult(script);
    ContentfulIsAll(ts);
    if ts == [] {
      SplitNothing();
    } else {
      assert Separable(ts, "\n") by {
        forall k | 0 <= k < |ts| - 1 ensures Whole(ts[k] + "\n") && Ends(ts[k] + "\n").Normal? {
          NewlineCloses(ts[k]);
        }
      }
      assert "\n" + ";\n" == "\n;\n";
      SplitJoin("", ts, "\n");
      assert "" + Join(ts, "\n;\n") == Join(ts, "\n;\n");
    }
  }

  lemma SplitNothing()
    ensures Split("") == []
  {
  }

  lemma NewlineCloses(t: string)
    requires Whole(t) && (Ends(t).Normal? || Ends(t).LineComment?)
    ensures Whole(t + "\n") && Ends(t + "\n").Normal?
  {
    Concat(t, "\n");
  }

  /** Some statement before the last ends inside a line comment. */
  ghost predicate OpenComment(ts: seq<string>) {
    exists k :: 0 <= k < |ts| - 1 && Ends(ts[k]).LineComment?
  }

  /** A statement that ends in a line comment swallows the separator and joins the next one. */
  lemma {:induction false} FewerPieces(w: string, ts: seq<string>)
    requires ts != [] && AllSpace(w) && AllPlain(w)
    requires forall k :: 0 <= k < |ts| ==> Unit(ts[k])
    requires forall k :: 0 <= k < |ts| - 1 ==> Ends(ts[k]).Normal? || Ends(ts[k]).LineComment?
    ensures |Pieces(w + Join(ts, ";\n"))| <= |ts|
    ensures OpenComment(ts) ==> |Pieces(w + Join(ts, ";\n"))| < |ts|
    decreases |ts|
  {
    hide Len, After, Content, EndMode, MeaningfulFrom, Pieces, NextCut;
    var t := ts[0];
    UncutJoin(w, ts);
    Lead(w, t);
    if |ts| > 1 {
      var rest := Join(ts[1..], ";\n");
      var a := w + t;
      assert OpenComment(ts) && Ends(t).Normal? ==> OpenComment(ts[1..]) by {
        if OpenComment(ts) && Ends(t).Normal? {
          var k :| 0 <= k < |ts| - 1 && Ends(ts[k]).LineComment?;
          assert ts[1..][k - 1] == ts[k];
        }
      }
      if Ends(t).Normal? {
        var b := ";" + ("\n" + rest);
        assert w + Join(ts, ";\n") == a + b;
        CutOne(a, "\n" + rest);
        FewerPieces("\n", ts[1..]);
      } else {
        assert w + Join(ts, ";\n") == (a + ";\n") + rest;
        Swallowed(a, rest);
        FewerPieces("", ts[1..]);
        assert "" + rest == rest;
      }
    }
  }

  lemma UncutJoin(w: string, ts: seq<string>)
    requires |ts| == 1 ==> AllSpace(w) && Whole(ts[0])
    ensures |ts| == 1 ==> Pieces(w + Join(ts, ";\n")) == [w + Join(ts, ";\n")]
  {
    if |ts| == 1 {
      Lead(w, ts[0]);
    }
  }

  lemma CommentedSeparator(rest: string)
    ensures NextCut(";\n" + rest, 0, LineComment) == 2 + NextCut(rest, 0, Normal)
    ensures EndMode(";\n" + rest, 0, LineComment) == Ends(rest)
  {
    hide MeaningfulFrom, Content;
    var b := ";\n" + rest;
    assert b[2..] == rest;
    Shifted(b, 2, 0, Normal);
  }

  /** After a line comment the separator is comment, and what follows is scanned as if alone. */
  lemma Swallowed(a: string, rest: string)
    requires Whole(a) && Ends(a).LineComment?
    ensures |Pieces((a + ";\n") + rest)| == |Pieces(rest)|
  {
    hide Len, After, Content, MeaningfulFrom, EndMode, NextCut;
    var b := ";\n" + rest;
    assert (a + ";\n") + rest == a + b;
    Concat(a, b);
    CommentedSeparator(rest);
    var c := NextCut(rest, 0, Normal);
    if c < |rest| {
      assert (a + b)[|a| + 2 + c + 1..] == rest[c + 1..];
    }
  }

  /**
   With the code's own separator, semicolon and newline, a splitter result
   splits back into itself exactly when each statement has content of its own
   and none but the last ends in a line comment.
   */
  lemma RoundTripWithSemicolons(script: string)
    ensures var ts := Split(script);
            Split(Join(ts, ";\n")) == ts <==>
            (forall k :: 0 <= k < |ts| ==> Meaningful(ts[k])) && !OpenComment(ts)
  {
    hide Meaningful, Ends, Pieces;
    var ts := Split(script);
    SplitResult(script);
    ContentfulIsAll(ts);
    if ts == [] {
      SplitNothing();
    } else if OpenComment(ts) {
      FewerPieces("", ts);
      assert "" + Join(ts, ";\n") == Join(ts, ";\n");
      KeptIsNoLonger(Pieces(Join(ts, ";\n")));
    } else {
      JoinOfClosed(ts);
    }
  }

  lemma {:induction false} KeptIsNoLonger(ps: seq<string>)
    ensures |Kept(ps)| <= |ps|
    decreases |ps|
  {
    hide Keep, Trim;
    if ps != [] {
      KeptIsNoLonger(ps[1..]);
    }
  }

  lemma JoinOfClosed(ts: seq<string>)
    requires ts != [] && forall k :: 0 <= k < |ts| ==> Unit(ts[k])
    requires forall k :: 0 <= k < |ts| - 1 ==> Ends(ts[k]).Normal?
    ensures Split(Join(ts, ";\n")) == Contentful(ts)
  {
    hide Join, Contentful, Split, Pieces, NextCut, EndMode;
    assert Separable(ts, "") by {
      assert forall k :: 0 <= k < |ts| - 1 ==> ts[k] + "" == ts[k];
    }
    SplitJoin("", ts, "");
    assert "" + ";\n" == ";\n";
    assert "" + Join(ts, ";\n") == Join(ts, ";\n");
  }

  /** Lists a join does not confuse: splitter statements with content, closed but for the last. */
  ghost predicate Joinable(ts: seq<string>) {
    && (forall k :: 0 <= k < |ts| ==> Unit(ts[k]) && Meaningful(ts[k]))
    && (forall k :: 0 <= k < |ts| - 1 ==> Ends(ts[k]).Normal?)
  }

  /** Equal joins of such lists are equal lists. */
  lemma JoinIsInjective(a: seq<string>, b: seq<string>)
    requires Joinable(a) && Joinable(b) && Join(a, ";\n") == Join(b, ";\n")
    ensures a == b
  {
    hide Split, Pieces, NextCut, EndMode, Meaningful, Trim;
    ContentfulIsAll(a);
    ContentfulIsAll(b);
    if a == [] || b == [] {
      JoinIsNotEmpty(a);
      JoinIsNotEmpty(b);
    } else {
      JoinOfClosed(a);
      JoinOfClosed(b);
    }
  }

  lemma JoinIsNotEmpty(ts: seq<string>)
    requires forall k :: 0 <= k < |ts| ==> ts[k] != ""
    ensures Join(ts, ";\n") == "" <==> ts == []
  {
  }

  // ---------- Where the unqualified claims fail ----------

  /**
   TrimSpace cuts a vertical tab that the scanner counts as content: the
   statement that is left is a bare comment, and splitting again drops it.
   */
  lemma TrimmedContentIsLost()
    ensures var script := "\U{0B}--";
            Split(script) == ["--"] && Split(Join(Split(script), "\n;\n")) != Split(script)
  {
    var script := "\U{0B}--";
    assert NextCut(script, 0, Normal) == 3;
    assert MeaningfulFrom(script, 0, Normal);
    assert TrimLeft(script) == TrimLeft("--") == "--";
    assert Pieces(script) == [script];
    assert Kept([script]) == ["--"];
    assert !MeaningfulFrom("--", 1, LineComment);
    assert !Meaningful(Split(script)[0]);
    RoundTripWithNewlines(script);
  }

  /**
   Two scripts whose first two statements differ and join to the same text: a
   statement that ends in a line comment hides the separator after it.
   */
  lemma JoinConfusesComments()
    ensures var a, b := Split("a--" + "\n;" + "b--;\nc"), Split("a--;\nb--" + "\n;" + "c");
            |a| == |b| == 2 && a != b && Join(a, ";\n") == Join(b, ";\n")
  {
    hide Split;
    SplitTwo("a--", "b--;\nc");
    SplitTwo("a--;\nb--", "c");
    JoinTwo("a--", "b--;\nc");
    JoinTwo("a--;\nb--", "c");
    assert "a--" + ";\n" + "b--;\nc" == "a--;\nb--" + ";\n" + "c";
  }

  lemma JoinTwo(s: string, t: string)
    ensures Join([s, t], ";\n") == s + ";\n" + t
  {
  }

  lemma SplitTwo(s: string, t: string)
    requires (s == "a--" && t == "b--;\nc") || (s == "a--;\nb--" && t == "c")
    ensures Split(s + "\n;" + t) == [s, t]
  {
    hide Len, After, Content, NextCut, EndMode, MeaningfulFrom, Trim, Pieces, Keep;
    FirstLiteral("a--");
    SecondLiteral("a--;\nb--");
    LastLiteral();
    NewlineCloses(s);
    Padded("", s, "\n");
    Padded("", t, "");
    CutOne(s + "\n", t);
    assert (s + "\n") + (";" + t) == s + "\n;" + t;
    UncutPieces(t);
    assert "" + (s + "\n") == s + "\n" && "" + (t + "") == t;
    KeptConcat([s + "\n"], [t]);
    assert Contentful([s]) == [s] && Contentful([t]) == [t];
  }

  lemma LetterToken(s: string, i: nat)
    requires i < |s| && 'a' <= s[i] <= 'z'
    ensures Len(s, i, Normal) == 1 && After(s, i, Normal) == Normal && Content(s, i, Normal)
  {
  }

  lemma DashToken(s: string, i: nat)
    requires i + 1 < |s| && s[i] == s[i + 1] == '-'
    ensures Len(s, i, Normal) == 1 && After(s, i, Normal) == LineComment
  {
  }

  lemma CommentToken(s: string, i: nat)
    requires i < |s|
    ensures Len(s, i, LineComment) == 1 && After(s, i, LineComment) == if s[i] == '\n' then Normal else LineComment
  {
  }

  lemma FirstLiteral(s: string)
    requires s == "a--" || s == "b--"
    ensures Whole(s) && Ends(s).LineComment? && Meaningful(s)
  {
    hide Len, After, Content;
    LetterToken(s, 0);
    DashToken(s, 1);
    CommentToken(s, 2);
    assert NextCut(s, 2, LineComment) == 3 && EndMode(s, 2, LineComment) == LineComment;
    assert NextCut(s, 1, Normal) == 3 && EndMode(s, 1, Normal) == LineComment;
  }

  lemma SecondLiteral(s: string)
    requires s == "a--;\nb--"
    ensures Whole(s) && Ends(s).LineComment? && Meaningful(s)
  {
    hide Whole, Ends, Meaningful;
    FirstLiteral("a--");
    FirstLiteral("b--");
    CommentedPair("a--", "b--");
    assert s == "a--" + (";\n" + "b--");
  }

  lemma CommentedPair(a: string, b: string)
    requires Whole(a) && Whole(b) && Ends(a).LineComment? && Ends(b).LineComment? && Meaningful(a)
    ensures var s := a + (";\n" + b); Whole(s) && Ends(s).LineComment? && Meaningful(s)
  {
    hide Len, After, Content, NextCut, EndMode, MeaningfulFrom;
    Concat(a, ";\n" + b);
    CommentedSeparator(b);
  }

  lemma LastLiteral()
    ensures var t := "b--;\nc"; Whole(t) && Meaningful(t)
    ensures Whole("c") && Meaningful("c")
  {
    hide Len, After, Content;
    var t := "b--;\nc";
    LetterToken("c", 0);
    LetterToken(t, 0);
    DashToken(t, 1);
    CommentToken(t, 2);
    CommentToken(t, 3);
    CommentToken(t, 4);
    LetterToken(t, 5);
    assert NextCut(t, 4, LineComment) == 6;
    assert NextCut(t, 2, LineComment) == 6;
  }
}
