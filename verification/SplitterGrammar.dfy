/**
 The splitter without its modes: which texts a script is made of, which of them
 may hold semicolons, and which are statement content (db/sqlsplit.go:5-16).
 */
module SplitterGrammar {
  import opened Splitter
  import opened SplitterLaws
  import opened Letters

  // ---------- The texts of a script ----------

  /** -- to the end of its line. */
  ghost predicate IsLineComment(t: string) {
    |t| >= 3 && t[0] == '-' && t[1] == '-' && t[|t| - 1] == '\n' && forall k :: 0 <= k < |t| - 1 ==> t[k] != '\n'
  }

  ghost predicate ClosesAt(t: string, k: nat) {
    k + 1 < |t| && t[k] == '*' && t[k + 1] == '/'
  }

  /** Opened by a slash and a star, and closed by the first star and slash behind that slash. */
  ghost predicate IsBlockComment(t: string) {
    |t| >= 3 && t[0] == '/' && t[1] == '*' && ClosesAt(t, |t| - 2) && forall k :: 1 <= k < |t| - 2 ==> !ClosesAt(t, k)
  }

  /** Every q in b is doubled. */
  ghost predicate Doubled(b: string, q: char)
    decreases |b|
  {
    b == "" || (b[0] != q && Doubled(b[1..], q)) || (|b| >= 2 && b[0] == q && b[1] == q && Doubled(b[2..], q))
  }

  /** Every quote in b is doubled or behind a backslash, and something is behind every backslash. */
  ghost predicate Escaped(b: string)
    decreases |b|
  {
    || b == ""
    || (b[0] != '\'' && b[0] != '\\' && Escaped(b[1..]))
    || (|b| >= 2 && b[0] == '\\' && Escaped(b[2..]))
    || (|b| >= 2 && b[0] == '\'' && b[1] == '\'' && Escaped(b[2..]))
  }

  ghost predicate IsString(t: string) {
    |t| >= 2 && t[0] == '\'' && t[|t| - 1] == '\'' && Escaped(t[1..|t| - 1])
  }

  ghost predicate IsIdentifier(t: string) {
    |t| >= 2 && t[0] == '"' && t[|t| - 1] == '"' && Doubled(t[1..|t| - 1], '"')
  }

  ghost predicate IsBacktick(t: string) {
    |t| >= 2 && t[0] == '`' && t[|t| - 1] == '`' && forall k :: 1 <= k < |t| - 1 ==> t[k] != '`'
  }

  ghost predicate IsTagLetter(c: char) {
    c in UPPER || c in LOWER || c in DIGITS || c == '_'
  }

  /** $$, or letters, digits and underscores between dollar signs. */
  ghost predicate IsTag(t: string) {
    |t| >= 2 && t[0] == '$' && t[|t| - 1] == '$' && forall k :: 1 <= k < |t| - 1 ==> IsTagLetter(t[k])
  }

  ghost predicate Occurs(t: string, k: nat, tag: string) {
    k + |tag| <= |t| && t[k..k + |tag|] == tag
  }

  /** A body between two of the same tag, and no other of them in between. */
  ghost predicate IsDollarQuoted(t: string, tag: string) {
    && IsTag(tag) && 2 * |tag| <= |t| && Occurs(t, 0, tag) && Occurs(t, |t| - |tag|, tag)
    && forall k :: |tag| <= k < |t| - |tag| ==> !Occurs(t, k, tag)
  }

  ghost predicate IsComment(t: string) {
    IsLineComment(t) || IsBlockComment(t)
  }

  ghost predicate IsQuoted(t: string) {
    IsString(t) || IsIdentifier(t) || IsBacktick(t) || exists tag :: IsDollarQuoted(t, tag)
  }

  /** t is a comment that is never closed. */
  ghost predicate IsOpenComment(t: string) {
    || (|t| >= 2 && t[0] == '-' && t[1] == '-' && forall k :: 0 <= k < |t| ==> t[k] != '\n')
    || (|t| >= 2 && t[0] == '/' && t[1] == '*' && forall k :: 1 <= k < |t| ==> !ClosesAt(t, k))
  }

  /** t is a quoted text that is never closed. */
  ghost predicate IsOpenQuote(t: string) {
    || (t != "" && t[0] == '\'' && (Escaped(t[1..]) || (|t| >= 2 && t[|t| - 1] == '\\' && Escaped(t[1..|t| - 1]))))
    || (t != "" && t[0] == '"' && Doubled(t[1..], '"'))
    || (t != "" && t[0] == '`' && forall k :: 1 <= k < |t| ==> t[k] != '`')
    || exists tag :: IsOpenDollar(t, tag)
  }

  ghost predicate IsOpenDollar(t: string, tag: string) {
    IsTag(tag) && Occurs(t, 0, tag) && forall k :: |tag| <= k < |t| ==> !Occurs(t, k, tag)
  }

  ghost predicate IsBlank(c: char) {
    c in " \t\n\r"
  }

  /** Nothing with semicolons of its own begins at i. */
  ghost predicate IsPlain(s: string, i: nat) {
    && i < |s| && s[i] !in ";'\"`"
    && !(s[i] == '-' && i + 1 < |s| && s[i + 1] == '-') && !(s[i] == '/' && i + 1 < |s| && s[i + 1] == '*')
    && forall n :: i < n <= |s| ==> !IsTag(s[i..n])
  }

  /** The quote that t ends with is not doubled by what follows it. */
  ghost predicate EndsQuote(s: string, i: nat, j: nat) {
    i < j <= |s| && ((s[i] == '\'' || s[i] == '"') && j < |s| ==> s[j] != s[i])
  }

  /** s[i..j] is a comment. */
  ghost predicate CommentAt(s: string, i: nat, j: nat) {
    i < j <= |s| && (IsComment(s[i..j]) || (j == |s| && IsOpenComment(s[i..])))
  }

  /** s[i..j] is a quoted text. */
  ghost predicate QuoteAt(s: string, i: nat, j: nat) {
    i < j <= |s| && ((IsQuoted(s[i..j]) && EndsQuote(s, i, j)) || (j == |s| && IsOpenQuote(s[i..])))
  }

  /** s[i..j] is a comment, a quoted text, or one other character but a semicolon. */
  ghost predicate TextAt(s: string, i: nat, j: nat) {
    CommentAt(s, i, j) || QuoteAt(s, i, j) || (IsPlain(s, i) && j == i + 1)
  }

  /** ... and nothing is open behind it. */
  ghost predicate ClosedAt(s: string, i: nat, j: nat) {
    i < j <= |s| && (IsComment(s[i..j]) || (IsQuoted(s[i..j]) && EndsQuote(s, i, j)) || (IsPlain(s, i) && j == i + 1))
  }

  /** It is statement content: neither a comment nor white space. */
  ghost predicate IsContent(s: string, i: nat, j: nat) {
    QuoteAt(s, i, j) || (IsPlain(s, i) && j == i + 1 && !IsBlank(s[i]))
  }

  /** One such text after the other, the k-th from js[k] to js[k + 1]. */
  ghost predicate IsText(s: string, js: seq<nat>) {
    js != [] && forall k :: 0 <= k < |js| - 1 ==> TextAt(s, js[k], js[k + 1])
  }

  // ---------- From a mode back to none ----------

  /** From k in mode m the scanner comes to e with nothing open, or to the end, without a cut or content. */
  ghost predicate Returns(s: string, k: nat, m: Mode, e: nat, closed: bool) {
    && k <= |s| && e <= |s| && WellFormed(m)
    && (if closed then EndMode(s, k, m) == EndMode(s, e, Normal) else e == |s| && !EndMode(s, k, m).Normal?)
    && NextCut(s, k, m) == NextCut(s, e, Normal) && MeaningfulFrom(s, k, m) == MeaningfulFrom(s, e, Normal)
  }

  lemma AtEnd(s: string, m: Mode)
    requires WellFormed(m)
    ensures Returns(s, |s|, m, |s|, m.Normal?)
  {
  }

  lemma {:induction false} LineRuns(s: string, k: nat, e: nat)
    requires k <= e <= |s| && (forall n :: k <= n < e - 1 ==> s[n] != '\n')
    requires if k < e && s[e - 1] == '\n' then true else e == |s| && (k < e ==> s[e - 1] != '\n')
    ensures Returns(s, k, LineComment, e, k < e && s[e - 1] == '\n')
    decreases e - k
  {
    if k < e && s[k] != '\n' {
      LineRuns(s, k + 1, e);
    }
  }

  lemma {:induction false} BlockRuns(s: string, k: nat, e: nat)
    requires k <= e <= |s|
    requires if k + 2 <= e && ClosesAt(s, e - 2) then forall n :: k <= n < e - 2 ==> !ClosesAt(s, n)
             else e == |s| && forall n :: k <= n < e ==> !ClosesAt(s, n)
    ensures Returns(s, k, BlockComment, e, k + 2 <= e && ClosesAt(s, e - 2))
    decreases e - k
  {
    if k < e && !ClosesAt(s, k) {
      BlockRuns(s, k + 1, e);
    }
  }

  lemma {:induction false} BacktickRuns(s: string, k: nat, e: nat)
    requires k <= e <= |s| && (forall n :: k <= n < e - 1 ==> s[n] != '`')
    requires if k < e && s[e - 1] == '`' then true else e == |s| && (k < e ==> s[e - 1] != '`')
    ensures Returns(s, k, Backtick, e, k < e && s[e - 1] == '`')
    decreases e - k
  {
    if k < e && s[k] != '`' {
      BacktickRuns(s, k + 1, e);
    }
  }

  lemma {:induction false} DollarRuns(s: string, k: nat, e: nat, tag: string)
    requires k <= e <= |s| && IsTag(tag) && WellFormed(Dollar(tag))
    requires TagCloses(s, k, e, tag)
    ensures Returns(s, k, Dollar(tag), e, k + |tag| <= e && Occurs(s, e - |tag|, tag))
    decreases e - k
  {
    if k < e && !Occurs(s, k, tag) {
      DollarRuns(s, k + 1, e, tag);
    }
  }

  /** ... over a body, and then its closing quote. */
  lemma {:induction false} IdentifierRuns(s: string, k: nat, e: nat)
    requires k <= e <= |s| && Doubled(s[k..e], '"') && (e == |s| || (s[e] == '"' && (e + 1 < |s| ==> s[e + 1] != '"')))
    ensures Returns(s, k, DoubleQuote, if e == |s| then e else e + 1, e < |s|)
    decreases e - k
  {
    if k < e {
      if s[k] != '"' {
        assert s[k..e][1..] == s[k + 1..e];
        IdentifierRuns(s, k + 1, e);
      } else {
        assert s[k..e][2..] == s[k + 2..e] && s[k..e][1] == s[k + 1];
        IdentifierRuns(s, k + 2, e);
      }
    }
  }

  lemma {:induction false} StringRuns(s: string, k: nat, e: nat)
    requires k <= e <= |s| && Escaped(s[k..e])
    requires e == |s| || (s[e] == '\'' && (e + 1 < |s| ==> s[e + 1] != '\'')) || (s[e] == '\\' && e + 1 == |s|)
    ensures Returns(s, k, SingleQuote, if e == |s| then e else e + 1, e < |s| && s[e] == '\'')
    decreases e - k
  {
    hide Escaped;
    if k < e {
      EscapedStep(s, k, e);
      if s[k] != '\'' && s[k] != '\\' {
        assert Len(s, k, SingleQuote) == 1 && After(s, k, SingleQuote) == SingleQuote;
        StringRuns(s, k + 1, e);
      } else {
        assert At(s, k + 1, s[k + 1]) && Len(s, k, SingleQuote) == 2 && After(s, k, SingleQuote) == SingleQuote;
        StringRuns(s, k + 2, e);
      }
    } else if e < |s| {
      AtEnd(s, SingleQuote);
      assert Len(s, k, SingleQuote) == 1 && (s[k] == '\'' ==> After(s, k, SingleQuote) == Normal);
    }
  }

  lemma EscapedStep(s: string, k: nat, e: nat)
    requires k < e <= |s| && Escaped(s[k..e])
    ensures s[k] != '\'' && s[k] != '\\' ==> Escaped(s[k + 1..e])
    ensures s[k] == '\'' || s[k] == '\\' ==> k + 2 <= e && Escaped(s[k + 2..e]) && (s[k] == '\'' ==> s[k + 1] == '\'')
  {
    assert s[k..e][1..] == s[k + 1..e];
    if k + 2 <= e {
      assert s[k..e][2..] == s[k + 2..e] && s[k..e][1] == s[k + 1];
    }
  }

  // ---------- Each text is crossed whole ----------

  /** The characters of a tag. */
  lemma TagLetters(c: char)
    ensures IsTagLetter(c) <==> TagChar(c)
  {
    UpperLetters(c);
    LowerLetters(c);
    Digits(c);
  }

  /** The white space around a statement. */
  const WHITE := "\t\n\U{0B}\U{0C}\r \U{85}\U{A0}\U{1680}\U{2000}\U{2001}\U{2002}\U{2003}\U{2004}"
               + "\U{2005}\U{2006}\U{2007}\U{2008}\U{2009}\U{200A}"
               + "\U{2028}\U{2029}\U{202F}\U{205F}\U{3000}"

  lemma SpacesAre(c: char)
    ensures Space(c) <==> c in WHITE
  {
    if '\U{2000}' <= c <= '\U{200A}' {
      assert WHITE[9 + (c as int - 0x2000)] == c;
    }
  }

  lemma TagIsFound(s: string, i: nat, tag: string)
    requires i < |s| && IsTag(tag) && Occurs(s[i..], 0, tag)
    ensures TagLen(s[i..]) == |tag| && s[i..][..|tag|] == tag && WellFormed(Dollar(tag))
  {
    forall k | 1 <= k < |tag| - 1 ensures TagChar(tag[k]) {
      TagLetters(tag[k]);
    }
    assert forall k :: 0 <= k < |tag| ==> s[i..][k] == tag[k];
    TagIsUnique(s[i..], 1, |tag|);
  }

  lemma FoundIsTag(s: string, i: nat)
    requires i < |s| && TagLen(s[i..]) > 0
    ensures i + TagLen(s[i..]) <= |s| && IsTag(s[i..i + TagLen(s[i..])])
  {
    var tag := s[i..i + TagLen(s[i..])];
    forall k | 1 <= k < |tag| - 1 ensures IsTagLetter(tag[k]) {
      TagLetters(tag[k]);
    }
  }

  /** What stands at i, with no mode to tell it. */
  ghost predicate Crosses(s: string, i: nat, j: nat, content: bool, closed: bool) {
    && i < j <= |s|
    && (if closed then EndMode(s, i, Normal) == EndMode(s, j, Normal) else j == |s| && !EndMode(s, i, Normal).Normal?)
    && NextCut(s, i, Normal) == NextCut(s, j, Normal)
    && MeaningfulFrom(s, i, Normal) == (content || MeaningfulFrom(s, j, Normal))
  }

  lemma CommentCrosses(s: string, i: nat, j: nat)
    requires CommentAt(s, i, j)
    ensures Crosses(s, i, j, false, IsComment(s[i..j]))
  {
    var t := if j == |s| && IsOpenComment(s[i..]) then s[i..] else s[i..j];
    assert forall k :: 0 <= k < |t| ==> t[k] == s[i + k];
    if t[0] == '-' {
      LineRuns(s, i + 1, j);
    } else {
      assert forall k :: i + 1 <= k < j - 1 ==> (ClosesAt(s, k) <==> ClosesAt(t, k - i));
      BlockRuns(s, i + 1, j);
    }
  }

  lemma StringCrosses(s: string, i: nat, j: nat, closed: bool)
    requires i < j <= |s| && s[i] == '\''
    requires if closed then j - i >= 2 && s[j - 1] == '\'' && Escaped(s[i + 1..j - 1]) && EndsQuote(s, i, j)
             else j == |s| && (Escaped(s[i + 1..]) || (s[j - 1] == '\\' && i + 1 < j && Escaped(s[i + 1..j - 1])))
    ensures Crosses(s, i, j, true, closed)
  {
    if closed {
      StringRuns(s, i + 1, j - 1);
    } else if Escaped(s[i + 1..]) {
      assert s[i + 1..] == s[i + 1..j];
      StringRuns(s, i + 1, j);
    } else {
      StringRuns(s, i + 1, j - 1);
    }
  }

  lemma IdentifierCrosses(s: string, i: nat, j: nat, closed: bool)
    requires i < j <= |s| && s[i] == '"'
    requires if closed then j - i >= 2 && s[j - 1] == '"' && Doubled(s[i + 1..j - 1], '"') && EndsQuote(s, i, j)
             else j == |s| && Doubled(s[i + 1..], '"')
    ensures Crosses(s, i, j, true, closed)
  {
    if closed {
      IdentifierRuns(s, i + 1, j - 1);
    } else {
      assert s[i + 1..] == s[i + 1..j];
      IdentifierRuns(s, i + 1, j);
    }
  }

  lemma BacktickCrosses(s: string, i: nat, j: nat, closed: bool)
    requires i < j <= |s|
    requires if closed then IsBacktick(s[i..j]) else j == |s| && s[i] == '`' && forall k :: i + 1 <= k < j ==> s[k] != '`'
    ensures Crosses(s, i, j, true, closed)
  {
    assert forall k :: 0 <= k < j - i ==> s[i..j][k] == s[i + k];
    BacktickRuns(s, i + 1, j);
  }

  lemma DollarCrosses(s: string, i: nat, j: nat, tag: string, closed: bool)
    requires i < j <= |s| && if closed then IsDollarQuoted(s[i..j], tag) else j == |s| && IsOpenDollar(s[i..], tag)
    ensures Crosses(s, i, j, true, closed)
  {
    hide Occurs, TagCloses, NextCut, MeaningfulFrom, EndMode;
    assert j == |s| ==> s[i..] == s[i..j];
    TagStands(s, i, j, tag);
    DollarIsClosed(s, i, j, tag, closed);
    DollarRuns(s, i + |tag|, j, tag);
    DollarOpens(s, i, tag);
  }

  lemma DollarOpens(s: string, i: nat, tag: string)
    requires i < |s| && tag != "" && TagLen(s[i..]) == |tag| && s[i..][..|tag|] == tag && WellFormed(Dollar(tag))
    ensures i + |tag| <= |s| && NextCut(s, i, Normal) == NextCut(s, i + |tag|, Dollar(tag)) && MeaningfulFrom(s, i, Normal)
    ensures EndMode(s, i, Normal) == EndMode(s, i + |tag|, Dollar(tag))
  {
    hide TagLen;
    DollarToken(s, i, tag);
    assert i + Len(s, i, Normal) == i + |tag|;
  }

  lemma DollarToken(s: string, i: nat, tag: string)
    requires i < |s| && tag != "" && TagLen(s[i..]) == |tag| && s[i..][..|tag|] == tag
    ensures s[i] == '$' && Len(s, i, Normal) == |tag| && After(s, i, Normal) == Dollar(tag) && Content(s, i, Normal)
  {
  }

  /** The tag is closed at e, or never. */
  ghost predicate TagCloses(s: string, k: nat, e: nat, tag: string) {
    if k + |tag| <= e && Occurs(s, e - |tag|, tag) then forall n :: k <= n < e - |tag| ==> !Occurs(s, n, tag)
    else e == |s| && forall n :: k <= n < e ==> !Occurs(s, n, tag)
  }

  lemma DollarIsClosed(s: string, i: nat, j: nat, tag: string, closed: bool)
    requires i < j <= |s| && IsTag(tag) && i + |tag| <= j
    requires if closed then IsDollarQuoted(s[i..j], tag) else j == |s| && IsOpenDollar(s[i..j], tag)
    ensures TagCloses(s, i + |tag|, j, tag) && (closed <==> i + 2 * |tag| <= j && Occurs(s, j - |tag|, tag))
  {
    hide Occurs, IsTag;
    var t := s[i..j];
    if closed {
      OccursIn(s, i, j, t, j - |tag|, tag);
      forall n | i + |tag| <= n < j - |tag| ensures !Occurs(s, n, tag) {
        OccursIn(s, i, j, t, n, tag);
      }
    } else {
      forall n | i + |tag| <= n < j ensures !Occurs(s, n, tag) {
        OccursIn(s, i, j, t, n, tag);
      }
      TagIsLong(tag);
    }
  }

  lemma TagIsLong(tag: string)
    requires IsTag(tag)
    ensures |tag| >= 2
  {
  }

  lemma ClosedIsDollar(s: string, i: nat, j: nat, tag: string)
    requires i < j <= |s| && IsTag(tag) && i + |tag| <= j && Occurs(s[i..j], 0, tag) && TagCloses(s, i + |tag|, j, tag)
    ensures IsDollarQuoted(s[i..j], tag) || (j == |s| && IsOpenDollar(s[i..j], tag))
  {
    hide Occurs, IsTag;
    var t := s[i..j];
    if i + 2 * |tag| <= j && Occurs(s, j - |tag|, tag) {
      OccursIn(s, i, j, t, j - |tag|, tag);
      forall k | |tag| <= k < |t| - |tag| ensures !Occurs(t, k, tag) {
        OccursIn(s, i, j, t, i + k, tag);
      }
    } else {
      forall k | |tag| <= k < |t| ensures !Occurs(t, k, tag) {
        OccursIn(s, i, j, t, i + k, tag);
      }
    }
  }

  lemma TagStands(s: string, i: nat, j: nat, tag: string)
    requires i < j <= |s| && IsTag(tag) && Occurs(s[i..j], 0, tag)
    ensures i + |tag| <= j && TagLen(s[i..]) == |tag| && s[i..][..|tag|] == tag && WellFormed(Dollar(tag))
  {
    Slice(s, i, j, 0, |tag|);
    Slice(s, i, |s|, 0, |tag|);
    assert s[i..|s|] == s[i..];
    TagIsFound(s, i, tag);
  }

  lemma OccursIn(s: string, i: nat, j: nat, t: string, k: nat, tag: string)
    requires i <= k <= j <= |s| && t == s[i..j]
    ensures Occurs(s, k, tag) && k + |tag| <= j <==> Occurs(t, k - i, tag)
    ensures Occurs(s, k, tag) ==> k + |tag| <= |s|
  {
    if k + |tag| <= j {
      Slice(s, i, j, k - i, k - i + |tag|);
    }
  }

  lemma Inside(s: string, i: nat, j: nat)
    requires i < j <= |s|
    ensures s[i..][1..] == s[i + 1..] && s[i..j][j - i - 1] == s[j - 1] && s[i..j][0] == s[i]
    ensures j - i >= 2 ==> s[i..j][1..j - i - 1] == s[i + 1..j - 1]
    ensures j == |s| ==> s[i..] == s[i..j]
  {
    if j - i >= 2 {
      Slice(s, i, j, 1, j - i - 1);
    }
  }

  lemma Slice(s: string, i: nat, j: nat, a: nat, b: nat)
    requires i <= j <= |s| && a <= b <= j - i
    ensures s[i..j][a..b] == s[i + a..i + b]
  {
    var t := s[i..j];
    assert |t[a..b]| == |s[i + a..i + b]|;
    assert forall n :: 0 <= n < b - a ==> t[a..b][n] == t[a + n] == s[i + a + n] == s[i + a..i + b][n];
  }

  lemma QuoteCrosses(s: string, i: nat, j: nat, closed: bool)
    requires i < j <= |s|
    requires if closed then IsQuoted(s[i..j]) && EndsQuote(s, i, j) else j == |s| && IsOpenQuote(s[i..])
    ensures Crosses(s, i, j, true, closed)
  {
    var t := if closed then s[i..j] else s[i..];
    assert t[0] == s[i];
    Inside(s, i, j);
    if s[i] == '\'' {
      StringCrosses(s, i, j, closed);
    } else if s[i] == '"' {
      IdentifierCrosses(s, i, j, closed);
    } else if s[i] == '`' {
      assert forall k :: 0 <= k < |s| - i ==> s[i..][k] == s[i + k];
      BacktickCrosses(s, i, j, closed);
    } else {
      var tag :| if closed then IsDollarQuoted(t, tag) else IsOpenDollar(t, tag);
      DollarCrosses(s, i, j, tag, closed);
    }
  }

  lemma PlainCrosses(s: string, i: nat)
    requires IsPlain(s, i)
    ensures Crosses(s, i, i + 1, !IsBlank(s[i]), true)
  {
    if TagLen(s[i..]) > 0 {
      FoundIsTag(s, i);
    }
  }

  /** A comment, a quoted text or another character is crossed without a cut, and is content as it should. */
  lemma TextCrosses(s: string, i: nat, j: nat)
    requires TextAt(s, i, j)
    ensures Crosses(s, i, j, IsContent(s, i, j), ClosedAt(s, i, j))
  {
    hide Crosses, IsPlain, IsComment, IsQuoted, IsOpenComment, IsOpenQuote, EndsQuote, IsBlank;
    Apart(s, i, j);
    if QuoteAt(s, i, j) {
      QuoteCrosses(s, i, j, IsQuoted(s[i..j]) && EndsQuote(s, i, j));
    } else if CommentAt(s, i, j) {
      CommentCrosses(s, i, j);
    } else {
      PlainCrosses(s, i);
    }
  }

  /** So no semicolon in it is a cut, and one behind it is. */
  lemma CutIsBehind(s: string, i: nat, j: nat)
    requires ClosedAt(s, i, j)
    ensures j <= NextCut(s, i, Normal) && (j < |s| && s[j] == ';' ==> NextCut(s, i, Normal) == j)
    ensures EndMode(s, i, Normal) == EndMode(s, j, Normal)
  {
    hide IsPlain, IsComment, IsQuoted, IsOpenComment, IsOpenQuote, EndsQuote, EndMode;
    TextCrosses(s, i, j);
  }

  /** A comment is no quoted text, and neither begins with a plain character. */
  lemma Apart(s: string, i: nat, j: nat)
    ensures CommentAt(s, i, j) ==> !IsPlain(s, i) && !QuoteAt(s, i, j)
    ensures QuoteAt(s, i, j) ==> !IsPlain(s, i) && !IsComment(s[i..j])
  {
    if i < j <= |s| {
      assert s[i..][0] == s[i] && s[i..j][0] == s[i];
      assert i + 1 < |s| ==> s[i..][1] == s[i + 1];
      assert i + 1 < j ==> s[i..j][1] == s[i + 1];
      if s[i] == '$' && QuoteAt(s, i, j) {
        SomeTag(s, i, j);
      }
    }
  }

  lemma SomeTag(s: string, i: nat, j: nat)
    requires QuoteAt(s, i, j) && s[i] == '$'
    ensures exists n :: i < n <= |s| && IsTag(s[i..n])
  {
    var tag: string;
    if IsQuoted(s[i..j]) && EndsQuote(s, i, j) {
      assert s[i..j][0] == '$';
      tag :| IsDollarQuoted(s[i..j], tag);
      Slice(s, i, j, 0, |tag|);
    } else {
      assert s[i..][0] == '$' && s[i..] == s[i..|s|];
      tag :| IsOpenDollar(s[i..], tag);
      Slice(s, i, |s|, 0, |tag|);
    }
    assert s[i..i + |tag|] == tag;
  }

  // ---------- Every script is made of such texts ----------

  lemma {:induction false} FindLineEnd(s: string, k: nat) returns (e: nat)
    requires k <= |s|
    ensures k <= e <= |s| && (forall n :: k <= n < e - 1 ==> s[n] != '\n')
    ensures if k < e && s[e - 1] == '\n' then true else e == |s| && (k < e ==> s[e - 1] != '\n')
    decreases |s| - k
  {
    if k == |s| || s[k] == '\n' {
      e := if k == |s| then k else k + 1;
    } else {
      e := FindLineEnd(s, k + 1);
    }
  }

  lemma {:induction false} FindClose(s: string, k: nat) returns (e: nat)
    requires k <= |s|
    ensures k <= e <= |s|
    ensures if k + 2 <= e && ClosesAt(s, e - 2) then forall n :: k <= n < e - 2 ==> !ClosesAt(s, n)
            else e == |s| && forall n :: k <= n < |s| ==> !ClosesAt(s, n)
    decreases |s| - k
  {
    if k == |s| || ClosesAt(s, k) {
      e := if k == |s| then k else k + 2;
    } else {
      e := FindClose(s, k + 1);
    }
  }

  lemma {:induction false} FindBacktick(s: string, k: nat) returns (e: nat)
    requires k <= |s|
    ensures k <= e <= |s| && (forall n :: k <= n < e - 1 ==> s[n] != '`')
    ensures if k < e && s[e - 1] == '`' then true else e == |s| && (k < e ==> s[e - 1] != '`')
    decreases |s| - k
  {
    if k == |s| || s[k] == '`' {
      e := if k == |s| then k else k + 1;
    } else {
      e := FindBacktick(s, k + 1);
    }
  }

  lemma {:induction false} FindTag(s: string, k: nat, tag: string) returns (e: nat)
    requires k <= |s| && tag != ""
    ensures k <= e <= |s|
    ensures TagCloses(s, k, e, tag)
    decreases |s| - k
  {
    if k == |s| || Occurs(s, k, tag) {
      e := if k == |s| then k else k + |tag|;
    } else {
      e := FindTag(s, k + 1, tag);
    }
  }

  /** The closing quote, or the end. */
  lemma {:induction false} FindQuote(s: string, k: nat, q: char) returns (e: nat)
    requires k <= |s|
    ensures k <= e <= |s| && Doubled(s[k..e], q) && (e == |s| || (s[e] == q && (e + 1 < |s| ==> s[e + 1] != q)))
    decreases |s| - k
  {
    if k == |s| || (s[k] == q && (k + 1 < |s| ==> s[k + 1] != q)) {
      e := k;
    } else if s[k] == q {
      e := FindQuote(s, k + 2, q);
      assert s[k..e][2..] == s[k + 2..e] && s[k..e][1] == s[k + 1];
    } else {
      e := FindQuote(s, k + 1, q);
      assert s[k..e][1..] == s[k + 1..e];
    }
  }

  lemma {:induction false} FindStringEnd(s: string, k: nat) returns (e: nat)
    requires k <= |s|
    ensures k <= e <= |s| && Escaped(s[k..e])
    ensures e == |s| || (s[e] == '\'' && (e + 1 < |s| ==> s[e + 1] != '\'')) || (s[e] == '\\' && e + 1 == |s|)
    decreases |s| - k
  {
    if k == |s| || (s[k] == '\'' && (k + 1 < |s| ==> s[k + 1] != '\'')) || (s[k] == '\\' && k + 1 == |s|) {
      e := k;
    } else if s[k] == '\'' || s[k] == '\\' {
      e := FindStringEnd(s, k + 2);
      assert s[k..e][2..] == s[k + 2..e] && s[k..e][1] == s[k + 1];
    } else {
      e := FindStringEnd(s, k + 1);
      assert s[k..e][1..] == s[k + 1..e];
    }
  }

  lemma CommentEnds(s: string, i: nat) returns (j: nat)
    requires i + 1 < |s| && ((s[i] == '-' && s[i + 1] == '-') || (s[i] == '/' && s[i + 1] == '*'))
    ensures CommentAt(s, i, j)
  {
    if s[i] == '-' {
      j := FindLineEnd(s, i + 1);
    } else {
      j := FindClose(s, i + 1);
    }
    assert forall k :: 0 <= k < j - i ==> s[i..j][k] == s[i + k];
    assert j == |s| ==> s[i..] == s[i..j];
    assert forall k :: 0 <= k < j - i - 1 ==> (ClosesAt(s[i..j], k) <==> ClosesAt(s, i + k));
  }

  lemma QuoteEnds(s: string, i: nat) returns (j: nat)
    requires i < |s| && s[i] in "'\"`"
    ensures QuoteAt(s, i, j)
  {
    if s[i] == '\'' {
      j := StringEnds(s, i);
    } else if s[i] == '"' {
      var e := FindQuote(s, i + 1, '"');
      j := if e == |s| then e else e + 1;
      Inside(s, i, j);
    } else {
      j := FindBacktick(s, i + 1);
      assert forall k :: 0 <= k < j - i ==> s[i..j][k] == s[i + k];
      assert j == |s| ==> s[i..] == s[i..j];
    }
  }

  lemma StringEnds(s: string, i: nat) returns (j: nat)
    requires i < |s| && s[i] == '\''
    ensures QuoteAt(s, i, j)
  {
    var e := FindStringEnd(s, i + 1);
    j := if e == |s| then e else e + 1;
    Inside(s, i, j);
    assert j == |s| ==> s[i..][|s| - i - 1] == s[|s| - 1];
  }

  lemma TagEnds(s: string, i: nat, n: nat) returns (j: nat)
    requires i < n <= |s| && IsTag(s[i..n])
    ensures n <= j && QuoteAt(s, i, j)
  {
    hide IsTag, Occurs;
    var tag := s[i..n];
    j := FindTag(s, n, tag);
    assert j == |s| ==> s[i..] == s[i..j];
    TagOccurs(s, i, n, j);
    ClosedIsDollar(s, i, j, tag);
    EndsFreely(s, i, n, j);
  }

  /** A tag is doubled by nothing. */
  lemma EndsFreely(s: string, i: nat, n: nat, j: nat)
    requires i < n <= j <= |s| && IsTag(s[i..n])
    ensures EndsQuote(s, i, j)
  {
    assert s[i..n][0] == s[i];
  }

  lemma TagOccurs(s: string, i: nat, n: nat, j: nat)
    requires i < n <= j <= |s|
    ensures Occurs(s, i, s[i..n]) && Occurs(s[i..j], 0, s[i..n])
  {
    Slice(s, i, j, 0, n - i);
  }

  /** Unless a semicolon stands there, a text does. */
  lemma SomeText(s: string, i: nat) returns (j: nat)
    requires i < |s| && s[i] != ';'
    ensures TextAt(s, i, j)
  {
    hide CommentAt, QuoteAt, IsTag;
    if i + 1 < |s| && ((s[i] == '-' && s[i + 1] == '-') || (s[i] == '/' && s[i + 1] == '*')) {
      j := CommentEnds(s, i);
    } else if s[i] in "'\"`" {
      j := QuoteEnds(s, i);
    } else if exists n :: i < n <= |s| && IsTag(s[i..n]) {
      var n :| i < n <= |s| && IsTag(s[i..n]);
      j := TagEnds(s, i, n);
    } else {
      j := i + 1;
    }
  }

  // ---------- What a piece is ----------

  /** Texts from the beginning of p to its end. */
  ghost predicate Spells(p: string, js: seq<nat>) {
    IsText(p, js) && js[0] == 0 && js[|js| - 1] == |p|
  }

  /** The last of them is closed. */
  ghost predicate SpellsClosed(p: string, js: seq<nat>) {
    Spells(p, js) && (|js| > 1 ==> ClosedAt(p, js[|js| - 2], js[|js| - 1]))
  }

  ghost predicate IsPiece(p: string) {
    exists js :: Spells(p, js)
  }

  ghost predicate IsClosedPiece(p: string) {
    exists js :: SpellsClosed(p, js)
  }

  ghost predicate HasContent(p: string, js: seq<nat>, from: nat) {
    exists k :: from <= k < |js| - 1 && IsContent(p, js[k], js[k + 1])
  }

  lemma {:induction false} TextsCross(p: string, js: seq<nat>, k: nat)
    requires Spells(p, js) && k < |js|
    ensures js[k] <= |p| && NextCut(p, js[k], Normal) == |p|
    ensures MeaningfulFrom(p, js[k], Normal) <==> HasContent(p, js, k)
    ensures EndMode(p, js[k], Normal).Normal? <==> k == |js| - 1 || ClosedAt(p, js[|js| - 2], js[|js| - 1])
    decreases |js| - k
  {
    hide TextAt, ClosedAt, IsContent;
    if k < |js| - 1 {
      TextsCross(p, js, k + 1);
      assert TextAt(p, js[k], js[k + 1]);
      TextCrosses(p, js[k], js[k + 1]);
      if k < |js| - 2 {
        MidIsClosed(p, js, k);
      }
    }
  }

  /** Only the last text may be left open. */
  lemma MidIsClosed(p: string, js: seq<nat>, k: nat)
    requires Spells(p, js) && k + 2 < |js|
    ensures ClosedAt(p, js[k], js[k + 1])
  {
    hide IsComment, IsQuoted, IsOpenComment, IsOpenQuote;
    assert TextAt(p, js[k], js[k + 1]) && TextAt(p, js[k + 1], js[k + 2]);
  }

  lemma {:induction false} SomeTexts(p: string, i: nat) returns (js: seq<nat>)
    requires i <= |p| && NextCut(p, i, Normal) == |p|
    ensures IsText(p, js) && js[0] == i && js[|js| - 1] == |p|
    decreases |p| - i
  {
    hide TextAt;
    if i == |p| {
      js := [i];
    } else {
      var j := SomeText(p, i);
      TextCrosses(p, i, j);
      var rest := SomeTexts(p, j);
      js := [i] + rest;
      forall k | 0 <= k < |js| - 1 ensures TextAt(p, js[k], js[k + 1]) {
        assert k > 0 ==> js[k] == rest[k - 1] && js[k + 1] == rest[k];
      }
    }
  }

  /** A text has no cut exactly when it is made of comments, quoted texts and other characters than semicolons. */
  lemma PieceIff(p: string)
    ensures IsPiece(p) <==> Whole(p)
    ensures IsClosedPiece(p) <==> Whole(p) && Ends(p).Normal?
  {
    hide TextAt, ClosedAt, NextCut, EndMode;
    if Whole(p) {
      var js := SomeTexts(p, 0);
      SpellingTells(p, js);
    }
    if js :| Spells(p, js) {
      SpellingTells(p, js);
    }
    if js :| SpellsClosed(p, js) {
      SpellingTells(p, js);
    }
  }

  lemma SpellingTells(p: string, js: seq<nat>)
    requires Spells(p, js)
    ensures Whole(p) && (SpellsClosed(p, js) <==> Ends(p).Normal?)
  {
    hide TextAt, ClosedAt, NextCut, EndMode;
    TextsCross(p, js, 0);
  }

  /**
   What splitting cuts a script into, without a mode: the pieces are the only
   texts that joined with semicolons give the script, each made of comments,
   quoted texts and other characters than semicolons, all closed but for the last.
   */
  lemma PiecesAreTexts(s: string, ps: seq<string>)
    ensures Pieces(s) == ps <==>
      && ps != [] && Join(ps, ";") == s
      && forall k :: 0 <= k < |ps| ==> IsPiece(ps[k]) && (k < |ps| - 1 ==> IsClosedPiece(ps[k]))
  {
    hide Pieces, IsPiece, IsClosedPiece, Whole, Ends, Join;
    PiecesAreTheCuts(s);
    forall k | 0 <= k < |ps| ensures (IsPiece(ps[k]) <==> Whole(ps[k])) && (IsClosedPiece(ps[k]) <==> Whole(ps[k]) && Ends(ps[k]).Normal?) {
      PieceIff(ps[k]);
    }
    if AreCuts(ps) {
      CutsAreThePieces(ps);
    }
  }

  /** A piece is a statement exactly when one of its texts is neither a comment nor white space. */
  lemma ContentIff(p: string, js: seq<nat>)
    requires Spells(p, js)
    ensures Meaningful(p) <==> HasContent(p, js, 0)
  {
    TextsCross(p, js, 0);
  }

  /** The statements are the pieces with content, in order, without the white space around them. */
  lemma StatementsAre(ps: seq<string>) returns (ks: seq<nat>)
    ensures |Kept(ps)| == |ks| && (forall i, j :: 0 <= i < j < |ks| ==> ks[i] < ks[j])
    ensures forall k :: k in ks <==> 0 <= k < |ps| && Trim(ps[k]) != "" && Meaningful(ps[k])
    ensures forall i :: 0 <= i < |ks| ==> ks[i] < |ps| && Kept(ps)[i] == Trim(ps[ks[i]])
  {
    hide Trim, Meaningful, Kept;
    ks := StatementsFrom(ps, 0);
    assert ps[0..] == ps;
  }

  lemma {:induction false} StatementsFrom(ps: seq<string>, from: nat) returns (ks: seq<nat>)
    requires from <= |ps|
    ensures |Kept(ps[from..])| == |ks| && (forall i, j :: 0 <= i < j < |ks| ==> ks[i] < ks[j])
    ensures forall k :: k in ks <==> from <= k < |ps| && Keep(ps[k])
    ensures forall i :: 0 <= i < |ks| ==> ks[i] < |ps| && Kept(ps[from..])[i] == Trim(ps[ks[i]])
    decreases |ps| - from
  {
    hide Trim, Keep;
    if from == |ps| {
      ks := [];
    } else {
      var rest := StatementsFrom(ps, from + 1);
      assert ps[from..][1..] == ps[from + 1..];
      ks := if Keep(ps[from]) then [from] + rest else rest;
    }
  }

  // ---------- Quoted texts survive ----------

  /** A quoted text is one statement, whatever semicolons are in it. */
  lemma QuotedIsOneStatement(t: string)
    requires IsQuoted(t)
    ensures Split(t) == [t]
  {
    hide IsQuoted, Meaningful, NextCut, Trim, IsContent, TextAt;
    QuotedHasEnds(t);
    var js := [0, |t|];
    QuotedSpells(t, js);
    TextsCross(t, js, 0);
    ContentIff(t, js);
    TrimOf("", t, "");
    assert "" + (t + "") == t;
    assert Pieces(t) == [t] && Keep(t);
    assert Kept([t]) == [t];
  }

  lemma QuotedSpells(t: string, js: seq<nat>)
    requires IsQuoted(t) && |t| > 0 && js == [0, |t|]
    ensures Spells(t, js) && HasContent(t, js, 0)
  {
    hide IsQuoted;
    assert t[0..|t|] == t;
    assert QuoteAt(t, js[0], js[1]);
    assert TextAt(t, js[0], js[1]) && IsContent(t, js[0], js[1]);
  }

  lemma QuotedHasEnds(t: string)
    requires IsQuoted(t)
    ensures |t| >= 2 && Trimmed(t)
  {
    if tag :| IsDollarQuoted(t, tag) {
      assert t[..|tag|][0] == t[0] && t[|t| - |tag|..][|tag| - 1] == t[|t| - 1];
    }
  }

  /** For one, a function body between dollar signs. */
  lemma DollarBodySurvives()
    ensures Split("$$a;b$$") == ["$$a;b$$"]
  {
    var t := "$$a;b$$";
    assert IsDollarQuoted(t, "$$");
    QuotedIsOneStatement(t);
  }
}
