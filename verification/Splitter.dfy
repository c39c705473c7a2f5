/**
 The migration splitter: db/sqlsplit.go. Scripts are sequences of code points;
 every character the scanner tests is ASCII, so this reads a UTF-8 script
 exactly as the byte loop does.
 */
module Splitter {

  datatype Mode = Normal | LineComment | BlockComment | SingleQuote | DoubleQuote | Backtick | Dollar(tag: string)

  // ---------- Characters ----------

  /** The white space db/sqlsplit.go tests for. */
  predicate PlainSpace(c: char) {
    c == ' ' || c == '\t' || c == '\n' || c == '\r'
  }

  /** What strings.TrimSpace cuts: unicode.IsSpace. */
  predicate Space(c: char) {
    PlainSpace(c) || c in {'\U{0B}', '\U{0C}', '\U{85}', '\U{A0}', '\U{1680}', '\U{2028}', '\U{2029}', '\U{202F}', '\U{205F}', '\U{3000}'}
    || '\U{2000}' <= c <= '\U{200A}'
  }

  predicate TagChar(c: char) {
    c == '_' || 'a' <= c <= 'z' || 'A' <= c <= 'Z' || '0' <= c <= '9'
  }

  /** A character no token starting before it can look at or run into. */
  predicate Neutral(c: char) {
    Space(c) || c == ';'
  }

  // ---------- The dollar tag ----------

  /** The length of the dollar-quote delimiter s starts with, 0 without one. */
  function TagLen(s: string): (n: nat)
    ensures n <= |s|
    ensures n > 0 ==> n >= 2 && s[0] == '$' && s[n - 1] == '$' && forall k :: 0 < k < n - 1 ==> TagChar(s[k])
  {
    if |s| < 2 || s[0] != '$' then 0 else TagEnd(s, 1)
  }

  function TagEnd(s: string, j: nat): (n: nat)
    requires 0 < j <= |s|
    ensures n <= |s|
    ensures n > 0 ==> j < n && s[n - 1] == '$' && forall k :: j <= k < n - 1 ==> TagChar(s[k])
    decreases |s| - j
  {
    if j == |s| then 0
    else if s[j] == '$' then j + 1
    else if !TagChar(s[j]) then 0
    else TagEnd(s, j + 1)
  }

  /** Whoever finds a delimiter finds the same one. */
  lemma {:induction false} TagIsUnique(s: string, j: nat, n: nat)
    requires 0 < j < n <= |s| && s[n - 1] == '$' && forall k :: j <= k < n - 1 ==> TagChar(s[k])
    ensures TagEnd(s, j) == n
    decreases n - j
  {
    if j < n - 1 {
      TagIsUnique(s, j + 1, n);
    }
  }

  method DollarTagAt(s: string) returns (tag: string, ok: bool)
    ensures ok <==> TagLen(s) > 0
    ensures tag == s[..TagLen(s)]
  {
    if |s| < 2 || s[0] != '$' {
      return "", false;
    }
    var j := 1;
    while j < |s|
      invariant 1 <= j <= |s|
      invariant TagLen(s) == TagEnd(s, j)
    {
      var c := s[j];
      if c == '$' {
        return s[..j + 1], true;
      }
      if c != '_' && (c < 'a' || c > 'z') && (c < 'A' || c > 'Z') && (c < '0' || c > '9') {
        return "", false;
      }
      j := j + 1;
    }
    return "", false;
  }

  // ---------- The mode function ----------

  predicate At(s: string, i: nat, c: char) {
    i < |s| && s[i] == c
  }

  predicate PrefixAt(s: string, i: nat, t: string) {
    i <= |s| && |t| <= |s| - i && s[i..i + |t|] == t
  }

  predicate WellFormed(m: Mode) {
    m.Dollar? ==> |m.tag| >= 2 && forall k :: 0 <= k < |m.tag| ==> TagChar(m.tag[k]) || m.tag[k] == '$'
  }

  /** How many characters the scanner consumes at i in mode m. */
  function Len(s: string, i: nat, m: Mode): (n: nat)
    requires i < |s| && WellFormed(m)
    ensures 0 < n <= |s| - i
  {
    match m
    case Normal => if s[i] == '$' && TagLen(s[i..]) > 0 then TagLen(s[i..]) else 1
    case LineComment => 1
    case BlockComment => if s[i] == '*' && At(s, i + 1, '/') then 2 else 1
    case SingleQuote =>
      if (s[i] == '\\' && i + 1 < |s|) || (s[i] == '\'' && At(s, i + 1, '\'')) then 2 else 1
    case DoubleQuote => if s[i] == '"' && At(s, i + 1, '"') then 2 else 1
    case Backtick => 1
    case Dollar(tag) => if PrefixAt(s, i, tag) then |tag| else 1
  }

  /** The mode after that. */
  function After(s: string, i: nat, m: Mode): (m': Mode)
    requires i < |s| && WellFormed(m)
    ensures WellFormed(m')
  {
    match m
    case Normal =>
      if s[i] == '-' && At(s, i + 1, '-') then LineComment
      else if s[i] == '/' && At(s, i + 1, '*') then BlockComment
      else if s[i] == '\'' then SingleQuote
      else if s[i] == '"' then DoubleQuote
      else if s[i] == '`' then Backtick
      else if s[i] == '$' && TagLen(s[i..]) > 0 then Dollar(s[i..][..TagLen(s[i..])])
      else Normal
    case LineComment => if s[i] == '\n' then Normal else LineComment
    case BlockComment => if s[i] == '*' && At(s, i + 1, '/') then Normal else BlockComment
    case SingleQuote => if s[i] == '\'' && !At(s, i + 1, '\'') then Normal else SingleQuote
    case DoubleQuote => if s[i] == '"' && !At(s, i + 1, '"') then Normal else DoubleQuote
    case Backtick => if s[i] == '`' then Normal else Backtick
    case Dollar(tag) => if PrefixAt(s, i, tag) then Normal else m
  }

  /** Content beyond comments and white space at i, read in mode m. */
  predicate Content(s: string, i: nat, m: Mode)
    requires i < |s|
  {
    m.Normal? && !PlainSpace(s[i]) && s[i] != ';'
    && !(s[i] == '-' && At(s, i + 1, '-')) && !(s[i] == '/' && At(s, i + 1, '*'))
  }

  // ---------- What splitting means ----------

  /** The first semicolon met in normal mode, scanning from i in mode m; |s| without one. */
  function NextCut(s: string, i: nat, m: Mode): (c: nat)
    requires i <= |s| && WellFormed(m)
    ensures i <= c <= |s| && (c < |s| ==> s[c] == ';')
    decreases |s| - i
  {
    if i == |s| then |s|
    else if m.Normal? && s[i] == ';' then i
    else NextCut(s, i + Len(s, i, m), After(s, i, m))
  }

  /** The mode the scanner ends in. */
  function EndMode(s: string, i: nat, m: Mode): (e: Mode)
    requires i <= |s| && WellFormed(m)
    ensures WellFormed(e)
    decreases |s| - i
  {
    if i == |s| then m else EndMode(s, i + Len(s, i, m), After(s, i, m))
  }

  /** Some content is read from i on. */
  predicate MeaningfulFrom(s: string, i: nat, m: Mode)
    requires i <= |s| && WellFormed(m)
    decreases |s| - i
  {
    i < |s| && (Content(s, i, m) || MeaningfulFrom(s, i + Len(s, i, m), After(s, i, m)))
  }

  predicate Meaningful(s: string) {
    MeaningfulFrom(s, 0, Normal)
  }

  /** The script cut at exactly the semicolons met in normal mode. */
  function Pieces(s: string): (ps: seq<string>)
    ensures ps != []
    decreases |s|
  {
    var c := NextCut(s, 0, Normal);
    if c == |s| then [s] else [s[..c]] + Pieces(s[c + 1..])
  }

  function TrimLeft(s: string): string {
    if s != "" && Space(s[0]) then TrimLeft(s[1..]) else s
  }

  function TrimRight(s: string): string {
    if s != "" && Space(s[|s| - 1]) then TrimRight(s[..|s| - 1]) else s
  }

  function Trim(s: string): string {
    TrimRight(TrimLeft(s))
  }

  /** A piece is kept unless it is only comments and white space. */
  predicate Keep(p: string) {
    Trim(p) != "" && Meaningful(p)
  }

  function Kept(ps: seq<string>): seq<string> {
    if ps == [] then [] else (if Keep(ps[0]) then [Trim(ps[0])] else []) + Kept(ps[1..])
  }

  function Split(s: string): seq<string> {
    Kept(Pieces(s))
  }

  // ---------- Tokens look no further than they must ----------

  ghost predicate NeutralStart(b: string) {
    b == "" || Neutral(b[0])
  }

  /** A backslash at the very end of a: what follows a would be escaped. */
  predicate Dangling(a: string, i: nat, m: Mode) {
    m.SingleQuote? && i + 1 == |a| && a[i] == '\\'
  }

  lemma {:induction false} TagEndLocal(a: string, b: string, j: nat)
    requires NeutralStart(b) && 0 < j <= |a|
    ensures TagEnd(a + b, j) == TagEnd(a, j)
    decreases |a| - j
  {
    if j < |a| {
      assert (a + b)[j] == a[j];
      if a[j] != '$' && TagChar(a[j]) {
        TagEndLocal(a, b, j + 1);
      }
    } else if b != "" {
      assert (a + b)[j] == b[0];
    }
  }

  lemma TagLocal(a: string, b: string, i: nat)
    requires NeutralStart(b) && i < |a|
    ensures TagLen((a + b)[i..]) == TagLen(a[i..])
    ensures (a + b)[i..][..TagLen(a[i..])] == a[i..][..TagLen(a[i..])]
  {
    assert (a + b)[i..] == a[i..] + b;
    TagEndLocal(a[i..], b, 1);
  }

  lemma PrefixLocal(a: string, b: string, i: nat, m: Mode)
    requires NeutralStart(b) && i < |a| && WellFormed(m) && m.Dollar?
    ensures PrefixAt(a + b, i, m.tag) == PrefixAt(a, i, m.tag)
  {
    var n := |m.tag|;
    if n <= |a| - i {
      assert (a + b)[i..i + n] == a[i..i + n];
    } else if b != "" {
      assert m.tag[|a| - i] != b[0];
    }
  }

  /** What follows a does not change how a token of a is read. */
  lemma StepLocal(a: string, b: string, i: nat, m: Mode)
    requires NeutralStart(b) && i < |a| && WellFormed(m) && (b == "" || !Dangling(a, i, m))
    ensures Len(a + b, i, m) == Len(a, i, m) && After(a + b, i, m) == After(a, i, m)
    ensures Content(a + b, i, m) == Content(a, i, m)
  {
    if b == "" {
      assert a + b == a;
    } else {
      assert (a + b)[i] == a[i];
      assert (a + b)[i + 1] == if i + 1 < |a| then a[i + 1] else b[0];
      TagLocal(a, b, i);
      if m.Dollar? {
        PrefixLocal(a, b, i, m);
      }
    }
  }

  /** A token is read the same wherever its script starts. */
  lemma StepShift(s: string, k: nat, i: nat, m: Mode)
    requires k + i < |s| && WellFormed(m)
    ensures Len(s, k + i, m) == Len(s[k..], i, m) && After(s, k + i, m) == After(s[k..], i, m)
    ensures Content(s, k + i, m) == Content(s[k..], i, m)
  {
  }

  /** Tokens up to a cut are read the same in the piece alone. */
  lemma StepInPiece(s: string, c: nat, i: nat, m: Mode)
    requires i < c <= |s| && (c < |s| ==> s[c] == ';') && WellFormed(m) && i + Len(s, i, m) <= c
    ensures Len(s[..c], i, m) == Len(s, i, m) && After(s[..c], i, m) == After(s, i, m)
    ensures Content(s[..c], i, m) == Content(s, i, m)
  {
    assert s == s[..c] + s[c..];
    StepLocal(s[..c], s[c..], i, m);
  }

  // ---------- The splitter ----------

  /**
   The scanner's switch over the mode, for one token that is no cut: the text
   it writes, the mode it sets, and whether the token is content.
   */
  method ReadToken(script: string, i: nat, mode: Mode) returns (text: string, after: Mode, content: bool)
    requires i < |script| && WellFormed(mode) && !(mode.Normal? && script[i] == ';')
    ensures text == script[i..i + Len(script, i, mode)]
    ensures after == After(script, i, mode)
    ensures content == Content(script, i, mode)
  {
    var c, n := script[i], |script|;
    text, after, content := [c], mode, false;
    match mode
    case Normal =>
      if c == '-' && i + 1 < n && script[i + 1] == '-' {
        after := LineComment;
      } else if c == '/' && i + 1 < n && script[i + 1] == '*' {
        after := BlockComment;
      } else if c == '\'' {
        after, content := SingleQuote, true;
      } else if c == '"' {
        after, content := DoubleQuote, true;
      } else if c == '`' {
        after, content := Backtick, true;
      } else if c == '$' {
        content := true;
        var tag, ok := DollarTagAt(script[i..]);
        if ok {
          after, text := Dollar(tag), tag;
        }
      } else {
        content := c != ' ' && c != '\t' && c != '\n' && c != '\r';
      }
    case LineComment =>
      if c == '\n' {
        after := Normal;
      }
    case BlockComment =>
      if c == '*' && i + 1 < n && script[i + 1] == '/' {
        text, after := text + "/", Normal;
      }
    case SingleQuote =>
      if c == '\\' {
        if i + 1 < n {
          text := text + [script[i + 1]];
        }
      } else if c == '\'' {
        if i + 1 < n && script[i + 1] == '\'' {
          text := text + "'";
        } else {
          after := Normal;
        }
      }
    case DoubleQuote =>
      if c == '"' {
        if i + 1 < n && script[i + 1] == '"' {
          text := text + "\"";
        } else {
          after := Normal;
        }
      }
    case Backtick =>
      if c == '`' {
        after := Normal;
      }
    case Dollar(tag) =>
      if PrefixAt(script, i, tag) {
        text, after := tag, Normal;
      }
  }

  /** The scanner stands at j of a script it began in normal mode, with no cut so far. */
  ghost predicate Scanning(rest: string, j: nat, mode: Mode, meaningful: bool) {
    && j <= |rest| && WellFormed(mode)
    && NextCut(rest, 0, Normal) == NextCut(rest, j, mode)
    && var p := rest[..NextCut(rest, 0, Normal)]; Meaningful(p) == (meaningful || MeaningfulFrom(p, j, mode))
  }

  lemma ScanStart(rest: string)
    ensures Scanning(rest, 0, Normal, false)
  {
  }

  lemma ScanToken(rest: string, j: nat, mode: Mode, meaningful: bool, j': nat, mode': Mode, meaningful': bool)
    requires Scanning(rest, j, mode, meaningful) && j < |rest| && !(mode.Normal? && rest[j] == ';')
    requires j' == j + Len(rest, j, mode) && mode' == After(rest, j, mode)
    requires meaningful' == (meaningful || Content(rest, j, mode))
    ensures Scanning(rest, j', mode', meaningful')
  {
    StepInPiece(rest, NextCut(rest, 0, Normal), j, mode);
  }

  lemma ScanFits(rest: string, j: nat, mode: Mode, meaningful: bool)
    requires Scanning(rest, j, mode, meaningful)
    ensures j <= |rest| && WellFormed(mode)
  {
  }

  lemma ScanCut(rest: string, j: nat, mode: Mode, meaningful: bool)
    requires Scanning(rest, j, mode, meaningful) && j < |rest| && mode.Normal? && rest[j] == ';'
    ensures Meaningful(rest[..j]) == meaningful
    ensures Split(rest) == Kept([rest[..j]]) + Split(rest[j + 1..])
  {
  }

  lemma ScanEnd(rest: string, mode: Mode, meaningful: bool)
    requires Scanning(rest, |rest|, mode, meaningful)
    ensures Meaningful(rest) == meaningful && Split(rest) == Kept([rest])
  {
    assert rest[..|rest|] == rest;
  }

  /**
   splitSQLStatements: one pass over the script, with the text since the last
   cut in buf. It splits exactly as Split does.
   */
  method SplitSQLStatements(script: string) returns (out: seq<string>)
    ensures out == Split(script)
  {
    out := [];
    var i, mode, buf, meaningful := 0, Normal, "", false;
    ghost var start, rest, j: nat := 0, script, 0;  // the script since the last cut, and where i is in it
    assert script[0..] == script;
    ScanStart(script);
    while i < |script|
      invariant 0 <= start <= i <= |script| && rest == script[start..] && j == i - start && buf == rest[..j]
      invariant Split(script) == out + Split(rest)
      invariant Scanning(rest, j, mode, meaningful)
      decreases |script| - i
    {
      if mode.Normal? && script[i] == ';' {
        out := Cut(out, buf, meaningful, rest);
        buf, mode, meaningful, i := "", Normal, false, i + 1;
        assert rest[j + 1..] == script[i..];
        start, rest, j := i, script[i..], 0;
        ScanStart(rest);
      } else {
        i, mode, buf, meaningful, j := Advance(script, i, mode, buf, meaningful, start, j);
      }
    }
    assert buf == rest;
    ScanEnd(rest, mode, meaningful);
    out := Flush(out, buf, meaningful);
  }

  /** Writes one token to buf. */
  method Advance(script: string, i: nat, mode: Mode, buf: string, meaningful: bool, ghost start: nat, ghost j: nat)
    returns (i': nat, mode': Mode, buf': string, meaningful': bool, ghost j': nat)
    requires start <= i < |script| && j == i - start && buf == script[start..][..j]
    requires !(mode.Normal? && script[i] == ';') && Scanning(script[start..], j, mode, meaningful)
    ensures i < i' <= |script| && j' == i' - start && buf' == script[start..][..j']
    ensures Scanning(script[start..], j', mode', meaningful')
  {
    hide Scanning, Len, After, Content;
    ScanFits(script[start..], j, mode, meaningful);
    StepShift(script, start, j, mode);
    var text, after, content := ReadToken(script, i, mode);
    assert script[start..][j..j + |text|] == text;
    i', mode', buf', meaningful', j' := i + |text|, after, buf + text, meaningful || content, j + |text|;
    ScanToken(script[start..], j, mode, meaningful, j', mode', meaningful');
  }

  /** A semicolon met in normal mode ends the piece in buf. */
  method Cut(out: seq<string>, buf: string, meaningful: bool, ghost rest: string) returns (out': seq<string>)
    requires |buf| < |rest| && buf == rest[..|buf|] && rest[|buf|] == ';'
    requires Scanning(rest, |buf|, Normal, meaningful)
    ensures out' + Split(rest[|buf| + 1..]) == out + Split(rest)
  {
    ScanCut(rest, |buf|, Normal, meaningful);
    out' := Flush(out, buf, meaningful);
  }

  /** flush: a piece with content is trimmed and kept. */
  method Flush(out: seq<string>, buf: string, meaningful: bool) returns (out': seq<string>)
    requires meaningful == Meaningful(buf)
    ensures out' == out + Kept([buf])
  {
    var stmt := Trim(buf);
    out' := out;
    if stmt != "" && meaningful {
      out' := out' + [stmt];
    }
  }
}
