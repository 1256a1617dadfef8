/** The lexical definition of a C++ header as the API gate reads it, and what comment stripping, body
    stripping and line normalisation keep of it. */
module ApiLexemes {
  import opened ApiSkeleton
  import opened ApiBodies

  // ---------- Lexemes ----------

  /** `p` first occurs in `s` at `k`, counting from `lo`, or not at all and `k` is the end. */
  ghost predicate FirstAt(s: string, lo: nat, p: string, k: nat)
  {
    && lo <= k <= |s|
    && (forall i :: lo <= i < k ==> !(p <= s[i..]))
    && (k < |s| ==> p <= s[k..])
  }

  /** The inside of a literal up to and with its closing quote, escaped characters skipped. */
  function LiteralRest(s: string, quote: char): (n: nat)
    ensures n <= |s|
  {
    if s == "" then 0
    else if |s| > 1 && s[0] == '\\' then 2 + LiteralRest(s[2..], quote)
    else if s[0] == quote then 1
    else 1 + LiteralRest(s[1..], quote)
  }

  predicate LineStart(s: string) { "//" <= s }
  predicate BlockStart(s: string) { "/*" <= s }

  /** The first k characters of `s`, read outside literals and comments, are one lexeme: a comment to
      the end of its line, a block comment with its closer, a literal, or a single character. */
  ghost predicate IsLexeme(s: string, k: nat)
  {
    1 <= k <= |s| &&
    if LineStart(s) then FirstAt(s, 2, "\n", k)
    else if BlockStart(s) then
      exists c: nat :: FirstAt(s, 2, "*/", c) && k == if c == |s| then c else c + 2
    else if IsQuote(s[0]) then k == 1 + LiteralRest(s[1..], s[0])
    else k == 1
  }

  /** A reading of the text as lexemes. */
  ghost predicate Reads(ls: seq<string>, s: string)
    decreases |ls|
  {
    if s == "" then ls == []
    else ls != [] && ls[0] <= s && IsLexeme(s, |ls[0]|) && Reads(ls[1..], s[|ls[0]|..])
  }

  predicate IsComment(l: string) { LineStart(l) || BlockStart(l) }

  function Blanked(l: string): (t: string)
    ensures |t| == |l| && forall i :: 0 <= i < |l| ==> t[i] == if l[i] == '\n' then '\n' else ' '
  {
    if l == "" then "" else [if l[0] == '\n' then '\n' else ' '] + Blanked(l[1..])
  }

  function Kept(l: string): (t: string) { if IsComment(l) then Blanked(l) else l }

  /** The text with its comments blanked and everything else as it stands. */
  function WithoutComments(ls: seq<string>): (t: string)
  {
    if ls == [] then "" else Kept(ls[0]) + WithoutComments(ls[1..])
  }

  // ---------- The scanner, region by region ----------

  lemma {:induction false} BlankedMore(c: char, l: string)
    ensures Blanked([c] + l) == [if c == '\n' then '\n' else ' '] + Blanked(l)
  {
    assert ([c] + l)[1..] == l;
  }

  lemma StripStep(s: string, lex: Lex)
    requires s != ""
    ensures var (text, next) := Emit(s, lex); StripComments(s, lex) == text + StripComments(s[|text|..], next)
  {
    hide Emit;
  }

  /** Inside a line comment: blanks up to the newline. */
  lemma {:induction false} LineRegion(s: string, k: nat)
    requires k <= |s| && (forall i :: 0 <= i < k ==> s[i] != '\n') && (k < |s| ==> s[k] == '\n')
    ensures StripComments(s, LineComment) == Blanked(s[..k]) + StripComments(s[k..], Code)
  {
    if s == "" {
      assert s[..k] == "" && s[k..] == "";
    } else if k == 0 {
      StripStep(s, LineComment);
      StripStep(s, Code);
      assert s[..1] == "\n" && s[0..] == s && s[..0] == "";
    } else {
      LineRegion(s[1..], k - 1);
      LineOn(s, k);
    }
  }

  lemma {:induction false} LineOn(s: string, k: nat)
    requires 1 <= k <= |s| && s[0] != '\n'
    requires StripComments(s[1..], LineComment) == Blanked(s[1..][..k - 1]) + StripComments(s[1..][k - 1..], Code)
    ensures StripComments(s, LineComment) == Blanked(s[..k]) + StripComments(s[k..], Code)
  {
    StripStep(s, LineComment);
    hide *;
    CutOne(s, k);
    BlankedMore(s[0], s[1..][..k - 1]);
    Regroup(" ", Blanked(s[1..][..k - 1]), StripComments(s[k..], Code));
  }

  lemma BlockEmits(s: string)
    requires s != ""
    ensures Emit(s, BlockComment) ==
      if "*/" <= s then ("  ", Code) else ([if s[0] == '\n' then '\n' else ' '], BlockComment)
  {
    assert |s| > 1 ==> s[..2] == [s[0]] + [s[1]];
  }

  lemma CutOne(s: string, k: nat)
    requires 1 <= k <= |s|
    ensures s[..k] == [s[0]] + s[1..][..k - 1] && s[1..][k - 1..] == s[k..]
  {
  }

  lemma {:induction false} AtCloser(s: string)
    requires "*/" <= s
    ensures StripComments(s, BlockComment) == Blanked(s[..2]) + StripComments(s[2..], Code)
  {
    hide Emit, StripComments, Blanked;
    StripStep(s, BlockComment);
    BlockEmits(s);
    BlankedCloser();
    assert s[..2] == "*/";
  }

  lemma {:induction false} BeforeCloser(s: string, k: nat)
    requires 1 <= k <= |s| && !("*/" <= s)
    requires StripComments(s[1..], BlockComment) == Blanked(s[1..][..k - 1]) + StripComments(s[1..][k - 1..], Code)
    ensures StripComments(s, BlockComment) == Blanked(s[..k]) + StripComments(s[k..], Code)
  {
    hide Emit, StripComments, Blanked;
    StripStep(s, BlockComment);
    BlockEmits(s);
    CutOne(s, k);
    BlankedMore(s[0], s[1..][..k - 1]);
  }

  lemma FirstFacts(s: string, c: nat, k: nat)
    requires FirstAt(s, 0, "*/", c) && k == if c == |s| then c else c + 2
    ensures c <= k <= |s| && (c == 0 && s != "" ==> "*/" <= s) && (c > 0 ==> !("*/" <= s))
  {
    assert s[0..] == s;
  }

  /** Inside a block comment: blanks, with the newlines, up to and with the closer. */
  lemma {:induction false} BlockRegion(s: string, c: nat, k: nat)
    requires FirstAt(s, 0, "*/", c) && k == if c == |s| then c else c + 2
    ensures k <= |s| && StripComments(s, BlockComment) == Blanked(s[..k]) + StripComments(s[k..], Code)
  {
    FirstFacts(s, c, k);
    if s == "" {
      assert s[..0] == "" && s[0..] == "";
    } else if c == 0 {
      AtCloser(s);
    } else {
      LaterFirst(s, c);
      hide FirstAt, StripComments, Blanked;
      BlockRegion(s[1..], c - 1, k - 1);
      BeforeCloser(s, k);
    }
  }

  lemma BlankedCloser()
    ensures Blanked("*/") == "  " && Blanked("//") == "  " && Blanked("/*") == "  "
  {
  }

  lemma LaterFirst(s: string, c: nat)
    requires FirstAt(s, 0, "*/", c) && c > 0
    ensures FirstAt(s[1..], 0, "*/", c - 1)
  {
    var t := s[1..];
    forall i | 0 <= i < c - 1
      ensures !("*/" <= t[i..])
    {
      assert t[i..] == s[i + 1..];
    }
    assert c < |s| ==> t[c - 1..] == s[c..];
  }

  lemma {:induction false} LiteralStep(s: string, n: nat, lex: Lex, quote: char)
    requires 1 <= n <= |s| && Emit(s, Quoted(quote)) == (s[..n], lex)
    ensures StripComments(s, Quoted(quote)) == s[..n] + StripComments(s[n..], lex)
  {
    hide Emit;
  }

  lemma CutAt(s: string, n: nat, k: nat)
    requires n <= k <= |s|
    ensures s[..k] == s[..n] + s[n..][..k - n] && s[n..][k - n..] == s[k..]
  {
  }

  lemma {:induction false} LiteralOn(s: string, n: nat, k: nat, quote: char)
    requires 1 <= n <= k <= |s| && Emit(s, Quoted(quote)) == (s[..n], Quoted(quote))
    requires StripComments(s[n..], Quoted(quote)) == s[n..][..k - n] + StripComments(s[n..][k - n..], Code)
    ensures StripComments(s, Quoted(quote)) == s[..k] + StripComments(s[k..], Code)
  {
    hide *;
    LiteralStep(s, n, Quoted(quote), quote);
    CutAt(s, n, k);
    Regroup(s[..n], s[n..][..k - n], StripComments(s[k..], Code));
  }

  /** Inside a literal: every character as it stands, up to and with the closing quote. */
  lemma {:induction false} LiteralRegion(s: string, quote: char)
    ensures var k := LiteralRest(s, quote);
      StripComments(s, Quoted(quote)) == s[..k] + StripComments(s[k..], Code)
    decreases |s|
  {
    hide StripComments;
    var k := LiteralRest(s, quote);
    if s == "" {
      NothingToStrip(Quoted(quote));
      NothingToStrip(Code);
    } else if Escapes(s) {
      LiteralRegion(s[2..], quote);
      LiteralOn(s, 2, k, quote);
    } else if s[0] == quote {
      LiteralStep(s, 1, Code, quote);
    } else {
      LiteralRegion(s[1..], quote);
      LiteralOn(s, 1, k, quote);
    }
  }

  lemma NothingToStrip(lex: Lex)
    ensures StripComments("", lex) == ""
  {
  }

  // ---------- Lexeme by lexeme ----------

  lemma {:induction false} BlankedConcat(a: string, b: string)
    ensures Blanked(a + b) == Blanked(a) + Blanked(b)
  {
    var x, y := Blanked(a + b), Blanked(a) + Blanked(b);
    assert |x| == |y| && forall i :: 0 <= i < |x| ==> x[i] == y[i];
  }

  lemma CommentHead(s: string, k: nat, marker: string)
    requires |marker| == 2 <= k <= |s| && marker <= s
    ensures s[..k] == marker + s[2..][..k - 2] && s[2..][k - 2..] == s[k..] && marker <= s[..k]
  {
  }

  lemma ShiftFirst(s: string, p: string, k: nat)
    requires |s| >= 2 && FirstAt(s, 2, p, k)
    ensures FirstAt(s[2..], 0, p, k - 2)
  {
    var t := s[2..];
    forall i | 0 <= i < k - 2
      ensures !(p <= t[i..])
    {
      assert t[i..] == s[i + 2..];
    }
    assert k < |s| ==> t[k - 2..] == s[k..];
  }

  lemma NewlineFirst(t: string, k: nat)
    requires FirstAt(t, 0, "\n", k)
    ensures (forall i :: 0 <= i < k ==> t[i] != '\n') && (k < |t| ==> t[k] == '\n')
  {
    forall i | 0 <= i < k
      ensures t[i] != '\n'
    {
      assert t[i..][..1] == [t[i]];
    }
    if k < |t| { assert t[k..][..1] == [t[k]]; }
  }

  lemma CodeEmits(s: string)
    requires s != ""
    ensures Emit(s, Code) ==
      if "//" <= s then ("  ", LineComment) else if "/*" <= s then ("  ", BlockComment)
      else if IsQuote(s[0]) then ([s[0]], Quoted(s[0])) else ([s[0]], Code)
  {
    assert s[..1] == [s[0]];
    assert |s| > 1 ==> s[..2] == [s[0]] + [s[1]];
  }

  /** A comment from its marker on, given what the scanner does inside it. */
  lemma {:induction false} MarkedLexeme(s: string, k: nat, marker: string, lex: Lex)
    requires 2 <= k <= |s| && marker <= s && (marker == "//" || marker == "/*")
    requires Emit(s, Code) == ("  ", lex)
    requires StripComments(s[2..], lex) == Blanked(s[2..][..k - 2]) + StripComments(s[2..][k - 2..], Code)
    ensures StripComments(s, Code) == Kept(s[..k]) + StripComments(s[k..], Code)
  {
    hide *;
    var y, tail := s[2..][..k - 2], StripComments(s[k..], Code);
    StripAs(s, "  ", lex);
    CommentHead(s, k, marker);
    KeptComment(s[..k], marker);
    BlankedConcat(marker, y);
    BlankedCloser();
    Regroup("  ", Blanked(y), tail);
  }

  lemma Regroup(a: string, b: string, c: string)
    ensures a + (b + c) == a + b + c
  {
  }

  lemma KeptComment(l: string, marker: string)
    requires marker <= l && (marker == "//" || marker == "/*")
    ensures Kept(l) == Blanked(l)
  {
    hide Blanked;
  }

  lemma StripAs(s: string, text: string, next: Lex)
    requires s != "" && Emit(s, Code) == (text, next)
    ensures |text| <= |s| && StripComments(s, Code) == text + StripComments(s[|text|..], next)
  {
    hide Emit;
  }

  lemma {:induction false} LineLexeme(s: string, k: nat)
    requires LineStart(s) && FirstAt(s, 2, "\n", k)
    ensures StripComments(s, Code) == Kept(s[..k]) + StripComments(s[k..], Code)
  {
    hide Emit, StripComments, Blanked, Kept;
    CodeEmits(s);
    ShiftFirst(s, "\n", k);
    NewlineFirst(s[2..], k - 2);
    LineRegion(s[2..], k - 2);
    MarkedLexeme(s, k, "//", LineComment);
  }

  lemma {:induction false} BlockLexeme(s: string, c: nat, k: nat)
    requires BlockStart(s) && FirstAt(s, 2, "*/", c) && k == if c == |s| then c else c + 2
    ensures k <= |s| && StripComments(s, Code) == Kept(s[..k]) + StripComments(s[k..], Code)
  {
    ShiftFirst(s, "*/", c);
    hide Emit, StripComments, Blanked, Kept, FirstAt;
    BlockOpens(s);
    BlockRegion(s[2..], c - 2, k - 2);
    MarkedLexeme(s, k, "/*", BlockComment);
  }

  lemma BlockOpens(s: string)
    requires BlockStart(s)
    ensures |s| >= 2 && Emit(s, Code) == ("  ", BlockComment)
  {
    assert s[..2] == "/*";
  }

  lemma {:induction false} OtherLexeme(s: string, k: nat)
    requires s != "" && !LineStart(s) && !BlockStart(s) && k == if IsQuote(s[0]) then 1 + LiteralRest(s[1..], s[0]) else 1
    ensures StripComments(s, Code) == Kept(s[..k]) + StripComments(s[k..], Code)
  {
    CodeEmits(s);
    hide *;
    StripAs(s, [s[0]], if IsQuote(s[0]) then Quoted(s[0]) else Code);
    CutOne(s, k);
    KeptOther(s, k);
    var inner, tail := s[1..][..k - 1], StripComments(s[k..], Code);
    if IsQuote(s[0]) {
      LiteralRegion(s[1..], s[0]);
    } else {
      assert inner == "";
    }
    Regroup([s[0]], inner, tail);
  }

  lemma KeptOther(s: string, k: nat)
    requires k <= |s| && !LineStart(s) && !BlockStart(s)
    ensures Kept(s[..k]) == s[..k]
  {
    NotAComment(s, k);
  }

  lemma NotAComment(s: string, k: nat)
    requires k <= |s| && !LineStart(s) && !BlockStart(s)
    ensures !IsComment(s[..k])
  {
    assert k >= 2 ==> s[..k][..2] == s[..2];
  }

  lemma {:induction false} OneLexeme(s: string, k: nat)
    requires IsLexeme(s, k)
    ensures StripComments(s, Code) == Kept(s[..k]) + StripComments(s[k..], Code)
  {
    if LineStart(s) {
      LineLexeme(s, k);
    } else if BlockStart(s) {
      var c: nat :| FirstAt(s, 2, "*/", c) && k == if c == |s| then c else c + 2;
      BlockLexeme(s, c, k);
    } else {
      OtherLexeme(s, k);
    }
  }

  /** For every reading of a header as lexemes, comment stripping blanks exactly the comments. */
  lemma {:induction false} StripsExactlyComments(ls: seq<string>, s: string)
    requires Reads(ls, s)
    ensures StripComments(s, Code) == WithoutComments(ls)
    decreases |ls|
  {
    if s != "" {
      var k := |ls[0]|;
      OneLexeme(s, k);
      StripsExactlyComments(ls[1..], s[k..]);
      hide StripComments, IsLexeme;
      assert s[..k] == ls[0];
    }
  }

  // ---------- A reading exists ----------

  function FindFrom(s: string, lo: nat, p: string): (k: nat)
    requires lo <= |s|
    ensures FirstAt(s, lo, p, k)
    decreases |s| - lo
  {
    if lo == |s| || p <= s[lo..] then lo else FindFrom(s, lo + 1, p)
  }

  lemma LexemeExists(s: string)
    requires s != ""
    ensures exists k: nat :: IsLexeme(s, k)
  {
    if LineStart(s) {
      var k := FindFrom(s, 2, "\n");
      assert IsLexeme(s, k);
    } else if BlockStart(s) {
      var c := FindFrom(s, 2, "*/");
      var k := if c == |s| then c else c + 2;
      assert c < |s| ==> |s[c..]| >= 2;
      assert IsLexeme(s, k);
    } else {
      var k := if IsQuote(s[0]) then 1 + LiteralRest(s[1..], s[0]) else 1;
      assert IsLexeme(s, k);
    }
  }

  /** Every text can be read as lexemes. */
  lemma {:induction false} ReadingExists(s: string)
    ensures exists ls :: Reads(ls, s)
    decreases |s|
  {
    if s == "" {
      assert Reads([], s);
    } else {
      LexemeExists(s);
      var k: nat :| IsLexeme(s, k);
      ReadingExists(s[k..]);
      var rest :| Reads(rest, s[k..]);
      MoreRead(s, k, rest);
    }
  }

  lemma MoreRead(s: string, k: nat, rest: seq<string>)
    requires IsLexeme(s, k) && Reads(rest, s[k..])
    ensures Reads([s[..k]] + rest, s)
  {
    var ls := [s[..k]] + rest;
    assert k <= |s|;
    hide IsLexeme;
    assert ls[1..] == rest && |ls[0]| == k;
  }

  // ---------- Position by position ----------

  /** Position `k` of the text read as `ls` is inside a comment. */
  predicate InComment(ls: seq<string>, k: nat)
  {
    ls != [] && if k < |ls[0]| then IsComment(ls[0]) else InComment(ls[1..], k - |ls[0]|)
  }

  lemma ReadsOn(ls: seq<string>, s: string)
    requires Reads(ls, s)
    ensures s == "" ==> ls == []
    ensures s != "" ==>
      ls != [] && 1 <= |ls[0]| <= |s| && s[..|ls[0]|] == ls[0] && Reads(ls[1..], s[|ls[0]|..])
  {
  }

  lemma KeptAt(l: string)
    ensures |Kept(l)| == |l| && forall i :: 0 <= i < |l| ==> Kept(l)[i] == if IsComment(l) && l[i] != '\n' then ' ' else l[i]
  {
    hide IsComment, Blanked;
  }

  lemma InCommentOn(ls: seq<string>, k: nat)
    requires ls != []
    ensures InComment(ls, k) == if k < |ls[0]| then IsComment(ls[0]) else InComment(ls[1..], k - |ls[0]|)
    ensures WithoutComments(ls) == Kept(ls[0]) + WithoutComments(ls[1..])
  {
    hide IsComment, Kept;
  }

  lemma {:induction false} WithoutCommentsAt(ls: seq<string>, s: string, k: nat)
    requires Reads(ls, s)
    ensures |WithoutComments(ls)| == |s|
    ensures k < |s| ==> WithoutComments(ls)[k] == if InComment(ls, k) && s[k] != '\n' then ' ' else s[k]
    decreases |ls|
  {
    ReadsOn(ls, s);
    if s == "" {
      assert WithoutComments(ls) == "";
    } else {
      hide *;
      var l, n := ls[0], |ls[0]|;
      InCommentOn(ls, k);
      WithoutCommentsAt(ls[1..], s[n..], if k < n then 0 else k - n);
      KeptAt(l);
      if k < n { assert s[..n][k] == s[k]; }
    }
  }

  /** Comment stripping on every header, for every reading of it: outside comments each character is
      kept, inside them each becomes a blank, newlines excepted. So a position is unchanged exactly
      when it lies outside every comment or holds a blank or a newline. */
  lemma {:induction false} KeptExactlyOutsideComments(ls: seq<string>, s: string, k: nat)
    requires Reads(ls, s) && k < |s|
    ensures var out := StripComments(s, Code);
      && |out| == |s|
      && out[k] == (if InComment(ls, k) && s[k] != '\n' then ' ' else s[k])
      && (out[k] == s[k] <==> !InComment(ls, k) || s[k] == ' ' || s[k] == '\n')
  {
    hide StripComments, WithoutComments, Reads;
    StripsExactlyComments(ls, s);
    WithoutCommentsAt(ls, s, k);
  }

  // ---------- Text without comments ----------

  lemma {:induction false} NothingBlanked(ls: seq<string>, s: string)
    requires Reads(ls, s) && forall l :: l in ls ==> !IsComment(l)
    ensures WithoutComments(ls) == s
    decreases |ls|
  {
    if s != "" {
      var k := |ls[0]|;
      assert k <= |s| && s[..k] == ls[0];
      hide IsLexeme;
      NothingBlanked(ls[1..], s[k..]);
    }
  }

  /** A header without comments, whatever its literals hold, is returned as it is. */
  lemma {:induction false} CommentlessIsKept(ls: seq<string>, s: string)
    requires Reads(ls, s) && forall l :: l in ls ==> !IsComment(l)
    ensures StripComments(s, Code) == s
  {
    hide StripComments, WithoutComments, Reads;
    StripsExactlyComments(ls, s);
    NothingBlanked(ls, s);
  }
}
