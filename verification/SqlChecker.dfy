/** tools/migration-check: the second, independent lexer over the same scripts, and its
    agreement with the runtime splitter.  Regular-expression classes are read on ASCII. */
module SqlChecker {
  import opened SqlLexicon
  import opened SqlSplitter
  import opened SqlResplit
  import ApiSkeleton

  // ---------- strip_sql ----------

  /** Offset, after an opening quote, of the quote that closes the literal (or the end). */
  function CloseQuote(s: string): (n: nat)
    ensures n <= |s|
  {
    if s == "" then 0
    else if s[0] == '\'' && (|s| == 1 || s[1] != '\'') then 0
    else if s[0] == '\'' then 2 + CloseQuote(s[2..])
    else 1 + CloseQuote(s[1..])
  }

  /** Length of the match of `\$(\w*)\$` at the head of `s`, 0 when there is none. */
  function MatchOpener(s: string): (d: nat)
    ensures d > 0 ==> 2 <= d <= |s| && s[0] == '$'
  {
    if s == "" || s[0] != '$' then 0
    else
      var n := TagLength(s[1..], true);
      if 1 + n < |s| && s[1 + n] == '$' then 2 + n else 0
  }

  function Min(a: nat, b: nat): nat { if a <= b then a else b }

  /** How far one iteration of strip_sql moves. */
  function StripLength(s: string): (k: nat)
    requires s != ""
    ensures 1 <= k <= |s|
  {
    if LineCommentStart(s) then
      assert !("\n" <= s);
      Find(s, "\n")
    else if BlockCommentStart(s) then ClosedLength(s, 2, "*/")
    else if QuoteStart(s) then Min(|s|, 1 + CloseQuote(s[1..]) + 1)
    else if MatchOpener(s) > 0 then ClosedLength(s, MatchOpener(s), s[..MatchOpener(s)])
    else 1
  }

  /** What that iteration appends to the output. */
  function Image(s: string): (t: string)
    requires s != ""
  {
    if LineCommentStart(s) || BlockCommentStart(s) then ""
    else if QuoteStart(s) then "''"
    else if MatchOpener(s) > 0 then " "
    else [s[0]]
  }

  function Strip(s: string): (t: string)
    decreases |s|
  {
    if s == "" then "" else Image(s) + Strip(s[StripLength(s)..])
  }

  method SkipLiteral(text: string, start: nat) returns (i: nat)
    requires start < |text| && text[start] == '\''
    ensures i == start + 1 + CloseQuote(text[start..][1..]) + 1
  {
    i := start + 1;
    assert text[start..][1..] == text[i..];
    ghost var total := i + CloseQuote(text[i..]);
    while i < |text| && !(text[i] == '\'' && (i + 1 >= |text| || text[i + 1] != '\''))
      invariant start + 1 <= i <= |text|
      invariant i + CloseQuote(text[i..]) == total
    {
      if text[i] == '\'' {
        assert text[i..][2..] == text[i + 2..];
        i := i + 2;
      } else {
        assert text[i..][1..] == text[i + 1..];
        i := i + 1;
      }
    }
    i := i + 1;
  }

  method StripDollar(text: string, i: nat) returns (piece: string, next: nat)
    requires i < |text| && text[i] == '$'
    ensures piece == Image(text[i..]) && next == i + StripLength(text[i..])
  {
    ghost var rest := text[i..];
    var d := MatchOpener(text[i..]);
    if d > 0 {
      assert rest[..d] == text[i..i + d] && rest[d..] == text[i + d..];
      var j := Find(text[i + d..], text[i..i + d]);
      piece, next := " ", if i + d + j == |text| then |text| else i + d + j + d;
    } else {
      piece, next := "$", i + 1;
    }
  }

  /** One iteration: the text appended to the output and the next index, which runs past the
      end after an unclosed literal. */
  method StripOne(text: string, i: nat) returns (piece: string, next: nat)
    requires i < |text|
    ensures piece == Image(text[i..])
    ensures Min(|text|, next) == i + StripLength(text[i..])
  {
    ghost var rest := text[i..];
    var ch := text[i];
    var nxt := if i + 1 < |text| then [text[i + 1]] else "";
    if ch == '-' && nxt == "-" {
      piece, next := "", i + Find(text[i..], "\n");
    } else if ch == '/' && nxt == "*" {
      assert rest[2..] == text[i + 2..];
      var j := Find(text[i + 2..], "*/");
      piece, next := "", if i + 2 + j == |text| then |text| else i + 2 + j + 2;
    } else if ch == '\'' {
      next := SkipLiteral(text, i);
      piece := "''";
    } else if ch == '$' {
      piece, next := StripDollar(text, i);
    } else {
      piece, next := [ch], i + 1;
    }
  }

  method StripSql(text: string) returns (out: string)
    ensures out == Strip(text)
  {
    hide StripLength, Image;
    out := "";
    var i := 0;
    assert text[0..] == text;
    while i < |text|
      invariant Strip(text) == out + Strip(text[Min(|text|, i)..])
    {
      var piece, next := StripOne(text, i);
      assert text[i..][StripLength(text[i..])..] == text[Min(|text|, next)..];
      out := out + piece;
      i := next;
    }
    assert text[Min(|text|, i)..] == "";
  }

  // ---------- Token by token ----------

  function Tokens(s: string): (ts: seq<string>)
    decreases |s|
  {
    if s == "" then [] else [s[..TokenLength(s)]] + Tokens(s[TokenLength(s)..])
  }

  function CheckerTokens(s: string): (ts: seq<string>)
    decreases |s|
  {
    if s == "" then [] else [s[..StripLength(s)]] + CheckerTokens(s[StripLength(s)..])
  }

  /** A dollar delimiter whose tag starts with a digit: only the checker takes it for one. */
  predicate DigitTag(s: string)
  {
    |s| > 1 && s[0] == '$' && IsDigit(s[1]) && MatchOpener(s) > 0
  }

  /** No token of the script starts with such a delimiter. */
  predicate NoDigitTag(s: string)
    decreases |s|
  {
    s == "" || (!DigitTag(s) && NoDigitTag(s[TokenLength(s)..]))
  }

  lemma {:induction false} CloseQuoteAgrees(s: string)
    ensures QuotedLength(s) == Min(|s|, CloseQuote(s) + 1)
  {
    if s == "" {
    } else if s[0] != '\'' {
      CloseQuoteAgrees(s[1..]);
    } else if |s| >= 2 && s[1] == '\'' {
      CloseQuoteAgrees(s[2..]);
    }
  }

  lemma OpenersAgree(s: string)
    requires s != "" && !DigitTag(s)
    ensures MatchOpener(s) == OpenerLength(s)
  {
    if s[0] == '$' && |s| > 1 && !IsDigit(s[1]) {
      assert TagLength(s[1..], true) == TagLength(s[1..], false);
    }
  }

  lemma FindSkips(s: string)
    requires LineCommentStart(s)
    ensures Find(s, "\n") == 2 + Find(s[2..], "\n")
  {
    assert s[1..][1..] == s[2..];
  }

  lemma OneTokenAgrees(s: string)
    requires s != ""
    ensures StripLength(s) == TokenLength(s) <==> !DigitTag(s)
  {
    if LineCommentStart(s) {
      FindSkips(s);
    } else if BlockCommentStart(s) {
    } else if QuoteStart(s) {
      CloseQuoteAgrees(s[1..]);
    } else if DigitTag(s) {
      assert OpenerLength(s) == 0;
    } else {
      OpenersAgree(s);
    }
  }

  /** The two lexers cut a script into the same tokens exactly when no token starts with a
      digit-tagged dollar delimiter. */
  lemma {:induction false} TokensAgree(s: string)
    ensures Tokens(s) == CheckerTokens(s) <==> NoDigitTag(s)
    decreases |s|
  {
    hide TokenLength, StripLength, DigitTag;
    if s != "" {
      var k, c := TokenLength(s), StripLength(s);
      OneTokenAgrees(s);
      assert Tokens(s)[0] == s[..k] && CheckerTokens(s)[0] == s[..c];
      assert Tokens(s)[1..] == Tokens(s[k..]) && CheckerTokens(s)[1..] == CheckerTokens(s[c..]);
      assert |s[..k]| == k && |s[..c]| == c;
      if k == c { TokensAgree(s[k..]); }
    }
  }

  lemma DigitTagStripped()
    ensures DigitTag("$1$;$1$") && Strip("$1$;$1$") == " "
  {
    var s := "$1$;$1$";
    assert s[1..][1..] == "$;$1$";
    assert TagLength("$;$1$", true) == 0;
    assert MatchOpener(s) == 3;
    assert s[..3] == "$1$" && s[3..] == ";$1$" && s[3..][1..] == "$1$";
    assert Find("$1$", "$1$") == 0;
    assert Find(s[3..], s[..3]) == 1;
    assert s[7..] == "";
  }

  lemma PlainDollar(s: string)
    requires s != "" && s[0] == '$' && (|s| > 1 ==> !IsIdentStart(s[1]) && s[1] != '$')
    ensures TokenLength(s) == 1
  {
    assert OpenerLength(s) == 0;
  }

  lemma PlainHead(s: string, rest: string)
    requires s != "" && s[1..] == rest && TokenLength(s) == 1 && s[0] != ';'
    ensures Terminated(rest) ==> Terminated(s)
    ensures Unterminated(rest) ==> Unterminated(s)
  {
    hide TokenLength;
  }

  lemma DigitTagShapes()
    ensures Terminated("$1$;") && Unterminated("$1$")
  {
    hide Terminated, Unterminated;
    assert Terminated(";") && Unterminated("") by { SemicolonChunk(); }
    PlainDollar("$;");
    PlainHead("$;", ";");
    PlainHead("1$;", "$;");
    PlainDollar("$1$;");
    PlainHead("$1$;", "1$;");
    PlainDollar("$");
    PlainHead("$", "");
    PlainHead("1$", "$");
    PlainDollar("$1$");
    PlainHead("$1$", "1$");
  }

  lemma SemicolonChunk()
    ensures Terminated(";") && Unterminated("")
  {
  }

  lemma DigitTagSplit()
    ensures Split("$1$;$1$") == ["$1$;", "$1$"]
  {
    hide TokenLength, Terminated, Unterminated, Split, Emit;
    DigitTagShapes();
    SplitAfterTerminated("$1$;", "$1$");
    assert "$1$;" + "$1$" == "$1$;$1$";
    EmitCanonical("$1$;");
    CanonicalSplit("$1$");
  }

  /** The agreement does fail on digit tags: the runtime executes two statements where the
      checker sees one blank. */
  lemma DigitTagExample()
    ensures !NoDigitTag("$1$;$1$") && Tokens("$1$;$1$") != CheckerTokens("$1$;$1$")
    ensures Split("$1$;$1$") == ["$1$;", "$1$"] && Strip("$1$;$1$") == " "
  {
    DigitTagStripped();
    DigitTagSplit();
    TokensAgree("$1$;$1$");
  }

  // ---------- Statement by statement ----------

  lemma {:induction false} TagLocal(a: string, v: string, digitAllowed: bool)
    requires TagLength(a, digitAllowed) < |a|
    ensures TagLength(a + v, digitAllowed) == TagLength(a, digitAllowed)
  {
    if TagLength(a, digitAllowed) > 0 {
      assert (a + v)[1..] == a[1..] + v;
      TagLocal(a[1..], v, true);
    }
  }

  lemma MatchOpenerLocal(u: string, v: string)
    requires |u| >= 2 && u[|u| - 1] == ';'
    ensures MatchOpener(u + v) == MatchOpener(u)
  {
    var n := TagLength(u[1..], true);
    assert n < |u[1..]| by { assert u[1..][|u| - 2] == ';'; }
    TagLocal(u[1..], v, true);
    assert (u + v)[1..] == u[1..] + v;
  }

  /** The head of a terminated chunk is stripped alike with and without the text after it. */
  lemma {:induction false} HeadLocal(u: string, v: string)
    requires Terminated(u) && u[0] != ';' && !DigitTag(u + v)
    ensures TokenLength(u) < |u|
    ensures !DigitTag(u) && Image(u) == Image(u + v)
    ensures StripLength(u) == StripLength(u + v) == TokenLength(u) == TokenLength(u + v)
  {
    assert TokenLength(u) < |u|;
    TerminatedEnd(u);
    assert !DigitTag(u) && Image(u) == Image(u + v) by {
      hide TokenLength, StripLength, Terminated;
      MatchOpenerLocal(u, v);
      assert (u + v)[0] == u[0] && (u + v)[1] == u[1];
    }
    hide TokenLength, StripLength, DigitTag, Terminated;
    TokenLengthLocal(u, v);
    OneTokenAgrees(u);
    OneTokenAgrees(u + v);
  }

  lemma {:induction false} StripOn(s: string)
    requires s != ""
    ensures Strip(s) == Image(s) + Strip(s[StripLength(s)..])
    ensures TokenLength(s) <= |s| && (NoDigitTag(s) <==> !DigitTag(s) && NoDigitTag(s[TokenLength(s)..]))
  {
    hide TokenLength, StripLength, DigitTag, Image;
  }

  lemma {:induction false} TerminatedOn(u: string)
    requires Terminated(u) && u[0] != ';'
    ensures TokenLength(u) < |u| && Terminated(u[TokenLength(u)..])
  {
    hide TokenLength;
  }

  lemma {:induction false} LoneSemicolon(u: string)
    requires Terminated(u) && u[0] == ';'
    ensures u == ";"
  {
  }

  lemma {:induction false} StripLastToken(v: string)
    ensures NoDigitTag(";" + v) ==> NoDigitTag(v)
    ensures NoDigitTag(";") && Strip(";" + v) == ";" + Strip(v) && Strip(";") == ";" && Find(";", ";") == 0
  {
    var s := ";" + v;
    assert s[1..] == v && ";"[1..] == "";
    SemicolonStrip(s);
    SemicolonStrip(";");
  }

  /** One more token in front of a terminated chunk. */
  lemma {:induction false} StripMore(image: string, s: string, u: string, rest: string, v: string)
    requires s == image + (rest + v) && u == image + rest && forall i :: 0 <= i < |image| ==> image[i] != ';'
    requires rest != "" && Find(rest, ";") == |rest| - 1
    ensures s == u + v && u != "" && Find(u, ";") == |u| - 1
  {
    hide *;
    Regroup(image, rest, v);
    FindAfter(image, rest);
  }

  lemma {:induction false} TailOf(u: string, v: string, k: nat)
    requires k <= |u|
    ensures (u + v)[k..] == u[k..] + v
  {
  }

  lemma {:induction false} StripTerminated(u: string, v: string)
    requires Terminated(u) && NoDigitTag(u + v)
    ensures NoDigitTag(u) && NoDigitTag(v)
    ensures Strip(u + v) == Strip(u) + Strip(v)
    ensures Strip(u) != "" && Find(Strip(u), ";") == |Strip(u)| - 1
    decreases |u|
  {
    assert u != "";
    hide *;
    if u[0] == ';' {
      LoneSemicolon(u);
      StripLastToken(v);
    } else {
      StripOn(u + v);
      HeadLocal(u, v);
      var k := TokenLength(u);
      TailOf(u, v, k);
      TerminatedOn(u);
      StripTerminated(u[k..], v);
      StripOn(u);
      ImageHasNoSemicolon(u);
      StripMore(Image(u), Strip(u + v), Strip(u), Strip(u[k..]), Strip(v));
    }
  }

  lemma Regroup(a: string, b: string, c: string)
    ensures a + (b + c) == a + b + c
  {
  }

  lemma SemicolonStrip(s: string)
    requires s != "" && s[0] == ';'
    ensures TokenLength(s) == 1 && StripLength(s) == 1 && Image(s) == ";" && !DigitTag(s)
    ensures Strip(s) == ";" + Strip(s[1..])
    ensures Find(";", ";") == 0
  {
  }

  lemma ImageHasNoSemicolon(s: string)
    requires s != "" && s[0] != ';'
    ensures |Image(s)| <= 2 && forall i :: 0 <= i < |Image(s)| ==> Image(s)[i] != ';'
  {
  }

  lemma {:induction false} FindAfter(a: string, b: string)
    requires forall i :: 0 <= i < |a| ==> a[i] != ';'
    ensures Find(a + b, ";") == |a| + Find(b, ";")
  {
    if a == "" {
      assert a + b == b;
    } else {
      assert (a + b)[1..] == a[1..] + b;
      assert (a + b)[0] == a[0] != ';';
      FindAfter(a[1..], b);
    }
  }

  lemma {:induction false} StripUnterminated(s: string)
    ensures Unterminated(s) && NoDigitTag(s) ==> Find(Strip(s), ";") == |Strip(s)|
    decreases |s|
  {
    if s != "" && Unterminated(s) && NoDigitTag(s) {
      hide TokenLength, StripLength, DigitTag;
      OneTokenAgrees(s);
      StripUnterminated(s[TokenLength(s)..]);
      ImageHasNoSemicolon(s);
      FindAfter(Image(s), Strip(s[TokenLength(s)..]));
    }
  }

  /** The pieces of a text that end at a semicolon character, whatever surrounds it. */
  function Pieces(t: string): (ps: seq<string>)
    decreases |t|
  {
    var k := Find(t, ";");
    if k == |t| then [] else [t[..k + 1]] + Pieces(t[k + 1..])
  }

  /** The chunks of a script that end at a semicolon token. */
  function TerminatedChunks(s: string): (cs: seq<string>)
    decreases |s|
  {
    if s == "" || !Terminated(s[..ChunkLength(s)]) then []
    else [s[..ChunkLength(s)]] + TerminatedChunks(s[ChunkLength(s)..])
  }

  function StripAll(cs: seq<string>): (ts: seq<string>)
    ensures |ts| == |cs|
  {
    if cs == [] then [] else [Strip(cs[0])] + StripAll(cs[1..])
  }

  /** The semicolons strip_sql leaves correspond, in order, to the statement-ending ones: the
      text up to each is the stripped text of the runtime splitter's chunk. */
  lemma {:induction false} PiecesAreStrippedChunks(s: string)
    requires NoDigitTag(s)
    ensures Pieces(Strip(s)) == StripAll(TerminatedChunks(s))
    decreases |s|
  {
    hide TokenLength, StripLength, DigitTag, ChunkLength;
    if s != "" {
      var n := ChunkLength(s);
      var c, rest := s[..n], s[n..];
      FirstChunkShape(s);
      if Terminated(c) {
        assert c + rest == s;
        StripTerminated(c, rest);
        FindInPrefix(Strip(c), Strip(rest));
        var t := Strip(c) + Strip(rest);
        assert t[..|Strip(c)|] == Strip(c) && t[|Strip(c)|..] == Strip(rest);
        PiecesAreStrippedChunks(rest);
      } else {
        StripUnterminated(s);
      }
    }
  }

  lemma {:induction false} FindInPrefix(a: string, b: string)
    requires a != "" && Find(a, ";") == |a| - 1
    ensures Find(a + b, ";") == |a| - 1
  {
    if |a| > 1 {
      assert (a + b)[1..] == a[1..] + b;
      FindInPrefix(a[1..], b);
    }
  }

  /** Enough, and visible in the text: no dollar sign directly before a digit. */
  lemma {:induction false} NoDollarDigit(s: string)
    requires forall i :: 0 <= i < |s| - 1 && s[i] == '$' ==> !IsDigit(s[i + 1])
    ensures NoDigitTag(s)
    decreases |s|
  {
    hide TokenLength;
    if s != "" {
      NoDollarDigit(s[TokenLength(s)..]);
    }
  }

  // ---------- What strip_sql keeps ----------

  /** What becomes of one token, by its own text: literals are emptied, comments dropped, dollar
      bodies blanked, and any other token, a single character, is kept. */
  function Cleaned(token: string): (t: string)
    requires token != ""
  {
    if token[0] == '\'' then "''"
    else if |token| == 1 then token
    else if token[0] == '$' then " " else ""
  }

  function CleanedAll(tokens: seq<string>): (t: string)
    requires forall i :: 0 <= i < |tokens| ==> tokens[i] != ""
  {
    if tokens == [] then "" else Cleaned(tokens[0]) + CleanedAll(tokens[1..])
  }

  lemma {:induction false} CheckerTokensOn(s: string)
    requires s != ""
    ensures CheckerTokens(s) == [s[..StripLength(s)]] + CheckerTokens(s[StripLength(s)..])
  {
    hide StripLength;
  }

  lemma {:induction false} CheckerTokensCover(s: string)
    ensures Concat(CheckerTokens(s)) == s
    ensures forall i :: 0 <= i < |CheckerTokens(s)| ==> CheckerTokens(s)[i] != ""
    decreases |s|
  {
    if s != "" {
      var k := StripLength(s);
      CheckerTokensCover(s[k..]);
      CheckerTokensOn(s);
      hide StripLength, CheckerTokens;
      assert CheckerTokens(s)[1..] == CheckerTokens(s[k..]) && s[..k] + s[k..] == s;
    }
  }

  lemma OneCleaned(s: string)
    requires s != ""
    ensures Image(s) == Cleaned(s[..StripLength(s)])
  {
    if LineCommentStart(s) {
      FindSkips(s);
    } else if BlockCommentStart(s) {
    } else if QuoteStart(s) {
    } else if MatchOpener(s) > 0 {
    }
  }

  /** strip_sql keeps every plain character, in order, and of the other tokens only what Cleaned
      leaves. */
  lemma {:induction false} StripKeepsPlainText(s: string)
    ensures (forall i :: 0 <= i < |CheckerTokens(s)| ==> CheckerTokens(s)[i] != "")
    ensures Strip(s) == CleanedAll(CheckerTokens(s))
    decreases |s|
  {
    CheckerTokensCover(s);
    if s != "" {
      var k := StripLength(s);
      OneCleaned(s);
      StripKeepsPlainText(s[k..]);
      hide StripLength, Image, Cleaned;
      assert CheckerTokens(s)[1..] == CheckerTokens(s[k..]);
    }
  }

  // ---------- split_statements ----------

  /** str.split(";"): the text between the semicolons, the rest after the last one included. */
  function SplitOn(t: string): (ps: seq<string>)
    ensures ps != []
    decreases |t|
  {
    var k := Find(t, ";");
    if k == |t| then [t] else [t[..k]] + SplitOn(t[k + 1..])
  }

  /** The stripped pieces, blank ones dropped. */
  function NonBlank(ps: seq<string>): (r: seq<string>)
  {
    if ps == [] then []
    else
      var p := ApiSkeleton.Strip(ps[0]);
      (if p == "" then [] else [p]) + NonBlank(ps[1..])
  }

  function SplitStatements(sql: string): (r: seq<string>) { NonBlank(SplitOn(sql)) }

  /** A chunk as the checker sees it: stripped, without the semicolon that ends it. */
  function Bare(c: string): (t: string)
  {
    if Terminated(c) && Strip(c) != "" then Strip(c)[..|Strip(c)| - 1] else Strip(c)
  }

  function BareAll(cs: seq<string>): (ts: seq<string>) { if cs == [] then [] else [Bare(cs[0])] + BareAll(cs[1..]) }

  lemma {:induction false} SplitOnFirst(a: string, b: string)
    requires a != "" && Find(a, ";") == |a| - 1
    ensures SplitOn(a + b) == [a[..|a| - 1]] + SplitOn(b)
  {
    FindInPrefix(a, b);
    assert (a + b)[..|a| - 1] == a[..|a| - 1] && (a + b)[|a|..] == b;
  }

  lemma NoPieces()
    ensures NonBlank([""]) == [] && SplitOn("") == [""] && Strip("") == ""
  {
    assert ApiSkeleton.Strip("") == "";
  }

  lemma {:induction false} FirstPieces(cs: seq<string>, rest: seq<string>, bare: string)
    requires cs != [] && Bare(cs[0]) == bare && NonBlank(rest) == NonBlank(BareAll(cs[1..]))
    ensures NonBlank([bare] + rest) == NonBlank(BareAll(cs))
  {
    hide Bare;
    assert ([bare] + rest)[1..] == rest;
    assert BareAll(cs)[1..] == BareAll(cs[1..]);
  }

  /** What the checker examines are the runtime splitter's chunks, in order and each stripped, the
      unterminated last one included; only those that are blank once stripped are left out. */
  lemma {:induction false} CheckerSeesTheChunks(s: string)
    requires NoDigitTag(s)
    ensures SplitStatements(Strip(s)) == NonBlank(BareAll(Chunks(s)))
    decreases |s|
  {
    hide TokenLength, StripLength, DigitTag, ChunkLength, NonBlank;
    if s == "" {
      NoPieces();
      NothingToCheck();
    } else {
      var n := ChunkLength(s);
      var c, rest := s[..n], s[n..];
      FirstChunkShape(s);
      assert Chunks(s) == [c] + Chunks(rest);
      if Terminated(c) {
        assert c + rest == s;
        StripTerminated(c, rest);
        SplitOnFirst(Strip(c), Strip(rest));
        CheckerSeesTheChunks(rest);
        FirstPieces(Chunks(s), SplitOn(Strip(rest)), Bare(c));
      } else {
        assert c == s && rest == "";
        NothingToCheck();
        StripUnterminated(s);
        LastChunk(s);
      }
    }
  }

  lemma NothingToCheck()
    ensures Chunks("") == [] && BareAll([]) == [] && NonBlank([]) == []
  {
  }

  lemma {:induction false} LastChunk(s: string)
    requires s != "" && Chunks(s) == [s] && !Terminated(s) && Find(Strip(s), ";") == |Strip(s)|
    ensures SplitStatements(Strip(s)) == NonBlank(BareAll(Chunks(s)))
  {
    assert [s][1..] == [];
    assert BareAll([s]) == [Bare(s)];
  }
}
