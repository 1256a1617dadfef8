/** The declaration skeleton of a C++ header: comments blanked, function bodies dropped, lines
    normalised (tools/api-diff/api_diff.py). */
module ApiSkeleton {

  // ---------- Characters ----------

  /** Where Python's str.splitlines breaks. */
  predicate IsBreak(c: char)
  {
    c in {'\n', '\r', '\U{0B}', '\U{0C}', '\U{1C}', '\U{1D}', '\U{1E}', '\U{85}', '\U{2028}', '\U{2029}'}
  }

  /** Python's str.isspace, which `\s` and strip() follow. */
  predicate IsSpace(c: char)
  {
    || IsBreak(c)
    || c in {' ', '\t', '\U{1F}', '\U{A0}', '\U{1680}', '\U{202F}', '\U{205F}', '\U{3000}'}
    || '\U{2000}' <= c <= '\U{200A}'
  }

  ghost predicate Unbroken(s: string) { forall i :: 0 <= i < |s| ==> !IsBreak(s[i]) }

  // ---------- strip_comments ----------

  datatype Lex = Code | LineComment | BlockComment | Quoted(quote: char)

  predicate Opens(s: string, second: char) { |s| > 1 && s[0] == '/' && s[1] == second }

  predicate Closes(s: string) { |s| > 1 && s[0] == '*' && s[1] == '/' }

  predicate Escapes(s: string) { |s| > 1 && s[0] == '\\' }

  predicate IsQuote(c: char) { c == '"' || c == '\'' }

  /** What the scanner does at the head of `s`: the text it emits, as long as what it consumes, and
      the state it is then in. */
  function Emit(s: string, lex: Lex): (r: (string, Lex))
    requires s != []
    ensures 1 <= |r.0| <= |s|
  {
    match lex
    case Code =>
      if Opens(s, '/') then ("  ", LineComment)
      else if Opens(s, '*') then ("  ", BlockComment)
      else if IsQuote(s[0]) then (s[..1], Quoted(s[0]))
      else (s[..1], Code)
    case LineComment => if s[0] == '\n' then ("\n", Code) else (" ", LineComment)
    case BlockComment =>
      if Closes(s) then ("  ", Code) else (if s[0] == '\n' then "\n" else " ", BlockComment)
    case Quoted(q) =>
      if Escapes(s) then (s[..2], lex)
      else (s[..1], if s[0] == q then Code else lex)
  }

  function StripComments(s: string, lex: Lex): (r: string)
  {
    if s == [] then []
    else
      var (text, next) := Emit(s, lex);
      text + StripComments(s[|text|..], next)
  }

  /** One turn of the loop. */
  method ScanOne(source: string, i: nat, lex: Lex) returns (text: string, next: Lex)
    requires i < |source|
    ensures (text, next) == Emit(source[i..], lex)
  {
    var ch := source[i];
    var two := i + 1 < |source|;
    assert source[i..][..1] == [ch] && (two ==> source[i..][..2] == [ch] + [source[i + 1]]);
    next := lex;
    match lex {
      case Code =>
        if ch == '/' && two && source[i + 1] == '/' {
          return "  ", LineComment;
        }
        if ch == '/' && two && source[i + 1] == '*' {
          return "  ", BlockComment;
        }
        if ch == '"' || ch == '\'' { next := Quoted(ch); }
        text := [ch];
      case LineComment =>
        if ch == '\n' {
          return "\n", Code;
        }
        text := " ";
      case BlockComment =>
        if ch == '*' && two && source[i + 1] == '/' {
          return "  ", Code;
        }
        text := if ch == '\n' then "\n" else " ";
      case Quoted(q) =>
        text := [ch];
        if ch == '\\' && two {
          return text + [source[i + 1]], lex;
        }
        if ch == q { next := Code; }
    }
  }

  method StripCommentsLoop(source: string) returns (out: string)
    ensures out == StripComments(source, Code)
  {
    hide Emit;
    out := [];
    var i, lex := 0, Code;
    while i < |source|
      invariant i <= |source|
      invariant out + StripComments(source[i..], lex) == StripComments(source, Code)
    {
      var text, next := ScanOne(source, i, lex);
      assert source[i..][|text|..] == source[i + |text|..];
      assert out + (text + StripComments(source[i + |text|..], next)) == (out + text) + StripComments(source[i + |text|..], next);
      out, i, lex := out + text, i + |text|, next;
    }
  }

  /** Layout is preserved: same length, every character kept or blanked, newlines exactly where they
      were. */
  lemma {:induction false} CommentsKeepLayout(s: string, lex: Lex)
    ensures var out := StripComments(s, lex);
      && |out| == |s|
      && forall k :: 0 <= k < |s| ==> (out[k] == s[k] || out[k] == ' ') && (out[k] == '\n' <==> s[k] == '\n')
    decreases |s|
  {
    if s != [] {
      var (text, next) := Emit(s, lex);
      CommentsKeepLayout(s[|text|..], next);
    }
  }

  function Reread(lex: Lex): Lex { if lex.Quoted? then lex else Code }

  lemma EmitAgain(s: string, lex: Lex, rest: string)
    requires s != [] && |rest| == |s| - |Emit(s, lex).0|
    requires rest != [] ==> rest[0] == s[|Emit(s, lex).0|] || rest[0] == ' '
    ensures var (text, next) := Emit(s, lex);
      if lex.Quoted? || |text| == 1 then Emit(text + rest, Reread(lex)) == (text, Reread(next))
      else Emit(text + rest, Code) == (" ", Code) && Emit(" " + rest, Code) == (" ", Code) && text == "  "
  {
    var (text, next) := Emit(s, lex);
    var out := text + rest;
    assert |out| > 1 && |text| == 1 ==> out[1] == rest[0];
    assert (" " + rest)[..1] == " ";
    assert out[..|text|] == text;
    assert |text| == 2 && !lex.Quoted? ==> out[..1] == " ";
  }

  /** What is left has no comments: stripping again changes nothing. */
  lemma {:induction false} StrippedHasNoComments(s: string, lex: Lex)
    ensures StripComments(StripComments(s, lex), Reread(lex)) == StripComments(s, lex)
    decreases |s|
  {
    if s != [] {
      var (text, next) := Emit(s, lex);
      var rest := StripComments(s[|text|..], next);
      CommentsKeepLayout(s[|text|..], next);
      StrippedHasNoComments(s[|text|..], next);
      EmitAgain(s, lex, rest);
      AgainUnfolds(s, lex, text, next, rest);
    }
  }

  lemma AgainUnfolds(s: string, lex: Lex, text: string, next: Lex, rest: string)
    requires s != [] && (text, next) == Emit(s, lex) && StripComments(rest, Reread(next)) == rest
    requires if lex.Quoted? || |text| == 1 then Emit(text + rest, Reread(lex)) == (text, Reread(next))
             else Emit(text + rest, Code) == (" ", Code) && Emit(" " + rest, Code) == (" ", Code) && text == "  "
    ensures StripComments(text + rest, Reread(lex)) == text + rest
  {
    var out := text + rest;
    if lex.Quoted? || |text| == 1 {
      hide Emit;
      assert out[|text|..] == rest;
    } else {
      assert next.Code? || next.LineComment? || next.BlockComment?;
      hide Emit;
      assert out[1..] == " " + rest;
      assert (" " + rest)[1..] == rest;
      assert " " + (" " + rest) == out;
    }
  }

  // ---------- strip_bodies ----------

  predicate Skipped(c: char)
  {
    'a' <= c <= 'z' || 'A' <= c <= 'Z' || '0' <= c <= '9' || c in "_ \t\n\r<>,&*-[]."
  }

  /** _is_function_body: reading back from `i`, does anything but trivia reach a ')'? */
  function ReachesParen(text: string, i: int): (r: bool)
    requires i < |text|
    decreases i
  {
    if i < 0 then false
    else if text[i] == ':' then i > 0 && text[i - 1] == ':' && ReachesParen(text, i - 2)
    else if Skipped(text[i]) then ReachesParen(text, i - 1)
    else text[i] == ')'
  }

  method IsFunctionBody(text: string, bracePos: nat) returns (r: bool)
    requires bracePos < |text|
    ensures r == ReachesParen(text, bracePos - 1)
  {
    var i := bracePos - 1;
    while i >= 0
      invariant i < |text|
      invariant ReachesParen(text, i) == ReachesParen(text, bracePos - 1)
    {
      var ch := text[i];
      if ch == ':' {
        if i > 0 && text[i - 1] == ':' {
          i := i - 2;
          continue;
        }
        return false;
      }
      if Skipped(ch) {
        i := i - 1;
        continue;
      }
      return ch == ')';
    }
    return false;
  }

  /** The position after the literal whose inside starts at `i`. */
  function LiteralEnd(text: string, i: nat, quote: char): (j: nat)
    requires i <= |text|
    ensures i <= j <= |text|
    decreases |text| - i
  {
    if i == |text| then i
    else if text[i] == '\\' && i + 1 < |text| then LiteralEnd(text, i + 2, quote)
    else if text[i] == quote then i + 1
    else LiteralEnd(text, i + 1, quote)
  }

  method SkipLiteral(text: string, start: nat, quote: char) returns (i: nat)
    requires start <= |text|
    ensures i == LiteralEnd(text, start, quote)
  {
    i := start;
    while i < |text|
      invariant i <= |text|
      invariant LiteralEnd(text, i, quote) == LiteralEnd(text, start, quote)
    {
      if text[i] == '\\' && i + 1 < |text| {
        i := i + 2;
        continue;
      }
      if text[i] == quote {
        return i + 1;
      }
      i := i + 1;
    }
  }

  /** The position after the brace that closes `depth` open blocks, literals skipped. */
  function BlockEnd(text: string, i: nat, depth: nat): (j: nat)
    requires i <= |text|
    ensures i <= j <= |text|
    decreases |text| - i
  {
    if i == |text| || depth == 0 then i
    else if IsQuote(text[i]) then BlockEnd(text, LiteralEnd(text, i + 1, text[i]), depth)
    else BlockEnd(text, i + 1, if text[i] == '{' then depth + 1 else if text[i] == '}' then depth - 1 else depth)
  }

  method SkipBlock(text: string, start: nat) returns (i: nat)
    requires start <= |text|
    ensures i == BlockEnd(text, start, 1)
  {
    var depth := 1;
    i := start;
    while i < |text| && depth > 0
      invariant i <= |text| && depth >= 0
      invariant BlockEnd(text, i, depth) == BlockEnd(text, start, 1)
      decreases |text| - i
    {
      var c := text[i];
      if IsQuote(c) {
        i := SkipLiteral(text, i + 1, c);
        continue;
      }
      if c == '{' {
        depth := depth + 1;
      } else if c == '}' {
        depth := depth - 1;
      }
      i := i + 1;
    }
  }

  /** The text from `i` on with function bodies replaced by ';' and literals copied. */
  function StripBodies(text: string, i: nat): (r: string)
    requires i <= |text|
    decreases |text| - i
  {
    if i == |text| then []
    else if IsQuote(text[i]) then
      var j := LiteralEnd(text, i + 1, text[i]);
      text[i..j] + StripBodies(text, j)
    else if text[i] == '{' && ReachesParen(text, i - 1) then
      ";" + StripBodies(text, BlockEnd(text, i + 1, 1))
    else [text[i]] + StripBodies(text, i + 1)
  }

  method StripBodiesLoop(text: string) returns (out: string)
    ensures out == StripBodies(text, 0)
  {
    hide LiteralEnd, BlockEnd, ReachesParen;
    out := [];
    var i := 0;
    while i < |text|
      invariant i <= |text|
      invariant out + StripBodies(text, i) == StripBodies(text, 0)
    {
      var j, piece;
      var body := text[i] == '{';
      if body { body := IsFunctionBody(text, i); }
      if IsQuote(text[i]) {
        j := SkipLiteral(text, i + 1, text[i]);
        piece := text[i..j];
      } else if body {
        j := SkipBlock(text, i + 1);
        piece := ";";
      } else {
        j, piece := i + 1, [text[i]];
      }
      assert StripBodies(text, i) == piece + StripBodies(text, j);
      assert out + (piece + StripBodies(text, j)) == (out + piece) + StripBodies(text, j);
      out, i := out + piece, j;
    }
  }

  // ---------- No skeleton line looks like a comment ----------

  /** No line of the scanned source ends inside a literal. */
  predicate LiteralsClosed(s: string, lex: Lex)
  {
    s == [] ||
    var (text, next) := Emit(s, lex);
    && (lex.Quoted? ==> forall k :: 0 <= k < |text| ==> !IsBreak(text[k]))
    && LiteralsClosed(s[|text|..], next)
  }

  /** No line of `t` starts, after blanks, with "//"; `start`: only blanks so far on this line. */
  predicate NoCommentLine(t: string, start: bool)
  {
    t == [] ||
    if IsSpace(t[0]) then NoCommentLine(t[1..], start || IsBreak(t[0]))
    else !(start && Opens(t, '/')) && NoCommentLine(t[1..], false)
  }

  lemma {:induction false} StartIsStronger(t: string)
    requires NoCommentLine(t, true)
    ensures NoCommentLine(t, false)
  {
    if t != [] {
      if IsSpace(t[0]) && !IsBreak(t[0]) { StartIsStronger(t[1..]); }
    }
  }

  lemma {:induction false} SuffixHasNone(t: string, k: nat, start: bool)
    requires NoCommentLine(t, start) && k <= |t|
    ensures NoCommentLine(t[k..], false)
  {
    if k == 0 {
      assert t[0..] == t;
      if start { StartIsStronger(t); }
    } else {
      SuffixHasNone(t[1..], k - 1, if IsSpace(t[0]) then start || IsBreak(t[0]) else false);
      assert t[1..][k - 1..] == t[k..];
    }
  }

  lemma OneMore(c: char, rest: string, start: bool)
    ensures NoCommentLine([c] + rest, start) ==
      if IsSpace(c) then NoCommentLine(rest, start || IsBreak(c))
      else !(start && c == '/' && rest != [] && rest[0] == '/') && NoCommentLine(rest, false)
  {
    assert ([c] + rest)[1..] == rest;
  }

  lemma {:induction false} CommentsLeaveNone(s: string, lex: Lex, start: bool)
    requires LiteralsClosed(s, lex) && (lex.Quoted? ==> !start)
    ensures NoCommentLine(StripComments(s, lex), start)
    decreases |s|
  {
    if s != [] {
      var (text, next) := Emit(s, lex);
      var rest := StripComments(s[|text|..], next);
      CommentsKeepLayout(s[|text|..], next);
      var after := if text[0] == '\n' then true else if IsSpace(text[0]) then start || IsBreak(text[0]) else false;
      CommentsLeaveNone(s[|text|..], next, if lex.Quoted? then false else after);
      hide StripComments, LiteralsClosed, NoCommentLine;
      if |text| == 1 {
        OneMore(text[0], rest, start);
        assert text == [text[0]];
      } else {
        OneMore(text[1], rest, start);
        OneMore(text[1], rest, false);
        OneMore(text[0], [text[1]] + rest, start);
        assert text + rest == [text[0]] + ([text[1]] + rest);
      }
    }
  }

  lemma FirstOut(text: string, i: nat)
    requires i <= |text|
    ensures i == |text| ==> StripBodies(text, i) == []
    ensures i < |text| ==> StripBodies(text, i) != [] && StripBodies(text, i)[0] in [text[i], ';']
  {
  }

  lemma {:induction false} CopyKeepsNone(text: string, i: nat, j: nat, rest: string, start: bool)
    requires i <= j <= |text| && NoCommentLine(text[i..], start)
    requires rest != [] ==> j < |text| && rest[0] in [text[j], ';']
    requires forall b :: NoCommentLine(text[j..], b) ==> NoCommentLine(rest, b)
    ensures NoCommentLine(text[i..j] + rest, start)
    decreases j - i
  {
    if i == j {
      assert text[i..j] + rest == rest;
    } else {
      assert text[i..] == [text[i]] + text[i + 1..];
      OneMore(text[i], text[i + 1..], start);
      CopyKeepsNone(text, i + 1, j, rest, if IsSpace(text[i]) then start || IsBreak(text[i]) else false);
      OneMore(text[i], text[i + 1..j] + rest, start);
      assert text[i..j] + rest == [text[i]] + (text[i + 1..j] + rest);
    }
  }

  lemma {:induction false} BodiesLeaveNone(text: string, i: nat, start: bool)
    requires i <= |text| && NoCommentLine(text[i..], start)
    ensures NoCommentLine(StripBodies(text, i), start)
    decreases |text| - i
  {
    if i < |text| {
      var c := text[i];
      if IsQuote(c) {
        var j := LiteralEnd(text, i + 1, c);
        BodiesCopied(text, i, j, start);
      } else if c == '{' && ReachesParen(text, i - 1) {
        var j := BlockEnd(text, i + 1, 1);
        SuffixHasNone(text[i..], j - i, start);
        assert text[i..][j - i..] == text[j..];
        BodiesLeaveNone(text, j, false);
        OneMore(';', StripBodies(text, j), start);
      } else {
        BodiesCopied(text, i, i + 1, start);
        assert text[i..i + 1] == [text[i]];
      }
    }
  }

  lemma {:induction false} BodiesCopied(text: string, i: nat, j: nat, start: bool)
    requires i < j <= |text| && NoCommentLine(text[i..], start)
    ensures NoCommentLine(text[i..j] + StripBodies(text, j), start)
    decreases |text| - i, 0
  {
    forall b | NoCommentLine(text[j..], b)
      ensures NoCommentLine(StripBodies(text, j), b)
    {
      BodiesLeaveNone(text, j, b);
    }
    FirstOut(text, j);
    CopyKeepsNone(text, i, j, StripBodies(text, j), start);
  }

  // ---------- Lines ----------

  /** The length of the first line, without its break. */
  function LineLength(t: string): (n: nat)
    ensures n <= |t|
  {
    if t == [] || IsBreak(t[0]) then 0 else 1 + LineLength(t[1..])
  }

  function BreakLength(t: string): (n: nat)
    requires t != []
    ensures 1 <= n <= |t|
  {
    if |t| > 1 && t[0] == '\r' && t[1] == '\n' then 2 else 1
  }

  /** str.splitlines. */
  function SplitLines(t: string): (lines: seq<string>)
    decreases |t|
  {
    if t == [] then []
    else
      var n := LineLength(t);
      if n == |t| then [t] else [t[..n]] + SplitLines(t[n + BreakLength(t[n..])..])
  }

  /** Runs of white space become one blank. */
  function Collapse(s: string): (r: string)
  {
    if s == [] then []
    else if !IsSpace(s[0]) then [s[0]] + Collapse(s[1..])
    else if |s| > 1 && IsSpace(s[1]) then Collapse(s[1..])
    else " " + Collapse(s[1..])
  }

  function StripLeft(s: string): (r: string) { if s != [] && IsSpace(s[0]) then StripLeft(s[1..]) else s }

  function StripRight(s: string): (r: string)
  {
    if s != [] && IsSpace(s[|s| - 1]) then StripRight(s[..|s| - 1]) else s
  }

  function Strip(s: string): (r: string) { StripRight(StripLeft(s)) }

  function Normalize(raw: string): (r: string) { Strip(Collapse(raw)) }

  function KeepLines(raws: seq<string>): (lines: seq<string>)
  {
    if raws == [] then []
    else (if Normalize(raws[0]) == [] then [] else [Normalize(raws[0])]) + KeepLines(raws[1..])
  }

  function Skeleton(source: string): (lines: seq<string>)
  {
    KeepLines(SplitLines(StripBodies(StripComments(source, Code), 0)))
  }

  method SkeletonOf(source: string) returns (lines: seq<string>)
    ensures lines == Skeleton(source)
  {
    var bare := StripCommentsLoop(source);
    var text := StripBodiesLoop(bare);
    var raws := SplitLines(text);
    lines := [];
    KeepNone(raws);
    for k := 0 to |raws|
      invariant lines + KeepLines(raws[k..]) == KeepLines(raws)
    {
      hide *;
      var line := Normalize(raws[k]);
      var kept := if line == [] then [] else [line];
      KeepOne(raws, k);
      assert lines + (kept + KeepLines(raws[k + 1..])) == (lines + kept) + KeepLines(raws[k + 1..]);
      lines := lines + kept;
    }
  }

  lemma KeepOne(raws: seq<string>, k: nat)
    requires k < |raws|
    ensures var line := Normalize(raws[k]);
      KeepLines(raws[k..]) == (if line == [] then [] else [line]) + KeepLines(raws[k + 1..])
  {
    assert raws[k..][1..] == raws[k + 1..];
  }

  lemma KeepNone(raws: seq<string>)
    ensures raws[0..] == raws && raws[|raws|..] == [] && KeepLines([]) == []
  {
  }

  ghost predicate StartsWith(s: string, prefix: string) { |prefix| <= |s| && s[..|prefix|] == prefix }

  lemma {:induction false} FirstLineHasNone(t: string, start: bool)
    requires NoCommentLine(t, start)
    ensures NoCommentLine(t[..LineLength(t)], start) && Unbroken(t[..LineLength(t)])
  {
    if t != [] && !IsBreak(t[0]) {
      var n := LineLength(t);
      var line := t[1..][..n - 1];
      FirstLineHasNone(t[1..], if IsSpace(t[0]) then start else false);
      hide IsSpace, IsBreak;
      assert t[..n] == [t[0]] + line;
      OneMore(t[0], line, start);
      assert line != [] ==> line[0] == t[1];
      hide NoCommentLine;
    }
  }

  lemma {:induction false} OtherLinesHaveNone(t: string, start: bool)
    requires NoCommentLine(t, start) && LineLength(t) < |t|
    ensures var n := LineLength(t); NoCommentLine(t[n + BreakLength(t[n..])..], true)
  {
    var n := LineLength(t);
    if IsBreak(t[0]) {
      assert t[0..] == t;
      if BreakLength(t) == 2 { assert t[1..][1..] == t[2..]; }
    } else {
      OtherLinesHaveNone(t[1..], if IsSpace(t[0]) then start else false);
      assert t[1..][n - 1..] == t[n..];
      var b := BreakLength(t[n..]);
      assert t[1..][n - 1 + b..] == t[n + b..];
    }
  }

  lemma {:induction false} LinesHaveNone(t: string)
    requires NoCommentLine(t, true)
    ensures forall k :: 0 <= k < |SplitLines(t)| ==> NoCommentLine(SplitLines(t)[k], true) && Unbroken(SplitLines(t)[k])
    decreases |t|
  {
    if t != [] {
      var n := LineLength(t);
      FirstLineHasNone(t, true);
      hide NoCommentLine, Unbroken, IsBreak, BreakLength;
      if n == |t| {
        assert t[..n] == t;
      } else {
        OtherLinesHaveNone(t, true);
        LinesHaveNone(t[n + BreakLength(t[n..])..]);
      }
    }
  }

  // ---------- The normalised lines ----------

  /** A line that a baseline can hold: not empty, no break, not taken for a comment. */
  ghost predicate PlainLine(s: string) { s != [] && Unbroken(s) && !StartsWith(s, "//") }

  /** Every kind of white space has become a blank. */
  lemma {:induction false} CollapseIsUnbroken(s: string)
    ensures Unbroken(Collapse(s))
  {
    if s != [] { CollapseIsUnbroken(s[1..]); }
  }

  lemma {:induction false} CollapseHead(s: string)
    requires s != []
    ensures Collapse(s) != [] && Collapse(s)[0] == if IsSpace(s[0]) then ' ' else s[0]
  {
    if |s| > 1 { CollapseHead(s[1..]); }
  }

  lemma {:induction false} CollapseFirst(s: string)
    requires NoCommentLine(s, true)
    ensures !StartsWith(StripLeft(Collapse(s)), "//")
  {
    if s != [] {
      var r := Collapse(s);
      if !IsSpace(s[0]) {
        assert StripLeft(r) == r && r[1..] == Collapse(s[1..]);
        if |s| > 1 { CollapseHead(s[1..]); }
        assert |r| > 1 && r[0] == '/' ==> r[1] != '/';
      } else {
        CollapseFirst(s[1..]);
        if !(|s| > 1 && IsSpace(s[1])) { assert r[1..] == Collapse(s[1..]); }
      }
    }
  }

  lemma {:induction false} StripRightIsPrefix(s: string)
    ensures StripRight(s) <= s
  {
    if s != [] && IsSpace(s[|s| - 1]) { StripRightIsPrefix(s[..|s| - 1]); }
  }

  lemma {:induction false} StripLeftIsSuffix(s: string)
    ensures |StripLeft(s)| <= |s| && StripLeft(s) == s[|s| - |StripLeft(s)|..]
  {
    if s != [] && IsSpace(s[0]) { StripLeftIsSuffix(s[1..]); }
  }

  lemma UnbrokenPart(c: string, i: nat, part: string)
    requires Unbroken(c) && i <= |c| && part <= c[i..]
    ensures Unbroken(part)
  {
    hide IsBreak;
    assert forall k :: 0 <= k < |part| ==> part[k] == c[i + k];
  }

  lemma NoSlashesBefore(part: string, whole: string)
    requires part <= whole && !StartsWith(whole, "//")
    ensures !StartsWith(part, "//")
  {
  }

  lemma NormalizeIsPlain(raw: string)
    requires NoCommentLine(raw, true)
    ensures Normalize(raw) != [] ==> PlainLine(Normalize(raw))
  {
    NormalizeIsUnbroken(raw);
    CollapseFirst(raw);
    StripRightIsPrefix(StripLeft(Collapse(raw)));
    NoSlashesBefore(Normalize(raw), StripLeft(Collapse(raw)));
    hide *;
    assert PlainLine(Normalize(raw)) <==> Normalize(raw) != [] by { PlainMeans(Normalize(raw)); }
  }

  lemma PlainMeans(s: string)
    ensures PlainLine(s) <==> s != [] && Unbroken(s) && !StartsWith(s, "//")
  {
  }

  /** Normalised lines hold no break, whatever they come from. */
  lemma NormalizeIsUnbroken(raw: string)
    ensures Unbroken(Normalize(raw))
  {
    var c := Collapse(raw);
    CollapseIsUnbroken(raw);
    StripLeftIsSuffix(c);
    StripRightIsPrefix(StripLeft(c));
    UnbrokenPart(c, |c| - |StripLeft(c)|, Normalize(raw));
  }

  lemma {:induction false} KeptArePlain(raws: seq<string>)
    requires forall k :: 0 <= k < |raws| ==> NoCommentLine(raws[k], true)
    ensures forall k :: 0 <= k < |KeepLines(raws)| ==> PlainLine(KeepLines(raws)[k])
  {
    hide NoCommentLine, PlainLine, Normalize;
    if raws != [] {
      NormalizeIsPlain(raws[0]);
      KeptArePlain(raws[1..]);
    }
  }

  /** When no line of the header ends inside a literal, no skeleton line is empty, holds a line break
      or starts like a comment. */
  lemma SkeletonIsPlain(source: string)
    requires LiteralsClosed(source, Code)
    ensures forall k :: 0 <= k < |Skeleton(source)| ==> PlainLine(Skeleton(source)[k])
  {
    hide LiteralsClosed, StripComments, StripBodies, SplitLines, KeepLines, PlainLine;
    var bare := StripComments(source, Code);
    CommentsLeaveNone(source, Code, true);
    assert bare[0..] == bare;
    BodiesLeaveNone(bare, 0, true);
    hide NoCommentLine;
    LinesHaveNone(StripBodies(bare, 0));
    KeptArePlain(SplitLines(StripBodies(bare, 0)));
  }
}
