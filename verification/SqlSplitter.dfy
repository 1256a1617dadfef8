/** SchemaManager::splitSqlStatements: cutting a migration script into statements. */
module SqlSplitter {
  import opened SqlLexicon

  // ---------- Chunks: the text up to and including each top-level semicolon ----------

  /** Length of the first chunk: it ends just after the first semicolon that is a token of
      its own, or at the end of the text. */
  function ChunkLength(s: string): (n: nat)
    ensures n <= |s| && (s != "" ==> n > 0)
    decreases |s|
  {
    if s == "" then 0
    else if s[0] == ';' then 1
    else TokenLength(s) + ChunkLength(s[TokenLength(s)..])
  }

  function Chunks(s: string): (cs: seq<string>)
    decreases |s|
  {
    if s == "" then [] else [s[..ChunkLength(s)]] + Chunks(s[ChunkLength(s)..])
  }

  function LeadingBlanks(s: string): (n: nat)
    ensures n <= |s| && (n < |s| ==> !IsBlank(s[n]))
    ensures forall i :: 0 <= i < n ==> IsBlank(s[i])
  {
    if s == "" || !IsBlank(s[0]) then 0 else 1 + LeadingBlanks(s[1..])
  }

  function TrailingBlanks(s: string): (n: nat)
    ensures n <= |s| && (n < |s| ==> !IsBlank(s[|s| - n - 1]))
    ensures forall i :: |s| - n <= i < |s| ==> IsBlank(s[i])
  {
    if s == "" || !IsBlank(s[|s| - 1]) then 0 else 1 + TrailingBlanks(s[..|s| - 1])
  }

  /** The text between its first and last non-blank characters. */
  function Trim(s: string): (t: string)
    ensures t == "" <==> AllBlank(s)
    ensures t != "" ==> !IsBlank(t[0]) && !IsBlank(t[|t| - 1])
  {
    var l, r := LeadingBlanks(s), TrailingBlanks(s);
    if l == |s| then "" else s[l..|s| - r]
  }

  /** What one chunk contributes: its trimmed text, unless that is blank or a lone semicolon. */
  function Emit(chunk: string): (r: seq<string>)
  {
    var t := Trim(chunk);
    if t == "" || t == ";" then [] else [t]
  }

  function Statements(chunks: seq<string>): (r: seq<string>)
  {
    if chunks == [] then [] else Emit(chunks[0]) + Statements(chunks[1..])
  }

  function Split(s: string): (r: seq<string>) { Statements(Chunks(s)) }

  function Concat(cs: seq<string>): (s: string)
  {
    if cs == [] then "" else cs[0] + Concat(cs[1..])
  }

  // ---------- The independent reading: tokens grouped at semicolon tokens ----------

  ghost predicate Tokenizes(ts: seq<string>, s: string)
  {
    if ts == [] then s == ""
    else
      && ts[0] <= s
      && IsToken(s, |ts[0]|)
      && Tokenizes(ts[1..], s[|ts[0]|..])
  }

  function Group(ts: seq<string>, current: string): (cs: seq<string>)
  {
    if ts == [] then (if current == "" then [] else [current])
    else if ts[0] == ";" then [current + ";"] + Group(ts[1..], "")
    else Group(ts[1..], current + ts[0])
  }

  lemma TokenizationExists(s: string) returns (ts: seq<string>)
    ensures Tokenizes(ts, s)
    decreases |s|
  {
    if s == "" {
      ts := [];
    } else {
      TokenLengthIsToken(s);
      var rest := TokenizationExists(s[TokenLength(s)..]);
      ts := [s[..TokenLength(s)]] + rest;
    }
  }

  function ChunksFrom(current: string, s: string): (cs: seq<string>)
  {
    if s == "" then (if current == "" then [] else [current])
    else [current + s[..ChunkLength(s)]] + Chunks(s[ChunkLength(s)..])
  }

  lemma ChunksFromNothing(s: string)
    ensures ChunksFrom("", s) == Chunks(s)
  {
    if s != "" { assert "" + s[..ChunkLength(s)] == s[..ChunkLength(s)]; }
  }

  lemma Regroup(current: string, s: string, k: nat, e: nat)
    requires k + e <= |s|
    ensures current + s[..k + e] == current + s[..k] + s[k..][..e]
    ensures s[k..][e..] == s[k + e..]
  {
    assert s[..k + e] == s[..k] + s[k..][..e];
  }

  lemma ChunksFromStep(current: string, s: string)
    requires s != "" && s[0] != ';'
    ensures ChunksFrom(current, s) == ChunksFrom(current + s[..TokenLength(s)], s[TokenLength(s)..])
  {
    hide TokenLength;
    var k := TokenLength(s);
    var rest := s[k..];
    var e := ChunkLength(rest);
    assert ChunkLength(s) == k + e;
    ChunksFromCut(current, s, k, e);
  }

  lemma {:induction false} ChunksFromUnfolds(current: string, s: string, n: nat)
    requires s != "" && n == ChunkLength(s)
    ensures ChunksFrom(current, s) == [current + s[..n]] + Chunks(s[n..])
  {
    hide ChunkLength, Chunks;
  }

  lemma NoChunks(current: string)
    requires current != ""
    ensures Chunks("") == [] && ChunksFrom(current, "") == [current]
  {
  }

  lemma {:induction false} ChunksFromCut(current: string, s: string, k: nat, e: nat)
    requires 1 <= k && k + e <= |s| && ChunkLength(s) == k + e && ChunkLength(s[k..]) == e
    ensures ChunksFrom(current, s) == ChunksFrom(current + s[..k], s[k..])
  {
    hide *;
    var rest, more := s[k..], current + s[..k];
    ChunksFromUnfolds(current, s, k + e);
    if rest == "" {
      assert k + e == |s| && k == |s|;
      assert s[k + e..] == rest && s[..k + e] == s[..k];
      NoChunks(more);
    } else {
      Regroup(current, s, k, e);
      ChunksFromUnfolds(more, rest, e);
    }
  }

  lemma {:induction false} GroupIsChunks(ts: seq<string>, current: string, s: string)
    requires Tokenizes(ts, s)
    ensures Group(ts, current) == ChunksFrom(current, s)
  {
    if ts != [] {
      TokenIsUnique(s, |ts[0]|);
      assert ts[0] == s[..TokenLength(s)];
      if s[0] == ';' {
        GroupIsChunks(ts[1..], "", s[1..]);
        ChunksFromNothing(s[1..]);
      } else {
        ChunksFromStep(current, s);
        GroupIsChunks(ts[1..], current + ts[0], s[|ts[0]|..]);
      }
    }
  }

  /** Every reading of the text as lexical tokens gives the statements of `Split`. */
  lemma {:induction false} SplitMeetsLexicon(s: string, ts: seq<string>)
    requires Tokenizes(ts, s)
    ensures Split(s) == Statements(Group(ts, ""))
  {
    GroupIsChunks(ts, "", s);
    ChunksFromNothing(s);
  }

  lemma {:induction false} ChunksLoseNothing(s: string)
    ensures Concat(Chunks(s)) == s
    decreases |s|
  {
    if s != "" {
      ChunksLoseNothing(s[ChunkLength(s)..]);
    }
  }

  /** Unfinished text of a chunk: blank, or holding some character besides blanks and `;`. */
  predicate NoLoneSemicolon(s: string)
  {
    AllBlank(s) || exists i :: 0 <= i < |s| && !IsBlank(s[i]) && s[i] != ';'
  }

  lemma LoneSemicolon(s: string)
    requires NoLoneSemicolon(s)
    ensures Trim(s) != ";"
  {
    if !AllBlank(s) {
      var i :| 0 <= i < |s| && !IsBlank(s[i]) && s[i] != ';';
      var l, r := LeadingBlanks(s), TrailingBlanks(s);
      assert Trim(s)[i - l] == s[i];
    }
  }

  lemma MoreText(current: string, t: string)
    requires NoLoneSemicolon(current) && t != "" && t[0] != ';' && (IsBlank(t[0]) ==> |t| == 1)
    ensures NoLoneSemicolon(current + t)
  {
    if AllBlank(current) {
      assert !IsBlank(t[0]) ==> (current + t)[|current|] == t[0];
    } else {
      var i :| 0 <= i < |current| && !IsBlank(current[i]) && current[i] != ';';
      assert (current + t)[i] == current[i];
    }
  }

  lemma SemicolonStep(current: string, s: string)
    requires s != "" && s[0] == ';'
    ensures Statements(ChunksFrom(current, s)) == Emit(current + ";") + Statements(ChunksFrom("", s[1..]))
    ensures NoLoneSemicolon("")
  {
    ChunksFromNothing(s[1..]);
    assert s[..1] == ";";
  }

  lemma StartText(s: string)
    ensures Split(s) == Statements(ChunksFrom("", s)) && NoLoneSemicolon("")
  {
    ChunksFromNothing(s);
  }

  lemma EndText(current: string)
    requires NoLoneSemicolon(current)
    ensures Statements(ChunksFrom(current, "")) == if Trim(current) == "" then [] else [Trim(current)]
  {
    LoneSemicolon(current);
  }

  // ---------- The scanner ----------

  method ScanLineComment(sql: string, start: nat) returns (i: nat)
    requires start < |sql| && LineCommentStart(sql[start..])
    ensures i == start + TokenLength(sql[start..])
  {
    i := start + 2;
    while i < |sql| && sql[i] != '\n'
      invariant start + 2 <= i <= |sql|
      invariant start + TokenLength(sql[start..]) == i + Find(sql[i..], "\n")
    {
      assert sql[i..][1..] == sql[i + 1..];
      i := i + 1;
    }
  }

  method ScanBlockComment(sql: string, start: nat) returns (i: nat)
    requires start < |sql| && BlockCommentStart(sql[start..])
    ensures i == start + TokenLength(sql[start..])
  {
    ghost var s := sql[start..];
    i := start + 2;
    while i < |sql| && !(sql[i] == '*' && i + 1 < |sql| && sql[i + 1] == '/')
      invariant start + 2 <= i <= |sql|
      invariant start + 2 + Find(s[2..], "*/") == i + Find(sql[i..], "*/")
    {
      assert sql[i..][1..] == sql[i + 1..];
      i := i + 1;
    }
    if i < |sql| {
      assert "*/" <= sql[i..];
      i := i + 2;
    }
  }

  method ScanQuoted(sql: string, start: nat) returns (i: nat)
    requires start < |sql| && sql[start] == '\''
    ensures i == start + TokenLength(sql[start..])
  {
    i := start + 1;
    var open := true;
    while open && i < |sql|
      invariant start + 1 <= i <= |sql|
      invariant open ==> start + TokenLength(sql[start..]) == i + QuotedLength(sql[i..])
      invariant !open ==> start + TokenLength(sql[start..]) == i
      decreases |sql| - i, open
    {
      if sql[i] == '\'' && i + 1 < |sql| && sql[i + 1] == '\'' {
        assert sql[i..][2..] == sql[i + 2..];
        i := i + 2;
      } else if sql[i] == '\'' {
        i := i + 1;
        open := false;
      } else {
        assert sql[i..][1..] == sql[i + 1..];
        i := i + 1;
      }
    }
  }

  /** Reads a dollar-quote opener at `start`; `d` is its length, 0 when there is none. */
  method ReadOpener(sql: string, start: nat) returns (d: nat)
    requires start < |sql| && sql[start] == '$'
    ensures d == OpenerLength(sql[start..]) && start + d <= |sql|
  {
    var j := start + 1;
    var tag := "";
    ghost var total := TagLength(sql[start..][1..], false);
    assert sql[start..][1..] == sql[start + 1..];
    var scanning := true;
    while scanning && j < |sql| && sql[j] != '$' && sql[j] != '\n'
      invariant start + 1 <= j <= |sql|
      invariant |tag| == j - start - 1
      invariant j - start - 1 + TagLength(sql[j..], tag != "") == total
      invariant !scanning ==> TagLength(sql[j..], tag != "") == 0
      decreases |sql| - j, scanning
    {
      if if tag == "" then !IsIdentStart(sql[j]) else !IsWord(sql[j]) {
        scanning := false;
      } else {
        assert sql[j..][1..] == sql[j + 1..];
        tag := tag + [sql[j]];
        j := j + 1;
      }
    }
    assert TagLength(sql[j..], tag != "") == 0;
    assert j < |sql| ==> sql[j] == sql[start..][j - start];
    d := if j < |sql| && sql[j] == '$' then j - start + 1 else 0;
  }

  lemma DollarTokenLength(s: string, d: nat)
    requires s != "" && s[0] == '$' && d > 0 && d == OpenerLength(s)
    ensures TokenLength(s) == var k := Find(s[d..], s[..d]); if d + k == |s| then |s| else d + k + d
  {
  }

  /** The inner loop: where the delimiter occurs next, or the end. */
  method FindDelimiter(sql: string, from: nat, delim: string) returns (i: nat)
    requires from <= |sql| && delim != "" && delim[0] == '$'
    ensures i == from + Find(sql[from..], delim)
  {
    i := from;
    hide *;
    while i < |sql| && !(sql[i] == '$' && delim <= sql[i..])
      invariant from <= i <= |sql|
      invariant from + Find(sql[from..], delim) == i + Find(sql[i..], delim)
    {
      hide *;
      FindHead(sql, i, delim);
      i := i + 1;
    }
    if i < |sql| { FindHead(sql, i, delim); } else { FindNothing(sql, delim); }
  }

  method ScanDollarBody(sql: string, start: nat, d: nat) returns (i: nat)
    requires start < |sql| && sql[start] == '$' && d > 0 && d == OpenerLength(sql[start..])
    ensures i == start + TokenLength(sql[start..])
  {
    ghost var s := sql[start..];
    var delim := sql[start..start + d];
    assert delim == s[..d] && s[d..] == sql[start + d..];
    DollarTokenLength(s, d);
    hide *;
    i := FindDelimiter(sql, start + d, delim);
    if i < |sql| { i := i + d; }
  }

  lemma FindHead(s: string, i: nat, pattern: string)
    requires i < |s| && pattern != ""
    ensures if pattern <= s[i..] then Find(s[i..], pattern) == 0
            else Find(s[i..], pattern) == 1 + Find(s[i + 1..], pattern)
  {
    assert s[i..][1..] == s[i + 1..];
  }

  lemma FindNothing(s: string, pattern: string)
    requires pattern != ""
    ensures Find(s[|s|..], pattern) == 0
  {
    assert s[|s|..] == "";
  }

  method ScanToken(sql: string, i: nat) returns (next: nat)
    requires i < |sql|
    ensures next == i + TokenLength(sql[i..])
    ensures IsBlank(sql[i]) || sql[i] == ';' ==> next == i + 1
  {
    var c := sql[i];
    next := i + 1;
    if c == '-' && i + 1 < |sql| && sql[i + 1] == '-' {
      next := ScanLineComment(sql, i);
    } else if c == '/' && i + 1 < |sql| && sql[i + 1] == '*' {
      next := ScanBlockComment(sql, i);
    } else if c == '\'' {
      next := ScanQuoted(sql, i);
    } else if c == '$' {
      var d := ReadOpener(sql, i);
      if d > 0 {
        next := ScanDollarBody(sql, i, d);
      }
    }
  }

  method SplitSqlStatements(sql: string) returns (statements: seq<string>)
    ensures statements == Split(sql)
  {
    hide *;
    statements := [];
    var current := "";
    var i := 0;
    StartText(sql);
    assert sql[0..] == sql;
    while i < |sql|
      invariant 0 <= i <= |sql|
      invariant Split(sql) == statements + Statements(ChunksFrom(current, sql[i..]))
      invariant NoLoneSemicolon(current)
    {
      ghost var rest := sql[i..];
      if sql[i] == ';' {
        SemicolonStep(current, rest);
        statements := statements + Emit(current + ";");
        current := "";
        i := i + 1;
      } else {
        var next := ScanToken(sql, i);
        ChunksFromStep(current, rest);
        assert rest[..next - i] == sql[i..next];
        MoreText(current, sql[i..next]);
        current := current + sql[i..next];
        i := next;
      }
    }
    assert sql[i..] == "";
    EndText(current);
    var trimmed := Trim(current);
    if trimmed != "" {
      statements := statements + [trimmed];
    }
  }
}
