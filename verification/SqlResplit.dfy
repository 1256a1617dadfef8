/** Splitting is a fixed point: the emitted statements split back to themselves. */
module SqlResplit {
  import opened SqlLexicon
  import opened SqlSplitter

  // ---------- Locality of the lexicon ----------

  lemma OccursLocal(p: string, u: string, v: string, i: nat)
    requires i + |p| <= |u|
    ensures Occurs(p, u, i) == Occurs(p, u + v, i)
  {
    assert (u + v)[i..][..|p|] == u[i..][..|p|];
  }

  lemma DelimitedLocal(u: string, v: string, from: nat, close: string, k: nat)
    requires from <= |u| && k < |u|
    ensures Delimited(u, from, close, k) == Delimited(u + v, from, close, k)
  {
    if from + |close| <= k {
      assert (u + v)[k - |close|..k] == u[k - |close|..k];
      forall i | from <= i < k - |close|
        ensures Occurs(close, u, i) == Occurs(close, u + v, i)
      {
        OccursLocal(close, u, v, i);
      }
    }
  }

  /** Text after a closing semicolon cannot change where an earlier token ends. */
  lemma TokenLocal(u: string, v: string, k: nat)
    requires u != "" && u[|u| - 1] == ';' && 1 <= k < |u|
    ensures IsToken(u, k) == IsToken(u + v, k)
  {
    var s := u + v;
    assert forall i :: 0 <= i < |u| ==> s[i] == u[i];
    if LineCommentStart(u) {
    } else if BlockCommentStart(u) {
      DelimitedLocal(u, v, 2, "*/", k);
    } else if QuoteStart(u) {
      assert 2 <= k ==> s[1..k - 1] == u[1..k - 1];
    } else {
      forall d: nat
        ensures IsOpener(u, d) == IsOpener(s, d)
      {
        OpenerLocal(u, v, d);
      }
      forall d: nat | IsOpener(u, d)
        ensures Delimited(u, d, u[..d], k) == Delimited(s, d, s[..d], k)
      {
        assert u[..d] == s[..d];
        DelimitedLocal(u, v, d, u[..d], k);
      }
    }
  }

  lemma OpenerLocal(u: string, v: string, d: nat)
    requires u != "" && u[|u| - 1] != '$' && !IsWord(u[|u| - 1])
    ensures IsOpener(u, d) == IsOpener(u + v, d)
  {
    var s := u + v;
    if 2 <= d <= |u| {
      assert s[1..d - 1] == u[1..d - 1];
    } else if |u| < d <= |s| && |u| > 1 {
      assert s[1..d - 1][|u| - 2] == u[|u| - 1];
    }
  }

  lemma TokenLengthLocal(u: string, v: string)
    requires u != "" && u[|u| - 1] == ';'
    requires TokenLength(u) < |u| || TokenLength(u + v) < |u|
    ensures TokenLength(u) == TokenLength(u + v)
  {
    hide TokenLength, IsToken;
    TokenLengthIsToken(u);
    TokenLengthIsToken(u + v);
    var k := if TokenLength(u) < |u| then TokenLength(u) else TokenLength(u + v);
    TokenLocal(u, v, k);
    TokenIsUnique(u, k);
    TokenIsUnique(u + v, k);
  }

  // ---------- Text that is exactly one chunk ----------

  /** One chunk closed by a semicolon token. */
  predicate Terminated(c: string)
    decreases |c|
  {
    c != "" &&
    if c[0] == ';' then |c| == 1
    else TokenLength(c) < |c| && Terminated(c[TokenLength(c)..])
  }

  /** Text without any semicolon token. */
  predicate Unterminated(c: string)
    decreases |c|
  {
    c == "" || (c[0] != ';' && Unterminated(c[TokenLength(c)..]))
  }

  lemma {:induction false} TerminatedEnd(c: string)
    requires Terminated(c)
    ensures c[|c| - 1] == ';'
    decreases |c|
  {
    hide TokenLength;
    if c[0] != ';' { TerminatedEnd(c[TokenLength(c)..]); }
  }

  lemma {:induction false} TerminatedPrefix(u: string, v: string)
    requires Terminated(u)
    ensures ChunkLength(u + v) == |u|
    decreases |u|
  {
    hide TokenLength;
    if u[0] != ';' {
      var k := TokenLength(u);
      TerminatedEnd(u);
      TokenLengthLocal(u, v);
      assert (u + v)[k..] == u[k..] + v;
      TerminatedPrefix(u[k..], v);
    }
  }

  lemma {:induction false} UnterminatedLength(s: string)
    requires Unterminated(s)
    ensures ChunkLength(s) == |s|
    decreases |s|
  {
    hide TokenLength;
    if s != "" { UnterminatedLength(s[TokenLength(s)..]); }
  }

  lemma {:induction false} FirstChunkShape(s: string)
    requires s != ""
    ensures Terminated(s[..ChunkLength(s)]) || (ChunkLength(s) == |s| && Unterminated(s))
    decreases |s|
  {
    hide TokenLength;
    if s[0] != ';' {
      var k := TokenLength(s);
      var rest := s[k..];
      if rest != "" {
        FirstChunkShape(rest);
        if Terminated(rest[..ChunkLength(rest)]) {
          var c := s[..ChunkLength(s)];
          assert c[k..] == rest[..ChunkLength(rest)];
          TerminatedEnd(c[k..]);
          assert c + s[|c|..] == s;
          TokenLengthLocal(c, s[|c|..]);
        }
      }
    }
  }

  // ---------- Trimming keeps the lexical shape ----------

  lemma BlankToken(s: string)
    requires s != "" && IsBlank(s[0])
    ensures TokenLength(s) == 1
  {
  }

  lemma {:induction false} DropLeadingBlanks(s: string, n: nat)
    requires n <= |s| && forall i :: 0 <= i < n ==> IsBlank(s[i])
    ensures Terminated(s) ==> Terminated(s[n..])
    ensures Unterminated(s) ==> Unterminated(s[n..])
  {
    hide TokenLength;
    if n > 0 {
      BlankToken(s);
      DropLeadingBlanks(s[1..], n - 1);
      assert s[1..][n - 1..] == s[n..];
    }
  }

  lemma {:induction false} DoubledWithoutTail(a: string, w: string)
    requires AllBlank(w) && Doubled(a + w)
    ensures Doubled(a)
  {
    if a == "" {
    } else if a[0] == '\'' {
      assert w != "" ==> (a + w)[|a|] == w[0];
      assert (a + w)[2..] == a[2..] + w;
      DoubledWithoutTail(a[2..], w);
    } else {
      assert (a + w)[1..] == a[1..] + w;
      DoubledWithoutTail(a[1..], w);
    }
  }

  lemma DelimitedTail(u: string, w: string, from: nat, close: string, k: nat)
    requires u != "" && w != "" && AllBlank(w) && close != "" && !IsBlank(close[|close| - 1]) && from <= |u|
    requires Delimited(u + w, from, close, k)
    ensures Delimited(u, from, close, if k <= |u| then k else |u|)
  {
    var s := u + w;
    if from + |close| <= k <= |s| && s[k - |close|..k] == close {
      assert s[k - 1] == s[k - |close|..k][|close| - 1];
      assert forall j :: |u| <= j < |s| ==> s[j] == w[j - |u|];
      assert u[k - |close|..k] == close;
    }
    forall i | from <= i < |u| && Occurs(close, u, i)
      ensures Occurs(close, s, i)
    {
      OccursLocal(close, u, w, i);
    }
  }

  lemma DollarTail(u: string, w: string, k: nat)
    requires u != "" && w != "" && AllBlank(w) && 1 <= k <= |u + w|
    requires exists d: nat :: IsOpener(u + w, d) && Delimited(u + w, d, (u + w)[..d], k)
    ensures exists d: nat :: IsOpener(u, d) && Delimited(u, d, u[..d], if k <= |u| then k else |u|)
  {
    var s := u + w;
    var d: nat :| IsOpener(s, d) && Delimited(s, d, s[..d], k);
    OpenerTail(u, w, d);
    assert s[..d] == u[..d];
    assert u[..d][d - 1] == '$';
    DelimitedTail(u, w, d, u[..d], k);
  }

  lemma TokenTailShape(u: string, w: string, k: nat)
    requires u != "" && w != "" && AllBlank(w) && IsToken(u + w, k)
    ensures IsToken(u, if k <= |u| then k else |u|)
  {
    var s := u + w;
    assert forall i :: 0 <= i < |u| ==> s[i] == u[i];
    assert s[|u|] == w[0];
    if LineCommentStart(s) {
    } else if BlockCommentStart(s) {
      DelimitedTail(u, w, 2, "*/", k);
    } else if QuoteStart(s) {
      QuotedTail(u, w, k);
    } else if exists d: nat :: IsOpener(s, d) {
      DollarTail(u, w, k);
    } else {
      forall d: nat
        ensures !IsOpener(u, d)
      {
        OpenerTail(u, w, d);
      }
    }
  }

  /** Blanks at the very end are either their own tokens or the tail of an unclosed one. */
  lemma TokenTail(u: string, w: string)
    requires u != "" && w != "" && AllBlank(w)
    ensures var k := TokenLength(u + w); TokenLength(u) == if k <= |u| then k else |u|
  {
    hide TokenLength, IsToken;
    var k := TokenLength(u + w);
    TokenLengthIsToken(u + w);
    TokenTailShape(u, w, k);
    TokenIsUnique(u, if k <= |u| then k else |u|);
  }

  lemma OpenerTail(u: string, w: string, d: nat)
    requires u != "" && AllBlank(w)
    ensures IsOpener(u, d) == IsOpener(u + w, d)
  {
    var s := u + w;
    if 2 <= d <= |u| {
      assert s[1..d - 1] == u[1..d - 1];
    } else if |u| < d <= |s| {
      assert s[d - 1] == w[d - 1 - |u|];
    }
  }

  lemma QuotedTail(u: string, w: string, k: nat)
    requires u != "" && w != "" && AllBlank(w) && QuoteStart(u + w) && !LineCommentStart(u + w)
    requires IsToken(u + w, k)
    ensures IsToken(u, if k <= |u| then k else |u|)
  {
    var s := u + w;
    if 2 <= k && s[k - 1] == '\'' && Doubled(s[1..k - 1]) && (k < |s| ==> s[k] != '\'') {
      assert forall j :: |u| <= j < |s| ==> s[j] == w[j - |u|];
      assert s[1..k - 1] == u[1..k - 1];
    } else {
      assert s[1..] == u[1..] + w;
      DoubledWithoutTail(u[1..], w);
    }
  }

  lemma {:induction false} DropTrailingBlanks(u: string, w: string)
    requires AllBlank(w) && Unterminated(u + w)
    ensures Unterminated(u)
    decreases |u|
  {
    hide TokenLength;
    if u != "" {
      if w == "" {
        assert u + w == u;
      } else {
        TokenTail(u, w);
        var k := TokenLength(u + w);
        assert (u + w)[0] == u[0];
        if k <= |u| {
          assert (u + w)[k..] == u[k..] + w;
          DropTrailingBlanks(u[k..], w);
        }
      }
    }
  }

  // ---------- Canonical statements ----------

  /** A trimmed, non-empty text that is one chunk and more than a lone semicolon. */
  predicate Canonical(t: string)
  {
    && t != "" && t != ";" && !IsBlank(t[0]) && !IsBlank(t[|t| - 1])
    && (Terminated(t) || Unterminated(t))
  }

  predicate WellCut(l: seq<string>)
  {
    forall i :: 0 <= i < |l| ==> Canonical(l[i]) && (i < |l| - 1 ==> Terminated(l[i]))
  }

  lemma LastIsKept(c: string)
    requires c != "" && !IsBlank(c[|c| - 1])
    ensures TrailingBlanks(c) == 0 && !AllBlank(c)
  {
  }

  lemma TailIsBlank(c: string)
    ensures AllBlank(c[|c| - TrailingBlanks(c)..])
  {
    hide TrailingBlanks;
    var n := |c| - TrailingBlanks(c);
    assert forall i :: 0 <= i < |c[n..]| ==> c[n..][i] == c[n + i];
  }

  lemma {:induction false} TrimShape(c: string)
    requires c != ""
    ensures Terminated(c) ==> Terminated(Trim(c))
    ensures Unterminated(c) && Trim(c) != "" ==> Unterminated(Trim(c))
  {
    hide Terminated, Unterminated, LeadingBlanks, TrailingBlanks, AllBlank, Trim;
    var l, r := LeadingBlanks(c), TrailingBlanks(c);
    DropLeadingBlanks(c, l);
    if Terminated(c) {
      TerminatedEnd(c);
      LastIsKept(c);
      TrimForm(c);
      assert c[l..|c| - r] == c[l..];
    }
    if Unterminated(c) && Trim(c) != "" {
      TrimForm(c);
      assert c[l..] == c[l..|c| - r] + c[|c| - r..];
      TailIsBlank(c);
      DropTrailingBlanks(c[l..|c| - r], c[|c| - r..]);
    }
  }

  lemma {:induction false} SplitUnfolds(s: string)
    requires s != ""
    ensures Split(s) == Emit(s[..ChunkLength(s)]) + Split(s[ChunkLength(s)..])
    ensures Split("") == []
  {
    hide ChunkLength, Emit;
    var n := ChunkLength(s);
    var cs := [s[..n]] + Chunks(s[n..]);
    assert Chunks(s) == cs && cs[1..] == Chunks(s[n..]);
  }

  lemma {:induction false} EmitShape(c: string)
    requires c != "" && (Terminated(c) || Unterminated(c))
    ensures |Emit(c)| <= 1
    ensures Emit(c) != [] ==> Canonical(Emit(c)[0]) && (Terminated(c) ==> Terminated(Emit(c)[0]))
  {
    hide Terminated, Unterminated;
    TrimShape(c);
    hide Trim;
  }

  lemma {:induction false} WellCutConcat(a: seq<string>, b: seq<string>)
    requires |a| <= 1 && WellCut(b) && (a != [] ==> Canonical(a[0]) && (b != [] ==> Terminated(a[0])))
    ensures WellCut(a + b)
  {
    hide Canonical, Terminated;
    assert forall i :: |a| <= i < |a + b| ==> (a + b)[i] == b[i - |a|];
  }

  lemma {:induction false} SplitIsWellCut(s: string)
    ensures WellCut(Split(s))
    decreases |s|
  {
    if s != "" {
      hide ChunkLength, Split, Terminated, Unterminated, Emit, Canonical, WellCut;
      var n := ChunkLength(s);
      FirstChunkShape(s);
      SplitUnfolds(s);
      assert n == |s| ==> s[..n] == s && s[n..] == "";
      SplitIsWellCut(s[n..]);
      EmitShape(s[..n]);
      WellCutConcat(Emit(s[..n]), Split(s[n..]));
    }
  }

  lemma CanonicalTrim(t: string)
    requires t != "" && !IsBlank(t[0]) && !IsBlank(t[|t| - 1])
    ensures Trim(t) == t
  {
  }

  lemma {:induction false} CanonicalLength(t: string)
    requires Canonical(t)
    ensures ChunkLength(t) == |t|
  {
    if Terminated(t) {
      TerminatedPrefix(t, "");
      assert t + "" == t;
    } else {
      UnterminatedLength(t);
    }
  }

  /** Each emitted statement alone splits to itself, the last one even when unterminated. */
  lemma StatementSplitsToItself(s: string, i: nat)
    requires i < |Split(s)|
    ensures Split(Split(s)[i]) == [Split(s)[i]]
  {
    SplitIsWellCut(s);
    var t := Split(s)[i];
    CanonicalSplit(t);
  }

  lemma CanonicalSplit(t: string)
    requires Canonical(t)
    ensures Split(t) == [t]
  {
    hide ChunkLength, Trim, Terminated, Unterminated;
    CanonicalLength(t);
    CanonicalTrim(t);
    assert t[..|t|] == t && t[|t|..] == "";
    assert Chunks(t) == [t];
    assert Statements([t]) == Emit(t);
  }

  lemma {:induction false} TrimForm(s: string)
    requires !AllBlank(s)
    ensures LeadingBlanks(s) + TrailingBlanks(s) <= |s| && Trim(s) == s[LeadingBlanks(s)..|s| - TrailingBlanks(s)]
  {
    var i :| 0 <= i < |s| && !IsBlank(s[i]);
    hide LeadingBlanks, TrailingBlanks, AllBlank;
    assert LeadingBlanks(s) <= i < |s| - TrailingBlanks(s);
  }

  lemma BlankBefore(b: char, c: string)
    requires IsBlank(b)
    ensures AllBlank([b] + c) <==> AllBlank(c)
  {
    var s := [b] + c;
    assert forall i :: 0 <= i < |c| ==> s[i + 1] == c[i];
  }

  lemma {:induction false} TrimSkipsBlank(b: char, c: string)
    requires IsBlank(b)
    ensures Trim([b] + c) == Trim(c)
  {
    hide LeadingBlanks, TrailingBlanks, AllBlank, Trim;
    var s := [b] + c;
    BlankBefore(b, c);
    if !AllBlank(c) {
      TrimForm(s);
      TrimForm(c);
      LeadingOfLonger(b, c);
      TrailingOfLonger(b, c);
      var l, r := LeadingBlanks(c), TrailingBlanks(c);
      assert s[1 + l..|s| - r] == c[l..|c| - r];
    }
  }

  lemma LeadingOfLonger(b: char, c: string)
    requires IsBlank(b)
    ensures LeadingBlanks([b] + c) == 1 + LeadingBlanks(c)
  {
    assert ([b] + c)[1..] == c;
  }

  lemma {:induction false} TrailingOfLonger(b: char, c: string)
    requires !AllBlank(c)
    ensures TrailingBlanks([b] + c) == TrailingBlanks(c)
  {
    var s := [b] + c;
    if IsBlank(c[|c| - 1]) {
      assert s[..|s| - 1] == [b] + c[..|c| - 1];
      TrailingOfLonger(b, c[..|c| - 1]);
    }
  }

  lemma {:induction false} SplitSkipsBlank(b: char, s: string)
    requires IsBlank(b)
    ensures Split([b] + s) == Split(s)
  {
    hide TokenLength, Trim;
    var t := [b] + s;
    BlankToken(t);
    assert t[1..] == s;
    var n := ChunkLength(s);
    assert t[..1 + n] == [b] + s[..n] && t[1 + n..] == s[n..];
    assert Chunks(t) == [[b] + s[..n]] + Chunks(s[n..]);
    TrimSkipsBlank(b, s[..n]);
    assert Statements(Chunks(t)) == Emit([b] + s[..n]) + Statements(Chunks(s[n..]));
    if s == "" {
      assert s[..n] == "";
    } else {
      assert Statements(Chunks(s)) == Emit(s[..n]) + Statements(Chunks(s[n..]));
    }
  }

  lemma {:induction false} SplitAfterTerminated(u: string, v: string)
    requires Terminated(u)
    ensures Split(u + v) == Emit(u) + Split(v)
  {
    hide ChunkLength, Trim;
    var s := u + v;
    TerminatedPrefix(u, v);
    assert s[..|u|] == u && s[|u|..] == v;
    assert Chunks(s) == [u] + Chunks(v);
  }

  function JoinLines(l: seq<string>): (s: string)
  {
    if l == [] then "" else if |l| == 1 then l[0] else l[0] + "\n" + JoinLines(l[1..])
  }

  lemma {:induction false} JoinedSplitsBack(l: seq<string>)
    requires WellCut(l)
    ensures Split(JoinLines(l)) == l
  {
    if l == [] {
    } else if |l| == 1 {
      CanonicalSplit(l[0]);
    } else {
      var u, rest := l[0], JoinLines(l[1..]);
      JoinStep(l);
      hide *;
      SplitAfterTerminated(u, "\n" + rest);
      EmitCanonical(u);
      SplitSkipsNewline(rest);
      JoinedSplitsBack(l[1..]);
      assert [u] + l[1..] == l;
    }
  }

  lemma JoinStep(l: seq<string>)
    requires WellCut(l) && |l| > 1
    ensures Canonical(l[0]) && Terminated(l[0]) && WellCut(l[1..])
    ensures JoinLines(l) == l[0] + ("\n" + JoinLines(l[1..]))
  {
    hide Canonical, Terminated;
  }

  lemma SplitSkipsNewline(s: string)
    ensures Split("\n" + s) == Split(s)
  {
    hide Split;
    SplitSkipsBlank('\n', s);
  }

  lemma EmitCanonical(u: string)
    requires Canonical(u)
    ensures Emit(u) == [u]
  {
    hide Terminated, Unterminated;
    CanonicalTrim(u);
  }

  /** Joining the emitted statements with newlines and splitting again gives the same list. */
  lemma ResplitIsFixedPoint(s: string)
    ensures Split(JoinLines(Split(s))) == Split(s)
  {
    SplitIsWellCut(s);
    JoinedSplitsBack(Split(s));
  }

  // ---------- Nothing but blanks and lone semicolons is dropped ----------

  /** A chunk is its trimmed text between blanks; what is emitted of it is that text, unless that is
      empty or a lone semicolon, and then nothing is. */
  lemma {:induction false} ChunkIsStatement(c: string) returns (pre: string, text: string, post: string)
    ensures c == pre + text + post && AllBlank(pre) && AllBlank(post)
    ensures text != "" ==> !IsBlank(text[0]) && !IsBlank(text[|text| - 1])
    ensures Emit(c) == if text == "" || text == ";" then [] else [text]
  {
    if AllBlank(c) {
      pre, text, post := c, "", "";
      hide LeadingBlanks, TrailingBlanks;
    } else {
      TrimForm(c);
      TailIsBlank(c);
      HeadIsBlank(c);
      var l, r := LeadingBlanks(c), TrailingBlanks(c);
      hide LeadingBlanks, TrailingBlanks, Trim;
      pre, text, post := c[..l], Trim(c), c[|c| - r..];
      assert c == c[..l] + c[l..|c| - r] + c[|c| - r..];
    }
  }

  lemma HeadIsBlank(c: string)
    ensures AllBlank(c[..LeadingBlanks(c)])
  {
    hide LeadingBlanks;
  }
}
