/** The lexical structure of a migration script, stated twice.

    `IsToken` says declaratively which prefix of a text is its first token; `TokenLength`
    computes that prefix the way the scanner of SchemaManager does.  `TokenLengthIsToken` and
    `TokenIsUnique` tie the two together, so every statement about the scanner is a statement
    about the declarative lexicon. */
module SqlLexicon {

  predicate IsDigit(c: char) { '0' <= c <= '9' }

  predicate IsIdentStart(c: char) { 'a' <= c <= 'z' || 'A' <= c <= 'Z' || c == '_' }

  predicate IsWord(c: char) { IsIdentStart(c) || IsDigit(c) }

  predicate IsBlank(c: char) { c == ' ' || c == '\t' || c == '\r' || c == '\n' }

  predicate AllBlank(s: string) { forall i :: 0 <= i < |s| ==> IsBlank(s[i]) }

  // ---------- Searching ----------

  predicate Occurs(p: string, s: string, i: nat)
    requires i <= |s|
  {
    p <= s[i..]
  }

  ghost predicate Absent(p: string, s: string, lo: nat, hi: nat)
  {
    forall i :: lo <= i < hi && i <= |s| ==> !Occurs(p, s, i)
  }

  /** The first position at which `p` occurs in `s`, or `|s|` when it does not occur. */
  function Find(s: string, p: string): (k: nat)
    requires p != ""
    ensures k <= |s|
    ensures k < |s| ==> k + |p| <= |s|
  {
    if s == "" then 0
    else if p <= s then 0
    else 1 + Find(s[1..], p)
  }

  lemma {:induction false} FindIsFirst(s: string, p: string)
    requires p != ""
    ensures Find(s, p) < |s| ==> Occurs(p, s, Find(s, p))
    ensures forall i :: 0 <= i < Find(s, p) ==> !Occurs(p, s, i)
  {
    if s != "" && !(p <= s) {
      FindIsFirst(s[1..], p);
      forall i | 1 <= i <= |s|
        ensures Occurs(p, s, i) == Occurs(p, s[1..], i - 1)
      {
        assert s[1..][i - 1..] == s[i..];
      }
    }
  }

  // ---------- Token shapes ----------

  predicate LineCommentStart(s: string) { |s| >= 2 && s[0] == '-' && s[1] == '-' }

  predicate BlockCommentStart(s: string) { |s| >= 2 && s[0] == '/' && s[1] == '*' }

  predicate QuoteStart(s: string) { |s| >= 1 && s[0] == '\'' }

  /** A dollar-quote tag: empty, or an identifier. */
  predicate IsTag(t: string)
  {
    t == "" || (IsIdentStart(t[0]) && forall i :: 0 <= i < |t| ==> IsWord(t[i]))
  }

  predicate IsOpener(s: string, d: nat)
  {
    2 <= d <= |s| && s[0] == '$' && s[d - 1] == '$' && IsTag(s[1..d - 1])
  }

  /** Text in which every single quote is doubled. */
  predicate Doubled(b: string)
  {
    b == "" ||
    (if b[0] == '\'' then |b| >= 2 && b[1] == '\'' && Doubled(b[2..]) else Doubled(b[1..]))
  }

  /** A delimited body starting at `from`: it ends at the first `close`, or runs to the end. */
  ghost predicate Delimited(s: string, from: nat, close: string, k: nat)
  {
    || (from + |close| <= k <= |s| && s[k - |close|..k] == close && Absent(close, s, from, k - |close|))
    || (k == |s| && from <= |s| && Absent(close, s, from, |s|))
  }

  /** `s[..k]` is the first token of the non-empty text `s`. */
  ghost predicate IsToken(s: string, k: nat)
  {
    1 <= k <= |s| &&
    if LineCommentStart(s) then
      2 <= k && (forall i :: 2 <= i < k ==> s[i] != '\n') && (k < |s| ==> s[k] == '\n')
    else if BlockCommentStart(s) then
      Delimited(s, 2, "*/", k)
    else if QuoteStart(s) then
      || (2 <= k && s[k - 1] == '\'' && Doubled(s[1..k - 1]) && (k < |s| ==> s[k] != '\''))
      || (k == |s| && Doubled(s[1..]))
    else if exists d: nat :: IsOpener(s, d) then
      exists d: nat :: IsOpener(s, d) && Delimited(s, d, s[..d], k)
    else
      k == 1
  }

  // ---------- The scanner's own computation ----------

  /** Length of the run of tag characters at the head of `s`; a digit may not come first. */
  function TagLength(s: string, digitAllowed: bool): (n: nat)
    ensures n <= |s|
    ensures forall i :: 0 <= i < n ==> IsWord(s[i])
    ensures n > 0 && !digitAllowed ==> IsIdentStart(s[0])
    ensures n < |s| ==> !IsIdentStart(s[n]) && ((n > 0 || digitAllowed) ==> !IsWord(s[n]))
  {
    if s == "" || !(IsIdentStart(s[0]) || (digitAllowed && IsDigit(s[0]))) then 0
    else 1 + TagLength(s[1..], true)
  }

  /** Length of the delimiter `$tag$` at the head of `s`, or 0 when there is none. */
  function OpenerLength(s: string): (d: nat)
    ensures d > 0 ==> IsOpener(s, d)
  {
    if s == "" || s[0] != '$' then 0
    else
      var n := TagLength(s[1..], false);
      if 1 + n < |s| && s[1 + n] == '$' then 2 + n else 0
  }

  lemma OpenerIsUnique(s: string, d: nat)
    requires IsOpener(s, d)
    ensures OpenerLength(s) == d
  {
    var n := TagLength(s[1..], false);
    var t := s[1..d - 1];
    assert forall i :: 0 <= i < |t| ==> s[1..][i] == t[i];
    assert s[1..][d - 2] == s[d - 1] == '$';
    assert 1 + n == d - 1;
  }

  /** Characters consumed after an opening quote, closing quote included when there is one. */
  function QuotedLength(s: string): (n: nat)
    ensures n <= |s|
  {
    if s == "" then 0
    else if s[0] != '\'' then 1 + QuotedLength(s[1..])
    else if |s| >= 2 && s[1] == '\'' then 2 + QuotedLength(s[2..])
    else 1
  }

  function ClosedLength(s: string, from: nat, close: string): (k: nat)
    requires from <= |s| && close != ""
    ensures k <= |s| && from <= k
  {
    var k := Find(s[from..], close);
    if from + k == |s| then |s| else from + k + |close|
  }

  function TokenLength(s: string): (k: nat)
    requires s != ""
    ensures 1 <= k <= |s|
  {
    if LineCommentStart(s) then 2 + Find(s[2..], "\n")
    else if BlockCommentStart(s) then ClosedLength(s, 2, "*/")
    else if QuoteStart(s) then 1 + QuotedLength(s[1..])
    else if OpenerLength(s) > 0 then ClosedLength(s, OpenerLength(s), s[..OpenerLength(s)])
    else 1
  }

  // ---------- The computation meets the lexicon ----------

  lemma OccursShift(p: string, s: string, from: nat, i: nat)
    requires from + i <= |s|
    ensures Occurs(p, s, from + i) == Occurs(p, s[from..], i)
  {
    assert s[from..][i..] == s[from + i..];
  }

  lemma ClosedLengthDelimits(s: string, from: nat, close: string)
    requires from <= |s| && close != ""
    ensures Delimited(s, from, close, ClosedLength(s, from, close))
  {
    var k := Find(s[from..], close);
    FindIsFirst(s[from..], close);
    forall i | from <= i < from + k
      ensures !Occurs(close, s, i)
    {
      OccursShift(close, s, from, i - from);
    }
    if k < |s[from..]| {
      OccursShift(close, s, from, k);
      assert s[from + k..][..|close|] == close;
    } else {
      OccursShift(close, s, from, k);
      assert Absent(close, s, from, |s|);
    }
  }

  lemma DelimitedIsUnique(s: string, from: nat, close: string, k: nat)
    requires from <= |s| && close != "" && Delimited(s, from, close, k)
    ensures k == ClosedLength(s, from, close)
  {
    ClosedLengthDelimits(s, from, close);
    var c := ClosedLength(s, from, close);
    if c < k {
      OccursAtEnd(s, close, c);
    } else if k < c {
      OccursAtEnd(s, close, k);
    }
  }

  lemma OccursAtEnd(s: string, close: string, k: nat)
    requires |close| <= k <= |s|
    ensures s[k - |close|..k] == close <==> Occurs(close, s, k - |close|)
  {
    assert s[k - |close|..][..|close|] == s[k - |close|..k];
  }

  lemma {:induction false} QuotedLengthShape(s: string)
    ensures var n := QuotedLength(s);
      || (1 <= n && s[n - 1] == '\'' && Doubled(s[..n - 1]) && (n < |s| ==> s[n] != '\''))
      || (n == |s| && Doubled(s))
  {
    if s == "" {
    } else if s[0] != '\'' {
      var n := QuotedLength(s[1..]);
      QuotedLengthShape(s[1..]);
      if 1 <= n { assert s[..n][1..] == s[1..][..n - 1]; }
    } else if |s| >= 2 && s[1] == '\'' {
      var n := QuotedLength(s[2..]);
      QuotedLengthShape(s[2..]);
      if 1 <= n { assert s[..n + 1][2..] == s[2..][..n - 1]; }
    }
  }

  lemma {:induction false} QuotedLengthIsUnique(s: string, n: nat)
    requires n <= |s|
    requires
      || (1 <= n && s[n - 1] == '\'' && Doubled(s[..n - 1]) && (n < |s| ==> s[n] != '\''))
      || (n == |s| && Doubled(s))
    ensures QuotedLength(s) == n
  {
    if s == "" {
    } else if s[0] != '\'' {
      if 2 <= n { assert s[..n - 1][1..] == s[1..][..n - 2]; }
      QuotedLengthIsUnique(s[1..], n - 1);
    } else if |s| >= 2 && s[1] == '\'' {
      if 3 <= n { assert s[..n - 1][2..] == s[2..][..n - 3]; }
      QuotedLengthIsUnique(s[2..], n - 2);
    }
  }

  lemma TokenLengthIsToken(s: string)
    requires s != ""
    ensures IsToken(s, TokenLength(s))
  {
    if LineCommentStart(s) {
      var k := Find(s[2..], "\n");
      FindIsFirst(s[2..], "\n");
      forall i | 2 <= i < 2 + k ensures s[i] != '\n' {
        assert !Occurs("\n", s[2..], i - 2);
        assert s[2..][i - 2..][0] == s[i];
      }
    } else if BlockCommentStart(s) {
      ClosedLengthDelimits(s, 2, "*/");
    } else if QuoteStart(s) {
      QuotedLengthShape(s[1..]);
      var n := QuotedLength(s[1..]);
      if 1 <= n { assert s[1..][..n - 1] == s[1..n]; }
    } else {
      var d := OpenerLength(s);
      if d > 0 {
        ClosedLengthDelimits(s, d, s[..d]);
      } else {
        forall e | IsOpener(s, e) ensures false { OpenerIsUnique(s, e); }
      }
    }
  }

  lemma {:induction false} NewlineIsUnique(s: string, n: nat)
    requires n <= |s| && (forall i :: 0 <= i < n ==> s[i] != '\n') && (n < |s| ==> s[n] == '\n')
    ensures Find(s, "\n") == n
  {
    if n > 0 {
      assert s[0] != '\n';
      NewlineIsUnique(s[1..], n - 1);
    } else if s != "" {
      assert "\n" <= s;
    }
  }

  lemma TokenIsUnique(s: string, k: nat)
    requires s != "" && IsToken(s, k)
    ensures k == TokenLength(s)
  {
    if LineCommentStart(s) {
      NewlineIsUnique(s[2..], k - 2);
    } else if BlockCommentStart(s) {
      DelimitedIsUnique(s, 2, "*/", k);
    } else if QuoteStart(s) {
      if 2 <= k { assert s[1..][..k - 2] == s[1..k - 1]; }
      QuotedLengthIsUnique(s[1..], k - 1);
    } else if exists d: nat :: IsOpener(s, d) {
      var d: nat :| IsOpener(s, d) && Delimited(s, d, s[..d], k);
      OpenerIsUnique(s, d);
      DelimitedIsUnique(s, d, s[..d], k);
    }
  }
}
