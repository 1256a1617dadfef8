/** What counts as a function body, and that the skeleton does not depend on what is inside one. */
module ApiBodies {
  import opened ApiSkeleton

  // ---------- The backward scan ----------

  /** What the scan steps over: a skipped character, or a scope operator. */
  predicate Step(p: string) { p == "::" || (|p| == 1 && Skipped(p[0])) }

  function Concat(ps: seq<string>): (s: string) { if ps == [] then "" else Concat(ps[..|ps| - 1]) + ps[|ps| - 1] }

  ghost predicate Trivia(s: string) { exists ps: seq<string> :: Concat(ps) == s && forall i :: 0 <= i < |ps| ==> Step(ps[i]) }

  lemma TriviaMore(s: string, p: string)
    requires Trivia(s) && Step(p)
    ensures Trivia(s + p)
  {
    var ps: seq<string> :| Concat(ps) == s && forall i :: 0 <= i < |ps| ==> Step(ps[i]);
    var qs := ps + [p];
    assert qs[..|qs| - 1] == ps;
    assert Concat(qs) == s + p;
  }

  lemma NoTrivia()
    ensures Trivia("")
  {
    var none: seq<string> := [];
    assert Concat(none) == "";
  }

  /** The last step of a trivia, and what is left of it. */
  lemma TriviaLast(s: string)
    requires Trivia(s) && s != ""
    ensures (Skipped(s[|s| - 1]) && s[|s| - 1] != ':' && Trivia(s[..|s| - 1]))
         || (|s| >= 2 && s[|s| - 1] == ':' && s[|s| - 2] == ':' && Trivia(s[..|s| - 2]))
  {
    var ps: seq<string> :| Concat(ps) == s && forall i :: 0 <= i < |ps| ==> Step(ps[i]);
    var init, p := ps[..|ps| - 1], ps[|ps| - 1];
    var u := Concat(init);
    assert Trivia(u) by { assert forall i :: 0 <= i < |init| ==> Step(init[i]); }
    assert s == u + p && Step(p);
    hide Trivia, Concat;
    LastOf(s, u, p);
  }

  lemma LastOf(s: string, u: string, p: string)
    requires s == u + p && Step(p)
    ensures if p == "::" then |s| >= 2 && s[|s| - 1] == ':' && s[|s| - 2] == ':' && s[..|s| - 2] == u
            else Skipped(s[|s| - 1]) && s[|s| - 1] != ':' && s[..|s| - 1] == u
  {
  }

  /** A brace opens a function body exactly when, up to it, only skipped characters and scope
      operators follow some ')'. */
  lemma {:induction false} ReachesParenIff(text: string, i: int)
    requires -1 <= i < |text|
    ensures ReachesParen(text, i) <==> exists j :: 0 <= j <= i && text[j] == ')' && Trivia(text[j + 1..i + 1])
    decreases i + 1
  {
    if ReachesParen(text, i) {
      var j := ParenFrom(text, i);
    }
    if j :| 0 <= j <= i && text[j] == ')' && Trivia(text[j + 1..i + 1]) {
      ParenReached(text, i, j);
    }
  }

  lemma StepAt(text: string, j: nat, i: nat)
    requires j <= i < |text|
    ensures Trivia(text[j..i]) && Skipped(text[i]) ==> Trivia(text[j..i + 1])
    ensures Trivia(text[j..i]) && i + 1 < |text| && text[i] == ':' && text[i + 1] == ':' ==> Trivia(text[j..i + 2])
  {
    hide Trivia, Skipped;
    if !Trivia(text[j..i]) { return; }
    if Skipped(text[i]) {
      assert Step([text[i]]) by { OneStep(text[i]); }
      TriviaMore(text[j..i], [text[i]]);
      assert text[j..i + 1] == text[j..i] + [text[i]];
    }
    if i + 1 < |text| && text[i] == ':' && text[i + 1] == ':' {
      TriviaMore(text[j..i], "::");
      assert text[j..i + 2] == text[j..i] + "::";
    }
  }

  lemma OneStep(c: char)
    ensures Skipped(c) ==> Step([c])
  {
  }

  lemma NothingIsTrivia(text: string, j: nat)
    requires j <= |text|
    ensures Trivia(text[j..j])
  {
    NoTrivia();
    assert text[j..j] == "";
  }

  lemma {:induction false} ParenFrom(text: string, i: int) returns (j: int)
    requires -1 <= i < |text| && ReachesParen(text, i)
    ensures 0 <= j <= i && text[j] == ')' && Trivia(text[j + 1..i + 1])
    decreases i + 1
  {
    hide Trivia, Skipped;
    if text[i] == ':' {
      j := ParenFrom(text, i - 2);
      StepAt(text, j + 1, i - 1);
    } else if Skipped(text[i]) {
      j := ParenFrom(text, i - 1);
      StepAt(text, j + 1, i);
    } else {
      j := i;
      NothingIsTrivia(text, i + 1);
    }
  }

  /** The last step, in place. */
  lemma LastStep(text: string, j: nat, i: nat)
    requires j <= i < |text|
    ensures Trivia(text[j..i + 1]) ==>
      (Skipped(text[i]) && text[i] != ':' && Trivia(text[j..i]))
      || (j < i && text[i] == ':' && text[i - 1] == ':' && Trivia(text[j..i - 1]))
  {
    hide Trivia, Skipped;
    if !Trivia(text[j..i + 1]) { return; }
    var t := text[j..i + 1];
    assert t[|t| - 1] == text[i];
    TriviaLast(t);
    assert t[..|t| - 1] == text[j..i];
    assert j < i ==> t[|t| - 2] == text[i - 1] && t[..|t| - 2] == text[j..i - 1];
  }

  lemma ParenItself()
    ensures !Skipped(')')
  {
  }

  lemma {:induction false} ParenReached(text: string, i: int, j: int)
    requires 0 <= j <= i < |text| && text[j] == ')' && Trivia(text[j + 1..i + 1])
    ensures ReachesParen(text, i)
    decreases i - j
  {
    hide Trivia, Skipped;
    ParenItself();
    if i > j {
      LastStep(text, j + 1, i);
      if text[i] == ':' {
        ParenReached(text, i - 2, j);
      } else {
        ParenReached(text, i - 1, j);
      }
    }
  }

  // ---------- A body that closes ----------

  /** The literal whose inside starts at `i` is closed in `s`. */
  predicate LiteralCloses(s: string, i: nat, quote: char)
    requires i <= |s|
    decreases |s| - i
  {
    i < |s| &&
    if s[i] == '\\' && i + 1 < |s| then LiteralCloses(s, i + 2, quote)
    else s[i] == quote || LiteralCloses(s, i + 1, quote)
  }

  /** Braces balance from `depth` down to one without ever closing the block, literals closed. */
  predicate Balanced(body: string, i: nat, depth: nat)
    requires i <= |body|
    decreases |body| - i
  {
    if i == |body| then depth == 1
    else if IsQuote(body[i]) then
      LiteralCloses(body, i + 1, body[i]) && Balanced(body, LiteralEnd(body, i + 1, body[i]), depth)
    else
      var d := if body[i] == '{' then depth + 1 else if body[i] == '}' then depth - 1 else depth;
      d >= 1 && Balanced(body, i + 1, d)
  }

  lemma {:induction false} LiteralLocal(u: string, body: string, v: string, i: nat, quote: char)
    requires i <= |body| && IsQuote(quote) && LiteralCloses(body, i, quote)
    ensures LiteralEnd(u + body + v, |u| + i, quote) == |u| + LiteralEnd(body, i, quote)
    decreases |body| - i
  {
    var t := u + body + v;
    assert t[|u| + i] == body[i];
    if body[i] == '\\' && i + 1 < |body| {
      LiteralLocal(u, body, v, i + 2, quote);
    } else if body[i] != quote {
      LiteralLocal(u, body, v, i + 1, quote);
    }
  }

  lemma {:induction false} BlockCloses(u: string, body: string, v: string, i: nat, depth: nat)
    requires i <= |body| && depth >= 1 && Balanced(body, i, depth)
    ensures BlockEnd(u + body + ("}" + v), |u| + i, depth) == |u| + |body| + 1
    decreases |body| - i
  {
    var t := u + body + ("}" + v);
    if i == |body| {
      assert t[|u| + i] == '}';
    } else {
      assert t[|u| + i] == body[i];
      if IsQuote(body[i]) {
        LiteralLocal(u, body, "}" + v, i + 1, body[i]);
        BlockCloses(u, body, v, LiteralEnd(body, i + 1, body[i]), depth);
      } else {
        BlockCloses(u, body, v, i + 1, if body[i] == '{' then depth + 1 else if body[i] == '}' then depth - 1 else depth);
      }
    }
  }

  // ---------- After the body ----------

  /** From these positions on the texts are the same, and each position follows a '}'. */
  ghost predicate SameAfter(t1: string, i1: nat, t2: string, i2: nat)
  {
    0 < i1 <= |t1| && 0 < i2 <= |t2| && t1[i1..] == t2[i2..] && t1[i1 - 1] == t2[i2 - 1] == '}'
  }

  lemma SameAt(t1: string, i1: nat, t2: string, i2: nat, k: nat)
    requires SameAfter(t1, i1, t2, i2) && i1 + k < |t1|
    ensures |t1| - i1 == |t2| - i2 && t1[i1 + k] == t2[i2 + k]
  {
    assert |t1[i1..]| == |t2[i2..]|;
    assert t1[i1..][k] == t2[i2..][k];
  }

  lemma {:induction false} SameParen(t1: string, i1: nat, t2: string, i2: nat, k: nat)
    requires SameAfter(t1, i1, t2, i2) && i1 + k <= |t1|
    ensures |t1| - i1 == |t2| - i2 && ReachesParen(t1, i1 + k - 1) == ReachesParen(t2, i2 + k - 1)
    decreases k
  {
    assert |t1[i1..]| == |t2[i2..]|;
    if k > 0 {
      SameAt(t1, i1, t2, i2, k - 1);
      SameParen(t1, i1, t2, i2, k - 1);
      if k > 1 {
        SameAt(t1, i1, t2, i2, k - 2);
        SameParen(t1, i1, t2, i2, k - 2);
      }
    }
  }

  lemma {:induction false} SameLiteral(t1: string, i1: nat, t2: string, i2: nat, k: nat, quote: char)
    requires SameAfter(t1, i1, t2, i2) && i1 + k <= |t1|
    ensures |t1| - i1 == |t2| - i2 && LiteralEnd(t1, i1 + k, quote) - i1 == LiteralEnd(t2, i2 + k, quote) - i2
    decreases |t1| - k
  {
    assert |t1[i1..]| == |t2[i2..]|;
    if i1 + k < |t1| {
      SameAt(t1, i1, t2, i2, k);
      SameLiteral(t1, i1, t2, i2, k + 1, quote);
      if i1 + k + 1 < |t1| { SameLiteral(t1, i1, t2, i2, k + 2, quote); }
    }
  }

  /** One turn of the scan for a block's end. */
  lemma {:induction false} BlockStep(text: string, i: nat, depth: nat)
    requires i < |text| && depth > 0
    ensures var c := text[i];
      BlockEnd(text, i, depth) ==
        if IsQuote(c) then BlockEnd(text, LiteralEnd(text, i + 1, c), depth)
        else BlockEnd(text, i + 1, if c == '{' then depth + 1 else if c == '}' then depth - 1 else depth)
  {
    hide LiteralEnd;
  }

  lemma NoBlock(text: string, i: nat, depth: nat)
    requires i <= |text| && (i == |text| || depth == 0)
    ensures BlockEnd(text, i, depth) == i
  {
  }

  lemma {:induction false} SameBlock(t1: string, i1: nat, t2: string, i2: nat, k: nat, depth: nat)
    requires SameAfter(t1, i1, t2, i2) && i1 + k <= |t1|
    ensures |t1| - i1 == |t2| - i2 && BlockEnd(t1, i1 + k, depth) - i1 == BlockEnd(t2, i2 + k, depth) - i2
    decreases |t1| - k
  {
    hide SameAfter, LiteralEnd, BlockEnd;
    SameLength(t1, i1, t2, i2);
    if i1 + k < |t1| && depth > 0 {
      var c := t1[i1 + k];
      SameAt(t1, i1, t2, i2, k);
      BlockStep(t1, i1 + k, depth);
      BlockStep(t2, i2 + k, depth);
      if IsQuote(c) {
        SameLiteral(t1, i1, t2, i2, k + 1, c);
        SameBlock(t1, i1, t2, i2, LiteralEnd(t1, i1 + k + 1, c) - i1, depth);
      } else {
        SameBlock(t1, i1, t2, i2, k + 1, if c == '{' then depth + 1 else if c == '}' then depth - 1 else depth);
      }
    } else {
      NoBlock(t1, i1 + k, depth);
      NoBlock(t2, i2 + k, depth);
    }
  }

  lemma SameLength(t1: string, i1: nat, t2: string, i2: nat)
    requires SameAfter(t1, i1, t2, i2)
    ensures i1 <= |t1| && i2 <= |t2| && |t1| - i1 == |t2| - i2
  {
    assert |t1[i1..]| == |t2[i2..]|;
  }

  lemma SliceOf(t: string, i: nat, k: nat, m: nat)
    requires k <= m && i + m <= |t|
    ensures t[i + k..i + m] == t[i..][k..m]
  {
    var a, b := t[i + k..i + m], t[i..][k..m];
    assert |a| == |b| && forall n :: 0 <= n < |a| ==> a[n] == t[i + k + n] == b[n];
  }

  lemma SamePiece(t1: string, i1: nat, t2: string, i2: nat, k: nat, m: nat)
    requires SameAfter(t1, i1, t2, i2) && k <= m && i1 + m <= |t1|
    ensures |t1| - i1 == |t2| - i2 && t1[i1 + k..i1 + m] == t2[i2 + k..i2 + m]
  {
    assert |t1[i1..]| == |t2[i2..]|;
    SliceOf(t1, i1, k, m);
    SliceOf(t2, i2, k, m);
  }

  /** One turn of strip_bodies. */
  lemma {:induction false} BodiesStep(text: string, i: nat)
    requires i < |text|
    ensures var c := text[i];
      StripBodies(text, i) ==
        if IsQuote(c) then text[i..LiteralEnd(text, i + 1, c)] + StripBodies(text, LiteralEnd(text, i + 1, c))
        else if c == '{' && ReachesParen(text, i - 1) then ";" + StripBodies(text, BlockEnd(text, i + 1, 1))
        else [c] + StripBodies(text, i + 1)
  {
    hide LiteralEnd, BlockEnd, ReachesParen;
  }

  lemma NoBodies(text: string)
    ensures StripBodies(text, |text|) == ""
  {
  }

  /** Where the scan goes from `i`. */
  function Onward(text: string, i: nat): (j: nat)
    requires i < |text|
    ensures i < j <= |text|
  {
    var c := text[i];
    if IsQuote(c) then LiteralEnd(text, i + 1, c)
    else if c == '{' && ReachesParen(text, i - 1) then BlockEnd(text, i + 1, 1)
    else i + 1
  }

  /** What it writes on the way. */
  function Written(text: string, i: nat): (s: string)
    requires i < |text|
  {
    if !IsQuote(text[i]) && text[i] == '{' && ReachesParen(text, i - 1) then ";" else text[i..Onward(text, i)]
  }

  lemma {:induction false} OnwardStep(text: string, i: nat)
    requires i < |text|
    ensures StripBodies(text, i) == Written(text, i) + StripBodies(text, Onward(text, i))
  {
    hide StripBodies, LiteralEnd, BlockEnd, ReachesParen;
    BodiesStep(text, i);
    assert text[i..i + 1] == [text[i]];
  }

  lemma {:induction false} SameOnward(t1: string, i1: nat, t2: string, i2: nat, k: nat)
    requires SameAfter(t1, i1, t2, i2) && i1 + k < |t1|
    ensures |t1| - i1 == |t2| - i2 && Onward(t1, i1 + k) - i1 == Onward(t2, i2 + k) - i2 && Written(t1, i1 + k) == Written(t2, i2 + k)
  {
    hide SameAfter, LiteralEnd, BlockEnd, ReachesParen;
    SameLength(t1, i1, t2, i2);
    SameAt(t1, i1, t2, i2, k);
    SameParen(t1, i1, t2, i2, k);
    SameLiteral(t1, i1, t2, i2, k + 1, t1[i1 + k]);
    SameBlock(t1, i1, t2, i2, k + 1, 1);
    SamePiece(t1, i1, t2, i2, k, Onward(t1, i1 + k) - i1);
  }

  lemma {:induction false} SameBodies(t1: string, i1: nat, t2: string, i2: nat, k: nat)
    requires SameAfter(t1, i1, t2, i2) && i1 + k <= |t1|
    ensures |t1| - i1 == |t2| - i2 && StripBodies(t1, i1 + k) == StripBodies(t2, i2 + k)
    decreases |t1| - k
  {
    hide *;
    SameLength(t1, i1, t2, i2);
    if i1 + k < |t1| {
      SameOnward(t1, i1, t2, i2, k);
      OnwardStep(t1, i1 + k);
      OnwardStep(t2, i2 + k);
      SameBodies(t1, i1, t2, i2, Onward(t1, i1 + k) - i1);
    } else {
      NoBodies(t1);
      NoBodies(t2);
    }
  }

  // ---------- Up to the body ----------

  /** The scan that starts at `i` comes to stand on `p`: `p` is neither inside a literal nor inside
      an earlier body. */
  predicate Reaches(text: string, i: nat, p: nat)
    requires i <= |text|
    decreases |text| - i
  {
    i == p || (i < p && i < |text| &&
      if IsQuote(text[i]) then Reaches(text, LiteralEnd(text, i + 1, text[i]), p)
      else if text[i] == '{' && ReachesParen(text, i - 1) then Reaches(text, BlockEnd(text, i + 1, 1), p)
      else Reaches(text, i + 1, p))
  }

  lemma {:induction false} ReachesUpTo(text: string, i: nat, p: nat)
    requires i <= |text| && Reaches(text, i, p)
    ensures i <= p <= |text|
    decreases |text| - i
  {
    if i < p {
      if IsQuote(text[i]) {
        ReachesUpTo(text, LiteralEnd(text, i + 1, text[i]), p);
      } else if text[i] == '{' && ReachesParen(text, i - 1) {
        ReachesUpTo(text, BlockEnd(text, i + 1, 1), p);
      } else {
        ReachesUpTo(text, i + 1, p);
      }
    }
  }

  lemma {:induction false} PrefixLiteral(t1: string, t2: string, i: nat, p: nat, quote: char)
    requires i <= p < |t1| && p < |t2| && t1[..p] == t2[..p] && LiteralEnd(t1, i, quote) <= p
    ensures LiteralEnd(t2, i, quote) == LiteralEnd(t1, i, quote)
    decreases p - i
  {
    if i < p {
      assert t1[i] == t1[..p][i] == t2[..p][i] == t2[i];
      if t1[i] == '\\' {
        if i + 2 <= p { PrefixLiteral(t1, t2, i + 2, p, quote); }
      } else if t1[i] != quote {
        PrefixLiteral(t1, t2, i + 1, p, quote);
      }
    }
  }

  lemma {:induction false} PrefixBlock(t1: string, t2: string, i: nat, p: nat, depth: nat)
    requires i <= p < |t1| && p < |t2| && t1[..p] == t2[..p] && depth > 0 && BlockEnd(t1, i, depth) <= p
    ensures BlockEnd(t2, i, depth) == BlockEnd(t1, i, depth)
    decreases p - i
  {
    if i < p {
      var c := t1[i];
      assert t1[i] == t1[..p][i] == t2[..p][i] == t2[i];
      if IsQuote(c) {
        var m := LiteralEnd(t1, i + 1, c);
        PrefixLiteral(t1, t2, i + 1, p, c);
        PrefixBlock(t1, t2, m, p, depth);
      } else {
        var d := if c == '{' then depth + 1 else if c == '}' then depth - 1 else depth;
        if d > 0 { PrefixBlock(t1, t2, i + 1, p, d); }
      }
    }
  }

  lemma {:induction false} PrefixParen(t1: string, t2: string, i: int, p: nat)
    requires -1 <= i < p <= |t1| && p <= |t2| && t1[..p] == t2[..p]
    ensures ReachesParen(t1, i) == ReachesParen(t2, i)
    decreases i + 1
  {
    if i >= 0 {
      assert t1[i] == t1[..p][i] == t2[..p][i] == t2[i];
      if i > 0 {
        assert t1[i - 1] == t1[..p][i - 1] == t2[..p][i - 1] == t2[i - 1];
        PrefixParen(t1, t2, i - 2, p);
      }
      PrefixParen(t1, t2, i - 1, p);
    }
  }

  lemma SamePrefixAt(t1: string, t2: string, i: nat, p: nat)
    requires i < p <= |t1| && p <= |t2| && t1[..p] == t2[..p]
    ensures t1[i] == t2[i]
  {
    assert t1[i] == t1[..p][i] == t2[..p][i];
  }

  lemma SamePrefixSlice(t1: string, t2: string, i: nat, m: nat, p: nat)
    requires i <= m <= p <= |t1| && p <= |t2| && t1[..p] == t2[..p]
    ensures t1[i..m] == t2[i..m]
  {
    assert t1[i..m] == t1[..p][i..m] && t2[i..m] == t2[..p][i..m];
  }

  /** Two texts with the same beginning, reached up to `p` in one of them: what follows decides. */
  lemma {:induction false} PrefixBodies(t1: string, t2: string, i: nat, p: nat)
    requires i <= p < |t1| && p < |t2| && t1[..p] == t2[..p] && Reaches(t1, i, p)
    requires StripBodies(t1, p) == StripBodies(t2, p)
    ensures StripBodies(t1, i) == StripBodies(t2, i)
    decreases p - i
  {
    if i < p {
      var c := t1[i];
      SamePrefixAt(t1, t2, i, p);
      PrefixParen(t1, t2, i - 1, p);
      BodiesStep(t1, i);
      BodiesStep(t2, i);
      if IsQuote(c) {
        var m := LiteralEnd(t1, i + 1, c);
        ReachesUpTo(t1, m, p);
        PrefixLiteral(t1, t2, i + 1, p, c);
        SamePrefixSlice(t1, t2, i, m, p);
        hide StripBodies, LiteralEnd, BlockEnd, ReachesParen;
        PrefixBodies(t1, t2, m, p);
      } else if c == '{' && ReachesParen(t1, i - 1) {
        var m := BlockEnd(t1, i + 1, 1);
        ReachesUpTo(t1, m, p);
        PrefixBlock(t1, t2, i + 1, p, 1);
        hide StripBodies, LiteralEnd, BlockEnd, ReachesParen;
        PrefixBodies(t1, t2, m, p);
      } else {
        hide StripBodies, LiteralEnd, BlockEnd, ReachesParen;
        PrefixBodies(t1, t2, i + 1, p);
      }
    }
  }

  /** Text with a function body in it. */
  function WithBody(pre: string, body: string, post: string): (t: string) { pre + ("{" + (body + ("}" + post))) }

  lemma {:induction false} WithBodyShape(pre: string, body: string, post: string)
    ensures var t, q := WithBody(pre, body, post), |pre| + 2 + |body|;
      && |t| == |pre| + |body| + 2 + |post| && t[..|pre|] == pre && t[|pre|] == '{'
      && t == (pre + "{") + body + ("}" + post) && t[q..] == post && t[q - 1] == '}'
  {
    var t := WithBody(pre, body, post);
    assert t == (pre + "{") + body + ("}" + post);
  }

  /** At the body: it is replaced by one semicolon. */
  lemma {:induction false} BodyGone(pre: string, body: string, post: string)
    requires Balanced(body, 0, 1) && ReachesParen(pre, |pre| - 1)
    ensures var t := WithBody(pre, body, post);
      StripBodies(t, |pre|) == ";" + StripBodies(t, |pre| + 2 + |body|)
  {
    hide StripBodies, BlockEnd, ReachesParen, Balanced, LiteralEnd, WithBody;
    var t := WithBody(pre, body, post);
    WithBodyShape(pre, body, post);
    BlockCloses(pre + "{", body, post, 0, 1);
    assert pre[..|pre|] == pre;
    PrefixParen(pre, t, |pre| - 1, |pre|);
    BodiesStep(t, |pre|);
  }

  /** Implementation edits do not show: a function body that the scan reaches, balanced with its
      literals closed, can be replaced by any other such body without changing the stripped text. */
  lemma {:induction false} BodyEditsAreInvisible(pre: string, body1: string, body2: string, post: string)
    requires Balanced(body1, 0, 1) && Balanced(body2, 0, 1)
    requires ReachesParen(pre, |pre| - 1) && Reaches(WithBody(pre, body1, post), 0, |pre|)
    ensures StripBodies(WithBody(pre, body1, post), 0) == StripBodies(WithBody(pre, body2, post), 0)
  {
    hide WithBody, StripBodies, Balanced, ReachesParen, Reaches;
    var t1, t2, p := WithBody(pre, body1, post), WithBody(pre, body2, post), |pre|;
    var i1, i2 := p + 2 + |body1|, p + 2 + |body2|;
    WithBodyShape(pre, body1, post);
    WithBodyShape(pre, body2, post);
    BodyGone(pre, body1, post);
    BodyGone(pre, body2, post);
    assert SameAfter(t1, i1, t2, i2);
    SameBodies(t1, i1, t2, i2, 0);
    PrefixBodies(t1, t2, 0, p);
  }
}
