/** What the skeleton keeps: text outside bodies, lines, and the words of a line. So a declaration
    that stands on a line of its own is a line of the skeleton. */
module ApiDeclarations {
  import opened ApiSkeleton
  import opened ApiBodies
  import opened ApiLexemes

  // ---------- Outside bodies ----------

  /** No function body opens between `i` and `p`. */
  ghost predicate Bodiless(text: string, i: nat, p: nat)
    requires i <= p <= |text|
  {
    forall q :: i <= q < p && text[q] == '{' ==> !(Reaches(text, i, q) && ReachesParen(text, q - 1))
  }

  /** Where the scan goes from `i`, outside bodies. */
  function NextStop(text: string, i: nat): (j: nat)
    requires i < |text|
    ensures i < j <= |text|
  {
    if IsQuote(text[i]) then LiteralEnd(text, i + 1, text[i]) else i + 1
  }

  lemma {:induction false} BodilessNext(text: string, i: nat, p: nat)
    requires i < p <= |text| && Bodiless(text, i, p) && Reaches(text, i, p)
    ensures !(text[i] == '{' && ReachesParen(text, i - 1))
    ensures var j := NextStop(text, i); j <= p && Reaches(text, j, p) && Bodiless(text, j, p)
  {
    assert Reaches(text, i, i);
    var j := NextStop(text, i);
    assert Reaches(text, j, p);
    ReachesUpTo(text, j, p);
    forall q | j <= q < p && text[q] == '{' && Reaches(text, j, q)
      ensures !ReachesParen(text, q - 1)
    {
      assert Reaches(text, i, q);
    }
  }

  lemma JoinSlices(t: string, i: nat, j: nat, p: nat)
    requires i <= j <= p <= |t|
    ensures t[i..j] + t[j..p] == t[i..p]
  {
  }

  lemma {:induction false} StopIsKept(text: string, i: nat)
    requires i < |text| && !(text[i] == '{' && ReachesParen(text, i - 1))
    ensures var j := NextStop(text, i); StripBodies(text, i) == text[i..j] + StripBodies(text, j)
  {
    hide StripBodies, LiteralEnd, BlockEnd, ReachesParen;
    BodiesStep(text, i);
    assert text[i..i + 1] == [text[i]];
  }

  /** Outside function bodies every character is kept. */
  lemma {:induction false} BodilessIsKept(text: string, i: nat, p: nat)
    requires i <= p <= |text| && Reaches(text, i, p) && Bodiless(text, i, p)
    ensures StripBodies(text, i) == text[i..p] + StripBodies(text, p)
    decreases p - i
  {
    hide *;
    if i < p {
      BodilessNext(text, i, p);
      var j := NextStop(text, i);
      StopIsKept(text, i);
      BodilessIsKept(text, j, p);
      JoinSlices(text, i, j, p);
      Regroup(text[i..j], text[j..p], StripBodies(text, p));
    } else {
      assert text[i..p] == "";
    }
  }

  /** What is written up to a reached position does not depend on what follows. */
  lemma {:induction false} WrittenBefore(text: string, i: nat, p: nat)
    requires i <= |text| && Reaches(text, i, p)
    ensures i <= p <= |text| && exists x :: StripBodies(text, i) == x + StripBodies(text, p)
    decreases |text| - i
  {
    ReachesUpTo(text, i, p);
    if i == p {
      assert StripBodies(text, i) == "" + StripBodies(text, p);
    } else {
      OnwardStep(text, i);
      var j := Onward(text, i);
      assert Reaches(text, j, p);
      WrittenBefore(text, j, p);
      var x :| StripBodies(text, j) == x + StripBodies(text, p);
      hide StripBodies, LiteralEnd, BlockEnd, ReachesParen, Reaches;
      Prepend(StripBodies(text, i), Written(text, i), StripBodies(text, j), x, StripBodies(text, p));
    }
  }

  lemma Prepend(a: string, y: string, b: string, x: string, c: string)
    requires a == y + b && b == x + c
    ensures exists z :: a == z + c
  {
    assert a == (y + x) + c;
  }

  lemma {:induction false} EndIsReached(text: string, i: nat)
    requires i <= |text|
    ensures Reaches(text, i, |text|)
    decreases |text| - i
  {
    if i < |text| {
      EndIsReached(text, Onward(text, i));
    }
  }

  /** A text in which no function body opens comes through unchanged. */
  lemma {:induction false} BodilessTextIsKept(text: string)
    requires Bodiless(text, 0, |text|)
    ensures StripBodies(text, 0) == text
  {
    hide Bodiless, Reaches, StripBodies;
    EndIsReached(text, 0);
    BodilessIsKept(text, 0, |text|);
    NoBodies(text);
    assert text[0..|text|] == text && text + "" == text;
  }

  /** Both scanners take the same literals: from the same quote they stop at the same place. */
  lemma {:induction false} LiteralsAgree(text: string, i: nat, quote: char)
    requires i <= |text|
    ensures LiteralEnd(text, i, quote) == i + LiteralRest(text[i..], quote)
    decreases |text| - i
  {
    if i < |text| {
      if text[i] == '\\' && i + 1 < |text| {
        LiteralsAgree(text, i + 2, quote);
        assert text[i..][2..] == text[i + 2..];
      } else if text[i] != quote {
        LiteralsAgree(text, i + 1, quote);
        assert text[i..][1..] == text[i + 1..];
      }
    }
  }

  // ---------- Lines ----------

  /** What ends a line. */
  predicate EndsLine(brk: string, rest: string)
  {
    || brk == "\r\n"
    || (|brk| == 1 && IsBreak(brk[0]) && !(brk == "\r" && "\n" <= rest))
  }

  lemma {:induction false} LengthToBreak(line: string, t: string)
    requires Unbroken(line) && t != "" && IsBreak(t[0])
    ensures LineLength(line + t) == |line|
  {
    if line != "" {
      assert (line + t)[1..] == line[1..] + t;
      LengthToBreak(line[1..], t);
    } else {
      assert line + t == t;
    }
  }

  /** splitlines cuts at every break and nowhere else, and loses nothing but the breaks. */
  lemma {:induction false} CutsAtBreak(line: string, brk: string, rest: string)
    requires Unbroken(line) && EndsLine(brk, rest)
    ensures SplitLines(line + (brk + rest)) == [line] + SplitLines(rest)
  {
    var t, n := line + (brk + rest), |line|;
    assert IsBreak((brk + rest)[0]);
    LengthToBreak(line, brk + rest);
    assert t[n..] == brk + rest && t[..n] == line;
    BreakIs(brk, rest);
    assert t[n + |brk|..] == rest;
    hide LineLength, BreakLength, IsBreak, EndsLine;
  }

  lemma BreakIs(brk: string, rest: string)
    requires EndsLine(brk, rest)
    ensures BreakLength(brk + rest) == |brk|
  {
    var t := brk + rest;
    assert |brk| == 1 ==> t[0] == brk[0] && (rest != "" ==> t[1] == rest[0]);
    assert rest != "" && rest[0] == '\n' ==> "\n" <= rest;
  }

  lemma {:induction false} LastLine(line: string)
    requires Unbroken(line)
    ensures SplitLines(line) == if line == "" then [] else [line]
  {
    UnbrokenLength(line);
  }

  lemma {:induction false} UnbrokenLength(line: string)
    requires Unbroken(line)
    ensures LineLength(line) == |line|
  {
    if line != "" { UnbrokenLength(line[1..]); }
  }

  lemma {:induction false} SplitUnfolds(u: string)
    requires LineLength(u) < |u|
    ensures var n := LineLength(u); SplitLines(u) == [u[..n]] + SplitLines(u[n + BreakLength(u[n..])..])
  {
    hide LineLength, BreakLength;
  }

  lemma MoreLines(all: seq<string>, line: string, rest: seq<string>, more: seq<string>, tail: seq<string>)
    requires all == [line] + rest && rest == more + tail
    ensures exists lines :: all == lines + tail
  {
    assert all == ([line] + more) + tail;
  }

  lemma {:induction false} NewlineStops(x: string, t: string)
    ensures LineLength(x + ("\n" + t)) <= |x|
  {
    if x == "" {
      assert x + ("\n" + t) == "\n" + t;
    } else {
      assert (x + ("\n" + t))[1..] == x[1..] + ("\n" + t);
      NewlineStops(x[1..], t);
    }
  }

  /** The lines after a newline do not depend on what stands before it. */
  lemma {:induction false} LinesAfterNewline(x: string, t: string)
    ensures exists lines :: SplitLines(x + ("\n" + t)) == lines + SplitLines(t)
    decreases |x|
  {
    hide *;
    var u := x + ("\n" + t);
    var n := LineLength(u);
    NewlineStops(x, t);
    var b := BreakLength(u[n..]);
    NotPastNewline(x, t, n, b);
    SplitUnfolds(u);
    if n + b == |x| + 1 {
      assert u[n + b..] == t;
      MoreLines(SplitLines(u), u[..n], SplitLines(t), [], SplitLines(t));
    } else {
      assert u[n + b..] == x[n + b..] + ("\n" + t);
      LinesAfterNewline(x[n + b..], t);
      var more :| SplitLines(x[n + b..] + ("\n" + t)) == more + SplitLines(t);
      MoreLines(SplitLines(u), u[..n], SplitLines(u[n + b..]), more, SplitLines(t));
    }
  }

  lemma NotPastNewline(x: string, t: string, n: nat, b: nat)
    requires n <= |x| && b == BreakLength((x + ("\n" + t))[n..])
    ensures n + b <= |x| + 1
  {
    var u := x + ("\n" + t);
    assert n == |x| ==> u[n..][0] == '\n';
  }

  // ---------- Words ----------

  /** The maximal runs of characters other than white space. */
  function Words(s: string): (ws: seq<string>)
    ensures s != "" && !IsSpace(s[0]) ==> ws != []
  {
    if s == "" then []
    else if IsSpace(s[0]) then Words(s[1..])
    else if |s| == 1 || IsSpace(s[1]) then [[s[0]]] + Words(s[1..])
    else var ws := Words(s[1..]); [[s[0]] + ws[0]] + ws[1..]
  }

  function Spaced(ws: seq<string>): (s: string)
  {
    if ws == [] then "" else if |ws| == 1 then ws[0] else ws[0] + " " + Spaced(ws[1..])
  }

  lemma {:induction false} WordsAreSolid(s: string)
    ensures forall w :: w in Words(s) ==> w != "" && forall i :: 0 <= i < |w| ==> !IsSpace(w[i])
  {
    if s != "" {
      hide IsSpace;
      WordsAreSolid(s[1..]);
      var ws := Words(s[1..]);
      if !IsSpace(s[0]) && |s| > 1 && !IsSpace(s[1]) {
        SolidMore(s[0], ws[0]);
        assert forall w :: w in Words(s) ==> w == [s[0]] + ws[0] || w in ws;
      }
    }
  }

  lemma SolidMore(c: char, w: string)
    requires !IsSpace(c) && forall i :: 0 <= i < |w| ==> !IsSpace(w[i])
    ensures forall i :: 0 <= i < |[c] + w| ==> !IsSpace(([c] + w)[i])
  {
    hide IsSpace;
    assert forall i :: 1 <= i < |[c] + w| ==> ([c] + w)[i] == w[i - 1];
  }

  /** The blank that collapsing leaves at either end. */
  function Edge(blank: bool): (s: string) { if blank then " " else "" }

  /** Collapsing leaves the words with one blank between them, and one at either end where there was
      white space. */
  lemma {:induction false} CollapseIsSpaced(s: string)
    requires Words(s) != []
    ensures Collapse(s) == Edge(IsSpace(s[0])) + Spaced(Words(s)) + Edge(IsSpace(s[|s| - 1]))
    decreases |s|
  {
    if |s| == 1 {
      assert Words(s[1..]) == [];
      assert Collapse(s) == s;
    } else {
      var t, ws := s[1..], Words(s[1..]);
      assert t[|t| - 1] == s[|s| - 1] && t[0] == s[1];
      if ws == [] {
        CollapseBlank(t);
        assert Words(s) == [[s[0]]];
        assert IsSpace(t[0]) && IsSpace(t[|t| - 1]);
        assert Collapse(s) == [s[0]] + " ";
      } else {
        CollapseIsSpaced(t);
        hide IsSpace;
        SpacedStep(s);
      }
    }
  }

  /** White space alone collapses to one blank. */
  lemma {:induction false} CollapseBlank(s: string)
    requires s != "" && Words(s) == []
    ensures Collapse(s) == " " && IsSpace(s[0]) && IsSpace(s[|s| - 1])
  {
    if |s| > 1 {
      CollapseBlank(s[1..]);
    } else {
      assert Collapse(s[1..]) == "";
    }
  }

  lemma {:induction false} SpacedStep(s: string)
    requires |s| > 1 && Words(s[1..]) != []
    requires Collapse(s[1..]) == Edge(IsSpace(s[1])) + Spaced(Words(s[1..])) + Edge(IsSpace(s[|s| - 1]))
    ensures Collapse(s) == Edge(IsSpace(s[0])) + Spaced(Words(s)) + Edge(IsSpace(s[|s| - 1]))
  {
    hide IsSpace;
    var ws := Words(s[1..]);
    if !IsSpace(s[0]) {
      if IsSpace(s[1]) {
        var all := [[s[0]]] + ws;
        assert Words(s) == all && all[1..] == ws;
        assert Spaced(all) == [s[0]] + " " + Spaced(ws);
      } else {
        LongerWord(s[0], ws);
      }
    }
  }

  lemma {:induction false} LongerWord(c: char, ws: seq<string>)
    requires ws != []
    ensures Spaced([[c] + ws[0]] + ws[1..]) == [c] + Spaced(ws)
  {
    var all := [[c] + ws[0]] + ws[1..];
    assert all[1..] == ws[1..] && |all| == |ws|;
    if |ws| > 1 {
      assert Spaced(all) == ([c] + ws[0]) + " " + Spaced(ws[1..]);
    }
  }

  lemma {:induction false} SpacedEnds(ws: seq<string>)
    requires ws != [] && forall w :: w in ws ==> w != "" && forall i :: 0 <= i < |w| ==> !IsSpace(w[i])
    ensures var t := Spaced(ws); t != "" && !IsSpace(t[0]) && !IsSpace(t[|t| - 1])
  {
    hide IsSpace;
    assert ws[0] in ws;
    if |ws| > 1 {
      SpacedEnds(ws[1..]);
      var t, u := Spaced(ws), Spaced(ws[1..]);
      assert t == ws[0] + " " + u;
      assert t[|t| - 1] == u[|u| - 1];
    }
  }

  lemma {:induction false} StripEdges(a: bool, t: string, b: bool)
    requires t != "" && !IsSpace(t[0]) && !IsSpace(t[|t| - 1])
    ensures Strip(Edge(a) + t + Edge(b)) == t
  {
    var tb := t + Edge(b);
    assert tb[0] == t[0];
    assert StripLeft(tb) == tb;
    assert a ==> (" " + tb)[1..] == tb;
    assert StripLeft(Edge(a) + t + Edge(b)) == tb by {
      assert Edge(a) + t + Edge(b) == Edge(a) + tb;
      assert !a ==> Edge(a) + tb == tb;
    }
    assert StripRight(t) == t;
    assert b ==> tb[..|tb| - 1] == t;
    assert !b ==> tb == t;
  }

  /** A normalised line is the words of the line with one blank between neighbours. */
  lemma {:induction false} NormalizeIsSpaced(raw: string)
    ensures Normalize(raw) == Spaced(Words(raw))
  {
    assert Words(raw) != [] ==> raw != "";
    hide Words, Spaced, Collapse, Strip, Edge, IsSpace;
    if Words(raw) != [] {
      CollapseIsSpaced(raw);
      WordsAreSolid(raw);
      SpacedEnds(Words(raw));
      StripEdges(IsSpace(raw[0]), Spaced(Words(raw)), IsSpace(raw[|raw| - 1]));
    } else {
      NoWords(raw);
    }
  }

  lemma {:induction false} NoWords(raw: string)
    requires Words(raw) == []
    ensures Normalize(raw) == "" && Spaced([]) == ""
  {
    if raw != "" {
      CollapseBlank(raw);
      assert StripLeft(" ") == "" by { assert " "[1..] == ""; }
    }
  }

  // ---------- Declarations ----------

  /** Text in which strip_bodies has nothing to do: no literal and no brace. */
  ghost predicate Flat(s: string) { forall k :: 0 <= k < |s| ==> !IsQuote(s[k]) && s[k] != '{' }

  lemma {:induction false} FlatIsReached(text: string, i: nat, p: nat)
    requires i <= p <= |text| && Flat(text[i..p])
    ensures Reaches(text, i, p) && Bodiless(text, i, p)
    decreases p - i
  {
    if i < p {
      assert text[i] == text[i..p][0];
      var whole, rest := text[i..p], text[i + 1..p];
      assert forall k :: 0 <= k < |rest| ==> rest[k] == whole[k + 1];
      FlatIsReached(text, i + 1, p);
      forall q | i <= q < p
        ensures text[q] != '{'
      {
        assert text[q] == text[i..p][q - i];
      }
    }
  }

  /** A header of declarations alone, without comments and bodies: its skeleton is its lines,
      normalised, blank ones left out. */
  lemma {:induction false} DeclarationsOnly(ls: seq<string>, s: string)
    requires Reads(ls, s) && (forall l :: l in ls ==> !IsComment(l)) && Bodiless(s, 0, |s|)
    ensures Skeleton(s) == KeepLines(SplitLines(s))
  {
    hide Reads, Bodiless, StripComments, StripBodies, SplitLines, KeepLines;
    CommentlessIsKept(ls, s);
    BodilessTextIsKept(s);
  }

  /** Lines are kept in order, each as its words, blank ones left out. */
  lemma {:induction false} KeptInOrder(a: seq<string>, line: string, b: seq<string>)
    ensures KeepLines(a + ([line] + b)) ==
      KeepLines(a) + ((if Words(line) == [] then [] else [Spaced(Words(line))]) + KeepLines(b))
  {
    if a == [] {
      hide Normalize, Words, Spaced;
      assert a + ([line] + b) == [line] + b && ([line] + b)[1..] == b;
      NormalizeIsSpaced(line);
      if Words(line) != [] { SomeWords(line); } else { NoWords(line); }
    } else {
      hide Normalize, Words, Spaced;
      assert (a + ([line] + b))[1..] == a[1..] + ([line] + b);
      KeptInOrder(a[1..], line, b);
    }
  }

  lemma {:induction false} LineOfText(x: string, line: string, y: string)
    requires Unbroken(line) && Words(line) != []
    ensures Spaced(Words(line)) in KeepLines(SplitLines(x + ("\n" + (line + ("\n" + y)))))
  {
    hide *;
    LinesAfterNewline(x, line + ("\n" + y));
    ghost var all := SplitLines(x + ("\n" + (line + ("\n" + y))));
    ghost var lines :| all == lines + SplitLines(line + ("\n" + y));
    NewlineEnds(y);
    CutsAtBreak(line, "\n", y);
    KeptInOrder(lines, line, SplitLines(y));
  }

  lemma NewlineEnds(y: string)
    ensures EndsLine("\n", y)
  {
  }

  /** The text from the line on, when comments and bodies leave the line alone. */
  lemma {:induction false} LineIsWritten(text: string, n: nat, line: string)
    requires n + |line| + 2 <= |text| && text[n..n + |line| + 2] == "\n" + line + "\n" && Flat(line)
    ensures StripBodies(text, n) == "\n" + (line + ("\n" + StripBodies(text, n + |line| + 2)))
  {
    var p := n + |line| + 2;
    assert Flat("\n" + line + "\n");
    hide *;
    FlatIsReached(text, n, p);
    BodilessIsKept(text, n, p);
    Regroup("\n" + line, "\n", StripBodies(text, p));
    Regroup("\n", line, "\n" + StripBodies(text, p));
  }

  /** Every declaration shows. A line of any header without break, literal or brace, no position of
      which is in a comment and whose newline the scan reaches outside literals and bodies, is in
      the skeleton, normalised, unless it is blank. */
  lemma {:induction false} DeclarationShows(ls: seq<string>, s: string, n: nat, line: string)
    requires Reads(ls, s)
    requires n + |line| + 2 <= |s| && s[n..n + |line| + 2] == "\n" + line + "\n"
    requires Unbroken(line) && Flat(line)
    requires forall k :: n < k <= n + |line| ==> !InComment(ls, k)
    requires Reaches(StripComments(s, Code), 0, n)
    ensures Words(line) != [] ==> Spaced(Words(line)) in Skeleton(s)
  {
    hide *;
    var bare := StripComments(s, Code);
    if Words(line) != [] {
      KeptUpTo(ls, s, n, line);
      LineIsWritten(bare, n, line);
      WrittenBefore(bare, 0, n);
      ghost var x :| StripBodies(bare, 0) == x + StripBodies(bare, n);
      LineOfText(x, line, StripBodies(bare, n + |line| + 2));
      SkeletonIs(s);
    }
  }

  lemma SkeletonIs(s: string)
    ensures Skeleton(s) == KeepLines(SplitLines(StripBodies(StripComments(s, Code), 0)))
  {
  }

  lemma SomeWords(line: string)
    requires Words(line) != []
    ensures Spaced(Words(line)) != ""
  {
    WordsAreSolid(line);
    SpacedEnds(Words(line));
  }

  lemma {:induction false} KeptUpTo(ls: seq<string>, s: string, n: nat, line: string)
    requires Reads(ls, s)
    requires n + |line| + 2 <= |s| && s[n..n + |line| + 2] == "\n" + line + "\n"
    requires forall k :: n < k <= n + |line| ==> !InComment(ls, k)
    ensures var bare := StripComments(s, Code); |bare| == |s| && bare[n..n + |line| + 2] == "\n" + line + "\n"
  {
    hide StripComments, Reads, InComment;
    var p := n + |line| + 2;
    var bare := StripComments(s, Code);
    KeptExactlyOutsideComments(ls, s, n);
    forall k | n <= k < p
      ensures bare[k] == s[k]
    {
      KeptExactlyOutsideComments(ls, s, k);
      assert s[k] == s[n..p][k - n];
    }
    assert bare[n..p] == s[n..p];
  }
}
