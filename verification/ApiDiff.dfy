/** The API-surface gate: header by header multiset differences, with appended defaulted parameters
    reclassified as additions. */
module ApiDiff {
  import opened ApiSkeleton
  import opened ApiBaseline

  // ---------- Lines ----------

  predicate EndsWith(s: string, suffix: string) { |suffix| <= |s| && s[|s| - |suffix|..] == suffix }

  function StripCloseParen(line: string): (r: string)
  {
    var s := StripRight(line);
    if EndsWith(s, ");") then s[..|s| - 2] else s
  }

  function StripCommas(s: string): (r: string)
  {
    if s != [] && s[|s| - 1] == ',' then StripCommas(s[..|s| - 1]) else s
  }

  /** The line as it reads once a further parameter follows it. */
  function CommaForm(line: string): (r: string) { StripCommas(StripRight(StripCloseParen(line))) + "," }

  function Indent(line: string): (r: string)
  {
    StripLeftIsSuffix(line);
    line[..|line| - |StripLeft(line)|]
  }

  predicate Closer(line: string)
  {
    var s := Strip(line);
    s != [] && s[0] in "})" + "{"
  }

  /** An added line at the indentation of `r` that reads like a parameter. */
  predicate ParamShaped(r: string, a: string) { a != CommaForm(r) && Indent(r) <= a && !Closer(a) }

  // ---------- sorted ----------

  /** The order Python sorts strings in. */
  predicate Leq(a: string, b: string)
  {
    a == "" || (b != "" && (a[0] < b[0] || (a[0] == b[0] && Leq(a[1..], b[1..]))))
  }

  ghost predicate Sorted(s: seq<string>) { forall i, j :: 0 <= i < j < |s| ==> Leq(s[i], s[j]) }

  lemma {:induction false} LeqTotal(a: string, b: string)
    ensures Leq(a, b) || Leq(b, a)
    ensures Leq(a, b) && Leq(b, a) ==> a == b
  {
    if a != "" && b != "" && a[0] == b[0] {
      LeqTotal(a[1..], b[1..]);
      assert a == [a[0]] + a[1..] && b == [b[0]] + b[1..];
    }
  }

  lemma {:induction false} LeqTransitive(a: string, b: string, c: string)
    requires Leq(a, b) && Leq(b, c)
    ensures Leq(a, c)
  {
    if a != "" && a[0] == b[0] == c[0] { LeqTransitive(a[1..], b[1..], c[1..]); }
  }

  function Insert(x: string, s: seq<string>): (r: seq<string>)
  {
    if s == [] || Leq(x, s[0]) then [x] + s else [s[0]] + Insert(x, s[1..])
  }

  lemma {:induction false} InsertSorted(x: string, s: seq<string>)
    requires Sorted(s)
    ensures Sorted(Insert(x, s)) && multiset(Insert(x, s)) == multiset(s) + multiset{x}
  {
    hide Leq;
    if s == [] {
    } else if Leq(x, s[0]) {
      forall i | 0 <= i < |s|
        ensures Leq(x, s[i])
      {
        if i > 0 { LeqTransitive(x, s[0], s[i]); }
      }
    } else {
      LeqTotal(x, s[0]);
      var t := Insert(x, s[1..]);
      InsertSorted(x, s[1..]);
      assert s == [s[0]] + s[1..];
      forall i | 0 <= i < |t|
        ensures Leq(s[0], t[i])
      {
        assert t[i] in multiset(t);
        if t[i] != x { assert t[i] in s[1..]; }
      }
    }
  }

  /** The lines of a multiset, in order. */
  ghost function InOrder(m: multiset<string>): (s: seq<string>)
    ensures Sorted(s) && multiset(s) == m
  {
    if m == multiset{} then []
    else
      var x :| x in m;
      var rest := InOrder(m - multiset{x});
      InsertSorted(x, rest);
      Insert(x, rest)
  }

  lemma {:induction false} SortedIsUnique(a: seq<string>, b: seq<string>)
    requires Sorted(a) && Sorted(b) && multiset(a) == multiset(b)
    ensures a == b
  {
    if a == [] || b == [] {
      assert |multiset(a)| == |a| && |multiset(b)| == |b|;
    } else {
      SameHead(a, b);
      hide Leq;
      WithoutHead(a);
      WithoutHead(b);
      SortedIsUnique(a[1..], b[1..]);
      hide Sorted;
    }
  }

  lemma WithoutHead(a: seq<string>)
    requires a != []
    ensures a == [a[0]] + a[1..] && multiset(a[1..]) == multiset(a) - multiset{a[0]}
    ensures Sorted(a) ==> Sorted(a[1..])
  {
    hide Leq;
    assert a == [a[0]] + a[1..];
  }

  lemma SameHead(a: seq<string>, b: seq<string>)
    requires Sorted(a) && Sorted(b) && multiset(a) == multiset(b) && a != [] && b != []
    ensures a[0] == b[0]
  {
    hide Leq;
    assert a[0] in multiset(a) && b[0] in multiset(b);
    assert a[0] in b && b[0] in a;
    LeqTotal(a[0], b[0]);
    LeqTotal(a[0], a[0]);
  }

  method SortLines(lines: seq<string>) returns (r: seq<string>)
    ensures r == InOrder(multiset(lines))
  {
    r := [];
    assert lines[..0] == [];
    for k := 0 to |lines|
      invariant Sorted(r) && multiset(r) == multiset(lines[..k])
    {
      hide Leq, Sorted, Insert;
      assert lines[..k + 1] == lines[..k] + [lines[k]];
      InsertSorted(lines[k], r);
      r := Insert(lines[k], r);
    }
    assert lines[..|lines|] == lines;
    SortedIsUnique(r, InOrder(multiset(lines)));
  }

  // ---------- _multiset_diff ----------

  /** The lines of `before` that `after` does not match, copy for copy, sorted. */
  method Unmatched(before: seq<string>, after: seq<string>) returns (r: seq<string>)
    ensures r == InOrder(multiset(before) - multiset(after))
  {
    r := [];
    var budget := multiset(after);
    assert before[..0] == [];
    for k := 0 to |before|
      invariant multiset(r) == multiset(before[..k]) - multiset(after)
      invariant budget == multiset(after) - multiset(before[..k])
    {
      assert before[..k + 1] == before[..k] + [before[k]];
      MatchOne(multiset(before[..k]), multiset(after), before[k]);
      if before[k] in budget {
        budget := budget - multiset{before[k]};
      } else {
        r := r + [before[k]];
      }
    }
    assert before[..|before|] == before;
    r := SortLines(r);
  }

  lemma MatchOne(done: multiset<string>, offered: multiset<string>, x: string)
    ensures x in offered - done ==>
      (done + multiset{x}) - offered == done - offered && offered - (done + multiset{x}) == (offered - done) - multiset{x}
    ensures x !in offered - done ==>
      (done + multiset{x}) - offered == (done - offered) + multiset{x} && offered - (done + multiset{x}) == offered - done
  {
  }

  // ---------- _extract_defaulted_param_appends ----------

  /** Why `r` need not count as removed: its comma form was added, and everything added at its
      indentation is a defaulted parameter, a closing line, or the comma form of a line excused
      like it. `defaulted` is the pattern of a parameter with a default value. */
  ghost predicate Excusable(r: string, added: set<string>, consumed: set<string>, defaulted: string -> bool)
  {
    && !EndsWith(StripCloseParen(r), ",")
    && CommaForm(r) in added && CommaForm(r) in consumed
    && forall a :: a in added && ParamShaped(r, a) && a !in consumed ==> defaulted(StripCloseParen(a))
  }

  /** One turn of the pairing loop: `r` is taken for a parameter that gained a comma. */
  predicate Excuses(r: string, added: set<string>, consumed: set<string>, defaulted: string -> bool)
  {
    && !EndsWith(StripCloseParen(r), ",") && CommaForm(r) in added && Shaped(r, added, consumed) != {}
    && forall a :: a in Shaped(r, added, consumed) ==> defaulted(StripCloseParen(a))
  }

  /** The lines the loop keeps as removed, and those it excuses. */
  function Pairing(removed: seq<string>, added: set<string>, consumed: set<string>, defaulted: string -> bool)
    : (r: (seq<string>, seq<string>))
    decreases |removed|
  {
    if removed == [] then ([], [])
    else if Excuses(removed[0], added, consumed, defaulted) then
      var (kept, excused) := Pairing(removed[1..], added, consumed + {CommaForm(removed[0])}, defaulted);
      (kept, [removed[0]] + excused)
    else
      var (kept, excused) := Pairing(removed[1..], added, consumed, defaulted);
      ([removed[0]] + kept, excused)
  }

  method ExtractDefaultedParamAppends(removed: seq<string>, added: seq<string>, defaulted: string -> bool)
    returns (kept: seq<string>, left: seq<string>, pairs: nat, ghost excused: seq<string>)
    ensures multiset(kept) + multiset(excused) == multiset(removed) && |excused| == pairs
    ensures multiset(left) <= multiset(added)
    ensures forall a :: a in added && a !in left ==> exists r :: r in excused && a == CommaForm(r)
    ensures AllExcusable(excused, (set a | a in added), Commas(excused), defaulted)
    ensures (kept, excused) == Pairing(removed, set a | a in added, {}, defaulted) && left == Keep(added, Commas(excused))
    ensures pairs > 0 ==> left != []
    ensures pairs == 0 ==> kept == removed && left == added
  {
    var addedSet := set a | a in added;
    var consumed: set<string> := {};
    pairs, kept, excused := 0, [], [];
    ghost var whole := Pairing(removed, addedSet, {}, defaulted);
    assert removed[0..] == removed;
    NothingPaired(whole);
    NoneExcused([]);
    hide *;
    for k := 0 to |removed|
      invariant |excused| == pairs && consumed == Commas(excused)
      invariant var rest := Pairing(removed[k..], addedSet, consumed, defaulted);
        kept + rest.0 == whole.0 && excused + rest.1 == whole.1
    {
      hide *;
      var r := removed[k];
      PairingStep(removed, k, addedSet, consumed, defaulted, kept, excused);
      if !Excuses(r, addedSet, consumed, defaulted) {
        kept := kept + [r];
      } else {
        pairs := pairs + 1;
        MoreCommas(excused, r);
        consumed := consumed + {CommaForm(r)};
        excused := excused + [r];
      }
    }
    PairingEnd(removed, addedSet, consumed, defaulted, kept, excused);
    PairingDivides(removed, addedSet, {}, defaulted, kept, excused);
    assert multiset(kept) + multiset(excused) == multiset(removed) by { DividesMeans(kept, excused, removed); }
    PairingExcusable(removed, addedSet, {}, defaulted);
    PairingLeaves(removed, addedSet, {}, defaulted);
    NoneExcused(excused);
    assert {} + Commas(excused) == Commas(excused);
    left := Keep(added, consumed);
  }

  lemma {:induction false} PairingStep(removed: seq<string>, k: nat, added: set<string>, consumed: set<string>, defaulted: string -> bool,
                                       kept: seq<string>, excused: seq<string>)
    requires k < |removed|
    ensures var r, rest := removed[k], Pairing(removed[k..], added, consumed, defaulted);
      if Excuses(r, added, consumed, defaulted) then
        var next := Pairing(removed[k + 1..], added, consumed + {CommaForm(r)}, defaulted);
        kept + rest.0 == kept + next.0 && excused + rest.1 == excused + [r] + next.1
      else
        var next := Pairing(removed[k + 1..], added, consumed, defaulted);
        kept + rest.0 == kept + [r] + next.0 && excused + rest.1 == excused + next.1
  {
    hide Excuses, CommaForm;
    assert removed[k..][1..] == removed[k + 1..];
  }

  lemma PairingEnd(removed: seq<string>, added: set<string>, consumed: set<string>, defaulted: string -> bool,
                   kept: seq<string>, excused: seq<string>)
    ensures var rest := Pairing(removed[|removed|..], added, consumed, defaulted);
      kept + rest.0 == kept && excused + rest.1 == excused
  {
    assert removed[|removed|..] == [];
  }

  lemma NothingPaired(p: (seq<string>, seq<string>))
    ensures [] + p.0 == p.0 && [] + p.1 == p.1
  {
  }

  /** Every removed line is kept or excused, copy for copy; with none excused nothing changes. */
  lemma {:induction false} PairingDivides(removed: seq<string>, added: set<string>, consumed: set<string>, defaulted: string -> bool,
                                          kept: seq<string>, excused: seq<string>)
    requires (kept, excused) == Pairing(removed, added, consumed, defaulted)
    ensures Divides(kept, excused, removed) && (excused == [] ==> kept == removed)
    decreases |removed|
  {
    hide Excuses, CommaForm, Divides;
    if removed != [] {
      var r, rest := removed[0], removed[1..];
      assert removed == [r] + rest;
      var more := if Excuses(r, added, consumed, defaulted) then consumed + {CommaForm(r)} else consumed;
      var (k, e) := Pairing(rest, added, more, defaulted);
      PairingDivides(rest, added, more, defaulted, k, e);
      DividesMore(r, k, e, rest);
    } else {
      NothingDivides();
    }
  }

  ghost predicate Divides(kept: seq<string>, excused: seq<string>, all: seq<string>)
  {
    multiset(kept) + multiset(excused) == multiset(all)
  }

  lemma DividesMeans(kept: seq<string>, excused: seq<string>, all: seq<string>)
    requires Divides(kept, excused, all)
    ensures multiset(kept) + multiset(excused) == multiset(all)
  {
  }

  lemma NothingDivides()
    ensures Divides([], [], [])
  {
  }

  lemma DividesMore(r: string, kept: seq<string>, excused: seq<string>, rest: seq<string>)
    requires Divides(kept, excused, rest)
    ensures Divides([r] + kept, excused, [r] + rest) && Divides(kept, [r] + excused, [r] + rest)
  {
  }

  lemma {:induction false} PairingExcusable(removed: seq<string>, added: set<string>, consumed: set<string>, defaulted: string -> bool)
    ensures var excused := Pairing(removed, added, consumed, defaulted).1;
      AllExcusable(excused, added, consumed + Commas(excused), defaulted)
    decreases |removed|
  {
    if removed != [] {
      var r, rest := removed[0], removed[1..];
      PairingExcusable(rest, added, consumed, defaulted);
      PairingExcusable(rest, added, consumed + {CommaForm(r)}, defaulted);
      if Excuses(r, added, consumed, defaulted) {
        var tail := Pairing(rest, added, consumed + {CommaForm(r)}, defaulted).1;
        CommasCons(r, tail);
        assert consumed + {CommaForm(r)} + Commas(tail) == consumed + Commas([r] + tail);
        HeadExcusable(r, added, consumed, consumed + Commas([r] + tail), defaulted);
      }
      hide Excusable, CommaForm, Excuses, Commas;
    }
  }

  lemma HeadExcusable(r: string, added: set<string>, consumed: set<string>, more: set<string>, defaulted: string -> bool)
    requires Excuses(r, added, consumed, defaulted) && consumed <= more && CommaForm(r) in more
    ensures Excusable(r, added, more, defaulted)
  {
    hide CommaForm, StripCloseParen, EndsWith, ParamShaped;
    forall a | a in added && ParamShaped(r, a) && a !in more
      ensures defaulted(StripCloseParen(a))
    {
      assert a in Shaped(r, added, consumed);
    }
  }

  /** Some added line is always left to report. */
  lemma {:induction false} PairingLeaves(removed: seq<string>, added: set<string>, consumed: set<string>, defaulted: string -> bool)
    ensures var excused := Pairing(removed, added, consumed, defaulted).1;
      excused != [] ==> added - (consumed + Commas(excused)) != {}
    decreases |removed|
  {
    if removed != [] {
      var r, rest := removed[0], removed[1..];
      PairingLeaves(rest, added, consumed, defaulted);
      PairingLeaves(rest, added, consumed + {CommaForm(r)}, defaulted);
      if Excuses(r, added, consumed, defaulted) {
        var tail := Pairing(rest, added, consumed + {CommaForm(r)}, defaulted).1;
        CommasCons(r, tail);
        assert consumed + {CommaForm(r)} + Commas(tail) == consumed + Commas([r] + tail);
        if tail == [] {
          var a :| a in Shaped(r, added, consumed);
          assert a in added - (consumed + {CommaForm(r)} + Commas(tail)) by { NoneExcused(tail); }
        }
      }
      hide CommaForm, Excuses, Commas, Shaped;
    }
  }

  lemma CommasCons(r: string, tail: seq<string>)
    ensures Commas([r] + tail) == {CommaForm(r)} + Commas(tail)
  {
    hide CommaForm;
    var all := [r] + tail;
    assert forall x :: x in all <==> x == r || x in tail;
  }

  lemma MoreCommas(excused: seq<string>, r: string)
    ensures Commas(excused + [r]) == Commas(excused) + {CommaForm(r)}
  {
    hide CommaForm;
  }

  lemma NoneExcused(excused: seq<string>)
    ensures |excused| == 0 ==> Commas(excused) == {}
    ensures forall c :: c in Commas(excused) ==> exists r :: r in excused && c == CommaForm(r)
  {
    hide CommaForm;
  }

  function Shaped(r: string, added: set<string>, consumed: set<string>): (s: set<string>)
  {
    set a | a in added && ParamShaped(r, a) && a !in consumed
  }

  ghost predicate AllExcusable(excused: seq<string>, added: set<string>, consumed: set<string>, defaulted: string -> bool)
  {
    forall r :: r in excused ==> Excusable(r, added, consumed, defaulted)
  }

  ghost function Commas(excused: seq<string>): set<string> { set r | r in excused :: CommaForm(r) }

  function Keep(added: seq<string>, consumed: set<string>): (left: seq<string>)
    ensures multiset(left) <= multiset(added)
    ensures forall a :: a in added && a !in consumed ==> a in left
    ensures consumed == {} ==> left == added
  {
    if added == [] then []
    else
      assert added == [added[0]] + added[1..];
      (if added[0] in consumed then [] else [added[0]]) + Keep(added[1..], consumed)
  }

  // ---------- diff_snapshots ----------

  datatype Drift = Drift(addedHeaders: set<string>, removedHeaders: set<string>,
                         addedLines: map<string, seq<string>>, removedLines: map<string, seq<string>>)
  {
    predicate Breaking() { removedHeaders != {} || removedLines.Keys != {} }

    predicate Any() { addedHeaders != {} || Breaking() || addedLines.Keys != {} }
  }

  ghost predicate SameLines(before: seq<string>, after: seq<string>) { multiset(before) == multiset(after) }

  /** The same headers, each with the same lines in any order. */
  ghost predicate SameSurface(before: Snapshot, after: Snapshot)
  {
    before.Keys == after.Keys && forall rel :: rel in before ==> SameLines(before[rel], after[rel])
  }

  /** A line lost from a header without its comma form appearing there instead. */
  ghost predicate Lost(before: seq<string>, after: seq<string>, line: string)
  {
    && line in multiset(before) - multiset(after)
    && CommaForm(line) !in multiset(after) - multiset(before)
  }

  /** The lines of `before` that are gone in `after`, and those that are new, in order. */
  ghost function Gone(before: seq<string>, after: seq<string>): (lines: seq<string>)
    ensures Sorted(lines) && multiset(lines) == multiset(before) - multiset(after)
  {
    InOrder(multiset(before) - multiset(after))
  }

  ghost function NewLines(before: seq<string>, after: seq<string>): (lines: set<string>)
  {
    set a | a in multiset(after) - multiset(before)
  }

  /** What is reported removed and added for one header. */
  ghost function RemovedLines(before: seq<string>, after: seq<string>, defaulted: string -> bool): (lines: seq<string>)
  {
    Pairing(Gone(before, after), NewLines(before, after), {}, defaulted).0
  }

  ghost function AddedLines(before: seq<string>, after: seq<string>, defaulted: string -> bool): (lines: seq<string>)
  {
    Keep(Gone(after, before), Commas(Pairing(Gone(before, after), NewLines(before, after), {}, defaulted).1))
  }

  lemma {:induction false} PairingKeepsNone(removed: seq<string>, added: set<string>, consumed: set<string>, defaulted: string -> bool)
    ensures Pairing(removed, added, consumed, defaulted).0 == [] <==>
      forall i :: 0 <= i < |removed| ==> Excuses(removed[i], added, consumed + Commas(removed[..i]), defaulted)
    decreases |removed|
  {
    hide Excuses, CommaForm;
    if removed != [] {
      var r, rest := removed[0], removed[1..];
      var more := consumed + {CommaForm(r)};
      assert consumed + Commas(removed[..0]) == consumed;
      forall i | 0 <= i < |rest|
        ensures more + Commas(rest[..i]) == consumed + Commas(removed[..i + 1]) && rest[i] == removed[i + 1]
      {
        assert removed[..i + 1] == [r] + rest[..i];
        CommasCons(r, rest[..i]);
      }
      PairingKeepsNone(rest, added, more, defaulted);
      hide Commas;
      if Excuses(r, added, consumed, defaulted) {
        assert forall i :: 0 < i < |removed| ==> removed[i] == rest[i - 1];
      } else {
        assert Pairing(removed, added, consumed, defaulted).0 != [];
      }
    }
  }

  /** A header is not breaking exactly when every line gone from it, taken in order, is excused: its
      comma form is new, some other new line at its indentation has not been claimed by an earlier
      one, and all of those are defaulted parameters. */
  lemma HeaderBreaksIff(before: seq<string>, after: seq<string>, defaulted: string -> bool)
    ensures RemovedLines(before, after, defaulted) == [] <==>
      var gone := Gone(before, after);
      forall i :: 0 <= i < |gone| ==> Excuses(gone[i], NewLines(before, after), Commas(gone[..i]), defaulted)
  {
    var gone := Gone(before, after);
    hide Gone, NewLines, Excuses, Commas, Pairing;
    PairingKeepsNone(gone, NewLines(before, after), {}, defaulted);
    assert forall i :: 0 <= i < |gone| ==> {} + Commas(gone[..i]) == Commas(gone[..i]);
  }

  lemma NewIsExtra(before: seq<string>, after: seq<string>)
    ensures (set a | a in Gone(after, before)) == NewLines(before, after)
  {
    assert forall line :: line in Gone(after, before) <==> line in multiset(Gone(after, before));
  }

  /** A header is reported unchanged exactly when its lines are the same, and a lost line is always
      reported removed. */
  lemma HeaderFacts(before: seq<string>, after: seq<string>, defaulted: string -> bool)
    ensures RemovedLines(before, after, defaulted) == [] && AddedLines(before, after, defaulted) == [] <==> SameLines(before, after)
    ensures forall line :: Lost(before, after, line) ==> line in RemovedLines(before, after, defaulted)
  {
    hide *;
    var gone, extra, news := Gone(before, after), Gone(after, before), NewLines(before, after);
    var (kept, excused) := Pairing(gone, news, {}, defaulted);
    NewIsExtra(before, after);
    PairingDivides(gone, news, {}, defaulted, kept, excused);
    DividesMeans(kept, excused, gone);
    PairingExcusable(gone, news, {}, defaulted);
    PairingLeaves(gone, news, {}, defaulted);
    assert {} + Commas(excused) == Commas(excused);
    NoneExcused(excused);
    ExcusedAreNot(before, after, gone, extra, kept, excused, defaulted);
    var left := Keep(extra, Commas(excused));
    assert RemovedLines(before, after, defaulted) == kept && AddedLines(before, after, defaulted) == left by {
      LinesMean(before, after, defaulted);
    }
    SameIffNoDifference(multiset(before), multiset(after));
    EmptyOfNone(kept, excused, gone);
    EmptyOfNone(extra, [], extra);
    SameMeans(before, after);
    assert excused != [] ==> left != [];
  }

  lemma LinesMean(before: seq<string>, after: seq<string>, defaulted: string -> bool)
    ensures var p := Pairing(Gone(before, after), NewLines(before, after), {}, defaulted);
      RemovedLines(before, after, defaulted) == p.0 && AddedLines(before, after, defaulted) == Keep(Gone(after, before), Commas(p.1))
  {
  }

  lemma SameMeans(before: seq<string>, after: seq<string>)
    ensures SameLines(before, after) <==> multiset(before) == multiset(after)
  {
  }

  method DiffHeader(before: seq<string>, after: seq<string>, defaulted: string -> bool)
    returns (removed: seq<string>, added: seq<string>)
    ensures removed == RemovedLines(before, after, defaulted) && added == AddedLines(before, after, defaulted)
    ensures removed == [] && added == [] <==> SameLines(before, after)
    ensures multiset(removed) <= multiset(before) - multiset(after)
    ensures multiset(added) <= multiset(after) - multiset(before)
    ensures forall line :: Lost(before, after, line) ==> line in removed
  {
    var gone := Unmatched(before, after);
    var extra := Unmatched(after, before);
    assert gone == Gone(before, after) && extra == Gone(after, before);
    NewIsExtra(before, after);
    hide *;
    var pairs;
    ghost var excused;
    removed, added, pairs, excused := ExtractDefaultedParamAppends(gone, extra, defaulted);
    LinesMean(before, after, defaulted);
    HeaderFacts(before, after, defaulted);
  }

  lemma ExcusedAreNot(before: seq<string>, after: seq<string>, gone: seq<string>, extra: seq<string>,
                      removed: seq<string>, excused: seq<string>, defaulted: string -> bool)
    requires multiset(gone) == multiset(before) - multiset(after) && multiset(extra) == multiset(after) - multiset(before)
    requires multiset(removed) + multiset(excused) == multiset(gone)
    requires AllExcusable(excused, (set a | a in extra), Commas(excused), defaulted)
    ensures forall line :: Lost(before, after, line) ==> line in removed
  {
    hide CommaForm;
    forall line | Lost(before, after, line)
      ensures line in removed
    {
      assert line in multiset(gone);
      assert line in multiset(removed) || line in multiset(excused);
      assert line in excused ==> CommaForm(line) in extra;
      assert forall x :: x in extra <==> x in multiset(extra);
    }
  }

  lemma SameIffNoDifference(a: multiset<string>, b: multiset<string>)
    ensures a == b <==> a - b == multiset{} && b - a == multiset{}
  {
    if a - b == multiset{} && b - a == multiset{} {
      assert forall x :: a[x] <= b[x] by { assert forall x :: (a - b)[x] == 0; }
      assert forall x :: b[x] <= a[x] by { assert forall x :: (b - a)[x] == 0; }
    }
  }

  lemma EmptyOfNone(kept: seq<string>, excused: seq<string>, all: seq<string>)
    requires multiset(kept) + multiset(excused) == multiset(all)
    ensures multiset(all) == multiset{} <==> all == []
    ensures all == [] <==> kept == [] && excused == []
  {
    assert |multiset(all)| == |all| && |multiset(kept)| == |kept| && |multiset(excused)| == |excused|;
  }

  /** The drift lists `lines` for a header, or does not list it when there are none. */
  predicate Holds(listed: Snapshot, rel: string, lines: seq<string>)
  {
    if lines == [] then rel !in listed else rel in listed && listed[rel] == lines
  }

  /** Every header of `done` is listed with its lines, and nothing else is. */
  ghost predicate AllListed(before: Snapshot, after: Snapshot, defaulted: string -> bool, removed: Snapshot, added: Snapshot, done: set<string>)
    requires done <= before.Keys * after.Keys
  {
    && removed.Keys <= done && added.Keys <= done
    && (forall rel :: rel in done ==> Holds(removed, rel, RemovedLines(before[rel], after[rel], defaulted)))
    && (forall rel :: rel in done ==> Holds(added, rel, AddedLines(before[rel], after[rel], defaulted)))
  }

  function Listed(m: Snapshot, rel: string, lines: seq<string>): (r: Snapshot) { if lines == [] then m else m[rel := lines] }

  lemma ListedHolds(m: Snapshot, rel: string, lines: seq<string>, other: string, theirs: seq<string>)
    requires rel !in m && other != rel
    ensures Holds(Listed(m, rel, lines), rel, lines)
    ensures Holds(m, other, theirs) ==> Holds(Listed(m, rel, lines), other, theirs)
    ensures Listed(m, rel, lines).Keys <= m.Keys + {rel}
  {
  }

  lemma OneMoreListed(before: Snapshot, after: Snapshot, defaulted: string -> bool, removed: Snapshot, added: Snapshot, done: set<string>, rel: string)
    requires done <= before.Keys * after.Keys && rel in before.Keys * after.Keys && rel !in done
    requires AllListed(before, after, defaulted, removed, added, done)
    ensures AllListed(before, after, defaulted, Listed(removed, rel, RemovedLines(before[rel], after[rel], defaulted)),
                      Listed(added, rel, AddedLines(before[rel], after[rel], defaulted)), done + {rel})
  {
    hide RemovedLines, AddedLines, Holds, Listed;
    var r, a := RemovedLines(before[rel], after[rel], defaulted), AddedLines(before[rel], after[rel], defaulted);
    ListedHolds(removed, rel, r, rel + "x", []);
    ListedHolds(added, rel, a, rel + "x", []);
    forall other | other in done
      ensures Holds(Listed(removed, rel, r), other, RemovedLines(before[other], after[other], defaulted))
      ensures Holds(Listed(added, rel, a), other, AddedLines(before[other], after[other], defaulted))
    {
      ListedHolds(removed, rel, r, other, RemovedLines(before[other], after[other], defaulted));
      ListedHolds(added, rel, a, other, AddedLines(before[other], after[other], defaulted));
    }
  }

  lemma NoneListed(before: Snapshot, after: Snapshot, defaulted: string -> bool)
    ensures AllListed(before, after, defaulted, map[], map[], {})
  {
  }

  method DiffLines(before: Snapshot, after: Snapshot, defaulted: string -> bool) returns (removedLines: Snapshot, addedLines: Snapshot)
    ensures AllListed(before, after, defaulted, removedLines, addedLines, before.Keys * after.Keys)
  {
    addedLines, removedLines := map[], map[];
    var todo := before.Keys * after.Keys;
    ghost var done: set<string> := {};
    NoneListed(before, after, defaulted);
    hide *;
    while todo != {}
      invariant done !! todo && done + todo == before.Keys * after.Keys
      invariant AllListed(before, after, defaulted, removedLines, addedLines, done)
    {
      hide *;
      var rel :| rel in todo;
      OneMoreListed(before, after, defaulted, removedLines, addedLines, done, rel);
      var removed, added := DiffHeader(before[rel], after[rel], defaulted);
      removedLines := Listed(removedLines, rel, removed);
      addedLines := Listed(addedLines, rel, added);
      todo, done := todo - {rel}, done + {rel};
    }
  }

  method DiffSnapshots(before: Snapshot, after: Snapshot, defaulted: string -> bool) returns (d: Drift)
    ensures !d.Any() <==> SameSurface(before, after)
    ensures d.removedHeaders == before.Keys - after.Keys && d.addedHeaders == after.Keys - before.Keys
    ensures AllListed(before, after, defaulted, d.removedLines, d.addedLines, before.Keys * after.Keys)
    ensures d.Breaking() <==>
      !(before.Keys <= after.Keys) || exists rel :: rel in before.Keys * after.Keys && RemovedLines(before[rel], after[rel], defaulted) != []
    ensures !d.Breaking() ==>
      before.Keys <= after.Keys && forall rel, line :: rel in before ==> !Lost(before[rel], after[rel], line)
  {
    var removedLines, addedLines := DiffLines(before, after, defaulted);
    d := Drift(after.Keys - before.Keys, before.Keys - after.Keys, addedLines, removedLines);
    hide *;
    DriftMeans(before, after, defaulted, d);
  }

  lemma HoldsMeans(m: Snapshot, rel: string, lines: seq<string>)
    requires Holds(m, rel, lines)
    ensures rel in m <==> lines != []
  {
  }

  lemma DriftMeans(before: Snapshot, after: Snapshot, defaulted: string -> bool, d: Drift)
    requires AllListed(before, after, defaulted, d.removedLines, d.addedLines, before.Keys * after.Keys)
    requires d.removedHeaders == before.Keys - after.Keys && d.addedHeaders == after.Keys - before.Keys
    ensures !d.Any() <==> SameSurface(before, after)
    ensures d.Breaking() <==>
      !(before.Keys <= after.Keys) || exists rel :: rel in before.Keys * after.Keys && RemovedLines(before[rel], after[rel], defaulted) != []
    ensures !d.Breaking() ==>
      before.Keys <= after.Keys && forall rel, line :: rel in before ==> !Lost(before[rel], after[rel], line)
  {
    hide Lost, SameLines, RemovedLines, AddedLines, Holds;
    forall rel | rel in before.Keys * after.Keys
      ensures rel in d.removedLines <==> RemovedLines(before[rel], after[rel], defaulted) != []
      ensures rel !in d.removedLines && rel !in d.addedLines <==> SameLines(before[rel], after[rel])
      ensures rel !in d.removedLines ==> forall line :: !Lost(before[rel], after[rel], line)
    {
      HoldsMeans(d.removedLines, rel, RemovedLines(before[rel], after[rel], defaulted));
      HoldsMeans(d.addedLines, rel, AddedLines(before[rel], after[rel], defaulted));
      HeaderFacts(before[rel], after[rel], defaulted);
    }
    assert d.addedHeaders == {} && d.removedHeaders == {} <==> before.Keys == after.Keys;
    assert d.removedHeaders == {} <==> before.Keys <= after.Keys by {
      assert forall rel :: rel in before && rel !in after ==> rel in d.removedHeaders;
    }
    if d.removedLines.Keys != {} {
      var rel :| rel in d.removedLines;
      assert RemovedLines(before[rel], after[rel], defaulted) != [];
    }
  }

  // ---------- A fresh baseline is clean ----------

  function BuildSnapshot(sources: map<string, string>): (snap: Snapshot)
  {
    map rel | rel in sources :: Skeleton(sources[rel])
  }

  lemma {:induction false} KeptAreUnbroken(raws: seq<string>)
    ensures forall k :: 0 <= k < |KeepLines(raws)| ==> Unbroken(KeepLines(raws)[k])
  {
    hide Normalize, Unbroken;
    if raws != [] {
      NormalizeIsUnbroken(raws[0]);
      KeptAreUnbroken(raws[1..]);
    }
  }

  lemma SkeletonIsUnbroken(source: string)
    ensures forall k :: 0 <= k < |Skeleton(source)| ==> Unbroken(Skeleton(source)[k])
  {
    hide Unbroken, KeepLines, SplitLines, StripBodies, StripComments;
    KeptAreUnbroken(SplitLines(StripBodies(StripComments(source, Code), 0)));
  }

  /** For any headers: the baseline written from them reads back as their snapshot if and only if no
      skeleton line is taken for a comment or a header mark. */
  lemma FreshBaselineIff(sources: map<string, string>, order: seq<string>, banner: seq<string>, version: string)
    requires forall rel :: rel in sources ==> Unbroken(rel) && Strip(rel) == rel
    requires Lists(order, BuildSnapshot(sources)) && Banner(banner) && Unbroken(version)
    ensures var snap := BuildSnapshot(sources);
      ParseLines(START, SplitLines(Render(snap, order, banner, version))).snap == snap <==>
        forall rel, k :: rel in sources && 0 <= k < |Skeleton(sources[rel])| ==> !Misread(Skeleton(sources[rel])[k])
  {
    var snap := BuildSnapshot(sources);
    forall rel | rel in sources
      ensures forall k :: 0 <= k < |snap[rel]| ==> Unbroken(snap[rel][k])
    {
      SkeletonIsUnbroken(sources[rel]);
    }
    hide Unbroken, Strip, Skeleton, Misread, Render, SplitLines, ParseLines, Lists, Banner;
    assert Writable(snap);
    RoundTripIff(snap, order, banner, version);
    assert forall rel :: rel in sources ==> snap[rel] == Skeleton(sources[rel]);
    if Storable(snap) {
      forall rel, k | rel in sources && 0 <= k < |Skeleton(sources[rel])|
        ensures !Misread(Skeleton(sources[rel])[k])
      {
        assert SectionLines(snap[rel]);
      }
    }
  }

  /** A baseline written from the headers and read back is the snapshot itself, so the gate is
      clean, whenever no header line ends inside a literal and no skeleton line looks like a header
      mark. */
  lemma FreshBaselineIsClean(sources: map<string, string>, order: seq<string>, banner: seq<string>, version: string)
    requires forall rel :: rel in sources ==> Unbroken(rel) && Strip(rel) == rel && LiteralsClosed(sources[rel], Code)
    requires forall rel, k :: rel in sources && 0 <= k < |Skeleton(sources[rel])| ==> !(MARK <= Skeleton(sources[rel])[k])
    requires Lists(order, BuildSnapshot(sources)) && Banner(banner) && Unbroken(version)
    ensures var snap := BuildSnapshot(sources);
      var parsed := ParseLines(START, SplitLines(Render(snap, order, banner, version))).snap;
      parsed == snap && SameSurface(parsed, snap)
  {
    var snap := BuildSnapshot(sources);
    assert Storable(snap) by {
      hide PlainLine, Unbroken, Strip, LiteralsClosed, Skeleton, Misread;
      forall rel | rel in sources
        ensures forall k :: 0 <= k < |snap[rel]| ==> Unbroken(snap[rel][k]) && !Misread(snap[rel][k])
      {
        SkeletonIsPlain(sources[rel]);
        PlainIsRead(snap[rel]);
      }
    }
    hide Storable, Skeleton, Render, SplitLines, ParseLines, Lists, Banner, Unbroken;
    RenderRoundTrip(snap, order, banner, version);
  }

  lemma PlainIsRead(lines: seq<string>)
    requires forall k :: 0 <= k < |lines| ==> PlainLine(lines[k]) && !(MARK <= lines[k])
    ensures forall k :: 0 <= k < |lines| ==> Unbroken(lines[k]) && !Misread(lines[k])
  {
    hide Unbroken;
  }

  // ---------- Two limits of the gate ----------

  /** Copies are not counted: a last parameter line and the same line with the closing parenthesis
      have one comma form, and a single added line with it excuses both. */
  lemma {:induction false} OneCommaExcusesTwo(x: string, y: string, lines: seq<string>, defaulted: string -> bool)
    requires PlainEnds(x) && PlainEnds(y) && y[0] !in "})" + "{" && defaulted(y) && lines == [x, x + ");"]
    ensures Pairing(lines, {CommaForm(x), y}, {}, defaulted) == ([], lines)
  {
    var z, added, comma := x + ");", {CommaForm(x), y}, CommaForm(x);
    PlainLines(x, y);
    NotCloser(y);
    assert ParamShaped(x, y) && ParamShaped(z, y);
    hide CommaForm, StripCloseParen, Indent, Closer, EndsWith;
    assert forall a :: a in added && a != comma ==> a == y;
    assert !ParamShaped(x, comma) && !ParamShaped(z, comma);
    assert Shaped(x, added, {}) == {y} && Shaped(z, added, {comma}) == {y};
    hide Shaped;
    PairTwo(x, z, added, comma, defaulted);
  }

  /** A line that starts with no blank and ends with neither a blank, a comma nor a semicolon. */
  predicate PlainEnds(s: string)
  {
    s != "" && !IsSpace(s[0]) && !IsSpace(s[|s| - 1]) && s[|s| - 1] != ',' && s[|s| - 1] != ';'
  }

  lemma {:induction false} PlainLines(x: string, y: string)
    requires PlainEnds(x) && PlainEnds(y)
    ensures var z := x + ");";
      && StripCloseParen(x) == x && StripCloseParen(y) == y && StripCloseParen(z) == x
      && CommaForm(x) == CommaForm(z) != y && Indent(x) == Indent(z) == ""
      && !EndsWith(x, ",")
  {
    var z := x + ");";
    assert z[|z| - 2..] == ");" && z[..|z| - 2] == x && z[|z| - 1] == ';';
    assert StripRight(z) == z && StripRight(x) == x && StripRight(y) == y;
    assert StripCommas(x) == x && CommaForm(x) == x + ",";
    NoIndent(x);
    NoIndent(z);
    hide IsSpace;
    assert (x + ",")[|x|] == ',';
  }

  lemma PairTwo(x: string, z: string, added: set<string>, comma: string, defaulted: string -> bool)
    requires Excuses(x, added, {}, defaulted) && CommaForm(x) == comma && Excuses(z, added, {comma}, defaulted)
    ensures Pairing([x, z], added, {}, defaulted) == ([], [x, z])
  {
    hide Excuses, CommaForm;
    var tail: seq<string> := [x, z][1..];
    assert tail == [z];
    var none: seq<string> := [z][1..];
    assert none == [];
    assert Pairing(none, added, {comma} + {CommaForm(z)}, defaulted) == ([], []);
    assert [z] + [] == [z] && [x] + [z] == [x, z];
    assert Pairing([z], added, {comma}, defaulted).0 == [];
    assert Pairing([z], added, {comma}, defaulted).1 == [z] + [];
    assert {} + {comma} == {comma};
    assert Pairing([x, z], added, {}, defaulted).0 == Pairing(tail, added, {comma}, defaulted).0;
    assert Pairing([x, z], added, {}, defaulted).1 == [x] + Pairing(tail, added, {comma}, defaulted).1;
  }

  lemma NoIndent(s: string)
    requires s != "" && !IsSpace(s[0])
    ensures Indent(s) == ""
  {
    assert StripLeft(s) == s;
  }

  lemma NotCloser(s: string)
    requires s != "" && !IsSpace(s[0]) && s[0] !in "})" + "{"
    ensures !Closer(s)
  {
    assert StripLeft(s) == s;
    StripRightIsPrefix(s);
    hide StripLeft, StripRight;
  }

  /** The condition of FreshBaselineIsClean is needed, although a comment in the tool says skeleton
      lines can never start with two slashes: one odd apostrophe and the next line, a comment, is
      read as part of a literal, kept, written to the baseline, and not read back. */
  lemma OddApostropheExample(banner: seq<string>, version: string)
    requires Banner(banner) && Unbroken(version)
    ensures var snap := BuildSnapshot(map["a.h" := "'\n//"]);
      && !LiteralsClosed("'\n//", Code) && snap == map["a.h" := ["'", "//"]]
      && Lists(["a.h"], snap)
      && ParseLines(START, SplitLines(Render(snap, ["a.h"], banner, version))).snap != snap
  {
    var snap := BuildSnapshot(map["a.h" := "'\n//"]);
    OddLexed();
    OddSkeleton();
    hide Skeleton, SplitLines, ParseLines, Render, LiteralsClosed, Unbroken, Banner, Writable, Storable;
    assert snap == map["a.h" := ["'", "//"]];
    hide BuildSnapshot;
    OddSnapshot(snap);
    RoundTripIff(snap, ["a.h"], banner, version);
  }

  lemma OddLexed()
    ensures StripComments("'\n//", Code) == "'\n//" && !LiteralsClosed("'\n//", Code)
  {
    var q := Quoted('\'');
    var s := "'\n//";
    assert s[..1] == "'" && s[1..] == "\n//" && "\n//"[..1] == "\n" && "\n//"[1..] == "//";
    assert "//"[..1] == "/" && "//"[1..] == "/" && "/"[1..] == "" && "/"[..1] == "/";
    assert StripComments("", q) == "";
    assert Emit("/", q) == ("/", q) && StripComments("/", q) == "/";
    assert Emit("//", q) == ("/", q) && StripComments("//", q) == "//";
    assert Emit("\n//", q) == ("\n", q) && StripComments("\n//", q) == "\n//";
    assert Emit(s, Code) == ("'", q);
    assert IsBreak("\n"[0]);
    assert !LiteralsClosed("\n//", q);
  }

  lemma OddBodies()
    ensures StripBodies("'\n//", 0) == "'\n//"
  {
    var s := "'\n//";
    assert LiteralEnd(s, 4, '\'') == 4;
    assert LiteralEnd(s, 3, '\'') == 4;
    assert LiteralEnd(s, 2, '\'') == 4;
    assert LiteralEnd(s, 1, '\'') == 4;
    hide LiteralEnd;
    assert s[0..4] == s && StripBodies(s, 4) == [];
    assert StripBodies(s, 0) == s[0..4] + StripBodies(s, 4);
  }

  lemma OddSkeleton()
    ensures Skeleton("'\n//") == ["'", "//"]
  {
    OddLexed();
    OddBodies();
    OddLines();
    OddNormal();
    hide StripComments, StripBodies, SplitLines, Normalize, LiteralsClosed;
    KeepTwo("'", "//");
  }

  lemma KeepTwo(a: string, b: string)
    requires Normalize(a) == a != [] && Normalize(b) == b != []
    ensures KeepLines([a, b]) == [a, b]
  {
    hide Normalize;
    var tail: seq<string> := [a, b][1..];
    assert tail == [b];
    var none: seq<string> := [b][1..];
    assert none == [] && KeepLines(none) == [];
    assert KeepLines([b]) == [b];
  }

  lemma OddLines()
    ensures SplitLines("'\n//") == ["'", "//"]
  {
    var s := "'\n//";
    assert s[1..] == "\n//" && LineLength("\n//") == 0 && LineLength(s) == 1;
    assert s[1..][0] == '\n' && BreakLength(s[1..]) == 1 && s[2..] == "//" && s[..1] == "'";
    assert "//"[1..] == "/" && "/"[1..] == "";
    assert LineLength("") == 0 && LineLength("/") == 1 && LineLength("//") == 2;
    assert SplitLines("//") == ["//"];
  }

  lemma OddNormal()
    ensures Normalize("'") == "'" && Normalize("//") == "//"
  {
    assert "'"[1..] == "" && Collapse("") == "" && Collapse("'") == "'";
    assert "//"[1..] == "/" && "/"[1..] == "";
    assert Collapse("/") == "/" && Collapse("//") == "//";
  }

  lemma OddSnapshot(snap: Snapshot)
    requires snap == map["a.h" := ["'", "//"]]
    ensures Writable(snap) && Lists(["a.h"], snap) && !Storable(snap)
  {
    assert StripLeft("a.h") == "a.h" && StripRight("a.h") == "a.h";
    assert Misread(snap["a.h"][1]);
  }

  // ---------- What a line looks like to the gate ----------

  ghost predicate Blank(s: string) { forall i :: 0 <= i < |s| ==> IsSpace(s[i]) }

  /** `k` leading blanks, then the end or something else. */
  ghost predicate Starts(line: string, k: nat) { k <= |line| && Blank(line[..k]) && (k < |line| ==> !IsSpace(line[k])) }

  lemma {:induction false} StripLeftAt(line: string, k: nat)
    requires Starts(line, k)
    ensures StripLeft(line) == line[k..]
  {
    if k > 0 {
      var rest := line[1..];
      assert line[0] == line[..k][0];
      assert Starts(rest, k - 1) by {
        hide IsSpace;
        var all, less := line[..k], rest[..k - 1];
        assert forall i :: 0 <= i < |less| ==> less[i] == all[i + 1];
      }
      hide IsSpace, Starts;
      StripLeftAt(rest, k - 1);
      assert rest[k - 1..] == line[k..];
    } else {
      assert line[0..] == line;
    }
  }

  lemma {:induction false} StripRightStarts(s: string)
    requires s != "" && !IsSpace(s[0])
    ensures StripRight(s) != "" && StripRight(s)[0] == s[0]
  {
    if IsSpace(s[|s| - 1]) { StripRightStarts(s[..|s| - 1]); }
  }

  lemma {:induction false} StripRightOf(x: string, end: string)
    requires x != "" && !IsSpace(x[|x| - 1]) && Blank(end)
    ensures StripRight(x + end) == x
  {
    if end == "" {
      assert x + end == x;
    } else {
      var n := |end| - 1;
      assert (x + end)[..|x + end| - 1] == x + end[..n];
      assert IsSpace(end[n]);
      StripRightOf(x, end[..n]);
    }
  }

  /** Which added lines count as parameters beside `r`: those other than its comma form that start with
      the blanks `r` starts with and whose first character after blanks is no closing or opening
      bracket. */
  lemma {:induction false} ParamShapedIff(r: string, a: string, k: nat, n: nat)
    requires Starts(r, k) && Starts(a, n)
    ensures ParamShaped(r, a) <==> a != CommaForm(r) && r[..k] <= a && (n < |a| ==> a[n] != '}' && a[n] != ')' && a[n] != '{')
  {
    StripLeftAt(r, k);
    StripLeftAt(a, n);
    hide CommaForm, IsSpace, StripLeft, Starts;
    assert Indent(r) == r[..k];
    assert Closer(a) <==> n < |a| && a[n] in "})" + "{" by {
      if n < |a| { FirstStays(a, n); } else { NothingLeft(); assert a[n..] == ""; }
    }
  }

  lemma FirstStays(a: string, n: nat)
    requires n < |a| && Starts(a, n)
    ensures StripRight(a[n..]) != "" && StripRight(a[n..])[0] == a[n]
  {
    StripRightStarts(a[n..]);
  }

  lemma NothingLeft()
    ensures StripRight("") == ""
  {
  }

  /** The comma form of a parameter line, with the closing parenthesis on it or not, is the line up to
      there with one comma. */
  lemma {:induction false} CommaFormIs(core: string, gap: string, end: string)
    requires core != "" && !IsSpace(core[|core| - 1]) && core[|core| - 1] != ',' && Blank(gap) && Blank(end)
    ensures CommaForm(core + gap + ");" + end) == core + ","
    ensures !EndsWith(core, ");") ==> CommaForm(core + end) == core + ","
  {
    var open := core + gap + ");";
    assert open[|open| - 1] == ';' && open[|open| - 2..] == ");" && open[..|open| - 2] == core + gap;
    assert !IsSpace(';');
    hide IsSpace;
    StripRightOf(open, end);
    StripRightOf(core, gap);
    StripRightOf(core, end);
    assert Blank("") && core + "" == core;
    StripRightOf(core, "");
    hide StripRight, Blank;
    assert StripCommas(core) == core;
  }
}
