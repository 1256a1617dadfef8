/** The baseline file: a snapshot of header skeletons rendered as text and parsed back. */
module ApiBaseline {
  import opened ApiSkeleton

  type Snapshot = map<string, seq<string>>

  const MARK := "=== "

  const VERSION := "// version:"

  /** The fixed comment lines above the version line: comments, and not version lines. */
  ghost predicate Banner(lines: seq<string>)
  {
    forall k :: 0 <= k < |lines| ==> Unbroken(lines[k]) && "//" <= lines[k] && !(VERSION <= lines[k])
  }

  /** The headers in the order they are written: each once. */
  ghost predicate Lists(order: seq<string>, snap: Snapshot)
  {
    && (forall i, j :: 0 <= i < j < |order| ==> order[i] != order[j])
    && (forall rel :: rel in order <==> rel in snap)
  }

  function Sections(snap: Snapshot, order: seq<string>): (lines: seq<string>)
    requires forall rel :: rel in order ==> rel in snap
  {
    if order == [] then []
    else [MARK + order[0]] + snap[order[0]] + Sections(snap, order[1..])
  }

  function Join(lines: seq<string>): (text: string) { if lines == [] then [] else lines[0] + "\n" + Join(lines[1..]) }

  function VersionLine(version: string): (line: string) { VERSION + " " + version }

  function Render(snap: Snapshot, order: seq<string>, banner: seq<string>, version: string): (text: string)
    requires forall rel :: rel in order ==> rel in snap
  {
    Join(banner + [VersionLine(version)] + Sections(snap, order))
  }

  // ---------- parse_baseline ----------

  /** `current` is the header whose list is being filled; before the first one it is a list that
      nothing refers to. */
  datatype Parse = Parse(snap: Snapshot, version: string, named: bool, current: string)

  const START := Parse(map[], "", false, "")

  function ParseLine(p: Parse, line: string): (r: Parse)
    requires p.named ==> p.current in p.snap
    ensures r.named ==> r.current in r.snap
  {
    if VERSION <= line then p.(version := Strip(line[|VERSION|..]))
    else if "//" <= line then p
    else if MARK <= line then
      var rel := Strip(line[|MARK|..]);
      p.(snap := if rel in p.snap then p.snap else p.snap[rel := []], named := true, current := rel)
    else if !p.named then p
    else p.(snap := p.snap[p.current := p.snap[p.current] + [line]])
  }

  function ParseLines(p: Parse, lines: seq<string>): (r: Parse)
    requires p.named ==> p.current in p.snap
    ensures r.named ==> r.current in r.snap
    decreases |lines|
  {
    if lines == [] then p else ParseLines(ParseLine(p, lines[0]), lines[1..])
  }

  method ParseBaseline(text: string) returns (snap: Snapshot, version: string)
    ensures var p := ParseLines(START, SplitLines(text)); snap == p.snap && version == p.version
  {
    var lines := SplitLines(text);
    var named, current := false, "";
    snap, version := map[], "";
    assert lines[0..] == lines;
    for k := 0 to |lines|
      invariant named ==> current in snap
      invariant ParseLines(Parse(snap, version, named, current), lines[k..]) == ParseLines(START, lines)
    {
      hide SplitLines, Strip;
      ghost var p := Parse(snap, version, named, current);
      var line := lines[k];
      assert lines[k..][0] == line && lines[k..][1..] == lines[k + 1..];
      if VERSION <= line {
        version := Strip(line[|VERSION|..]);
      } else if "//" <= line {
      } else if MARK <= line {
        current, named := Strip(line[|MARK|..]), true;
        if current !in snap { snap := snap[current := []]; }
      } else if named {
        snap := snap[current := snap[current] + [line]];
      }
      assert Parse(snap, version, named, current) == ParseLine(p, line);
    }
    assert lines[|lines|..] == [];
  }

  // ---------- The round trip ----------

  /** Header names without breaks or outer blanks, and lines without breaks. */
  ghost predicate Writable(snap: Snapshot)
  {
    && (forall rel :: rel in snap ==> Unbroken(rel) && Strip(rel) == rel)
    && (forall rel, k :: rel in snap && 0 <= k < |snap[rel]| ==> Unbroken(snap[rel][k]))
  }

  /** A line the parser would not read as a line: a comment or a header mark. */
  predicate Misread(line: string) { "//" <= line || MARK <= line }

  ghost predicate SectionLines(lines: seq<string>) { forall k :: 0 <= k < |lines| ==> !Misread(lines[k]) }

  ghost predicate Storable(snap: Snapshot) { Writable(snap) && forall rel :: rel in snap ==> SectionLines(snap[rel]) }

  lemma {:induction false} LineLengthOf(line: string, rest: string)
    requires Unbroken(line)
    ensures LineLength(line + "\n" + rest) == |line|
  {
    var t := line + "\n" + rest;
    if line != [] {
      assert t[1..] == line[1..] + "\n" + rest;
      LineLengthOf(line[1..], rest);
    }
  }

  /** Lines without breaks survive joining and splitting. */
  lemma {:induction false} SplitOfJoin(lines: seq<string>)
    requires forall k :: 0 <= k < |lines| ==> Unbroken(lines[k])
    ensures SplitLines(Join(lines)) == lines
  {
    if lines != [] {
      SplitOfJoin(lines[1..]);
      SplitFirst(lines[0], Join(lines[1..]));
    }
  }

  lemma SplitFirst(line: string, rest: string)
    requires Unbroken(line)
    ensures SplitLines(line + "\n" + rest) == [line] + SplitLines(rest)
  {
    var t, n := line + "\n" + rest, |line|;
    LineLengthOf(line, rest);
    hide LineLength, Unbroken;
    assert t[n..][0] == '\n';
    assert t[..n] == line;
    assert t[n + 1..] == rest;
  }

  lemma {:induction false} ParseConcat(p: Parse, a: seq<string>, b: seq<string>)
    requires p.named ==> p.current in p.snap
    ensures ParseLines(p, a + b) == ParseLines(ParseLines(p, a), b)
    decreases |a|
  {
    hide ParseLine;
    if a == [] {
      assert a + b == b;
    } else {
      assert (a + b)[1..] == a[1..] + b;
      ParseConcat(ParseLine(p, a[0]), a[1..], b);
    }
  }

  lemma {:induction false} ParseSection(p: Parse, lines: seq<string>)
    requires p.named && p.current in p.snap
    requires SectionLines(lines)
    ensures ParseLines(p, lines) == p.(snap := p.snap[p.current := p.snap[p.current] + lines])
    decreases |lines|
  {
    if lines == [] {
      assert p.snap[p.current] + lines == p.snap[p.current];
    } else {
      var q := ParseLine(p, lines[0]);
      assert !(VERSION <= lines[0]) by { assert VERSION[..2] == "//"; }
      ParseSection(q, lines[1..]);
      assert p.snap[p.current] + [lines[0]] + lines[1..] == p.snap[p.current] + lines;
    }
  }

  lemma OneSection(p: Parse, rel: string, lines: seq<string>)
    requires (p.named ==> p.current in p.snap) && rel !in p.snap && Strip(rel) == rel && SectionLines(lines)
    ensures ParseLines(p, [MARK + rel] + lines) == Parse(p.snap[rel := lines], p.version, true, rel)
  {
    var head, q := [MARK + rel], Parse(p.snap[rel := []], p.version, true, rel);
    HeaderLine(p, rel);
    hide Strip, ParseLine;
    assert head[1..] == [];
    ParseSection(q, lines);
    ParseConcat(p, head, lines);
    assert [] + lines == lines;
    assert q.snap[rel := lines] == p.snap[rel := lines];
  }

  lemma StorableSection(snap: Snapshot, rel: string)
    requires Storable(snap) && rel in snap
    ensures Strip(rel) == rel && SectionLines(snap[rel])
  {
    hide Strip, Unbroken;
  }

  lemma {:induction false} ParseSections(p: Parse, snap: Snapshot, order: seq<string>)
    requires Storable(snap) && (p.named ==> p.current in p.snap)
    requires forall rel :: rel in order ==> rel in snap && rel !in p.snap
    requires forall i, j :: 0 <= i < j < |order| ==> order[i] != order[j]
    ensures var r := ParseLines(p, Sections(snap, order));
      && r.version == p.version
      && r.snap == p.snap + map rel | rel in order :: snap[rel]
    decreases |order|
  {
    hide Storable, ParseLines, SectionLines, Strip;
    if order == [] {
      NothingToParse(p);
    } else {
      var rel, rest := order[0], order[1..];
      var q := Parse(p.snap[rel := snap[rel]], p.version, true, rel);
      StorableSection(snap, rel);
      OneSection(p, rel, snap[rel]);
      ParseSections(q, snap, rest);
      ParseConcat(p, [MARK + rel] + snap[rel], Sections(snap, rest));
      OneMoreHeader(p.snap, snap, order);
    }
  }

  lemma OneMoreHeader(done: Snapshot, snap: Snapshot, order: seq<string>)
    requires order != [] && forall rel :: rel in order ==> rel in snap
    requires order[0] !in order[1..]
    ensures done + (map r | r in order :: snap[r]) == done[order[0] := snap[order[0]]] + (map r | r in order[1..] :: snap[r])
  {
    var m, m' := map r | r in order :: snap[r], map r | r in order[1..] :: snap[r];
    assert m == m'[order[0] := snap[order[0]]];
  }

  lemma NothingToParse(p: Parse)
    requires p.named ==> p.current in p.snap
    ensures ParseLines(p, []) == p
  {
  }

  lemma HeaderLine(p: Parse, rel: string)
    requires (p.named ==> p.current in p.snap) && rel !in p.snap && Strip(rel) == rel
    ensures ParseLine(p, MARK + rel) == Parse(p.snap[rel := []], p.version, true, rel)
  {
    var line := MARK + rel;
    assert line[0] == '=' && line[..4] == MARK && line[4..] == rel;
    hide Strip;
    assert !(VERSION <= line) && !("//" <= line);
  }

  lemma {:induction false} SectionsUnbroken(snap: Snapshot, order: seq<string>)
    requires Writable(snap) && forall rel :: rel in order ==> rel in snap
    ensures forall k :: 0 <= k < |Sections(snap, order)| ==> Unbroken(Sections(snap, order)[k])
  {
    hide Strip, IsBreak;
    if order != [] {
      SectionsUnbroken(snap, order[1..]);
      assert forall k :: 0 <= k < |snap[order[0]]| ==> Unbroken(snap[order[0]][k]);
      HeaderUnbroken(order[0]);
      hide Unbroken;
    }
  }

  lemma HeaderUnbroken(rel: string)
    requires Unbroken(rel)
    ensures Unbroken(MARK + rel)
  {
  }

  lemma {:induction false} ParseBanner(p: Parse, lines: seq<string>)
    requires Banner(lines) && (p.named ==> p.current in p.snap)
    ensures ParseLines(p, lines) == p
    decreases |lines|
  {
    hide Unbroken, Strip;
    if lines != [] {
      assert ParseLine(p, lines[0]) == p;
      ParseBanner(p, lines[1..]);
    }
  }

  lemma ParseVersion(p: Parse, version: string)
    requires Unbroken(version) && (p.named ==> p.current in p.snap)
    ensures Unbroken(VersionLine(version))
    ensures ParseLines(p, [VersionLine(version)]) == p.(version := Strip(version))
  {
    var line := VersionLine(version);
    assert line[|VERSION|..] == " " + version;
    assert (" " + version)[1..] == version;
    assert StripLeft(" " + version) == StripLeft(version);
    hide StripRight;
    var tail: seq<string> := [line][1..];
    assert tail == [];
    assert ParseLine(p, line) == p.(version := Strip(version));
  }

  lemma RenderedLines(snap: Snapshot, order: seq<string>, banner: seq<string>, version: string)
    requires Writable(snap) && Lists(order, snap) && Banner(banner) && Unbroken(version)
    ensures SplitLines(Render(snap, order, banner, version)) == banner + [VersionLine(version)] + Sections(snap, order)
  {
    var lines := banner + [VersionLine(version)] + Sections(snap, order);
    SectionsUnbroken(snap, order);
    ParseVersion(START, version);
    hide Unbroken, Sections, Writable, VersionLine, SplitLines, Join, ParseLines;
    assert forall k :: 0 <= k < |lines| ==> Unbroken(lines[k]);
    SplitOfJoin(lines);
  }

  /** Rendering a storable snapshot, its headers in any order, and parsing the text gives it back,
      with the version. */
  lemma RenderRoundTrip(snap: Snapshot, order: seq<string>, banner: seq<string>, version: string)
    requires Storable(snap) && Lists(order, snap) && Banner(banner) && Unbroken(version)
    ensures var p := ParseLines(START, SplitLines(Render(snap, order, banner, version)));
      p.snap == snap && p.version == Strip(version)
  {
    var meta := banner + [VersionLine(version)];
    assert Writable(snap);
    hide Strip, ParseLines, SplitLines, Unbroken, Storable, Writable, Banner, VersionLine, Render, Sections;
    RenderedLines(snap, order, banner, version);
    ParseBanner(START, banner);
    ParseVersion(START, version);
    ParseConcat(START, banner, [VersionLine(version)]);
    ParseConcat(START, meta, Sections(snap, order));
    var q := START.(version := Strip(version));
    ParseSections(q, snap, order);
    WholeSnapshot(snap, order);
  }

  lemma WholeSnapshot(snap: Snapshot, order: seq<string>)
    requires Lists(order, snap)
    ensures map[] + (map rel | rel in order :: snap[rel]) == snap
  {
  }

  // ---------- Exactly those snapshots survive ----------

  /** The lines filed under the headers listed. */
  function Total(snap: Snapshot, order: seq<string>): (n: nat)
  {
    if order == [] then 0
    else (if order[0] in snap then |snap[order[0]]| else 0) + Total(snap, order[1..])
  }

  function Readable(lines: seq<string>): (n: nat)
  {
    if lines == [] then 0 else (if Misread(lines[0]) then 0 else 1) + Readable(lines[1..])
  }

  ghost predicate Distinct(order: seq<string>) { forall i, j :: 0 <= i < j < |order| ==> order[i] != order[j] }

  lemma {:induction false} TotalWith(snap: Snapshot, order: seq<string>, rel: string, lines: seq<string>)
    requires Distinct(order) && |lines| <= (if rel in snap then |snap[rel]| else 0) + 1
    ensures Total(snap[rel := lines], order) <= Total(snap, order) + 1
    ensures rel !in order || |lines| <= (if rel in snap then |snap[rel]| else 0) ==>
              Total(snap[rel := lines], order) <= Total(snap, order)
  {
    if order != [] {
      assert order[0] == rel ==> rel !in order[1..];
      TotalWith(snap, order[1..], rel, lines);
    }
  }

  lemma LineAddsOne(p: Parse, line: string, order: seq<string>)
    requires (p.named ==> p.current in p.snap) && Distinct(order)
    ensures Total(ParseLine(p, line).snap, order) <= Total(p.snap, order) + if Misread(line) then 0 else 1
  {
    assert VERSION <= line ==> "//" <= line by { assert VERSION[..2] == "//"; }
    TotalWith(p.snap, order, Strip(if MARK <= line then line[|MARK|..] else line), []);
    if p.named { TotalWith(p.snap, order, p.current, p.snap[p.current] + [line]); }
    hide Strip, Total, Distinct;
  }

  lemma {:induction false} LinesAddReadable(p: Parse, lines: seq<string>, order: seq<string>)
    requires (p.named ==> p.current in p.snap) && Distinct(order)
    ensures Total(ParseLines(p, lines).snap, order) <= Total(p.snap, order) + Readable(lines)
    decreases |lines|
  {
    hide ParseLine, Total, Distinct, Misread;
    if lines != [] {
      LineAddsOne(p, lines[0], order);
      LinesAddReadable(ParseLine(p, lines[0]), lines[1..], order);
    }
  }

  lemma {:induction false} ReadableConcat(a: seq<string>, b: seq<string>)
    ensures Readable(a + b) == Readable(a) + Readable(b)
  {
    if a == [] {
      assert a + b == b;
    } else {
      assert (a + b)[1..] == a[1..] + b;
      ReadableConcat(a[1..], b);
    }
  }

  lemma {:induction false} ReadableAtMost(lines: seq<string>)
    ensures Readable(lines) <= |lines|
    ensures Readable(lines) == |lines| ==> SectionLines(lines)
  {
    hide Misread;
    if lines != [] { ReadableAtMost(lines[1..]); }
  }

  lemma {:induction false} SectionsReadable(snap: Snapshot, order: seq<string>)
    requires forall rel :: rel in order ==> rel in snap
    ensures Readable(Sections(snap, order)) <= Total(snap, order)
    ensures Readable(Sections(snap, order)) == Total(snap, order) ==> forall rel :: rel in order ==> SectionLines(snap[rel])
  {
    if order != [] {
      var head, lines, rest := [MARK + order[0]], snap[order[0]], Sections(snap, order[1..]);
      SectionsReadable(snap, order[1..]);
      ReadableConcat(head, lines);
      ReadableConcat(head + lines, rest);
      ReadableAtMost(lines);
      assert Readable(head) == 0;
      hide Readable, SectionLines, Misread;
    }
  }

  lemma {:induction false} MetaUnreadable(lines: seq<string>)
    requires forall k :: 0 <= k < |lines| ==> "//" <= lines[k]
    ensures Readable(lines) == 0
  {
    if lines != [] { MetaUnreadable(lines[1..]); }
  }

  /** A writable snapshot survives rendering and parsing exactly when no line of it starts like a
      comment or a header mark. */
  lemma RoundTripIff(snap: Snapshot, order: seq<string>, banner: seq<string>, version: string)
    requires Writable(snap) && Lists(order, snap) && Banner(banner) && Unbroken(version)
    ensures ParseLines(START, SplitLines(Render(snap, order, banner, version))).snap == snap <==> Storable(snap)
  {
    var meta, body := banner + [VersionLine(version)], Sections(snap, order);
    RenderedLines(snap, order, banner, version);
    assert VERSION[..2] == "//";
    assert forall k :: 0 <= k < |meta| ==> "//" <= meta[k];
    MetaUnreadable(meta);
    ReadableConcat(meta, body);
    SectionsReadable(snap, order);
    LinesAddReadable(START, meta + body, order);
    NoTotal(order);
    hide Render, Sections, ParseLines, SplitLines, Readable, Total, Writable, Banner, SectionLines, Unbroken;
    if Storable(snap) { RenderRoundTrip(snap, order, banner, version); }
  }

  lemma {:induction false} NoTotal(order: seq<string>)
    ensures Total(map[], order) == 0
  {
    if order != [] { NoTotal(order[1..]); }
  }
}
