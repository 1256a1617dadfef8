/** SchemaManager::migrate: one all-or-nothing pass over the migration files. */
module Migrations {
  import opened SqlSplitter
  import opened Options

  /** A file found by scanMigrationFiles; `content` is None when it cannot be opened. */
  datatype MigrationFile = MigrationFile(version: int, filename: string, content: Option<string>)

  datatype Record = Record(filename: string, checksum: string)

  /** The database: the tracking table and everything the migration statements act on. */
  datatype Db<D> = Db(hasTable: bool, recorded: map<int, Record>, schema: D)

  /** What lies outside the code: the effect of a statement (None when it is refused), the
      digest, and the failures of this run.  `dropped` numbers the statements that fail for
      reasons of their own, such as a lost connection. */
  datatype World<!D> = World(
    exec: (D, string) -> Option<D>,
    digest: string -> string,
    beginOk: bool,
    tableOk: bool,
    queryOk: bool,
    commitOk: bool,
    dropped: set<nat>)

  datatype Txn<D> = Txn(view: Db<D>, aborted: bool, sent: nat)

  // ---------- What a successful pass amounts to ----------

  predicate HasWork(f: MigrationFile) { f.content != Some("") }

  /** The files a pass executes: not yet recorded and not empty. */
  function Pending(files: seq<MigrationFile>, applied: set<int>): (p: seq<MigrationFile>)
  {
    if files == [] then []
    else if files[0].version !in applied && HasWork(files[0]) then [files[0]] + Pending(files[1..], applied)
    else Pending(files[1..], applied)
  }

  function ExecAll<D>(exec: (D, string) -> Option<D>, schema: D, statements: seq<string>): (r: Option<D>)
  {
    if statements == [] then Some(schema)
    else
      var next := exec(schema, statements[0]);
      if next.None? then None else ExecAll(exec, next.value, statements[1..])
  }

  /** Executing one file and recording it; None when anything on the way fails. */
  function ApplyFile<D>(w: World<D>, db: Db<D>, f: MigrationFile): (r: Option<Db<D>>)
  {
    if f.content.None? then None
    else
      var schema := ExecAll(w.exec, db.schema, Split(f.content.value));
      if schema.None? || f.version in db.recorded then None
      else Some(db.(
                schema := schema.value,
                recorded := db.recorded[f.version := Record(f.filename, w.digest(f.content.value))]))
  }

  function ApplyFiles<D>(w: World<D>, db: Db<D>, files: seq<MigrationFile>): (r: Option<Db<D>>)
    decreases |files|
  {
    if files == [] then Some(db)
    else
      var next := ApplyFile(w, db, files[0]);
      if next.None? then None else ApplyFiles(w, next.value, files[1..])
  }

  /** The statements of some files, in file order and in order within each file. */
  function Script(files: seq<MigrationFile>): (s: seq<string>)
    requires Readable(files)
  {
    if files == [] then [] else Split(files[0].content.value) + Script(files[1..])
  }

  /** Some statement is refused at its turn, those before it having been executed. */
  predicate Refuses<D>(exec: (D, string) -> Option<D>, schema: D, statements: seq<string>)
  {
    statements != [] &&
    var next := exec(schema, statements[0]);
    next.None? || Refuses(exec, next.value, statements[1..])
  }

  predicate Readable(files: seq<MigrationFile>) { forall i :: 0 <= i < |files| ==> files[i].content.Some? }

  predicate Ascending(files: seq<MigrationFile>)
  {
    forall i, j :: 0 <= i < j < |files| ==> files[i].version <= files[j].version
  }

  // ---------- The pass itself ----------

  class Database<D> {
    var db: Db<D>

    constructor (initial: Db<D>)
      ensures db == initial
    {
      db := initial;
    }

    /** applyMigration, on the caller's open transaction. */
    static method ApplyMigration(w: World<D>, t: Txn<D>, f: MigrationFile) returns (r: Txn<D>, ok: bool)
      ensures !HasWork(f) ==> r == t && ok
      ensures ok ==> r.aborted == t.aborted
      ensures r.view.hasTable == t.view.hasTable
      ensures HasWork(f) && !ok && !t.aborted && w.dropped == {} ==> ApplyFile(w, t.view, f).None?
      ensures HasWork(f) && ok ==> !t.aborted && !r.aborted && ApplyFile(w, t.view, f) == Some(r.view)
      ensures HasWork(f) && f.content.Some? && Refuses(w.exec, t.view.schema, Split(f.content.value)) ==> !ok
    {
      if f.content.None? {
        return t, false;
      }
      var sql := f.content.value;
      RefusedIsNone(w.exec, t.view.schema, Split(sql));
      if sql == "" {
        return t, true;
      }
      r := t;
      var statements := SplitSqlStatements(sql);
      var k := 0;
      assert statements[0..] == statements;
      while k < |statements|
        invariant 0 <= k <= |statements|
        invariant k > 0 ==> !t.aborted
        invariant r.aborted == t.aborted && r.view == t.view.(schema := r.view.schema)
        invariant ExecAll(w.exec, t.view.schema, statements) == ExecAll(w.exec, r.view.schema, statements[k..])
      {
        var next := w.exec(r.view.schema, statements[k]);
        if r.aborted || r.sent in w.dropped || next.None? {
          return r.(aborted := true), false;
        }
        assert statements[k..][1..] == statements[k + 1..];
        r := r.(view := r.view.(schema := next.value), sent := r.sent + 1);
        k := k + 1;
      }
      if r.aborted || r.sent in w.dropped || f.version in r.view.recorded {
        return r.(aborted := true), false;
      }
      var record := Record(f.filename, w.digest(sql));
      r := r.(view := r.view.(recorded := r.view.recorded[f.version := record]), sent := r.sent + 1);
      ok := true;
    }

    /** The whole pass runs in one transaction.  Failure changes nothing; success is exactly
        the pending non-empty files, applied in order; and without outside failures the pass
        succeeds whenever they can be applied. */
    method Migrate(w: World<D>, files: seq<MigrationFile>) returns (ok: bool)
      modifies this
      ensures !ok ==> db == old(db)
      ensures ok ==> db.hasTable
      ensures ok ==> ApplyFiles(w, old(db).(hasTable := true), Pending(files, old(db).recorded.Keys)) == Some(db)
      ensures w.beginOk && w.tableOk && w.queryOk && w.commitOk && w.dropped == {} && !ok ==>
                ApplyFiles(w, old(db).(hasTable := true), Pending(files, old(db).recorded.Keys)).None?
      ensures var p := Pending(files, old(db).recorded.Keys);
        Readable(p) && Refuses(w.exec, old(db).schema, Script(p)) ==> !ok && db == old(db)
    {
      RefusedPassFails(w, db.(hasTable := true), Pending(files, db.recorded.Keys));
      if files == [] {
        if w.tableOk { db := db.(hasTable := true); }
        return w.tableOk;
      }
      if !w.beginOk || !w.tableOk {
        return false;
      }
      hide *;
      var t := Txn(db.(hasTable := true), !w.queryOk, 1);
      var applied := if w.queryOk then t.view.recorded.Keys else {};
      ghost var start := t.view;
      var k := 0;
      assert files[0..] == files;
      while k < |files|
        invariant 0 <= k <= |files|
        invariant db == old(db)
        invariant t.view.hasTable && (t.aborted ==> !w.queryOk)
        invariant !t.aborted ==> applied == start.recorded.Keys
        invariant !t.aborted ==>
          ApplyFiles(w, start, Pending(files, applied)) == ApplyFiles(w, t.view, Pending(files[k..], applied))
      {
        ghost var view := t.view;
        if files[k].version !in applied {
          var ok';
          t, ok' := ApplyMigration(w, t, files[k]);
          if !ok' {
            PassFails(w, view, files, k, applied);
            return false;
          }
        }
        if !t.aborted {
          PassStep(w, view, t.view, files, k, applied);
        }
        k := k + 1;
      }
      if t.aborted || !w.commitOk {
        return false;
      }
      PassEnd(w, t.view, files[k..], applied);
      db := t.view;
      ok := true;
    }

    /** countPendingMigrations: -1 when the check itself fails. */
    method CountPending(w: World<D>, files: seq<MigrationFile>) returns (n: int)
      ensures !w.queryOk && files != [] ==> n == -1
      ensures w.queryOk || files == [] ==> n == |Unrecorded(files, if db.hasTable then db.recorded.Keys else {})|
    {
      if files == [] {
        return 0;
      }
      if !w.queryOk {
        return -1;
      }
      if !db.hasTable {
        AllUnrecorded(files);
        return |files|;
      }
      n := 0;
      var k := 0;
      ghost var keys := db.recorded.Keys;
      assert files[0..] == files;
      while k < |files|
        invariant 0 <= k <= |files|
        invariant n + |Unrecorded(files[k..], keys)| == |Unrecorded(files, keys)|
      {
        assert files[k..][1..] == files[k + 1..];
        if files[k].version !in db.recorded {
          n := n + 1;
        }
        k := k + 1;
      }
    }
  }

  /** One file of the pass: skipped when recorded or empty, applied otherwise. */
  lemma PassStep<D>(w: World<D>, view: Db<D>, next: Db<D>, files: seq<MigrationFile>, k: nat, applied: set<int>)
    requires k < |files|
    requires if files[k].version !in applied && HasWork(files[k]) then ApplyFile(w, view, files[k]) == Some(next)
             else next == view
    ensures ApplyFiles(w, view, Pending(files[k..], applied)) == ApplyFiles(w, next, Pending(files[k + 1..], applied))
  {
    hide ApplyFile;
    assert files[k..][1..] == files[k + 1..];
    var rest := Pending(files[k + 1..], applied);
    assert ([files[k]] + rest)[1..] == rest;
  }

  lemma PassFails<D>(w: World<D>, view: Db<D>, files: seq<MigrationFile>, k: nat, applied: set<int>)
    requires k < |files| && files[k].version !in applied
    ensures HasWork(files[k]) && ApplyFile(w, view, files[k]).None? ==>
              ApplyFiles(w, view, Pending(files[k..], applied)).None?
  {
    hide ApplyFile;
  }

  lemma PassEnd<D>(w: World<D>, view: Db<D>, files: seq<MigrationFile>, applied: set<int>)
    requires files == []
    ensures ApplyFiles(w, view, Pending(files, applied)) == Some(view)
  {
  }

  function Unrecorded(files: seq<MigrationFile>, applied: set<int>): (u: seq<MigrationFile>)
  {
    if files == [] then []
    else if files[0].version !in applied then [files[0]] + Unrecorded(files[1..], applied)
    else Unrecorded(files[1..], applied)
  }

  lemma {:induction false} AllUnrecorded(files: seq<MigrationFile>)
    ensures Unrecorded(files, {}) == files
  {
    if files != [] { AllUnrecorded(files[1..]); }
  }

  // ---------- Statement by statement ----------

  lemma {:induction false} RefusedIsNone<D>(exec: (D, string) -> Option<D>, schema: D, statements: seq<string>)
    ensures Refuses(exec, schema, statements) <==> ExecAll(exec, schema, statements).None?
  {
    if statements != [] {
      var next := exec(schema, statements[0]);
      if next.Some? { RefusedIsNone(exec, next.value, statements[1..]); }
    }
  }

  /** The schemas a script goes through: one link per statement, in order. */
  predicate Chain<D(==)>(exec: (D, string) -> Option<D>, statements: seq<string>, schemas: seq<D>)
  {
    && |schemas| == |statements| + 1
    && forall i :: 0 <= i < |statements| ==> exec(schemas[i], statements[i]) == Some(schemas[i + 1])
  }

  lemma {:induction false} ExecChain<D>(exec: (D, string) -> Option<D>, schema: D, statements: seq<string>) returns (schemas: seq<D>)
    requires ExecAll(exec, schema, statements).Some?
    ensures Chain(exec, statements, schemas) && schemas[0] == schema
    ensures ExecAll(exec, schema, statements) == Some(schemas[|statements|])
  {
    if statements == [] {
      schemas := [schema];
    } else {
      var rest := ExecChain(exec, exec(schema, statements[0]).value, statements[1..]);
      schemas := [schema] + rest;
      assert forall i :: 0 < i < |statements| ==> statements[i] == statements[1..][i - 1] && schemas[i] == rest[i - 1];
    }
  }

  /** A successful pass executed every statement of the pending files, in order, each on the schema
      the one before it left, from the schema before the pass to the one after. */
  lemma PassChain<D>(w: World<D>, before: Db<D>, files: seq<MigrationFile>, after: Db<D>) returns (schemas: seq<D>)
    requires ApplyFiles(w, before.(hasTable := true), Pending(files, before.recorded.Keys)) == Some(after)
    ensures var p := Pending(files, before.recorded.Keys);
      && Readable(p) && Chain(w.exec, Script(p), schemas)
      && schemas[0] == before.schema && schemas[|Script(p)|] == after.schema
  {
    var p := Pending(files, before.recorded.Keys);
    AppliedScript(w, before.(hasTable := true), p);
    hide *;
    schemas := ExecChain(w.exec, before.schema, Script(p));
  }

  /** A refused statement is where a chain that runs up to it cannot go on; there is only one chain. */
  lemma {:induction false} RefusedAt<D>(exec: (D, string) -> Option<D>, statements: seq<string>, k: nat, schemas: seq<D>)
    requires k < |statements| && Chain(exec, statements[..k], schemas) && exec(schemas[k], statements[k]).None?
    ensures Refuses(exec, schemas[0], statements)
    decreases k
  {
    if k > 0 {
      var rest, tail := schemas[1..], statements[1..];
      assert tail[..k - 1] == statements[..k][1..];
      assert exec(schemas[0], statements[0]) == Some(schemas[1]) by { assert statements[..k][0] == statements[0]; }
      assert forall i :: 0 <= i < k - 1 ==> exec(rest[i], tail[..k - 1][i]) == Some(rest[i + 1]) by {
        assert forall i :: 0 <= i < k - 1 ==> tail[..k - 1][i] == statements[..k][i + 1] && rest[i] == schemas[i + 1];
      }
      RefusedAt(exec, tail, k - 1, rest);
    }
  }

  lemma RefusedPassFails<D>(w: World<D>, db: Db<D>, p: seq<MigrationFile>)
    ensures Readable(p) && Refuses(w.exec, db.schema, Script(p)) ==> ApplyFiles(w, db, p).None?
  {
    if ApplyFiles(w, db, p).Some? {
      AppliedScript(w, db, p);
      hide ApplyFiles;
      RefusedIsNone(w.exec, db.schema, Script(p));
    }
  }

  // ---------- What success means ----------

  lemma {:induction false} ExecAllConcat<D>(exec: (D, string) -> Option<D>, schema: D, a: seq<string>, b: seq<string>)
    ensures ExecAll(exec, schema, a + b) ==
            var mid := ExecAll(exec, schema, a); if mid.None? then None else ExecAll(exec, mid.value, b)
  {
    if a == [] {
      assert a + b == b;
    } else {
      assert (a + b)[1..] == a[1..] + b;
      var next := exec(schema, a[0]);
      if next.Some? { ExecAllConcat(exec, next.value, a[1..], b); }
    }
  }

  /** Applying files runs their statements in order. */
  lemma {:induction false} AppliedScript<D>(w: World<D>, db: Db<D>, files: seq<MigrationFile>)
    requires ApplyFiles(w, db, files).Some?
    ensures Readable(files)
    ensures ExecAll(w.exec, db.schema, Script(files)) == Some(ApplyFiles(w, db, files).value.schema)
    decreases |files|
  {
    hide Split, ExecAll;
    if files == [] {
      assert ExecAll(w.exec, db.schema, []) == Some(db.schema) by { NoStatements(w.exec, db.schema); }
    } else {
      var f, rest := files[0], files[1..];
      AppliedScript(w, ApplyFile(w, db, f).value, rest);
      assert forall i :: 0 < i < |files| ==> files[i] == rest[i - 1];
      ExecAllConcat(w.exec, db.schema, Split(f.content.value), Script(rest));
    }
  }

  lemma NoStatements<D>(exec: (D, string) -> Option<D>, schema: D)
    ensures ExecAll(exec, schema, []) == Some(schema)
  {
  }

  /** What was recorded stays recorded. */
  lemma {:induction false} AppliedKeeps<D>(w: World<D>, db: Db<D>, files: seq<MigrationFile>)
    requires ApplyFiles(w, db, files).Some?
    ensures var after := ApplyFiles(w, db, files).value;
      && after.hasTable == db.hasTable
      && (forall v :: v in db.recorded ==> v in after.recorded && after.recorded[v] == db.recorded[v])
    decreases |files|
  {
    if files != [] {
      hide ApplyFile;
      FileApplied(w, db, files[0]);
      AppliedKeeps(w, ApplyFile(w, db, files[0]).value, files[1..]);
    }
  }

  /** Each applied file was readable and unrecorded, and is now recorded under its version. */
  lemma {:induction false} AppliedRecord<D>(w: World<D>, db: Db<D>, files: seq<MigrationFile>, i: nat)
    requires ApplyFiles(w, db, files).Some? && i < |files|
    ensures files[i].content.Some? && files[i].version !in db.recorded
    ensures var after := ApplyFiles(w, db, files).value;
      && files[i].version in after.recorded
      && after.recorded[files[i].version] == Record(files[i].filename, w.digest(files[i].content.value))
    decreases |files|
  {
    hide ApplyFile;
    FileApplied(w, db, files[0]);
    var next := ApplyFile(w, db, files[0]).value;
    if i == 0 {
      AppliedKeeps(w, next, files[1..]);
    } else {
      AppliedRecord(w, next, files[1..], i - 1);
    }
  }

  /** No version is recorded twice. */
  lemma {:induction false} AppliedDistinct<D>(w: World<D>, db: Db<D>, files: seq<MigrationFile>, i: nat, j: nat)
    requires i < j < |files|
    ensures ApplyFiles(w, db, files).Some? ==> files[i].version != files[j].version
    decreases |files|
  {
    hide ApplyFile;
    var first, rest := ApplyFile(w, db, files[0]), files[1..];
    if first.Some? && ApplyFiles(w, first.value, rest).Some? {
      FileApplied(w, db, files[0]);
      hide ApplyFiles;
      if i == 0 {
        AppliedRecord(w, first.value, rest, j - 1);
      } else {
        AppliedDistinct(w, first.value, rest, i - 1, j - 1);
      }
    }
  }

  /** Nothing else is recorded. */
  lemma {:induction false} AppliedOnly<D>(w: World<D>, db: Db<D>, files: seq<MigrationFile>, v: int)
    ensures ApplyFiles(w, db, files).Some? && v in ApplyFiles(w, db, files).value.recorded ==>
              v in db.recorded || exists f :: f in files && f.version == v
    decreases |files|
  {
    if ApplyFiles(w, db, files).None? { return; }
    if files != [] {
      hide ApplyFile;
      FileApplied(w, db, files[0]);
      AppliedOnly(w, ApplyFile(w, db, files[0]).value, files[1..], v);
    }
  }

  lemma FileApplied<D>(w: World<D>, db: Db<D>, f: MigrationFile)
    requires ApplyFile(w, db, f).Some?
    ensures f.content.Some? && f.version !in db.recorded
    ensures var after := ApplyFile(w, db, f).value;
      && after.hasTable == db.hasTable
      && after.recorded == db.recorded[f.version := Record(f.filename, w.digest(f.content.value))]
  {
    hide Split, ExecAll;
  }

  lemma {:induction false} PendingFacts(files: seq<MigrationFile>, applied: set<int>)
    ensures forall f :: f in Pending(files, applied) <==> f in files && f.version !in applied && HasWork(f)
  {
    if files != [] {
      PendingFacts(files[1..], applied);
      assert forall f :: f in files <==> f == files[0] || f in files[1..];
    }
  }

  lemma {:induction false} PendingAscending(files: seq<MigrationFile>, applied: set<int>)
    requires Ascending(files)
    ensures Ascending(Pending(files, applied))
  {
    if files != [] {
      PendingAscending(files[1..], applied);
      PendingFacts(files[1..], applied);
      var p := Pending(files[1..], applied);
      forall i | 0 <= i < |p|
        ensures files[0].version <= p[i].version
      {
        assert p[i] in files[1..];
        var j :| 0 <= j < |files[1..]| && files[1..][j] == p[i];
        assert files[j + 1] == p[i];
      }
    }
  }

  /** A successful pass over a sorted listing: exactly the old versions plus those of the
      non-empty pending files are recorded, and their statements ran in strictly ascending
      version order. */
  lemma SuccessfulPass<D>(w: World<D>, before: Db<D>, files: seq<MigrationFile>, after: Db<D>)
    requires Ascending(files)
    requires ApplyFiles(w, before.(hasTable := true), Pending(files, before.recorded.Keys)) == Some(after)
    ensures forall v :: v in after.recorded <==>
              v in before.recorded || exists f :: f in files && HasWork(f) && f.version == v
    ensures forall v :: v in before.recorded ==> v in after.recorded && after.recorded[v] == before.recorded[v]
    ensures var p := Pending(files, before.recorded.Keys);
      && (forall i :: 0 <= i < |p| ==> p[i].content.Some?)
      && (forall i, j :: 0 <= i < j < |p| ==> p[i].version < p[j].version)
      && ExecAll(w.exec, before.schema, Script(p)) == Some(after.schema)
  {
    hide ApplyFiles, Pending;
    var db, p := before.(hasTable := true), Pending(files, before.recorded.Keys);
    PendingFacts(files, before.recorded.Keys);
    PendingAscending(files, before.recorded.Keys);
    RecordedKeys(w, before, files, after);
    AppliedKeeps(w, db, p);
    AppliedScript(w, db, p);
    forall i, j | 0 <= i < j < |p|
      ensures p[i].version < p[j].version
    {
      AppliedDistinct(w, db, p, i, j);
    }
  }

  lemma RecordedKeys<D>(w: World<D>, before: Db<D>, files: seq<MigrationFile>, after: Db<D>)
    requires ApplyFiles(w, before.(hasTable := true), Pending(files, before.recorded.Keys)) == Some(after)
    ensures forall v :: v in after.recorded <==>
              v in before.recorded || exists f :: f in files && HasWork(f) && f.version == v
  {
    hide ApplyFiles, Pending;
    var db, p := before.(hasTable := true), Pending(files, before.recorded.Keys);
    PendingFacts(files, before.recorded.Keys);
    AppliedKeeps(w, db, p);
    forall f | f in p
      ensures f.version in after.recorded
    {
      var i :| 0 <= i < |p| && p[i] == f;
      AppliedRecord(w, db, p, i);
    }
    forall v | v in after.recorded
      ensures v in before.recorded || exists f :: f in files && HasWork(f) && f.version == v
    {
      AppliedOnly(w, db, p, v);
    }
    forall f | f in files && HasWork(f)
      ensures f.version in after.recorded
    {
      if f.version !in before.recorded { assert f in p; }
    }
  }

  lemma {:induction false} NothingPending(files: seq<MigrationFile>, applied: set<int>)
    requires forall f :: f in files && HasWork(f) ==> f.version in applied
    ensures Pending(files, applied) == []
  {
    if files != [] { NothingPending(files[1..], applied); }
  }

  lemma {:induction false} UnrecordedFacts(files: seq<MigrationFile>, applied: set<int>)
    ensures forall f :: f in Unrecorded(files, applied) <==> f in files && f.version !in applied
  {
    if files != [] {
      UnrecordedFacts(files[1..], applied);
      assert files == [files[0]] + files[1..];
    }
  }

  /** After a successful pass the same listing has nothing left to execute, so a second pass
      leaves the database as it is; what is still counted pending is an empty file. */
  lemma {:induction false} SecondPass<D>(w: World<D>, w': World<D>, before: Db<D>, files: seq<MigrationFile>, after: Db<D>)
    requires ApplyFiles(w, before.(hasTable := true), Pending(files, before.recorded.Keys)) == Some(after)
    ensures Pending(files, after.recorded.Keys) == []
    ensures ApplyFiles(w', after.(hasTable := true), Pending(files, after.recorded.Keys)) == Some(after)
    ensures forall f :: f in Unrecorded(files, after.recorded.Keys) <==>
                        f in files && f.content == Some("") && f.version !in after.recorded
  {
    RecordedKeys(w, before, files, after);
    AppliedKeeps(w, before.(hasTable := true), Pending(files, before.recorded.Keys));
    NothingPending(files, after.recorded.Keys);
    UnrecordedFacts(files, after.recorded.Keys);
  }
}
