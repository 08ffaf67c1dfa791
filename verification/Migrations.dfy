/**
 The migration runner. A schema is represented by the migrations whose statements have been
 committed, in commit order: any effect of the files on tables is a function of that list.
 */
module Migrations {
  import opened Wrappers
  import opened FileOrder

  datatype DirEntry = DirEntry(name: string, isDir: bool)

  /** Where a run can fail or the process can die while it handles one file. */
  datatype Stage = ReadFile | BeginTx | Exec | Record | CommitTx | AfterCommit

  /** What goes wrong in one run: the statements before the loop, and at most one stage for each file. */
  datatype Faults = Faults(createTable: bool, listApplied: bool, readDir: bool, files: map<string, Stage>)

  datatype MigrateError = CreateTableFailed | ListFailed | ReadDirFailed | FileFailed(name: string, stage: Stage)

  /** schema_migrations and the schema, as committed. */
  datatype Db = Db(applied: set<string>, log: seq<string>)

  function EmptyDb(): Db {
    Db({}, [])
  }

  predicate IsMigration(e: DirEntry) {
    !e.isDir && |e.name| >= 4 && e.name[|e.name| - 4..] == ".sql"
  }

  function MigrationNames(entries: seq<DirEntry>): seq<string> {
    if entries == [] then []
    else (if IsMigration(entries[0]) then [entries[0].name] else []) + MigrationNames(entries[1..])
  }

  function MigrationFiles(entries: seq<DirEntry>): seq<string> {
    SortNames(MigrationNames(entries))
  }

  /** The committed effect of one file's transaction. */
  function Commit(db: Db, name: string): Db {
    Db(db.applied + {name}, db.log + [name])
  }

  /** The loop over the sorted files; `skip` is what the run read from schema_migrations before it. */
  function ApplyPending(db: Db, files: seq<string>, skip: set<string>,
                                               faults: map<string, Stage>)
    : (Db, Result<(), MigrateError>)
    decreases |files|
  {
    if files == [] then (db, Ok(()))
    else
      var name := files[0];
      if name in skip then ApplyPending(db, files[1..], skip, faults)
      else if name in faults && !faults[name].AfterCommit? then (db, Err(FileFailed(name, faults[name])))
      else if name in db.applied then (db, Err(FileFailed(name, Record)))
      else if name in faults then (Commit(db, name), Err(FileFailed(name, AfterCommit)))
      else ApplyPending(Commit(db, name), files[1..], skip, faults)
  }

  function RunOnce(db: Db, entries: seq<DirEntry>, faults: Faults): (Db, Result<(), MigrateError>) {
    if faults.createTable then (db, Err(CreateTableFailed))
    else if faults.listApplied then (db, Err(ListFailed))
    else if faults.readDir then (db, Err(ReadDirFailed))
    else ApplyPending(db, MigrationFiles(entries), db.applied, faults.files)
  }

  /** The database the runner works on. */
  class Database {
    var applied: set<string>
    var log: seq<string>

    function View(): Db
      reads this
    {
      Db(applied, log)
    }

    constructor ()
      ensures View() == EmptyDb()
    {
      applied, log := {}, [];
    }

    method RunMigrations(entries: seq<DirEntry>, faults: Faults) returns (r: Result<(), MigrateError>)
      modifies this
      ensures (View(), r) == RunOnce(old(View()), entries, faults)
    {
      if faults.createTable {
        return Err(CreateTableFailed);
      }
      if faults.listApplied {
        return Err(ListFailed);
      }
      var appliedSet := applied;
      if faults.readDir {
        return Err(ReadDirFailed);
      }
      var files := CollectFiles(entries);
      var i := 0;
      while i < |files|
        invariant 0 <= i <= |files|
        invariant ApplyPending(View(), files[i..], appliedSet, faults.files)
               == ApplyPending(old(View()), files, appliedSet, faults.files)
      {
        var name := files[i];
        assert files[i..][1..] == files[i + 1..];
        if name !in appliedSet {
          r := Apply(name, if name in faults.files then Some(faults.files[name]) else None);
          if r.Err? {
            return;
          }
        }
        i := i + 1;
      }
      r := Ok(());
    }

    static method CollectFiles(entries: seq<DirEntry>) returns (files: seq<string>)
      ensures files == MigrationFiles(entries)
    {
      files := [];
      var i := 0;
      while i < |entries|
        invariant 0 <= i <= |entries|
        invariant files + MigrationNames(entries[i..]) == MigrationNames(entries)
      {
        assert entries[i..][1..] == entries[i + 1..];
        if IsMigration(entries[i]) {
          files := files + [entries[i].name];
        }
        i := i + 1;
      }
      assert files + [] == files;
      files := SortNames(files);
    }

    /** One file: its statements and its schema_migrations row commit together or not at all. */
    method Apply(name: string, fault: Option<Stage>) returns (r: Result<(), MigrateError>)
      modifies this
      ensures var before := old(View());
              (View(), r) ==
              if fault.Some? && !fault.value.AfterCommit? then (before, Err(FileFailed(name, fault.value)))
              else if name in before.applied then (before, Err(FileFailed(name, Record)))
              else (Commit(before, name), if fault.Some? then Err(FileFailed(name, AfterCommit)) else Ok(()))
    {
      if fault == Some(ReadFile) || fault == Some(BeginTx) || fault == Some(Exec) {
        return Err(FileFailed(name, fault.value));
      }
      var txLog := log + [name];
      if fault == Some(Record) || name in applied {
        return Err(FileFailed(name, if fault.Some? && !fault.value.AfterCommit? then fault.value else Record));
      }
      var txApplied := applied + {name};
      if fault == Some(CommitTx) {
        return Err(FileFailed(name, CommitTx));
      }
      applied, log := txApplied, txLog;
      if fault == Some(AfterCommit) {
        return Err(FileFailed(name, AfterCommit));
      }
      r := Ok(());
    }
  }

  // ---- Runs, failed or not, one after the other ----

  ghost predicate Consistent(db: Db) {
    db.applied == Elements(db.log) && Distinct(db.log)
  }

  /** The files a run still has to apply, in order. */
  function Pending(files: seq<string>, applied: set<string>): seq<string> {
    if files == [] then []
    else (if files[0] in applied then [] else [files[0]]) + Pending(files[1..], applied)
  }

  lemma CommitConsistent(db: Db, name: string)
    requires Consistent(db) && name !in db.applied
    ensures Consistent(Commit(db, name))
  {
    assert name !in db.log by {
      assert name in db.log <==> name in Elements(db.log);
    }
    assert Elements(db.log + [name]) == Elements(db.log) + {name};
  }

  /** One more committed file in front of the pending ones. */
  lemma CommittedFirst(log: seq<string>, name: string, after: seq<string>, pending: seq<string>)
    requires log + [name] <= after && after[|log| + 1..] <= pending
    ensures log <= after && after[|log|..] <= [name] + pending
    ensures after == log + [name] + pending ==> after == log + ([name] + pending)
  {
    assert after[..|log|] == (log + [name])[..|log|] == log;
    assert after[|log|] == (log + [name])[|log|];
    assert after[|log|..] == [name] + after[|log| + 1..];
  }

  lemma {:induction false} ApplyPendingMeaning(db: Db, files: seq<string>, skip: set<string>,
                                               faults: map<string, Stage>)
    requires Consistent(db) && Distinct(files)
    requires forall f | f in files :: f in skip <==> f in db.applied
    ensures var (after, r) := ApplyPending(db, files, skip, faults);
            && Consistent(after) && db.log <= after.log
            && after.log[|db.log|..] <= Pending(files, skip)
            && (r.Ok? ==> after.log == db.log + Pending(files, skip))
            && (faults == map[] ==> r.Ok?)
    decreases |files|
  {
    if files != [] {
      var name := files[0];
      var rest := files[1..];
      assert name in files;
      forall f | f in rest ensures f in files && f != name {
        var k :| 0 <= k < |rest| && rest[k] == f;
        assert files[k + 1] == f;
      }
      if name in skip {
        ApplyPendingMeaning(db, rest, skip, faults);
      } else if name in faults && !faults[name].AfterCommit? {
      } else {
        CommitConsistent(db, name);
        assert Pending(files, skip) == [name] + Pending(rest, skip);
        if name !in faults {
          var next := Commit(db, name);
          ApplyPendingMeaning(next, rest, skip, faults);
          CommittedFirst(db.log, name, ApplyPending(next, rest, skip, faults).0.log, Pending(rest, skip));
        }
      }
    }
  }

  /** The run stopped at the k-th pending file, by its fault; a lost answer leaves that file committed. */
  ghost predicate StopsAt(before: seq<string>, pending: seq<string>, faults: map<string, Stage>, k: int,
                          after: seq<string>, e: MigrateError) {
    && 0 <= k < |pending| && pending[k] in faults
    && (forall j | 0 <= j < k :: pending[j] !in faults)
    && e == FileFailed(pending[k], faults[pending[k]])
    && after == before + if faults[pending[k]].AfterCommit? then pending[..k + 1] else pending[..k]
  }

  lemma StopsLater(before: seq<string>, name: string, rest: seq<string>, faults: map<string, Stage>, k: int,
                   after: seq<string>, e: MigrateError)
    requires StopsAt(before + [name], rest, faults, k, after, e) && name !in faults
    ensures StopsAt(before, [name] + rest, faults, k + 1, after, e)
  {
    assert ([name] + rest)[..k + 1] == [name] + rest[..k];
    assert ([name] + rest)[..k + 2] == [name] + rest[..k + 1];
  }

  lemma {:induction false} ApplyPendingEnds(db: Db, files: seq<string>, skip: set<string>, faults: map<string, Stage>)
    requires Consistent(db) && Distinct(files)
    requires forall f | f in files :: f in skip <==> f in db.applied
    ensures var (after, r) := ApplyPending(db, files, skip, faults);
            var pending := Pending(files, skip);
            if r.Ok? then forall f | f in pending :: f !in faults
            else exists k :: StopsAt(db.log, pending, faults, k, after.log, r.error)
    decreases |files|
  {
    if files != [] {
      var (name, rest) := (files[0], files[1..]);
      assert name in files;
      forall f | f in rest ensures f in files && f != name {
        var k :| 0 <= k < |rest| && rest[k] == f;
        assert files[k + 1] == f;
      }
      var (after, r) := ApplyPending(db, files, skip, faults);
      if name in skip {
        ApplyPendingEnds(db, rest, skip, faults);
      } else if name in faults {
        assert StopsAt(db.log, Pending(files, skip), faults, 0, after.log, r.error);
      } else {
        CommitConsistent(db, name);
        ApplyPendingEnds(Commit(db, name), rest, skip, faults);
        if r.Err? {
          var k :| StopsAt(db.log + [name], Pending(rest, skip), faults, k, after.log, r.error);
          StopsLater(db.log, name, Pending(rest, skip), faults, k, after.log, r.error);
        }
      }
    }
  }

  /** The directory lists this name as a file, and it ends with ".sql". */
  ghost predicate IsSqlFile(entries: seq<DirEntry>, name: string) {
    (exists i | 0 <= i < |entries| :: entries[i].name == name && !entries[i].isDir)
    && exists stem :: name == stem + ".sql"
  }

  lemma {:induction false} NamesAreSqlFiles(entries: seq<DirEntry>, name: string)
    ensures name in MigrationNames(entries)
       <==> exists i | 0 <= i < |entries| :: entries[i].name == name && IsMigration(entries[i])
  {
    if entries != [] {
      NamesAreSqlFiles(entries[1..], name);
      if i :| 0 <= i < |entries| && entries[i].name == name && IsMigration(entries[i]) {
        assert i > 0 ==> entries[1..][i - 1] == entries[i];
      }
      if i :| 0 <= i < |entries[1..]| && entries[1..][i].name == name && IsMigration(entries[1..][i]) {
        assert entries[i + 1] == entries[1..][i];
      }
    }
  }

  lemma EndsWithSql(name: string)
    ensures (|name| >= 4 && name[|name| - 4..] == ".sql") <==> exists stem :: name == stem + ".sql"
  {
    if |name| >= 4 && name[|name| - 4..] == ".sql" {
      assert name == name[..|name| - 4] + ".sql";
    }
    if stem :| name == stem + ".sql" {
      assert name[|name| - 4..] == ".sql";
    }
  }

  /** A run looks at exactly the .sql files of the directory, each once, in lexicographic order. */
  lemma FilesAreSqlFiles(entries: seq<DirEntry>)
    requires Listing(entries)
    ensures var files := MigrationFiles(entries);
            Sorted(files) && Distinct(files) && forall name :: name in files <==> IsSqlFile(entries, name)
  {
    FilesSorted(entries);
    NamesDistinct(entries);
    SortedNames(MigrationNames(entries));
    forall name ensures name in MigrationFiles(entries) <==> IsSqlFile(entries, name) {
      assert name in MigrationFiles(entries) <==> name in Elements(MigrationFiles(entries));
      assert name in MigrationNames(entries) <==> name in Elements(MigrationNames(entries));
      NamesAreSqlFiles(entries, name);
      EndsWithSql(name);
    }
  }

  ghost predicate Listing(entries: seq<DirEntry>) {
    forall i, j | 0 <= i < j < |entries| :: entries[i].name != entries[j].name
  }

  lemma {:induction false} NameComesFromEntry(entries: seq<DirEntry>, name: string)
    requires name in MigrationNames(entries)
    ensures exists i :: 0 <= i < |entries| && entries[i].name == name
  {
    if IsMigration(entries[0]) && entries[0].name == name {
    } else {
      NameComesFromEntry(entries[1..], name);
      var i :| 0 <= i < |entries[1..]| && entries[1..][i].name == name;
      assert entries[i + 1].name == name;
    }
  }

  lemma {:induction false} NamesDistinct(entries: seq<DirEntry>)
    requires Listing(entries)
    ensures Distinct(MigrationNames(entries))
  {
    if entries != [] {
      var names := MigrationNames(entries[1..]);
      NamesDistinct(entries[1..]);
      forall k | 0 <= k < |names| ensures names[k] != entries[0].name {
        NameComesFromEntry(entries[1..], names[k]);
        var i :| 0 <= i < |entries[1..]| && entries[1..][i].name == names[k];
        assert entries[i + 1].name == names[k];
      }
    }
  }

  lemma {:induction false} SortedIsDistinct(files: seq<string>)
    requires Sorted(files)
    ensures Distinct(files)
  {
    forall i, j | 0 <= i < j < |files| ensures files[i] != files[j] {
      BeforeIrreflexive(files[i]);
    }
  }

  lemma FilesSorted(entries: seq<DirEntry>)
    requires Listing(entries)
    ensures Sorted(MigrationFiles(entries)) && Distinct(MigrationFiles(entries))
  {
    NamesDistinct(entries);
    SortedNames(MigrationNames(entries));
    SortedIsDistinct(MigrationFiles(entries));
  }

  /** A run commits a prefix of what is pending, in order, and all of it when it succeeds. */
  lemma RunMeaning(db: Db, entries: seq<DirEntry>, faults: Faults)
    requires Consistent(db) && Listing(entries)
    ensures var (after, r) := RunOnce(db, entries, faults);
            var pending := Pending(MigrationFiles(entries), db.applied);
            && Consistent(after) && db.log <= after.log
            && after.log[|db.log|..] <= pending
            && (r.Ok? ==> after.log == db.log + pending)
            && (faults == Faults(false, false, false, map[]) ==> r.Ok?)
  {
    FilesSorted(entries);
    ApplyPendingMeaning(db, MigrationFiles(entries), db.applied, faults.files);
  }

  /**
   Exactly when a run succeeds, and how it ends when it does not: before the loop with nothing
   changed, or at the first pending file that has a fault, after committing those before it.
   */
  lemma RunEnds(db: Db, entries: seq<DirEntry>, faults: Faults)
    requires Consistent(db) && Listing(entries)
    ensures var (after, r) := RunOnce(db, entries, faults);
            var pending := Pending(MigrationFiles(entries), db.applied);
            && (r.Ok? <==> && !faults.createTable && !faults.listApplied && !faults.readDir
                           && forall f | f in pending :: f !in faults.files)
            && (r.Err? && r.error.FileFailed? ==>
                  exists k :: StopsAt(db.log, pending, faults.files, k, after.log, r.error))
            && (r.Err? && !r.error.FileFailed? ==> after == db)
  {
    FilesSorted(entries);
    ApplyPendingEnds(db, MigrationFiles(entries), db.applied, faults.files);
  }

  /** Every applied name is still there, and every new name sorts after all of them. */
  ghost predicate OnlyAppends(applied: set<string>, files: seq<string>) {
    && (forall a | a in applied :: a in files)
    && forall a, f | a in applied && f in files && f !in applied :: Before(a, f)
  }

  lemma {:induction false} PendingMeaning(files: seq<string>, applied: set<string>)
    requires Sorted(files)
    ensures Sorted(Pending(files, applied))
    ensures Elements(Pending(files, applied)) == Elements(files) - applied
  {
    if files != [] {
      TailElements(files);
      PendingMeaning(files[1..], applied);
      assert files[0] in Elements(files);
      var rest := Pending(files[1..], applied);
      forall j | 0 <= j < |rest| ensures Before(files[0], rest[j]) {
        assert rest[j] in Elements(rest);
        var k :| 0 <= k < |files[1..]| && files[1..][k] == rest[j];
        assert files[k + 1] == rest[j];
      }
      assert Elements([files[0]] + rest) == {files[0]} + Elements(rest);
      assert Elements(files) == {files[0]} + Elements(files[1..]);
      assert Pending(files, applied) == if files[0] in applied then rest else [files[0]] + rest;
    }
  }

  /** What is applied, followed by what is pending, is the sorted file list exactly for appending file sets. */
  lemma InOrderIff(log: seq<string>, applied: set<string>, files: seq<string>)
    requires applied == Elements(log) && Sorted(files)
    ensures log + Pending(files, applied) == files <==> Sorted(log) && OnlyAppends(applied, files)
  {
    PendingMeaning(files, applied);
    var pending := Pending(files, applied);
    var all := log + pending;
    if all == files {
      forall i, j | 0 <= i < j < |log| ensures Before(log[i], log[j]) {
        assert log[i] == files[i] && log[j] == files[j];
      }
      AppendsFromOrder(log, applied, files);
    }
    if Sorted(log) && OnlyAppends(applied, files) {
      forall i, j | 0 <= i < j < |all| ensures Before(all[i], all[j]) {
        if i < |log| && j >= |log| {
          assert log[i] in Elements(log);
          assert pending[j - |log|] in Elements(pending);
        }
      }
      assert Elements(all) == Elements(log) + Elements(pending);
      forall a | a in applied ensures a in Elements(files) {}
      assert Elements(all) == Elements(files);
      SortedUnique(all, files);
    }
  }

  lemma AppendsFromOrder(log: seq<string>, applied: set<string>, files: seq<string>)
    requires applied == Elements(log) && Sorted(files) && log <= files
    ensures OnlyAppends(applied, files)
  {
    forall a | a in applied ensures a in files {
      var i :| 0 <= i < |log| && log[i] == a;
      assert files[i] == a;
    }
    forall a, f | a in applied && f in files && f !in applied ensures Before(a, f) {
      var i :| 0 <= i < |log| && log[i] == a;
      var j :| 0 <= j < |files| && files[j] == f;
      assert files[i] == a;
      assert forall k | 0 <= k < |log| :: log[k] in Elements(log) && files[k] == log[k];
    }
  }

  /**
   A successful run leaves the schema of a single clean run over its files exactly when the
   schema it started from was in order and the files only append to it.
   */
  lemma SuccessfulRunIsCleanIff(db: Db, entries: seq<DirEntry>, faults: Faults)
    requires Consistent(db) && Listing(entries) && RunOnce(db, entries, faults).1.Ok?
    ensures var clean := RunOnce(EmptyDb(), entries, Faults(false, false, false, map[]));
            && clean.1.Ok? && clean.0.log == MigrationFiles(entries)
            && (RunOnce(db, entries, faults).0 == clean.0
                <==> Sorted(db.log) && OnlyAppends(db.applied, MigrationFiles(entries)))
  {
    var files := MigrationFiles(entries);
    FilesSorted(entries);
    RunMeaning(EmptyDb(), entries, Faults(false, false, false, map[]));
    RunMeaning(db, entries, faults);
    InOrderIff([], {}, files);
    InOrderIff(db.log, db.applied, files);
  }

  datatype Attempt = Attempt(entries: seq<DirEntry>, faults: Faults)

  /** The database after a series of runs, whatever each of them returned. */
  function AfterAttempts(db: Db, attempts: seq<Attempt>): Db
    decreases |attempts|
  {
    if attempts == [] then db
    else AfterAttempts(RunOnce(db, attempts[0].entries, attempts[0].faults).0, attempts[1..])
  }

  /** Each run's file set only appends to what is applied when it starts. */
  ghost predicate AppendingAttempts(db: Db, attempts: seq<Attempt>)
    decreases |attempts|
  {
    attempts == []
    || (&& Listing(attempts[0].entries)
        && OnlyAppends(db.applied, MigrationFiles(attempts[0].entries))
        && AppendingAttempts(RunOnce(db, attempts[0].entries, attempts[0].faults).0, attempts[1..]))
  }

  lemma {:induction false} AttemptsStayInOrder(db: Db, attempts: seq<Attempt>)
    requires Consistent(db) && Sorted(db.log) && AppendingAttempts(db, attempts)
    ensures Consistent(AfterAttempts(db, attempts)) && Sorted(AfterAttempts(db, attempts).log)
    decreases |attempts|
  {
    if attempts != [] {
      RunStaysInOrder(db, attempts[0].entries, attempts[0].faults);
      AttemptsStayInOrder(RunOnce(db, attempts[0].entries, attempts[0].faults).0, attempts[1..]);
    }
  }

  lemma RunStaysInOrder(db: Db, entries: seq<DirEntry>, faults: Faults)
    requires Consistent(db) && Sorted(db.log) && Listing(entries)
    requires OnlyAppends(db.applied, MigrationFiles(entries))
    ensures var after := RunOnce(db, entries, faults).0;
            Consistent(after) && Sorted(after.log) && after.log <= MigrationFiles(entries)
  {
    var after := RunOnce(db, entries, faults).0;
    FilesSorted(entries);
    RunMeaning(db, entries, faults);
    InOrderIff(db.log, db.applied, MigrationFiles(entries));
    assert after.log == db.log + after.log[|db.log|..];
    SortedPrefix(after.log, MigrationFiles(entries));
  }

  /**
   Any series of failed, crashed or completed runs followed by a successful one leaves the
   database of a single clean run over the last file set, and one more run changes nothing.
   */
  lemma EventuallyClean(attempts: seq<Attempt>, entries: seq<DirEntry>, faults: Faults, more: Faults)
    requires AppendingAttempts(EmptyDb(), attempts) && Listing(entries)
    requires OnlyAppends(AfterAttempts(EmptyDb(), attempts).applied, MigrationFiles(entries))
    requires RunOnce(AfterAttempts(EmptyDb(), attempts), entries, faults).1.Ok?
    ensures var after := RunOnce(AfterAttempts(EmptyDb(), attempts), entries, faults).0;
            && after == RunOnce(EmptyDb(), entries, Faults(false, false, false, map[])).0
            && after.log == MigrationFiles(entries)
            && RunOnce(after, entries, more).0 == after
  {
    AttemptsStayInOrder(EmptyDb(), attempts);
    var db := AfterAttempts(EmptyDb(), attempts);
    SuccessfulRunIsCleanIff(db, entries, faults);
    RunMeaning(db, entries, faults);
    CompleteStays(RunOnce(db, entries, faults).0, entries, more);
  }

  lemma CompleteStays(db: Db, entries: seq<DirEntry>, faults: Faults)
    requires Consistent(db) && Listing(entries) && db.log == MigrationFiles(entries)
    ensures RunOnce(db, entries, faults).0 == db
  {
    FilesSorted(entries);
    NothingPending(db.log);
    RunMeaning(db, entries, faults);
    var after := RunOnce(db, entries, faults).0;
    assert after.log[|db.log|..] == [];
    assert after.log == db.log + after.log[|db.log|..];
  }

  lemma NothingPending(files: seq<string>)
    requires Sorted(files)
    ensures Pending(files, Elements(files)) == []
  {
    var left := Pending(files, Elements(files));
    assert left != [] ==> left[0] in Elements(left);
    PendingMeaning(files, Elements(files));
  }

  /** With one fixed file set, the condition on the series holds by itself. */
  lemma {:induction false} FixedFilesAppend(db: Db, attempts: seq<Attempt>, entries: seq<DirEntry>)
    requires Listing(entries) && Consistent(db) && db.log <= MigrationFiles(entries)
    requires forall a | a in attempts :: a.entries == entries
    ensures AppendingAttempts(db, attempts)
    ensures AfterAttempts(db, attempts).log <= MigrationFiles(entries)
    ensures OnlyAppends(AfterAttempts(db, attempts).applied, MigrationFiles(entries))
    decreases |attempts|
  {
    var files := MigrationFiles(entries);
    FilesSorted(entries);
    AppendsFromOrder(db.log, db.applied, files);
    if attempts != [] {
      assert attempts[0] in attempts;
      var after := RunOnce(db, entries, attempts[0].faults).0;
      RunMeaning(db, entries, attempts[0].faults);
      SortedPrefix(db.log, files);
      InOrderIff(db.log, db.applied, files);
      assert after.log == db.log + after.log[|db.log|..];
      FixedFilesAppend(after, attempts[1..], entries);
    }
  }

  lemma SortedPrefix(log: seq<string>, files: seq<string>)
    requires Sorted(files) && log <= files
    ensures Sorted(log)
  {
    forall i, j | 0 <= i < j < |log| ensures Before(log[i], log[j]) {
      assert log[i] == files[i] && log[j] == files[j];
    }
  }

  /** With one fixed file set: fail as often as you like, then succeed once, and the schema is complete. */
  lemma FixedFilesEventuallyClean(attempts: seq<Attempt>, entries: seq<DirEntry>, faults: Faults, more: Faults)
    requires Listing(entries)
    requires forall a | a in attempts :: a.entries == entries
    ensures var db := AfterAttempts(EmptyDb(), attempts);
            && db.log <= MigrationFiles(entries)
            && (RunOnce(db, entries, faults).1.Ok? ==>
                  var after := RunOnce(db, entries, faults).0;
                  && after == RunOnce(EmptyDb(), entries, Faults(false, false, false, map[])).0
                  && after.log == MigrationFiles(entries)
                  && RunOnce(after, entries, more).0 == after)
  {
    FixedFilesAppend(EmptyDb(), attempts, entries);
    if RunOnce(AfterAttempts(EmptyDb(), attempts), entries, faults).1.Ok? {
      EventuallyClean(attempts, entries, faults, more);
    }
  }
}
