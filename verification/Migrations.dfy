/** The migration runner: each SQL file of a directory is applied once, in alphabetical order, in a
    transaction that also records its name; a run stops at the first error and the next one resumes. */
module Migrations {
  import opened Text

  // ----- the database and the directory -----

  /** The schema, the names in schema_migrations, and every file committed so far, in order.  What a
      migration does to the schema is a parameter. */
  datatype Db<S> = Db(schema: S, recorded: set<string>, commits: seq<string>)

  /** The effect of an SQL text, and whether a schema has a users table. */
  datatype Engine<!S> = Engine(apply: (string, S) -> S, hasUsers: S -> bool)

  datatype DirEntry = DirEntry(name: string, isDir: bool, body: string)

  /** A migration with its text, trimmed. */
  datatype File = File(name: string, sql: string)

  predicate HasSuffix(s: string, suffix: string) {
    |suffix| <= |s| && s[|s| - |suffix|..] == suffix
  }

  predicate Eligible(e: DirEntry) {
    !e.isDir && HasSuffix(ToLower(e.name), ".sql") && !EqualFold(e.name, "clear_data.sql")
  }

  function EligibleNames(entries: seq<DirEntry>): seq<string> {
    if entries == [] then []
    else
      var front, e := EligibleNames(entries[..|entries| - 1]), entries[|entries| - 1];
      if Eligible(e) then front + [e.name] else front
  }

  /** The text of the file with a given name. */
  function BodyOf(entries: seq<DirEntry>, name: string): string {
    if entries == [] then ""
    else if entries[0].name == name then entries[0].body
    else BodyOf(entries[1..], name)
  }

  function MigrationFiles(entries: seq<DirEntry>): seq<File> {
    var names := Sort(EligibleNames(entries));
    seq(|names|, i requires 0 <= i < |names| => File(names[i], TrimSpace(BodyOf(entries, names[i]))))
  }

  ghost predicate DistinctNames(entries: seq<DirEntry>) {
    forall i, j :: 0 <= i < j < |entries| ==> entries[i].name != entries[j].name
  }

  ghost predicate DistinctFiles(files: seq<File>) {
    forall i, j :: 0 <= i < j < |files| ==> files[i].name != files[j].name
  }

  /** The entry is a migration: no directory, its name ends in .sql and is not clear_data.sql, both up to
      case. */
  ghost predicate IsMigration(e: DirEntry) {
    && !e.isDir && |e.name| >= 4 && ToLower(e.name[|e.name| - 4..]) == ".sql"
    && ToLower(e.name) != "clear_data.sql"
  }

  lemma EligibleIsMigration(e: DirEntry)
    ensures Eligible(e) <==> IsMigration(e)
  {
    assert ToLower("clear_data.sql") == "clear_data.sql";
    if |e.name| >= 4 {
      assert ToLower(e.name)[|e.name| - 4..] == ToLower(e.name[|e.name| - 4..]);
    }
  }

  lemma {:induction false} EligibleNamesMeaning(entries: seq<DirEntry>, n: string)
    ensures n in EligibleNames(entries) <==> exists e :: e in entries && e.name == n && IsMigration(e)
  {
    if entries != [] {
      var front, last := entries[..|entries| - 1], entries[|entries| - 1];
      EligibleNamesMeaning(front, n);
      EligibleIsMigration(last);
      assert entries == front + [last];
      assert last in entries;
    }
  }

  lemma {:induction false} BodyOfEntry(entries: seq<DirEntry>, e: DirEntry)
    requires DistinctNames(entries) && e in entries
    ensures BodyOf(entries, e.name) == e.body
  {
    if entries[0] != e {
      assert e in entries[1..] by { assert entries == [entries[0]] + entries[1..]; }
      var i :| 0 <= i < |entries| && entries[i] == e;
      assert entries[0].name != entries[i].name;
      BodyOfEntry(entries[1..], e);
    }
  }

  /** The files of a directory: one for each migration in it, with its trimmed text, in ascending order of
      their names. */
  lemma MigrationFilesMeaning(entries: seq<DirEntry>, f: File)
    requires DistinctNames(entries)
    ensures f in MigrationFiles(entries) <==>
      exists e :: e in entries && IsMigration(e) && f == File(e.name, TrimSpace(e.body))
    ensures var files := MigrationFiles(entries);
            forall i, j :: 0 <= i < j < |files| ==> Less(files[i].name, files[j].name)
  {
    var names := Sort(EligibleNames(entries));
    EligibleNamesDistinct(entries);
    SortIsStrict(EligibleNames(entries));
    EligibleNamesMeaning(entries, f.name);
    if f in MigrationFiles(entries) {
      var i :| 0 <= i < |names| && f == File(names[i], TrimSpace(BodyOf(entries, names[i])));
      var e :| e in entries && e.name == f.name && IsMigration(e);
      BodyOfEntry(entries, e);
    }
    if e :| e in entries && IsMigration(e) && f == File(e.name, TrimSpace(e.body)) {
      BodyOfEntry(entries, e);
      var i :| 0 <= i < |names| && names[i] == e.name;
      assert MigrationFiles(entries)[i] == f;
    }
  }

  // ----- one run -----

  /** Where a run fails, if it does.  A commit that reports an error may have taken effect. */
  datatype Fault =
    | NoFault
    | SetupFails
    | BaselineFails(inserted: nat)
    | ReadDirFails
    | FileFails(index: nat, committed: bool)

  /** The files of databases migrated by hand before the runner existed. */
  const LEGACY := [
    "001_init.sql",
    "002_webhook_events_payload_text.sql",
    "003_third_party_credentials_unique_user.sql",
    "004_drop_webhooks.sql"]

  function SetOf(names: seq<string>): set<string> { set n | n in names }

  /** The baseline rule is for databases that have users but no record of any migration. */
  predicate NeedsBaseline<S>(e: Engine<S>, db: Db<S>) {
    e.hasUsers(db.schema) && db.recorded == {}
  }

  /** The names are inserted one statement at a time, so a failure leaves the first ones. */
  function Baselined<S>(e: Engine<S>, db: Db<S>, inserted: nat): Db<S>
    requires inserted <= |LEGACY|
  {
    if NeedsBaseline(e, db) then db.(recorded := SetOf(LEGACY[..inserted])) else db
  }

  function Committed<S>(e: Engine<S>, db: Db<S>, f: File): Db<S> {
    Db(e.apply(f.sql, db.schema), db.recorded + {f.name}, db.commits + [f.name])
  }

  /** The loop over the files from the i-th on. */
  function ApplyFrom<S>(e: Engine<S>, db: Db<S>, files: seq<File>, i: nat, fault: Fault): (Db<S>, bool)
    requires i <= |files|
    decreases |files| - i
  {
    if i == |files| then (db, true)
    else
      var f := files[i];
      var fails := fault.FileFails? && fault.index == i;
      if f.name in db.recorded || f.sql == "" then
        if fails then (db, false) else ApplyFrom(e, db, files, i + 1, fault)
      else if fails then
        (if fault.committed then Committed(e, db, f) else db, false)
      else
        ApplyFrom(e, Committed(e, db, f), files, i + 1, fault)
  }

  /** A whole run; a missing directory (None) is skipped without error. */
  function RunOnce<S>(e: Engine<S>, db: Db<S>, dir: Option<seq<DirEntry>>, fault: Fault): (Db<S>, bool) {
    match fault
    case SetupFails => (db, false)
    case BaselineFails(k) =>
      if NeedsBaseline(e, db) && k < |LEGACY| then (Baselined(e, db, k), false)
      else ApplyDir(e, Baselined(e, db, |LEGACY|), dir, fault)
    case _ => ApplyDir(e, Baselined(e, db, |LEGACY|), dir, fault)
  }

  function ApplyDir<S>(e: Engine<S>, db: Db<S>, dir: Option<seq<DirEntry>>, fault: Fault): (Db<S>, bool) {
    if fault.ReadDirFails? then (db, false)
    else if dir.None? then (db, true)
    else ApplyFrom(e, db, MigrationFiles(dir.value), 0, fault)
  }

  /** Runs in a row, the database surviving each. */
  function RunMany<S>(e: Engine<S>, db: Db<S>, dir: Option<seq<DirEntry>>, faults: seq<Fault>): Db<S>
    decreases |faults|
  {
    if faults == [] then db else RunMany(e, RunOnce(e, db, dir, faults[0]).0, dir, faults[1..])
  }

  // ----- from an empty database -----

  /** The files with some text, in order. */
  function NonEmpty(files: seq<File>): seq<File> {
    if files == [] then []
    else
      var front, f := NonEmpty(files[..|files| - 1]), files[|files| - 1];
      if f.sql == "" then front else front + [f]
  }

  function Names(files: seq<File>): (r: seq<string>)
    ensures |r| == |files| && forall i :: 0 <= i < |files| ==> r[i] == files[i].name
  {
    seq(|files|, i requires 0 <= i < |files| => files[i].name)
  }

  /** The database after the first files have been applied, and nothing else. */
  function Applied<S>(e: Engine<S>, empty: S, files: seq<File>): Db<S> {
    if files == [] then Db(empty, {}, [])
    else Committed(e, Applied(e, empty, files[..|files| - 1]), files[|files| - 1])
  }

  lemma {:induction false} AppliedMeaning<S>(e: Engine<S>, empty: S, files: seq<File>)
    ensures Applied(e, empty, files).recorded == SetOf(Names(files))
    ensures Applied(e, empty, files).commits == Names(files)
  {
    if files != [] {
      var front, f := files[..|files| - 1], files[|files| - 1];
      AppliedMeaning(e, empty, front);
      assert Names(files) == Names(front) + [f.name];
    }
  }

  lemma {:induction false} NonEmptyMembers(files: seq<File>)
    ensures forall f :: f in NonEmpty(files) <==> f in files && f.sql != ""
    ensures DistinctFiles(files) ==> DistinctFiles(NonEmpty(files))
  {
    if files != [] {
      var front, f := files[..|files| - 1], files[|files| - 1];
      NonEmptyMembers(front);
      assert files == front + [f];
    }
  }

  lemma {:induction false} NonEmptyPrefix(files: seq<File>, i: nat)
    requires i <= |files|
    ensures NonEmpty(files[..i]) <= NonEmpty(files)
    decreases |files|
  {
    if i < |files| {
      var front := files[..|files| - 1];
      assert front[..i] == files[..i];
      NonEmptyPrefix(front, i);
    } else {
      assert files[..i] == files;
    }
  }

  /** A non-empty file comes in its place among the non-empty ones. */
  lemma NonEmptyPlace(files: seq<File>, i: nat)
    requires i < |files| && files[i].sql != ""
    ensures var all, c := NonEmpty(files), |NonEmpty(files[..i])|;
            |NonEmpty(files[..i + 1])| == c + 1 && c < |all| && all[c] == files[i]
  {
    assert files[..i + 1][..i] == files[..i];
    assert NonEmpty(files[..i + 1]) == NonEmpty(files[..i]) + [files[i]];
    NonEmptyPrefix(files, i + 1);
  }

  /** With the first k files applied, the c-th one is recorded exactly if it is one of them. */
  lemma RecordedIff<S>(e: Engine<S>, empty: S, all: seq<File>, c: nat, k: nat)
    requires DistinctFiles(all) && c < |all| && k <= |all|
    ensures all[c].name in Applied(e, empty, all[..k]).recorded <==> c < k
  {
    AppliedMeaning(e, empty, all[..k]);
    var names := Names(all[..k]);
    assert c < k ==> names[c] == all[c].name;
    if all[c].name in names {
      var j :| 0 <= j < k && names[j] == all[c].name;
      assert j == c;
    }
  }

  /** With the first k non-empty files applied, the i-th file is pending exactly when it is the k-th. */
  lemma PendingIsNext<S>(e: Engine<S>, empty: S, files: seq<File>, i: nat, k: nat)
    requires DistinctFiles(files) && i < |files| && files[i].sql != ""
    requires |NonEmpty(files[..i])| <= k <= |NonEmpty(files)|
    ensures var all := NonEmpty(files);
            && |NonEmpty(files[..i + 1])| == |NonEmpty(files[..i])| + 1
            && |NonEmpty(files[..i])| < |all| && all[|NonEmpty(files[..i])|] == files[i]
            && (files[i].name in Applied(e, empty, all[..k]).recorded <==> |NonEmpty(files[..i])| < k)
  {
    NonEmptyPlace(files, i);
    NonEmptyMembers(files);
    RecordedIff(e, empty, NonEmpty(files), |NonEmpty(files[..i])|, k);
  }

  lemma AppliedOneMore<S>(e: Engine<S>, empty: S, all: seq<File>, k: nat)
    requires k < |all|
    ensures Applied(e, empty, all[..k + 1]) == Committed(e, Applied(e, empty, all[..k]), all[k])
  {
    assert all[..k + 1][..k] == all[..k] && all[..k + 1][k] == all[k];
  }

  /** From the first k files on, the loop ends with the first k' of them, k <= k', and with all of them
      if it reports no error. */
  lemma {:induction false} LoopExtendsPrefix<S>(e: Engine<S>, empty: S, files: seq<File>, i: nat, k: nat, fault: Fault)
    returns (k': nat)
    requires DistinctFiles(files) && i <= |files|
    requires |NonEmpty(files[..i])| <= k <= |NonEmpty(files)|
    ensures k <= k' <= |NonEmpty(files)|
    ensures var (db, ok) := ApplyFrom(e, Applied(e, empty, NonEmpty(files)[..k]), files, i, fault);
            db == Applied(e, empty, NonEmpty(files)[..k']) && (ok ==> k' == |NonEmpty(files)|)
    ensures !fault.FileFails? ==> ApplyFrom(e, Applied(e, empty, NonEmpty(files)[..k]), files, i, fault).1
    decreases |files| - i
  {
    var all := NonEmpty(files);
    if i == |files| {
      assert files[..i] == files;
      k' := k;
    } else {
      assert files[..i + 1][..i] == files[..i];
      var fails := fault.FileFails? && fault.index == i;
      if files[i].sql == "" {
        if fails { k' := k; } else { k' := LoopExtendsPrefix(e, empty, files, i + 1, k, fault); }
      } else {
        PendingIsNext(e, empty, files, i, k);
        var c := |NonEmpty(files[..i])|;
        if c < k {
          if fails { k' := k; } else { k' := LoopExtendsPrefix(e, empty, files, i + 1, k, fault); }
        } else {
          AppliedOneMore(e, empty, all, k);
          if fails { k' := if fault.committed then k + 1 else k; }
          else { k' := LoopExtendsPrefix(e, empty, files, i + 1, k + 1, fault); }
        }
      }
    }
  }

  /** In such a database the baseline rule does not apply. */
  lemma NoBaseline<S>(e: Engine<S>, empty: S, files: seq<File>)
    requires !e.hasUsers(empty)
    ensures !NeedsBaseline(e, Applied(e, empty, files))
  {
  }

  lemma {:induction false} EligibleNamesDistinct(entries: seq<DirEntry>)
    requires DistinctNames(entries)
    ensures Distinct(EligibleNames(entries))
    ensures forall n :: n in EligibleNames(entries) ==> exists i :: 0 <= i < |entries| && entries[i].name == n
  {
    if entries != [] {
      var front, e := entries[..|entries| - 1], entries[|entries| - 1];
      EligibleNamesDistinct(front);
      forall n | n in EligibleNames(front) ensures exists i :: 0 <= i < |entries| - 1 && entries[i].name == n {
        var i :| 0 <= i < |front| && front[i].name == n;
        assert entries[i].name == n;
      }
      assert entries[|entries| - 1].name == e.name;
      assert forall i :: 0 <= i < |front| ==> front[i].name != e.name;
      assert e.name !in EligibleNames(front);
    }
  }

  lemma MigrationFilesDistinct(entries: seq<DirEntry>)
    requires DistinctNames(entries)
    ensures DistinctFiles(MigrationFiles(entries))
  {
    EligibleNamesDistinct(entries);
    var names := Sort(EligibleNames(entries));
    SortIsStrict(EligibleNames(entries));
    forall i, j | 0 <= i < j < |names| ensures names[i] != names[j] {
      LessAsymmetric(names[i], names[j]);
    }
  }

  lemma RunExtendsPrefix<S>(e: Engine<S>, empty: S, entries: seq<DirEntry>, k: nat, fault: Fault) returns (k': nat)
    requires !e.hasUsers(empty) && DistinctNames(entries)
    requires k <= |NonEmpty(MigrationFiles(entries))|
    ensures var all := NonEmpty(MigrationFiles(entries));
            && k <= k' <= |all|
            && RunOnce(e, Applied(e, empty, all[..k]), Some(entries), fault).0 == Applied(e, empty, all[..k'])
            && (RunOnce(e, Applied(e, empty, all[..k]), Some(entries), fault).1 ==> k' == |all|)
            && (fault.NoFault? ==> k' == |all|)
  {
    var files := MigrationFiles(entries);
    var all := NonEmpty(files);
    MigrationFilesDistinct(entries);
    NoBaseline(e, empty, all[..k]);
    assert NonEmpty(files[..0]) == [];
    k' := LoopExtendsPrefix(e, empty, files, 0, k, fault);
    if fault.SetupFails? || fault.ReadDirFails? {
      k' := k;
    }
  }

  lemma {:induction false} RunsExtendPrefix<S>(e: Engine<S>, empty: S, entries: seq<DirEntry>, k: nat,
                                               faults: seq<Fault>)
    returns (k': nat)
    requires !e.hasUsers(empty) && DistinctNames(entries)
    requires k <= |NonEmpty(MigrationFiles(entries))|
    ensures var all := NonEmpty(MigrationFiles(entries));
            && k <= k' <= |all|
            && RunMany(e, Applied(e, empty, all[..k]), Some(entries), faults) == Applied(e, empty, all[..k'])
    decreases |faults|
  {
    if faults == [] {
      k' := k;
    } else {
      var middle := RunExtendsPrefix(e, empty, entries, k, faults[0]);
      k' := RunsExtendPrefix(e, empty, entries, middle, faults[1..]);
    }
  }

  /** From an empty database, over any runs failing anywhere: the recorded names are those of a prefix
      of the sorted non-empty files, the schema is what that prefix makes of the empty one, the files
      committed are that prefix, each once, and the next run will not take the database for a legacy
      one. */
  lemma EveryRunLeavesPrefix<S>(e: Engine<S>, empty: S, entries: seq<DirEntry>, faults: seq<Fault>) returns (k: nat)
    requires !e.hasUsers(empty) && DistinctNames(entries)
    ensures var all := NonEmpty(MigrationFiles(entries));
            var db := RunMany(e, Db(empty, {}, []), Some(entries), faults);
            && k <= |all|
            && db == Applied(e, empty, all[..k])
            && db.recorded == SetOf(Names(all[..k])) && db.commits == Names(all[..k])
            && Distinct(db.commits)
            && !NeedsBaseline(e, db)
  {
    var all := NonEmpty(MigrationFiles(entries));
    assert Applied(e, empty, all[..0]) == Db(empty, {}, []);
    k := RunsExtendPrefix(e, empty, entries, 0, faults);
    AppliedMeaning(e, empty, all[..k]);
    NoBaseline(e, empty, all[..k]);
    MigrationFilesDistinct(entries);
    NonEmptyMembers(MigrationFiles(entries));
  }

  /** However many runs failed before, a run that succeeds leaves the database that one uninterrupted run
      on the empty database leaves. */
  lemma SuccessIsAsIfUninterrupted<S>(e: Engine<S>, empty: S, entries: seq<DirEntry>, faults: seq<Fault>, last: Fault)
    requires !e.hasUsers(empty) && DistinctNames(entries)
    requires RunOnce(e, RunMany(e, Db(empty, {}, []), Some(entries), faults), Some(entries), last).1
    ensures RunOnce(e, RunMany(e, Db(empty, {}, []), Some(entries), faults), Some(entries), last).0
         == RunOnce(e, Db(empty, {}, []), Some(entries), NoFault).0
  {
    var all := NonEmpty(MigrationFiles(entries));
    var k := EveryRunLeavesPrefix(e, empty, entries, faults);
    var done := RunExtendsPrefix(e, empty, entries, k, last);
    assert Applied(e, empty, all[..0]) == Db(empty, {}, []);
    var once := RunExtendsPrefix(e, empty, entries, 0, NoFault);
  }

  // ----- on any database -----

  lemma {:induction false} OnlyFilesCommit<S>(e: Engine<S>, db: Db<S>, files: seq<File>, i: nat, fault: Fault,
                                              n: string)
    requires i <= |files| && n !in db.commits && forall j :: 0 <= j < |files| ==> files[j].name != n
    ensures n !in ApplyFrom(e, db, files, i, fault).0.commits
    decreases |files| - i
  {
    if i < |files| {
      var f := files[i];
      var next := if f.name in db.recorded || f.sql == "" then db else Committed(e, db, f);
      OnlyFilesCommit(e, next, files, i + 1, fault, n);
    }
  }

  /** No run on any database ever commits a file that is no migration of the directory; in particular none
      commits clear_data.sql, in whatever case it is written. */
  lemma {:induction false} OnlyMigrationsCommit<S>(e: Engine<S>, db: Db<S>, entries: seq<DirEntry>,
                                                   faults: seq<Fault>, n: string)
    requires n !in db.commits && forall d :: d in entries && d.name == n ==> !IsMigration(d)
    ensures n !in RunMany(e, db, Some(entries), faults).commits
    decreases |faults|
  {
    if faults != [] {
      var files := MigrationFiles(entries);
      EligibleNamesMeaning(entries, n);
      SortKeepsElements(EligibleNames(entries));
      assert forall j :: 0 <= j < |files| ==> files[j].name in EligibleNames(entries);
      OnlyFilesCommit(e, db, files, 0, faults[0], n);
      OnlyFilesCommit(e, Baselined(e, db, |LEGACY|), files, 0, faults[0], n);
      OnlyMigrationsCommit(e, RunOnce(e, db, Some(entries), faults[0]).0, entries, faults[1..], n);
    }
  }

  lemma ClearDataNeverCommits<S>(e: Engine<S>, db: Db<S>, entries: seq<DirEntry>, faults: seq<Fault>, n: string)
    requires ToLower(n) == "clear_data.sql" && n !in db.commits
    ensures n !in RunMany(e, db, Some(entries), faults).commits
  {
    OnlyMigrationsCommit(e, db, entries, faults, n);
  }

  lemma {:induction false} LoopReports<S>(e: Engine<S>, db: Db<S>, files: seq<File>, i: nat, fault: Fault)
    requires i <= |files|
    ensures ApplyFrom(e, db, files, i, fault).1 <==> !(fault.FileFails? && i <= fault.index < |files|)
    decreases |files| - i
  {
    if i < |files| {
      var f := files[i];
      LoopReports(e, if f.name in db.recorded || f.sql == "" then db else Committed(e, db, f), files, i + 1, fault);
    }
  }

  /** A run reports success exactly if nothing failed that it got to. */
  lemma RunReportsIff<S>(e: Engine<S>, db: Db<S>, entries: seq<DirEntry>, fault: Fault)
    ensures RunOnce(e, db, Some(entries), fault).1 <==>
      match fault
      case NoFault => true
      case SetupFails => false
      case BaselineFails(k) => !(e.hasUsers(db.schema) && db.recorded == {} && k < 4)
      case ReadDirFails => false
      case FileFails(i, _) => i >= |MigrationFiles(entries)|
  {
    LoopReports(e, Baselined(e, db, |LEGACY|), MigrationFiles(entries), 0, fault);
  }

  /** Without a directory a run does nothing but the baseline, which marks these files. */
  lemma BaselineMarks<S>(e: Engine<S>, db: Db<S>)
    ensures RunOnce(e, db, None, NoFault)
         == (if e.hasUsers(db.schema) && db.recorded == {} then
               db.(recorded := {"001_init.sql", "002_webhook_events_payload_text.sql",
                                "003_third_party_credentials_unique_user.sql", "004_drop_webhooks.sql"})
             else db, true)
  {
    assert LEGACY[..|LEGACY|] == LEGACY;
    assert SetOf(LEGACY) == {LEGACY[0], LEGACY[1], LEGACY[2], LEGACY[3]};
  }

  // ----- legacy databases -----

  /** The first baseline names are as many different names. */
  lemma LegacyPrefix(k: nat)
    requires k <= |LEGACY|
    ensures SetOf(LEGACY[..k]) == {} <==> k == 0
    ensures SetOf(LEGACY[..k]) == SetOf(LEGACY) <==> k == |LEGACY|
  {
    assert LEGACY[..|LEGACY|] == LEGACY;
    if k > 0 { assert LEGACY[..k][0] in SetOf(LEGACY[..k]); }
    if k < |LEGACY| {
      assert LEGACY[3] in SetOf(LEGACY);
      assert forall i :: 0 <= i < 3 ==> LEGACY[i][2] != LEGACY[3][2];
    }
  }

  /** The run gets as far as the j-th file, and past a failing commit of it if that took effect. */
  predicate Reaches(fault: Fault, j: nat) {
    match fault
    case SetupFails => false
    case ReadDirFails => false
    case FileFails(i, committed) => j < i || (j == i && committed)
    case _ => true
  }

  predicate Hits(files: seq<File>, j: nat, n: string, fault: Fault) {
    j < |files| && files[j].name == n && files[j].sql != "" && Reaches(fault, j)
  }

  /** The run reaches a file of that name, from the i-th on. */
  ghost predicate HitsFrom(files: seq<File>, i: nat, n: string, fault: Fault) {
    exists j :: i <= j && Hits(files, j, n, fault)
  }

  lemma HitsFirst(files: seq<File>, i: nat, n: string, fault: Fault)
    ensures HitsFrom(files, i, n, fault) <==> Hits(files, i, n, fault) || HitsFrom(files, i + 1, n, fault)
  {
  }

  /** Some run reaches a file of that name with some text. */
  ghost predicate Reached(files: seq<File>, n: string, faults: seq<Fault>) {
    exists m, j :: 0 <= m < |faults| && Hits(files, j, n, faults[m])
  }

  /** What the loop adds: the reached files not recorded before. */
  lemma {:induction false} LoopCommits<S>(e: Engine<S>, db: Db<S>, files: seq<File>, i: nat, fault: Fault, n: string)
    requires DistinctFiles(files) && i <= |files|
    requires !fault.SetupFails? && !fault.ReadDirFails? && (fault.FileFails? ==> i <= fault.index)
    ensures var r, hit := ApplyFrom(e, db, files, i, fault).0, HitsFrom(files, i, n, fault);
            && (n in r.commits <==> n in db.commits || (n !in db.recorded && hit))
            && (n in r.recorded <==> n in db.recorded || hit)
    decreases |files| - i
  {
    if i < |files| {
      var f := files[i];
      HitsFirst(files, i, n, fault);
      if fault.FileFails? && fault.index == i {
        assert !HitsFrom(files, i + 1, n, fault);
      } else {
        var skipped := f.name in db.recorded || f.sql == "";
        LoopCommits(e, if skipped then db else Committed(e, db, f), files, i + 1, fault, n);
        assert f.name == n ==> !HitsFrom(files, i + 1, n, fault);
      }
    }
  }

  /** The same for a run that does not get to the baseline, or has passed it. */
  lemma DirCommits<S>(e: Engine<S>, db: Db<S>, entries: seq<DirEntry>, fault: Fault, n: string)
    requires DistinctNames(entries) && !fault.SetupFails?
    ensures var r := ApplyDir(e, db, Some(entries), fault).0;
            var hit := HitsFrom(MigrationFiles(entries), 0, n, fault);
            && (n in r.commits <==> n in db.commits || (n !in db.recorded && hit))
            && (n in r.recorded <==> n in db.recorded || hit)
  {
    MigrationFilesDistinct(entries);
    if !fault.ReadDirFails? {
      LoopCommits(e, db, MigrationFiles(entries), 0, fault, n);
    }
  }

  lemma RunCommits<S>(e: Engine<S>, db: Db<S>, entries: seq<DirEntry>, fault: Fault, n: string)
    requires DistinctNames(entries) && !NeedsBaseline(e, db)
    ensures var r := RunOnce(e, db, Some(entries), fault).0;
            var hit := HitsFrom(MigrationFiles(entries), 0, n, fault);
            && (n in r.commits <==> n in db.commits || (n !in db.recorded && hit))
            && (n in r.recorded <==> n in db.recorded || hit)
  {
    if !fault.SetupFails? {
      DirCommits(e, db, entries, fault, n);
    }
  }

  /** Once anything is recorded, a name is committed by later runs exactly if it was not recorded and
      some run reaches a file of that name. */
  lemma {:induction false} RunsCommit<S>(e: Engine<S>, db: Db<S>, entries: seq<DirEntry>, faults: seq<Fault>, n: string)
    requires DistinctNames(entries) && db.recorded != {}
    requires n in db.commits ==> n in db.recorded
    ensures n in RunMany(e, db, Some(entries), faults).commits
       <==> n in db.commits || (n !in db.recorded && Reached(MigrationFiles(entries), n, faults))
    decreases |faults|
  {
    if faults != [] {
      var files := MigrationFiles(entries);
      var r := RunOnce(e, db, Some(entries), faults[0]).0;
      RunCommits(e, db, entries, faults[0], n);
      var some :| some in db.recorded;
      RunCommits(e, db, entries, faults[0], some);
      RunsCommit(e, r, entries, faults[1..], n);
      ReachedFirst(files, n, faults);
    }
  }

  lemma ReachedFirst(files: seq<File>, n: string, faults: seq<Fault>)
    requires faults != []
    ensures Reached(files, n, faults)
       <==> HitsFrom(files, 0, n, faults[0]) || Reached(files, n, faults[1..])
  {
  }

  /** The baseline is interrupted behind its first k inserts, neither none nor all, and a later run
      reaches a file whose name was still to be inserted.  Runs that fail before the first insert
      change nothing; any other run before completes the baseline. */
  ghost predicate ReachesLegacyFile(files: seq<File>, faults: seq<Fault>)
    decreases |faults|
  {
    if faults == [] then false
    else
      match faults[0]
      case SetupFails => ReachesLegacyFile(files, faults[1..])
      case BaselineFails(k) =>
        if k == 0 then ReachesLegacyFile(files, faults[1..])
        else k < |LEGACY| && exists n :: n in LEGACY[k..] && Reached(files, n, faults[1..])
      case _ => false
  }

  lemma LegacyDistinct(k: nat, n: string)
    requires k <= |LEGACY| && n in LEGACY
    ensures n in SetOf(LEGACY[..k]) <==> n !in LEGACY[k..]
  {
  }

  /** The baseline exists so that files a legacy database already has are not applied to it again.  It is
      not atomic.  Over any runs on such a database, a legacy file is applied again exactly when the
      baseline was interrupted midway and a later run reached a file it had not marked. */
  lemma {:induction false} LegacyAppliedAgainIff<S>(e: Engine<S>, db: Db<S>, entries: seq<DirEntry>, faults: seq<Fault>)
    requires NeedsBaseline(e, db) && db.commits == [] && DistinctNames(entries)
    ensures (exists n :: n in LEGACY && n in RunMany(e, db, Some(entries), faults).commits)
       <==> ReachesLegacyFile(MigrationFiles(entries), faults)
    decreases |faults|
  {
    if faults != [] {
      if faults[0].SetupFails? || faults[0] == BaselineFails(0) {
        LegacyPrefix(0);
        assert RunOnce(e, db, Some(entries), faults[0]).0 == db;
        LegacyAppliedAgainIff(e, db, entries, faults[1..]);
      } else if faults[0].BaselineFails? && faults[0].inserted < |LEGACY| {
        InterruptedBaseline(e, db, entries, faults[0].inserted, faults[1..]);
      } else {
        forall n | n in LEGACY ensures n !in RunMany(e, db, Some(entries), faults).commits {
          CompletedBaseline(e, db, entries, faults, n);
        }
      }
    }
  }

  lemma InterruptedBaseline<S>(e: Engine<S>, db: Db<S>, entries: seq<DirEntry>, k: nat, faults: seq<Fault>)
    requires NeedsBaseline(e, db) && db.commits == [] && DistinctNames(entries) && 0 < k < |LEGACY|
    ensures (exists n :: n in LEGACY && n in RunMany(e, Baselined(e, db, k), Some(entries), faults).commits)
       <==> (exists n :: n in LEGACY[k..] && Reached(MigrationFiles(entries), n, faults))
  {
    var cut := Baselined(e, db, k);
    LegacyPrefix(k);
    forall n | n in LEGACY
      ensures n in RunMany(e, cut, Some(entries), faults).commits
         <==> n in LEGACY[k..] && Reached(MigrationFiles(entries), n, faults)
    {
      LegacyDistinct(k, n);
      RunsCommit(e, cut, entries, faults, n);
    }
    assert forall n :: n in LEGACY[k..] ==> n in LEGACY;
  }

  /** A completed baseline marks every legacy name, and a marked file is never applied. */
  lemma CompletedBaseline<S>(e: Engine<S>, db: Db<S>, entries: seq<DirEntry>, faults: seq<Fault>, n: string)
    requires NeedsBaseline(e, db) && db.commits == [] && DistinctNames(entries) && n in LEGACY && faults != []
    requires !faults[0].SetupFails? && (faults[0].BaselineFails? ==> faults[0].inserted >= |LEGACY|)
    ensures n !in RunMany(e, db, Some(entries), faults).commits
  {
    var marked := Baselined(e, db, |LEGACY|);
    assert LEGACY[..|LEGACY|] == LEGACY && n in marked.recorded;
    DirCommits(e, marked, entries, faults[0], n);
    RunsCommit(e, ApplyDir(e, marked, Some(entries), faults[0]).0, entries, faults[1..], n);
  }

  /** For instance: the baseline fails at its last insert; the next run succeeds, applies the last legacy
      file to a schema that has it already, and leaves nothing to be seen of it in the record. */
  lemma LegacyFileAppliedAgain<S>(e: Engine<S>, db: Db<S>, sql: string)
    requires NeedsBaseline(e, db) && db.commits == [] && TrimSpace(sql) != ""
    ensures var dir := Some([DirEntry(LEGACY[3], false, sql)]);
            RunOnce(e, RunOnce(e, db, dir, BaselineFails(3)).0, dir, NoFault)
              == (Db(e.apply(TrimSpace(sql), db.schema), SetOf(LEGACY), [LEGACY[3]]), true)
  {
    var entries := [DirEntry(LEGACY[3], false, sql)];
    var cut, f := Baselined(e, db, 3), File(LEGACY[3], TrimSpace(sql));
    OneFile(sql);
    LegacyPrefix(3);
    LegacyDistinct(3, LEGACY[3]);
    assert LEGACY[3] in LEGACY[3..];
    assert SetOf(LEGACY[..3]) + {LEGACY[3]} == SetOf(LEGACY) by { assert LEGACY == LEGACY[..3] + [LEGACY[3]]; }
    assert RunOnce(e, db, Some(entries), BaselineFails(3)).0 == cut && !NeedsBaseline(e, cut);
    assert RunOnce(e, cut, Some(entries), NoFault) == ApplyFrom(e, cut, [f], 0, NoFault);
    assert Committed(e, cut, f) == Db(e.apply(f.sql, db.schema), SetOf(LEGACY), [LEGACY[3]]);
    assert ApplyFrom(e, cut, [f], 0, NoFault) == ApplyFrom(e, Committed(e, cut, f), [f], 1, NoFault);
    assert ApplyFrom(e, Committed(e, cut, f), [f], 1, NoFault) == (Committed(e, cut, f), true);
  }

  lemma OneFile(sql: string)
    ensures MigrationFiles([DirEntry(LEGACY[3], false, sql)]) == [File(LEGACY[3], TrimSpace(sql))]
  {
    var d := DirEntry(LEGACY[3], false, sql);
    LastLegacyEligible(sql);
    assert [d][..0] == [];
    assert EligibleNames([d]) == [d.name];
    assert Sort([d.name]) == [d.name] by { assert [d.name][1..] == []; }
    assert BodyOf([d], d.name) == sql;
  }

  lemma LastLegacyEligible(sql: string)
    ensures Eligible(DirEntry(LEGACY[3], false, sql))
  {
  }

  // ----- the runner -----

  class Database<S> {
    const engine: Engine<S>
    var schema: S
    var recorded: set<string>
    ghost var commits: seq<string>

    ghost function Value(): Db<S>
      reads this
    {
      Db(schema, recorded, commits)
    }

    constructor (engine: Engine<S>, schema: S)
      ensures Value() == Db(schema, {}, []) && this.engine == engine
    {
      this.engine, this.schema := engine, schema;
      recorded, commits := {}, [];
    }

    method BaselineExistingDatabase(fault: Fault) returns (ok: bool)
      modifies this
      ensures ok <==> !(fault.BaselineFails? && fault.inserted < |LEGACY| && NeedsBaseline(engine, old(Value())))
      ensures Value() == Baselined(engine, old(Value()), if ok then |LEGACY| else fault.inserted)
    {
      if !engine.hasUsers(schema) || recorded != {} {
        return true;
      }
      for k := 0 to |LEGACY|
        invariant recorded == SetOf(LEGACY[..k]) && schema == old(schema) && commits == old(commits)
        invariant fault.BaselineFails? ==> k <= fault.inserted
      {
        if fault.BaselineFails? && fault.inserted == k {
          return false;
        }
        recorded := recorded + {LEGACY[k]};
        assert LEGACY[..k + 1] == LEGACY[..k] + [LEGACY[k]];
      }
      return true;
    }

    /** One run over the directory, failing where `fault` says. */
    method RunMigrations(dir: Option<seq<DirEntry>>, fault: Fault) returns (ok: bool)
      modifies this
      ensures (Value(), ok) == RunOnce(engine, old(Value()), dir, fault)
    {
      if fault.SetupFails? {
        return false;
      }
      ok := BaselineExistingDatabase(fault);
      if !ok {
        return false;
      }
      if fault.ReadDirFails? {
        return false;
      }
      if dir.None? {
        return true;
      }
      ok := ApplyFiles(MigrationFiles(dir.value), fault);
    }

    method ApplyFiles(files: seq<File>, fault: Fault) returns (ok: bool)
      modifies this
      ensures (Value(), ok) == ApplyFrom(engine, old(Value()), files, 0, fault)
    {
      for i := 0 to |files|
        invariant ApplyFrom(engine, Value(), files, i, fault) == ApplyFrom(engine, old(Value()), files, 0, fault)
      {
        var f := files[i];
        var fails := fault.FileFails? && fault.index == i;
        if f.name in recorded || f.sql == "" {
          if fails {
            return false;
          }
        } else if fails && !fault.committed {
          return false;
        } else {
          schema := engine.apply(f.sql, schema);
          recorded := recorded + {f.name};
          commits := commits + [f.name];
          if fails {
            return false;
          }
        }
      }
      return true;
    }
  }
}
