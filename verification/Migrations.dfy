/**
 * The migration runner: a one-row version table with a dirty flag, and the Up and Down loops.
 *
 * Every migration is three separate database steps (mark dirty, run the script, mark clean), and a run may stop
 * between or inside any of them.  The environment decides the fate of each step in advance: `fates` says of the
 * coming steps, in order, whether each succeeds, fails without effect, or takes effect without the runner learning
 * of it (a lost connection or a crash right after the commit).  Steps beyond the end of `fates` succeed.
 *
 * The schema itself is represented by the journal of the scripts that ran against it.
 */
module Migrations {
  import opened Prelude

  datatype MigrationFile = MigrationFile(version: int, blank: bool)

  datatype VersionRow = VersionRow(version: int, dirty: bool)

  datatype ScriptRun = RanUp(version: int) | RanDown(version: int)

  datatype Fate = Done | LostBefore | LostAfter

  datatype Database = Database(row: Option<VersionRow>, journal: seq<ScriptRun>, fates: seq<Fate>)

  // ---------------------------------------------------------------- single steps

  function NextFate(fates: seq<Fate>): Fate {
    if fates == [] then Done else fates[0]
  }

  function Later(fates: seq<Fate>): seq<Fate> {
    if fates == [] then [] else fates[1..]
  }

  /** Replace the version row in one transaction; a negative version leaves the table empty. */
  function SetVersionStep(db: Database, version: int, dirty: bool): (Database, bool) {
    var row := if version >= 0 then Some(VersionRow(version, dirty)) else None;
    match NextFate(db.fates)
    case Done => (Database(row, db.journal, Later(db.fates)), true)
    case LostBefore => (db.(fates := Later(db.fates)), false)
    case LostAfter => (Database(row, db.journal, Later(db.fates)), false)
  }

  /** Read a script and run it; a blank script is never sent to the database. */
  function RunScriptStep(db: Database, file: MigrationFile, run: ScriptRun): (Database, bool) {
    var read := db.(fates := Later(db.fates));
    if NextFate(db.fates) != Done then (read, false)
    else if file.blank then (read.(journal := read.journal + [run]), true)
    else
      match NextFate(read.fates)
      case Done => (Database(read.row, read.journal + [run], Later(read.fates)), true)
      case LostBefore => (read.(fates := Later(read.fates)), false)
      case LostAfter => (Database(read.row, read.journal + [run], Later(read.fates)), false)
  }

  function ApplyStep(db: Database, file: MigrationFile, run: ScriptRun, cleanVersion: int): (Database, bool) {
    var (marked, ok) := SetVersionStep(db, file.version, true);
    if !ok then (marked, false)
    else
      var (ran, ok) := RunScriptStep(marked, file, run);
      if !ok then (ran, false) else SetVersionStep(ran, cleanVersion, false)
  }

  // ---------------------------------------------------------------- whole runs

  function UpFrom(db: Database, ups: seq<MigrationFile>, version: int): (Database, bool)
    decreases |ups|
  {
    if ups == [] then (db, true)
    else if ups[0].version <= version then UpFrom(db, ups[1..], version)
    else
      var (next, ok) := ApplyStep(db, ups[0], RanUp(ups[0].version), ups[0].version);
      if !ok then (next, false) else UpFrom(next, ups[1..], ups[0].version)
  }

  function UpRun(db: Database, ups: seq<MigrationFile>): (Database, bool) {
    var read := db.(fates := Later(db.fates));
    if NextFate(db.fates) != Done then (read, false)
    else
      match read.row
      case None => UpFrom(read, ups, -1)
      case Some(row) => if row.dirty then (read, false) else UpFrom(read, ups, row.version)
  }

  /** The version recorded when the first k migrations are in place; -1 stands for an empty version table. */
  function CleanVersion(files: seq<MigrationFile>, k: nat): int
    requires k <= |files|
  {
    if k == 0 then -1 else files[k - 1].version
  }

  /** Roll back the first `n` migrations, newest first; `version` is the one read when the run began. */
  function DownFrom(db: Database, ups: seq<MigrationFile>, n: nat, downs: map<int, MigrationFile>, version: int)
    : (Database, bool)
    requires n <= |ups|
    decreases n
  {
    if n == 0 then (db, true)
    else
      var applied := ups[n - 1].version;
      if applied > version then DownFrom(db, ups, n - 1, downs, version)
      else if applied !in downs then (db, false)
      else
        var cleanVersion := if n >= 2 then ups[n - 2].version else -1;
        var (next, ok) := ApplyStep(db, downs[applied], RanDown(applied), cleanVersion);
        if !ok then (next, false) else DownFrom(next, ups, n - 1, downs, version)
  }

  function DownRun(db: Database, ups: seq<MigrationFile>, downs: map<int, MigrationFile>): (Database, bool) {
    var read := db.(fates := Later(db.fates));
    if NextFate(db.fates) != Done then (read, false)
    else
      match read.row
      case None => (read, true)
      case Some(row) =>
        if row.version < 0 then (read, true)
        else if row.dirty then (read, false)
        else DownFrom(read, ups, |ups|, downs, row.version)
  }

  datatype Command = Up | Down

  /** A history of runs against one version table, each as far as its fates let it go. */
  function History(db: Database, commands: seq<Command>, ups: seq<MigrationFile>, downs: map<int, MigrationFile>)
    : Database
  {
    if commands == [] then db
    else
      var before := History(db, Front(commands), ups, downs);
      match Last(commands)
      case Up => UpRun(before, ups).0
      case Down => DownRun(before, ups, downs).0
  }

  function Fresh(fates: seq<Fate>): Database {
    Database(None, [], fates)
  }

  // ---------------------------------------------------------------- what the journal means

  ghost predicate Ascending(files: seq<MigrationFile>) {
    && (forall i :: 0 <= i < |files| ==> files[i].version >= 0)
    && (forall i, j :: 0 <= i < j < |files| ==> files[i].version < files[j].version)
  }

  /** Down scripts are filed under the version in their own name. */
  ghost predicate Filed(downs: map<int, MigrationFile>) {
    forall v :: v in downs ==> downs[v].version == v
  }

  function Versions(files: seq<MigrationFile>): (vs: seq<int>)
    ensures |vs| == |files| && forall i :: 0 <= i < |files| ==> vs[i] == files[i].version
  {
    seq(|files|, i requires 0 <= i < |files| => files[i].version)
  }

  /**
   * The migrations in place after a journal, oldest first.  None means the journal is unsound: an up script ran on
   * top of its own or a newer version, or a down script ran while its migration was not the newest in place.
   */
  function InPlace(journal: seq<ScriptRun>): Option<seq<int>> {
    if journal == [] then Some([])
    else
      match InPlace(Front(journal))
      case None => None
      case Some(stack) =>
        match Last(journal)
        case RanUp(v) => if stack == [] || Last(stack) < v then Some(stack + [v]) else None
        case RanDown(v) => if stack != [] && Last(stack) == v then Some(Front(stack)) else None
  }

  ghost predicate Clean(db: Database, files: seq<MigrationFile>, k: nat) {
    && k <= |files|
    && db.row == (if k == 0 then None else Some(VersionRow(files[k - 1].version, false)))
    && InPlace(db.journal) == Some(Versions(files)[..k])
  }

  ghost predicate Torn(db: Database, files: seq<MigrationFile>, k: nat) {
    && k < |files|
    && db.row == Some(VersionRow(files[k].version, true))
    && (InPlace(db.journal) == Some(Versions(files)[..k]) || InPlace(db.journal) == Some(Versions(files)[..k + 1]))
  }

  /** The version table tells the truth: exactly the recorded prefix is in place, give or take a dirty migration. */
  ghost predicate Consistent(db: Database, files: seq<MigrationFile>) {
    (exists k: nat :: Clean(db, files, k)) || (exists k: nat :: Torn(db, files, k))
  }

  lemma JournalPush(journal: seq<ScriptRun>, run: ScriptRun)
    ensures Front(journal + [run]) == journal && Last(journal + [run]) == run
  {
  }

  /** What the table and journal can look like after one migration was attempted. */
  ghost predicate Attempted(db: Database, next: Database, ok: bool, version: int, run: ScriptRun, cleanVersion: int) {
    var dirtyRow := Some(VersionRow(version, true));
    var cleanRow := if cleanVersion >= 0 then Some(VersionRow(cleanVersion, false)) else None;
    || (next.row == cleanRow && next.journal == db.journal + [run])
    || (!ok && next.row == db.row && next.journal == db.journal)
    || (!ok && next.row == dirtyRow && next.journal == db.journal)
    || (!ok && next.row == dirtyRow && next.journal == db.journal + [run])
  }

  lemma ApplyAttempts(db: Database, file: MigrationFile, run: ScriptRun, cleanVersion: int)
    requires file.version >= 0
    ensures var (next, ok) := ApplyStep(db, file, run, cleanVersion);
            Attempted(db, next, ok, file.version, run, cleanVersion)
  {
  }

  /** With no faults ahead every attempt succeeds. */
  lemma CalmApply(db: Database, file: MigrationFile, run: ScriptRun, cleanVersion: int)
    requires db.fates == []
    ensures var (next, ok) := ApplyStep(db, file, run, cleanVersion);
            ok && next.fates == [] && next.journal == db.journal + [run]
  {
  }

  lemma AfterUp(db: Database, next: Database, ok: bool, files: seq<MigrationFile>, k: nat)
    requires Ascending(files) && k < |files| && Clean(db, files, k)
    requires Attempted(db, next, ok, files[k].version, RanUp(files[k].version), files[k].version)
    ensures ok ==> Clean(next, files, k + 1) && next.journal == db.journal + [RanUp(files[k].version)]
    ensures !ok ==> Consistent(next, files)
  {
    var run := RanUp(files[k].version);
    JournalPush(db.journal, run);
    var vs := Versions(files);
    assert vs[..k + 1] == vs[..k] + [files[k].version];
    assert InPlace(db.journal + [run]) == Some(vs[..k + 1]);
    assert Clean(next, files, k) || Torn(next, files, k) || Clean(next, files, k + 1);
  }

  lemma AfterDown(db: Database, next: Database, ok: bool, files: seq<MigrationFile>, k: nat)
    requires Ascending(files) && k < |files| && Clean(db, files, k + 1)
    requires Attempted(db, next, ok, files[k].version, RanDown(files[k].version),
                       CleanVersion(files, k))
    ensures ok ==> Clean(next, files, k) && next.journal == db.journal + [RanDown(files[k].version)]
    ensures !ok ==> Consistent(next, files)
  {
    var run := RanDown(files[k].version);
    JournalPush(db.journal, run);
    var vs := Versions(files);
    assert Front(vs[..k + 1]) == vs[..k];
    assert InPlace(db.journal + [run]) == Some(vs[..k]);
    assert Clean(next, files, k + 1) || Torn(next, files, k) || Clean(next, files, k);
  }

  function UpRuns(files: seq<MigrationFile>): seq<ScriptRun> {
    seq(|files|, i requires 0 <= i < |files| => RanUp(files[i].version))
  }

  /** The up loop's first pending migration: what its attempt leaves, and how the loop goes on. */
  lemma AttemptUp(db: Database, ups: seq<MigrationFile>, version: int) returns (next: Database, ok: bool)
    requires ups != [] && ups[0].version >= 0 && version < ups[0].version
    ensures Attempted(db, next, ok, ups[0].version, RanUp(ups[0].version), ups[0].version)
    ensures db.fates == [] ==> ok && next.fates == []
    ensures UpFrom(db, ups, version) == if ok then UpFrom(next, ups[1..], ups[0].version) else (next, false)
  {
    var run := RanUp(ups[0].version);
    ApplyAttempts(db, ups[0], run, ups[0].version);
    if db.fates == [] { CalmApply(db, ups[0], run, ups[0].version); }
    var step := ApplyStep(db, ups[0], run, ups[0].version);
    next, ok := step.0, step.1;
  }

  /** One turn of the up loop on a clean prefix. */
  lemma UpOne(db: Database, files: seq<MigrationFile>, k: nat, rest: seq<MigrationFile>, downs: map<int, MigrationFile>)
    returns (next: Database, ok: bool)
    requires Ascending(files) && k < |files| && Clean(db, files, k) && rest == files[k..]
    ensures ok ==> Clean(next, files, k + 1)
    ensures !ok ==> Consistent(next, files)
    ensures Follows(db.journal, files, downs) ==> Follows(next.journal, files, downs)
    ensures UpFrom(db, rest, CleanVersion(files, k))
         == if ok then UpFrom(next, rest[1..], CleanVersion(files, k + 1)) else (next, false)
  {
    next, ok := AttemptUp(db, rest, CleanVersion(files, k));
    AfterUp(db, next, ok, files, k);
    if Follows(db.journal, files, downs) { UpFollows(db, next, ok, files, k, downs); }
  }

  /** From a clean prefix the up loop either completes the whole file set or leaves a consistent table. */
  lemma {:induction false} UpFromKeeps(db: Database, files: seq<MigrationFile>, k: nat, rest: seq<MigrationFile>,
                                       end: (Database, bool))
    requires Ascending(files) && k <= |files| && Clean(db, files, k) && rest == files[k..]
    requires end == UpFrom(db, rest, CleanVersion(files, k))
    ensures if end.1 then Clean(end.0, files, |files|) else Consistent(end.0, files)
    decreases |files| - k
  {
    if k < |files| {
      assert rest[0] == files[k] && rest[1..] == files[k + 1..];
      var next, ok := UpOne(db, files, k, rest, map[]);
      if ok { UpFromKeeps(next, files, k + 1, rest[1..], end); }
    }
  }

  /** The loop skips what is already in place. */
  lemma {:induction false} UpFromSkips(db: Database, files: seq<MigrationFile>, i: nat, k: nat, version: int)
    requires i <= k <= |files| && forall j :: i <= j < k ==> files[j].version <= version
    ensures UpFrom(db, files[i..], version) == UpFrom(db, files[k..], version)
    decreases k - i
  {
    if i < k {
      assert files[i..][0] == files[i] && files[i..][1..] == files[i + 1..];
      UpFromSkips(db, files, i + 1, k, version);
    }
  }

  /** A successful up loop has run exactly the newer scripts, in order. */
  lemma {:induction false} UpFromRuns(db: Database, ups: seq<MigrationFile>, version: int)
    requires Ascending(ups) && (ups != [] ==> version < ups[0].version)
    ensures var (next, ok) := UpFrom(db, ups, version); ok ==> next.journal == db.journal + UpRuns(ups)
    decreases |ups|
  {
    if ups != [] {
      var next, ok := AttemptUp(db, ups, version);
      if ok {
        UpFromRuns(next, ups[1..], ups[0].version);
        assert UpRuns(ups) == [RanUp(ups[0].version)] + UpRuns(ups[1..]);
        Reassociate(db.journal, RanUp(ups[0].version), UpRuns(ups[1..]));
      }
    }
  }

  /** Fates are the environment's business: they do not enter Clean, Torn or Consistent. */
  lemma ForgetFates(db: Database, files: seq<MigrationFile>)
    ensures Consistent(db, files) ==> Consistent(db.(fates := Later(db.fates)), files)
  {
    var read := db.(fates := Later(db.fates));
    forall k: nat | Clean(db, files, k) ensures Clean(read, files, k) {}
    forall k: nat | Torn(db, files, k) ensures Torn(read, files, k) {}
  }

  lemma UpFromClean(db: Database, files: seq<MigrationFile>, k: nat)
    requires Ascending(files) && Clean(db, files, k)
    ensures var (next, ok) := UpFrom(db, files, CleanVersion(files, k));
            Consistent(next, files) && (ok ==> Clean(next, files, |files|))
  {
    UpFromSkips(db, files, 0, k, CleanVersion(files, k));
    assert files[0..] == files;
    UpFromKeeps(db, files, k, files[k..], UpFrom(db, files[k..], CleanVersion(files, k)));
  }

  lemma UpKeeps(db: Database, files: seq<MigrationFile>)
    requires Ascending(files) && Consistent(db, files)
    ensures Consistent(UpRun(db, files).0, files)
    ensures UpRun(db, files).1 ==> Clean(UpRun(db, files).0, files, |files|)
  {
    ForgetFates(db, files);
    var read := db.(fates := Later(db.fates));
    if NextFate(db.fates) == Done && (read.row.None? || !read.row.value.dirty) {
      var k: nat :| Clean(read, files, k);
      UpFromClean(read, files, k);
    }
  }

  lemma {:induction false} DownFromSkips(db: Database, files: seq<MigrationFile>, n: nat, k: nat,
                                         downs: map<int, MigrationFile>, version: int)
    requires k <= n <= |files| && forall i :: k <= i < n ==> files[i].version > version
    ensures DownFrom(db, files, n, downs, version) == DownFrom(db, files, k, downs, version)
    decreases n
  {
    if k < n { DownFromSkips(db, files, n - 1, k, downs, version); }
  }

  /** The same for the down loop. */
  lemma AttemptDown(db: Database, files: seq<MigrationFile>, n: nat, downs: map<int, MigrationFile>, version: int)
    returns (next: Database, ok: bool)
    requires Ascending(files) && Filed(downs) && 0 < n <= |files|
    requires files[n - 1].version <= version && files[n - 1].version in downs
    ensures Attempted(db, next, ok, files[n - 1].version, RanDown(files[n - 1].version), CleanVersion(files, n - 1))
    ensures db.fates == [] ==>
              ok && next.fates == [] && next.journal == db.journal + [RanDown(files[n - 1].version)]
    ensures DownFrom(db, files, n, downs, version)
         == if ok then DownFrom(next, files, n - 1, downs, version) else (next, false)
  {
    var v, cleanVersion := files[n - 1].version, CleanVersion(files, n - 1);
    ApplyAttempts(db, downs[v], RanDown(v), cleanVersion);
    if db.fates == [] { CalmApply(db, downs[v], RanDown(v), cleanVersion); }
    var step := ApplyStep(db, downs[v], RanDown(v), cleanVersion);
    next, ok := step.0, step.1;
  }

  /** One turn of the down loop: what it leaves, and how the loop goes on. */
  lemma DownOne(db: Database, files: seq<MigrationFile>, n: nat, downs: map<int, MigrationFile>, version: int)
    returns (next: Database, ok: bool)
    requires Ascending(files) && Filed(downs) && 0 < n <= |files| && Clean(db, files, n)
    requires files[n - 1].version <= version && files[n - 1].version in downs
    ensures ok ==> Clean(next, files, n - 1)
    ensures !ok ==> Consistent(next, files)
    ensures Follows(db.journal, files, downs) ==> Follows(next.journal, files, downs)
    ensures DownFrom(db, files, n, downs, version)
         == if ok then DownFrom(next, files, n - 1, downs, version) else (next, false)
  {
    next, ok := AttemptDown(db, files, n, downs, version);
    DownLeaves(db, next, ok, files, n - 1, downs);
  }

  lemma DownLeaves(db: Database, next: Database, ok: bool, files: seq<MigrationFile>, k: nat,
                   downs: map<int, MigrationFile>)
    requires Ascending(files) && k < |files| && Clean(db, files, k + 1) && files[k].version in downs
    requires Attempted(db, next, ok, files[k].version, RanDown(files[k].version), CleanVersion(files, k))
    ensures if ok then Clean(next, files, k) else Consistent(next, files)
    ensures Follows(db.journal, files, downs) ==> Follows(next.journal, files, downs)
  {
    AfterDown(db, next, ok, files, k);
    if Follows(db.journal, files, downs) { DownFollows(db, next, ok, files, k, downs); }
  }

  lemma {:induction false} DownFromKeeps(db: Database, files: seq<MigrationFile>, n: nat,
                                         downs: map<int, MigrationFile>, version: int, end: (Database, bool))
    requires Ascending(files) && Filed(downs) && n <= |files| && Clean(db, files, n)
    requires forall i :: 0 <= i < n ==> files[i].version <= version
    requires end == DownFrom(db, files, n, downs, version)
    ensures Consistent(end.0, files) && (end.1 ==> Clean(end.0, files, 0))
    decreases n
  {
    if n > 0 && files[n - 1].version in downs {
      var next, ok := DownOne(db, files, n, downs, version);
      if ok { DownFromKeeps(next, files, n - 1, downs, version, end); }
    }
  }

  lemma DownKeeps(db: Database, files: seq<MigrationFile>, downs: map<int, MigrationFile>)
    requires Ascending(files) && Filed(downs) && Consistent(db, files)
    ensures Consistent(DownRun(db, files, downs).0, files)
    ensures DownRun(db, files, downs).1 ==> Clean(DownRun(db, files, downs).0, files, 0)
  {
    ForgetFates(db, files);
    var read := db.(fates := Later(db.fates));
    if NextFate(db.fates) == Done && (read.row.None? || !read.row.value.dirty) {
      var k: nat :| Clean(read, files, k);
      if k > 0 {
        var version := files[k - 1].version;
        DownFromSkips(read, files, |files|, k, downs, version);
        DownFromKeeps(read, files, k, downs, version, DownFrom(read, files, k, downs, version));
      }
    }
  }

  // ---------------------------------------------------------------- main results

  /** Whatever sequence of runs is attempted and wherever each of them stops, the version table tells the truth. */
  lemma {:induction false} EveryHistoryIsConsistent(commands: seq<Command>, fates: seq<Fate>,
                                                    files: seq<MigrationFile>, downs: map<int, MigrationFile>)
    requires Ascending(files) && Filed(downs)
    ensures Consistent(History(Fresh(fates), commands, files, downs), files)
    decreases |commands|
  {
    if commands == [] {
      assert Clean(Fresh(fates), files, 0);
    } else {
      EveryHistoryIsConsistent(Front(commands), fates, files, downs);
      var before := History(Fresh(fates), Front(commands), files, downs);
      UpKeeps(before, files);
      DownKeeps(before, files, downs);
    }
  }

  lemma {:induction false} InPlaceOfPrefix(journal: seq<ScriptRun>, n: nat)
    requires n <= |journal| && InPlace(journal).Some?
    ensures InPlace(journal[..n]).Some?
    decreases |journal|
  {
    if n == |journal| {
      assert journal[..n] == journal;
    } else {
      InPlaceOfPrefix(Front(journal), n);
      assert Front(journal)[..n] == journal[..n];
    }
  }

  lemma {:induction false} InPlaceAscends(journal: seq<ScriptRun>)
    requires InPlace(journal).Some?
    ensures var stack := InPlace(journal).value; forall i, j :: 0 <= i < j < |stack| ==> stack[i] < stack[j]
  {
    if journal != [] { InPlaceAscends(Front(journal)); }
  }

  /** No run, after any history, ever executes the up script of a migration that is already in place. */
  lemma NeverAppliedTwice(commands: seq<Command>, fates: seq<Fate>, files: seq<MigrationFile>,
                          downs: map<int, MigrationFile>, at: nat)
    requires Ascending(files) && Filed(downs)
    requires var journal := History(Fresh(fates), commands, files, downs).journal;
             at < |journal| && journal[at].RanUp?
    ensures var journal := History(Fresh(fates), commands, files, downs).journal;
            && InPlace(journal[..at]).Some?
            && journal[at].version !in InPlace(journal[..at]).value
  {
    EveryHistoryIsConsistent(commands, fates, files, downs);
    var journal := History(Fresh(fates), commands, files, downs).journal;
    InPlaceOfPrefix(journal, at);
    InPlaceOfPrefix(journal, at + 1);
    JournalPush(journal[..at], journal[at]);
    assert journal[..at + 1] == journal[..at] + [journal[at]];
    InPlaceAscends(journal[..at]);
  }

  /** A dirty table stays exactly as it is, and no script runs, whatever runs are attempted. */
  lemma {:induction false} DirtyIsFinal(db: Database, commands: seq<Command>, files: seq<MigrationFile>,
                                        downs: map<int, MigrationFile>)
    requires db.row.Some? && db.row.value.dirty && db.row.value.version >= 0
    ensures var after := History(db, commands, files, downs); after.row == db.row && after.journal == db.journal
    decreases |commands|
  {
    if commands != [] { DirtyIsFinal(db, Front(commands), files, downs); }
  }

  lemma {:induction false} CalmUpFrom(db: Database, ups: seq<MigrationFile>, version: int)
    requires db.fates == []
    ensures UpFrom(db, ups, version).1 && UpFrom(db, ups, version).0.fates == []
    decreases |ups|
  {
    if ups != [] {
      if ups[0].version <= version {
        CalmUpFrom(db, ups[1..], version);
      } else {
        CalmApply(db, ups[0], RanUp(ups[0].version), ups[0].version);
        CalmUpFrom(ApplyStep(db, ups[0], RanUp(ups[0].version), ups[0].version).0, ups[1..], ups[0].version);
      }
    }
  }

  lemma CalmUpRun(db: Database, files: seq<MigrationFile>, k: nat)
    requires Ascending(files) && Clean(db, files, k) && db.fates == []
    ensures UpRun(db, files) == UpFrom(db, files[k..], CleanVersion(files, k))
  {
    assert files[0..] == files;
    UpFromSkips(db, files, 0, k, CleanVersion(files, k));
  }

  /** With no faults, Up succeeds on every clean table: it runs exactly the pending scripts, in order. */
  lemma UpCompletes(db: Database, files: seq<MigrationFile>, k: nat)
    requires Ascending(files) && Clean(db, files, k) && db.fates == []
    ensures var (done, ok) := UpRun(db, files);
            ok && Clean(done, files, |files|) && done.journal == db.journal + UpRuns(files[k..])
  {
    CalmUpRun(db, files, k);
    CalmUpFrom(db, files[k..], CleanVersion(files, k));
    UpFromKeeps(db, files, k, files[k..], UpFrom(db, files[k..], CleanVersion(files, k)));
    UpFromRuns(db, files[k..], CleanVersion(files, k));
  }

  /** Once a run of Up has succeeded, another one changes nothing. */
  lemma SecondUpIsNoOp(db: Database, files: seq<MigrationFile>)
    requires Ascending(files) && Consistent(db, files) && UpRun(db, files).1
    ensures var done := UpRun(db, files).0.(fates := []); UpRun(done, files) == (done, true)
  {
    UpKeeps(db, files);
    var done := UpRun(db, files).0.(fates := []);
    assert Clean(done, files, |files|);
    CalmUpRun(done, files, |files|);
  }

  function DownRuns(files: seq<MigrationFile>, n: nat): seq<ScriptRun>
    requires n <= |files|
  {
    if n == 0 then [] else [RanDown(files[n - 1].version)] + DownRuns(files, n - 1)
  }

  /** The newest migration among the first k that has no down script, plus one; zero when every one has. */
  function Stuck(files: seq<MigrationFile>, k: nat, downs: map<int, MigrationFile>): (s: nat)
    requires k <= |files|
    ensures s <= k && (forall i :: s <= i < k ==> files[i].version in downs)
    ensures s > 0 ==> files[s - 1].version !in downs
  {
    if k == 0 then 0 else if files[k - 1].version !in downs then k else Stuck(files, k - 1, downs)
  }

  lemma {:induction false} CalmDownFrom(db: Database, files: seq<MigrationFile>, n: nat,
                                        downs: map<int, MigrationFile>, version: int, end: (Database, bool))
    requires Ascending(files) && Filed(downs) && n <= |files| && Clean(db, files, n) && db.fates == []
    requires forall i :: 0 <= i < n ==> files[i].version <= version
    requires end == DownFrom(db, files, n, downs, version)
    ensures end.1 == (Stuck(files, n, downs) == 0) && Clean(end.0, files, Stuck(files, n, downs))
    decreases n
  {
    if n > 0 && files[n - 1].version in downs {
      var next, ok := AttemptDown(db, files, n, downs, version);
      AfterDown(db, next, ok, files, n - 1);
      CalmDownFrom(next, files, n - 1, downs, version, end);
    }
  }

  lemma {:induction false} DownFromRuns(db: Database, files: seq<MigrationFile>, n: nat,
                                        downs: map<int, MigrationFile>, version: int, end: (Database, bool))
    requires Ascending(files) && Filed(downs) && n <= |files| && db.fates == []
    requires forall i :: 0 <= i < n ==> files[i].version <= version
    requires end == DownFrom(db, files, n, downs, version)
    ensures end.0.journal + DownRuns(files, Stuck(files, n, downs)) == db.journal + DownRuns(files, n)
    decreases n
  {
    if n > 0 && files[n - 1].version in downs {
      var next, ok := AttemptDown(db, files, n, downs, version);
      DownFromRuns(next, files, n - 1, downs, version, end);
      Reassociate(db.journal, RanDown(files[n - 1].version), DownRuns(files, n - 1));
    }
  }

  lemma Reassociate(a: seq<ScriptRun>, x: ScriptRun, b: seq<ScriptRun>)
    ensures (a + [x]) + b == a + ([x] + b)
  {
  }

  /**
   * With no faults, Down runs the down scripts in exactly the reverse order of the ups, and stops, clean and still
   * consistent, at the newest applied migration without a down script; it succeeds iff there is none.
   */
  lemma DownUnwinds(db: Database, files: seq<MigrationFile>, k: nat, downs: map<int, MigrationFile>)
    requires Ascending(files) && Filed(downs) && Clean(db, files, k) && db.fates == []
    ensures var (done, ok) := DownRun(db, files, downs);
            var s := Stuck(files, k, downs);
            && ok == (s == 0)
            && Clean(done, files, s)
            && done.journal + DownRuns(files, s) == db.journal + DownRuns(files, k)
  {
    if k > 0 {
      var version := files[k - 1].version;
      DownFromSkips(db, files, |files|, k, downs, version);
      var end := DownFrom(db, files, k, downs, version);
      CalmDownFrom(db, files, k, downs, version, end);
      DownFromRuns(db, files, k, downs, version, end);
    }
  }

  // ---------------------------------------------------------------- effect on the schema

  /** The schema after a journal, when up(v) and down(v) are what the two scripts of version v do to a schema. */
  ghost function Play<S(!new)>(journal: seq<ScriptRun>, up: (int, S) -> S, down: (int, S) -> S, schema: S): S {
    if journal == [] then schema
    else
      var before := Play(Front(journal), up, down, schema);
      match Last(journal)
      case RanUp(v) => up(v, before)
      case RanDown(v) => down(v, before)
  }

  ghost function PlayUps<S(!new)>(versions: seq<int>, up: (int, S) -> S, schema: S): S {
    if versions == [] then schema else up(Last(versions), PlayUps(Front(versions), up, schema))
  }

  /**
   * Where a migration of the file set has a down script, running it right after its up script, on the schema that the
   * older migrations made, restores that schema.  Nothing is asked of migrations without a down script.
   */
  ghost predicate Undoes<S(!new)>(files: seq<MigrationFile>, downs: map<int, MigrationFile>, up: (int, S) -> S,
                                  down: (int, S) -> S, schema: S) {
    forall k: nat :: 0 < k <= |files| && files[k - 1].version in downs ==>
      down(files[k - 1].version, PlayUps(Versions(files)[..k], up, schema))
        == PlayUps(Versions(files)[..k - 1], up, schema)
  }

  /** At every moment a prefix of the file set was in place, and only existing down scripts ran. */
  ghost predicate Follows(journal: seq<ScriptRun>, files: seq<MigrationFile>, downs: map<int, MigrationFile>) {
    && InPlace(journal).Some? && InPlace(journal).value <= Versions(files)
    && (journal != [] ==>
          Follows(Front(journal), files, downs) && (Last(journal).RanDown? ==> Last(journal).version in downs))
  }

  lemma {:induction false} JournalCancels<S(!new)>(journal: seq<ScriptRun>, files: seq<MigrationFile>,
                                                   downs: map<int, MigrationFile>, up: (int, S) -> S,
                                                   down: (int, S) -> S, schema: S)
    requires Undoes(files, downs, up, down, schema) && Follows(journal, files, downs)
    ensures Play(journal, up, down, schema) == PlayUps(InPlace(journal).value, up, schema)
  {
    if journal != [] {
      JournalCancels(Front(journal), files, downs, up, down, schema);
      var stack := InPlace(Front(journal)).value;
      match Last(journal)
      case RanUp(v) =>
        assert Front(stack + [v]) == stack && Last(stack + [v]) == v;
      case RanDown(v) =>
        var k := |stack|;
        assert stack == Versions(files)[..k] && Front(stack) == Versions(files)[..k - 1];
        assert files[k - 1].version == v;
    }
  }

  lemma PlaceAfter(journal: seq<ScriptRun>, run: ScriptRun, files: seq<MigrationFile>, downs: map<int, MigrationFile>)
    requires Follows(journal, files, downs) && (run.RanDown? ==> run.version in downs)
    requires InPlace(journal + [run]).Some? && InPlace(journal + [run]).value <= Versions(files)
    ensures Follows(journal + [run], files, downs)
  {
    JournalPush(journal, run);
  }

  lemma UpFollows(db: Database, next: Database, ok: bool, files: seq<MigrationFile>, k: nat,
                  downs: map<int, MigrationFile>)
    requires Ascending(files) && k < |files| && Clean(db, files, k) && Follows(db.journal, files, downs)
    requires Attempted(db, next, ok, files[k].version, RanUp(files[k].version), files[k].version)
    ensures Follows(next.journal, files, downs)
  {
    var run, vs := RanUp(files[k].version), Versions(files);
    JournalPush(db.journal, run);
    assert vs[..k + 1] == vs[..k] + [files[k].version];
    assert InPlace(db.journal + [run]) == Some(vs[..k + 1]);
    PlaceAfter(db.journal, run, files, downs);
  }

  lemma DownFollows(db: Database, next: Database, ok: bool, files: seq<MigrationFile>, k: nat,
                    downs: map<int, MigrationFile>)
    requires Ascending(files) && k < |files| && Clean(db, files, k + 1) && Follows(db.journal, files, downs)
    requires files[k].version in downs
    requires Attempted(db, next, ok, files[k].version, RanDown(files[k].version), CleanVersion(files, k))
    ensures Follows(next.journal, files, downs)
  {
    var run, vs := RanDown(files[k].version), Versions(files);
    JournalPush(db.journal, run);
    assert Front(vs[..k + 1]) == vs[..k];
    assert InPlace(db.journal + [run]) == Some(vs[..k]);
    PlaceAfter(db.journal, run, files, downs);
  }

  lemma {:induction false} UpFromFollows(db: Database, files: seq<MigrationFile>, k: nat, rest: seq<MigrationFile>,
                                         downs: map<int, MigrationFile>, end: Database)
    requires Ascending(files) && k <= |files| && Clean(db, files, k) && Follows(db.journal, files, downs)
    requires rest == files[k..] && end == UpFrom(db, rest, CleanVersion(files, k)).0
    ensures Follows(end.journal, files, downs)
    decreases |files| - k
  {
    if k < |files| {
      assert rest[0] == files[k] && rest[1..] == files[k + 1..];
      var next, ok := UpOne(db, files, k, rest, downs);
      if ok { UpFromFollows(next, files, k + 1, rest[1..], downs, end); }
    }
  }

  lemma DownStops(db: Database, files: seq<MigrationFile>, n: nat, downs: map<int, MigrationFile>, version: int)
    requires n <= |files| && (n > 0 ==> files[n - 1].version <= version && files[n - 1].version !in downs)
    ensures DownFrom(db, files, n, downs, version) == (db, n == 0)
  {
  }

  lemma {:induction false} DownFromFollows(db: Database, files: seq<MigrationFile>, n: nat,
                                           downs: map<int, MigrationFile>, version: int, end: Database)
    requires Ascending(files) && Filed(downs) && n <= |files| && Clean(db, files, n)
    requires Follows(db.journal, files, downs) && forall i :: 0 <= i < n ==> files[i].version <= version
    requires end == DownFrom(db, files, n, downs, version).0
    ensures Follows(end.journal, files, downs)
    decreases n
  {
    if n > 0 && files[n - 1].version in downs {
      var next, ok := DownOne(db, files, n, downs, version);
      if ok { DownFromFollows(next, files, n - 1, downs, version, end); }
    } else {
      DownStops(db, files, n, downs, version);
    }
  }

  lemma UpRunFollows(db: Database, files: seq<MigrationFile>, downs: map<int, MigrationFile>)
    requires Ascending(files) && Consistent(db, files) && Follows(db.journal, files, downs)
    ensures Follows(UpRun(db, files).0.journal, files, downs)
  {
    ForgetFates(db, files);
    var read := db.(fates := Later(db.fates));
    if NextFate(db.fates) == Done && (read.row.None? || !read.row.value.dirty) {
      var k: nat :| Clean(read, files, k);
      PendingFollow(read, files, k, downs, CleanVersion(files, k));
    }
  }

  lemma PendingFollow(db: Database, files: seq<MigrationFile>, k: nat, downs: map<int, MigrationFile>, version: int)
    requires Ascending(files) && k <= |files| && Clean(db, files, k) && Follows(db.journal, files, downs)
    requires version == CleanVersion(files, k)
    ensures Follows(UpFrom(db, files, version).0.journal, files, downs)
  {
    UpFromSkips(db, files, 0, k, version);
    assert files[0..] == files;
    UpFromFollows(db, files, k, files[k..], downs, UpFrom(db, files[k..], version).0);
  }

  lemma DownRunFollows(db: Database, files: seq<MigrationFile>, downs: map<int, MigrationFile>)
    requires Ascending(files) && Filed(downs) && Consistent(db, files) && Follows(db.journal, files, downs)
    ensures Follows(DownRun(db, files, downs).0.journal, files, downs)
  {
    ForgetFates(db, files);
    var read := db.(fates := Later(db.fates));
    if NextFate(db.fates) == Done && (read.row.None? || !read.row.value.dirty) {
      var k: nat :| Clean(read, files, k);
      if k > 0 { RollbackFollows(read, files, k, downs, files[k - 1].version); }
    }
  }

  lemma RollbackFollows(db: Database, files: seq<MigrationFile>, k: nat, downs: map<int, MigrationFile>, version: int)
    requires Ascending(files) && Filed(downs) && 0 < k <= |files| && Clean(db, files, k)
    requires Follows(db.journal, files, downs) && version == files[k - 1].version
    ensures Follows(DownFrom(db, files, |files|, downs, version).0.journal, files, downs)
  {
    DownFromSkips(db, files, |files|, k, downs, version);
    DownFromFollows(db, files, k, downs, version, DownFrom(db, files, k, downs, version).0);
  }

  /** Every history, however interrupted, moves along the file set one migration at a time. */
  lemma {:induction false} EveryHistoryFollows(commands: seq<Command>, fates: seq<Fate>, files: seq<MigrationFile>,
                                               downs: map<int, MigrationFile>)
    requires Ascending(files) && Filed(downs)
    ensures Follows(History(Fresh(fates), commands, files, downs).journal, files, downs)
    decreases |commands|
  {
    if commands != [] {
      EveryHistoryFollows(Front(commands), fates, files, downs);
      EveryHistoryIsConsistent(Front(commands), fates, files, downs);
      var before := History(Fresh(fates), Front(commands), files, downs);
      UpRunFollows(before, files, downs);
      DownRunFollows(before, files, downs);
    }
  }

  /**
   * If the down scripts there are undo their up scripts then, after any history of partial runs, the schema is the
   * initial one with exactly a prefix of the migrations applied, in order: those in place.
   */
  lemma SchemaFollowsHistory<S(!new)>(commands: seq<Command>, fates: seq<Fate>, files: seq<MigrationFile>,
                                      downs: map<int, MigrationFile>, up: (int, S) -> S, down: (int, S) -> S, schema: S)
    requires Ascending(files) && Filed(downs) && Undoes(files, downs, up, down, schema)
    ensures var db := History(Fresh(fates), commands, files, downs);
            && InPlace(db.journal).Some?
            && InPlace(db.journal).value <= Versions(files)
            && Play(db.journal, up, down, schema) == PlayUps(InPlace(db.journal).value, up, schema)
  {
    EveryHistoryFollows(commands, fates, files, downs);
    JournalCancels(History(Fresh(fates), commands, files, downs).journal, files, downs, up, down, schema);
  }

  /** A Down that reports success, after any history, has restored the initial schema and emptied the version table. */
  lemma DownRestores<S(!new)>(commands: seq<Command>, fates: seq<Fate>, files: seq<MigrationFile>,
                              downs: map<int, MigrationFile>, up: (int, S) -> S, down: (int, S) -> S, schema: S)
    requires Ascending(files) && Filed(downs) && Undoes(files, downs, up, down, schema)
    requires DownRun(History(Fresh(fates), commands, files, downs), files, downs).1
    ensures var after := DownRun(History(Fresh(fates), commands, files, downs), files, downs).0;
            after.row == None && Play(after.journal, up, down, schema) == schema
  {
    var db := History(Fresh(fates), commands, files, downs);
    EveryHistoryIsConsistent(commands, fates, files, downs);
    EveryHistoryFollows(commands, fates, files, downs);
    DownEmpties(db, files, downs, up, down, schema);
  }

  lemma DownEmpties<S(!new)>(db: Database, files: seq<MigrationFile>, downs: map<int, MigrationFile>,
                             up: (int, S) -> S, down: (int, S) -> S, schema: S)
    requires Ascending(files) && Filed(downs) && Undoes(files, downs, up, down, schema)
    requires Consistent(db, files) && Follows(db.journal, files, downs) && DownRun(db, files, downs).1
    ensures var after := DownRun(db, files, downs).0;
            after.row == None && Play(after.journal, up, down, schema) == schema
  {
    DownKeeps(db, files, downs);
    DownRunFollows(db, files, downs);
    var after := DownRun(db, files, downs).0;
    assert Versions(files)[..0] == [];
    JournalCancels(after.journal, files, downs, up, down, schema);
  }

  // ---------------------------------------------------------------- which faults a run survives

  /** The first n coming steps succeed. */
  predicate AllDone(fates: seq<Fate>, n: nat) {
    forall i :: 0 <= i < n && i < |fates| ==> fates[i] == Done
  }

  /** What is left of the fates after n steps. */
  function After(fates: seq<Fate>, n: nat): seq<Fate> {
    if n <= |fates| then fates[n..] else []
  }

  /** Database steps of one migration: mark dirty, read the script, run it unless it is blank, mark clean. */
  function Steps(file: MigrationFile): nat {
    if file.blank then 3 else 4
  }

  lemma AllDoneAdds(fates: seq<Fate>, m: nat, n: nat)
    ensures AllDone(fates, m + n) <==> AllDone(fates, m) && AllDone(After(fates, m), n)
    ensures After(After(fates, m), n) == After(fates, m + n)
  {
    if AllDone(fates, m) && AllDone(After(fates, m), n) {
      forall i | 0 <= i < m + n && i < |fates| ensures fates[i] == Done {
        if i >= m { assert After(fates, m)[i - m] == fates[i]; }
      }
    }
    if AllDone(fates, m + n) {
      forall i | 0 <= i < n && i < |After(fates, m)| ensures After(fates, m)[i] == Done {
        assert After(fates, m)[i] == fates[m + i];
      }
    }
  }

  /** The fate of writing the version row: done, lost before it took effect, or done without the runner learning it. */
  lemma SetVersionFate(db: Database, fate: Fate, rest: seq<Fate>, version: int, dirty: bool)
    requires db.fates == [fate] + rest
    ensures var (next, ok) := SetVersionStep(db, version, dirty);
            && (ok <==> fate == Done) && next.fates == rest && next.journal == db.journal
            && (fate == LostBefore ==> next.row == db.row)
            && (fate != LostBefore && version >= 0 ==> next.row == Some(VersionRow(version, dirty)))
            && (fate != LostBefore && version < 0 ==> next.row == None)
  {
  }

  /** The fate of a script that could be read. */
  lemma RunScriptFate(db: Database, fate: Fate, rest: seq<Fate>, file: MigrationFile, run: ScriptRun)
    requires db.fates == [Done, fate] + rest && !file.blank
    ensures var (next, ok) := RunScriptStep(db, file, run);
            && (ok <==> fate == Done) && next.fates == rest && next.row == db.row
            && next.journal == if fate == LostBefore then db.journal else db.journal + [run]
  {
    assert ([Done, fate] + rest)[1..] == [fate] + rest && ([fate] + rest)[1..] == rest;
  }

  lemma SetVersionSucceeds(db: Database, version: int, dirty: bool)
    ensures var (next, ok) := SetVersionStep(db, version, dirty);
            && (ok <==> AllDone(db.fates, 1))
            && (ok ==> next.fates == After(db.fates, 1))
  {
  }

  lemma RunScriptSucceeds(db: Database, file: MigrationFile, run: ScriptRun)
    ensures var (next, ok) := RunScriptStep(db, file, run);
            && (ok <==> AllDone(db.fates, Steps(file) - 2))
            && (ok ==> next.fates == After(db.fates, Steps(file) - 2))
  {
    AllDoneAdds(db.fates, 1, 1);
  }

  lemma ApplySucceeds(db: Database, file: MigrationFile, run: ScriptRun, cleanVersion: int)
    ensures var (next, ok) := ApplyStep(db, file, run, cleanVersion);
            && (ok <==> AllDone(db.fates, Steps(file)))
            && (ok ==> next.fates == After(db.fates, Steps(file)))
  {
    var (marked, ok) := SetVersionStep(db, file.version, true);
    SetVersionSucceeds(db, file.version, true);
    AllDoneAdds(db.fates, 1, Steps(file) - 2);
    AllDoneAdds(db.fates, Steps(file) - 1, 1);
    if ok {
      RunScriptSucceeds(marked, file, run);
      var (ran, ok) := RunScriptStep(marked, file, run);
      if ok { SetVersionSucceeds(ran, cleanVersion, false); }
    }
  }

  /** Database steps of the migrations newer than `version`. */
  function PendingSteps(ups: seq<MigrationFile>, version: int): nat {
    if ups == [] then 0
    else (if ups[0].version > version then Steps(ups[0]) else 0) + PendingSteps(ups[1..], version)
  }

  lemma {:induction false} AllPending(ups: seq<MigrationFile>, version: int, newer: int)
    requires version <= newer && forall i :: 0 <= i < |ups| ==> ups[i].version > newer
    ensures PendingSteps(ups, newer) == PendingSteps(ups, version)
  {
    if ups != [] { AllPending(ups[1..], version, newer); }
  }

  lemma {:induction false} UpFromSucceeds(db: Database, ups: seq<MigrationFile>, version: int)
    requires Ascending(ups)
    ensures UpFrom(db, ups, version).1 <==> AllDone(db.fates, PendingSteps(ups, version))
    decreases |ups|
  {
    if ups != [] {
      if ups[0].version <= version {
        UpFromSucceeds(db, ups[1..], version);
      } else {
        var (next, ok) := ApplyStep(db, ups[0], RanUp(ups[0].version), ups[0].version);
        ApplySucceeds(db, ups[0], RanUp(ups[0].version), ups[0].version);
        AllDoneAdds(db.fates, Steps(ups[0]), PendingSteps(ups[1..], version));
        AllPending(ups[1..], version, ups[0].version);
        if ok { UpFromSucceeds(next, ups[1..], ups[0].version); }
      }
    }
  }

  function RecordedVersion(db: Database): int {
    if db.row.Some? then db.row.value.version else -1
  }

  predicate IsDirty(db: Database) {
    db.row.Some? && db.row.value.dirty
  }

  /** Up succeeds exactly if the table is not dirty and every step of reading it and of the pending migrations does. */
  lemma UpSucceedsExactly(db: Database, ups: seq<MigrationFile>)
    requires Ascending(ups)
    ensures UpRun(db, ups).1 <==> !IsDirty(db) && AllDone(db.fates, 1 + PendingSteps(ups, RecordedVersion(db)))
  {
    AllDoneAdds(db.fates, 1, PendingSteps(ups, RecordedVersion(db)));
    UpFromSucceeds(db.(fates := Later(db.fates)), ups, RecordedVersion(db));
  }

  /** Every one of the first n migrations up to `version` has a down script. */
  ghost predicate CanRollBack(ups: seq<MigrationFile>, n: nat, downs: map<int, MigrationFile>, version: int)
    requires n <= |ups|
  {
    forall i :: 0 <= i < n && ups[i].version <= version ==> ups[i].version in downs
  }

  /** Database steps of rolling back the first n migrations up to `version`. */
  function RollbackSteps(ups: seq<MigrationFile>, n: nat, downs: map<int, MigrationFile>, version: int): nat
    requires n <= |ups|
  {
    if n == 0 then 0
    else (if ups[n - 1].version <= version && ups[n - 1].version in downs then Steps(downs[ups[n - 1].version]) else 0)
         + RollbackSteps(ups, n - 1, downs, version)
  }

  lemma OneMoreToRollBack(ups: seq<MigrationFile>, n: nat, downs: map<int, MigrationFile>, version: int)
    requires 0 < n <= |ups|
    ensures CanRollBack(ups, n, downs, version) <==>
              CanRollBack(ups, n - 1, downs, version) && (ups[n - 1].version <= version ==> ups[n - 1].version in downs)
  {
  }

  /** The newest migration is rolled back by the down script filed under it. */
  lemma DownStepSucceeds(db: Database, ups: seq<MigrationFile>, n: nat, downs: map<int, MigrationFile>, version: int)
    returns (next: Database, ok: bool)
    requires 0 < n <= |ups| && ups[n - 1].version <= version && ups[n - 1].version in downs
    ensures DownFrom(db, ups, n, downs, version)
         == if ok then DownFrom(next, ups, n - 1, downs, version) else (next, false)
    ensures ok <==> AllDone(db.fates, Steps(downs[ups[n - 1].version]))
    ensures ok ==> next.fates == After(db.fates, Steps(downs[ups[n - 1].version]))
  {
    var applied, cleanVersion := ups[n - 1].version, if n >= 2 then ups[n - 2].version else -1;
    ApplySucceeds(db, downs[applied], RanDown(applied), cleanVersion);
    var step := ApplyStep(db, downs[applied], RanDown(applied), cleanVersion);
    next, ok := step.0, step.1;
  }

  lemma {:induction false} DownFromSucceeds(db: Database, ups: seq<MigrationFile>, n: nat,
                                            downs: map<int, MigrationFile>, version: int)
    requires n <= |ups|
    ensures DownFrom(db, ups, n, downs, version).1 <==>
              CanRollBack(ups, n, downs, version) && AllDone(db.fates, RollbackSteps(ups, n, downs, version))
    decreases n
  {
    if n > 0 {
      var applied, rest := ups[n - 1].version, RollbackSteps(ups, n - 1, downs, version);
      OneMoreToRollBack(ups, n, downs, version);
      if applied > version {
        DownFromSucceeds(db, ups, n - 1, downs, version);
      } else if applied in downs {
        var next, ok := DownStepSucceeds(db, ups, n, downs, version);
        AllDoneAdds(db.fates, Steps(downs[applied]), rest);
        assert RollbackSteps(ups, n, downs, version) == Steps(downs[applied]) + rest;
        if ok { DownFromSucceeds(next, ups, n - 1, downs, version); }
      }
    }
  }

  /**
   * Down succeeds exactly if reading the table does and it records no version, or it is not dirty, every migration up
   * to the recorded one has a down script, and every step of running them succeeds.
   */
  lemma DownSucceedsExactly(db: Database, ups: seq<MigrationFile>, downs: map<int, MigrationFile>)
    ensures var version := RecordedVersion(db);
            DownRun(db, ups, downs).1 <==>
              AllDone(db.fates, 1)
              && (version < 0
                  || (!IsDirty(db) && CanRollBack(ups, |ups|, downs, version)
                      && AllDone(db.fates, 1 + RollbackSteps(ups, |ups|, downs, version))))
  {
    AllDoneAdds(db.fates, 1, RollbackSteps(ups, |ups|, downs, RecordedVersion(db)));
    DownFromSucceeds(db.(fates := Later(db.fates)), ups, |ups|, downs, RecordedVersion(db));
  }

  /** A history is its runs one after the other, each from where the one before left the table. */
  lemma HistoryRuns(db: Database, commands: seq<Command>, ups: seq<MigrationFile>, downs: map<int, MigrationFile>)
    ensures History(db, [], ups, downs) == db
    ensures History(db, commands + [Up], ups, downs) == UpRun(History(db, commands, ups, downs), ups).0
    ensures History(db, commands + [Down], ups, downs) == DownRun(History(db, commands, ups, downs), ups, downs).0
  {
    assert Front(commands + [Up]) == commands && Front(commands + [Down]) == commands;
  }

  /** A run that is interrupted once it has marked the table dirty leaves it dirty, and so for ever. */
  lemma InterruptedRunTears(ups: seq<MigrationFile>)
    requires Ascending(ups) && ups != []
    ensures UpRun(Fresh([Done, Done, LostBefore]), ups)
         == (Database(Some(VersionRow(ups[0].version, true)), [], []), false)
  {
    var read := Fresh([Done, LostBefore]);
    assert Later([Done, Done, LostBefore]) == [Done, LostBefore];
    SetVersionFate(read, Done, [LostBefore], ups[0].version, true);
    assert Later([LostBefore]) == [];
  }
}
