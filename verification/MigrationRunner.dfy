/** The migration runner as it executes: file discovery, and a connection whose version table and schema it updates. */
module MigrationRunner {
  import opened Prelude
  import opened Migrations
  import Decimal

  const MAX_INT64: int := 0x7FFF_FFFF_FFFF_FFFF

  datatype Direction = UpScripts | DownScripts

  /** What the file name pattern extracts from a directory entry: the version digits and the direction. */
  datatype FileName = FileName(digits: string, direction: Direction, blank: bool)

  datatype Entry = Entry(isDir: bool, matched: Option<FileName>)

  // ---------------------------------------------------------------- discovery

  ghost predicate WellNamed(entries: seq<Entry>) {
    forall e :: e in entries && e.matched.Some? ==> Decimal.AllDigits(e.matched.value.digits)
  }

  predicate Selects(e: Entry, direction: Direction) {
    !e.isDir && e.matched.Some? && e.matched.value.direction == direction
  }

  function FileOf(e: Entry): MigrationFile
    requires e.matched.Some? && Decimal.AllDigits(e.matched.value.digits)
  {
    MigrationFile(Decimal.Value(e.matched.value.digits), e.matched.value.blank)
  }

  /** The migration files of one direction in directory order. */
  ghost function Candidates(entries: seq<Entry>, direction: Direction): seq<MigrationFile>
    requires WellNamed(entries)
  {
    if entries == [] then []
    else
      var rest := Candidates(Front(entries), direction);
      if Selects(Last(entries), direction) then rest + [FileOf(Last(entries))] else rest
  }

  /** A directory can be used iff every version fits 64 bits and none occurs twice. */
  ghost predicate Usable(files: seq<MigrationFile>) {
    && (forall i :: 0 <= i < |files| ==> files[i].version <= MAX_INT64)
    && (forall i, j :: 0 <= i < j < |files| ==> files[i].version != files[j].version)
  }

  function Insert(f: MigrationFile, sorted: seq<MigrationFile>): (r: seq<MigrationFile>)
    ensures |r| == |sorted| + 1 && forall x :: x in r <==> x == f || x in sorted
  {
    if sorted == [] || f.version <= sorted[0].version then [f] + sorted else [sorted[0]] + Insert(f, sorted[1..])
  }

  /** The order sort.Slice leaves files with distinct versions in. */
  function SortByVersion(files: seq<MigrationFile>): (r: seq<MigrationFile>)
    ensures |r| == |files| && forall x :: x in r <==> x in files
  {
    if files == [] then [] else Insert(files[0], SortByVersion(files[1..]))
  }

  lemma {:induction false} InsertKeeps(f: MigrationFile, sorted: seq<MigrationFile>)
    requires Ascending(sorted) && f.version >= 0
    requires forall x :: x in sorted ==> x.version != f.version
    ensures Ascending(Insert(f, sorted))
  {
    if sorted != [] && f.version > sorted[0].version {
      InsertKeeps(f, sorted[1..]);
      var tail := Insert(f, sorted[1..]);
      forall i | 0 <= i < |tail| ensures tail[i].version > sorted[0].version {
        assert tail[i] in tail;
      }
    }
  }

  lemma {:induction false} SortKeeps(files: seq<MigrationFile>)
    requires forall i :: 0 <= i < |files| ==> files[i].version >= 0
    requires forall i, j :: 0 <= i < j < |files| ==> files[i].version != files[j].version
    ensures Ascending(SortByVersion(files))
  {
    if files != [] {
      SortKeeps(files[1..]);
      forall x | x in files[1..] ensures x.version != files[0].version {}
      InsertKeeps(files[0], SortByVersion(files[1..]));
    }
  }

  ghost function Discovered(entries: seq<Entry>, direction: Direction): Option<seq<MigrationFile>>
    requires WellNamed(entries)
  {
    var files := Candidates(entries, direction);
    if Usable(files) then Some(SortByVersion(files)) else None
  }

  lemma {:induction false} CandidatesGrow(entries: seq<Entry>, direction: Direction, n: nat)
    requires WellNamed(entries) && n <= |entries|
    ensures Candidates(entries[..n], direction) <= Candidates(entries, direction)
    decreases |entries|
  {
    if n < |entries| {
      CandidatesGrow(Front(entries), direction, n);
      assert Front(entries)[..n] == entries[..n];
    } else {
      assert entries[..n] == entries;
    }
  }

  lemma {:induction false} CandidatesNonNegative(entries: seq<Entry>, direction: Direction)
    requires WellNamed(entries)
    ensures forall f :: f in Candidates(entries, direction) ==> f.version >= 0
  {
    if entries != [] { CandidatesNonNegative(Front(entries), direction); }
  }

  /** A clash among the first entries is not undone by the later ones. */
  lemma ClashIsFinal(entries: seq<Entry>, direction: Direction, n: nat)
    requires WellNamed(entries) && n <= |entries|
    requires !Usable(Candidates(entries[..n], direction))
    ensures !Usable(Candidates(entries, direction))
  {
    CandidatesGrow(entries, direction, n);
    var some, every := Candidates(entries[..n], direction), Candidates(entries, direction);
    forall i | 0 <= i < |some| ensures some[i] == every[i] {}
  }

  /** Discovery yields exactly the migration files of the direction, in strictly increasing version order. */
  lemma DiscoveryIsExact(entries: seq<Entry>, direction: Direction)
    requires WellNamed(entries)
    ensures var files, found := Candidates(entries, direction), Discovered(entries, direction);
            && (found.Some? <==> Usable(files))
            && (found.Some? ==> Ascending(found.value) && |found.value| == |files|
                                && forall f :: f in found.value <==> f in files)
  {
    var files := Candidates(entries, direction);
    CandidatesNonNegative(entries, direction);
    if Usable(files) {
      forall i | 0 <= i < |files| ensures files[i].version >= 0 { assert files[i] in files; }
      SortKeeps(files);
    }
  }

  // ---------------------------------------------------------------- what discovery finds

  /** A directory entry that is migration file `f` of the direction asked for. */
  ghost predicate Provides(e: Entry, direction: Direction, f: MigrationFile) {
    exists digits: string ::
      && e == Entry(false, Some(FileName(digits, direction, f.blank)))
      && Decimal.AllDigits(digits) && f.version == Decimal.Value(digits)
  }

  ghost predicate ProvidesSome(entries: seq<Entry>, direction: Direction, f: MigrationFile) {
    exists i :: 0 <= i < |entries| && Provides(entries[i], direction, f)
  }

  /** Two entries at different places are files of the direction with the same version. */
  ghost predicate Repeats(entries: seq<Entry>, direction: Direction) {
    exists i, j, f, g :: 0 <= i < j < |entries| && Provides(entries[i], direction, f)
                         && Provides(entries[j], direction, g) && f.version == g.version
  }

  /** An entry is a file of the direction whose version exceeds 64 bits. */
  ghost predicate Overflows(entries: seq<Entry>, direction: Direction) {
    exists i, f :: 0 <= i < |entries| && Provides(entries[i], direction, f) && f.version > MAX_INT64
  }

  lemma SelectedProvides(e: Entry, direction: Direction, f: MigrationFile)
    requires e.matched.Some? ==> Decimal.AllDigits(e.matched.value.digits)
    ensures Provides(e, direction, f) <==> Selects(e, direction) && f == FileOf(e)
  {
    if Selects(e, direction) && f == FileOf(e) {
      assert e == Entry(false, Some(FileName(e.matched.value.digits, direction, f.blank)));
    }
  }

  /** The places in the directory that the candidates come from, in order. */
  ghost function Places(entries: seq<Entry>, direction: Direction): seq<nat> {
    if entries == [] then []
    else Places(Front(entries), direction) + if Selects(Last(entries), direction) then [|entries| - 1] else []
  }

  lemma {:induction false} PlacesOfCandidates(entries: seq<Entry>, direction: Direction)
    requires WellNamed(entries)
    ensures var files, places := Candidates(entries, direction), Places(entries, direction);
            && |places| == |files|
            && (forall k :: 0 <= k < |files| ==> places[k] < |entries| && Selects(entries[places[k]], direction)
                                                 && FileOf(entries[places[k]]) == files[k])
            && (forall k, l :: 0 <= k < l < |files| ==> places[k] < places[l])
            && (forall i :: 0 <= i < |entries| && Selects(entries[i], direction) ==> i in places)
  {
    if entries != [] { PlacesOfCandidates(Front(entries), direction); }
  }

  lemma CandidateProvided(entries: seq<Entry>, direction: Direction, k: nat) returns (i: nat)
    requires WellNamed(entries) && k < |Candidates(entries, direction)|
    ensures k < |Places(entries, direction)| && i == Places(entries, direction)[k]
    ensures i < |entries| && Provides(entries[i], direction, Candidates(entries, direction)[k])
  {
    PlacesOfCandidates(entries, direction);
    i := Places(entries, direction)[k];
    SelectedProvides(entries[i], direction, Candidates(entries, direction)[k]);
  }

  lemma ProvidedCandidate(entries: seq<Entry>, direction: Direction, i: nat, f: MigrationFile) returns (k: nat)
    requires WellNamed(entries) && i < |entries| && Provides(entries[i], direction, f)
    ensures k < |Candidates(entries, direction)| && Candidates(entries, direction)[k] == f
    ensures k < |Places(entries, direction)| && i == Places(entries, direction)[k]
  {
    PlacesOfCandidates(entries, direction);
    SelectedProvides(entries[i], direction, f);
    k :| 0 <= k < |Places(entries, direction)| && Places(entries, direction)[k] == i;
  }

  lemma CandidatesProvided(entries: seq<Entry>, direction: Direction, f: MigrationFile)
    requires WellNamed(entries)
    ensures f in Candidates(entries, direction) <==> ProvidesSome(entries, direction, f)
  {
    if f in Candidates(entries, direction) {
      var k: nat :| k < |Candidates(entries, direction)| && Candidates(entries, direction)[k] == f;
      var i := CandidateProvided(entries, direction, k);
    }
    if i: nat :| i < |entries| && Provides(entries[i], direction, f) {
      var k := ProvidedCandidate(entries, direction, i, f);
    }
  }

  lemma ClashRepeats(entries: seq<Entry>, direction: Direction, files: seq<MigrationFile>, k: nat, l: nat)
    requires WellNamed(entries) && files == Candidates(entries, direction)
    requires k < l < |files| && files[k].version == files[l].version
    ensures Repeats(entries, direction)
  {
    PlacesOfCandidates(entries, direction);
    var i := CandidateProvided(entries, direction, k);
    var j := CandidateProvided(entries, direction, l);
  }

  lemma RepeatClashes(entries: seq<Entry>, direction: Direction, files: seq<MigrationFile>)
    requires WellNamed(entries) && files == Candidates(entries, direction) && Repeats(entries, direction)
    ensures !Usable(files)
  {
    var i, j, f, g :| 0 <= i < j < |entries| && Provides(entries[i], direction, f)
                      && Provides(entries[j], direction, g) && f.version == g.version;
    var k := ProvidedCandidate(entries, direction, i, f);
    var l := ProvidedCandidate(entries, direction, j, g);
    assert files[k].version == files[l].version && k != l;
  }

  lemma OverflowUnusable(entries: seq<Entry>, direction: Direction, files: seq<MigrationFile>)
    requires WellNamed(entries) && files == Candidates(entries, direction) && Overflows(entries, direction)
    ensures !Usable(files)
  {
    var i, f :| 0 <= i < |entries| && Provides(entries[i], direction, f) && f.version > MAX_INT64;
    var k := ProvidedCandidate(entries, direction, i, f);
    assert files[k].version > MAX_INT64;
  }

  lemma UnusableShows(entries: seq<Entry>, direction: Direction, files: seq<MigrationFile>)
    requires WellNamed(entries) && files == Candidates(entries, direction) && !Usable(files)
    ensures Repeats(entries, direction) || Overflows(entries, direction)
  {
    if k: nat :| k < |files| && files[k].version > MAX_INT64 {
      var i := CandidateProvided(entries, direction, k);
    } else {
      var k, l :| 0 <= k < l < |files| && files[k].version == files[l].version;
      ClashRepeats(entries, direction, files, k, l);
    }
  }

  /**
   * Discovery fails exactly when two entries are files of the direction with the same version, or the version of one
   * exceeds 64 bits.  Otherwise it finds exactly the files of that direction: no directory, no other name, and none of
   * the other direction.
   */
  lemma DiscoveryFinds(entries: seq<Entry>, direction: Direction, f: MigrationFile)
    requires WellNamed(entries)
    ensures Discovered(entries, direction).None? <==> Repeats(entries, direction) || Overflows(entries, direction)
    ensures Discovered(entries, direction).Some? ==>
              (f in Discovered(entries, direction).value <==> ProvidesSome(entries, direction, f))
  {
    var files := Candidates(entries, direction);
    CandidatesProvided(entries, direction, f);
    if Usable(files) {
      if Repeats(entries, direction) { RepeatClashes(entries, direction, files); }
      if Overflows(entries, direction) { OverflowUnusable(entries, direction, files); }
    } else {
      UnusableShows(entries, direction, files);
    }
  }

  /** The map of versions met so far, in step with the files collected so far. */
  ghost predicate Tracks(seen: set<int>, files: seq<MigrationFile>) {
    && (forall i :: 0 <= i < |files| ==> files[i].version in seen)
    && (forall v :: v in seen ==> exists i :: 0 <= i < |files| && files[i].version == v)
  }

  lemma Collect(seen: set<int>, files: seq<MigrationFile>, file: MigrationFile)
    requires Tracks(seen, files) && Usable(files)
    ensures Usable(files + [file]) <==> file.version <= MAX_INT64 && file.version !in seen
    ensures Tracks(seen + {file.version}, files + [file])
  {
    var more := files + [file];
    assert more[|files|] == file;
    forall i | 0 <= i < |files| ensures more[i] == files[i] {}
    if file.version in seen {
      var i :| 0 <= i < |files| && files[i].version == file.version;
      assert more[i].version == more[|files|].version;
    }
  }

  method Discover(entries: seq<Entry>, direction: Direction) returns (files: Option<seq<MigrationFile>>)
    requires WellNamed(entries)
    ensures files == Discovered(entries, direction)
  {
    var seen: set<int> := {};
    var migrations: seq<MigrationFile> := [];
    for i := 0 to |entries|
      invariant migrations == Candidates(entries[..i], direction)
      invariant Usable(migrations) && Tracks(seen, migrations)
    {
      assert Front(entries[..i + 1]) == entries[..i] && Last(entries[..i + 1]) == entries[i];
      if Selects(entries[i], direction) {
        var file := FileOf(entries[i]);
        Collect(seen, migrations, file);
        if file.version > MAX_INT64 || file.version in seen {
          ClashIsFinal(entries, direction, i + 1);
          return None;
        }
        seen := seen + {file.version};
        migrations := migrations + [file];
      }
    }
    assert entries[..|entries|] == entries;
    files := Some(SortByVersion(migrations));
  }

  /** Down scripts filed by version. */
  function ByVersion(files: seq<MigrationFile>): (m: map<int, MigrationFile>)
    ensures forall v :: v in m ==> m[v].version == v
  {
    if files == [] then map[] else ByVersion(Front(files))[Last(files).version := Last(files)]
  }

  lemma {:induction false} FiledByVersion(files: seq<MigrationFile>)
    requires forall i, j :: 0 <= i < j < |files| ==> files[i].version != files[j].version
    ensures forall f :: f in files <==> f.version in ByVersion(files) && ByVersion(files)[f.version] == f
    ensures forall v :: v in ByVersion(files) ==> ByVersion(files)[v] in files
  {
    if files != [] {
      FiledByVersion(Front(files));
      assert files == Front(files) + [Last(files)];
      forall v | v in ByVersion(Front(files)) ensures v != Last(files).version {
        var f := ByVersion(Front(files))[v];
        var i :| 0 <= i < |Front(files)| && Front(files)[i] == f;
      }
    }
  }

  /** The scripts filed under their versions are exactly the down files of the directory. */
  lemma DownScriptsAreFiled(entries: seq<Entry>, f: MigrationFile)
    requires WellNamed(entries) && Discovered(entries, DownScripts).Some?
    ensures var filed := ByVersion(Discovered(entries, DownScripts).value);
            f.version in filed && filed[f.version] == f <==> ProvidesSome(entries, DownScripts, f)
  {
    DiscoveryIsExact(entries, DownScripts);
    DiscoveryFinds(entries, DownScripts, f);
    FiledByVersion(Discovered(entries, DownScripts).value);
  }

  /** A version has a down script exactly if the directory has a down file of that version. */
  lemma DownScriptExists(entries: seq<Entry>, v: int)
    requires WellNamed(entries) && Discovered(entries, DownScripts).Some?
    ensures v in ByVersion(Discovered(entries, DownScripts).value) <==>
              exists f :: ProvidesSome(entries, DownScripts, f) && f.version == v
  {
    var filed := ByVersion(Discovered(entries, DownScripts).value);
    if v in filed {
      DownScriptsAreFiled(entries, filed[v]);
    }
    if f :| ProvidesSome(entries, DownScripts, f) && f.version == v {
      DownScriptsAreFiled(entries, f);
    }
  }

  /** The next older version is the one recorded when the migrations before it are in place. */
  lemma NextIsClean(newestFirst: seq<MigrationFile>, ups: seq<MigrationFile>, index: nat, older: int)
    requires Ascending(ups) && |newestFirst| == |ups| && index < |ups|
    requires forall i :: 0 <= i < |ups| ==> newestFirst[i] == ups[|ups| - 1 - i]
    requires (older == -1 && forall i :: index < i < |ups| ==> newestFirst[i].version >= newestFirst[index].version)
             || (exists i :: index < i < |ups| && older == newestFirst[i].version < newestFirst[index].version
                             && forall j :: index < j < i ==> newestFirst[j].version >= newestFirst[index].version)
    ensures older == CleanVersion(ups, |ups| - index - 1)
  {
    if index + 1 < |ups| { assert newestFirst[index + 1].version < newestFirst[index].version; }
  }

  // ---------------------------------------------------------------- the connection

  class SchemaConnection {
    var row: Option<VersionRow>
    var journal: seq<ScriptRun>
    var fates: seq<Fate>

    constructor (fates: seq<Fate>)
      ensures Value() == Fresh(fates)
    {
      row, journal, this.fates := None, [], fates;
    }

    ghost function Value(): Database
      reads this
    {
      Database(row, journal, fates)
    }

    /** Consume the fate of the next database step. */
    method Draw() returns (fate: Fate)
      modifies this`fates
      ensures fate == NextFate(old(fates)) && fates == Later(old(fates))
    {
      fate := NextFate(fates);
      fates := Later(fates);
    }

    method SetVersion(version: int, dirty: bool) returns (ok: bool)
      modifies this
      ensures (Value(), ok) == SetVersionStep(old(Value()), version, dirty)
    {
      var fate := Draw();
      if fate != LostBefore {
        row := None;
        if version >= 0 {
          row := Some(VersionRow(version, dirty));
        }
      }
      ok := fate == Done;
    }

    method RunScript(file: MigrationFile, run: ScriptRun) returns (ok: bool)
      modifies this
      ensures (Value(), ok) == RunScriptStep(old(Value()), file, run)
    {
      var read := Draw();
      if read != Done {
        return false;
      }
      if file.blank {
        journal := journal + [run];
        return true;
      }
      var fate := Draw();
      if fate != LostBefore {
        journal := journal + [run];
      }
      ok := fate == Done;
    }

    method ApplyMigration(file: MigrationFile, run: ScriptRun, cleanVersion: int) returns (ok: bool)
      modifies this
      ensures (Value(), ok) == ApplyStep(old(Value()), file, run, cleanVersion)
    {
      ok := SetVersion(file.version, true);
      if !ok { return; }
      ok := RunScript(file, run);
      if !ok { return; }
      ok := SetVersion(cleanVersion, false);
    }

    method Up(entries: seq<Entry>) returns (ok: bool)
      requires WellNamed(entries)
      modifies this
      ensures Discovered(entries, UpScripts).None? ==> !ok && Value() == old(Value())
      ensures Discovered(entries, UpScripts).Some? ==>
                (Value(), ok) == UpRun(old(Value()), Discovered(entries, UpScripts).value)
    {
      var found := Discover(entries, UpScripts);
      if found.None? { return false; }
      var migrations := found.value;

      var fate := Draw();
      if fate != Done { return false; }
      var version := -1;
      if row.Some? {
        if row.value.dirty { return false; }
        version := row.value.version;
      }
      ghost var start, startVersion := Value(), version;
      var i := 0;
      while i < |migrations|
        invariant 0 <= i <= |migrations|
        invariant UpFrom(start, migrations, startVersion) == UpFrom(Value(), migrations[i..], version)
      {
        var migration := migrations[i];
        assert migrations[i..][1..] == migrations[i + 1..];
        if migration.version > version {
          ok := ApplyMigration(migration, RanUp(migration.version), migration.version);
          if !ok { return; }
          version := migration.version;
        }
        i := i + 1;
      }
      ok := true;
    }

    /** The rollback loop over the migrations, newest first. */
    method RollBack(newestFirst: seq<MigrationFile>, downByVersion: map<int, MigrationFile>, version: int,
                    ghost ups: seq<MigrationFile>) returns (ok: bool)
      requires Ascending(ups) && |newestFirst| == |ups|
      requires forall i :: 0 <= i < |ups| ==> newestFirst[i] == ups[|ups| - 1 - i]
      modifies this
      ensures (Value(), ok) == DownFrom(old(Value()), ups, |ups|, downByVersion, version)
    {
      var n := |newestFirst|;
      var index := 0;
      while index < n
        invariant 0 <= index <= n
        invariant DownFrom(old(Value()), ups, n, downByVersion, version)
               == DownFrom(Value(), ups, n - index, downByVersion, version)
      {
        var applied := newestFirst[index];
        if applied.version <= version {
          if applied.version !in downByVersion { return false; }
          var nextVersion := NextOlder(newestFirst, index + 1, applied.version);
          NextIsClean(newestFirst, ups, index, nextVersion);
          ok := ApplyMigration(downByVersion[applied.version], RanDown(applied.version), nextVersion);
          if !ok { return; }
        }
        index := index + 1;
      }
      ok := true;
    }

    method Down(entries: seq<Entry>) returns (ok: bool)
      requires WellNamed(entries)
      modifies this
      ensures Discovered(entries, UpScripts).None? || Discovered(entries, DownScripts).None? ==>
                !ok && Value() == old(Value())
      ensures Discovered(entries, UpScripts).Some? && Discovered(entries, DownScripts).Some? ==>
                (Value(), ok) == DownRun(old(Value()), Discovered(entries, UpScripts).value,
                                         ByVersion(Discovered(entries, DownScripts).value))
    {
      var ups := Discover(entries, UpScripts);
      if ups.None? { return false; }
      var downs := Discover(entries, DownScripts);
      if downs.None? { return false; }
      DiscoveryIsExact(entries, UpScripts);

      // Versions are distinct, so sorting them downwards reverses the ascending order.
      var n := |ups.value|;
      var newestFirst := seq(n, i requires 0 <= i < n => ups.value[n - 1 - i]);
      var downByVersion := FileByVersion(downs.value);

      var fate := Draw();
      if fate != Done { return false; }
      if row.None? || row.value.version < 0 { return true; }
      if row.value.dirty { return false; }
      ok := RollBack(newestFirst, downByVersion, row.value.version, ups.value);
    }
  }

  method FileByVersion(files: seq<MigrationFile>) returns (downByVersion: map<int, MigrationFile>)
    ensures downByVersion == ByVersion(files)
  {
    downByVersion := map[];
    for i := 0 to |files|
      invariant downByVersion == ByVersion(files[..i])
    {
      assert Front(files[..i + 1]) == files[..i];
      downByVersion := downByVersion[files[i].version := files[i]];
    }
    assert files[..|files|] == files;
  }

  /** The version of the first candidate from `start` on that is older than `version`, or -1. */
  method NextOlder(candidates: seq<MigrationFile>, start: nat, version: int) returns (older: int)
    requires start <= |candidates|
    ensures (older == -1 && forall i :: start <= i < |candidates| ==> candidates[i].version >= version)
         || (exists i :: start <= i < |candidates| && older == candidates[i].version < version
                      && forall j :: start <= j < i ==> candidates[j].version >= version)
  {
    for i := start to |candidates|
      invariant forall j :: start <= j < i ==> candidates[j].version >= version
    {
      if candidates[i].version < version {
        return candidates[i].version;
      }
    }
    return -1;
  }
}
