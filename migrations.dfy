/**
 * The schema-migration runner: which migration files are available, which are recorded
 * in the `schema_migrations` table, and how `migrate`, `apply_migration`,
 * `rollback_migration` and `status` move between the two. What a migration's `upgrade`
 * or `downgrade` does to the schema is outside the model; only whether it raises is kept.
 */
module Migrations {
  import opened Wrappers
  import opened Text

  /** What importing a migration file yields: its optional attributes and how its steps behave. */
  datatype Module = Module(
    migrationId: Option<string>,       // MIGRATION_ID
    description: Option<string>,       // MIGRATION_DESCRIPTION
    dependsOn: Option<seq<string>>,    // DEPENDS_ON
    imports: bool,                     // false: loading the file raises
    upgradeFails: bool,
    downgradeFails: bool)

  /** An entry of the migrations directory. */
  datatype MigrationFile = MigrationFile(name: string, contents: Module)

  /** An available migration, as `get_available_migrations` describes it. */
  datatype Migration = Migration(
    id: string, description: string, dependsOn: seq<string>, filename: string,
    upgradeFails: bool, downgradeFails: bool)

  datatype MigrationError =
    | UpgradeFailed(id: string)        // `upgrade` raised; re-raised, nothing recorded
    | AlreadyRecorded(id: string)      // the INSERT hit the primary key of an existing row
    | NotFound(id: string)             // the `ValueError` of an unknown rollback target
    | DowngradeFailed(id: string)      // `downgrade` raised; re-raised, nothing deleted

  /** The outcome of one step on the recorded ids. */
  datatype Step = Step(result: Result<(), MigrationError>, applied: seq<string>)

  // ---------------------------------------------------------------------------
  // Available migrations

  /** The glob `???.py`: three characters, then the suffix. */
  predicate MatchesGlob(name: string) {
    |name| == 6 && name[3..] == ".py"
  }

  /** The directory as a map from file name to what the file holds. */
  function Directory(files: seq<MigrationFile>): map<string, Module> {
    if files == [] then map[]
    else Directory(files[1..])[files[0].name := files[0].contents]
  }

  /** Each name of the directory is a listed file with its contents, and each file is in it. */
  lemma {:induction false} DirectoryEntries(files: seq<MigrationFile>)
    ensures forall n :: n in Directory(files) ==> MigrationFile(n, Directory(files)[n]) in files
    ensures forall f :: f in files ==> f.name in Directory(files)
  {
    if files != [] {
      DirectoryEntries(files[1..]);
      assert forall f :: f in files <==> f == files[0] || f in files[1..];
    }
  }

  /** The names the glob picks out of the directory, in listing order. */
  function GlobNames(files: seq<MigrationFile>): seq<string> {
    if files == [] then []
    else
      var rest := GlobNames(files[1..]);
      if MatchesGlob(files[0].name) then [files[0].name] + rest else rest
  }

  lemma {:induction false} GlobNamesMembers(files: seq<MigrationFile>)
    ensures forall n :: n in GlobNames(files) <==> n in Directory(files) && MatchesGlob(n)
  {
    if files != [] {
      GlobNamesMembers(files[1..]);
    }
  }

  /** Every name of `names` is a file of the directory that the glob matches. */
  predicate Globbed(d: map<string, Module>, names: seq<string>) {
    forall i :: 0 <= i < |names| ==> names[i] in d && MatchesGlob(names[i])
  }

  /** A file the loader lists: matched by the glob, not private, and its module loads. */
  predicate Listed(d: map<string, Module>, name: string) {
    name in d && MatchesGlob(name) && !StartsWith(name, "__") && d[name].imports
  }

  /** The entry of a loaded file: the id defaults to the stem, the rest to empty values. */
  function Describe(name: string, m: Module): (r: Migration)
    requires MatchesGlob(name)
    ensures r.filename == name
    ensures m.migrationId.None? ==> r.id == name[..3]
    ensures m.description.None? ==> r.description == ""
    ensures m.dependsOn.None? ==> r.dependsOn == []
  {
    Migration(m.migrationId.GetOr(name[..|name| - 3]), m.description.GetOr(""), m.dependsOn.GetOr([]),
              name, m.upgradeFails, m.downgradeFails)
  }

  /** The entries loaded from the names of the sorted glob. */
  function Loaded(d: map<string, Module>, names: seq<string>): seq<Migration>
    requires Globbed(d, names)
  {
    if names == [] then []
    else
      var last := names[|names| - 1];
      var before := Loaded(d, names[..|names| - 1]);
      if !StartsWith(last, "__") && d[last].imports then before + [Describe(last, d[last])] else before
  }

  lemma SortedGlob(files: seq<MigrationFile>)
    ensures Globbed(Directory(files), SortStrings(GlobNames(files)))
    ensures forall n :: n in SortStrings(GlobNames(files)) <==> n in GlobNames(files)
  {
    var names := GlobNames(files);
    GlobNamesMembers(files);
    forall n ensures n in SortStrings(names) <==> n in names {
      assert n in SortStrings(names) <==> n in multiset(SortStrings(names));
    }
  }

  /** `get_available_migrations` as a value: the sorted glob, private names and failed loads dropped. */
  function Available(files: seq<MigrationFile>): seq<Migration> {
    SortedGlob(files);
    Loaded(Directory(files), SortStrings(GlobNames(files)))
  }

  /** Each loaded entry describes a listed file of `names`. */
  lemma {:induction false} LoadedListed(d: map<string, Module>, names: seq<string>)
    requires Globbed(d, names)
    ensures forall m :: m in Loaded(d, names) ==>
      m.filename in names && Listed(d, m.filename) && m == Describe(m.filename, d[m.filename])
  {
    if names != [] {
      var init := names[..|names| - 1];
      LoadedListed(d, init);
      assert forall n :: n in init ==> n in names;
    }
  }

  /** Every listed file of `names` has its entry. */
  lemma {:induction false} LoadedComplete(d: map<string, Module>, names: seq<string>)
    requires Globbed(d, names)
    ensures forall n :: n in names && Listed(d, n) ==> Describe(n, d[n]) in Loaded(d, names)
  {
    if names != [] {
      var init := names[..|names| - 1];
      LoadedComplete(d, init);
      assert names == init + [names[|names| - 1]];
    }
  }

  /** The entries run in ascending file-name order. */
  predicate ByFilename(ms: seq<Migration>) {
    forall i, j :: 0 <= i < j < |ms| ==> LexLe(ms[i].filename, ms[j].filename)
  }

  /** Loading keeps the order of `names`. */
  lemma {:induction false} LoadedOrdered(d: map<string, Module>, names: seq<string>)
    requires Globbed(d, names) && Sorted(names)
    ensures ByFilename(Loaded(d, names))
  {
    if names != [] {
      var init := names[..|names| - 1];
      var last := names[|names| - 1];
      var before := Loaded(d, init);
      LoadedOrdered(d, init);
      if !StartsWith(last, "__") && d[last].imports {
        LoadedListed(d, init);
        var ms := before + [Describe(last, d[last])];
        assert Loaded(d, names) == ms;
        forall i, j | 0 <= i < j < |ms| ensures LexLe(ms[i].filename, ms[j].filename) {
          if j == |before| {
            assert ms[i] in before;
            var k :| 0 <= k < |init| && init[k] == ms[i].filename;
            assert names[k] == ms[i].filename && ms[j].filename == names[|names| - 1];
            assert LexLe(names[k], names[|names| - 1]);
          } else {
            assert ms[i] == before[i] && ms[j] == before[j];
          }
        }
      }
    }
  }

  /** What the available list holds, and that it runs in file-name order. */
  lemma AvailableEntries(files: seq<MigrationFile>)
    ensures var d := Directory(files);
      forall m :: m in Available(files) ==> Listed(d, m.filename) && m == Describe(m.filename, d[m.filename])
    ensures forall n :: Listed(Directory(files), n) ==> Describe(n, Directory(files)[n]) in Available(files)
    ensures ByFilename(Available(files))
  {
    var d := Directory(files);
    var names := SortStrings(GlobNames(files));
    SortedGlob(files);
    GlobNamesMembers(files);
    LoadedListed(d, names);
    LoadedComplete(d, names);
    LoadedOrdered(d, names);
  }

  /** A file whose name is not three characters plus `.py`, such as the one real migration file, is never listed. */
  lemma LongNamesNotListed(d: map<string, Module>, n: string)
    requires |n| != 6
    ensures !Listed(d, n)
    ensures !MatchesGlob("001_add_additional_data_field.py")
  {
  }

  // ---------------------------------------------------------------------------
  // Pending migrations

  /** `get_pending_migrations`: the available entries whose id is not recorded, in order. */
  function Pending(available: seq<Migration>, applied: seq<string>): seq<Migration> {
    if available == [] then []
    else if available[0].id in applied then Pending(available[1..], applied)
    else [available[0]] + Pending(available[1..], applied)
  }

  lemma {:induction false} PendingMembers(available: seq<Migration>, applied: seq<string>)
    ensures forall m :: m in Pending(available, applied) <==> m in available && m.id !in applied
  {
    if available != [] {
      PendingMembers(available[1..], applied);
      assert forall m :: m in available <==> m == available[0] || m in available[1..];
    }
  }

  /** Filtering keeps order: the pending entries of a concatenation are concatenated. */
  lemma {:induction false} PendingAppend(a: seq<Migration>, b: seq<Migration>, applied: seq<string>)
    ensures Pending(a + b, applied) == Pending(a, applied) + Pending(b, applied)
  {
    if a != [] {
      assert (a + b)[0] == a[0];
      assert (a + b)[1..] == a[1..] + b;
      PendingAppend(a[1..], b, applied);
    } else {
      assert a + b == b;
    }
  }

  /** Nothing is pending exactly when every available id is recorded. */
  lemma NothingPendingIff(available: seq<Migration>, applied: seq<string>)
    ensures Pending(available, applied) == [] <==> forall m :: m in available ==> m.id in applied
  {
    PendingMembers(available, applied);
    if Pending(available, applied) != [] {
      assert Pending(available, applied)[0] in Pending(available, applied);
    }
  }

  // ---------------------------------------------------------------------------
  // Applying and migrating

  /**
   * `apply_migration`: `upgrade` runs first; only when it returns is the id inserted.
   * The id is the table's primary key, so an id already recorded fails the insert.
   */
  function Apply(applied: seq<string>, m: Migration): Step {
    if m.upgradeFails then Step(Err(UpgradeFailed(m.id)), applied)
    else if m.id in applied then Step(Err(AlreadyRecorded(m.id)), applied)
    else Step(Ok(()), applied + [m.id])
  }

  /** Success records the id at the end; any failure records nothing. */
  lemma ApplyRecordsOnSuccess(applied: seq<string>, m: Migration)
    ensures Apply(applied, m).result.Ok? <==> !m.upgradeFails && m.id !in applied
    ensures Apply(applied, m).result.Ok? ==> Apply(applied, m).applied == applied + [m.id]
    ensures Apply(applied, m).result.Err? ==> Apply(applied, m).applied == applied
    ensures m.upgradeFails ==> Apply(applied, m).result == Err(UpgradeFailed(m.id))
  {
  }

  function Ids(ms: seq<Migration>): seq<string> {
    if ms == [] then [] else [ms[0].id] + Ids(ms[1..])
  }

  /** `migrate`'s loop: apply in order and stop at the first exception. */
  function RunAll(applied: seq<string>, pending: seq<Migration>): Step
    decreases |pending|
  {
    if pending == [] then Step(Ok(()), applied)
    else
      var s := Apply(applied, pending[0]);
      if s.result.Err? then s else RunAll(s.applied, pending[1..])
  }

  /** A run that finishes has recorded every id, in order. */
  lemma {:induction false} RunAllRecords(applied: seq<string>, pending: seq<Migration>)
    requires RunAll(applied, pending).result.Ok?
    ensures RunAll(applied, pending).applied == applied + Ids(pending)
    decreases |pending|
  {
    if pending != [] {
      var next := applied + [pending[0].id];
      RunAllRecords(next, pending[1..]);
      assert Ids(pending) == [pending[0].id] + Ids(pending[1..]);
      assert next + Ids(pending[1..]) == applied + Ids(pending);
    }
  }

  /** The run stopped at `pending[k]`: everything before it is recorded, and its failure is the result. */
  predicate StoppedAt(applied: seq<string>, pending: seq<Migration>, k: int) {
    0 <= k < |pending| &&
    RunAll(applied, pending).applied == applied + Ids(pending[..k]) &&
    Apply(applied + Ids(pending[..k]), pending[k]).result == RunAll(applied, pending).result
  }

  lemma IdsOfTail(ms: seq<Migration>, k: nat)
    requires k < |ms|
    ensures Ids(ms[..k + 1]) == [ms[0].id] + Ids(ms[1..][..k])
  {
    assert ms[..k + 1][1..] == ms[1..][..k];
  }

  lemma StoppedLater(applied: seq<string>, pending: seq<Migration>, k: int)
    requires pending != [] && Apply(applied, pending[0]).result.Ok?
    requires StoppedAt(Apply(applied, pending[0]).applied, pending[1..], k)
    ensures StoppedAt(applied, pending, k + 1)
  {
    IdsOfTail(pending, k);
    assert applied + [pending[0].id] + Ids(pending[1..][..k]) == applied + Ids(pending[..k + 1]);
    assert pending[1..][k] == pending[k + 1];
  }

  lemma StoppedFirst(applied: seq<string>, pending: seq<Migration>)
    requires pending != [] && Apply(applied, pending[0]).result.Err?
    ensures StoppedAt(applied, pending, 0)
  {
    assert pending[..0] == [];
    assert applied + Ids([]) == applied;
  }

  /** A run that fails has recorded the migrations before the failing one and none after it. */
  lemma {:induction false} RunAllStops(applied: seq<string>, pending: seq<Migration>)
    requires RunAll(applied, pending).result.Err?
    ensures exists k :: StoppedAt(applied, pending, k)
    decreases |pending|
  {
    var s := Apply(applied, pending[0]);
    if s.result.Ok? {
      RunAllStops(s.applied, pending[1..]);
      var k :| StoppedAt(s.applied, pending[1..], k);
      StoppedLater(applied, pending, k);
    } else {
      StoppedFirst(applied, pending);
    }
  }

  lemma {:induction false} IdsHas(ms: seq<Migration>, m: Migration)
    requires m in ms
    ensures m.id in Ids(ms)
  {
    if ms[0] != m {
      IdsHas(ms[1..], m);
    }
  }

  /** After a finished `migrate` nothing is pending. */
  lemma MigrateLeavesNothingPending(available: seq<Migration>, applied: seq<string>)
    requires RunAll(applied, Pending(available, applied)).result.Ok?
    ensures Pending(available, RunAll(applied, Pending(available, applied)).applied) == []
  {
    var pending := Pending(available, applied);
    var after := RunAll(applied, pending).applied;
    RunAllRecords(applied, pending);
    PendingMembers(available, applied);
    forall m | m in available ensures m.id in after {
      if m.id !in applied {
        IdsHas(pending, m);
      }
    }
    NothingPendingIff(available, after);
  }

  // ---------------------------------------------------------------------------
  // Rolling back

  /** The ids without any row for `id`: the DELETE. */
  function Without(applied: seq<string>, id: string): seq<string> {
    if applied == [] then []
    else if applied[0] == id then Without(applied[1..], id)
    else [applied[0]] + Without(applied[1..], id)
  }

  lemma {:induction false} WithoutMembers(applied: seq<string>, id: string)
    ensures forall x :: x in Without(applied, id) <==> x in applied && x != id
  {
    if applied != [] {
      WithoutMembers(applied[1..], id);
      assert forall x :: x in applied <==> x == applied[0] || x in applied[1..];
    }
  }

  lemma {:induction false} WithoutAbsent(applied: seq<string>, id: string)
    requires id !in applied
    ensures Without(applied, id) == applied
  {
    if applied != [] {
      assert applied == [applied[0]] + applied[1..];
      WithoutAbsent(applied[1..], id);
    }
  }

  lemma {:induction false} WithoutAppend(a: seq<string>, b: seq<string>, id: string)
    ensures Without(a + b, id) == Without(a, id) + Without(b, id)
  {
    if a != [] {
      assert (a + b)[0] == a[0];
      assert (a + b)[1..] == a[1..] + b;
      WithoutAppend(a[1..], b, id);
    } else {
      assert a + b == b;
    }
  }

  /** Some available entry carries `id`. */
  predicate HasId(available: seq<Migration>, id: string) {
    exists m :: m in available && m.id == id
  }

  lemma HasIdSnoc(init: seq<Migration>, last: Migration, id: string)
    ensures HasId(init + [last], id) <==> HasId(init, id) || last.id == id
  {
    assert forall m :: m in init + [last] <==> m in init || m == last;
  }

  /** `{m['id']: m for m in available}`: a later entry with the same id wins. */
  function ById(available: seq<Migration>): map<string, Migration> {
    if available == [] then map[]
    else
      var last := available[|available| - 1];
      ById(available[..|available| - 1])[last.id := last]
  }

  /** The keys are the available ids, each mapped to an entry carrying it. */
  lemma {:induction false} ByIdEntries(available: seq<Migration>)
    ensures forall id :: id in ById(available) <==> HasId(available, id)
    ensures forall id :: id in ById(available) ==> ById(available)[id] in available && ById(available)[id].id == id
  {
    if available != [] {
      var init := available[..|available| - 1];
      var last := available[|available| - 1];
      assert available == init + [last];
      ByIdEntries(init);
      forall id ensures HasId(available, id) <==> HasId(init, id) || last.id == id {
        HasIdSnoc(init, last, id);
      }
      assert forall m :: m in init ==> m in available;
    }
  }

  lemma ByIdEmpty(available: seq<Migration>)
    ensures ById(available) == map[] <==> available == []
  {
    if available != [] {
      var last := available[|available| - 1];
      assert last.id in ById(available);
    }
  }

  /** `available[i]` is the last entry carrying `id`. */
  predicate LastWith(available: seq<Migration>, id: string, i: int) {
    0 <= i < |available| && available[i].id == id && forall j :: i < j < |available| ==> available[j].id != id
  }

  lemma {:induction false} ByIdLast(available: seq<Migration>, id: string)
    requires id in ById(available)
    ensures exists i :: LastWith(available, id, i) && available[i] == ById(available)[id]
  {
    var n := |available|;
    if available[n - 1].id == id {
      assert LastWith(available, id, n - 1);
    } else {
      var init := available[..n - 1];
      ByIdLast(init, id);
      var i :| LastWith(init, id, i) && init[i] == ById(init)[id];
      assert LastWith(available, id, i);
    }
  }

  /** `rollback_migration`: an unknown id raises before any `downgrade`; otherwise `downgrade`, then the DELETE. */
  function Rollback(applied: seq<string>, available: seq<Migration>, id: string): Step {
    var d := ById(available);
    if id !in d then Step(Err(NotFound(id)), applied)
    else if d[id].downgradeFails then Step(Err(DowngradeFailed(id)), applied)
    else Step(Ok(()), Without(applied, id))
  }

  /** The three outcomes of a rollback and what each leaves recorded. */
  lemma RollbackOutcomes(applied: seq<string>, available: seq<Migration>, id: string)
    ensures var s := Rollback(applied, available, id);
      (s.result == Err(NotFound(id)) <==> !HasId(available, id)) &&
      (s.result.Err? ==> s.applied == applied) &&
      (s.result.Ok? ==> forall x :: x in s.applied <==> x in applied && x != id)
  {
    ByIdEntries(available);
    WithoutMembers(applied, id);
  }

  /** Applying a migration and rolling it back leaves the recorded ids as they were. */
  lemma ApplyThenRollback(applied: seq<string>, available: seq<Migration>, m: Migration)
    requires m in available && m.id in ById(available) && !ById(available)[m.id].downgradeFails
    requires Apply(applied, m).result.Ok?
    ensures Rollback(Apply(applied, m).applied, available, m.id) == Step(Ok(()), applied)
  {
    WithoutAppend(applied, [m.id], m.id);
    WithoutAbsent(applied, m.id);
    assert Without([m.id], m.id) == [];
  }

  /** After a rollback every available migration with that id is pending again. */
  lemma RollbackMakesPending(applied: seq<string>, available: seq<Migration>, id: string, m: Migration)
    requires Rollback(applied, available, id).result.Ok?
    requires m in available && m.id == id
    ensures m in Pending(available, Rollback(applied, available, id).applied)
  {
    WithoutMembers(applied, id);
    PendingMembers(available, Without(applied, id));
  }

  // ---------------------------------------------------------------------------
  // Status report

  /** Python's `f"{s:n}"` on a string: left-aligned, padded with spaces to width `n`. */
  function PadRight(s: string, n: nat): (r: string)
    ensures |r| == if |s| < n then n else |s|
    ensures r[..|s|] == s
    ensures forall i :: |s| <= i < |r| ==> r[i] == ' '
    decreases n - |s|
  {
    if |s| >= n then s else PadRight(s + " ", n)
  }

  function StatusWord(isApplied: bool): string {
    if isApplied then "Applied" else "Pending"
  }

  /** One line of `status`: the id padded to 30, the status padded to 10, the description. */
  function StatusLine(id: string, applied: seq<string>, description: string): string {
    PadRight(id, 30) + " " + PadRight(StatusWord(id in applied), 10) + " " + description
  }

  /** The status column a reader finds after the padded id. */
  function StatusColumn(line: string, id: string): string
    requires |PadRight(id, 30)| + 8 <= |line|
  {
    line[|PadRight(id, 30)| + 1..|PadRight(id, 30)| + 8]
  }

  /** The line says "Applied" exactly when the id is recorded, and "Pending" otherwise. */
  lemma StatusLineShowsState(id: string, applied: seq<string>, description: string)
    ensures var line := StatusLine(id, applied, description);
      |PadRight(id, 30)| + 8 <= |line| &&
      (StatusColumn(line, id) == "Applied" <==> id in applied) &&
      (StatusColumn(line, id) == "Pending" <==> id !in applied)
  {
    var p := PadRight(id, 30);
    var w := PadRight(StatusWord(id in applied), 10);
    var line := StatusLine(id, applied, description);
    assert line == p + " " + w + " " + description;
    assert line[|p| + 1..|p| + 8] == w[..7];
    assert w[..7] == StatusWord(id in applied);
  }

  /** The ids of `available` in first-seen order, each once: the dictionary's keys. */
  function DistinctIds(available: seq<Migration>): seq<string> {
    if available == [] then []
    else
      var before := DistinctIds(available[..|available| - 1]);
      var id := available[|available| - 1].id;
      if id in before then before else before + [id]
  }

  /** Every available id occurs among the keys, exactly once, and nothing else does. */
  lemma {:induction false} DistinctIdsOnce(available: seq<Migration>)
    ensures forall id :: id in DistinctIds(available) <==> HasId(available, id)
    ensures forall id :: HasId(available, id) ==> multiset(DistinctIds(available))[id] == 1
  {
    if available != [] {
      var init := available[..|available| - 1];
      var last := available[|available| - 1];
      assert available == init + [last];
      DistinctIdsOnce(init);
      forall id ensures HasId(available, id) <==> HasId(init, id) || last.id == id {
        HasIdSnoc(init, last, id);
      }
    }
  }

  function StatusLines(ids: seq<string>, applied: seq<string>, d: map<string, Migration>): seq<string>
    requires forall id :: id in ids ==> id in d
  {
    if ids == [] then []
    else StatusLines(ids[..|ids| - 1], applied, d) + [StatusLine(ids[|ids| - 1], applied, d[ids[|ids| - 1]].description)]
  }

  const StatusHeader: seq<string> := ["Migration Status:", "================"]

  /** `sorted(available.keys())`: ascending, the dictionary's keys, each available id once. */
  lemma SortedIds(available: seq<Migration>)
    ensures Sorted(SortStrings(DistinctIds(available)))
    ensures forall id :: id in SortStrings(DistinctIds(available)) <==> id in ById(available)
    ensures forall id :: HasId(available, id) ==> multiset(SortStrings(DistinctIds(available)))[id] == 1
  {
    var ids := DistinctIds(available);
    DistinctIdsOnce(available);
    ByIdEntries(available);
    forall id ensures id in SortStrings(ids) <==> id in ids {
      assert id in SortStrings(ids) <==> id in multiset(SortStrings(ids));
    }
  }

  lemma KeysInById(available: seq<Migration>)
    ensures forall id :: id in SortStrings(DistinctIds(available)) ==> id in ById(available)
  {
    SortedIds(available);
  }

  lemma StatusLinesSnoc(keys: seq<string>, i: int, applied: seq<string>, d: map<string, Migration>)
    requires 0 <= i < |keys| && forall id :: id in keys ==> id in d
    ensures StatusLines(keys[..i + 1], applied, d) ==
      StatusLines(keys[..i], applied, d) + [StatusLine(keys[i], applied, d[keys[i]].description)]
  {
    assert keys[..i + 1][..i] == keys[..i];
  }

  /** The printed report for keys `ids` in that order, with entries `d`. */
  function Report(applied: seq<string>, ids: seq<string>, d: map<string, Migration>): seq<string>
    requires forall id :: id in ids ==> id in d
  {
    StatusHeader + StatusLines(ids, applied, d) + (if d == map[] then ["No migrations found"] else [])
  }

  /** What `status` prints, given the recorded ids it read and the available entries. */
  function StatusReport(applied: seq<string>, available: seq<Migration>): seq<string> {
    KeysInById(available);
    Report(applied, SortStrings(DistinctIds(available)), ById(available))
  }

  lemma {:induction false} StatusLinesAt(ids: seq<string>, applied: seq<string>, d: map<string, Migration>)
    requires forall id :: id in ids ==> id in d
    ensures |StatusLines(ids, applied, d)| == |ids|
    ensures forall i :: 0 <= i < |ids| ==>
      StatusLines(ids, applied, d)[i] == StatusLine(ids[i], applied, d[ids[i]].description)
  {
    if ids != [] {
      StatusLinesAt(ids[..|ids| - 1], applied, d);
    }
  }

  /** The header, one line per key in order, then the notice when there are no entries. */
  lemma ReportLines(applied: seq<string>, ids: seq<string>, d: map<string, Migration>)
    requires forall id :: id in ids ==> id in d
    ensures var out := Report(applied, ids, d);
      |out| == 2 + |ids| + (if d == map[] then 1 else 0) &&
      out[..2] == StatusHeader &&
      (d == map[] ==> out[2 + |ids|] == "No migrations found") &&
      forall i :: 0 <= i < |ids| ==> out[2 + i] == StatusLine(ids[i], applied, d[ids[i]].description)
  {
    StatusLinesAt(ids, applied, d);
  }

  /** The report is the header, one line per available id, and the notice exactly when nothing is available. */
  lemma StatusReportShape(applied: seq<string>, available: seq<Migration>)
    ensures var out := StatusReport(applied, available);
      |out| == 2 + |DistinctIds(available)| + (if available == [] then 1 else 0) &&
      out[..2] == StatusHeader &&
      (available == [] ==> out[2] == "No migrations found")
  {
    var ids := SortStrings(DistinctIds(available));
    KeysInById(available);
    ReportLines(applied, ids, ById(available));
    assert |ids| == |multiset(ids)| == |DistinctIds(available)|;
    ByIdEmpty(available);
  }

  /** Line `2 + i` reports the `i`-th key in ascending order with the description of the last entry carrying it. */
  lemma StatusReportRows(applied: seq<string>, available: seq<Migration>)
    ensures var ids := SortStrings(DistinctIds(available));
      var out := StatusReport(applied, available);
      forall i :: 0 <= i < |ids| ==>
        (ids[i] in ById(available) && 2 + i < |out| &&
         out[2 + i] == StatusLine(ids[i], applied, ById(available)[ids[i]].description))
  {
    KeysInById(available);
    ReportLines(applied, SortStrings(DistinctIds(available)), ById(available));
  }

  // ---------------------------------------------------------------------------
  // The manager

  /**
   * `MigrationManager`: the migrations directory, whether the read of the table fails,
   * and the rows of `schema_migrations` in the order they were applied.
   */
  class MigrationManager {
    const files: seq<MigrationFile>
    const queryFails: bool
    var applied: seq<string>

    /** `__init__`: creating the table if it does not exist keeps the rows already there. */
    constructor (files: seq<MigrationFile>, queryFails: bool, existing: seq<string>)
      ensures this.files == files && this.queryFails == queryFails && applied == existing
    {
      this.files := files;
      this.queryFails := queryFails;
      applied := existing;
    }

    /** What the SELECT reads: the rows, or nothing when the query raises. */
    function AppliedIds(): seq<string>
      reads this
    {
      if queryFails then [] else applied
    }

    /** `get_applied_migrations`: the recorded ids in applied order; an empty list when the query fails. */
    method GetAppliedMigrations() returns (ids: seq<string>)
      ensures ids == AppliedIds()
      ensures !queryFails ==> ids == applied
      ensures queryFails ==> ids == []
    {
      if queryFails {
        ids := [];
      } else {
        ids := applied;
      }
    }

    /** `get_available_migrations`: the loop over the sorted glob. */
    method GetAvailableMigrations() returns (ms: seq<Migration>)
      ensures ms == Available(files)
    {
      SortedGlob(files);
      var d := Directory(files);
      var names := SortStrings(GlobNames(files));
      ms := [];
      for i := 0 to |names|
        invariant ms == Loaded(d, names[..i])
      {
        assert names[..i + 1][..i] == names[..i];
        var name := names[i];
        if StartsWith(name, "__") {
          continue;
        }
        if d[name].imports {
          ms := ms + [Describe(name, d[name])];
        }
        // a module that fails to load is logged and skipped
      }
      assert names[..|names|] == names;
    }

    /** `get_pending_migrations`. */
    method GetPendingMigrations() returns (pending: seq<Migration>)
      ensures pending == Pending(Available(files), AppliedIds())
    {
      var ids := GetAppliedMigrations();
      var available := GetAvailableMigrations();
      pending := Pending(available, ids);
    }

    /** `apply_migration`. */
    method ApplyMigration(m: Migration) returns (r: Result<(), MigrationError>)
      modifies this
      ensures Step(r, applied) == Apply(old(applied), m)
    {
      if m.upgradeFails {
        return Err(UpgradeFailed(m.id));
      }
      if m.id in applied {
        return Err(AlreadyRecorded(m.id));
      }
      applied := applied + [m.id];
      r := Ok(());
    }

    /** `migrate`: nothing when nothing is pending; otherwise each pending migration in order, stopping at the first failure. */
    method Migrate() returns (r: Result<(), MigrationError>)
      modifies this
      ensures Step(r, applied) == RunAll(old(applied), Pending(Available(files), old(AppliedIds())))
    {
      var pending := GetPendingMigrations();
      if pending == [] {
        return Ok(());
      }
      for i := 0 to |pending|
        invariant RunAll(applied, pending[i..]) == RunAll(old(applied), pending)
      {
        assert pending[i..][0] == pending[i] && pending[i..][1..] == pending[i + 1..];
        var step := ApplyMigration(pending[i]);
        if step.Err? {
          return step;
        }
      }
      r := Ok(());
    }

    /** `rollback_migration`. */
    method RollbackMigration(id: string) returns (r: Result<(), MigrationError>)
      modifies this
      ensures Step(r, applied) == Rollback(old(applied), Available(files), id)
    {
      var available := GetAvailableMigrations();
      var d := ById(available);
      if id !in d {
        return Err(NotFound(id));
      }
      if d[id].downgradeFails {
        return Err(DowngradeFailed(id));
      }
      applied := Without(applied, id);
      r := Ok(());
    }

    /** `status`: the printed report, as lines. */
    method Status() returns (out: seq<string>)
      ensures out == StatusReport(AppliedIds(), Available(files))
    {
      var ids := GetAppliedMigrations();
      var available := GetAvailableMigrations();
      var d := ById(available);
      KeysInById(available);
      var keys := SortStrings(DistinctIds(available));
      var lines: seq<string> := [];
      for i := 0 to |keys|
        invariant lines == StatusLines(keys[..i], ids, d)
      {
        StatusLinesSnoc(keys, i, ids, d);
        lines := lines + [StatusLine(keys[i], ids, d[keys[i]].description)];
      }
      assert keys[..|keys|] == keys;
      out := StatusHeader + lines + (if d == map[] then ["No migrations found"] else []);
    }
  }
}
