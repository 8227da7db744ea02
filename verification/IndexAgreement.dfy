/** The incremental index against a rebuild from scratch: the stored functions. */
module IndexAgreement {
  import opened Text
  import opened Snapshots
  import opened IndexTables
  import opened Parsing
  import opened IndexRuns
  import opened IndexSoundness

  /** The functions stored for one file, their ids aside. */
  function RowsAt(t: Tables, repo: RepoId, path: Path): set<FunctionRow> {
    set id | id in t.functions && t.functions[id].repo == repo && t.functions[id].fn.filePath == path :: t.functions[id]
  }

  /** The functions stored for a repo, their ids aside. */
  function Contents(t: Tables, repo: RepoId): set<FunctionRow> {
    set id | id in t.functions && t.functions[id].repo == repo :: t.functions[id]
  }

  /** The functions a file outcome gives. */
  function OutcomeRows(repo: RepoId, path: Path, o: FileOutcome): set<FunctionRow> {
    match Indexed(path, o)
    case None => {}
    case Some(w) => set row | row in FileRows(repo, w)
  }

  ghost predicate Scanned(files: seq<FileSnapshot>, path: Path) {
    exists f :: f in files && f.path == path
  }

  /** What a rebuild from these files stores under the path. */
  ghost function RebuiltRows(repo: RepoId, files: seq<FileSnapshot>, outcomes: map<Path, FileOutcome>,
                             path: Path): set<FunctionRow> {
    if Scanned(files, path) && path in outcomes then OutcomeRows(repo, path, outcomes[path]) else {}
  }

  ghost predicate Agrees(ix: Index, repo: RepoId, files: seq<FileSnapshot>, outcomes: map<Path, FileOutcome>) {
    forall path :: RowsAt(ix.tables, repo, path) == RebuiltRows(repo, files, outcomes, path)
  }

  lemma ContentsByPath(a: Tables, b: Tables, repo: RepoId)
    ensures Contents(a, repo) == Contents(b, repo) <==> forall path :: RowsAt(a, repo, path) == RowsAt(b, repo, path)
  {
    if Contents(a, repo) == Contents(b, repo) {
      forall path ensures RowsAt(a, repo, path) == RowsAt(b, repo, path) {
        forall row ensures row in RowsAt(a, repo, path) <==> row in RowsAt(b, repo, path) {
          assert row in RowsAt(a, repo, path) <==> row in Contents(a, repo) && row.fn.filePath == path;
          assert row in RowsAt(b, repo, path) <==> row in Contents(b, repo) && row.fn.filePath == path;
        }
      }
    }
    if forall path :: RowsAt(a, repo, path) == RowsAt(b, repo, path) {
      forall row ensures row in Contents(a, repo) <==> row in Contents(b, repo) {
        assert row in Contents(a, repo) <==> row in RowsAt(a, repo, row.fn.filePath);
        assert row in Contents(b, repo) <==> row in RowsAt(b, repo, row.fn.filePath);
      }
    }
  }

  /** The run deletes what is stored under the path. */
  predicate Drops(t: Tables, run: Run, path: Path) {
    run.full || path in Outdated(Snapshot(t, run.repo), run.files)
  }

  lemma DeleteRows(ix: Index, run: Run, repo: RepoId, path: Path)
    ensures RowsAt(AfterDelete(ix, run).tables, repo, path) ==
            if repo == run.repo && Drops(ix.tables, run, path) then {} else RowsAt(ix.tables, repo, path)
  {
    var before, after := ix.tables, AfterDelete(ix, run).tables;
    forall id | id in before.functions && before.functions[id].repo == repo && before.functions[id].fn.filePath == path
      ensures id in after.functions <==> !(repo == run.repo && Drops(before, run, path))
    {
      assert id in Doomed(before, run) <==> repo == run.repo && Drops(before, run, path);
    }
  }

  lemma InsertRows(functions: map<Id, FunctionRow>, first: Id, rows: seq<FunctionRow>, row: FunctionRow)
    requires forall id <- functions :: id < first
    ensures (exists id :: id in InsertFunctions(functions, first, rows)
                          && InsertFunctions(functions, first, rows)[id] == row)
            <==> (exists id :: id in functions && functions[id] == row) || row in rows
  {
    var after := InsertFunctions(functions, first, rows);
    if id :| id in functions && functions[id] == row {
      assert id in after && after[id] == row;
    }
    if i :| 0 <= i < |rows| && rows[i] == row {
      assert first + i in after && after[first + i] == row;
    }
  }

  lemma RowsOfFiles(repo: RepoId, files: seq<FileSnapshot>, outcomes: map<Path, FileOutcome>, row: FunctionRow)
    requires WellFormedFiles(files, outcomes)
    ensures row in Rows(repo, IndexedFiles(files, outcomes)) <==>
            exists f :: f in files && row in OutcomeRows(repo, f.path, outcomes[f.path])
  {
    var works := IndexedFiles(files, outcomes);
    IndexedFilesMembers(files, outcomes);
    RowsMembers(repo, works);
    if w :| w in works && row in FileRows(repo, w) {
      var f :| f in files && f.path in outcomes && Indexed(f.path, outcomes[f.path]) == Some(w);
      assert row in OutcomeRows(repo, f.path, outcomes[f.path]);
    }
    if f :| f in files && row in OutcomeRows(repo, f.path, outcomes[f.path]) {
      var w := Indexed(f.path, outcomes[f.path]).value;
      assert w in works && row in FileRows(repo, w);
    }
  }

  lemma OutcomeRowsStamped(repo: RepoId, path: Path, o: FileOutcome, row: FunctionRow)
    requires WellFormed(path, o) && row in OutcomeRows(repo, path, o)
    ensures row.repo == repo && row.fn.filePath == path
  {
    var w := Indexed(path, o).value;
    assert row.fn in w.functions;
  }

  /** The rows of a run are exactly the outcome rows of its processed files. */
  lemma PlannedRows(ix: Index, run: Run, row: FunctionRow)
    requires WellFormedFiles(run.files, run.outcomes)
    ensures row in PlanOf(ix, run).rows <==>
            row.repo == run.repo && Scanned(Processed(ix.tables, run), row.fn.filePath)
              && row.fn.filePath in run.outcomes
            && row in OutcomeRows(run.repo, row.fn.filePath, run.outcomes[row.fn.filePath])
  {
    hide IndexedFiles, Rows, OutcomeRows, Changed, Snapshot;
    var files, path := Processed(ix.tables, run), row.fn.filePath;
    if !run.full {
      ChangedAscending(Snapshot(ix.tables, run.repo), run.files);
    }
    RowsOfFiles(run.repo, files, run.outcomes, row);
    if f :| f in files && row in OutcomeRows(run.repo, f.path, run.outcomes[f.path]) {
      OutcomeRowsStamped(run.repo, f.path, run.outcomes[f.path], row);
    }
  }

  /** Path by path: a processed file holds its outcome, a dropped one nothing, any
      other what it held; other repos are not touched. */
  lemma RunRows(ix: Index, e: Event, repo: RepoId, path: Path)
    requires Sound(ix) && Possible(ix, e) && e.stop >= 2
    ensures RowsAt(After(ix, e).tables, repo, path) ==
            if repo != e.run.repo then RowsAt(ix.tables, repo, path)
            else if Scanned(Processed(ix.tables, e.run), path) then OutcomeRows(repo, path, e.run.outcomes[path])
            else if Drops(ix.tables, e.run, path) then {}
            else RowsAt(ix.tables, repo, path)
  {
    hide Doomed, DeleteFunctions, PlanOf, InsertFunctions, InsertCallEdges, Edges, UnresolvedEdges, InsertUnresolved,
         Processed, Drops, WellFormedFiles;
    var run := e.run;
    var before, after := AfterDelete(ix, run).tables, After(ix, e).tables;
    FunctionsAfterRun(ix, e);
    hide After, AfterDelete;
    FunctionsKeepOlder(ix, run);
    DeleteRows(ix, run, repo, path);
    if repo == run.repo && Scanned(Processed(ix.tables, run), path) {
      ProcessedAreDropped(ix.tables, run, path);
    }
    forall row ensures row in RowsAt(after, repo, path) <==>
                       row in RowsAt(before, repo, path)
                       || (repo == run.repo && Scanned(Processed(ix.tables, run), path)
                          && row in OutcomeRows(repo, path, run.outcomes[path])) {
      InsertRows(before.functions, ix.nextId, PlanOf(ix, run).rows, row);
      PlannedRows(ix, run, row);
      if repo == run.repo && Scanned(Processed(ix.tables, run), path)
        && row in OutcomeRows(repo, path, run.outcomes[path]) {
        ProcessedOutcome(ix.tables, run, path);
        OutcomeRowsStamped(repo, path, run.outcomes[path], row);
      }
    }
  }

  lemma FunctionsAfterRun(ix: Index, e: Event)
    requires e.stop >= 2
    ensures After(ix, e).tables.functions ==
            InsertFunctions(AfterDelete(ix, e.run).tables.functions, ix.nextId, PlanOf(ix, e.run).rows)
  {
    hide After, PlanOf, AfterDelete, InsertFunctions, Origins;
    StagesKeepFunctions(ix, e);
  }

  lemma ProcessedAreDropped(t: Tables, run: Run, path: Path)
    requires Scanned(Processed(t, run), path) && WellFormedFiles(run.files, run.outcomes)
    ensures Drops(t, run, path) && path in run.outcomes && Scanned(run.files, path)
  {
    var f :| f in Processed(t, run) && f.path == path;
    ChangedFiles(Snapshot(t, run.repo), run.files);
  }

  lemma ProcessedOutcome(t: Tables, run: Run, path: Path)
    requires Scanned(Processed(t, run), path) && WellFormedFiles(run.files, run.outcomes)
    ensures path in run.outcomes && WellFormed(path, run.outcomes[path])
  {
    ProcessedAreDropped(t, run, path);
  }

  // Exact conditions for one run.

  /** A complete full run agrees with its own scan, whatever was stored before. */
  lemma FullRunAgrees(ix: Index, e: Event)
    requires Sound(ix) && Possible(ix, e) && e.stop >= 2 && e.run.full
    ensures Agrees(After(ix, e), e.run.repo, e.run.files, e.run.outcomes)
  {
    hide After, OutcomeRows, RowsAt, Storable;
    forall path
      ensures RowsAt(After(ix, e).tables, e.run.repo, path) ==
              RebuiltRows(e.run.repo, e.run.files, e.run.outcomes, path)
    {
      RunRows(ix, e, e.run.repo, path);
      if f :| f in e.run.files && f.path == path {
        assert path in e.run.outcomes;
      }
    }
  }

  /** The path is neither processed nor dropped by the incremental run: an unchanged
      file, or one that neither the snapshot nor the scan names. */
  ghost predicate Untouched(t: Tables, run: Run, path: Path) {
    !Drops(t, run, path)
  }

  /** An incremental run that stores its functions agrees with a rebuild exactly when
      every path it leaves alone already did: unchanged files have the rows of their
      present outcome, and no rows linger for files outside snapshot and scan. */
  lemma IncrementalRunAgreesIff(ix: Index, e: Event)
    requires Sound(ix) && Possible(ix, e) && e.stop >= 2 && !e.run.full
    ensures Agrees(After(ix, e), e.run.repo, e.run.files, e.run.outcomes) <==>
            forall path | Untouched(ix.tables, e.run, path) ::
              RowsAt(ix.tables, e.run.repo, path) == RebuiltRows(e.run.repo, e.run.files, e.run.outcomes, path)
  {
    hide After, OutcomeRows, RowsAt, Storable, Outdated, Changed, Snapshot;
    var run := e.run;
    forall path
      ensures RowsAt(After(ix, e).tables, run.repo, path) ==
              if Untouched(ix.tables, run, path) then RowsAt(ix.tables, run.repo, path)
              else RebuiltRows(run.repo, run.files, run.outcomes, path)
    {
      RunRows(ix, e, run.repo, path);
      DroppedOrProcessed(ix.tables, run, path);
    }
  }

  /** A dropped path is processed if it is scanned, and gone otherwise. */
  lemma DroppedOrProcessed(t: Tables, run: Run, path: Path)
    requires WellFormedFiles(run.files, run.outcomes)
    ensures Scanned(Processed(t, run), path) <==> Drops(t, run, path) && Scanned(run.files, path)
    ensures Scanned(run.files, path) ==> path in run.outcomes
  {
    var snapshot := Snapshot(t, run.repo);
    ChangedFiles(snapshot, run.files);
    ModTimesOfScan(run.files);
    if Scanned(Processed(t, run), path) {
      ProcessedAreDropped(t, run, path);
    }
    if f :| f in run.files && f.path == path {
      assert path in ModTimes(run.files);
    }
  }

  /** What agreement of a plain history needs: every path of the snapshot holds the
      rows and the origin its recorded mtime gives, and nothing else is stored. */
  ghost predicate InStep(ix: Index, repo: RepoId, oracle: (Path, int) -> FileOutcome) {
    var snapshot := Snapshot(ix.tables, repo);
    && (forall path :: RowsAt(ix.tables, repo, path) ==
                       if path in snapshot then OutcomeRows(repo, path, oracle(path, snapshot[path])) else {})
    && (forall path <- snapshot | Indexed(path, oracle(path, snapshot[path])).Some? ::
          (repo, path) in ix.origin && ix.origin[(repo, path)] == Indexed(path, oracle(path, snapshot[path])).value)
  }

  /** The outcome of every file of the scan depends on its path and mtime only. */
  ghost predicate Deterministic(run: Run, oracle: (Path, int) -> FileOutcome) {
    forall f <- run.files :: f.path in run.outcomes && run.outcomes[f.path] == oracle(f.path, f.modTime)
  }

  ghost predicate Representable(files: seq<FileSnapshot>) {
    forall f <- files :: IsInt64(f.modTime)
  }

  /** A run of the repo that completes under the oracle. */
  ghost predicate Faithful(e: Event, repo: RepoId, oracle: (Path, int) -> FileOutcome) {
    e.run.repo == repo ==> e.stop == COMPLETE && Deterministic(e.run, oracle) && Representable(e.run.files)
  }

  lemma AscendingDistinct(files: seq<FileSnapshot>)
    requires Ascending(files)
    ensures DistinctPaths(files)
  {
  }

  /** The snapshot a complete run leaves is the scan itself. */
  lemma SnapshotIsScan(ix: Index, e: Event)
    requires Possible(ix, e) && e.stop == COMPLETE && Representable(e.run.files)
    ensures Snapshot(After(ix, e).tables, e.run.repo) == ModTimes(e.run.files)
    ensures forall f <- e.run.files :: f.path in ModTimes(e.run.files) && ModTimes(e.run.files)[f.path] == f.modTime
    ensures forall path <- ModTimes(e.run.files) :: Scanned(e.run.files, path)
  {
    hide AfterUnresolved, AfterEdges, AfterFunctions, AfterDelete, Storable, IsFunctionMap;
    AscendingDistinct(e.run.files);
    SnapshotRoundTrip(e.run.files);
    ModTimesOfScan(e.run.files);
    forall path | path in ModTimes(e.run.files) ensures Scanned(e.run.files, path) {
      var i :| 0 <= i < |e.run.files| && e.run.files[i].path == path;
      assert e.run.files[i] in e.run.files;
    }
  }

  lemma OtherReposKept(ix: Index, e: Event, repo: RepoId)
    requires e.run.repo != repo
    ensures Snapshot(After(ix, e).tables, repo) == Snapshot(ix.tables, repo)
    ensures forall path :: (repo, path) in After(ix, e).origin <==> (repo, path) in ix.origin
    ensures forall path | (repo, path) in ix.origin :: After(ix, e).origin[(repo, path)] == ix.origin[(repo, path)]
  {
    hide PlanOf, Doomed, Edges, UnresolvedEdges, InsertCallEdges, InsertUnresolved, InsertFunctions, Encode, Decode;
    OriginsAreLast(ix.origin, e.run.repo, PlanOf(ix, e.run).works, "");
  }

  /** Deletes that a run made before failing, on another repo, change nothing here. */
  lemma RowsOfOtherRepos(ix: Index, e: Event, repo: RepoId, path: Path)
    requires Sound(ix) && Possible(ix, e) && e.run.repo != repo
    ensures RowsAt(After(ix, e).tables, repo, path) == RowsAt(ix.tables, repo, path)
  {
    hide RowsAt, AfterDelete, AfterFunctions, AfterEdges, AfterUnresolved, WellFormedFiles, Storable, IsFunctionMap;
    if e.stop == 1 {
      DeleteRows(ix, e.run, repo, path);
    } else if e.stop >= 2 {
      RunRows(ix, e, repo, path);
    }
  }

  lemma StepOfOtherRepo(ix: Index, e: Event, repo: RepoId, oracle: (Path, int) -> FileOutcome)
    requires Sound(ix) && Possible(ix, e) && e.run.repo != repo && InStep(ix, repo, oracle)
    ensures InStep(After(ix, e), repo, oracle)
  {
    hide After, OutcomeRows, RowsAt, Possible, Sound, Indexed, Snapshot;
    OtherReposKept(ix, e, repo);
    forall path ensures RowsAt(After(ix, e).tables, repo, path) == RowsAt(ix.tables, repo, path) {
      RowsOfOtherRepos(ix, e, repo, path);
    }
  }

  lemma StepOfThisRepo(ix: Index, e: Event, oracle: (Path, int) -> FileOutcome)
    requires Sound(ix) && Possible(ix, e) && e.stop == COMPLETE
    requires Deterministic(e.run, oracle) && Representable(e.run.files)
    requires e.run.full || InStep(ix, e.run.repo, oracle)
    ensures InStep(After(ix, e), e.run.repo, oracle)
  {
    hide After, OutcomeRows, RowsAt, Possible, Sound, Indexed, Processed, Drops;
    var repo, snapshot := e.run.repo, ModTimes(e.run.files);
    SnapshotIsScan(ix, e);
    forall path
      ensures RowsAt(After(ix, e).tables, repo, path) ==
              if path in snapshot then OutcomeRows(repo, path, oracle(path, snapshot[path])) else {}
    {
      RunRows(ix, e, repo, path);
      PossibleFiles(ix, e);
      DroppedOrProcessed(ix.tables, e.run, path);
      if !Drops(ix.tables, e.run, path) {
        UntouchedPath(ix.tables, e.run, path);
      }
    }
    forall path | path in snapshot && Indexed(path, oracle(path, snapshot[path])).Some?
      ensures (repo, path) in After(ix, e).origin
      ensures After(ix, e).origin[(repo, path)] == Indexed(path, oracle(path, snapshot[path])).value
    {
      PossibleFiles(ix, e);
      DroppedOrProcessed(ix.tables, e.run, path);
      if !Drops(ix.tables, e.run, path) {
        UntouchedPath(ix.tables, e.run, path);
      }
      OriginAt(ix, e, path);
    }
  }

  lemma PossibleFiles(ix: Index, e: Event)
    requires Possible(ix, e)
    ensures WellFormedFiles(e.run.files, e.run.outcomes)
  {
  }

  /** A path left alone is either an unchanged file or known to nobody. */
  lemma UntouchedPath(t: Tables, run: Run, path: Path)
    requires WellFormedFiles(run.files, run.outcomes) && !Drops(t, run, path)
    ensures !run.full
    ensures path in ModTimes(run.files) <==> path in Snapshot(t, run.repo)
    ensures path in ModTimes(run.files) ==> ModTimes(run.files)[path] == Snapshot(t, run.repo)[path]
  {
    ModTimesOfScan(run.files);
    AscendingDistinct(run.files);
    ChangedFiles(Snapshot(t, run.repo), run.files);
    if path in ModTimes(run.files) {
      var i :| 0 <= i < |run.files| && run.files[i].path == path;
      assert run.files[i] in run.files;
    }
  }

  /** The origin of a path after a run that stored its functions. */
  lemma OriginAt(ix: Index, e: Event, path: Path)
    requires Sound(ix) && Possible(ix, e) && e.stop >= 2
    ensures Scanned(Processed(ix.tables, e.run), path) && Indexed(path, e.run.outcomes[path]).Some? ==>
              (e.run.repo, path) in After(ix, e).origin
              && After(ix, e).origin[(e.run.repo, path)] == Indexed(path, e.run.outcomes[path]).value
    ensures !Scanned(Processed(ix.tables, e.run), path) ==>
              ((e.run.repo, path) in After(ix, e).origin <==> (e.run.repo, path) in ix.origin)
              && ((e.run.repo, path) in ix.origin ==>
                 After(ix, e).origin[(e.run.repo, path)] == ix.origin[(e.run.repo, path)])
  {
    hide Rows, CallerIds, Doomed, DeleteFunctions, InsertFunctions, InsertCallEdges, Edges, UnresolvedEdges,
         InsertUnresolved, Origins, IndexedFiles, Storable, IsFunctionMap, Processed;
    var works := PlanOf(ix, e.run).works;
    assert After(ix, e).origin == Origins(ix.origin, e.run.repo, works);
    PlannedFiles(ix, e.run);
    IndexedFilesMembers(Processed(ix.tables, e.run), e.run.outcomes);
    OriginsMembers(ix.origin, e.run.repo, works);
    if Scanned(Processed(ix.tables, e.run), path) {
      ProcessedAreDropped(ix.tables, e.run, path);
      var f :| f in Processed(ix.tables, e.run) && f.path == path;
      if Indexed(path, e.run.outcomes[path]).Some? {
        assert Indexed(f.path, e.run.outcomes[f.path]) == Some(Indexed(path, e.run.outcomes[path]).value);
        assert Indexed(path, e.run.outcomes[path]).value in works;
        assert Indexed(path, e.run.outcomes[path]).value.path == path by { IndexedPath(path, e.run.outcomes[path]); }
      }
    } else {
      forall w | w in works ensures w.path != path {
        var f :| f in Processed(ix.tables, e.run) && f.path in e.run.outcomes
          && Indexed(f.path, e.run.outcomes[f.path]) == Some(w);
        IndexedPath(f.path, e.run.outcomes[f.path]);
      }
    }
  }

  lemma IndexedPath(path: Path, o: FileOutcome)
    ensures Indexed(path, o).Some? ==> Indexed(path, o).value.path == path
  {
  }

  /** Every run of the repo in the history completed under the oracle. */
  ghost predicate FaithfulHistory(history: seq<Event>, repo: RepoId, oracle: (Path, int) -> FileOutcome) {
    forall e <- history :: Faithful(e, repo, oracle)
  }

  lemma {:induction false} InStepAlways(history: seq<Event>, repo: RepoId, oracle: (Path, int) -> FileOutcome)
    requires PossibleHistory(history) && FaithfulHistory(history, repo, oracle)
    ensures InStep(Exec(history), repo, oracle)
  {
    hide After, OutcomeRows, Possible, Sound, Indexed;
    if history == [] {
      assert Snapshot(EMPTY_INDEX.tables, repo) == map[];
    } else {
      var front, e := history[..|history| - 1], history[|history| - 1];
      assert forall e' <- front :: e' in history;
      InStepAlways(front, repo, oracle);
      SoundAlways(front);
      assert Faithful(e, repo, oracle);
      if e.run.repo == repo {
        StepOfThisRepo(Exec(front), e, oracle);
      } else {
        StepOfOtherRepo(Exec(front), e, repo, oracle);
      }
    }
  }

  /** The rebuild sees the source tree as the last run of the repo saw it. */
  ghost predicate SameFiles(ix: Index, rebuild: Run) {
    ModTimes(rebuild.files) == Snapshot(ix.tables, rebuild.repo)
  }

  /** After any history of edits, each followed by a complete run of the repo, with
      runs on other repos in between stopping anywhere, a rebuild of the same files
      stores exactly the functions already stored. */
  lemma RebuildChangesNothing(history: seq<Event>, rebuild: Event, oracle: (Path, int) -> FileOutcome)
    requires PossibleHistory(history) && FaithfulHistory(history, rebuild.run.repo, oracle)
    requires Possible(Exec(history), rebuild) && rebuild.run.full && rebuild.stop >= 2
    requires Deterministic(rebuild.run, oracle) && SameFiles(Exec(history), rebuild.run)
    ensures Contents(After(Exec(history), rebuild).tables, rebuild.run.repo) ==
            Contents(Exec(history).tables, rebuild.run.repo)
  {
    hide After, OutcomeRows, RowsAt, Possible, Sound, Indexed, Storable;
    var ix, run := Exec(history), rebuild.run;
    SoundAlways(history);
    InStepAlways(history, run.repo, oracle);
    FullRunAgrees(ix, rebuild);
    PossibleFiles(ix, rebuild);
    AscendingDistinct(run.files);
    ModTimesOfScan(run.files);
    forall path ensures RowsAt(After(ix, rebuild).tables, run.repo, path) == RowsAt(ix.tables, run.repo, path) {
      if f :| f in run.files && f.path == path {
        assert path in ModTimes(run.files);
      }
    }
    ContentsByPath(After(ix, rebuild).tables, ix.tables, run.repo);
  }

  /** A full run that stops right after its delete, followed by a complete incremental
      run on the unchanged files, leaves the repo without functions. */
  lemma FailedRebuildLosesFunctions(ix: Index, failed: Event, later: Event)
    requires Sound(ix) && Possible(ix, failed) && failed.run.full && failed.stop == 1
    requires Possible(After(ix, failed), later) && !later.run.full && later.stop == COMPLETE
    requires later.run.repo == failed.run.repo && SameFiles(ix, later.run)
    ensures Contents(After(After(ix, failed), later).tables, later.run.repo) == {}
  {
    hide Possible, Sound, Indexed, OutcomeRows, RowsAt, Processed, Drops, Outdated, Snapshot, Doomed, DeleteFunctions;
    var repo, mid := later.run.repo, After(ix, failed);
    RunKeepsSound(ix, failed);
    PossibleFiles(mid, later);
    SnapshotKeptByDelete(ix, failed.run);
    forall path ensures RowsAt(After(mid, later).tables, repo, path) == RowsAt(EMPTY_INDEX.tables, repo, path) {
      DeleteRows(ix, failed.run, repo, path);
      RunRows(mid, later, repo, path);
      NothingChanged(mid.tables, later.run, path);
      DroppedByFullRun(ix.tables, failed.run, path);
      assert RowsAt(EMPTY_INDEX.tables, repo, path) == {} by { EmptyRows(repo, path); }
    }
    ContentsByPath(After(mid, later).tables, EMPTY_INDEX.tables, repo);
  }

  lemma EmptyRows(repo: RepoId, path: Path)
    ensures RowsAt(EMPTY_INDEX.tables, repo, path) == {}
  {
  }

  lemma DroppedByFullRun(t: Tables, run: Run, path: Path)
    requires run.full
    ensures Drops(t, run, path)
  {
  }

  lemma SnapshotKeptByDelete(ix: Index, run: Run)
    ensures Snapshot(AfterDelete(ix, run).tables, run.repo) == Snapshot(ix.tables, run.repo)
  {
  }

  /** With the files as in the snapshot an incremental run processes nothing. */
  lemma NothingChanged(t: Tables, run: Run, path: Path)
    requires WellFormedFiles(run.files, run.outcomes) && !run.full && ModTimes(run.files) == Snapshot(t, run.repo)
    ensures !Scanned(Processed(t, run), path) && !Drops(t, run, path)
  {
    ChangedFiles(Snapshot(t, run.repo), run.files);
    AscendingDistinct(run.files);
    ModTimesOfScan(run.files);
  }
}
