/** The stored functions over whole histories, each run stopping anywhere: what is stored,
    when it agrees with a rebuild, and when a later run heals a failed one. */
module FunctionHistories {
  import opened Snapshots
  import opened IndexTables
  import opened IndexRuns
  import opened IndexSoundness
  import opened IndexAgreement

  /** The number of the last event, counted from 1, that deleted what was stored under the
      path; 0 if there is none. */
  ghost function LastDropping(history: seq<Event>, repo: RepoId, path: Path): nat {
    if history == [] then 0
    else
      var front, e := history[..|history| - 1], history[|history| - 1];
      if e.run.repo == repo && e.stop >= 1 && Drops(Exec(front).tables, e.run, path) then |history|
      else LastDropping(front, repo, path)
  }

  lemma {:induction false} LastDroppingBound(history: seq<Event>, repo: RepoId, path: Path)
    ensures LastDropping(history, repo, path) <= |history|
  {
    hide Drops;
    if history != [] {
      LastDroppingBound(history[..|history| - 1], repo, path);
    }
  }

  /** What an event that drops the path leaves there: the outcome of its file, if it stored
      functions and found the file. */
  ghost function Left(e: Event, path: Path): set<FunctionRow> {
    if e.stop >= 2 && Scanned(e.run.files, path) && path in e.run.outcomes
    then OutcomeRows(e.run.repo, path, e.run.outcomes[path]) else {}
  }

  ghost function LeftBy(history: seq<Event>, n: nat, path: Path): set<FunctionRow>
    requires n <= |history|
  {
    if n == 0 then {} else Left(history[n - 1], path)
  }

  /** One run of the repo, wherever it stops: a dropped path holds what the run left. */
  lemma RowsOfRun(ix: Index, e: Event, path: Path)
    requires Sound(ix) && Possible(ix, e)
    ensures RowsAt(After(ix, e).tables, e.run.repo, path) ==
            if e.stop >= 1 && Drops(ix.tables, e.run, path) then Left(e, path) else RowsAt(ix.tables, e.run.repo, path)
  {
    hide RowsAt, OutcomeRows, Drops, Scanned, Processed, Sound;
    PossibleFiles(ix, e);
    DroppedOrProcessed(ix.tables, e.run, path);
    if e.stop >= 2 {
      hide After, Possible;
      RunRows(ix, e, e.run.repo, path);
    } else if e.stop == 1 {
      DeleteRows(ix, e.run, e.run.repo, path);
    }
  }

  /** After every history a path holds what the last event that dropped it left there. */
  lemma {:induction false} RowsByHistory(history: seq<Event>, repo: RepoId, path: Path)
    requires PossibleHistory(history)
    ensures LastDropping(history, repo, path) <= |history|
    ensures RowsAt(Exec(history).tables, repo, path) == LeftBy(history, LastDropping(history, repo, path), path)
  {
    hide After, Possible, Sound, RowsAt, Drops, Left;
    LastDroppingBound(history, repo, path);
    if history == [] {
      EmptyRows(repo, path);
    } else {
      var front, e := history[..|history| - 1], history[|history| - 1];
      RowsByHistory(front, repo, path);
      LastDroppingBound(front, repo, path);
      SoundAlways(front);
      if e.run.repo == repo {
        RowsOfRun(Exec(front), e, path);
      } else {
        RowsOfOtherRepos(Exec(front), e, repo, path);
      }
    }
  }

  /** So an index agrees with a rebuild of some files exactly when, path by path, what was
      last left is what the rebuild gives. */
  lemma AgreesIff(history: seq<Event>, repo: RepoId, files: seq<FileSnapshot>, outcomes: map<Path, FileOutcome>)
    requires PossibleHistory(history)
    ensures forall path :: LastDropping(history, repo, path) <= |history|
    ensures Agrees(Exec(history), repo, files, outcomes) <==>
            forall path ::
              LeftBy(history, LastDropping(history, repo, path), path) == RebuiltRows(repo, files, outcomes, path)
  {
    hide RowsAt, LeftBy, LastDropping, RebuiltRows, Exec;
    forall path
      ensures LastDropping(history, repo, path) <= |history|
      ensures RowsAt(Exec(history).tables, repo, path) == LeftBy(history, LastDropping(history, repo, path), path)
    {
      RowsByHistory(history, repo, path);
    }
  }

  /** A run that stores its functions brings agreement with its own files, after any
      history, exactly when each path it leaves alone was last left with what its file
      gives now. */
  lemma RunBringsAgreementIff(history: seq<Event>, later: Event)
    requires PossibleHistory(history) && Possible(Exec(history), later) && later.stop >= 2
    ensures forall path :: LastDropping(history, later.run.repo, path) <= |history|
    ensures Agrees(After(Exec(history), later), later.run.repo, later.run.files, later.run.outcomes) <==>
            forall path | !Drops(Exec(history).tables, later.run, path) ::
              LeftBy(history, LastDropping(history, later.run.repo, path), path)
              == RebuiltRows(later.run.repo, later.run.files, later.run.outcomes, path)
  {
    hide RowsAt, LeftBy, LastDropping, RebuiltRows, Exec, Possible, Sound, After, Outdated;
    var repo := later.run.repo;
    forall path
      ensures LastDropping(history, repo, path) <= |history|
      ensures RowsAt(Exec(history).tables, repo, path) == LeftBy(history, LastDropping(history, repo, path), path)
    {
      RowsByHistory(history, repo, path);
    }
    SoundAlways(history);
    if later.run.full {
      FullRunAgrees(Exec(history), later);
    } else {
      IncrementalRunAgreesIff(Exec(history), later);
    }
  }

  /** A file left alone by a run on an index in step holds what its outcome gives. */
  lemma UntouchedInStep(ix: Index, repo: RepoId, t: Tables, run: Run, oracle: (Path, int) -> FileOutcome, path: Path)
    requires InStep(ix, repo, oracle) && run.repo == repo && Deterministic(run, oracle)
    requires WellFormedFiles(run.files, run.outcomes)
    requires Snapshot(t, repo) == Snapshot(ix.tables, repo) && !Drops(t, run, path)
    ensures RowsAt(ix.tables, repo, path) == RebuiltRows(repo, run.files, run.outcomes, path)
  {
    hide RowsAt, OutcomeRows, Snapshot, Drops;
    UntouchedPath(t, run, path);
    ModTimesOfScan(run.files);
    AscendingDistinct(run.files);
    if path in ModTimes(run.files) {
      var i :| 0 <= i < |run.files| && run.files[i].path == path;
      assert run.files[i] in run.files && ModTimes(run.files)[path] == run.files[i].modTime;
    }
    if f :| f in run.files && f.path == path {
      assert path in ModTimes(run.files);
    }
  }

  lemma SnapshotUntilTheEnd(ix: Index, e: Event)
    requires e.stop < COMPLETE
    ensures Snapshot(After(ix, e).tables, e.run.repo) == Snapshot(ix.tables, e.run.repo)
  {
    hide PlanOf, Doomed, InsertFunctions, InsertCallEdges, InsertUnresolved, Edges, UnresolvedEdges, AllCalls, Decode;
  }

  /** A failed run on an index in step is healed by a later one exactly when each path that
      the failed run dropped, and the later one leaves alone, was left with what its file
      gives now. */
  lemma HealsIff(ix: Index, failed: Event, later: Event, oracle: (Path, int) -> FileOutcome)
    requires Sound(ix) && InStep(ix, failed.run.repo, oracle)
    requires Possible(ix, failed) && failed.stop < COMPLETE
    requires Possible(After(ix, failed), later) && later.stop >= 2 && Deterministic(later.run, oracle)
    requires later.run.repo == failed.run.repo
    ensures Agrees(After(After(ix, failed), later), later.run.repo, later.run.files, later.run.outcomes) <==>
            forall path | failed.stop >= 1 && Drops(ix.tables, failed.run, path)
              && !Drops(After(ix, failed).tables, later.run, path) ::
              Left(failed, path) == RebuiltRows(later.run.repo, later.run.files, later.run.outcomes, path)
  {
    hide RowsAt, RebuiltRows, Possible, Sound, After, Outdated, Left, InStep, Deterministic, Snapshot;
    var mid, repo := After(ix, failed), later.run.repo;
    RunKeepsSound(ix, failed);
    PossibleFiles(mid, later);
    SnapshotUntilTheEnd(ix, failed);
    forall path
      ensures RowsAt(mid.tables, repo, path) ==
              if failed.stop >= 1 && Drops(ix.tables, failed.run, path) then Left(failed, path)
                else RowsAt(ix.tables, repo, path)
      ensures !Drops(mid.tables, later.run, path) ==>
                RowsAt(ix.tables, repo, path) == RebuiltRows(repo, later.run.files, later.run.outcomes, path)
    {
      RowsOfRun(ix, failed, path);
      if !Drops(mid.tables, later.run, path) {
        UntouchedInStep(ix, repo, mid.tables, later.run, oracle, path);
      }
    }
    if later.run.full {
      FullRunAgrees(mid, later);
    } else {
      IncrementalRunAgreesIff(mid, later);
    }
  }

  /** A failed incremental run is healed by the next one if no file changed in between. */
  lemma NextIncrementalHeals(ix: Index, failed: Event, later: Event, oracle: (Path, int) -> FileOutcome)
    requires Sound(ix) && InStep(ix, failed.run.repo, oracle)
    requires Possible(ix, failed) && failed.stop < COMPLETE && !failed.run.full
    requires Possible(After(ix, failed), later) && later.stop >= 2 && Deterministic(later.run, oracle)
    requires later.run.repo == failed.run.repo && later.run.files == failed.run.files
    ensures Agrees(After(After(ix, failed), later), later.run.repo, later.run.files, later.run.outcomes)
  {
    hide RebuiltRows, Possible, Sound, After, Outdated, Left, InStep, Deterministic, Snapshot, Agrees;
    HealsIff(ix, failed, later, oracle);
    SnapshotUntilTheEnd(ix, failed);
  }
}
