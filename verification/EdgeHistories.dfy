/** Call edges over whole histories: which there are, and which a rebuild would add. */
module EdgeHistories {
  import opened Snapshots
  import opened IndexTables
  import opened IndexRuns
  import opened IndexSoundness
  import opened IndexAgreement
  import opened EdgeAgreement

  /** With unique names, every call edge found after any history of complete runs of
      the repo is also found after a rebuild of the same files. */
  lemma StaleEdgesSurviveRebuild(history: seq<Event>, rebuild: Event, oracle: (Path, int) -> FileOutcome,
                                 caller: FunctionKey, callee: FunctionKey)
    requires PossibleHistory(history) && FaithfulHistory(history, rebuild.run.repo, oracle)
    requires Possible(Exec(history), rebuild) && rebuild.run.full && rebuild.stop >= 3
    requires Deterministic(rebuild.run, oracle) && SameFiles(Exec(history), rebuild.run)
    requires NamesStayUnique(Exec(history), rebuild.run)
    requires HasEdge(Exec(history).tables, rebuild.run.repo, caller, callee)
    ensures HasEdge(After(Exec(history), rebuild).tables, rebuild.run.repo, caller, callee)
  {
    hide After, Possible, Sound, NamesStayUnique, HasEdge, PossibleHistory, FaithfulHistory, Deterministic, SameFiles;
    var ix := Exec(history);
    SoundAlways(history);
    EdgesAreCalls(ix, rebuild.run.repo, caller, callee);
    CallsSurviveRebuild(history, rebuild, oracle, caller, callee);
    FullRunCompletesEdges(ix, rebuild);
  }

  lemma CallsSurviveRebuild(history: seq<Event>, rebuild: Event, oracle: (Path, int) -> FileOutcome,
                            caller: FunctionKey, callee: FunctionKey)
    requires PossibleHistory(history) && FaithfulHistory(history, rebuild.run.repo, oracle)
    requires Possible(Exec(history), rebuild) && rebuild.run.full && rebuild.stop >= 3
    requires Deterministic(rebuild.run, oracle) && SameFiles(Exec(history), rebuild.run)
    ensures Calls(Exec(history), rebuild.run.repo, caller, callee) <==>
            Calls(After(Exec(history), rebuild), rebuild.run.repo, caller, callee)
  {
    hide After, Possible, Sound, PossibleHistory, FaithfulHistory, RowsAt, Indexed, OutcomeRows, Snapshot,
         HasFunction, Contents, Deterministic, Scanned;
    var ix, run, path := Exec(history), rebuild.run, caller.path;
    SoundAlways(history);
    InStepAlways(history, run.repo, oracle);
    RebuildChangesNothing(history, rebuild, oracle);
    FunctionsByContents(ix.tables, After(ix, rebuild).tables, run.repo, caller);
    FunctionsByContents(ix.tables, After(ix, rebuild).tables, run.repo, callee);
    if HasFunction(ix.tables.functions, run.repo, caller) {
      StoredRow(ix.tables, run.repo, caller);
      var snapshot := Snapshot(ix.tables, run.repo);
      assert path in snapshot && OutcomeRows(run.repo, path, oracle(path, snapshot[path])) != {};
      OutcomeRowsIndexed(run.repo, path, oracle(path, snapshot[path]));
      PossibleFiles(ix, rebuild);
      ScannedOutcome(run, oracle, path);
      OriginAt(ix, rebuild, path);
    }
  }

  lemma OutcomeRowsIndexed(repo: RepoId, path: Path, o: FileOutcome)
    ensures OutcomeRows(repo, path, o) != {} ==> Indexed(path, o).Some?
  {
  }

  lemma ScannedOutcome(run: Run, oracle: (Path, int) -> FileOutcome, path: Path)
    requires WellFormedFiles(run.files, run.outcomes) && Deterministic(run, oracle) && path in ModTimes(run.files)
    requires run.full
    ensures Scanned(run.files, path) && path in run.outcomes
    ensures run.outcomes[path] == oracle(path, ModTimes(run.files)[path])
  {
    AscendingDistinct(run.files);
    ModTimesOfScan(run.files);
    var i :| 0 <= i < |run.files| && run.files[i].path == path;
    assert run.files[i] in run.files;
  }

  lemma FunctionsByContents(a: Tables, b: Tables, repo: RepoId, key: FunctionKey)
    requires Contents(a, repo) == Contents(b, repo)
    ensures HasFunction(a.functions, repo, key) <==> HasFunction(b.functions, repo, key)
  {
    ContentsByPath(a, b, repo);
    StoredRow(a, repo, key);
    StoredRow(b, repo, key);
  }

  // Which edges there are, in every history.

  /** The number of the last event, counted from 1, that stored the functions of the file;
      0 if there is none. */
  ghost function LastStoring(history: seq<Event>, repo: RepoId, path: Path): nat {
    if history == [] then 0
    else
      var front, e := history[..|history| - 1], history[|history| - 1];
      if e.run.repo == repo && e.stop >= 2 && Scanned(Processed(Exec(front).tables, e.run), path) then |history|
      else LastStoring(front, repo, path)
  }

  lemma {:induction false} LastStoringBound(history: seq<Event>, repo: RepoId, path: Path)
    ensures LastStoring(history, repo, path) <= |history|
  {
    if history != [] {
      LastStoringBound(history[..|history| - 1], repo, path);
    }
  }

  /** That event went on to resolve the calls of the file. */
  ghost predicate Resolved(history: seq<Event>, n: nat) {
    0 < n <= |history| && history[n - 1].stop >= 3
  }

  /** Whenever a run of the repo resolved calls, its function names were unique. */
  ghost predicate NamesAlwaysUnique(history: seq<Event>, repo: RepoId) {
    history != [] ==>
      var front, e := history[..|history| - 1], history[|history| - 1];
      && NamesAlwaysUnique(front, repo)
      && (e.run.repo == repo && e.stop >= 3 ==> NamesStayUnique(Exec(front), e.run))
  }

  lemma OtherStores(ix: Index, e: Event, repo: RepoId, id: Id, key: FunctionKey)
    requires Sound(ix) && Possible(ix, e) && e.run.repo != repo
    ensures Stores(After(ix, e).tables.functions, repo, id, key) <==> Stores(ix.tables.functions, repo, id, key)
  {
    hide PlanOf, WellFormedFiles, Storable, IsFunctionMap, Drops, HasOrigin, EdgeJustified, UnresolvedJustified,
         UniqueKeys, InsertCallEdges, InsertUnresolved, InsertFunctions, Edges, UnresolvedEdges, Origins;
    if e.stop >= 2 {
      StagesKeepFunctions(ix, e);
      hide After, AfterFunctions;
      PossibleFiles(ix, e);
      PlannedFiles(ix, e.run);
      if id in AfterFunctions(ix, e.run).tables.functions {
        StoredFunctions(ix, e.run, id);
        if ix.nextId <= id < ix.nextId + |PlanOf(ix, e.run).rows| {
          assert PlanOf(ix, e.run).rows[id - ix.nextId] in PlanOf(ix, e.run).rows;
        }
      }
      FunctionsKeepOlder(ix, e.run);
    }
  }

  lemma OtherEdges(ix: Index, e: Event, repo: RepoId, a: Id, b: Id, caller: FunctionKey, callee: FunctionKey)
    requires Sound(ix) && Possible(ix, e) && e.run.repo != repo
    requires Stores(ix.tables.functions, repo, a, caller) && Stores(ix.tables.functions, repo, b, callee)
    ensures (a, b) in After(ix, e).tables.callEdges <==> (a, b) in ix.tables.callEdges
  {
    hide PlanOf, WellFormedFiles, Storable, IsFunctionMap, HasOrigin, EdgeJustified, UnresolvedJustified, UniqueKeys,
         InsertCallEdges, InsertUnresolved, InsertFunctions, Edges, UnresolvedEdges, Origins;
    assert (a, b) in AfterDelete(ix, e.run).tables.callEdges <==> (a, b) in ix.tables.callEdges;
    if e.stop >= 3 {
      hide After, AfterDelete;
      if (a, b) in After(ix, e).tables.callEdges {
        EdgesAfterRun(ix, e, (a, b));
        OtherStores(ix, e, repo, a, caller);
      }
      if (a, b) in AfterDelete(ix, e.run).tables.callEdges {
        KeptEdge(ix, e, (a, b));
      }
    } else if e.stop >= 1 {
      EdgesOfEarlyStages(ix, e);
    }
  }

  /** A run on another repo, wherever it stops, changes no function, call or edge here. */
  lemma OtherRunKeepsEdges(ix: Index, e: Event, repo: RepoId, caller: FunctionKey, callee: FunctionKey)
    requires Sound(ix) && Possible(ix, e) && e.run.repo != repo
    ensures HasEdge(After(ix, e).tables, repo, caller, callee) <==> HasEdge(ix.tables, repo, caller, callee)
    ensures Calls(After(ix, e), repo, caller, callee) <==> Calls(ix, repo, caller, callee)
  {
    hide After, Sound, Possible, Stores;
    forall id: Id, key
      ensures Stores(After(ix, e).tables.functions, repo, id, key) <==> Stores(ix.tables.functions, repo, id, key)
    {
      OtherStores(ix, e, repo, id, key);
    }
    forall a: Id, b: Id | Stores(ix.tables.functions, repo, a, caller) && Stores(ix.tables.functions, repo, b, callee)
      ensures (a, b) in After(ix, e).tables.callEdges <==> (a, b) in ix.tables.callEdges
    {
      OtherEdges(ix, e, repo, a, b, caller, callee);
    }
    OtherReposKept(ix, e, repo);
  }

  /** A call between files that the run did not store was there before; their edge comes
      and goes with the old one. */
  lemma UnstoredCall(ix: Index, e: Event, caller: FunctionKey, callee: FunctionKey)
    requires Sound(ix) && Possible(ix, e)
    requires Calls(After(ix, e), e.run.repo, caller, callee)
    requires e.stop >= 2 ==> !Scanned(Processed(ix.tables, e.run), caller.path)
    requires e.stop >= 2 ==> !Scanned(Processed(ix.tables, e.run), callee.path)
    ensures Calls(ix, e.run.repo, caller, callee)
    ensures HasEdge(After(ix, e).tables, e.run.repo, caller, callee) <==> HasEdge(ix.tables, e.run.repo, caller, callee)
  {
    hide Sound, HasEdge, Processed, Scanned, Drops, FirstListed, HasFunction;
    EdgeAfterRun(ix, e, caller, callee);
    if e.stop >= 2 {
      hide After, Possible;
      WillCallIff(ix, e, caller, callee);
    } else if e.stop == 1 {
      DeletedFunctions(ix, e, caller);
      DeletedFunctions(ix, e, callee);
    }
  }

  lemma DeletedFunctions(ix: Index, e: Event, key: FunctionKey)
    requires e.stop == 1
    ensures HasFunction(After(ix, e).tables.functions, e.run.repo, key) <==>
            HasFunction(ix.tables.functions, e.run.repo, key) && !Drops(ix.tables, e.run, key.path)
  {
    hide RowsAt, Drops, HasFunction;
    StoredRow(After(ix, e).tables, e.run.repo, key);
    StoredRow(ix.tables, e.run.repo, key);
    DeleteRows(ix, e.run, e.run.repo, key.path);
  }

  /** The n-th event had the callee listed first under its name. */
  ghost predicate ListedFirst(history: seq<Event>, n: nat, callee: FunctionKey) {
    0 < n <= |history| && FirstListed(Exec(history[..n - 1]), history[n - 1], callee)
  }

  lemma ListedFirstEarlier(history: seq<Event>, n: nat, callee: FunctionKey)
    requires n < |history|
    ensures ListedFirst(history, n, callee) <==> ListedFirst(history[..|history| - 1], n, callee)
  {
    hide FirstListed;
    if n > 0 {
      assert history[..|history| - 1][..n - 1] == history[..n - 1];
    }
  }

  /** Over every history, each run stopping anywhere: an edge is there exactly when the call
      is, the caller's file was last stored no earlier than the callee's, and the run that
      stored it went on to resolve its calls, with the callee listed first under its name. */
  lemma {:induction false} EdgeIffListedFirst(history: seq<Event>, repo: RepoId, caller: FunctionKey,
                                              callee: FunctionKey)
    requires PossibleHistory(history)
    ensures HasEdge(Exec(history).tables, repo, caller, callee) <==>
            && Calls(Exec(history), repo, caller, callee)
            && LastStoring(history, repo, caller.path) >= LastStoring(history, repo, callee.path)
            && Resolved(history, LastStoring(history, repo, caller.path))
            && ListedFirst(history, LastStoring(history, repo, caller.path), callee)
  {
    hide After, Sound, Possible, HasEdge, Calls, Processed, Scanned, FirstListed;
    SoundAlways(history);
    if HasEdge(Exec(history).tables, repo, caller, callee) {
      EdgesAreCalls(Exec(history), repo, caller, callee);
    }
    if history == [] {
      NothingCalled(repo, caller, callee);
    } else {
      var front, e := history[..|history| - 1], history[|history| - 1];
      var ix := Exec(front);
      SoundAlways(front);
      EdgeIffListedFirst(front, repo, caller, callee);
      LastStoringBound(front, repo, caller.path);
      LastStoringBound(front, repo, callee.path);
      ListedFirstEarlier(history, LastStoring(front, repo, caller.path), callee);
      if e.run.repo != repo {
        OtherRunKeepsEdges(ix, e, repo, caller, callee);
      } else if Calls(Exec(history), repo, caller, callee) {
        StepOfEdge(ix, e, caller, callee);
      }
    }
  }

  /** With unique names at each resolution the callee of a call is always listed first. */
  lemma {:induction false} EdgeIffStoredNoEarlier(history: seq<Event>, repo: RepoId, caller: FunctionKey,
                                                  callee: FunctionKey)
    requires PossibleHistory(history) && NamesAlwaysUnique(history, repo)
    ensures HasEdge(Exec(history).tables, repo, caller, callee) <==>
            && Calls(Exec(history), repo, caller, callee)
            && LastStoring(history, repo, caller.path) >= LastStoring(history, repo, callee.path)
            && Resolved(history, LastStoring(history, repo, caller.path))
  {
    hide After, Sound, Possible, HasEdge, Calls, Processed, Scanned, NamesStayUnique, FirstListed, UniqueNames;
    SoundAlways(history);
    if HasEdge(Exec(history).tables, repo, caller, callee) {
      EdgesAreCalls(Exec(history), repo, caller, callee);
    }
    if history == [] {
      NothingCalled(repo, caller, callee);
    } else {
      var front, e := history[..|history| - 1], history[|history| - 1];
      var ix := Exec(front);
      SoundAlways(front);
      EdgeIffStoredNoEarlier(front, repo, caller, callee);
      LastStoringBound(front, repo, caller.path);
      LastStoringBound(front, repo, callee.path);
      if e.run.repo != repo {
        OtherRunKeepsEdges(ix, e, repo, caller, callee);
      } else if Calls(Exec(history), repo, caller, callee) {
        StepOfEdge(ix, e, caller, callee);
        if e.stop >= 3 {
          UniqueNamesIff(ix, e);
          CalleeIsStored(After(ix, e), repo, caller, callee);
          UniqueMeansFirst(ix, e, callee);
        }
      }
    }
  }

  lemma NothingCalled(repo: RepoId, caller: FunctionKey, callee: FunctionKey)
    ensures !Calls(EMPTY_INDEX, repo, caller, callee)
  {
  }

  /** One run of the repo, for a call that is there after it. */
  lemma StepOfEdge(ix: Index, e: Event, caller: FunctionKey, callee: FunctionKey)
    requires Sound(ix) && Possible(ix, e)
    requires Calls(After(ix, e), e.run.repo, caller, callee)
    ensures var stores, after := e.stop >= 2, HasEdge(After(ix, e).tables, e.run.repo, caller, callee);
            if stores && Scanned(Processed(ix.tables, e.run), caller.path) then after <==>
              e.stop >= 3 && FirstListed(ix, e, callee)
            else if stores && Scanned(Processed(ix.tables, e.run), callee.path) then !after
            else Calls(ix, e.run.repo, caller, callee) && (after <==> HasEdge(ix.tables, e.run.repo, caller, callee))
  {
    hide After, Sound, Possible, HasEdge, Calls, Processed, Scanned, FirstListed, Drops, WillCall;
    PossibleFiles(ix, e);
    EdgeAfterRun(ix, e, caller, callee);
    if e.stop >= 2 {
      WillCallIff(ix, e, caller, callee);
      WillCallEnds(ix, e.run, caller, callee);
    }
    if !(e.stop >= 2 && Scanned(Processed(ix.tables, e.run), caller.path))
      && !(e.stop >= 2 && Scanned(Processed(ix.tables, e.run), callee.path)) {
      UnstoredCall(ix, e, caller, callee);
    }
  }

  /** A file with a stored function was stored by some event. */
  lemma {:induction false} StoredBySome(history: seq<Event>, repo: RepoId, key: FunctionKey)
    requires PossibleHistory(history) && HasFunction(Exec(history).tables.functions, repo, key)
    ensures LastStoring(history, repo, key.path) > 0
  {
    hide After, Sound, Possible, HasFunction, Processed, Scanned, RowsAt;
    if history == [] {
      NoFunctions(repo, key);
    } else {
      var front, e := history[..|history| - 1], history[|history| - 1];
      var ix := Exec(front);
      SoundAlways(front);
      StoredRow(Exec(history).tables, repo, key);
      StoredRow(ix.tables, repo, key);
      if e.stop >= 2 {
        RunRows(ix, e, repo, key.path);
      } else {
        EarlyRows(ix, e, repo, key.path);
      }
      if HasFunction(ix.tables.functions, repo, key) {
        StoredBySome(front, repo, key);
      }
    }
  }

  lemma NoFunctions(repo: RepoId, key: FunctionKey)
    ensures !HasFunction(EMPTY_INDEX.tables.functions, repo, key)
  {
  }

  lemma EarlyRows(ix: Index, e: Event, repo: RepoId, path: Path)
    requires e.stop <= 1
    ensures RowsAt(After(ix, e).tables, repo, path) <= RowsAt(ix.tables, repo, path)
  {
    hide RowsAt, AfterDelete;
    if e.stop == 1 {
      DeleteRows(ix, e.run, repo, path);
    }
  }

  /** Every run of the repo that stored functions also resolved their calls. */
  ghost predicate AlwaysResolved(history: seq<Event>, repo: RepoId) {
    forall e <- history | e.run.repo == repo && e.stop >= 2 :: e.stop >= 3
  }

  lemma {:induction false} LastStoringResolved(history: seq<Event>, repo: RepoId, path: Path)
    requires AlwaysResolved(history, repo) && LastStoring(history, repo, path) > 0
    ensures Resolved(history, LastStoring(history, repo, path))
  {
    var front, e := history[..|history| - 1], history[|history| - 1];
    assert e in history && forall e' <- front :: e' in history;
    LastStoringBound(front, repo, path);
    if LastStoring(history, repo, path) != |history| {
      LastStoringResolved(front, repo, path);
      assert front[LastStoring(front, repo, path) - 1] == history[LastStoring(front, repo, path) - 1];
    }
  }

  /** The stale index against a rebuild of the same files, edge by edge: of the rebuilt
      edges it has exactly those whose caller's file was last stored no earlier than the
      callee's. */
  lemma StaleEdgesExactly(history: seq<Event>, rebuild: Event, oracle: (Path, int) -> FileOutcome,
                          caller: FunctionKey, callee: FunctionKey)
    requires PossibleHistory(history) && FaithfulHistory(history, rebuild.run.repo, oracle)
    requires NamesAlwaysUnique(history, rebuild.run.repo)
    requires Possible(Exec(history), rebuild) && rebuild.run.full && rebuild.stop >= 3
    requires Deterministic(rebuild.run, oracle) && SameFiles(Exec(history), rebuild.run)
    requires NamesStayUnique(Exec(history), rebuild.run)
    ensures HasEdge(Exec(history).tables, rebuild.run.repo, caller, callee) <==>
            && HasEdge(After(Exec(history), rebuild).tables, rebuild.run.repo, caller, callee)
            && LastStoring(history, rebuild.run.repo, caller.path) >= LastStoring(history, rebuild.run.repo,
               callee.path)
  {
    hide After, Possible, Sound, NamesStayUnique, HasEdge, PossibleHistory, Deterministic, SameFiles, LastStoring,
         Resolved, NamesAlwaysUnique, HasFunction, Exec;
    var ix, repo := Exec(history), rebuild.run.repo;
    EdgeIffStoredNoEarlier(history, repo, caller, callee);
    CallsSurviveRebuild(history, rebuild, oracle, caller, callee);
    SoundAlways(history);
    RunKeepsSound(ix, rebuild);
    FullRunCompletesEdges(ix, rebuild);
    if HasEdge(After(ix, rebuild).tables, repo, caller, callee) {
      EdgesAreCalls(After(ix, rebuild), repo, caller, callee);
      StoredBySome(history, repo, caller);
      assert AlwaysResolved(history, repo) by { assert forall e <- history :: Faithful(e, repo, oracle); }
      LastStoringResolved(history, repo, caller.path);
    }
  }
}
