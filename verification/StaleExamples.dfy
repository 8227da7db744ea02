/** Histories of two small files that show where the index and a rebuild part: an edit
    of one file makes the caller in the other disappear from the impact query, and a
    failed rebuild empties the repo for good. */
module StaleExamples {
  import opened Text
  import opened Snapshots
  import opened IndexTables
  import opened Parsing
  import opened Vectors
  import opened IndexRuns
  import opened IndexSoundness
  import opened IndexAgreement
  import opened EdgeAgreement
  import opened EdgeHistories
  import opened CallerQuery
  import opened StaleImpact

  lemma {:induction false} GroupsExist(functions: map<Id, FunctionRow>, ids: set<Id>)
    requires ids <= functions.Keys
    ensures exists names :: GroupsByName(functions, ids, names)
    decreases ids
  {
    if ids == {} {
      assert GroupsByName(functions, ids, map[]);
    } else {
      var id :| id in ids;
      var rest := ids - {id};
      GroupsExist(functions, rest);
      var names :| GroupsByName(functions, rest, names);
      var name := functions[id].fn.name;
      var known := if name in names then names[name] else [];
      assert id !in known;
      var grown := names[name := known + [id]];
      assert grown[name][|known|] == id;
      assert GroupsByName(functions, ids, grown);
    }
  }

  /** The name query always has an answer. */
  lemma SomeFunctionMap(t: Tables, repo: RepoId) returns (names: map<string, seq<Id>>)
    ensures IsFunctionMap(t, repo, names)
  {
    GroupsExist(t.functions, RepoFunctions(t, repo));
    names :| GroupsByName(t.functions, RepoFunctions(t, repo), names);
  }

  ghost predicate IsCompletion(ix: Index, run: Run, e: Event) {
    e.run == run && e.stop == COMPLETE && Possible(ix, e)
  }

  lemma CanComplete(ix: Index, run: Run) returns (e: Event)
    requires Sound(ix) && WellFormedFiles(run.files, run.outcomes) && Storable(ix, run)
    requires forall w <- PlanOf(ix, run).works :: CalleesFit(w)
    ensures IsCompletion(ix, run, e)
  {
    hide AfterFunctions, IsFunctionMap, Storable, PlanOf, UnresolvedFit, Sound, CalleesFit;
    var names := SomeFunctionMap(AfterFunctions(ix, run).tables, run.repo);
    UnresolvedFitIff(ix, run, names);
    e := Event(run, names, COMPLETE);
  }

  /** No call out of a function of the file has a NUL in the name it calls. */
  ghost predicate CalleesFit(w: IndexedFile) {
    forall call <- w.calls | exists fn :: fn in w.functions && fn.name == call.caller :: TextFits(call.callee)
  }

  /** Callers known to the run are the functions of their files. */
  lemma KnownCaller(ix: Index, run: Run, w: IndexedFile, name: string)
    requires WellFormedFiles(run.files, run.outcomes) && w in PlanOf(ix, run).works
    ensures (w.path, name) in PlanOf(ix, run).callers <==> exists fn :: fn in w.functions && fn.name == name
  {
    hide Rows, CallerIds, IndexedFiles, Processed;
    var p := PlanOf(ix, run);
    PlannedFiles(ix, run);
    CallerIdsMembers(ix.nextId, p.rows);
    RowsMembers(run.repo, p.works);
    if (w.path, name) in p.callers {
      var row := p.rows[p.callers[(w.path, name)] - ix.nextId];
      assert row in p.rows;
      var v :| v in p.works && v.path == row.fn.filePath && row in FileRows(run.repo, v);
      SameFile(p.works, v, w);
      assert row.fn in w.functions;
    }
    if fn :| fn in w.functions && fn.name == name {
      var i :| 0 <= i < |w.functions| && w.functions[i] == fn;
      assert FileRows(run.repo, w)[i] in p.rows;
    }
  }

  lemma SameFile(works: seq<IndexedFile>, v: IndexedFile, w: IndexedFile)
    requires DistinctFiles(works) && v in works && w in works && v.path == w.path
    ensures v == w
  {
    var i :| 0 <= i < |works| && works[i] == v;
    var j :| 0 <= j < |works| && works[j] == w;
    assert i == j;
  }

  /** A name with NUL has no candidate, so its call leaves a row the database refuses. */
  lemma RefusedRow(ix: Index, run: Run, names: map<string, seq<Id>>, c: FileCall)
    requires Sound(ix) && WellFormedFiles(run.files, run.outcomes) && Storable(ix, run)
    requires IsFunctionMap(AfterFunctions(ix, run).tables, run.repo, names)
    requires c in AllCalls(PlanOf(ix, run).works) && (c.path, c.call.caller) in PlanOf(ix, run).callers
    requires !TextFits(c.call.callee)
    ensures !UnresolvedFit(ix, run, names)
  {
    hide PlanOf, AllCalls, UnresolvedEdges, Storable, WellFormedFiles, AfterFunctions, HasOrigin, EdgeJustified,
         UnresolvedJustified, UniqueKeys;
    var p := PlanOf(ix, run);
    FunctionsKeepSound(ix, run);
    if Candidates(names, c.call.callee) != [] {
      var callee := Candidates(names, c.call.callee)[0];
      ResolvedCallee(AfterFunctions(ix, run).tables, run.repo, names, c.call.callee, callee);
    }
    EdgesMembers(run.repo, p.callers, names, AllCalls(p.works));
    var row := UnresolvedEdge(run.repo, p.callers[(c.path, c.call.caller)], c.call.callee);
    assert UnresolvedOf(run.repo, p.callers, names, c) == [row];
  }

  lemma UnresolvedFitIff(ix: Index, run: Run, names: map<string, seq<Id>>)
    requires Sound(ix) && WellFormedFiles(run.files, run.outcomes) && Storable(ix, run)
    requires IsFunctionMap(AfterFunctions(ix, run).tables, run.repo, names)
    ensures UnresolvedFit(ix, run, names) <==> forall w <- PlanOf(ix, run).works :: CalleesFit(w)
  {
    hide PlanOf, AllCalls, UnresolvedEdges, Storable, WellFormedFiles, AfterFunctions, Sound, IsFunctionMap;
    var p := PlanOf(ix, run);
    CallsMembers(p.works);
    if w, call :| w in p.works && call in w.calls && (exists fn :: fn in w.functions && fn.name == call.caller)
                  && !TextFits(call.callee) {
      KnownCaller(ix, run, w, call.caller);
      RefusedRow(ix, run, names, FileCall(w.path, call));
    } else {
      EdgesMembers(run.repo, p.callers, names, AllCalls(p.works));
      forall row | row in UnresolvedEdges(run.repo, p.callers, names, AllCalls(p.works))
        ensures TextFits(row.calleeNameRaw)
      {
        var c :| c in AllCalls(p.works) && UnresolvedOf(run.repo, p.callers, names, c) == [row];
        var w :| w in p.works && w.path == c.path && c.call in w.calls;
        KnownCaller(ix, run, w, c.call.caller);
        assert TextFits(c.call.callee) && TextFits(AMBIGUOUS);
      }
    }
  }

  /** From every sound index a run can complete exactly when every processed file that was
      parsed and embedded can be stored, its functions and the names they call. */
  lemma CompletesIff(ix: Index, run: Run)
    requires Sound(ix) && WellFormedFiles(run.files, run.outcomes)
    ensures (exists e :: IsCompletion(ix, run, e)) <==>
            forall f <- Processed(ix.tables, run) | Indexed(f.path, run.outcomes[f.path]).Some? ::
              var w := Indexed(f.path, run.outcomes[f.path]).value;
              CanBeStored(w) && CalleesFit(w)
  {
    hide Sound, Indexed, CanBeStored, CalleesFit, AfterFunctions, IsFunctionMap, Storable, WellFormedFiles, Processed,
         PlanOf, UnresolvedFit;
    StorableIff(ix, run);
    WorksAreIndexed(ix, run);
    if e :| IsCompletion(ix, run, e) {
      UnresolvedFitIff(ix, run, e.names);
    }
    if Storable(ix, run) && forall w <- PlanOf(ix, run).works :: CalleesFit(w) {
      var e := CanComplete(ix, run);
    }
  }

  // File "a" holds f, which calls g; file "b" holds g.

  function Zeros(): (v: Vector)
    ensures Fits(v)
  {
    seq(DIMENSION, _ => 0.0)
  }

  const F := Function("f", "a", 1, 1, "")
  const G := Function("g", "b", 1, 1, "")
  const F_KEY := FunctionKey("a", "f")
  const G_KEY := FunctionKey("b", "g")
  const A_OUTCOME := FileOutcome(Parsed([F], [RawCall("f", "g")]), Some([Zeros()]))
  const B_OUTCOME := FileOutcome(Parsed([G], []), Some([Zeros()]))
  const OUTCOMES: map<Path, FileOutcome> := map["a" := A_OUTCOME, "b" := B_OUTCOME]

  function Outcome(path: Path, modTime: int): FileOutcome {
    if path == "a" then A_OUTCOME else B_OUTCOME
  }

  /** The scan when "b" was last written at the given time. */
  function FilesAt(time: int): seq<FileSnapshot> {
    [FileSnapshot("a", 0), FileSnapshot("b", time)]
  }

  function RunAt(time: int, full: bool): Run {
    Run(0, full, FilesAt(time), OUTCOMES)
  }

  lemma RunIsWellFormed(time: int, full: bool)
    requires IsInt64(time)
    ensures WellFormedFiles(FilesAt(time), OUTCOMES)
    ensures forall f <- FilesAt(time) | Indexed(f.path, OUTCOMES[f.path]).Some? ::
              CanBeStored(Indexed(f.path, OUTCOMES[f.path]).value)
                && CalleesFit(Indexed(f.path, OUTCOMES[f.path]).value)
    ensures Deterministic(RunAt(time, full), Outcome) && Representable(FilesAt(time))
    ensures ModTimes(FilesAt(time)) == map["a" := 0, "b" := time]
  {
    assert "a" != "b" by { assert "a"[0] != "b"[0]; }
    var files := FilesAt(time);
    assert files[..1] == [FileSnapshot("a", 0)] && files[..1][..0] == [];
    assert ModTimes(files[..1]) == map["a" := 0];
    assert StringLeq("a", "b");
  }

  /** What is stored when the index is in step with such a scan. */
  lemma StoredInStep(ix: Index, time: int)
    requires InStep(ix, 0, Outcome) && Snapshot(ix.tables, 0) == map["a" := 0, "b" := time]
    ensures Calls(ix, 0, F_KEY, G_KEY) && HasFunction(ix.tables.functions, 0, G_KEY)
    ensures Sound(ix) ==> UniqueNames(ix.tables.functions, 0)
  {
    hide RowsAt, OutcomeRows, Sound, UniqueNames, Snapshot;
    assert "a" != "b" by { assert "a"[0] != "b"[0]; }
    OneRow("a", A_OUTCOME, F);
    OneRow("b", B_OUTCOME, G);
    assert RowsAt(ix.tables, 0, "a") == {FunctionRow(0, F, Zeros())};
    assert RowsAt(ix.tables, 0, "b") == {FunctionRow(0, G, Zeros())};
    StoredRow(ix.tables, 0, F_KEY);
    StoredRow(ix.tables, 0, G_KEY);
    if Sound(ix) {
      OnlyTwo(ix);
    }
  }

  lemma OnlyTwo(ix: Index)
    requires Sound(ix)
    requires RowsAt(ix.tables, 0, "a") == {FunctionRow(0, F, Zeros())}
    requires RowsAt(ix.tables, 0, "b") == {FunctionRow(0, G, Zeros())}
    requires forall path | path != "a" && path != "b" :: RowsAt(ix.tables, 0, path) == {}
    ensures UniqueNames(ix.tables.functions, 0)
  {
    hide HasOrigin, EdgeJustified, UnresolvedJustified;
    var functions := ix.tables.functions;
    assert "f" != "g" by { assert "f"[0] != "g"[0]; }
    forall x | x in functions && functions[x].repo == 0
      ensures functions[x] == FunctionRow(0, F, Zeros()) || functions[x] == FunctionRow(0, G, Zeros())
    {
      assert functions[x] in RowsAt(ix.tables, 0, functions[x].fn.filePath);
    }
    forall x, y | x in functions && y in functions && functions[x].repo == 0 && functions[y].repo == 0
      && functions[x].fn.name == functions[y].fn.name
      ensures x == y
    {
      assert UniqueKey(functions[x]) == UniqueKey(functions[y]);
    }
  }

  lemma OneRow(path: Path, o: FileOutcome, fn: Function)
    requires o.parse.Parsed? && o.parse.functions == [fn] && o.vectors == Some([Zeros()])
    ensures OutcomeRows(0, path, o) == {FunctionRow(0, fn, Zeros())}
  {
    var rows := FileRows(0, Indexed(path, o).value);
    assert rows == [FunctionRow(0, fn, Zeros())];
  }

  /** All that the comparison of a stale index with a rebuild supposes, in one place. */
  ghost predicate Compares(history: seq<Event>, rebuild: Event, oracle: (Path, int) -> FileOutcome) {
    && PossibleHistory(history) && FaithfulHistory(history, rebuild.run.repo, oracle)
    && Possible(Exec(history), rebuild) && rebuild.run.full && rebuild.stop == COMPLETE
    && Deterministic(rebuild.run, oracle) && SameFiles(Exec(history), rebuild.run)
    && NamesStayUnique(Exec(history), rebuild.run) && NamesAlwaysUnique(history, rebuild.run.repo)
  }

  lemma Complete(ix: Index, time: int, full: bool) returns (e: Event)
    requires Sound(ix) && IsInt64(time) && (full || InStep(ix, 0, Outcome))
    ensures e.run == RunAt(time, full) && e.stop == COMPLETE && Possible(ix, e) && Faithful(e, 0, Outcome)
    ensures Sound(After(ix, e)) && InStep(After(ix, e), 0, Outcome)
    ensures Snapshot(After(ix, e).tables, 0) == map["a" := 0, "b" := time]
    ensures Calls(After(ix, e), 0, F_KEY, G_KEY) && HasFunction(After(ix, e).tables.functions, 0, G_KEY)
    ensures UniqueNames(After(ix, e).tables.functions, 0) && NamesStayUnique(ix, e.run)
  {
    hide Sound, Possible, After, InStep, WellFormedFiles, ModTimes, FilesAt, OUTCOMES, Deterministic, Representable,
         Snapshot, Indexed, CanBeStored, CalleesFit,
         Calls, HasFunction, UniqueNames, NamesStayUnique, Storable;
    RunIsStorable(ix, time, full);
    RunIsWellFormed(time, full);
    PlanFits(ix, time, full);
    e := CanComplete(ix, RunAt(time, full));
    RunKeepsSound(ix, e);
    StepOfThisRepo(ix, e, Outcome);
    SnapshotIsScan(ix, e);
    StoredInStep(After(ix, e), time);
    UniqueNamesIff(ix, e);
  }

  lemma RunIsStorable(ix: Index, time: int, full: bool)
    requires Sound(ix) && IsInt64(time)
    ensures Storable(ix, RunAt(time, full))
  {
    hide Sound, FilesAt, OUTCOMES, Indexed, CanBeStored, CalleesFit, Storable, WellFormedFiles, Snapshot, ModTimes;
    RunIsWellFormed(time, full);
    StorableIff(ix, RunAt(time, full));
    assert forall f <- Processed(ix.tables, RunAt(time, full)) :: f in FilesAt(time);
  }

  lemma PlanFits(ix: Index, time: int, full: bool)
    requires IsInt64(time)
    ensures forall w <- PlanOf(ix, RunAt(time, full)).works :: CalleesFit(w)
  {
    hide FilesAt, OUTCOMES, Indexed, CanBeStored, CalleesFit, WellFormedFiles, Snapshot, ModTimes, PlanOf;
    RunIsWellFormed(time, full);
    WorksAreIndexed(ix, RunAt(time, full));
    assert forall f <- Processed(ix.tables, RunAt(time, full)) :: f in FilesAt(time);
  }

  /** "a" is left alone and "b" processed when only "b" was written again. */
  lemma OnlyBProcessed(ix: Index, before: int, time: int)
    requires before != time && IsInt64(time) && Snapshot(ix.tables, 0) == map["a" := 0, "b" := before]
    ensures !Scanned(Processed(ix.tables, RunAt(time, false)), "a")
    ensures Scanned(Processed(ix.tables, RunAt(time, false)), "b")
  {
    hide Snapshot;
    assert "a" != "b" by { assert "a"[0] != "b"[0]; }
    var files := FilesAt(time);
    ChangedFiles(Snapshot(ix.tables, 0), files);
    assert files[0] in files && files[1] in files;
    assert files[1] in Processed(ix.tables, RunAt(time, false));
  }

  /** A full run, an edit of "b" and an incremental run, each complete: the rebuilt index
      reports f as a caller of g, the stale one does not. */
  lemma StrictlyLess()
    ensures exists history, rebuild ::
              && Compares(history, rebuild, Outcome) && rebuild.run.repo == 0
              && KeyReaches(After(Exec(history), rebuild).tables, 0, ["g"], F_KEY, 1)
              && !KeyReaches(Exec(history).tables, 0, ["g"], F_KEY, 1)
  {
    hide Sound, Possible, After, InStep, UniqueNames, Calls, HasEdge, HasFunction, KeyReaches, Snapshot, RunAt,
         Processed, Scanned, FaithfulHistory,
         NamesStayUnique, NamesAlwaysUnique, WillCall;
    EmptyIndex();
    var e1 := Complete(EMPTY_INDEX, 0, true);
    var ix1 := After(EMPTY_INDEX, e1);
    var e2 := Complete(ix1, 1, false);
    var ix2 := After(ix1, e2);
    var rebuild := Complete(ix2, 1, true);
    var history := [e1, e2];
    TwoEvents(e1, e2);
    RepoOf(1, true);
    RepoOf(1, false);
    OnlyBProcessed(ix1, 0, 1);
    WillCallIff(ix1, e2, F_KEY, G_KEY);
    assert CrossesIn(ix1, e2.run, F_KEY, G_KEY);
    CrossingCallsLoseEdges(ix1, e2, F_KEY, G_KEY);
    FullRunCompletesEdges(ix2, rebuild);
    assert HasEdge(After(ix2, rebuild).tables, 0, F_KEY, G_KEY);
    ReachesIffEdge(After(ix2, rebuild));
    ReachesIffEdge(ix2);
    RunIsWellFormed(1, true);
    assert Compares(history, rebuild, Outcome);
  }

  lemma RepoOf(time: int, full: bool)
    ensures RunAt(time, full).repo == 0 && RunAt(time, full).full == full && RunAt(time, full).files == FilesAt(time)
  {
  }

  lemma EmptyIndex()
    ensures Sound(EMPTY_INDEX)
  {
  }

  lemma TwoEvents(e1: Event, e2: Event)
    requires Possible(EMPTY_INDEX, e1) && Possible(After(EMPTY_INDEX, e1), e2)
    requires Faithful(e1, 0, Outcome) && Faithful(e2, 0, Outcome)
    requires NamesStayUnique(EMPTY_INDEX, e1.run) && NamesStayUnique(After(EMPTY_INDEX, e1), e2.run)
    ensures PossibleHistory([e1, e2]) && Exec([e1, e2]) == After(After(EMPTY_INDEX, e1), e2)
    ensures FaithfulHistory([e1, e2], 0, Outcome)
    ensures NamesAlwaysUnique([e1, e2], 0)
  {
    hide Possible, After, Faithful, NamesStayUnique;
    assert [e1, e2][..1] == [e1] && [e1][..0] == [];
    assert Exec([e1]) == After(EMPTY_INDEX, e1);
    assert PossibleHistory([e1]);
    assert NamesAlwaysUnique([e1], 0);
  }

  /** f reaches g in one call exactly when the edge is there. */
  lemma ReachesIffEdge(ix: Index)
    requires Sound(ix) && UniqueNames(ix.tables.functions, 0) && HasFunction(ix.tables.functions, 0, G_KEY)
    ensures KeyReaches(ix.tables, 0, ["g"], F_KEY, 1) <==> HasEdge(ix.tables, 0, F_KEY, G_KEY)
  {
    hide Sound, HasWalk;
    if a: Id, b: Id :| Stores(ix.tables.functions, 0, a, F_KEY) && Stores(ix.tables.functions, 0, b, G_KEY)
                       && (a, b) in ix.tables.callEdges {
      WalkOfNoCalls(ix.tables, 0, ["g"], b);
      StepBack(ix.tables, 0, ["g"], a, b, 0);
    }
    if a: Id :| Stores(ix.tables.functions, 0, a, F_KEY) && HasWalk(ix.tables, 0, ["g"], a, 1) {
      var b := StepForward(ix.tables, 0, ["g"], a, 1);
      WalkOfNoCalls(ix.tables, 0, ["g"], b);
      var g: Id :| Stores(ix.tables.functions, 0, g, G_KEY);
      assert b == g;
    }
  }

  /** A complete run, a full run that fails, a complete incremental run: the functions
      were there after the first and are gone after the last. */
  ghost predicate LosesFunctions(built: Event, failed: Event, later: Event) {
    && PossibleHistory([built, failed, later])
    && built.stop == COMPLETE && failed.stop < COMPLETE && later.stop == COMPLETE
    && HasFunction(Exec([built]).tables.functions, 0, F_KEY)
    && later.run.files == built.run.files && later.run.outcomes == built.run.outcomes
    && Contents(Exec([built, failed, later]).tables, 0) == {}
  }

  lemma LossIsReachable()
    ensures exists built, failed, later :: LosesFunctions(built, failed, later)
  {
    hide Sound, After, InStep, UniqueNames, Calls, HasEdge, Snapshot, FaithfulHistory, WellFormedFiles, Contents,
         ModTimes, FilesAt, OUTCOMES, Indexed, CanBeStored, CalleesFit, Deterministic, Representable, Storable,
         HasFunction, NamesStayUnique, IsFunctionMap;
    EmptyIndex();
    var built := Complete(EMPTY_INDEX, 0, true);
    var ix := After(EMPTY_INDEX, built);
    RunIsWellFormed(0, true);
    var failed := Event(RunAt(0, true), map[], 1);
    assert Possible(ix, failed);
    RunKeepsSound(ix, failed);
    RunIsStorable(After(ix, failed), 0, false);
    PlanFits(After(ix, failed), 0, false);
    var later := CanComplete(After(ix, failed), RunAt(0, false));
    SnapshotIsKept(ix, failed);
    FailedRebuildLosesFunctions(ix, failed, later);
    CallerIsStored(ix);
    ThreeEvents(built, failed, later);
    assert LosesFunctions(built, failed, later);
  }

  lemma SnapshotIsKept(ix: Index, failed: Event)
    requires failed.stop == 1
    ensures Snapshot(After(ix, failed).tables, failed.run.repo) == Snapshot(ix.tables, failed.run.repo)
  {
    SnapshotKeptByDelete(ix, failed.run);
  }

  lemma CallerIsStored(ix: Index)
    requires Calls(ix, 0, F_KEY, G_KEY)
    ensures HasFunction(ix.tables.functions, 0, F_KEY)
  {
  }

  lemma ThreeEvents(e1: Event, e2: Event, e3: Event)
    requires Possible(EMPTY_INDEX, e1) && Possible(After(EMPTY_INDEX, e1), e2)
    requires Possible(After(After(EMPTY_INDEX, e1), e2), e3)
    ensures PossibleHistory([e1, e2, e3]) && Exec([e1]) == After(EMPTY_INDEX, e1)
    ensures Exec([e1, e2, e3]) == After(After(After(EMPTY_INDEX, e1), e2), e3)
  {
    hide Possible, After;
    assert [e1, e2, e3][..2] == [e1, e2] && [e1, e2][..1] == [e1] && [e1][..0] == [];
    assert Exec([e1]) == After(EMPTY_INDEX, e1) && PossibleHistory([e1]);
    assert Exec([e1, e2]) == After(After(EMPTY_INDEX, e1), e2) && PossibleHistory([e1, e2]);
  }
}
