/** The incremental index against a rebuild from scratch: when a run can store its
    functions at all, and which call edges it keeps. */
module EdgeAgreement {
  import opened Text
  import opened Snapshots
  import opened IndexTables
  import opened Parsing
  import opened Vectors
  import opened IndexRuns
  import opened IndexSoundness
  import opened IndexAgreement

  ghost predicate DistinctNames(w: IndexedFile) {
    forall i, j | 0 <= i < j < |w.functions| :: w.functions[i].name != w.functions[j].name
  }

  ghost predicate DistinctKeys(rows: seq<FunctionRow>) {
    forall i, j | 0 <= i < j < |rows| :: UniqueKey(rows[i]) != UniqueKey(rows[j])
  }

  ghost predicate Stamped(w: IndexedFile) {
    forall fn <- w.functions :: fn.filePath == w.path
  }

  lemma {:induction false} RowKeys(repo: RepoId, works: seq<IndexedFile>)
    requires DistinctFiles(works) && forall w <- works :: Stamped(w)
    ensures DistinctKeys(Rows(repo, works)) <==> forall w <- works :: DistinctNames(w)
  {
    if works != [] {
      var front, last := works[..|works| - 1], works[|works| - 1];
      assert works == front + [last];
      RowKeys(repo, front);
      var before, added, rows := Rows(repo, front), FileRows(repo, last), Rows(repo, works);
      FileRowKeys(repo, last);
      forall i, k | 0 <= i < |before| && 0 <= k < |added| ensures UniqueKey(before[i]) != UniqueKey(added[k]) {
        RowsMembers(repo, front);
        assert before[i] in before;
        var w :| w in front && before[i] in FileRows(repo, w);
        assert before[i].fn in w.functions;
        assert last.functions[k] in last.functions;
        var j :| 0 <= j < |front| && front[j] == w;
        assert works[j] == w;
      }
      KeysOfConcat(before, added);
    }
  }

  lemma FileRowKeys(repo: RepoId, w: IndexedFile)
    requires Stamped(w)
    ensures DistinctKeys(FileRows(repo, w)) <==> DistinctNames(w)
  {
    var rows := FileRows(repo, w);
    forall i | 0 <= i < |rows| ensures UniqueKey(rows[i]) == (repo, w.path, w.functions[i].name) {
      assert w.functions[i] in w.functions;
    }
    if DistinctKeys(rows) {
      forall i, j | 0 <= i < j < |w.functions| ensures w.functions[i].name != w.functions[j].name {
        assert UniqueKey(rows[i]) != UniqueKey(rows[j]);
      }
    }
  }

  lemma KeysOfConcat(a: seq<FunctionRow>, b: seq<FunctionRow>)
    requires forall i, k | 0 <= i < |a| && 0 <= k < |b| :: UniqueKey(a[i]) != UniqueKey(b[k])
    ensures DistinctKeys(a + b) <==> DistinctKeys(a) && DistinctKeys(b)
  {
    var s := a + b;
    if DistinctKeys(s) {
      forall i, j | 0 <= i < j < |a| ensures UniqueKey(a[i]) != UniqueKey(a[j]) {
        assert s[i] == a[i] && s[j] == a[j];
      }
      forall i, j | 0 <= i < j < |b| ensures UniqueKey(b[i]) != UniqueKey(b[j]) {
        assert s[|a| + i] == b[i] && s[|a| + j] == b[j];
      }
    }
  }

  /** No slot of the file's embeddings is empty or of another dimension. */
  ghost predicate AllFit(w: IndexedFile) {
    forall v <- w.vectors :: Fits(v)
  }

  lemma {:induction false} RowsFit(repo: RepoId, works: seq<IndexedFile>)
    requires forall w <- works :: |w.vectors| == |w.functions|
    ensures (forall row <- Rows(repo, works) :: Fits(row.embedding)) <==> forall w <- works :: AllFit(w)
  {
    if works != [] {
      var front, last := works[..|works| - 1], works[|works| - 1];
      assert works == front + [last];
      RowsFit(repo, front);
      FileRowsFit(repo, last);
      assert forall row :: row in Rows(repo, works) <==> row in Rows(repo, front) || row in FileRows(repo, last);
    }
  }

  lemma FileRowsFit(repo: RepoId, w: IndexedFile)
    requires |w.vectors| == |w.functions|
    ensures (forall row <- FileRows(repo, w) :: Fits(row.embedding)) <==> AllFit(w)
  {
    var rows := FileRows(repo, w);
    if forall row <- rows :: Fits(row.embedding) {
      forall v | v in w.vectors ensures Fits(v) {
        var i :| 0 <= i < |w.vectors| && w.vectors[i] == v;
        assert rows[i] in rows;
      }
    }
  }

  ghost predicate TextsFit(w: IndexedFile) {
    forall fn <- w.functions :: FunctionFits(fn)
  }

  /** The file has distinct names, and vectors and texts that the columns take. */
  ghost predicate CanBeStored(w: IndexedFile) {
    DistinctNames(w) && AllFit(w) && TextsFit(w)
  }

  lemma {:induction false} RowTextsFit(repo: RepoId, works: seq<IndexedFile>)
    ensures (forall row <- Rows(repo, works) :: FunctionFits(row.fn)) <==> forall w <- works :: TextsFit(w)
  {
    hide FunctionFits;
    if works != [] {
      var front, last := works[..|works| - 1], works[|works| - 1];
      assert works == front + [last];
      RowTextsFit(repo, front);
      FileTextsFit(repo, last);
      assert forall row :: row in Rows(repo, works) <==> row in Rows(repo, front) || row in FileRows(repo, last);
    }
  }

  lemma FileTextsFit(repo: RepoId, w: IndexedFile)
    ensures (forall row <- FileRows(repo, w) :: FunctionFits(row.fn)) <==> TextsFit(w)
  {
    hide FunctionFits;
    var rows := FileRows(repo, w);
    if forall row <- rows :: FunctionFits(row.fn) {
      forall fn | fn in w.functions ensures FunctionFits(fn) {
        var i :| 0 <= i < |w.functions| && w.functions[i] == fn;
        assert rows[i] in rows;
      }
    }
  }

  /** The database lets a run store its functions exactly when no processed file that was
      parsed and embedded has two functions of one name, an embedding that does not fit, or
      a NUL in a name or a source. */
  lemma StorableIff(ix: Index, run: Run)
    requires Sound(ix) && WellFormedFiles(run.files, run.outcomes)
    ensures Storable(ix, run) <==>
            forall f <- Processed(ix.tables, run) | Indexed(f.path, run.outcomes[f.path]).Some? ::
              CanBeStored(Indexed(f.path, run.outcomes[f.path]).value)
  {
    hide Sound, Indexed, DistinctNames, AllFit, TextsFit, Fits, FunctionFits, UniqueKey, AfterDelete, IndexedFiles,
         Rows, CallerIds, Processed;
    var p := PlanOf(ix, run);
    PlannedFiles(ix, run);
    RowsOfPlan(ix, run);
    RowKeys(run.repo, p.works);
    RowsFit(run.repo, p.works);
    RowTextsFit(run.repo, p.works);
    FitAsListed(p.rows);
    NoOlderKeys(ix, run);
    WorksAreIndexed(ix, run);
  }

  lemma RowsOfPlan(ix: Index, run: Run)
    ensures PlanOf(ix, run).rows == Rows(run.repo, PlanOf(ix, run).works)
  {
  }

  lemma FitAsListed(rows: seq<FunctionRow>)
    ensures (forall row <- rows :: Fits(row.embedding)) && (forall row <- rows :: FunctionFits(row.fn)) <==>
            forall i | 0 <= i < |rows| :: Fits(rows[i].embedding) && FunctionFits(rows[i].fn)
  {
    hide Fits, FunctionFits;
    if (forall row <- rows :: Fits(row.embedding)) && (forall row <- rows :: FunctionFits(row.fn)) {
      forall i | 0 <= i < |rows| ensures Fits(rows[i].embedding) && FunctionFits(rows[i].fn) {
        assert rows[i] in rows;
      }
    }
  }

  lemma NoOlderKeys(ix: Index, run: Run)
    requires WellFormedFiles(run.files, run.outcomes)
    ensures forall id <- AfterDelete(ix, run).tables.functions, i | 0 <= i < |PlanOf(ix, run).rows| ::
              UniqueKey(AfterDelete(ix, run).tables.functions[id]) != UniqueKey(PlanOf(ix, run).rows[i])
  {
    var functions, rows := AfterDelete(ix, run).tables.functions, PlanOf(ix, run).rows;
    PlannedFiles(ix, run);
    forall id, i | id in functions && 0 <= i < |rows| ensures UniqueKey(functions[id]) != UniqueKey(rows[i]) {
      assert rows[i] in rows;
      var w :| w in PlanOf(ix, run).works && w.path == rows[i].fn.filePath;
      ProcessedFilesEmptied(ix, run, w, id);
    }
  }

  lemma WorksAreIndexed(ix: Index, run: Run)
    requires WellFormedFiles(run.files, run.outcomes)
    ensures forall w :: w in PlanOf(ix, run).works <==>
              exists f :: f in Processed(ix.tables, run) && f.path in run.outcomes
                          && Indexed(f.path, run.outcomes[f.path]) == Some(w)
    ensures forall f <- Processed(ix.tables, run) :: f.path in run.outcomes
    ensures forall f <- Processed(ix.tables, run) | Indexed(f.path, run.outcomes[f.path]).Some? ::
              Indexed(f.path, run.outcomes[f.path]).value in PlanOf(ix, run).works
  {
    hide Indexed;
    IndexedFilesMembers(Processed(ix.tables, run), run.outcomes);
    forall f | f in Processed(ix.tables, run) && f.path in run.outcomes && Indexed(f.path, run.outcomes[f.path]).Some?
      ensures Indexed(f.path, run.outcomes[f.path]).value in PlanOf(ix, run).works
    {
      assert Indexed(f.path, run.outcomes[f.path]) == Some(Indexed(f.path, run.outcomes[f.path]).value);
    }
  }

  // Call edges by the keys of their ends.

  /** A function of a repo, its id aside. */
  datatype FunctionKey = FunctionKey(path: Path, name: string)

  function KeyOf(row: FunctionRow): FunctionKey {
    FunctionKey(row.fn.filePath, row.fn.name)
  }

  ghost predicate Stores(functions: map<Id, FunctionRow>, repo: RepoId, id: Id, key: FunctionKey) {
    id in functions && functions[id].repo == repo && KeyOf(functions[id]) == key
  }

  ghost predicate HasFunction(functions: map<Id, FunctionRow>, repo: RepoId, key: FunctionKey) {
    exists id: Id :: Stores(functions, repo, id, key)
  }

  ghost predicate HasEdge(t: Tables, repo: RepoId, caller: FunctionKey, callee: FunctionKey) {
    exists a: Id, b: Id :: Stores(t.functions, repo, a, caller) && Stores(t.functions, repo, b, callee)
                           && (a, b) in t.callEdges
  }

  /** Both functions are stored, and the caller's file calls the callee's name in the caller. */
  ghost predicate Calls(ix: Index, repo: RepoId, caller: FunctionKey, callee: FunctionKey) {
    && HasFunction(ix.tables.functions, repo, caller) && HasFunction(ix.tables.functions, repo, callee)
    && (repo, caller.path) in ix.origin
    && RawCall(caller.name, callee.name) in ix.origin[(repo, caller.path)].calls
  }

  /** Every call between stored functions has its edge. */
  ghost predicate CompleteEdges(ix: Index, repo: RepoId) {
    forall caller, callee | Calls(ix, repo, caller, callee) :: HasEdge(ix.tables, repo, caller, callee)
  }

  ghost predicate UniqueNames(functions: map<Id, FunctionRow>, repo: RepoId) {
    forall a <- functions, b <- functions
      | functions[a].repo == repo && functions[b].repo == repo && functions[a].fn.name == functions[b].fn.name :: a == b
  }

  /** In a sound index no edge is without its call. */
  lemma EdgesAreCalls(ix: Index, repo: RepoId, caller: FunctionKey, callee: FunctionKey)
    requires Sound(ix) && HasEdge(ix.tables, repo, caller, callee)
    ensures Calls(ix, repo, caller, callee)
  {
    var a: Id, b: Id :| Stores(ix.tables.functions, repo, a, caller)
                        && Stores(ix.tables.functions, repo, b, callee) && (a, b) in ix.tables.callEdges;
    assert EdgeJustified(ix, (a, b));
  }

  /** The callee is the first function listed under its name in the answer the run had. */
  ghost predicate FirstListed(ix: Index, e: Event, callee: FunctionKey) {
    exists b: Id ::
      && Stores(After(ix, e).tables.functions, e.run.repo, b, callee)
      && Candidates(e.names, callee.name) != [] && Candidates(e.names, callee.name)[0] == b
  }

  lemma UniqueMeansFirst(ix: Index, e: Event, callee: FunctionKey)
    requires Possible(ix, e) && e.stop >= 3
    requires UniqueNames(After(ix, e).tables.functions, e.run.repo)
    requires HasFunction(After(ix, e).tables.functions, e.run.repo, callee)
    ensures FirstListed(ix, e, callee)
  {
    hide After, IsFunctionMap, WellFormedFiles, Storable, UnresolvedFit, AfterFunctions, UniqueNames;
    StagesKeepFunctions(ix, e);
    var b: Id :| Stores(After(ix, e).tables.functions, e.run.repo, b, callee);
    OnlyCandidate(AfterFunctions(ix, e.run).tables, e.run.repo, e.names, callee, b);
  }

  /** An edge the run added goes to the first function listed under its name. */
  lemma NewEdgeIsFirst(ix: Index, e: Event, edge: (Id, Id), callee: FunctionKey)
    requires Possible(ix, e) && e.stop >= 3
    requires edge in After(ix, e).tables.callEdges && edge !in AfterDelete(ix, e.run).tables.callEdges
    requires Stores(After(ix, e).tables.functions, e.run.repo, edge.1, callee)
    ensures FirstListed(ix, e, callee)
  {
    hide PlanOf, AllCalls, Edges, InsertCallEdges, Storable, WellFormedFiles, UnresolvedFit, Doomed, InsertFunctions,
         IsFunctionMap, After;
    var p := PlanOf(ix, e.run);
    var edges := Edges(e.run.repo, p.callers, e.names, AllCalls(p.works));
    StagesKeepFunctions(ix, e);
    InsertedCallEdges(AfterDelete(ix, e.run).tables.callEdges, edges);
    EdgesMembers(e.run.repo, p.callers, e.names, AllCalls(p.works));
    var i :| 0 <= i < |edges| && (edges[i].caller, edges[i].callee) == edge;
    assert edges[i] in edges;
    var c :| c in AllCalls(p.works) && EdgeOf(e.run.repo, p.callers, e.names, c) == [edges[i]];
    ResolvedCallee(AfterFunctions(ix, e.run).tables, e.run.repo, e.names, c.call.callee, edge.1);
  }

  /** A call from a processed file gets its edge when its callee is listed first. */
  lemma ProcessedCallsGetEdges(ix: Index, e: Event, caller: FunctionKey, callee: FunctionKey)
    requires Sound(ix) && Possible(ix, e) && e.stop >= 3
    requires FirstListed(ix, e, callee)
    requires Calls(After(ix, e), e.run.repo, caller, callee) && Scanned(Processed(ix.tables, e.run), caller.path)
    ensures HasEdge(After(ix, e).tables, e.run.repo, caller, callee)
  {
    hide Rows, CallerIds, AllCalls, IndexedFiles, Doomed, DeleteFunctions, Origins, Processed, InsertCallEdges, Edges,
         AfterFunctions, AfterUnresolved, InsertFunctions, WellFormedFiles, Sound;
    var repo, p, after := e.run.repo, PlanOf(ix, e.run), After(ix, e);
    StagesKeepFunctions(ix, e);
    var c := FileCall(caller.path, RawCall(caller.name, callee.name));
    ProcessedCall(ix, e.run, caller, c);
    ResolvedCaller(ix, e.run, c);
    var a := p.callers[(c.path, c.call.caller)];
    var b: Id :| Stores(after.tables.functions, repo, b, callee) && Candidates(e.names, callee.name) != []
                 && Candidates(e.names, callee.name)[0] == b;
    assert EdgeOf(repo, p.callers, e.names, c) == [CallEdge(repo, a, b)];
    EdgesMembers(repo, p.callers, e.names, AllCalls(p.works));
    InsertedEdge(AfterFunctions(ix, e.run).tables.callEdges, Edges(repo, p.callers, e.names, AllCalls(p.works)),
      CallEdge(repo, a, b));
    assert Stores(after.tables.functions, repo, a, caller) && Stores(after.tables.functions, repo, b, callee);
  }

  lemma InsertedEdge(callEdges: map<(Id, Id), RepoId>, edges: seq<CallEdge>, e: CallEdge)
    requires e in edges
    ensures (e.caller, e.callee) in InsertCallEdges(callEdges, edges)
  {
    InsertedCallEdges(callEdges, edges);
  }

  lemma ProcessedCall(ix: Index, run: Run, caller: FunctionKey, c: FileCall)
    requires Sound(ix) && WellFormedFiles(run.files, run.outcomes) && Storable(ix, run)
    requires HasFunction(AfterFunctions(ix, run).tables.functions, run.repo, caller)
    requires Scanned(Processed(ix.tables, run), caller.path)
    requires c.path == caller.path && c.call.caller == caller.name
    requires (run.repo, c.path) in AfterFunctions(ix, run).origin
    requires c.call in AfterFunctions(ix, run).origin[(run.repo, c.path)].calls
    ensures c in AllCalls(PlanOf(ix, run).works) && (c.path, c.call.caller) in PlanOf(ix, run).callers
  {
    hide AllCalls, IndexedFiles, Doomed, DeleteFunctions, Origins, Rows, CallerIds, Processed, Sound, Storable;
    var p := PlanOf(ix, run);
    var id: Id :| Stores(AfterFunctions(ix, run).tables.functions, run.repo, id, caller);
    StoredFunctions(ix, run, id);
    if id in AfterDelete(ix, run).tables.functions && !(ix.nextId <= id < ix.nextId + |p.rows|) {
      DeletedProcessed(ix, run, id, caller.path);
    }
    assert p.rows[id - ix.nextId] in p.rows;
    CallerIdsMembers(ix.nextId, p.rows);
    PlannedFiles(ix, run);
    CallsMembers(p.works);
    SoundOrigins(ix);
    NewOrigins(ix, run);
  }

  lemma DeletedProcessed(ix: Index, run: Run, id: Id, path: Path)
    requires WellFormedFiles(run.files, run.outcomes) && Scanned(Processed(ix.tables, run), path)
    requires id in AfterDelete(ix, run).tables.functions
    ensures !(ix.tables.functions[id].repo == run.repo && ix.tables.functions[id].fn.filePath == path)
  {
    ProcessedAreDropped(ix.tables, run, path);
    assert id !in Doomed(ix.tables, run);
  }

  lemma OnlyCandidate(t: Tables, repo: RepoId, names: map<string, seq<Id>>, callee: FunctionKey, id: Id)
    requires IsFunctionMap(t, repo, names) && UniqueNames(t.functions, repo) && Stores(t.functions, repo, id, callee)
    ensures Candidates(names, callee.name) == [id]
  {
    var ids := names[callee.name];
    var second := if |ids| > 1 then ids[1] else id;
    forall i | 0 <= i < |ids| ensures ids[i] == id {
    }
    assert second == ids[0];
  }

  lemma StoredArePlanned(ix: Index, e: Event, caller: FunctionKey, callee: FunctionKey)
    requires Sound(ix) && Possible(ix, e) && e.stop >= 3 && e.run.full
    requires Calls(After(ix, e), e.run.repo, caller, callee)
    ensures Scanned(Processed(ix.tables, e.run), caller.path)
  {
    StoredRow(After(ix, e).tables, e.run.repo, caller);
    RunRows(ix, e, e.run.repo, caller.path);
  }

  lemma StoredRow(t: Tables, repo: RepoId, key: FunctionKey)
    ensures HasFunction(t.functions, repo, key) <==>
            exists row :: row in RowsAt(t, repo, key.path) && row.fn.name == key.name
  {
    if id: Id :| Stores(t.functions, repo, id, key) {
      assert t.functions[id] in RowsAt(t, repo, key.path);
    }
    if row :| row in RowsAt(t, repo, key.path) && row.fn.name == key.name {
      var id :| id in t.functions && t.functions[id].repo == repo && t.functions[id].fn.filePath == key.path
        && t.functions[id] == row;
      assert Stores(t.functions, repo, id, key);
    }
  }

  lemma NewRowIsProcessed(ix: Index, run: Run, i: int)
    requires WellFormedFiles(run.files, run.outcomes) && 0 <= i < |PlanOf(ix, run).rows|
    ensures Scanned(Processed(ix.tables, run), PlanOf(ix, run).rows[i].fn.filePath)
  {
    var p := PlanOf(ix, run);
    assert p.rows[i] in p.rows;
    PlannedRows(ix, run, p.rows[i]);
  }

  /** The edges after a run are those its deletes left, and new ones out of processed files. */
  lemma EdgesAfterRun(ix: Index, e: Event, edge: (Id, Id))
    requires Sound(ix) && Possible(ix, e) && e.stop >= 3
    requires edge in After(ix, e).tables.callEdges
    ensures edge in AfterDelete(ix, e.run).tables.callEdges
            || (edge.0 in After(ix, e).tables.functions && After(ix, e).tables.functions[edge.0].repo == e.run.repo
                && Scanned(Processed(ix.tables, e.run), After(ix, e).tables.functions[edge.0].fn.filePath))
  {
    hide Rows, CallerIds, AllCalls, IndexedFiles, Doomed, DeleteFunctions, Origins, Processed, InsertCallEdges, Edges,
         InsertFunctions, WellFormedFiles, Sound, Storable, IsFunctionMap, AfterUnresolved;
    StagesKeepFunctions(ix, e);
    PossibleFiles(ix, e);
    var p := PlanOf(ix, e.run);
    var calls := AllCalls(p.works);
    var edges := Edges(e.run.repo, p.callers, e.names, calls);
    InsertedCallEdges(AfterDelete(ix, e.run).tables.callEdges, edges);
    EdgesMembers(e.run.repo, p.callers, e.names, calls);
    if edge !in AfterDelete(ix, e.run).tables.callEdges {
      var i :| 0 <= i < |edges| && (edges[i].caller, edges[i].callee) == edge;
      assert edges[i] in edges;
      var c :| c in calls && EdgeOf(e.run.repo, p.callers, e.names, c) == [edges[i]];
      CallerIdsMembers(ix.nextId, p.rows);
      NewRowIsProcessed(ix, e.run, edge.0 - ix.nextId);
      ResolvedCaller(ix, e.run, c);
    }
  }

  lemma KeptEdge(ix: Index, e: Event, edge: (Id, Id))
    requires e.stop >= 3 && edge in AfterDelete(ix, e.run).tables.callEdges
    ensures edge in After(ix, e).tables.callEdges
  {
    hide PlanOf, Edges, InsertCallEdges, InsertFunctions, Doomed, InsertUnresolved, Origins, AllCalls, UnresolvedEdges;
    var p := PlanOf(ix, e.run);
    StagesKeepFunctions(ix, e);
    InsertedCallEdges(AfterDelete(ix, e.run).tables.callEdges,
      Edges(e.run.repo, p.callers, e.names, AllCalls(p.works)));
  }

  // What a run will leave, read off the index and the files before it.

  /** The file's outcome gives a function of the key. */
  ghost predicate Gives(outcomes: map<Path, FileOutcome>, key: FunctionKey) {
    && key.path in outcomes && Indexed(key.path, outcomes[key.path]).Some?
    && exists fn :: fn in Indexed(key.path, outcomes[key.path]).value.functions && fn.name == key.name
  }

  /** A processed file will hold what its outcome gives; any other what it holds now,
      unless it is dropped. */
  ghost predicate WillHave(ix: Index, run: Run, key: FunctionKey) {
    if Scanned(Processed(ix.tables, run), key.path) then Gives(run.outcomes, key)
    else !Drops(ix.tables, run, key.path) && HasFunction(ix.tables.functions, run.repo, key)
  }

  ghost predicate WillCall(ix: Index, run: Run, caller: FunctionKey, callee: FunctionKey) {
    && WillHave(ix, run, caller) && WillHave(ix, run, callee)
    && var call := RawCall(caller.name, callee.name);
       if Scanned(Processed(ix.tables, run), caller.path)
       then caller.path in run.outcomes && Indexed(caller.path, run.outcomes[caller.path]).Some?
            && call in Indexed(caller.path, run.outcomes[caller.path]).value.calls
       else (run.repo, caller.path) in ix.origin && call in ix.origin[(run.repo, caller.path)].calls
  }

  /** No two functions the run will leave share a name. */
  ghost predicate NamesStayUnique(ix: Index, run: Run) {
    forall a, b | WillHave(ix, run, a) && WillHave(ix, run, b) && a.name == b.name :: a == b
  }

  lemma OutcomeGives(repo: RepoId, outcomes: map<Path, FileOutcome>, key: FunctionKey)
    requires key.path in outcomes
    ensures Gives(outcomes, key) <==>
            exists row :: row in OutcomeRows(repo, key.path, outcomes[key.path]) && row.fn.name == key.name
  {
    var o := outcomes[key.path];
    if Gives(outcomes, key) {
      var w := Indexed(key.path, o).value;
      var fn :| fn in w.functions && fn.name == key.name;
      var i :| 0 <= i < |w.functions| && w.functions[i] == fn;
      assert FileRows(repo, w)[i] in OutcomeRows(repo, key.path, o);
    }
    if row :| row in OutcomeRows(repo, key.path, o) && row.fn.name == key.name {
      assert row.fn in Indexed(key.path, o).value.functions;
    }
  }

  lemma WillHaveIff(ix: Index, e: Event, key: FunctionKey)
    requires Sound(ix) && Possible(ix, e) && e.stop >= 2
    ensures HasFunction(After(ix, e).tables.functions, e.run.repo, key) <==> WillHave(ix, e.run, key)
  {
    hide After, Possible, Sound, RowsAt, OutcomeRows, Processed, Drops, Gives, HasFunction;
    StoredRow(After(ix, e).tables, e.run.repo, key);
    StoredRow(ix.tables, e.run.repo, key);
    RunRows(ix, e, e.run.repo, key.path);
    PossibleFiles(ix, e);
    if Scanned(Processed(ix.tables, e.run), key.path) {
      ProcessedAreDropped(ix.tables, e.run, key.path);
      OutcomeGives(e.run.repo, e.run.outcomes, key);
    }
  }

  lemma WillCallIff(ix: Index, e: Event, caller: FunctionKey, callee: FunctionKey)
    requires Sound(ix) && Possible(ix, e) && e.stop >= 2
    ensures Calls(After(ix, e), e.run.repo, caller, callee) <==> WillCall(ix, e.run, caller, callee)
  {
    hide After, Possible, Sound, Processed, HasFunction, Scanned;
    WillHaveIff(ix, e, caller);
    WillHaveIff(ix, e, callee);
    PossibleFiles(ix, e);
    OriginAt(ix, e, caller.path);
    if Scanned(Processed(ix.tables, e.run), caller.path) {
      ProcessedAreDropped(ix.tables, e.run, caller.path);
    }
  }

  lemma UniqueByKeys(functions: map<Id, FunctionRow>, repo: RepoId)
    requires UniqueKeys(functions)
    ensures UniqueNames(functions, repo) <==>
            forall a, b | HasFunction(functions, repo, a) && HasFunction(functions, repo, b) && a.name == b.name ::
              a == b
  {
    if forall a, b | HasFunction(functions, repo, a) && HasFunction(functions, repo, b) && a.name == b.name :: a == b {
      forall x, y | x in functions && y in functions && functions[x].repo == repo && functions[y].repo == repo
        && functions[x].fn.name == functions[y].fn.name
        ensures x == y
      {
        assert Stores(functions, repo, x, KeyOf(functions[x])) && Stores(functions, repo, y, KeyOf(functions[y]));
        assert HasFunction(functions, repo, KeyOf(functions[x])) && HasFunction(functions, repo, KeyOf(functions[y]));
        assert UniqueKey(functions[x]) == UniqueKey(functions[y]);
      }
    }
  }

  lemma UniqueNamesIff(ix: Index, e: Event)
    requires Sound(ix) && Possible(ix, e) && e.stop >= 2
    ensures UniqueNames(After(ix, e).tables.functions, e.run.repo) <==> NamesStayUnique(ix, e.run)
  {
    hide After, Possible, WillHave, HasFunction, HasOrigin, EdgeJustified, UnresolvedJustified, UniqueNames, UniqueKeys;
    RunKeepsSound(ix, e);
    UniqueByKeys(After(ix, e).tables.functions, e.run.repo);
    forall key ensures HasFunction(After(ix, e).tables.functions, e.run.repo, key) <==> WillHave(ix, e.run, key) {
      WillHaveIff(ix, e, key);
    }
  }

  // The edges after a run, one by one.

  /** An edge that the deletes of the run leave. */
  ghost predicate HasOldEdge(ix: Index, run: Run, caller: FunctionKey, callee: FunctionKey) {
    exists a: Id, b: Id ::
      && Stores(ix.tables.functions, run.repo, a, caller) && Stores(ix.tables.functions, run.repo, b, callee)
      && (a, b) in AfterDelete(ix, run).tables.callEdges
  }

  lemma IsDoomed(t: Tables, run: Run, id: Id, key: FunctionKey)
    requires Stores(t.functions, run.repo, id, key)
    ensures id in Doomed(t, run) <==> Drops(t, run, key.path)
  {
  }

  lemma OldEdgeIff(ix: Index, run: Run, caller: FunctionKey, callee: FunctionKey)
    ensures HasOldEdge(ix, run, caller, callee) <==>
            HasEdge(ix.tables, run.repo, caller, callee) && !Drops(ix.tables, run, caller.path)
              && !Drops(ix.tables, run, callee.path)
  {
    hide Doomed, Drops, Stores;
    forall a: Id, b: Id | Stores(ix.tables.functions, run.repo, a, caller)
      && Stores(ix.tables.functions, run.repo, b, callee)
      ensures (a, b) in AfterDelete(ix, run).tables.callEdges <==>
              (a, b) in ix.tables.callEdges && !Drops(ix.tables, run, caller.path)
                && !Drops(ix.tables, run, callee.path)
    {
      IsDoomed(ix.tables, run, a, caller);
      IsDoomed(ix.tables, run, b, callee);
    }
  }

  /** Both ends of an edge that the deletes leave are stored as they were, before the run
      and after it. */
  lemma OldEdgeEnds(ix: Index, e: Event, edge: (Id, Id))
    requires Sound(ix) && Possible(ix, e) && e.stop >= 1 && edge in AfterDelete(ix, e.run).tables.callEdges
    ensures edge.0 in ix.tables.functions && edge.0 in After(ix, e).tables.functions
    ensures edge.1 in ix.tables.functions && edge.1 in After(ix, e).tables.functions
    ensures After(ix, e).tables.functions[edge.0] == ix.tables.functions[edge.0]
    ensures After(ix, e).tables.functions[edge.1] == ix.tables.functions[edge.1]
  {
    hide PlanOf, WellFormedFiles, Storable, IsFunctionMap, AfterFunctions, AfterEdges, AfterUnresolved, AfterSnapshot,
         Doomed;
    assert EdgeJustified(ix, edge);
    if e.stop >= 2 {
      hide After;
      StagesKeepFunctions(ix, e);
      PossibleFiles(ix, e);
      FunctionsKeepOlder(ix, e.run);
    }
  }

  lemma EdgesOfEarlyStages(ix: Index, e: Event)
    requires 1 <= e.stop <= 2
    ensures After(ix, e).tables.callEdges == AfterDelete(ix, e.run).tables.callEdges
  {
    hide PlanOf, Doomed, InsertFunctions;
  }

  /** Edges out of a file that the run does not process are the old ones it leaves. */
  lemma UnprocessedEdges(ix: Index, e: Event, caller: FunctionKey, callee: FunctionKey)
    requires Sound(ix) && Possible(ix, e) && e.stop >= 1
    requires e.stop >= 3 ==> !Scanned(Processed(ix.tables, e.run), caller.path)
    ensures HasEdge(After(ix, e).tables, e.run.repo, caller, callee) <==> HasOldEdge(ix, e.run, caller, callee)
  {
    hide After, Processed, AfterDelete, Sound, Possible, Scanned;
    var repo, after, old_ := e.run.repo, After(ix, e).tables, AfterDelete(ix, e.run).tables;
    if a: Id, b: Id :| Stores(after.functions, repo, a, caller) && Stores(after.functions, repo, b, callee)
                       && (a, b) in after.callEdges {
      if e.stop >= 3 {
        EdgesAfterRun(ix, e, (a, b));
      } else {
        EdgesOfEarlyStages(ix, e);
      }
      OldEdgeEnds(ix, e, (a, b));
      assert HasOldEdge(ix, e.run, caller, callee);
    }
    if a: Id, b: Id :| Stores(ix.tables.functions, repo, a, caller) && Stores(ix.tables.functions, repo, b, callee)
                       && (a, b) in old_.callEdges {
      OldEdgeEnds(ix, e, (a, b));
      if e.stop >= 3 {
        KeptEdge(ix, e, (a, b));
      } else {
        EdgesOfEarlyStages(ix, e);
      }
      assert HasEdge(after, repo, caller, callee);
    }
  }

  /** Wherever a run stops: an edge out of a processed file is there exactly when the calls
      were resolved, the call is there and its callee was listed first; any other exactly
      when it was there before and neither end was dropped. */
  lemma EdgeAfterRun(ix: Index, e: Event, caller: FunctionKey, callee: FunctionKey)
    requires Sound(ix) && Possible(ix, e)
    ensures HasEdge(After(ix, e).tables, e.run.repo, caller, callee) <==>
            if e.stop == 0 then HasEdge(ix.tables, e.run.repo, caller, callee)
            else if e.stop >= 3 && Scanned(Processed(ix.tables, e.run), caller.path)
            then WillCall(ix, e.run, caller, callee) && FirstListed(ix, e, callee)
            else HasEdge(ix.tables, e.run.repo, caller, callee)
                 && !Drops(ix.tables, e.run, caller.path) && !Drops(ix.tables, e.run, callee.path)
  {
    hide Sound, HasEdge, Processed, Scanned, Drops, WillCall, HasOldEdge, FirstListed;
    if e.stop >= 1 {
      hide After, Possible;
      if e.stop >= 3 && Scanned(Processed(ix.tables, e.run), caller.path) {
        WillCallIff(ix, e, caller, callee);
        RunKeepsSound(ix, e);
        if HasEdge(After(ix, e).tables, e.run.repo, caller, callee) {
          EdgesAreCalls(After(ix, e), e.run.repo, caller, callee);
          ProcessedEdgeIsFirst(ix, e, caller, callee);
        }
        if Calls(After(ix, e), e.run.repo, caller, callee) && FirstListed(ix, e, callee) {
          ProcessedCallsGetEdges(ix, e, caller, callee);
        }
      } else {
        UnprocessedEdges(ix, e, caller, callee);
        OldEdgeIff(ix, e.run, caller, callee);
      }
    }
  }

  /** No old edge out of a processed file is left. */
  lemma ProcessedEdgeIsFirst(ix: Index, e: Event, caller: FunctionKey, callee: FunctionKey)
    requires Sound(ix) && Possible(ix, e) && e.stop >= 3 && Scanned(Processed(ix.tables, e.run), caller.path)
    requires HasEdge(After(ix, e).tables, e.run.repo, caller, callee)
    ensures FirstListed(ix, e, callee)
  {
    hide Sound, Possible, After, AfterDelete, Processed, Scanned, FirstListed, Drops;
    var after := After(ix, e).tables;
    var a: Id, b: Id :| Stores(after.functions, e.run.repo, a, caller)
                        && Stores(after.functions, e.run.repo, b, callee) && (a, b) in after.callEdges;
    if (a, b) in AfterDelete(ix, e.run).tables.callEdges {
      OldEdgeEnds(ix, e, (a, b));
      PossibleFiles(ix, e);
      ProcessedAreDropped(ix.tables, e.run, caller.path);
      OldEdgeIff(ix, e.run, caller, callee);
      assert false;
    }
    NewEdgeIsFirst(ix, e, (a, b), callee);
  }

  /** With unique names the callee of a call is always listed first. */
  lemma EdgeAfterRunIff(ix: Index, e: Event, caller: FunctionKey, callee: FunctionKey)
    requires Sound(ix) && Possible(ix, e)
    requires e.stop >= 3 ==> NamesStayUnique(ix, e.run)
    ensures HasEdge(After(ix, e).tables, e.run.repo, caller, callee) <==>
            if e.stop == 0 then HasEdge(ix.tables, e.run.repo, caller, callee)
            else if e.stop >= 3 && Scanned(Processed(ix.tables, e.run), caller.path)
            then WillCall(ix, e.run, caller, callee)
            else HasEdge(ix.tables, e.run.repo, caller, callee)
                 && !Drops(ix.tables, e.run, caller.path) && !Drops(ix.tables, e.run, callee.path)
  {
    hide Sound, HasEdge, Processed, Scanned, Drops, NamesStayUnique, WillCall, FirstListed, After, Possible,
         HasFunction;
    EdgeAfterRun(ix, e, caller, callee);
    if e.stop >= 3 && WillCall(ix, e.run, caller, callee) {
      WillCallIff(ix, e, caller, callee);
      UniqueNamesIff(ix, e);
      UniqueMeansFirst(ix, e, callee);
    }
  }

  lemma CalleeIsStored(ix: Index, repo: RepoId, caller: FunctionKey, callee: FunctionKey)
    requires Calls(ix, repo, caller, callee)
    ensures HasFunction(ix.tables.functions, repo, callee)
  {
  }

  /** With unique names a full run leaves no call between its functions without an edge. */
  lemma FullRunCompletesEdges(ix: Index, e: Event)
    requires Sound(ix) && Possible(ix, e) && e.stop >= 3 && e.run.full && NamesStayUnique(ix, e.run)
    ensures CompleteEdges(After(ix, e), e.run.repo)
  {
    hide After, Possible, Sound, UniqueNames, Calls, HasEdge, NamesStayUnique, FirstListed, HasFunction;
    UniqueNamesIff(ix, e);
    forall caller, callee | Calls(After(ix, e), e.run.repo, caller, callee)
      ensures HasEdge(After(ix, e).tables, e.run.repo, caller, callee)
    {
      StoredArePlanned(ix, e, caller, callee);
      CalleeIsStored(After(ix, e), e.run.repo, caller, callee);
      UniqueMeansFirst(ix, e, callee);
      ProcessedCallsGetEdges(ix, e, caller, callee);
    }
  }

  /** The call goes from a file that the run leaves alone into one it processes. */
  ghost predicate CrossesIn(ix: Index, run: Run, caller: FunctionKey, callee: FunctionKey) {
    && WillCall(ix, run, caller, callee)
    && !Scanned(Processed(ix.tables, run), caller.path)
    && Scanned(Processed(ix.tables, run), callee.path)
  }

  /** Such a call has no edge after the run: the cascade took the old one, and the
      caller's file is not resolved again. */
  lemma CrossingCallsLoseEdges(ix: Index, e: Event, caller: FunctionKey, callee: FunctionKey)
    requires Sound(ix) && Possible(ix, e) && e.stop >= 2 && CrossesIn(ix, e.run, caller, callee)
    ensures Calls(After(ix, e), e.run.repo, caller, callee) && !HasEdge(After(ix, e).tables, e.run.repo, caller, callee)
  {
    hide After, Processed, Sound, Possible, HasEdge, Drops, WillCall, Scanned;
    PossibleFiles(ix, e);
    WillCallIff(ix, e, caller, callee);
    UnprocessedEdges(ix, e, caller, callee);
    OldEdgeIff(ix, e.run, caller, callee);
    ProcessedAreDropped(ix.tables, e.run, callee.path);
  }

  /** The call stays between two files that the run leaves alone. */
  ghost predicate StaysOut(ix: Index, run: Run, caller: FunctionKey, callee: FunctionKey) {
    && WillCall(ix, run, caller, callee)
    && !Scanned(Processed(ix.tables, run), caller.path)
    && !Scanned(Processed(ix.tables, run), callee.path)
  }

  /** With unique names a run, incremental or full, ends with an edge for every call
      exactly when no call crosses into a processed file, and every call between files
      left alone has its edge already. */
  lemma EdgesCompleteIff(ix: Index, e: Event)
    requires Sound(ix) && Possible(ix, e) && e.stop >= 3 && NamesStayUnique(ix, e.run)
    ensures CompleteEdges(After(ix, e), e.run.repo) <==>
            && (forall caller, callee :: !CrossesIn(ix, e.run, caller, callee))
            && (forall caller, callee | StaysOut(ix, e.run, caller, callee) ::
               HasEdge(ix.tables, e.run.repo, caller, callee))
  {
    hide After, Possible, HasEdge, Processed, Scanned, Sound, NamesStayUnique, WillCall, Calls, Drops;
    forall caller, callee
      ensures Calls(After(ix, e), e.run.repo, caller, callee) <==> WillCall(ix, e.run, caller, callee)
      ensures WillCall(ix, e.run, caller, callee) ==>
                (HasEdge(After(ix, e).tables, e.run.repo, caller, callee) <==>
                   && !CrossesIn(ix, e.run, caller, callee)
                   && (StaysOut(ix, e.run, caller, callee) ==> HasEdge(ix.tables, e.run.repo, caller, callee)))
    {
      WillCallIff(ix, e, caller, callee);
      EdgeAfterRunIff(ix, e, caller, callee);
      PossibleFiles(ix, e);
      if WillCall(ix, e.run, caller, callee) {
        WillCallEnds(ix, e.run, caller, callee);
      }
    }
  }

  /** Files that keep or get a function are processed if they are dropped at all. */
  lemma WillCallEnds(ix: Index, run: Run, caller: FunctionKey, callee: FunctionKey)
    requires WellFormedFiles(run.files, run.outcomes) && WillCall(ix, run, caller, callee)
    ensures Scanned(Processed(ix.tables, run), caller.path) <==> Drops(ix.tables, run, caller.path)
    ensures Scanned(Processed(ix.tables, run), callee.path) <==> Drops(ix.tables, run, callee.path)
  {
    hide Processed, Drops, Scanned;
    if Scanned(Processed(ix.tables, run), caller.path) {
      ProcessedAreDropped(ix.tables, run, caller.path);
    }
    if Scanned(Processed(ix.tables, run), callee.path) {
      ProcessedAreDropped(ix.tables, run, callee.path);
    }
  }

  /** A full run that stops once its functions are stored, followed by a complete
      incremental run on the files of the old snapshot: all functions are back, and none
      of their calls has an edge. */
  lemma FailedRebuildLosesEdges(ix: Index, failed: Event, later: Event, caller: FunctionKey, callee: FunctionKey)
    requires Sound(ix) && Possible(ix, failed) && failed.run.full && failed.stop == 2
    requires Possible(After(ix, failed), later) && !later.run.full && later.stop == COMPLETE
    requires later.run.repo == failed.run.repo && SameFiles(ix, later.run)
    ensures Agrees(After(After(ix, failed), later), later.run.repo, failed.run.files, failed.run.outcomes)
    ensures !HasEdge(After(After(ix, failed), later).tables, later.run.repo, caller, callee)
  {
    hide After, Possible, Sound, HasEdge, Processed, Drops, Scanned, RowsAt, RebuiltRows, Snapshot;
    var repo, mid := later.run.repo, After(ix, failed);
    RunKeepsSound(ix, failed);
    PossibleFiles(mid, later);
    SnapshotOfStage2(ix, failed);
    FullRunAgrees(ix, failed);
    forall path
      ensures !Scanned(Processed(mid.tables, later.run), path)
      ensures RowsAt(After(mid, later).tables, repo, path) == RowsAt(mid.tables, repo, path)
    {
      NothingChanged(mid.tables, later.run, path);
      RunRows(mid, later, repo, path);
    }
    DroppedByFullRun(ix.tables, failed.run, caller.path);
    EdgeAfterRunIff(ix, failed, caller, callee);
    UnprocessedEdges(mid, later, caller, callee);
    OldEdgeIff(mid, later.run, caller, callee);
  }

  lemma SnapshotOfStage2(ix: Index, e: Event)
    requires e.stop == 2
    ensures Snapshot(After(ix, e).tables, e.run.repo) == Snapshot(ix.tables, e.run.repo)
  {
    hide PlanOf, Doomed, InsertFunctions, Decode;
  }
}
