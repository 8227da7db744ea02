/** What is stored, row by row, in terms of what the parser and the embedder gave: each
    function with its own vector, and the calls that stand behind an edge. */
module StoredFunctions {
  import opened Text
  import opened Snapshots
  import opened IndexTables
  import opened Parsing
  import opened Vectors
  import opened IndexRuns
  import opened IndexSoundness
  import opened IndexAgreement
  import opened FunctionHistories

  /** The file was parsed and embedded, and the row is one of its functions with the vector
      in the same place. */
  ghost predicate IsFunctionOf(repo: RepoId, o: FileOutcome, row: FunctionRow) {
    && o.parse.Parsed? && o.vectors.Some?
    && exists i ::
         && 0 <= i < |o.parse.functions| && i < |o.vectors.value|
         && row == FunctionRow(repo, o.parse.functions[i], o.vectors.value[i])
  }

  lemma OutcomeRowsAre(repo: RepoId, path: Path, o: FileOutcome, row: FunctionRow)
    requires WellFormed(path, o)
    ensures row in OutcomeRows(repo, path, o) <==> IsFunctionOf(repo, o, row)
  {
    if Indexed(path, o).Some? {
      var rows := FileRows(repo, Indexed(path, o).value);
      if row in rows {
        var i :| 0 <= i < |rows| && rows[i] == row;
        assert row == FunctionRow(repo, o.parse.functions[i], o.vectors.value[i]);
      }
      if i :| 0 <= i < |o.parse.functions| && i < |o.vectors.value|
              && row == FunctionRow(repo, o.parse.functions[i], o.vectors.value[i]) {
        assert rows[i] == row;
      }
    }
  }

  ghost predicate IsStored(t: Tables, row: FunctionRow) {
    exists id: Id :: id in t.functions && t.functions[id] == row
  }

  lemma StoredAtPath(t: Tables, row: FunctionRow)
    ensures IsStored(t, row) <==> row in RowsAt(t, row.repo, row.fn.filePath)
  {
  }

  /** After a run that stored its functions, the rows of a processed file are exactly its
      functions, each with its own vector; of a file that failed there are none. */
  lemma ProcessedFileIsStored(ix: Index, e: Event, f: FileSnapshot, row: FunctionRow)
    requires Sound(ix) && Possible(ix, e) && e.stop >= 2 && f in Processed(ix.tables, e.run)
    requires row.repo == e.run.repo && row.fn.filePath == f.path
    ensures f.path in e.run.outcomes
    ensures IsStored(After(ix, e).tables, row) <==> IsFunctionOf(e.run.repo, e.run.outcomes[f.path], row)
  {
    hide After, Possible, Sound, RowsAt, OutcomeRows, Processed, Drops, IsFunctionOf, IsStored;
    PossibleFiles(ix, e);
    assert Scanned(Processed(ix.tables, e.run), f.path);
    ProcessedOutcome(ix.tables, e.run, f.path);
    RunRows(ix, e, e.run.repo, f.path);
    StoredAtPath(After(ix, e).tables, row);
    OutcomeRowsAre(e.run.repo, f.path, e.run.outcomes[f.path], row);
  }

  /** Function i of a processed file is stored with vector i. */
  lemma EachFunctionHasItsVector(ix: Index, e: Event, f: FileSnapshot, i: nat)
    requires Sound(ix) && Possible(ix, e) && e.stop >= 2 && f in Processed(ix.tables, e.run)
    requires f.path in e.run.outcomes
    requires e.run.outcomes[f.path].parse.Parsed? && e.run.outcomes[f.path].vectors.Some?
    requires i < |e.run.outcomes[f.path].parse.functions|
    ensures var o := e.run.outcomes[f.path];
            && i < |o.vectors.value|
            && IsStored(After(ix, e).tables, FunctionRow(e.run.repo, o.parse.functions[i], o.vectors.value[i]))
  {
    hide After, Possible, Sound, Processed, IsStored;
    var o := e.run.outcomes[f.path];
    PossibleFiles(ix, e);
    assert Scanned(Processed(ix.tables, e.run), f.path);
    ProcessedOutcome(ix.tables, e.run, f.path);
    assert o.parse.functions[i] in o.parse.functions;
    ProcessedFileIsStored(ix, e, f, FunctionRow(e.run.repo, o.parse.functions[i], o.vectors.value[i]));
  }

  /** In every reachable state each stored row is a function, with its own vector, of what
      the last run that dropped its file made of it. */
  lemma EveryRowFromItsParse(history: seq<Event>, id: Id)
    requires PossibleHistory(history) && id in Exec(history).tables.functions
    ensures var row := Exec(history).tables.functions[id];
            var n := LastDropping(history, row.repo, row.fn.filePath);
            && 0 < n <= |history|
            && history[n - 1].run.repo == row.repo && history[n - 1].stop >= 2
            && row.fn.filePath in history[n - 1].run.outcomes
            && IsFunctionOf(row.repo, history[n - 1].run.outcomes[row.fn.filePath], row)
  {
    hide Drops, Exec, PossibleHistory, IsFunctionOf, RowsAt, Left, LastDropping;
    var row := Exec(history).tables.functions[id];
    var n := LastDropping(history, row.repo, row.fn.filePath);
    RowsByHistory(history, row.repo, row.fn.filePath);
    RowIsAtPath(Exec(history).tables, id);
    LastDroppingRepo(history, row.repo, row.fn.filePath);
    EventFiles(history, n - 1);
    LeftIsFunction(history[n - 1], row);
  }

  lemma RowIsAtPath(t: Tables, id: Id)
    requires id in t.functions
    ensures t.functions[id] in RowsAt(t, t.functions[id].repo, t.functions[id].fn.filePath)
  {
  }

  lemma LeftIsFunction(e: Event, row: FunctionRow)
    requires WellFormedFiles(e.run.files, e.run.outcomes) && row in Left(e, row.fn.filePath)
    ensures e.stop >= 2 && row.fn.filePath in e.run.outcomes
    ensures IsFunctionOf(e.run.repo, e.run.outcomes[row.fn.filePath], row)
  {
    hide IsFunctionOf, OutcomeRows;
    var f :| f in e.run.files && f.path == row.fn.filePath;
    OutcomeRowsAre(e.run.repo, row.fn.filePath, e.run.outcomes[row.fn.filePath], row);
  }

  lemma {:induction false} LastDroppingRepo(history: seq<Event>, repo: RepoId, path: Path)
    ensures LastDropping(history, repo, path) <= |history|
    ensures LastDropping(history, repo, path) > 0 ==> history[LastDropping(history, repo, path) - 1].run.repo == repo
  {
    hide Drops, Exec;
    if history != [] {
      LastDroppingRepo(history[..|history| - 1], repo, path);
    }
  }

  lemma {:induction false} EventFiles(history: seq<Event>, i: nat)
    requires PossibleHistory(history) && i < |history|
    ensures WellFormedFiles(history[i].run.files, history[i].run.outcomes)
  {
    hide After, Exec;
    if i < |history| - 1 {
      EventFiles(history[..|history| - 1], i);
    }
  }

  // The calls.

  /** A run resolves exactly the calls of the processed files that were parsed and embedded. */
  lemma CallsAreParsed(ix: Index, run: Run, c: FileCall)
    requires WellFormedFiles(run.files, run.outcomes)
    ensures c in AllCalls(PlanOf(ix, run).works) <==>
            exists f :: f in Processed(ix.tables, run) && f.path == c.path && f.path in run.outcomes
                        && IsCallOf(run.outcomes[f.path], c.call)
  {
    hide Processed, AllCalls;
    var works := PlanOf(ix, run).works;
    CallsMembers(works);
    IndexedFilesMembers(Processed(ix.tables, run), run.outcomes);
    if w :| w in works && w.path == c.path && c.call in w.calls {
      var f :| f in Processed(ix.tables, run) && f.path in run.outcomes
               && Indexed(f.path, run.outcomes[f.path]) == Some(w);
    }
    if f :| f in Processed(ix.tables, run) && f.path == c.path && f.path in run.outcomes
            && IsCallOf(run.outcomes[f.path], c.call) {
      assert Indexed(f.path, run.outcomes[f.path]).value in works;
    }
  }

  ghost predicate IsCallOf(o: FileOutcome, call: RawCall) {
    o.parse.Parsed? && o.vectors.Some? && call in o.parse.calls
  }

  /** A call is resolved as often as its file makes it. */
  lemma CallsOfFile(w: IndexedFile)
    ensures |FileCalls(w)| == |w.calls|
    ensures forall i | 0 <= i < |w.calls| :: FileCalls(w)[i].path == w.path && FileCalls(w)[i].call == w.calls[i]
  {
  }

  /** In every reachable state, behind each edge is a run that parsed the caller's file with
      the caller in it, and with a call of the callee's name inside the caller. */
  lemma EveryEdgeFromAParse(history: seq<Event>, caller: Id, callee: Id)
    requires PossibleHistory(history) && (caller, callee) in Exec(history).tables.callEdges
    ensures var functions := Exec(history).tables.functions;
            && caller in functions && callee in functions
            && exists n ::
                 && 0 <= n < |history| && history[n].stop >= 2 && history[n].run.repo == functions[caller].repo
                 && var path, outcomes := functions[caller].fn.filePath, history[n].run.outcomes;
                    && path in outcomes
                    && IsFunctionOf(functions[caller].repo, outcomes[path], functions[caller])
                    && IsCallOf(outcomes[path], RawCall(functions[caller].fn.name, functions[callee].fn.name))
  {
    hide After, Possible, Exec, LastStored, PossibleHistory, EdgeJustified, HasOrigin, IsFunctionOf;
    SoundAlways(history);
    EveryEdgeJustified(history, caller, callee);
    var row := Exec(history).tables.functions[caller];
    var path := row.fn.filePath;
    EdgeHasOrigin(Exec(history), (caller, callee));
    OriginIsLastStored(history, row.repo, path);
    var w := Exec(history).origin[(row.repo, path)];
    var n := LastStoredEvent(history, row.repo, path);
    EventFiles(history, n);
    var o := history[n].run.outcomes[path];
    RowOfIndexed(row.repo, path, o, row);
  }

  lemma EdgeHasOrigin(ix: Index, edge: (Id, Id))
    requires Sound(ix) && edge in ix.tables.callEdges
    ensures edge.0 in ix.tables.functions && HasOrigin(ix, ix.tables.functions[edge.0])
  {
    assert EdgeJustified(ix, edge);
  }

  lemma RowOfIndexed(repo: RepoId, path: Path, o: FileOutcome, row: FunctionRow)
    requires WellFormed(path, o) && Indexed(path, o).Some? && row in FileRows(repo, Indexed(path, o).value)
    ensures IsFunctionOf(repo, o, row)
  {
    OutcomeRowsAre(repo, path, o, row);
  }

  /** The event that the last stored file comes from. */
  lemma {:induction false} LastStoredEvent(history: seq<Event>, repo: RepoId, path: Path) returns (n: nat)
    requires PossibleHistory(history) && LastStored(history, repo, path).Some?
    ensures n < |history| && history[n].stop >= 2 && history[n].run.repo == repo
    ensures path in history[n].run.outcomes && WellFormed(path, history[n].run.outcomes[path])
    ensures Indexed(path, history[n].run.outcomes[path]) == LastStored(history, repo, path)
  {
    hide After, PlanOf;
    var front, e := history[..|history| - 1], history[|history| - 1];
    var works := PlanOf(Exec(front), e.run).works;
    if e.stop >= 2 && e.run.repo == repo && StoredFor(works, path).Some? {
      n := |history| - 1;
      StoredForOutcome(Exec(front), e.run, path);
    } else {
      n := LastStoredEvent(front, repo, path);
    }
  }

  lemma StoredForOutcome(ix: Index, run: Run, path: Path)
    requires WellFormedFiles(run.files, run.outcomes) && StoredFor(PlanOf(ix, run).works, path).Some?
    ensures path in run.outcomes && WellFormed(path, run.outcomes[path])
    ensures Indexed(path, run.outcomes[path]) == StoredFor(PlanOf(ix, run).works, path)
  {
    hide Indexed, Processed;
    var works := PlanOf(ix, run).works;
    var w := StoredFor(works, path).value;
    StoredForMember(works, path);
    IndexedFilesMembers(Processed(ix.tables, run), run.outcomes);
    var f :| f in Processed(ix.tables, run) && f.path in run.outcomes && Indexed(f.path, run.outcomes[f.path]) ==
      Some(w);
    IndexedPath(f.path, run.outcomes[f.path]);
    assert Scanned(Processed(ix.tables, run), f.path);
    ProcessedOutcome(ix.tables, run, f.path);
  }

  lemma {:induction false} StoredForMember(works: seq<IndexedFile>, path: Path)
    ensures StoredFor(works, path).Some? ==>
              StoredFor(works, path).value in works && StoredFor(works, path).value.path == path
  {
    if works != [] && works[|works| - 1].path != path {
      StoredForMember(works[..|works| - 1], path);
    }
  }
}
