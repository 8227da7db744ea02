/** The indexer itself: RunFullIndex and RunIncrementalIndex drive the store write
    by write; wherever they stop, the index is at a stage of the run. */
module Indexer {
  import opened Text
  import opened Snapshots
  import opened IndexTables
  import opened Parsing
  import opened IndexRuns

  function FileScopedKey(filePath: string, funcName: string): string {
    filePath + "\0" + funcName
  }

  lemma FirstNul(p: string, n: string)
    requires '\0' !in p
    ensures FileScopedKey(p, n)[|p|] == '\0'
    ensures forall i | 0 <= i < |p| :: FileScopedKey(p, n)[i] != '\0'
  {
    assert forall i | 0 <= i < |p| :: FileScopedKey(p, n)[i] == p[i];
  }

  /** File paths have no NUL, so the key determines both of its parts. */
  lemma FileScopedKeyInjective(p: string, n: string, p': string, n': string)
    requires '\0' !in p && '\0' !in p' && FileScopedKey(p, n) == FileScopedKey(p', n')
    ensures p == p' && n == n'
  {
    FirstNul(p, n);
    FirstNul(p', n');
    var k := FileScopedKey(p, n);
    assert |p| == |p'|;
    assert p == k[..|p|] == p' && n == k[|p| + 1..] == n';
  }

  ghost predicate EncodesCallers(m: map<string, Id>, callers: map<(Path, string), Id>) {
    forall p, n {:trigger FileScopedKey(p, n)} | '\0' !in p ::
      && (FileScopedKey(p, n) in m <==> (p, n) in callers)
      && ((p, n) in callers ==> FileScopedKey(p, n) in m && m[FileScopedKey(p, n)] == callers[(p, n)])
  }

  lemma EncodesOneMore(m: map<string, Id>, callers: map<(Path, string), Id>, p: Path, n: string, id: Id)
    requires EncodesCallers(m, callers) && '\0' !in p
    ensures EncodesCallers(m[FileScopedKey(p, n) := id], callers[(p, n) := id])
  {
    forall p', n' {:trigger FileScopedKey(p', n')} | '\0' !in p' && FileScopedKey(p', n') == FileScopedKey(p, n)
      ensures p' == p && n' == n
    {
      FileScopedKeyInjective(p, n, p', n');
    }
  }

  lemma ResolveOneMore(repo: RepoId, callers: map<(Path, string), Id>, names: map<string, seq<Id>>,
                       calls: seq<FileCall>, c: FileCall)
    ensures Edges(repo, callers, names, calls + [c]) ==
            Edges(repo, callers, names, calls) + EdgeOf(repo, callers, names, c)
    ensures UnresolvedEdges(repo, callers, names, calls + [c]) ==
            UnresolvedEdges(repo, callers, names, calls) + UnresolvedOf(repo, callers, names, c)
  {
    assert (calls + [c])[..|calls|] == calls;
  }

  lemma AllCallsOneMore(works: seq<IndexedFile>, i: int)
    requires 0 <= i < |works|
    ensures AllCalls(works[..i + 1]) == AllCalls(works[..i]) + FileCalls(works[i])
  {
    assert works[..i + 1][..i] == works[..i];
  }

  function ParseOutcomes(outcomes: map<Path, FileOutcome>): map<Path, ParseOutcome> {
    map p | p in outcomes :: outcomes[p].parse
  }

  /** The parsed files whose functions were embedded. */
  function Embedded(parsed: seq<ParsedFile>, outcomes: map<Path, FileOutcome>): seq<IndexedFile> {
    if parsed == [] then []
    else
      var pf := parsed[|parsed| - 1];
      Embedded(parsed[..|parsed| - 1], outcomes)
      + if pf.path in outcomes && outcomes[pf.path].vectors.Some?
        then [IndexedFile(pf.path, pf.functions, outcomes[pf.path].vectors.value, pf.calls)] else []
  }

  lemma {:induction false} EmbeddedParsed(files: seq<FileSnapshot>, outcomes: map<Path, FileOutcome>)
    requires forall f <- files :: f.path in outcomes
    ensures Embedded(ParsedFiles(files, ParseOutcomes(outcomes)), outcomes) == IndexedFiles(files, outcomes)
    ensures forall pf <- ParsedFiles(files, ParseOutcomes(outcomes)) ::
              && (exists f :: f in files && f.path == pf.path)
              && outcomes[pf.path].parse == Parsed(pf.functions, pf.calls)
  {
    if files != [] {
      var front, last := files[..|files| - 1], files[|files| - 1];
      assert files == front + [last];
      EmbeddedParsed(front, outcomes);
      var before, parsed := ParsedFiles(front, ParseOutcomes(outcomes)), ParsedFiles(files, ParseOutcomes(outcomes));
      assert last in files;
      var o := outcomes[last.path];
      if o.parse.Parsed? {
        assert parsed == before + [ParsedFile(last.path, o.parse.functions, o.parse.calls)];
        assert parsed[..|parsed| - 1] == before;
      } else {
        assert parsed == before;
      }
    }
  }

  function EmbeddingErrors(parsed: seq<ParsedFile>, outcomes: map<Path, FileOutcome>): set<Path> {
    set pf | pf in parsed && pf.path in outcomes && outcomes[pf.path].vectors.None? :: pf.path
  }

  lemma EmbeddingErrorsOneMore(parsed: seq<ParsedFile>, i: int, outcomes: map<Path, FileOutcome>)
    requires 0 <= i < |parsed|
    ensures EmbeddingErrors(parsed[..i + 1], outcomes) ==
            EmbeddingErrors(parsed[..i], outcomes) + EmbeddingErrors([parsed[i]], outcomes)
  {
    var before, after := parsed[..i], parsed[..i + 1];
    assert after == before + [parsed[i]];
    forall p
      ensures p in EmbeddingErrors(after, outcomes) <==>
              p in EmbeddingErrors(before, outcomes) + EmbeddingErrors([parsed[i]], outcomes)
    {
    }
  }

  lemma EmbeddedOneMore(parsed: seq<ParsedFile>, i: int, outcomes: map<Path, FileOutcome>)
    requires 0 <= i < |parsed|
    ensures Embedded(parsed[..i + 1], outcomes) == Embedded(parsed[..i], outcomes) + Embedded([parsed[i]], outcomes)
  {
    assert parsed[..i + 1][..i] == parsed[..i];
  }

  lemma RowsOneMore(repo: RepoId, works: seq<IndexedFile>, w: IndexedFile)
    ensures Rows(repo, works + [w]) == Rows(repo, works) + FileRows(repo, w)
  {
    assert (works + [w])[..|works|] == works;
  }

  /** The files a run counts as errored. */
  function ErroredFiles(files: seq<FileSnapshot>, outcomes: map<Path, FileOutcome>): set<Path>
    requires forall f <- files :: f.path in outcomes
  {
    var parse := ParseOutcomes(outcomes);
    ErroredPaths(FailureTexts(files, parse)) + EmbeddingErrors(ParsedFiles(files, parse), outcomes)
  }

  /** "partial" when more than a fifth of the files errored. */
  function FinalStatus(errored: nat, total: nat): string {
    if total > 0 && 5 * errored > total then "partial" else "completed"
  }

  /** The status is "partial" exactly when more than a fifth of the files errored. */
  lemma FinalStatusIff(errored: nat, total: nat)
    ensures FinalStatus(errored, total) == "partial" <==> total > 0 && errored as real / total as real > 0.2
    ensures FinalStatus(errored, total) != "partial" ==> FinalStatus(errored, total) == "completed"
  {
    assert "partial"[0] != "completed"[0];
    if total > 0 {
      assert errored as real / total as real > 0.2 <==> errored as real > 0.2 * total as real;
    }
  }

  /** A file is counted as errored exactly when it failed to parse or to embed, as long as
      no path has ": " in it. */
  lemma ErroredIff(files: seq<FileSnapshot>, outcomes: map<Path, FileOutcome>, path: Path)
    requires forall f <- files :: f.path in outcomes && f.path != "" && !Contains(f.path, ": ")
    ensures path in ErroredFiles(files, outcomes) <==>
            exists f :: f in files && f.path == path
                        && (outcomes[path].parse.Failed?
                            || (outcomes[path].parse.Parsed? && outcomes[path].vectors.None?))
  {
    hide ParsedFiles, FailureTexts, ErroredPath;
    var parse := ParseOutcomes(outcomes);
    FailuresAre(files, parse);
    ParsedAre(files, parse);
    forall f | f in files && parse[f.path].Failed?
      ensures ErroredPath(ParseErrorText(f.path, parse[f.path].cause)) == Some(f.path)
    {
      RecoveredPath(f.path, parse[f.path].cause);
    }
    if f :| f in files && f.path == path && outcomes[path].parse.Failed? {
      assert ParseErrorText(f.path, parse[f.path].cause) in FailureTexts(files, parse);
    }
    if f :| f in files && f.path == path && outcomes[path].parse.Parsed? && outcomes[path].vectors.None? {
      var pf := ParsedFile(f.path, parse[f.path].functions, parse[f.path].calls);
      assert pf in ParsedFiles(files, parse);
    }
  }

  lemma {:induction false} FailuresAre(files: seq<FileSnapshot>, outcomes: map<Path, ParseOutcome>)
    requires Covers(outcomes, files)
    ensures forall t :: t in FailureTexts(files, outcomes) <==>
              exists f :: f in files && outcomes[f.path].Failed? && t == ParseErrorText(f.path, outcomes[f.path].cause)
  {
    if files != [] {
      var front, last := files[..|files| - 1], files[|files| - 1];
      assert files == front + [last];
      FailuresAre(front, outcomes);
    }
  }

  lemma {:induction false} ParsedAre(files: seq<FileSnapshot>, outcomes: map<Path, ParseOutcome>)
    requires Covers(outcomes, files)
    ensures forall pf :: pf in ParsedFiles(files, outcomes) <==>
              exists f :: f in files && outcomes[f.path] == Parsed(pf.functions, pf.calls) && pf.path == f.path
  {
    if files != [] {
      var front, last := files[..|files| - 1], files[|files| - 1];
      assert files == front + [last];
      ParsedAre(front, outcomes);
    }
  }

  /** What an incremental run counts: the changed files and the deleted ones. */
  function TotalFiles(snapshot: map<Path, int>, files: seq<FileSnapshot>): nat {
    |Changed(snapshot, files)| + |snapshot.Keys - ModTimes(files).Keys|
  }

  class Indexer {
    const store: IndexStore
    var nextId: Id
    ghost var origin: map<(RepoId, Path), IndexedFile>

    constructor (store: IndexStore)
      ensures this.store == store && nextId == 0 && origin == map[]
    {
      this.store, nextId, origin := store, 0, map[];
    }

    ghost function State(): Index
      reads this, store
    {
      Index(store.Contents(), nextId, origin)
    }

    static method AppendRows(repo: RepoId, w: IndexedFile, first: Id, rows: seq<FunctionRow>, callerIds: map<string,
                             Id>)
      returns (rows': seq<FunctionRow>, callerIds': map<string, Id>)
      requires |w.vectors| == |w.functions| && '\0' !in w.path && forall fn <- w.functions :: fn.filePath == w.path
      requires EncodesCallers(callerIds, CallerIds(first, rows))
      ensures rows' == rows + FileRows(repo, w)
      ensures EncodesCallers(callerIds', CallerIds(first, rows'))
    {
      rows', callerIds' := rows, callerIds;
      for i := 0 to |w.functions|
        invariant rows' == rows + FileRows(repo, w)[..i]
        invariant EncodesCallers(callerIds', CallerIds(first, rows'))
      {
        var fn := w.functions[i];
        assert fn in w.functions;
        EncodesOneMore(callerIds', CallerIds(first, rows'), w.path, fn.name, first + |rows'|);
        callerIds' := callerIds'[FileScopedKey(w.path, fn.name) := first + |rows'|];
        ghost var before := rows';
        rows' := rows' + [FunctionRow(repo, fn, w.vectors[i])];
        assert rows'[..|rows'| - 1] == before;
      }
      assert FileRows(repo, w)[..|w.functions|] == FileRows(repo, w);
    }

    /** Embeds the parsed files one by one; a file that fails to embed is left out. */
    static method EmbedFiles(parsed: seq<ParsedFile>, outcomes: map<Path, FileOutcome>, repo: RepoId, first: Id)
      returns (rows: seq<FunctionRow>, callerIds: map<string, Id>, works: seq<IndexedFile>, erroredFiles: set<Path>)
      requires forall pf <- parsed :: '\0' !in pf.path && pf.path in outcomes && WellFormed(pf.path, outcomes[pf.path])
      requires forall pf <- parsed :: outcomes[pf.path].parse == Parsed(pf.functions, pf.calls)
      ensures works == Embedded(parsed, outcomes)
      ensures rows == Rows(repo, works)
      ensures EncodesCallers(callerIds, CallerIds(first, rows))
      ensures erroredFiles == EmbeddingErrors(parsed, outcomes)
      ensures forall w <- works :: '\0' !in w.path
    {
      rows, callerIds, works, erroredFiles := [], map[], [], {};
      for i := 0 to |parsed|
        invariant works == Embedded(parsed[..i], outcomes)
        invariant rows == Rows(repo, works)
        invariant EncodesCallers(callerIds, CallerIds(first, rows))
        invariant erroredFiles == EmbeddingErrors(parsed[..i], outcomes)
        invariant forall w <- works :: '\0' !in w.path
      {
        EmbeddingErrorsOneMore(parsed, i, outcomes);
        EmbeddedOneMore(parsed, i, outcomes);
        var pf := parsed[i];
        if outcomes[pf.path].vectors.None? {
          erroredFiles := erroredFiles + {pf.path};
          continue;
        }
        var w := IndexedFile(pf.path, pf.functions, outcomes[pf.path].vectors.value, pf.calls);
        rows, callerIds := AppendRows(repo, w, first, rows, callerIds);
        RowsOneMore(repo, works, w);
        works := works + [w];
      }
      assert parsed[..|parsed|] == parsed;
    }

    /** Parses and embeds the files, and draws the ids of their functions from first on. */
    static method GatherRecords(files: seq<FileSnapshot>, outcomes: map<Path, FileOutcome>, repo: RepoId, first: Id)
      returns (rows: seq<FunctionRow>, callerIds: map<string, Id>, works: seq<IndexedFile>, erroredFiles: set<Path>,
        cancelled: bool)
      requires WellFormedFiles(files, outcomes)
      ensures EncodesCallers(callerIds, CallerIds(first, rows))
      ensures rows == Rows(repo, works)
      ensures !cancelled ==> works == IndexedFiles(files, outcomes) && erroredFiles == ErroredFiles(files, outcomes)
      ensures forall w <- works :: '\0' !in w.path
    {
      var parsed, errors, parseErrored, launched := ParseFiles(files, ParseOutcomes(outcomes), 1);
      cancelled := launched < |files|;
      assert launched == |files| ==> files[..launched] == files;
      EmbeddedParsed(files[..launched], outcomes);
      forall pf | pf in parsed ensures '\0' !in pf.path && WellFormed(pf.path, outcomes[pf.path]) {
        var f :| f in files[..launched] && f.path == pf.path;
        assert f in files;
      }
      rows, callerIds, works, erroredFiles := EmbedFiles(parsed, outcomes, repo, first);
      erroredFiles := parseErrored + erroredFiles;
    }

    /** From the deletes of a run to its unresolved rows; the run itself began at ix. */
    method ProcessFiles(files: seq<FileSnapshot>, outcomes: map<Path, FileOutcome>, repo: RepoId, ghost ix: Index,
                        ghost run: Run)
      returns (ok: bool, erroredFiles: set<Path>, ghost ran: Event)
      requires WellFormedFiles(run.files, run.outcomes)
      requires run.repo == repo && run.outcomes == outcomes && files == Processed(ix.tables, run)
      requires State() == AfterDelete(ix, run)
      modifies this, store`functions, store`callEdges, store`unresolved
      ensures ran.run == run
      ensures 1 <= ran.stop <= 4 && (ok ==> ran.stop == 4)
      ensures Possible(ix, ran) && State() == After(ix, ran)
      ensures ok ==> erroredFiles == ErroredFiles(files, outcomes)
    {
      hide IndexedFiles, Rows, CallerIds, ErroredFiles, Doomed, DeleteFunctions, InsertFunctions, Edges,
           UnresolvedEdges, Origins, AllCalls;
      hide InsertAllowed, IsFunctionMap, WellFormedFiles, Processed, Possible, After;
      ran := Event(run, map[], 1);
      EarlyStages(ix, run);
      ProcessedWellFormed(ix.tables, run);
      var rows, callerIds, works, errored, cancelled := GatherRecords(files, outcomes, repo, nextId);
      erroredFiles := errored;
      var first := nextId;
      ghost var t := store.Contents();
      NothingToInsert(t.functions, first);
      ok := store.BulkInsertFunctions(cancelled, first, rows);
      if !ok {
        return;
      }
      if cancelled {
        var refused := store.GetFunctionMap(cancelled, repo);
        return false, erroredFiles, ran;
      }
      assert Plan(works, rows, CallerIds(first, rows)) == PlanOf(ix, run);
      nextId := first + |rows|;
      origin := Origins(origin, repo, works);
      assert store.Contents() == t.(functions := InsertFunctions(t.functions, first, rows));
      assert State() == AfterFunctions(ix, run);
      FunctionsStage(ix, run);
      ran := Event(run, map[], 2);
      var functionMap := store.GetFunctionMap(cancelled, repo);
      if functionMap.None? {
        return false, erroredFiles, ran;
      }
      var names := functionMap.value;
      EdgeStages(ix, run, names);
      var stored := StoreEdges(cancelled, repo, works, callerIds, names, ix, run);
      ok := stored == 4;
      ran := Event(run, names, stored);
    }

    /** The writes of ProcessFiles after the functions: the calls resolved, and stored.
        stage is the last of the run's stages reached. */
    method StoreEdges(cancelled: bool, repo: RepoId, works: seq<IndexedFile>, callerIds: map<string, Id>,
                      names: map<string, seq<Id>>,
                      ghost ix: Index, ghost run: Run)
      returns (stage: nat)
      requires run.repo == repo && works == PlanOf(ix, run).works && EncodesCallers(callerIds, PlanOf(ix, run).callers)
      requires forall w <- works :: '\0' !in w.path
      requires State() == AfterFunctions(ix, run)
      modifies this`nextId, store`callEdges, store`unresolved
      ensures 2 <= stage <= 4 && (stage == 4 ==> UnresolvedFit(ix, run, names))
      ensures State() == if stage == 2 then AfterFunctions(ix, run)
                         else if stage == 3 then AfterEdges(ix, run, names) else AfterUnresolved(ix, run, names)
    {
      hide PlanOf, AfterFunctions, Edges, UnresolvedEdges, AllCalls, InsertCallEdges, InsertUnresolved;
      var callEdges, unresolved := Resolve(repo, works, callerIds, PlanOf(ix, run).callers, names);
      var ok := store.BulkInsertCallEdges(cancelled, callEdges);
      if !ok {
        return 2;
      }
      assert State() == AfterEdges(ix, run, names);
      ok := store.BulkInsertUnresolvedEdges(cancelled, nextId, unresolved);
      if !ok {
        return 3;
      }
      assert forall row <- unresolved :: TextFits(row.calleeNameRaw);
      nextId := nextId + |unresolved|;
      stage := 4;
    }

    /** Two-phase name resolution: every stored function is known before any call is resolved. */
    static method Resolve(repo: RepoId, works: seq<IndexedFile>, callerIds: map<string, Id>,
                          ghost callers: map<(Path, string), Id>, names: map<string, seq<Id>>)
      returns (callEdges: seq<CallEdge>, unresolved: seq<UnresolvedEdge>)
      requires EncodesCallers(callerIds, callers)
      requires forall w <- works :: '\0' !in w.path
      ensures callEdges == Edges(repo, callers, names, AllCalls(works))
      ensures unresolved == UnresolvedEdges(repo, callers, names, AllCalls(works))
    {
      callEdges, unresolved := [], [];
      for i := 0 to |works|
        invariant callEdges == Edges(repo, callers, names, AllCalls(works[..i]))
        invariant unresolved == UnresolvedEdges(repo, callers, names, AllCalls(works[..i]))
      {
        AllCallsOneMore(works, i);
        var edges, rows := ResolveFile(repo, works[i], callerIds, callers, names, AllCalls(works[..i]));
        callEdges, unresolved := callEdges + edges, unresolved + rows;
      }
      assert works[..|works|] == works;
    }

    static method ResolveFile(repo: RepoId, w: IndexedFile, callerIds: map<string, Id>,
                              ghost callers: map<(Path, string), Id>, names: map<string, seq<Id>>,
                                ghost before: seq<FileCall>)
      returns (callEdges: seq<CallEdge>, unresolved: seq<UnresolvedEdge>)
      requires EncodesCallers(callerIds, callers) && '\0' !in w.path
      ensures Edges(repo, callers, names, before) + callEdges == Edges(repo, callers, names, before + FileCalls(w))
      ensures UnresolvedEdges(repo, callers, names, before) + unresolved ==
              UnresolvedEdges(repo, callers, names, before + FileCalls(w))
    {
      hide Edges, UnresolvedEdges, AllCalls;
      callEdges, unresolved := [], [];
      ghost var calls := before;
      assert before == before + FileCalls(w)[..0];
      for j := 0 to |w.calls|
        invariant calls == before + FileCalls(w)[..j]
        invariant Edges(repo, callers, names, before) + callEdges == Edges(repo, callers, names, calls)
        invariant UnresolvedEdges(repo, callers, names, before) + unresolved ==
                  UnresolvedEdges(repo, callers, names, calls)
      {
        var edge := w.calls[j];
        ghost var c := FileCall(w.path, edge);
        ResolveOneMore(repo, callers, names, calls, c);
        calls := calls + [c];
        var key := FileScopedKey(w.path, edge.caller);
        if key !in callerIds {
          continue;
        }
        var callerId := callerIds[key];
        var calleeIds := Candidates(names, edge.callee);
        if calleeIds == [] {
          unresolved := unresolved + [UnresolvedEdge(repo, callerId, edge.callee)];
        } else if |calleeIds| == 1 {
          callEdges := callEdges + [CallEdge(repo, callerId, calleeIds[0])];
        } else {
          callEdges := callEdges + [CallEdge(repo, callerId, calleeIds[0])];
          unresolved := unresolved + [UnresolvedEdge(repo, callerId, edge.callee + AMBIGUOUS)];
        }
      }
      assert FileCalls(w)[..|w.calls|] == FileCalls(w);
    }

    /** failTask. */
    method FailTask(task: TaskId)
      modifies store`taskStatus
      ensures store.taskStatus == old(store.taskStatus)
              || (task in old(store.taskStatus) && store.taskStatus == old(store.taskStatus)[task := "failed"])
    {
      var written := store.UpdateTaskStatus(task, "failed");
    }

    /** A full run but for its task row. scan is what the walk of the source tree
        finds, or None when it fails. */
    method FullIndex(repo: RepoId, scan: Option<seq<FileSnapshot>>, outcomes: map<Path, FileOutcome>)
      returns (ok: bool, errored: set<Path>, ghost ran: Event)
      requires scan.Some? ==> WellFormedFiles(scan.value, outcomes)
      modifies this, store`functions, store`callEdges, store`unresolved, store`snapshots
      ensures ran.run == Run(repo, true, if scan.Some? then scan.value else [], outcomes)
      ensures Possible(old(State()), ran) && State() == After(old(State()), ran)
      ensures ok <==> ran.stop == COMPLETE
      ensures ok ==> scan.Some? && errored == ErroredFiles(scan.value, outcomes)
    {
      hide Possible, After, ErroredFiles, Encode, DeleteFunctions, WellFormedFiles, RepoFunctions;
      ghost var ix := State();
      var found := if scan.Some? then scan.value else [];
      NoFiles(outcomes);
      ran := Event(Run(repo, true, found, outcomes), map[], 0);
      EarlyStages(ix, ran.run);
      errored := {};
      var read := *;
      if !read || repo !in store.repos {
        return false, errored, ran;
      }
      ok := store.DeleteFunctionsByRepo(repo);
      if !ok {
        return;
      }
      ran := ran.(stop := 1);
      if scan.None? {
        return false, errored, ran;
      }
      ok, errored, ran := ProcessFiles(found, outcomes, repo, ix, ran.run);
      if !ok {
        return;
      }
      var recreated := *;
      if !recreated {
        return false, errored, ran;
      }
      var encoded := EncodeFileSnapshots(found);
      ok := store.UpdateRepoIndexedFiles(repo, encoded);
      if ok {
        LastStage(ix, ran);
        ran := ran.(stop := COMPLETE);
      }
    }

    method RunFullIndex(task: TaskId, repo: RepoId, scan: Option<seq<FileSnapshot>>, outcomes: map<Path, FileOutcome>)
      returns (ok: bool, ghost ran: Event)
      requires scan.Some? ==> WellFormedFiles(scan.value, outcomes)
      modifies this, store
      ensures ran.run == Run(repo, true, if scan.Some? then scan.value else [], outcomes)
      ensures Possible(old(State()), ran) && State() == After(old(State()), ran)
      ensures ok ==> ran.stop == COMPLETE && scan.Some?
      ensures ok && task in old(store.taskStatus) ==>
                task in store.taskStatus && store.taskStatus[task] ==
                  FinalStatus(|ErroredFiles(scan.value, outcomes)|, |scan.value|)
    {
      hide Possible, After, ErroredFiles, WellFormedFiles;
      ghost var ix := State();
      ran := Event(Run(repo, true, if scan.Some? then scan.value else [], outcomes), map[], 0);
      NoFiles(outcomes);
      EarlyStages(ix, ran.run);
      ok := store.UpdateTaskStatus(task, "running");
      if !ok {
        return;
      }
      var errored;
      ok, errored, ran := FullIndex(repo, scan, outcomes);
      if !ok {
        FailTask(task);
        return;
      }
      ok := store.UpdateTaskStatus(task, FinalStatus(|errored|, |scan.value|));
    }

    /** An incremental run but for its task row. */
    method IncrementalIndex(repo: RepoId, scan: Option<seq<FileSnapshot>>, outcomes: map<Path, FileOutcome>)
      returns (ok: bool, errored: set<Path>, total: nat, ghost ran: Event)
      requires scan.Some? ==> WellFormedFiles(scan.value, outcomes)
      modifies this, store`functions, store`callEdges, store`unresolved, store`snapshots
      ensures ran.run == Run(repo, false, if scan.Some? then scan.value else [], outcomes)
      ensures Possible(old(State()), ran) && State() == After(old(State()), ran)
      ensures ok <==> ran.stop == COMPLETE
      ensures ok ==> scan.Some?
                     && errored == ErroredFiles(Changed(Snapshot(old(store.Contents()), repo), scan.value), outcomes)
                     && total == TotalFiles(Snapshot(old(store.Contents()), repo), scan.value)
    {
      hide Possible, After, ErroredFiles, Encode, DeleteFunctions, WellFormedFiles, FileFunctions, Outdated, Changed,
           ModTimes, Decode;
      ghost var ix := State();
      var currentFiles := if scan.Some? then scan.value else [];
      NoFiles(outcomes);
      ran := Event(Run(repo, false, currentFiles, outcomes), map[], 0);
      EarlyStages(ix, ran.run);
      errored, total := {}, 0;
      var read := *;
      if !read || repo !in store.repos || scan.None? {
        return false, errored, total, ran;
      }
      var entries := if repo in store.snapshots then store.snapshots[repo] else [];
      var snapshotMap := DecodeSnapshotEntries(entries);
      var changedFiles, deletedPaths, toDelete := Diff(snapshotMap, currentFiles);
      NothingToDelete(store.Contents(), repo);
      assert toDelete == [] ==> (set p | p in toDelete) == {};
      ok := store.DeleteFunctionsByFiles(repo, toDelete);
      if !ok {
        return;
      }
      ran := ran.(stop := 1);
      total := |changedFiles| + |deletedPaths|;
      ok, errored, ran := ProcessFiles(changedFiles, outcomes, repo, ix, ran.run);
      if !ok {
        return;
      }
      var encoded := EncodeFileSnapshots(currentFiles);
      ok := store.UpdateRepoIndexedFiles(repo, encoded);
      if ok {
        LastStage(ix, ran);
        ran := ran.(stop := COMPLETE);
      }
    }

    method RunIncrementalIndex(task: TaskId, repo: RepoId, scan: Option<seq<FileSnapshot>>, outcomes: map<Path,
                               FileOutcome>)
      returns (ok: bool, ghost ran: Event)
      requires scan.Some? ==> WellFormedFiles(scan.value, outcomes)
      modifies this, store
      ensures ran.run == Run(repo, false, if scan.Some? then scan.value else [], outcomes)
      ensures Possible(old(State()), ran) && State() == After(old(State()), ran)
      ensures ok ==> ran.stop == COMPLETE && scan.Some?
      ensures ok && task in old(store.taskStatus) ==>
                task in store.taskStatus
                && var snapshot := Snapshot(old(store.Contents()), repo);
                   store.taskStatus[task] ==
                     FinalStatus(|ErroredFiles(Changed(snapshot, scan.value), outcomes)|,
                       TotalFiles(snapshot, scan.value))
    {
      hide Possible, After, ErroredFiles, WellFormedFiles, TotalFiles, Changed, Snapshot;
      ghost var ix := State();
      ran := Event(Run(repo, false, if scan.Some? then scan.value else [], outcomes), map[], 0);
      NoFiles(outcomes);
      EarlyStages(ix, ran.run);
      ok := store.UpdateTaskStatus(task, "running");
      if !ok {
        return;
      }
      var errored, total;
      ok, errored, total, ran := IncrementalIndex(repo, scan, outcomes);
      if !ok {
        FailTask(task);
        return;
      }
      ok := store.UpdateTaskStatus(task, FinalStatus(|errored|, total));
    }

    static method CompareScan(snapshotMap: map<Path, int>, currentFiles: seq<FileSnapshot>)
      returns (changedFiles: seq<FileSnapshot>, currentMap: map<Path, int>)
      ensures changedFiles == Changed(snapshotMap, currentFiles) && currentMap == ModTimes(currentFiles)
    {
      hide Unchanged;
      changedFiles, currentMap := [], map[];
      for i := 0 to |currentFiles|
        invariant currentMap == ModTimes(currentFiles[..i])
        invariant changedFiles == Changed(snapshotMap, currentFiles[..i])
      {
        assert currentFiles[..i + 1][..i] == currentFiles[..i];
        var file := currentFiles[i];
        currentMap := currentMap[file.path := file.modTime];
        if !Unchanged(snapshotMap, file) {
          changedFiles := changedFiles + [file];
        }
      }
      assert currentFiles[..|currentFiles|] == currentFiles;
    }

    /** What differs between the snapshot and the scan. */
    static method Diff(snapshotMap: map<Path, int>, currentFiles: seq<FileSnapshot>)
      returns (changedFiles: seq<FileSnapshot>, deletedPaths: seq<Path>, toDelete: seq<Path>)
      ensures changedFiles == Changed(snapshotMap, currentFiles)
      ensures |changedFiles| + |deletedPaths| == TotalFiles(snapshotMap, currentFiles)
      ensures (set p | p in toDelete) == Outdated(snapshotMap, currentFiles)
    {
      hide Outdated, Changed, ModTimes;
      var currentMap;
      changedFiles, currentMap := CompareScan(snapshotMap, currentFiles);
      toDelete := [];
      deletedPaths := DeletedPaths(snapshotMap, currentMap);
      for i := 0 to |changedFiles|
        invariant toDelete == PathsOf(changedFiles[..i])
      {
        assert changedFiles[..i + 1][..i] == changedFiles[..i];
        toDelete := toDelete + [changedFiles[i].path];
      }
      assert changedFiles[..|changedFiles|] == changedFiles;
      OutdatedPaths(snapshotMap, currentFiles, deletedPaths);
      toDelete := toDelete + deletedPaths;
    }

    /** The snapshot's paths that the scan no longer finds, each once. */
    static method DeletedPaths(snapshot: map<Path, int>, current: map<Path, int>) returns (deleted: seq<Path>)
      ensures forall p :: p in deleted <==> p in snapshot && p !in current
      ensures |deleted| == |snapshot.Keys - current.Keys|
    {
      deleted := [];
      var rest := snapshot.Keys - current.Keys;
      while rest != {}
        invariant rest <= snapshot.Keys - current.Keys
        invariant forall p :: p in deleted <==> p in (snapshot.Keys - current.Keys) - rest
        invariant |deleted| + |rest| == |snapshot.Keys - current.Keys|
        decreases rest
      {
        var p :| p in rest;
        deleted, rest := deleted + [p], rest - {p};
      }
    }
  }

  lemma NoFiles(outcomes: map<Path, FileOutcome>)
    ensures WellFormedFiles([], outcomes)
  {
  }

  /** Before its functions are stored a run can always stop. */
  lemma EarlyStages(ix: Index, run: Run)
    requires WellFormedFiles(run.files, run.outcomes)
    ensures Possible(ix, Event(run, map[], 0)) && After(ix, Event(run, map[], 0)) == ix
    ensures Possible(ix, Event(run, map[], 1)) && After(ix, Event(run, map[], 1)) == AfterDelete(ix, run)
  {
  }

  lemma FunctionsStage(ix: Index, run: Run)
    requires WellFormedFiles(run.files, run.outcomes) && Storable(ix, run)
    ensures Possible(ix, Event(run, map[], 2)) && After(ix, Event(run, map[], 2)) == AfterFunctions(ix, run)
  {
    hide WellFormedFiles, Storable, AfterFunctions;
  }

  lemma EdgeStages(ix: Index, run: Run, names: map<string, seq<Id>>)
    requires WellFormedFiles(run.files, run.outcomes) && Storable(ix, run)
    requires IsFunctionMap(AfterFunctions(ix, run).tables, run.repo, names)
    ensures forall stop: nat | 2 <= stop <= 4 && (stop == 4 ==> UnresolvedFit(ix, run, names)) ::
            Possible(ix, Event(run, names, stop))
    ensures After(ix, Event(run, names, 2)) == AfterFunctions(ix, run)
    ensures After(ix, Event(run, names, 3)) == AfterEdges(ix, run, names)
    ensures After(ix, Event(run, names, 4)) == AfterUnresolved(ix, run, names)
  {
    hide WellFormedFiles, Storable, AfterFunctions, AfterEdges, AfterUnresolved, IsFunctionMap, UnresolvedFit;
  }

  /** The last stage adds the snapshot and nothing else. */
  lemma LastStage(ix: Index, e: Event)
    requires Possible(ix, e) && e.stop == 4
    ensures Possible(ix, e.(stop := COMPLETE))
    ensures After(ix, e.(stop := COMPLETE)) ==
            var before := After(ix, e);
            before.(tables := before.tables.(snapshots := before.tables.snapshots[e.run.repo := Encode(e.run.files)]))
  {
    hide AfterUnresolved, AfterFunctions, Storable, IsFunctionMap, WellFormedFiles;
  }

  function PathsOf(files: seq<FileSnapshot>): seq<Path> {
    if files == [] then [] else PathsOf(files[..|files| - 1]) + [files[|files| - 1].path]
  }

  lemma {:induction false} PathsOfMembers(files: seq<FileSnapshot>)
    ensures forall p :: p in PathsOf(files) <==> p in (set f | f in files :: f.path)
  {
    if files != [] {
      var front, last := files[..|files| - 1], files[|files| - 1];
      assert files == front + [last];
      PathsOfMembers(front);
    }
  }

  lemma OutdatedPaths(snapshot: map<Path, int>, files: seq<FileSnapshot>, deleted: seq<Path>)
    requires forall p :: p in deleted <==> p in snapshot && p !in ModTimes(files)
    ensures (set p | p in PathsOf(Changed(snapshot, files)) + deleted) == Outdated(snapshot, files)
  {
    hide ModTimes, Changed, PathsOf;
    PathsOfMembers(Changed(snapshot, files));
    forall p ensures p in PathsOf(Changed(snapshot, files)) + deleted <==> p in Outdated(snapshot, files) {
    }
  }

  lemma NothingToInsert(functions: map<Id, FunctionRow>, first: Id)
    ensures InsertFunctions(functions, first, []) == functions && InsertAllowed(functions, [])
  {
  }

  lemma NothingToDelete(t: Tables, repo: RepoId)
    ensures DeleteFunctions(t, FileFunctions(t, repo, {})) == t
  {
    assert FileFunctions(t, repo, {}) == {};
  }

  lemma ProcessedWellFormed(t: Tables, run: Run)
    requires WellFormedFiles(run.files, run.outcomes)
    ensures WellFormedFiles(Processed(t, run), run.outcomes)
  {
    if !run.full {
      ChangedAscending(Snapshot(t, run.repo), run.files);
    }
  }
}
