/** What every run keeps, wherever it stops: unique keys, foreign keys, edges
    inside one repo, and a raw call behind every stored edge. */
module IndexSoundness {
  import opened Text
  import opened Snapshots
  import opened IndexTables
  import opened Parsing
  import opened Vectors
  import opened IndexRuns

  /** The parse a stored function's file had when its functions were stored. */
  ghost predicate HasOrigin(ix: Index, row: FunctionRow) {
    && (row.repo, row.fn.filePath) in ix.origin
    && row in FileRows(row.repo, ix.origin[(row.repo, row.fn.filePath)])
  }

  /** An edge joins two stored functions of one repo, and the caller's file, as last
      parsed, calls the callee's name from the caller. */
  ghost predicate EdgeJustified(ix: Index, e: (Id, Id)) {
    var functions := ix.tables.functions;
    && e in ix.tables.callEdges
    && e.0 in functions && e.1 in functions
    && functions[e.0].repo == functions[e.1].repo == ix.tables.callEdges[e]
    && HasOrigin(ix, functions[e.0])
    && RawCall(functions[e.0].fn.name,
       functions[e.1].fn.name) in ix.origin[(functions[e.0].repo, functions[e.0].fn.filePath)].calls
  }

  ghost predicate NamesCall(raw: string, call: RawCall) {
    raw == call.callee || raw == call.callee + AMBIGUOUS
  }

  /** The same for an unresolved row. */
  ghost predicate UnresolvedJustified(ix: Index, u: UnresolvedEdge) {
    var functions := ix.tables.functions;
    && u.caller in functions && functions[u.caller].repo == u.repo
    && HasOrigin(ix, functions[u.caller])
    && exists call :: call in ix.origin[(u.repo, functions[u.caller].fn.filePath)].calls
                      && call.caller == functions[u.caller].fn.name && NamesCall(u.calleeNameRaw, call)
  }

  ghost predicate IdsDrawn(ix: Index) {
    && (forall id <- ix.tables.functions :: id < ix.nextId)
    && (forall u <- ix.tables.unresolved :: u < ix.nextId)
  }

  ghost predicate Sound(ix: Index) {
    && UniqueKeys(ix.tables.functions)
    && IdsDrawn(ix)
    && (forall id <- ix.tables.functions :: FunctionFits(ix.tables.functions[id].fn))
    && (forall id <- ix.tables.functions :: HasOrigin(ix, ix.tables.functions[id]))
    && (forall e <- ix.tables.callEdges :: EdgeJustified(ix, e))
    && (forall u <- ix.tables.unresolved :: UnresolvedJustified(ix, ix.tables.unresolved[u]))
  }

  // Characterisations of what a run computes.

  lemma {:induction false} IndexedFilesMembers(files: seq<FileSnapshot>, outcomes: map<Path, FileOutcome>)
    ensures forall w :: w in IndexedFiles(files, outcomes) <==>
                        exists f :: f in files && f.path in outcomes && Indexed(f.path, outcomes[f.path]) == Some(w)
  {
    if files != [] {
      var front, last := files[..|files| - 1], files[|files| - 1];
      assert files == front + [last];
      IndexedFilesMembers(front, outcomes);
    }
  }

  ghost predicate DistinctFiles(works: seq<IndexedFile>) {
    forall i, j | 0 <= i < j < |works| :: works[i].path != works[j].path
  }

  lemma {:induction false} IndexedFilesDistinct(files: seq<FileSnapshot>, outcomes: map<Path, FileOutcome>)
    requires Ascending(files)
    ensures DistinctFiles(IndexedFiles(files, outcomes))
  {
    hide StringLeq;
    if files != [] {
      var front, last := files[..|files| - 1], files[|files| - 1];
      assert forall f <- front :: f in files;
      IndexedFilesDistinct(front, outcomes);
      IndexedFilesMembers(front, outcomes);
      forall w | w in IndexedFiles(front, outcomes) ensures w.path != last.path {
        var f :| f in front && f.path in outcomes && Indexed(f.path, outcomes[f.path]) == Some(w);
        var i :| 0 <= i < |front| && front[i] == f;
        assert files[i] == f;
      }
    }
  }

  lemma {:induction false} RowsMembers(repo: RepoId, works: seq<IndexedFile>)
    ensures forall row :: row in Rows(repo, works) <==> exists w :: w in works && row in FileRows(repo, w)
  {
    if works != [] {
      var front, last := works[..|works| - 1], works[|works| - 1];
      assert works == front + [last];
      RowsMembers(repo, front);
    }
  }

  lemma {:induction false} CallsMembers(works: seq<IndexedFile>)
    ensures forall c :: c in AllCalls(works) <==> exists w :: w in works && w.path == c.path && c.call in w.calls
  {
    if works != [] {
      var front, last := works[..|works| - 1], works[|works| - 1];
      assert works == front + [last];
      CallsMembers(front);
      forall c ensures c in FileCalls(last) <==> last.path == c.path && c.call in last.calls {
        if last.path == c.path && c.call in last.calls {
          var i :| 0 <= i < |last.calls| && last.calls[i] == c.call;
          assert FileCalls(last)[i] == c;
        }
      }
    }
  }

  lemma {:induction false} OriginsMembers(origin: map<(RepoId, Path), IndexedFile>, repo: RepoId,
                                          works: seq<IndexedFile>)
    requires DistinctFiles(works)
    ensures forall w <- works ::
            (repo, w.path) in Origins(origin, repo, works) && Origins(origin, repo, works)[(repo, w.path)] == w
    ensures forall k: (RepoId, Path) | !(k.0 == repo && exists w :: w in works && w.path == k.1) ::
              (k in Origins(origin, repo, works) <==> k in origin)
              && (k in origin ==> Origins(origin, repo, works)[k] == origin[k])
  {
    if works != [] {
      var front, last := works[..|works| - 1], works[|works| - 1];
      assert works == front + [last];
      OriginsMembers(origin, repo, front);
      var before, after := Origins(origin, repo, front), Origins(origin, repo, works);
      assert after == before[(repo, last.path) := last];
      forall w | w in front ensures w.path != last.path {
        var i :| 0 <= i < |front| && front[i] == w;
        assert works[i] == w && works[|front|] == last;
      }
    }
  }

  /** The id stands for a row with the path and name of the key. */
  predicate Identifies(first: Id, rows: seq<FunctionRow>, k: (Path, string), id: Id) {
    && first <= id < first + |rows|
    && rows[id - first].fn.filePath == k.0 && rows[id - first].fn.name == k.1
  }

  /** The id recorded for a caller is that of a new row with its path and name. */
  lemma {:induction false} CallerIdsMembers(first: Id, rows: seq<FunctionRow>)
    ensures forall k <- CallerIds(first, rows) :: Identifies(first, rows, k, CallerIds(first, rows)[k])
    ensures forall row <- rows :: (row.fn.filePath, row.fn.name) in CallerIds(first, rows)
  {
    if rows != [] {
      var front, last := rows[..|rows| - 1], rows[|rows| - 1];
      assert rows == front + [last];
      CallerIdsMembers(first, front);
      var before, after := CallerIds(first, front), CallerIds(first, rows);
      assert after == before[(last.fn.filePath, last.fn.name) := first + |front|];
      assert Identifies(first, rows, (last.fn.filePath, last.fn.name), first + |front|);
      forall k, id: Id | Identifies(first, front, k, id) ensures Identifies(first, rows, k, id) {
        assert rows[id - first] == front[id - first];
      }
      hide Identifies;
      forall k | k in after ensures Identifies(first, rows, k, after[k]) {
        assert k == (last.fn.filePath, last.fn.name) || Identifies(first, front, k, before[k]);
      }
    }
  }

  lemma {:induction false} EdgesMembers(repo: RepoId, callers: map<(Path, string), Id>, names: map<string, seq<Id>>,
                                        calls: seq<FileCall>)
    ensures forall e :: e in Edges(repo, callers, names, calls) <==>
            exists c :: c in calls && EdgeOf(repo, callers, names, c) == [e]
    ensures forall u :: u in UnresolvedEdges(repo, callers, names, calls) <==>
            exists c :: c in calls && UnresolvedOf(repo, callers, names, c) == [u]
  {
    if calls != [] {
      var front, last := calls[..|calls| - 1], calls[|calls| - 1];
      assert calls == front + [last];
      EdgesMembers(repo, callers, names, front);
    }
  }

  // Preservation, stage by stage.

  lemma DeleteKeepsSound(ix: Index, run: Run)
    requires Sound(ix)
    ensures Sound(AfterDelete(ix, run))
  {
    var after := AfterDelete(ix, run);
    forall e | e in after.tables.callEdges ensures EdgeJustified(after, e) {
      assert EdgeJustified(ix, e);
    }
    forall u | u in after.tables.unresolved ensures UnresolvedJustified(after, after.tables.unresolved[u]) {
      assert UnresolvedJustified(ix, ix.tables.unresolved[u]);
    }
  }

  /** After the deletes of a run no function of a processed file is left. */
  lemma ProcessedFilesEmptied(ix: Index, run: Run, w: IndexedFile, id: Id)
    requires w in PlanOf(ix, run).works && id in AfterDelete(ix, run).tables.functions
    ensures !(ix.tables.functions[id].repo == run.repo && ix.tables.functions[id].fn.filePath == w.path)
  {
    IndexedFilesMembers(Processed(ix.tables, run), run.outcomes);
    var f :| f in Processed(ix.tables, run) && f.path in run.outcomes && Indexed(f.path, run.outcomes[f.path]) ==
      Some(w);
    assert w.path == f.path;
  }

  /** The files of a run: distinct, and each with its functions stamped and embedded. */
  lemma PlannedFiles(ix: Index, run: Run)
    requires WellFormedFiles(run.files, run.outcomes)
    ensures DistinctFiles(PlanOf(ix, run).works)
    ensures forall w <- PlanOf(ix, run).works :: |w.vectors| == |w.functions| && forall fn <- w.functions ::
            fn.filePath == w.path
    ensures forall row <- PlanOf(ix, run).rows :: row.repo == run.repo
    ensures forall row <- PlanOf(ix, run).rows :: exists w ::
            w in PlanOf(ix, run).works && w.path == row.fn.filePath && row in FileRows(run.repo, w)
  {
    var files, works := Processed(ix.tables, run), PlanOf(ix, run).works;
    if !run.full {
      ChangedAscending(Snapshot(ix.tables, run.repo), run.files);
    }
    IndexedFilesDistinct(files, run.outcomes);
    IndexedFilesMembers(files, run.outcomes);
    RowsMembers(run.repo, works);
    forall w | w in works ensures |w.vectors| == |w.functions| && forall fn <- w.functions :: fn.filePath == w.path {
      var f :| f in files && f.path in run.outcomes && Indexed(f.path, run.outcomes[f.path]) == Some(w);
      assert f in run.files && WellFormed(f.path, run.outcomes[f.path]);
    }
    forall row | row in PlanOf(ix, run).rows
      ensures row.repo == run.repo && exists w ::
              w in works && w.path == row.fn.filePath && row in FileRows(run.repo, w)
    {
      var w :| w in works && row in FileRows(run.repo, w);
      assert row.fn in w.functions;
    }
  }

  /** Storing the functions leaves the origin of every older row as it was and gives
      each new row its own file. */
  lemma NewOrigins(ix: Index, run: Run)
    requires WellFormedFiles(run.files, run.outcomes)
    requires forall id <- ix.tables.functions :: HasOrigin(ix, ix.tables.functions[id])
    ensures forall id <- AfterDelete(ix, run).tables.functions ::
              var k := (ix.tables.functions[id].repo, ix.tables.functions[id].fn.filePath);
              k in ix.origin && k in AfterFunctions(ix, run).origin && AfterFunctions(ix, run).origin[k] == ix.origin[k]
    ensures forall row <- PlanOf(ix, run).rows :: HasOrigin(AfterFunctions(ix, run), row)
    ensures forall w <- PlanOf(ix, run).works ::
              (run.repo, w.path) in AfterFunctions(ix, run).origin
                && AfterFunctions(ix, run).origin[(run.repo, w.path)] == w
  {
    var works := PlanOf(ix, run).works;
    PlannedFiles(ix, run);
    OriginsMembers(ix.origin, run.repo, works);
    forall id | id in AfterDelete(ix, run).tables.functions
      ensures var k := (ix.tables.functions[id].repo, ix.tables.functions[id].fn.filePath);
              k in ix.origin && k in AfterFunctions(ix, run).origin && AfterFunctions(ix, run).origin[k] == ix.origin[k]
    {
      forall w | w in works
        ensures !(ix.tables.functions[id].repo == run.repo && ix.tables.functions[id].fn.filePath == w.path)
      {
        ProcessedFilesEmptied(ix, run, w, id);
      }
      assert HasOrigin(ix, ix.tables.functions[id]);
    }
  }

  /** Nothing stored before is touched by storing the functions of a run. */
  lemma FunctionsKeepOlder(ix: Index, run: Run)
    requires Sound(ix) && WellFormedFiles(run.files, run.outcomes)
    ensures forall id <- AfterDelete(ix, run).tables.functions ::
              && id < ix.nextId
              && id in AfterFunctions(ix, run).tables.functions
              && AfterFunctions(ix, run).tables.functions[id] == ix.tables.functions[id]
              && HasOrigin(AfterFunctions(ix, run), ix.tables.functions[id])
    ensures forall e <- AfterFunctions(ix, run).tables.callEdges :: EdgeJustified(AfterFunctions(ix, run), e)
    ensures forall u <- AfterFunctions(ix, run).tables.unresolved ::
              UnresolvedJustified(AfterFunctions(ix, run), AfterFunctions(ix, run).tables.unresolved[u])
  {
    hide PlanOf, Doomed, Origins, Rows;
    var before, after := AfterDelete(ix, run), AfterFunctions(ix, run);
    NewOrigins(ix, run);
    forall id | id in before.tables.functions
      ensures id < ix.nextId && id in after.tables.functions && after.tables.functions[id] == ix.tables.functions[id]
              && HasOrigin(after, ix.tables.functions[id])
    {
      assert HasOrigin(ix, ix.tables.functions[id]);
    }
    forall e | e in after.tables.callEdges ensures EdgeJustified(after, e) {
      assert EdgeJustified(ix, e) && e.0 in before.tables.functions && e.1 in before.tables.functions;
    }
    forall u | u in after.tables.unresolved ensures UnresolvedJustified(after, after.tables.unresolved[u]) {
      assert UnresolvedJustified(ix, ix.tables.unresolved[u]);
      assert ix.tables.unresolved[u].caller in before.tables.functions;
    }
  }

  /** The later stages leave functions and origins as they are, and the last two the edges. */
  lemma StagesKeepFunctions(ix: Index, e: Event)
    requires e.stop >= 2
    ensures After(ix, e).tables.functions == AfterFunctions(ix, e.run).tables.functions
    ensures After(ix, e).origin == AfterFunctions(ix, e.run).origin
    ensures e.stop >= 3 ==> After(ix, e).tables.callEdges == AfterEdges(ix, e.run, e.names).tables.callEdges
  {
    hide PlanOf, AfterFunctions, InsertCallEdges, InsertUnresolved, Edges, UnresolvedEdges, AllCalls, Encode;
  }

  /** Every stored function after the write is an older one or the new row of its id. */
  lemma StoredFunctions(ix: Index, run: Run, id: Id)
    requires id in AfterFunctions(ix, run).tables.functions
    ensures var rows, row := PlanOf(ix, run).rows, AfterFunctions(ix, run).tables.functions[id];
            if ix.nextId <= id < ix.nextId + |rows| then row == rows[id - ix.nextId]
            else id in AfterDelete(ix, run).tables.functions && row == ix.tables.functions[id]
  {
  }

  lemma FunctionsKeepUnique(ix: Index, run: Run)
    requires Sound(ix) && WellFormedFiles(run.files, run.outcomes) && Storable(ix, run)
    ensures UniqueKeys(AfterFunctions(ix, run).tables.functions)
  {
    hide PlanOf, Doomed, Origins, Rows, AfterFunctions, HasOrigin;
    var functions, rows := AfterFunctions(ix, run).tables.functions, PlanOf(ix, run).rows;
    forall a, b | a in functions && b in functions && UniqueKey(functions[a]) == UniqueKey(functions[b])
      ensures a == b
    {
      StoredFunctions(ix, run, a);
      StoredFunctions(ix, run, b);
    }
  }

  lemma StorableFits(ix: Index, run: Run)
    requires Storable(ix, run)
    ensures forall i | 0 <= i < |PlanOf(ix, run).rows| :: FunctionFits(PlanOf(ix, run).rows[i].fn)
  {
    hide PlanOf, FunctionFits, Fits;
  }

  lemma FunctionsKeepSound(ix: Index, run: Run)
    requires Sound(ix) && WellFormedFiles(run.files, run.outcomes) && Storable(ix, run)
    ensures Sound(AfterFunctions(ix, run))
  {
    hide PlanOf, Doomed, Origins, Rows, EdgeJustified, UnresolvedJustified, UniqueKeys, Storable;
    var functions, rows := AfterFunctions(ix, run).tables.functions, PlanOf(ix, run).rows;
    FunctionsKeepOlder(ix, run);
    FunctionsKeepUnique(ix, run);
    NewOrigins(ix, run);
    StorableFits(ix, run);
    forall id | id in functions
      ensures id < ix.nextId + |rows| && FunctionFits(functions[id].fn)
      ensures HasOrigin(AfterFunctions(ix, run), functions[id])
    {
      StoredFunctions(ix, run, id);
      if ix.nextId <= id < ix.nextId + |rows| {
        assert functions[id] in rows;
      }
    }
  }

  /** The caller of a resolved call is the new row of that name in the calling file. */
  lemma ResolvedCaller(ix: Index, run: Run, c: FileCall)
    requires Sound(ix) && WellFormedFiles(run.files, run.outcomes)
    requires c in AllCalls(PlanOf(ix, run).works) && (c.path, c.call.caller) in PlanOf(ix, run).callers
    ensures var callerId, after := PlanOf(ix, run).callers[(c.path, c.call.caller)], AfterFunctions(ix, run);
            && callerId in after.tables.functions
            && after.tables.functions[callerId].repo == run.repo
            && after.tables.functions[callerId].fn.filePath == c.path
            && after.tables.functions[callerId].fn.name == c.call.caller
            && HasOrigin(after, after.tables.functions[callerId])
            && (run.repo, c.path) in after.origin && c.call in after.origin[(run.repo, c.path)].calls
  {
    hide Rows, CallerIds, AllCalls, IndexedFiles, Processed, AfterDelete, Origins, WellFormedFiles, Sound;
    var p := PlanOf(ix, run);
    var callerId := p.callers[(c.path, c.call.caller)];
    CallerIdsMembers(ix.nextId, p.rows);
    assert p.rows[callerId - ix.nextId] in p.rows;
    PlannedFiles(ix, run);
    CallsMembers(p.works);
    assert Sound(ix) ==> forall id <- ix.tables.functions ::
           HasOrigin(ix, ix.tables.functions[id]) by { SoundOrigins(ix); }
    NewOrigins(ix, run);
  }

  lemma SoundOrigins(ix: Index)
    ensures Sound(ix) ==> forall id <- ix.tables.functions :: HasOrigin(ix, ix.tables.functions[id])
  {
  }

  /** Its callees are the stored functions of the called name in the repo. */
  lemma ResolvedCallee(t: Tables, repo: RepoId, names: map<string, seq<Id>>, name: string, callee: Id)
    requires IsFunctionMap(t, repo, names) && callee in Candidates(names, name)
    ensures callee in t.functions && t.functions[callee].repo == repo && t.functions[callee].fn.name == name
  {
    var i :| 0 <= i < |names[name]| && names[name][i] == callee;
  }

  lemma EdgesKeepSound(ix: Index, run: Run, names: map<string, seq<Id>>)
    requires Sound(ix) && WellFormedFiles(run.files, run.outcomes) && Storable(ix, run)
    requires IsFunctionMap(AfterFunctions(ix, run).tables, run.repo, names)
    ensures Sound(AfterEdges(ix, run, names))
  {
    hide PlanOf, AfterFunctions, Edges, InsertCallEdges, AllCalls, IsFunctionMap, Storable, WellFormedFiles,
         UnresolvedJustified,
         UniqueKeys, FunctionFits;
    var before, after, p := AfterFunctions(ix, run), AfterEdges(ix, run, names), PlanOf(ix, run);
    FunctionsKeepSound(ix, run);
    var edges := Edges(run.repo, p.callers, names, AllCalls(p.works));
    InsertedCallEdges(before.tables.callEdges, edges);
    EdgesMembers(run.repo, p.callers, names, AllCalls(p.works));
    forall e | e in after.tables.callEdges ensures EdgeJustified(after, e) {
      if e in before.tables.callEdges {
        assert EdgeJustified(before, e);
      } else {
        var i :| 0 <= i < |edges| && edges[i] == CallEdge(after.tables.callEdges[e], e.0, e.1);
        assert edges[i] in edges;
        var c :| c in AllCalls(p.works) && EdgeOf(run.repo, p.callers, names, c) == [edges[i]];
        ResolvedCaller(ix, run, c);
        ResolvedCallee(before.tables, run.repo, names, c.call.callee, e.1);
        assert c.call == RawCall(c.call.caller, c.call.callee);
      }
    }
    UnresolvedCarryOver(before, after);
  }

  lemma UnresolvedCarryOver(before: Index, after: Index)
    requires forall u <- before.tables.unresolved :: UnresolvedJustified(before, before.tables.unresolved[u])
    requires after.origin == before.origin && after.tables.functions == before.tables.functions
    requires after.tables.unresolved == before.tables.unresolved
    ensures forall u <- after.tables.unresolved :: UnresolvedJustified(after, after.tables.unresolved[u])
  {
  }

  lemma NewUnresolvedJustified(ix: Index, run: Run, names: map<string, seq<Id>>, row: UnresolvedEdge)
    requires Sound(ix) && WellFormedFiles(run.files, run.outcomes)
    requires row in UnresolvedEdges(run.repo, PlanOf(ix, run).callers, names, AllCalls(PlanOf(ix, run).works))
    ensures UnresolvedJustified(AfterFunctions(ix, run), row)
  {
    hide PlanOf, UnresolvedEdges, AllCalls, AfterFunctions, WellFormedFiles, Sound;
    var p := PlanOf(ix, run);
    EdgesMembers(run.repo, p.callers, names, AllCalls(p.works));
    var c :| c in AllCalls(p.works) && UnresolvedOf(run.repo, p.callers, names, c) == [row];
    ResolvedCaller(ix, run, c);
    assert NamesCall(row.calleeNameRaw, c.call);
  }

  lemma JustifiedCarryOver(before: Index, after: Index, u: UnresolvedEdge)
    requires UnresolvedJustified(before, u)
    requires after.origin == before.origin && after.tables.functions == before.tables.functions
    ensures UnresolvedJustified(after, u)
  {
  }

  lemma UnresolvedKeepSound(ix: Index, run: Run, names: map<string, seq<Id>>)
    requires Sound(ix) && WellFormedFiles(run.files, run.outcomes) && Storable(ix, run)
    requires IsFunctionMap(AfterFunctions(ix, run).tables, run.repo, names)
    ensures Sound(AfterUnresolved(ix, run, names))
  {
    hide PlanOf, UnresolvedEdges, AllCalls, IsFunctionMap, Storable, WellFormedFiles, AfterFunctions, InsertCallEdges,
         Edges, UnresolvedJustified;
    var before, after, p := AfterEdges(ix, run, names), AfterUnresolved(ix, run, names), PlanOf(ix, run);
    EdgesKeepSound(ix, run, names);
    var edges := UnresolvedEdges(run.repo, p.callers, names, AllCalls(p.works));
    forall u | u in after.tables.unresolved
      ensures UnresolvedJustified(after, after.tables.unresolved[u]) && u < after.nextId
    {
      if before.nextId <= u < before.nextId + |edges| {
        assert edges[u - before.nextId] in edges;
        NewUnresolvedJustified(ix, run, names, edges[u - before.nextId]);
        JustifiedCarryOver(AfterFunctions(ix, run), after, edges[u - before.nextId]);
      } else {
        assert UnresolvedJustified(before, before.tables.unresolved[u]);
        JustifiedCarryOver(before, after, before.tables.unresolved[u]);
      }
    }
    forall e | e in after.tables.callEdges ensures EdgeJustified(after, e) {
      assert EdgeJustified(before, e);
    }
  }

  /** One run, stopped anywhere, keeps the index sound. */
  lemma RunKeepsSound(ix: Index, e: Event)
    requires Sound(ix) && Possible(ix, e)
    ensures Sound(After(ix, e))
  {
    hide AfterDelete, AfterFunctions, AfterEdges, AfterUnresolved, IsFunctionMap, Storable, WellFormedFiles;
    if e.stop == 0 {
    } else if e.stop == 1 {
      DeleteKeepsSound(ix, e.run);
    } else if e.stop == 2 {
      FunctionsKeepSound(ix, e.run);
    } else if e.stop == 3 {
      EdgesKeepSound(ix, e.run, e.names);
    } else {
      UnresolvedKeepSound(ix, e.run, e.names);
      SnapshotKeepsSound(AfterUnresolved(ix, e.run, e.names), AfterSnapshot(ix, e.run, e.names));
    }
  }

  lemma SnapshotKeepsSound(before: Index, after: Index)
    requires Sound(before)
    requires after == before.(tables := before.tables.(snapshots := after.tables.snapshots))
    ensures Sound(after)
  {
    forall e | e in after.tables.callEdges ensures EdgeJustified(after, e) {
      assert EdgeJustified(before, e);
    }
    UnresolvedCarryOver(before, after);
  }

  /** The foreign keys of the schema never reject an edge of a run. */
  lemma EdgesNeverDangle(ix: Index, run: Run, names: map<string, seq<Id>>)
    requires Sound(ix) && WellFormedFiles(run.files, run.outcomes) && Storable(ix, run)
    requires IsFunctionMap(AfterFunctions(ix, run).tables, run.repo, names)
    ensures var p, functions := PlanOf(ix, run), AfterFunctions(ix, run).tables.functions;
            && (forall e <- Edges(run.repo, p.callers, names, AllCalls(p.works)) ::
               e.caller in functions && e.callee in functions)
            && (forall u <- UnresolvedEdges(run.repo, p.callers, names, AllCalls(p.works)) :: u.caller in functions)
  {
    hide PlanOf, UnresolvedEdges, AllCalls, IsFunctionMap, Storable, WellFormedFiles, AfterFunctions, Edges;
    var p, functions := PlanOf(ix, run), AfterFunctions(ix, run).tables.functions;
    EdgesMembers(run.repo, p.callers, names, AllCalls(p.works));
    forall e | e in Edges(run.repo, p.callers, names, AllCalls(p.works))
      ensures e.caller in functions && e.callee in functions
    {
      var c :| c in AllCalls(p.works) && EdgeOf(run.repo, p.callers, names, c) == [e];
      ResolvedCaller(ix, run, c);
      ResolvedCallee(AfterFunctions(ix, run).tables, run.repo, names, c.call.callee, e.callee);
    }
    forall u | u in UnresolvedEdges(run.repo, p.callers, names, AllCalls(p.works)) ensures u.caller in functions {
      var c :| c in AllCalls(p.works) && UnresolvedOf(run.repo, p.callers, names, c) == [u];
      ResolvedCaller(ix, run, c);
    }
  }

  // Whole histories.

  /** The index after a history of runs, on any repos, each stopped anywhere. */
  function Exec(history: seq<Event>): Index {
    if history == [] then EMPTY_INDEX
    else After(Exec(history[..|history| - 1]), history[|history| - 1])
  }

  ghost predicate PossibleHistory(history: seq<Event>) {
    history != [] ==>
      && PossibleHistory(history[..|history| - 1])
      && Possible(Exec(history[..|history| - 1]), history[|history| - 1])
  }

  lemma {:induction false} SoundAlways(history: seq<Event>)
    requires PossibleHistory(history)
    ensures Sound(Exec(history))
  {
    if history != [] {
      SoundAlways(history[..|history| - 1]);
      RunKeepsSound(Exec(history[..|history| - 1]), history[|history| - 1]);
    }
  }

  /** The file of the last run that stored functions for the path, read off the history. */
  function LastStored(history: seq<Event>, repo: RepoId, path: Path): Option<IndexedFile> {
    if history == [] then None
    else
      var front, e := history[..|history| - 1], history[|history| - 1];
      if e.stop >= 2 && e.run.repo == repo && StoredFor(PlanOf(Exec(front), e.run).works, path).Some?
      then StoredFor(PlanOf(Exec(front), e.run).works, path)
      else LastStored(front, repo, path)
  }

  function StoredFor(works: seq<IndexedFile>, path: Path): Option<IndexedFile> {
    if works == [] then None
    else if works[|works| - 1].path == path then Some(works[|works| - 1])
    else StoredFor(works[..|works| - 1], path)
  }

  lemma {:induction false} OriginsAreLast(origin: map<(RepoId, Path), IndexedFile>, repo: RepoId,
                                          works: seq<IndexedFile>, path: Path)
    ensures StoredFor(works, path).Some? ==>
              (repo, path) in Origins(origin, repo, works) && Origins(origin, repo, works)[(repo, path)] ==
                StoredFor(works, path).value
    ensures StoredFor(works, path).None? ==>
              ((repo, path) in Origins(origin, repo, works) <==> (repo, path) in origin)
              && ((repo, path) in origin ==> Origins(origin, repo, works)[(repo, path)] == origin[(repo, path)])
    ensures forall k: (RepoId, Path) | k.0 != repo ::
            (k in Origins(origin, repo, works) <==> k in origin)
              && (k in origin ==> Origins(origin, repo, works)[k] == origin[k])
  {
    if works != [] {
      OriginsAreLast(origin, repo, works[..|works| - 1], path);
    }
  }

  lemma {:induction false} OriginIsLastStored(history: seq<Event>, repo: RepoId, path: Path)
    ensures (repo, path) in Exec(history).origin <==> LastStored(history, repo, path).Some?
    ensures (repo, path) in Exec(history).origin ==>
            LastStored(history, repo, path) == Some(Exec(history).origin[(repo, path)])
  {
    hide PlanOf, Doomed, DeleteFunctions, InsertFunctions, InsertCallEdges, InsertUnresolved, Edges, UnresolvedEdges,
         Origins;
    if history != [] {
      var front, e := history[..|history| - 1], history[|history| - 1];
      OriginIsLastStored(front, repo, path);
      OriginsAreLast(Exec(front).origin, e.run.repo, PlanOf(Exec(front), e.run).works, path);
    }
  }

  /** In every reachable state, every call edge joins two stored functions of one
      repo, and the file the caller was last stored from calls the callee's name
      inside the caller. */
  lemma EveryEdgeJustified(history: seq<Event>, caller: Id, callee: Id)
    requires PossibleHistory(history) && (caller, callee) in Exec(history).tables.callEdges
    ensures var functions := Exec(history).tables.functions;
            && caller in functions && callee in functions
            && functions[caller].repo == functions[callee].repo == Exec(history).tables.callEdges[(caller, callee)]
            && var file := LastStored(history, functions[caller].repo, functions[caller].fn.filePath);
               && file.Some?
               && functions[caller].fn in file.value.functions
               && RawCall(functions[caller].fn.name, functions[callee].fn.name) in file.value.calls
  {
    hide LastStored;
    SoundAlways(history);
    var ix := Exec(history);
    assert EdgeJustified(ix, (caller, callee));
    OriginIsLastStored(history, ix.tables.functions[caller].repo, ix.tables.functions[caller].fn.filePath);
  }

  /** In every reachable state the two ON DELETE rules have left nothing dangling. */
  lemma ForeignKeysAlways(history: seq<Event>)
    requires PossibleHistory(history)
    ensures ForeignKeys(Exec(history).tables) && UniqueKeys(Exec(history).tables.functions)
  {
    SoundAlways(history);
    var ix := Exec(history);
    forall e | e in ix.tables.callEdges ensures e.0 in ix.tables.functions && e.1 in ix.tables.functions {
      assert EdgeJustified(ix, e);
    }
    forall u | u in ix.tables.unresolved ensures ix.tables.unresolved[u].caller in ix.tables.functions {
      assert UnresolvedJustified(ix, ix.tables.unresolved[u]);
    }
  }
}
