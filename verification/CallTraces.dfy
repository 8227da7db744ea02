/** Conservation of calls: what each raw call leaves in the tables. */
module CallTraces {
  import opened Sorting
  import opened Snapshots
  import opened IndexTables
  import opened IndexRuns
  import opened IndexSoundness
  import opened IndexAgreement
  import opened EdgeAgreement

  /** How many of the calls have a known caller and a number of candidates that counts. */
  function CountCalls(callers: map<(Path, string), Id>, names: map<string, seq<Id>>, calls: seq<FileCall>,
                      counts: nat -> bool): nat {
    if calls == [] then 0
    else
      var c := calls[|calls| - 1];
      CountCalls(callers, names, calls[..|calls| - 1], counts)
      + if (c.path, c.call.caller) in callers && counts(|Candidates(names, c.call.callee)|) then 1 else 0
  }

  /** Each call with a known caller leaves an unresolved row unless its name has
      exactly one candidate, and an edge unless it has none: as many of each as there
      are calls, repeated calls counted again. */
  lemma {:induction false} CallsConserved(repo: RepoId, callers: map<(Path, string), Id>, names: map<string, seq<Id>>,
                                          calls: seq<FileCall>)
    ensures |Edges(repo, callers, names, calls)| == CountCalls(callers, names, calls, n => n >= 1)
    ensures |UnresolvedEdges(repo, callers, names, calls)| == CountCalls(callers, names, calls, n => n != 1)
    ensures |Edges(repo, callers, names, calls)| + |UnresolvedEdges(repo, callers, names, calls)| ==
            CountCalls(callers, names, calls, n => true) + CountCalls(callers, names, calls, n => n >= 2)
  {
    if calls != [] {
      CallsConserved(repo, callers, names, calls[..|calls| - 1]);
    }
  }

  /** The stored functions of a repo with the name. */
  function Named(t: Tables, repo: RepoId, name: string): set<Id> {
    set id | id in t.functions && t.functions[id].repo == repo && t.functions[id].fn.name == name
  }

  lemma CandidatesAreNamed(t: Tables, repo: RepoId, names: map<string, seq<Id>>, name: string)
    requires IsFunctionMap(t, repo, names)
    ensures forall id: Id :: id in Candidates(names, name) <==> id in Named(t, repo, name)
    ensures |Candidates(names, name)| == 1 <==> exists id: Id :: Named(t, repo, name) == {id}
  {
    var ids := Candidates(names, name);
    forall id: Id ensures id in ids <==> id in Named(t, repo, name) {
      if id in Named(t, repo, name) {
        assert id in RepoFunctions(t, repo);
      }
    }
    if |ids| == 1 {
      assert Named(t, repo, name) == {ids[0]};
    }
    if |ids| >= 2 {
      assert ids[0] != ids[1] && ids[0] in ids && ids[1] in ids;
    }
  }

  ghost predicate HasUnresolved(t: Tables, row: UnresolvedEdge) {
    exists u: Id :: u in t.unresolved && t.unresolved[u] == row
  }

  lemma InsertedUnresolved(t: Tables, unresolved: map<Id, UnresolvedEdge>, first: Id, edges: seq<UnresolvedEdge>,
                           row: UnresolvedEdge)
    requires t.unresolved == InsertUnresolved(unresolved, first, edges) && row in edges
    ensures HasUnresolved(t, row)
  {
    var i :| 0 <= i < |edges| && edges[i] == row;
    var u: Id := first + i;
    assert u in t.unresolved && t.unresolved[u] == edges[u - first];
  }

  lemma InsertedCount(unresolved: map<Id, UnresolvedEdge>, first: Id, edges: seq<UnresolvedEdge>)
    requires forall u <- unresolved :: u < first
    ensures |InsertUnresolved(unresolved, first, edges)| == |unresolved| + |edges|
  {
    var after, ids := InsertUnresolved(unresolved, first, edges), Ids(first, |edges|);
    assert after.Keys == unresolved.Keys + ids && unresolved.Keys !! ids;
    CountIds(first, |edges|);
    assert |after| == |after.Keys| && |unresolved| == |unresolved.Keys|;
  }

  lemma {:induction false} CountIds(first: Id, n: nat)
    ensures |Ids(first, n)| == n
  {
    if n > 0 {
      CountIds(first, n - 1);
    }
  }

  /** A call of a processed file with a known caller leaves its traces by the number of
      functions with the called name: none, an unresolved row; one, an edge to it; more,
      an edge to one of them and an ambiguous row. */
  lemma EveryCallLeavesTraces(ix: Index, e: Event, c: FileCall)
    requires Sound(ix) && Possible(ix, e) && e.stop >= 4
    requires c in AllCalls(PlanOf(ix, e.run).works) && (c.path, c.call.caller) in PlanOf(ix, e.run).callers
    ensures var repo, caller, t := e.run.repo, PlanOf(ix, e.run).callers[(c.path, c.call.caller)], After(ix, e).tables;
            var named := Named(t, repo, c.call.callee);
            && (named == {} ==> HasUnresolved(t, UnresolvedEdge(repo, caller, c.call.callee)))
            && (forall callee: Id :: named == {callee} ==> (caller, callee) in t.callEdges)
            && ((exists x: Id, y: Id :: x in named && y in named && x != y) ==>
                  && HasUnresolved(t, UnresolvedEdge(repo, caller, c.call.callee + AMBIGUOUS))
                  && exists callee: Id :: callee in named && (caller, callee) in t.callEdges)
  {
    hide PlanOf, AllCalls, AfterFunctions, InsertCallEdges, InsertUnresolved, Edges, UnresolvedEdges, WellFormedFiles,
         Sound, IsFunctionMap, Storable, AfterDelete;
    var repo, p, t := e.run.repo, PlanOf(ix, e.run), After(ix, e).tables;
    var calls := AllCalls(p.works);
    var ids := Candidates(e.names, c.call.callee);
    StagesKeepFunctions(ix, e);
    SameNamed(AfterFunctions(ix, e.run).tables, t, repo, c.call.callee);
    CandidatesAreNamed(AfterFunctions(ix, e.run).tables, repo, e.names, c.call.callee);
    EdgesMembers(repo, p.callers, e.names, calls);
    var first := UnresolvedStage(ix, e);
    forall row | row in UnresolvedEdges(repo, p.callers, e.names, calls) ensures HasUnresolved(t, row) {
      InsertedUnresolved(t, AfterDelete(ix, e.run).tables.unresolved, first,
        UnresolvedEdges(repo, p.callers, e.names, calls), row);
    }
    if ids != [] {
      var edge := CallEdge(repo, p.callers[(c.path, c.call.caller)], ids[0]);
      assert EdgeOf(repo, p.callers, e.names, c) == [edge];
      InsertedEdge(AfterFunctions(ix, e.run).tables.callEdges, Edges(repo, p.callers, e.names, calls), edge);
      assert ids[0] in ids;
    }
    if |ids| != 1 {
      assert |UnresolvedOf(repo, p.callers, e.names, c)| == 1;
      assert UnresolvedOf(repo, p.callers, e.names, c) == [UnresolvedOf(repo, p.callers, e.names, c)[0]];
    }
  }

  lemma SameNamed(a: Tables, b: Tables, repo: RepoId, name: string)
    requires a.functions == b.functions
    ensures Named(a, repo, name) == Named(b, repo, name)
  {
  }

  // Row by row.

  function RowIds(unresolved: map<Id, UnresolvedEdge>, row: UnresolvedEdge): set<Id> {
    set u | u in unresolved && unresolved[u] == row
  }

  /** How often the row stands in the table. */
  function CountRows(unresolved: map<Id, UnresolvedEdge>, row: UnresolvedEdge): nat {
    |RowIds(unresolved, row)|
  }

  lemma CountOneMore(unresolved: map<Id, UnresolvedEdge>, u: Id, added: UnresolvedEdge, row: UnresolvedEdge)
    requires u !in unresolved
    ensures CountRows(unresolved[u := added], row) == CountRows(unresolved, row) + if added == row then 1 else 0
  {
    var more := unresolved[u := added];
    var before, after := RowIds(unresolved, row), RowIds(more, row);
    forall v: Id ensures v in after <==> v in before || (v == u && added == row) {
    }
    assert u !in before;
    hide RowIds;
    if added == row {
      assert after == before + {u};
    } else {
      assert after == before;
    }
  }

  lemma InsertOneMore(unresolved: map<Id, UnresolvedEdge>, first: Id, edges: seq<UnresolvedEdge>)
    requires edges != []
    ensures InsertUnresolved(unresolved, first, edges) ==
            InsertUnresolved(unresolved, first, edges[..|edges| - 1])[first + |edges| - 1 := edges[|edges| - 1]]
  {
  }

  lemma {:induction false} InsertedRows(unresolved: map<Id, UnresolvedEdge>, first: Id, edges: seq<UnresolvedEdge>,
                                        row: UnresolvedEdge)
    requires forall u <- unresolved :: u < first
    ensures CountRows(InsertUnresolved(unresolved, first, edges), row) ==
            CountRows(unresolved, row) + multiset(edges)[row]
  {
    hide CountRows;
    if edges == [] {
      assert InsertUnresolved(unresolved, first, edges) == unresolved;
    } else {
      var front, last := edges[..|edges| - 1], edges[|edges| - 1];
      InsertedRows(unresolved, first, front, row);
      InsertOneMore(unresolved, first, edges);
      CountOneMore(InsertUnresolved(unresolved, first, front), first + |front|, last, row);
      MultisetFront(edges);
    }
  }

  /** The call leaves this unresolved row: its caller is known, and no function has its
      name, or not exactly one for the ambiguous form. */
  ghost predicate Leaves(callers: map<(Path, string), Id>, t: Tables, repo: RepoId, c: FileCall, row: UnresolvedEdge) {
    var named := Named(t, repo, c.call.callee);
    && (c.path, c.call.caller) in callers
    && row.repo == repo && row.caller == callers[(c.path, c.call.caller)]
    && if named == {} then row.calleeNameRaw == c.call.callee
       else (forall id: Id :: named != {id}) && row.calleeNameRaw == c.call.callee + AMBIGUOUS
  }

  ghost function CountLeaving(callers: map<(Path, string), Id>, t: Tables, repo: RepoId, calls: seq<FileCall>,
                              row: UnresolvedEdge): nat {
    if calls == [] then 0
    else
      CountLeaving(callers, t, repo, calls[..|calls| - 1], row) + if Leaves(callers, t, repo, calls[|calls| - 1], row)
        then 1 else 0
  }

  lemma LeavesIff(callers: map<(Path, string), Id>, t: Tables, repo: RepoId, names: map<string, seq<Id>>, c: FileCall,
                  row: UnresolvedEdge)
    requires IsFunctionMap(t, repo, names)
    ensures Leaves(callers, t, repo, c, row) <==> UnresolvedOf(repo, callers, names, c) == [row]
    ensures |UnresolvedOf(repo, callers, names, c)| <= 1
  {
    hide IsFunctionMap, Named;
    CandidatesAreNamed(t, repo, names, c.call.callee);
    var ids, named := Candidates(names, c.call.callee), Named(t, repo, c.call.callee);
    if ids != [] {
      assert ids[0] in named;
    }
    if named != {} {
      var id :| id in named;
      assert id in ids;
    }
  }

  lemma {:induction false} CountLeft(callers: map<(Path, string), Id>, t: Tables, repo: RepoId, names: map<string,
                                     seq<Id>>, calls: seq<FileCall>, row: UnresolvedEdge)
    requires IsFunctionMap(t, repo, names)
    ensures multiset(UnresolvedEdges(repo, callers, names, calls))[row] == CountLeaving(callers, t, repo, calls, row)
  {
    hide IsFunctionMap, Leaves, UnresolvedOf;
    if calls != [] {
      var front, c := calls[..|calls| - 1], calls[|calls| - 1];
      CountLeft(callers, t, repo, names, front, row);
      LeavesIff(callers, t, repo, names, c, row);
      var left := UnresolvedOf(repo, callers, names, c);
      assert multiset(UnresolvedEdges(repo, callers, names, front) + left)[row] ==
             multiset(UnresolvedEdges(repo, callers, names, front))[row] + multiset(left)[row];
      assert left == [] || left == [left[0]];
    }
  }

  /** No unresolved row of a run is lost, merged or made up: the table holds each row as
      often as before, and once more for every call that leaves it. */
  lemma UnresolvedAfterRun(ix: Index, e: Event, row: UnresolvedEdge)
    requires Sound(ix) && Possible(ix, e) && e.stop >= 4
    ensures var p, t := PlanOf(ix, e.run), After(ix, e).tables;
            && CountRows(t.unresolved, row) ==
               CountRows(AfterDelete(ix, e.run).tables.unresolved, row) +
                 CountLeaving(p.callers, t, e.run.repo, AllCalls(p.works), row)
            && |t.unresolved| ==
               |AfterDelete(ix, e.run).tables.unresolved| +
                 CountCalls(p.callers, e.names, AllCalls(p.works), n => n != 1)
  {
    hide PlanOf, AllCalls, InsertUnresolved, UnresolvedEdges, CountRows, CountLeaving, Sound, IsFunctionMap, After,
         AfterFunctions, AfterDelete;
    var p := PlanOf(ix, e.run);
    var edges := UnresolvedEdges(e.run.repo, p.callers, e.names, AllCalls(p.works));
    var first := UnresolvedStage(ix, e);
    CallsConserved(e.run.repo, p.callers, e.names, AllCalls(p.works));
    InsertedCount(AfterDelete(ix, e.run).tables.unresolved, first, edges);
    InsertedRows(AfterDelete(ix, e.run).tables.unresolved, first, edges, row);
    StagesKeepFunctions(ix, e);
    CountLeft(p.callers, AfterFunctions(ix, e.run).tables, e.run.repo, e.names, AllCalls(p.works), row);
    CountBySameFunctions(p.callers, AfterFunctions(ix, e.run).tables, After(ix, e).tables, e.run.repo,
      AllCalls(p.works), row);
  }

  /** The rows are inserted under fresh ids into what the deletes left. */
  lemma UnresolvedStage(ix: Index, e: Event) returns (first: Id)
    requires Sound(ix) && Possible(ix, e) && e.stop >= 4
    ensures var p := PlanOf(ix, e.run);
            && After(ix, e).tables.unresolved ==
               InsertUnresolved(AfterDelete(ix, e.run).tables.unresolved, first,
                 UnresolvedEdges(e.run.repo, p.callers, e.names, AllCalls(p.works)))
            && forall u <- AfterDelete(ix, e.run).tables.unresolved :: u < first
  {
    hide PlanOf, AllCalls, InsertCallEdges, InsertUnresolved, Edges, UnresolvedEdges, WellFormedFiles, IsFunctionMap,
         Storable, UnresolvedFit,
         InsertFunctions, Origins, Doomed, EdgeJustified, UnresolvedJustified, HasOrigin, UniqueKeys, FunctionFits;
    first := AfterEdges(ix, e.run, e.names).nextId;
  }

  lemma {:induction false} CountBySameFunctions(callers: map<(Path, string), Id>, a: Tables, b: Tables, repo: RepoId,
                                                calls: seq<FileCall>, row: UnresolvedEdge)
    requires a.functions == b.functions
    ensures CountLeaving(callers, a, repo, calls, row) == CountLeaving(callers, b, repo, calls, row)
  {
    if calls != [] {
      CountBySameFunctions(callers, a, b, repo, calls[..|calls| - 1], row);
      SameNamed(a, b, repo, calls[|calls| - 1].call.callee);
    }
  }

  lemma {:induction false} LeftByOne(callers: map<(Path, string), Id>, t: Tables, repo: RepoId, calls: seq<FileCall>,
                                     row: UnresolvedEdge)
    requires CountLeaving(callers, t, repo, calls, row) > 0
    ensures exists c :: c in calls && Leaves(callers, t, repo, c, row)
  {
    hide Leaves;
    var front, last := calls[..|calls| - 1], calls[|calls| - 1];
    assert last in calls && forall c <- front :: c in calls;
    if !Leaves(callers, t, repo, last, row) {
      LeftByOne(callers, t, repo, front, row);
    }
  }

  /** The call leaves this edge: its caller is known, and the callee has its name. */
  ghost predicate LeavesEdge(callers: map<(Path, string), Id>, t: Tables, repo: RepoId, c: FileCall, edge: (Id, Id)) {
    && (c.path, c.call.caller) in callers
    && edge.0 == callers[(c.path, c.call.caller)] && edge.1 in Named(t, repo, c.call.callee)
  }

  /** Every new trace has its call: a row that the table holds more often than before, and
      an edge that was not there. */
  lemma EveryTraceHasCall(ix: Index, e: Event)
    requires Sound(ix) && Possible(ix, e) && e.stop >= 4
    ensures var p, t := PlanOf(ix, e.run), After(ix, e).tables;
            && (forall row | CountRows(t.unresolved, row) > CountRows(AfterDelete(ix, e.run).tables.unresolved, row) ::
                  exists c :: c in AllCalls(p.works) && Leaves(p.callers, t, e.run.repo, c, row))
            && (forall edge <- t.callEdges | edge !in AfterDelete(ix, e.run).tables.callEdges ::
                  exists c :: c in AllCalls(p.works) && LeavesEdge(p.callers, t, e.run.repo, c, edge))
  {
    hide PlanOf, AllCalls, CountRows, CountLeaving, Leaves, Sound, IsFunctionMap, After, AfterFunctions, AfterDelete,
         Edges, InsertCallEdges,
         Storable, WellFormedFiles, UnresolvedFit, Named;
    var p, t := PlanOf(ix, e.run), After(ix, e).tables;
    forall row | CountRows(t.unresolved, row) > CountRows(AfterDelete(ix, e.run).tables.unresolved, row)
      ensures exists c :: c in AllCalls(p.works) && Leaves(p.callers, t, e.run.repo, c, row)
    {
      UnresolvedAfterRun(ix, e, row);
      LeftByOne(p.callers, t, e.run.repo, AllCalls(p.works), row);
    }
    forall edge | edge in t.callEdges && edge !in AfterDelete(ix, e.run).tables.callEdges
      ensures exists c :: c in AllCalls(p.works) && LeavesEdge(p.callers, t, e.run.repo, c, edge)
    {
      NewEdgeHasCall(ix, e, edge);
    }
  }

  lemma NewEdgeHasCall(ix: Index, e: Event, edge: (Id, Id))
    requires Possible(ix, e) && e.stop >= 3
    requires edge in After(ix, e).tables.callEdges && edge !in AfterDelete(ix, e.run).tables.callEdges
    ensures var p := PlanOf(ix, e.run);
            exists c :: c in AllCalls(p.works) && LeavesEdge(p.callers, After(ix, e).tables, e.run.repo, c, edge)
  {
    hide PlanOf, AllCalls, IsFunctionMap, Edges, InsertCallEdges, Storable, WellFormedFiles, UnresolvedFit, Named,
         Doomed, InsertFunctions, After;
    var p := PlanOf(ix, e.run);
    var calls := AllCalls(p.works);
    var edges := Edges(e.run.repo, p.callers, e.names, calls);
    StagesKeepFunctions(ix, e);
    InsertedCallEdges(AfterDelete(ix, e.run).tables.callEdges, edges);
    EdgesMembers(e.run.repo, p.callers, e.names, calls);
    var i :| 0 <= i < |edges| && (edges[i].caller, edges[i].callee) == edge;
    assert edges[i] in edges;
    var c :| c in calls && EdgeOf(e.run.repo, p.callers, e.names, c) == [edges[i]];
    CandidatesAreNamed(AfterFunctions(ix, e.run).tables, e.run.repo, e.names, c.call.callee);
    SameNamed(AfterFunctions(ix, e.run).tables, After(ix, e).tables, e.run.repo, c.call.callee);
    assert Candidates(e.names, c.call.callee)[0] in Candidates(e.names, c.call.callee);
  }

  // What the deletes of a run take.

  /** The stored function lies in a file that the run drops. */
  ghost predicate IsTaken(t: Tables, run: Run, id: Id) {
    id in t.functions && t.functions[id].repo == run.repo && Drops(t, run, t.functions[id].fn.filePath)
  }

  /** The deletes take exactly the functions of the files the run drops, with every edge at
      either end of one and every unresolved row of one, and leave all else as it was. */
  lemma DeletesTake(ix: Index, run: Run)
    requires Sound(ix)
    ensures var before, after := ix.tables, AfterDelete(ix, run).tables;
            && (forall id :: id in after.functions <==> id in before.functions && !IsTaken(before, run, id))
            && (forall id <- after.functions :: after.functions[id] == before.functions[id])
            && (forall e :: e in after.callEdges <==>
                  e in before.callEdges && !IsTaken(before, run, e.0) && !IsTaken(before, run, e.1))
            && (forall e <- after.callEdges :: after.callEdges[e] == before.callEdges[e])
            && (forall u :: u in after.unresolved <==>
                  u in before.unresolved && !IsTaken(before, run, before.unresolved[u].caller))
            && (forall u <- after.unresolved :: after.unresolved[u] == before.unresolved[u])
            && after.snapshots == before.snapshots
  {
    hide Drops, HasOrigin, EdgeJustified, UnresolvedJustified, UniqueKeys;
    forall id: Id ensures id in Doomed(ix.tables, run) <==> IsTaken(ix.tables, run, id) {
      DoomedIff(ix.tables, run, id);
    }
  }

  lemma DoomedIff(t: Tables, run: Run, id: Id)
    ensures id in Doomed(t, run) <==> IsTaken(t, run, id)
  {
  }
}
