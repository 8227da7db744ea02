/** Full and incremental index runs as functions of the stored index: which
    functions a run stores, how it resolves their calls, and the states it passes
    through, one per store write. */
module IndexRuns {
  import opened Text
  import opened Snapshots
  import opened IndexTables
  import opened Parsing
  import opened Vectors

  /** A file that was parsed and embedded: one vector per function. */
  datatype IndexedFile = IndexedFile(path: Path, functions: seq<Function>, vectors: seq<Vector>, calls: seq<RawCall>)

  /** What one run makes of a file: the parse, and the embedding of its functions. */
  datatype FileOutcome = FileOutcome(parse: ParseOutcome, vectors: Option<seq<Vector>>)

  /** The parser stamps every function with its file's path; BatchEmbed gives one slot
      per text. A slot it leaves empty is an empty vector here. */
  ghost predicate WellFormed(path: Path, o: FileOutcome) {
    o.parse.Parsed? ==>
      && (forall fn <- o.parse.functions :: fn.filePath == path)
      && (o.vectors.Some? ==> |o.vectors.value| == |o.parse.functions|)
  }

  function Indexed(path: Path, o: FileOutcome): Option<IndexedFile> {
    if o.parse.Parsed? && o.vectors.Some?
    then Some(IndexedFile(path, o.parse.functions, o.vectors.value, o.parse.calls))
    else None
  }

  /** The index: the tables, the source of fresh ids, and for every file the parse
      its stored functions came from (a record for the proofs; not a table). */
  datatype Index = Index(tables: Tables, nextId: Id, origin: map<(RepoId, Path), IndexedFile>)

  const EMPTY_INDEX := Index(Tables(map[], map[], map[], map[]), 0, map[])

  /** One run on one repo; files is the scan. */
  datatype Run = Run(repo: RepoId, full: bool, files: seq<FileSnapshot>, outcomes: map<Path, FileOutcome>)

  /** A run as it happened: names is the answer GetFunctionMap gave it, stop the
      last of the stages 0..5 it reached. */
  datatype Event = Event(run: Run, names: map<string, seq<Id>>, stop: nat)

  const COMPLETE: nat := 5

  function Snapshot(t: Tables, repo: RepoId): map<Path, int> {
    Decode(if repo in t.snapshots then t.snapshots[repo] else [])
  }

  /** The scanned files that are new or carry another mtime than the snapshot's. */
  function Changed(snapshot: map<Path, int>, files: seq<FileSnapshot>): (r: seq<FileSnapshot>)
    ensures forall f <- r :: f in files
  {
    if files == [] then []
    else
      var f := files[|files| - 1];
      Changed(snapshot, files[..|files| - 1])
      + if Unchanged(snapshot, f) then [] else [f]
  }

  predicate Unchanged(snapshot: map<Path, int>, f: FileSnapshot) {
    f.path in snapshot && snapshot[f.path] == f.modTime
  }

  lemma {:induction false} ChangedFiles(snapshot: map<Path, int>, files: seq<FileSnapshot>)
    ensures forall f :: f in Changed(snapshot, files) <==> f in files && !Unchanged(snapshot, f)
  {
    if files != [] {
      var front, last := files[..|files| - 1], files[|files| - 1];
      ChangedFiles(snapshot, front);
      assert files == front + [last];
    }
  }

  lemma {:induction false} ChangedAscending(snapshot: map<Path, int>, files: seq<FileSnapshot>)
    requires Ascending(files)
    ensures Ascending(Changed(snapshot, files))
  {
    if files != [] {
      var front, last := files[..|files| - 1], files[|files| - 1];
      assert Ascending(front) by { assert forall f <- front :: f in files; }
      ChangedAscending(snapshot, front);
      forall f | f in Changed(snapshot, front) ensures StringLeq(f.path, last.path) && f.path != last.path {
        var i :| 0 <= i < |front| && front[i] == f;
        assert files[i] == f;
      }
      assert last in files;
    }
  }

  /** The paths whose functions an incremental run deletes. */
  function Outdated(snapshot: map<Path, int>, files: seq<FileSnapshot>): set<Path> {
    (set f | f in Changed(snapshot, files) :: f.path) + (snapshot.Keys - ModTimes(files).Keys)
  }

  function Processed(t: Tables, run: Run): seq<FileSnapshot> {
    if run.full then run.files else Changed(Snapshot(t, run.repo), run.files)
  }

  function Doomed(t: Tables, run: Run): set<Id> {
    if run.full then RepoFunctions(t, run.repo)
    else FileFunctions(t, run.repo, Outdated(Snapshot(t, run.repo), run.files))
  }

  /** The files of a run that are parsed and embedded, in order. */
  function IndexedFiles(files: seq<FileSnapshot>, outcomes: map<Path, FileOutcome>): seq<IndexedFile> {
    if files == [] then []
    else
      var path := files[|files| - 1].path;
      IndexedFiles(files[..|files| - 1], outcomes)
      + if path in outcomes && Indexed(path, outcomes[path]).Some? then [Indexed(path, outcomes[path]).value] else []
  }

  function FileRows(repo: RepoId, w: IndexedFile): seq<FunctionRow> {
    seq(|w.functions|, i requires 0 <= i < |w.functions| =>
      FunctionRow(repo, w.functions[i], if i < |w.vectors| then w.vectors[i] else []))
  }

  function Rows(repo: RepoId, works: seq<IndexedFile>): seq<FunctionRow> {
    if works == [] then []
    else Rows(repo, works[..|works| - 1]) + FileRows(repo, works[|works| - 1])
  }

  /** callerIDByFileAndName, keyed by the pair that fileScopedKey encodes. */
  function CallerIds(first: Id, rows: seq<FunctionRow>): map<(Path, string), Id> {
    if rows == [] then map[]
    else
      var fn := rows[|rows| - 1].fn;
      CallerIds(first, rows[..|rows| - 1])[(fn.filePath, fn.name) := first + |rows| - 1]
  }

  datatype FileCall = FileCall(path: Path, call: RawCall)

  function FileCalls(w: IndexedFile): seq<FileCall> {
    seq(|w.calls|, i requires 0 <= i < |w.calls| => FileCall(w.path, w.calls[i]))
  }

  function AllCalls(works: seq<IndexedFile>): seq<FileCall> {
    if works == [] then []
    else AllCalls(works[..|works| - 1]) + FileCalls(works[|works| - 1])
  }

  const AMBIGUOUS := " (ambiguous)"

  function Candidates(names: map<string, seq<Id>>, name: string): seq<Id> {
    if name in names then names[name] else []
  }

  /** The call edge a raw call leaves: to the first candidate, if there is any. */
  function EdgeOf(repo: RepoId, callers: map<(Path, string), Id>, names: map<string, seq<Id>>,
                  c: FileCall): seq<CallEdge> {
    var ids := Candidates(names, c.call.callee);
    if (c.path, c.call.caller) !in callers || ids == [] then []
    else [CallEdge(repo, callers[(c.path, c.call.caller)], ids[0])]
  }

  /** The unresolved row a raw call leaves: with no candidate, or with several. */
  function UnresolvedOf(repo: RepoId, callers: map<(Path, string), Id>, names: map<string, seq<Id>>,
                        c: FileCall): seq<UnresolvedEdge> {
    var ids := Candidates(names, c.call.callee);
    if (c.path, c.call.caller) !in callers || |ids| == 1 then []
    else [UnresolvedEdge(repo, callers[(c.path, c.call.caller)], if ids == [] then c.call.callee
      else c.call.callee + AMBIGUOUS)]
  }

  function Edges(repo: RepoId, callers: map<(Path, string), Id>, names: map<string, seq<Id>>,
                 calls: seq<FileCall>): seq<CallEdge> {
    if calls == [] then []
    else Edges(repo, callers, names, calls[..|calls| - 1]) + EdgeOf(repo, callers, names, calls[|calls| - 1])
  }

  function UnresolvedEdges(repo: RepoId, callers: map<(Path, string), Id>, names: map<string, seq<Id>>,
                           calls: seq<FileCall>): seq<UnresolvedEdge> {
    if calls == [] then []
    else UnresolvedEdges(repo, callers, names, calls[..|calls| - 1])
         + UnresolvedOf(repo, callers, names, calls[|calls| - 1])
  }

  /** Everything a run computes between its deletes and its snapshot. */
  datatype Plan = Plan(works: seq<IndexedFile>, rows: seq<FunctionRow>, callers: map<(Path, string), Id>)

  function PlanOf(ix: Index, run: Run): Plan {
    var works := IndexedFiles(Processed(ix.tables, run), run.outcomes);
    var rows := Rows(run.repo, works);
    Plan(works, rows, CallerIds(ix.nextId, rows))
  }

  function AfterDelete(ix: Index, run: Run): Index {
    ix.(tables := DeleteFunctions(ix.tables, Doomed(ix.tables, run)))
  }

  function Origins(origin: map<(RepoId, Path), IndexedFile>, repo: RepoId, works: seq<IndexedFile>): map<(RepoId,
                   Path), IndexedFile> {
    if works == [] then origin
    else
      var w := works[|works| - 1];
      Origins(origin, repo, works[..|works| - 1])[(repo, w.path) := w]
  }

  function AfterFunctions(ix: Index, run: Run): Index {
    var p, t := PlanOf(ix, run), AfterDelete(ix, run).tables;
    Index(t.(functions := InsertFunctions(t.functions, ix.nextId, p.rows)),
          ix.nextId + |p.rows|,
          Origins(ix.origin, run.repo, p.works))
  }

  function AfterEdges(ix: Index, run: Run, names: map<string, seq<Id>>): Index {
    var p, before := PlanOf(ix, run), AfterFunctions(ix, run);
    before.(tables := before.tables.(callEdges :=
      InsertCallEdges(before.tables.callEdges, Edges(run.repo, p.callers, names, AllCalls(p.works)))))
  }

  function AfterUnresolved(ix: Index, run: Run, names: map<string, seq<Id>>): Index {
    var p, before := PlanOf(ix, run), AfterEdges(ix, run, names);
    var edges := UnresolvedEdges(run.repo, p.callers, names, AllCalls(p.works));
    before.(tables := before.tables.(unresolved := InsertUnresolved(before.tables.unresolved, before.nextId, edges)),
            nextId := before.nextId + |edges|)
  }

  function AfterSnapshot(ix: Index, run: Run, names: map<string, seq<Id>>): Index {
    var before := AfterUnresolved(ix, run, names);
    before.(tables := before.tables.(snapshots := before.tables.snapshots[run.repo := Encode(run.files)]))
  }

  /** The index once a run has passed its last stage. */
  function After(ix: Index, e: Event): Index {
    if e.stop == 0 then ix
    else if e.stop == 1 then AfterDelete(ix, e.run)
    else if e.stop == 2 then AfterFunctions(ix, e.run)
    else if e.stop == 3 then AfterEdges(ix, e.run, e.names)
    else if e.stop == 4 then AfterUnresolved(ix, e.run, e.names)
    else AfterSnapshot(ix, e.run, e.names)
  }

  /** A scan is in strictly ascending order, its paths have no NUL, and every file
      has a well-formed outcome. */
  ghost predicate WellFormedFiles(files: seq<FileSnapshot>, outcomes: map<Path, FileOutcome>) {
    && Ascending(files)
    && (forall f <- files :: '\0' !in f.path && f.path in outcomes && WellFormed(f.path, outcomes[f.path]))
  }

  /** The database admits the functions of the run. */
  ghost predicate Storable(ix: Index, run: Run) {
    InsertAllowed(AfterDelete(ix, run).tables.functions, PlanOf(ix, run).rows)
  }

  /** No unresolved row of the event holds a text the database refuses. */
  ghost predicate UnresolvedFit(ix: Index, run: Run, names: map<string, seq<Id>>) {
    var p := PlanOf(ix, run);
    forall row <- UnresolvedEdges(run.repo, p.callers, names, AllCalls(p.works)) :: TextFits(row.calleeNameRaw)
  }

  /** The event can happen: its rows were only stored if the database admits them,
      and its names answer the query it made. */
  ghost predicate Possible(ix: Index, e: Event) {
    && WellFormedFiles(e.run.files, e.run.outcomes)
    && e.stop <= COMPLETE
    && (e.stop >= 2 ==> Storable(ix, e.run))
    && (e.stop >= 3 ==> IsFunctionMap(AfterFunctions(ix, e.run).tables, e.run.repo, e.names))
    && (e.stop >= 4 ==> UnresolvedFit(ix, e.run, e.names))
  }
}
