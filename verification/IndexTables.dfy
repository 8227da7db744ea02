/** The index tables and the operations IndexStore performs on them: unique keys,
    the conflict rule of call_edges and the cascades of the schema. */
module IndexTables {
  import opened Text
  import opened Snapshots
  import opened Vectors

  type Id = nat
  type RepoId = nat
  type TaskId = nat

  /** A function found in a source file. */
  datatype Function = Function(name: string, filePath: Path, startLine: int, endLine: int, source: string)

  /** A row of the functions table; its id is the key of the table. */
  datatype FunctionRow = FunctionRow(repo: RepoId, fn: Function, embedding: Vector)

  datatype CallEdge = CallEdge(repo: RepoId, caller: Id, callee: Id)

  datatype UnresolvedEdge = UnresolvedEdge(repo: RepoId, caller: Id, calleeNameRaw: string)

  /** callEdges is keyed by its unique key (caller, callee) and keeps the repo column. */
  datatype Tables = Tables(
    functions: map<Id, FunctionRow>,
    callEdges: map<(Id, Id), RepoId>,
    unresolved: map<Id, UnresolvedEdge>,
    snapshots: map<RepoId, seq<string>>)

  /** The columns of UNIQUE(repo_id, file_path, name). */
  function UniqueKey(row: FunctionRow): (RepoId, Path, string) {
    (row.repo, row.fn.filePath, row.fn.name)
  }

  ghost predicate UniqueKeys(functions: map<Id, FunctionRow>) {
    forall a <- functions, b <- functions | UniqueKey(functions[a]) == UniqueKey(functions[b]) :: a == b
  }

  /** Both ends of an edge and the caller of an unresolved edge are stored functions. */
  ghost predicate ForeignKeys(t: Tables) {
    && (forall e <- t.callEdges :: e.0 in t.functions && e.1 in t.functions)
    && (forall u <- t.unresolved :: t.unresolved[u].caller in t.functions)
  }

  /** DELETE FROM functions with the two ON DELETE CASCADE rules. */
  function DeleteFunctions(t: Tables, ids: set<Id>): Tables {
    t.(functions := map id | id in t.functions && id !in ids :: t.functions[id],
       callEdges := map e | e in t.callEdges && e.0 !in ids && e.1 !in ids :: t.callEdges[e],
       unresolved := map u | u in t.unresolved && t.unresolved[u].caller !in ids :: t.unresolved[u])
  }

  function RepoFunctions(t: Tables, repo: RepoId): set<Id> {
    set id | id in t.functions && t.functions[id].repo == repo
  }

  function FileFunctions(t: Tables, repo: RepoId, paths: set<Path>): set<Id> {
    set id | id in t.functions && t.functions[id].repo == repo && t.functions[id].fn.filePath in paths
  }

  /** The n ids that n consecutive draws give. */
  function Ids(first: Id, n: nat): (ids: set<Id>)
    ensures forall id :: id in ids <==> first <= id < first + n
  {
    if n == 0 then {} else Ids(first, n - 1) + {first + n - 1}
  }

  /** Row i is stored under the id first + i. */
  function InsertFunctions(functions: map<Id, FunctionRow>, first: Id, rows: seq<FunctionRow>): map<Id, FunctionRow> {
    functions + map id | id in Ids(first, |rows|) :: rows[id - first]
  }

  /** What a TEXT column takes: anything but NUL. */
  predicate TextFits(s: string) {
    '\0' !in s
  }

  predicate FunctionFits(fn: Function) {
    TextFits(fn.name) && TextFits(fn.filePath) && TextFits(fn.source)
  }

  /** The unique key and the types of the columns admit the new rows. */
  predicate InsertAllowed(functions: map<Id, FunctionRow>, rows: seq<FunctionRow>) {
    && (forall i | 0 <= i < |rows| :: Fits(rows[i].embedding) && FunctionFits(rows[i].fn))
    && (forall i, j | 0 <= i < j < |rows| :: UniqueKey(rows[i]) != UniqueKey(rows[j]))
    && (forall id <- functions, i | 0 <= i < |rows| :: UniqueKey(functions[id]) != UniqueKey(rows[i]))
  }

  /** INSERT ... ON CONFLICT (caller_id, callee_id) DO NOTHING, one edge after another. */
  function InsertCallEdges(callEdges: map<(Id, Id), RepoId>, edges: seq<CallEdge>): map<(Id, Id), RepoId> {
    if edges == [] then callEdges
    else
      var before, e := InsertCallEdges(callEdges, edges[..|edges| - 1]), edges[|edges| - 1];
      if (e.caller, e.callee) in before then before else before[(e.caller, e.callee) := e.repo]
  }

  /** As a set of keys the table gains exactly the inserted pairs; an old edge keeps its repo. */
  lemma {:induction false} InsertedCallEdges(callEdges: map<(Id, Id), RepoId>, edges: seq<CallEdge>)
    ensures forall k :: k in InsertCallEdges(callEdges, edges) <==>
                        k in callEdges || exists i :: 0 <= i < |edges| && (edges[i].caller, edges[i].callee) == k
    ensures forall k <- callEdges :: InsertCallEdges(callEdges, edges)[k] == callEdges[k]
    ensures forall k <- InsertCallEdges(callEdges, edges) | k !in callEdges ::
              exists i :: 0 <= i < |edges| && edges[i] == CallEdge(InsertCallEdges(callEdges, edges)[k], k.0, k.1)
  {
    if edges != [] {
      var front, e := edges[..|edges| - 1], edges[|edges| - 1];
      InsertedCallEdges(callEdges, front);
      var before, after := InsertCallEdges(callEdges, front), InsertCallEdges(callEdges, edges);
      forall k
        ensures k in after <==>
                k in callEdges || exists i :: 0 <= i < |edges| && (edges[i].caller, edges[i].callee) == k
      {
        if k in before && k !in callEdges {
          var i :| 0 <= i < |front| && (front[i].caller, front[i].callee) == k;
          assert edges[i] == front[i];
        }
        if k == (e.caller, e.callee) {
          assert (edges[|edges| - 1].caller, edges[|edges| - 1].callee) == k;
        }
        if k !in before && k != (e.caller, e.callee) {
          forall i | 0 <= i < |edges| ensures (edges[i].caller, edges[i].callee) != k {
            if i < |front| {
              assert edges[i] == front[i];
            }
          }
        }
      }
      forall k | k in after && k !in callEdges
        ensures exists i :: 0 <= i < |edges| && edges[i] == CallEdge(after[k], k.0, k.1)
      {
        if k in before {
          var i :| 0 <= i < |front| && front[i] == CallEdge(before[k], k.0, k.1);
          assert edges[i] == front[i];
        } else {
          assert edges[|edges| - 1] == CallEdge(after[k], k.0, k.1);
        }
      }
    }
  }

  function InsertUnresolved(unresolved: map<Id, UnresolvedEdge>, first: Id, edges: seq<UnresolvedEdge>): map<Id,
                            UnresolvedEdge> {
    unresolved + map id | id in Ids(first, |edges|) :: edges[id - first]
  }

  /** names lists, under each name, the ids with that name: each once, in any order. */
  ghost predicate GroupsByName(functions: map<Id, FunctionRow>, ids: set<Id>, names: map<string, seq<Id>>)
    requires ids <= functions.Keys
  {
    && (forall name <- names :: names[name] != [])
    && (forall name <- names, i, j | 0 <= i < j < |names[name]| :: names[name][i] != names[name][j])
    && (forall name <- names, i | 0 <= i < |names[name]| ::
       names[name][i] in ids && functions[names[name][i]].fn.name == name)
    && (forall id <- ids :: functions[id].fn.name in names && id in names[functions[id].fn.name])
  }

  /** A possible answer of GetFunctionMap; the query fixes no order of the rows. */
  ghost predicate IsFunctionMap(t: Tables, repo: RepoId, names: map<string, seq<Id>>) {
    GroupsByName(t.functions, RepoFunctions(t, repo), names)
  }

  /** The store over its tables. Every call may fail, and then changes nothing; a
      call under a cancelled context does fail. */
  class IndexStore {
    var repos: set<RepoId>
    var functions: map<Id, FunctionRow>
    var callEdges: map<(Id, Id), RepoId>
    var unresolved: map<Id, UnresolvedEdge>
    var snapshots: map<RepoId, seq<string>>
    var taskStatus: map<TaskId, string>

    ghost function Contents(): Tables
      reads this
    {
      Tables(functions, callEdges, unresolved, snapshots)
    }

    constructor (repos: set<RepoId>)
      ensures this.repos == repos
      ensures Contents() == Tables(map[], map[], map[], map[]) && taskStatus == map[]
    {
      this.repos := repos;
      functions, callEdges, unresolved, snapshots, taskStatus := map[], map[], map[], map[], map[];
    }

    method BulkInsertFunctions(cancelled: bool, first: Id, rows: seq<FunctionRow>) returns (ok: bool)
      modifies this`functions
      ensures rows == [] ==> ok
      ensures rows != [] && (cancelled || !InsertAllowed(old(functions), rows)) ==> !ok
      ensures functions == if ok then InsertFunctions(old(functions), first, rows) else old(functions)
    {
      if rows == [] {
        assert InsertFunctions(functions, first, rows) == functions;
        return true;
      }
      var answered := *;
      ok := answered && !cancelled && InsertAllowed(functions, rows);
      if ok {
        functions := InsertFunctions(functions, first, rows);
      }
    }

    /** The batch runs in one implicit transaction; an edge to a missing function fails it. */
    method BulkInsertCallEdges(cancelled: bool, edges: seq<CallEdge>) returns (ok: bool)
      modifies this`callEdges
      ensures edges == [] ==> ok
      ensures edges != [] && cancelled ==> !ok
      ensures (exists i :: 0 <= i < |edges| && (edges[i].caller !in functions || edges[i].callee !in functions)) ==> !ok
      ensures callEdges == if ok then InsertCallEdges(old(callEdges), edges) else old(callEdges)
    {
      if edges == [] {
        return true;
      }
      var table := callEdges;
      if cancelled {
        return false;
      }
      for i := 0 to |edges|
        invariant table == InsertCallEdges(callEdges, edges[..i])
        invariant callEdges == old(callEdges)
        invariant forall j :: 0 <= j < i ==> edges[j].caller in functions && edges[j].callee in functions
      {
        var answered := *;
        if !answered || edges[i].caller !in functions || edges[i].callee !in functions {
          return false;
        }
        assert edges[..i + 1][..i] == edges[..i];
        if (edges[i].caller, edges[i].callee) !in table {
          table := table[(edges[i].caller, edges[i].callee) := edges[i].repo];
        }
      }
      assert edges[..|edges|] == edges;
      callEdges := table;
      ok := true;
    }

    method BulkInsertUnresolvedEdges(cancelled: bool, first: Id, edges: seq<UnresolvedEdge>) returns (ok: bool)
      modifies this`unresolved
      ensures edges == [] ==> ok
      ensures edges != [] && cancelled ==> !ok
      ensures (exists i :: 0 <= i < |edges|
                           && (edges[i].caller !in functions || !TextFits(edges[i].calleeNameRaw))) ==> !ok
      ensures unresolved == if ok then InsertUnresolved(old(unresolved), first, edges) else old(unresolved)
    {
      if edges == [] {
        assert InsertUnresolved(unresolved, first, edges) == unresolved;
        return true;
      }
      var answered := *;
      ok := answered && !cancelled && forall i | 0 <= i < |edges| ::
        edges[i].caller in functions && TextFits(edges[i].calleeNameRaw);
      if ok {
        unresolved := InsertUnresolved(unresolved, first, edges);
      }
    }

    method GetFunctionMap(cancelled: bool, repo: RepoId) returns (result: Option<map<string, seq<Id>>>)
      ensures cancelled ==> result.None?
      ensures result.Some? ==> IsFunctionMap(Contents(), repo, result.value)
    {
      var answered := *;
      if !answered || cancelled {
        return None;
      }
      var rows := set id | id in functions && functions[id].repo == repo;
      var rest, names := rows, map[];
      while rest != {}
        invariant rest <= rows
        invariant GroupsByName(functions, rows - rest, names)
        decreases rest
      {
        var id :| id in rest;
        var name := functions[id].fn.name;
        var known := if name in names then names[name] else [];
        assert id !in known;
        names := names[name := known + [id]];
        rest := rest - {id};
        assert names[name][|known|] == id;
      }
      assert rows - rest == RepoFunctions(Contents(), repo);
      result := Some(names);
    }

    method DeleteFunctionsByRepo(repo: RepoId) returns (ok: bool)
      modifies this`functions, this`callEdges, this`unresolved
      ensures Contents() == if ok then DeleteFunctions(old(Contents()), RepoFunctions(old(Contents()), repo))
              else old(Contents())
    {
      ok := *;
      if ok {
        Delete(set id | id in functions && functions[id].repo == repo);
      }
    }

    method DeleteFunctionsByFiles(repo: RepoId, filePaths: seq<Path>) returns (ok: bool)
      modifies this`functions, this`callEdges, this`unresolved
      ensures filePaths == [] ==> ok && Contents() == old(Contents())
      ensures Contents() == if filePaths != [] && ok
                            then DeleteFunctions(old(Contents()),
                            FileFunctions(old(Contents()), repo, set p | p in filePaths))
                            else old(Contents())
    {
      if filePaths == [] {
        return true;
      }
      ok := *;
      if ok {
        Delete(set id | id in functions && functions[id].repo == repo && functions[id].fn.filePath in filePaths);
      }
    }

    method Delete(ids: set<Id>)
      modifies this`functions, this`callEdges, this`unresolved
      ensures Contents() == DeleteFunctions(old(Contents()), ids)
    {
      callEdges := map e | e in callEdges && e.0 !in ids && e.1 !in ids :: callEdges[e];
      unresolved := map u | u in unresolved && unresolved[u].caller !in ids :: unresolved[u];
      functions := map id | id in functions && id !in ids :: functions[id];
    }

    /** The UPDATE of an unknown repo succeeds and changes no row. */
    method UpdateRepoIndexedFiles(repo: RepoId, files: seq<string>) returns (ok: bool)
      modifies this`snapshots
      ensures snapshots == if ok && repo in repos then old(snapshots)[repo := files] else old(snapshots)
    {
      ok := *;
      if ok && repo in repos {
        snapshots := snapshots[repo := files];
      }
    }

    /** Also UpdateTaskStarted, with the status "running". */
    method UpdateTaskStatus(task: TaskId, status: string) returns (ok: bool)
      modifies this`taskStatus
      ensures taskStatus == if ok && task in old(taskStatus) then old(taskStatus)[task := status] else old(taskStatus)
    {
      ok := *;
      if ok && task in taskStatus {
        taskStatus := taskStatus[task := status];
      }
    }
  }
}
