/** The caller query over an index kept incrementally: it stays inside its repo, and
    against a rebuild it can only report less. */
module StaleImpact {
  import opened Snapshots
  import opened IndexTables
  import opened IndexRuns
  import opened IndexSoundness
  import opened IndexAgreement
  import opened EdgeAgreement
  import opened EdgeHistories
  import opened CallerQuery
  import Impact

  /** The recursive term has no repo filter, yet no walk leaves the repo of its seed. */
  lemma {:induction false} WalksStayInRepo(ix: Index, repo: RepoId, names: seq<string>, id: Id, length: nat)
    requires Sound(ix) && HasWalk(ix.tables, repo, names, id, length)
    ensures id in ix.tables.functions && ix.tables.functions[id].repo == repo
    decreases length
  {
    hide HasWalk, HasOrigin, UnresolvedJustified;
    if length == 0 {
      WalkOfNoCalls(ix.tables, repo, names, id);
    } else {
      var callee := StepForward(ix.tables, repo, names, id, length);
      WalksStayInRepo(ix, repo, names, callee, length - 1);
      assert EdgeJustified(ix, (id, callee));
    }
  }

  /** In every reachable state a row of the answer belongs to one stored function, of
      the repo asked about, and no function has two rows. */
  lemma RowsAreFunctions(history: seq<Event>, repo: RepoId, names: seq<string>, bound: nat, a: AffectedFunction)
    requires PossibleHistory(history) && IsLongest(Exec(history).tables, repo, names, bound, a)
    ensures exists id: Id ::
              && Stores(Exec(history).tables.functions, repo, id, FunctionKey(a.filePath, a.name))
              && (forall other: Id | Stores(Exec(history).tables.functions, repo, other,
                 FunctionKey(a.filePath, a.name)) :: other == id)
              && HasWalk(Exec(history).tables, repo, names, id, a.depth)
              && (forall d: nat | d <= bound && HasWalk(Exec(history).tables, repo, names, id, d) :: d <= a.depth)
    ensures forall b | IsLongest(Exec(history).tables, repo, names, bound, b) && b.name == a.name && b.filePath ==
            a.filePath :: b == a
  {
    hide HasWalk, PossibleHistory, Exec;
    SoundAlways(history);
    var ix := Exec(history);
    var id: Id :| id in ix.tables.functions
                  && (ix.tables.functions[id].fn.name, ix.tables.functions[id].fn.filePath) == (a.name, a.filePath)
                  && HasWalk(ix.tables, repo, names, id, a.depth);
    WalksStayInRepo(ix, repo, names, id, a.depth);
    assert Stores(ix.tables.functions, repo, id, FunctionKey(a.filePath, a.name));
    forall other: Id | Stores(ix.tables.functions, repo, other, FunctionKey(a.filePath, a.name)) ensures other == id {
      assert UniqueKey(ix.tables.functions[other]) == UniqueKey(ix.tables.functions[id]);
    }
  }

  /** Some function of the key has a walk of the length. */
  ghost predicate KeyReaches(t: Tables, repo: RepoId, names: seq<string>, key: FunctionKey, length: nat) {
    exists id: Id :: Stores(t.functions, repo, id, key) && HasWalk(t, repo, names, id, length)
  }

  /** b has every function and every edge of a. */
  ghost predicate Covers(a: Tables, b: Tables, repo: RepoId) {
    && (forall key | HasFunction(a.functions, repo, key) :: HasFunction(b.functions, repo, key))
    && (forall caller, callee | HasEdge(a, repo, caller, callee) :: HasEdge(b, repo, caller, callee))
  }

  /** More edges, more walks, of the same lengths. */
  lemma {:induction false} ReachMonotone(a: Index, b: Index, repo: RepoId, names: seq<string>, key: FunctionKey,
                                         length: nat)
    requires Sound(a) && Sound(b) && Covers(a.tables, b.tables, repo)
    requires KeyReaches(a.tables, repo, names, key, length)
    ensures KeyReaches(b.tables, repo, names, key, length)
    decreases length
  {
    hide Sound, HasWalk;
    var id: Id :| Stores(a.tables.functions, repo, id, key) && HasWalk(a.tables, repo, names, id, length);
    if length == 0 {
      WalkOfNoCalls(a.tables, repo, names, id);
      assert HasFunction(a.tables.functions, repo, key);
      var id': Id :| Stores(b.tables.functions, repo, id', key);
      WalkOfNoCalls(b.tables, repo, names, id');
    } else {
      var callee := StepForward(a.tables, repo, names, id, length);
      WalksStayInRepo(a, repo, names, callee, length - 1);
      var next := KeyOf(a.tables.functions[callee]);
      assert Stores(a.tables.functions, repo, callee, next);
      ReachMonotone(a, b, repo, names, next, length - 1);
      assert HasEdge(a.tables, repo, key, next);
      OneStepMore(b, repo, names, key, next, length - 1);
    }
  }

  lemma OneStepMore(ix: Index, repo: RepoId, names: seq<string>, caller: FunctionKey, callee: FunctionKey, length: nat)
    requires Sound(ix) && HasEdge(ix.tables, repo, caller, callee) && KeyReaches(ix.tables, repo, names, callee, length)
    ensures KeyReaches(ix.tables, repo, names, caller, length + 1)
  {
    hide HasWalk, HasOrigin, EdgeJustified, UnresolvedJustified;
    var x: Id, y: Id :| Stores(ix.tables.functions, repo, x, caller)
                        && Stores(ix.tables.functions, repo, y, callee) && (x, y) in ix.tables.callEdges;
    var z: Id :| Stores(ix.tables.functions, repo, z, callee) && HasWalk(ix.tables, repo, names, z, length);
    assert UniqueKey(ix.tables.functions[y]) == UniqueKey(ix.tables.functions[z]);
    StepBack(ix.tables, repo, names, x, y, length);
  }

  /** With unique names, every function found at a depth after any history of complete
      runs of the repo is found at that depth after a rebuild of the same files. */
  lemma StaleReachesLess(history: seq<Event>, rebuild: Event, oracle: (Path, int) -> FileOutcome, names: seq<string>,
                         key: FunctionKey, length: nat)
    requires PossibleHistory(history) && FaithfulHistory(history, rebuild.run.repo, oracle)
    requires Possible(Exec(history), rebuild) && rebuild.run.full && rebuild.stop >= 3
    requires Deterministic(rebuild.run, oracle) && SameFiles(Exec(history), rebuild.run)
    requires NamesStayUnique(Exec(history), rebuild.run)
    requires KeyReaches(Exec(history).tables, rebuild.run.repo, names, key, length)
    ensures KeyReaches(After(Exec(history), rebuild).tables, rebuild.run.repo, names, key, length)
  {
    hide After, Possible, Sound, NamesStayUnique, HasEdge, PossibleHistory, FaithfulHistory, Deterministic, SameFiles,
         HasFunction, KeyReaches, Exec;
    var ix, repo := Exec(history), rebuild.run.repo;
    var rebuilt := After(ix, rebuild);
    SoundAlways(history);
    RunKeepsSound(ix, rebuild);
    RebuildChangesNothing(history, rebuild, oracle);
    forall k ensures HasFunction(ix.tables.functions, repo, k) <==> HasFunction(rebuilt.tables.functions, repo, k) {
      FunctionsByContents(ix.tables, rebuilt.tables, repo, k);
    }
    forall caller, callee | HasEdge(ix.tables, repo, caller, callee)
      ensures HasEdge(rebuilt.tables, repo, caller, callee)
    {
      StaleEdgesSurviveRebuild(history, rebuild, oracle, caller, callee);
    }
    ReachMonotone(ix, rebuilt, repo, names, key, length);
  }

  /** So the answer over the stale index lists no function the rebuilt one would not,
      and never at a greater depth. */
  lemma StaleAnswersReportLess(history: seq<Event>, rebuild: Event, oracle: (Path, int) -> FileOutcome,
                               names: seq<string>, bound: nat, a: AffectedFunction)
    requires PossibleHistory(history) && FaithfulHistory(history, rebuild.run.repo, oracle)
    requires Possible(Exec(history), rebuild) && rebuild.run.full && rebuild.stop >= 3
    requires Deterministic(rebuild.run, oracle) && SameFiles(Exec(history), rebuild.run)
    requires NamesStayUnique(Exec(history), rebuild.run)
    requires IsLongest(Exec(history).tables, rebuild.run.repo, names, bound, a)
    ensures exists d: nat :: d >= a.depth
              && IsLongest(After(Exec(history), rebuild).tables, rebuild.run.repo, names, bound,
                 AffectedFunction(a.name, a.filePath, d))
  {
    hide After, Possible, Sound, NamesStayUnique, PossibleHistory, FaithfulHistory, Deterministic, SameFiles, HasWalk,
         Exec;
    var ix, repo, key := Exec(history), rebuild.run.repo, FunctionKey(a.filePath, a.name);
    var rebuilt := After(ix, rebuild).tables;
    SoundAlways(history);
    var id: Id :| id in ix.tables.functions
                  && (ix.tables.functions[id].fn.name, ix.tables.functions[id].fn.filePath) == (a.name, a.filePath)
                  && HasWalk(ix.tables, repo, names, id, a.depth);
    WalksStayInRepo(ix, repo, names, id, a.depth);
    assert Stores(ix.tables.functions, repo, id, key);
    StaleReachesLess(history, rebuild, oracle, names, key, a.depth);
    var id': Id :| Stores(rebuilt.functions, repo, id', key) && HasWalk(rebuilt, repo, names, id', a.depth);
    Impact.LongestExists(rebuilt, repo, names, bound, a.name, a.filePath, id', a.depth, bound);
  }
}
