/** Impact analysis: the names a request asks about, the query, and what the answer
    lists. */
module Impact {
  import opened Text
  import opened Sorting
  import opened Snapshots
  import opened IndexTables
  import opened CallerQuery

  ghost predicate Distinct(s: seq<string>) {
    forall i, j | 0 <= i < j < |s| :: s[i] != s[j]
  }

  /** x is met in items before y is. */
  ghost predicate SeenBefore(items: seq<string>, x: string, y: string) {
    exists p :: 0 <= p < |items| && TrimSpace(items[p]) == x && forall q | 0 <= q <= p :: TrimSpace(items[q]) != y
  }

  /** The trimmed, non-empty items, each once, in the order they are first met. */
  method NormalizeStrings(items: seq<string>) returns (out: seq<string>)
    ensures Distinct(out)
    ensures forall x :: x in out <==> x != "" && exists item :: item in items && TrimSpace(item) == x
    ensures forall i, j | 0 <= i < j < |out| :: SeenBefore(items, out[i], out[j])
  {
    out := [];
    var seen: set<string> := {};
    for k := 0 to |items|
      invariant forall x :: x in seen <==> x in out
      invariant Distinct(out)
      invariant forall x :: x in out <==> x != "" && exists item :: item in items[..k] && TrimSpace(item) == x
      invariant forall i, j | 0 <= i < j < |out| :: SeenBefore(items, out[i], out[j])
    {
      assert items[..k + 1] == items[..k] + [items[k]];
      var item := TrimSpace(items[k]);
      if item == "" || item in seen {
        continue;
      }
      forall i | 0 <= i < |out| ensures SeenBefore(items, out[i], item) {
        assert out[i] in out;
        var earlier :| earlier in items[..k] && TrimSpace(earlier) == out[i];
        var p :| 0 <= p < k && items[p] == earlier;
        forall q | 0 <= q <= p ensures TrimSpace(items[q]) != item {
          assert items[q] in items[..k];
        }
      }
      seen := seen + {item};
      out := out + [item];
    }
    assert items[..|items|] == items;
  }

  datatype Summary = NothingFound | Described

  datatype ImpactResult = ImpactResult(
    changedFunctions: seq<string>,
    affectedCallers: seq<AffectedFunction>,
    affectedFiles: seq<Path>,
    summary: Summary)

  predicate IsReady(status: string) {
    status == "indexed" || status == "partial"
  }

  /** The rows of positive depth, and their files, each once. */
  method Aggregate(affected: seq<AffectedFunction>) returns (callers: seq<AffectedFunction>, files: seq<Path>)
    requires Sorted(affected, AffectedLeq)
    ensures Sorted(callers, AffectedLeq)
    ensures forall c :: c in callers <==> c in affected && c.depth > 0
    ensures Distinct(files)
    ensures forall p :: p in files <==> p != "" && exists c :: c in callers && c.filePath == p
  {
    callers, files := [], [];
    var seen: set<Path> := {};
    for i := 0 to |affected|
      invariant forall c <- callers :: c in affected[..i]
      invariant forall c <- affected[..i] | c.depth > 0 :: c in callers
      invariant forall c <- callers :: c.depth > 0
      invariant Sorted(callers, AffectedLeq)
      invariant forall p :: p in seen <==> p in files
      invariant Distinct(files)
      invariant forall p :: p in files <==> p != "" && exists c :: c in callers && c.filePath == p
    {
      assert affected[..i + 1] == affected[..i] + [affected[i]];
      var item := affected[i];
      if item.depth == 0 {
        continue;
      }
      forall j | 0 <= j < |callers| ensures AffectedLeq(callers[j], item) {
        assert callers[j] in affected[..i];
      }
      var before := callers;
      callers := callers + [item];
      assert item in callers && forall c <- before :: c in callers;
      if item.filePath != "" && item.filePath !in seen {
        seen := seen + {item.filePath};
        files := files + [item.filePath];
      }
    }
    assert affected[..|affected|] == affected;
  }

  /** Refused unless the repo is indexed or partial; otherwise the callers are exactly
      the functions with a call walk of positive length, within the depth, to a
      function of one of the names, each with its longest. */
  method Analyze(t: Tables, repo: RepoId, status: string, functionNames: seq<string>,
                 depth: int) returns (r: Result<ImpactResult>)
    ensures r.Err? <==> !IsReady(status)
    ensures r.Ok? ==>
              && (forall x :: x in r.value.changedFunctions <==>
                 x != "" && exists item :: item in functionNames && TrimSpace(item) == x)
              && (forall c :: c in r.value.affectedCallers <==>
                              c.depth > 0
                                && IsLongest(t, repo, r.value.changedFunctions, if depth < 0 then 0 else depth, c))
              && Sorted(r.value.affectedCallers, AffectedLeq)
              && Distinct(r.value.affectedFiles)
              && (forall p :: p in r.value.affectedFiles <==>
                 p != "" && exists c :: c in r.value.affectedCallers && c.filePath == p)
              && (r.value.summary == NothingFound <==> r.value.affectedCallers == [])
  {
    if !IsReady(status) {
      return Err("repo_not_ready");
    }
    var changed := NormalizeStrings(functionNames);
    var affected := GetCallersByDepth(t, repo, changed, depth);
    var callers, files := Aggregate(affected);
    r := Ok(ImpactResult(changed, callers, files, if callers == [] then NothingFound else Described));
  }

  /** A name and file appear among the callers exactly when some function of that name
      and file has a walk of 1 to bound calls to a changed function. */
  lemma ListedIffReaches(t: Tables, repo: RepoId, names: seq<string>, bound: nat, name: string, path: Path)
    ensures (exists d: nat :: d > 0 && IsLongest(t, repo, names, bound, AffectedFunction(name, path, d))) <==>
            exists id: Id, d: nat ::
              id in t.functions && (t.functions[id].fn.name, t.functions[id].fn.filePath) == (name, path)
                                     && 1 <= d <= bound && HasWalk(t, repo, names, id, d)
  {
    if id: Id, d: nat :| id in t.functions && (t.functions[id].fn.name, t.functions[id].fn.filePath) == (name, path)
                         && 1 <= d <= bound && HasWalk(t, repo, names, id, d) {
      LongestExists(t, repo, names, bound, name, path, id, d, bound);
    }
  }

  /** Searching down from the bound finds the longest walk. */
  lemma {:induction false} LongestExists(t: Tables, repo: RepoId, names: seq<string>, bound: nat, name: string,
                                         path: Path, id: Id, d: nat, top: nat)
    requires id in t.functions && (t.functions[id].fn.name, t.functions[id].fn.filePath) == (name, path)
    requires d <= top <= bound && HasWalk(t, repo, names, id, d)
    requires forall other: Id, length: nat | other in t.functions
             && (t.functions[other].fn.name, t.functions[other].fn.filePath) == (name, path)
               && top < length <= bound :: !HasWalk(t, repo, names, other, length)
    ensures exists longest: nat ::
            d <= longest && IsLongest(t, repo, names, bound, AffectedFunction(name, path, longest))
    decreases top
  {
    if other: Id :| other in t.functions && (t.functions[other].fn.name, t.functions[other].fn.filePath) == (name, path)
                    && HasWalk(t, repo, names, other, top) {
      assert IsLongest(t, repo, names, bound, AffectedFunction(name, path, top));
    } else {
      LongestExists(t, repo, names, bound, name, path, id, d, top - 1);
    }
  }

  /** SELECT DISTINCT name ... ORDER BY name: the names of the functions in the files. */
  method GetFunctionsByFilePaths(t: Tables, repo: RepoId, filePaths: seq<Path>) returns (result: seq<string>)
    ensures Sorted(result, StringLeq) && Distinct(result)
    ensures forall name :: name in result <==>
              exists id: Id :: id in t.functions && t.functions[id].repo == repo
                               && t.functions[id].fn.filePath in filePaths && t.functions[id].fn.name == name
  {
    result := [];
    if filePaths == [] {
      return;
    }
    var names := set id | id in FileFunctions(t, repo, set p | p in filePaths) :: t.functions[id].fn.name;
    var rest := names;
    while rest != {}
      invariant rest <= names && Distinct(result)
      invariant forall name :: name in result <==> name in names - rest
      decreases rest
    {
      var name :| name in rest;
      assert forall i | 0 <= i < |result| :: result[i] in result;
      result, rest := result + [name], rest - {name};
    }
    StringOrder();
    SortSorts(result, StringLeq);
    DistinctRearranged(result, Sort(result, StringLeq));
    result := Sort(result, StringLeq);
  }
}
