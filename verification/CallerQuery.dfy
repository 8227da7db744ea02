/** The recursive caller query, evaluated as PostgreSQL evaluates WITH RECURSIVE ...
    UNION: a working table, and only rows not seen before going round again
    (section 7.8.2 of the PostgreSQL manual). */
module CallerQuery {
  import opened Text
  import opened Sorting
  import opened Snapshots
  import opened IndexTables

  /** A row of the recursive table; name and file path follow from the id. */
  datatype CallerRow = CallerRow(id: Id, depth: nat)

  datatype AffectedFunction = AffectedFunction(name: string, filePath: Path, depth: nat)

  predicate IsSeed(t: Tables, repo: RepoId, names: seq<string>, id: Id) {
    id in t.functions && t.functions[id].repo == repo && t.functions[id].fn.name in names
  }

  /** The call walk w starts at w[0], each function calling the next, and ends at a seed. */
  ghost predicate IsCallWalk(t: Tables, repo: RepoId, names: seq<string>, w: seq<Id>) {
    && w != []
    && (forall i | 0 <= i < |w| - 1 :: (w[i], w[i + 1]) in t.callEdges && w[i] in t.functions)
    && IsSeed(t, repo, names, w[|w| - 1])
  }

  ghost predicate HasWalk(t: Tables, repo: RepoId, names: seq<string>, id: Id, length: nat) {
    exists w :: IsCallWalk(t, repo, names, w) && |w| == length + 1 && w[0] == id
  }

  lemma StepBack(t: Tables, repo: RepoId, names: seq<string>, caller: Id, callee: Id, length: nat)
    requires HasWalk(t, repo, names, callee, length) && (caller, callee) in t.callEdges && caller in t.functions
    ensures HasWalk(t, repo, names, caller, length + 1)
  {
    var w :| IsCallWalk(t, repo, names, w) && |w| == length + 1 && w[0] == callee;
    assert IsCallWalk(t, repo, names, [caller] + w);
  }

  lemma StepForward(t: Tables, repo: RepoId, names: seq<string>, caller: Id, length: nat) returns (callee: Id)
    requires length > 0 && HasWalk(t, repo, names, caller, length)
    ensures HasWalk(t, repo, names, callee, length - 1) && (caller, callee) in t.callEdges && caller in t.functions
  {
    var w :| IsCallWalk(t, repo, names, w) && |w| == length + 1 && w[0] == caller;
    callee := w[1];
    assert IsCallWalk(t, repo, names, w[1..]);
  }

  lemma WalkOfNoCalls(t: Tables, repo: RepoId, names: seq<string>, id: Id)
    ensures HasWalk(t, repo, names, id, 0) <==> IsSeed(t, repo, names, id)
  {
    if IsSeed(t, repo, names, id) {
      assert IsCallWalk(t, repo, names, [id]);
    }
  }

  function Seeds(t: Tables, repo: RepoId, names: seq<string>): set<CallerRow> {
    set id | id in t.functions && IsSeed(t, repo, names, id) :: CallerRow(id, 0)
  }

  /** The recursive term, over the working table. */
  function Expand(t: Tables, working: set<CallerRow>, bound: nat): set<CallerRow> {
    set c, e | c in working && e in t.callEdges && e.1 == c.id && e.0 in t.functions && c.depth < bound
      :: CallerRow(e.0, c.depth + 1)
  }

  /** The rows of one depth. */
  ghost predicate IsLevel(t: Tables, repo: RepoId, names: seq<string>, rows: set<CallerRow>, depth: nat) {
    forall r :: r in rows <==> r.depth == depth && HasWalk(t, repo, names, r.id, depth)
  }

  /** rows holds (f, d) exactly when some call walk of length d, at most depth, leads from f to a seed. */
  ghost predicate IsClosure(t: Tables, repo: RepoId, names: seq<string>, rows: set<CallerRow>, depth: nat) {
    forall r :: r in rows <==> r.depth <= depth && HasWalk(t, repo, names, r.id, r.depth)
  }

  lemma ExpandLevel(t: Tables, repo: RepoId, names: seq<string>, working: set<CallerRow>, bound: nat, depth: nat)
    requires IsLevel(t, repo, names, working, depth)
    ensures depth < bound ==> IsLevel(t, repo, names, Expand(t, working, bound), depth + 1)
    ensures depth >= bound ==> Expand(t, working, bound) == {}
  {
    var next := Expand(t, working, bound);
    if depth < bound {
      forall r ensures r in next <==> r.depth == depth + 1 && HasWalk(t, repo, names, r.id, depth + 1) {
        if r in next {
          var c, e :| c in working && e in t.callEdges && e.1 == c.id && e.0 in t.functions
                      && r == CallerRow(e.0, c.depth + 1);
          StepBack(t, repo, names, e.0, e.1, depth);
        }
        if r.depth == depth + 1 && HasWalk(t, repo, names, r.id, depth + 1) {
          var callee := StepForward(t, repo, names, r.id, depth + 1);
          assert CallerRow(callee, depth) in working && (r.id, callee) in t.callEdges;
        }
      }
    }
  }

  /** When no walk has the given length, none is longer. */
  lemma {:induction false} NoLongerWalks(t: Tables, repo: RepoId, names: seq<string>, depth: nat, id: Id, length: nat)
    requires depth <= length && forall other :: !HasWalk(t, repo, names, other, depth)
    ensures !HasWalk(t, repo, names, id, length)
    decreases length
  {
    if depth < length && HasWalk(t, repo, names, id, length) {
      var callee := StepForward(t, repo, names, id, length);
      NoLongerWalks(t, repo, names, depth, callee, length - 1);
    }
  }

  /** The iteration stops on every graph, cyclic ones included, and computes the closure. */
  method IterateCallers(t: Tables, repo: RepoId, names: seq<string>, bound: nat) returns (rows: set<CallerRow>)
    ensures IsClosure(t, repo, names, rows, bound)
  {
    rows := Seeds(t, repo, names);
    var working := rows;
    ghost var depth: nat := 0;
    forall id: Id ensures HasWalk(t, repo, names, id, 0) <==> IsSeed(t, repo, names, id) {
      WalkOfNoCalls(t, repo, names, id);
    }
    if working == {} {
      NothingBeyond(t, repo, names, working, 0);
    }
    while working != {}
      invariant depth <= bound
      invariant IsClosure(t, repo, names, rows, if working == {} then bound else depth)
      invariant working != {} ==> IsLevel(t, repo, names, working, depth)
      decreases bound - depth, working != {}
    {
      ExpandLevel(t, repo, names, working, bound, depth);
      var intermediate := Expand(t, working, bound) - rows;
      assert intermediate == Expand(t, working, bound);
      if intermediate == {} && depth < bound {
        NothingBeyond(t, repo, names, intermediate, depth + 1);
      }
      rows := rows + intermediate;
      working := intermediate;
      if working != {} {
        depth := depth + 1;
      }
    }
  }

  lemma NothingBeyond(t: Tables, repo: RepoId, names: seq<string>, level: set<CallerRow>, depth: nat)
    requires IsLevel(t, repo, names, level, depth) && level == {}
    ensures forall id: Id, length: nat | depth <= length :: !HasWalk(t, repo, names, id, length)
  {
    forall other: Id ensures !HasWalk(t, repo, names, other, depth) {
      assert CallerRow(other, depth) !in level;
    }
    forall id: Id, length: nat | depth <= length ensures !HasWalk(t, repo, names, id, length) {
      NoLongerWalks(t, repo, names, depth, id, length);
    }
  }

  // Grouping and order of the final SELECT.

  function GroupOf(t: Tables, row: CallerRow): (string, Path)
    requires row.id in t.functions
  {
    (t.functions[row.id].fn.name, t.functions[row.id].fn.filePath)
  }

  predicate AffectedLeq(a: AffectedFunction, b: AffectedFunction) {
    || a.depth < b.depth
    || (a.depth == b.depth
        && ((a.name != b.name && StringLeq(a.name, b.name)) || (a.name == b.name && StringLeq(a.filePath, b.filePath))))
  }

  lemma AffectedOrder()
    ensures TotalOrder(AffectedLeq)
  {
    forall a: AffectedFunction, b: AffectedFunction
      ensures AffectedLeq(a, b) || AffectedLeq(b, a)
      ensures AffectedLeq(a, b) && AffectedLeq(b, a) ==> a == b
    {
      StringLeqTotal(a.name, b.name);
      StringLeqTotal(a.filePath, b.filePath);
    }
    forall a: AffectedFunction, b: AffectedFunction, c: AffectedFunction | AffectedLeq(a, b) && AffectedLeq(b, c)
      ensures AffectedLeq(a, c)
    {
      AffectedLeqTransitive(a, b, c);
    }
  }

  lemma AffectedLeqTransitive(a: AffectedFunction, b: AffectedFunction, c: AffectedFunction)
    requires AffectedLeq(a, b) && AffectedLeq(b, c)
    ensures AffectedLeq(a, c)
  {
    StringLeqTotal(a.name, b.name);
    StringLeqTotal(b.name, c.name);
    if StringLeq(a.name, b.name) && StringLeq(b.name, c.name) {
      StringLeqTransitive(a.name, b.name, c.name);
      if a.name == c.name {
        assert StringLeq(b.name, a.name);
      }
    }
    if StringLeq(a.filePath, b.filePath) && StringLeq(b.filePath, c.filePath) {
      StringLeqTransitive(a.filePath, b.filePath, c.filePath);
    }
  }

  /** The row of the answer for a function name and file: the longest call walk to a
      seed, within the bound, from a function of that name and file. */
  ghost predicate IsLongest(t: Tables, repo: RepoId, names: seq<string>, bound: nat, a: AffectedFunction) {
    && a.depth <= bound
    && (exists id: Id :: id in t.functions
                         && (t.functions[id].fn.name, t.functions[id].fn.filePath) == (a.name, a.filePath)
                         && HasWalk(t, repo, names, id, a.depth))
    && (forall id: Id, d: nat | id in t.functions && (t.functions[id].fn.name, t.functions[id].fn.filePath) ==
       (a.name, a.filePath)
                                && d <= bound && HasWalk(t, repo, names, id, d) :: d <= a.depth)
  }

  /** SELECT name, file_path, MAX(depth) ... GROUP BY name, file_path. */
  method GroupRows(t: Tables, rows: set<CallerRow>) returns (best: map<(string, Path), nat>)
    requires forall r <- rows :: r.id in t.functions
    ensures forall k <- best :: exists r :: r in rows && GroupOf(t, r) == k && r.depth == best[k]
    ensures forall r <- rows :: GroupOf(t, r) in best && r.depth <= best[GroupOf(t, r)]
  {
    best := map[];
    var rest := rows;
    while rest != {}
      invariant rest <= rows
      invariant forall k <- best :: exists r :: r in rows && GroupOf(t, r) == k && r.depth == best[k]
      invariant forall r <- rows | r !in rest :: GroupOf(t, r) in best && r.depth <= best[GroupOf(t, r)]
      decreases rest
    {
      var r :| r in rest;
      var k := GroupOf(t, r);
      if k !in best || best[k] < r.depth {
        best := best[k := r.depth];
      }
      rest := rest - {r};
    }
  }

  /** ORDER BY depth, name, file_path. */
  method OrderGroups(best: map<(string, Path), nat>) returns (result: seq<AffectedFunction>)
    ensures Sorted(result, AffectedLeq)
    ensures |result| == |best|
    ensures forall a :: a in result <==> (a.name, a.filePath) in best && a.depth == best[(a.name, a.filePath)]
  {
    result := [];
    var rest := best.Keys;
    while rest != {}
      invariant rest <= best.Keys
      invariant |result| + |rest| == |best|
      invariant forall a :: a in result <==>
                (a.name, a.filePath) in best.Keys - rest && a.depth == best[(a.name, a.filePath)]
      decreases rest
    {
      var k :| k in rest;
      result := result + [AffectedFunction(k.0, k.1, best[k])];
      rest := rest - {k};
    }
    AffectedOrder();
    SortSorts(result, AffectedLeq);
    result := Sort(result, AffectedLeq);
  }

  lemma WalkersAreStored(t: Tables, repo: RepoId, names: seq<string>, id: Id, length: nat)
    requires HasWalk(t, repo, names, id, length)
    ensures id in t.functions
  {
    if length == 0 {
      WalkOfNoCalls(t, repo, names, id);
    } else {
      var callee := StepForward(t, repo, names, id, length);
    }
  }

  /** The answer lists, sorted and each once, exactly the longest walks. */
  method GetCallersByDepth(t: Tables, repo: RepoId, functionNames: seq<string>,
                           depth: int) returns (result: seq<AffectedFunction>)
    ensures Sorted(result, AffectedLeq)
    ensures forall i, j | 0 <= i < j < |result| :: result[i] != result[j]
    ensures forall a :: a in result <==> IsLongest(t, repo, functionNames, if depth < 0 then 0 else depth, a)
  {
    var bound: nat := if depth < 0 then 0 else depth;
    if functionNames == [] {
      forall a ensures !IsLongest(t, repo, functionNames, bound, a) {
        NoSeedsNoWalks(t, repo);
      }
      return [];
    }
    var rows := IterateCallers(t, repo, functionNames, bound);
    forall r | r in rows ensures r.id in t.functions {
      WalkersAreStored(t, repo, functionNames, r.id, r.depth);
    }
    var best := GroupRows(t, rows);
    result := OrderGroups(best);
    forall a ensures a in result <==> IsLongest(t, repo, functionNames, bound, a) {
      GroupIsLongest(t, repo, functionNames, bound, rows, best, a);
    }
    KeysListedOnce(result, best);
  }

  lemma NoSeedsNoWalks(t: Tables, repo: RepoId)
    ensures forall id: Id, length: nat :: !HasWalk(t, repo, [], id, length)
  {
  }

  lemma GroupIsLongest(t: Tables, repo: RepoId, names: seq<string>, bound: nat, rows: set<CallerRow>,
                       best: map<(string, Path), nat>, a: AffectedFunction)
    requires IsClosure(t, repo, names, rows, bound) && forall r <- rows :: r.id in t.functions
    requires forall k <- best :: exists r :: r in rows && GroupOf(t, r) == k && r.depth == best[k]
    requires forall r <- rows :: GroupOf(t, r) in best && r.depth <= best[GroupOf(t, r)]
    ensures (a.name, a.filePath) in best && a.depth == best[(a.name, a.filePath)] <==>
            IsLongest(t, repo, names, bound, a)
  {
    var k := (a.name, a.filePath);
    if k in best && a.depth == best[k] {
      var r :| r in rows && GroupOf(t, r) == k && r.depth == best[k];
      forall id: Id, d: nat | id in t.functions && (t.functions[id].fn.name, t.functions[id].fn.filePath) == k
                              && d <= bound && HasWalk(t, repo, names, id, d)
        ensures d <= a.depth
      {
        assert CallerRow(id, d) in rows;
      }
    }
    if IsLongest(t, repo, names, bound, a) {
      var id: Id :| id in t.functions && (t.functions[id].fn.name, t.functions[id].fn.filePath) == k
                    && HasWalk(t, repo, names, id, a.depth);
      assert CallerRow(id, a.depth) in rows;
      var r :| r in rows && GroupOf(t, r) == k && r.depth == best[k];
    }
  }

  lemma KeysListedOnce(result: seq<AffectedFunction>, best: map<(string, Path), nat>)
    requires |result| == |best|
    requires forall a :: a in result <==> (a.name, a.filePath) in best && a.depth == best[(a.name, a.filePath)]
    ensures forall i, j | 0 <= i < j < |result| :: result[i] != result[j]
  {
    var rows := set k | k in best :: AffectedFunction(k.0, k.1, best[k]);
    RowsOfMap(best, best.Keys);
    assert forall a :: a in result <==> a in rows;
    NoDuplicates(result, rows);
  }

  lemma RowsOfMap(best: map<(string, Path), nat>, keys: set<(string, Path)>)
    requires keys <= best.Keys
    ensures |set k | k in keys :: AffectedFunction(k.0, k.1, best[k])| == |keys|
  {
    var rows := set k | k in keys :: AffectedFunction(k.0, k.1, best[k]);
    if keys != {} {
      var k :| k in keys;
      RowsOfMap(best, keys - {k});
      assert rows == (set k' | k' in keys - {k} :: AffectedFunction(k'.0, k'.1, best[k']))
                     + {AffectedFunction(k.0, k.1, best[k])};
    }
  }

  lemma {:induction false} NoDuplicates(s: seq<AffectedFunction>, elements: set<AffectedFunction>)
    requires |s| == |elements| && forall a :: a in s <==> a in elements
    ensures forall i, j | 0 <= i < j < |s| :: s[i] != s[j]
  {
    if s != [] {
      var front, last := s[..|s| - 1], s[|s| - 1];
      assert s == front + [last];
      if last in front {
        SetOfSeqIsSmall(front, elements);
        assert false;
      }
      NoDuplicates(front, elements - {last});
    }
  }

  lemma {:induction false} SetOfSeqIsSmall(s: seq<AffectedFunction>, elements: set<AffectedFunction>)
    requires forall a <- elements :: a in s
    ensures |elements| <= |s|
  {
    if s == [] {
      assert elements == {};
    } else {
      var front, last := s[..|s| - 1], s[|s| - 1];
      assert s == front + [last];
      SetOfSeqIsSmall(front, elements - {last});
    }
  }
}
