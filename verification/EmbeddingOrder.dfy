/** The embeddings response lists its vectors in any order: sorting and checking the
    indices puts each in the slot of its text, or refuses the response. */
module EmbeddingOrder {
  import opened Text
  import opened Sorting
  import opened Vectors

  datatype Item = Item(index: int, embedding: Vector)

  function Indices(items: seq<Item>): seq<int> {
    seq(|items|, i requires 0 <= i < |items| => items[i].index)
  }

  function UpTo(n: nat): seq<int> {
    seq(n, i => i)
  }

  predicate IndexLeq(a: Item, b: Item) {
    a.index <= b.index
  }

  /** Every index below n occurs exactly once. */
  ghost predicate IndexesAll(items: seq<Item>, n: nat) {
    multiset(Indices(items)) == multiset(UpTo(n))
  }

  lemma WithoutOne(items: seq<Item>, i: int)
    requires 0 <= i < |items|
    ensures multiset(items[..i] + items[i + 1..]) == multiset(items) - multiset{items[i]}
    ensures multiset(Indices(items)) == multiset(Indices(items[..i] + items[i + 1..])) + multiset{items[i].index}
  {
    var all, rest := Indices(items), Indices(items[..i] + items[i + 1..]);
    assert items == items[..i] + [items[i]] + items[i + 1..];
    assert rest == all[..i] + all[i + 1..];
    assert all == all[..i] + [all[i]] + all[i + 1..];
  }

  lemma {:induction false} IndicesOfMultiset(a: seq<Item>, b: seq<Item>)
    requires multiset(a) == multiset(b)
    ensures multiset(Indices(a)) == multiset(Indices(b))
  {
    hide Indices;
    if a == [] {
      assert |multiset(b)| == 0;
    } else {
      assert a[0] in multiset(b);
      var i :| 0 <= i < |b| && b[i] == a[0];
      WithoutOne(a, 0);
      WithoutOne(b, i);
      IndicesOfMultiset(a[..0] + a[1..], b[..i] + b[i + 1..]);
    }
  }

  /** Sorted, the indices are exactly 0, 1, 2, ... if and only if each occurs once. */
  lemma SortedIndices(items: seq<Item>, n: nat)
    ensures Indices(Sort(items, IndexLeq)) == UpTo(n) <==> IndexesAll(items, n)
    ensures multiset(Sort(items, IndexLeq)) == multiset(items) && |Sort(items, IndexLeq)| == |items|
  {
    var sorted := Sort(items, IndexLeq);
    var leq := (a: int, b: int) => a <= b;
    assert TotalPreorder(IndexLeq) && TotalOrder(leq);
    SortSorts(items, IndexLeq);
    IndicesOfMultiset(sorted, items);
    if IndexesAll(items, n) {
      forall i, j | 0 <= i < j < |sorted| ensures leq(Indices(sorted)[i], Indices(sorted)[j]) {
        assert IndexLeq(sorted[i], sorted[j]);
      }
      SortedUnique(Indices(sorted), UpTo(n), leq);
    }
  }

  /** Accepted exactly when there is one vector per text, the indices are a permutation
      of the texts' and every vector has the dimension; each vector then lies at its
      own index, wherever it stood in the response. */
  method Reorder(items: seq<Item>, n: nat) returns (r: Result<seq<Vector>>)
    ensures r.Ok? <==> IndexesAll(items, n) && forall item <- items :: Fits(item.embedding)
    ensures r.Ok? ==> |r.value| == n
                      && forall item <- items :: 0 <= item.index < n && r.value[item.index] == item.embedding
  {
    var data := Sort(items, IndexLeq);
    SortedIndices(items, n);
    SameItems(items, data);
    LengthOfAll(items, n);
    if |items| != n {
      return Err("count mismatch");
    }
    var vectors: seq<Vector> := [];
    for i := 0 to n
      invariant |vectors| == i
      invariant forall j | 0 <= j < i ::
                data[j].index == j && Fits(data[j].embedding) && vectors[j] == data[j].embedding
    {
      hide Sort, IndexesAll;
      if data[i].index != i {
        assert Indices(data)[i] != UpTo(n)[i];
        return Err("index mismatch");
      }
      if |data[i].embedding| != DIMENSION {
        assert data[i] in items;
        return Err("dimension mismatch");
      }
      vectors := vectors + [data[i].embedding];
    }
    assert Indices(data) == UpTo(n);
    forall item | item in items
      ensures 0 <= item.index < n && Fits(item.embedding) && vectors[item.index] == item.embedding
    {
      var j :| 0 <= j < |data| && data[j] == item;
    }
    r := Ok(vectors);
  }

  lemma SameItems(a: seq<Item>, b: seq<Item>)
    requires multiset(a) == multiset(b)
    ensures forall item :: item in a <==> item in b
  {
    forall item ensures item in a <==> item in b {
      assert item in multiset(a) <==> item in multiset(b);
    }
  }

  lemma LengthOfAll(items: seq<Item>, n: nat)
    ensures IndexesAll(items, n) ==> |items| == n
  {
    assert |multiset(Indices(items))| == |items| && |multiset(UpTo(n))| == n;
  }
}
