/** Sorting as Go's sort package is used here: the result is determined by the
    elements alone, whichever algorithm produced it. */
module Sorting {
  import opened Text

  ghost predicate TotalPreorder<T(!new)>(leq: (T, T) -> bool) {
    && (forall x, y :: leq(x, y) || leq(y, x))
    && (forall x, y, z :: leq(x, y) && leq(y, z) ==> leq(x, z))
  }

  ghost predicate TotalOrder<T(!new)>(leq: (T, T) -> bool) {
    && TotalPreorder(leq)
    && (forall x, y :: leq(x, y) && leq(y, x) ==> x == y)
  }

  ghost predicate Sorted<T>(s: seq<T>, leq: (T, T) -> bool) {
    forall i, j | 0 <= i < j < |s| :: leq(s[i], s[j])
  }

  function Insert<T>(x: T, s: seq<T>, leq: (T, T) -> bool): seq<T> {
    if s == [] || leq(x, s[0]) then [x] + s else [s[0]] + Insert(x, s[1..], leq)
  }

  function Sort<T>(s: seq<T>, leq: (T, T) -> bool): seq<T> {
    if s == [] then [] else Insert(s[0], Sort(s[1..], leq), leq)
  }

  lemma {:induction false} InsertSorts<T(!new)>(x: T, s: seq<T>, leq: (T, T) -> bool)
    requires TotalPreorder(leq) && Sorted(s, leq)
    ensures multiset(Insert(x, s, leq)) == multiset{x} + multiset(s)
    ensures Sorted(Insert(x, s, leq), leq)
  {
    if s == [] {
    } else if leq(x, s[0]) {
      assert multiset([x] + s) == multiset{x} + multiset(s);
    } else {
      InsertSorts(x, s[1..], leq);
      var rest := Insert(x, s[1..], leq);
      assert s == [s[0]] + s[1..];
      forall j | 0 <= j < |rest| ensures leq(s[0], rest[j]) {
        assert rest[j] in multiset(rest);
        assert rest[j] == x || rest[j] in s[1..];
      }
    }
  }

  lemma {:induction false} SortSorts<T(!new)>(s: seq<T>, leq: (T, T) -> bool)
    requires TotalPreorder(leq)
    ensures multiset(Sort(s, leq)) == multiset(s)
    ensures Sorted(Sort(s, leq), leq)
    ensures forall x :: x in Sort(s, leq) <==> x in s
    ensures |Sort(s, leq)| == |s|
  {
    if s != [] {
      SortSorts(s[1..], leq);
      InsertSorts(s[0], Sort(s[1..], leq), leq);
      assert s == [s[0]] + s[1..];
    }
    assert |multiset(Sort(s, leq))| == |multiset(s)|;
    forall x ensures x in Sort(s, leq) <==> x in s {
      assert x in multiset(s) <==> x in multiset(Sort(s, leq));
    }
  }

  lemma MultisetTail<T>(s: seq<T>)
    requires s != []
    ensures multiset(s[1..]) == multiset(s) - multiset{s[0]}
  {
    assert s == [s[0]] + s[1..];
  }

  lemma MultisetFront<T>(s: seq<T>)
    requires s != []
    ensures multiset(s) == multiset(s[..|s| - 1]) + multiset{s[|s| - 1]}
  {
    assert s == s[..|s| - 1] + [s[|s| - 1]];
  }

  lemma SortedTail<T>(s: seq<T>, leq: (T, T) -> bool)
    requires s != [] && Sorted(s, leq)
    ensures Sorted(s[1..], leq)
  {
  }

  lemma SameLength<T>(s: seq<T>, t: seq<T>)
    requires multiset(s) == multiset(t)
    ensures |s| == |t|
  {
    assert |multiset(s)| == |s| && |multiset(t)| == |t|;
  }

  /** Two sorted arrangements of one multiset are the same sequence. */
  lemma {:induction false} SortedUnique<T(!new)>(s: seq<T>, t: seq<T>, leq: (T, T) -> bool)
    requires TotalOrder(leq)
    requires Sorted(s, leq) && Sorted(t, leq) && multiset(s) == multiset(t)
    ensures s == t
  {
    hide TotalOrder, Sorted;
    SameLength(s, t);
    if s != [] {
      SameHead(s, t, leq);
      MultisetTail(s);
      MultisetTail(t);
      SortedTail(s, leq);
      SortedTail(t, leq);
      SortedUnique(s[1..], t[1..], leq);
      assert s == [s[0]] + s[1..] && t == [t[0]] + t[1..];
    }
  }

  lemma SameHead<T(!new)>(s: seq<T>, t: seq<T>, leq: (T, T) -> bool)
    requires TotalOrder(leq) && s != [] && t != []
    requires Sorted(s, leq) && Sorted(t, leq) && multiset(s) == multiset(t)
    ensures s[0] == t[0]
  {
    LeastFirst(s, t[0], leq);
    LeastFirst(t, s[0], leq);
  }

  lemma LeastFirst<T(!new)>(s: seq<T>, x: T, leq: (T, T) -> bool)
    requires TotalOrder(leq) && Sorted(s, leq) && s != [] && x in multiset(s)
    ensures leq(s[0], x)
  {
    var i :| 0 <= i < |s| && s[i] == x;
    assert leq(s[0], s[0]);
  }

  lemma StringOrder()
    ensures TotalOrder(StringLeq)
  {
    forall x, y ensures (StringLeq(x, y) || StringLeq(y, x)) && (StringLeq(x, y) && StringLeq(y, x) ==> x == y) {
      StringLeqTotal(x, y);
    }
    forall x, y, z | StringLeq(x, y) && StringLeq(y, z) ensures StringLeq(x, z) {
      StringLeqTransitive(x, y, z);
    }
  }

  predicate IntLeq(a: Int64, b: Int64) {
    a <= b
  }

  /** The elements of the set in increasing order, each once. */
  ghost predicate IsAscending(s: seq<Int64>, elements: set<Int64>) {
    && (forall i, j | 0 <= i < j < |s| :: s[i] < s[j])
    && (forall x :: x in s <==> x in elements)
  }

  lemma {:induction false} GreatestExists(s: set<Int64>)
    requires s != {}
    ensures exists m :: m in s && forall x :: x in s ==> x <= m
    decreases s
  {
    var x :| x in s;
    var rest := s - {x};
    var m := x;
    if rest != {} {
      GreatestExists(rest);
      var top :| top in rest && forall y :: y in rest ==> y <= top;
      m := if top < x then x else top;
    }
    forall y | y in s ensures y <= m {
      assert y == x || y in rest;
    }
    assert m in s;
  }

  lemma {:induction false} AscendingExists(elements: set<Int64>)
    ensures exists s :: IsAscending(s, elements)
    decreases |elements|
  {
    if elements == {} {
      assert IsAscending([], elements);
    } else {
      GreatestExists(elements);
      var top :| top in elements && forall x :: x in elements ==> x <= top;
      var rest := elements - {top};
      AscendingExists(rest);
      var s :| IsAscending(s, rest);
      forall i | 0 <= i < |s| ensures s[i] < top {
        assert s[i] in s;
      }
      assert IsAscending(s + [top], elements);
    }
  }

  lemma {:induction false} AscendingUnique(a: seq<Int64>, b: seq<Int64>, elements: set<Int64>)
    requires IsAscending(a, elements) && IsAscending(b, elements)
    ensures a == b
  {
    var first := if b != [] then b[0] else 0;
    assert b != [] ==> first in b;
    if a == [] {
      assert elements == {};
    } else {
      assert a[0] in b && a[0] in elements;
      assert b[0] in a;
      assert a[0] == b[0];
      assert a == [a[0]] + a[1..] && b == [b[0]] + b[1..];
      AscendingUnique(a[1..], b[1..], elements - {a[0]});
    }
  }

  ghost function SortedInts(elements: set<Int64>): (s: seq<Int64>)
    ensures IsAscending(s, elements)
    ensures forall i | 0 <= i < |s| :: s[i] in elements
  {
    AscendingExists(elements);
    var s :| IsAscending(s, elements);
    assert forall i | 0 <= i < |s| :: s[i] in s;
    s
  }

  /** sort.Ints over the keys of a map, which come in any order. */
  method CollectSorted(elements: set<Int64>) returns (s: seq<Int64>)
    ensures s == SortedInts(elements)
  {
    s := [];
    var rest := elements;
    while rest != {}
      invariant rest <= elements
      invariant forall x :: x in s <==> x in elements - rest
      invariant forall i, j | 0 <= i < j < |s| :: s[i] != s[j]
      decreases rest
    {
      var x :| x in rest;
      assert forall i | 0 <= i < |s| :: s[i] in s;
      assert x !in s;
      s, rest := s + [x], rest - {x};
    }
    assert TotalOrder(IntLeq);
    SortSorts(s, IntLeq);
    SortedDistinct(s, Sort(s, IntLeq));
    s := Sort(s, IntLeq);
    AscendingUnique(s, SortedInts(elements), elements);
  }

  lemma SortedDistinct(s: seq<Int64>, sorted: seq<Int64>)
    requires multiset(s) == multiset(sorted) && Sorted(sorted, IntLeq)
    requires forall i, j | 0 <= i < j < |s| :: s[i] != s[j]
    ensures forall i, j | 0 <= i < j < |sorted| :: sorted[i] < sorted[j]
  {
    DistinctRearranged(s, sorted);
    forall i, j | 0 <= i < j < |sorted| ensures sorted[i] < sorted[j] {
      assert IntLeq(sorted[i], sorted[j]);
    }
  }

  /** A rearrangement of distinct elements is distinct. */
  lemma DistinctRearranged<T>(s: seq<T>, t: seq<T>)
    requires multiset(s) == multiset(t)
    requires forall i, j | 0 <= i < j < |s| :: s[i] != s[j]
    ensures forall i, j | 0 <= i < j < |t| :: t[i] != t[j]
  {
    forall i, j | 0 <= i < j < |t| ensures t[i] != t[j] {
      if t[i] == t[j] {
        assert t == t[..j] + [t[j]] + t[j + 1..];
        assert t[i] in t[..j];
        assert multiset(t)[t[j]] >= 2;
        OnceEach(s, t[j]);
        assert false;
      }
    }
  }

  lemma {:induction false} OnceEach<T>(s: seq<T>, x: T)
    requires forall i, j | 0 <= i < j < |s| :: s[i] != s[j]
    ensures multiset(s)[x] <= 1
  {
    if s != [] {
      var front := s[..|s| - 1];
      assert s == front + [s[|s| - 1]];
      OnceEach(front, x);
      assert s[|s| - 1] !in front;
    }
  }
}
