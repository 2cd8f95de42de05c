/** Stable sorting: what Python's sorted() returns for a key whose order is given as `le`. */
module StableSort {

  ghost predicate Preorder<T(!new)>(le: (T, T) -> bool) {
    && (forall a, b :: le(a, b) || le(b, a))
    && (forall a, b, c :: le(a, b) && le(b, c) ==> le(a, c))
  }

  ghost predicate Sorted<T(!new)>(le: (T, T) -> bool, xs: seq<T>) {
    forall i, j :: 0 <= i < j < |xs| ==> le(xs[i], xs[j])
  }

  function Filter<T>(p: T -> bool, xs: seq<T>): seq<T> {
    if xs == [] then []
    else if p(xs[0]) then [xs[0]] + Filter(p, xs[1..])
    else Filter(p, xs[1..])
  }

  // The elements that compare equal to a.
  function Like<T>(le: (T, T) -> bool, a: T): T -> bool {
    x => le(a, x) && le(x, a)
  }

  function Insert<T>(le: (T, T) -> bool, x: T, ys: seq<T>): seq<T> {
    if ys == [] then [x]
    else if le(x, ys[0]) then [x] + ys
    else [ys[0]] + Insert(le, x, ys[1..])
  }

  function Sort<T>(le: (T, T) -> bool, xs: seq<T>): seq<T> {
    if xs == [] then [] else Insert(le, xs[0], Sort(le, xs[1..]))
  }

  // ---------- sorted, a permutation ----------

  lemma {:induction false} InsertPermutes<T(!new)>(le: (T, T) -> bool, x: T, ys: seq<T>)
    ensures multiset(Insert(le, x, ys)) == multiset{x} + multiset(ys)
    ensures forall y :: y in Insert(le, x, ys) ==> y == x || y in ys
  {
    var out := Insert(le, x, ys);
    if ys != [] && !le(x, ys[0]) {
      InsertPermutes(le, x, ys[1..]);
      assert ys == [ys[0]] + ys[1..];
    }
  }

  lemma ConsSorted<T(!new)>(le: (T, T) -> bool, x: T, ys: seq<T>)
    requires Sorted(le, ys) && forall y :: y in ys ==> le(x, y)
    ensures Sorted(le, [x] + ys)
  {
    var zs := [x] + ys;
    forall i, j | 0 <= i < j < |zs|
      ensures le(zs[i], zs[j])
    {
      assert zs[j] == ys[j - 1];
      assert i > 0 ==> zs[i] == ys[i - 1];
    }
  }

  lemma {:induction false} InsertSorted<T(!new)>(le: (T, T) -> bool, x: T, ys: seq<T>)
    requires Preorder(le) && Sorted(le, ys)
    ensures Sorted(le, Insert(le, x, ys))
    ensures multiset(Insert(le, x, ys)) == multiset{x} + multiset(ys)
  {
    InsertPermutes(le, x, ys);
    if ys != [] {
      HeadIsLeast(le, ys);
      if le(x, ys[0]) {
        ConsSorted(le, x, ys);
      } else {
        InsertSorted(le, x, ys[1..]);
        InsertPermutes(le, x, ys[1..]);
        assert forall y :: y in ys[1..] ==> y in ys;
        ConsSorted(le, ys[0], Insert(le, x, ys[1..]));
      }
    }
  }

  lemma HeadIsLeast<T(!new)>(le: (T, T) -> bool, ys: seq<T>)
    requires Preorder(le) && Sorted(le, ys) && ys != []
    ensures forall y :: y in ys ==> le(ys[0], y)
    ensures forall x, y :: le(x, ys[0]) && y in ys ==> le(x, y)
  {
    forall y | y in ys
      ensures le(ys[0], y)
    {
      var j :| 0 <= j < |ys| && ys[j] == y;
      assert le(ys[0], ys[0]);
    }
  }

  lemma {:induction false} SortSorts<T(!new)>(le: (T, T) -> bool, xs: seq<T>)
    requires Preorder(le)
    ensures Sorted(le, Sort(le, xs)) && multiset(Sort(le, xs)) == multiset(xs)
  {
    if xs != [] {
      SortSorts(le, xs[1..]);
      InsertSorted(le, xs[0], Sort(le, xs[1..]));
      assert xs == [xs[0]] + xs[1..];
    }
  }

  // ---------- filtering commutes with sorting ----------

  lemma {:induction false} FilterMembers<T(!new)>(p: T -> bool, xs: seq<T>)
    ensures forall x :: x in Filter(p, xs) <==> x in xs && p(x)
  {
    if xs != [] {
      FilterMembers(p, xs[1..]);
      assert xs == [xs[0]] + xs[1..];
    }
  }

  // A filter keeps every accepted element as often as it stands in the list.
  lemma {:induction false} FilterCounts<T(!new)>(p: T -> bool, xs: seq<T>, x: T)
    ensures multiset(Filter(p, xs))[x] == if p(x) then multiset(xs)[x] else 0
  {
    if xs != [] {
      FilterCounts(p, xs[1..], x);
      assert xs == [xs[0]] + xs[1..];
    }
  }

  lemma InsertFirst<T(!new)>(le: (T, T) -> bool, x: T, ys: seq<T>)
    requires forall y :: y in ys ==> le(x, y)
    ensures Insert(le, x, ys) == [x] + ys
  {
    if ys != [] {
      assert ys[0] in ys;
    }
  }

  lemma {:induction false} FilterInsert<T(!new)>(le: (T, T) -> bool, p: T -> bool, x: T, ys: seq<T>)
    requires Preorder(le) && Sorted(le, ys)
    ensures Filter(p, Insert(le, x, ys)) == if p(x) then Insert(le, x, Filter(p, ys)) else Filter(p, ys)
  {
    if ys == [] {
      assert Filter(p, [x][1..]) == [];
    } else if le(x, ys[0]) {
      assert ([x] + ys)[1..] == ys;
      if p(x) {
        FilterMembers(p, ys);
        HeadIsLeast(le, ys);
        InsertFirst(le, x, Filter(p, ys));
      }
    } else {
      var rest := Insert(le, x, ys[1..]);
      FilterInsert(le, p, x, ys[1..]);
      assert ([ys[0]] + rest)[1..] == rest;
      var kept := Filter(p, ys[1..]);
      if p(ys[0]) {
        assert ([ys[0]] + kept)[1..] == kept;
      }
    }
  }

  /** Filtering before sorting is filtering after sorting. */
  lemma {:induction false} FilterSort<T(!new)>(le: (T, T) -> bool, p: T -> bool, xs: seq<T>)
    requires Preorder(le)
    ensures Filter(p, Sort(le, xs)) == Sort(le, Filter(p, xs))
  {
    if xs != [] {
      SortSorts(le, xs[1..]);
      FilterInsert(le, p, xs[0], Sort(le, xs[1..]));
      FilterSort(le, p, xs[1..]);
      if p(xs[0]) {
        assert ([xs[0]] + Filter(p, xs[1..]))[1..] == Filter(p, xs[1..]);
      }
    }
  }

  // ---------- stability, and that it pins the result down ----------

  lemma {:induction false} SortOfSorted<T(!new)>(le: (T, T) -> bool, xs: seq<T>)
    requires Sorted(le, xs)
    ensures Sort(le, xs) == xs
  {
    if xs != [] {
      SortOfSorted(le, xs[1..]);
      assert xs == [xs[0]] + xs[1..];
      InsertFirst(le, xs[0], xs[1..]);
    }
  }

  /** Elements that compare equal keep their input order. */
  lemma SortIsStable<T(!new)>(le: (T, T) -> bool, xs: seq<T>, a: T)
    requires Preorder(le)
    ensures Filter(Like(le, a), Sort(le, xs)) == Filter(Like(le, a), xs)
  {
    var same := Filter(Like(le, a), xs);
    FilterSort(le, Like(le, a), xs);
    FilterMembers(Like(le, a), xs);
    forall i, j | 0 <= i < j < |same|
      ensures le(same[i], same[j])
    {
      assert same[i] in same && same[j] in same;
    }
    SortOfSorted(le, same);
  }

  ghost predicate SameClasses<T(!new)>(le: (T, T) -> bool, xs: seq<T>, ys: seq<T>) {
    forall a :: Filter(Like(le, a), xs) == Filter(Like(le, a), ys)
  }

  // Two sorted lists with the same equal-comparing elements in the same order are one list.
  lemma {:induction false} SortedUnique<T(!new)>(le: (T, T) -> bool, xs: seq<T>, ys: seq<T>)
    requires Preorder(le) && Sorted(le, xs) && Sorted(le, ys) && SameClasses(le, xs, ys)
    ensures xs == ys
  {
    if xs == [] && ys == [] {
    } else if xs == [] {
      ClassMember(le, ys, xs);
    } else if ys == [] {
      ClassMember(le, xs, ys);
    } else {
      ClassMember(le, ys, xs);
      ClassMember(le, xs, ys);
      HeadOfClass(le, xs, ys);
      forall a
        ensures Filter(Like(le, a), xs[1..]) == Filter(Like(le, a), ys[1..])
      {
        assert Filter(Like(le, a), xs) == Filter(Like(le, a), ys);
        FilterTail(Like(le, a), xs);
        FilterTail(Like(le, a), ys);
      }
      SortedUnique(le, xs[1..], ys[1..]);
      assert xs == [xs[0]] + xs[1..] && ys == [ys[0]] + ys[1..];
    }
  }

  lemma FilterTail<T>(p: T -> bool, xs: seq<T>)
    requires xs != []
    ensures Filter(p, xs[1..]) == if p(xs[0]) then Filter(p, xs)[1..] else Filter(p, xs)
  {
  }

  // The first element of one list compares equal to some element of the other.
  lemma ClassMember<T(!new)>(le: (T, T) -> bool, xs: seq<T>, ys: seq<T>)
    requires Preorder(le) && xs != [] && SameClasses(le, xs, ys)
    ensures exists y :: y in ys && le(xs[0], y) && le(y, xs[0])
  {
    var like := Like(le, xs[0]);
    assert like(xs[0]);
    assert Filter(like, xs)[0] == xs[0];
    FilterMembers(like, ys);
    assert xs[0] in Filter(like, ys);
    assert xs[0] in ys;
  }

  lemma HeadOfClass<T(!new)>(le: (T, T) -> bool, xs: seq<T>, ys: seq<T>)
    requires Preorder(le) && Sorted(le, xs) && Sorted(le, ys) && xs != [] && ys != [] && SameClasses(le, xs, ys)
    ensures xs[0] == ys[0]
  {
    ClassMember(le, xs, ys);
    ClassMember(le, ys, xs);
    var y :| y in ys && le(xs[0], y) && le(y, xs[0]);
    var x :| x in xs && le(ys[0], x) && le(x, ys[0]);
    assert le(ys[0], y) && le(xs[0], x);
    assert le(xs[0], ys[0]) && le(ys[0], xs[0]);
    var like := Like(le, xs[0]);
    assert Filter(like, xs)[0] == xs[0] && Filter(like, ys)[0] == ys[0];
  }

  /** A sorted list that keeps equal elements in input order is the result of Sort: any stable
      sorting algorithm computes this function. */
  lemma AnyStableSort<T(!new)>(le: (T, T) -> bool, xs: seq<T>, ys: seq<T>)
    requires Preorder(le) && Sorted(le, ys) && SameClasses(le, xs, ys)
    ensures ys == Sort(le, xs)
  {
    SortSorts(le, xs);
    forall a
      ensures Filter(Like(le, a), Sort(le, xs)) == Filter(Like(le, a), ys)
    {
      SortIsStable(le, xs, a);
    }
    SortedUnique(le, Sort(le, xs), ys);
  }

  // Orders that agree on the elements sort alike.
  lemma {:induction false} SortCongruent<T(!new)>(le: (T, T) -> bool, lf: (T, T) -> bool, xs: seq<T>)
    requires Preorder(le) && forall a, b :: a in xs && b in xs ==> (le(a, b) <==> lf(a, b))
    ensures Sort(le, xs) == Sort(lf, xs)
  {
    if xs != [] {
      assert xs == [xs[0]] + xs[1..];
      SortCongruent(le, lf, xs[1..]);
      SortSorts(le, xs[1..]);
      var ys := Sort(le, xs[1..]);
      forall y | y in ys
        ensures y in xs
      {
        assert y in multiset(ys);
        assert y in xs[1..];
      }
      InsertCongruent(le, lf, xs[0], ys);
    }
  }

  lemma {:induction false} InsertCongruent<T(!new)>(le: (T, T) -> bool, lf: (T, T) -> bool, x: T, ys: seq<T>)
    requires forall y :: y in ys ==> (le(x, y) <==> lf(x, y))
    ensures Insert(le, x, ys) == Insert(lf, x, ys)
  {
    if ys != [] {
      assert ys[0] in ys;
      InsertCongruent(le, lf, x, ys[1..]);
    }
  }

  lemma {:induction false} FilterAppend<T>(p: T -> bool, xs: seq<T>, ys: seq<T>)
    ensures Filter(p, xs + ys) == Filter(p, xs) + Filter(p, ys)
  {
    if xs == [] {
      assert xs + ys == ys;
    } else {
      assert (xs + ys)[1..] == xs[1..] + ys;
      FilterAppend(p, xs[1..], ys);
    }
  }

  lemma {:induction false} FilterAll<T>(p: T -> bool, xs: seq<T>)
    requires forall i :: 0 <= i < |xs| ==> p(xs[i])
    ensures Filter(p, xs) == xs
  {
    if xs != [] {
      FilterAll(p, xs[1..]);
    }
  }
}
