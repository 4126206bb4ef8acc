/** `list.sort` and `sorted`: a stable sort by an order given as a function. */
module Sorting {

  predicate SortedBy<T(!new)>(leq: (T, T) -> bool, xs: seq<T>)
  {
    forall i, j :: 0 <= i < j < |xs| ==> leq(xs[i], xs[j])
  }

  ghost predicate TotalPreorder<T(!new)>(leq: (T, T) -> bool)
  {
    && (forall a, b :: leq(a, b) || leq(b, a))
    && (forall a, b, c :: leq(a, b) && leq(b, c) ==> leq(a, c))
  }

  /** No two different elements are equivalent. */
  ghost predicate Antisymmetric<T(!new)>(leq: (T, T) -> bool, xs: seq<T>)
  {
    forall a, b :: a in xs && b in xs && leq(a, b) && leq(b, a) ==> a == b
  }

  /** Puts `x` behind everything that does not belong behind it, and so behind its equivalents. */
  function Insert<T>(leq: (T, T) -> bool, xs: seq<T>, x: T): seq<T>
  {
    if xs == [] || leq(xs[|xs| - 1], x) then xs + [x]
    else Insert(leq, xs[..|xs| - 1], x) + [xs[|xs| - 1]]
  }

  function Sort<T>(leq: (T, T) -> bool, xs: seq<T>): seq<T>
  {
    if xs == [] then [] else Insert(leq, Sort(leq, xs[..|xs| - 1]), xs[|xs| - 1])
  }

  predicate AllBelow<T(!new)>(leq: (T, T) -> bool, xs: seq<T>, top: T)
  {
    forall i :: 0 <= i < |xs| ==> leq(xs[i], top)
  }

  lemma {:induction false} InsertedAreThere<T>(leq: (T, T) -> bool, xs: seq<T>, x: T)
    ensures multiset(Insert(leq, xs, x)) == multiset(xs) + multiset{x}
  {
    if xs != [] && !leq(xs[|xs| - 1], x) {
      assert xs == xs[..|xs| - 1] + [xs[|xs| - 1]];
      InsertedAreThere(leq, xs[..|xs| - 1], x);
    }
  }

  lemma {:induction false} InsertBelow<T(!new)>(leq: (T, T) -> bool, xs: seq<T>, x: T, top: T)
    requires AllBelow(leq, xs, top) && leq(x, top)
    ensures AllBelow(leq, Insert(leq, xs, x), top)
  {
    if xs != [] && !leq(xs[|xs| - 1], x) {
      InsertBelow(leq, xs[..|xs| - 1], x, top);
    }
  }

  lemma SortedEnds<T(!new)>(leq: (T, T) -> bool, xs: seq<T>, top: T)
    ensures SortedBy(leq, xs) && AllBelow(leq, xs, top) <==> SortedBy(leq, xs + [top])
  {
    if SortedBy(leq, xs + [top]) {
      forall i, j | 0 <= i < j < |xs| ensures leq(xs[i], xs[j]) {
        assert leq((xs + [top])[i], (xs + [top])[j]);
      }
      forall i | 0 <= i < |xs| ensures leq(xs[i], top) {
        assert leq((xs + [top])[i], (xs + [top])[|xs|]);
      }
    }
  }

  lemma {:induction false} InsertKeeps<T(!new)>(leq: (T, T) -> bool, xs: seq<T>, x: T)
    requires TotalPreorder(leq) && SortedBy(leq, xs)
    ensures SortedBy(leq, Insert(leq, xs, x))
  {
    if xs != [] {
      var front, last := xs[..|xs| - 1], xs[|xs| - 1];
      assert xs == front + [last];
      SortedEnds(leq, front, last);
      if leq(last, x) {
        assert AllBelow(leq, xs, x);
        SortedEnds(leq, xs, x);
      } else {
        InsertKeeps(leq, front, x);
        InsertBelow(leq, front, x, last);
        SortedEnds(leq, Insert(leq, front, x), last);
      }
    }
  }

  lemma {:induction false} SortSorts<T(!new)>(leq: (T, T) -> bool, xs: seq<T>)
    requires TotalPreorder(leq)
    ensures SortedBy(leq, Sort(leq, xs))
    ensures multiset(Sort(leq, xs)) == multiset(xs)
    ensures |Sort(leq, xs)| == |xs|
  {
    if xs != [] {
      var front, last := xs[..|xs| - 1], xs[|xs| - 1];
      assert xs == front + [last];
      SortSorts(leq, front);
      InsertKeeps(leq, Sort(leq, front), last);
      InsertedAreThere(leq, Sort(leq, front), last);
    }
    assert |multiset(Sort(leq, xs))| == |multiset(xs)|;
  }

  lemma HeadIsLeast<T(!new)>(leq: (T, T) -> bool, xs: seq<T>, x: T)
    requires TotalPreorder(leq) && SortedBy(leq, xs) && x in xs
    ensures leq(xs[0], x)
  {
    var i :| 0 <= i < |xs| && xs[i] == x;
  }

  lemma SameHead<T(!new)>(leq: (T, T) -> bool, xs: seq<T>, ys: seq<T>)
    requires TotalPreorder(leq) && SortedBy(leq, xs) && SortedBy(leq, ys) && Antisymmetric(leq, xs)
    requires multiset(xs) == multiset(ys) && xs != [] && ys != []
    ensures xs[0] == ys[0]
  {
    hide TotalPreorder, SortedBy;
    assert xs[0] in multiset(ys) && ys[0] in multiset(xs);
    HeadIsLeast(leq, xs, ys[0]);
    HeadIsLeast(leq, ys, xs[0]);
  }

  /** Two sorted lists of the same elements are the same list when no two elements are equivalent. */
  lemma {:induction false} SortedUnique<T(!new)>(leq: (T, T) -> bool, xs: seq<T>, ys: seq<T>)
    requires TotalPreorder(leq) && SortedBy(leq, xs) && SortedBy(leq, ys) && Antisymmetric(leq, xs)
    requires multiset(xs) == multiset(ys)
    ensures xs == ys
  {
    hide *;
    assert |multiset(xs)| == |multiset(ys)|;
    if xs != [] {
      SameHead(leq, xs, ys);
      TailOf(leq, xs);
      TailOf(leq, ys);
      assert xs == [xs[0]] + xs[1..] && ys == [ys[0]] + ys[1..];
      SortedUnique(leq, xs[1..], ys[1..]);
    }
  }

  lemma TailOf<T(!new)>(leq: (T, T) -> bool, xs: seq<T>)
    requires xs != []
    ensures SortedBy(leq, xs) ==> SortedBy(leq, xs[1..])
    ensures Antisymmetric(leq, xs) ==> Antisymmetric(leq, xs[1..])
    ensures multiset(xs[1..]) == multiset(xs) - multiset{xs[0]}
  {
    assert xs == [xs[0]] + xs[1..];
  }

  /** Sorting forgets the order of the input when no two elements are equivalent. */
  lemma SortForgetsOrder<T(!new)>(leq: (T, T) -> bool, xs: seq<T>, ys: seq<T>)
    requires TotalPreorder(leq) && Antisymmetric(leq, xs) && multiset(xs) == multiset(ys)
    ensures Sort(leq, xs) == Sort(leq, ys)
  {
    SortSorts(leq, xs);
    SortSorts(leq, ys);
    forall a | a in Sort(leq, xs) ensures a in xs {
      assert a in multiset(Sort(leq, xs));
    }
    SortedUnique(leq, Sort(leq, xs), Sort(leq, ys));
  }

  /** The elements equivalent to `a`, in order. */
  function Alike<T>(leq: (T, T) -> bool, xs: seq<T>, a: T): seq<T>
  {
    if xs == [] then []
    else
      var last := xs[|xs| - 1];
      Alike(leq, xs[..|xs| - 1], a) + (if leq(last, a) && leq(a, last) then [last] else [])
  }

  lemma {:induction false} InsertAlike<T(!new)>(leq: (T, T) -> bool, xs: seq<T>, x: T, a: T)
    requires TotalPreorder(leq)
    ensures Alike(leq, Insert(leq, xs, x), a) == Alike(leq, xs, a) + Alike(leq, [x], a)
  {
    if xs == [] || leq(xs[|xs| - 1], x) {
      assert (xs + [x])[..|xs|] == xs;
    } else {
      var front, last := xs[..|xs| - 1], xs[|xs| - 1];
      InsertAlike(leq, front, x, a);
      var inserted := Insert(leq, front, x);
      assert (inserted + [last])[..|inserted|] == inserted;
    }
  }

  /** The sort is stable: equivalent elements keep their order. */
  lemma {:induction false} SortIsStable<T(!new)>(leq: (T, T) -> bool, xs: seq<T>, a: T)
    requires TotalPreorder(leq)
    ensures Alike(leq, Sort(leq, xs), a) == Alike(leq, xs, a)
  {
    if xs != [] {
      SortIsStable(leq, xs[..|xs| - 1], a);
      InsertAlike(leq, Sort(leq, xs[..|xs| - 1]), xs[|xs| - 1], a);
    }
  }

  /** What is sorted already stays as it is. */
  lemma {:induction false} SortOfSorted<T(!new)>(leq: (T, T) -> bool, xs: seq<T>)
    requires SortedBy(leq, xs)
    ensures Sort(leq, xs) == xs
  {
    if xs != [] {
      SortOfSorted(leq, xs[..|xs| - 1]);
    }
  }
}
