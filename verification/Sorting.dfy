/** Stable sorting by a total preorder, as `Array.prototype.sort` and Python's `sorted` do it. */
module Sorting {
  import opened Sequences

  ghost predicate TotalPreorder<T(!new)>(le: (T, T) -> bool) {
    && (forall a, b :: le(a, b) || le(b, a))
    && (forall a, b, c :: le(a, b) && le(b, c) ==> le(a, c))
  }

  ghost predicate Sorted<T>(xs: seq<T>, le: (T, T) -> bool) {
    forall i, j :: 0 <= i < j < |xs| ==> le(xs[i], xs[j])
  }

  /** Put `x` behind everything that is not greater. */
  function Insert<T>(xs: seq<T>, x: T, le: (T, T) -> bool): seq<T> {
    if |xs| > 0 && le(xs[0], x) then [xs[0]] + Insert(xs[1..], x, le) else [x] + xs
  }

  function Sort<T>(xs: seq<T>, le: (T, T) -> bool): seq<T> {
    if |xs| == 0 then [] else Insert(Sort(xs[..|xs| - 1], le), xs[|xs| - 1], le)
  }

  lemma {:induction false} InsertKeeps<T(!new)>(xs: seq<T>, x: T, le: (T, T) -> bool)
    ensures multiset(Insert(xs, x, le)) == multiset(xs) + multiset{x}
  {
    if |xs| > 0 && le(xs[0], x) {
      assert xs == [xs[0]] + xs[1..];
      InsertKeeps(xs[1..], x, le);
    }
  }

  lemma PrependSorted<T(!new)>(head: T, tail: seq<T>, le: (T, T) -> bool)
    requires Sorted(tail, le) && forall y :: y in tail ==> le(head, y)
    ensures Sorted([head] + tail, le)
  {
  }

  lemma {:induction false} InsertSorts<T(!new)>(xs: seq<T>, x: T, le: (T, T) -> bool)
    requires TotalPreorder(le) && Sorted(xs, le)
    ensures Sorted(Insert(xs, x, le), le)
  {
    if |xs| > 0 && le(xs[0], x) {
      var tail := xs[1..];
      InsertSorts(tail, x, le);
      InsertKeeps(tail, x, le);
      forall y | y in Insert(tail, x, le) ensures le(xs[0], y) {
        assert y in multiset(Insert(tail, x, le));
      }
      PrependSorted(xs[0], Insert(tail, x, le), le);
    } else {
      forall y | y in xs ensures le(x, y) {
        assert le(x, xs[0]) && (y == xs[0] || le(xs[0], y));
      }
      PrependSorted(x, xs, le);
    }
  }

  lemma InsertFacts<T(!new)>(xs: seq<T>, x: T, le: (T, T) -> bool)
    requires TotalPreorder(le) && Sorted(xs, le)
    ensures Sorted(Insert(xs, x, le), le)
    ensures multiset(Insert(xs, x, le)) == multiset(xs) + multiset{x}
  {
    InsertKeeps(xs, x, le);
    InsertSorts(xs, x, le);
  }

  lemma {:induction false} SortFacts<T(!new)>(xs: seq<T>, le: (T, T) -> bool)
    requires TotalPreorder(le)
    ensures Sorted(Sort(xs, le), le)
    ensures multiset(Sort(xs, le)) == multiset(xs)
    ensures |Sort(xs, le)| == |xs|
  {
    if |xs| > 0 {
      assert xs == xs[..|xs| - 1] + [xs[|xs| - 1]];
      SortFacts(xs[..|xs| - 1], le);
      InsertFacts(Sort(xs[..|xs| - 1], le), xs[|xs| - 1], le);
      assert |multiset(Sort(xs, le))| == |multiset(xs)|;
    }
  }

  /** The elements that the order does not tell from `a`. */
  function SameRank<T>(le: (T, T) -> bool, a: T): T -> bool {
    y => le(a, y) && le(y, a)
  }

  lemma {:induction false} InsertStable<T(!new)>(xs: seq<T>, x: T, le: (T, T) -> bool, a: T)
    requires TotalPreorder(le) && Sorted(xs, le)
    ensures Select(Insert(xs, x, le), SameRank(le, a)) ==
            Select(xs, SameRank(le, a)) + if SameRank(le, a)(x) then [x] else []
  {
    var keep := SameRank(le, a);
    if |xs| > 0 && le(xs[0], x) {
      var tail := xs[1..];
      InsertStable(tail, x, le, a);
      SelectPrepend(xs[0], Insert(tail, x, le), keep);
      SelectPrepend(xs[0], tail, keep);
      assert xs == [xs[0]] + tail;
    } else {
      SelectPrepend(x, xs, keep);
      if keep(x) {
        forall y | y in xs ensures !keep(y) {
          GreaterIsNotSame(xs, x, y, le, a);
        }
        SelectNone(xs, keep);
      }
    }
  }

  lemma GreaterIsNotSame<T(!new)>(xs: seq<T>, x: T, y: T, le: (T, T) -> bool, a: T)
    requires TotalPreorder(le) && Sorted(xs, le) && y in xs && !le(xs[0], x) && SameRank(le, a)(x)
    ensures !SameRank(le, a)(y)
  {
    assert y == xs[0] || le(xs[0], y);
    assert le(y, a) ==> le(y, x);
  }

  /** The sort is stable: elements of the same rank keep their order. */
  lemma {:induction false} SortStable<T(!new)>(xs: seq<T>, le: (T, T) -> bool, a: T)
    requires TotalPreorder(le)
    ensures Select(Sort(xs, le), SameRank(le, a)) == Select(xs, SameRank(le, a))
  {
    if |xs| > 0 {
      SortStable(xs[..|xs| - 1], le, a);
      SortFacts(xs[..|xs| - 1], le);
      InsertStable(Sort(xs[..|xs| - 1], le), xs[|xs| - 1], le, a);
    }
  }

  lemma {:induction false} InsertLast<T(!new)>(xs: seq<T>, x: T, le: (T, T) -> bool)
    requires TotalPreorder(le) && Sorted(xs, le)
    ensures |Insert(xs, x, le)| == |xs| + 1
    ensures Insert(xs, x, le)[|xs|] == if |xs| > 0 && !le(xs[|xs| - 1], x) then xs[|xs| - 1] else x
  {
    if |xs| > 0 && le(xs[0], x) {
      InsertLast(xs[1..], x, le);
    } else if |xs| > 0 {
      assert |xs| == 1 || le(xs[0], xs[|xs| - 1]);
      assert !le(xs[|xs| - 1], x);
    }
  }

  /** The last element of a sort is the greatest, and the latest of equally great ones. */
  lemma {:induction false} LastIsLatestGreatest<T(!new)>(xs: seq<T>, le: (T, T) -> bool) returns (k: nat)
    requires TotalPreorder(le) && |xs| > 0
    ensures k < |xs| && |Sort(xs, le)| == |xs| && Sort(xs, le)[|xs| - 1] == xs[k]
    ensures forall i :: 0 <= i < |xs| ==> le(xs[i], xs[k])
    ensures forall i :: k < i < |xs| ==> !le(xs[k], xs[i])
  {
    var init, x := xs[..|xs| - 1], xs[|xs| - 1];
    SortFacts(init, le);
    InsertLast(Sort(init, le), x, le);
    k := |xs| - 1;
    if |init| > 0 {
      var m := LastIsLatestGreatest(init, le);
      if !le(init[m], x) {
        k := m;
      }
      forall i | 0 <= i < |xs| ensures le(xs[i], xs[k]) {
        if i < |init| {
          assert le(init[i], init[m]);
        }
      }
      forall i | k < i < |xs| ensures !le(xs[k], xs[i]) {
        if i < |init| {
          assert !le(init[m], init[i]);
        }
      }
    } else {
      assert le(x, x);
    }
  }
}
