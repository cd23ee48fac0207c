/** Selecting elements of a list in order, and joining texts. */
module Sequences {

  function Select<T>(xs: seq<T>, keep: T -> bool): seq<T> {
    if |xs| == 0 then []
    else
      var init, last := Select(xs[..|xs| - 1], keep), xs[|xs| - 1];
      if keep(last) then init + [last] else init
  }

  lemma {:induction false} SelectMembers<T>(xs: seq<T>, keep: T -> bool)
    ensures forall x :: x in Select(xs, keep) <==> x in xs && keep(x)
  {
    if |xs| > 0 {
      var init, last := xs[..|xs| - 1], xs[|xs| - 1];
      assert forall x :: x in xs <==> x in init || x == last;
      SelectMembers(init, keep);
    }
  }

  lemma SelectAppend<T>(xs: seq<T>, x: T, keep: T -> bool)
    ensures Select(xs + [x], keep) == if keep(x) then Select(xs, keep) + [x] else Select(xs, keep)
  {
    assert (xs + [x])[..|xs + [x]| - 1] == xs;
  }

  lemma {:induction false} SelectPrepend<T>(x: T, xs: seq<T>, keep: T -> bool)
    ensures Select([x] + xs, keep) == (if keep(x) then [x] else []) + Select(xs, keep)
  {
    var all := [x] + xs;
    if |xs| == 0 {
      assert all == [x] && [x][..0] == [];
    } else {
      assert all[..|all| - 1] == [x] + xs[..|xs| - 1];
      SelectPrepend(x, xs[..|xs| - 1], keep);
    }
  }

  lemma {:induction false} SelectNone<T>(xs: seq<T>, keep: T -> bool)
    requires forall x :: x in xs ==> !keep(x)
    ensures Select(xs, keep) == []
  {
    if |xs| > 0 {
      assert xs[|xs| - 1] in xs;
      SelectNone(xs[..|xs| - 1], keep);
    }
  }

  /** The `k`-th selected element stands somewhere in the list, after the earlier ones and before the later ones. */
  lemma {:induction false} SelectPosition<T>(xs: seq<T>, keep: T -> bool, k: nat) returns (p: nat)
    requires k < |Select(xs, keep)|
    ensures p < |xs| && xs[p] == Select(xs, keep)[k] && keep(xs[p])
    ensures forall q :: 0 <= q < p && keep(xs[q]) ==> xs[q] in Select(xs, keep)[..k]
    ensures forall q :: p < q < |xs| && keep(xs[q]) ==> xs[q] in Select(xs, keep)[k + 1..]
  {
    var init, last := xs[..|xs| - 1], xs[|xs| - 1];
    var before, selected := Select(init, keep), Select(xs, keep);
    if k < |before| {
      p := SelectPosition(init, keep, k);
      assert before[..k] == selected[..k] && before[k + 1..] <= selected[k + 1..];
      forall q | p < q < |xs| && keep(xs[q]) ensures xs[q] in selected[k + 1..] {
        if q < |init| {
          assert init[q] in before[k + 1..];
        } else {
          assert selected[k + 1..][|selected| - k - 2] == last;
        }
      }
    } else {
      p := |xs| - 1;
      SelectMembers(init, keep);
      assert selected[..k] == before;
      forall q | 0 <= q < p && keep(xs[q]) ensures xs[q] in selected[..k] {
        assert init[q] in init;
      }
    }
  }

  /** The texts with a separator between neighbours. */
  function Join(separator: string, parts: seq<string>): string {
    if |parts| == 0 then ""
    else if |parts| == 1 then parts[0]
    else parts[0] + separator + Join(separator, parts[1..])
  }

  /** Joining puts one separator between any two neighbours. */
  lemma {:induction false} JoinSplits(separator: string, a: seq<string>, b: seq<string>)
    ensures Join(separator, []) == "" && forall x :: Join(separator, [x]) == x
    ensures a != [] && b != [] ==> Join(separator, a + b) == Join(separator, a) + separator + Join(separator, b)
  {
    if a != [] && b != [] {
      assert (a + b)[1..] == a[1..] + b;
      if |a| > 1 {
        JoinSplits(separator, a[1..], b);
      } else {
        assert a[1..] + b == b;
      }
    }
  }
}
