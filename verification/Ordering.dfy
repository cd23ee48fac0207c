/** Python's order on text, by code points, and `sorted` of a set of texts. */
module Ordering {

  predicate Less(a: string, b: string) {
    |b| > 0 && (|a| == 0 || a[0] < b[0] || (a[0] == b[0] && Less(a[1..], b[1..])))
  }

  lemma {:induction false} LessIrreflexive(a: string)
    ensures !Less(a, a)
  {
    if |a| > 0 {
      LessIrreflexive(a[1..]);
    }
  }

  lemma {:induction false} LessTransitive(a: string, b: string, c: string)
    requires Less(a, b) && Less(b, c)
    ensures Less(a, c)
  {
    if |a| > 0 && a[0] == b[0] == c[0] {
      LessTransitive(a[1..], b[1..], c[1..]);
    }
  }

  lemma {:induction false} LessTotal(a: string, b: string)
    ensures a == b || Less(a, b) || Less(b, a)
  {
    if |a| > 0 && |b| > 0 && a[0] == b[0] {
      LessTotal(a[1..], b[1..]);
      assert a == [a[0]] + a[1..] && b == [b[0]] + b[1..];
    }
  }

  /** The texts agree before `k`, where the first one ends or has the smaller code point. */
  ghost predicate DifferAt(a: string, b: string, k: nat) {
    k <= |a| && k < |b| && a[..k] == b[..k] && (k == |a| || a[k] < b[k])
  }

  /** The order is decided at the first difference, and a proper prefix comes first. */
  lemma {:induction false} LessIff(a: string, b: string)
    ensures Less(a, b) <==> exists k: nat :: DifferAt(a, b, k)
  {
    if |a| == 0 || |b| == 0 {
      assert |b| > 0 ==> DifferAt(a, b, 0);
    } else if a[0] == b[0] {
      LessIff(a[1..], b[1..]);
      assert a == [a[0]] + a[1..] && b == [b[0]] + b[1..];
      if k: nat :| DifferAt(a[1..], b[1..], k) {
        assert a[..k + 1] == [a[0]] + a[1..][..k] && b[..k + 1] == [b[0]] + b[1..][..k];
        assert DifferAt(a, b, k + 1);
      }
      if k: nat :| DifferAt(a, b, k) {
        assert a[1..][..k - 1] == a[..k][1..] && b[1..][..k - 1] == b[..k][1..];
        assert DifferAt(a[1..], b[1..], k - 1);
      }
    } else {
      assert a[0] < b[0] ==> DifferAt(a, b, 0);
      forall k: nat ensures DifferAt(a, b, k) ==> k == 0 {
        LaterDifference(a, b, k);
      }
    }
  }

  lemma LaterDifference(a: string, b: string, k: nat)
    ensures DifferAt(a, b, k) && k > 0 ==> a[0] == b[0]
  {
    if DifferAt(a, b, k) && k > 0 {
      assert a[..k][0] == b[..k][0];
    }
  }

  ghost predicate Ascending(s: seq<string>) {
    forall i, j :: 0 <= i < j < |s| ==> Less(s[i], s[j])
  }

  function InsertUnique(s: seq<string>, x: string): seq<string> {
    if |s| == 0 || Less(x, s[0]) then [x] + s
    else if x == s[0] then s
    else [s[0]] + InsertUnique(s[1..], x)
  }

  /** The distinct texts of a list, in ascending order. */
  function SortedSet(xs: seq<string>): seq<string> {
    if |xs| == 0 then [] else InsertUnique(SortedSet(xs[..|xs| - 1]), xs[|xs| - 1])
  }

  lemma {:induction false} InsertUniqueFacts(s: seq<string>, x: string)
    requires Ascending(s)
    ensures Ascending(InsertUnique(s, x))
    ensures forall y :: y in InsertUnique(s, x) <==> y in s || y == x
  {
    if |s| > 0 {
      var tail := s[1..];
      assert s == [s[0]] + tail;
      if Less(x, s[0]) {
        forall j | 0 <= j < |s| ensures Less(x, s[j]) {
          if j > 0 { LessTransitive(x, s[0], s[j]); }
        }
      } else if x != s[0] {
        LessTotal(x, s[0]);
        InsertUniqueFacts(tail, x);
        var rest := InsertUnique(tail, x);
        forall j | 0 <= j < |rest| ensures Less(s[0], rest[j]) {
          assert rest[j] in rest;
          if rest[j] != x {
            var k :| 0 <= k < |tail| && tail[k] == rest[j];
            assert Less(s[0], s[k + 1]);
          }
        }
      }
    }
  }

  /** The result lists the elements once each, in ascending order. */
  lemma {:induction false} SortedSetFacts(xs: seq<string>)
    ensures Ascending(SortedSet(xs))
    ensures forall x :: x in SortedSet(xs) <==> x in xs
  {
    if |xs| > 0 {
      assert xs == xs[..|xs| - 1] + [xs[|xs| - 1]];
      SortedSetFacts(xs[..|xs| - 1]);
      InsertUniqueFacts(SortedSet(xs[..|xs| - 1]), xs[|xs| - 1]);
    }
  }

  lemma AscendingTail(s: seq<string>)
    requires Ascending(s) && |s| > 0
    ensures Ascending(s[1..]) && s[0] !in s[1..]
    ensures forall x :: x in s[1..] ==> Less(s[0], x)
  {
    forall x | x in s[1..] ensures Less(s[0], x) {
      var i :| 1 <= i < |s| && s[i] == x;
    }
    LessIrreflexive(s[0]);
  }

  lemma LessAsymmetric(a: string, b: string)
    ensures !(Less(a, b) && Less(b, a))
  {
    LessIrreflexive(a);
    if Less(a, b) && Less(b, a) {
      LessTransitive(a, b, a);
    }
  }

  lemma EmptyTogether(a: seq<string>, b: seq<string>)
    requires forall x :: x in a <==> x in b
    ensures |a| == 0 <==> |b| == 0
  {
    assert |a| > 0 ==> a[0] in a;
    assert |b| > 0 ==> b[0] in b;
  }

  lemma HeadsAgree(a: seq<string>, b: seq<string>)
    requires Ascending(a) && Ascending(b) && |a| > 0 && |b| > 0
    requires a[0] in b && b[0] in a
    ensures a[0] == b[0]
  {
    AscendingTail(a);
    AscendingTail(b);
    LessAsymmetric(a[0], b[0]);
    assert forall x :: x in a ==> x == a[0] || x in a[1..];
    assert forall x :: x in b ==> x == b[0] || x in b[1..];
  }

  /** An ascending sequence is determined by its elements. */
  lemma {:induction false} AscendingUnique(a: seq<string>, b: seq<string>)
    requires Ascending(a) && Ascending(b) && forall x :: x in a <==> x in b
    ensures a == b
  {
    EmptyTogether(a, b);
    if |a| > 0 {
      assert a[0] in a && b[0] in b;
      HeadsAgree(a, b);
      AscendingTail(a);
      AscendingTail(b);
      forall x ensures x in a[1..] <==> x in b[1..] {
        assert x in a <==> x == a[0] || x in a[1..];
        assert x in b <==> x == b[0] || x in b[1..];
      }
      AscendingUnique(a[1..], b[1..]);
      assert a == [a[0]] + a[1..] && b == [b[0]] + b[1..];
    }
  }

  /** So sorting a set of texts depends on the set alone. */
  lemma SortedSetByElements(xs: seq<string>, ys: seq<string>)
    requires forall x :: x in xs <==> x in ys
    ensures SortedSet(xs) == SortedSet(ys)
  {
    SortedSetFacts(xs);
    SortedSetFacts(ys);
    AscendingUnique(SortedSet(xs), SortedSet(ys));
  }
}
