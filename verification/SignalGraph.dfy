/**
 The dependency graph of detection signals: a finite map from signal id to
 signal, whose edges are the `sourceIds` of each signal.  Reachability is
 defined by counting steps; everything the hunt validator decides is stated
 with it.
 */
module SignalGraph {

  datatype Signal = Signal(id: string, eventIds: seq<string>, sourceIds: seq<string>, evidenceRefs: seq<string>)

  type Graph = map<string, Signal>

  /** Id `b` can be reached from id `a` by following exactly `n` source edges. */
  ghost predicate ReachesIn(g: Graph, a: string, b: string, n: nat)
    decreases n
  {
    if n == 0 then a == b
    else a in g && exists m :: m in g[a].sourceIds && ReachesIn(g, m, b, n - 1)
  }

  ghost predicate Reaches(g: Graph, a: string, b: string) {
    exists n: nat :: ReachesIn(g, a, b, n)
  }

  ghost predicate ReachesProperly(g: Graph, a: string, b: string) {
    exists n: nat :: n > 0 && ReachesIn(g, a, b, n)
  }

  /** Some id that depends on itself can be reached from `a`. */
  ghost predicate CycleFrom(g: Graph, a: string) {
    exists c :: Reaches(g, a, c) && ReachesProperly(g, c, c)
  }

  /** Every id that can be reached from `a` is a known signal. */
  ghost predicate KnownFrom(g: Graph, a: string) {
    forall x :: Reaches(g, a, x) ==> x in g
  }

  /** All events of all signals that can be reached from `a`. */
  ghost function EventsFrom(g: Graph, a: string): set<string> {
    set x, e | x in g && Reaches(g, a, x) && e in g[x].eventIds :: e
  }

  ghost predicate SourceClosed(g: Graph) {
    forall x, m :: x in g && m in g[x].sourceIds ==> m in g
  }

  lemma ReachesSelf(g: Graph, a: string)
    ensures Reaches(g, a, a)
  {
    assert ReachesIn(g, a, a, 0);
  }

  lemma {:induction false} ReachesInCompose(g: Graph, a: string, b: string, c: string, n: nat, m: nat)
    requires ReachesIn(g, a, b, n) && ReachesIn(g, b, c, m)
    ensures ReachesIn(g, a, c, n + m)
    decreases n
  {
    if n > 0 {
      var s :| s in g[a].sourceIds && ReachesIn(g, s, b, n - 1);
      ReachesInCompose(g, s, b, c, n - 1, m);
    }
  }

  lemma ReachesCompose(g: Graph, a: string, b: string, c: string)
    requires Reaches(g, a, b) && Reaches(g, b, c)
    ensures Reaches(g, a, c)
    ensures ReachesProperly(g, a, b) || ReachesProperly(g, b, c) ==> ReachesProperly(g, a, c)
  {
    var n :| ReachesIn(g, a, b, n);
    var m :| ReachesIn(g, b, c, m);
    ReachesInCompose(g, a, b, c, n, m);
    if ReachesProperly(g, a, b) {
      var k: nat :| k > 0 && ReachesIn(g, a, b, k);
      ReachesInCompose(g, a, b, c, k, m);
    }
    if ReachesProperly(g, b, c) {
      var k: nat :| k > 0 && ReachesIn(g, b, c, k);
      ReachesInCompose(g, a, b, c, n, k);
    }
  }

  /** A proper path starts with an edge to some source. */
  lemma ProperPathStarts(g: Graph, a: string, b: string) returns (m: string)
    requires ReachesProperly(g, a, b)
    ensures a in g && m in g[a].sourceIds && Reaches(g, m, b)
  {
    var n: nat :| n > 0 && ReachesIn(g, a, b, n);
    m :| m in g[a].sourceIds && ReachesIn(g, m, b, n - 1);
  }

  lemma EdgeReaches(g: Graph, a: string, m: string)
    requires a in g && m in g[a].sourceIds
    ensures ReachesProperly(g, a, m) && Reaches(g, a, m)
  {
    assert ReachesIn(g, m, m, 0);
    assert ReachesIn(g, a, m, 1);
  }

  /** One unfolding of everything that is reachable from a known signal. */
  lemma ReachesUnfold(g: Graph, a: string, x: string)
    requires a in g
    ensures Reaches(g, a, x) <==> a == x || exists m :: m in g[a].sourceIds && Reaches(g, m, x)
  {
    if Reaches(g, a, x) && a != x {
      var n: nat :| ReachesIn(g, a, x, n);
      var m := ProperPathStarts(g, a, x);
    }
    if a == x {
      ReachesSelf(g, a);
    }
    if m :| m in g[a].sourceIds && Reaches(g, m, x) {
      EdgeReaches(g, a, m);
      ReachesCompose(g, a, m, x);
    }
  }

  /** A cycle that can be reached from a signal can be reached from one of its sources. */
  lemma CycleUnfold(g: Graph, a: string)
    requires a in g
    ensures CycleFrom(g, a) <==> exists m :: m in g[a].sourceIds && CycleFrom(g, m)
  {
    if CycleFrom(g, a) {
      var c :| Reaches(g, a, c) && ReachesProperly(g, c, c);
      ReachesUnfold(g, a, c);
      if a == c {
        var m := ProperPathStarts(g, a, a);
        assert CycleFrom(g, m);
      }
    }
    if m :| m in g[a].sourceIds && CycleFrom(g, m) {
      var c :| Reaches(g, m, c) && ReachesProperly(g, c, c);
      ReachesUnfold(g, a, c);
    }
  }

  lemma KnownUnfold(g: Graph, a: string)
    requires a in g
    ensures KnownFrom(g, a) <==> forall m :: m in g[a].sourceIds ==> KnownFrom(g, m)
  {
    forall x ensures Reaches(g, a, x) <==> a == x || exists m :: m in g[a].sourceIds && Reaches(g, m, x) {
      ReachesUnfold(g, a, x);
    }
  }

  lemma EventsUnfold(g: Graph, a: string)
    requires a in g
    ensures EventsFrom(g, a) ==
            (set e | e in g[a].eventIds) + (set m, e | m in g[a].sourceIds && e in EventsFrom(g, m) :: e)
  {
    var own, inherited := set e | e in g[a].eventIds, set m, e | m in g[a].sourceIds && e in EventsFrom(g, m) :: e;
    forall e | e in EventsFrom(g, a) ensures e in own + inherited {
      var x :| x in g && Reaches(g, a, x) && e in g[x].eventIds;
      ReachesUnfold(g, a, x);
      if a != x {
        var m :| m in g[a].sourceIds && Reaches(g, m, x);
        assert e in EventsFrom(g, m);
      }
    }
    ReachesSelf(g, a);
    forall m, e | m in g[a].sourceIds && e in EventsFrom(g, m) ensures e in EventsFrom(g, a) {
      var x :| x in g && Reaches(g, m, x) && e in g[x].eventIds;
      ReachesUnfold(g, a, x);
    }
  }

  /** In a source-closed graph nothing unknown can be reached from a known id. */
  lemma {:induction false} ClosedReaches(g: Graph, a: string, x: string, n: nat)
    requires SourceClosed(g) && a in g && ReachesIn(g, a, x, n)
    ensures x in g
    decreases n
  {
    if n > 0 {
      var m :| m in g[a].sourceIds && ReachesIn(g, m, x, n - 1);
      ClosedReaches(g, m, x, n - 1);
    }
  }

  lemma ClosedKnown(g: Graph, a: string)
    requires SourceClosed(g) && a in g
    ensures KnownFrom(g, a)
  {
    forall x | Reaches(g, a, x) ensures x in g {
      var n: nat :| ReachesIn(g, a, x, n);
      ClosedReaches(g, a, x, n);
    }
  }

  /** A source-closed part of a graph has the same paths as the whole graph. */
  lemma {:induction false} ClosedPartPaths(part: Graph, g: Graph, a: string, x: string, n: nat)
    requires SourceClosed(part) && a in part
    requires forall k :: k in part ==> k in g && part[k] == g[k]
    ensures ReachesIn(part, a, x, n) <==> ReachesIn(g, a, x, n)
    decreases n
  {
    if n > 0 {
      forall m | m in g[a].sourceIds ensures ReachesIn(part, m, x, n - 1) <==> ReachesIn(g, m, x, n - 1) {
        ClosedPartPaths(part, g, m, x, n - 1);
      }
    }
  }

  /** So validating the loaded part is validating the repository. */
  lemma ClosedPartAgrees(part: Graph, g: Graph, a: string)
    requires SourceClosed(part) && a in part
    requires forall k :: k in part ==> k in g && part[k] == g[k]
    ensures forall x :: Reaches(part, a, x) <==> Reaches(g, a, x)
    ensures CycleFrom(part, a) <==> CycleFrom(g, a)
    ensures EventsFrom(part, a) == EventsFrom(g, a)
  {
    forall x, n: nat ensures ReachesIn(part, a, x, n) <==> ReachesIn(g, a, x, n) {
      ClosedPartPaths(part, g, a, x, n);
    }
    assert forall x :: Reaches(part, a, x) <==> Reaches(g, a, x);
    ClosedKnown(part, a);
    forall c | Reaches(part, a, c) ensures ReachesProperly(part, c, c) <==> ReachesProperly(g, c, c) {
      forall n: nat ensures ReachesIn(part, c, c, n) <==> ReachesIn(g, c, c, n) {
        ClosedPartPaths(part, g, c, c, n);
      }
    }
  }
}
