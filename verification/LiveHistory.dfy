/**
 What a live projection means: it is the view of the log of accepted updates,
 and the accepted updates are exactly those that keep that log orderly.
 */
module LiveHistory {
  import opened Wrappers
  import opened LiveProjection
  import opened Sorting

  /** The accepted updates of a run, in order. */
  ghost function AcceptedLog<B>(p: Projection<B>, steps: seq<Step<B>>, expected: Scope, le: IdOrder): seq<Envelope<B>> {
    if |steps| == 0 then []
    else
      var init, last := steps[..|steps| - 1], steps[|steps| - 1];
      var log := AcceptedLog(p, init, expected, le);
      if IsAccepted(Run(p, init, expected, le), last, expected, le) then log + [last.envelope] else log
  }

  ghost function Updates<B>(steps: seq<Step<B>>): seq<Envelope<B>> {
    if |steps| == 0 then []
    else
      var init, last := steps[..|steps| - 1], steps[|steps| - 1];
      if last.Update? then Updates(init) + [last.envelope] else Updates(init)
  }

  ghost function LastFor<B>(log: seq<Envelope<B>>, objectId: string): Option<Envelope<B>> {
    if |log| == 0 then None
    else if log[|log| - 1].objectId == objectId then Some(log[|log| - 1])
    else LastFor(log[..|log| - 1], objectId)
  }

  ghost function LastCursor<B>(log: seq<Envelope<B>>): Option<string> {
    if |log| == 0 then None
    else if log[|log| - 1].resumeCursor.Some? then log[|log| - 1].resumeCursor
    else LastCursor(log[..|log| - 1])
  }

  lemma AppendViews<B>(log: seq<Envelope<B>>, e: Envelope<B>)
    ensures forall o :: LastFor(log + [e], o) == if e.objectId == o then Some(e) else LastFor(log, o)
    ensures LastCursor(log + [e]) == if e.resumeCursor.Some? then e.resumeCursor else LastCursor(log)
  {
    assert (log + [e])[..|log + [e]| - 1] == log;
  }

  /** The log a well-behaved server would write for one scope. */
  ghost predicate Orderly<B>(log: seq<Envelope<B>>, expected: Scope) {
    && (forall i :: 0 <= i < |log| ==>
          InScope(log[i], expected) && log[i].sequence > 0 && log[i].updateId !in INHERITED_NAMES)
    && (forall i, j :: 0 <= i < j < |log| ==> Precedes(log[i], log[j]))
  }

  ghost predicate Precedes<B>(a: Envelope<B>, b: Envelope<B>) {
    && a.updateId != b.updateId
    && a.sequence < b.sequence
    && (a.objectId == b.objectId ==> a.version <= b.version)
  }

  ghost function AsSteps<B>(log: seq<Envelope<B>>): seq<Step<B>> {
    seq(|log|, i requires 0 <= i < |log| => Update(log[i]))
  }

  /**
   Delivering only the accepted updates, without any disconnect, duplicate or
   stale update in between, gives the same projection up to the connection
   state, which the stream never touches.
   */
  lemma {:induction false} RunIsRunOfAccepted<B>(p: Projection<B>, steps: seq<Step<B>>, expected: Scope, le: IdOrder)
    ensures SetConnection(Run(p, steps, expected, le), p.connection) ==
            Run(p, AsSteps(AcceptedLog(p, steps, expected, le)), expected, le)
  {
    if |steps| > 0 {
      var init, last := steps[..|steps| - 1], steps[|steps| - 1];
      RunIsRunOfAccepted(p, init, expected, le);
      var log := AcceptedLog(p, init, expected, le);
      if IsAccepted(Run(p, init, expected, le), last, expected, le) {
        var longer := AsSteps(log + [last.envelope]);
        assert longer[..|longer| - 1] == AsSteps(log) && longer[|longer| - 1] == last;
      }
    }
  }

  /** The guards' bookkeeping is a function of the accepted log. */
  ghost predicate Bookkeeping<B>(p: Projection<B>, log: seq<Envelope<B>>) {
    && p.lastSequence == (if |log| == 0 then 0 else log[|log| - 1].sequence)
    && p.seen == (set e | e in log :: e.updateId)
    && p.resumeCursor == LastCursor(log)
    && (forall o :: o in p.lastById <==> LastFor(log, o).Some?)
    && (forall o :: o in p.lastById ==>
          p.lastById[o] == Stamp(LastFor(log, o).value.sequence, LastFor(log, o).value.version))
  }

  lemma {:induction false} LastForIsNewest<B>(log: seq<Envelope<B>>, expected: Scope, o: string)
    requires Orderly(log, expected)
    ensures LastFor(log, o).None? <==> forall i :: 0 <= i < |log| ==> log[i].objectId != o
    ensures LastFor(log, o).Some? ==>
              var e := LastFor(log, o).value;
              && e in log && e.objectId == o
              && (forall i :: 0 <= i < |log| && log[i].objectId == o ==> log[i].version <= e.version)
  {
    if |log| > 0 && log[|log| - 1].objectId != o {
      var init := log[..|log| - 1];
      LastForIsNewest(init, expected, o);
      if LastFor(init, o).None? {
        forall i | 0 <= i < |log| ensures log[i].objectId != o {
          if i < |init| { assert init[i] == log[i]; }
        }
      } else {
        assert exists i :: 0 <= i < |init| && init[i].objectId == o;
        forall i | 0 <= i < |log| && log[i].objectId == o ensures log[i].version <= LastFor(log, o).value.version {
          assert init[i] == log[i];
        }
      }
    }
  }

  /** An update is accepted exactly when the accepted log stays orderly with it. */
  lemma AcceptedExactlyWhenOrderly<B>(p: Projection<B>, log: seq<Envelope<B>>, e: Envelope<B>, expected: Scope,
                                      le: IdOrder)
    requires Bookkeeping(p, log) && Orderly(log, expected)
    ensures IsAccepted(p, Update(e), expected, le) <==> Orderly(log + [e], expected)
  {
    LastForIsNewest(log, expected, e.objectId);
    var longer := log + [e];
    if IsAccepted(p, Update(e), expected, le) {
      forall i | 0 <= i < |log| ensures Precedes(log[i], e) {
        assert log[i] in log;
        assert i < |log| - 1 ==> Precedes(log[i], log[|log| - 1]);
      }
    }
    if Orderly(longer, expected) {
      assert longer[|log|] == e;
      forall i | 0 <= i < |log| ensures Precedes(log[i], e) {
        assert Precedes(longer[i], longer[|log|]);
      }
    }
  }

  lemma BookkeepingStep<B>(p: Projection<B>, log: seq<Envelope<B>>, e: Envelope<B>, le: IdOrder)
    requires Bookkeeping(p, log)
    ensures Bookkeeping(Accept(p, e, le), log + [e])
  {
    AppendViews(log, e);
  }

  lemma {:induction false} RunKeepsBookkeeping<B>(steps: seq<Step<B>>, expected: Scope, le: IdOrder)
    ensures Bookkeeping(Run(Create(), steps, expected, le), AcceptedLog(Create(), steps, expected, le))
  {
    if |steps| > 0 {
      var init, last := steps[..|steps| - 1], steps[|steps| - 1];
      RunKeepsBookkeeping(init, expected, le);
      var p, log := Run(Create(), init, expected, le), AcceptedLog(Create(), init, expected, le);
      if IsAccepted(p, last, expected, le) {
        BookkeepingStep(p, log, last.envelope, le);
      }
    }
  }

  /**
   From an empty projection every run accepts an orderly log: sequences
   strictly increase, versions never decrease per object, no update id repeats.
   */
  lemma {:induction false} AcceptedLogIsOrderly<B>(steps: seq<Step<B>>, expected: Scope, le: IdOrder)
    ensures Orderly(AcceptedLog(Create(), steps, expected, le), expected)
  {
    if |steps| > 0 {
      var init, last := steps[..|steps| - 1], steps[|steps| - 1];
      AcceptedLogIsOrderly(init, expected, le);
      if last.Update? {
        RunKeepsBookkeeping(init, expected, le);
        AcceptedExactlyWhenOrderly(Run(Create(), init, expected, le), AcceptedLog(Create(), init, expected, le),
                                   last.envelope, expected, le);
      }
    }
  }

  /** A run accepts every offered update exactly when the offered updates are an orderly log. */
  lemma EverythingAcceptedIff<B>(steps: seq<Step<B>>, expected: Scope, le: IdOrder)
    ensures AcceptedLog(Create(), steps, expected, le) == Updates(steps) <==> Orderly(Updates(steps), expected)
  {
    AcceptedLogIsOrderly(steps, expected, le);
    if Orderly(Updates(steps), expected) {
      OrderlyIsAccepted(steps, expected, le);
    }
  }

  lemma {:induction false} OrderlyIsAccepted<B>(steps: seq<Step<B>>, expected: Scope, le: IdOrder)
    requires Orderly(Updates(steps), expected)
    ensures AcceptedLog(Create(), steps, expected, le) == Updates(steps)
  {
    if |steps| > 0 {
      var init, last := steps[..|steps| - 1], steps[|steps| - 1];
      assert forall i :: 0 <= i < |Updates(init)| ==> Updates(init)[i] == Updates(steps)[i];
      OrderlyIsAccepted(init, expected, le);
      if last.Update? {
        RunKeepsBookkeeping(init, expected, le);
        AcceptedExactlyWhenOrderly(Run(Create(), init, expected, le), Updates(init), last.envelope, expected, le);
      }
    }
  }

  /**
   In a reachable projection the second disjunct of the version guard, "equal
   version and sequence not newer", never decides: without it the reducer
   gives the same result.
   */
  lemma VersionTieNeverFires<B>(steps: seq<Step<B>>, e: Envelope<B>, expected: Scope, le: IdOrder)
    ensures
      var p := Run(Create(), steps, expected, le);
      && (forall o :: o in p.lastById ==> p.lastById[o].sequence <= p.lastSequence)
      && ApplyStreamUpdate(p, e, expected, le) ==
         if !InScope(e, expected) then ScopeMismatch
         else if Seen(p, e.updateId) then Applied(p, Duplicate)
         else if e.sequence <= p.lastSequence
           || (e.objectId in p.lastById && e.version < p.lastById[e.objectId].version)
         then Applied(p, Stale)
         else Applied(Accept(p, e, le), Accepted)
  {
    var p := Run(Create(), steps, expected, le);
    var log := AcceptedLog(Create(), steps, expected, le);
    RunKeepsBookkeeping(steps, expected, le);
    AcceptedLogIsOrderly(steps, expected, le);
    forall o | o in p.lastById ensures p.lastById[o].sequence <= p.lastSequence {
      LastForIsNewest(log, expected, o);
      var i :| 0 <= i < |log| && log[i] == LastFor(log, o).value;
      assert i < |log| - 1 ==> Precedes(log[i], log[|log| - 1]);
    }
  }

  // ---------- scope and connection ----------

  /** Whatever is offered, only updates of the expected tenant and case are accepted. */
  lemma {:induction false} AcceptedLogIsInScope<B>(steps: seq<Step<B>>, expected: Scope, le: IdOrder, e: Envelope<B>)
    requires e in AcceptedLog(Create(), steps, expected, le)
    ensures e.scope.tenantId == expected.tenantId
    ensures expected.caseId.Some? && expected.caseId.value != "" ==> e.scope.caseId == expected.caseId
    ensures Update(e) in steps
  {
    var init, last := steps[..|steps| - 1], steps[|steps| - 1];
    if e in AcceptedLog(Create(), init, expected, le) {
      AcceptedLogIsInScope(init, expected, le, e);
    } else {
      ScopeRefusedIff(Run(Create(), init, expected, le), e, expected, le);
    }
  }

  /** The connection state is the one noted last; a new projection is connected. */
  ghost function LastConnection<B>(steps: seq<Step<B>>): ConnectionState {
    if |steps| == 0 then CONNECTED
    else if steps[|steps| - 1].Connection? then steps[|steps| - 1].state
    else LastConnection(steps[..|steps| - 1])
  }

  lemma {:induction false} ConnectionIsLastNoted<B>(steps: seq<Step<B>>, expected: Scope, le: IdOrder)
    ensures Run(Create(), steps, expected, le).connection == LastConnection(steps)
  {
    if |steps| > 0 {
      ConnectionIsLastNoted(steps[..|steps| - 1], expected, le);
    }
  }

  // ---------- the items ----------

  /** Item `x` is what the last accepted update of its object left visible. */
  ghost predicate Shows<B>(entry: Option<Envelope<B>>, x: Item<B>) {
    entry.Some? && !entry.value.updateType.Remove? && entry.value.payload == Some(x)
  }

  /** The update leaves no item, or an item that is the object it names. */
  ghost predicate Named<B>(e: Envelope<B>) {
    e.updateType.Remove? || e.payload.None? || e.payload.value.id == e.objectId
  }

  lemma {:induction false} WithoutMembers<B(!new)>(items: seq<Item<B>>, id: string)
    ensures forall x :: x in Without(items, id) <==> x in items && x.id != id
  {
    if |items| > 0 {
      assert items == [items[0]] + items[1..];
      WithoutMembers(items[1..], id);
    }
  }

  lemma PrependKeepsUnique<B(!new)>(head: Item<B>, tail: seq<Item<B>>)
    ensures UniqueIds([head] + tail) <==> UniqueIds(tail) && forall x :: x in tail ==> x.id != head.id
  {
    var items := [head] + tail;
    if UniqueIds(items) {
      forall x | x in tail ensures x.id != head.id {
        var i :| 0 <= i < |tail| && tail[i] == x;
        assert items[0].id != items[i + 1].id;
      }
      forall i, j | 0 <= i < j < |tail| ensures tail[i].id != tail[j].id {
        assert items[i + 1].id != items[j + 1].id;
      }
    }
  }

  lemma {:induction false} WithoutKeepsUnique<B(!new)>(items: seq<Item<B>>, id: string)
    requires UniqueIds(items)
    ensures UniqueIds(Without(items, id))
  {
    if |items| > 0 {
      var head, tail := items[0], items[1..];
      assert items == [head] + tail;
      PrependKeepsUnique(head, tail);
      WithoutKeepsUnique(tail, id);
      WithoutMembers(tail, id);
      PrependKeepsUnique(head, Without(tail, id));
    }
  }

  lemma WithoutFacts<B(!new)>(items: seq<Item<B>>, id: string)
    ensures forall x :: x in Without(items, id) <==> x in items && x.id != id
    ensures UniqueIds(items) ==> UniqueIds(Without(items, id))
  {
    WithoutMembers(items, id);
    if UniqueIds(items) {
      WithoutKeepsUnique(items, id);
    }
  }

  lemma CountOnce<B(!new)>(a: seq<Item<B>>, x: Item<B>)
    requires UniqueIds(a)
    ensures multiset(a)[x] <= 1
  {
    if k :| 0 <= k < |a| && a[k] == x {
      assert a == a[..k] + [a[k]] + a[k + 1..];
      assert x !in a[..k] && x !in a[k + 1..];
    }
  }

  lemma CountTwice<B(!new)>(b: seq<Item<B>>, i: nat, j: nat)
    requires i < j < |b| && b[i] == b[j]
    ensures multiset(b)[b[i]] >= 2
  {
    assert b == b[..i] + [b[i]] + b[i + 1..j] + [b[j]] + b[j + 1..];
  }

  /** Being free of repeated ids depends only on how often each item occurs. */
  lemma UniqueIdsByCount<B(!new)>(a: seq<Item<B>>, b: seq<Item<B>>)
    requires multiset(a) == multiset(b) && UniqueIds(a)
    ensures UniqueIds(b)
  {
    forall i, j | 0 <= i < j < |b| ensures b[i].id != b[j].id {
      assert b[i] in multiset(a) && b[j] in multiset(a);
      var k :| 0 <= k < |a| && a[k] == b[i];
      var l :| 0 <= l < |a| && a[l] == b[j];
      CountOnce(a, b[i]);
      if b[i] == b[j] {
        CountTwice(b, i, j);
      }
    }
  }

  /** The merged list is sorted and holds the other objects' items and the new payload. */
  lemma MergeFacts<B(!new)>(items: seq<Item<B>>, e: Envelope<B>, le: IdOrder)
    requires TotalPreorder(le)
    ensures Sorted(Merge(items, e, le), ById(le))
    ensures multiset(Merge(items, e, le)) == multiset(Pushed(items, e))
    ensures forall x :: x in Merge(items, e, le) <==>
                        (x in items && x.id != e.objectId) || (!e.updateType.Remove? && e.payload == Some(x))
  {
    WithoutFacts(items, e.objectId);
    assert TotalPreorder(ById<B>(le));
    SortFacts(Pushed(items, e), ById(le));
    forall x ensures x in Merge(items, e, le) <==> x in Pushed(items, e) {
      assert x in Merge(items, e, le) <==> x in multiset(Merge(items, e, le));
      assert x in Pushed(items, e) <==> x in multiset(Pushed(items, e));
    }
  }

  lemma PushKeepsUnique<B(!new)>(kept: seq<Item<B>>, y: Item<B>)
    requires UniqueIds(kept)
    ensures UniqueIds(kept + [y]) <==> forall x :: x in kept ==> x.id != y.id
  {
    if UniqueIds(kept + [y]) {
      forall x | x in kept ensures x.id != y.id {
        var i :| 0 <= i < |kept| && kept[i] == x;
        assert (kept + [y])[i].id != (kept + [y])[|kept|].id;
      }
    }
  }

  /** The update adds nothing, its payload is the object it names, or its payload's id is not in use. */
  ghost predicate Fits<B(!new)>(items: seq<Item<B>>, e: Envelope<B>) {
    Named(e) || forall x :: x in items ==> x.id != e.payload.value.id
  }

  /** Applying an update keeps ids unique exactly when it fits. */
  lemma UniqueAfterMergeIff<B(!new)>(items: seq<Item<B>>, e: Envelope<B>, le: IdOrder)
    requires TotalPreorder(le) && UniqueIds(items)
    ensures UniqueIds(Merge(items, e, le)) <==> Fits(items, e)
  {
    var kept := Without(items, e.objectId);
    MergeFacts(items, e, le);
    WithoutFacts(items, e.objectId);
    if UniqueIds(Pushed(items, e)) {
      UniqueIdsByCount(Pushed(items, e), Merge(items, e, le));
    }
    if UniqueIds(Merge(items, e, le)) {
      UniqueIdsByCount(Merge(items, e, le), Pushed(items, e));
    }
    if !e.updateType.Remove? && e.payload.Some? {
      PushKeepsUnique(kept, e.payload.value);
    } else {
      assert Pushed(items, e) == kept;
    }
  }

  /** The items are sorted, have unique ids, and are exactly what the log's last updates per object show. */
  ghost predicate Mirrors<B(!new)>(items: seq<Item<B>>, log: seq<Envelope<B>>, le: IdOrder) {
    && Sorted(items, ById(le))
    && UniqueIds(items)
    && (forall x :: x in items <==> Shows(LastFor(log, x.id), x))
  }

  /** What holds at first, and after a step exactly when the step fits, holds all along exactly when all steps fit. */
  lemma {:induction false} AllAlong(holds: nat -> bool, fits: nat -> bool, n: nat)
    requires holds(0) && forall i: nat :: i < n && holds(i) ==> (holds(i + 1) <==> fits(i))
    ensures (forall i: nat :: i <= n ==> holds(i)) <==> forall i: nat :: i < n ==> fits(i)
  {
    if n > 0 {
      AllAlong(holds, fits, n - 1);
      assert holds(n - 1) ==> (holds(n - 1 + 1) <==> fits(n - 1));
    }
  }

  lemma NamedKeepsMirror<B(!new)>(items: seq<Item<B>>, log: seq<Envelope<B>>, e: Envelope<B>, le: IdOrder)
    requires TotalPreorder(le) && Mirrors(items, log, le) && Named(e)
    ensures Mirrors(Merge(items, e, le), log + [e], le)
  {
    MergeFacts(items, e, le);
    UniqueAfterMergeIff(items, e, le);
    AppendViews(log, e);
  }

  /** A foreign item is shown by no last update, or it is there twice. */
  lemma UnnamedBreaksMirror<B(!new)>(items: seq<Item<B>>, log: seq<Envelope<B>>, e: Envelope<B>, le: IdOrder)
    requires TotalPreorder(le) && Mirrors(items, log, le) && !Named(e)
    ensures !Mirrors(Merge(items, e, le), log + [e], le)
  {
    var x := e.payload.value;
    MergeFacts(items, e, le);
    assert x in Merge(items, e, le);
    AppendViews(log, e);
    assert LastFor(log + [e], x.id) == LastFor(log, x.id);
    if x in items {
      UniqueAfterMergeIff(items, e, le);
    }
  }

  /** Applying an update keeps the items a mirror of the log exactly when what it leaves is named. */
  lemma MergeMirrorsIff<B(!new)>(items: seq<Item<B>>, log: seq<Envelope<B>>, e: Envelope<B>, le: IdOrder)
    requires TotalPreorder(le) && Mirrors(items, log, le)
    ensures Mirrors(Merge(items, e, le), log + [e], le) <==> Named(e)
  {
    if Named(e) {
      NamedKeepsMirror(items, log, e, le);
    } else {
      UnnamedBreaksMirror(items, log, e, le);
    }
  }

  /** The step at index `i` of a run is refused, or leaves only what it names. */
  ghost predicate NamedAt<B>(steps: seq<Step<B>>, i: nat, expected: Scope, le: IdOrder)
    requires i < |steps|
  {
    IsAccepted(Run(Create(), steps[..i], expected, le), steps[i], expected, le) ==> Named(steps[i].envelope)
  }

  ghost predicate MirrorsAt<B(!new)>(steps: seq<Step<B>>, i: nat, expected: Scope, le: IdOrder)
    requires i <= |steps|
  {
    Mirrors(Run(Create(), steps[..i], expected, le).items, AcceptedLog(Create(), steps[..i], expected, le), le)
  }

  /** The run and its log up to one more step. */
  lemma PrefixStep<B>(steps: seq<Step<B>>, i: nat, expected: Scope, le: IdOrder)
    requires i < |steps|
    ensures
      var p, log := Run(Create(), steps[..i], expected, le), AcceptedLog(Create(), steps[..i], expected, le);
      var p', log' := Run(Create(), steps[..i + 1], expected, le), AcceptedLog(Create(), steps[..i + 1], expected, le);
      if IsAccepted(p, steps[i], expected, le)
      then p'.items == Merge(p.items, steps[i].envelope, le) && log' == log + [steps[i].envelope]
      else p'.items == p.items && log' == log
  {
    assert steps[..i + 1][..i] == steps[..i];
  }

  lemma MirrorStep<B(!new)>(steps: seq<Step<B>>, i: nat, expected: Scope, le: IdOrder)
    requires TotalPreorder(le) && i < |steps| && MirrorsAt(steps, i, expected, le)
    ensures MirrorsAt(steps, i + 1, expected, le) <==> NamedAt(steps, i, expected, le)
  {
    PrefixStep(steps, i, expected, le);
    var p, log := Run(Create(), steps[..i], expected, le), AcceptedLog(Create(), steps[..i], expected, le);
    if IsAccepted(p, steps[i], expected, le) {
      MergeMirrorsIff(p.items, log, steps[i].envelope, le);
    }
  }

  /**
   Refinement, with its exact condition: over a whole run from an empty
   projection the items are all along sorted, with unique ids, and exactly the
   objects whose last accepted update left a payload, if and only if every
   accepted update leaves only what it names.
   */
  lemma MirrorsAlongIff<B(!new)>(steps: seq<Step<B>>, n: nat, expected: Scope, le: IdOrder)
    requires TotalPreorder(le) && n <= |steps|
    ensures (forall i: nat :: i <= n ==> MirrorsAt(steps, i, expected, le)) <==>
            forall i: nat :: i < n ==> NamedAt(steps, i, expected, le)
  {
    var holds := (i: nat) => i <= |steps| && MirrorsAt(steps, i, expected, le);
    var fits := (i: nat) => i < |steps| && NamedAt(steps, i, expected, le);
    assert steps[..0] == [];
    forall i: nat | i < n && holds(i) ensures holds(i + 1) <==> fits(i) {
      MirrorStep(steps, i, expected, le);
    }
    AllAlong(holds, fits, n);
    assert forall i: nat :: i <= n ==> (holds(i) <==> MirrorsAt(steps, i, expected, le));
    assert forall i: nat :: i < n ==> (fits(i) <==> NamedAt(steps, i, expected, le));
  }

  /** In particular, at the end of a run whose accepted updates leave only what they name. */
  lemma ItemsAreLastAccepted<B(!new)>(steps: seq<Step<B>>, expected: Scope, le: IdOrder)
    requires TotalPreorder(le) && forall i: nat :: i < |steps| ==> NamedAt(steps, i, expected, le)
    ensures Mirrors(Run(Create(), steps, expected, le).items, AcceptedLog(Create(), steps, expected, le), le)
  {
    MirrorsAlongIff(steps, |steps|, expected, le);
    assert steps[..|steps|] == steps && MirrorsAt(steps, |steps|, expected, le);
  }

  /** No item of another tenant or case is ever shown: every item was brought by an update of the expected scope. */
  lemma {:induction false} ShownItemsAreInScope<B(!new)>(steps: seq<Step<B>>, expected: Scope, le: IdOrder, x: Item<B>)
    returns (e: Envelope<B>)
    requires TotalPreorder(le) && x in Run(Create(), steps, expected, le).items
    ensures e in AcceptedLog(Create(), steps, expected, le) && e.payload == Some(x)
    ensures e.scope.tenantId == expected.tenantId
    ensures expected.caseId.Some? && expected.caseId.value != "" ==> e.scope.caseId == expected.caseId
  {
    var init, last := steps[..|steps| - 1], steps[|steps| - 1];
    assert steps == init + [last];
    PrefixStep(steps, |init|, expected, le);
    assert steps[..|init| + 1] == steps;
    var p := Run(Create(), init, expected, le);
    if x in p.items {
      e := ShownItemsAreInScope(init, expected, le, x);
    } else {
      e := last.envelope;
      MergeFacts(p.items, e, le);
    }
    AcceptedLogIsInScope(steps, expected, le, e);
  }

  /** In any projection with unique ids, an accepted update keeps them unique exactly when it fits. */
  lemma UniqueAfterAcceptIff<B(!new)>(p: Projection<B>, e: Envelope<B>, expected: Scope, le: IdOrder)
    requires TotalPreorder(le) && UniqueIds(p.items)
    requires IsAccepted(p, Update(e), expected, le)
    ensures UniqueIds(Next(p, Update(e), expected, le).items) <==> Fits(p.items, e)
  {
    UniqueAfterMergeIff(p.items, e, le);
  }

  /** The step at index `i` of a run is refused, or fits the items it meets. */
  ghost predicate FitsAt<B(!new)>(steps: seq<Step<B>>, i: nat, expected: Scope, le: IdOrder)
    requires i < |steps|
  {
    var p := Run(Create(), steps[..i], expected, le);
    IsAccepted(p, steps[i], expected, le) ==> Fits(p.items, steps[i].envelope)
  }

  ghost predicate UniqueAt<B>(steps: seq<Step<B>>, i: nat, expected: Scope, le: IdOrder)
    requires i <= |steps|
  {
    UniqueIds(Run(Create(), steps[..i], expected, le).items)
  }

  lemma UniqueStep<B(!new)>(steps: seq<Step<B>>, i: nat, expected: Scope, le: IdOrder)
    requires TotalPreorder(le) && i < |steps| && UniqueAt(steps, i, expected, le)
    ensures UniqueAt(steps, i + 1, expected, le) <==> FitsAt(steps, i, expected, le)
  {
    PrefixStep(steps, i, expected, le);
    var p := Run(Create(), steps[..i], expected, le);
    if IsAccepted(p, steps[i], expected, le) {
      UniqueAfterAcceptIff(p, steps[i].envelope, expected, le);
    }
  }

  /** Over a whole run, ids are unique all along exactly when every accepted update fits what it meets. */
  lemma UniqueAlongIff<B(!new)>(steps: seq<Step<B>>, n: nat, expected: Scope, le: IdOrder)
    requires TotalPreorder(le) && n <= |steps|
    ensures (forall i: nat :: i <= n ==> UniqueAt(steps, i, expected, le)) <==>
            forall i: nat :: i < n ==> FitsAt(steps, i, expected, le)
  {
    var holds := (i: nat) => i <= |steps| && UniqueAt(steps, i, expected, le);
    var fits := (i: nat) => i < |steps| && FitsAt(steps, i, expected, le);
    assert steps[..0] == [];
    forall i: nat | i < n && holds(i) ensures holds(i + 1) <==> fits(i) {
      UniqueStep(steps, i, expected, le);
    }
    AllAlong(holds, fits, n);
    assert forall i: nat :: i <= n ==> (holds(i) <==> UniqueAt(steps, i, expected, le));
    assert forall i: nat :: i < n ==> (fits(i) <==> FitsAt(steps, i, expected, le));
  }

  lemma ShortIsNotInherited(updateId: string)
    requires |updateId| < 7
    ensures updateId !in INHERITED_NAMES
  {
  }

  lemma FirstAccepted<B>(e: Envelope<B>, expected: Scope, le: IdOrder)
    requires InScope(e, expected) && e.updateId !in INHERITED_NAMES && e.sequence > 0
    ensures Run(Create(), [Update(e)], expected, le) == Accept(Create(), e, le)
  {
    assert [Update(e)][..0] == [];
  }

  lemma FirstItem<B(!new)>(e: Envelope<B>, x: Item<B>, le: IdOrder)
    requires e.updateType.Upsert? && e.payload == Some(x)
    ensures Merge(Create<B>().items, e, le) == [x]
  {
    assert Pushed([], e) == [x];
    assert Sort([x], ById(le)) == [x] by {
      assert [x][..0] == [];
    }
  }

  lemma SecondAccepted<B>(first: Envelope<B>, second: Envelope<B>, expected: Scope, le: IdOrder)
    requires InScope(second, expected) && second.updateId !in INHERITED_NAMES
    requires second.updateId != first.updateId && second.sequence > first.sequence && second.objectId != first.objectId
    ensures IsAccepted(Accept(Create(), first, le), Update(second), expected, le)
  {
  }

  lemma RunOfTwo<B>(a: Step<B>, b: Step<B>, expected: Scope, le: IdOrder)
    ensures Run(Create(), [a, b], expected, le) == Next(Run(Create(), [a], expected, le), b, expected, le)
  {
    assert [a, b][..1] == [a];
  }

  /** Runs on which it fails: one object is shown, and then an update of another carries a payload of its name. */
  lemma ForeignPayloadCollides<B(!new)>(first: Envelope<B>, second: Envelope<B>, expected: Scope, le: IdOrder)
    requires TotalPreorder(le) && InScope(first, expected) && InScope(second, expected)
    requires first.updateId !in INHERITED_NAMES && second.updateId !in INHERITED_NAMES
    requires second.updateId != first.updateId && 0 < first.sequence < second.sequence
    requires first.updateType.Upsert? && first.payload.Some?
    requires second.updateType.Upsert? && second.payload.Some? && second.payload.value.id == first.payload.value.id
    requires second.objectId != first.objectId && second.objectId != second.payload.value.id
    ensures !UniqueIds(Run(Create(), [Update(first), Update(second)], expected, le).items)
  {
    FirstAccepted(first, expected, le);
    FirstItem(first, first.payload.value, le);
    SecondAccepted(first, second, expected, le);
    RunOfTwo(Update(first), Update(second), expected, le);
    var p := Accept(Create(), first, le);
    assert p.items[0] in p.items;
    UniqueAfterAcceptIff(p, second, expected, le);
  }

  /** One such run: "a" is shown, and an update of "b" carries a payload called "a". */
  lemma UnnamedPayloadCollides(le: IdOrder)
    requires TotalPreorder(le)
    ensures
      var scope := Scope("t", None);
      var first := Envelope("u1", "a", Upsert, 1, 1, None, scope, Some(Item("a", 0)));
      var second := Envelope("u2", "b", Upsert, 2, 1, None, scope, Some(Item("a", 1)));
      !UniqueIds(Run(Create(), [Update(first), Update(second)], scope, le).items)
  {
    var scope := Scope("t", None);
    var first := Envelope("u1", "a", Upsert, 1, 1, None, scope, Some(Item("a", 0)));
    var second := Envelope("u2", "b", Upsert, 2, 1, None, scope, Some(Item("a", 1)));
    assert "u1"[1] != "u2"[1] && "a"[0] != "b"[0];
    ShortIsNotInherited("u1");
    ShortIsNotInherited("u2");
    ForeignPayloadCollides(first, second, scope, le);
  }
}
