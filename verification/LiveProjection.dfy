/**
 The client-side reducer that merges a stream of experience updates into a
 sorted projection.  The transport may repeat and reorder updates; sequence,
 version and seen-id guards decide which of them are applied.
 */
module LiveProjection {
  import opened Sorting
  import opened Wrappers

  datatype Item<B> = Item(id: string, body: B)
  datatype UpdateType = Snapshot | Upsert | Remove
  datatype ConnectionState = PREVIEW | CONNECTED | DEGRADED | UNAVAILABLE
  datatype Scope = Scope(tenantId: string, caseId: Option<string>)
  datatype Stamp = Stamp(sequence: int, version: int)
  datatype StreamOutcome = Accepted | Duplicate | Stale

  datatype Envelope<B> = Envelope(updateId: string, objectId: string, updateType: UpdateType, sequence: int,
                                  version: int, resumeCursor: Option<string>, scope: Scope, payload: Option<Item<B>>)

  datatype Projection<B> = Projection(items: seq<Item<B>>, lastById: map<string, Stamp>, seen: set<string>,
                                      resumeCursor: Option<string>, lastSequence: int, connection: ConnectionState)

  /** `ScopeMismatch` is the raised error. */
  datatype Applied<B> = ScopeMismatch | Applied(projection: Projection<B>, outcome: StreamOutcome)

  /** Names every plain JavaScript object inherits; looking one up in `seenUpdateIds` never yields undefined. */
  const INHERITED_NAMES := {
    "constructor", "__defineGetter__", "__defineSetter__", "hasOwnProperty", "__lookupGetter__", "__lookupSetter__",
    "isPrototypeOf", "propertyIsEnumerable", "toString", "valueOf", "__proto__", "toLocaleString"
  }

  /** The locale's comparison of ids, of which only a total preorder is asked. */
  type IdOrder = (string, string) -> bool

  function ById<B>(le: IdOrder): (Item<B>, Item<B>) -> bool {
    (a: Item<B>, b: Item<B>) => le(a.id, b.id)
  }

  ghost predicate UniqueIds<B>(items: seq<Item<B>>) {
    forall i, j :: 0 <= i < j < |items| ==> items[i].id != items[j].id
  }

  function Without<B>(items: seq<Item<B>>, id: string): seq<Item<B>> {
    if |items| == 0 then []
    else (if items[0].id == id then [] else [items[0]]) + Without(items[1..], id)
  }

  function Create<B>(): Projection<B> {
    Projection([], map[], {}, None, 0, CONNECTED)
  }

  function SetConnection<B>(p: Projection<B>, state: ConnectionState): Projection<B> {
    p.(connection := state)
  }

  predicate InScope<B>(e: Envelope<B>, expected: Scope) {
    && e.scope.tenantId == expected.tenantId
    && (expected.caseId.Some? && expected.caseId.value != "" ==> e.scope.caseId == expected.caseId)
  }

  predicate Seen<B>(p: Projection<B>, updateId: string) {
    updateId in p.seen || updateId in INHERITED_NAMES
  }

  predicate VersionStale<B>(p: Projection<B>, e: Envelope<B>) {
    e.objectId in p.lastById &&
    var previous := p.lastById[e.objectId];
    e.version < previous.version || (e.version == previous.version && e.sequence <= previous.sequence)
  }

  /** The other objects' items and the new payload, unless the update removes. */
  function Pushed<B>(items: seq<Item<B>>, e: Envelope<B>): seq<Item<B>> {
    Without(items, e.objectId) + (if !e.updateType.Remove? && e.payload.Some? then [e.payload.value] else [])
  }

  function Merge<B>(items: seq<Item<B>>, e: Envelope<B>, le: IdOrder): seq<Item<B>> {
    Sort(Pushed(items, e), ById(le))
  }

  function Accept<B>(p: Projection<B>, e: Envelope<B>, le: IdOrder): Projection<B> {
    p.(items := Merge(p.items, e, le),
       lastById := p.lastById[e.objectId := Stamp(e.sequence, e.version)],
       seen := p.seen + {e.updateId},
       resumeCursor := if e.resumeCursor.Some? then e.resumeCursor else p.resumeCursor,
       lastSequence := e.sequence)
  }

  function ApplyStreamUpdate<B>(p: Projection<B>, e: Envelope<B>, expected: Scope, le: IdOrder): Applied<B> {
    if !InScope(e, expected) then ScopeMismatch
    else if Seen(p, e.updateId) then Applied(p, Duplicate)
    else if e.sequence <= p.lastSequence then Applied(p, Stale)
    else if VersionStale(p, e) then Applied(p, Stale)
    else Applied(Accept(p, e, le), Accepted)
  }

  /** What a consumer does: offer an update (an error leaves its projection alone) or note a connection change. */
  datatype Step<B> = Update(envelope: Envelope<B>) | Connection(state: ConnectionState)

  function Next<B>(p: Projection<B>, s: Step<B>, expected: Scope, le: IdOrder): Projection<B> {
    match s
    case Connection(state) => SetConnection(p, state)
    case Update(e) => match ApplyStreamUpdate(p, e, expected, le) case ScopeMismatch => p case Applied(p', _) => p'
  }

  function Run<B>(p: Projection<B>, steps: seq<Step<B>>, expected: Scope, le: IdOrder): Projection<B> {
    if |steps| == 0 then p else Next(Run(p, steps[..|steps| - 1], expected, le), steps[|steps| - 1], expected, le)
  }

  predicate IsAccepted<B>(p: Projection<B>, s: Step<B>, expected: Scope, le: IdOrder) {
    s.Update? && var r := ApplyStreamUpdate(p, s.envelope, expected, le); r.Applied? && r.outcome == Accepted
  }

  /** An update whose id every object inherits is dropped, also by an empty projection. */
  lemma InheritedNameIsDropped<B>(p: Projection<B>, e: Envelope<B>, le: IdOrder)
    requires e.updateId in [
      "constructor", "hasOwnProperty", "isPrototypeOf", "propertyIsEnumerable", "toString", "toLocaleString", "valueOf",
      "__proto__", "__defineGetter__", "__defineSetter__", "__lookupGetter__", "__lookupSetter__"]
    ensures ApplyStreamUpdate(p, e, e.scope, le) == Applied(p, Duplicate)
  {
  }

  /** An update of a scope older than what is known of its object, or as old in both respects. */
  ghost predicate Outdated<B>(p: Projection<B>, e: Envelope<B>) {
    e.objectId in p.lastById
    && (e.version < p.lastById[e.objectId].version
        || (e.version == p.lastById[e.objectId].version && e.sequence <= p.lastById[e.objectId].sequence))
  }

  /** The outcome of an update of the expected scope, in any projection; only an accepted one changes it. */
  lemma OutcomeTable<B>(p: Projection<B>, e: Envelope<B>, expected: Scope, le: IdOrder)
    requires ApplyStreamUpdate(p, e, expected, le).Applied?
    ensures
      var r := ApplyStreamUpdate(p, e, expected, le);
      var known := e.updateId in p.seen || e.updateId in INHERITED_NAMES;
      && (r.outcome == Duplicate <==> known)
      && (r.outcome == Stale <==> !known && (e.sequence <= p.lastSequence || Outdated(p, e)))
      && (r.outcome == Accepted <==> !known && e.sequence > p.lastSequence && !Outdated(p, e))
      && (r.outcome != Accepted ==> r.projection == p)
  {
  }

  /** The raised error: another tenant, or another case when one is expected. */
  lemma ScopeRefusedIff<B>(p: Projection<B>, e: Envelope<B>, expected: Scope, le: IdOrder)
    ensures ApplyStreamUpdate(p, e, expected, le).ScopeMismatch? <==>
            || e.scope.tenantId != expected.tenantId
            || (expected.caseId.Some? && expected.caseId.value != "" && e.scope.caseId != expected.caseId)
  {
  }

  // ---------- absorption ----------

  /** An update that will not be applied, now or (see RefusedPersists) ever again. */
  predicate Refused<B>(p: Projection<B>, e: Envelope<B>) {
    Seen(p, e.updateId) || e.sequence <= p.lastSequence || VersionStale(p, e)
  }

  lemma RefusedPersists<B>(p: Projection<B>, e: Envelope<B>, s: Step<B>, expected: Scope, le: IdOrder)
    requires Refused(p, e)
    ensures Refused(Next(p, s, expected, le), e)
  {
  }

  lemma {:induction false} RefusedForever<B>(p: Projection<B>, e: Envelope<B>, steps: seq<Step<B>>, expected: Scope,
                                             le: IdOrder)
    requires Refused(p, e)
    ensures Refused(Run(p, steps, expected, le), e)
  {
    if |steps| > 0 {
      RefusedForever(p, e, steps[..|steps| - 1], expected, le);
      RefusedPersists(Run(p, steps[..|steps| - 1], expected, le), e, steps[|steps| - 1], expected, le);
    }
  }

  lemma {:induction false} RunAppend<B>(p: Projection<B>, a: seq<Step<B>>, b: seq<Step<B>>, expected: Scope,
                                        le: IdOrder)
    ensures Run(p, a + b, expected, le) == Run(Run(p, a, expected, le), b, expected, le)
  {
    if |b| == 0 {
      assert a + b == a;
    } else {
      assert (a + b)[..|a + b| - 1] == a + b[..|b| - 1];
      RunAppend(p, a, b[..|b| - 1], expected, le);
    }
  }

  /** Once offered, an update changes nothing when it is offered again after any further steps. */
  lemma OfferedIsAbsorbed<B>(p: Projection<B>, e: Envelope<B>, steps: seq<Step<B>>, expected: Scope, le: IdOrder)
    ensures
      var later := Run(Next(p, Update(e), expected, le), steps, expected, le);
      Next(later, Update(e), expected, le) == later
  {
    if InScope(e, expected) {
      RefusedForever(Next(p, Update(e), expected, le), e, steps, expected, le);
    }
  }

  /** The log without repeated deliveries of an update; connection changes stay. */
  ghost function FirstDeliveries<B>(steps: seq<Step<B>>): seq<Step<B>> {
    if |steps| == 0 then []
    else
      var init, last := steps[..|steps| - 1], steps[|steps| - 1];
      FirstDeliveries(init) + if last.Update? && last in init then [] else [last]
  }

  ghost predicate UpdatesOnce<B>(steps: seq<Step<B>>) {
    forall i, j :: 0 <= i < j < |steps| && steps[i].Update? ==> steps[i] != steps[j]
  }

  /** First deliveries keep every step, and deliver no update twice. */
  lemma {:induction false} FirstDeliveriesFacts<B(!new)>(steps: seq<Step<B>>)
    ensures forall s :: s in steps <==> s in FirstDeliveries(steps)
    ensures UpdatesOnce(FirstDeliveries(steps))
  {
    if |steps| > 0 {
      var init, last := steps[..|steps| - 1], steps[|steps| - 1];
      assert steps == init + [last];
      FirstDeliveriesFacts(init);
      var once := FirstDeliveries(init);
      if last.Update? && last in init {
        assert FirstDeliveries(steps) == once;
      } else {
        assert FirstDeliveries(steps) == once + [last];
        forall i | 0 <= i < |once| && once[i].Update? ensures once[i] != last {
          assert once[i] in init;
        }
      }
    }
  }

  lemma RepeatIsAbsorbed<B>(p: Projection<B>, steps: seq<Step<B>>, s: Step<B>, expected: Scope, le: IdOrder)
    requires s.Update? && s in steps
    ensures Next(Run(p, steps, expected, le), s, expected, le) == Run(p, steps, expected, le)
  {
    var k :| 0 <= k < |steps| && steps[k] == s;
    var before, after := steps[..k + 1], steps[k + 1..];
    assert steps == before + after && before[..k] == steps[..k];
    RunAppend(p, before, after, expected, le);
    OfferedIsAbsorbed(Run(p, steps[..k], expected, le), s.envelope, after, expected, le);
  }

  /** At-least-once delivery has the effect of exactly-once delivery, from any projection. */
  lemma {:induction false} RedeliveryIsHarmless<B>(p: Projection<B>, steps: seq<Step<B>>, expected: Scope, le: IdOrder)
    ensures Run(p, steps, expected, le) == Run(p, FirstDeliveries(steps), expected, le)
  {
    if |steps| > 0 {
      var init, last := steps[..|steps| - 1], steps[|steps| - 1];
      RedeliveryIsHarmless(p, init, expected, le);
      if last.Update? && last in init {
        RepeatIsAbsorbed(p, init, last, expected, le);
        assert FirstDeliveries(steps) == FirstDeliveries(init);
      } else {
        assert FirstDeliveries(steps)[..|FirstDeliveries(steps)| - 1] == FirstDeliveries(init);
      }
    }
  }

  /** A reconnect that replays any part of what was already delivered leaves the projection as it was. */
  lemma {:induction false} ReplayIsHarmless<B>(p: Projection<B>, steps: seq<Step<B>>, replay: seq<Step<B>>,
                                               expected: Scope, le: IdOrder)
    requires forall s :: s in replay ==> s.Update? && s in steps
    ensures Run(p, steps + replay, expected, le) == Run(p, steps, expected, le)
  {
    if |replay| == 0 {
      assert steps + replay == steps;
    } else {
      var init, last := replay[..|replay| - 1], replay[|replay| - 1];
      ReplayIsHarmless(p, steps, init, expected, le);
      assert last in replay && steps + replay == steps + init + [last];
      RepeatIsAbsorbed(p, steps + init, last, expected, le);
      assert (steps + replay)[..|steps + replay| - 1] == steps + init;
    }
  }
}
