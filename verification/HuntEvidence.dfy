/**
 Validation of the evidence behind a hunt request: load every signal the
 requested signals depend on, collect the events of each dependency tree with
 a path-sensitive depth-first search, and check the events and the evidence
 references against the hunt's time window.
 */
module HuntEvidence {
  import opened Wrappers
  import opened SignalGraph

  datatype Event = Event(id: string, occurredAt: int, evidenceRef: string)

  datatype Window = Window(start: int, end: int) {
    predicate Contains(e: Event) {
      start <= e.occurredAt <= end
    }
  }

  /** One constructor per message with which the validator refuses. */
  datatype HuntError = UnknownSource | CyclicEvidence | StaleEvidence | NonCanonicalEvidence

  /** The signals handed to the validator were loaded from the repository. */
  ghost predicate LoadedFrom(repo: Graph, signals: seq<Signal>) {
    forall s :: s in signals ==> s.id in repo && repo[s.id] == s
  }

  /** Loading a set of ids returns the known signals among them. */
  function Load(repo: Graph, ids: set<string>): Graph {
    map id | id in ids && id in repo :: repo[id]
  }

  /** The dictionary from event id to event; a later event replaces an earlier one with its id. */
  function EventsById(events: seq<Event>): map<string, Event> {
    if |events| == 0 then map[]
    else var last := events[|events| - 1]; EventsById(events[..|events| - 1])[last.id := last]
  }

  function WindowRefs(events: seq<Event>, window: Window): set<string> {
    set e | e in events && window.Contains(e) :: e.evidenceRef
  }

  predicate InWindow(byId: map<string, Event>, window: Window, eventId: string) {
    eventId in byId && window.Contains(byId[eventId])
  }

  /** Id `x` is reachable from one of the requested signals. */
  ghost predicate ReachableFrom(repo: Graph, signals: seq<Signal>, x: string) {
    exists s :: s in signals && Reaches(repo, s.id, x)
  }

  ghost predicate AllKnown(repo: Graph, signals: seq<Signal>) {
    forall x :: ReachableFrom(repo, signals, x) ==> x in repo
  }

  /**
   One requested signal may be used: it depends on no cycle, every event it
   transitively depends on lies in the window, and it cites only evidence of
   events in the window.
   */
  ghost predicate Admissible(repo: Graph, events: seq<Event>, window: Window, s: Signal) {
    && !CycleFrom(repo, s.id)
    && (forall e :: e in EventsFrom(repo, s.id) ==> InWindow(EventsById(events), window, e))
    && (forall ref :: ref in s.evidenceRefs ==> ref in WindowRefs(events, window))
  }

  /** What is wrong with one requested signal, if anything. */
  ghost function Fault(repo: Graph, events: seq<Event>, window: Window, s: Signal): Option<HuntError> {
    if CycleFrom(repo, s.id) then Some(CyclicEvidence)
    else if Admissible(repo, events, window, s) then None
    else Some(StaleEvidence)
  }

  /** The fault of the first faulty signal. */
  ghost function FirstFault(repo: Graph, events: seq<Event>, window: Window, signals: seq<Signal>): Option<HuntError> {
    if |signals| == 0 then None
    else if Fault(repo, events, window, signals[0]).Some? then Fault(repo, events, window, signals[0])
    else FirstFault(repo, events, window, signals[1..])
  }

  /** What the validator decides, stated on the repository's graph and without any search. */
  ghost function Verdict(repo: Graph, events: seq<Event>, window: Window, required: seq<string>, signals: seq<Signal>)
    : Outcome<HuntError>
  {
    if !AllKnown(repo, signals) then Fail(UnknownSource)
    else match FirstFault(repo, events, window, signals)
      case Some(e) => Fail(e)
      case None =>
        if forall ref :: ref in required ==> ref in WindowRefs(events, window) then Pass else Fail(NonCanonicalEvidence)
  }

  /** The dictionary of the requested signals, before any source is loaded. */
  function Requested(signals: seq<Signal>): Graph
    requires forall s, t :: s in signals && t in signals && s.id == t.id ==> s == t
  {
    map s | s in signals :: s.id := s
  }

  /** Every id that a requested signal is or depends on. */
  ghost function Needed(repo: Graph, signals: seq<Signal>): iset<string> {
    iset x | ReachableFrom(repo, signals, x)
  }

  /** A set of ids that contains the requested signals and whatever its known members depend on. */
  ghost predicate ClosedNeed(repo: Graph, signals: seq<Signal>, needed: iset<string>) {
    && (forall s :: s in signals ==> s.id in needed)
    && (forall x, m :: x in needed && x in repo && m in repo[x].sourceIds ==> m in needed)
  }

  /** What the worklist loop keeps: everything seen so far is needed, and every missing source is pending. */
  ghost predicate Loading(repo: Graph, signals: seq<Signal>, needed: iset<string>, all: Graph, pending: set<string>) {
    && (forall k :: k in all ==> k in repo && all[k] == repo[k])
    && (forall k :: k in all || k in pending ==> k in needed)
    && (forall s :: s in signals ==> s.id in all)
    && (forall x, m :: x in all && m in all[x].sourceIds ==> m in all || m in pending)
  }

  /** The ids the freshly loaded signals depend on that are not loaded yet. */
  function Unloaded(dependencies: Graph, all: Graph): set<string> {
    set x, m | x in dependencies && m in dependencies[x].sourceIds && m !in all :: m
  }

  /**
   The worklist loop.  The first pending set may overlap the requested signals,
   so a round need not load anything new; then nothing is pending after it.
   */
  method LoadClosure(repo: Graph, signals: seq<Signal>, ghost needed: iset<string>)
    returns (r: Result<Graph, HuntError>)
    requires LoadedFrom(repo, signals) && ClosedNeed(repo, signals, needed)
    ensures r.Failure? ==> r.error == UnknownSource && exists m :: m in needed && m !in repo
    ensures r.Success? ==> Loading(repo, signals, needed, r.value, {})
  {
    var all := Requested(signals);
    var pending := set s, m | s in signals && m in s.sourceIds :: m;
    LoadingStarts(repo, signals, needed);
    while pending != {}
      invariant Loading(repo, signals, needed, all, pending)
      decreases repo.Keys - all.Keys, pending
    {
      var dependencies := Load(repo, pending);
      if dependencies.Keys != pending {
        assert exists m :: m in pending && m !in repo;
        return Failure(UnknownSource);
      }
      LoadingStep(repo, signals, needed, all, pending);
      LoadingProgress(repo, all, pending);
      all := all + dependencies;
      pending := Unloaded(dependencies, all);
    }
    return Success(all);
  }

  /**
   Loading fails exactly when some id that a requested signal depends on is
   unknown, and otherwise returns exactly the signals that are reachable from
   the requested ones.
   */
  method LoadSources(repo: Graph, signals: seq<Signal>) returns (r: Result<Graph, HuntError>)
    requires LoadedFrom(repo, signals)
    ensures r.Success? <==> AllKnown(repo, signals)
    ensures r.Failure? ==> r.error == UnknownSource
    ensures r.Success? ==> SourceClosed(r.value)
    ensures r.Success? ==> forall x :: x in r.value <==> ReachableFrom(repo, signals, x)
    ensures r.Success? ==> forall x :: x in r.value ==> x in repo && r.value[x] == repo[x]
  {
    NeededIsClosed(repo, signals);
    r := LoadClosure(repo, signals, Needed(repo, signals));
    if r.Failure? {
      NeededIsUnknown(repo, signals);
    } else {
      LoadedIsNeeded(repo, signals, Needed(repo, signals), r.value);
      ReachableIsLoaded(repo, signals, r.value);
    }
  }

  lemma NeededIsClosed(repo: Graph, signals: seq<Signal>)
    requires LoadedFrom(repo, signals)
    ensures ClosedNeed(repo, signals, Needed(repo, signals))
  {
    forall s | s in signals ensures ReachableFrom(repo, signals, s.id) {
      ReachesSelf(repo, s.id);
    }
    forall x, m | ReachableFrom(repo, signals, x) && x in repo && m in repo[x].sourceIds
      ensures ReachableFrom(repo, signals, m)
    {
      var s :| s in signals && Reaches(repo, s.id, x);
      EdgeReaches(repo, x, m);
      ReachesCompose(repo, s.id, x, m);
    }
  }

  lemma LoadingStarts(repo: Graph, signals: seq<Signal>, needed: iset<string>)
    requires LoadedFrom(repo, signals) && ClosedNeed(repo, signals, needed)
    ensures Loading(repo, signals, needed, Requested(signals), set s, m | s in signals && m in s.sourceIds :: m)
  {
  }

  lemma NeededIsUnknown(repo: Graph, signals: seq<Signal>)
    requires exists m :: m in Needed(repo, signals) && m !in repo
    ensures !AllKnown(repo, signals)
  {
    var m :| m in Needed(repo, signals) && m !in repo;
    assert ReachableFrom(repo, signals, m);
  }

  lemma LoadedIsNeeded(repo: Graph, signals: seq<Signal>, needed: iset<string>, all: Graph)
    requires Loading(repo, signals, needed, all, {})
    ensures SourceClosed(all)
    ensures forall k :: k in all ==> k in needed && k in repo && all[k] == repo[k]
    ensures forall s :: s in signals ==> s.id in all
  {
  }

  /** When nothing is pending, everything that is needed has been loaded. */
  lemma ReachableIsLoaded(repo: Graph, signals: seq<Signal>, all: Graph)
    requires SourceClosed(all)
    requires forall k :: k in all ==> k in repo && all[k] == repo[k]
    requires forall s :: s in signals ==> s.id in all
    ensures forall x :: ReachableFrom(repo, signals, x) ==> x in all
  {
    forall x | ReachableFrom(repo, signals, x) ensures x in all {
      var s :| s in signals && Reaches(repo, s.id, x);
      ClosedPartAgrees(all, repo, s.id);
      ClosedKnown(all, s.id);
    }
  }

  /** A round loads something new, or it is the last one. */
  lemma LoadingProgress(repo: Graph, all: Graph, pending: set<string>)
    requires pending != {} && pending <= repo.Keys
    requires forall x, m :: x in all && m in all[x].sourceIds ==> m in all || m in pending
    requires forall k :: k in all ==> k in repo && all[k] == repo[k]
    ensures
      var all' := all + Load(repo, pending);
      || repo.Keys - all'.Keys < repo.Keys - all.Keys
      || (all'.Keys == all.Keys && Unloaded(Load(repo, pending), all') == {})
  {
    var all' := all + Load(repo, pending);
    assert all'.Keys == all.Keys + pending;
    if pending <= all.Keys {
      assert all'.Keys == all.Keys;
      forall x, m | x in pending && m in repo[x].sourceIds ensures m in all' {
        assert all[x] == repo[x];
      }
    } else {
      var added :| added in pending && added !in all;
      assert added in repo.Keys - all.Keys && added !in repo.Keys - all'.Keys;
    }
  }

  lemma LoadingStep(repo: Graph, signals: seq<Signal>, needed: iset<string>, all: Graph, pending: set<string>)
    requires ClosedNeed(repo, signals, needed) && Loading(repo, signals, needed, all, pending) && pending <= repo.Keys
    ensures Loading(repo, signals, needed, all + Load(repo, pending),
                    Unloaded(Load(repo, pending), all + Load(repo, pending)))
  {
    var dependencies := Load(repo, pending);
    var all' := all + dependencies;
    var pending' := Unloaded(dependencies, all');
    assert all'.Keys == all.Keys + pending;
    forall x, m | x in all' && m in all'[x].sourceIds ensures m in all' || m in pending' {
      if x in pending {
        assert x in dependencies && dependencies[x] == all'[x];
      } else {
        assert all'[x] == all[x];
      }
    }
  }

  /**
   The depth-first search with the ids of the current path in `seen`.  It
   terminates because the path never repeats an id.
   */
  method SignalEventIds(all: Graph, id: string, seen: set<string>) returns (r: Result<set<string>, HuntError>)
    requires forall s :: s in seen ==> ReachesProperly(all, s, id)
    ensures r.Success? <==> !CycleFrom(all, id) && KnownFrom(all, id)
    ensures r.Success? ==> r.value == EventsFrom(all, id)
    ensures r.Failure? ==>
              || (r.error == CyclicEvidence && CycleFrom(all, id))
              || (r.error == UnknownSource && !KnownFrom(all, id))
    decreases all.Keys - seen
  {
    ReachesSelf(all, id);
    if id in seen {
      return Failure(CyclicEvidence);
    }
    if id !in all {
      return Failure(UnknownSource);
    }
    CycleUnfold(all, id);
    KnownUnfold(all, id);
    EventsUnfold(all, id);
    var sources := all[id].sourceIds;
    var eventIds := set e | e in all[id].eventIds;
    for i := 0 to |sources|
      invariant forall m :: m in sources[..i] ==> !CycleFrom(all, m) && KnownFrom(all, m)
      invariant eventIds == (set e | e in all[id].eventIds) +
                            set m, e | m in sources[..i] && e in EventsFrom(all, m) :: e
    {
      var source := sources[i];
      assert sources[..i + 1] == sources[..i] + [source];
      PathExtends(all, id, seen, source);
      var inherited := SignalEventIds(all, source, seen + {id});
      if inherited.Failure? {
        return inherited;
      }
      eventIds := eventIds + inherited.value;
    }
    assert sources[..|sources|] == sources;
    return Success(eventIds);
  }

  lemma PathExtends(all: Graph, id: string, seen: set<string>, source: string)
    requires forall s :: s in seen ==> ReachesProperly(all, s, id)
    requires id in all && source in all[id].sourceIds
    ensures forall s :: s in seen + {id} ==> ReachesProperly(all, s, source)
  {
    EdgeReaches(all, id, source);
    forall s | s in seen ensures ReachesProperly(all, s, source) {
      var n: nat :| n > 0 && ReachesIn(all, s, id, n);
      ReachesCompose(all, s, id, source);
    }
  }

  /** One round of the loop over the requested signals. */
  method CheckSignal(ghost repo: Graph, ghost signals: seq<Signal>, all: Graph, events: seq<Event>, window: Window,
                     signal: Signal, allowedRefs: set<string>)
    returns (r: Outcome<HuntError>)
    requires SourceClosed(all) && signal.id in all
    requires forall k :: k in all ==> k in repo && all[k] == repo[k]
    requires allowedRefs == WindowRefs(events, window)
    ensures r == match Fault(repo, events, window, signal) case None => Pass case Some(e) => Fail(e)
  {
    var byId := EventsById(events);
    ClosedPartAgrees(all, repo, signal.id);
    ClosedKnown(all, signal.id);
    var eventIds := SignalEventIds(all, signal.id, {});
    if eventIds.Failure? {
      return Fail(eventIds.error);
    }
    if exists e :: e in eventIds.value && !InWindow(byId, window, e) {
      return Fail(StaleEvidence);
    }
    if !((set ref | ref in signal.evidenceRefs) <= allowedRefs) {
      return Fail(StaleEvidence);
    }
    return Pass;
  }

  /**
   The whole validation, with its error precedence.  The references a checked
   signal adds to the allowed ones are always among them already, which is why
   the result does not depend on the order of the signals.
   */
  method ValidateHuntEvidence(repo: Graph, events: seq<Event>, window: Window, required: seq<string>,
                              signals: seq<Signal>)
    returns (r: Outcome<HuntError>)
    requires LoadedFrom(repo, signals)
    ensures r == Verdict(repo, events, window, required, signals)
  {
    var allowedRefs := WindowRefs(events, window);
    var loaded := LoadSources(repo, signals);
    if loaded.Failure? {
      return Fail(loaded.error);
    }
    var all := loaded.value;
    for i := 0 to |signals|
      invariant allowedRefs == WindowRefs(events, window)
      invariant FirstFault(repo, events, window, signals) == FirstFault(repo, events, window, signals[i..])
    {
      assert signals[i] in signals && signals[i..][1..] == signals[i + 1..];
      ReachesSelf(repo, signals[i].id);
      var checked := CheckSignal(repo, signals, all, events, window, signals[i], allowedRefs);
      if checked.Fail? {
        return checked;
      }
      allowedRefs := allowedRefs + set ref | ref in signals[i].evidenceRefs;
    }
    if !((set ref | ref in required) <= allowedRefs) {
      return Fail(NonCanonicalEvidence);
    }
    return Pass;
  }

  /** A hunt is accepted exactly when these conditions hold, none of which mentions an order. */
  lemma AcceptedIff(repo: Graph, events: seq<Event>, window: Window, required: seq<string>, signals: seq<Signal>)
    ensures Verdict(repo, events, window, required, signals).Pass? <==>
            && AllKnown(repo, signals)
            && (forall s :: s in signals ==> Admissible(repo, events, window, s))
            && (forall ref :: ref in required ==> ref in WindowRefs(events, window))
  {
    FirstFaultIff(repo, events, window, signals);
  }

  lemma {:induction false} FirstFaultIff(repo: Graph, events: seq<Event>, window: Window, signals: seq<Signal>)
    ensures FirstFault(repo, events, window, signals).None? <==>
            forall s :: s in signals ==> Admissible(repo, events, window, s)
  {
    if |signals| > 0 {
      assert signals[0] in signals && forall s :: s in signals ==> s == signals[0] || s in signals[1..];
      assert Fault(repo, events, window, signals[0]).None? <==> Admissible(repo, events, window, signals[0]);
      FirstFaultIff(repo, events, window, signals[1..]);
      if (forall s :: s in signals ==> Admissible(repo, events, window, s)) {
        assert forall s :: s in signals[1..] ==> s in signals;
      }
    }
  }

  /** One requested signal depends on a cycle, and another is stale. */
  ghost predicate Ambiguous(repo: Graph, events: seq<Event>, window: Window, signals: seq<Signal>) {
    && (exists s :: s in signals && Fault(repo, events, window, s) == Some(CyclicEvidence))
    && (exists s :: s in signals && Fault(repo, events, window, s) == Some(StaleEvidence))
  }

  ghost predicate SameSignals(signals: seq<Signal>, signals': seq<Signal>) {
    forall s :: s in signals <==> s in signals'
  }

  /**
   Reordering or repeating the requested signals never changes whether a hunt
   is accepted; it can only change which of the two per-signal refusals is
   seen, and that only between two requested signals that differ in it.
   */
  lemma VerdictIgnoresOrder(repo: Graph, events: seq<Event>, window: Window, required: seq<string>,
                            signals: seq<Signal>, signals': seq<Signal>)
    requires SameSignals(signals, signals')
    ensures
      var v, v' := Verdict(repo, events, window, required, signals), Verdict(repo, events, window, required, signals');
      || v == v'
      || (AllKnown(repo, signals) && Ambiguous(repo, events, window, signals)
          && v.Fail? && v'.Fail? && {v.error, v'.error} == {CyclicEvidence, StaleEvidence})
  {
    FirstFaultIff(repo, events, window, signals);
    FirstFaultIff(repo, events, window, signals');
    FirstFaultKind(repo, events, window, signals);
    FirstFaultKind(repo, events, window, signals');
    FirstFaultIsFault(repo, events, window, signals);
    FirstFaultIsFault(repo, events, window, signals');
    assert AllKnown(repo, signals) == AllKnown(repo, signals');
  }

  ghost predicate SameVerdict(repo: Graph, events: seq<Event>, window: Window, required: seq<string>,
                              signals: seq<Signal>, signals': seq<Signal>) {
    Verdict(repo, events, window, required, signals') == Verdict(repo, events, window, required, signals)
  }

  ghost predicate Reordered(signals: seq<Signal>, signals': seq<Signal>) {
    multiset(signals) == multiset(signals')
  }

  lemma ReorderedIsSame(signals: seq<Signal>, signals': seq<Signal>)
    requires Reordered(signals, signals')
    ensures SameSignals(signals, signals')
  {
    assert forall s :: s in signals <==> s in multiset(signals);
    assert forall s :: s in signals' <==> s in multiset(signals');
  }

  /**
   Exactly when the outcome, error included, is the same for every order of
   the requested signals: some needed signal is unknown, or no two requested
   signals are refused for different reasons.  Repeating signals changes
   nothing about that.
   */
  lemma OrderIsIrrelevantIff(repo: Graph, events: seq<Event>, window: Window, required: seq<string>,
                             signals: seq<Signal>)
    ensures
      (forall signals' :: Reordered(signals, signals') ==>
         SameVerdict(repo, events, window, required, signals, signals')) <==>
      !AllKnown(repo, signals) || !Ambiguous(repo, events, window, signals)
    ensures
      (forall signals' :: SameSignals(signals, signals') ==>
         SameVerdict(repo, events, window, required, signals, signals')) <==>
      !AllKnown(repo, signals) || !Ambiguous(repo, events, window, signals)
  {
    if AllKnown(repo, signals) && Ambiguous(repo, events, window, signals) {
      var c, t := AmbiguityShows(repo, events, window, required, signals);
      ReorderedIsSame(signals, c);
      ReorderedIsSame(signals, t);
    } else {
      forall signals' | SameSignals(signals, signals')
        ensures SameVerdict(repo, events, window, required, signals, signals')
      {
        VerdictIgnoresOrder(repo, events, window, required, signals, signals');
      }
      forall signals' | Reordered(signals, signals') ensures SameSignals(signals, signals') {
        ReorderedIsSame(signals, signals');
      }
    }
  }

  /** One occurrence of a signal moved to the front. */
  lemma MoveToFront(signals: seq<Signal>, s: Signal) returns (moved: seq<Signal>)
    requires s in signals
    ensures Reordered(signals, moved) && |moved| > 0 && moved[0] == s
  {
    var i :| 0 <= i < |signals| && signals[i] == s;
    moved := [s] + signals[..i] + signals[i + 1..];
    assert signals == signals[..i] + [signals[i]] + signals[i + 1..];
  }

  lemma AmbiguityShows(repo: Graph, events: seq<Event>, window: Window, required: seq<string>, signals: seq<Signal>)
    returns (c: seq<Signal>, t: seq<Signal>)
    requires AllKnown(repo, signals) && Ambiguous(repo, events, window, signals)
    ensures Reordered(signals, c) && Reordered(signals, t)
    ensures !SameVerdict(repo, events, window, required, signals, c)
            || !SameVerdict(repo, events, window, required, signals, t)
  {
    var first :| first in signals && Fault(repo, events, window, first) == Some(CyclicEvidence);
    c := MoveToFront(signals, first);
    FirstDecides(repo, events, window, required, signals, c);
    var second :| second in signals && Fault(repo, events, window, second) == Some(StaleEvidence);
    t := MoveToFront(signals, second);
    FirstDecides(repo, events, window, required, signals, t);
  }

  /** A faulty signal put first decides the error. */
  lemma FirstDecides(repo: Graph, events: seq<Event>, window: Window, required: seq<string>, signals: seq<Signal>,
                     moved: seq<Signal>)
    requires AllKnown(repo, signals) && Reordered(signals, moved)
    requires |moved| > 0 && Fault(repo, events, window, moved[0]).Some?
    ensures Verdict(repo, events, window, required, moved) == Fail(Fault(repo, events, window, moved[0]).value)
  {
    ReorderedIsSame(signals, moved);
    assert AllKnown(repo, moved);
  }

  /** Two signals for which the error depends on the order: one is its own source, the other names an unknown event. */
  lemma OrderDecidesError(window: Window)
    ensures
      var c, t := Signal("c", [], ["c"], []), Signal("t", ["e"], [], []);
      var repo := map["c" := c, "t" := t];
      && Verdict(repo, [], window, [], [c, t]) == Fail(CyclicEvidence)
      && Verdict(repo, [], window, [], [t, c]) == Fail(StaleEvidence)
  {
    var c, t := Signal("c", [], ["c"], []), Signal("t", ["e"], [], []);
    var repo := map["c" := c, "t" := t];
    assert "c"[0] != "t"[0];
    ReachesSelf(repo, "c");
    ReachesSelf(repo, "t");
    EdgeReaches(repo, "c", "c");
    assert CycleFrom(repo, "c");
    CycleUnfold(repo, "t");
    EventsUnfold(repo, "t");
    assert "e" in EventsFrom(repo, "t");
    assert SourceClosed(repo);
    forall s, x | s in [c, t] && Reaches(repo, s.id, x) ensures x in repo {
      ClosedKnown(repo, s.id);
    }
    assert AllKnown(repo, [c, t]) && AllKnown(repo, [t, c]);
  }

  lemma {:induction false} FirstFaultIsFault(repo: Graph, events: seq<Event>, window: Window, signals: seq<Signal>)
    ensures FirstFault(repo, events, window, signals).Some? ==>
              exists s :: s in signals && Fault(repo, events, window, s) == FirstFault(repo, events, window, signals)
  {
    if |signals| > 0 && Fault(repo, events, window, signals[0]).None? {
      FirstFaultIsFault(repo, events, window, signals[1..]);
    }
  }

  lemma {:induction false} FirstFaultKind(repo: Graph, events: seq<Event>, window: Window, signals: seq<Signal>)
    ensures FirstFault(repo, events, window, signals) in {None, Some(CyclicEvidence), Some(StaleEvidence)}
  {
    if |signals| > 0 {
      FirstFaultKind(repo, events, window, signals[1..]);
    }
  }
}
