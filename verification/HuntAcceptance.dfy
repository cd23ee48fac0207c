/**
 What the hunt validator's verdict means, spelled out on events, times and
 references: the four conditions of acceptance and the cause of each refusal.
 */
module HuntAcceptance {
  import opened Wrappers
  import opened SignalGraph
  import opened HuntEvidence

  /** The last event with the id occurred between the ends of the window, which belong to it. */
  ghost predicate OccursInWindow(events: seq<Event>, window: Window, id: string) {
    exists i :: && 0 <= i < |events| && events[i].id == id
                && window.start <= events[i].occurredAt <= window.end
                && (forall j :: i < j < |events| ==> events[j].id != id)
  }

  /** Some event that occurred between the ends of the window has the reference as its evidence. */
  ghost predicate CitesWindow(events: seq<Event>, window: Window, ref: string) {
    exists e :: e in events && e.evidenceRef == ref && window.start <= e.occurredAt <= window.end
  }

  ghost predicate DependsOnCycle(repo: Graph, s: Signal) {
    exists c :: Reaches(repo, s.id, c) && ReachesProperly(repo, c, c)
  }

  /** Everything the signal depends on, and everything it cites itself, belongs to the window. */
  ghost predicate Current(repo: Graph, events: seq<Event>, window: Window, s: Signal) {
    && (forall x, e :: x in repo && Reaches(repo, s.id, x) && e in repo[x].eventIds ==>
        OccursInWindow(events, window, e))
    && (forall ref :: ref in s.evidenceRefs ==> CitesWindow(events, window, ref))
  }

  ghost predicate DependsOnUnknown(repo: Graph, signals: seq<Signal>) {
    exists s, x :: s in signals && Reaches(repo, s.id, x) && x !in repo
  }

  lemma {:induction false} EventsByIdFacts(events: seq<Event>, id: string)
    ensures id in EventsById(events) <==> exists i :: 0 <= i < |events| && events[i].id == id
    ensures id in EventsById(events) ==>
              exists i :: && 0 <= i < |events| && events[i] == EventsById(events)[id] && events[i].id == id
                          && forall j :: i < j < |events| ==> events[j].id != id
  {
    if |events| > 0 {
      var init, last := events[..|events| - 1], events[|events| - 1];
      EventsByIdFacts(init, id);
      if last.id == id {
        assert events[|events| - 1] == EventsById(events)[id];
      } else if id in EventsById(init) {
        var i :| && 0 <= i < |init| && init[i] == EventsById(init)[id] && init[i].id == id
                 && forall j :: i < j < |init| ==> init[j].id != id;
        assert events[i] == init[i];
        assert forall j :: i < j < |init| ==> events[j] == init[j];
      } else {
        assert forall i :: 0 <= i < |init| ==> events[i] == init[i];
      }
    }
  }

  lemma InWindowIff(events: seq<Event>, window: Window, id: string)
    ensures InWindow(EventsById(events), window, id) <==> OccursInWindow(events, window, id)
  {
    EventsByIdFacts(events, id);
  }

  lemma WindowRefsIff(events: seq<Event>, window: Window, ref: string)
    ensures ref in WindowRefs(events, window) <==> CitesWindow(events, window, ref)
  {
  }

  lemma AdmissibleIff(repo: Graph, events: seq<Event>, window: Window, s: Signal)
    ensures Admissible(repo, events, window, s) <==> !DependsOnCycle(repo, s) && Current(repo, events, window, s)
  {
    forall e ensures InWindow(EventsById(events), window, e) <==> OccursInWindow(events, window, e) {
      InWindowIff(events, window, e);
    }
    forall ref ensures ref in WindowRefs(events, window) <==> CitesWindow(events, window, ref) {
      WindowRefsIff(events, window, ref);
    }
    forall e ensures e in EventsFrom(repo, s.id) <==>
                     exists x :: x in repo && Reaches(repo, s.id, x) && e in repo[x].eventIds
    {
    }
  }

  lemma UnknownIff(repo: Graph, signals: seq<Signal>)
    ensures AllKnown(repo, signals) <==> !DependsOnUnknown(repo, signals)
  {
    if x :| ReachableFrom(repo, signals, x) && x !in repo {
      var s :| s in signals && Reaches(repo, s.id, x);
    }
    if s, x :| s in signals && Reaches(repo, s.id, x) && x !in repo {
      assert ReachableFrom(repo, signals, x);
    }
  }

  /**
   A hunt is accepted if and only if nothing it depends on is unknown, no
   requested signal depends on a cycle, all events depended on and all
   references cited are of the window, and so are the required references.
   */
  lemma HuntAcceptedIff(repo: Graph, events: seq<Event>, window: Window, required: seq<string>, signals: seq<Signal>)
    ensures Verdict(repo, events, window, required, signals) == Pass <==>
            && !DependsOnUnknown(repo, signals)
            && (forall s :: s in signals ==> !DependsOnCycle(repo, s) && Current(repo, events, window, s))
            && (forall ref :: ref in required ==> CitesWindow(events, window, ref))
  {
    AcceptedIff(repo, events, window, required, signals);
    UnknownIff(repo, signals);
    forall s ensures Admissible(repo, events, window, s) <==>
                     !DependsOnCycle(repo, s) && Current(repo, events, window, s)
    {
      AdmissibleIff(repo, events, window, s);
    }
    forall ref ensures ref in WindowRefs(events, window) <==> CitesWindow(events, window, ref) {
      WindowRefsIff(events, window, ref);
    }
  }

  /** The first requested signal that may not be used. */
  ghost predicate FirstUnusable(repo: Graph, events: seq<Event>, window: Window, signals: seq<Signal>, i: nat)
    requires i < |signals|
  {
    && (DependsOnCycle(repo, signals[i]) || !Current(repo, events, window, signals[i]))
    && forall j :: 0 <= j < i ==> !DependsOnCycle(repo, signals[j]) && Current(repo, events, window, signals[j])
  }

  lemma {:induction false} FirstFaultAt(repo: Graph, events: seq<Event>, window: Window, signals: seq<Signal>, i: nat)
    requires i < |signals| && FirstUnusable(repo, events, window, signals, i)
    ensures FirstFault(repo, events, window, signals) ==
            Some(if DependsOnCycle(repo, signals[i]) then CyclicEvidence else StaleEvidence)
  {
    AdmissibleIff(repo, events, window, signals[0]);
    if i > 0 {
      FirstFaultAt(repo, events, window, signals[1..], i - 1);
    }
  }

  /**
   Why a hunt is refused: for an unknown dependency first; then the first
   unusable requested signal decides, for its cycle if it depends on one and
   else as stale; and the required references are looked at last.
   */
  lemma RefusedBecause(repo: Graph, events: seq<Event>, window: Window, required: seq<string>, signals: seq<Signal>)
    ensures
      var v := Verdict(repo, events, window, required, signals);
      && (v == Fail(UnknownSource) <==> DependsOnUnknown(repo, signals))
      && (!DependsOnUnknown(repo, signals) ==>
            forall i: nat :: i < |signals| && FirstUnusable(repo, events, window, signals, i) ==>
              v == Fail(if DependsOnCycle(repo, signals[i]) then CyclicEvidence else StaleEvidence))
      && (v == Fail(NonCanonicalEvidence) <==>
          && !DependsOnUnknown(repo, signals)
          && (forall s :: s in signals ==> !DependsOnCycle(repo, s) && Current(repo, events, window, s))
          && exists ref :: ref in required && !CitesWindow(events, window, ref))
  {
    UnknownIff(repo, signals);
    HuntAcceptedIff(repo, events, window, required, signals);
    HuntAcceptedIff(repo, events, window, [], signals);
    FirstFaultKind(repo, events, window, signals);
    forall i: nat | i < |signals| && FirstUnusable(repo, events, window, signals, i)
      ensures FirstFault(repo, events, window, signals) ==
              Some(if DependsOnCycle(repo, signals[i]) then CyclicEvidence else StaleEvidence)
    {
      FirstFaultAt(repo, events, window, signals, i);
    }
  }

  /** A reference of an event outside the window makes a hunt stale. */
  lemma OutsideReferenceIsStale()
    ensures
      var s := Signal("s", ["a"], [], ["ra", "rb"]);
      Verdict(map["s" := s], [Event("a", 1, "ra"), Event("b", 10, "rb")], Window(0, 5), ["rb"], [s]) ==
        Fail(StaleEvidence)
  {
    var s := Signal("s", ["a"], [], ["ra", "rb"]);
    var repo, events, window := map["s" := s], [Event("a", 1, "ra"), Event("b", 10, "rb")], Window(0, 5);
    assert "ra"[1] != "rb"[1] && "rb" in s.evidenceRefs && !CitesWindow(events, window, "rb");
    assert SourceClosed(repo);
    ClosedKnown(repo, "s");
    forall c ensures !(Reaches(repo, "s", c) && ReachesProperly(repo, c, c)) {
      NoSourcesNoPath(repo, s, c);
    }
    assert FirstUnusable(repo, events, window, [s], 0);
    RefusedBecause(repo, events, window, ["rb"], [s]);
  }

  lemma NoSourcesNoPath(repo: Graph, s: Signal, c: string)
    requires s.id in repo && repo[s.id] == s && s.sourceIds == []
    ensures !(Reaches(repo, s.id, c) && ReachesProperly(repo, c, c))
  {
    if Reaches(repo, s.id, c) {
      var n: nat :| ReachesIn(repo, s.id, c, n);
    }
  }
}
