/**
 The hunt engine's own test of a signal: walk its sources again and refuse on
 a repeated or unknown id, on an event outside the window, and on a signal
 without inputs.  For a hunt the validator admits only the last test is new.
 */
module HuntEngine {
  import opened Wrappers
  import opened SignalGraph
  import opened HuntEvidence

  predicate SignalIsInWindow(signals: Graph, available: set<string>, id: string, seen: set<string>)
    decreases signals.Keys - seen
  {
    && id !in seen
    && id in signals
    && (forall e :: e in signals[id].eventIds ==> e in available)
    && (forall m :: m in signals[id].sourceIds ==> SignalIsInWindow(signals, available, m, seen + {id}))
    && (signals[id].eventIds != [] || signals[id].sourceIds != [])
  }

  /** Every signal that can be reached has source events or source signals. */
  ghost predicate InputsFrom(signals: Graph, id: string) {
    forall x :: x in signals && Reaches(signals, id, x) ==> signals[x].eventIds != [] || signals[x].sourceIds != []
  }

  ghost predicate Sound(signals: Graph, available: set<string>, id: string) {
    !CycleFrom(signals, id) && KnownFrom(signals, id) && EventsFrom(signals, id) <= available && InputsFrom(signals, id)
  }

  /** The walk computes a property of the reachable subgraph, whatever path led to `id`. */
  lemma {:induction false} WalkIsSound(signals: Graph, available: set<string>, id: string, seen: set<string>)
    requires forall s :: s in seen ==> ReachesProperly(signals, s, id)
    ensures SignalIsInWindow(signals, available, id, seen) <==> Sound(signals, available, id)
    decreases signals.Keys - seen
  {
    ReachesSelf(signals, id);
    if id in seen {
      assert CycleFrom(signals, id);
    } else if id in signals {
      SoundUnfold(signals, available, id);
      forall m | m in signals[id].sourceIds
        ensures SignalIsInWindow(signals, available, m, seen + {id}) <==> Sound(signals, available, m)
      {
        PathExtends(signals, id, seen, m);
        WalkIsSound(signals, available, m, seen + {id});
      }
    }
  }

  lemma SoundUnfold(signals: Graph, available: set<string>, id: string)
    requires id in signals
    ensures Sound(signals, available, id) <==>
            && (forall e :: e in signals[id].eventIds ==> e in available)
            && (forall m :: m in signals[id].sourceIds ==> Sound(signals, available, m))
            && (signals[id].eventIds != [] || signals[id].sourceIds != [])
  {
    CycleUnfold(signals, id);
    KnownUnfold(signals, id);
    EventsUnfold(signals, id);
    InputsUnfold(signals, id);
  }

  lemma InputsUnfold(signals: Graph, id: string)
    requires id in signals
    ensures InputsFrom(signals, id) <==>
            && (signals[id].eventIds != [] || signals[id].sourceIds != [])
            && forall m :: m in signals[id].sourceIds ==> InputsFrom(signals, m)
  {
    forall x
      ensures Reaches(signals, id, x) <==> id == x || exists m :: m in signals[id].sourceIds && Reaches(signals, m, x) {
      ReachesUnfold(signals, id, x);
    }
  }

  /** The ids of the events the engine makes available to a hunt. */
  function AvailableIds(events: seq<Event>, window: Window): set<string> {
    set e | e in events && window.Contains(e) :: e.id
  }

  /** Some event with the id occurred between the ends of the window. */
  ghost predicate SeenInWindow(events: seq<Event>, window: Window, e: string) {
    exists ev :: ev in events && ev.id == e && window.start <= ev.occurredAt <= window.end
  }

  /** The walk over the window's events, spelled out. */
  lemma MatchedIff(signals: Graph, events: seq<Event>, window: Window, id: string)
    ensures SignalIsInWindow(signals, AvailableIds(events, window), id, {}) <==>
            && !(exists c :: Reaches(signals, id, c) && ReachesProperly(signals, c, c))
            && (forall x :: Reaches(signals, id, x) ==>
                  x in signals && (signals[x].eventIds != [] || signals[x].sourceIds != []))
            && (forall x, e :: x in signals && Reaches(signals, id, x) && e in signals[x].eventIds ==>
                  SeenInWindow(events, window, e))
  {
    var available := AvailableIds(events, window);
    WalkIsSound(signals, available, id, {});
    assert forall e :: e in available <==> SeenInWindow(events, window, e);
    assert EventsFrom(signals, id) <= available <==>
           forall x, e :: x in signals && Reaches(signals, id, x) && e in signals[x].eventIds ==> e in available;
  }

  lemma {:induction false} InWindowIsAvailable(events: seq<Event>, window: Window, id: string)
    requires id in EventsById(events)
    ensures EventsById(events)[id] in events && EventsById(events)[id].id == id
  {
    var last := events[|events| - 1];
    assert events == events[..|events| - 1] + [last];
    if id != last.id {
      InWindowIsAvailable(events[..|events| - 1], window, id);
    }
  }

  /**
   A requested signal of an admitted hunt is matched by the engine exactly when
   every signal it depends on has inputs; that is all the second walk adds.
   */
  lemma AdmittedHuntIsMatched(repo: Graph, events: seq<Event>, window: Window, required: seq<string>,
                              signals: seq<Signal>, s: Signal)
    requires Verdict(repo, events, window, required, signals) == Pass
    requires s in signals
    ensures SignalIsInWindow(repo, AvailableIds(events, window), s.id, {}) <==> InputsFrom(repo, s.id)
  {
    AcceptedIff(repo, events, window, required, signals);
    forall e | e in EventsFrom(repo, s.id) ensures e in AvailableIds(events, window) {
      assert InWindow(EventsById(events), window, e);
      InWindowIsAvailable(events, window, e);
    }
    assert KnownFrom(repo, s.id) by {
      forall x | Reaches(repo, s.id, x) ensures x in repo {
        assert ReachableFrom(repo, signals, x);
      }
    }
    WalkIsSound(repo, AvailableIds(events, window), s.id, {});
  }
}
