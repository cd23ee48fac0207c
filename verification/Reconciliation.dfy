/**
 Reconciliation of a workflow row with its engagement and with an optional
 probe of the workflow engine, leaving an audit trail.
 */
module Reconciliation {
  import opened Wrappers

  const TERMINAL_ENGAGEMENTS := {"closed", "refused", "revoked", "failed", "partial"}
  const TERMINAL_WORKFLOWS := {"completed", "failed", "cancelled"}
  const KNOWN_TEMPORAL := {"running", "completed", "failed", "cancelled", "not_found", "unavailable"}

  datatype Action = ALREADY_TERMINAL | RECONCILED | REVIEW_REQUIRED | NO_ACTION

  /** What the probe does; its text counts after trimming and lower-casing. */
  datatype Probe = NoProbe | ProbeRaises | ProbeAnswers(normalized: string)

  /** `engagement` is absent when the engagement row is missing; the clock is read up to twice. */
  datatype Call = Call(engagement: Option<string>, probe: Probe, firstClock: int, secondClock: int)

  datatype AuditRow = AuditRow(eventId: string, statusBefore: string, statusAfter: string, engagementStatus: string,
                               temporalStatus: string, previous: Option<string>)

  datatype Row = Row(status: string, phase: string, finishedAt: Option<int>, updatedAt: int)

  /** The workflow row and the engagement's audit rows, oldest first. */
  datatype State = State(row: Row, audit: seq<AuditRow>)

  function TemporalStatus(probe: Probe): string {
    if probe.ProbeAnswers? && probe.normalized in KNOWN_TEMPORAL then probe.normalized else "unavailable"
  }

  function Decide(status: string, engagement: string, temporal: string): Action {
    if status in TERMINAL_WORKFLOWS then ALREADY_TERMINAL
    else if engagement in TERMINAL_ENGAGEMENTS && temporal != "running" then RECONCILED
    else if engagement in TERMINAL_ENGAGEMENTS && temporal == "running" then REVIEW_REQUIRED
    else NO_ACTION
  }

  function Settle(row: Row, engagement: string, call: Call): Row {
    Row(if engagement in {"failed", "partial"} then "failed" else "cancelled", "reconciled",
        Some(if row.finishedAt.Some? then row.finishedAt.value else call.firstClock), call.secondClock)
  }

  predicate HasEvent(audit: seq<AuditRow>, eventId: string) {
    exists i :: 0 <= i < |audit| && audit[i].eventId == eventId
  }

  function LastEvent(audit: seq<AuditRow>): Option<string> {
    if |audit| > 0 then Some(audit[|audit| - 1].eventId) else None
  }

  /** The effect of one call; a call that raises has none. `eventId` digests the decision's summary. */
  function Step(s: State, call: Call, eventId: Action -> string): State {
    if call.engagement.None? then s
    else
      var engagement, temporal := call.engagement.value, TemporalStatus(call.probe);
      var action := Decide(s.row.status, engagement, temporal);
      var row := if action == RECONCILED then Settle(s.row, engagement, call) else s.row;
      var id := eventId(action);
      State(row,
            if HasEvent(s.audit, id) then s.audit
            else s.audit + [AuditRow(id, s.row.status, row.status, engagement, temporal, LastEvent(s.audit))])
  }

  function Run(s: State, calls: seq<Call>, eventId: Action -> string): State {
    if |calls| == 0 then s else Step(Run(s, calls[..|calls| - 1], eventId), calls[|calls| - 1], eventId)
  }

  ghost predicate Injective(eventId: Action -> string) {
    forall a, b :: eventId(a) == eventId(b) ==> a == b
  }

  datatype Reconciled = Reconciled(action: Action, engagementStatus: string, before: string, after: string,
                                   temporal: string)

  /** The database session: one workflow row and the audit rows of its engagement. */
  class Session {
    var status: string
    var phase: string
    var finishedAt: Option<int>
    var updatedAt: int
    var audit: seq<AuditRow>

    function Snapshot(): State
      reads this
    {
      State(Row(status, phase, finishedAt, updatedAt), audit)
    }

    constructor (initial: State)
      ensures Snapshot() == initial
    {
      status, phase := initial.row.status, initial.row.phase;
      finishedAt, updatedAt := initial.row.finishedAt, initial.row.updatedAt;
      audit := initial.audit;
    }

    /** Append an audit row unless its event is recorded already. */
    method Audit(id: string, before: string, engagement: string, temporal: string)
      modifies this`audit
      ensures audit == if HasEvent(old(audit), id) then old(audit)
                       else old(audit) + [AuditRow(id, before, status, engagement, temporal,
                                                   LastEvent(old(audit)))]
    {
      if HasEvent(audit, id) {
        return;
      }
      audit := audit + [AuditRow(id, before, status, engagement, temporal, LastEvent(audit))];
    }

    /** None is the ValueError for a missing engagement. */
    method Reconcile(call: Call, eventId: Action -> string) returns (r: Option<Reconciled>)
      modifies this
      ensures Snapshot() == Step(old(Snapshot()), call, eventId)
      ensures r == if call.engagement.None? then None
                   else Some(Reconciled(Decide(old(status), call.engagement.value, TemporalStatus(call.probe)),
                                        call.engagement.value, old(status), status, TemporalStatus(call.probe)))
    {
      if call.engagement.None? {
        return None;
      }
      var engagement := call.engagement.value;
      var temporal := "unavailable";
      if call.probe.ProbeAnswers? && call.probe.normalized in KNOWN_TEMPORAL {
        temporal := call.probe.normalized;
      }
      var before := status;
      var action := NO_ACTION;
      if before in TERMINAL_WORKFLOWS {
        action := ALREADY_TERMINAL;
      } else if engagement in TERMINAL_ENGAGEMENTS && temporal != "running" {
        status := if engagement in {"failed", "partial"} then "failed" else "cancelled";
        phase := "reconciled";
        if finishedAt.None? {
          finishedAt := Some(call.firstClock);
        }
        updatedAt := call.secondClock;
        action := RECONCILED;
      } else if engagement in TERMINAL_ENGAGEMENTS && temporal == "running" {
        action := REVIEW_REQUIRED;
      }
      Audit(eventId(action), before, engagement, temporal);
      r := Some(Reconciled(action, engagement, before, status, temporal));
    }
  }

  // ---------- one call, spelled out ----------

  ghost predicate Finished(status: string) {
    status == "completed" || status == "failed" || status == "cancelled"
  }

  ghost predicate EngagementOver(engagement: string) {
    || engagement == "closed" || engagement == "refused" || engagement == "revoked"
    || engagement == "failed" || engagement == "partial"
  }

  /** The decision table. */
  lemma DecisionTable(status: string, engagement: string, temporal: string)
    ensures
      var decision := Decide(status, engagement, temporal);
      && (decision == ALREADY_TERMINAL <==> Finished(status))
      && (decision == RECONCILED <==> !Finished(status) && EngagementOver(engagement) && temporal != "running")
      && (decision == REVIEW_REQUIRED <==> !Finished(status) && EngagementOver(engagement) && temporal == "running")
      && (decision == NO_ACTION <==> !Finished(status) && !EngagementOver(engagement))
  {
  }

  /** An answer counts if it is one of six words; without one the engine is unavailable. */
  lemma ProbeMeans(answer: string)
    ensures TemporalStatus(NoProbe) == TemporalStatus(ProbeRaises) == "unavailable"
    ensures TemporalStatus(ProbeAnswers(answer)) ==
            if answer == "running" || answer == "completed" || answer == "failed" || answer == "cancelled"
               || answer == "not_found"
            then answer else "unavailable"
  {
  }

  /** A call changes the row only to settle it: as failed for a failed or partial engagement, else as cancelled. */
  lemma RowAfterCall(s: State, call: Call, eventId: Action -> string)
    ensures
      var before, after := s.row, Step(s, call, eventId).row;
      if call.engagement.Some? && !Finished(before.status) && EngagementOver(call.engagement.value)
         && call.probe != ProbeAnswers("running")
      then
        && after.status == (if call.engagement.value == "failed" || call.engagement.value == "partial" then "failed"
                            else "cancelled")
        && after.phase == "reconciled" && after.updatedAt == call.secondClock
        && after.finishedAt == (if before.finishedAt == None then Some(call.firstClock) else before.finishedAt)
      else after == before
  {
    if call.engagement.Some? {
      DecisionTable(s.row.status, call.engagement.value, TemporalStatus(call.probe));
      if call.probe.ProbeAnswers? {
        ProbeMeans(call.probe.normalized);
      }
    }
  }

  /** A call appends one audit row with what it saw and did, chained to the newest, unless its event is recorded. */
  lemma AuditAfterCall(s: State, call: Call, eventId: Action -> string)
    ensures
      var audit := Step(s, call, eventId).audit;
      if call.engagement == None then audit == s.audit
      else
        var id := eventId(Decide(s.row.status, call.engagement.value, TemporalStatus(call.probe)));
        if exists row :: row in s.audit && row.eventId == id then audit == s.audit
        else
          && |audit| == |s.audit| + 1 && audit[..|s.audit|] == s.audit
          && var row := audit[|s.audit|];
             && row.eventId == id
             && row.statusBefore == s.row.status && row.statusAfter == Step(s, call, eventId).row.status
             && row.engagementStatus == call.engagement.value && row.temporalStatus == TemporalStatus(call.probe)
             && (s.audit == [] ==> row.previous == None)
             && (s.audit != [] ==> row.previous == Some(s.audit[|s.audit| - 1].eventId))
  {
  }

  // ---------- whole runs ----------

  lemma {:induction false} RunSplit(s: State, a: seq<Call>, b: seq<Call>, eventId: Action -> string)
    ensures Run(s, a + b, eventId) == Run(Run(s, a, eventId), b, eventId)
  {
    if |b| == 0 {
      assert a + b == a;
    } else {
      assert (a + b)[..|a + b| - 1] == a + b[..|b| - 1];
      RunSplit(s, a, b[..|b| - 1], eventId);
    }
  }

  lemma {:induction false} TerminalIsFinal(s: State, calls: seq<Call>, eventId: Action -> string)
    requires s.row.status in TERMINAL_WORKFLOWS
    ensures Run(s, calls, eventId).row == s.row
  {
    if |calls| > 0 {
      TerminalIsFinal(s, calls[..|calls| - 1], eventId);
    }
  }

  /** Over any run a set finishing time stays, and the row changes only into failed or cancelled. */
  lemma {:induction false} RowAfterRun(s: State, calls: seq<Call>, eventId: Action -> string)
    ensures
      var row := Run(s, calls, eventId).row;
      && (s.row.finishedAt.Some? ==> row.finishedAt == s.row.finishedAt)
      && (row == s.row
          || (s.row.status !in TERMINAL_WORKFLOWS && row.status in {"failed", "cancelled"} && row.finishedAt.Some?))
  {
    if |calls| > 0 {
      RowAfterRun(s, calls[..|calls| - 1], eventId);
    }
  }

  /**
   The row changes at most once: at any two points of a run, either nothing
   had changed at the first, or nothing has changed since.
   */
  lemma RowChangesOnce(s: State, calls: seq<Call>, i: nat, j: nat, eventId: Action -> string)
    requires i <= j <= |calls|
    ensures Run(s, calls[..i], eventId).row == s.row
            || Run(s, calls[..j], eventId).row == Run(s, calls[..i], eventId).row
  {
    RowAfterRun(s, calls[..i], eventId);
    assert calls[..j] == calls[..i] + calls[i..j];
    RunSplit(s, calls[..i], calls[i..j], eventId);
    if Run(s, calls[..i], eventId).row != s.row {
      TerminalIsFinal(Run(s, calls[..i], eventId), calls[i..j], eventId);
    }
  }

  /** A call that may settle an unfinished workflow. */
  predicate Settles(call: Call) {
    call.engagement.Some? && call.engagement.value in TERMINAL_ENGAGEMENTS && TemporalStatus(call.probe) != "running"
  }

  /** An unfinished workflow is still unfinished exactly when no call settled it. */
  lemma {:induction false} SettledIff(s: State, calls: seq<Call>, eventId: Action -> string)
    requires s.row.status !in TERMINAL_WORKFLOWS
    ensures Run(s, calls, eventId).row.status in TERMINAL_WORKFLOWS <==>
            exists i :: 0 <= i < |calls| && Settles(calls[i])
    ensures Run(s, calls, eventId).row.status !in TERMINAL_WORKFLOWS ==> Run(s, calls, eventId).row == s.row
  {
    if |calls| > 0 {
      var init := calls[..|calls| - 1];
      SettledIff(s, init, eventId);
      assert forall i :: 0 <= i < |init| ==> init[i] == calls[i];
      if Run(s, init, eventId).row.status in TERMINAL_WORKFLOWS {
        assert exists i :: 0 <= i < |calls| && Settles(calls[i]);
      } else if Settles(calls[|calls| - 1]) {
        assert Run(s, calls, eventId).row.status in {"failed", "cancelled"};
      }
    }
  }

  // ---------- the audit trail ----------

  /** The audit rows of reconciliation decisions, given how many rows there were before. */
  ghost predicate Trail(audit: seq<AuditRow>, start: nat, eventId: Action -> string) {
    && start <= |audit|
    && (forall i :: start <= i < |audit| ==> exists a :: audit[i].eventId == eventId(a))
    && (forall i, j :: 0 <= i < j < |audit| && start <= j ==> audit[i].eventId != audit[j].eventId)
    && (forall i :: start <= i < |audit| && i > 0 ==> audit[i].previous == Some(audit[i - 1].eventId))
  }

  lemma {:induction false} TrailAfterRun(s: State, calls: seq<Call>, eventId: Action -> string)
    ensures s.audit <= Run(s, calls, eventId).audit
    ensures Trail(Run(s, calls, eventId).audit, |s.audit|, eventId)
  {
    if |calls| > 0 {
      TrailAfterRun(s, calls[..|calls| - 1], eventId);
    }
  }

  /** However long the run, its audit rows extend the old trail, are chained, and are at most four. */
  lemma AuditIsBounded(s: State, calls: seq<Call>, eventId: Action -> string)
    ensures s.audit <= Run(s, calls, eventId).audit
    ensures |Run(s, calls, eventId).audit| <= |s.audit| + 4
    ensures Trail(Run(s, calls, eventId).audit, |s.audit|, eventId)
  {
    TrailAfterRun(s, calls, eventId);
    var audit, start := Run(s, calls, eventId).audit, |s.audit|;
    var ids := IdsFrom(audit, start);
    var possible := {eventId(ALREADY_TERMINAL), eventId(RECONCILED), eventId(REVIEW_REQUIRED), eventId(NO_ACTION)};
    forall id | id in ids ensures id in possible {
      var i :| start <= i < |audit| && audit[i].eventId == id;
      var a :| audit[i].eventId == eventId(a);
      match a case ALREADY_TERMINAL => case RECONCILED => case REVIEW_REQUIRED => case NO_ACTION =>
    }
    DistinctCount(audit, start);
    SubsetSize(ids, possible);
    assert |possible| <= 4;
  }

  ghost function IdsFrom(audit: seq<AuditRow>, start: nat): set<string> {
    set i | start <= i < |audit| :: audit[i].eventId
  }

  lemma {:induction false} DistinctCount(audit: seq<AuditRow>, start: nat)
    requires start <= |audit|
    requires forall i, j :: 0 <= i < j < |audit| && start <= j ==> audit[i].eventId != audit[j].eventId
    ensures |IdsFrom(audit, start)| == |audit| - start
  {
    if start < |audit| {
      var init, last := audit[..|audit| - 1], audit[|audit| - 1].eventId;
      DistinctCount(init, start);
      var before := IdsFrom(init, start);
      assert IdsFrom(audit, start) == before + {last};
      assert last !in before;
    } else {
      assert IdsFrom(audit, start) == {};
    }
  }

  lemma SubsetSize<T>(a: set<T>, b: set<T>)
    requires a <= b
    ensures |a| <= |b|
  {
    assert b == a + (b - a);
  }

  /** The decision a call takes, if it does not raise. */
  function Taken(s: State, call: Call): Option<Action> {
    if call.engagement.None? then None
    else Some(Decide(s.row.status, call.engagement.value, TemporalStatus(call.probe)))
  }

  lemma StepAudits(s: State, call: Call, eventId: Action -> string, a: Action)
    requires Injective(eventId)
    ensures HasEvent(Step(s, call, eventId).audit, eventId(a)) <==>
            HasEvent(s.audit, eventId(a)) || Taken(s, call) == Some(a)
  {
    var after := Step(s, call, eventId).audit;
    assert s.audit <= after;
    if HasEvent(s.audit, eventId(a)) {
      var i :| 0 <= i < |s.audit| && s.audit[i].eventId == eventId(a);
      assert after[i].eventId == eventId(a);
    } else if Taken(s, call) == Some(a) {
      assert after[|s.audit|].eventId == eventId(a);
    } else if call.engagement.Some? && after != s.audit {
      assert after[|s.audit|].eventId == eventId(Taken(s, call).value);
    }
  }

  /** The `i`-th call of a run takes decision `a`. */
  ghost predicate TakenAt(s: State, calls: seq<Call>, i: nat, eventId: Action -> string, a: Action)
    requires i < |calls|
  {
    Taken(Run(s, calls[..i], eventId), calls[i]) == Some(a)
  }

  ghost predicate EverTaken(s: State, calls: seq<Call>, eventId: Action -> string, a: Action) {
    exists i: nat :: i < |calls| && TakenAt(s, calls, i, eventId, a)
  }

  lemma TakenInPrefix(s: State, calls: seq<Call>, i: nat, eventId: Action -> string, a: Action)
    requires i < |calls| - 1
    ensures TakenAt(s, calls[..|calls| - 1], i, eventId, a) <==> TakenAt(s, calls, i, eventId, a)
  {
    assert calls[..|calls| - 1][..i] == calls[..i];
  }

  lemma EverTakenStep(s: State, calls: seq<Call>, eventId: Action -> string, a: Action)
    requires |calls| > 0
    ensures EverTaken(s, calls, eventId, a) <==>
            EverTaken(s, calls[..|calls| - 1], eventId, a) || TakenAt(s, calls, |calls| - 1, eventId, a)
  {
    var init := calls[..|calls| - 1];
    if i: nat :| i < |init| && TakenAt(s, init, i, eventId, a) {
      TakenInPrefix(s, calls, i, eventId, a);
    } else if i: nat :| i < |calls| && TakenAt(s, calls, i, eventId, a) {
      if i < |init| {
        TakenInPrefix(s, calls, i, eventId, a);
      }
    }
  }

  /** With distinct digests a decision is audited exactly when some call of the run took it. */
  lemma {:induction false} AuditedIff(s: State, calls: seq<Call>, eventId: Action -> string, a: Action)
    requires Injective(eventId) && !HasEvent(s.audit, eventId(a))
    ensures HasEvent(Run(s, calls, eventId).audit, eventId(a)) <==> EverTaken(s, calls, eventId, a)
  {
    if |calls| > 0 {
      AuditedIff(s, calls[..|calls| - 1], eventId, a);
      EverTakenStep(s, calls, eventId, a);
      StepAudits(Run(s, calls[..|calls| - 1], eventId), calls[|calls| - 1], eventId, a);
    }
  }

  /** Repeating a call settles after two rounds: the first may change the row, the second may only add an audit row. */
  lemma RepeatedCallSettles(s: State, call: Call, eventId: Action -> string)
    ensures
      var once := Step(s, call, eventId);
      var twice := Step(once, call, eventId);
      && twice.row == once.row
      && Step(twice, call, eventId) == twice
  {
    var once := Step(s, call, eventId);
    var twice := Step(once, call, eventId);
    if call.engagement.Some? {
      var id := eventId(Taken(once, call).value);
      assert twice.audit == once.audit || twice.audit[|once.audit|].eventId == id;
      assert HasEvent(twice.audit, id);
    }
  }

  /**
   Exactly when one round is enough: a call is idempotent unless it settles
   the row while it is not yet audited that the workflow is terminal.
   */
  lemma IdempotentIff(s: State, call: Call, eventId: Action -> string)
    requires Injective(eventId)
    ensures Step(Step(s, call, eventId), call, eventId) == Step(s, call, eventId) <==>
            !(Taken(s, call) == Some(RECONCILED) && !HasEvent(s.audit, eventId(ALREADY_TERMINAL)))
  {
    var once := Step(s, call, eventId);
    if call.engagement.Some? {
      var a, b := Taken(s, call).value, Taken(once, call).value;
      assert b == if a == RECONCILED then ALREADY_TERMINAL else a;
      StepAudits(s, call, eventId, a);
      StepAudits(s, call, eventId, b);
      StepAudits(once, call, eventId, b);
    }
  }

  /** A call that is not: the engagement has failed, the workflow still runs, and nothing is audited yet. */
  lemma SecondCallAudits(eventId: Action -> string)
    requires Injective(eventId)
    ensures
      var s := State(Row("running", "scan", None, 0), []);
      var call := Call(Some("failed"), NoProbe, 1, 1);
      && |Step(s, call, eventId).audit| == 1
      && |Step(Step(s, call, eventId), call, eventId).audit| == 2
  {
    var s := State(Row("running", "scan", None, 0), []);
    var call := Call(Some("failed"), NoProbe, 1, 1);
    var once := Step(s, call, eventId);
    StatusWords();
    assert Taken(s, call) == Some(RECONCILED);
    assert Taken(once, call) == Some(ALREADY_TERMINAL);
    assert eventId(RECONCILED) != eventId(ALREADY_TERMINAL);
  }

  lemma StatusWords()
    ensures "running" !in TERMINAL_WORKFLOWS && "failed" in TERMINAL_WORKFLOWS
    ensures "failed" in TERMINAL_ENGAGEMENTS && "unavailable" != "running"
  {
    assert "running"[0] != "failed"[0] && "running"[0] != "cancelled"[0] && "running"[0] != "completed"[0];
    assert "unavailable"[0] != "running"[0];
  }
}
