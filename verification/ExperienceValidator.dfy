/**
 The client's structural check of an operator snapshot, over untyped values
 as JavaScript sees them after parsing JSON.
 */
module ExperienceValidator {
  import opened Wrappers

  /** The property names the contract knows. */
  datatype Name =
    | id | caseId | clientLabel | targetLabel | state | summary | updatedAt | findingIds | evidenceCount | activityCount
    | scope | provenance | tenantId | source | sourceType | observedAt | evidenceRefs | status | findingId | title
    | severity | adjudication | occurredAt | sequence | kind | detail | signalId | ruleId | ruleVersion | confidence
    | eventIds | huntId | hypothesisId | disposition | incidentId | signalIds | proposalId | targetId | action
    | opaDecision | humanApprovalState | entityId | nextAction | mode | connectionState | sourceLabel | attention
    | cases | findings | activity | graphNodes | graphEdges | runners | detectionSignals | hunts | incidents
    | responseProposals | nodeLabel | relatedIds | sourceId | relation | runnerId | capabilityId | policyDecision

  datatype Value = Null | Text(s: string) | Number(n: int) | List(items: seq<Value>) | Record(fields: map<Name, Value>)

  const STATUSES := {
    "NEW", "CHANGED", "RESOLVED", "DENIED", "APPROVAL_REQUIRED", "INCONCLUSIVE", "UNAVAILABLE", "DEGRADED",
    "VERIFIED", "CONTRADICTED", "CANDIDATE", "CONFIRMED", "DISMISSED", "APPROVED", "EXPIRED", "UNKNOWN"
  }
  const DATA_MODES := {"PREVIEW", "LOCAL_INTEGRATED", "HOSTED_INTEGRATED"}
  const CONNECTION_STATES := {"PREVIEW", "CONNECTED", "DEGRADED", "UNAVAILABLE"}

  /** A property read; None is undefined, also on anything but a record. */
  function Get(v: Value, n: Name): Option<Value> {
    if v.Record? && n in v.fields then Some(v.fields[n]) else None
  }

  /** Arrays are objects too. */
  predicate IsRecord(v: Value) { v.Record? || v.List? }

  predicate HasText(v: Value, n: Name) { Get(v, n).Some? && Get(v, n).value.Text? }

  predicate HasNumber(v: Value, n: Name) { Get(v, n).Some? && Get(v, n).value.Number? }

  /** `known` are the statuses the client lists. */
  predicate HasStatus(v: Value, n: Name, known: set<string>) { HasText(v, n) && Get(v, n).value.s in known }

  predicate IsTextArray(v: Value) {
    v.List? && forall x :: x in v.items ==> x.Text?
  }

  predicate HasTexts(v: Value, n: Name) { Get(v, n).Some? && IsTextArray(Get(v, n).value) }

  predicate IsScope(v: Value) {
    IsRecord(v) && HasText(v, tenantId) && (Get(v, caseId).None? || HasText(v, caseId))
  }

  predicate HasScope(v: Value) { Get(v, scope).Some? && IsScope(Get(v, scope).value) }

  predicate IsProvenance(v: Value, known: set<string>) {
    && IsRecord(v)
    && HasText(v, source) && HasText(v, sourceType) && HasText(v, observedAt)
    && HasTexts(v, evidenceRefs)
    && HasStatus(v, status, known)
  }

  predicate HasProvenance(v: Value, known: set<string>) {
    Get(v, provenance).Some? && IsProvenance(Get(v, provenance).value, known)
  }

  predicate IsAttention(v: Value, known: set<string>) {
    && IsRecord(v)
    && HasText(v, id) && HasText(v, title) && HasText(v, detail) && HasText(v, entityId)
    && HasStatus(v, status, known)
    && HasScope(v) && HasText(v, source)
  }

  predicate IsCase(v: Value, known: set<string>) {
    && IsRecord(v)
    && HasText(v, id) && HasText(v, caseId) && HasText(v, clientLabel) && HasText(v, targetLabel)
    && HasText(v, summary) && HasText(v, updatedAt)
    && HasStatus(v, state, known)
    && HasTexts(v, findingIds) && HasNumber(v, evidenceCount) && HasNumber(v, activityCount)
    && HasScope(v) && HasProvenance(v, known)
  }

  predicate IsFinding(v: Value, known: set<string>) {
    && IsRecord(v)
    && HasText(v, id) && HasText(v, findingId) && HasText(v, caseId) && HasText(v, title) && HasText(v, severity)
    && HasStatus(v, state, known) && HasStatus(v, adjudication, known)
    && HasTexts(v, evidenceRefs) && HasScope(v) && HasProvenance(v, known)
  }

  predicate IsActivity(v: Value, known: set<string>) {
    && IsRecord(v)
    && HasText(v, id) && HasText(v, occurredAt) && HasNumber(v, sequence) && HasText(v, title) && HasText(v, detail)
    && HasStatus(v, state, known) && HasTexts(v, evidenceRefs)
    && HasScope(v) && HasText(v, source)
  }

  predicate IsNode(v: Value, known: set<string>) {
    && IsRecord(v)
    && HasText(v, id) && HasText(v, kind) && HasText(v, nodeLabel)
    && HasStatus(v, state, known) && HasTexts(v, relatedIds)
    && HasScope(v) && HasProvenance(v, known)
  }

  predicate IsEdge(v: Value, known: set<string>) {
    && IsRecord(v)
    && HasText(v, id) && HasText(v, sourceId) && HasText(v, targetId) && HasText(v, relation)
    && HasStatus(v, state, known) && HasTexts(v, relatedIds)
    && HasScope(v) && HasProvenance(v, known)
  }

  predicate IsRunner(v: Value, known: set<string>) {
    && IsRecord(v)
    && HasText(v, id) && HasText(v, runnerId) && HasText(v, capabilityId)
    && HasStatus(v, state, known) && HasStatus(v, policyDecision, known)
    && HasTexts(v, evidenceRefs) && HasScope(v) && HasText(v, source)
  }

  predicate IsSignal(v: Value, known: set<string>) {
    && IsRecord(v)
    && HasText(v, id) && HasText(v, signalId) && HasText(v, caseId) && HasText(v, ruleId)
    && HasText(v, severity) && HasText(v, confidence) && HasText(v, source) && HasNumber(v, ruleVersion)
    && HasStatus(v, state, known)
    && HasTexts(v, eventIds) && HasTexts(v, evidenceRefs) && HasScope(v)
  }

  predicate IsHunt(v: Value, known: set<string>) {
    && IsRecord(v)
    && HasText(v, id) && HasText(v, huntId) && HasText(v, hypothesisId) && HasText(v, caseId) && HasText(v, source)
    && HasStatus(v, disposition, known) && HasStatus(v, state, known)
    && HasTexts(v, evidenceRefs) && HasScope(v)
  }

  predicate IsIncident(v: Value, known: set<string>) {
    && IsRecord(v)
    && HasText(v, id) && HasText(v, incidentId) && HasText(v, caseId) && HasText(v, severity) && HasText(v, confidence)
    && HasStatus(v, state, known)
    && HasTexts(v, signalIds) && HasTexts(v, evidenceRefs)
    && HasScope(v) && HasProvenance(v, known)
  }

  predicate IsProposal(v: Value, known: set<string>) {
    && IsRecord(v)
    && HasText(v, id) && HasText(v, proposalId) && HasText(v, incidentId) && HasText(v, caseId) && HasText(v, targetId)
    && HasText(v, action) && HasText(v, source)
    && HasStatus(v, opaDecision, known) && HasStatus(v, humanApprovalState, known) && HasStatus(v, state, known)
    && HasTexts(v, evidenceRefs) && HasScope(v)
  }

  /** A mandatory array whose elements all pass. */
  predicate Array(v: Value, n: Name, check: Value -> bool) {
    Get(v, n).Some? && Get(v, n).value.List? && forall x :: x in Get(v, n).value.items ==> check(x)
  }

  /** An array that may be missing altogether. */
  predicate OptionalArray(v: Value, n: Name, check: Value -> bool) {
    Get(v, n).None? || Array(v, n, check)
  }

  predicate HasHeader(v: Value) {
    && IsRecord(v)
    && HasText(v, mode) && Get(v, mode).value.s in DATA_MODES
    && HasText(v, connectionState) && Get(v, connectionState).value.s in CONNECTION_STATES
    && HasText(v, sourceLabel) && HasText(v, tenantId)
  }

  predicate HasArrays(v: Value, known: set<string>) {
    && Array(v, attention, x => IsAttention(x, known)) && Array(v, cases, x => IsCase(x, known))
    && Array(v, findings, x => IsFinding(x, known)) && Array(v, activity, x => IsActivity(x, known))
    && Array(v, graphNodes, x => IsNode(x, known)) && Array(v, graphEdges, x => IsEdge(x, known))
    && Array(v, runners, x => IsRunner(x, known))
    && OptionalArray(v, detectionSignals, x => IsSignal(x, known)) && OptionalArray(v, hunts, x => IsHunt(x, known))
    && OptionalArray(v, incidents, x => IsIncident(x, known))
       && OptionalArray(v, responseProposals, x => IsProposal(x, known))
  }

  predicate IsExperienceSnapshot(v: Value) {
    HasHeader(v) && HasArrays(v, STATUSES)
  }
}
