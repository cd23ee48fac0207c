/**
 The client's contract as tables: which properties a view must have, and of
 what kind.  The structural check accepts exactly what conforms to them.
 */
module ValidatorLaws {
  import opened ExperienceValidator

  datatype Kind = AText | ANumber | AStatus | SomeTexts | AScope | AProvenance

  /** A record whose tenant is a text, and whose case is a text if it has one. */
  ghost predicate ScopeOk(v: Value) {
    v.Record? && tenantId in v.fields && v.fields[tenantId].Text? && (caseId in v.fields ==> v.fields[caseId].Text?)
  }

  /** A value of a kind that contains no other record. */
  ghost predicate PlainOk(v: Value, k: Kind, known: set<string>) {
    match k
    case AText => v.Text?
    case ANumber => v.Number?
    case AStatus => v.Text? && v.s in known
    case SomeTexts => v.List? && forall x :: x in v.items ==> x.Text?
    case AScope => ScopeOk(v)
    case AProvenance => false
  }

  ghost predicate ProvenanceOk(v: Value, known: set<string>) {
    && v.Record?
    && (forall n :: n in {source, sourceType, observedAt} ==> n in v.fields && v.fields[n].Text?)
    && status in v.fields && PlainOk(v.fields[status], AStatus, known)
    && evidenceRefs in v.fields && PlainOk(v.fields[evidenceRefs], SomeTexts, known)
  }

  ghost predicate KindOk(v: Value, k: Kind, known: set<string>) {
    if k == AProvenance then ProvenanceOk(v, known) else PlainOk(v, k, known)
  }

  ghost predicate Ok(v: Value, n: Name, k: Kind, known: set<string>) {
    v.Record? && n in v.fields && KindOk(v.fields[n], k, known)
  }

  // ---------- the tables ----------

  ghost predicate IsAttentionRecord(v: Value, known: set<string>) {
    && Ok(v, id, AText, known) && Ok(v, title, AText, known) && Ok(v, detail, AText, known)
    && Ok(v, entityId, AText, known) && Ok(v, source, AText, known)
    && Ok(v, status, AStatus, known)
    && Ok(v, scope, AScope, known)
  }

  ghost predicate IsCaseRecord(v: Value, known: set<string>) {
    && Ok(v, id, AText, known) && Ok(v, caseId, AText, known) && Ok(v, clientLabel, AText, known)
    && Ok(v, targetLabel, AText, known) && Ok(v, summary, AText, known) && Ok(v, updatedAt, AText, known)
    && Ok(v, evidenceCount, ANumber, known) && Ok(v, activityCount, ANumber, known)
    && Ok(v, state, AStatus, known)
    && Ok(v, findingIds, SomeTexts, known)
    && Ok(v, scope, AScope, known)
    && Ok(v, provenance, AProvenance, known)
  }

  ghost predicate IsFindingRecord(v: Value, known: set<string>) {
    && Ok(v, id, AText, known) && Ok(v, findingId, AText, known) && Ok(v, caseId, AText, known)
    && Ok(v, title, AText, known) && Ok(v, severity, AText, known)
    && Ok(v, state, AStatus, known) && Ok(v, adjudication, AStatus, known)
    && Ok(v, evidenceRefs, SomeTexts, known)
    && Ok(v, scope, AScope, known)
    && Ok(v, provenance, AProvenance, known)
  }

  ghost predicate IsActivityRecord(v: Value, known: set<string>) {
    && Ok(v, id, AText, known) && Ok(v, occurredAt, AText, known) && Ok(v, title, AText, known)
    && Ok(v, detail, AText, known) && Ok(v, source, AText, known)
    && Ok(v, sequence, ANumber, known)
    && Ok(v, state, AStatus, known)
    && Ok(v, evidenceRefs, SomeTexts, known)
    && Ok(v, scope, AScope, known)
  }

  ghost predicate IsNodeRecord(v: Value, known: set<string>) {
    && Ok(v, id, AText, known) && Ok(v, kind, AText, known) && Ok(v, nodeLabel, AText, known)
    && Ok(v, state, AStatus, known)
    && Ok(v, relatedIds, SomeTexts, known)
    && Ok(v, scope, AScope, known)
    && Ok(v, provenance, AProvenance, known)
  }

  ghost predicate IsEdgeRecord(v: Value, known: set<string>) {
    && Ok(v, id, AText, known) && Ok(v, sourceId, AText, known) && Ok(v, targetId, AText, known)
    && Ok(v, relation, AText, known)
    && Ok(v, state, AStatus, known)
    && Ok(v, relatedIds, SomeTexts, known)
    && Ok(v, scope, AScope, known)
    && Ok(v, provenance, AProvenance, known)
  }

  ghost predicate IsRunnerRecord(v: Value, known: set<string>) {
    && Ok(v, id, AText, known) && Ok(v, runnerId, AText, known) && Ok(v, capabilityId, AText, known)
    && Ok(v, source, AText, known)
    && Ok(v, state, AStatus, known) && Ok(v, policyDecision, AStatus, known)
    && Ok(v, evidenceRefs, SomeTexts, known)
    && Ok(v, scope, AScope, known)
  }

  ghost predicate IsSignalRecord(v: Value, known: set<string>) {
    && Ok(v, id, AText, known) && Ok(v, signalId, AText, known) && Ok(v, caseId, AText, known)
    && Ok(v, ruleId, AText, known) && Ok(v, severity, AText, known) && Ok(v, confidence, AText, known)
    && Ok(v, source, AText, known)
    && Ok(v, ruleVersion, ANumber, known)
    && Ok(v, state, AStatus, known)
    && Ok(v, eventIds, SomeTexts, known) && Ok(v, evidenceRefs, SomeTexts, known)
    && Ok(v, scope, AScope, known)
  }

  ghost predicate IsHuntRecord(v: Value, known: set<string>) {
    && Ok(v, id, AText, known) && Ok(v, huntId, AText, known) && Ok(v, hypothesisId, AText, known)
    && Ok(v, caseId, AText, known) && Ok(v, source, AText, known)
    && Ok(v, disposition, AStatus, known) && Ok(v, state, AStatus, known)
    && Ok(v, evidenceRefs, SomeTexts, known)
    && Ok(v, scope, AScope, known)
  }

  ghost predicate IsIncidentRecord(v: Value, known: set<string>) {
    && Ok(v, id, AText, known) && Ok(v, incidentId, AText, known) && Ok(v, caseId, AText, known)
    && Ok(v, severity, AText, known) && Ok(v, confidence, AText, known)
    && Ok(v, state, AStatus, known)
    && Ok(v, signalIds, SomeTexts, known) && Ok(v, evidenceRefs, SomeTexts, known)
    && Ok(v, scope, AScope, known)
    && Ok(v, provenance, AProvenance, known)
  }

  ghost predicate IsProposalRecord(v: Value, known: set<string>) {
    && Ok(v, id, AText, known) && Ok(v, proposalId, AText, known) && Ok(v, incidentId, AText, known)
    && Ok(v, caseId, AText, known) && Ok(v, targetId, AText, known) && Ok(v, action, AText, known)
    && Ok(v, source, AText, known)
    && Ok(v, opaDecision, AStatus, known) && Ok(v, humanApprovalState, AStatus, known)
    && Ok(v, state, AStatus, known)
    && Ok(v, evidenceRefs, SomeTexts, known)
    && Ok(v, scope, AScope, known)
  }

  // ---------- the check agrees ----------

  lemma ProvenanceIff(v: Value, known: set<string>)
    ensures IsProvenance(v, known) <==> ProvenanceOk(v, known)
  {
    assert source in {source, sourceType, observedAt} && sourceType in {source, sourceType, observedAt}
           && observedAt in {source, sourceType, observedAt};
  }

  /** The checks of single properties. */
  lemma PropertiesIff(v: Value, known: set<string>)
    ensures forall n :: HasText(v, n) <==> Ok(v, n, AText, known)
    ensures forall n :: HasNumber(v, n) <==> Ok(v, n, ANumber, known)
    ensures forall n :: HasStatus(v, n, known) <==> Ok(v, n, AStatus, known)
    ensures forall n :: HasTexts(v, n) <==> Ok(v, n, SomeTexts, known)
    ensures HasScope(v) <==> Ok(v, scope, AScope, known)
    ensures HasProvenance(v, known) <==> Ok(v, provenance, AProvenance, known)
  {
    if Get(v, provenance).Some? {
      ProvenanceIff(Get(v, provenance).value, known);
    }
  }

  lemma AttentionIff(v: Value, known: set<string>)
    ensures IsAttention(v, known) <==> IsAttentionRecord(v, known)
  {
    PropertiesIff(v, known);
  }

  lemma CaseIff(v: Value, known: set<string>)
    ensures IsCase(v, known) <==> IsCaseRecord(v, known)
  {
    PropertiesIff(v, known);
  }

  lemma FindingIff(v: Value, known: set<string>)
    ensures IsFinding(v, known) <==> IsFindingRecord(v, known)
  {
    PropertiesIff(v, known);
  }

  lemma ActivityIff(v: Value, known: set<string>)
    ensures IsActivity(v, known) <==> IsActivityRecord(v, known)
  {
    PropertiesIff(v, known);
  }

  lemma NodeIff(v: Value, known: set<string>)
    ensures IsNode(v, known) <==> IsNodeRecord(v, known)
  {
    PropertiesIff(v, known);
  }

  lemma EdgeIff(v: Value, known: set<string>)
    ensures IsEdge(v, known) <==> IsEdgeRecord(v, known)
  {
    PropertiesIff(v, known);
  }

  lemma RunnerIff(v: Value, known: set<string>)
    ensures IsRunner(v, known) <==> IsRunnerRecord(v, known)
  {
    PropertiesIff(v, known);
  }

  lemma SignalIff(v: Value, known: set<string>)
    ensures IsSignal(v, known) <==> IsSignalRecord(v, known)
  {
    PropertiesIff(v, known);
  }

  lemma HuntIff(v: Value, known: set<string>)
    ensures IsHunt(v, known) <==> IsHuntRecord(v, known)
  {
    PropertiesIff(v, known);
  }

  lemma IncidentIff(v: Value, known: set<string>)
    ensures IsIncident(v, known) <==> IsIncidentRecord(v, known)
  {
    PropertiesIff(v, known);
  }

  lemma ProposalIff(v: Value, known: set<string>)
    ensures IsProposal(v, known) <==> IsProposalRecord(v, known)
  {
    PropertiesIff(v, known);
  }

  /** An array whose elements all conform. */
  ghost predicate ArrayOk(v: Value, n: Name, conforms: Value -> bool) {
    v.Record? && n in v.fields && v.fields[n].List? && forall x :: x in v.fields[n].items ==> conforms(x)
  }

  lemma ArrayIff(v: Value, n: Name, check: Value -> bool, conforms: Value -> bool)
    requires forall x :: check(x) <==> conforms(x)
    ensures Array(v, n, check) <==> ArrayOk(v, n, conforms)
    ensures OptionalArray(v, n, check) <==> (v.Record? && n in v.fields ==> ArrayOk(v, n, conforms))
  {
  }

  lemma MandatoryArrays(v: Value, known: set<string>)
    ensures Array(v, attention, x => IsAttention(x, known)) <==> ArrayOk(v, attention, x => IsAttentionRecord(x, known))
    ensures Array(v, cases, x => IsCase(x, known)) <==> ArrayOk(v, cases, x => IsCaseRecord(x, known))
    ensures Array(v, findings, x => IsFinding(x, known)) <==> ArrayOk(v, findings, x => IsFindingRecord(x, known))
    ensures Array(v, activity, x => IsActivity(x, known)) <==> ArrayOk(v, activity, x => IsActivityRecord(x, known))
    ensures Array(v, graphNodes, x => IsNode(x, known)) <==> ArrayOk(v, graphNodes, x => IsNodeRecord(x, known))
    ensures Array(v, graphEdges, x => IsEdge(x, known)) <==> ArrayOk(v, graphEdges, x => IsEdgeRecord(x, known))
    ensures Array(v, runners, x => IsRunner(x, known)) <==> ArrayOk(v, runners, x => IsRunnerRecord(x, known))
  {
    forall x ensures IsAttention(x, known) <==> IsAttentionRecord(x, known) { AttentionIff(x, known); }
    forall x ensures IsCase(x, known) <==> IsCaseRecord(x, known) { CaseIff(x, known); }
    forall x ensures IsFinding(x, known) <==> IsFindingRecord(x, known) { FindingIff(x, known); }
    forall x ensures IsActivity(x, known) <==> IsActivityRecord(x, known) { ActivityIff(x, known); }
    forall x ensures IsNode(x, known) <==> IsNodeRecord(x, known) { NodeIff(x, known); }
    forall x ensures IsEdge(x, known) <==> IsEdgeRecord(x, known) { EdgeIff(x, known); }
    forall x ensures IsRunner(x, known) <==> IsRunnerRecord(x, known) { RunnerIff(x, known); }
    ArrayIff(v, attention, x => IsAttention(x, known), x => IsAttentionRecord(x, known));
    ArrayIff(v, cases, x => IsCase(x, known), x => IsCaseRecord(x, known));
    ArrayIff(v, findings, x => IsFinding(x, known), x => IsFindingRecord(x, known));
    ArrayIff(v, activity, x => IsActivity(x, known), x => IsActivityRecord(x, known));
    ArrayIff(v, graphNodes, x => IsNode(x, known), x => IsNodeRecord(x, known));
    ArrayIff(v, graphEdges, x => IsEdge(x, known), x => IsEdgeRecord(x, known));
    ArrayIff(v, runners, x => IsRunner(x, known), x => IsRunnerRecord(x, known));
  }

  ghost predicate ArrayIfAny(v: Value, n: Name, conforms: Value -> bool) {
    v.Record? && n in v.fields ==> ArrayOk(v, n, conforms)
  }

  lemma OptionalArrays(v: Value, known: set<string>)
    ensures OptionalArray(v, detectionSignals, x => IsSignal(x, known)) <==>
            ArrayIfAny(v, detectionSignals, x => IsSignalRecord(x, known))
    ensures OptionalArray(v, hunts, x => IsHunt(x, known)) <==> ArrayIfAny(v, hunts, x => IsHuntRecord(x, known))
    ensures OptionalArray(v, incidents, x => IsIncident(x, known)) <==>
            ArrayIfAny(v, incidents, x => IsIncidentRecord(x, known))
    ensures OptionalArray(v, responseProposals, x => IsProposal(x, known)) <==>
            ArrayIfAny(v, responseProposals, x => IsProposalRecord(x, known))
  {
    forall x ensures IsSignal(x, known) <==> IsSignalRecord(x, known) { SignalIff(x, known); }
    forall x ensures IsHunt(x, known) <==> IsHuntRecord(x, known) { HuntIff(x, known); }
    forall x ensures IsIncident(x, known) <==> IsIncidentRecord(x, known) { IncidentIff(x, known); }
    forall x ensures IsProposal(x, known) <==> IsProposalRecord(x, known) { ProposalIff(x, known); }
    ArrayIff(v, detectionSignals, x => IsSignal(x, known), x => IsSignalRecord(x, known));
    ArrayIff(v, hunts, x => IsHunt(x, known), x => IsHuntRecord(x, known));
    ArrayIff(v, incidents, x => IsIncident(x, known), x => IsIncidentRecord(x, known));
    ArrayIff(v, responseProposals, x => IsProposal(x, known), x => IsProposalRecord(x, known));
  }

  lemma HeaderIff(v: Value)
    ensures HasHeader(v) <==>
            && Ok(v, mode, AStatus, {"PREVIEW", "LOCAL_INTEGRATED", "HOSTED_INTEGRATED"})
            && Ok(v, connectionState, AStatus, {"PREVIEW", "CONNECTED", "DEGRADED", "UNAVAILABLE"})
            && Ok(v, sourceLabel, AText, {}) && Ok(v, tenantId, AText, {})
  {
    PropertiesIff(v, {});
  }

  /** The client accepts exactly the records with a known mode and connection and with conforming arrays. */
  lemma SnapshotIff(v: Value)
    ensures IsExperienceSnapshot(v) <==>
            && Ok(v, mode, AStatus, {"PREVIEW", "LOCAL_INTEGRATED", "HOSTED_INTEGRATED"})
            && Ok(v, connectionState, AStatus, {"PREVIEW", "CONNECTED", "DEGRADED", "UNAVAILABLE"})
            && Ok(v, sourceLabel, AText, {}) && Ok(v, tenantId, AText, {})
            && ArrayOk(v, attention, x => IsAttentionRecord(x, STATUSES))
               && ArrayOk(v, cases, x => IsCaseRecord(x, STATUSES))
            && ArrayOk(v, findings, x => IsFindingRecord(x, STATUSES))
               && ArrayOk(v, activity, x => IsActivityRecord(x, STATUSES))
            && ArrayOk(v, graphNodes, x => IsNodeRecord(x, STATUSES))
               && ArrayOk(v, graphEdges, x => IsEdgeRecord(x, STATUSES))
            && ArrayOk(v, runners, x => IsRunnerRecord(x, STATUSES))
            && ArrayIfAny(v, detectionSignals, x => IsSignalRecord(x, STATUSES))
               && ArrayIfAny(v, hunts, x => IsHuntRecord(x, STATUSES))
            && ArrayIfAny(v, incidents, x => IsIncidentRecord(x, STATUSES))
               && ArrayIfAny(v, responseProposals, x => IsProposalRecord(x, STATUSES))
  {
    HeaderIff(v);
    MandatoryArrays(v, STATUSES);
    OptionalArrays(v, STATUSES);
  }

  /** The statuses the client knows. */
  lemma StatusesAre(s: string)
    ensures s in STATUSES <==>
            s in ["NEW", "CHANGED", "RESOLVED", "DENIED", "APPROVAL_REQUIRED", "INCONCLUSIVE", "UNAVAILABLE",
                  "DEGRADED", "VERIFIED", "CONTRADICTED", "CANDIDATE", "CONFIRMED", "DISMISSED", "APPROVED", "EXPIRED",
                  "UNKNOWN"]
  {
  }
}
