/**
 The server-side producer of the operator snapshot, from read models, and the
 proof that the client's check accepts whatever it produces.
 */
module ExperienceSnapshot {
  import opened Wrappers
  import opened ExperienceValidator
  import opened Sequences

  datatype EngagementModel = EngagementModel(engagementId: string, clientId: string, targetIds: seq<string>,
                                             caseScope: string, caseStatus: string, changedAt: string)
  datatype FindingModel = FindingModel(findingKey: string, engagementId: Option<string>, severityText: Option<string>,
                                       titleText: Option<string>, summaryText: Option<string>,
                                       statusText: Option<string>, adjudicationText: Option<string>,
                                       supportingIds: seq<string>)
  datatype AuditModel = AuditModel(auditId: string, engagementId: Option<string>, auditKind: string,
                                   summaryText: string, at: string)
  datatype SignalModel = SignalModel(signalKey: string, tenant: string, caseKey: string, rule: string, version: int,
                                     severityText: string, confidenceText: string, statusText: string,
                                     events: seq<string>, refs: seq<string>, origin: string)
  datatype HuntModel = HuntModel(huntKey: string, hypothesis: string, tenant: string, caseKey: string,
                                 dispositionText: string, statusText: string, refs: seq<string>, origin: string)
  datatype IncidentModel = IncidentModel(incidentKey: string, tenant: string, caseKey: string, statusText: string,
                                         severityText: string, confidenceText: string, signals: seq<string>,
                                         refs: seq<string>, origin: string, originType: string, adjudicatedAt: string)
  datatype ProposalModel = ProposalModel(proposalKey: string, incident: string, tenant: string, caseKey: string,
                                         target: string, actionText: string, opa: string, approval: string,
                                         statusText: string, refs: seq<string>, origin: string)

  datatype Inputs = Inputs(modeText: string, sourceName: string, caseModels: seq<EngagementModel>,
                           findingModels: seq<FindingModel>, evidenceCounts: map<string, int>,
                           activityCounts: map<string, int>, audit: seq<AuditModel>, clients: map<string, string>,
                           targets: map<string, string>, signalModels: seq<SignalModel>, huntModels: seq<HuntModel>,
                           incidentModels: seq<IncidentModel>, proposalModels: seq<ProposalModel>,
                           tenantOverride: Option<string>)

  // ---------- statuses ----------

  /** The producer's words: the statuses it passes through and the ones it renames. */
  datatype Vocabulary = Vocabulary(statuses: set<string>, aliases: map<string, string>)

  const WORDS := Vocabulary(
    {"NEW", "CHANGED", "RESOLVED", "DENIED", "APPROVAL_REQUIRED", "INCONCLUSIVE", "UNAVAILABLE", "DEGRADED", "VERIFIED",
     "CONTRADICTED", "CANDIDATE", "CONFIRMED", "DISMISSED", "APPROVED", "EXPIRED", "UNKNOWN"},
    map["SUPPORTS" := "VERIFIED", "REFUTES" := "CONTRADICTED", "REQUIRE_APPROVAL" := "APPROVAL_REQUIRED",
        "ALLOW" := "VERIFIED", "CONTAINED" := "CONFIRMED", "RECOVERING" := "CONFIRMED", "OPEN" := "NEW",
        "CLOSED" := "RESOLVED", "REFUSED" := "DENIED", "REVOKED" := "DENIED"])

  /** Upper-casing, which is Python's, and the words. */
  datatype Mapping = Mapping(upper: string -> string, words: Vocabulary) {
    function Status(value: string): string {
      var normalized := upper(value);
      if normalized in words.aliases then words.aliases[normalized]
      else if normalized in words.statuses then normalized
      else "UNKNOWN"
    }
  }

  /** Upper-casing leaves the statuses alone. */
  ghost predicate KeepsStatuses(m: Mapping) {
    forall s :: s in m.words.statuses ==> m.upper(s) == s
  }

  /** Everything the mapping can yield is a status, and none of the statuses is renamed. */
  ghost predicate Coherent(words: Vocabulary) {
    && "UNKNOWN" in words.statuses
    && (forall k :: k in words.aliases ==> words.aliases[k] in words.statuses)
    && (forall s :: s in words.statuses ==> s !in words.aliases)
  }

  lemma StatusListsAgree()
    ensures WORDS.statuses == STATUSES && "UNKNOWN" in STATUSES
  {
  }

  lemma AliasesAreStatuses()
    ensures forall k :: k in WORDS.aliases ==> WORDS.aliases[k] in WORDS.statuses
  {
  }

  lemma StatusesAreNotAliases()
    ensures forall s :: s in WORDS.statuses ==> s !in WORDS.aliases
  {
  }

  /** The producer's words are coherent, and its statuses are the client's. */
  lemma WordsAreCoherent()
    ensures Coherent(WORDS) && WORDS.statuses == STATUSES
  {
    StatusListsAgree();
    AliasesAreStatuses();
    StatusesAreNotAliases();
  }

  /** So mapping a status twice is mapping it once. */
  lemma StatusIdempotent(value: string, m: Mapping)
    requires KeepsStatuses(m) && Coherent(m.words)
    ensures m.Status(value) in m.words.statuses && m.Status(m.Status(value)) == m.Status(value)
  {
  }

  // ---------- views ----------

  function Texts(xs: seq<string>): Value {
    List(seq(|xs|, i requires 0 <= i < |xs| => Text(xs[i])))
  }

  function Or(o: Option<string>, default: string): string {
    if o.Some? && o.value != "" then o.value else default
  }

  function FirstNonEmpty(xs: seq<string>): Option<string> {
    if |xs| == 0 then None else if xs[0] != "" then Some(xs[0]) else FirstNonEmpty(xs[1..])
  }

  function Tenants(i: Inputs): seq<string> {
    seq(|i.signalModels|, k requires 0 <= k < |i.signalModels| => i.signalModels[k].tenant) +
    seq(|i.huntModels|, k requires 0 <= k < |i.huntModels| => i.huntModels[k].tenant) +
    seq(|i.incidentModels|, k requires 0 <= k < |i.incidentModels| => i.incidentModels[k].tenant) +
    seq(|i.proposalModels|, k requires 0 <= k < |i.proposalModels| => i.proposalModels[k].tenant)
  }

  function SelectedTenant(i: Inputs): string {
    Or(i.tenantOverride, match FirstNonEmpty(Tenants(i)) case Some(t) => t case None => "operator-scope")
  }

  function ScopeValue(tenant: string, caseKey: string): Value {
    Record(map[tenantId := Text(tenant), caseId := Text(caseKey)])
  }

  function ProvenanceRecord(from: string, fromType: string, at: string, refs: seq<string>, stateText: string): Value {
    Record(map[source := Text(from), sourceType := Text(fromType), observedAt := Text(at), evidenceRefs := Texts(refs),
               status := Text(stateText)])
  }

  function ProvenanceValue(from: string, at: string, refs: seq<string>, stateText: string, m: Mapping): Value {
    ProvenanceRecord(from, "canonical-read-model", at, refs, m.Status(stateText))
  }

  function Lookup<V>(m: map<string, V>, key: string, default: V): V {
    if key in m then m[key] else default
  }

  function TargetLabel(i: Inputs, c: EngagementModel): string {
    var named := FirstNonEmpty(seq(|c.targetIds|,
                                   k requires 0 <= k < |c.targetIds| => Lookup(i.targets, c.targetIds[k], "")));
    if named.Some? then named.value
    else if Join(", ", c.targetIds) != "" then Join(", ", c.targetIds)
    else "target not validated"
  }

  function FindingIdsOf(fs: seq<FindingModel>, engagementId: string): seq<string> {
    var own := Select(fs, (f: FindingModel) => f.engagementId == Some(engagementId));
    seq(|own|, k requires 0 <= k < |own| => own[k].findingKey)
  }

  function CaseRecord(key: string, client: string, target: string, stateText: string, text: string, at: string,
                      findingKeys: seq<string>, evidence: int, activities: int, scopeValue: Value,
                      provenanceValue: Value): Value {
    Record(map[
      id := Text(key), caseId := Text(key), clientLabel := Text(client), targetLabel := Text(target),
      state := Text(stateText), summary := Text(text), updatedAt := Text(at), findingIds := Texts(findingKeys),
      evidenceCount := Number(evidence), activityCount := Number(activities), scope := scopeValue,
      provenance := provenanceValue])
  }

  function CaseView(i: Inputs, c: EngagementModel, m: Mapping): Value {
    var caseState := m.Status(c.caseStatus);
    CaseRecord(c.engagementId, Lookup(i.clients, c.clientId, c.clientId), TargetLabel(i, c), caseState,
               c.caseStatus + " case · " + c.caseScope, c.changedAt, FindingIdsOf(i.findingModels, c.engagementId),
               Lookup(i.evidenceCounts, c.engagementId, 0), Lookup(i.activityCounts, c.engagementId, 0),
               ScopeValue(SelectedTenant(i), c.engagementId),
               ProvenanceValue("canonical case read model", c.changedAt, [], caseState, m))
  }

  function FindingState(f: FindingModel, m: Mapping): string {
    m.Status(Or(f.adjudicationText, Or(f.statusText, "UNKNOWN")))
  }

  function FindingRecord(key: string, caseKey: string, heading: string, severityText: string, stateText: string,
                         refs: seq<string>, scopeValue: Value, provenanceValue: Value): Value {
    Record(map[
      id := Text(key), findingId := Text(key), caseId := Text(caseKey), title := Text(heading),
      severity := Text(severityText), state := Text(stateText), adjudication := Text(stateText),
      evidenceRefs := Texts(refs), scope := scopeValue, provenance := provenanceValue])
  }

  function FindingView(i: Inputs, f: FindingModel, m: Mapping): Value {
    var caseKey, findingState := Or(f.engagementId, "unknown"), FindingState(f, m);
    FindingRecord(f.findingKey, caseKey, Or(f.titleText, Or(f.summaryText, "Canonical finding")),
                  Or(f.severityText, "UNKNOWN"), findingState, f.supportingIds, ScopeValue(SelectedTenant(i), caseKey),
                  ProvenanceValue("canonical finding read model", "not_validated", f.supportingIds, findingState, m))
  }

  function ActivityRecord(key: string, caseValue: Value, at: string, number: int, kindText: string, text: string,
                          stateText: string, scopeValue: Value, from: string): Value {
    Record(map[
      id := Text(key), caseId := caseValue, occurredAt := Text(at), sequence := Number(number), kind := Text(kindText),
      title := Text(text), detail := Text(text), state := Text(stateText), evidenceRefs := List([]),
      scope := scopeValue, source := Text(from)])
  }

  function ActivityView(i: Inputs, a: AuditModel, index: nat, m: Mapping): Value {
    ActivityRecord(a.auditId, if a.engagementId.Some? then Text(a.engagementId.value) else Null, a.at, index + 1,
                   a.auditKind, a.summaryText, m.Status(a.auditKind),
                   ScopeValue(SelectedTenant(i), Or(a.engagementId, "unknown")), "canonical audit read model")
  }

  function SignalView(x: SignalModel, m: Mapping): Value {
    Record(map[
      id := Text(x.signalKey), signalId := Text(x.signalKey), caseId := Text(x.caseKey), ruleId := Text(x.rule),
      ruleVersion := Number(x.version), severity := Text(x.severityText), confidence := Text(x.confidenceText),
      state := Text(m.Status(x.statusText)), eventIds := Texts(x.events), evidenceRefs := Texts(x.refs),
      scope := ScopeValue(x.tenant, x.caseKey), source := Text(x.origin)])
  }

  function HuntView(x: HuntModel, m: Mapping): Value {
    Record(map[
      id := Text(x.huntKey), huntId := Text(x.huntKey), hypothesisId := Text(x.hypothesis), caseId := Text(x.caseKey),
      disposition := Text(m.Status(x.dispositionText)), state := Text(m.Status(x.statusText)),
      evidenceRefs := Texts(x.refs), scope := ScopeValue(x.tenant, x.caseKey), source := Text(x.origin)])
  }

  function IncidentRecord(key: string, caseKey: string, stateText: string, severityText: string, confidenceText: string,
                          signals: seq<string>, refs: seq<string>, scopeValue: Value, provenanceValue: Value): Value {
    Record(map[
      id := Text(key), incidentId := Text(key), caseId := Text(caseKey), state := Text(stateText),
      severity := Text(severityText), confidence := Text(confidenceText), signalIds := Texts(signals),
      evidenceRefs := Texts(refs), scope := scopeValue, provenance := provenanceValue])
  }

  function IncidentView(x: IncidentModel, m: Mapping): Value {
    var stateText := m.Status(x.statusText);
    IncidentRecord(x.incidentKey, x.caseKey, stateText, x.severityText, x.confidenceText, x.signals, x.refs,
                   ScopeValue(x.tenant, x.caseKey),
                   ProvenanceRecord(x.origin, x.originType, x.adjudicatedAt, x.refs, stateText))
  }

  function ProposalRecord(key: string, incident: string, caseKey: string, target: string, actionText: string,
                          opaText: string, approvalText: string, stateText: string, refs: seq<string>,
                          scopeValue: Value, from: string): Value {
    Record(map[
      id := Text(key), proposalId := Text(key), incidentId := Text(incident), caseId := Text(caseKey),
      targetId := Text(target), action := Text(actionText), opaDecision := Text(opaText),
      humanApprovalState := Text(approvalText), state := Text(stateText), evidenceRefs := Texts(refs),
      scope := scopeValue, source := Text(from)])
  }

  function ProposalView(x: ProposalModel, m: Mapping): Value {
    ProposalRecord(x.proposalKey, x.incident, x.caseKey, x.target, x.actionText, m.Status(x.opa), m.Status(x.approval),
                   m.Status(x.statusText), x.refs, ScopeValue(x.tenant, x.caseKey), x.origin)
  }

  // ---------- attention ----------

  function Entry(entryId: string, entryKind: string, heading: string, text: string, caseKey: string, entity: string,
                 stateText: string, at: string, next: string, refs: seq<string>, scopeValue: Value,
                 from: string): Value {
    Record(map[
      id := Text(entryId), kind := Text(entryKind), title := Text(heading), detail := Text(text),
      caseId := Text(caseKey), entityId := Text(entity), status := Text(stateText), observedAt := Text(at),
      nextAction := Text(next), evidenceRefs := Texts(refs), scope := scopeValue, source := Text(from)])
  }

  /** None when the finding needs no attention. */
  function FindingEntry(i: Inputs, f: FindingModel, m: Mapping): Option<Value> {
    var stateText, caseKey := FindingState(f, m), Or(f.engagementId, "unknown");
    if stateText == "RESOLVED" || stateText == "DISMISSED" then None
    else Some(Entry("finding-" + f.findingKey, "finding", "Finding needs review",
                    Or(f.titleText, Or(f.summaryText, "Canonical finding")), caseKey, f.findingKey, stateText,
                    "not_validated", "Inspect the adjudicated conclusion.", f.supportingIds,
                    ScopeValue(SelectedTenant(i), caseKey), "canonical finding projection"))
  }

  function SignalEntry(x: SignalModel, m: Mapping): Option<Value> {
    var stateText := m.Status(x.statusText);
    if stateText != "NEW" && stateText != "CHANGED" then None
    else Some(Entry("signal-" + x.signalKey, "detection", "New detection signal", x.rule + " · " + x.severityText,
                    x.caseKey, x.signalKey, stateText, "not_validated", "Inspect the bounded signal evidence.", x.refs,
                    ScopeValue(x.tenant, x.caseKey), x.origin))
  }

  function IncidentEntry(x: IncidentModel, m: Mapping): Option<Value> {
    var stateText := m.Status(x.statusText);
    if stateText != "CONFIRMED" then None
    else Some(Entry("incident-" + x.incidentKey, "incident", "Confirmed incident",
                    x.incidentKey + " · " + x.severityText, x.caseKey, x.incidentKey, stateText, x.adjudicatedAt,
                    "Inspect adjudication provenance.", x.refs, ScopeValue(x.tenant, x.caseKey), x.origin))
  }

  function ProposalEntry(x: ProposalModel, m: Mapping): Option<Value> {
    if m.Status(x.approval) != "APPROVAL_REQUIRED" then None
    else Some(Entry("proposal-" + x.proposalKey, "response", "Response proposal awaits approval",
                    x.actionText + " · " + x.target, x.caseKey, x.proposalKey, m.Status(x.statusText), "not_validated",
                    "Review the exact human approval binding.", x.refs, ScopeValue(x.tenant, x.caseKey), x.origin))
  }

  /** The defined results of a partial function over a list, in order. */
  function Collected<T>(xs: seq<T>, f: T -> Option<Value>): seq<Value> {
    if |xs| == 0 then []
    else
      var init, last := Collected(xs[..|xs| - 1], f), f(xs[|xs| - 1]);
      if last.Some? then init + [last.value] else init
  }

  function Mapped<T>(xs: seq<T>, f: T -> Value): seq<Value> {
    seq(|xs|, i requires 0 <= i < |xs| => f(xs[i]))
  }

  function AttentionItems(i: Inputs, m: Mapping): seq<Value> {
    Collected(i.findingModels, (f: FindingModel) => FindingEntry(i, f, m)) +
    Collected(i.signalModels, (x: SignalModel) => SignalEntry(x, m)) +
    Collected(i.incidentModels, (x: IncidentModel) => IncidentEntry(x, m)) +
    Collected(i.proposalModels, (x: ProposalModel) => ProposalEntry(x, m))
  }

  function ActivityItems(i: Inputs, m: Mapping): seq<Value> {
    seq(|i.audit|, k requires 0 <= k < |i.audit| => ActivityView(i, i.audit[k], k, m))
  }

  function CaseViews(i: Inputs, m: Mapping): seq<Value> {
    Mapped(i.caseModels, (c: EngagementModel) => CaseView(i, c, m))
  }

  function FindingViews(i: Inputs, m: Mapping): seq<Value> {
    Mapped(i.findingModels, (f: FindingModel) => FindingView(i, f, m))
  }

  function SignalViews(i: Inputs, m: Mapping): seq<Value> {
    Mapped(i.signalModels, (x: SignalModel) => SignalView(x, m))
  }

  function HuntViews(i: Inputs, m: Mapping): seq<Value> {
    Mapped(i.huntModels, (x: HuntModel) => HuntView(x, m))
  }

  function IncidentViews(i: Inputs, m: Mapping): seq<Value> {
    Mapped(i.incidentModels, (x: IncidentModel) => IncidentView(x, m))
  }

  function ProposalViews(i: Inputs, m: Mapping): seq<Value> {
    Mapped(i.proposalModels, (x: ProposalModel) => ProposalView(x, m))
  }

  /** The snapshot with a given attention list. */
  function SnapshotWith(i: Inputs, m: Mapping, attentionItems: seq<Value>): Value {
    Record(map[
      mode := Text(i.modeText), connectionState := Text("CONNECTED"), sourceLabel := Text(i.sourceName),
      tenantId := Text(SelectedTenant(i)), attention := List(attentionItems), cases := List(CaseViews(i, m)),
      findings := List(FindingViews(i, m)), activity := List(ActivityItems(i, m)), graphNodes := List([]),
      graphEdges := List([]), runners := List([]), detectionSignals := List(SignalViews(i, m)),
      hunts := List(HuntViews(i, m)), incidents := List(IncidentViews(i, m)),
      responseProposals := List(ProposalViews(i, m))])
  }

  function Snapshot(i: Inputs, m: Mapping): Value {
    SnapshotWith(i, m, AttentionItems(i, m))
  }

  method Collect<T>(xs: seq<T>, f: T -> Option<Value>) returns (entries: seq<Value>)
    ensures entries == Collected(xs, f)
  {
    entries := [];
    for n := 0 to |xs|
      invariant entries == Collected(xs[..n], f)
    {
      assert xs[..n + 1][..n] == xs[..n];
      var entry := f(xs[n]);
      if entry.Some? {
        entries := entries + [entry.value];
      }
    }
    assert xs[..|xs|] == xs;
  }

  // ---------- the consumer accepts every snapshot ----------

  lemma ProvenanceRecordPasses(from: string, fromType: string, at: string, refs: seq<string>, stateText: string,
                               known: set<string>)
    requires stateText in known
    ensures IsProvenance(ProvenanceRecord(from, fromType, at, refs, stateText), known)
  {
  }

  lemma ProvenancePasses(from: string, at: string, refs: seq<string>, stateText: string, m: Mapping, known: set<string>)
    requires Coherent(m.words) && m.words.statuses <= known
    ensures IsProvenance(ProvenanceValue(from, at, refs, stateText, m), known)
  {
    ProvenanceRecordPasses(from, "canonical-read-model", at, refs, m.Status(stateText), known);
  }

  lemma CaseRecordPasses(key: string, client: string, target: string, stateText: string, text: string, at: string,
                         findingKeys: seq<string>, evidence: int, activities: int, scopeValue: Value,
                         provenanceValue: Value, known: set<string>)
    requires stateText in known && IsScope(scopeValue) && IsProvenance(provenanceValue, known)
    ensures IsCase(CaseRecord(key, client, target, stateText, text, at, findingKeys, evidence, activities, scopeValue,
                              provenanceValue), known)
  {
  }

  lemma FindingRecordPasses(key: string, caseKey: string, heading: string, severityText: string, stateText: string,
                            refs: seq<string>, scopeValue: Value, provenanceValue: Value, known: set<string>)
    requires stateText in known && IsScope(scopeValue) && IsProvenance(provenanceValue, known)
    ensures IsFinding(FindingRecord(key, caseKey, heading, severityText, stateText, refs, scopeValue, provenanceValue),
                      known)
  {
  }

  lemma CasePasses(i: Inputs, c: EngagementModel, m: Mapping, known: set<string>)
    requires Coherent(m.words) && m.words.statuses <= known
    ensures IsCase(CaseView(i, c, m), known)
  {
    var caseState := m.Status(c.caseStatus);
    ProvenancePasses("canonical case read model", c.changedAt, [], caseState, m, known);
    CaseRecordPasses(c.engagementId, Lookup(i.clients, c.clientId, c.clientId), TargetLabel(i, c), caseState,
                     c.caseStatus + " case · " + c.caseScope, c.changedAt,
                     FindingIdsOf(i.findingModels, c.engagementId), Lookup(i.evidenceCounts, c.engagementId, 0),
                     Lookup(i.activityCounts, c.engagementId, 0), ScopeValue(SelectedTenant(i), c.engagementId),
                     ProvenanceValue("canonical case read model", c.changedAt, [], caseState, m), known);
  }

  lemma FindingPasses(i: Inputs, f: FindingModel, m: Mapping, known: set<string>)
    requires Coherent(m.words) && m.words.statuses <= known
    ensures IsFinding(FindingView(i, f, m), known)
  {
    var caseKey, findingState := Or(f.engagementId, "unknown"), FindingState(f, m);
    ProvenancePasses("canonical finding read model", "not_validated", f.supportingIds, findingState, m, known);
    FindingRecordPasses(f.findingKey, caseKey, Or(f.titleText, Or(f.summaryText, "Canonical finding")),
                        Or(f.severityText, "UNKNOWN"), findingState, f.supportingIds,
                        ScopeValue(SelectedTenant(i), caseKey),
                        ProvenanceValue("canonical finding read model", "not_validated", f.supportingIds, findingState,
                                        m), known);
  }

  lemma ActivityRecordPasses(key: string, caseValue: Value, at: string, number: int, kindText: string, text: string,
                             stateText: string, scopeValue: Value, from: string, known: set<string>)
    requires stateText in known && IsScope(scopeValue)
    ensures IsActivity(ActivityRecord(key, caseValue, at, number, kindText, text, stateText, scopeValue, from), known)
  {
  }

  lemma ActivityPasses(i: Inputs, a: AuditModel, index: nat, m: Mapping, known: set<string>)
    requires Coherent(m.words) && m.words.statuses <= known
    ensures IsActivity(ActivityView(i, a, index, m), known)
  {
    ActivityRecordPasses(a.auditId, if a.engagementId.Some? then Text(a.engagementId.value) else Null, a.at, index + 1,
                         a.auditKind, a.summaryText, m.Status(a.auditKind),
                         ScopeValue(SelectedTenant(i), Or(a.engagementId, "unknown")), "canonical audit read model",
                         known);
  }

  lemma SignalPasses(x: SignalModel, m: Mapping, known: set<string>)
    requires Coherent(m.words) && m.words.statuses <= known
    ensures IsSignal(SignalView(x, m), known)
  {
  }

  lemma HuntPasses(x: HuntModel, m: Mapping, known: set<string>)
    requires Coherent(m.words) && m.words.statuses <= known
    ensures IsHunt(HuntView(x, m), known)
  {
  }

  lemma IncidentRecordPasses(key: string, caseKey: string, stateText: string, severityText: string,
                             confidenceText: string, signals: seq<string>, refs: seq<string>, scopeValue: Value,
                             provenanceValue: Value, known: set<string>)
    requires stateText in known && IsScope(scopeValue) && IsProvenance(provenanceValue, known)
    ensures IsIncident(IncidentRecord(key, caseKey, stateText, severityText, confidenceText, signals, refs, scopeValue,
                                      provenanceValue), known)
  {
  }

  lemma IncidentPasses(x: IncidentModel, m: Mapping, known: set<string>)
    requires Coherent(m.words) && m.words.statuses <= known
    ensures IsIncident(IncidentView(x, m), known)
  {
    var stateText := m.Status(x.statusText);
    ProvenanceRecordPasses(x.origin, x.originType, x.adjudicatedAt, x.refs, stateText, known);
    IncidentRecordPasses(x.incidentKey, x.caseKey, stateText, x.severityText, x.confidenceText, x.signals, x.refs,
                         ScopeValue(x.tenant, x.caseKey),
                         ProvenanceRecord(x.origin, x.originType, x.adjudicatedAt, x.refs, stateText), known);
  }

  lemma ProposalRecordPasses(key: string, incident: string, caseKey: string, target: string, actionText: string,
                             opaText: string, approvalText: string, stateText: string, refs: seq<string>,
                             scopeValue: Value, from: string, known: set<string>)
    requires stateText in known && opaText in known && approvalText in known && IsScope(scopeValue)
    ensures IsProposal(ProposalRecord(key, incident, caseKey, target, actionText, opaText, approvalText, stateText,
                                      refs, scopeValue, from), known)
  {
  }

  lemma ProposalPasses(x: ProposalModel, m: Mapping, known: set<string>)
    requires Coherent(m.words) && m.words.statuses <= known
    ensures IsProposal(ProposalView(x, m), known)
  {
    ProposalRecordPasses(x.proposalKey, x.incident, x.caseKey, x.target, x.actionText, m.Status(x.opa),
                         m.Status(x.approval), m.Status(x.statusText), x.refs, ScopeValue(x.tenant, x.caseKey),
                         x.origin, known);
  }

  lemma EntryPasses(entryId: string, entryKind: string, heading: string, text: string, caseKey: string, entity: string,
                    stateText: string, at: string, next: string, refs: seq<string>, tenant: string, from: string,
                    known: set<string>)
    requires stateText in known
    ensures
      var e := Entry(entryId, entryKind, heading, text, caseKey, entity, stateText, at, next, refs,
                     ScopeValue(tenant, caseKey), from);
      IsAttention(e, known) && Subject(e) == (Text(entryKind), Text(entity))
  {
  }

  lemma {:induction false} CollectedPass<T>(xs: seq<T>, f: T -> Option<Value>, check: Value -> bool)
    requires forall x :: x in xs && f(x).Some? ==> check(f(x).value)
    ensures forall v :: v in Collected(xs, f) ==> check(v)
  {
    if |xs| > 0 {
      CollectedPass(xs[..|xs| - 1], f, check);
    }
  }

  lemma FindingEntryPasses(i: Inputs, f: FindingModel, m: Mapping, known: set<string>)
    requires Coherent(m.words) && m.words.statuses <= known
    ensures FindingEntry(i, f, m).Some? ==>
              IsAttention(FindingEntry(i, f, m).value, known)
              && Subject(FindingEntry(i, f, m).value) == (Text("finding"), Text(f.findingKey))
  {
    var caseKey := Or(f.engagementId, "unknown");
    EntryPasses("finding-" + f.findingKey, "finding", "Finding needs review",
                Or(f.titleText, Or(f.summaryText, "Canonical finding")), caseKey, f.findingKey, FindingState(f, m),
                "not_validated", "Inspect the adjudicated conclusion.", f.supportingIds, SelectedTenant(i),
                "canonical finding projection", known);
  }

  lemma SignalEntryPasses(x: SignalModel, m: Mapping, known: set<string>)
    requires Coherent(m.words) && m.words.statuses <= known
    ensures SignalEntry(x, m).Some? ==>
              IsAttention(SignalEntry(x, m).value, known)
                && Subject(SignalEntry(x, m).value) == (Text("detection"), Text(x.signalKey))
  {
    EntryPasses("signal-" + x.signalKey, "detection", "New detection signal", x.rule + " · " + x.severityText,
                x.caseKey, x.signalKey, m.Status(x.statusText), "not_validated",
                "Inspect the bounded signal evidence.", x.refs, x.tenant, x.origin, known);
  }

  lemma IncidentEntryPasses(x: IncidentModel, m: Mapping, known: set<string>)
    requires Coherent(m.words) && m.words.statuses <= known
    ensures IncidentEntry(x, m).Some? ==>
              IsAttention(IncidentEntry(x, m).value, known)
              && Subject(IncidentEntry(x, m).value) == (Text("incident"), Text(x.incidentKey))
  {
    EntryPasses("incident-" + x.incidentKey, "incident", "Confirmed incident", x.incidentKey + " · " + x.severityText,
                x.caseKey, x.incidentKey, m.Status(x.statusText), x.adjudicatedAt, "Inspect adjudication provenance.",
                x.refs, x.tenant, x.origin, known);
  }

  lemma ProposalEntryPasses(x: ProposalModel, m: Mapping, known: set<string>)
    requires Coherent(m.words) && m.words.statuses <= known
    ensures ProposalEntry(x, m).Some? ==>
              IsAttention(ProposalEntry(x, m).value, known)
              && Subject(ProposalEntry(x, m).value) == (Text("response"), Text(x.proposalKey))
  {
    EntryPasses("proposal-" + x.proposalKey, "response", "Response proposal awaits approval",
                x.actionText + " · " + x.target, x.caseKey, x.proposalKey, m.Status(x.statusText), "not_validated",
                "Review the exact human approval binding.", x.refs, x.tenant, x.origin, known);
  }

  lemma AttentionPasses(i: Inputs, m: Mapping, known: set<string>)
    requires Coherent(m.words) && m.words.statuses <= known
    ensures forall v :: v in AttentionItems(i, m) ==> IsAttention(v, known)
  {
    var check := (v: Value) => IsAttention(v, known);
    var ff := (f: FindingModel) => FindingEntry(i, f, m);
    var fs := (x: SignalModel) => SignalEntry(x, m);
    var fi := (x: IncidentModel) => IncidentEntry(x, m);
    var fp := (x: ProposalModel) => ProposalEntry(x, m);
    forall f | f in i.findingModels && ff(f).Some? ensures check(ff(f).value) { FindingEntryPasses(i, f, m, known); }
    forall x | x in i.signalModels && fs(x).Some? ensures check(fs(x).value) { SignalEntryPasses(x, m, known); }
    forall x | x in i.incidentModels && fi(x).Some? ensures check(fi(x).value) { IncidentEntryPasses(x, m, known); }
    forall x | x in i.proposalModels && fp(x).Some? ensures check(fp(x).value) { ProposalEntryPasses(x, m, known); }
    CollectedPass(i.findingModels, ff, check);
    CollectedPass(i.signalModels, fs, check);
    CollectedPass(i.incidentModels, fi, check);
    CollectedPass(i.proposalModels, fp, check);
  }

  lemma ViewsPass(i: Inputs, m: Mapping, known: set<string>)
    requires Coherent(m.words) && m.words.statuses <= known
    ensures forall v :: v in CaseViews(i, m) ==> IsCase(v, known)
    ensures forall v :: v in FindingViews(i, m) ==> IsFinding(v, known)
    ensures forall v :: v in ActivityItems(i, m) ==> IsActivity(v, known)
    ensures forall v :: v in SignalViews(i, m) ==> IsSignal(v, known)
    ensures forall v :: v in HuntViews(i, m) ==> IsHunt(v, known)
    ensures forall v :: v in IncidentViews(i, m) ==> IsIncident(v, known)
    ensures forall v :: v in ProposalViews(i, m) ==> IsProposal(v, known)
  {
    forall c | c in i.caseModels ensures IsCase(CaseView(i, c, m), known) { CasePasses(i, c, m, known); }
    forall f | f in i.findingModels ensures IsFinding(FindingView(i, f, m), known) { FindingPasses(i, f, m, known); }
    forall k | 0 <= k < |i.audit| ensures IsActivity(ActivityView(i, i.audit[k], k, m), known) {
      ActivityPasses(i, i.audit[k], k, m, known);
    }
    forall x | x in i.signalModels ensures IsSignal(SignalView(x, m), known) { SignalPasses(x, m, known); }
    forall x | x in i.huntModels ensures IsHunt(HuntView(x, m), known) { HuntPasses(x, m, known); }
    forall x | x in i.incidentModels ensures IsIncident(IncidentView(x, m), known) { IncidentPasses(x, m, known); }
    forall x | x in i.proposalModels ensures IsProposal(ProposalView(x, m), known) { ProposalPasses(x, m, known); }
  }

  lemma SnapshotLists(i: Inputs, m: Mapping)
    ensures
      var v := Snapshot(i, m);
      && Get(v, attention) == Some(List(AttentionItems(i, m)))
      && Get(v, cases) == Some(List(CaseViews(i, m)))
      && Get(v, findings) == Some(List(FindingViews(i, m)))
      && Get(v, activity) == Some(List(ActivityItems(i, m)))
  {
  }

  lemma SnapshotEmptyLists(i: Inputs, m: Mapping)
    ensures
      var v := Snapshot(i, m);
      Get(v, graphNodes) == Get(v, graphEdges) == Get(v, runners) == Some(List([]))
  {
  }

  lemma SnapshotDetectionLists(i: Inputs, m: Mapping)
    ensures
      var v := Snapshot(i, m);
      && Get(v, detectionSignals) == Some(List(SignalViews(i, m)))
      && Get(v, hunts) == Some(List(HuntViews(i, m)))
      && Get(v, incidents) == Some(List(IncidentViews(i, m)))
      && Get(v, responseProposals) == Some(List(ProposalViews(i, m)))
  {
  }

  lemma ArrayPasses(v: Value, n: Name, items: seq<Value>, check: Value -> bool)
    requires Get(v, n) == Some(List(items)) && forall x :: x in items ==> check(x)
    ensures Array(v, n, check)
  {
  }

  lemma ArraysPass(i: Inputs, m: Mapping, known: set<string>)
    requires Coherent(m.words) && m.words.statuses <= known
    ensures HasArrays(Snapshot(i, m), known)
  {
    var v := Snapshot(i, m);
    SnapshotLists(i, m);
    SnapshotEmptyLists(i, m);
    SnapshotDetectionLists(i, m);
    AttentionPasses(i, m, known);
    ViewsPass(i, m, known);
    ArrayPasses(v, attention, AttentionItems(i, m), x => IsAttention(x, known));
    ArrayPasses(v, cases, CaseViews(i, m), x => IsCase(x, known));
    ArrayPasses(v, findings, FindingViews(i, m), x => IsFinding(x, known));
    ArrayPasses(v, activity, ActivityItems(i, m), x => IsActivity(x, known));
    ArrayPasses(v, detectionSignals, SignalViews(i, m), x => IsSignal(x, known));
    ArrayPasses(v, hunts, HuntViews(i, m), x => IsHunt(x, known));
    ArrayPasses(v, incidents, IncidentViews(i, m), x => IsIncident(x, known));
    ArrayPasses(v, responseProposals, ProposalViews(i, m), x => IsProposal(x, known));
  }

  lemma SnapshotHeader(i: Inputs, m: Mapping)
    ensures
      var v := Snapshot(i, m);
      && Get(v, mode) == Some(Text(i.modeText))
      && Get(v, connectionState) == Some(Text("CONNECTED"))
      && HasText(v, sourceLabel) && HasText(v, tenantId)
  {
  }

  lemma HeaderPasses(i: Inputs, m: Mapping)
    ensures HasHeader(Snapshot(i, m)) <==> i.modeText in DATA_MODES
  {
    SnapshotHeader(i, m);
    assert "CONNECTED" in CONNECTION_STATES;
  }

  /** Whatever the read models say, the client accepts the snapshot exactly when its mode is one it knows. */
  lemma SnapshotIsAccepted(i: Inputs, m: Mapping)
    requires m.words == WORDS
    ensures IsExperienceSnapshot(Snapshot(i, m)) <==> i.modeText in DATA_MODES
  {
    WordsAreCoherent();
    ArraysPass(i, m, STATUSES);
    HeaderPasses(i, m);
  }

  /** In every case and finding view the state is the status of its provenance. */
  lemma StateIsProvenanceStatus(i: Inputs, c: EngagementModel, f: FindingModel, m: Mapping)
    requires KeepsStatuses(m) && Coherent(m.words)
    ensures Get(Get(CaseView(i, c, m), provenance).value, status) == Get(CaseView(i, c, m), state)
    ensures Get(Get(FindingView(i, f, m), provenance).value, status) == Get(FindingView(i, f, m), state)
  {
    StatusIdempotent(c.caseStatus, m);
    StatusIdempotent(Or(f.adjudicationText, Or(f.statusText, "UNKNOWN")), m);
  }

  // ---------- what is in attention ----------

  /** The kind and entity of an attention entry. */
  function Subject(v: Value): (Value, Value) {
    (if Get(v, kind).Some? then Get(v, kind).value else Null, if Get(v, entityId).Some? then Get(v, entityId).value
     else Null)
  }

  function Subjects(vs: seq<Value>): seq<(Value, Value)> {
    seq(|vs|, n requires 0 <= n < |vs| => Subject(vs[n]))
  }

  /** The ids of the qualifying elements of a list, in order, each with a kind. */
  function Qualifying<T>(xs: seq<T>, qualifies: T -> bool, entryKind: string, key: T -> string): seq<(Value, Value)> {
    if |xs| == 0 then []
    else
      var init, last := Qualifying(xs[..|xs| - 1], qualifies, entryKind, key), xs[|xs| - 1];
      if qualifies(last) then init + [(Text(entryKind), Text(key(last)))] else init
  }

  lemma {:induction false} CollectedSubjects<T>(xs: seq<T>, f: T -> Option<Value>, qualifies: T -> bool,
                                                entryKind: string, key: T -> string)
    requires forall x :: x in xs ==> (f(x).Some? <==> qualifies(x))
    requires forall x :: x in xs && f(x).Some? ==> Subject(f(x).value) == (Text(entryKind), Text(key(x)))
    ensures Subjects(Collected(xs, f)) == Qualifying(xs, qualifies, entryKind, key)
  {
    if |xs| > 0 {
      CollectedSubjects(xs[..|xs| - 1], f, qualifies, entryKind, key);
      assert xs[|xs| - 1] in xs;
    }
  }

  /**
   Attention holds, in this order, exactly one entry for every finding that is
   neither resolved nor dismissed, every new or changed signal, every
   confirmed incident, and every proposal that awaits approval.
   */
  lemma AttentionIsExact(i: Inputs, m: Mapping)
    requires Coherent(m.words)
    ensures Subjects(AttentionItems(i, m)) ==
            Qualifying(i.findingModels, (f: FindingModel) => FindingState(f, m) !in {"RESOLVED", "DISMISSED"},
                       "finding", (f: FindingModel) => f.findingKey) +
            Qualifying(i.signalModels, (x: SignalModel) => m.Status(x.statusText) in {"NEW", "CHANGED"}, "detection",
                       (x: SignalModel) => x.signalKey) +
            Qualifying(i.incidentModels, (x: IncidentModel) => m.Status(x.statusText) == "CONFIRMED", "incident",
                       (x: IncidentModel) => x.incidentKey) +
            Qualifying(i.proposalModels, (x: ProposalModel) => m.Status(x.approval) == "APPROVAL_REQUIRED", "response",
                       (x: ProposalModel) => x.proposalKey)
  {
    FindingSubjects(i, m);
    SignalSubjects(i, m);
    IncidentSubjects(i, m);
    ProposalSubjects(i, m);
    SubjectsOfFour(Collected(i.findingModels, (f: FindingModel) => FindingEntry(i, f, m)),
                   Collected(i.signalModels, (x: SignalModel) => SignalEntry(x, m)),
                   Collected(i.incidentModels, (x: IncidentModel) => IncidentEntry(x, m)),
                   Collected(i.proposalModels, (x: ProposalModel) => ProposalEntry(x, m)));
  }

  lemma SubjectsOfFour(a: seq<Value>, b: seq<Value>, c: seq<Value>, d: seq<Value>)
    ensures Subjects(a + b + c + d) == Subjects(a) + Subjects(b) + Subjects(c) + Subjects(d)
  {
  }

  lemma FindingSubjects(i: Inputs, m: Mapping)
    requires Coherent(m.words)
    ensures Subjects(Collected(i.findingModels, (f: FindingModel) => FindingEntry(i, f, m))) ==
            Qualifying(i.findingModels, (f: FindingModel) => FindingState(f, m) !in {"RESOLVED", "DISMISSED"},
                       "finding", (f: FindingModel) => f.findingKey)
  {
    forall f { FindingEntryPasses(i, f, m, m.words.statuses); }
    CollectedSubjects(i.findingModels, (f: FindingModel) => FindingEntry(i, f, m),
                      (f: FindingModel) => FindingState(f, m) !in {"RESOLVED", "DISMISSED"}, "finding",
                      (f: FindingModel) => f.findingKey);
  }

  lemma SignalSubjects(i: Inputs, m: Mapping)
    requires Coherent(m.words)
    ensures Subjects(Collected(i.signalModels, (x: SignalModel) => SignalEntry(x, m))) ==
            Qualifying(i.signalModels, (x: SignalModel) => m.Status(x.statusText) in {"NEW", "CHANGED"}, "detection",
                       (x: SignalModel) => x.signalKey)
  {
    forall x { SignalEntryPasses(x, m, m.words.statuses); }
    CollectedSubjects(i.signalModels, (x: SignalModel) => SignalEntry(x, m),
                      (x: SignalModel) => m.Status(x.statusText) in {"NEW", "CHANGED"}, "detection",
                      (x: SignalModel) => x.signalKey);
  }

  lemma IncidentSubjects(i: Inputs, m: Mapping)
    requires Coherent(m.words)
    ensures Subjects(Collected(i.incidentModels, (x: IncidentModel) => IncidentEntry(x, m))) ==
            Qualifying(i.incidentModels, (x: IncidentModel) => m.Status(x.statusText) == "CONFIRMED", "incident",
                       (x: IncidentModel) => x.incidentKey)
  {
    forall x { IncidentEntryPasses(x, m, m.words.statuses); }
    CollectedSubjects(i.incidentModels, (x: IncidentModel) => IncidentEntry(x, m),
                      (x: IncidentModel) => m.Status(x.statusText) == "CONFIRMED", "incident",
                      (x: IncidentModel) => x.incidentKey);
  }

  lemma ProposalSubjects(i: Inputs, m: Mapping)
    requires Coherent(m.words)
    ensures Subjects(Collected(i.proposalModels, (x: ProposalModel) => ProposalEntry(x, m))) ==
            Qualifying(i.proposalModels, (x: ProposalModel) => m.Status(x.approval) == "APPROVAL_REQUIRED", "response",
                       (x: ProposalModel) => x.proposalKey)
  {
    forall x { ProposalEntryPasses(x, m, m.words.statuses); }
    CollectedSubjects(i.proposalModels, (x: ProposalModel) => ProposalEntry(x, m),
                      (x: ProposalModel) => m.Status(x.approval) == "APPROVAL_REQUIRED", "response",
                      (x: ProposalModel) => x.proposalKey);
  }

  /** The producer, with its four attention loops. */
  method ComposeExperienceSnapshot(i: Inputs, m: Mapping) returns (v: Value)
    requires m.words == WORDS
    ensures v == Snapshot(i, m)
    ensures IsExperienceSnapshot(v) <==> i.modeText in DATA_MODES
  {
    var fromFindings := Collect(i.findingModels, (f: FindingModel) => FindingEntry(i, f, m));
    var fromSignals := Collect(i.signalModels, (x: SignalModel) => SignalEntry(x, m));
    var fromIncidents := Collect(i.incidentModels, (x: IncidentModel) => IncidentEntry(x, m));
    var fromProposals := Collect(i.proposalModels, (x: ProposalModel) => ProposalEntry(x, m));
    v := SnapshotWith(i, m, fromFindings + fromSignals + fromIncidents + fromProposals);
    SnapshotIsAccepted(i, m);
  }
}
