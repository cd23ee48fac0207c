/**
 What the operator snapshot says, field by field, and that the client insists
 on every property it lists.
 */
module SnapshotLaws {
  import opened Wrappers
  import opened Sequences
  import opened ExperienceValidator
  import opened ExperienceSnapshot

  // ---------- statuses and tenants ----------

  /** Where each alias leads; a status stays, and every other word is unknown. */
  lemma AliasesLead()
    ensures WORDS.aliases.Keys ==
            {"SUPPORTS", "REFUTES", "REQUIRE_APPROVAL", "ALLOW", "CONTAINED", "RECOVERING", "OPEN",
                                   "CLOSED", "REFUSED", "REVOKED"}
    ensures WORDS.aliases["SUPPORTS"] == WORDS.aliases["ALLOW"] == "VERIFIED"
    ensures WORDS.aliases["REFUTES"] == "CONTRADICTED"
    ensures WORDS.aliases["REQUIRE_APPROVAL"] == "APPROVAL_REQUIRED"
    ensures WORDS.aliases["CONTAINED"] == WORDS.aliases["RECOVERING"] == "CONFIRMED"
    ensures WORDS.aliases["OPEN"] == "NEW" && WORDS.aliases["CLOSED"] == "RESOLVED"
    ensures WORDS.aliases["REFUSED"] == WORDS.aliases["REVOKED"] == "DENIED"
  {
  }

  lemma StatusMeans(value: string, m: Mapping)
    ensures m.upper(value) in m.words.aliases ==> m.Status(value) == m.words.aliases[m.upper(value)]
    ensures m.upper(value) !in m.words.aliases && m.upper(value) in m.words.statuses ==>
            m.Status(value) == m.upper(value)
    ensures m.upper(value) !in m.words.aliases && m.upper(value) !in m.words.statuses ==> m.Status(value) == "UNKNOWN"
  {
  }

  /** The first element that is not empty. */
  lemma {:induction false} FirstNonEmptyIs(xs: seq<string>)
    ensures FirstNonEmpty(xs) == None <==> forall x :: x in xs ==> x == ""
    ensures FirstNonEmpty(xs).Some? ==>
              exists k :: 0 <= k < |xs| && xs[k] != "" && FirstNonEmpty(xs) == Some(xs[k])
                          && forall j :: 0 <= j < k ==> xs[j] == ""
  {
    if |xs| > 0 {
      assert xs == [xs[0]] + xs[1..];
      FirstNonEmptyIs(xs[1..]);
      if xs[0] == "" && FirstNonEmpty(xs[1..]).Some? {
        var k :| 0 <= k < |xs[1..]| && xs[1..][k] != "" && FirstNonEmpty(xs[1..]) == Some(xs[1..][k])
                 && forall j :: 0 <= j < k ==> xs[1..][j] == "";
        assert xs[k + 1] == xs[1..][k] && xs[k + 1] in xs;
        assert forall j :: 0 < j < k + 1 ==> xs[j] == xs[1..][j - 1];
      } else {
        assert xs[0] in xs && forall x :: x in xs ==> x == xs[0] || x in xs[1..];
      }
    }
  }

  /** The tenants named by the signals, the hunts, the incidents and the proposals, in this order. */
  lemma TenantsAre(i: Inputs)
    ensures
      var ts := Tenants(i);
      var a, b, c, d := |i.signalModels|, |i.huntModels|, |i.incidentModels|, |i.proposalModels|;
      && |ts| == a + b + c + d
      && (forall k :: 0 <= k < a ==> ts[k] == i.signalModels[k].tenant)
      && (forall k :: 0 <= k < b ==> ts[a + k] == i.huntModels[k].tenant)
      && (forall k :: 0 <= k < c ==> ts[a + b + k] == i.incidentModels[k].tenant)
      && (forall k :: 0 <= k < d ==> ts[a + b + c + k] == i.proposalModels[k].tenant)
  {
  }

  /** The tenant of the snapshot: the one asked for, else the first one named, else a placeholder. */
  lemma TenantChosen(i: Inputs)
    ensures
      var asked := match i.tenantOverride case Some(t) => t case None => "";
      && (asked != "" ==> SelectedTenant(i) == asked)
      && (asked == "" ==> match FirstNonEmpty(Tenants(i))
                          case Some(t) => SelectedTenant(i) == t
                          case None => SelectedTenant(i) == "operator-scope")
  {
  }

  // ---------- parts of views ----------

  ghost predicate ScopeSays(v: Value, tenant: string, caseKey: string) {
    && Get(v, scope).Some?
    && Get(Get(v, scope).value, tenantId) == Some(Text(tenant))
       && Get(Get(v, scope).value, caseId) == Some(Text(caseKey))
  }

  ghost predicate TextsAre(v: Value, n: Name, xs: seq<string>) {
    && Get(v, n).Some? && Get(v, n).value.List? && |Get(v, n).value.items| == |xs|
    && forall k :: 0 <= k < |xs| ==> Get(v, n).value.items[k] == Text(xs[k])
  }

  ghost predicate TextIs(v: Value, n: Name, x: string) {
    Get(v, n) == Some(Text(x))
  }

  ghost predicate ProvenanceSays(v: Value, from: string, fromType: string, at: string, refs: seq<string>,
                                 stateText: string) {
    Get(v, provenance).Some? &&
    var p := Get(v, provenance).value;
    TextIs(p, source, from) && TextIs(p, sourceType, fromType) && TextIs(p, observedAt, at)
      && TextsAre(p, evidenceRefs, refs)
    && TextIs(p, status, stateText)
  }

  lemma ProvenanceReads(v: Value, from: string, fromType: string, at: string, refs: seq<string>, stateText: string)
    requires Get(v, provenance) == Some(ProvenanceRecord(from, fromType, at, refs, stateText))
    ensures ProvenanceSays(v, from, fromType, at, refs, stateText)
  {
  }

  // ---------- views ----------

  /** A case view. */
  ghost predicate CaseSays(i: Inputs, c: EngagementModel, m: Mapping, v: Value) {
    && TextIs(v, id, c.engagementId) && TextIs(v, caseId, c.engagementId)
    && TextIs(v, clientLabel, if c.clientId in i.clients then i.clients[c.clientId] else c.clientId)
    && TextIs(v, targetLabel, TargetLabel(i, c))
    && TextIs(v, state, m.Status(c.caseStatus))
    && TextIs(v, summary, c.caseStatus + " case · " + c.caseScope) && TextIs(v, updatedAt, c.changedAt)
    && TextsAre(v, findingIds, FindingIdsOf(i.findingModels, c.engagementId))
    && Get(v, evidenceCount) ==
       Some(Number(if c.engagementId in i.evidenceCounts then i.evidenceCounts[c.engagementId] else 0))
    && Get(v, activityCount) ==
       Some(Number(if c.engagementId in i.activityCounts then i.activityCounts[c.engagementId] else 0))
    && ScopeSays(v, SelectedTenant(i), c.engagementId)
    && ProvenanceSays(v, "canonical case read model", "canonical-read-model", c.changedAt, [],
                      m.Status(m.Status(c.caseStatus)))
  }

  lemma CaseRecordReads(key: string, client: string, target: string, stateText: string, text: string, at: string,
                        findingKeys: seq<string>, evidence: int, activities: int, scopeValue: Value,
                        provenanceValue: Value)
    ensures
      var v := CaseRecord(key, client, target, stateText, text, at, findingKeys, evidence, activities, scopeValue,
                          provenanceValue);
      && TextIs(v, id, key) && TextIs(v, caseId, key) && TextIs(v, clientLabel, client)
         && TextIs(v, targetLabel, target)
      && TextIs(v, state, stateText) && TextIs(v, summary, text) && TextIs(v, updatedAt, at)
      && Get(v, findingIds) == Some(Texts(findingKeys)) && Get(v, evidenceCount) == Some(Number(evidence))
      && Get(v, activityCount) == Some(Number(activities)) && Get(v, scope) == Some(scopeValue)
      && Get(v, provenance) == Some(provenanceValue)
  {
  }

  lemma ScopeReads(v: Value, tenant: string, caseKey: string)
    requires Get(v, scope) == Some(ScopeValue(tenant, caseKey))
    ensures ScopeSays(v, tenant, caseKey)
  {
  }

  lemma TextsRead(v: Value, n: Name, xs: seq<string>)
    requires Get(v, n) == Some(Texts(xs))
    ensures TextsAre(v, n, xs)
  {
  }

  lemma CaseReads(i: Inputs, c: EngagementModel, m: Mapping)
    ensures CaseSays(i, c, m, CaseView(i, c, m))
  {
    var v, stateText := CaseView(i, c, m), m.Status(c.caseStatus);
    CaseRecordReads(c.engagementId, Lookup(i.clients, c.clientId, c.clientId), TargetLabel(i, c), stateText,
                    c.caseStatus + " case · " + c.caseScope, c.changedAt,
                    FindingIdsOf(i.findingModels, c.engagementId), Lookup(i.evidenceCounts, c.engagementId, 0),
                    Lookup(i.activityCounts, c.engagementId, 0), ScopeValue(SelectedTenant(i), c.engagementId),
                    ProvenanceValue("canonical case read model", c.changedAt, [], stateText, m));
    ProvenanceReads(v, "canonical case read model", "canonical-read-model", c.changedAt, [], m.Status(stateText));
    ScopeReads(v, SelectedTenant(i), c.engagementId);
    TextsRead(v, findingIds, FindingIdsOf(i.findingModels, c.engagementId));
  }

  /** The label of the targets: the first one with a name, else their ids, else a placeholder. */
  lemma TargetLabelIs(i: Inputs, c: EngagementModel)
    ensures
      var names := seq(|c.targetIds|, k requires 0 <= k < |c.targetIds| =>
                         if c.targetIds[k] in i.targets then i.targets[c.targetIds[k]] else "");
      match FirstNonEmpty(names)
      case Some(name) => TargetLabel(i, c) == name
      case None =>
        TargetLabel(i, c) == if Join(", ", c.targetIds) != "" then Join(", ", c.targetIds) else "target not validated"
  {
    var names := seq(|c.targetIds|, k requires 0 <= k < |c.targetIds| =>
                       if c.targetIds[k] in i.targets then i.targets[c.targetIds[k]] else "");
    assert names == seq(|c.targetIds|, k requires 0 <= k < |c.targetIds| => Lookup(i.targets, c.targetIds[k], ""));
  }

  /** The findings of a case are the ones that name its engagement. */
  lemma FindingIdsAre(fs: seq<FindingModel>, engagementId: string)
    ensures forall key :: key in FindingIdsOf(fs, engagementId) <==>
                          exists f :: f in fs && f.engagementId == Some(engagementId) && f.findingKey == key
  {
    var keep := (f: FindingModel) => f.engagementId == Some(engagementId);
    SelectMembers(fs, keep);
    var own := Select(fs, keep);
    forall key ensures key in FindingIdsOf(fs, engagementId) <==>
                       exists f :: f in fs && f.engagementId == Some(engagementId) && f.findingKey == key
    {
      if f :| f in fs && f.engagementId == Some(engagementId) && f.findingKey == key {
        var k :| 0 <= k < |own| && own[k] == f;
        assert FindingIdsOf(fs, engagementId)[k] == key;
      }
      if key in FindingIdsOf(fs, engagementId) {
        var k :| 0 <= k < |own| && own[k].findingKey == key;
        assert own[k] in fs;
      }
    }
  }

  /** The text of an optional field, if it has one that is not empty. */
  ghost function Given(o: Option<string>): seq<string> {
    match o case Some(x) => if x == "" then [] else [x] case None => []
  }

  ghost function FirstGiven(a: Option<string>, b: Option<string>, default: string): string {
    if Given(a) != [] then Given(a)[0] else if Given(b) != [] then Given(b)[0] else default
  }

  /** A finding view. */
  ghost predicate FindingSays(i: Inputs, f: FindingModel, m: Mapping, v: Value) {
    var caseKey := FirstGiven(f.engagementId, None, "unknown");
    var stateText := m.Status(FirstGiven(f.adjudicationText, f.statusText, "UNKNOWN"));
    && TextIs(v, id, f.findingKey) && TextIs(v, findingId, f.findingKey) && TextIs(v, caseId, caseKey)
    && TextIs(v, title, FirstGiven(f.titleText, f.summaryText, "Canonical finding"))
    && TextIs(v, severity, FirstGiven(f.severityText, None, "UNKNOWN"))
    && TextIs(v, state, stateText) && TextIs(v, adjudication, stateText)
    && TextsAre(v, evidenceRefs, f.supportingIds)
    && ScopeSays(v, SelectedTenant(i), caseKey)
    && ProvenanceSays(v, "canonical finding read model", "canonical-read-model", "not_validated", f.supportingIds,
                      m.Status(stateText))
  }

  lemma FindingRecordReads(key: string, caseKey: string, heading: string, severityText: string, stateText: string,
                           refs: seq<string>, scopeValue: Value, provenanceValue: Value)
    ensures
      var v := FindingRecord(key, caseKey, heading, severityText, stateText, refs, scopeValue, provenanceValue);
      && TextIs(v, id, key) && TextIs(v, findingId, key) && TextIs(v, caseId, caseKey) && TextIs(v, title, heading)
      && TextIs(v, severity, severityText) && TextIs(v, state, stateText) && TextIs(v, adjudication, stateText)
      && Get(v, evidenceRefs) == Some(Texts(refs)) && Get(v, scope) == Some(scopeValue)
      && Get(v, provenance) == Some(provenanceValue)
  {
  }

  lemma OrIsFirstGiven(a: Option<string>, b: Option<string>, default: string)
    ensures Or(a, Or(b, default)) == FirstGiven(a, b, default) && Or(a, default) == FirstGiven(a, None, default)
  {
  }

  lemma FindingViewReads(i: Inputs, f: FindingModel, m: Mapping)
    ensures
      var v := FindingView(i, f, m);
      && TextIs(v, id, f.findingKey) && TextIs(v, findingId, f.findingKey)
      && TextIs(v, caseId, Or(f.engagementId, "unknown"))
      && TextIs(v, title, Or(f.titleText, Or(f.summaryText, "Canonical finding")))
      && TextIs(v, severity, Or(f.severityText, "UNKNOWN"))
      && TextIs(v, state, FindingState(f, m)) && TextIs(v, adjudication, FindingState(f, m))
      && Get(v, evidenceRefs) == Some(Texts(f.supportingIds))
      && Get(v, scope) == Some(ScopeValue(SelectedTenant(i), Or(f.engagementId, "unknown")))
      && Get(v, provenance) == Some(ProvenanceRecord("canonical finding read model", "canonical-read-model",
                                                     "not_validated", f.supportingIds, m.Status(FindingState(f, m))))
  {
    FindingRecordReads(f.findingKey, Or(f.engagementId, "unknown"),
                       Or(f.titleText, Or(f.summaryText, "Canonical finding")), Or(f.severityText, "UNKNOWN"),
                       FindingState(f, m), f.supportingIds,
                       ScopeValue(SelectedTenant(i), Or(f.engagementId, "unknown")),
                       ProvenanceValue("canonical finding read model", "not_validated", f.supportingIds,
                                       FindingState(f, m), m));
  }

  lemma FindingReads(i: Inputs, f: FindingModel, m: Mapping)
    ensures FindingSays(i, f, m, FindingView(i, f, m))
  {
    var v := FindingView(i, f, m);
    FindingViewReads(i, f, m);
    OrIsFirstGiven(f.engagementId, None, "unknown");
    OrIsFirstGiven(f.titleText, f.summaryText, "Canonical finding");
    OrIsFirstGiven(f.severityText, None, "UNKNOWN");
    OrIsFirstGiven(f.adjudicationText, f.statusText, "UNKNOWN");
    ProvenanceReads(v, "canonical finding read model", "canonical-read-model", "not_validated", f.supportingIds,
                    m.Status(FindingState(f, m)));
    ScopeReads(v, SelectedTenant(i), Or(f.engagementId, "unknown"));
    TextsRead(v, evidenceRefs, f.supportingIds);
  }

  /** An activity view; its sequence is its position, counted from one. */
  ghost predicate ActivitySays(i: Inputs, a: AuditModel, position: nat, m: Mapping, v: Value) {
    && TextIs(v, id, a.auditId)
    && Get(v, caseId) == Some(match a.engagementId case Some(key) => Text(key) case None => Null)
    && TextIs(v, occurredAt, a.at) && Get(v, sequence) == Some(Number(position + 1)) && TextIs(v, kind, a.auditKind)
    && TextIs(v, title, a.summaryText) && TextIs(v, detail, a.summaryText) && TextIs(v, state, m.Status(a.auditKind))
    && TextsAre(v, evidenceRefs, []) && TextIs(v, source, "canonical audit read model")
    && ScopeSays(v, SelectedTenant(i), FirstGiven(a.engagementId, None, "unknown"))
  }

  lemma ActivityRecordReads(key: string, caseValue: Value, at: string, number: int, kindText: string, text: string,
                            stateText: string, scopeValue: Value, from: string)
    ensures
      var v := ActivityRecord(key, caseValue, at, number, kindText, text, stateText, scopeValue, from);
      && TextIs(v, id, key) && Get(v, caseId) == Some(caseValue) && TextIs(v, occurredAt, at)
      && Get(v, sequence) == Some(Number(number)) && TextIs(v, kind, kindText) && TextIs(v, title, text)
      && TextIs(v, detail, text) && TextIs(v, state, stateText) && Get(v, evidenceRefs) == Some(Texts([]))
      && Get(v, scope) == Some(scopeValue) && TextIs(v, source, from)
  {
    assert Texts([]) == List([]);
  }

  lemma ActivityReads(i: Inputs, a: AuditModel, position: nat, m: Mapping)
    ensures ActivitySays(i, a, position, m, ActivityView(i, a, position, m))
  {
    var v := ActivityView(i, a, position, m);
    ActivityRecordReads(a.auditId, if a.engagementId.Some? then Text(a.engagementId.value) else Null, a.at, position
                        + 1, a.auditKind, a.summaryText, m.Status(a.auditKind),
                        ScopeValue(SelectedTenant(i), Or(a.engagementId, "unknown")), "canonical audit read model");
    OrIsFirstGiven(a.engagementId, None, "unknown");
    ScopeReads(v, SelectedTenant(i), Or(a.engagementId, "unknown"));
    TextsRead(v, evidenceRefs, []);
  }

  ghost predicate SignalSays(x: SignalModel, m: Mapping, v: Value) {
    && TextIs(v, id, x.signalKey) && TextIs(v, signalId, x.signalKey) && TextIs(v, caseId, x.caseKey)
    && TextIs(v, ruleId, x.rule) && Get(v, ruleVersion) == Some(Number(x.version))
    && TextIs(v, severity, x.severityText) && TextIs(v, confidence, x.confidenceText)
    && TextIs(v, state, m.Status(x.statusText)) && TextsAre(v, eventIds, x.events) && TextsAre(v, evidenceRefs, x.refs)
    && ScopeSays(v, x.tenant, x.caseKey) && TextIs(v, source, x.origin)
  }

  lemma SignalReads(x: SignalModel, m: Mapping)
    ensures SignalSays(x, m, SignalView(x, m))
  {
  }

  ghost predicate HuntSays(x: HuntModel, m: Mapping, v: Value) {
    && TextIs(v, id, x.huntKey) && TextIs(v, huntId, x.huntKey) && TextIs(v, hypothesisId, x.hypothesis)
    && TextIs(v, caseId, x.caseKey) && TextIs(v, disposition, m.Status(x.dispositionText))
    && TextIs(v, state, m.Status(x.statusText)) && TextsAre(v, evidenceRefs, x.refs)
    && ScopeSays(v, x.tenant, x.caseKey) && TextIs(v, source, x.origin)
  }

  lemma HuntReads(x: HuntModel, m: Mapping)
    ensures HuntSays(x, m, HuntView(x, m))
  {
  }

  ghost predicate IncidentSays(x: IncidentModel, m: Mapping, v: Value) {
    && TextIs(v, id, x.incidentKey) && TextIs(v, incidentId, x.incidentKey) && TextIs(v, caseId, x.caseKey)
    && TextIs(v, state, m.Status(x.statusText)) && TextIs(v, severity, x.severityText)
    && TextIs(v, confidence, x.confidenceText) && TextsAre(v, signalIds, x.signals) && TextsAre(v, evidenceRefs, x.refs)
    && ScopeSays(v, x.tenant, x.caseKey)
    && ProvenanceSays(v, x.origin, x.originType, x.adjudicatedAt, x.refs, m.Status(x.statusText))
  }

  lemma IncidentReads(x: IncidentModel, m: Mapping)
    ensures IncidentSays(x, m, IncidentView(x, m))
  {
    ProvenanceReads(IncidentView(x, m), x.origin, x.originType, x.adjudicatedAt, x.refs, m.Status(x.statusText));
  }

  ghost predicate ProposalSays(x: ProposalModel, m: Mapping, v: Value) {
    && TextIs(v, id, x.proposalKey) && TextIs(v, proposalId, x.proposalKey) && TextIs(v, incidentId, x.incident)
    && TextIs(v, caseId, x.caseKey) && TextIs(v, targetId, x.target) && TextIs(v, action, x.actionText)
    && TextIs(v, opaDecision, m.Status(x.opa)) && TextIs(v, humanApprovalState, m.Status(x.approval))
    && TextIs(v, state, m.Status(x.statusText)) && TextsAre(v, evidenceRefs, x.refs)
    && ScopeSays(v, x.tenant, x.caseKey) && TextIs(v, source, x.origin)
  }

  lemma ProposalReads(x: ProposalModel, m: Mapping)
    ensures ProposalSays(x, m, ProposalView(x, m))
  {
  }

  // ---------- the snapshot ----------

  /** The list under a name has one view per model, in order, and each says what its model says. */
  ghost predicate Lists<T>(v: Value, n: Name, models: seq<T>, says: (T, nat, Value) -> bool) {
    && Get(v, n).Some? && Get(v, n).value.List? && |Get(v, n).value.items| == |models|
    && forall k :: 0 <= k < |models| ==> says(models[k], k, Get(v, n).value.items[k])
  }

  /** Every list of the snapshot quotes its models. */
  lemma SnapshotQuotes(i: Inputs, m: Mapping)
    ensures
      var v := Snapshot(i, m);
      && Lists(v, cases, i.caseModels, (c, k, x) => CaseSays(i, c, m, x))
      && Lists(v, findings, i.findingModels, (f, k, x) => FindingSays(i, f, m, x))
      && Lists(v, activity, i.audit, (a, k, x) => ActivitySays(i, a, k, m, x))
  {
    SnapshotLists(i, m);
    forall c ensures CaseSays(i, c, m, CaseView(i, c, m)) { CaseReads(i, c, m); }
    forall f ensures FindingSays(i, f, m, FindingView(i, f, m)) { FindingReads(i, f, m); }
    forall a, k: nat ensures ActivitySays(i, a, k, m, ActivityView(i, a, k, m)) { ActivityReads(i, a, k, m); }
  }

  lemma SnapshotQuotesDetection(i: Inputs, m: Mapping)
    ensures
      var v := Snapshot(i, m);
      && Lists(v, detectionSignals, i.signalModels, (s, k, x) => SignalSays(s, m, x))
      && Lists(v, hunts, i.huntModels, (h, k, x) => HuntSays(h, m, x))
      && Lists(v, incidents, i.incidentModels, (c, k, x) => IncidentSays(c, m, x))
      && Lists(v, responseProposals, i.proposalModels, (p, k, x) => ProposalSays(p, m, x))
  {
    SnapshotDetectionLists(i, m);
    forall s ensures SignalSays(s, m, SignalView(s, m)) { SignalReads(s, m); }
    forall h ensures HuntSays(h, m, HuntView(h, m)) { HuntReads(h, m); }
    forall c ensures IncidentSays(c, m, IncidentView(c, m)) { IncidentReads(c, m); }
    forall p ensures ProposalSays(p, m, ProposalView(p, m)) { ProposalReads(p, m); }
  }

  /** The rest of the snapshot. */
  lemma SnapshotHeaderSays(i: Inputs, m: Mapping)
    ensures
      var v := Snapshot(i, m);
      && TextIs(v, mode, i.modeText) && TextIs(v, connectionState, "CONNECTED") && TextIs(v, sourceLabel, i.sourceName)
      && TextIs(v, tenantId, SelectedTenant(i))
      && TextsAre(v, graphNodes, []) && TextsAre(v, graphEdges, []) && TextsAre(v, runners, [])
  {
    SnapshotEmptyLists(i, m);
  }

  // ---------- attention agrees with the views ----------

  /** An entry of attention repeats its view's case, state, references and scope, and names it. */
  ghost predicate EntryOf(e: Value, v: Value, prefix: string, entryKind: string, key: string) {
    && TextIs(e, id, prefix + key) && TextIs(e, kind, entryKind) && TextIs(e, entityId, key)
    && Get(e, caseId) == Get(v, caseId) && Get(e, status) == Get(v, state)
    && Get(e, evidenceRefs) == Get(v, evidenceRefs) && Get(e, scope) == Get(v, scope)
  }

  lemma EntryReads(entryId: string, entryKind: string, heading: string, text: string, caseKey: string, entity: string,
                   stateText: string, at: string, next: string, refs: seq<string>, scopeValue: Value, from: string)
    ensures
      var e := Entry(entryId, entryKind, heading, text, caseKey, entity, stateText, at, next, refs, scopeValue, from);
      && TextIs(e, id, entryId) && TextIs(e, kind, entryKind) && TextIs(e, title, heading) && TextIs(e, detail, text)
      && TextIs(e, caseId, caseKey) && TextIs(e, entityId, entity) && TextIs(e, status, stateText)
      && TextIs(e, observedAt, at) && TextIs(e, nextAction, next) && Get(e, evidenceRefs) == Some(Texts(refs))
      && Get(e, scope) == Some(scopeValue) && TextIs(e, source, from)
  {
  }

  lemma FindingEntryIff(i: Inputs, f: FindingModel, m: Mapping)
    ensures FindingEntry(i, f, m).Some? <==>
            m.Status(FirstGiven(f.adjudicationText, f.statusText, "UNKNOWN")) !in {"RESOLVED", "DISMISSED"}
  {
    OrIsFirstGiven(f.adjudicationText, f.statusText, "UNKNOWN");
  }

  lemma FindingEntryAgrees(i: Inputs, f: FindingModel, m: Mapping)
    requires FindingEntry(i, f, m).Some?
    ensures
      var e, v := FindingEntry(i, f, m).value, FindingView(i, f, m);
      && EntryOf(e, v, "finding-", "finding", f.findingKey)
      && TextIs(e, title, "Finding needs review") && Get(e, detail) == Get(v, title)
      && TextIs(e, observedAt, "not_validated") && TextIs(e, source, "canonical finding projection")
      && TextIs(e, nextAction, "Inspect the adjudicated conclusion.")
  {
    FindingViewReads(i, f, m);
    EntryReads("finding-" + f.findingKey, "finding", "Finding needs review",
               Or(f.titleText, Or(f.summaryText, "Canonical finding")), Or(f.engagementId, "unknown"), f.findingKey,
               FindingState(f, m), "not_validated", "Inspect the adjudicated conclusion.", f.supportingIds,
               ScopeValue(SelectedTenant(i), Or(f.engagementId, "unknown")), "canonical finding projection");
  }

  lemma SignalViewReads(x: SignalModel, m: Mapping)
    ensures
      var v := SignalView(x, m);
      && TextIs(v, caseId, x.caseKey) && TextIs(v, state, m.Status(x.statusText))
      && Get(v, evidenceRefs) == Some(Texts(x.refs)) && Get(v, scope) == Some(ScopeValue(x.tenant, x.caseKey))
      && TextIs(v, source, x.origin)
  {
  }

  lemma SignalEntryAgrees(x: SignalModel, m: Mapping)
    ensures SignalEntry(x, m).Some? <==> m.Status(x.statusText) in {"NEW", "CHANGED"}
    ensures SignalEntry(x, m).Some? ==>
              var e, v := SignalEntry(x, m).value, SignalView(x, m);
              && EntryOf(e, v, "signal-", "detection", x.signalKey)
              && TextIs(e, title, "New detection signal") && TextIs(e, detail, x.rule + " · " + x.severityText)
              && TextIs(e, observedAt, "not_validated") && Get(e, source) == Get(v, source)
              && TextIs(e, nextAction, "Inspect the bounded signal evidence.")
  {
    SignalViewReads(x, m);
    EntryReads("signal-" + x.signalKey, "detection", "New detection signal", x.rule + " · " + x.severityText,
               x.caseKey,
               x.signalKey, m.Status(x.statusText), "not_validated", "Inspect the bounded signal evidence.", x.refs,
               ScopeValue(x.tenant, x.caseKey), x.origin);
  }

  lemma IncidentViewReads(x: IncidentModel, m: Mapping)
    ensures
      var v := IncidentView(x, m);
      && TextIs(v, caseId, x.caseKey) && TextIs(v, state, m.Status(x.statusText))
      && Get(v, evidenceRefs) == Some(Texts(x.refs)) && Get(v, scope) == Some(ScopeValue(x.tenant, x.caseKey))
  {
  }

  lemma IncidentEntryAgrees(x: IncidentModel, m: Mapping)
    ensures IncidentEntry(x, m).Some? <==> m.Status(x.statusText) == "CONFIRMED"
    ensures IncidentEntry(x, m).Some? ==>
              var e, v := IncidentEntry(x, m).value, IncidentView(x, m);
              && EntryOf(e, v, "incident-", "incident", x.incidentKey)
              && TextIs(e, title, "Confirmed incident") && TextIs(e, detail, x.incidentKey + " · " + x.severityText)
              && TextIs(e, observedAt, x.adjudicatedAt) && TextIs(e, source, x.origin)
              && TextIs(e, nextAction, "Inspect adjudication provenance.")
  {
    IncidentViewReads(x, m);
    EntryReads("incident-" + x.incidentKey, "incident", "Confirmed incident", x.incidentKey + " · " + x.severityText,
               x.caseKey, x.incidentKey, m.Status(x.statusText), x.adjudicatedAt, "Inspect adjudication provenance.",
               x.refs, ScopeValue(x.tenant, x.caseKey), x.origin);
  }

  lemma ProposalViewReads(x: ProposalModel, m: Mapping)
    ensures
      var v := ProposalView(x, m);
      && TextIs(v, caseId, x.caseKey) && TextIs(v, state, m.Status(x.statusText))
      && Get(v, evidenceRefs) == Some(Texts(x.refs)) && Get(v, scope) == Some(ScopeValue(x.tenant, x.caseKey))
      && TextIs(v, source, x.origin)
  {
  }

  lemma ProposalEntryAgrees(x: ProposalModel, m: Mapping)
    ensures ProposalEntry(x, m).Some? <==> m.Status(x.approval) == "APPROVAL_REQUIRED"
    ensures ProposalEntry(x, m).Some? ==>
              var e, v := ProposalEntry(x, m).value, ProposalView(x, m);
              && EntryOf(e, v, "proposal-", "response", x.proposalKey)
              && TextIs(e, title, "Response proposal awaits approval")
              && TextIs(e, detail, x.actionText + " · " + x.target)
              && TextIs(e, observedAt, "not_validated") && Get(e, source) == Get(v, source)
              && TextIs(e, nextAction, "Review the exact human approval binding.")
  {
    ProposalViewReads(x, m);
    EntryReads("proposal-" + x.proposalKey, "response", "Response proposal awaits approval",
               x.actionText + " · " + x.target, x.caseKey, x.proposalKey, m.Status(x.statusText), "not_validated",
               "Review the exact human approval binding.", x.refs, ScopeValue(x.tenant, x.caseKey), x.origin);
  }
}
