/**
 What the receipts of a key say: which texts come from the earliest candidate
 with the key, which are merged over all of them, and how the verdict is
 reached.  All of it is spelled out on the candidates.
 */
module AssessmentReceipts {
  import opened Wrappers
  import opened Ordering
  import opened Sequences
  import opened Identifiers
  import opened Adjudication
  import opened Assessment
  import opened AssessmentProperties

  /** Candidate `i` is the first with the key. */
  ghost predicate Earliest(candidates: seq<Candidate>, key: string, i: nat) {
    && i < |candidates| && candidates[i].dedupeKey == key
    && forall j :: 0 <= j < i ==> candidates[j].dedupeKey != key
  }

  lemma EarliestOf(candidates: seq<Candidate>, key: string) returns (i: nat)
    requires |Group(candidates, key)| > 0
    ensures Earliest(candidates, key, i) && Group(candidates, key)[0] == candidates[i]
  {
    i := SelectPosition(candidates, (c: Candidate) => c.dedupeKey == key, 0);
  }

  // ---------- merged fields ----------

  lemma MergedMembers(candidates: seq<Candidate>, key: string, f: Candidate -> seq<string>)
    ensures
      var merged := SortedSet(Gather(Group(candidates, key), f));
      && Ascending(merged)
      && forall x :: x in merged <==> exists c :: c in candidates && c.dedupeKey == key && x in f(c)
  {
    GatherMembers(Group(candidates, key), f);
    SortedSetFacts(Gather(Group(candidates, key), f));
    GroupMembers(candidates, key);
  }

  ghost predicate OfService(candidates: seq<Candidate>, key: string, x: string) {
    exists c :: c in candidates && c.dedupeKey == key && c.serviceId == x
  }

  ghost predicate OfPrecondition(candidates: seq<Candidate>, key: string, x: string) {
    exists c :: c in candidates && c.dedupeKey == key && x in c.preconditions
  }

  ghost predicate OfReference(candidates: seq<Candidate>, key: string, x: string) {
    exists c :: c in candidates && c.dedupeKey == key && x in c.standardReferences
  }

  ghost predicate OfImpact(candidates: seq<Candidate>, key: string, x: string) {
    exists c :: c in candidates && c.dedupeKey == key && c.impact == x && x != ""
  }

  ghost predicate OfContradiction(candidates: seq<Candidate>, key: string, x: string) {
    exists c :: c in candidates && c.dedupeKey == key && x in c.contradictingRefs
  }

  lemma MergedFields(candidates: seq<Candidate>, key: string)
    ensures
      var g := Group(candidates, key);
      && Ascending(Services(g)) && (forall x :: x in Services(g) <==> OfService(candidates, key, x))
      && Ascending(Preconditions(g)) && (forall x :: x in Preconditions(g) <==> OfPrecondition(candidates, key, x))
      && Ascending(StandardReferences(g))
         && (forall x :: x in StandardReferences(g) <==> OfReference(candidates, key, x))
  {
    MergedMembers(candidates, key, (c: Candidate) => [c.serviceId]);
    MergedMembers(candidates, key, (c: Candidate) => c.preconditions);
    MergedMembers(candidates, key, (c: Candidate) => c.standardReferences);
  }

  lemma MergedImpacts(candidates: seq<Candidate>, key: string)
    ensures
      var g := Group(candidates, key);
      && Ascending(Impacts(g)) && (forall x :: x in Impacts(g) <==> OfImpact(candidates, key, x))
      && Ascending(ContradictingIds(g))
         && (forall x :: x in ContradictingIds(g) <==> OfContradiction(candidates, key, x))
  {
    var impacts := (c: Candidate) => if c.impact != "" then [c.impact] else [];
    MergedMembers(candidates, key, impacts);
    MergedMembers(candidates, key, (c: Candidate) => c.contradictingRefs);
    forall x ensures x in Impacts(Group(candidates, key)) <==> OfImpact(candidates, key, x) {
      if c :| c in candidates && c.dedupeKey == key && c.impact == x && x != "" {
        assert x in impacts(c);
      }
    }
  }

  // ---------- claims, observations, adjudications ----------

  /** The claim and its observation are about the key and quote candidate `c`. */
  ghost predicate ClaimQuotes(ctx: Context, key: string, c: Candidate, claim: Claim, observation: Observation)
    requires ValidContext(ctx)
  {
    && observation.observationId == "OB-" + SafeSlug(key, ctx.digest)
    && claim.claimId == "CL-" + SafeSlug(key, ctx.digest)
    && claim.agentRunId == "AR-" + SafeSlug(key, ctx.digest)
    && claim.observationIds == [observation.observationId]
    && claim.engagementId == observation.engagementId == ctx.engagementId
    && claim.agentId == observation.recordedBy == c.serviceId
    && claim.statement == observation.statement == c.statement
    && claim.confidence == c.confidence
  }

  /** The notes of a claim list the impacts and the services of its key, each once, ascending. */
  ghost predicate ClaimNotes(candidates: seq<Candidate>, key: string, claim: Claim, impacts: seq<string>,
                             services: seq<string>) {
    && Ascending(impacts) && (forall x :: x in impacts <==> OfImpact(candidates, key, x))
    && Ascending(services) && (forall x :: x in services <==> OfService(candidates, key, x))
    && claim.supportingNote == "contributing services: " + Join(", ", services)
    && (impacts != [] ==> claim.uncertainty == Join("; ", impacts))
    && (impacts == [] ==> claim.uncertainty == "service-specific context is bounded by the recorded snapshot")
  }

  /** The adjudication weighs all refs of the key, and quotes candidate `c` and the caller. */
  ghost predicate DecisionQuotes(ctx: Context, candidates: seq<Candidate>, key: string, c: Candidate, d: Decision) {
    && d.adjudicationId == ctx.mintAdjudicationId(key) && d.engagementId == ctx.engagementId
    && d.specialist == c.serviceId && d.decidedBy == ctx.principalId
    && d.toolConfidence == None && d.scopeNote == "deduplicated across service outputs"
    && Ascending(d.contradicting) && (forall x :: x in d.contradicting <==> OfContradiction(candidates, key, x))
  }

  /** Confirmed for high confidence, supported for less, open when contradicted. */
  ghost predicate VerdictOf(candidates: seq<Candidate>, key: string, c: Candidate, d: Decision) {
    var contradicted := exists x :: OfContradiction(candidates, key, x);
    && (d.verdict == CONFIRMED <==> !contradicted && c.confidence == HIGH)
    && (d.verdict == SUPPORTED <==> !contradicted && c.confidence != HIGH)
    && (d.verdict == INCONCLUSIVE <==> contradicted)
    && d.confidence == if contradicted then UNKNOWN else if c.confidence == UNKNOWN then MEDIUM else c.confidence
  }

  lemma JoinEmpty(impacts: seq<string>)
    requires forall x :: x in impacts ==> x != ""
    ensures Join("; ", impacts) == "" <==> impacts == []
  {
    if |impacts| > 0 {
      assert impacts[0] in impacts;
    }
  }

  lemma ClaimNotesHold(ctx: Context, candidates: seq<Candidate>, key: string)
    requires ValidContext(ctx) && |Group(candidates, key)| > 0
    ensures
      var group := Group(candidates, key);
      ClaimNotes(candidates, key, ClaimFor(ctx, key, group), Impacts(group), Services(group))
  {
    MergedFields(candidates, key);
    MergedImpacts(candidates, key);
    JoinEmpty(Impacts(Group(candidates, key)));
  }

  lemma JudgmentQuotes(ctx: Context, candidates: seq<Candidate>, key: string)
    requires ValidContext(ctx) && |Group(candidates, key)| > 0
    ensures DecisionQuotes(ctx, candidates, key, Group(candidates, key)[0],
                           JudgmentFor(ctx, key, Group(candidates, key)).0)
  {
    var group := Group(candidates, key);
    MergedImpacts(candidates, key);
    QuoteLaw(ctx.engagementId, ClaimFor(ctx, key, group), EvidenceIds(group), ContradictingIds(group),
             group[0].serviceId, None, "deduplicated across service outputs", Some(group[0].severity), ctx.principalId,
             ctx.mintAdjudicationId(key), "");
  }

  lemma JudgmentVerdict(ctx: Context, candidates: seq<Candidate>, key: string)
    requires ValidContext(ctx) && |Group(candidates, key)| > 0 && Evidenced(candidates)
    ensures VerdictOf(candidates, key, Group(candidates, key)[0], JudgmentFor(ctx, key, Group(candidates, key)).0)
  {
    var group := Group(candidates, key);
    JudgmentFacts(ctx, candidates, key);
    MergedImpacts(candidates, key);
    var contradicting := ContradictingIds(group);
    assert contradicting != [] ==> contradicting[0] in contradicting;
    VerdictLaw(ctx.engagementId, ClaimFor(ctx, key, group), EvidenceIds(group), contradicting, group[0].serviceId, None,
               "deduplicated across service outputs", Some(group[0].severity), ctx.principalId,
               ctx.mintAdjudicationId(key), "");
  }

  /**
   The receipts of the `n`-th key: observation, claim and adjudication quote
   the earliest candidate with the key, the notes and the contradicting
   references are merged over all of them, and the verdict is confirmed exactly
   for an uncontradicted key whose earliest candidate is of high confidence.
   */
  lemma ReceiptsOfKey(ctx: Context, candidates: seq<Candidate>, n: nat)
    returns (i: nat, impacts: seq<string>, services: seq<string>)
    requires ValidContext(ctx) && Evidenced(candidates) && n < |Keys(candidates)|
    ensures
      var r, key := Assess(ctx, candidates), Keys(candidates)[n];
      && |r.claims| == |r.observations| == |r.decisions| == |Keys(candidates)|
      && Earliest(candidates, key, i)
      && ClaimQuotes(ctx, key, candidates[i], r.claims[n], r.observations[n])
      && ClaimNotes(candidates, key, r.claims[n], impacts, services)
      && DecisionQuotes(ctx, candidates, key, candidates[i], r.decisions[n])
      && VerdictOf(candidates, key, candidates[i], r.decisions[n])
  {
    var r, key := Assess(ctx, candidates), Keys(candidates)[n];
    KeysFacts(candidates);
    assert key in Keys(candidates);
    ChainPerKey(ctx, candidates, Keys(candidates));
    assert Chain(ctx, candidates, key, r.claims[n], r.observations[n], r.decisions[n]);
    i := EarliestOf(candidates, key);
    impacts, services := Impacts(Group(candidates, key)), Services(Group(candidates, key));
    ClaimNotesHold(ctx, candidates, key);
    JudgmentQuotes(ctx, candidates, key);
    JudgmentVerdict(ctx, candidates, key);
  }

  // ---------- findings ----------

  lemma {:induction false} FindingListMember(keys: seq<string>, f: string -> Option<Finding>, finding: Finding)
    requires finding in FindingList(keys, f)
    ensures exists k :: k in keys && f(k) == Some(finding)
  {
    var init, key := keys[..|keys| - 1], keys[|keys| - 1];
    if finding in FindingList(init, f) {
      FindingListMember(init, f, finding);
      var k :| k in init && f(k) == Some(finding);
      assert k in keys;
    } else {
      assert key in keys;
    }
  }

  /** The finding is about its key and quotes candidate `c`. */
  ghost predicate FindingQuotes(ctx: Context, c: Candidate, f: Finding)
    requires ValidContext(ctx)
  {
    && f.findingId == "FIN-" + SafeSlug(f.dedupeKey, ctx.digest)
    && f.adjudicationId == ctx.mintAdjudicationId(f.dedupeKey) && f.engagementId == ctx.engagementId
    && f.severity == c.severity && f.summary == c.statement && f.title == Title(c.statement)
    && f.affectedComponent == c.affectedComponent && f.impact == c.impact && f.remediation == c.remediation
    && f.verification == c.verification
    && f.confidence == if c.confidence == UNKNOWN then MEDIUM else c.confidence
  }

  /** What the finding merges over all candidates of its key. */
  ghost predicate FindingMerges(candidates: seq<Candidate>, f: Finding) {
    && Ascending(f.supporting) && (forall x :: x in f.supporting <==> Cites(candidates, f.dedupeKey, x))
    && f.contradicting == []
    && Ascending(f.contributingServices)
    && (forall x :: x in f.contributingServices <==> OfService(candidates, f.dedupeKey, x))
    && Ascending(f.preconditions)
    && (forall x :: x in f.preconditions <==> OfPrecondition(candidates, f.dedupeKey, x))
    && Ascending(f.standardReferences)
    && (forall x :: x in f.standardReferences <==> OfReference(candidates, f.dedupeKey, x))
  }

  lemma FindingFacts(ctx: Context, candidates: seq<Candidate>, key: string)
    requires ValidContext(ctx) && Evidenced(candidates) && |Group(candidates, key)| > 0
    requires FindingFor(ctx, key, Group(candidates, key)).Some?
    ensures
      var f := FindingFor(ctx, key, Group(candidates, key)).value;
      f.dedupeKey == key && FindingQuotes(ctx, Group(candidates, key)[0], f) && FindingMerges(candidates, f)
  {
    var group := Group(candidates, key);
    JudgmentFacts(ctx, candidates, key);
    EvidenceIdsFacts(candidates, key);
    MergedFields(candidates, key);
    QuoteLaw(ctx.engagementId, ClaimFor(ctx, key, group), EvidenceIds(group), ContradictingIds(group),
             group[0].serviceId, None, "deduplicated across service outputs", Some(group[0].severity), ctx.principalId,
             ctx.mintAdjudicationId(key), "");
    FindingLaw(ctx.engagementId, ClaimFor(ctx, key, group), EvidenceIds(group), ContradictingIds(group),
               group[0].serviceId, None, "deduplicated across service outputs", Some(group[0].severity),
               ctx.principalId, ctx.mintAdjudicationId(key), "");
  }

  /** Every finding of an assessment quotes the earliest candidate with its key and merges the others' lists. */
  lemma FindingContents(ctx: Context, candidates: seq<Candidate>, f: Finding) returns (i: nat)
    requires ValidContext(ctx) && Evidenced(candidates) && f in Assess(ctx, candidates).findings
    ensures Earliest(candidates, f.dedupeKey, i)
    ensures FindingQuotes(ctx, candidates[i], f) && FindingMerges(candidates, f)
  {
    var keys := Keys(candidates);
    var at := k => FindingAt(ctx, candidates, k);
    KeysFacts(candidates);
    FindingsOfReceipts(ctx, candidates, keys);
    FindingListMember(keys, at, f);
    var key :| key in keys && at(key) == Some(f);
    FindingFacts(ctx, candidates, key);
    i := EarliestOf(candidates, key);
  }

  // ---------- evidence ----------

  /** The evidence and its payload quote candidate `c` and the caller. */
  ghost predicate EvidenceQuotes(ctx: Context, c: Candidate, e: Evidence, p: Payload)
    requires ValidContext(ctx)
  {
    && e.engagementId == ctx.engagementId && e.targetId == ctx.targetId && e.collector == c.serviceId
    && e.invocationId == "TI-" + SafeSlug(e.evidenceId, ctx.digest)
    && p.serviceId == ctx.scrub(c.serviceId) && p.statement == ctx.scrub(c.statement)
    && p.severity == c.severity && p.confidence == c.confidence
    && p.affectedComponent == ctx.scrub(c.affectedComponent) && p.impact == ctx.scrub(c.impact)
    && p.remediation == ctx.scrub(c.remediation) && p.verification == ctx.scrub(c.verification)
  }

  /** Every piece of evidence is sealed, and quotes the earliest candidate of a key that cites it. */
  lemma EvidenceContents(ctx: Context, candidates: seq<Candidate>, e: Evidence)
    returns (key: string, i: nat, p: Payload)
    requires ValidContext(ctx) && e in Assess(ctx, candidates).evidence
    ensures Sealed(ctx, candidates, e, key, p)
    ensures Earliest(candidates, key, i) && EvidenceQuotes(ctx, candidates[i], e, p)
  {
    KeysFacts(candidates);
    key := EvidenceHasKey(ctx, candidates, Keys(candidates), e);
    var group := Group(candidates, key);
    p := PayloadFor(ctx, key, group, e.evidenceId);
    GroupEvidenceIsSealed(ctx, candidates, key, e);
    i := EarliestOf(candidates, key);
    var n :| 0 <= n < |EvidenceIds(group)| && e == EvidenceFor(ctx, key, group, EvidenceIds(group)[n]);
  }
}
