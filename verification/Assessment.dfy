/**
 Deduplication across services: claim candidates are grouped by their key, and
 every group becomes evidence, one observation, one claim, one adjudication
 and possibly one finding, in the order of the sorted keys.
 */
module Assessment {
  import opened Wrappers
  import opened Ordering
  import opened Sequences
  import opened Identifiers
  import opened Adjudication
  import EventMetadata

  datatype Candidate = Candidate(serviceId: string, dedupeKey: string, statement: string, evidenceRefs: seq<string>,
                                 severity: Severity, confidence: Confidence, affectedComponent: string,
                                 preconditions: seq<string>, impact: string, remediation: string, verification: string,
                                 standardReferences: seq<string>, contradictingRefs: seq<string>)

  datatype ServiceResult = ServiceResult(serviceId: string, candidates: seq<Candidate>)

  datatype Observation = Observation(observationId: string, engagementId: string, evidenceIds: seq<string>,
                                     statement: string, recordedBy: string)

  datatype Evidence = Evidence(evidenceId: string, engagementId: string, targetId: string, collector: string,
                               invocationId: string, byteSize: nat, sha256: string, storageRef: string, payload: string)

  /** The fields of the sanitised payload of a piece of evidence. */
  datatype Payload = Payload(evidenceId: string, dedupeKey: string, serviceId: string, statement: string,
                             severity: Severity, confidence: Confidence, affectedComponent: string, impact: string,
                             remediation: string, verification: string, standardReferences: seq<string>)

  /**
   What one call fixes: its ids, the digest, the ids minted for adjudications,
   the scrubbing of texts and the JSON encoding of payloads.
   */
  datatype Context = Context(engagementId: string, targetId: string, principalId: string, digest: string -> string,
                             mintAdjudicationId: string -> string, scrub: string -> string, encode: Payload -> string)

  const STORAGE_PREFIX := "canonical://evidence/"

  ghost predicate ValidContext(ctx: Context) {
    IsHexDigest(ctx.digest)
  }

  datatype Receipts = Receipts(findings: seq<Finding>, claims: seq<Claim>, evidence: seq<Evidence>,
                               observations: seq<Observation>, decisions: seq<Decision>)

  // ---------- groups ----------

  function AllCandidates(results: seq<ServiceResult>): seq<Candidate> {
    if |results| == 0 then [] else AllCandidates(results[..|results| - 1]) + results[|results| - 1].candidates
  }

  function Group(candidates: seq<Candidate>, key: string): seq<Candidate> {
    Select(candidates, (c: Candidate) => c.dedupeKey == key)
  }

  /** The concatenation of one list per candidate. */
  function Gather(candidates: seq<Candidate>, f: Candidate -> seq<string>): seq<string> {
    if |candidates| == 0 then [] else Gather(candidates[..|candidates| - 1], f) + f(candidates[|candidates| - 1])
  }

  function Keys(candidates: seq<Candidate>): seq<string> {
    SortedSet(Gather(candidates, (c: Candidate) => [c.dedupeKey]))
  }

  function EvidenceIds(group: seq<Candidate>): seq<string> {
    SortedSet(Gather(group, (c: Candidate) => c.evidenceRefs))
  }

  function ContradictingIds(group: seq<Candidate>): seq<string> {
    SortedSet(Gather(group, (c: Candidate) => c.contradictingRefs))
  }

  function Services(group: seq<Candidate>): seq<string> {
    SortedSet(Gather(group, (c: Candidate) => [c.serviceId]))
  }

  function Preconditions(group: seq<Candidate>): seq<string> {
    SortedSet(Gather(group, (c: Candidate) => c.preconditions))
  }

  function StandardReferences(group: seq<Candidate>): seq<string> {
    SortedSet(Gather(group, (c: Candidate) => c.standardReferences))
  }

  function Impacts(group: seq<Candidate>): seq<string> {
    SortedSet(Gather(group, (c: Candidate) => if c.impact != "" then [c.impact] else []))
  }

  // ---------- what one group becomes ----------

  function Slug(ctx: Context, value: string): string
    requires ValidContext(ctx)
  {
    SafeSlug(value, ctx.digest)
  }

  function ScrubAll(scrub: string -> string, texts: seq<string>): seq<string> {
    seq(|texts|, i requires 0 <= i < |texts| => scrub(texts[i]))
  }

  function ScrubbedReferences(ctx: Context, group: seq<Candidate>): seq<string> {
    SortedSet(Gather(group, (c: Candidate) => ScrubAll(ctx.scrub, c.standardReferences)))
  }

  function PayloadFor(ctx: Context, key: string, group: seq<Candidate>, evidenceId: string): Payload
    requires |group| > 0
  {
    var first, scrub := group[0], ctx.scrub;
    Payload(scrub(evidenceId), scrub(key), scrub(first.serviceId), scrub(first.statement), first.severity,
            first.confidence, scrub(first.affectedComponent), scrub(first.impact), scrub(first.remediation),
            scrub(first.verification), ScrubbedReferences(ctx, group))
  }

  function EvidenceFor(ctx: Context, key: string, group: seq<Candidate>, evidenceId: string): Evidence
    requires ValidContext(ctx) && |group| > 0
  {
    var payload := ctx.encode(PayloadFor(ctx, key, group, evidenceId));
    var sha256 := ctx.digest(payload);
    Evidence(evidenceId, ctx.engagementId, ctx.targetId, group[0].serviceId, "TI-" + Slug(ctx, evidenceId),
             EventMetadata.Utf8Length(payload), sha256, STORAGE_PREFIX + sha256, payload)
  }

  function EvidenceOf(ctx: Context, key: string, group: seq<Candidate>): seq<Evidence>
    requires ValidContext(ctx) && |group| > 0
  {
    var ids := EvidenceIds(group);
    seq(|ids|, i requires 0 <= i < |ids| && |group| > 0 && ValidContext(ctx) => EvidenceFor(ctx, key, group, ids[i]))
  }

  function ObservationFor(ctx: Context, key: string, group: seq<Candidate>): Observation
    requires ValidContext(ctx) && |group| > 0
  {
    Observation("OB-" + Slug(ctx, key), ctx.engagementId, EvidenceIds(group), group[0].statement, group[0].serviceId)
  }

  function ClaimFor(ctx: Context, key: string, group: seq<Candidate>): Claim
    requires ValidContext(ctx) && |group| > 0
  {
    var first := group[0];
    Claim("CL-" + Slug(ctx, key), ctx.engagementId, first.serviceId, "AR-" + Slug(ctx, key), ["OB-" + Slug(ctx, key)],
          EvidenceIds(group), first.statement, first.confidence,
          (if Join("; ", Impacts(group)) != "" then Join("; ", Impacts(group))
           else "service-specific context is bounded by the recorded snapshot"),
          "contributing services: " + Join(", ", Services(group)))
  }

  /** The call of the verdict engine; it cannot fail, since the engagement is shared and a severity is given. */
  function JudgmentFor(ctx: Context, key: string, group: seq<Candidate>): (Decision, Option<Finding>)
    requires ValidContext(ctx) && |group| > 0
  {
    Adjudicate(ctx.engagementId, ClaimFor(ctx, key, group), EvidenceIds(group), ContradictingIds(group),
               group[0].serviceId, None, "deduplicated across service outputs", Some(group[0].severity),
               ctx.principalId, ctx.mintAdjudicationId(key), "").value
  }

  function FindingFor(ctx: Context, key: string, group: seq<Candidate>): Option<Finding>
    requires ValidContext(ctx) && |group| > 0
  {
    match JudgmentFor(ctx, key, group).1
    case None => None
    case Some(finding) =>
      Some(finding.(findingId := "FIN-" + Slug(ctx, key), contributingServices := Services(group), dedupeKey := key,
                    affectedComponent := group[0].affectedComponent, preconditions := Preconditions(group),
                    standardReferences := StandardReferences(group), impact := group[0].impact,
                    remediation := group[0].remediation, verification := group[0].verification))
  }

  /** The receipts with those of one more group. */
  function Extend(r: Receipts, ctx: Context, key: string, group: seq<Candidate>): Receipts
    requires ValidContext(ctx) && |group| > 0
  {
    var finding := FindingFor(ctx, key, group);
    Receipts(if finding.Some? then r.findings + [finding.value] else r.findings,
             r.claims + [ClaimFor(ctx, key, group)],
             r.evidence + EvidenceOf(ctx, key, group),
             r.observations + [ObservationFor(ctx, key, group)],
             r.decisions + [JudgmentFor(ctx, key, group).0])
  }

  /** Every key has a group. */
  ghost predicate Inhabited(candidates: seq<Candidate>, keys: seq<string>) {
    forall k :: k in keys ==> |Group(candidates, k)| > 0
  }

  /** The receipts of the groups of the given keys, in that order. */
  ghost function ReceiptsFor(ctx: Context, candidates: seq<Candidate>, keys: seq<string>): Receipts
    requires ValidContext(ctx) && Inhabited(candidates, keys)
  {
    if |keys| == 0 then Receipts([], [], [], [], [])
    else
      var key := keys[|keys| - 1];
      Extend(ReceiptsFor(ctx, candidates, keys[..|keys| - 1]), ctx, key, Group(candidates, key))
  }

  lemma {:induction false} GatherMembers(candidates: seq<Candidate>, f: Candidate -> seq<string>)
    ensures forall x :: x in Gather(candidates, f) <==> exists c :: c in candidates && x in f(c)
  {
    if |candidates| > 0 {
      var init, last := candidates[..|candidates| - 1], candidates[|candidates| - 1];
      assert forall c :: c in candidates <==> c in init || c == last;
      GatherMembers(init, f);
    }
  }

  lemma GroupMembers(candidates: seq<Candidate>, key: string)
    ensures forall c :: c in Group(candidates, key) <==> c in candidates && c.dedupeKey == key
  {
    SelectMembers(candidates, (c: Candidate) => c.dedupeKey == key);
  }

  /** The keys are the candidates' keys, once each and ascending, and each has a group. */
  lemma KeysFacts(candidates: seq<Candidate>)
    ensures Ascending(Keys(candidates))
    ensures forall k :: k in Keys(candidates) <==> exists c :: c in candidates && c.dedupeKey == k
    ensures forall k :: k in Keys(candidates) <==> |Group(candidates, k)| > 0
  {
    var keyOf := (c: Candidate) => [c.dedupeKey];
    GatherMembers(candidates, keyOf);
    SortedSetFacts(Gather(candidates, keyOf));
    forall k ensures k in Keys(candidates) <==> exists c :: c in candidates && c.dedupeKey == k {
      if c :| c in candidates && c.dedupeKey == k {
        assert k in keyOf(c);
      }
    }
    forall k ensures k in Keys(candidates) <==> |Group(candidates, k)| > 0 {
      GroupMembers(candidates, k);
      if |Group(candidates, k)| > 0 {
        assert Group(candidates, k)[0] in Group(candidates, k);
      }
    }
  }

  // ---------- the loops ----------

  /** `grouped` is the dictionary of groups of the candidates seen so far, `order` its keys as they were inserted. */
  ghost predicate GroupedSoFar(grouped: map<string, seq<Candidate>>, order: seq<string>, seen: seq<Candidate>) {
    && (forall k :: k in grouped <==> |Group(seen, k)| > 0)
    && (forall k :: k in grouped ==> grouped[k] == Group(seen, k))
    && (forall k :: k in order <==> k in grouped)
  }

  /** The dictionary with the candidate filed under its key, which is created if it is missing. */
  function Put(grouped: map<string, seq<Candidate>>, c: Candidate): map<string, seq<Candidate>> {
    grouped[c.dedupeKey := (if c.dedupeKey in grouped then grouped[c.dedupeKey] else []) + [c]]
  }

  function PutKey(grouped: map<string, seq<Candidate>>, order: seq<string>, c: Candidate): seq<string> {
    if c.dedupeKey in grouped then order else order + [c.dedupeKey]
  }

  ghost predicate GroupedAt(grouped: map<string, seq<Candidate>>, order: seq<string>, seen: seq<Candidate>, k: string) {
    && (k in grouped <==> |Group(seen, k)| > 0)
    && (k in grouped ==> grouped[k] == Group(seen, k))
    && (k in order <==> k in grouped)
  }

  lemma GroupStepAt(grouped: map<string, seq<Candidate>>, order: seq<string>, seen: seq<Candidate>, c: Candidate,
                    k: string)
    requires GroupedAt(grouped, order, seen, k)
    ensures GroupedAt(Put(grouped, c), PutKey(grouped, order, c), seen + [c], k)
  {
    SelectAppend(seen, c, (d: Candidate) => d.dedupeKey == k);
    if c.dedupeKey == k && k !in grouped {
      assert Group(seen, k) == [];
    }
  }

  lemma GroupStep(grouped: map<string, seq<Candidate>>, order: seq<string>, seen: seq<Candidate>, c: Candidate)
    requires GroupedSoFar(grouped, order, seen)
    ensures GroupedSoFar(Put(grouped, c), PutKey(grouped, order, c), seen + [c])
  {
    forall k ensures GroupedAt(Put(grouped, c), PutKey(grouped, order, c), seen + [c], k) {
      assert GroupedAt(grouped, order, seen, k);
      GroupStepAt(grouped, order, seen, c, k);
    }
  }

  /** The inner loop: one service's candidates. */
  method GroupResult(grouped0: map<string, seq<Candidate>>, order0: seq<string>, candidates: seq<Candidate>,
                     ghost seen: seq<Candidate>)
    returns (grouped: map<string, seq<Candidate>>, order: seq<string>)
    requires GroupedSoFar(grouped0, order0, seen)
    ensures GroupedSoFar(grouped, order, seen + candidates)
  {
    grouped, order := grouped0, order0;
    assert seen + candidates[..0] == seen;
    for j := 0 to |candidates|
      invariant GroupedSoFar(grouped, order, seen + candidates[..j])
    {
      var c := candidates[j];
      GroupStep(grouped, order, seen + candidates[..j], c);
      assert seen + candidates[..j] + [c] == seen + candidates[..j + 1];
      grouped, order := Put(grouped, c), PutKey(grouped, order, c);
    }
    assert candidates[..|candidates|] == candidates;
  }

  method GroupCandidates(results: seq<ServiceResult>)
    returns (grouped: map<string, seq<Candidate>>, order: seq<string>)
    ensures GroupedSoFar(grouped, order, AllCandidates(results))
  {
    grouped, order := map[], [];
    for i := 0 to |results|
      invariant GroupedSoFar(grouped, order, AllCandidates(results[..i]))
    {
      assert results[..i + 1][..i] == results[..i];
      grouped, order := GroupResult(grouped, order, results[i].candidates, AllCandidates(results[..i]));
    }
    assert results[..|results|] == results;
  }

  method CollectEvidence(ctx: Context, key: string, group: seq<Candidate>) returns (evidence: seq<Evidence>)
    requires ValidContext(ctx) && |group| > 0
    ensures evidence == EvidenceOf(ctx, key, group)
  {
    evidence := [];
    var ids := EvidenceIds(group);
    for n := 0 to |ids|
      invariant |evidence| == n && forall i :: 0 <= i < n ==> evidence[i] == EvidenceFor(ctx, key, group, ids[i])
    {
      evidence := evidence + [EvidenceFor(ctx, key, group, ids[n])];
    }
  }

  ghost predicate CitedIn(group: seq<Candidate>, ref: string) {
    exists c :: c in group && ref in c.evidenceRefs
  }

  ghost predicate ContradictedIn(group: seq<Candidate>) {
    exists c :: c in group && |c.contradictingRefs| > 0
  }

  /**
   What one group adds: one observation, one claim about it and one
   adjudication of that claim at the ends of their lists; one piece of
   evidence per cited reference, ascending; and a finding exactly when some
   reference is cited and none contradicts.  Nothing before them changes.
   */
  ghost predicate AddsOneChain(before: Receipts, after: Receipts, key: string, group: seq<Candidate>) {
    && |after.claims| == |before.claims| + 1 && before.claims <= after.claims
    && |after.observations| == |before.observations| + 1 && before.observations <= after.observations
    && |after.decisions| == |before.decisions| + 1 && before.decisions <= after.decisions
    && LinksUp(after.observations[|before.observations|], after.claims[|before.claims|],
               after.decisions[|before.decisions|])
    && before.evidence <= after.evidence
    && CitesExactly(after.evidence[|before.evidence|..], group)
    && before.findings <= after.findings
    && if (exists ref :: CitedIn(group, ref)) && !ContradictedIn(group)
       then |after.findings| == |before.findings| + 1 && after.findings[|before.findings|].dedupeKey == key
       else after.findings == before.findings
  }

  ghost predicate LinksUp(observation: Observation, claim: Claim, decision: Decision) {
    && claim.observationIds == [observation.observationId] && decision.claimIds == [claim.claimId]
    && claim.evidenceIds == observation.evidenceIds
  }

  ghost predicate CitesExactly(evidence: seq<Evidence>, group: seq<Candidate>) {
    && (forall i, j :: 0 <= i < j < |evidence| ==> Less(evidence[i].evidenceId, evidence[j].evidenceId))
    && (forall ref :: CitedIn(group, ref) <==> exists i :: 0 <= i < |evidence| && evidence[i].evidenceId == ref)
  }

  lemma EvidenceIdsCited(group: seq<Candidate>)
    ensures Ascending(EvidenceIds(group))
    ensures forall ref :: ref in EvidenceIds(group) <==> CitedIn(group, ref)
    ensures |ContradictingIds(group)| > 0 <==> ContradictedIn(group)
  {
    var refs := (c: Candidate) => c.evidenceRefs;
    GatherMembers(group, refs);
    SortedSetFacts(Gather(group, refs));
    forall ref ensures ref in EvidenceIds(group) <==> CitedIn(group, ref) {
      if c :| c in group && ref in c.evidenceRefs {
        assert ref in refs(c);
      }
      if ref in EvidenceIds(group) {
        var c :| c in group && ref in refs(c);
      }
    }
    ContradictionsSeen(group);
  }

  lemma ContradictionsSeen(group: seq<Candidate>)
    ensures |ContradictingIds(group)| > 0 <==> ContradictedIn(group)
  {
    var refs := (c: Candidate) => c.contradictingRefs;
    GatherMembers(group, refs);
    SortedSetFacts(Gather(group, refs));
    if |ContradictingIds(group)| > 0 {
      assert ContradictingIds(group)[0] in ContradictingIds(group);
      var c :| c in group && ContradictingIds(group)[0] in refs(c);
    }
    if c :| c in group && |c.contradictingRefs| > 0 {
      assert c.contradictingRefs[0] in refs(c);
      assert c.contradictingRefs[0] in ContradictingIds(group);
    }
  }

  lemma EvidenceOfCites(ctx: Context, key: string, group: seq<Candidate>)
    requires ValidContext(ctx) && |group| > 0
    ensures CitesExactly(EvidenceOf(ctx, key, group), group)
  {
    EvidenceIdsCited(group);
    var ids, evidence := EvidenceIds(group), EvidenceOf(ctx, key, group);
    assert forall i :: 0 <= i < |ids| ==> evidence[i].evidenceId == ids[i];
    forall ref ensures CitedIn(group, ref) <==> exists i :: 0 <= i < |evidence| && evidence[i].evidenceId == ref {
      if CitedIn(group, ref) {
        var i :| 0 <= i < |ids| && ids[i] == ref;
        assert evidence[i].evidenceId == ref;
      }
    }
  }

  lemma JudgmentShape(ctx: Context, key: string, group: seq<Candidate>)
    requires ValidContext(ctx) && |group| > 0
    ensures JudgmentFor(ctx, key, group).0.claimIds == [ClaimFor(ctx, key, group).claimId]
    ensures JudgmentFor(ctx, key, group).1.Some? <==> |EvidenceIds(group)| > 0 && |ContradictingIds(group)| == 0
  {
  }

  /** What an adjudication weighs comes from the whole group, and only its strength from the first candidate. */
  lemma JudgmentWeighs(ctx: Context, key: string, group: seq<Candidate>)
    requires ValidContext(ctx) && |group| > 0
    ensures
      var decision := JudgmentFor(ctx, key, group).0;
      && decision.adjudicationId == ctx.mintAdjudicationId(key) && decision.claimIds == ["CL-" + Slug(ctx, key)]
      && decision.supporting == EvidenceIds(group) && decision.contradicting == ContradictingIds(group)
      && (decision.verdict in {CONFIRMED, SUPPORTED} <==> |EvidenceIds(group)| > 0 && |ContradictingIds(group)| == 0)
  {
  }

  /** The verdict on a group, in terms of what its candidates cite. */
  lemma JudgmentOfGroup(ctx: Context, key: string, group: seq<Candidate>)
    requires ValidContext(ctx) && |group| > 0
    ensures JudgmentFor(ctx, key, group).0.claimIds == [ClaimFor(ctx, key, group).claimId]
    ensures FindingFor(ctx, key, group).Some? <==> (exists ref :: CitedIn(group, ref)) && !ContradictedIn(group)
    ensures FindingFor(ctx, key, group).Some? ==> FindingFor(ctx, key, group).value.dedupeKey == key
  {
    JudgmentShape(ctx, key, group);
    EvidenceIdsCited(group);
    if |EvidenceIds(group)| > 0 {
      assert EvidenceIds(group)[0] in EvidenceIds(group);
    }
  }

  lemma ExtendAddsOneChain(r: Receipts, ctx: Context, key: string, group: seq<Candidate>)
    requires ValidContext(ctx) && |group| > 0
    ensures AddsOneChain(r, Extend(r, ctx, key, group), key, group)
  {
    var s := Extend(r, ctx, key, group);
    EvidenceOfCites(ctx, key, group);
    assert s.evidence[|r.evidence|..] == EvidenceOf(ctx, key, group);
    JudgmentOfGroup(ctx, key, group);
  }

  /** One round of the outer loop. */
  method AdjudicateGroup(ctx: Context, key: string, group: seq<Candidate>, r0: Receipts) returns (r: Receipts)
    requires ValidContext(ctx) && |group| > 0
    ensures AddsOneChain(r0, r, key, group)
    ensures r == Extend(r0, ctx, key, group)
  {
    var evidence := CollectEvidence(ctx, key, group);
    var (decision, _) := JudgmentFor(ctx, key, group);
    var finding := FindingFor(ctx, key, group);
    var findings := r0.findings;
    if finding.Some? {
      findings := findings + [finding.value];
    }
    r := Receipts(findings, r0.claims + [ClaimFor(ctx, key, group)], r0.evidence + evidence,
                  r0.observations + [ObservationFor(ctx, key, group)], r0.decisions + [decision]);
    ExtendAddsOneChain(r0, ctx, key, group);
  }

  lemma ReceiptsStep(ctx: Context, candidates: seq<Candidate>, keys: seq<string>, i: nat)
    requires ValidContext(ctx) && Inhabited(candidates, keys) && i < |keys|
    ensures |Group(candidates, keys[i])| > 0
    ensures ReceiptsFor(ctx, candidates, keys[..i + 1]) ==
            Extend(ReceiptsFor(ctx, candidates, keys[..i]), ctx, keys[i], Group(candidates, keys[i]))
  {
    assert keys[i] in keys && keys[..i + 1][..i] == keys[..i];
  }

  lemma OrderIsKeys(grouped: map<string, seq<Candidate>>, order: seq<string>, candidates: seq<Candidate>)
    requires GroupedSoFar(grouped, order, candidates)
    ensures SortedSet(order) == Keys(candidates)
  {
    KeysFacts(candidates);
    SortedSetFacts(order);
    AscendingUnique(SortedSet(order), Keys(candidates));
  }

  /** The whole deduplication and adjudication. */
  method AdjudicateWithReceipts(ctx: Context, results: seq<ServiceResult>) returns (r: Receipts)
    requires ValidContext(ctx)
    ensures Inhabited(AllCandidates(results), Keys(AllCandidates(results)))
    ensures r == ReceiptsFor(ctx, AllCandidates(results), Keys(AllCandidates(results)))
  {
    ghost var candidates := AllCandidates(results);
    KeysFacts(candidates);
    var grouped, order := GroupCandidates(results);
    var keys := SortedSet(order);
    OrderIsKeys(grouped, order, candidates);
    r := Receipts([], [], [], [], []);
    for i := 0 to |keys|
      invariant r == ReceiptsFor(ctx, candidates, keys[..i])
    {
      ReceiptsStep(ctx, candidates, keys, i);
      r := AdjudicateGroup(ctx, keys[i], grouped[keys[i]], r);
    }
    assert keys[..|keys|] == keys;
  }
}
