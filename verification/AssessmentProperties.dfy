/** What deduplication keeps: one receipt chain per key, all evidence, and independence of order and repetition. */
module AssessmentProperties {
  import opened Wrappers
  import opened Ordering
  import opened Sequences
  import opened Adjudication
  import opened Assessment
  import EventMetadata

  /** The receipts of a whole assessment; `AdjudicateWithReceipts` computes them. */
  ghost function Assess(ctx: Context, candidates: seq<Candidate>): Receipts
    requires ValidContext(ctx)
  {
    KeysFacts(candidates);
    ReceiptsFor(ctx, candidates, Keys(candidates))
  }

  /** Every candidate cites at least one piece of evidence, as its model requires. */
  ghost predicate Evidenced(candidates: seq<Candidate>) {
    forall c :: c in candidates ==> |c.evidenceRefs| > 0
  }

  ghost predicate Cites(candidates: seq<Candidate>, key: string, ref: string) {
    exists c :: c in candidates && c.dedupeKey == key && ref in c.evidenceRefs
  }

  ghost predicate Contradicted(candidates: seq<Candidate>, key: string) {
    exists c :: c in candidates && c.dedupeKey == key && |c.contradictingRefs| > 0
  }

  // ---------- one chain per key ----------

  lemma {:induction false} ReceiptsLast(ctx: Context, candidates: seq<Candidate>, keys: seq<string>)
    requires ValidContext(ctx) && Inhabited(candidates, keys) && |keys| > 0
    ensures keys == keys[..|keys| - 1] + [keys[|keys| - 1]] && |Group(candidates, keys[|keys| - 1])| > 0
    ensures
      var before, key := ReceiptsFor(ctx, candidates, keys[..|keys| - 1]), keys[|keys| - 1];
      var group := Group(candidates, key);
      var finding := FindingFor(ctx, key, group);
      && ReceiptsFor(ctx, candidates, keys) == Extend(before, ctx, key, group)
      && ReceiptsFor(ctx, candidates, keys).evidence == before.evidence + EvidenceOf(ctx, key, group)
      && ReceiptsFor(ctx, candidates, keys).findings ==
         (if finding.Some? then before.findings + [finding.value] else before.findings)
  {
    assert keys[|keys| - 1] in keys;
  }

  /** One observation, claim and adjudication per key, in the order of the keys. */
  ghost predicate Chains(ctx: Context, candidates: seq<Candidate>, keys: seq<string>, r: Receipts)
    requires ValidContext(ctx) && Inhabited(candidates, keys)
  {
    && |r.claims| == |r.observations| == |r.decisions| == |keys|
    && forall i :: 0 <= i < |keys| ==> Chain(ctx, candidates, keys[i], r.claims[i], r.observations[i], r.decisions[i])
  }

  ghost predicate Chain(ctx: Context, candidates: seq<Candidate>, key: string, claim: Claim, observation: Observation,
                        decision: Decision)
    requires ValidContext(ctx) && |Group(candidates, key)| > 0
  {
    && claim == ClaimFor(ctx, key, Group(candidates, key))
    && observation == ObservationFor(ctx, key, Group(candidates, key))
    && decision == JudgmentFor(ctx, key, Group(candidates, key)).0
  }

  lemma {:induction false} ChainsExtend(ctx: Context, candidates: seq<Candidate>, keys: seq<string>, r: Receipts,
                                        key: string)
    requires ValidContext(ctx) && Inhabited(candidates, keys) && Inhabited(candidates, keys + [key])
    requires Chains(ctx, candidates, keys, r)
    ensures |Group(candidates, key)| > 0
    ensures Chains(ctx, candidates, keys + [key], Extend(r, ctx, key, Group(candidates, key)))
  {
    assert key in keys + [key];
    var s := Extend(r, ctx, key, Group(candidates, key));
    forall i | 0 <= i < |keys + [key]|
      ensures Chain(ctx, candidates, (keys + [key])[i], s.claims[i], s.observations[i], s.decisions[i])
    {
      if i < |keys| {
        assert s.claims[i] == r.claims[i] && s.observations[i] == r.observations[i] && s.decisions[i] == r.decisions[i];
      }
    }
  }

  lemma {:induction false} ChainPerKey(ctx: Context, candidates: seq<Candidate>, keys: seq<string>)
    requires ValidContext(ctx) && Inhabited(candidates, keys)
    ensures Chains(ctx, candidates, keys, ReceiptsFor(ctx, candidates, keys))
  {
    if |keys| > 0 {
      var init := keys[..|keys| - 1];
      ChainPerKey(ctx, candidates, init);
      ReceiptsLast(ctx, candidates, keys);
      ChainsExtend(ctx, candidates, init, ReceiptsFor(ctx, candidates, init), keys[|keys| - 1]);
    }
  }

  lemma {:induction false} EvidenceIdsFacts(candidates: seq<Candidate>, key: string)
    ensures Ascending(EvidenceIds(Group(candidates, key)))
    ensures forall ref :: ref in EvidenceIds(Group(candidates, key)) <==> Cites(candidates, key, ref)
  {
    EvidenceIdsCited(Group(candidates, key));
    GroupMembers(candidates, key);
    forall ref ensures CitedIn(Group(candidates, key), ref) <==> Cites(candidates, key, ref) {
      if c :| c in candidates && c.dedupeKey == key && ref in c.evidenceRefs {
        assert c in Group(candidates, key);
      }
    }
  }

  lemma {:induction false} ContradictingIdsFacts(candidates: seq<Candidate>, key: string)
    ensures |ContradictingIds(Group(candidates, key))| > 0 <==> Contradicted(candidates, key)
  {
    ContradictionsSeen(Group(candidates, key));
    GroupMembers(candidates, key);
    if c :| c in candidates && c.dedupeKey == key && |c.contradictingRefs| > 0 {
      assert c in Group(candidates, key);
    }
  }

  lemma {:induction false} JudgmentFacts(ctx: Context, candidates: seq<Candidate>, key: string)
    requires ValidContext(ctx) && |Group(candidates, key)| > 0 && Evidenced(candidates)
    ensures |EvidenceIds(Group(candidates, key))| > 0
    ensures
      var group := Group(candidates, key);
      var (decision, finding) := JudgmentFor(ctx, key, group);
      && decision.verdict != REJECTED
      && decision.supporting == EvidenceIds(group) && decision.claimIds == [ClaimFor(ctx, key, group).claimId]
      && (finding.Some? <==> !Contradicted(candidates, key))
      && (decision.verdict in {CONFIRMED, SUPPORTED} <==> !Contradicted(candidates, key))
  {
    EvidenceIdsFacts(candidates, key);
    ContradictingIdsFacts(candidates, key);
    GroupMembers(candidates, key);
    var c := Group(candidates, key)[0];
    assert c in Group(candidates, key);
    assert Cites(candidates, key, c.evidenceRefs[0]);
  }

  /**
   Exactly one observation, claim and adjudication per distinct key, in
   strictly ascending key order; each claim carries exactly the evidence its
   candidates cite, sorted and without repetition; nothing is rejected.
   */
  lemma {:induction false} OneChainPerKey(ctx: Context, candidates: seq<Candidate>)
    requires ValidContext(ctx) && Evidenced(candidates)
    ensures
      var r, keys := Assess(ctx, candidates), Keys(candidates);
      && Ascending(keys) && (forall k :: k in keys <==> exists c :: c in candidates && c.dedupeKey == k)
      && |r.claims| == |r.observations| == |r.decisions| == |keys|
      && forall i :: 0 <= i < |keys| ==>
           && Ascending(r.claims[i].evidenceIds)
           && (forall ref :: ref in r.claims[i].evidenceIds <==> Cites(candidates, keys[i], ref))
           && r.observations[i].evidenceIds == r.claims[i].evidenceIds == r.decisions[i].supporting
           && r.decisions[i].claimIds == [r.claims[i].claimId]
           && r.decisions[i].verdict != REJECTED
  {
    var r, keys := Assess(ctx, candidates), Keys(candidates);
    KeysFacts(candidates);
    ChainPerKey(ctx, candidates, keys);
    forall i | 0 <= i < |keys|
      ensures Ascending(r.claims[i].evidenceIds)
      ensures forall ref :: ref in r.claims[i].evidenceIds <==> Cites(candidates, keys[i], ref)
      ensures r.observations[i].evidenceIds == r.claims[i].evidenceIds == r.decisions[i].supporting
      ensures r.decisions[i].claimIds == [r.claims[i].claimId] && r.decisions[i].verdict != REJECTED
    {
      assert Chain(ctx, candidates, keys[i], r.claims[i], r.observations[i], r.decisions[i]);
      EvidenceIdsFacts(candidates, keys[i]);
      JudgmentFacts(ctx, candidates, keys[i]);
    }
  }

  // ---------- findings ----------

  /** The finding of a key, if its group exists and yields one. */
  ghost function FindingAt(ctx: Context, candidates: seq<Candidate>, key: string): Option<Finding> {
    if ValidContext(ctx) && |Group(candidates, key)| > 0 then FindingFor(ctx, key, Group(candidates, key)) else None
  }

  /** The defined findings of a list of keys. */
  ghost function FindingList(keys: seq<string>, f: string -> Option<Finding>): seq<Finding> {
    if |keys| == 0 then []
    else
      var before, finding := FindingList(keys[..|keys| - 1], f), f(keys[|keys| - 1]);
      if finding.Some? then before + [finding.value] else before
  }

  ghost function FindingKeys(fs: seq<Finding>): set<string> {
    set i | 0 <= i < |fs| :: fs[i].dedupeKey
  }

  /** Findings of ascending keys are ascending, and their keys are the ones with a finding. */
  lemma {:induction false} FindingListKeys(keys: seq<string>, f: string -> Option<Finding>)
    requires Ascending(keys) && forall k :: k in keys && f(k).Some? ==> f(k).value.dedupeKey == k
    ensures FindingKeys(FindingList(keys, f)) == set k | k in keys && f(k).Some?
    ensures forall i, j :: 0 <= i < j < |FindingList(keys, f)| ==>
              Less(FindingList(keys, f)[i].dedupeKey, FindingList(keys, f)[j].dedupeKey)
  {
    if |keys| > 0 {
      var init, key := keys[..|keys| - 1], keys[|keys| - 1];
      assert key in keys && keys == init + [key];
      FindingListKeys(init, f);
      var before := FindingList(init, f);
      forall k | k in init ensures Less(k, key) {
        var i :| 0 <= i < |init| && init[i] == k;
        assert keys[i] == k;
      }
      forall i | 0 <= i < |before| ensures Less(before[i].dedupeKey, key) {
        assert before[i].dedupeKey in FindingKeys(before);
      }
      if f(key).Some? {
        var longer := before + [f(key).value];
        assert FindingKeys(longer) == FindingKeys(before) + {key} by {
          assert longer[|before|].dedupeKey == key && forall i :: 0 <= i < |before| ==> longer[i] == before[i];
        }
      }
    }
  }

  lemma {:induction false} FindingsOfReceipts(ctx: Context, candidates: seq<Candidate>, keys: seq<string>)
    requires ValidContext(ctx) && Inhabited(candidates, keys)
    ensures ReceiptsFor(ctx, candidates, keys).findings ==
            FindingList(keys, k => FindingAt(ctx, candidates, k))
  {
    if |keys| > 0 {
      FindingsOfReceipts(ctx, candidates, keys[..|keys| - 1]);
      ReceiptsLast(ctx, candidates, keys);
    }
  }

  lemma {:induction false} FindingAtFacts(ctx: Context, candidates: seq<Candidate>, key: string)
    requires ValidContext(ctx) && |Group(candidates, key)| > 0 && Evidenced(candidates)
    ensures
      var finding := FindingAt(ctx, candidates, key);
      (finding.Some? <==> !Contradicted(candidates, key)) && (finding.Some? ==> finding.value.dedupeKey == key)
  {
    JudgmentFacts(ctx, candidates, key);
  }

  /**
   A key yields a finding exactly when no candidate with that key cites
   contradicting evidence, and never more than one.
   */
  lemma {:induction false} FindingIffUncontradicted(ctx: Context, candidates: seq<Candidate>)
    requires ValidContext(ctx) && Evidenced(candidates)
    ensures
      var fs := Assess(ctx, candidates).findings;
      && (forall k :: k in FindingKeys(fs) <==> k in Keys(candidates) && !Contradicted(candidates, k))
      && (forall i, j :: 0 <= i < j < |fs| ==> Less(fs[i].dedupeKey, fs[j].dedupeKey))
  {
    KeysFacts(candidates);
    var keys := Keys(candidates);
    var f := k => FindingAt(ctx, candidates, k);
    forall k | k in keys ensures f(k).Some? <==> !Contradicted(candidates, k)
      ensures f(k).Some? ==> f(k).value.dedupeKey == k
    {
      FindingAtFacts(ctx, candidates, k);
    }
    FindingListKeys(keys, f);
    FindingsOfReceipts(ctx, candidates, keys);
  }

  /**
   What a finding does not merge over its group it quotes from the earliest
   candidate with its key, and it quotes nothing from any other.
   */
  lemma {:induction false} FindingQuotesEarliest(ctx: Context, candidates: seq<Candidate>, key: string) returns (i: nat)
    requires ValidContext(ctx) && |Group(candidates, key)| > 0 && FindingFor(ctx, key, Group(candidates, key)).Some?
    ensures i < |candidates| && candidates[i].dedupeKey == key
    ensures forall j :: 0 <= j < i ==> candidates[j].dedupeKey != key
    ensures
      var f, c := FindingFor(ctx, key, Group(candidates, key)).value, candidates[i];
      && f.summary == c.statement && f.severity == c.severity
      && f.affectedComponent == c.affectedComponent && f.impact == c.impact
      && f.remediation == c.remediation && f.verification == c.verification
      && f.engagementId == ctx.engagementId && f.adjudicationId == ctx.mintAdjudicationId(key)
  {
    i := SelectPosition(candidates, (c: Candidate) => c.dedupeKey == key, 0);
  }

  // ---------- evidence ----------

  ghost function ProducedIds(evidence: seq<Evidence>): set<string> {
    set i | 0 <= i < |evidence| :: evidence[i].evidenceId
  }

  ghost function CitedIds(candidates: seq<Candidate>): set<string> {
    set c, ref | c in candidates && ref in c.evidenceRefs :: ref
  }

  lemma {:induction false} ProducedAppend(a: seq<Evidence>, b: seq<Evidence>)
    ensures ProducedIds(a + b) == ProducedIds(a) + ProducedIds(b)
  {
    forall id | id in ProducedIds(b) ensures id in ProducedIds(a + b) {
      var i :| 0 <= i < |b| && b[i].evidenceId == id;
      assert (a + b)[|a| + i] == b[i];
    }
    forall id | id in ProducedIds(a) ensures id in ProducedIds(a + b) {
      var i :| 0 <= i < |a| && a[i].evidenceId == id;
      assert (a + b)[i] == a[i];
    }
  }

  lemma {:induction false} ProducedByGroup(ctx: Context, candidates: seq<Candidate>, key: string)
    requires ValidContext(ctx) && |Group(candidates, key)| > 0
    ensures forall id :: id in ProducedIds(EvidenceOf(ctx, key, Group(candidates, key))) <==> Cites(candidates, key, id)
  {
    var ids := EvidenceIds(Group(candidates, key));
    var all := EvidenceOf(ctx, key, Group(candidates, key));
    EvidenceIdsFacts(candidates, key);
    assert |all| == |ids| && forall i :: 0 <= i < |ids| ==> all[i].evidenceId == ids[i];
    forall id | id in ids ensures id in ProducedIds(all) {
      var i :| 0 <= i < |ids| && ids[i] == id;
    }
  }

  lemma {:induction false} EvidenceByKey(ctx: Context, candidates: seq<Candidate>, keys: seq<string>)
    requires ValidContext(ctx) && Inhabited(candidates, keys)
    ensures forall id :: id in ProducedIds(ReceiptsFor(ctx, candidates, keys).evidence) <==>
                         exists k :: k in keys && Cites(candidates, k, id)
  {
    if |keys| > 0 {
      var init, key := keys[..|keys| - 1], keys[|keys| - 1];
      ReceiptsLast(ctx, candidates, keys);
      EvidenceByKey(ctx, candidates, init);
      ProducedByGroup(ctx, candidates, key);
      ProducedAppend(ReceiptsFor(ctx, candidates, init).evidence, EvidenceOf(ctx, key, Group(candidates, key)));
    }
  }

  /** The produced evidence is exactly the evidence the candidates cite. */
  lemma {:induction false} EvidenceConserved(ctx: Context, candidates: seq<Candidate>)
    requires ValidContext(ctx)
    ensures ProducedIds(Assess(ctx, candidates).evidence) == CitedIds(candidates)
  {
    KeysFacts(candidates);
    EvidenceByKey(ctx, candidates, Keys(candidates));
    forall c, id | c in candidates && id in c.evidenceRefs ensures id in ProducedIds(Assess(ctx, candidates).evidence) {
      assert c.dedupeKey in Keys(candidates) && Cites(candidates, c.dedupeKey, id);
    }
  }

  ghost predicate IsScrubbed(ctx: Context, text: string) {
    exists t :: text == ctx.scrub(t)
  }

  ghost predicate AllScrubbed(ctx: Context, p: Payload) {
    && IsScrubbed(ctx, p.evidenceId) && IsScrubbed(ctx, p.dedupeKey) && IsScrubbed(ctx, p.serviceId)
    && IsScrubbed(ctx, p.statement) && IsScrubbed(ctx, p.affectedComponent) && IsScrubbed(ctx, p.impact)
    && IsScrubbed(ctx, p.remediation) && IsScrubbed(ctx, p.verification)
    && forall ref :: ref in p.standardReferences ==> IsScrubbed(ctx, ref)
  }

  /**
   Evidence `e` is addressed by the digest of a payload of scrubbed texts,
   which tells the key it was cited for and the references of that key.
   */
  ghost predicate Sealed(ctx: Context, candidates: seq<Candidate>, e: Evidence, key: string, p: Payload) {
    && e.payload == ctx.encode(p) && e.byteSize == EventMetadata.Utf8Length(e.payload)
    && e.sha256 == ctx.digest(e.payload) && e.storageRef == STORAGE_PREFIX + e.sha256
    && AllScrubbed(ctx, p) && p.evidenceId == ctx.scrub(e.evidenceId) && p.dedupeKey == ctx.scrub(key)
    && Cites(candidates, key, e.evidenceId)
    && Ascending(p.standardReferences)
    && forall text :: text in p.standardReferences <==> ScrubbedReferenceOf(ctx, candidates, key, text)
  }

  ghost predicate ScrubbedReferenceOf(ctx: Context, candidates: seq<Candidate>, key: string, text: string) {
    exists c, ref :: c in candidates && c.dedupeKey == key && ref in c.standardReferences && text == ctx.scrub(ref)
  }

  lemma {:induction false} ScrubbedReferencesFacts(ctx: Context, candidates: seq<Candidate>, key: string)
    ensures Ascending(ScrubbedReferences(ctx, Group(candidates, key)))
    ensures forall text :: text in ScrubbedReferences(ctx, Group(candidates, key)) <==>
                           ScrubbedReferenceOf(ctx, candidates, key, text)
  {
    var refs := (c: Candidate) => ScrubAll(ctx.scrub, c.standardReferences);
    var group := Group(candidates, key);
    GatherMembers(group, refs);
    SortedSetFacts(Gather(group, refs));
    GroupMembers(candidates, key);
    forall text ensures text in ScrubbedReferences(ctx, group) <==> ScrubbedReferenceOf(ctx, candidates, key, text) {
      if c, ref :| c in candidates && c.dedupeKey == key && ref in c.standardReferences && text == ctx.scrub(ref) {
        assert c in group;
        var i :| 0 <= i < |c.standardReferences| && c.standardReferences[i] == ref;
        assert refs(c)[i] == text;
      }
      if text in ScrubbedReferences(ctx, group) {
        var c :| c in group && text in refs(c);
        var i :| 0 <= i < |refs(c)| && refs(c)[i] == text;
        assert c in candidates && c.standardReferences[i] in c.standardReferences;
      }
    }
  }

  lemma {:induction false} GroupEvidenceIsSealed(ctx: Context, candidates: seq<Candidate>, key: string, e: Evidence)
    requires ValidContext(ctx) && |Group(candidates, key)| > 0 && e in EvidenceOf(ctx, key, Group(candidates, key))
    ensures Sealed(ctx, candidates, e, key, PayloadFor(ctx, key, Group(candidates, key), e.evidenceId))
  {
    var group := Group(candidates, key);
    var ids := EvidenceIds(group);
    EvidenceIdsFacts(candidates, key);
    var i :| 0 <= i < |ids| && e == EvidenceFor(ctx, key, group, ids[i]);
    assert ids[i] in ids;
    ScrubbedReferencesFacts(ctx, candidates, key);
  }

  lemma {:induction false} EvidenceHasKey(ctx: Context, candidates: seq<Candidate>, keys: seq<string>, e: Evidence)
    returns (key: string)
    requires ValidContext(ctx) && Inhabited(candidates, keys) && e in ReceiptsFor(ctx, candidates, keys).evidence
    ensures key in keys && |Group(candidates, key)| > 0 && e in EvidenceOf(ctx, key, Group(candidates, key))
  {
    var init := keys[..|keys| - 1];
    ReceiptsLast(ctx, candidates, keys);
    if e in ReceiptsFor(ctx, candidates, init).evidence {
      key := EvidenceHasKey(ctx, candidates, init, e);
    } else {
      key := keys[|keys| - 1];
    }
  }

  /** No unscrubbed text reaches the payload of any produced evidence, and the payload's digest addresses it. */
  lemma {:induction false} EvidenceIsSealed(ctx: Context, candidates: seq<Candidate>, e: Evidence)
    returns (key: string, p: Payload)
    requires ValidContext(ctx) && e in Assess(ctx, candidates).evidence
    ensures Sealed(ctx, candidates, e, key, p)
  {
    KeysFacts(candidates);
    key := EvidenceHasKey(ctx, candidates, Keys(candidates), e);
    p := PayloadFor(ctx, key, Group(candidates, key), e.evidenceId);
    GroupEvidenceIsSealed(ctx, candidates, key, e);
  }

  // ---------- service runs ----------

  datatype ServiceRun = ServiceRun(serviceId: string, evidenceIds: seq<string>, claims: seq<Claim>)

  /** The claims a run is credited with. */
  function ClaimsBy(claims: seq<Claim>, serviceId: string): seq<Claim> {
    Select(claims, (claim: Claim) => claim.agentId == serviceId)
  }

  function RunFor(result: ServiceResult, claims: seq<Claim>): ServiceRun {
    ServiceRun(result.serviceId, EvidenceIds(result.candidates), ClaimsBy(claims, result.serviceId))
  }

  method AttributeRuns(results: seq<ServiceResult>, claims: seq<Claim>) returns (runs: seq<ServiceRun>)
    ensures |runs| == |results| && forall i :: 0 <= i < |results| ==> runs[i] == RunFor(results[i], claims)
  {
    runs := [];
    for i := 0 to |results|
      invariant |runs| == i && forall j :: 0 <= j < i ==> runs[j] == RunFor(results[j], claims)
    {
      var credited: seq<Claim> := [];
      for n := 0 to |claims|
        invariant credited == ClaimsBy(claims[..n], results[i].serviceId)
      {
        assert claims[..n + 1] == claims[..n] + [claims[n]];
        SelectAppend(claims[..n], claims[n], (claim: Claim) => claim.agentId == results[i].serviceId);
        if claims[n].agentId == results[i].serviceId {
          credited := credited + [claims[n]];
        }
      }
      assert claims[..|claims|] == claims;
      runs := runs + [ServiceRun(results[i].serviceId, EvidenceIds(results[i].candidates), credited)];
    }
  }

  /** Each service labels its candidates with its own id, and no service is selected twice. */
  ghost predicate Attributed(results: seq<ServiceResult>) {
    && (forall i, c :: 0 <= i < |results| && c in results[i].candidates ==> c.serviceId == results[i].serviceId)
    && (forall i, j :: 0 <= i < j < |results| ==> results[i].serviceId != results[j].serviceId)
  }

  lemma {:induction false} AllCandidatesMembers(results: seq<ServiceResult>)
    ensures forall c :: c in AllCandidates(results) <==> exists i :: 0 <= i < |results| && c in results[i].candidates
  {
    if |results| > 0 {
      AllCandidatesMembers(results[..|results| - 1]);
    }
  }

  lemma {:induction false} ClaimsByMembers(claims: seq<Claim>, serviceId: string)
    ensures forall claim :: claim in ClaimsBy(claims, serviceId) <==> claim in claims && claim.agentId == serviceId
  {
    SelectMembers(claims, (claim: Claim) => claim.agentId == serviceId);
  }

  /** Every claim is credited to exactly one service run. */
  lemma {:induction false} ClaimInExactlyOneRun(ctx: Context, results: seq<ServiceResult>, claim: Claim)
    requires ValidContext(ctx) && Attributed(results)
    requires claim in Assess(ctx, AllCandidates(results)).claims
    ensures
      var claims := Assess(ctx, AllCandidates(results)).claims;
      exists i :: 0 <= i < |results| && claim in RunFor(results[i], claims).claims
                  && forall j :: 0 <= j < |results| && claim in RunFor(results[j], claims).claims ==> j == i
  {
    var candidates := AllCandidates(results);
    var claims := Assess(ctx, candidates).claims;
    KeysFacts(candidates);
    ChainPerKey(ctx, candidates, Keys(candidates));
    var n :| 0 <= n < |claims| && claims[n] == claim;
    var group := Group(candidates, Keys(candidates)[n]);
    assert Chain(ctx, candidates, Keys(candidates)[n], claims[n], Assess(ctx, candidates).observations[n],
                 Assess(ctx, candidates).decisions[n]);
    GroupMembers(candidates, Keys(candidates)[n]);
    assert group[0] in group && claim.agentId == group[0].serviceId;
    AllCandidatesMembers(results);
    var i :| 0 <= i < |results| && group[0] in results[i].candidates;
    forall j | 0 <= j < |results| ensures claim in RunFor(results[j], claims).claims <==> j == i {
      ClaimsByMembers(claims, results[j].serviceId);
    }
  }

  lemma {:induction false} RunEvidence(result: ServiceResult, claims: seq<Claim>)
    ensures forall id :: id in RunFor(result, claims).evidenceIds <==> id in CitedIds(result.candidates)
  {
    var refs := (c: Candidate) => c.evidenceRefs;
    GatherMembers(result.candidates, refs);
    SortedSetFacts(Gather(result.candidates, refs));
    forall c, id | c in result.candidates && id in c.evidenceRefs ensures id in RunFor(result, claims).evidenceIds {
      assert id in refs(c);
    }
    forall id | id in RunFor(result, claims).evidenceIds ensures id in CitedIds(result.candidates) {
      var c :| c in result.candidates && id in refs(c);
    }
  }

  lemma {:induction false} CitedByResults(results: seq<ServiceResult>)
    ensures CitedIds(AllCandidates(results)) ==
            set i, id | 0 <= i < |results| && id in CitedIds(results[i].candidates) :: id
  {
    AllCandidatesMembers(results);
    var byResult := set i, id | 0 <= i < |results| && id in CitedIds(results[i].candidates) :: id;
    forall c, id | c in AllCandidates(results) && id in c.evidenceRefs ensures id in byResult {
      var i :| 0 <= i < |results| && c in results[i].candidates;
      assert id in CitedIds(results[i].candidates);
    }
    forall i, id | 0 <= i < |results| && id in CitedIds(results[i].candidates)
      ensures id in CitedIds(AllCandidates(results)) {
      var c :| c in results[i].candidates && id in c.evidenceRefs;
    }
  }

  /** The runs together hold exactly the produced evidence. */
  lemma {:induction false} RunsCoverEvidence(ctx: Context, results: seq<ServiceResult>, claims: seq<Claim>)
    requires ValidContext(ctx)
    ensures ProducedIds(Assess(ctx, AllCandidates(results)).evidence) ==
            set i, id | 0 <= i < |results| && id in RunFor(results[i], claims).evidenceIds :: id
  {
    EvidenceConserved(ctx, AllCandidates(results));
    CitedByResults(results);
    forall i | 0 <= i < |results|
      ensures forall id :: id in RunFor(results[i], claims).evidenceIds <==> id in CitedIds(results[i].candidates)
    {
      RunEvidence(results[i], claims);
    }
  }

  // ---------- order and repetition ----------

  lemma {:induction false} SortedGatherByElements(a: seq<Candidate>, b: seq<Candidate>, f: Candidate -> seq<string>)
    requires forall c :: c in a <==> c in b
    ensures SortedSet(Gather(a, f)) == SortedSet(Gather(b, f))
  {
    GatherMembers(a, f);
    GatherMembers(b, f);
    SortedSetByElements(Gather(a, f), Gather(b, f));
  }

  lemma {:induction false} GroupViewsByElements(a: seq<Candidate>, b: seq<Candidate>, key: string)
    requires forall c :: c in a <==> c in b
    ensures Keys(a) == Keys(b)
    ensures
      var g, h := Group(a, key), Group(b, key);
      && EvidenceIds(g) == EvidenceIds(h)
      && ContradictingIds(g) == ContradictingIds(h)
      && Services(g) == Services(h)
      && Preconditions(g) == Preconditions(h)
      && StandardReferences(g) == StandardReferences(h)
      && Impacts(g) == Impacts(h)
  {
    var g, h := Group(a, key), Group(b, key);
    GroupMembers(a, key);
    GroupMembers(b, key);
    SortedGatherByElements(a, b, (c: Candidate) => [c.dedupeKey]);
    SortedGatherByElements(g, h, (c: Candidate) => c.evidenceRefs);
    SortedGatherByElements(g, h, (c: Candidate) => c.contradictingRefs);
    SortedGatherByElements(g, h, (c: Candidate) => [c.serviceId]);
    SortedGatherByElements(g, h, (c: Candidate) => c.preconditions);
    SortedGatherByElements(g, h, (c: Candidate) => c.standardReferences);
    SortedGatherByElements(g, h, (c: Candidate) => if c.impact != "" then [c.impact] else []);
  }

  /** What a finding says apart from the fields taken from the first candidate of its group. */
  ghost predicate SameConclusion(f: Finding, g: Finding) {
    && f.dedupeKey == g.dedupeKey
    && f.findingId == g.findingId
    && f.contributingServices == g.contributingServices
    && f.preconditions == g.preconditions
    && f.standardReferences == g.standardReferences
    && f.supporting == g.supporting
    && f.contradicting == g.contradicting
  }

  lemma {:induction false} FindingByElements(ctx: Context, key: string, g: seq<Candidate>, h: seq<Candidate>)
    requires ValidContext(ctx) && |g| > 0 && |h| > 0
    requires EvidenceIds(g) == EvidenceIds(h) && ContradictingIds(g) == ContradictingIds(h)
    requires Services(g) == Services(h) && Preconditions(g) == Preconditions(h)
    requires StandardReferences(g) == StandardReferences(h)
    ensures
      var f, f' := FindingFor(ctx, key, g), FindingFor(ctx, key, h);
      (f.Some? <==> f'.Some?) && (f.Some? ==> SameConclusion(f.value, f'.value))
  {
  }

  ghost predicate SameConclusions(fs: seq<Finding>, gs: seq<Finding>) {
    |fs| == |gs| && forall i :: 0 <= i < |fs| ==> SameConclusion(fs[i], gs[i])
  }

  /** The same claims, but for what is quoted from the first candidate of the group. */
  ghost predicate SameClaims(cs: seq<Claim>, ds: seq<Claim>) {
    && |cs| == |ds|
    && forall i :: 0 <= i < |cs| ==>
         && cs[i].claimId == ds[i].claimId
         && cs[i].evidenceIds == ds[i].evidenceIds
         && cs[i].uncertainty == ds[i].uncertainty
         && cs[i].supportingNote == ds[i].supportingNote
  }

  lemma {:induction false} FindingListsAgree(keys: seq<string>, f: string -> Option<Finding>,
                                             g: string -> Option<Finding>)
    requires forall k :: k in keys ==>
             (f(k).Some? <==> g(k).Some?) && (f(k).Some? ==> SameConclusion(f(k).value, g(k).value))
    ensures SameConclusions(FindingList(keys, f), FindingList(keys, g))
  {
    if |keys| > 0 {
      assert keys[|keys| - 1] in keys;
      FindingListsAgree(keys[..|keys| - 1], f, g);
    }
  }

  lemma {:induction false} FindingsByElements(ctx: Context, a: seq<Candidate>, b: seq<Candidate>, keys: seq<string>)
    requires ValidContext(ctx) && forall c :: c in a <==> c in b
    requires Inhabited(a, keys) && Inhabited(b, keys)
    ensures SameConclusions(ReceiptsFor(ctx, a, keys).findings, ReceiptsFor(ctx, b, keys).findings)
  {
    var f, g := k => FindingAt(ctx, a, k), k => FindingAt(ctx, b, k);
    forall k | k in keys
      ensures (f(k).Some? <==> g(k).Some?) && (f(k).Some? ==> SameConclusion(f(k).value, g(k).value))
    {
      GroupViewsByElements(a, b, k);
      FindingByElements(ctx, k, Group(a, k), Group(b, k));
    }
    FindingListsAgree(keys, f, g);
    FindingsOfReceipts(ctx, a, keys);
    FindingsOfReceipts(ctx, b, keys);
  }

  lemma {:induction false} ClaimsByElements(ctx: Context, a: seq<Candidate>, b: seq<Candidate>, keys: seq<string>)
    requires ValidContext(ctx) && forall c :: c in a <==> c in b
    requires Inhabited(a, keys) && Inhabited(b, keys)
    ensures SameClaims(ReceiptsFor(ctx, a, keys).claims, ReceiptsFor(ctx, b, keys).claims)
  {
    var r, s := ReceiptsFor(ctx, a, keys), ReceiptsFor(ctx, b, keys);
    ChainPerKey(ctx, a, keys);
    ChainPerKey(ctx, b, keys);
    forall i | 0 <= i < |keys|
      ensures r.claims[i].claimId == s.claims[i].claimId && r.claims[i].evidenceIds == s.claims[i].evidenceIds
      ensures r.claims[i].uncertainty == s.claims[i].uncertainty
              && r.claims[i].supportingNote == s.claims[i].supportingNote
    {
      assert Chain(ctx, a, keys[i], r.claims[i], r.observations[i], r.decisions[i]);
      assert Chain(ctx, b, keys[i], s.claims[i], s.observations[i], s.decisions[i]);
      GroupViewsByElements(a, b, keys[i]);
    }
  }

  ghost function EvidenceIdList(evidence: seq<Evidence>): seq<string> {
    seq(|evidence|, i requires 0 <= i < |evidence| => evidence[i].evidenceId)
  }

  lemma {:induction false} IdListAppend(a: seq<Evidence>, b: seq<Evidence>)
    ensures EvidenceIdList(a + b) == EvidenceIdList(a) + EvidenceIdList(b)
  {
  }

  lemma {:induction false} GroupIdList(ctx: Context, key: string, group: seq<Candidate>)
    requires ValidContext(ctx) && |group| > 0
    ensures EvidenceIdList(EvidenceOf(ctx, key, group)) == EvidenceIds(group)
  {
    assert |EvidenceOf(ctx, key, group)| == |EvidenceIds(group)|;
  }

  lemma {:induction false} EvidenceByElements(ctx: Context, a: seq<Candidate>, b: seq<Candidate>, keys: seq<string>)
    requires ValidContext(ctx) && forall c :: c in a <==> c in b
    requires Inhabited(a, keys) && Inhabited(b, keys)
    ensures EvidenceIdList(ReceiptsFor(ctx, a, keys).evidence) == EvidenceIdList(ReceiptsFor(ctx, b, keys).evidence)
  {
    if |keys| > 0 {
      var init, key := keys[..|keys| - 1], keys[|keys| - 1];
      EvidenceByElements(ctx, a, b, init);
      ReceiptsLast(ctx, a, keys);
      ReceiptsLast(ctx, b, keys);
      IdListAppend(ReceiptsFor(ctx, a, init).evidence, EvidenceOf(ctx, key, Group(a, key)));
      IdListAppend(ReceiptsFor(ctx, b, init).evidence, EvidenceOf(ctx, key, Group(b, key)));
      GroupIdList(ctx, key, Group(a, key));
      GroupIdList(ctx, key, Group(b, key));
      GroupViewsByElements(a, b, key);
    }
  }

  /** The same adjudications, but for the strength taken from the first candidate of the group. */
  ghost predicate SameDecisions(ds: seq<Decision>, es: seq<Decision>) {
    |ds| == |es| && forall i :: 0 <= i < |ds| ==> SameDecision(ds[i], es[i])
  }

  ghost predicate SameDecision(d: Decision, e: Decision) {
    && d.adjudicationId == e.adjudicationId
    && d.claimIds == e.claimIds
    && d.supporting == e.supporting
    && d.contradicting == e.contradicting
    && (d.verdict in {CONFIRMED, SUPPORTED} <==> e.verdict in {CONFIRMED, SUPPORTED})
  }

  lemma {:induction false} JudgmentByElements(ctx: Context, key: string, g: seq<Candidate>, h: seq<Candidate>)
    requires ValidContext(ctx) && |g| > 0 && |h| > 0
    requires EvidenceIds(g) == EvidenceIds(h) && ContradictingIds(g) == ContradictingIds(h)
    ensures SameDecision(JudgmentFor(ctx, key, g).0, JudgmentFor(ctx, key, h).0)
  {
    JudgmentWeighs(ctx, key, g);
    JudgmentWeighs(ctx, key, h);
  }

  lemma {:induction false} DecisionsByElements(ctx: Context, a: seq<Candidate>, b: seq<Candidate>, keys: seq<string>)
    requires ValidContext(ctx) && forall c :: c in a <==> c in b
    requires Inhabited(a, keys) && Inhabited(b, keys)
    ensures SameDecisions(ReceiptsFor(ctx, a, keys).decisions, ReceiptsFor(ctx, b, keys).decisions)
  {
    var r, s := ReceiptsFor(ctx, a, keys), ReceiptsFor(ctx, b, keys);
    ChainPerKey(ctx, a, keys);
    ChainPerKey(ctx, b, keys);
    forall i | 0 <= i < |keys| ensures SameDecision(r.decisions[i], s.decisions[i]) {
      assert Chain(ctx, a, keys[i], r.claims[i], r.observations[i], r.decisions[i]);
      assert Chain(ctx, b, keys[i], s.claims[i], s.observations[i], s.decisions[i]);
      GroupViewsByElements(a, b, keys[i]);
      JudgmentByElements(ctx, keys[i], Group(a, keys[i]), Group(b, keys[i]));
    }
  }

  /**
   Reordering results or candidates, or repeating a candidate, changes
   neither the keys, nor the list of evidence ids, nor any claim's evidence or
   its contributing services, nor what an adjudication weighs and whether it
   supports the claim, nor which findings there are and what they conclude.
   */
  lemma {:induction false} OrderAndRepetitionAreIrrelevant(ctx: Context, a: seq<Candidate>, b: seq<Candidate>)
    requires ValidContext(ctx) && forall c :: c in a <==> c in b
    ensures Keys(a) == Keys(b)
    ensures SameClaims(Assess(ctx, a).claims, Assess(ctx, b).claims)
    ensures EvidenceIdList(Assess(ctx, a).evidence) == EvidenceIdList(Assess(ctx, b).evidence)
    ensures SameDecisions(Assess(ctx, a).decisions, Assess(ctx, b).decisions)
    ensures SameConclusions(Assess(ctx, a).findings, Assess(ctx, b).findings)
  {
    GroupViewsByElements(a, b, "");
    KeysFacts(a);
    KeysFacts(b);
    ClaimsByElements(ctx, a, b, Keys(a));
    EvidenceByElements(ctx, a, b, Keys(a));
    DecisionsByElements(ctx, a, b, Keys(a));
    FindingsByElements(ctx, a, b, Keys(a));
  }
}
