/** What deduplication makes of the matches: every matched vulnerability of a package ends in exactly one finding. */
module VulnerabilityFindings {
  import opened Vulnerability
  import Assessment
  import AP = AssessmentProperties
  import opened Ordering

  lemma AssessedKey(env: Environment, feed: FeedState, advisory: Record)
    ensures DedupeKey(env, Assessed(env, advisory, feed)) == DedupeKey(env, advisory)
  {
  }

  lemma ClaimFacts(env: Environment, r: Record, path: string)
    ensures
      var c := CandidateFor(env, r, path);
      c.dedupeKey == DedupeKey(env, r) && |c.evidenceRefs| == 1 && |c.contradictingRefs| == 0
  {
  }

  /** A candidate tells its vulnerability and package, cites its evidence and contradicts nothing. */
  lemma CandidateFacts(env: Environment, feed: FeedState, advisory: Record, path: string)
    ensures
      var s := ServiceOf(env, feed);
      var c := s.claim(s.assess(advisory), path);
      c.dedupeKey == DedupeKey(env, advisory) && |c.evidenceRefs| == 1 && |c.contradictingRefs| == 0
  {
    AssessedKey(env, feed, advisory);
    ClaimFacts(env, Assessed(env, advisory, feed), path);
  }

  /** The keys of the matched vulnerabilities. */
  ghost function VulnerabilityKeys(env: Environment, pairs: seq<(Record, string)>): seq<string> {
    seq(|pairs|, i requires 0 <= i < |pairs| => DedupeKey(env, pairs[i].0))
  }

  lemma KeysByPosition(candidates: seq<Assessment.Candidate>, keys: seq<string>)
    requires |keys| == |candidates| && forall i :: 0 <= i < |keys| ==> candidates[i].dedupeKey == keys[i]
    ensures forall key :: key in Assessment.Keys(candidates) <==> key in keys
  {
    Assessment.KeysFacts(candidates);
    forall key | key in keys ensures key in Assessment.Keys(candidates) {
      var i :| 0 <= i < |keys| && keys[i] == key;
      assert candidates[i] in candidates;
    }
  }

  lemma MatchFacts(env: Environment, feed: FeedState, pairs: seq<(Record, string)>, m: Matched)
    requires OnePerPair(ServiceOf(env, feed), pairs, m)
    ensures forall i :: 0 <= i < |pairs| ==> m.candidates[i].dedupeKey == DedupeKey(env, pairs[i].0)
    ensures AP.Evidenced(m.candidates) && forall key :: !AP.Contradicted(m.candidates, key)
  {
    forall i | 0 <= i < |pairs|
      ensures m.candidates[i].dedupeKey == DedupeKey(env, pairs[i].0)
      ensures |m.candidates[i].evidenceRefs| == 1 && |m.candidates[i].contradictingRefs| == 0
    {
      CandidateFacts(env, feed, pairs[i].0, pairs[i].1);
    }
  }

  /**
   From the matches to the findings: whatever the feeds answered and whatever
   the priority, deduplication yields exactly one finding per vulnerability
   and package, for several dependency paths as for one, in ascending order.
   */
  lemma OneFindingPerVulnerability(env: Environment, feed: FeedState, pairs: seq<(Record, string)>, m: Matched,
                                   ctx: Assessment.Context)
    requires OnePerPair(ServiceOf(env, feed), pairs, m) && Assessment.ValidContext(ctx)
    ensures
      var fs := AP.Assess(ctx, m.candidates).findings;
      && (forall key :: key in AP.FindingKeys(fs) <==> key in VulnerabilityKeys(env, pairs))
      && forall i, j :: 0 <= i < j < |fs| ==> Less(fs[i].dedupeKey, fs[j].dedupeKey)
  {
    MatchFacts(env, feed, pairs, m);
    KeysByPosition(m.candidates, VulnerabilityKeys(env, pairs));
    AP.FindingIffUncontradicted(ctx, m.candidates);
  }
}
