/**
 The verdict engine: one claim with its supporting and contradicting evidence
 becomes an adjudication, and, only then, possibly a finding.
 */
module Adjudication {
  import opened Wrappers

  datatype Severity = CRITICAL | HIGH_SEVERITY | MEDIUM_SEVERITY | LOW_SEVERITY
  datatype Confidence = HIGH | MEDIUM | LOW | UNKNOWN
  datatype Verdict = CONFIRMED | SUPPORTED | INCONCLUSIVE | REJECTED

  datatype Claim = Claim(claimId: string, engagementId: string, agentId: string, agentRunId: string,
                         observationIds: seq<string>, evidenceIds: seq<string>, statement: string,
                         confidence: Confidence, uncertainty: string, supportingNote: string)

  datatype Decision = Decision(adjudicationId: string, engagementId: string, claimIds: seq<string>,
                               supporting: seq<string>, contradicting: seq<string>, verdict: Verdict,
                               confidence: Confidence, specialist: string, toolConfidence: Option<Confidence>,
                               scopeNote: string, decidedBy: string)

  datatype Finding = Finding(findingId: string, engagementId: string, adjudicationId: string, title: string,
                             severity: Severity, summary: string, supporting: seq<string>, contradicting: seq<string>,
                             confidence: Confidence, contributingServices: seq<string>, dedupeKey: string,
                             affectedComponent: string, preconditions: seq<string>, standardReferences: seq<string>,
                             impact: string, remediation: string, verification: string)

  datatype AdjudicationError = EngagementMismatch | SeverityRequired

  const TITLE_LIMIT := 255
  const TITLE_CUT := 252

  /** The text before its last space, or all of it if it has none. */
  function BeforeLastSpace(s: string): string {
    if ' ' !in s then s
    else if s[|s| - 1] == ' ' then s[..|s| - 1]
    else BeforeLastSpace(s[..|s| - 1])
  }

  function Title(statement: string): string {
    if |statement| <= TITLE_LIMIT then statement else BeforeLastSpace(statement[..TITLE_CUT]) + "..."
  }

  /** The verdict and its confidence. */
  function Judge(claim: Claim, supporting: seq<string>, contradicting: seq<string>, toolConfidence: Option<Confidence>)
    : (Verdict, Confidence)
  {
    var evidenceOk := |claim.evidenceIds| > 0 || |supporting| > 0;
    var contradicted := |contradicting| > 0;
    if contradicted && !evidenceOk then (REJECTED, HIGH)
    else if contradicted then (INCONCLUSIVE, UNKNOWN)
    else if !evidenceOk then (INCONCLUSIVE, UNKNOWN)
    else if claim.confidence == HIGH && toolConfidence in {None, Some(HIGH)} then (CONFIRMED, HIGH)
    else (SUPPORTED, if claim.confidence != UNKNOWN then claim.confidence else MEDIUM)
  }

  /** `adjudicationId` and `findingId` are the ids minted by the call. */
  function Adjudicate(engagementId: string, claim: Claim, supporting: seq<string>, contradicting: seq<string>,
                      specialist: string, toolConfidence: Option<Confidence>, scopeNote: string,
                      severity: Option<Severity>, decidedBy: string, adjudicationId: string, findingId: string)
    : Result<(Decision, Option<Finding>), AdjudicationError>
  {
    if claim.engagementId != engagementId then Failure(EngagementMismatch)
    else
      var (verdict, confidence) := Judge(claim, supporting, contradicting, toolConfidence);
      var decision := Decision(adjudicationId, engagementId, [claim.claimId],
                               if |supporting| > 0 then supporting else claim.evidenceIds, contradicting, verdict,
                               confidence, specialist, toolConfidence, scopeNote, decidedBy);
      if verdict !in {CONFIRMED, SUPPORTED} then Success((decision, None))
      else if severity.None? then Failure(SeverityRequired)
      else Success((decision,
                    Some(Finding(findingId, engagementId, adjudicationId, Title(claim.statement), severity.value,
                                           claim.statement, decision.supporting, decision.contradicting, confidence,
                                           [], "", "", [], [], "", "", ""))))
  }

  lemma {:induction false} BeforeLastSpaceFacts(s: string)
    ensures BeforeLastSpace(s) <= s
    ensures
      var k := |BeforeLastSpace(s)|;
      if k < |s| then s[k] == ' ' && ' ' !in s[k + 1..] else ' ' !in s
  {
    if ' ' in s && s[|s| - 1] != ' ' {
      var init := s[..|s| - 1];
      assert s == init + [s[|s| - 1]];
      BeforeLastSpaceFacts(init);
      var k := |BeforeLastSpace(s)|;
      assert s[k + 1..] == init[k + 1..] + [s[|s| - 1]];
    } else if ' ' in s {
      assert s[|s| - 1 + 1..] == [];
    }
  }

  /**
   A title fits its column: a long statement is cut at the last space of its
   first 252 characters, or at character 252 when there is no such space.
   */
  lemma TitleFits(statement: string)
    ensures |Title(statement)| <= TITLE_LIMIT
    ensures |statement| <= TITLE_LIMIT ==> Title(statement) == statement
    ensures |statement| > TITLE_LIMIT ==>
              exists k :: && 0 <= k <= TITLE_CUT && Title(statement) == statement[..k] + "..."
                          && (k < TITLE_CUT ==> statement[k] == ' ')
                          && (forall i :: k < i < TITLE_CUT ==> statement[i] != ' ')
                          && (k == TITLE_CUT ==> ' ' !in statement[..TITLE_CUT])
  {
    if |statement| > TITLE_LIMIT {
      var head := statement[..TITLE_CUT];
      BeforeLastSpaceFacts(head);
      var k := |BeforeLastSpace(head)|;
      assert Title(statement) == statement[..k] + "...";
      forall i | k < i < TITLE_CUT ensures statement[i] != ' ' {
        assert head[k + 1..][i - k - 1] == statement[i];
      }
    }
  }

  /**
   The finding law: the call succeeds with a finding exactly when there is
   evidence, no contradiction and a severity; the finding then quotes its
   adjudication, and neither rejects nor leaves the confidence open.
   */
  lemma FindingLaw(engagementId: string, claim: Claim, supporting: seq<string>, contradicting: seq<string>,
                   specialist: string, toolConfidence: Option<Confidence>, scopeNote: string,
                   severity: Option<Severity>, decidedBy: string, adjudicationId: string, findingId: string)
    ensures
      var r := Adjudicate(engagementId, claim, supporting, contradicting, specialist, toolConfidence, scopeNote,
                          severity, decidedBy, adjudicationId, findingId);
      var grounded := |claim.evidenceIds| + |supporting| > 0 && |contradicting| == 0;
      && (r.Failure? <==> claim.engagementId != engagementId || (grounded && severity.None?))
      && (r.Success? ==> (r.value.1.Some? <==> grounded))
      && (r.Success? ==> (r.value.0.verdict == REJECTED <==>
                          |contradicting| > 0 && |claim.evidenceIds| + |supporting| == 0))
      && (r.Success? && r.value.1.Some? ==>
            var (decision, finding) := (r.value.0, r.value.1.value);
            && finding.adjudicationId == decision.adjudicationId
            && finding.confidence == decision.confidence != UNKNOWN
            && finding.supporting == decision.supporting != []
            && finding.contradicting == []
            && |finding.title| <= TITLE_LIMIT)
  {
    TitleFits(claim.statement);
  }

  /**
   The verdict table: with evidence and no contradiction a claim is confirmed
   if it and the tool, where one spoke, are of high confidence, and supported
   otherwise; a contradiction rejects a claim without evidence and leaves any
   other open, as does the lack of evidence.
   */
  lemma VerdictLaw(engagementId: string, claim: Claim, supporting: seq<string>, contradicting: seq<string>,
                   specialist: string, toolConfidence: Option<Confidence>, scopeNote: string,
                   severity: Option<Severity>, decidedBy: string, adjudicationId: string, findingId: string)
    ensures
      var r := Adjudicate(engagementId, claim, supporting, contradicting, specialist, toolConfidence, scopeNote,
                          severity, decidedBy, adjudicationId, findingId);
      var evidence := claim.evidenceIds != [] || supporting != [];
      var certain := claim.confidence == HIGH && (toolConfidence == None || toolConfidence == Some(HIGH));
      r.Success? ==>
        var decision := r.value.0;
        && (decision.verdict == CONFIRMED <==> evidence && contradicting == [] && certain)
        && (decision.verdict == SUPPORTED <==> evidence && contradicting == [] && !certain)
        && (decision.verdict == REJECTED <==> !evidence && contradicting != [])
        && (decision.verdict == INCONCLUSIVE <==> evidence == (contradicting != []))
        && (decision.verdict in {CONFIRMED, REJECTED} ==> decision.confidence == HIGH)
        && (decision.verdict == INCONCLUSIVE ==> decision.confidence == UNKNOWN)
        && (decision.verdict == SUPPORTED && claim.confidence == UNKNOWN ==> decision.confidence == MEDIUM)
        && (decision.verdict == SUPPORTED && claim.confidence != UNKNOWN ==> decision.confidence == claim.confidence)
  {
  }

  /** What an adjudication and its finding quote from the call. */
  lemma QuoteLaw(engagementId: string, claim: Claim, supporting: seq<string>, contradicting: seq<string>,
                 specialist: string, toolConfidence: Option<Confidence>, scopeNote: string,
                 severity: Option<Severity>, decidedBy: string, adjudicationId: string, findingId: string)
    ensures
      var r := Adjudicate(engagementId, claim, supporting, contradicting, specialist, toolConfidence, scopeNote,
                          severity, decidedBy, adjudicationId, findingId);
      r.Success? ==>
        var decision := r.value.0;
        && decision.adjudicationId == adjudicationId && decision.engagementId == engagementId == claim.engagementId
        && decision.claimIds == [claim.claimId] && decision.contradicting == contradicting
        && (supporting != [] ==> decision.supporting == supporting)
        && (supporting == [] ==> decision.supporting == claim.evidenceIds)
        && decision.specialist == specialist && decision.toolConfidence == toolConfidence
        && decision.scopeNote == scopeNote && decision.decidedBy == decidedBy
        && (r.value.1.Some? ==>
              var finding := r.value.1.value;
              && finding.findingId == findingId && finding.engagementId == engagementId
              && Some(finding.severity) == severity && finding.summary == claim.statement
              && (|claim.statement| <= 255 ==> finding.title == claim.statement)
              && finding.title == Title(claim.statement)
              && finding.contributingServices == finding.preconditions == finding.standardReferences == []
              && finding.dedupeKey == finding.affectedComponent == finding.impact == ""
              && finding.remediation == finding.verification == "")
    ensures
      claim.engagementId != engagementId ==>
        Adjudicate(engagementId, claim, supporting, contradicting, specialist, toolConfidence, scopeNote, severity,
                   decidedBy, adjudicationId, findingId) == Failure(EngagementMismatch)
  {
  }
}
