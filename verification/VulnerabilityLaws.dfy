/** The decisions of vulnerability intelligence spelled out on the fields of a record. */
module VulnerabilityLaws {
  import opened Wrappers
  import opened Vulnerability
  import Adjudication
  import Assessment
  import Sequences

  /** Nothing about the record is unknown, stale or undetermined. */
  ghost predicate FullyKnown(r: Record) {
    && r.unknowns == [] && r.freshness == FRESH
    && (r.reachability == REACHABLE || r.reachability == LIKELY_REACHABLE)
    && r.exposure == ESTABLISHED
  }

  ghost predicate Critical(r: Record) {
    r.kevStatus == Some(true) && r.reachability == REACHABLE && FullyKnown(r)
  }

  /** A reachable component with a version to upgrade to. */
  ghost predicate Actionable(r: Record) {
    && (r.reachability == REACHABLE || r.reachability == LIKELY_REACHABLE)
    && (exists v :: r.fixedVersion == Some(v) && v != "")
  }

  lemma FullyKnownIff(r: Record)
    ensures Unknowns(r) == [] <==> FullyKnown(r)
  {
  }

  /** The decision table, with the severity and the confidence of each class. */
  lemma PriorityTable(r: Record)
    ensures
      var d := Prioritize(r);
      && d.vulnerabilityId == r.vulnerabilityId
      && (d.priority == URGENT <==> Critical(r))
      && (d.priority == HIGH <==> !Critical(r) && Actionable(r))
      && (d.priority == INCONCLUSIVE <==> !Critical(r) && !Actionable(r) && !FullyKnown(r))
      && (d.priority == ROUTINE <==> !Critical(r) && !Actionable(r) && FullyKnown(r))
      && (d.priority == URGENT ==>
            d.severity == Some(Adjudication.HIGH_SEVERITY) && d.confidence == Adjudication.Confidence.HIGH)
      && (d.priority == HIGH ==>
            && d.severity == Some(Adjudication.MEDIUM_SEVERITY)
            && (d.confidence == Adjudication.Confidence.HIGH <==> FullyKnown(r))
            && (d.confidence == Adjudication.Confidence.MEDIUM <==> !FullyKnown(r)))
      && (d.priority == ROUTINE ==>
            d.severity == Some(Adjudication.LOW_SEVERITY) && d.confidence == Adjudication.Confidence.MEDIUM)
      && (d.priority == INCONCLUSIVE ==> d.severity == None && d.confidence == Adjudication.UNKNOWN)
  {
    FullyKnownIff(r);
    PriorityClasses(r);
    if HasFix(r) {
      assert r.fixedVersion == Some(r.fixedVersion.value);
    }
  }

  /** The stated gaps come first; a gap is added for a feed that is not fresh, no reachability, or no exposure. */
  lemma GapsOf(r: Record)
    ensures
      var gaps := Prioritize(r).unknowns;
      && r.unknowns <= gaps
      && forall g :: g in gaps[|r.unknowns|..] <==>
           || (r.freshness != FRESH && g == FeedGap(r.freshness))
           || (r.reachability !in {REACHABLE, LIKELY_REACHABLE} && g == ReachabilityGap(r.reachability))
           || (r.exposure != ESTABLISHED && g == ExposureGap(r.exposure))
  {
    var added := (if r.freshness != FRESH then [FeedGap(r.freshness)] else []) +
                 (if r.reachability in {REACHABLE, LIKELY_REACHABLE} then [] else [ReachabilityGap(r.reachability)]) +
                 (if r.exposure == ESTABLISHED then [] else [ExposureGap(r.exposure)]);
    assert Unknowns(r) == r.unknowns + added;
    assert Unknowns(r)[|r.unknowns|..] == added;
  }

  lemma InFive<T>(a: seq<T>, b: seq<T>, c: seq<T>, d: seq<T>, e: seq<T>)
    ensures forall x :: x in a + b + c + d + e <==> x in a || x in b || x in c || x in d || x in e
  {
  }

  lemma DecisionReasons(r: Record)
    ensures Prioritize(r).reasons == Reasons(r)
  {
  }

  /** A reason holds of a record. */
  ghost predicate Holds(r: Record, reason: Reason) {
    match reason
    case FixAvailable(v) => r.fixedVersion == Some(v) && v != ""
    case KevMatch => r.kevStatus == Some(true)
    case EpssSupplied => r.epssProbability != None
    case Reachable => r.reachability == REACHABLE
    case LikelyReachable => r.reachability == LIKELY_REACHABLE
    case Exposed => r.exposure == ESTABLISHED
  }

  lemma ReasonsParts(r: Record)
    returns (fix: seq<Reason>, kev: seq<Reason>, epss: seq<Reason>, reach: seq<Reason>, exposed: seq<Reason>)
    ensures Reasons(r) == fix + kev + epss + reach + exposed
    ensures forall x :: x in fix <==> x.FixAvailable? && Holds(r, x)
    ensures forall x :: x in kev <==> x.KevMatch? && Holds(r, x)
    ensures forall x :: x in epss <==> x.EpssSupplied? && Holds(r, x)
    ensures forall x :: x in reach <==> (x.Reachable? || x.LikelyReachable?) && Holds(r, x)
    ensures forall x :: x in exposed <==> x.Exposed? && Holds(r, x)
  {
    fix := if HasFix(r) then [FixAvailable(r.fixedVersion.value)] else [];
    kev := if r.kevStatus == Some(true) then [KevMatch] else [];
    epss := if r.epssProbability.Some? then [EpssSupplied] else [];
    reach := if r.reachability == REACHABLE then [Reachable]
             else if r.reachability == LIKELY_REACHABLE then [LikelyReachable] else [];
    exposed := if r.exposure == ESTABLISHED then [Exposed] else [];
  }

  /** Exactly the reasons that hold are given. */
  lemma ReasonsOf(r: Record, reason: Reason)
    ensures reason in Prioritize(r).reasons <==> Holds(r, reason)
  {
    DecisionReasons(r);
    var fix, kev, epss, reach, exposed := ReasonsParts(r);
    InFive(fix, kev, epss, reach, exposed);
  }

  /** Some provenance entry leaves out its source, its address or its content digest. */
  ghost predicate Undocumented(advisory: Record) {
    exists p :: p in advisory.provenance && (p.source == "" || p.sourceUrl == "" || p.contentSha256 == "")
  }

  /** A fresh feed counts as not run for an undocumented advisory; without an enricher nothing else changes. */
  lemma FeedStateOf(env: Environment, advisory: Record, feed: FeedState)
    ensures
      var state := if feed == FRESH && Undocumented(advisory) then NOT_RUN else feed;
      var record := advisory.(freshness := state);
      && (!env.enriching ==> Assessed(env, advisory, feed) == record)
      && (env.enriching ==> Assessed(env, advisory, feed) == Enriched(record, env.kev(record), env.epss(record)))
  {
  }

  /** What the claim candidate of a record says, by the class of its decision. */
  lemma CandidateSays(env: Environment, r: Record, path: string)
    ensures
      var c, d := CandidateFor(env, r, path), Prioritize(r);
      && c.serviceId == "VULNINTEL"
      && c.dedupeKey == "vulnerability:" + env.canonicalId(r.vulnerabilityId, r.aliases) + ":" +
                        env.normalize(r.packageName, r.ecosystem)
      && c.evidenceRefs == [env.evidenceId(path)] && c.contradictingRefs == []
      && c.standardReferences == ["OSV Schema 1.0 / API 1.0"]
      && c.confidence == d.confidence
      && (d.priority == URGENT ==> c.severity == Adjudication.HIGH_SEVERITY)
      && (d.priority == HIGH ==> c.severity == Adjudication.MEDIUM_SEVERITY)
      && (d.priority == ROUTINE ==> c.severity == Adjudication.LOW_SEVERITY)
      && (d.priority == INCONCLUSIVE ==> c.severity == Adjudication.MEDIUM_SEVERITY)
      && c.affectedComponent == r.ecosystem + ":" + r.packageName + "@" + r.installedVersion
      && c.preconditions == [env.wording.precondition] && c.impact == env.wording.impact
      && c.verification == env.wording.verification
      && (forall v :: r.fixedVersion == Some(v) && v != "" ==> c.remediation == env.wording.upgrade(v))
      && (r.fixedVersion in {None, Some("")} ==> c.remediation == env.wording.review)
  {
  }

  /** The wording of the claim: what is affected, the class, and every reason in order. */
  lemma StatementSays(env: Environment, r: Record, path: string) returns (rank: string, reasons: seq<string>)
    ensures CandidateFor(env, r, path).statement ==
            r.vulnerabilityId + " affects " + (r.ecosystem + ":" + r.packageName + "@" + r.installedVersion) +
            "; priority is " + rank + " because " + Sequences.Join("; ", reasons) + "."
    ensures |reasons| == |Prioritize(r).reasons|
    ensures forall i :: 0 <= i < |reasons| ==> reasons[i] == env.describe(Prioritize(r).reasons[i])
    ensures Prioritize(r).priority == URGENT ==> rank == "URGENT"
    ensures Prioritize(r).priority == HIGH ==> rank == "HIGH"
    ensures Prioritize(r).priority == ROUTINE ==> rank == "ROUTINE"
    ensures Prioritize(r).priority == INCONCLUSIVE ==> rank == "INCONCLUSIVE"
  {
    rank, reasons := PriorityText(Prioritize(r).priority), ReasonTexts(env, Prioritize(r).reasons);
  }

  lemma ObservationSays(env: Environment, r: Record, path: string)
    ensures
      var o, d := ObservationFor(env, r, path), Prioritize(r);
      && o.statement == r.vulnerabilityId + " matches "
         + (r.ecosystem + ":" + r.packageName + "@" + r.installedVersion) +
                        " from " + path
      && o.evidenceRefs == [env.evidenceId(path)]
      && o.confidence == d.confidence && o.severity == d.severity && o.status == d.priority
  {
  }
}
