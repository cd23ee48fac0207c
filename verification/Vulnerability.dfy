/**
 Vulnerability intelligence: enrichment of an advisory from two live feeds,
 the priority decision, and the matching of advisories with dependencies.
 */
module Vulnerability {
  import opened Wrappers
  import Adjudication
  import Assessment
  import Sequences

  datatype FeedState = FRESH | STALE | UNAVAILABLE | NOT_RUN
  datatype Reachability = REACHABLE | LIKELY_REACHABLE | NOT_REACHABLE | UNKNOWN_REACHABILITY
  datatype Exposure = ESTABLISHED | DECLARED | NOT_ESTABLISHED | UNKNOWN_EXPOSURE
  datatype Priority = URGENT | HIGH | ROUTINE | MONITOR | INCONCLUSIVE
  type Severity = Adjudication.Severity
  type Confidence = Adjudication.Confidence

  datatype Provenance = Provenance(source: string, sourceUrl: string, contentSha256: string, state: FeedState)

  /** One stated gap in what is known about a record. */
  datatype Gap =
    | Stated(text: string)
    | KevUnavailable
    | EpssUnavailable
    | FeedGap(state: FeedState)
    | ReachabilityGap(reachability: Reachability)
    | ExposureGap(exposure: Exposure)

  datatype Reason = FixAvailable(version: string) | KevMatch | EpssSupplied | Reachable | LikelyReachable | Exposed

  datatype Record = Record(packageName: string, ecosystem: string, installedVersion: string, vulnerabilityId: string,
                           aliases: seq<string>, fixedVersion: Option<string>, kevStatus: Option<bool>,
                           epssProbability: Option<real>, epssPercentile: Option<real>, reachability: Reachability,
                           exposure: Exposure, provenance: seq<Provenance>, freshness: FeedState, unknowns: seq<Gap>)

  // ---------- enrichment ----------

  /** A lookup in one feed: not configured, refused as unavailable or malformed, or answered. */
  datatype Lookup<A> =
    | NotConfigured
    | Unavailable(provenance: Provenance)
    | Answered(answer: A, provenance: Provenance)
  {
    /** The provenance an unavailable feed leaves behind always says so. */
    predicate Valid() { Unavailable? ==> provenance.state == UNAVAILABLE }

    function States(): seq<FeedState> {
      if NotConfigured? then [] else [provenance.state]
    }

    function Trail(): seq<Provenance> {
      if NotConfigured? then [] else [provenance]
    }
  }

  datatype Epss = Epss(probability: Option<real>, percentile: Option<real>)

  /** The branch that chooses the freshness; an unmatched list leaves it alone. */
  function WorstState(states: seq<FeedState>, default: FeedState): FeedState {
    if UNAVAILABLE in states then UNAVAILABLE
    else if STALE in states then STALE
    else if NOT_RUN in states then NOT_RUN
    else if |states| > 0 && forall s :: s in states ==> s == FRESH then FRESH
    else default
  }

  method Enrich(r: Record, kev: Lookup<bool>, epss: Lookup<Epss>) returns (enriched: Record)
    requires kev.Valid() && epss.Valid()
    ensures enriched == Enriched(r, kev, epss)
  {
    var provenance, unknowns, states := r.provenance, r.unknowns, [r.freshness];
    var kevStatus, probability, percentile := r.kevStatus, r.epssProbability, r.epssPercentile;
    if !kev.NotConfigured? {
      if kev.Answered? {
        kevStatus := Some(kev.answer);
      } else {
        unknowns := unknowns + [KevUnavailable];
      }
      provenance, states := provenance + [kev.provenance], states + [kev.provenance.state];
    }
    if !epss.NotConfigured? {
      if epss.Answered? {
        probability, percentile := epss.answer.probability, epss.answer.percentile;
      } else {
        unknowns := unknowns + [EpssUnavailable];
      }
      provenance, states := provenance + [epss.provenance], states + [epss.provenance.state];
    }
    enriched := r.(kevStatus := kevStatus, epssProbability := probability, epssPercentile := percentile,
                   provenance := provenance, unknowns := unknowns, freshness := WorstState(states, r.freshness));
  }

  function Enriched(r: Record, kev: Lookup<bool>, epss: Lookup<Epss>): Record {
    r.(kevStatus := if kev.Answered? then Some(kev.answer) else r.kevStatus,
       epssProbability := if epss.Answered? then epss.answer.probability else r.epssProbability,
       epssPercentile := if epss.Answered? then epss.answer.percentile else r.epssPercentile,
       provenance := r.provenance + kev.Trail() + epss.Trail(),
       unknowns := r.unknowns + (if kev.Unavailable? then [KevUnavailable] else []) +
                   (if epss.Unavailable? then [EpssUnavailable] else []),
       freshness := WorstState([r.freshness] + kev.States() + epss.States(), r.freshness))
  }

  /** How bad a feed state is. */
  function Badness(s: FeedState): nat {
    match s case FRESH => 0 case NOT_RUN => 1 case STALE => 2 case UNAVAILABLE => 3
  }

  /** The freshness becomes the worst of the consulted states: an upper bound that one of them attains. */
  lemma FreshnessIsWorst(r: Record, kev: Lookup<bool>, epss: Lookup<Epss>)
    ensures
      var states := [r.freshness] + kev.States() + epss.States();
      var freshness := Enriched(r, kev, epss).freshness;
      && freshness in states
      && (forall s :: s in states ==> Badness(s) <= Badness(freshness))
  {
    var states := [r.freshness] + kev.States() + epss.States();
    assert states[0] == r.freshness;
    forall s | s in states ensures s == FRESH || s == STALE || s == UNAVAILABLE || s == NOT_RUN {
      match s case FRESH => case STALE => case UNAVAILABLE => case NOT_RUN =>
    }
    if UNAVAILABLE !in states && STALE !in states && NOT_RUN !in states {
      assert forall s :: s in states ==> s == FRESH;
    }
  }

  /** Enriching again, with whatever answers, never makes a record fresher or forgets a gap. */
  lemma EnrichmentNeverImproves(r: Record, kev: Lookup<bool>, epss: Lookup<Epss>)
    ensures Badness(r.freshness) <= Badness(Enriched(r, kev, epss).freshness)
    ensures r.unknowns <= Enriched(r, kev, epss).unknowns && r.provenance <= Enriched(r, kev, epss).provenance
  {
    FreshnessIsWorst(r, kev, epss);
    assert ([r.freshness] + kev.States() + epss.States())[0] == r.freshness;
  }

  // ---------- priority ----------

  datatype Decision = Decision(vulnerabilityId: string, priority: Priority, reasons: seq<Reason>, unknowns: seq<Gap>,
                               severity: Option<Severity>, confidence: Confidence)

  predicate HasFix(r: Record) {
    r.fixedVersion.Some? && r.fixedVersion.value != ""
  }

  function Unknowns(r: Record): seq<Gap> {
    r.unknowns + (if r.freshness != FRESH then [FeedGap(r.freshness)] else []) +
    (if r.reachability in {REACHABLE, LIKELY_REACHABLE} then [] else [ReachabilityGap(r.reachability)]) +
    (if r.exposure == ESTABLISHED then [] else [ExposureGap(r.exposure)])
  }

  function Reasons(r: Record): seq<Reason> {
    (if HasFix(r) then [FixAvailable(r.fixedVersion.value)] else []) +
    (if r.kevStatus == Some(true) then [KevMatch] else []) +
    (if r.epssProbability.Some? then [EpssSupplied] else []) +
    (if r.reachability == REACHABLE then [Reachable]
     else if r.reachability == LIKELY_REACHABLE then [LikelyReachable] else []) +
    (if r.exposure == ESTABLISHED then [Exposed] else [])
  }

  function Prioritize(r: Record): Decision {
    var unknowns := Unknowns(r);
    var (priority, severity, confidence) :=
      if r.kevStatus == Some(true) && r.reachability == REACHABLE && r.exposure == ESTABLISHED && unknowns == []
      then (URGENT, Some(Adjudication.HIGH_SEVERITY), Adjudication.Confidence.HIGH)
      else if r.reachability in {REACHABLE, LIKELY_REACHABLE} && HasFix(r)
      then (HIGH, Some(Adjudication.MEDIUM_SEVERITY),
            if unknowns != [] then Adjudication.Confidence.MEDIUM else Adjudication.Confidence.HIGH)
      else if unknowns != [] then (INCONCLUSIVE, None, Adjudication.UNKNOWN)
      else (ROUTINE, Some(Adjudication.LOW_SEVERITY), Adjudication.Confidence.MEDIUM);
    Decision(r.vulnerabilityId, priority, Reasons(r), unknowns, severity, confidence)
  }

  /** URGENT means a known exploited, reachable, exposed component about which nothing at all is unknown or stale. */
  lemma UrgentIff(r: Record)
    ensures Prioritize(r).priority == URGENT <==>
            && r.kevStatus == Some(true) && r.reachability == REACHABLE && r.exposure == ESTABLISHED
            && r.freshness == FRESH && r.unknowns == []
  {
    if r.unknowns != [] {
      assert Unknowns(r)[0] == r.unknowns[0];
    }
    if r.freshness != FRESH {
      assert Unknowns(r)[|r.unknowns|] == FeedGap(r.freshness);
    }
  }

  /** Exactly the other classes; no record is ever merely monitored, and certainty is never claimed over a gap. */
  lemma PriorityClasses(r: Record)
    ensures Prioritize(r).priority != MONITOR
    ensures Prioritize(r).severity.None? <==> Prioritize(r).priority == INCONCLUSIVE
    ensures Prioritize(r).confidence == Adjudication.Confidence.HIGH ==> Prioritize(r).unknowns == []
    ensures Prioritize(r).priority == ROUTINE ==>
              && Prioritize(r).unknowns == [] && r.reachability in {REACHABLE, LIKELY_REACHABLE} && !HasFix(r)
              && !(r.kevStatus == Some(true) && r.reachability == REACHABLE)
  {
    if r.reachability !in {REACHABLE, LIKELY_REACHABLE} {
      assert ReachabilityGap(r.reachability) in Unknowns(r);
    }
    if r.exposure != ESTABLISHED {
      assert ExposureGap(r.exposure) in Unknowns(r);
    }
  }

  /** The enriched record is fresh exactly when the record and every consulted feed were. */
  lemma FreshIff(r: Record, kev: Lookup<bool>, epss: Lookup<Epss>)
    ensures Enriched(r, kev, epss).freshness == FRESH <==>
            r.freshness == FRESH && forall s :: s in kev.States() + epss.States() ==> s == FRESH
  {
    FreshnessIsWorst(r, kev, epss);
    var states := [r.freshness] + kev.States() + epss.States();
    assert states == [r.freshness] + (kev.States() + epss.States());
    assert states[0] == r.freshness;
    assert forall s :: s in kev.States() + epss.States() ==> s in states;
  }

  /** An enriched record is urgent only if the record and every consulted feed were fresh and the match is real. */
  lemma UrgentNeedsFreshFeeds(r: Record, kev: Lookup<bool>, epss: Lookup<Epss>)
    requires kev.Valid() && epss.Valid()
    ensures Prioritize(Enriched(r, kev, epss)).priority == URGENT <==>
            && r.freshness == FRESH && r.unknowns == [] && r.reachability == REACHABLE && r.exposure == ESTABLISHED
            && (forall s :: s in kev.States() + epss.States() ==> s == FRESH)
            && (if kev.Answered? then kev.answer else r.kevStatus == Some(true))
  {
    UrgentIff(Enriched(r, kev, epss));
    FreshIff(r, kev, epss);
    if kev.Unavailable? {
      assert (kev.States() + epss.States())[0] == UNAVAILABLE;
    }
    if epss.Unavailable? {
      assert (kev.States() + epss.States())[|kev.States()|] == UNAVAILABLE;
    }
  }

  // ---------- matching ----------

  datatype Dependency = Dependency(name: string, ecosystem: string, version: string, path: string)

  /** What the service says about one matching pair. */
  datatype Observation = Observation(statement: string, evidenceRefs: seq<string>, confidence: Confidence,
                                     severity: Option<Severity>, status: Priority)

  datatype Matched = Matched(records: seq<Record>, decisions: seq<Decision>, observations: seq<Observation>,
                             candidates: seq<Assessment.Candidate>)

  datatype Limitation = FeedNotFresh(state: FeedState) | NoAdvisories
  datatype Status = COMPLETED | DEGRADED

  datatype Result = Result(matched: Matched, limitations: seq<Limitation>, status: Status)

  /** The fixed sentences of a claim candidate. */
  datatype Wording = Wording(precondition: string, impact: string, upgrade: string -> string, review: string,
                             verification: string)

  /**
   What the environment answers: name normalisation, the canonical id of a
   vulnerability, the evidence id of a path, the wording of reasons and claims,
   and, per advisory, the two feeds.
   */
  datatype Environment = Environment(normalize: (string, string) -> string,
                                     canonicalId: (string, seq<string>) -> string, evidenceId: string -> string,
                                     describe: Reason -> string, wording: Wording, kev: Record -> Lookup<bool>,
                                     epss: Record -> Lookup<Epss>, enriching: bool)

  ghost predicate ValidEnvironment(env: Environment) {
    forall r :: env.kev(r).Valid() && env.epss(r).Valid()
  }

  predicate Matches(env: Environment, advisory: Record, d: Dependency) {
    && env.normalize(advisory.packageName, advisory.ecosystem) == env.normalize(d.name, d.ecosystem)
    && advisory.installedVersion == d.version
  }

  predicate Documented(p: Provenance) {
    p.source != "" && p.sourceUrl != "" && p.contentSha256 != ""
  }

  function EffectiveState(advisory: Record, feed: FeedState): FeedState {
    if feed == FRESH && !forall p :: p in advisory.provenance ==> Documented(p) then NOT_RUN else feed
  }

  /** The record that is judged for a matching pair. */
  function Assessed(env: Environment, advisory: Record, feed: FeedState): Record {
    var record := advisory.(freshness := EffectiveState(advisory, feed));
    if env.enriching then Enriched(record, env.kev(record), env.epss(record)) else record
  }

  /** The dependencies an advisory matches, in order. */
  function MatchingPaths(env: Environment, advisory: Record, dependencies: seq<Dependency>): seq<string> {
    if |dependencies| == 0 then []
    else
      var init, last := MatchingPaths(env, advisory, dependencies[..|dependencies| - 1]),
        dependencies[|dependencies| - 1];
      if Matches(env, advisory, last) then init + [last.path] else init
  }

  /** One entry per matching pair, advisories outermost. */
  function Pairs(env: Environment, advisories: seq<Record>, dependencies: seq<Dependency>): seq<(Record, string)> {
    if |advisories| == 0 then []
    else
      var last := advisories[|advisories| - 1];
      Pairs(env, advisories[..|advisories| - 1], dependencies) + WithPaths(last, MatchingPaths(env, last, dependencies))
  }

  function WithPaths(advisory: Record, paths: seq<string>): seq<(Record, string)> {
    seq(|paths|, i requires 0 <= i < |paths| => (advisory, paths[i]))
  }

  // ---------- which pairs match, by position ----------

  /** The advisory is about the dependency: the same package by its normalised name, in the installed version. */
  ghost predicate Concerns(env: Environment, advisory: Record, d: Dependency) {
    && d.version == advisory.installedVersion
    && env.normalize(d.name, d.ecosystem) == env.normalize(advisory.packageName, advisory.ecosystem)
  }

  lemma {:induction false} MatchingPositions(env: Environment, advisory: Record, dependencies: seq<Dependency>)
    returns (at: seq<nat>)
    ensures forall k :: 0 <= k < |at| ==> at[k] < |dependencies| && Concerns(env, advisory, dependencies[at[k]])
    ensures forall j :: 0 <= j < |dependencies| && Concerns(env, advisory, dependencies[j]) ==> j in at
    ensures forall k, l :: 0 <= k < l < |at| ==> at[k] < at[l]
    ensures |MatchingPaths(env, advisory, dependencies)| == |at|
    ensures forall k :: 0 <= k < |at| ==> MatchingPaths(env, advisory, dependencies)[k] == dependencies[at[k]].path
  {
    at := [];
    if |dependencies| > 0 {
      var init, last := dependencies[..|dependencies| - 1], dependencies[|dependencies| - 1];
      at := MatchingPositions(env, advisory, init);
      forall j | 0 <= j < |init| && Concerns(env, advisory, dependencies[j]) ensures j in at {
        assert init[j] == dependencies[j];
      }
      if Concerns(env, advisory, last) {
        at := at + [|init|];
      }
    }
  }

  /** The positions of all matching pairs, advisories outermost, each once. */
  ghost predicate Enumerates(env: Environment, advisories: seq<Record>, dependencies: seq<Dependency>,
                             at: seq<(nat, nat)>) {
    && (forall k :: 0 <= k < |at| ==>
          && at[k].0 < |advisories| && at[k].1 < |dependencies|
          && Concerns(env, advisories[at[k].0], dependencies[at[k].1]))
    && (forall i: nat, j: nat ::
          i < |advisories| && j < |dependencies| && Concerns(env, advisories[i], dependencies[j]) ==> (i, j) in at)
    && (forall k, l :: 0 <= k < l < |at| ==> at[k].0 < at[l].0 || (at[k].0 == at[l].0 && at[k].1 < at[l].1))
  }

  /** The pairs are those at the given positions. */
  ghost predicate Located(advisories: seq<Record>, dependencies: seq<Dependency>, at: seq<(nat, nat)>,
                          pairs: seq<(Record, string)>) {
    && |pairs| == |at|
    && forall k :: 0 <= k < |at| ==>
         && at[k].0 < |advisories| && at[k].1 < |dependencies|
         && pairs[k] == (advisories[at[k].0], dependencies[at[k].1].path)
  }

  lemma {:induction false} PairPositions(env: Environment, advisories: seq<Record>, dependencies: seq<Dependency>)
    returns (at: seq<(nat, nat)>)
    ensures Enumerates(env, advisories, dependencies, at)
    ensures Located(advisories, dependencies, at, Pairs(env, advisories, dependencies))
  {
    at := [];
    if |advisories| > 0 {
      var n := |advisories| - 1;
      var before := PairPositions(env, advisories[..n], dependencies);
      var js := MatchingPositions(env, advisories[n], dependencies);
      var row := RowPositions(n, js);
      at := before + row;
      RowAdded(env, advisories, dependencies, before, js, row);
      RowLocated(advisories, dependencies, before, Pairs(env, advisories[..n], dependencies), js,
                 MatchingPaths(env, advisories[n], dependencies));
    }
  }

  lemma RowLocated(advisories: seq<Record>, dependencies: seq<Dependency>, before: seq<(nat, nat)>,
                   pairs: seq<(Record, string)>, js: seq<nat>, paths: seq<string>)
    requires |advisories| > 0 && Located(advisories[..|advisories| - 1], dependencies, before, pairs)
    requires |js| == |paths|
    requires forall k :: 0 <= k < |js| ==> js[k] < |dependencies| && paths[k] == dependencies[js[k]].path
    ensures Located(advisories, dependencies, before + RowPositions(|advisories| - 1, js),
                    pairs + WithPaths(advisories[|advisories| - 1], paths))
  {
  }

  function RowPositions(n: nat, js: seq<nat>): seq<(nat, nat)> {
    seq(|js|, k requires 0 <= k < |js| => (n, js[k]))
  }

  lemma RowAdded(env: Environment, advisories: seq<Record>, dependencies: seq<Dependency>, before: seq<(nat, nat)>,
                 js: seq<nat>, row: seq<(nat, nat)>)
    requires |advisories| > 0 && row == RowPositions(|advisories| - 1, js)
    requires Enumerates(env, advisories[..|advisories| - 1], dependencies, before)
    requires forall k :: 0 <= k < |js| ==>
               js[k] < |dependencies| && Concerns(env, advisories[|advisories| - 1], dependencies[js[k]])
    requires forall j :: 0 <= j < |dependencies| && Concerns(env, advisories[|advisories| - 1], dependencies[j]) ==>
             j in js
    requires forall k, l :: 0 <= k < l < |js| ==> js[k] < js[l]
    ensures Enumerates(env, advisories, dependencies, before + row)
  {
    var n, at := |advisories| - 1, before + row;
    forall i: nat, j: nat | i < |advisories| && j < |dependencies| && Concerns(env, advisories[i], dependencies[j])
      ensures (i, j) in at
    {
      if i < n {
        assert advisories[..n][i] == advisories[i] && (i, j) in before;
      } else {
        var k :| 0 <= k < |js| && js[k] == j;
        assert row[k] == (i, j);
      }
    }
  }

  // ---------- what the service says about a pair ----------

  const SERVICE_ID := "VULNINTEL"
  const OSV_REFERENCE := "OSV Schema 1.0 / API 1.0"

  function PriorityText(p: Priority): string {
    match p
    case URGENT => "URGENT"
    case HIGH => "HIGH"
    case ROUTINE => "ROUTINE"
    case MONITOR => "MONITOR"
    case INCONCLUSIVE => "INCONCLUSIVE"
  }

  function Component(r: Record): string {
    r.ecosystem + ":" + r.packageName + "@" + r.installedVersion
  }

  function ReasonTexts(env: Environment, reasons: seq<Reason>): seq<string> {
    seq(|reasons|, i requires 0 <= i < |reasons| => env.describe(reasons[i]))
  }

  /** Candidates about the same vulnerability of the same package share this key. */
  function DedupeKey(env: Environment, r: Record): string {
    "vulnerability:" + env.canonicalId(r.vulnerabilityId, r.aliases) + ":" + env.normalize(r.packageName, r.ecosystem)
  }

  function ObservationFor(env: Environment, r: Record, path: string): Observation {
    var d := Prioritize(r);
    Observation(r.vulnerabilityId + " matches " + Component(r) + " from " + path, [env.evidenceId(path)], d.confidence,
                d.severity, d.priority)
  }

  function CandidateFor(env: Environment, r: Record, path: string): Assessment.Candidate {
    var d := Prioritize(r);
    Assessment.Candidate(
      SERVICE_ID, DedupeKey(env, r),
      r.vulnerabilityId + " affects " + Component(r) + "; priority is " + PriorityText(d.priority) + " because " +
      Sequences.Join("; ", ReasonTexts(env, d.reasons)) + ".",
      [env.evidenceId(path)],
      if d.severity.Some? then d.severity.value else Adjudication.MEDIUM_SEVERITY, d.confidence, Component(r),
      [env.wording.precondition], env.wording.impact,
      if HasFix(r) then env.wording.upgrade(r.fixedVersion.value) else env.wording.review,
      env.wording.verification, [OSV_REFERENCE], [])
  }

  /** What the service makes of an advisory, of an assessed record, and of a record found at a path. */
  datatype Service = Service(assess: Record -> Record, judge: Record -> Decision,
                             observe: (Record, string) -> Observation, claim: (Record, string) -> Assessment.Candidate)

  function ServiceOf(env: Environment, feed: FeedState): Service {
    Service(advisory => Assessed(env, advisory, feed), Prioritize, (r, path) => ObservationFor(env, r, path),
            (r, path) => CandidateFor(env, r, path))
  }

  /**
   One record, one decision, one observation and one claim candidate per
   pair, each about its own pair.
   */
  ghost predicate OnePerPair(s: Service, pairs: seq<(Record, string)>, m: Matched) {
    && |m.records| == |m.decisions| == |m.observations| == |m.candidates| == |pairs|
    && forall i :: 0 <= i < |pairs| ==>
         && m.records[i] == s.assess(pairs[i].0)
         && m.decisions[i] == s.judge(m.records[i])
         && m.observations[i] == s.observe(m.records[i], pairs[i].1)
         && m.candidates[i] == s.claim(m.records[i], pairs[i].1)
  }

  /** The matches with the entries of one more pair. */
  function WithMatch(s: Service, m: Matched, r: Record, path: string): Matched {
    Matched(m.records + [r], m.decisions + [s.judge(r)], m.observations + [s.observe(r, path)],
            m.candidates + [s.claim(r, path)])
  }

  lemma OneMorePair(s: Service, advisory: Record, paths: seq<string>, path: string, before: seq<(Record, string)>,
                    m: Matched)
    requires OnePerPair(s, before + WithPaths(advisory, paths), m)
    ensures OnePerPair(s, before + WithPaths(advisory, paths + [path]), WithMatch(s, m, s.assess(advisory), path))
  {
    assert before + WithPaths(advisory, paths + [path]) == before + WithPaths(advisory, paths) + [(advisory, path)];
  }

  method Assess(env: Environment, advisories: seq<Record>, dependencies: seq<Dependency>, feed: FeedState)
    returns (r: Result)
    requires ValidEnvironment(env)
    ensures OnePerPair(ServiceOf(env, feed), Pairs(env, advisories, dependencies), r.matched)
    ensures exists at ::
              && Enumerates(env, advisories, dependencies, at)
              && Located(advisories, dependencies, at, Pairs(env, advisories, dependencies))
    ensures FeedNotFresh(feed) in r.limitations <==> feed != FRESH
    ensures NoAdvisories in r.limitations <==> advisories == []
    ensures r.status == COMPLETED <==> feed == FRESH && advisories != []
  {
    ghost var s := ServiceOf(env, feed);
    var matched := Matched([], [], [], []);
    for i := 0 to |advisories|
      invariant OnePerPair(s, Pairs(env, advisories[..i], dependencies), matched)
    {
      assert advisories[..i + 1][..i] == advisories[..i];
      matched := AssessAdvisory(env, advisories[i], dependencies, feed, Pairs(env, advisories[..i], dependencies),
                                matched);
    }
    assert advisories[..|advisories|] == advisories;
    var limitations: seq<Limitation> := [];
    if feed in {STALE, UNAVAILABLE, NOT_RUN} {
      limitations := limitations + [FeedNotFresh(feed)];
    }
    if |advisories| == 0 {
      limitations := limitations + [NoAdvisories];
    }
    r := Result(matched, limitations, if limitations != [] then DEGRADED else COMPLETED);
    ghost var at := PairPositions(env, advisories, dependencies);
  }

  /** The inner loop: one advisory against every dependency. */
  method AssessAdvisory(env: Environment, advisory: Record, dependencies: seq<Dependency>, feed: FeedState,
                        ghost before: seq<(Record, string)>, m0: Matched)
    returns (m: Matched)
    requires ValidEnvironment(env) && OnePerPair(ServiceOf(env, feed), before, m0)
    ensures OnePerPair(ServiceOf(env, feed), before + WithPaths(advisory, MatchingPaths(env, advisory, dependencies)),
                       m)
  {
    var s := ServiceOf(env, feed);
    m := m0;
    assert before + WithPaths(advisory, []) == before;
    for j := 0 to |dependencies|
      invariant OnePerPair(s, before + WithPaths(advisory, MatchingPaths(env, advisory, dependencies[..j])), m)
    {
      var d := dependencies[j];
      assert dependencies[..j + 1][..j] == dependencies[..j];
      if !Matches(env, advisory, d) {
        continue;
      }
      OneMorePair(s, advisory, MatchingPaths(env, advisory, dependencies[..j]), d.path, before, m);
      var record := AssessRecord(env, advisory, feed);
      PriorityClasses(record);
      m := AddMatch(s, m, record, d.path);
    }
    assert dependencies[..|dependencies|] == dependencies;
  }

  method AssessRecord(env: Environment, advisory: Record, feed: FeedState) returns (record: Record)
    requires ValidEnvironment(env)
    ensures record == ServiceOf(env, feed).assess(advisory)
  {
    record := advisory.(freshness := EffectiveState(advisory, feed));
    if env.enriching {
      record := Enrich(record, env.kev(record), env.epss(record));
    }
  }

  /** The rest of the loop body; no candidate is dropped, since no decision says MONITOR. */
  method AddMatch(s: Service, m0: Matched, record: Record, path: string) returns (m: Matched)
    requires s.judge(record).priority != MONITOR
    ensures m == WithMatch(s, m0, record, path)
  {
    var decision := s.judge(record);
    var candidates := m0.candidates;
    if decision.priority != MONITOR {
      candidates := candidates + [s.claim(record, path)];
    }
    m := Matched(m0.records + [record], m0.decisions + [decision], m0.observations + [s.observe(record, path)],
                 candidates);
  }

  /** What the feeds leave of the record's KEV status. */
  predicate KnownExploited(env: Environment, record: Record) {
    if env.enriching && env.kev(record).Answered? then env.kev(record).answer else record.kevStatus == Some(true)
  }

  /** The states of the feeds consulted for a record. */
  function Consulted(env: Environment, record: Record): seq<FeedState> {
    if env.enriching then env.kev(record).States() + env.epss(record).States() else []
  }

  /** End to end: exactly when a matching pair is urgent; the advisory feed must be fresh and documented as well. */
  lemma UrgentEndToEnd(env: Environment, advisory: Record, feed: FeedState)
    requires ValidEnvironment(env)
    ensures
      var record := advisory.(freshness := FRESH);
      Prioritize(Assessed(env, advisory, feed)).priority == URGENT <==>
      && feed == FRESH && (forall p :: p in advisory.provenance ==> Documented(p))
      && advisory.unknowns == [] && advisory.reachability == REACHABLE && advisory.exposure == ESTABLISHED
      && (forall s :: s in Consulted(env, record) ==> s == FRESH)
      && KnownExploited(env, record)
  {
    var record := advisory.(freshness := EffectiveState(advisory, feed));
    if env.enriching {
      UrgentNeedsFreshFeeds(record, env.kev(record), env.epss(record));
      if record.freshness == FRESH {
        assert record == advisory.(freshness := FRESH);
        assert Consulted(env, record) == env.kev(record).States() + env.epss(record).States();
      }
    } else {
      UrgentIff(record);
    }
  }
}
