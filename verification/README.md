# SecScan platform: a verified model of its deterministic core

This Dafny project models the decision-making core of the SecScan platform and
proves, for all inputs and all runs, the properties the rest of the platform
relies on. `dafny verify dfyconfig.toml` checks all of it.

The model follows the program file by file:

- **Hunt evidence** (`SignalGraph`, `HuntEvidence`, `HuntAcceptance`,
  `HuntEngine`). A hunt names
  detection signals, which depend on other signals and on events. The validator
  loads the closure of that graph with a worklist, walks it with a
  path-sensitive depth-first search, and checks events and references against a
  time window. `SignalGraph` defines reachability, cycles and events by paths;
  the loop and the search are proved against it. `HuntEngine` shows
  what the detection engine's own second walk adds to that.
- **Live projection** (`Sequences`, `Sorting`, `LiveProjection`, `LiveHistory`).
  The client merges a repeated and reordered update stream into a sorted list.
  `LiveHistory` relates every reachable projection to the log of the updates it
  accepted.
- **Scanner results** (`Json`, `ScannerResults`, `ScannerNormalization`,
  `ScannerCounting`, `ScannerLaws`). Redaction, canonicalisation, counting and classification
  of what a sandboxed scanner printed, as transformations of JSON trees.
- **Event metadata** (`EventMetadata`). The bounded recursive visitor.
- **Cursor pages** (`Decimal`, `Base64Url`, `Paging`). Cursors are printed
  decimals in base64url (section 5 of RFC 4648) without padding.
- **Assessment** (`Ordering`, `Identifiers`, `SnapshotDigest`, `Adjudication`,
  `Assessment`, `AssessmentProperties`, `AssessmentReceipts`, `Vulnerability`,
  `VulnerabilityLaws`, `VulnerabilityFindings`).
  Claim candidates of several services are grouped, adjudicated and attributed
  to service runs; advisories are enriched from feeds, prioritised and matched.
- **Workflow reconciliation** (`Reconciliation`) and the **capability registry**
  (`CapabilityRegistry`): two objects that update their fields.
- **Operator snapshot** (`ExperienceValidator`, `ValidatorLaws`,
  `ExperienceSnapshot`, `SnapshotLaws`). The Python producer and the TypeScript
  validator of the same value.

Where the source works step by step, a method with a loop computes what a
specification function says, and the laws are lemmas about that function. What
the specification functions themselves mean is spelled out by lemmas on the
plain fields of the inputs: acceptance and refusals (`HuntAcceptance`), counts
and classes (`ScannerLaws`), verdicts and quoted fields (`Adjudication`,
`AssessmentReceipts`), decisions and matches (`VulnerabilityLaws`,
`Vulnerability`), and the views and their check (`SnapshotLaws`, `ValidatorLaws`).

Results a reader may not expect:

- Acceptance of a hunt never depends on the order of its signals, but the error
  message can: two faulty signals may be refused as a cycle or as stale evidence,
  whichever comes first. `HuntEvidence.OrderIsIrrelevantIff` says exactly when,
  and `HuntEvidence.OrderDecidesError` is an example.
- The reducer does not check that a payload carries the id of its object. Ids
  stay unique along a run exactly when every accepted update adds nothing,
  carries that id, or brings an id that is not in use
  (`LiveHistory.UniqueAlongIff`), and the items are the last accepted update per
  object exactly when every accepted update names what it leaves
  (`LiveHistory.MirrorsAlongIff`). On the runs of
  `LiveHistory.ForeignPayloadCollides` two items share an id.
- The reducer looks update ids up in a plain object, so an update whose id is a
  name that every object inherits, such as `constructor`, is dropped as a
  duplicate (`LiveProjection.InheritedNameIsDropped`).
- A scanner result may hold a text where a list is counted; its length is then
  counted, and redaction can change the count (`ScannerCounting.CountStableIff`)
  and even the class of the run. `ScannerCounting.OutcomeStableIff` says exactly
  when, and `ScannerCounting.RedactionDecides` gives results for which it does.
- Reconciliation is documented as idempotent. The row is, the audit trail is
  not: the call after the one that settles the row may add a second audit row.
  `Reconciliation.IdempotentIff` says exactly when one call is enough, and
  `Reconciliation.SecondCallAudits` is a case where it is not.
- Two different file maps have different hashed texts when both are free of NULs
  (`SnapshotDigest.DigestInputInjective`). One map without NULs is not enough:
  among all file maps, a text determines its map exactly when there is at most
  one file and it has no NUL (`SnapshotDigest.DeterminesIff`).
- No slug identifies the text it was made from (`Identifiers.EverySlugIsShared`,
  with the exact condition in `Identifiers.SameSlugIff`).
- One registered version such as `1.²` makes every unversioned lookup of its
  capability, and every listing, raise (`CapabilityRegistry.SuperscriptIsBad`).

## Model

| member | source | states |
|---|---|---|
| `HuntEvidence.LoadClosure` | analysis/src/secscan/platform/application/live_incident_control_plane.py:147-165 | The worklist loop ends for every finite repository, whatever the first pending set overlaps; it fails only on an id that is needed and unknown, and otherwise what it loaded lies inside every closed set of needed ids and leaves nothing pending |
| `HuntEvidence.LoadingProgress` | analysis/src/secscan/platform/application/live_incident_control_plane.py:151-165 | The lexicographic measure of the loop: a round either loads an id that was not loaded, or it is the last one |
| `HuntEvidence.LoadSources` | analysis/src/secscan/platform/application/live_incident_control_plane.py:147-165 | Loading succeeds if and only if every id reachable from the requested signals is known; the result is then closed under sources and holds exactly the reachable signals, so the search never meets an unknown source |
| `HuntEvidence.SignalEventIds` | analysis/src/secscan/platform/application/live_incident_control_plane.py:167-176 | The path-sensitive search terminates on every graph, succeeds if and only if no cycle and no unknown id can be reached, and then returns exactly the union of the events of all reachable signals; each failure names a fault that exists |
| `SignalGraph.CycleUnfold` | analysis/src/secscan/platform/application/live_incident_control_plane.py:167-175 | A cycle is reachable from a known signal if and only if one is reachable from one of its sources, with reachability defined by path length and not by the search |
| `SignalGraph.ClosedPartAgrees` | analysis/src/secscan/platform/application/live_incident_control_plane.py:147-176 | A part of the repository that is closed under sources has the same reachability, cycles and events as the repository, so validating the loaded part is validating the repository |
| `HuntEvidence.CheckSignal` | analysis/src/secscan/platform/application/live_incident_control_plane.py:178-187 | One round of the loop over requested signals refuses with exactly the fault that signal has in the repository's graph: a reachable cycle first, then stale events or references |
| `HuntEvidence.ValidateHuntEvidence` | analysis/src/secscan/platform/application/live_incident_control_plane.py:134-190 | The whole validation returns the verdict defined on the repository's graph without any search, with its error precedence; in particular the references added after each signal never enlarge the allowed set |
| `HuntEvidence.AcceptedIff` | analysis/src/secscan/platform/application/live_incident_control_plane.py:141-190 | A hunt is accepted if and only if all reachable ids are known, every requested signal reaches no cycle and only events in the window and cites only references of such events, and the required references are such references too |
| `HuntAcceptance.HuntAcceptedIff` | analysis/src/secscan/platform/application/live_incident_control_plane.py:141-190 | The same, spelled out on times and references: accepted if and only if nothing reachable is unknown, no requested signal reaches a cycle, the last event with every reachable event id occurred between the window's ends, and every reference cited or required is the evidence of some event between them |
| `HuntAcceptance.RefusedBecause` | analysis/src/secscan/platform/application/live_incident_control_plane.py:147-190 | The cause of every refusal, in its precedence: an unknown dependency; then the first unusable requested signal, by its cycle if it reaches one and as stale otherwise; then a required reference that no event of the window has |
| `HuntAcceptance.OutsideReferenceIsStale` | analysis/src/secscan/platform/application/live_incident_control_plane.py:143-187 | A hunt whose signal cites the evidence of an event after the window is refused as stale |
| `HuntEvidence.VerdictIgnoresOrder` | analysis/src/secscan/platform/application/live_incident_control_plane.py:178-190 | Reordering or repeating the requested signals never changes acceptance; the error can differ only between the cycle error and the stale error, and only if all needed ids are known and two requested signals have these two different faults |
| `HuntEvidence.OrderIsIrrelevantIff` | analysis/src/secscan/platform/application/live_incident_control_plane.py:147-190 | The exact condition: every reordering of the requested signals gives the same outcome, error included, if and only if some needed id is unknown or no two requested signals are refused for the two different reasons; the same holds if signals may also be repeated |
| `HuntEvidence.OrderDecidesError` | analysis/src/secscan/platform/application/live_incident_control_plane.py:178-187 | A repository of two signals, a self-dependent one and one with an unknown event, whose two orders give the two different errors |
| `HuntEngine.WalkIsSound` | analysis/src/secscan/platform/detection_response/engine.py:613-626 | The engine's own recursive test of a signal, from any path that leads to it, holds if and only if no cycle or unknown id is reachable, all reachable events are available, and every reachable signal has inputs |
| `HuntEngine.MatchedIff` | analysis/src/secscan/platform/detection_response/engine.py:608-626 | The walk over the events of the window, spelled out: it succeeds if and only if no cycle is reachable, every reachable signal is known and has inputs, and every reachable event id belongs to an event between the window's ends |
| `HuntEngine.AdmittedHuntIsMatched` | analysis/src/secscan/platform/detection_response/engine.py:608-632 | For a hunt that the validator accepts, a requested signal passes the engine's second walk if and only if every signal it depends on has source events or source signals; nothing else can differ |
| `LiveProjection.OfferedIsAbsorbed` | packages/secscan-experience-contracts/src/index.ts:346-375 | From any projection, an envelope that was offered once, whatever the outcome, changes nothing when it is offered again after any further updates and connection changes |
| `LiveProjection.InheritedNameIsDropped` | packages/secscan-experience-contracts/src/index.ts:354 | An in-scope update whose id is one of the twelve names that every object inherits is reported as a duplicate by every projection, the empty one included |
| `LiveProjection.ScopeRefusedIff` | packages/secscan-experience-contracts/src/index.ts:351-353 | The scope error is raised if and only if the tenants differ, or a case is expected and the envelope's differs |
| `LiveProjection.OutcomeTable` | packages/secscan-experience-contracts/src/index.ts:354-359 | In any projection, reachable or not, the three outcomes of an update of the expected scope, each if and only if; only an accepted one changes the projection |
| `LiveProjection.RedeliveryIsHarmless` | packages/secscan-experience-contracts/src/index.ts:339-375 | At-least-once delivery equals exactly-once delivery: any run gives the projection of the run with every repeated delivery removed |
| `LiveProjection.FirstDeliveriesFacts` | packages/secscan-experience-contracts/src/index.ts:354 | The run without repeated deliveries keeps every step and delivers no update twice |
| `LiveProjection.ReplayIsHarmless` | packages/secscan-experience-contracts/src/index.ts:346-375 | Replaying any updates already delivered, in any order and number, as after a reconnect, leaves the projection as it was |
| `LiveHistory.RunIsRunOfAccepted` | packages/secscan-experience-contracts/src/index.ts:339-375 | The projection is determined by the accepted updates alone: refused, duplicate and out-of-scope updates leave no trace, and the stream never touches the connection state |
| `LiveHistory.RunKeepsBookkeeping` | packages/secscan-experience-contracts/src/index.ts:335-375 | Over every run the last sequence, seen ids, resume cursor and per-object stamps are exactly those of the log of accepted updates |
| `LiveHistory.AcceptedExactlyWhenOrderly` | packages/secscan-experience-contracts/src/index.ts:351-359 | The guards accept an update if and only if the accepted log extended by it is still orderly: in scope, positive strictly increasing sequences, distinct update ids, versions that never decrease per object |
| `LiveHistory.AcceptedLogIsOrderly` | packages/secscan-experience-contracts/src/index.ts:346-375 | Over every run from an empty projection the accepted log is orderly: sequences strictly increase and no object's version decreases |
| `LiveHistory.AcceptedLogIsInScope` | packages/secscan-experience-contracts/src/index.ts:351-353 | Over every run each accepted update is one that was offered, of the expected tenant, and of the expected case where one is set |
| `LiveHistory.ShownItemsAreInScope` | packages/secscan-experience-contracts/src/index.ts:351-375 | Over every run no item of another tenant or case is shown: each was brought by an accepted update of the expected scope |
| `LiveHistory.ConnectionIsLastNoted` | packages/secscan-experience-contracts/src/index.ts:335-344 | Over every run the connection state is the one noted last, and connected at first |
| `LiveHistory.EverythingAcceptedIff` | packages/secscan-experience-contracts/src/index.ts:346-375 | A run accepts every update offered to it if and only if the offered updates are an orderly log |
| `LiveHistory.VersionTieNeverFires` | packages/secscan-experience-contracts/src/index.ts:355-359 | In every reachable projection no object's sequence exceeds the last sequence, and dropping the guard's disjunct on equal versions gives the same reducer |
| `LiveHistory.MergeFacts` | packages/secscan-experience-contracts/src/index.ts:361-363 | Filtering, pushing and sorting yield a sorted list with exactly the other objects' items, each as often as before, and the new payload unless the update removes |
| `LiveHistory.MirrorsAlongIff` | packages/secscan-experience-contracts/src/index.ts:335-375 | Refinement with its exact condition: over every run from an empty projection, the items are at every prefix sorted, with unique ids, and exactly the payloads of the last accepted update per object that is not a removal, if and only if every accepted update that leaves a payload names its object |
| `LiveHistory.ItemsAreLastAccepted` | packages/secscan-experience-contracts/src/index.ts:335-375 | In particular the items are that map at the end of every run whose accepted updates name what they leave; refused and removing updates are unrestricted |
| `LiveHistory.UniqueAfterAcceptIff` | packages/secscan-experience-contracts/src/index.ts:361-363 | In any projection with unique ids, an accepted update keeps them unique if and only if it adds nothing, its payload is the object it names, or its payload's id is unused |
| `LiveHistory.UniqueAlongIff` | packages/secscan-experience-contracts/src/index.ts:335-375 | Over every run from an empty projection: ids are unique at every prefix if and only if every accepted update meets that condition where it is applied |
| `LiveHistory.ForeignPayloadCollides` | packages/secscan-experience-contracts/src/index.ts:361-363 | For any two acceptable updates of different objects from an empty projection, of which the second carries a payload with the id of the first one's payload, two items share an id afterwards |
| `LiveHistory.UnnamedPayloadCollides` | packages/secscan-experience-contracts/src/index.ts:361-363 | A concrete pair of such updates |
| `Sorting.SortFacts` | packages/secscan-experience-contracts/src/index.ts:363 | The sort, under any total preorder of ids, returns a sorted permutation |
| `Sorting.SortStable` | packages/secscan-experience-contracts/src/index.ts:363 | The sort is stable: elements that the order does not tell apart keep their order |
| `Ordering.LessIff` | analysis/src/secscan/platform/application/security_services.py:1585 | Texts are ordered at their first differing code point, and a proper prefix comes first |
| `ScannerNormalization.NormalizeCommutesWithRedaction` | analysis/src/secscan/platform/capabilities/scanner_adapters.py:217-277 | For every string redactor, scanner and JSON tree: the redacted tree is accepted if and only if the original is, and normalising then redacting equals redacting then normalising |
| `ScannerNormalization.RedactionCommutes` | analysis/src/secscan/platform/capabilities/scanner_adapters.py:116-125 | The same for the redaction that is applied, with the mount point hidden after any redactor of text: normalising the redacted tree gives the redacted normal form, or refuses both |
| `ScannerNormalization.NormalizeOnlyFills` | analysis/src/secscan/platform/capabilities/scanner_adapters.py:217-277 | An accepted result differs from its input only by nulls that became empty lists and empty lists added to objects, at every depth |
| `ScannerNormalization.NormalizeIdempotent` | analysis/src/secscan/platform/capabilities/scanner_adapters.py:217-277 | Normalising a normalised result accepts it and changes nothing |
| `ScannerNormalization.NormalizeAcceptsIff` | analysis/src/secscan/platform/capabilities/scanner_adapters.py:217-277 | A result is accepted if and only if it has the envelope its scanner promises, stated per scanner without the rewriting steps |
| `ScannerLaws.NormalizeGivesForm` | analysis/src/secscan/platform/capabilities/scanner_adapters.py:217-277 | Every accepted result has exactly its normal form, spelled out by key: which lists are filled, element by element, and that everything else keeps its value |
| `ScannerLaws.CleanReportIff` | analysis/src/secscan/platform/capabilities/scanner_adapters.py:228-237 | A Trivy object without results is accepted, and gets an empty list, if and only if it has one of six named fields |
| `ScannerLaws.ReplaceFirstMount` | analysis/src/secscan/platform/capabilities/scanner_adapters.py:124 | Up to the first mount point a text stays; that is replaced, and the rest is treated alike |
| `ScannerLaws.NoMountNoChange` | analysis/src/secscan/platform/capabilities/scanner_adapters.py:124 | A text without the mount point is left alone |
| `ScannerNormalization.FillListsClosedForm` | analysis/src/secscan/platform/capabilities/scanner_adapters.py:241-246 | The key-by-key loop over a Trivy item succeeds if and only if each listed key is absent, null or a list, and equals one simultaneous update of the absent and null ones |
| `ScannerNormalization.NormalizeTrivyItem` | analysis/src/secscan/platform/capabilities/scanner_adapters.py:240-246 | The loop over the four section keys of one Trivy item computes the item the laws above are about, or refuses it |
| `ScannerNormalization.NormalizeTrivyItems` | analysis/src/secscan/platform/capabilities/scanner_adapters.py:234-246 | The loop over Trivy items rewrites all of them or refuses the result |
| `ScannerNormalization.NormalizeOsvPackages` | analysis/src/secscan/platform/capabilities/scanner_adapters.py:261-267 | The inner OSV loop rewrites every package or refuses the result |
| `ScannerNormalization.NormalizeOsvItem` | analysis/src/secscan/platform/capabilities/scanner_adapters.py:256-267 | One OSV item: null packages become empty, packages are rewritten, anything else is refused |
| `ScannerNormalization.NormalizeOsvItems` | analysis/src/secscan/platform/capabilities/scanner_adapters.py:254-267 | The outer OSV loop rewrites every item or refuses the result |
| `ScannerNormalization.NormalizeScannerResult` | analysis/src/secscan/platform/capabilities/scanner_adapters.py:217-277 | The whole imperative canonicalisation computes, per scanner, the function about which commutation, idempotence and the acceptance condition are proved |
| `ScannerCounting.CountUnderRedaction` | analysis/src/secscan/platform/capabilities/scanner_adapters.py:185-214 | For every tree and redactor, redaction never changes whether counting raises, and changes the count only where the length of a text is counted in place of a list |
| `ScannerCounting.CountStableIff` | analysis/src/secscan/platform/capabilities/scanner_adapters.py:185-214 | The exact condition: the count is the same under every redactor if and only if it raises or no text stands where a list is counted |
| `ScannerCounting.AcceptedIsCountable` | analysis/src/secscan/platform/capabilities/scanner_adapters.py:185-277 | On accepted Gitleaks and OSV results, and on accepted Trivy and Semgrep results without package groups under a lower-case `results`, counting is total and counts no text |
| `ScannerLaws.SemgrepAndGitleaksCount` | analysis/src/secscan/platform/capabilities/scanner_adapters.py:185-214 | A Gitleaks result counts its elements, and an accepted Semgrep result without packages its results |
| `ScannerLaws.TrivyCount` | analysis/src/secscan/platform/capabilities/scanner_adapters.py:201-213 | An accepted Trivy result without lower-case lists counts all elements of the four section lists of all its items |
| `ScannerLaws.OsvCount` | analysis/src/secscan/platform/capabilities/scanner_adapters.py:190-200 | An accepted OSV result counts the vulnerabilities of all packages of all groups, or its results if no result has packages |
| `ScannerLaws.PlainCount` | analysis/src/secscan/platform/capabilities/scanner_adapters.py:188-214 | An object without package groups counts its first list of `results` and `findings`, and nothing if it has no list |
| `ScannerLaws.LengthUnder` | analysis/src/secscan/platform/capabilities/scanner_adapters.py:194 | What a counted key holds is measured by its length; nothing, null, false and zero measure nothing, and true and other numbers raise |
| `ScannerLaws.NothingParsed` | analysis/src/secscan/platform/capabilities/scanner_adapters.py:136-151 | What is not JSON, a JSON null, and the silence of a listed scanner are malformed unless the run timed out |
| `ScannerLaws.ClassTable` | analysis/src/secscan/platform/capabilities/scanner_adapters.py:358-394 | The class of a run whose output was parsed, each if and only if: a timeout, a refused result, a nonzero exit with findings, a zero exit, a nonzero exit without findings, or an escaping error where the count raises |
| `ScannerLaws.LeaksAreFindings` | analysis/src/secscan/platform/capabilities/scanner_adapters.py:187-388 | Any nonempty list of leaks with a nonzero exit is classified as findings under every redactor |
| `ScannerCounting.EmptiedIsLeast` | analysis/src/secscan/platform/capabilities/scanner_adapters.py:185-214 | For every tree that can be counted and every redactor, the count after redaction is at least the count with every text emptied |
| `ScannerCounting.OutcomeIgnoresRedaction` | analysis/src/secscan/platform/capabilities/scanner_adapters.py:363-394 | The outcome class of a run is the same with and without a redactor whenever something other than the length of a text decides it |
| `ScannerCounting.OutcomeStableIff` | analysis/src/secscan/platform/capabilities/scanner_adapters.py:363-394 | The exact condition, for every parsed value: the class is the same under every redactor if and only if the run timed out, exited with zero, was refused, cannot be counted, counts no text, or has a positive count even with every text emptied |
| `ScannerCounting.RedactionDecides` | analysis/src/secscan/platform/capabilities/scanner_adapters.py:186-199 | Accepted Semgrep results, one for every text, whose class is a failure under one redactor and findings under another, for every nonzero exit |
| `ScannerCounting.ValidatedOutcomeIgnoresRedaction` | analysis/src/secscan/platform/capabilities/scanner_adapters.py:358-394 | For accepted results with validated packages the classification never raises and is independent of redaction without reservation |
| `EventMetadata.VisitIff` | analysis/src/secscan/platform/application/live_ingest.py:100-124 | The recursive visitor accepts a tree if and only if every node, addressed by its path, is at depth at most 5 and is a container of at most 128 entries with allowed keys, or a text of at most 1024 bytes, or another scalar |
| `EventMetadata.RawPayloadRefused` | analysis/src/secscan/platform/application/live_ingest.py:110-111 | An object with a key that folds to a raw payload's is refused at every depth |
| `EventMetadata.Utf8LengthIs` | analysis/src/secscan/platform/application/live_ingest.py:108 | The counted length of a text is that of its UTF-8 encoding, defined byte by byte |
| `EventMetadata.NodesBound` | analysis/src/secscan/platform/application/live_ingest.py:101-124 | A value accepted at any depth has at most as many nodes as the complete 128-ary tree of the remaining height |
| `EventMetadata.AcceptedSize` | analysis/src/secscan/platform/application/live_ingest.py:22-26 | Accepted metadata has at most 1 + 128 + 128^2 + 128^3 + 128^4 + 128^5 nodes |
| `EventMetadata.LargestAccepted` | analysis/src/secscan/platform/application/live_ingest.py:22-26 | The bound is reached: the full tree of depth 5 is accepted and has exactly that many nodes |
| `Decimal.ParsePrinted` | analysis/src/secscan/platform/read_models.py:694-702 | Python's integer parser, with its stripping, sign and underscores, reads back what decimal printing wrote, for every natural number |
| `Decimal.ParseSigned` | analysis/src/secscan/platform/read_models.py:702 | A sign before the digits of a printed number is read as such |
| `Decimal.ParseBlanks` | analysis/src/secscan/platform/read_models.py:702 | The six blanks of ASCII before or after a text do not change what it is read as |
| `Decimal.ForeignCharacter` | analysis/src/secscan/platform/read_models.py:702 | A text with anything but digits, underscores, signs and blanks is never a number |
| `Decimal.Misplaced` | analysis/src/secscan/platform/read_models.py:702 | No digits, a sign alone, and an underscore at an end or beside another are refused |
| `Base64Url.DecodeEncoded` | analysis/src/secscan/platform/read_models.py:694-702 | Base64url decoding (section 5 of RFC 4648), as the lenient decoder of Python computes it, undoes encoding on every byte string |
| `Base64Url.RepadStripped` | analysis/src/secscan/platform/read_models.py:694-701 | Padding stripped from any encoding (section 3.2 of RFC 4648) is restored by the length modulo four alone |
| `Base64Url.AlphabetRuns` | analysis/src/secscan/platform/read_models.py:694 | The URL-safe alphabet (section 5 of RFC 4648), by its runs, and the two standard characters that are read alike |
| `Base64Url.ForeignIsSkipped` | analysis/src/secscan/platform/read_models.py:701 | A character outside both alphabets is skipped by the decoder, wherever it stands and in every state |
| `Base64Url.PartialIsRefused` | analysis/src/secscan/platform/read_models.py:701 | Data characters that stop in the middle of a group of four are refused |
| `Base64Url.PaddingEnds` | analysis/src/secscan/platform/read_models.py:701 | Whatever follows complete padding is not read |
| `Paging.CursorRoundTrip` | analysis/src/secscan/platform/read_models.py:693-708 | Decoding an encoded cursor returns the offset, for every natural number, and cursors carry no padding |
| `Paging.CursorOfText` | analysis/src/secscan/platform/read_models.py:697-708 | No cursor means the start; the cursor of any ASCII text is read as the number that text is, and refused if it is none or negative |
| `Paging.CursorRefused` | analysis/src/secscan/platform/read_models.py:697-708 | A cursor with other than ASCII characters, or of bytes that are not ASCII, is invalid |
| `Paging.NegativeCursor` | analysis/src/secscan/platform/read_models.py:706-707 | The cursor of every negative number is invalid |
| `Paging.PageShows` | analysis/src/secscan/platform/read_models.py:684-690 | A page has exactly the items from the cursor's offset on, at most as many as the limit, and leads on to the next offset if and only if there are more |
| `Paging.PageRefused` | analysis/src/secscan/platform/read_models.py:684-708 | The limit error comes first, exactly outside 1 to 100, and then exactly the invalid cursors are refused |
| `Paging.WalkSteps` | analysis/src/secscan/platform/read_models.py:684-708 | Following the returned cursors is the same as stepping the offset by the limit, from any valid cursor |
| `Paging.WalkCoversOnce` | analysis/src/secscan/platform/read_models.py:684-708 | For every list and every limit from 1 to 100 the walk from no cursor ends after max(1, ceil(n / limit)) pages, all full but the last, whose concatenation is the list |
| `Paging.WalkFromCursor` | analysis/src/secscan/platform/read_models.py:684-708 | From any cursor that decodes, the pages concatenate to exactly what lies behind its offset |
| `Identifiers.SlugIsSafe` | analysis/src/secscan/platform/application/security_services.py:167-173 | Every slug has 1 to 56 characters, all safe, and neither starts nor ends with a dash, given a hexadecimal digest |
| `Identifiers.SlugIs` | analysis/src/secscan/platform/application/security_services.py:167-173 | The slug is the normal form if that has 1 to 56 characters, `root` if it is empty, and else 45 characters, a dash and 10 digits of the digest of the whole text |
| `Identifiers.RunBecomesDash` | analysis/src/secscan/platform/application/security_services.py:168 | A maximal run of unsafe characters, wherever it stands, becomes exactly one dash |
| `Identifiers.NormIsTrimmed` | analysis/src/secscan/platform/application/security_services.py:168 | Normalising takes away all outer dashes of the collapsed text, and nothing else |
| `Identifiers.AllowedCodes` | analysis/src/secscan/platform/application/security_services.py:168 | The safe characters by their codes |
| `Identifiers.FixedExactlyOnSlugs` | analysis/src/secscan/platform/application/security_services.py:167-173 | The texts the function leaves alone are exactly the safe slugs; hence it is idempotent |
| `Identifiers.SameSlugIff` | analysis/src/secscan/platform/application/security_services.py:167-173 | Two texts share a slug if and only if they normalise alike, with nothing counting as `root`, or both are long and agree in 45 characters and in the digest, or one normalises to the abbreviation of the other |
| `Identifiers.EverySlugIsShared` | analysis/src/secscan/platform/application/security_services.py:167-173 | For every text there is a different text with the same slug, so a slug never identifies its text |
| `Identifiers.SlugsCollide` | analysis/src/secscan/platform/application/security_services.py:167-173 | Two texts that differ only in punctuation and share their slug |
| `SnapshotDigest.DigestIgnoresOrder` | analysis/src/secscan/platform/application/security_services.py:110-112 | The text that is hashed depends on the file map and not on its iteration order |
| `SnapshotDigest.OneFileText` | analysis/src/secscan/platform/application/security_services.py:110-112 | The hashed text of one file is its path and its content, each followed by the character of code 0 |
| `SnapshotDigest.ReadBackIff` | analysis/src/secscan/platform/application/security_services.py:110-112 | Reading path and content up to each NUL recovers the file map from the hashed text if and only if no path or content contains a NUL |
| `SnapshotDigest.DigestInputInjective` | analysis/src/secscan/platform/application/security_services.py:110-112 | For two file maps that are both free of NULs, the hashed texts are equal if and only if the file maps are |
| `SnapshotDigest.DeterminesIff` | analysis/src/secscan/platform/application/security_services.py:110-112 | The exact condition without that restriction: among all file maps, the hashed text determines the map if and only if it has at most one file, and that file has no NUL in path or content |
| `SnapshotDigest.NulsCollide` | analysis/src/secscan/platform/application/security_services.py:110-112 | Two different file maps, one of them free of NULs, that give the same hashed text |
| `Adjudication.TitleFits` | analysis/src/secscan/platform/adjudication/__init__.py:108-112 | A title has at most 255 characters; a short statement is its own title, a longer one is cut exactly at the last space of its first 252 characters, or at 252 if there is none |
| `Adjudication.FindingLaw` | analysis/src/secscan/platform/adjudication/__init__.py:34-122 | The call fails if and only if the engagement differs or a grounded claim has no severity; a finding exists if and only if there is evidence and no contradiction; rejection means contradiction without evidence; a finding quotes its adjudication and its confidence is known |
| `Adjudication.VerdictLaw` | analysis/src/secscan/platform/adjudication/__init__.py:55-75 | The verdict table, each verdict if and only if, with the confidence of each: confirmed for evidence, no contradiction, and high confidence of the claim and of the tool where one spoke; supported otherwise when grounded |
| `Adjudication.QuoteLaw` | analysis/src/secscan/platform/adjudication/__init__.py:50-122 | What an adjudication and its finding quote from the call, and the engagement error |
| `Assessment.GroupResult` | analysis/src/secscan/platform/application/security_services.py:1577-1578 | The inner grouping loop keeps the dictionary equal to the groups of all candidates seen so far |
| `Assessment.GroupCandidates` | analysis/src/secscan/platform/application/security_services.py:1575-1578 | The grouping loops file every candidate of every result under its key, in the order of arrival, and nothing else |
| `Assessment.CollectEvidence` | analysis/src/secscan/platform/application/security_services.py:1590-1633 | The evidence loop emits one object per distinct cited reference, in ascending order, each with its sanitised payload, the size and digest of that payload, and the storage reference made from the digest |
| `Assessment.AdjudicateGroup` | analysis/src/secscan/platform/application/security_services.py:1585-1680 | One round leaves all earlier receipts as they were and adds one observation, one claim about it and one adjudication of that claim, one piece of evidence per cited reference in ascending order, and a finding exactly when the group cites something and contradicts nothing |
| `Assessment.AdjudicateWithReceipts` | analysis/src/secscan/platform/application/security_services.py:1568-1680 | The whole deduplication computes the receipts of the sorted keys, about which the laws below are proved |
| `AssessmentProperties.OneChainPerKey` | analysis/src/secscan/platform/application/security_services.py:1585-1663 | Exactly one observation, claim and adjudication per distinct key, in strictly ascending key order; each claim's evidence is the ascending set of references its candidates cite, shared by its observation and adjudication; nothing is rejected |
| `AssessmentReceipts.ReceiptsOfKey` | analysis/src/secscan/platform/application/security_services.py:1585-1663 | Per key, observation, claim and adjudication quote the earliest candidate; notes and contradicting references are merged over all; the verdict is confirmed exactly for an uncontradicted key whose earliest candidate has high confidence, supported for less, and inconclusive when contradicted |
| `AssessmentProperties.FindingIffUncontradicted` | analysis/src/secscan/platform/application/security_services.py:1663-1679 | A key has a finding if and only if some candidate carries it and none of them cites contradicting evidence; findings come in strictly ascending key order, so at most one per key |
| `AssessmentProperties.FindingQuotesEarliest` | analysis/src/secscan/platform/application/security_services.py:1586-1679 | Unmerged fields of a finding are quoted from the earliest candidate of its key among all results |
| `AssessmentReceipts.FindingContents` | analysis/src/secscan/platform/application/security_services.py:1652-1679 | Every finding of an assessment quotes the earliest candidate with its key, and its services, preconditions, references and evidence are exactly those of all candidates with the key, ascending |
| `AssessmentProperties.EvidenceConserved` | analysis/src/secscan/platform/application/security_services.py:1585-1633 | The ids of the produced evidence are exactly the references the candidates cite: none is lost or invented |
| `AssessmentProperties.EvidenceIsSealed` | analysis/src/secscan/platform/application/security_services.py:1590-1633 | Every produced piece of evidence encodes a payload all of whose texts are scrubbed, is stored under the digest of that payload, belongs to a key under which it is cited, and lists exactly the scrubbed references of that key's candidates, ascending |
| `AssessmentReceipts.EvidenceContents` | analysis/src/secscan/platform/application/security_services.py:1593-1633 | Every piece of evidence and its payload quote, scrubbed, the earliest candidate of a key that cites it |
| `AssessmentProperties.AttributeRuns` | analysis/src/secscan/platform/application/security_services.py:1419-1442 | The attribution loops credit each run with the references of its result and the claims of its service, in order |
| `AssessmentProperties.ClaimInExactlyOneRun` | analysis/src/secscan/platform/application/security_services.py:1419-1442 | With distinct services that label their own candidates, every claim is credited to exactly one service run |
| `AssessmentProperties.RunsCoverEvidence` | analysis/src/secscan/platform/application/security_services.py:1419-1442 | The union of the runs' evidence ids is exactly the set of produced evidence ids |
| `AssessmentProperties.OrderAndRepetitionAreIrrelevant` | analysis/src/secscan/platform/application/security_services.py:1575-1680 | Two candidate lists with the same members, in any order and number, give the same keys, the same list of evidence ids, the same claim ids and evidence, adjudications that weigh the same evidence and agree on whether the claim is supported, and the same findings but for fields quoted from the first candidate |
| `Vulnerability.Enrich` | analysis/src/secscan/platform/application/security_services.py:906-944 | The enrichment, branch by branch over both feeds, computes the record the freshness laws are about and leaves every other field alone |
| `Vulnerability.FreshnessIsWorst` | analysis/src/secscan/platform/application/security_services.py:906-944 | The resulting freshness is among the record's and the consulted feeds' states and is the worst of them, in the order unavailable, stale, not run, fresh |
| `Vulnerability.EnrichmentNeverImproves` | analysis/src/secscan/platform/application/security_services.py:906-944 | Enrichment never makes a record fresher and only appends gaps and provenance |
| `Vulnerability.UrgentIff` | analysis/src/secscan/platform/application/security_services.py:1027-1071 | A decision is urgent if and only if the record has a KEV match, is reachable, exposed and fresh, and has no stated unknowns |
| `Vulnerability.PriorityClasses` | analysis/src/secscan/platform/application/security_services.py:1027-1071 | No decision says monitor; severity is missing exactly for inconclusive ones; high confidence means nothing is unknown; routine means nothing is unknown, no fix exists and no reachable KEV match |
| `VulnerabilityLaws.PriorityTable` | analysis/src/secscan/platform/application/security_services.py:1027-1071 | The decision table, each class if and only if, with its severity and confidence |
| `VulnerabilityLaws.GapsOf` | analysis/src/secscan/platform/application/security_services.py:1029-1051 | The record's own gaps come first, and a gap is added exactly for a feed that is not fresh, a component not known to be reachable, and exposure not established |
| `VulnerabilityLaws.ReasonsOf` | analysis/src/secscan/platform/application/security_services.py:1032-1050 | A decision gives exactly the reasons that hold of the record |
| `VulnerabilityLaws.FeedStateOf` | analysis/src/secscan/platform/application/security_services.py:974-983 | A fresh feed counts as not run exactly for an advisory with a provenance entry that lacks source, address or digest |
| `VulnerabilityLaws.CandidateSays` | analysis/src/secscan/platform/application/security_services.py:997-1011 | The key, evidence, severity by class, confidence, component and remedy of a claim candidate |
| `VulnerabilityLaws.StatementSays` | analysis/src/secscan/platform/application/security_services.py:1001 | The statement names the component, the class and every reason in order |
| `VulnerabilityLaws.ObservationSays` | analysis/src/secscan/platform/application/security_services.py:987-996 | What the observation of a match says |
| `Vulnerability.UrgentNeedsFreshFeeds` | analysis/src/secscan/platform/application/security_services.py:906-1071 | An enriched record is urgent if and only if the record and every consulted feed were fresh, nothing was unknown, it is reachable and exposed, and the KEV answer, or the record's own status where KEV was not answered, is a match |
| `Vulnerability.Assess` | analysis/src/secscan/platform/application/security_services.py:953-1024 | The matching loops emit exactly one record, decision, observation and claim candidate per pair of an advisory and a dependency of the same normalised package in the installed version, in the order of their positions and each once; the result is complete if and only if the feed is fresh and there are advisories, and names each of these two limitations exactly when it applies |
| `Vulnerability.PairPositions` | analysis/src/secscan/platform/application/security_services.py:968-973 | The positions of the listed pairs are lexicographically increasing and are exactly those whose normalised names and versions agree |
| `Vulnerability.AssessAdvisory` | analysis/src/secscan/platform/application/security_services.py:969-1011 | The inner loop appends the entries of one advisory's matches and keeps everything before them |
| `Vulnerability.UrgentEndToEnd` | analysis/src/secscan/platform/application/security_services.py:953-1071 | A matching pair is urgent if and only if the advisory feed is fresh, every provenance entry is documented, nothing is unknown, the component is reachable and exposed, every consulted feed is fresh, and there is a KEV match |
| `VulnerabilityFindings.OneFindingPerVulnerability` | analysis/src/secscan/platform/application/security_services.py:968-1011 | Deduplicating the matches yields exactly one finding per canonical vulnerability and package, however many dependency paths match and whatever the feeds answered, in strictly ascending order of the keys |
| `Reconciliation.Session.constructor` | analysis/src/secscan/platform/application/state_reconciliation_service.py:48-49 | A session starts from any stored workflow row and audit trail |
| `Reconciliation.Session.Audit` | analysis/src/secscan/platform/application/state_reconciliation_service.py:111-142 | Appends one audit row chained to the newest one, or nothing if its event id is recorded, and leaves the workflow row alone |
| `Reconciliation.Session.Reconcile` | analysis/src/secscan/platform/application/state_reconciliation_service.py:51-109 | One call takes the session from its old state to the state after one step and reports the decision and both statuses; a missing engagement changes nothing |
| `Reconciliation.DecisionTable` | analysis/src/secscan/platform/application/state_reconciliation_service.py:20-92 | The four decisions, each if and only if, on the statuses themselves |
| `Reconciliation.ProbeMeans` | analysis/src/secscan/platform/application/state_reconciliation_service.py:65-71 | Which answers of the probe count, and that none, an error or another word mean unavailable |
| `Reconciliation.RowAfterCall` | analysis/src/secscan/platform/application/state_reconciliation_service.py:73-83 | The row after one call: settled as failed for a failed or partial engagement and as cancelled for a closed, refused or revoked one, and otherwise unchanged |
| `Reconciliation.AuditAfterCall` | analysis/src/secscan/platform/application/state_reconciliation_service.py:92-142 | The audit trail after one call: unchanged if the event is recorded, and otherwise one row longer, with what the call saw and did |
| `Reconciliation.TerminalIsFinal` | analysis/src/secscan/platform/application/state_reconciliation_service.py:73-92 | Over any sequence of calls a workflow row with a terminal status keeps every field |
| `Reconciliation.RowAfterRun` | analysis/src/secscan/platform/application/state_reconciliation_service.py:73-83 | Over any run a set finishing time never changes, and a changed row was unfinished before and is failed or cancelled, with a finishing time, after |
| `Reconciliation.RowChangesOnce` | analysis/src/secscan/platform/application/state_reconciliation_service.py:73-92 | Over any run the workflow row changes at most once |
| `Reconciliation.SettledIff` | analysis/src/secscan/platform/application/state_reconciliation_service.py:73-92 | An unfinished workflow becomes terminal if and only if some call saw a terminal engagement and a probe that did not say running; otherwise its row is untouched |
| `Reconciliation.AuditIsBounded` | analysis/src/secscan/platform/application/state_reconciliation_service.py:111-142 | Over any run the old trail stays, at most four rows are added, their event ids differ from all others, and each is chained to the row before it |
| `Reconciliation.AuditedIff` | analysis/src/secscan/platform/application/state_reconciliation_service.py:92-142 | With distinct digests a decision that was not recorded before is audited if and only if some call of the run took it |
| `Reconciliation.RepeatedCallSettles` | analysis/src/secscan/platform/application/state_reconciliation_service.py:51-109 | From every state, repeating a call settles the row after one round and the audit trail after two |
| `Reconciliation.IdempotentIff` | analysis/src/secscan/platform/application/state_reconciliation_service.py:51-142 | The exact condition, with distinct digests: a repeated call changes nothing if and only if the first one did not settle the row, or it was audited already that the workflow is terminal |
| `Reconciliation.SecondCallAudits` | analysis/src/secscan/platform/application/state_reconciliation_service.py:73-116 | A failed engagement with a running workflow and an empty audit trail, for which the first call writes one audit row and the same call again writes a second |
| `CapabilityRegistry.Registry.constructor` | analysis/src/secscan/platform/capabilities/__init__.py:239 | A registry starts empty |
| `CapabilityRegistry.Registry.Register` | analysis/src/secscan/platform/capabilities/__init__.py:247-251 | Registration is refused if and only if the id and version are present, appends the manifest otherwise, and keeps versions unique |
| `CapabilityRegistry.Registry.RegisterAll` | analysis/src/secscan/platform/capabilities/__init__.py:238-245 | The initialising loop, over the given manifests or over the default ones when none are given, succeeds if and only if no version is repeated, and then holds exactly those manifests in order |
| `CapabilityRegistry.Registry.Get` | analysis/src/secscan/platform/capabilities/__init__.py:253-263 | A versioned lookup fails if and only if that version is not registered; an unversioned one is unknown if and only if no version is registered, raises if and only if some version of the capability has a part that `int` refuses, and otherwise returns the newest, and among equally new ones the last registered |
| `CapabilityRegistry.Registry.Listing` | analysis/src/secscan/platform/capabilities/__init__.py:265-266 | The listing raises if and only if some registered version has a part that `int` refuses; otherwise it is a permutation of the manifests sorted by id and numeric version, in which manifests of equal rank keep their order |
| `CapabilityRegistry.NewestIsLast` | analysis/src/secscan/platform/capabilities/__init__.py:260-263 | The last element of the stable sort of a capability's versions is not older than any other and newer than all registered after it |
| `CapabilityRegistry.VersionsArePreordered` | analysis/src/secscan/platform/capabilities/__init__.py:269-270 | Versions compared by their numeric parts, in any script that the Unicode table counts as digits, form a total preorder, also when parts are missing or not numeric |
| `CapabilityRegistry.SplitDotsIs` | analysis/src/secscan/platform/capabilities/__init__.py:270 | The parts of a version give it back when they are joined with dots |
| `CapabilityRegistry.PartsHaveNoDots` | analysis/src/secscan/platform/capabilities/__init__.py:270 | No part of a version holds a dot |
| `CapabilityRegistry.NumbersDecide` | analysis/src/secscan/platform/capabilities/__init__.py:263-270 | Dotted versions of any numbers are compared at the first difference of those numbers, and a proper prefix is older |
| `CapabilityRegistry.TenIsNewerThanNine` | analysis/src/secscan/platform/capabilities/__init__.py:263-270 | Version 1.10 is newer than 1.9 |
| `CapabilityRegistry.OtherPartsDropped` | analysis/src/secscan/platform/capabilities/__init__.py:270 | A part with anything but digits does not count, wherever it stands |
| `CapabilityRegistry.BadAsciiVersion` | analysis/src/secscan/platform/capabilities/__init__.py:270 | A version in ASCII raises if and only if one part consists of more than 4300 digits |
| `CapabilityRegistry.ListedBeforeIff` | analysis/src/secscan/platform/capabilities/__init__.py:266 | The listing goes by id, at the first differing character, and by version within an id |
| `CapabilityRegistry.SuperscriptIsBad` | analysis/src/secscan/platform/capabilities/__init__.py:269-270 | A version whose part is a superscript digit passes `isdigit` and is refused by `int`, so it makes unversioned lookups and listings raise |
| `ExperienceSnapshot.WordsAreCoherent` | analysis/src/secscan/platform/read_models.py:372-388 | A step towards the acceptance of the snapshot: every alias leads to a status of the producer, no status is an alias, and the producer's statuses are exactly the client's |
| `ExperienceSnapshot.StatusIdempotent` | analysis/src/secscan/platform/read_models.py:372-388 | A step towards the acceptance of the snapshot: the status map always yields a known status, and mapping twice is mapping once |
| `SnapshotLaws.AliasesLead` | analysis/src/secscan/platform/read_models.py:374-385 | Where each of the ten aliases leads |
| `SnapshotLaws.StatusMeans` | analysis/src/secscan/platform/read_models.py:372-388 | An alias is renamed, a status stays, and every other word is unknown |
| `SnapshotLaws.TenantChosen` | analysis/src/secscan/platform/read_models.py:364-367 | The tenant is the one asked for, else the first one named by signals, hunts, incidents and proposals, else a placeholder |
| `ExperienceSnapshot.Collect` | analysis/src/secscan/platform/read_models.py:523-555 | An attention loop appends exactly the entries of the qualifying elements, in order |
| `ExperienceSnapshot.SnapshotIsAccepted` | packages/secscan-experience-contracts/src/index.ts:203-303 | Producer meets consumer: for all read models the validator accepts the composed snapshot if and only if its mode is one the client knows |
| `ValidatorLaws.SnapshotIff` | packages/secscan-experience-contracts/src/index.ts:203-303 | The structural check accepts exactly the records with a known mode and connection state and with arrays whose elements have every listed property of its kind |
| `ExperienceSnapshot.StateIsProvenanceStatus` | analysis/src/secscan/platform/read_models.py:390-397 | A consequence of that step: the state of every case and finding view equals the status of its provenance |
| `ExperienceSnapshot.AttentionIsExact` | analysis/src/secscan/platform/read_models.py:522-555 | Attention lists, in order, exactly one entry for every finding that is neither resolved nor dismissed, every new or changed signal, every confirmed incident and every proposal awaiting approval |
| `SnapshotLaws.FindingEntryAgrees` | analysis/src/secscan/platform/read_models.py:523-531 | An entry of attention for a finding repeats the case, state, references, scope and title of the finding's view |
| `SnapshotLaws.SignalEntryAgrees` | analysis/src/secscan/platform/read_models.py:532-539 | An entry for a signal agrees with the signal's view |
| `SnapshotLaws.IncidentEntryAgrees` | analysis/src/secscan/platform/read_models.py:540-547 | An entry for an incident agrees with the incident's view |
| `SnapshotLaws.ProposalEntryAgrees` | analysis/src/secscan/platform/read_models.py:548-555 | An entry for a proposal agrees with the proposal's view |
| `SnapshotLaws.SnapshotQuotes` | analysis/src/secscan/platform/read_models.py:399-451 | The lists of cases, findings and activity have one view per model, in order, and each says what its model says, property by property |
| `SnapshotLaws.SnapshotQuotesDetection` | analysis/src/secscan/platform/read_models.py:452-520 | So do the lists of signals, hunts, incidents and proposals |
| `SnapshotLaws.SnapshotHeaderSays` | analysis/src/secscan/platform/read_models.py:557-573 | The snapshot's own properties, and its three empty lists |
| `SnapshotLaws.TargetLabelIs` | analysis/src/secscan/platform/read_models.py:401-407 | The label of a case's targets: the first one with a name, else their ids, else a placeholder |
| `SnapshotLaws.FindingIdsAre` | analysis/src/secscan/platform/read_models.py:411 | The findings listed in a case are exactly those that name its engagement |
| `ExperienceSnapshot.ComposeExperienceSnapshot` | analysis/src/secscan/platform/read_models.py:345-573 | The producer, with its attention loops, returns the snapshot of its inputs, and the validator accepts it exactly for known modes |

## Left out

Hunts:
- The repository port is a finite map from id to signal. What the database-backed loader adds (scope and binding checks with the same error class, treatment of empty ids), the checks before the validation, leases and persistence are not modelled.
- Error messages are constructors, not texts. Times are integers.
- The engine's event matching, statistics and hunt result; only its test of signals is modelled.
- HuntEngine.AdmittedHuntIsMatched: the engine and the validator are taken to see the same signals and events; the engine reads its own stores, at a later time.

Live projection:
- `localeCompare` is any total preorder; sequences and versions are integers, so NaN does not occur. An empty payload object counts as a payload, as it does in the code.
- `sortActivityEntries`, `safeDisplay` and the detection-response part of the overlay.

Scanner results and metadata:
- In-place editing of the deep copy and its aliasing: the loops rebuild values. The order in which two faults of one result are noticed is not visible, since both raise the same class.
- The redaction notes, the regular expressions and secret patterns behind the redactor (any function of strings here), truncation of output, the final secret scan, and evidence bytes. Two keys never become equal by redaction, because keys are not redacted.
- The model names five kinds of capability; the remaining steps of an execution (sandbox, policy, receipts) are absent.
- Numbers of JSON are reals; NaN and infinities do not occur.
- Metadata: which fault is raised first, Python values that JSON cannot hold, the size limit and secret check of the whole metadata. Case folding is a parameter.

Assessment:
- Rationale texts, timestamps, and the constant labels of evidence, observations and claims. Ids minted at random, the digest, the scrubbing of texts and the JSON encoding of payloads are parameters.
- The status, contract binding and persistence of service runs, and reports.
- Uniqueness of claim, observation and finding ids across keys is not stated, since different keys can share a slug (`Identifiers.SameSlugIff`). Evidence objects are unique only within a key.
- The repository detectors, dependency inventories and live feed clients; a feed lookup is an answer, an unavailability or nothing. Name normalisation, canonical vulnerability ids, evidence ids of paths, the wording of reasons and the fixed sentences of claims are parameters; gaps are constructors.
- The encoding of the hashed text in UTF-8 and the hash itself.

Cursors and snapshot:
- Python's limit on the digits of an integer, and digits and blanks outside ASCII, which an ASCII cursor cannot hold.
- Reading pages from the database.
- In the snapshot, counts and texts are whatever the inputs say; upper-casing is a parameter that leaves statuses alone where a lemma needs it. Preview data and `experience_overlay`, whose status helper may pass other values through, are absent.

Reconciliation and registry:
- Reconciliation.Session.Reconcile: does not model a missing workflow row, the commit, or other writers between the calls of a run; the latest audit row is the last one appended.
- CapabilityRegistry.Registry.RegisterAll: does not model the contents of the default manifest lists, which are a parameter; manifests carry three of their fields.
- CapabilityRegistry.VersionsArePreordered: which characters outside ASCII are digits, and with what value, is a parameter; it is only compared, for versions that `int` accepts.

Elsewhere:
- Web routes, authentication, persistence, migrations, the terminal and web interfaces, the policy gateway, patrols and engagement transitions.
