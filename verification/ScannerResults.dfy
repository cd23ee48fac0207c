/**
 What happens to the JSON a sandboxed scanner prints: strings are redacted,
 nullable arrays are canonicalised or the result is refused, reported results
 are counted, and the run is classified.
 */
module ScannerResults {
  import opened Wrappers
  import opened Json

  datatype Scanner = Gitleaks | Trivy | Osv | Semgrep | Unlisted

  const TRIVY_LISTS := ["Vulnerabilities", "Misconfigurations", "Secrets", "Licenses"]
  const TRIVY_ENVELOPE := {"SchemaVersion", "Trivy", "ReportID", "CreatedAt", "ArtifactName", "ArtifactType"}

  // ---------- redaction ----------

  /** The text with every occurrence of the mount point "/src" replaced, from left to right. */
  function ReplaceMount(s: string): string {
    if |s| == 0 then ""
    else if |s| >= 4 && s[..4] == "/src" then "[target]" + ReplaceMount(s[4..])
    else [s[0]] + ReplaceMount(s[1..])
  }

  /** What redaction does to a text: an arbitrary redactor, then the mount point is hidden. */
  function Redactor(redactText: string -> string): string -> string {
    s => ReplaceMount(redactText(s))
  }

  /** Redaction of a tree. */
  function RedactJson(j: Json, redactText: string -> string): Json {
    MapStrings(j, Redactor(redactText))
  }

  // ---------- normalisation; None is the raised ValueError ----------

  /** The list under `key`, with null turned into the empty list; an absent key is added if `add`. */
  function FillList(fields: map<string, Json>, key: string, add: bool): Option<map<string, Json>> {
    if key !in fields then Some(if add then fields[key := JArray([])] else fields)
    else match fields[key]
      case JNull => Some(fields[key := JArray([])])
      case JArray(_) => Some(fields)
      case _ => None
  }

  function FillLists(fields: map<string, Json>, keys: seq<string>): Option<map<string, Json>> {
    if |keys| == 0 then Some(fields)
    else match FillLists(fields, keys[..|keys| - 1])
      case None => None
      case Some(filled) => FillList(filled, keys[|keys| - 1], true)
  }

  function TrivyItem(item: Json): Option<Json> {
    if !item.JObject? then None
    else match FillLists(item.fields, TRIVY_LISTS)
      case None => None
      case Some(fields) => Some(JObject(fields))
  }

  function OsvPackage(package: Json): Option<Json> {
    if !package.JObject? then None
    else match FillList(package.fields, "vulnerabilities", false)
      case None => None
      case Some(fields) => Some(JObject(fields))
  }

  /** The object with the elements of the list under `key` rewritten. */
  function RewriteList(fields: map<string, Json>, key: string, f: Json -> Option<Json>): Option<Json>
    requires key in fields ==> fields[key].JArray?
  {
    if key !in fields then Some(JObject(fields))
    else match TryMap(fields[key].items, f)
      case None => None
      case Some(items) => Some(JObject(fields[key := JArray(items)]))
  }

  function OsvItem(item: Json): Option<Json> {
    if !item.JObject? then None
    else match FillList(item.fields, "packages", false)
      case None => None
      case Some(fields) => RewriteList(fields, "packages", OsvPackage)
  }

  function Identity(j: Json): Option<Json> { Some(j) }

  function FillAndRewrite(fields: map<string, Json>, key: string, f: Json -> Option<Json>): Option<Json> {
    match FillList(fields, key, true)
    case None => None
    case Some(filled) => RewriteList(filled, key, f)
  }

  function Normalize(scanner: Scanner, result: Json): Option<Json> {
    match scanner
    case Gitleaks =>
      if result.JArray? && forall x :: x in result.items ==> x.JObject? then Some(result) else None
    case Trivy =>
      if result.JObject? && ("Results" in result.fields || exists k :: k in TRIVY_ENVELOPE && k in result.fields)
      then FillAndRewrite(result.fields, "Results", TrivyItem)
      else None
    case Osv =>
      if result.JObject? && "results" in result.fields then FillAndRewrite(result.fields, "results", OsvItem) else None
    case Semgrep =>
      if result.JObject? && "results" in result.fields then FillAndRewrite(result.fields, "results", Identity) else None
    case Unlisted => Some(result)
  }
}
