/**
 What the scanner pipeline computes, spelled out by key: the normal form of an
 accepted result, the count of findings per scanner, and the class of a run.
 */
module ScannerLaws {
  import opened Wrappers
  import opened Json
  import opened ScannerResults
  import opened ScannerNormalization
  import opened ScannerCounting

  // ---------- the hidden mount point ----------

  ghost predicate OccursAt(s: string, i: nat, part: string) {
    i + |part| <= |s| && s[i..i + |part|] == part
  }

  lemma ReplacePlain(s: string)
    requires |s| > 0 && !OccursAt(s, 0, "/src")
    ensures ReplaceMount(s) == [s[0]] + ReplaceMount(s[1..])
  {
  }

  /** Up to its first mount point a text stays; then the replacement stands, and the rest is treated alike. */
  lemma {:induction false} ReplaceFirstMount(before: string, after: string)
    requires forall i :: 0 <= i < |before| ==> !OccursAt(before + "/src" + after, i, "/src")
    ensures ReplaceMount(before + "/src" + after) == before + "[target]" + ReplaceMount(after)
  {
    var s := before + "/src" + after;
    if |before| == 0 {
      assert s[..4] == "/src" && s[4..] == after;
    } else {
      var rest := before[1..] + "/src" + after;
      assert s[1..] == rest && s[0] == before[0];
      forall i | 0 <= i < |before[1..]| ensures !OccursAt(rest, i, "/src") {
        assert !OccursAt(s, i + 1, "/src");
        assert i + 4 <= |rest| ==> rest[i..i + 4] == s[i + 1..i + 5];
      }
      assert !OccursAt(s, 0, "/src");
      ReplacePlain(s);
      ReplaceFirstMount(before[1..], after);
      assert [before[0]] + (before[1..] + "[target]" + ReplaceMount(after)) == before + "[target]"
             + ReplaceMount(after);
    }
  }

  /** A text without the mount point is left alone. */
  lemma {:induction false} NoMountNoChange(s: string)
    requires forall i :: 0 <= i < |s| ==> !OccursAt(s, i, "/src")
    ensures ReplaceMount(s) == s
  {
    if |s| > 0 {
      assert !OccursAt(s, 0, "/src");
      ReplacePlain(s);
      forall i | 0 <= i < |s[1..]| ensures !OccursAt(s[1..], i, "/src") {
        assert !OccursAt(s, i + 1, "/src");
        assert i + 4 <= |s[1..]| ==> s[1..][i..i + 4] == s[i + 1..i + 5];
      }
      NoMountNoChange(s[1..]);
      assert s == [s[0]] + s[1..];
    }
  }

  // ---------- the normal form of an accepted result ----------

  /** The elements of the list under a key; none if there is no list. */
  ghost function ItemsOf(j: Json, key: string): seq<Json> {
    if j.JObject? && key in j.fields && j.fields[key].JArray? then j.fields[key].items else []
  }

  /** All keys but one keep their values, and the one holds a list. */
  ghost predicate OnlyList(a: Json, b: Json, key: string) {
    && a.JObject? && b.JObject? && b.fields.Keys == a.fields.Keys + {key} && b.fields[key].JArray?
    && forall k :: k in a.fields && k != key ==> b.fields[k] == a.fields[k]
  }

  /** The absent and null ones among the given keys become empty lists; nothing else changes. */
  ghost predicate ListsFilled(a: Json, b: Json, keys: set<string>) {
    && a.JObject? && b.JObject? && b.fields.Keys == a.fields.Keys + keys
    && forall k :: k in b.fields ==>
         b.fields[k] == if k in keys && (k !in a.fields || a.fields[k] == JNull) then JArray([]) else a.fields[k]
  }

  /** A package: a null list of vulnerabilities becomes empty, an absent one stays absent. */
  ghost predicate PackageForm(a: Json, b: Json) {
    if a.JObject? && "vulnerabilities" in a.fields then ListsFilled(a, b, {"vulnerabilities"}) else a == b
  }

  ghost predicate OsvItemForm(a: Json, b: Json) {
    if a.JObject? && "packages" in a.fields then
      && OnlyList(a, b, "packages")
      && |ItemsOf(b, "packages")| == |ItemsOf(a, "packages")|
      && forall i :: 0 <= i < |ItemsOf(a, "packages")| ==>
         PackageForm(ItemsOf(a, "packages")[i], ItemsOf(b, "packages")[i])
    else a == b
  }

  ghost predicate ItemsForm(a: Json, b: Json, key: string, form: (Json, Json) -> bool) {
    && OnlyList(a, b, key) && |ItemsOf(b, key)| == |ItemsOf(a, key)|
    && forall i :: 0 <= i < |ItemsOf(a, key)| ==> form(ItemsOf(a, key)[i], ItemsOf(b, key)[i])
  }

  ghost predicate NormalForm(scanner: Scanner, a: Json, b: Json) {
    match scanner
    case Gitleaks => a == b
    case Trivy =>
      ItemsForm(a, b, "Results",
                (x, y) => ListsFilled(x, y, {"Vulnerabilities", "Misconfigurations", "Secrets", "Licenses"}))
    case Osv => ItemsForm(a, b, "results", (x, y) => OsvItemForm(x, y))
    case Semgrep => ItemsForm(a, b, "results", (x, y) => x == y)
    case Unlisted => a == b
  }

  lemma TrivyItemForm(x: Json)
    requires TrivyItem(x).Some?
    ensures ListsFilled(x, TrivyItem(x).value, {"Vulnerabilities", "Misconfigurations", "Secrets", "Licenses"})
  {
    FillListsClosedForm(x.fields, TRIVY_LISTS);
    assert forall k :: k in TRIVY_LISTS <==> k in {"Vulnerabilities", "Misconfigurations", "Secrets", "Licenses"};
  }

  lemma OsvPackageForm(x: Json)
    requires OsvPackage(x).Some?
    ensures PackageForm(x, OsvPackage(x).value)
  {
  }

  lemma OsvItemHasForm(x: Json)
    requires OsvItem(x).Some?
    ensures OsvItemForm(x, OsvItem(x).value)
  {
    if "packages" in x.fields {
      var filled := FillList(x.fields, "packages", false).value;
      var packages := filled["packages"].items;
      assert packages == ItemsOf(x, "packages");
      forall i | 0 <= i < |packages| ensures PackageForm(packages[i], ItemsOf(OsvItem(x).value, "packages")[i]) {
        assert packages[i] in packages;
        OsvPackageForm(packages[i]);
      }
    }
  }

  lemma RewrittenForm(a: Json, key: string, f: Json -> Option<Json>, form: (Json, Json) -> bool)
    requires a.JObject? && FillAndRewrite(a.fields, key, f).Some?
    requires forall x :: f(x).Some? ==> form(x, f(x).value)
    ensures ItemsForm(a, FillAndRewrite(a.fields, key, f).value, key, form)
  {
    var filled := FillList(a.fields, key, true).value;
    var items := filled[key].items;
    assert items == ItemsOf(a, key);
    forall i | 0 <= i < |items| ensures form(items[i], ItemsOf(FillAndRewrite(a.fields, key, f).value, key)[i]) {
      assert items[i] in items;
    }
  }

  /** Every accepted result has exactly its normal form. */
  lemma NormalizeGivesForm(scanner: Scanner, a: Json)
    requires Normalize(scanner, a).Some?
    ensures NormalForm(scanner, a, Normalize(scanner, a).value)
  {
    match scanner
    case Gitleaks =>
    case Trivy =>
      forall x | TrivyItem(x).Some?
        ensures ListsFilled(x, TrivyItem(x).value, {"Vulnerabilities", "Misconfigurations", "Secrets", "Licenses"})
      {
        TrivyItemForm(x);
      }
      RewrittenForm(a, "Results", TrivyItem,
                    (x, y) => ListsFilled(x, y, {"Vulnerabilities", "Misconfigurations", "Secrets", "Licenses"}));
    case Osv =>
      forall x | OsvItem(x).Some? ensures OsvItemForm(x, OsvItem(x).value) {
        OsvItemHasForm(x);
      }
      RewrittenForm(a, "results", OsvItem, (x, y) => OsvItemForm(x, y));
    case Semgrep =>
      RewrittenForm(a, "results", Identity, (x, y) => x == y);
    case Unlisted =>
  }

  /** A Trivy report without results is accepted as clean exactly if one of six fields marks it as a report. */
  lemma CleanReportIff(fields: map<string, Json>)
    requires "Results" !in fields
    ensures Normalize(Trivy, JObject(fields)) ==
            if "SchemaVersion" in fields || "Trivy" in fields || "ReportID" in fields || "CreatedAt" in fields
               || "ArtifactName" in fields || "ArtifactType" in fields
            then Some(JObject(fields["Results" := JArray([])])) else None
  {
    var filled := fields["Results" := JArray([])];
    TryMapOf([], TrivyItem, []);
    assert filled["Results" := JArray([])] == filled;
    assert (exists k :: k in TRIVY_ENVELOPE && k in fields) <==>
           "SchemaVersion" in fields || "Trivy" in fields || "ReportID" in fields || "CreatedAt" in fields
           || "ArtifactName" in fields || "ArtifactType" in fields;
  }

  // ---------- counts ----------

  ghost function SumOf(items: seq<Json>, size: Json -> nat): nat {
    if |items| == 0 then 0 else size(items[0]) + SumOf(items[1..], size)
  }

  lemma {:induction false} SumOfAppend(items: seq<Json>, x: Json, size: Json -> nat)
    ensures SumOf(items + [x], size) == SumOf(items, size) + size(x)
  {
    if |items| > 0 {
      assert (items + [x])[1..] == items[1..] + [x];
      SumOfAppend(items[1..], x, size);
    }
  }

  lemma {:induction false} TotalIsSum(items: seq<Json>, f: Json -> Count, size: Json -> nat)
    requires forall x :: x in items ==> f(x) == Counted(size(x))
    ensures Total(items, f) == Counted(SumOf(items, size))
  {
    if |items| > 0 {
      var init, last := items[..|items| - 1], items[|items| - 1];
      assert items == init + [last];
      TotalIsSum(init, f, size);
      SumOfAppend(init, last, size);
    }
  }

  /** What a key holds is measured by its length; what is missing or empty measures nothing, and the rest raises. */
  lemma LengthUnder(fields: map<string, Json>, key: string)
    ensures
      var length := LenOrZero(fields, key);
      && (key !in fields ==> length == Counted(0))
      && (key in fields ==>
            && (fields[key].JArray? ==> length == Counted(|fields[key].items|))
            && (fields[key].JString? ==> length == Counted(|fields[key].s|))
            && (fields[key].JObject? ==> length == Counted(|fields[key].fields|))
            && (fields[key] in {JNull, JBool(false), JNumber(0.0)} ==> length == Counted(0))
            && (length == Raises <==> fields[key] == JBool(true) || (fields[key].JNumber? && fields[key].n != 0.0)))
  {
  }

  /** How many findings one Trivy item reports. */
  ghost function SectionSize(item: Json): nat {
    |ItemsOf(item, "Vulnerabilities")| + |ItemsOf(item, "Misconfigurations")| + |ItemsOf(item, "Secrets")| +
    |ItemsOf(item, "Licenses")|
  }

  /** How many vulnerabilities the packages of one OSV group have. */
  ghost function GroupSize(group: Json): nat {
    SumOf(ItemsOf(group, "packages"), package => |ItemsOf(package, "vulnerabilities")|)
  }

  ghost predicate HasPackages(j: Json) {
    exists group :: group in ItemsOf(j, "results") && group.JObject? && "packages" in group.fields
  }

  lemma GroupedIff(r: Json)
    ensures Grouped(r) <==> HasPackages(r)
  {
  }

  /** A list counts its elements, whatever they are. */
  lemma ListCount(r: Json)
    requires r.JArray?
    ensures ResultCount(Some(r)) == Counted(|r.items|) && ResultCount(None) == Counted(0)
  {
  }

  /** An object without package groups counts its first list of "results" and "findings". */
  lemma PlainCount(r: Json)
    requires r.JObject? && !HasPackages(r)
    ensures HasList(r, "results") ==> ResultCount(Some(r)) == Counted(|ItemsOf(r, "results")|)
    ensures !HasList(r, "results") && HasList(r, "findings") ==>
            ResultCount(Some(r)) == Counted(|ItemsOf(r, "findings")|)
    ensures !HasList(r, "results") && !HasList(r, "findings") && !HasList(r, "Results") ==>
            ResultCount(Some(r)) == Counted(0)
  {
    GroupedIff(r);
  }

  lemma GroupsUnder(r: Json, groups: seq<Json>)
    requires Grouped(r) && "results" in r.fields && r.fields["results"] == JArray(groups)
    ensures ResultCount(Some(r)) == PackagesCount(groups)
  {
  }

  lemma PackagesAreTotal(groups: seq<Json>)
    ensures PackagesCount(groups) == Total(groups, GroupCount)
  {
  }

  /** Any object with package groups counts over its groups. */
  lemma GroupedResult(r: Json)
    requires HasPackages(r)
    ensures ResultCount(Some(r)) == Total(ItemsOf(r, "results"), GroupCount)
  {
    GroupedIff(r);
    GroupsUnder(r, ItemsOf(r, "results"));
    PackagesAreTotal(ItemsOf(r, "results"));
  }

  /** What stands for a group's packages is counted if it is a list, and else raises or is skipped. */
  lemma GroupUnder(group: Json)
    ensures !group.JObject? || "packages" !in group.fields ==> GroupCount(group) == Counted(0)
    ensures group.JObject? && "packages" in group.fields ==>
              var packages := group.fields["packages"];
              && (packages.JArray? ==> GroupCount(group) == Total(packages.items, PackageCount))
              && (packages.JString? || packages.JObject? || packages in {JNull, JBool(false), JNumber(0.0)} ==>
                    GroupCount(group) == Counted(0))
              && (packages == JBool(true) || (packages.JNumber? && packages.n != 0.0) ==> GroupCount(group) == Raises)
  {
  }

  lemma SectionUnder(item: Json)
    ensures !item.JObject? ==> SectionCount(item) == Counted(0)
    ensures item.JObject? ==>
              SectionCount(item) ==
              LenOrZero(item.fields, "Vulnerabilities").Plus(LenOrZero(item.fields, "Misconfigurations"))
              .Plus(LenOrZero(item.fields, "Secrets")).Plus(LenOrZero(item.fields, "Licenses"))
  {
  }

  lemma PackageUnder(package: Json)
    ensures !package.JObject? ==> PackageCount(package) == Counted(0)
    ensures package.JObject? ==> PackageCount(package) == LenOrZero(package.fields, "vulnerabilities")
  {
  }

  lemma ListLength(fields: map<string, Json>, key: string)
    requires key in fields && fields[key].JArray?
    ensures LenOrZero(fields, key) == Counted(|ItemsOf(JObject(fields), key)|)
  {
  }

  lemma SectionCounted(fields: map<string, Json>)
    requires forall k :: k in {"Vulnerabilities", "Misconfigurations", "Secrets", "Licenses"} ==>
               k in fields && fields[k].JArray?
    ensures SectionCount(JObject(fields)) == Counted(SectionSize(JObject(fields)))
  {
    FourCounted(fields, "Vulnerabilities", "Misconfigurations", "Secrets", "Licenses");
  }

  lemma FourCounted(fields: map<string, Json>, a: string, b: string, c: string, d: string)
    requires forall k :: k in {a, b, c, d} ==> k in fields && fields[k].JArray?
    ensures
      var item := JObject(fields);
      LenOrZero(fields, a).Plus(LenOrZero(fields, b)).Plus(LenOrZero(fields, c)).Plus(LenOrZero(fields, d)) ==
      Counted(|ItemsOf(item, a)| + |ItemsOf(item, b)| + |ItemsOf(item, c)| + |ItemsOf(item, d)|)
  {
    ListLength(fields, a);
    ListLength(fields, b);
    ListLength(fields, c);
    ListLength(fields, d);
  }

  lemma SectionsUnder(r: Json, items: seq<Json>)
    requires !HasList(r, "results") && !HasList(r, "findings")
    requires r.JObject? && "Results" in r.fields && r.fields["Results"] == JArray(items)
    ensures ResultCount(Some(r)) == SectionsCount(items)
  {
  }

  lemma SectionsTotal(a: Json)
    requires Normalize(Trivy, a).Some?
    ensures
      var items := ItemsOf(Normalize(Trivy, a).value, "Results");
      SectionsCount(items) == Counted(SumOf(items, item => SectionSize(item)))
  {
    var items := ItemsOf(Normalize(Trivy, a).value, "Results");
    forall x | x in items ensures SectionCount(x) == Counted(SectionSize(x)) {
      var i :| 0 <= i < |items| && items[i] == x;
      AcceptedItemLists(a, i);
      SectionCounted(x.fields);
    }
    TotalIsSum(items, SectionCount, item => SectionSize(item));
  }

  /** An accepted Trivy result without lower-case lists counts the elements of the four sections of all its items. */
  lemma TrivyCount(a: Json)
    requires Normalize(Trivy, a).Some? && !HasList(a, "results") && !HasList(a, "findings")
    ensures
      var n := Normalize(Trivy, a);
      ResultCount(n) == Counted(SumOf(ItemsOf(n.value, "Results"), item => SectionSize(item)))
  {
    NormalizeGivesForm(Trivy, a);
    var n := Normalize(Trivy, a).value;
    SectionsTotal(a);
    SectionsUnder(n, ItemsOf(n, "Results"));
  }

  lemma AcceptedItemLists(a: Json, i: nat)
    requires Normalize(Trivy, a).Some? && i < |ItemsOf(Normalize(Trivy, a).value, "Results")|
    ensures
      var x := ItemsOf(Normalize(Trivy, a).value, "Results")[i];
      x.JObject? && forall k :: k in {"Vulnerabilities", "Misconfigurations", "Secrets", "Licenses"} ==>
        k in x.fields && x.fields[k].JArray?
  {
    var n := Normalize(Trivy, a).value;
    var x := ItemsOf(n, "Results")[i];
    var y := RewrittenElement(a.fields, "Results", TrivyItem, n, x);
    FillListsFill(y.fields, TRIVY_LISTS);
    assert forall k :: k in {"Vulnerabilities", "Misconfigurations", "Secrets", "Licenses"} ==> k in TRIVY_LISTS;
  }

  lemma PackageCounted(p: Json)
    requires exists q :: OsvPackage(q) == Some(p)
    ensures PackageCount(p) == Counted(|ItemsOf(p, "vulnerabilities")|)
  {
    LengthUnder(p.fields, "vulnerabilities");
  }

  /** The packages of a normalised group are normalised packages. */
  lemma PackagesNormalized(x: Json, y: Json)
    requires OsvItem(y) == Some(x) && "packages" in x.fields
    ensures x.JObject? && x.fields["packages"].JArray?
    ensures forall p :: p in ItemsOf(x, "packages") ==> exists q :: OsvPackage(q) == Some(p)
  {
    var raw := FillList(y.fields, "packages", false).value["packages"].items;
    var packages := ItemsOf(x, "packages");
    assert TryMap(raw, OsvPackage) == Some(packages);
    forall p | p in packages ensures exists q :: OsvPackage(q) == Some(p) {
      var i :| 0 <= i < |packages| && packages[i] == p;
      assert raw[i] in raw && OsvPackage(raw[i]) == Some(p);
    }
  }

  lemma PackagesTotal(packages: seq<Json>)
    requires forall p :: p in packages ==> exists q :: OsvPackage(q) == Some(p)
    ensures Total(packages, PackageCount) == Counted(SumOf(packages, package => |ItemsOf(package, "vulnerabilities")|))
  {
    forall p | p in packages ensures PackageCount(p) == Counted(|ItemsOf(p, "vulnerabilities")|) {
      PackageCounted(p);
    }
    TotalIsSum(packages, PackageCount, package => |ItemsOf(package, "vulnerabilities")|);
  }

  lemma GroupCounted(x: Json, y: Json)
    requires OsvItem(y) == Some(x)
    ensures GroupCount(x) == Counted(GroupSize(x))
  {
    if "packages" in x.fields {
      PackagesNormalized(x, y);
      PackagesTotal(ItemsOf(x, "packages"));
    }
  }

  lemma GroupsTotal(a: Json)
    requires Normalize(Osv, a).Some?
    ensures
      var items := ItemsOf(Normalize(Osv, a).value, "results");
      Total(items, GroupCount) == Counted(SumOf(items, group => GroupSize(group)))
  {
    var n := Normalize(Osv, a).value;
    var items := ItemsOf(n, "results");
    NormalizeGivesForm(Osv, a);
    forall x | x in items ensures GroupCount(x) == Counted(GroupSize(x)) {
      var y := RewrittenElement(a.fields, "results", OsvItem, n, x);
      GroupCounted(x, y);
    }
    TotalIsSum(items, GroupCount, group => GroupSize(group));
  }

  /** An accepted OSV result counts the vulnerabilities of all packages, or its results if no result has packages. */
  lemma OsvCount(a: Json)
    requires Normalize(Osv, a).Some?
    ensures
      var n := Normalize(Osv, a).value;
      && (HasPackages(n) ==> ResultCount(Some(n)) == Counted(SumOf(ItemsOf(n, "results"), group => GroupSize(group))))
      && (!HasPackages(n) ==> ResultCount(Some(n)) == Counted(|ItemsOf(n, "results")|))
  {
    NormalizeGivesForm(Osv, a);
    var n := Normalize(Osv, a).value;
    if HasPackages(n) {
      GroupsTotal(a);
      GroupedResult(n);
    } else {
      PlainCount(n);
    }
  }

  /** An accepted Semgrep result without packages counts its results; a Gitleaks result its elements. */
  lemma SemgrepAndGitleaksCount(a: Json)
    ensures Normalize(Semgrep, a).Some? && !HasPackages(Normalize(Semgrep, a).value) ==>
              ResultCount(Normalize(Semgrep, a)) == Counted(|ItemsOf(a, "results")|)
    ensures Normalize(Gitleaks, a).Some? ==> a.JArray? && ResultCount(Normalize(Gitleaks, a)) == Counted(|a.items|)
  {
    if Normalize(Semgrep, a).Some? {
      NormalizeGivesForm(Semgrep, a);
      var n := Normalize(Semgrep, a).value;
      assert |ItemsOf(n, "results")| == |ItemsOf(a, "results")|;
      if !HasPackages(n) {
        PlainCount(n);
      }
    }
  }

  // ---------- the class of a run ----------

  /** What is not JSON, and null, is malformed unless the run timed out; so is silence of a listed scanner. */
  lemma NothingParsed(scanner: Scanner, stdout: Stdout, rho: string -> string, timedOut: bool, exitCode: int)
    ensures stdout == Unparsable || stdout == Parsed(JNull) || (stdout == Blank && scanner != Unlisted) ==>
              ScannerOutcome(scanner, stdout, rho, timedOut, exitCode) ==
                Some(if timedOut then TIMEOUT else MALFORMED_OUTPUT)
    ensures stdout == Blank && scanner == Unlisted ==>
              ScannerOutcome(scanner, stdout, rho, timedOut, exitCode) ==
              Some(if timedOut then TIMEOUT else if exitCode == 0 then SUCCESS else FAILED)
  {
  }

  /**
   The class of a run whose output was parsed.  With `count` findings in the
   redacted normal form of an accepted result, or in the redacted value of a
   refused one: a timeout comes first; a refused result is malformed; a nonzero
   exit means findings if there are any, and a failure otherwise.
   */
  lemma ClassTable(scanner: Scanner, result: Json, rho: string -> string, timedOut: bool, exitCode: int)
    requires !result.JNull?
    ensures
      var outcome := ScannerOutcome(scanner, Parsed(result), rho, timedOut, exitCode);
      var n := Normalize(scanner, result);
      var accepted := n.Some?;
      var counted := ResultCount(Some(MapStrings(if accepted then n.value else result, rho)));
      && (accepted <==> Acceptable(scanner, result))
      && (outcome == None <==> counted == Raises)
      && (counted.Counted? ==>
            && (outcome == Some(TIMEOUT) <==> timedOut)
            && (outcome == Some(MALFORMED_OUTPUT) <==> !timedOut && !accepted)
            && (outcome == Some(FINDINGS) <==> !timedOut && accepted && exitCode != 0 && counted.n > 0)
            && (outcome == Some(SUCCESS) <==> !timedOut && accepted && exitCode == 0)
            && (outcome == Some(FAILED) <==> !timedOut && accepted && exitCode != 0 && counted.n == 0))
  {
    NormalizeAcceptsIff(scanner, result);
    NormalizeCommutesWithRedaction(scanner, result, rho);
  }

  /** A leak reported with a nonzero exit is a finding under every redactor. */
  lemma LeaksAreFindings(leaks: seq<Json>, rho: string -> string, exitCode: int)
    requires |leaks| > 0 && (forall x :: x in leaks ==> x.JObject?) && exitCode != 0
    ensures ScannerOutcome(Gitleaks, Parsed(JArray(leaks)), rho, false, exitCode) == Some(FINDINGS)
  {
    ClassTable(Gitleaks, JArray(leaks), rho, false, exitCode);
    MapStringsShape(map[], leaks, rho);
    ListCount(JArray(MapItems(leaks, rho)));
  }
}
