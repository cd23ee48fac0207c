/**
 Properties of the canonicalisation of scanner results: it commutes with every
 redaction of strings, it is idempotent, and all it does to an accepted result
 is to write empty lists where lists are null or absent.  The methods at the
 end are the loops that compute it.
 */
module ScannerNormalization {
  import opened Wrappers
  import opened Json
  import opened ScannerResults

  // ---------- redaction commutes with normalisation ----------

  function Redacted(o: Option<Json>, rho: string -> string): Option<Json> {
    match o case None => None case Some(j) => Some(MapStrings(j, rho))
  }

  function RedactedFields(o: Option<map<string, Json>>, rho: string -> string): Option<map<string, Json>> {
    match o case None => None case Some(fields) => Some(MapFields(fields, rho))
  }

  ghost predicate Commutes(f: Json -> Option<Json>, rho: string -> string) {
    forall j :: f(MapStrings(j, rho)) == Redacted(f(j), rho)
  }

  lemma FillListCommutes(fields: map<string, Json>, key: string, add: bool, rho: string -> string)
    ensures FillList(MapFields(fields, rho), key, add) == RedactedFields(FillList(fields, key, add), rho)
  {
    MapStringsShape(fields, [], rho);
    MapFieldsPut(fields, key, JArray([]), rho);
  }

  lemma {:induction false} FillListsCommute(fields: map<string, Json>, keys: seq<string>, rho: string -> string)
    ensures FillLists(MapFields(fields, rho), keys) == RedactedFields(FillLists(fields, keys), rho)
  {
    if |keys| > 0 {
      FillListsCommute(fields, keys[..|keys| - 1], rho);
      match FillLists(fields, keys[..|keys| - 1])
      case None =>
      case Some(filled) => FillListCommutes(filled, keys[|keys| - 1], true, rho);
    }
  }

  lemma TryMapCommutes(items: seq<Json>, f: Json -> Option<Json>, rho: string -> string)
    requires Commutes(f, rho)
    ensures TryMap(MapItems(items, rho), f) ==
            match TryMap(items, f) case None => None case Some(mapped) => Some(MapItems(mapped, rho))
  {
    forall i | 0 <= i < |items| ensures f(MapItems(items, rho)[i]) == Redacted(f(items[i]), rho) {
      assert MapItems(items, rho)[i] == MapStrings(items[i], rho);
    }
    if TryMap(items, f).None? {
      var i :| 0 <= i < |items| && f(items[i]).None?;
      assert MapItems(items, rho)[i] in MapItems(items, rho);
    } else {
      forall x | x in MapItems(items, rho) ensures f(x).Some? {
        var i :| 0 <= i < |items| && MapItems(items, rho)[i] == x;
        assert items[i] in items;
      }
      assert TryMap(MapItems(items, rho), f).value == MapItems(TryMap(items, f).value, rho);
    }
  }

  lemma RewriteListCommutes(fields: map<string, Json>, key: string, f: Json -> Option<Json>, rho: string -> string)
    requires key in fields ==> fields[key].JArray?
    requires Commutes(f, rho)
    ensures RewriteList(MapFields(fields, rho), key, f) == Redacted(RewriteList(fields, key, f), rho)
  {
    MapStringsShape(fields, [], rho);
    if key in fields {
      var items := fields[key].items;
      TryMapCommutes(items, f, rho);
      MapStringsShape(fields, items, rho);
      match TryMap(items, f)
      case None =>
      case Some(mapped) =>
        MapFieldsPut(fields, key, JArray(mapped), rho);
        MapStringsShape(fields[key := JArray(mapped)], mapped, rho);
    }
  }

  lemma FillAndRewriteCommutes(fields: map<string, Json>, key: string, f: Json -> Option<Json>, rho: string -> string)
    requires Commutes(f, rho)
    ensures FillAndRewrite(MapFields(fields, rho), key, f) == Redacted(FillAndRewrite(fields, key, f), rho)
  {
    FillListCommutes(fields, key, true, rho);
    match FillList(fields, key, true)
    case None =>
    case Some(filled) => RewriteListCommutes(filled, key, f, rho);
  }

  lemma TrivyItemCommutes(rho: string -> string)
    ensures Commutes(TrivyItem, rho)
  {
    forall j ensures TrivyItem(MapStrings(j, rho)) == Redacted(TrivyItem(j), rho) {
      if j.JObject? {
        MapStringsShape(j.fields, [], rho);
        FillListsCommute(j.fields, TRIVY_LISTS, rho);
        match FillLists(j.fields, TRIVY_LISTS)
        case None =>
        case Some(filled) => MapStringsShape(filled, [], rho);
      }
    }
  }

  lemma OsvPackageCommutes(rho: string -> string)
    ensures Commutes(OsvPackage, rho)
  {
    forall j ensures OsvPackage(MapStrings(j, rho)) == Redacted(OsvPackage(j), rho) {
      if j.JObject? {
        MapStringsShape(j.fields, [], rho);
        FillListCommutes(j.fields, "vulnerabilities", false, rho);
        match FillList(j.fields, "vulnerabilities", false)
        case None =>
        case Some(filled) => MapStringsShape(filled, [], rho);
      }
    }
  }

  lemma OsvItemCommutes(rho: string -> string)
    ensures Commutes(OsvItem, rho)
  {
    OsvPackageCommutes(rho);
    forall j ensures OsvItem(MapStrings(j, rho)) == Redacted(OsvItem(j), rho) {
      if j.JObject? {
        MapStringsShape(j.fields, [], rho);
        FillListCommutes(j.fields, "packages", false, rho);
        match FillList(j.fields, "packages", false)
        case None =>
        case Some(filled) => RewriteListCommutes(filled, "packages", OsvPackage, rho);
      }
    }
  }

  lemma AllObjectsUnchanged(items: seq<Json>, rho: string -> string)
    ensures (forall x :: x in MapItems(items, rho) ==> x.JObject?) <==> forall x :: x in items ==> x.JObject?
  {
    forall i | 0 <= i < |items| ensures MapItems(items, rho)[i].JObject? <==> items[i].JObject? {
    }
    if forall x :: x in MapItems(items, rho) ==> x.JObject? {
      forall x | x in items ensures x.JObject? {
        var i :| 0 <= i < |items| && items[i] == x;
        assert MapItems(items, rho)[i] in MapItems(items, rho);
      }
    }
  }

  /**
   For every redactor of strings and every tree: the redacted tree is accepted
   exactly when the original is, and the results agree after redaction.
   */
  lemma NormalizeCommutesWithRedaction(scanner: Scanner, result: Json, rho: string -> string)
    ensures Normalize(scanner, MapStrings(result, rho)) == Redacted(Normalize(scanner, result), rho)
  {
    if result.JObject? {
      MapStringsShape(result.fields, [], rho);
      match scanner
      case Gitleaks =>
      case Trivy => TrivyItemCommutes(rho); FillAndRewriteCommutes(result.fields, "Results", TrivyItem, rho);
      case Osv => OsvItemCommutes(rho); FillAndRewriteCommutes(result.fields, "results", OsvItem, rho);
      case Semgrep => FillAndRewriteCommutes(result.fields, "results", Identity, rho);
      case Unlisted =>
    } else if result.JArray? {
      MapStringsShape(map[], result.items, rho);
      AllObjectsUnchanged(result.items, rho);
    }
  }

  /** Normalising what `execute` redacts is redacting what it would normalise. */
  lemma RedactionCommutes(scanner: Scanner, result: Json, redactText: string -> string)
    ensures Normalize(scanner, RedactJson(result, redactText)) ==
            match Normalize(scanner, result)
            case None => None
            case Some(n) => Some(RedactJson(n, redactText))
  {
    NormalizeCommutesWithRedaction(scanner, result, Redactor(redactText));
  }

  // ---------- normalisation only fills lists ----------

  /** `b` is `a` with some nulls turned into empty lists and some empty lists added to objects. */
  ghost predicate Fills(a: Json, b: Json) {
    || a == b
    || (a.JNull? && b == JArray([]))
    || (a.JArray? && b.JArray? && |a.items| == |b.items|
        && forall i :: 0 <= i < |a.items| ==> Fills(a.items[i], b.items[i]))
    || (a.JObject? && b.JObject?
        && (forall k :: k in a.fields ==> k in b.fields && Fills(a.fields[k], b.fields[k]))
        && (forall k :: k in b.fields && k !in a.fields ==> b.fields[k] == JArray([])))
  }

  ghost predicate FieldsFill(a: map<string, Json>, b: map<string, Json>) {
    && (forall k :: k in a ==> k in b && Fills(a[k], b[k]))
    && (forall k :: k in b && k !in a ==> b[k] == JArray([]))
  }

  ghost predicate OnlyFills(f: Json -> Option<Json>) {
    forall j :: f(j).Some? ==> Fills(j, f(j).value)
  }

  lemma {:induction false} FillListsFill(fields: map<string, Json>, keys: seq<string>)
    requires FillLists(fields, keys).Some?
    ensures FieldsFill(fields, FillLists(fields, keys).value)
    ensures forall k :: k in keys ==> k in FillLists(fields, keys).value && FillLists(fields, keys).value[k].JArray?
  {
    if |keys| > 0 {
      var init := keys[..|keys| - 1];
      assert keys == init + [keys[|keys| - 1]];
      FillListsFill(fields, init);
    }
  }

  lemma RewriteListFills(fields: map<string, Json>, filled: map<string, Json>, key: string, f: Json -> Option<Json>)
    requires OnlyFills(f)
    requires key in filled ==> filled[key].JArray?
    requires exists add :: FillList(fields, key, add) == Some(filled)
    requires RewriteList(filled, key, f).Some?
    ensures Fills(JObject(fields), RewriteList(filled, key, f).value)
  {
    if key in filled {
      var items, mapped := filled[key].items, TryMap(filled[key].items, f).value;
      assert forall i :: 0 <= i < |items| ==> Fills(items[i], mapped[i]);
      if items == [] {
        assert mapped == [];
      }
    }
  }

  lemma ItemsOnlyFill()
    ensures OnlyFills(TrivyItem) && OnlyFills(OsvPackage) && OnlyFills(OsvItem) && OnlyFills(Identity)
  {
    forall j | TrivyItem(j).Some? ensures Fills(j, TrivyItem(j).value) {
      FillListsFill(j.fields, TRIVY_LISTS);
    }
    forall j | OsvItem(j).Some? ensures Fills(j, OsvItem(j).value) {
      RewriteListFills(j.fields, FillList(j.fields, "packages", false).value, "packages", OsvPackage);
    }
  }

  lemma NormalizeOnlyFills(scanner: Scanner, result: Json)
    requires Normalize(scanner, result).Some?
    ensures Fills(result, Normalize(scanner, result).value)
  {
    ItemsOnlyFill();
    match scanner
    case Gitleaks =>
    case Trivy =>
      RewriteListFills(result.fields, FillList(result.fields, "Results", true).value, "Results", TrivyItem);
    case Osv =>
      RewriteListFills(result.fields, FillList(result.fields, "results", true).value, "results", OsvItem);
    case Semgrep =>
      RewriteListFills(result.fields, FillList(result.fields, "results", true).value, "results", Identity);
    case Unlisted =>
  }

  // ---------- idempotence ----------

  ghost predicate Idempotent(f: Json -> Option<Json>) {
    forall j :: f(j).Some? ==> f(f(j).value) == f(j)
  }

  lemma {:induction false} FillListsFixed(fields: map<string, Json>, keys: seq<string>)
    requires forall k :: k in keys ==> k in fields && fields[k].JArray?
    ensures FillLists(fields, keys) == Some(fields)
  {
    if |keys| > 0 {
      FillListsFixed(fields, keys[..|keys| - 1]);
    }
  }

  lemma TryMapIdempotent(items: seq<Json>, f: Json -> Option<Json>)
    requires Idempotent(f) && TryMap(items, f).Some?
    ensures TryMap(TryMap(items, f).value, f) == TryMap(items, f)
  {
    var mapped := TryMap(items, f).value;
    assert forall i :: 0 <= i < |items| ==> items[i] in items && f(mapped[i]) == Some(mapped[i]);
    assert TryMap(mapped, f).value == mapped;
  }

  lemma RewriteListIdempotent(filled: map<string, Json>, key: string, f: Json -> Option<Json>)
    requires Idempotent(f)
    requires key in filled ==> filled[key].JArray?
    requires RewriteList(filled, key, f).Some?
    ensures
      var r := RewriteList(filled, key, f).value;
      r.JObject? && (key in r.fields ==> r.fields[key].JArray?) && RewriteList(r.fields, key, f) == Some(r)
  {
    if key in filled {
      TryMapIdempotent(filled[key].items, f);
      var r := RewriteList(filled, key, f).value;
      assert r.fields[key := r.fields[key]] == r.fields;
    }
  }

  lemma ItemsIdempotent()
    ensures Idempotent(TrivyItem) && Idempotent(OsvPackage) && Idempotent(OsvItem) && Idempotent(Identity)
  {
    forall j | TrivyItem(j).Some? ensures TrivyItem(TrivyItem(j).value) == TrivyItem(j) {
      FillListsFill(j.fields, TRIVY_LISTS);
      FillListsFixed(TrivyItem(j).value.fields, TRIVY_LISTS);
    }
    forall j | OsvItem(j).Some? ensures OsvItem(OsvItem(j).value) == OsvItem(j) {
      RewriteListIdempotent(FillList(j.fields, "packages", false).value, "packages", OsvPackage);
    }
  }

  lemma NormalizeIdempotent(scanner: Scanner, result: Json)
    requires Normalize(scanner, result).Some?
    ensures Normalize(scanner, Normalize(scanner, result).value) == Normalize(scanner, result)
  {
    ItemsIdempotent();
    match scanner
    case Gitleaks =>
    case Trivy =>
      RewriteListIdempotent(FillList(result.fields, "Results", true).value, "Results", TrivyItem);
    case Osv =>
      RewriteListIdempotent(FillList(result.fields, "results", true).value, "results", OsvItem);
    case Semgrep =>
      RewriteListIdempotent(FillList(result.fields, "results", true).value, "results", Identity);
    case Unlisted =>
  }

  // ---------- what is accepted ----------

  /** Absent, null or a list. */
  ghost predicate NullableList(fields: map<string, Json>, key: string) {
    key in fields ==> fields[key].JNull? || fields[key].JArray?
  }

  ghost function Elements(fields: map<string, Json>, key: string): seq<Json> {
    if key in fields && fields[key].JArray? then fields[key].items else []
  }

  /** The output envelope each pinned scanner promises, read with absent and null lists as empty. */
  ghost predicate Acceptable(scanner: Scanner, result: Json) {
    match scanner
    case Gitleaks => result.JArray? && forall x :: x in result.items ==> x.JObject?
    case Trivy =>
      && result.JObject?
      && ("Results" in result.fields || exists k :: k in TRIVY_ENVELOPE && k in result.fields)
      && NullableList(result.fields, "Results")
      && (forall x :: x in Elements(result.fields, "Results") ==>
            x.JObject? && forall k :: k in TRIVY_LISTS ==> NullableList(x.fields, k))
    case Osv =>
      && result.JObject? && "results" in result.fields
      && NullableList(result.fields, "results")
      && (forall x :: x in Elements(result.fields, "results") ==>
            x.JObject? && NullableList(x.fields, "packages")
            && forall y :: y in Elements(x.fields, "packages") ==>
               y.JObject? && NullableList(y.fields, "vulnerabilities"))
    case Semgrep => result.JObject? && "results" in result.fields && NullableList(result.fields, "results")
    case Unlisted => true
  }

  /** The key-by-key filling of an item is one simultaneous update of the listed keys. */
  lemma {:induction false} FillListsClosedForm(fields: map<string, Json>, keys: seq<string>)
    ensures FillLists(fields, keys).Some? <==> forall k :: k in keys ==> NullableList(fields, k)
    ensures FillLists(fields, keys).Some? ==>
              FillLists(fields, keys).value ==
              fields + map k | k in keys && (k !in fields || fields[k].JNull?) :: JArray([])
  {
    if |keys| > 0 {
      var init, last := keys[..|keys| - 1], keys[|keys| - 1];
      assert forall k :: k in keys <==> k in init || k == last;
      FillListsClosedForm(fields, init);
      if FillLists(fields, init).Some? {
        assert FillList(FillLists(fields, init).value, last, true).Some? <==> NullableList(fields, last);
      } else {
        assert exists k :: k in keys && !NullableList(fields, k);
      }
    }
  }

  lemma NormalizeAcceptsIff(scanner: Scanner, result: Json)
    ensures Normalize(scanner, result).Some? <==> Acceptable(scanner, result)
  {
    match scanner
    case Trivy =>
      if result.JObject? {
        forall x: Json | x.JObject?
          ensures TrivyItem(x).Some? <==> forall k :: k in TRIVY_LISTS ==> NullableList(x.fields, k)
        {
          FillListsClosedForm(x.fields, TRIVY_LISTS);
        }
      }
    case _ =>
  }

  // ---------- the loops ----------

  lemma {:induction false} FillListsPrefix(fields: map<string, Json>, keys: seq<string>, n: nat)
    requires n <= |keys| && FillLists(fields, keys[..n]).None?
    ensures FillLists(fields, keys).None?
  {
    if n < |keys| {
      assert keys[..|keys| - 1][..n] == keys[..n];
      FillListsPrefix(fields, keys[..|keys| - 1], n);
    } else {
      assert keys[..n] == keys;
    }
  }

  lemma TryMapOf(items: seq<Json>, f: Json -> Option<Json>, mapped: seq<Json>)
    requires |mapped| == |items| && forall k :: 0 <= k < |items| ==> f(items[k]) == Some(mapped[k])
    ensures TryMap(items, f) == Some(mapped)
  {
    assert forall x :: x in items ==> f(x).Some?;
    assert TryMap(items, f).value == mapped;
  }

  method NormalizeTrivyItem(item: Json) returns (r: Option<Json>)
    ensures r == TrivyItem(item)
  {
    if !item.JObject? {
      return None;
    }
    var fields := item.fields;
    for i := 0 to |TRIVY_LISTS|
      invariant FillLists(item.fields, TRIVY_LISTS[..i]) == Some(fields)
    {
      var key := TRIVY_LISTS[i];
      assert TRIVY_LISTS[..i + 1][..i] == TRIVY_LISTS[..i];
      if key !in fields || fields[key].JNull? {
        fields := fields[key := JArray([])];
      } else if !fields[key].JArray? {
        FillListsPrefix(item.fields, TRIVY_LISTS, i + 1);
        return None;
      }
    }
    assert TRIVY_LISTS[..|TRIVY_LISTS|] == TRIVY_LISTS;
    return Some(JObject(fields));
  }

  method NormalizeTrivyItems(items: seq<Json>) returns (r: Option<seq<Json>>)
    ensures r == TryMap(items, TrivyItem)
  {
    var done: seq<Json> := [];
    for i := 0 to |items|
      invariant |done| == i && forall k :: 0 <= k < i ==> TrivyItem(items[k]) == Some(done[k])
    {
      var item := NormalizeTrivyItem(items[i]);
      if item.None? {
        assert items[i] in items;
        return None;
      }
      done := done + [item.value];
    }
    TryMapOf(items, TrivyItem, done);
    return Some(done);
  }

  method NormalizeOsvPackages(packages: seq<Json>) returns (r: Option<seq<Json>>)
    ensures r == TryMap(packages, OsvPackage)
  {
    var done: seq<Json> := [];
    for i := 0 to |packages|
      invariant |done| == i && forall k :: 0 <= k < i ==> OsvPackage(packages[k]) == Some(done[k])
    {
      assert packages[i] in packages;
      if !packages[i].JObject? {
        return None;
      }
      var fields := packages[i].fields;
      if "vulnerabilities" in fields && fields["vulnerabilities"].JNull? {
        fields := fields["vulnerabilities" := JArray([])];
      }
      if "vulnerabilities" in fields && !fields["vulnerabilities"].JArray? {
        return None;
      }
      done := done + [JObject(fields)];
    }
    TryMapOf(packages, OsvPackage, done);
    return Some(done);
  }

  method NormalizeOsvItem(item: Json) returns (r: Option<Json>)
    ensures r == OsvItem(item)
  {
    if !item.JObject? {
      return None;
    }
    var fields := item.fields;
    if "packages" in fields && fields["packages"].JNull? {
      fields := fields["packages" := JArray([])];
    }
    if "packages" in fields {
      if !fields["packages"].JArray? {
        return None;
      }
      var packages := NormalizeOsvPackages(fields["packages"].items);
      if packages.None? {
        return None;
      }
      fields := fields["packages" := JArray(packages.value)];
    }
    return Some(JObject(fields));
  }

  method NormalizeOsvItems(items: seq<Json>) returns (r: Option<seq<Json>>)
    ensures r == TryMap(items, OsvItem)
  {
    var done: seq<Json> := [];
    for i := 0 to |items|
      invariant |done| == i && forall k :: 0 <= k < i ==> OsvItem(items[k]) == Some(done[k])
    {
      var item := NormalizeOsvItem(items[i]);
      if item.None? {
        assert items[i] in items;
        return None;
      }
      done := done + [item.value];
    }
    TryMapOf(items, OsvItem, done);
    return Some(done);
  }

  /** The whole canonicalisation, on a copy of the parsed result. */
  method NormalizeScannerResult(scanner: Scanner, result: Json) returns (r: Option<Json>)
    ensures r == Normalize(scanner, result)
  {
    if scanner.Gitleaks? {
      return if result.JArray? && forall x :: x in result.items ==> x.JObject? then Some(result) else None;
    }
    if scanner.Unlisted? {
      return Some(result);
    }
    var key := if scanner.Trivy? then "Results" else "results";
    if !result.JObject? {
      return None;
    }
    var fields := result.fields;
    if key !in fields {
      if !scanner.Trivy? || forall k :: k in TRIVY_ENVELOPE ==> k !in fields {
        return None;
      }
      fields := fields[key := JArray([])];
    }
    if fields[key].JNull? {
      fields := fields[key := JArray([])];
    }
    if !fields[key].JArray? {
      return None;
    }
    var items := Some(fields[key].items);
    if scanner.Trivy? {
      items := NormalizeTrivyItems(fields[key].items);
    } else if scanner.Osv? {
      items := NormalizeOsvItems(fields[key].items);
    } else {
      TryMapOf(fields[key].items, Identity, fields[key].items);
    }
    r := if items.None? then None else Some(JObject(fields[key := JArray(items.value)]));
  }
}
