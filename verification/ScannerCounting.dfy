/**
 Counting what a scanner reported and classifying its run.  The count reads
 lengths of whatever sits under the counted keys, so it can raise, and it can
 see the length of a text; both are modelled.
 */
module ScannerCounting {
  import opened Wrappers
  import opened Json
  import opened ScannerResults
  import opened ScannerNormalization

  /** `Raises` is the TypeError of taking a length of, or iterating over, a number or `true`. */
  datatype Count = Counted(n: nat) | Raises {
    function Plus(other: Count): Count {
      if Raises? || other.Raises? then Raises else Counted(n + other.n)
    }
  }

  predicate Falsy(j: Json) {
    match j
    case JNull => true
    case JBool(b) => !b
    case JNumber(n) => n == 0.0
    case JString(s) => |s| == 0
    case JArray(items) => |items| == 0
    case JObject(fields) => fields == map[]
  }

  /** The length of the value under a key; a missing or falsy value has none. */
  function LenOrZero(fields: map<string, Json>, key: string): Count {
    if key !in fields || Falsy(fields[key]) then Counted(0)
    else match fields[key]
      case JString(s) => Counted(|s|)
      case JArray(items) => Counted(|items|)
      case JObject(inner) => Counted(|inner|)
      case _ => Raises
  }

  function Total(items: seq<Json>, f: Json -> Count): Count {
    if |items| == 0 then Counted(0) else Total(items[..|items| - 1], f).Plus(f(items[|items| - 1]))
  }

  function PackageCount(package: Json): Count {
    if package.JObject? then LenOrZero(package.fields, "vulnerabilities") else Counted(0)
  }

  /** Iterating over a text or an object yields no package objects. */
  function GroupCount(group: Json): Count {
    if !group.JObject? || "packages" !in group.fields || Falsy(group.fields["packages"]) then Counted(0)
    else match group.fields["packages"]
      case JArray(packages) => Total(packages, PackageCount)
      case JString(_) => Counted(0)
      case JObject(_) => Counted(0)
      case _ => Raises
  }

  function SectionCount(item: Json): Count {
    if !item.JObject? then Counted(0)
    else LenOrZero(item.fields, TRIVY_LISTS[0]).Plus(LenOrZero(item.fields, TRIVY_LISTS[1]))
         .Plus(LenOrZero(item.fields, TRIVY_LISTS[2])).Plus(LenOrZero(item.fields, TRIVY_LISTS[3]))
  }

  predicate HasList(result: Json, key: string) {
    result.JObject? && key in result.fields && result.fields[key].JArray?
  }

  function ListUnder(result: Json, key: string): seq<Json>
    requires HasList(result, key)
  {
    result.fields[key].items
  }

  function SectionsCount(items: seq<Json>): Count {
    Total(items, SectionCount)
  }

  function PackagesCount(groups: seq<Json>): Count {
    Total(groups, GroupCount)
  }

  predicate AnyPackages(groups: seq<Json>) {
    exists group :: group in groups && group.JObject? && "packages" in group.fields
  }

  /** Some entry of the lower-case results list has packages, so packages are counted. */
  predicate Grouped(result: Json) {
    HasList(result, "results") && AnyPackages(ListUnder(result, "results"))
  }

  function ResultCount(result: Option<Json>): Count {
    if result.None? then Counted(0)
    else
      var r := result.value;
      if r.JArray? then Counted(|r.items|)
      else if Grouped(r) then PackagesCount(ListUnder(r, "results"))
      else if HasList(r, "results") then Counted(|ListUnder(r, "results")|)
      else if HasList(r, "findings") then Counted(|ListUnder(r, "findings")|)
      else if HasList(r, "Results") then SectionsCount(ListUnder(r, "Results"))
      else Counted(0)
  }

  // ---------- which texts are counted ----------

  predicate TextAt(fields: map<string, Json>, key: string) {
    key in fields && fields[key].JString?
  }

  predicate PackageText(package: Json) {
    package.JObject? && TextAt(package.fields, "vulnerabilities")
  }

  predicate GroupText(group: Json) {
    HasList(group, "packages") && exists package :: package in group.fields["packages"].items && PackageText(package)
  }

  predicate SectionText(item: Json) {
    item.JObject? && exists i :: 0 <= i < |TRIVY_LISTS| && TextAt(item.fields, TRIVY_LISTS[i])
  }

  /** A text stands where a list is counted. */
  predicate CountsText(r: Json) {
    if Grouped(r) then exists group :: group in r.fields["results"].items && GroupText(group)
    else !HasList(r, "results") && !HasList(r, "findings") && HasList(r, "Results")
         && exists item :: item in r.fields["Results"].items && SectionText(item)
  }

  /** Counting with `f` raises independently of redaction, and sees only the texts `t` points out. */
  ghost predicate Tracks(f: Json -> Count, t: Json -> bool, rho: string -> string) {
    forall j :: (f(MapStrings(j, rho)).Raises? <==> f(j).Raises?) && (!t(j) ==> f(MapStrings(j, rho)) == f(j))
  }

  /** A redactor that makes every text longer. */
  function Longer(s: string): string { s + "x" }

  /** Counting with `f` really sees those texts. */
  ghost predicate Grows(f: Json -> Count, t: Json -> bool) {
    forall j :: f(j).Counted? ==>
      var g := f(MapStrings(j, Longer));
      g.Counted? && g.n >= f(j).n && (t(j) ==> g.n > f(j).n)
  }

  lemma {:induction false} TotalTracks(items: seq<Json>, f: Json -> Count, t: Json -> bool, rho: string -> string)
    requires Tracks(f, t, rho)
    ensures Total(MapItems(items, rho), f).Raises? <==> Total(items, f).Raises?
    ensures (forall x :: x in items ==> !t(x)) ==> Total(MapItems(items, rho), f) == Total(items, f)
  {
    if |items| > 0 {
      var init := items[..|items| - 1];
      assert MapItems(items, rho)[..|items| - 1] == MapItems(init, rho);
      TotalTracks(init, f, t, rho);
      assert items[|items| - 1] in items;
    }
  }

  lemma {:induction false} TotalGrows(items: seq<Json>, f: Json -> Count, t: Json -> bool)
    requires Grows(f, t) && Total(items, f).Counted?
    ensures Total(MapItems(items, Longer), f).Counted?
    ensures Total(MapItems(items, Longer), f).n >= Total(items, f).n
    ensures (exists x :: x in items && t(x)) ==> Total(MapItems(items, Longer), f).n > Total(items, f).n
  {
    if |items| > 0 {
      var init, last := items[..|items| - 1], items[|items| - 1];
      assert MapItems(items, Longer)[..|items| - 1] == MapItems(init, Longer);
      assert forall x :: x in items ==> x in init || x == last;
      TotalGrows(init, f, t);
    }
  }

  lemma LenTracks(fields: map<string, Json>, key: string, rho: string -> string)
    ensures LenOrZero(MapFields(fields, rho), key).Raises? <==> LenOrZero(fields, key).Raises?
    ensures !TextAt(fields, key) ==> LenOrZero(MapFields(fields, rho), key) == LenOrZero(fields, key)
    ensures TextAt(fields, key) ==> LenOrZero(MapFields(fields, rho), key) == Counted(|rho(fields[key].s)|)
    ensures TextAt(fields, key) ==> LenOrZero(fields, key) == Counted(|fields[key].s|)
  {
    if key in fields && fields[key].JObject? {
      var inner := fields[key].fields;
      MapStringsShape(inner, [], rho);
      assert MapFields(inner, rho).Keys == inner.Keys;
    }
  }

  lemma PackageTracks(rho: string -> string)
    ensures Tracks(PackageCount, PackageText, rho)
  {
    forall j: Json | j.JObject?
      ensures PackageCount(MapStrings(j, rho)).Raises? <==> PackageCount(j).Raises?
      ensures !PackageText(j) ==> PackageCount(MapStrings(j, rho)) == PackageCount(j)
    {
      MapStringsShape(j.fields, [], rho);
      LenTracks(j.fields, "vulnerabilities", rho);
    }
  }

  lemma PackageGrows()
    ensures Grows(PackageCount, PackageText)
  {
    PackageTracks(Longer);
    forall j: Json | j.JObject? && PackageText(j)
      ensures PackageCount(MapStrings(j, Longer)).Counted?
      ensures PackageCount(j).Counted? && PackageCount(MapStrings(j, Longer)).n > PackageCount(j).n
    {
      MapStringsShape(j.fields, [], Longer);
      LenTracks(j.fields, "vulnerabilities", Longer);
    }
  }

  lemma GroupTracksOne(fields: map<string, Json>, rho: string -> string)
    requires "packages" in fields
    ensures GroupCount(JObject(MapFields(fields, rho))).Raises? <==> GroupCount(JObject(fields)).Raises?
    ensures !GroupText(JObject(fields)) ==> GroupCount(JObject(MapFields(fields, rho))) == GroupCount(JObject(fields))
  {
    match fields["packages"]
    case JArray(packages) =>
      PackageTracks(rho);
      MapStringsShape(fields, packages, rho);
      TotalTracks(packages, PackageCount, PackageText, rho);
    case JObject(inner) =>
      MapStringsShape(inner, [], rho);
      assert MapFields(inner, rho).Keys == inner.Keys;
    case _ =>
  }

  lemma GroupTracksAt(j: Json, rho: string -> string)
    ensures GroupCount(MapStrings(j, rho)).Raises? <==> GroupCount(j).Raises?
    ensures !GroupText(j) ==> GroupCount(MapStrings(j, rho)) == GroupCount(j)
  {
    if j.JObject? {
      MapStringsShape(j.fields, [], rho);
      if "packages" in j.fields {
        GroupTracksOne(j.fields, rho);
      }
    }
  }

  lemma GroupTracks(rho: string -> string)
    ensures Tracks(GroupCount, GroupText, rho)
  {
    forall j
      ensures GroupCount(MapStrings(j, rho)).Raises? <==> GroupCount(j).Raises?
      ensures !GroupText(j) ==> GroupCount(MapStrings(j, rho)) == GroupCount(j)
    {
      GroupTracksAt(j, rho);
    }
  }

  lemma GroupGrows()
    ensures Grows(GroupCount, GroupText)
  {
    PackageGrows();
    GroupTracks(Longer);
    forall j: Json | GroupText(j) && GroupCount(j).Counted?
      ensures GroupCount(MapStrings(j, Longer)).Counted?
      ensures GroupCount(MapStrings(j, Longer)).n > GroupCount(j).n
    {
      var packages := j.fields["packages"].items;
      MapStringsShape(j.fields, packages, Longer);
      TotalGrows(packages, PackageCount, PackageText);
    }
  }

  lemma SectionTracks(rho: string -> string)
    ensures Tracks(SectionCount, SectionText, rho)
  {
    forall j: Json | j.JObject?
      ensures SectionCount(MapStrings(j, rho)).Raises? <==> SectionCount(j).Raises?
      ensures !SectionText(j) ==> SectionCount(MapStrings(j, rho)) == SectionCount(j)
    {
      MapStringsShape(j.fields, [], rho);
      forall i | 0 <= i < |TRIVY_LISTS|
        ensures LenOrZero(MapFields(j.fields, rho), TRIVY_LISTS[i]).Raises? <==>
                LenOrZero(j.fields, TRIVY_LISTS[i]).Raises?
        ensures !TextAt(j.fields, TRIVY_LISTS[i]) ==>
                  LenOrZero(MapFields(j.fields, rho), TRIVY_LISTS[i]) == LenOrZero(j.fields, TRIVY_LISTS[i])
      {
        LenTracks(j.fields, TRIVY_LISTS[i], rho);
      }
    }
  }

  /** The count does not fall, and grows if a text is seen. */
  ghost predicate Grown(before: Count, after: Count, seen: bool) {
    before.Counted? ==> after.Counted? && after.n >= before.n && (seen ==> after.n > before.n)
  }

  lemma PlusGrows(a: Count, b: Count, a': Count, b': Count, s: bool, t: bool)
    requires Grown(a, a', s) && Grown(b, b', t)
    ensures Grown(a.Plus(b), a'.Plus(b'), s || t)
  {
  }

  lemma LenGrows(fields: map<string, Json>, key: string)
    ensures Grown(LenOrZero(fields, key), LenOrZero(MapFields(fields, Longer), key), TextAt(fields, key))
  {
    LenTracks(fields, key, Longer);
  }

  lemma SumGrows(fields: map<string, Json>, a: string, b: string, c: string, d: string)
    ensures
      var longer := MapFields(fields, Longer);
      Grown(LenOrZero(fields, a).Plus(LenOrZero(fields, b)).Plus(LenOrZero(fields, c)).Plus(LenOrZero(fields, d)),
            LenOrZero(longer, a).Plus(LenOrZero(longer, b)).Plus(LenOrZero(longer, c)).Plus(LenOrZero(longer, d)),
            TextAt(fields, a) || TextAt(fields, b) || TextAt(fields, c) || TextAt(fields, d))
  {
    var longer := MapFields(fields, Longer);
    LenGrows(fields, a);
    LenGrows(fields, b);
    LenGrows(fields, c);
    LenGrows(fields, d);
    var la, lb, lc, ld := LenOrZero(fields, a), LenOrZero(fields, b), LenOrZero(fields, c), LenOrZero(fields, d);
    var ma, mb, mc, md := LenOrZero(longer, a), LenOrZero(longer, b), LenOrZero(longer, c), LenOrZero(longer, d);
    PlusGrows(la, lb, ma, mb, TextAt(fields, a), TextAt(fields, b));
    PlusGrows(la.Plus(lb), lc, ma.Plus(mb), mc, TextAt(fields, a) || TextAt(fields, b), TextAt(fields, c));
    PlusGrows(la.Plus(lb).Plus(lc), ld, ma.Plus(mb).Plus(mc), md,
              TextAt(fields, a) || TextAt(fields, b) || TextAt(fields, c), TextAt(fields, d));
  }

  lemma SectionGrowsOne(fields: map<string, Json>)
    ensures Grown(SectionCount(JObject(fields)), SectionCount(JObject(MapFields(fields, Longer))),
                  SectionText(JObject(fields)))
  {
    SumGrows(fields, TRIVY_LISTS[0], TRIVY_LISTS[1], TRIVY_LISTS[2], TRIVY_LISTS[3]);
  }

  lemma SectionGrows()
    ensures Grows(SectionCount, SectionText)
  {
    SectionTracks(Longer);
    forall j: Json | SectionText(j) && SectionCount(j).Counted?
      ensures SectionCount(MapStrings(j, Longer)).Counted?
      ensures SectionCount(MapStrings(j, Longer)).n > SectionCount(j).n
    {
      MapStringsShape(j.fields, [], Longer);
      SectionGrowsOne(j.fields);
    }
  }

  // ---------- the count of a whole result ----------

  lemma ShapeUnchanged(r: Json, rho: string -> string)
    ensures forall key :: HasList(MapStrings(r, rho), key) <==> HasList(r, key)
    ensures forall key :: HasList(r, key) ==>
              HasList(MapStrings(r, rho), key)
                && MapStrings(r, rho).fields[key].items == MapItems(r.fields[key].items, rho)
    ensures Grouped(MapStrings(r, rho)) <==> Grouped(r)
  {
    if r.JObject? {
      MapStringsShape(r.fields, [], rho);
    }
    forall key | HasList(r, key) ensures MapStrings(r, rho).fields[key].items == MapItems(r.fields[key].items, rho) {
      MapStringsShape(map[], r.fields[key].items, rho);
    }
    if HasList(r, "results") {
      GroupsUnchanged(r.fields["results"].items, rho);
    }
  }

  lemma GroupsUnchanged(groups: seq<Json>, rho: string -> string)
    ensures (exists g :: g in MapItems(groups, rho) && g.JObject? && "packages" in g.fields) <==>
            (exists g :: g in groups && g.JObject? && "packages" in g.fields)
  {
    forall i | 0 <= i < |groups|
      ensures MapItems(groups, rho)[i].JObject? <==> groups[i].JObject?
      ensures groups[i].JObject? ==> MapItems(groups, rho)[i].fields.Keys == groups[i].fields.Keys
    {
    }
    if g :| g in groups && g.JObject? && "packages" in g.fields {
      var i :| 0 <= i < |groups| && groups[i] == g;
      assert MapItems(groups, rho)[i] in MapItems(groups, rho);
    }
  }

  /** Redaction never changes whether counting raises, and changes the count only through a counted text. */
  lemma CountUnderRedaction(r: Json, rho: string -> string)
    ensures ResultCount(Some(MapStrings(r, rho))).Raises? <==> ResultCount(Some(r)).Raises?
    ensures !CountsText(r) ==> ResultCount(Some(MapStrings(r, rho))) == ResultCount(Some(r))
  {
    ShapeUnchanged(r, rho);
    if r.JArray? {
    } else if Grouped(r) {
      GroupTracks(rho);
      TotalTracks(r.fields["results"].items, GroupCount, GroupText, rho);
    } else if HasList(r, "Results") {
      SectionTracks(rho);
      TotalTracks(r.fields["Results"].items, SectionCount, SectionText, rho);
    }
  }

  lemma TotalSeesText(r: Json, key: string, f: Json -> Count, t: Json -> bool)
    requires HasList(r, key) && Total(r.fields[key].items, f).Counted? && Grows(f, t)
    requires exists x :: x in r.fields[key].items && t(x)
    ensures HasList(MapStrings(r, Longer), key)
    ensures
      var longer := Total(MapStrings(r, Longer).fields[key].items, f);
      longer.Counted? && longer.n > Total(r.fields[key].items, f).n
  {
    ShapeUnchanged(r, Longer);
    TotalGrows(r.fields[key].items, f, t);
  }

  lemma GroupedCountSeesText(r: Json)
    requires Grouped(r) && CountsText(r) && ResultCount(Some(r)).Counted?
    ensures
      var longer := ResultCount(Some(MapStrings(r, Longer)));
      longer.Counted? && longer.n > ResultCount(Some(r)).n
  {
    ShapeUnchanged(r, Longer);
    var longer := MapStrings(r, Longer).fields["results"].items;
    assert Total(longer, GroupCount).Counted?
           && Total(longer, GroupCount).n > Total(r.fields["results"].items, GroupCount).n by {
      GroupGrows();
      TotalSeesText(r, "results", GroupCount, GroupText);
    }
  }

  lemma SectionCountSeesText(r: Json)
    requires !Grouped(r) && CountsText(r) && ResultCount(Some(r)).Counted?
    ensures
      var longer := ResultCount(Some(MapStrings(r, Longer)));
      longer.Counted? && longer.n > ResultCount(Some(r)).n
  {
    ShapeUnchanged(r, Longer);
    var longer := MapStrings(r, Longer).fields["Results"].items;
    assert Total(longer, SectionCount).Counted?
           && Total(longer, SectionCount).n > Total(r.fields["Results"].items, SectionCount).n by {
      SectionGrows();
      TotalSeesText(r, "Results", SectionCount, SectionText);
    }
  }

  lemma CountSeesText(r: Json)
    requires CountsText(r) && ResultCount(Some(r)).Counted?
    ensures
      var longer := ResultCount(Some(MapStrings(r, Longer)));
      longer.Counted? && longer.n > ResultCount(Some(r)).n
  {
    if Grouped(r) {
      GroupedCountSeesText(r);
    } else {
      SectionCountSeesText(r);
    }
  }

  /** The count is the same under every redactor exactly when it raises or no text is counted. */
  lemma CountStableIff(r: Json)
    ensures (forall rho: string -> string :: ResultCount(Some(MapStrings(r, rho))) == ResultCount(Some(r))) <==>
            ResultCount(Some(r)).Raises? || !CountsText(r)
  {
    forall rho: string -> string
      ensures ResultCount(Some(r)).Raises? || !CountsText(r) ==>
              ResultCount(Some(MapStrings(r, rho))) == ResultCount(Some(r))
    {
      CountUnderRedaction(r, rho);
    }
    if CountsText(r) && ResultCount(Some(r)).Counted? {
      CountSeesText(r);
    }
  }

  // ---------- the least count a redactor can leave ----------

  function Emptied(s: string): string { "" }

  lemma {:induction false} EmptiedAbsorbs(j: Json, rho: string -> string)
    ensures MapStrings(MapStrings(j, rho), Emptied) == MapStrings(j, Emptied)
  {
    match j
    case JArray(items) =>
      MapStringsShape(map[], items, rho);
      forall i | 0 <= i < |items|
        ensures MapStrings(MapStrings(items[i], rho), Emptied) == MapStrings(items[i], Emptied) {
        EmptiedAbsorbs(items[i], rho);
      }
    case JObject(fields) =>
      MapStringsShape(fields, [], rho);
      forall k | k in fields ensures MapStrings(MapStrings(fields[k], rho), Emptied) == MapStrings(fields[k], Emptied) {
        EmptiedAbsorbs(fields[k], rho);
      }
    case _ =>
  }

  /** Emptying the texts never makes the count of `f` larger. */
  ghost predicate Shrinks(f: Json -> Count) {
    forall j :: f(j).Counted? ==> var g := f(MapStrings(j, Emptied)); g.Counted? && g.n <= f(j).n
  }

  lemma {:induction false} TotalShrinks(items: seq<Json>, f: Json -> Count)
    requires Shrinks(f) && Total(items, f).Counted?
    ensures Total(MapItems(items, Emptied), f).Counted?
    ensures Total(MapItems(items, Emptied), f).n <= Total(items, f).n
  {
    if |items| > 0 {
      var init := items[..|items| - 1];
      assert MapItems(items, Emptied)[..|items| - 1] == MapItems(init, Emptied);
      TotalShrinks(init, f);
    }
  }

  lemma PackageShrinks()
    ensures Shrinks(PackageCount)
  {
    forall j: Json | j.JObject? && PackageCount(j).Counted?
      ensures PackageCount(MapStrings(j, Emptied)).Counted?
              && PackageCount(MapStrings(j, Emptied)).n <= PackageCount(j).n
    {
      MapStringsShape(j.fields, [], Emptied);
      LenTracks(j.fields, "vulnerabilities", Emptied);
    }
  }

  lemma GroupShrinks()
    ensures Shrinks(GroupCount)
  {
    PackageShrinks();
    forall j | GroupCount(j).Counted?
      ensures GroupCount(MapStrings(j, Emptied)).Counted? && GroupCount(MapStrings(j, Emptied)).n <= GroupCount(j).n
    {
      GroupTracksAt(j, Emptied);
      if GroupText(j) {
        var packages := j.fields["packages"].items;
        MapStringsShape(j.fields, packages, Emptied);
        TotalShrinks(packages, PackageCount);
      }
    }
  }

  lemma LenShrinks(fields: map<string, Json>, key: string)
    ensures LenOrZero(fields, key).Counted? ==>
              var emptied := LenOrZero(MapFields(fields, Emptied), key);
              emptied.Counted? && emptied.n <= LenOrZero(fields, key).n
  {
    LenTracks(fields, key, Emptied);
  }

  lemma PlusShrinks(a: Count, b: Count, a': Count, b': Count)
    requires a.Plus(b).Counted?
    requires a.Counted? ==> a'.Counted? && a'.n <= a.n
    requires b.Counted? ==> b'.Counted? && b'.n <= b.n
    ensures a'.Plus(b').Counted? && a'.Plus(b').n <= a.Plus(b).n
  {
  }

  lemma SectionShrinksOne(fields: map<string, Json>)
    requires SectionCount(JObject(fields)).Counted?
    ensures SectionCount(JObject(MapFields(fields, Emptied))).Counted?
    ensures SectionCount(JObject(MapFields(fields, Emptied))).n <= SectionCount(JObject(fields)).n
  {
    var emptied := MapFields(fields, Emptied);
    var a, a' := LenOrZero(fields, TRIVY_LISTS[0]), LenOrZero(emptied, TRIVY_LISTS[0]);
    var b, b' := LenOrZero(fields, TRIVY_LISTS[1]), LenOrZero(emptied, TRIVY_LISTS[1]);
    var c, c' := LenOrZero(fields, TRIVY_LISTS[2]), LenOrZero(emptied, TRIVY_LISTS[2]);
    var d, d' := LenOrZero(fields, TRIVY_LISTS[3]), LenOrZero(emptied, TRIVY_LISTS[3]);
    LenShrinks(fields, TRIVY_LISTS[0]);
    LenShrinks(fields, TRIVY_LISTS[1]);
    LenShrinks(fields, TRIVY_LISTS[2]);
    LenShrinks(fields, TRIVY_LISTS[3]);
    PlusShrinks(a, b, a', b');
    PlusShrinks(a.Plus(b), c, a'.Plus(b'), c');
    PlusShrinks(a.Plus(b).Plus(c), d, a'.Plus(b').Plus(c'), d');
  }

  lemma SectionShrinks()
    ensures Shrinks(SectionCount)
  {
    forall j: Json | j.JObject? && SectionCount(j).Counted?
      ensures SectionCount(MapStrings(j, Emptied)).Counted?
              && SectionCount(MapStrings(j, Emptied)).n <= SectionCount(j).n
    {
      MapStringsShape(j.fields, [], Emptied);
      SectionShrinksOne(j.fields);
    }
  }

  lemma CountShrinks(r: Json)
    requires ResultCount(Some(r)).Counted?
    ensures
      var emptied := ResultCount(Some(MapStrings(r, Emptied)));
      emptied.Counted? && emptied.n <= ResultCount(Some(r)).n
  {
    CountUnderRedaction(r, Emptied);
    ShapeUnchanged(r, Emptied);
    if CountsText(r) && Grouped(r) {
      GroupShrinks();
      TotalShrinks(r.fields["results"].items, GroupCount);
    } else if CountsText(r) {
      SectionShrinks();
      TotalShrinks(r.fields["Results"].items, SectionCount);
    }
  }

  /** Whatever the redactor, at least what is counted with every text emptied is counted. */
  lemma EmptiedIsLeast(r: Json, rho: string -> string)
    requires ResultCount(Some(r)).Counted?
    ensures
      var least, redacted := ResultCount(Some(MapStrings(r, Emptied))), ResultCount(Some(MapStrings(r, rho)));
      least.Counted? && redacted.Counted? && least.n <= redacted.n
  {
    CountUnderRedaction(r, rho);
    EmptiedAbsorbs(r, rho);
    CountShrinks(MapStrings(r, rho));
  }

  /** Where package groups can only come from a validated result. */
  predicate PackagesValidated(scanner: Scanner, normalized: Json) {
    scanner.Gitleaks? || scanner.Osv? || (!scanner.Unlisted? && !Grouped(normalized))
  }

  lemma {:induction false} TotalCounted(items: seq<Json>, f: Json -> Count)
    requires forall x :: x in items ==> f(x).Counted?
    ensures Total(items, f).Counted?
  {
    if |items| > 0 {
      TotalCounted(items[..|items| - 1], f);
    }
  }

  /** Every accepted result whose packages are validated can be counted, and no text is counted in it. */
  lemma AcceptedIsCountable(scanner: Scanner, result: Json)
    requires Normalize(scanner, result).Some? && PackagesValidated(scanner, Normalize(scanner, result).value)
    ensures ResultCount(Normalize(scanner, result)).Counted? && !CountsText(Normalize(scanner, result).value)
  {
    var n := Normalize(scanner, result).value;
    match scanner
    case Gitleaks =>
    case Trivy =>
      forall x | x in n.fields["Results"].items ensures SectionCount(x).Counted? && !SectionText(x) {
        TrivySectionCountable(result.fields, n, x);
      }
      if HasList(n, "Results") {
        TotalCounted(n.fields["Results"].items, SectionCount);
      }
    case Osv =>
      forall x | x in n.fields["results"].items ensures GroupCount(x).Counted? && !GroupText(x) {
        OsvGroupCountable(result.fields, n, x);
      }
      TotalCounted(n.fields["results"].items, GroupCount);
    case Semgrep =>
  }

  lemma RewrittenElement(fields: map<string, Json>, key: string, f: Json -> Option<Json>, n: Json, x: Json)
    returns (y: Json)
    requires FillAndRewrite(fields, key, f) == Some(n) && key in n.fields && n.fields[key].JArray?
             && x in n.fields[key].items
    ensures f(y) == Some(x)
  {
    var filled := FillList(fields, key, true).value;
    var i :| 0 <= i < |n.fields[key].items| && n.fields[key].items[i] == x;
    y := filled[key].items[i];
    assert y in filled[key].items;
  }

  lemma TrivySectionCountable(fields: map<string, Json>, n: Json, x: Json)
    requires FillAndRewrite(fields, "Results", TrivyItem) == Some(n)
    requires HasList(n, "Results") && x in n.fields["Results"].items
    ensures SectionCount(x).Counted? && !SectionText(x)
  {
    var y := RewrittenElement(fields, "Results", TrivyItem, n, x);
    FillListsFill(y.fields, TRIVY_LISTS);
    assert forall i :: 0 <= i < |TRIVY_LISTS| ==> TRIVY_LISTS[i] in TRIVY_LISTS;
  }

  lemma OsvPackageCountable(p: Json)
    requires exists q :: OsvPackage(q) == Some(p)
    ensures PackageCount(p).Counted? && !PackageText(p)
  {
  }

  lemma OsvPackagesCountable(raw: seq<Json>, packages: seq<Json>)
    requires TryMap(raw, OsvPackage) == Some(packages)
    ensures Total(packages, PackageCount).Counted? && forall p :: p in packages ==> !PackageText(p)
  {
    forall p | p in packages ensures PackageCount(p).Counted? && !PackageText(p) {
      var i :| 0 <= i < |packages| && packages[i] == p;
      assert raw[i] in raw && OsvPackage(raw[i]) == Some(p);
      OsvPackageCountable(p);
    }
    TotalCounted(packages, PackageCount);
  }

  lemma OsvItemCountable(y: Json, x: Json)
    requires OsvItem(y) == Some(x)
    ensures GroupCount(x).Counted? && !GroupText(x)
  {
    var filled := FillList(y.fields, "packages", false).value;
    if "packages" in filled {
      var packages := TryMap(filled["packages"].items, OsvPackage).value;
      OsvPackagesCountable(filled["packages"].items, packages);
      assert x.fields["packages"] == JArray(packages);
    }
  }

  lemma OsvGroupCountable(fields: map<string, Json>, n: Json, x: Json)
    requires FillAndRewrite(fields, "results", OsvItem) == Some(n)
    requires HasList(n, "results") && x in n.fields["results"].items
    ensures GroupCount(x).Counted? && !GroupText(x)
  {
    var y := RewrittenElement(fields, "results", OsvItem, n, x);
    OsvItemCountable(y, x);
  }

  // ---------- the class of a run ----------

  datatype RunOutcome = TIMEOUT | MALFORMED_OUTPUT | FINDINGS | SUCCESS | FAILED

  /** What the scanner wrote: nothing but blanks, something that is not JSON, or a JSON value. */
  datatype Stdout = Blank | Unparsable | Parsed(value: Json)

  function Classify(timedOut: bool, malformed: bool, exitCode: int, count: nat): RunOutcome {
    if timedOut then TIMEOUT
    else if malformed then MALFORMED_OUTPUT
    else if exitCode != 0 && count > 0 then FINDINGS
    else if exitCode == 0 then SUCCESS
    else FAILED
  }

  /**
   The classification of one run; None is an escaping TypeError.  A JSON null
   is taken for unparsable output, and an absent result is normalised as null.
   */
  function ScannerOutcome(scanner: Scanner, stdout: Stdout, rho: string -> string, timedOut: bool, exitCode: int)
    : Option<RunOutcome>
  {
    var parsed := if stdout.Parsed? && !stdout.value.JNull? then Some(MapStrings(stdout.value, rho)) else None;
    var unparsed := stdout.Unparsable? || (stdout.Parsed? && stdout.value.JNull?);
    var normalized := Normalize(scanner, if parsed.Some? then parsed.value else JNull);
    match ResultCount(if normalized.Some? then normalized else parsed)
    case Raises => None
    case Counted(count) => Some(Classify(timedOut, unparsed || normalized.None?, exitCode, count))
  }

  /** The class of a run with an accepted result, from the count of the redacted normalised tree. */
  lemma OutcomeOfAccepted(scanner: Scanner, result: Json, rho: string -> string, timedOut: bool, exitCode: int)
    requires !result.JNull? && Normalize(scanner, result).Some?
    ensures ScannerOutcome(scanner, Parsed(result), rho, timedOut, exitCode) ==
            match ResultCount(Some(MapStrings(Normalize(scanner, result).value, rho)))
            case Raises => None
            case Counted(count) => Some(Classify(timedOut, false, exitCode, count))
  {
    NormalizeCommutesWithRedaction(scanner, result, rho);
  }

  /**
   Something other than the length of a text decides the class: a timeout, a
   zero exit, a refusal, a count that raises, a count without texts, or one
   that is positive even with every text emptied.
   */
  predicate TextsDecideNothing(scanner: Scanner, result: Json, timedOut: bool, exitCode: int) {
    || timedOut || exitCode == 0
    || Normalize(scanner, result).None?
    || (var n := Normalize(scanner, result).value;
        || !CountsText(n)
        || ResultCount(Some(n)).Raises?
        || (var least := ResultCount(Some(MapStrings(n, Emptied))); least.Counted? && least.n > 0))
  }

  lemma OutcomeIgnoresRedaction(scanner: Scanner, result: Json, rho: string -> string, timedOut: bool, exitCode: int)
    requires TextsDecideNothing(scanner, result, timedOut, exitCode)
    ensures ScannerOutcome(scanner, Parsed(result), rho, timedOut, exitCode) ==
            ScannerOutcome(scanner, Parsed(result), s => s, timedOut, exitCode)
  {
    MapStringsIdentity(result);
    if result.JNull? {
      return;
    }
    match Normalize(scanner, result)
    case None =>
      NormalizeCommutesWithRedaction(scanner, result, rho);
      CountUnderRedaction(result, rho);
    case Some(n) =>
      OutcomeOfAccepted(scanner, result, rho, timedOut, exitCode);
      OutcomeOfAccepted(scanner, result, s => s, timedOut, exitCode);
      MapStringsIdentity(n);
      CountUnderRedaction(n, rho);
      if ResultCount(Some(n)).Counted? {
        EmptiedIsLeast(n, rho);
        EmptiedIsLeast(n, s => s);
      }
  }

  /** Otherwise emptying the texts and lengthening them give two classes. */
  lemma TextsDecide(scanner: Scanner, result: Json, timedOut: bool, exitCode: int)
    requires !TextsDecideNothing(scanner, result, timedOut, exitCode)
    ensures ScannerOutcome(scanner, Parsed(result), Emptied, timedOut, exitCode) == Some(FAILED)
    ensures ScannerOutcome(scanner, Parsed(result), Longer, timedOut, exitCode) == Some(FINDINGS)
  {
    var n := Normalize(scanner, result).value;
    OutcomeOfAccepted(scanner, result, Emptied, timedOut, exitCode);
    OutcomeOfAccepted(scanner, result, Longer, timedOut, exitCode);
    EmptiedIsLeast(n, Emptied);
    CountSeesText(n);
  }

  /** The redactor leaves the class of the run as it is without any redaction. */
  ghost predicate KeepsOutcome(rho: string -> string, scanner: Scanner, result: Json, timedOut: bool, exitCode: int) {
    ScannerOutcome(scanner, Parsed(result), rho, timedOut, exitCode) ==
    ScannerOutcome(scanner, Parsed(result), s => s, timedOut, exitCode)
  }

  /** Exactly when the class of a run is the same under every redactor. */
  lemma OutcomeStableIff(scanner: Scanner, result: Json, timedOut: bool, exitCode: int)
    ensures (forall rho: string -> string :: KeepsOutcome(rho, scanner, result, timedOut, exitCode)) <==>
            TextsDecideNothing(scanner, result, timedOut, exitCode)
  {
    if TextsDecideNothing(scanner, result, timedOut, exitCode) {
      forall rho: string -> string ensures KeepsOutcome(rho, scanner, result, timedOut, exitCode) {
        OutcomeIgnoresRedaction(scanner, result, rho, timedOut, exitCode);
      }
    } else {
      TextsDecide(scanner, result, timedOut, exitCode);
      assert !KeepsOutcome(Emptied, scanner, result, timedOut, exitCode)
             || !KeepsOutcome(Longer, scanner, result, timedOut, exitCode);
    }
  }

  /** A Semgrep result with one package, which holds a text for its vulnerabilities. */
  function OneText(s: string): Json {
    JObject(map["results" := JArray([OneTextGroup(s)])])
  }

  function OneTextGroup(s: string): Json {
    JObject(map["packages" := JArray([OneTextPackage(s)])])
  }

  function OneTextPackage(s: string): Json {
    JObject(map["vulnerabilities" := JString(s)])
  }

  lemma TotalOfOne(x: Json, f: Json -> Count)
    ensures Total([x], f) == f(x)
  {
    assert [x][..0] == [] && Total([], f) == Counted(0);
  }

  lemma OneTextRewritten(s: string, rho: string -> string)
    ensures MapStrings(OneText(s), rho) == OneText(rho(s))
  {
    assert MapStrings(OneTextPackage(s), rho) == OneTextPackage(rho(s));
    assert MapItems([OneTextPackage(s)], rho) == [OneTextPackage(rho(s))];
    assert MapStrings(OneTextGroup(s), rho) == OneTextGroup(rho(s));
    assert MapItems([OneTextGroup(s)], rho) == [OneTextGroup(rho(s))];
  }

  lemma OneTextAccepted(s: string)
    ensures Normalize(Semgrep, OneText(s)) == Some(OneText(s))
  {
    var fields, items := OneText(s).fields, [OneTextGroup(s)];
    TryMapOf(items, Identity, items);
    assert FillList(fields, "results", true) == Some(fields);
    assert fields["results" := JArray(items)] == fields;
  }

  lemma OneTextCount(s: string)
    ensures Normalize(Semgrep, OneText(s)) == Some(OneText(s))
    ensures CountsText(OneText(s)) && ResultCount(Some(OneText(s))) == Counted(|s|)
  {
    OneTextAccepted(s);
    assert OneTextPackage(s) in [OneTextPackage(s)] && OneTextGroup(s) in [OneTextGroup(s)];
    assert PackageText(OneTextPackage(s)) && GroupText(OneTextGroup(s)) && Grouped(OneText(s));
    assert PackageCount(OneTextPackage(s)) == Counted(|s|);
    TotalOfOne(OneTextPackage(s), PackageCount);
    assert GroupCount(OneTextGroup(s)) == Counted(|s|);
    TotalOfOne(OneTextGroup(s), GroupCount);
  }

  lemma OneTextIsDecisive(s: string, exitCode: int)
    requires exitCode != 0
    ensures !TextsDecideNothing(Semgrep, OneText(s), false, exitCode)
  {
    OneTextCount(s);
    OneTextRewritten(s, Emptied);
    OneTextCount("");
  }

  /** Accepted results whose class depends on the redactor: any such text, and a nonzero exit. */
  lemma RedactionDecides(s: string, exitCode: int)
    requires exitCode != 0
    ensures ScannerOutcome(Semgrep, Parsed(OneText(s)), Emptied, false, exitCode) == Some(FAILED)
    ensures ScannerOutcome(Semgrep, Parsed(OneText(s)), Longer, false, exitCode) == Some(FINDINGS)
  {
    OneTextIsDecisive(s, exitCode);
    TextsDecide(Semgrep, OneText(s), false, exitCode);
  }

  lemma {:induction false} MapStringsIdentity(j: Json)
    ensures MapStrings(j, s => s) == j
  {
    match j
    case JArray(items) =>
      forall i | 0 <= i < |items| ensures MapStrings(items[i], s => s) == items[i] {
        MapStringsIdentity(items[i]);
      }
    case JObject(fields) =>
      forall k | k in fields ensures MapStrings(fields[k], s => s) == fields[k] {
        MapStringsIdentity(fields[k]);
      }
    case _ =>
  }

  /** For validated packages texts never decide: redaction changes nothing about the run. */
  lemma ValidatedOutcomeIgnoresRedaction(scanner: Scanner, result: Json, redactText: string -> string, timedOut: bool,
                                         exitCode: int)
    requires Normalize(scanner, result).Some? && PackagesValidated(scanner, Normalize(scanner, result).value)
    ensures
      var outcome := ScannerOutcome(scanner, Parsed(result), Redactor(redactText), timedOut, exitCode);
      outcome.Some? && outcome == ScannerOutcome(scanner, Parsed(result), s => s, timedOut, exitCode)
  {
    AcceptedIsCountable(scanner, result);
    OutcomeIgnoresRedaction(scanner, result, Redactor(redactText), timedOut, exitCode);
    MapStringsIdentity(result);
  }
}
