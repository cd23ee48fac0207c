/** The version-aware registry of capability manifests. */
module CapabilityRegistry {
  import opened Wrappers
  import opened Ordering
  import opened Sequences
  import Decimal
  import opened Sorting

  datatype Manifest = Manifest(capabilityId: string, version: string, toolIdentity: string)

  // ---------- versions ----------

  function SplitDots(s: string): seq<string> {
    if |s| == 0 then [""]
    else
      var rest := SplitDots(s[1..]);
      if s[0] == '.' then [""] + rest
      else if |rest| > 0 then [[s[0]] + rest[0]] + rest[1..]
      else [[s[0]]]
  }

  /** What Python's `isdigit` and `int` make of a character: superscripts are digits that `int` refuses. */
  datatype Digit = NotDigit | DecimalDigit(value: nat) | OtherDigit

  /** The Unicode table, consulted outside ASCII only. */
  type Unicode = char -> Digit

  function DigitOf(c: char, unicode: Unicode): Digit {
    if '0' <= c <= '9' then DecimalDigit(c as int - '0' as int) else if c as int < 128 then NotDigit else unicode(c)
  }

  const MAX_INT_DIGITS := 4300

  predicate IsNumber(part: string, unicode: Unicode) {
    |part| > 0 && forall i :: 0 <= i < |part| ==> !DigitOf(part[i], unicode).NotDigit?
  }

  /** A part made of digits can be read as a number: all of them are decimal, and they are not too many. */
  predicate Parses(part: string, unicode: Unicode) {
    |part| <= MAX_INT_DIGITS && forall i :: 0 <= i < |part| ==> DigitOf(part[i], unicode).DecimalDigit?
  }

  function PartValue(part: string, unicode: Unicode): nat {
    if |part| == 0 then 0
    else
      var last := DigitOf(part[|part| - 1], unicode);
      10 * PartValue(part[..|part| - 1], unicode) + if last.DecimalDigit? then last.value else 0
  }

  /** The numeric parts; the others are dropped. */
  function NumericParts(parts: seq<string>, unicode: Unicode): seq<nat> {
    if |parts| == 0 then []
    else
      (if IsNumber(parts[0], unicode) then [PartValue(parts[0], unicode)] else []) + NumericParts(parts[1..], unicode)
  }

  /** Some numeric part of the version makes `int` raise a ValueError. */
  predicate BadVersion(m: Manifest, unicode: Unicode) {
    exists part :: part in SplitDots(m.version) && IsNumber(part, unicode) && !Parses(part, unicode)
  }

  /** The key of a version that does not raise. */
  function VersionKey(version: string, unicode: Unicode): seq<nat> {
    NumericParts(SplitDots(version), unicode)
  }

  /** Python's order on tuples of integers. */
  function TupleLeq(a: seq<nat>, b: seq<nat>): bool {
    |a| == 0 || (|b| > 0 && (a[0] < b[0] || (a[0] == b[0] && TupleLeq(a[1..], b[1..]))))
  }

  function NotNewer(unicode: Unicode): (Manifest, Manifest) -> bool {
    (a: Manifest, b: Manifest) => TupleLeq(VersionKey(a.version, unicode), VersionKey(b.version, unicode))
  }

  function ListedBefore(unicode: Unicode): (Manifest, Manifest) -> bool {
    (a: Manifest, b: Manifest) =>
      Less(a.capabilityId, b.capabilityId) || (a.capabilityId == b.capabilityId && NotNewer(unicode)(a, b))
  }

  lemma {:induction false} TupleTotal(a: seq<nat>, b: seq<nat>)
    ensures TupleLeq(a, b) || TupleLeq(b, a)
  {
    if |a| > 0 && |b| > 0 && a[0] == b[0] {
      TupleTotal(a[1..], b[1..]);
    }
  }

  lemma {:induction false} TupleTransitive(a: seq<nat>, b: seq<nat>, c: seq<nat>)
    requires TupleLeq(a, b) && TupleLeq(b, c)
    ensures TupleLeq(a, c)
  {
    if |a| > 0 && a[0] == b[0] == c[0] {
      TupleTransitive(a[1..], b[1..], c[1..]);
    }
  }

  lemma VersionsArePreordered(unicode: Unicode)
    ensures TotalPreorder(NotNewer(unicode))
  {
    var le := NotNewer(unicode);
    forall a, b ensures le(a, b) || le(b, a) {
      TupleTotal(VersionKey(a.version, unicode), VersionKey(b.version, unicode));
    }
    forall a, b, c | le(a, b) && le(b, c) ensures le(a, c) {
      TupleTransitive(VersionKey(a.version, unicode), VersionKey(b.version, unicode), VersionKey(c.version, unicode));
    }
  }

  lemma ListingIsPreordered(unicode: Unicode)
    ensures TotalPreorder(ListedBefore(unicode))
  {
    VersionsArePreordered(unicode);
    var le := ListedBefore(unicode);
    forall a, b ensures le(a, b) || le(b, a) {
      LessTotal(a.capabilityId, b.capabilityId);
      assert NotNewer(unicode)(a, b) || NotNewer(unicode)(b, a);
    }
    forall a, b, c | le(a, b) && le(b, c) ensures le(a, c) {
      if Less(a.capabilityId, b.capabilityId) && Less(b.capabilityId, c.capabilityId) {
        LessTransitive(a.capabilityId, b.capabilityId, c.capabilityId);
      }
    }
  }

  // ---------- the registry ----------

  function VersionsOf(manifests: seq<Manifest>, capabilityId: string): seq<Manifest> {
    Select(manifests, (m: Manifest) => m.capabilityId == capabilityId)
  }

  predicate Registered(manifests: seq<Manifest>, capabilityId: string, version: string) {
    exists m :: m in manifests && m.capabilityId == capabilityId && m.version == version
  }

  ghost predicate UniqueVersions(manifests: seq<Manifest>) {
    forall i, j :: 0 <= i < j < |manifests| ==>
      manifests[i].capabilityId != manifests[j].capabilityId || manifests[i].version != manifests[j].version
  }

  /** `m` is the newest version of its capability, and the last registered of equally new ones. */
  ghost predicate IsNewest(manifests: seq<Manifest>, m: Manifest, unicode: Unicode) {
    var le := NotNewer(unicode);
    exists k :: && 0 <= k < |manifests| && manifests[k] == m
                && (forall i :: 0 <= i < |manifests| && manifests[i].capabilityId == m.capabilityId ==>
                      le(manifests[i], m))
                && (forall i :: k < i < |manifests| && manifests[i].capabilityId == m.capabilityId ==>
                      !le(m, manifests[i]))
  }

  datatype LookupError = UnknownCapability | InvalidVersion

  class Registry {
    /** The dictionary's values, in the order of their insertion. */
    var manifests: seq<Manifest>

    ghost predicate Valid()
      reads this
    {
      UniqueVersions(manifests)
    }

    constructor ()
      ensures Valid() && manifests == []
    {
      manifests := [];
    }

    /** False is the ValueError of a second registration. */
    method Register(m: Manifest) returns (ok: bool)
      requires Valid()
      modifies this
      ensures Valid()
      ensures ok <==> !Registered(old(manifests), m.capabilityId, m.version)
      ensures manifests == if ok then old(manifests) + [m] else old(manifests)
    {
      if Registered(manifests, m.capabilityId, m.version) {
        return false;
      }
      manifests := manifests + [m];
      return true;
    }

    /** The loop of the initialiser; without manifests it registers the default ones, and it stops at a duplicate. */
    method RegisterAll(given: seq<Manifest>, defaults: seq<Manifest>) returns (ok: bool)
      requires Valid()
      modifies this
      ensures Valid()
      ensures
        var ms := if given != [] then given else defaults;
        && (ok <==> UniqueVersions(old(manifests) + ms))
        && (ok ==> manifests == old(manifests) + ms)
    {
      var ms := if |given| > 0 then given else defaults;
      ghost var before := manifests;
      for i := 0 to |ms|
        invariant Valid() && manifests == before + ms[..i]
      {
        ok := Register(ms[i]);
        if !ok {
          DuplicateBreaksUniqueness(before, ms, i);
          return false;
        }
        assert ms[..i + 1] == ms[..i] + [ms[i]];
      }
      assert ms[..|ms|] == ms;
      return true;
    }

    /** An unversioned lookup sorts all versions of the capability, so it fails if one of their keys raises. */
    method Get(capabilityId: string, version: Option<string>, unicode: Unicode)
      returns (r: Result<Manifest, LookupError>)
      requires Valid()
      ensures r == Failure(UnknownCapability) <==>
              if version.Some? then !Registered(manifests, capabilityId, version.value)
              else !exists m :: m in manifests && m.capabilityId == capabilityId
      ensures r == Failure(InvalidVersion) <==>
              version.None? && exists m :: m in manifests && m.capabilityId == capabilityId && BadVersion(m, unicode)
      ensures r.Success? ==> r.value in manifests && r.value.capabilityId == capabilityId
      ensures r.Success? && version.Some? ==> r.value.version == version.value
      ensures r.Success? && version.None? ==> IsNewest(manifests, r.value, unicode)
    {
      if version.Some? {
        if !Registered(manifests, capabilityId, version.value) {
          return Failure(UnknownCapability);
        }
        var m :| m in manifests && m.capabilityId == capabilityId && m.version == version.value;
        return Success(m);
      }
      var versions := VersionsOf(manifests, capabilityId);
      VersionsOfMembers(manifests, capabilityId);
      if |versions| == 0 {
        return Failure(UnknownCapability);
      }
      assert versions[0] in versions;
      if exists m :: m in versions && BadVersion(m, unicode) {
        return Failure(InvalidVersion);
      }
      NewestIsLast(manifests, capabilityId, unicode);
      return Success(Sort(versions, NotNewer(unicode))[|versions| - 1]);
    }

    /** The stable sort by id and version; it fails if some registered version raises. */
    method Listing(unicode: Unicode) returns (r: Result<seq<Manifest>, LookupError>)
      ensures r.Failure? <==> exists m :: m in manifests && BadVersion(m, unicode)
      ensures r.Failure? ==> r.error == InvalidVersion
      ensures r.Success? ==> Sorted(r.value, ListedBefore(unicode)) && multiset(r.value) == multiset(manifests)
      ensures r.Success? ==> forall m ::
                Select(r.value, SameRank(ListedBefore(unicode), m)) ==
                  Select(manifests, SameRank(ListedBefore(unicode), m))
    {
      if exists m :: m in manifests && BadVersion(m, unicode) {
        return Failure(InvalidVersion);
      }
      var le := ListedBefore(unicode);
      ListingIsPreordered(unicode);
      SortFacts(manifests, le);
      forall m ensures Select(Sort(manifests, le), SameRank(le, m)) == Select(manifests, SameRank(le, m)) {
        SortStable(manifests, le, m);
      }
      r := Success(Sort(manifests, le));
    }
  }

  /** A version that makes every unversioned lookup of its capability, and every listing, fail. */
  lemma SuperscriptIsBad(m: Manifest, unicode: Unicode)
    requires unicode('\U{B2}') == OtherDigit && m.version == "1.\U{B2}"
    ensures BadVersion(m, unicode)
  {
    var part := "\U{B2}";
    assert SplitDots("") == [""] && part[1..] == "";
    assert part[0] != '.' && [part[0]] + "" == part;
    assert SplitDots(part) == [[part[0]] + ""] + [""][1..];
    assert SplitDots(part) == [part];
    assert m.version[1..] == "." + part && ("." + part)[1..] == part;
    assert SplitDots("." + part) == ["", part];
    assert m.version[0] != '.' && [m.version[0]] + "" == "1";
    assert SplitDots(m.version) == ["1"] + ["", part][1..];
    assert SplitDots(m.version)[1] == part;
    assert part in SplitDots(m.version) && IsNumber(part, unicode) && !Parses(part, unicode);
  }

  lemma DuplicateBreaksUniqueness(before: seq<Manifest>, ms: seq<Manifest>, i: nat)
    requires i < |ms| && Registered(before + ms[..i], ms[i].capabilityId, ms[i].version)
    ensures !UniqueVersions(before + ms)
  {
    var seen, all := before + ms[..i], before + ms;
    var m :| m in seen && m.capabilityId == ms[i].capabilityId && m.version == ms[i].version;
    var k :| 0 <= k < |seen| && seen[k] == m;
    assert all[k] == m && all[|before| + i] == ms[i];
  }

  lemma VersionsOfMembers(manifests: seq<Manifest>, capabilityId: string)
    ensures forall m :: m in VersionsOf(manifests, capabilityId) <==> m in manifests && m.capabilityId == capabilityId
  {
    SelectMembers(manifests, (m: Manifest) => m.capabilityId == capabilityId);
  }

  lemma NewestIsLast(manifests: seq<Manifest>, capabilityId: string, unicode: Unicode)
    requires |VersionsOf(manifests, capabilityId)| > 0
    ensures
      var versions := VersionsOf(manifests, capabilityId);
      && |Sort(versions, NotNewer(unicode))| == |versions|
      && var m := Sort(versions, NotNewer(unicode))[|versions| - 1];
         m in manifests && m.capabilityId == capabilityId && IsNewest(manifests, m, unicode)
  {
    var versions, le := VersionsOf(manifests, capabilityId), NotNewer(unicode);
    VersionsArePreordered(unicode);
    VersionsOfMembers(manifests, capabilityId);
    var k := LastIsLatestGreatest(versions, le);
    var p := SelectPosition(manifests, (m: Manifest) => m.capabilityId == capabilityId, k);
    var m := versions[k];
    assert m in versions;
    forall i | 0 <= i < |manifests| && manifests[i].capabilityId == capabilityId ensures le(manifests[i], m) {
      assert manifests[i] in versions;
    }
    forall q | p < q < |manifests| && manifests[q].capabilityId == capabilityId ensures !le(m, manifests[q]) {
      var j :| 0 <= j < |versions[k + 1..]| && versions[k + 1..][j] == manifests[q];
      assert versions[k + 1 + j] == manifests[q];
    }
    assert manifests[p] == m;
  }

  // ---------- what versions mean ----------

  function JoinDots(parts: seq<string>): string
    requires |parts| > 0
  {
    if |parts| == 1 then parts[0] else parts[0] + "." + JoinDots(parts[1..])
  }

  /** A character before the first part. */
  lemma JoinLonger(c: char, first: string, rest: seq<string>)
    ensures JoinDots([[c] + first] + rest) == [c] + JoinDots([first] + rest)
  {
    assert ([[c] + first] + rest)[1..] == rest && ([first] + rest)[1..] == rest;
    if |rest| > 0 {
      assert [c] + first + "." + JoinDots(rest) == [c] + (first + "." + JoinDots(rest));
    }
  }

  /** The parts of a version are what stands between its dots. */
  lemma {:induction false} SplitDotsIs(s: string)
    ensures |SplitDots(s)| > 0 && JoinDots(SplitDots(s)) == s
  {
    if |s| > 0 {
      SplitDotsIs(s[1..]);
      var rest := SplitDots(s[1..]);
      assert s == [s[0]] + s[1..];
      if s[0] == '.' {
        assert ([""] + rest)[1..] == rest;
      } else {
        assert rest == [rest[0]] + rest[1..];
        JoinLonger(s[0], rest[0], rest[1..]);
      }
    }
  }

  lemma {:induction false} PartsHaveNoDots(s: string)
    ensures forall part :: part in SplitDots(s) ==> '.' !in part
  {
    if |s| > 0 {
      SplitDotsIs(s[1..]);
      PartsHaveNoDots(s[1..]);
      var rest := SplitDots(s[1..]);
      assert rest[0] in rest;
    }
  }

  lemma {:induction false} SplitAtDot(a: string, b: string)
    requires '.' !in a
    ensures SplitDots(a + "." + b) == [a] + SplitDots(b)
  {
    var s := a + "." + b;
    if |a| == 0 {
      assert s[1..] == b;
    } else {
      assert s[1..] == a[1..] + "." + b && s[0] == a[0];
      SplitAtDot(a[1..], b);
      assert [a[0]] + a[1..] == a;
    }
  }

  lemma {:induction false} NoDotNoSplit(a: string)
    requires '.' !in a
    ensures SplitDots(a) == [a]
  {
    if |a| > 0 {
      NoDotNoSplit(a[1..]);
      assert [a[0]] + a[1..] == a;
    }
  }

  /** In ASCII the ten digits count, and elsewhere what the table says. */
  lemma DigitMeans(c: char, unicode: Unicode)
    ensures 48 <= c as int <= 57 ==> DigitOf(c, unicode) == DecimalDigit(c as int - 48)
    ensures c as int < 48 || 57 < c as int < 128 ==> DigitOf(c, unicode) == NotDigit
    ensures c as int >= 128 ==> DigitOf(c, unicode) == unicode(c)
  {
  }

  /** A digit appended to a part multiplies its value by ten. */
  lemma PartValueAppend(part: string, c: char, unicode: Unicode)
    requires DigitOf(c, unicode).DecimalDigit?
    ensures PartValue(part + [c], unicode) == 10 * PartValue(part, unicode) + DigitOf(c, unicode).value
  {
    assert (part + [c])[..|part|] == part;
  }

  lemma {:induction false} PrintedPart(n: nat, unicode: Unicode)
    ensures IsNumber(Decimal.Print(n), unicode) && PartValue(Decimal.Print(n), unicode) == n
    ensures '.' !in Decimal.Print(n)
    ensures forall c :: c in Decimal.Print(n) ==> DigitOf(c, unicode).DecimalDigit?
  {
    if n < 10 {
      assert Decimal.Print(n)[..0] == "";
    } else {
      PrintedPart(n / 10, unicode);
      PartValueAppend(Decimal.Print(n / 10), Decimal.DigitChar(n % 10), unicode);
    }
  }

  /** The version written with the given numbers. */
  function Dotted(numbers: seq<nat>): string
    requires |numbers| > 0
  {
    if |numbers| == 1 then Decimal.Print(numbers[0]) else Decimal.Print(numbers[0]) + "." + Dotted(numbers[1..])
  }

  /** The key of a dotted version is the list of its numbers. */
  lemma {:induction false} KeyOfDotted(numbers: seq<nat>, unicode: Unicode)
    requires |numbers| > 0
    ensures VersionKey(Dotted(numbers), unicode) == numbers
  {
    PrintedPart(numbers[0], unicode);
    if |numbers| == 1 {
      NoDotNoSplit(Decimal.Print(numbers[0]));
      assert NumericParts([], unicode) == [];
      assert numbers == [numbers[0]];
    } else {
      SplitAtDot(Decimal.Print(numbers[0]), Dotted(numbers[1..]));
      KeyOfDotted(numbers[1..], unicode);
      assert ([Decimal.Print(numbers[0])] + SplitDots(Dotted(numbers[1..])))[1..] == SplitDots(Dotted(numbers[1..]));
    }
  }

  /** Parts with anything but digits do not count. */
  lemma {:induction false} OtherPartsDropped(parts: seq<string>, other: string, rest: seq<string>, unicode: Unicode)
    requires other == "" || exists c :: c in other && DigitOf(c, unicode).NotDigit?
    ensures NumericParts(parts + [other] + rest, unicode) == NumericParts(parts + rest, unicode)
  {
    var all := parts + [other] + rest;
    if |parts| == 0 {
      assert all[1..] == rest && parts + rest == rest;
      assert !IsNumber(other, unicode);
    } else {
      assert all[0] == parts[0] && all[1..] == parts[1..] + [other] + rest;
      assert (parts + rest)[0] == parts[0] && (parts + rest)[1..] == parts[1..] + rest;
      OtherPartsDropped(parts[1..], other, rest, unicode);
    }
  }

  /** The first list ends, or has the smaller number, where the lists first differ. */
  ghost predicate SmallerAt(a: seq<nat>, b: seq<nat>, k: nat) {
    k <= |a| && k < |b| && a[..k] == b[..k] && (k == |a| || a[k] < b[k])
  }

  /** Lists of numbers are compared at their first difference, and a proper prefix is smaller. */
  lemma {:induction false} TupleLeqIff(a: seq<nat>, b: seq<nat>)
    ensures TupleLeq(a, b) <==> a == b || exists k: nat :: SmallerAt(a, b, k)
  {
    if |a| == 0 || |b| == 0 {
      assert |a| == 0 && |b| > 0 ==> SmallerAt(a, b, 0);
    } else if a[0] == b[0] {
      TupleLeqIff(a[1..], b[1..]);
      assert a == [a[0]] + a[1..] && b == [b[0]] + b[1..];
      if k: nat :| SmallerAt(a[1..], b[1..], k) {
        assert a[..k + 1] == [a[0]] + a[1..][..k] && b[..k + 1] == [b[0]] + b[1..][..k];
        assert SmallerAt(a, b, k + 1);
      }
      if k: nat :| SmallerAt(a, b, k) {
        assert a[1..][..k - 1] == a[..k][1..] && b[1..][..k - 1] == b[..k][1..];
        assert SmallerAt(a[1..], b[1..], k - 1);
      }
    } else {
      assert a[0] < b[0] ==> SmallerAt(a, b, 0);
      forall k: nat ensures SmallerAt(a, b, k) ==> k == 0 {
        LaterSmaller(a, b, k);
      }
    }
  }

  lemma LaterSmaller(a: seq<nat>, b: seq<nat>, k: nat)
    ensures SmallerAt(a, b, k) && k > 0 ==> a[0] == b[0]
  {
    if SmallerAt(a, b, k) && k > 0 {
      assert a[..k][0] == b[..k][0];
    }
  }

  /** Versions are compared as numbers, part by part, and not as texts: 1.10 is newer than 1.9. */
  lemma NumbersDecide(a: Manifest, b: Manifest, x: seq<nat>, y: seq<nat>, unicode: Unicode)
    requires |x| > 0 && |y| > 0 && a.version == Dotted(x) && b.version == Dotted(y)
    ensures NotNewer(unicode)(a, b) <==> x == y || exists k: nat :: SmallerAt(x, y, k)
  {
    KeyOfDotted(x, unicode);
    KeyOfDotted(y, unicode);
    TupleLeqIff(x, y);
  }

  lemma TenIsNewerThanNine(unicode: Unicode)
    ensures
      var nine, ten := Manifest("c", "1.9", "t"), Manifest("c", "1.10", "t");
      NotNewer(unicode)(nine, ten) && !NotNewer(unicode)(ten, nine)
  {
    assert Dotted([1, 9]) == "1.9" && Dotted([1, 10]) == "1.10" by {
      assert [1, 9][1..] == [9] && [1, 10][1..] == [10];
      assert Decimal.Print(1) == "1" && Decimal.Print(9) == "9" && Decimal.Print(10) == "10";
    }
    var nine, ten := Manifest("c", "1.9", "t"), Manifest("c", "1.10", "t");
    NumbersDecide(nine, ten, [1, 9], [1, 10], unicode);
    NumbersDecide(ten, nine, [1, 10], [1, 9], unicode);
    assert SmallerAt([1, 9], [1, 10], 1);
    forall k: nat ensures !SmallerAt([1, 10], [1, 9], k) {
      if k == 2 {
        assert [1, 10][..2][1] == 10 && [1, 9][..2][1] == 9;
      }
    }
  }

  /** The listing goes by id first and by version then. */
  lemma ListedBeforeIff(a: Manifest, b: Manifest, unicode: Unicode)
    ensures ListedBefore(unicode)(a, b) <==>
            || (exists k: nat :: DifferAt(a.capabilityId, b.capabilityId, k))
            || (a.capabilityId == b.capabilityId && NotNewer(unicode)(a, b))
  {
    LessIff(a.capabilityId, b.capabilityId);
  }

  /** A version in ASCII raises exactly if a part of digits alone has more than 4300 of them. */
  lemma BadAsciiVersion(m: Manifest, unicode: Unicode)
    requires forall c :: c in m.version ==> c as int < 128
    ensures BadVersion(m, unicode) <==>
            exists part :: part in SplitDots(m.version) && |part| > 4300 && forall c :: c in part ==> '0' <= c <= '9'
  {
    forall part | part in SplitDots(m.version)
      ensures IsNumber(part, unicode) && !Parses(part, unicode) <==> |part| > 4300 && forall c :: c in part ==>
              '0' <= c <= '9'
    {
      PartCharacters(m.version, part);
      assert forall i :: 0 <= i < |part| ==> part[i] in part;
    }
  }

  lemma {:induction false} PartCharacters(s: string, part: string)
    requires part in SplitDots(s)
    ensures forall c :: c in part ==> c in s
  {
    if |s| > 0 {
      SplitDotsIs(s[1..]);
      var rest := SplitDots(s[1..]);
      assert s == [s[0]] + s[1..];
      if part in rest {
        PartCharacters(s[1..], part);
      } else if s[0] != '.' {
        PartCharacters(s[1..], rest[0]);
        assert part == [s[0]] + rest[0];
      }
    }
  }
}
