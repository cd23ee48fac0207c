/** Bounded identifier slugs derived from free text. */
module Identifiers {

  const MAX_SLUG := 56
  const SLUG_PREFIX := 45
  const SLUG_DIGEST := 10

  predicate Allowed(c: char) {
    'A' <= c <= 'Z' || 'a' <= c <= 'z' || '0' <= c <= '9' || c == '_' || c == '.' || c == '-'
  }

  predicate AllAllowed(s: string) {
    forall i :: 0 <= i < |s| ==> Allowed(s[i])
  }

  /** Every run of unsafe characters becomes one dash; `inRun` says that the previous character was unsafe. */
  function Collapse(s: string, inRun: bool): string {
    if |s| == 0 then ""
    else if Allowed(s[0]) then [s[0]] + Collapse(s[1..], false)
    else (if inRun then "" else "-") + Collapse(s[1..], true)
  }

  function StripLeft(s: string): string {
    if |s| > 0 && s[0] == '-' then StripLeft(s[1..]) else s
  }

  function StripRight(s: string): string {
    if |s| > 0 && s[|s| - 1] == '-' then StripRight(s[..|s| - 1]) else s
  }

  /** A hexadecimal digest function, such as SHA-256's `hexdigest`. */
  ghost predicate IsHexDigest(digest: string -> string) {
    forall s :: |digest(s)| >= SLUG_DIGEST
                && forall i :: 0 <= i < |digest(s)| ==> '0' <= digest(s)[i] <= '9' || 'a' <= digest(s)[i] <= 'f'
  }

  /** The normalised text: unsafe runs become dashes, and outer dashes go. */
  function Norm(value: string): string {
    StripRight(StripLeft(Collapse(value, false)))
  }

  function SafeSlug(value: string, digest: string -> string): string
    requires |digest(value)| >= SLUG_DIGEST
  {
    var normalized := Norm(value);
    if |normalized| > MAX_SLUG then normalized[..SLUG_PREFIX] + "-" + digest(value)[..SLUG_DIGEST]
    else if |normalized| > 0 then normalized
    else "root"
  }

  /** The identifiers the slug function can produce. */
  predicate IsSlug(s: string) {
    1 <= |s| <= MAX_SLUG && AllAllowed(s) && s[0] != '-' && s[|s| - 1] != '-'
  }

  lemma {:induction false} CollapseAllowed(s: string, inRun: bool)
    ensures AllAllowed(Collapse(s, inRun))
    ensures AllAllowed(s) ==> Collapse(s, inRun) == s
  {
    if |s| > 0 {
      CollapseAllowed(s[1..], false);
      CollapseAllowed(s[1..], true);
      assert AllAllowed(s) ==> AllAllowed(s[1..]);
      assert s == [s[0]] + s[1..];
    }
  }

  lemma {:induction false} StripLeftFacts(s: string)
    requires AllAllowed(s)
    ensures AllAllowed(StripLeft(s)) && (|StripLeft(s)| > 0 ==> StripLeft(s)[0] != '-')
  {
    if |s| > 0 && s[0] == '-' {
      StripLeftFacts(s[1..]);
    }
  }

  lemma {:induction false} StripRightFacts(s: string)
    requires AllAllowed(s)
    ensures AllAllowed(StripRight(s)) && StripRight(s) <= s
    ensures |StripRight(s)| > 0 ==> StripRight(s)[|StripRight(s)| - 1] != '-'
  {
    if |s| > 0 && s[|s| - 1] == '-' {
      StripRightFacts(s[..|s| - 1]);
    }
  }

  /** Every slug is short, uses only safe characters, and neither starts nor ends with a dash. */
  lemma SlugIsSafe(value: string, digest: string -> string)
    requires IsHexDigest(digest)
    ensures IsSlug(SafeSlug(value, digest))
  {
    CollapseAllowed(value, false);
    StripLeftFacts(Collapse(value, false));
    StripRightFacts(StripLeft(Collapse(value, false)));
    var normalized := Norm(value);
    if |normalized| > MAX_SLUG {
      var suffix := digest(value)[..SLUG_DIGEST];
      assert forall i :: 0 <= i < |suffix| ==> suffix[i] == digest(value)[i];
      assert suffix[SLUG_DIGEST - 1] != '-';
    }
  }

  /** Slugs are exactly the texts the function leaves alone; hence it is idempotent. */
  lemma FixedExactlyOnSlugs(value: string, digest: string -> string)
    requires IsHexDigest(digest)
    ensures SafeSlug(value, digest) == value <==> IsSlug(value)
    ensures SafeSlug(SafeSlug(value, digest), digest) == SafeSlug(value, digest)
  {
    SlugIsSafe(value, digest);
    if IsSlug(value) {
      CollapseAllowed(value, false);
    }
    CollapseAllowed(SafeSlug(value, digest), false);
  }

  // ---------- what the normalisation does ----------

  /** The safe characters are the ASCII letters and digits and three marks. */
  lemma AllowedCodes(c: char)
    ensures Allowed(c) <==>
            65 <= c as int <= 90 || 97 <= c as int <= 122 || 48 <= c as int <= 57 || c as int in {45, 46, 95}
  {
  }

  ghost predicate AllUnsafe(s: string) {
    forall i :: 0 <= i < |s| ==> !Allowed(s[i])
  }

  lemma {:induction false} CollapseAfterSafe(a: string, s: string, inRun: bool)
    requires |a| > 0 && Allowed(a[|a| - 1])
    ensures Collapse(a + s, inRun) == Collapse(a, inRun) + Collapse(s, false)
  {
    assert (a + s)[1..] == a[1..] + s && (a + s)[0] == a[0];
    if |a| == 1 {
      assert a[1..] == "" && a[1..] + s == s;
    } else {
      CollapseAfterSafe(a[1..], s, !Allowed(a[0]));
      var head := if Allowed(a[0]) then [a[0]] else if inRun then "" else "-";
      assert head + (Collapse(a[1..], !Allowed(a[0])) + Collapse(s, false)) ==
             head + Collapse(a[1..], !Allowed(a[0])) + Collapse(s, false);
    }
  }

  lemma {:induction false} CollapseUnsafe(u: string, b: string)
    requires AllUnsafe(u)
    ensures Collapse(u + b, true) == Collapse(b, true)
    ensures |u| > 0 ==> Collapse(u + b, false) == "-" + Collapse(b, true)
  {
    if |u| == 0 {
      assert u + b == b;
    } else {
      assert (u + b)[1..] == u[1..] + b && (u + b)[0] == u[0];
      CollapseUnsafe(u[1..], b);
    }
  }

  lemma SafeStartsRun(b: string)
    requires |b| > 0 ==> Allowed(b[0])
    ensures Collapse(b, true) == Collapse(b, false)
  {
  }

  lemma RunThen(u: string, b: string)
    requires AllUnsafe(u) && |u| > 0 && (|b| > 0 ==> Allowed(b[0]))
    ensures Collapse(u + b, false) == "-" + Collapse(b, false)
  {
    CollapseUnsafe(u, b);
    SafeStartsRun(b);
  }

  lemma CollapseSplits(a: string, s: string)
    requires |a| > 0 ==> Allowed(a[|a| - 1])
    ensures Collapse(a + s, false) == Collapse(a, false) + Collapse(s, false)
  {
    if |a| > 0 {
      CollapseAfterSafe(a, s, false);
    } else {
      assert a + s == s && Collapse(a, false) == "";
    }
  }

  /** A maximal run of unsafe characters, wherever it stands, becomes one dash. */
  lemma RunBecomesDash(a: string, u: string, b: string)
    requires AllUnsafe(u) && |u| > 0
    requires (|a| > 0 ==> Allowed(a[|a| - 1])) && (|b| > 0 ==> Allowed(b[0]))
    ensures Collapse(a + (u + b), false) == Collapse(a, false) + ("-" + Collapse(b, false))
  {
    RunThen(u, b);
    CollapseSplits(a, u + b);
  }

  ghost function Dashes(n: nat): string {
    seq(n, _ => '-')
  }

  lemma {:induction false} StripLeftDashes(s: string) returns (n: nat)
    ensures s == Dashes(n) + StripLeft(s)
  {
    n := 0;
    if |s| > 0 && s[0] == '-' {
      n := StripLeftDashes(s[1..]);
      n := n + 1;
      assert s == [s[0]] + s[1..];
    }
  }

  lemma {:induction false} StripRightDashes(s: string) returns (n: nat)
    ensures s == StripRight(s) + Dashes(n)
  {
    n := 0;
    if |s| > 0 && s[|s| - 1] == '-' {
      n := StripRightDashes(s[..|s| - 1]);
      n := n + 1;
      assert s == s[..|s| - 1] + [s[|s| - 1]];
    }
  }

  /** Normalising takes away the outer dashes of the collapsed text, and no more. */
  lemma NormIsTrimmed(value: string) returns (m: nat, n: nat)
    ensures Collapse(value, false) == Dashes(m) + Norm(value) + Dashes(n)
    ensures Norm(value) != "" ==> Norm(value)[0] != '-' && Norm(value)[|Norm(value)| - 1] != '-'
  {
    var collapsed := Collapse(value, false);
    CollapseAllowed(value, false);
    StripLeftFacts(collapsed);
    StripRightFacts(StripLeft(collapsed));
    m := StripLeftDashes(collapsed);
    n := StripRightDashes(StripLeft(collapsed));
  }

  /** The slug of a text: its normal form if that has 1 to 56 characters, or an abbreviation with a digest. */
  lemma SlugIs(value: string, digest: string -> string)
    requires IsHexDigest(digest)
    ensures Norm(value) == "" ==> SafeSlug(value, digest) == "root"
    ensures 1 <= |Norm(value)| <= 56 ==> SafeSlug(value, digest) == Norm(value)
    ensures |Norm(value)| > 56 ==> SafeSlug(value, digest) == Norm(value)[..45] + "-" + digest(value)[..10]
  {
  }

  // ---------- when two texts share a slug ----------

  predicate Bounded(value: string) {
    |Norm(value)| <= MAX_SLUG
  }

  /** `n` is, by chance, the abbreviation of the long text `w`. */
  predicate Abbreviates(n: string, w: string, digest: string -> string)
    requires |digest(w)| >= SLUG_DIGEST && !Bounded(w)
  {
    |n| == MAX_SLUG && n[..SLUG_PREFIX] == Norm(w)[..SLUG_PREFIX] && n[SLUG_PREFIX] == '-'
    && n[SLUG_PREFIX + 1..] == digest(w)[..SLUG_DIGEST]
  }

  /** Two long texts agree in 45 characters and in their digests. */
  predicate AbbreviatedAlike(v: string, w: string, digest: string -> string)
    requires |digest(v)| >= SLUG_DIGEST && |digest(w)| >= SLUG_DIGEST && !Bounded(v) && !Bounded(w)
  {
    Norm(v)[..SLUG_PREFIX] == Norm(w)[..SLUG_PREFIX] && digest(v)[..SLUG_DIGEST] == digest(w)[..SLUG_DIGEST]
  }

  /**
   Two texts share a slug exactly when they normalise alike, where nothing
   counts as "root"; when two long ones are abbreviated alike; or when one is
   the abbreviation of the other.
   */
  lemma SameSlugIff(v: string, w: string, digest: string -> string)
    requires IsHexDigest(digest)
    ensures SafeSlug(v, digest) == SafeSlug(w, digest) <==>
            if Bounded(v) && Bounded(w) then Norm(v) == Norm(w) || {Norm(v), Norm(w)} == {"", "root"}
            else if Bounded(v) then Abbreviates(Norm(v), w, digest)
            else if Bounded(w) then Abbreviates(Norm(w), v, digest)
            else AbbreviatedAlike(v, w, digest)
  {
    if Bounded(v) && Bounded(w) {
      EmptyIsRoot(v, digest);
      EmptyIsRoot(w, digest);
    } else {
      SlugParts(v, digest);
      SlugParts(w, digest);
      var s, t := SafeSlug(v, digest), SafeSlug(w, digest);
      if |s| == |t| == MAX_SLUG && s[..SLUG_PREFIX] == t[..SLUG_PREFIX] && s[SLUG_PREFIX] == t[SLUG_PREFIX]
         && s[SLUG_PREFIX + 1..] == t[SLUG_PREFIX + 1..] {
        SplitAgain(s, t);
      }
    }
  }

  lemma EmptyIsRoot(v: string, digest: string -> string)
    requires IsHexDigest(digest) && Bounded(v)
    ensures SafeSlug(v, digest) == if Norm(v) == "" then "root" else Norm(v)
  {
  }

  lemma SlugParts(v: string, digest: string -> string)
    requires IsHexDigest(digest)
    ensures
      var s := SafeSlug(v, digest);
      if Bounded(v) then |s| == MAX_SLUG ==> s == Norm(v)
      else && |s| == MAX_SLUG && s[..SLUG_PREFIX] == Norm(v)[..SLUG_PREFIX] && s[SLUG_PREFIX] == '-'
           && s[SLUG_PREFIX + 1..] == digest(v)[..SLUG_DIGEST]
  {
  }

  lemma SplitAgain(s: string, t: string)
    requires |s| == |t| == MAX_SLUG
    requires s[..SLUG_PREFIX] == t[..SLUG_PREFIX] && s[SLUG_PREFIX] == t[SLUG_PREFIX]
    requires s[SLUG_PREFIX + 1..] == t[SLUG_PREFIX + 1..]
    ensures s == t
  {
    assert s == s[..SLUG_PREFIX] + [s[SLUG_PREFIX]] + s[SLUG_PREFIX + 1..];
    assert t == t[..SLUG_PREFIX] + [t[SLUG_PREFIX]] + t[SLUG_PREFIX + 1..];
  }

  lemma OneUnsafe(c: char)
    requires !Allowed(c)
    ensures Norm("a" + ([c] + "b")) == "a-b"
  {
    CollapseAllowed("a", false);
    CollapseAllowed("b", false);
    RunBecomesDash("a", [c], "b");
    assert "a" + ("-" + "b") == "a-b";
  }

  /** Slugs identify less than the text they come from: different punctuation collides. */
  lemma SlugsCollide(digest: string -> string)
    requires IsHexDigest(digest)
    ensures SafeSlug("a b", digest) == SafeSlug("a/b", digest) == "a-b"
  {
    OneUnsafe(' ');
    OneUnsafe('/');
    assert "a" + ([' '] + "b") == "a b" && "a" + (['/'] + "b") == "a/b";
  }

  // ---------- every slug is shared ----------

  lemma {:induction false} CollapseTrailing(s: string, c: char, inRun: bool)
    requires !Allowed(c)
    ensures Collapse(s + [c], inRun) in {Collapse(s, inRun), Collapse(s, inRun) + "-"}
  {
    if |s| == 0 {
      assert s + [c] == [c] && [c][1..] == "";
      assert Collapse([c], inRun) == if inRun then "" else "-";
      assert Collapse(s, inRun) + "-" == "-";
    } else {
      assert (s + [c])[1..] == s[1..] + [c] && (s + [c])[0] == s[0];
      CollapseTrailing(s[1..], c, !Allowed(s[0]));
      var head := if Allowed(s[0]) then [s[0]] else if inRun then "" else "-";
      var rest := Collapse(s[1..], !Allowed(s[0]));
      assert head + (rest + "-") == head + rest + "-";
    }
  }

  lemma {:induction false} StripLeftTrailing(s: string)
    ensures StripLeft(s + "-") == if StripLeft(s) == "" then "" else StripLeft(s) + "-"
  {
    if |s| > 0 && s[0] == '-' {
      assert (s + "-")[1..] == s[1..] + "-";
      StripLeftTrailing(s[1..]);
    } else if |s| == 0 {
      assert s + "-" == "-" && "-"[1..] == "";
    }
  }

  /** An unsafe character at the end is not seen. */
  lemma NormIgnoresTrailing(s: string, c: char)
    requires !Allowed(c)
    ensures Norm(s + [c]) == Norm(s)
  {
    CollapseTrailing(s, c, false);
    var collapsed := Collapse(s, false);
    StripLeftTrailing(collapsed);
    var stripped := StripLeft(collapsed);
    assert (stripped + "-")[..|stripped + "-"| - 1] == stripped;
  }

  /** A slug never identifies its text: every text shares its slug with another one. */
  lemma EverySlugIsShared(v: string, digest: string -> string)
    requires IsHexDigest(digest)
    ensures exists w :: w != v && SafeSlug(w, digest) == SafeSlug(v, digest)
  {
    FixedExactlyOnSlugs(v, digest);
    if IsSlug(v) {
      NormIgnoresTrailing(v, '/');
      CollapseAllowed(v, false);
      assert |v + "/"| != |v| && SafeSlug(v + "/", digest) == SafeSlug(v, digest);
    } else {
      assert SafeSlug(v, digest) != v;
    }
  }
}
