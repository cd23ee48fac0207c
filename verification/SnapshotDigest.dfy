/**
 The text whose digest identifies a repository snapshot: every path and its
 content, each closed by a NUL, in the order of the sorted paths.
 */
module SnapshotDigest {
  import opened Ordering

  const NUL := 0 as char

  /** `order` is some iteration order of the dictionary. */
  ghost predicate IterationOrder(files: map<string, string>, order: seq<string>) {
    forall path :: path in order <==> path in files
  }

  function Frames(files: map<string, string>, paths: seq<string>): string
    requires forall path :: path in paths ==> path in files
  {
    if |paths| == 0 then ""
    else paths[0] + [NUL] + files[paths[0]] + [NUL] + Frames(files, paths[1..])
  }

  /** The input of the digest. */
  function DigestInput(files: map<string, string>, order: seq<string>): string
    requires IterationOrder(files, order)
  {
    SortedSetFacts(order);
    Frames(files, SortedSet(order))
  }

  /** The text of one file: the path and the content, each with the character of code 0 behind it. */
  lemma OneFileText(path: string, content: string, nul: char)
    requires nul as int == 0
    ensures IterationOrder(map[path := content], [path])
    ensures DigestInput(map[path := content], [path]) == path + [nul] + content + [nul]
  {
    var files := map[path := content];
    assert [path][..0] == [] && SortedSet([]) == [] && SortedSet([path]) == [path] && [path][1..] == [];
    assert Frames(files, [path]) == path + [NUL] + content + [NUL] + "";
  }

  lemma DigestIgnoresOrder(files: map<string, string>, order: seq<string>, order': seq<string>)
    requires IterationOrder(files, order) && IterationOrder(files, order')
    ensures DigestInput(files, order) == DigestInput(files, order')
  {
    SortedSetByElements(order, order');
  }

  predicate NulFree(s: string) {
    NUL !in s
  }

  predicate AllNulFree(files: map<string, string>) {
    forall path :: path in files ==> NulFree(path) && NulFree(files[path])
  }

  // ---------- reading the text back ----------

  /** The length of the text before its first NUL. */
  function FieldEnd(s: string): nat {
    if |s| == 0 || s[0] == NUL then 0 else 1 + FieldEnd(s[1..])
  }

  lemma {:induction false} FieldEndFacts(s: string)
    ensures FieldEnd(s) <= |s| && NulFree(s[..FieldEnd(s)])
    ensures FieldEnd(s) < |s| ==> s[FieldEnd(s)] == NUL
  {
    if |s| > 0 && s[0] != NUL {
      FieldEndFacts(s[1..]);
      assert s[..FieldEnd(s)] == [s[0]] + s[1..][..FieldEnd(s[1..])];
    }
  }

  /** Read path and content pairs as long as there are two closed fields. */
  function Unframe(s: string): map<string, string>
    decreases |s|
  {
    FieldEndFacts(s);
    var p := FieldEnd(s);
    if p >= |s| then map[]
    else
      var rest := s[p + 1..];
      FieldEndFacts(rest);
      var c := FieldEnd(rest);
      if c >= |rest| then map[] else Unframe(rest[c + 1..])[s[..p] := rest[..c]]
  }

  lemma {:induction false} FieldEndOf(field: string, rest: string)
    requires NulFree(field)
    ensures FieldEnd(field + [NUL] + rest) == |field|
  {
    var s := field + [NUL] + rest;
    if |field| > 0 {
      assert s[0] == field[0] && field[0] in field;
      assert s[1..] == field[1..] + [NUL] + rest;
      FieldEndOf(field[1..], rest);
    }
  }

  lemma UnframeOne(path: string, content: string, rest: string)
    requires NulFree(path) && NulFree(content)
    ensures Unframe(path + [NUL] + content + [NUL] + rest) == Unframe(rest)[path := content]
  {
    var s := path + [NUL] + content + [NUL] + rest;
    var tail := content + [NUL] + rest;
    assert s == path + [NUL] + tail;
    FieldEndOf(path, tail);
    FieldEndOf(content, rest);
    assert s[..|path|] == path && s[|path| + 1..] == tail;
    assert tail[..|content|] == content && tail[|content| + 1..] == rest;
  }

  lemma {:induction false} UnframeFrames(files: map<string, string>, paths: seq<string>)
    requires AllNulFree(files) && forall path :: path in paths ==> path in files
    ensures Unframe(Frames(files, paths)) == map path | path in paths :: files[path]
  {
    if |paths| > 0 {
      UnframeFrames(files, paths[1..]);
      UnframeOne(paths[0], files[paths[0]], Frames(files, paths[1..]));
      assert forall path :: path in paths <==> path == paths[0] || path in paths[1..];
    }
  }

  lemma {:induction false} UnframeNulFree(s: string)
    ensures AllNulFree(Unframe(s))
    decreases |s|
  {
    FieldEndFacts(s);
    var p := FieldEnd(s);
    if p < |s| {
      var rest := s[p + 1..];
      FieldEndFacts(rest);
      var c := FieldEnd(rest);
      if c < |rest| {
        UnframeNulFree(rest[c + 1..]);
      }
    }
  }

  /** The files can be read back from the digest input exactly when no path or content contains a NUL. */
  lemma ReadBackIff(files: map<string, string>, order: seq<string>)
    requires IterationOrder(files, order)
    ensures Unframe(DigestInput(files, order)) == files <==> AllNulFree(files)
  {
    SortedSetFacts(order);
    if AllNulFree(files) {
      UnframeFrames(files, SortedSet(order));
    }
    UnframeNulFree(DigestInput(files, order));
  }

  /** So for files without NULs, equal digest inputs mean equal files, and conversely. */
  lemma DigestInputInjective(files: map<string, string>, order: seq<string>, files': map<string, string>,
                             order': seq<string>)
    requires IterationOrder(files, order) && IterationOrder(files', order')
    requires AllNulFree(files) && AllNulFree(files')
    ensures DigestInput(files, order) == DigestInput(files', order') <==> files == files'
  {
    ReadBackIff(files, order);
    ReadBackIff(files', order');
    if files == files' {
      DigestIgnoresOrder(files, order, order');
    }
  }

  /** With NULs two different snapshots can be framed alike. */
  lemma NulsCollide()
    ensures
      var one: map<string, string> := map["a" := "b" + [NUL] + "c" + [NUL] + "d"];
      var two := map["a" := "b", "c" := "d"];
      IterationOrder(one, ["a"]) && IterationOrder(two, ["a", "c"]) && one != two
      && DigestInput(one, ["a"]) == DigestInput(two, ["a", "c"])
  {
    var one: map<string, string> := map["a" := "b" + [NUL] + "c" + [NUL] + "d"];
    var two := map["a" := "b", "c" := "d"];
    assert "a"[0] != "c"[0];
    assert "c" in two && "c" !in one;
    assert ["a"][..0] == [] && ["a", "c"][..1] == ["a"];
    assert SortedSet([]) == [] && SortedSet(["a"]) == ["a"];
    assert Less("a", "c") && !Less("c", "a");
    assert ["a"][1..] == [] && InsertUnique(["a"], "c") == ["a"] + InsertUnique([], "c");
    assert SortedSet(["a", "c"]) == ["a", "c"];
    assert ["a", "c"][1..] == ["c"] && ["c"][1..] == [];
    assert Frames(two, ["c"]) == "c" + [NUL] + "d" + [NUL];
    assert Frames(one, ["a"]) == "a" + [NUL] + ("b" + [NUL] + "c" + [NUL] + "d") + [NUL];
    assert Frames(two, ["a", "c"]) == "a" + [NUL] + "b" + [NUL] + ("c" + [NUL] + "d" + [NUL]);
  }

  // ---------- when the text determines the files ----------

  function Nuls(s: string): nat {
    if |s| == 0 then 0 else (if s[0] == NUL then 1 else 0) + Nuls(s[1..])
  }

  lemma {:induction false} NulsAppend(s: string, t: string)
    ensures Nuls(s + t) == Nuls(s) + Nuls(t)
  {
    if |s| == 0 {
      assert s + t == t;
    } else {
      assert (s + t)[1..] == s[1..] + t && (s + t)[0] == s[0];
      NulsAppend(s[1..], t);
    }
  }

  lemma {:induction false} NoNuls(s: string)
    ensures Nuls(s) == 0 <==> NulFree(s)
  {
    if |s| > 0 {
      assert s == [s[0]] + s[1..];
      NoNuls(s[1..]);
    }
  }

  lemma FrameNuls(path: string, content: string, rest: string)
    ensures Nuls(path + [NUL] + content + [NUL] + rest) == Nuls(path) + Nuls(content) + 2 + Nuls(rest)
  {
    NulsAppend(path, [NUL]);
    NulsAppend(path + [NUL], content);
    NulsAppend(path + [NUL] + content, [NUL]);
    NulsAppend(path + [NUL] + content + [NUL], rest);
    assert Nuls([NUL]) == 1 by {
      assert [NUL][1..] == [];
    }
  }

  /** Each file closes two fields; all other NULs are in the files. */
  lemma {:induction false} FramesNuls(files: map<string, string>, paths: seq<string>)
    requires forall path :: path in paths ==> path in files
    ensures Nuls(Frames(files, paths)) >= 2 * |paths|
    ensures Nuls(Frames(files, paths)) == 2 * |paths| <==>
            forall path :: path in paths ==> NulFree(path) && NulFree(files[path])
  {
    if |paths| > 0 {
      FramesNuls(files, paths[1..]);
      FrameNuls(paths[0], files[paths[0]], Frames(files, paths[1..]));
      NoNuls(paths[0]);
      NoNuls(files[paths[0]]);
      assert forall path :: path in paths <==> path == paths[0] || path in paths[1..];
    }
  }

  lemma {:induction false} FramesEnd(files: map<string, string>, paths: seq<string>)
    requires forall path :: path in paths ==> path in files
    ensures |paths| > 0 ==> |Frames(files, paths)| > 0 && Frames(files, paths)[|Frames(files, paths)| - 1] == NUL
  {
    if |paths| > 1 {
      FramesEnd(files, paths[1..]);
    }
  }

  lemma {:induction false} AscendingCount(s: seq<string>)
    requires Ascending(s)
    ensures |set x | x in s| == |s|
  {
    if |s| > 0 {
      AscendingTail(s);
      AscendingCount(s[1..]);
      assert (set x | x in s) == (set x | x in s[1..]) + {s[0]};
    }
  }

  /** The text of a file map has twice as many NULs as files, and more exactly when a file contains one. */
  lemma TextNuls(files: map<string, string>, order: seq<string>)
    requires IterationOrder(files, order)
    ensures Nuls(DigestInput(files, order)) >= 2 * |files|
    ensures Nuls(DigestInput(files, order)) == 2 * |files| <==> AllNulFree(files)
    ensures |files| > 0 ==> var text := DigestInput(files, order); |text| > 0 && text[|text| - 1] == NUL
  {
    SortedSetFacts(order);
    var paths := SortedSet(order);
    AscendingCount(paths);
    assert (set x | x in paths) == files.Keys && |files| == |files.Keys|;
    FramesNuls(files, paths);
    FramesEnd(files, paths);
  }

  /** Any NUL but the last may be read as the end of the path of a single file. */
  lemma ReadAsOneFile(text: string, p: nat)
    requires p < |text| - 1 && text[p] == NUL && text[|text| - 1] == NUL
    ensures
      var one := map[text[..p] := text[p + 1..|text| - 1]];
      IterationOrder(one, [text[..p]]) && DigestInput(one, [text[..p]]) == text
  {
    var path, content := text[..p], text[p + 1..|text| - 1];
    var one := map[path := content];
    assert [path][..0] == [] && SortedSet([]) == [] && SortedSet([path]) == [path] && [path][1..] == [];
    assert Frames(one, [path]) == path + [NUL] + content + [NUL] + "";
    assert text == path + [NUL] + content + [NUL];
  }

  lemma {:induction false} NulsAfterField(s: string)
    ensures FieldEnd(s) < |s| <==> Nuls(s) > 0
    ensures FieldEnd(s) < |s| ==> Nuls(s[FieldEnd(s) + 1..]) == Nuls(s) - 1
  {
    if |s| > 0 && s[0] != NUL {
      NulsAfterField(s[1..]);
      if FieldEnd(s) < |s| {
        assert s[FieldEnd(s) + 1..] == s[1..][FieldEnd(s[1..]) + 1..];
      }
    }
  }

  /** A text with a third NUL has two readings as a single file. */
  lemma TwoReadings(text: string) returns (p: nat, q: nat)
    requires Nuls(text) >= 3
    ensures p < q < |text| - 1 && text[p] == text[q] == NUL
  {
    NulsAfterField(text);
    FieldEndFacts(text);
    p := FieldEnd(text);
    var rest := text[p + 1..];
    NulsAfterField(rest);
    FieldEndFacts(rest);
    q := p + 1 + FieldEnd(rest);
    assert text[q + 1..] == rest[FieldEnd(rest) + 1..];
    assert |text[q + 1..]| > 0;
  }

  /** No other file map has the same text. */
  ghost predicate Determines(files: map<string, string>, order: seq<string>)
    requires IterationOrder(files, order)
  {
    forall files', order' ::
      IterationOrder(files', order') && DigestInput(files', order') == DigestInput(files, order) ==> files' == files
  }

  /** The text determines the files, among all file maps, exactly when there is at most one and it has no NUL. */
  lemma DeterminesIff(files: map<string, string>, order: seq<string>)
    requires IterationOrder(files, order)
    ensures Determines(files, order) <==> |files| <= 1 && AllNulFree(files)
  {
    TextNuls(files, order);
    if |files| <= 1 && AllNulFree(files) {
      forall files', order' | IterationOrder(files', order') && DigestInput(files', order') == DigestInput(files, order)
        ensures files' == files
      {
        TextNuls(files', order');
        DigestInputInjective(files, order, files', order');
      }
    } else {
      AmbiguousText(files, order);
    }
  }

  lemma AmbiguousText(files: map<string, string>, order: seq<string>)
    requires IterationOrder(files, order) && !(|files| <= 1 && AllNulFree(files))
    ensures !Determines(files, order)
  {
    TextNuls(files, order);
    assert |files| == 0 ==> files == map[];
    var text := DigestInput(files, order);
    var p, q := TwoReadings(text);
    ReadAsOneFile(text, p);
    ReadAsOneFile(text, q);
    var one, two := map[text[..p] := text[p + 1..|text| - 1]], map[text[..q] := text[q + 1..|text| - 1]];
    assert text[..p] != text[..q];
    assert text[..p] in one && text[..p] !in two;
  }
}
