/**
 The bounded-metadata check of the live event envelope: a recursive visit that
 refuses metadata that is nested too deep, too wide, too wordy, or that carries
 a raw payload.  The reference definition quantifies over paths instead.
 */
module EventMetadata {
  import opened Wrappers
  import opened Json

  const MAX_DEPTH := 5
  const MAX_ITEMS := 128
  const MAX_STRING_BYTES := 1024
  const FORBIDDEN_KEYS := {"body", "bytes", "content", "data", "payload", "raw"}

  /** Length of the UTF-8 encoding of a text (section 3 of RFC 3629). */
  function Utf8Length(s: string): nat {
    if |s| == 0 then 0
    else
      var c := s[0] as int;
      (if c < 0x80 then 1 else if c < 0x800 then 2 else if c < 0x10000 then 3 else 4) + Utf8Length(s[1..])
  }

  /** A key may be used: it is short, and does not fold to a raw payload's; `casefold` is Python's case folding. */
  predicate KeyAllowed(key: string, casefold: string -> string) {
    Utf8Length(key) <= MAX_STRING_BYTES && casefold(key) !in FORBIDDEN_KEYS
  }

  /** The visit of one value; false stands for the raised ValueError, `allowed` for the check of keys. */
  predicate Visit(item: Json, depth: nat, allowed: string -> bool) {
    depth <= MAX_DEPTH &&
    match item
    case JObject(fields) =>
      |fields| <= MAX_ITEMS
      && forall key :: key in fields ==> allowed(key) && Visit(fields[key], depth + 1, allowed)
    case JArray(items) =>
      |items| <= MAX_ITEMS && forall i :: 0 <= i < |items| ==> Visit(items[i], depth + 1, allowed)
    case JString(s) => Utf8Length(s) <= MAX_STRING_BYTES
    case _ => true
  }

  /** The whole check of metadata. */
  predicate Accepts(value: Json, casefold: string -> string) {
    Visit(value, 0, key => KeyAllowed(key, casefold))
  }

  // ---------- the reference: conditions on every node ----------

  datatype Hop = Key(key: string) | Index(i: nat)

  /** The node at the end of a path, if the path exists. */
  function NodeAt(j: Json, path: seq<Hop>): Option<Json> {
    if |path| == 0 then Some(j)
    else match (j, path[0])
      case (JObject(fields), Key(key)) => if key in fields then NodeAt(fields[key], path[1..]) else None
      case (JArray(items), Index(i)) => if i < |items| then NodeAt(items[i], path[1..]) else None
      case _ => None
  }

  predicate NodeAllowed(node: Json, allowed: string -> bool) {
    match node
    case JObject(fields) => |fields| <= MAX_ITEMS && forall key :: key in fields ==> allowed(key)
    case JArray(items) => |items| <= MAX_ITEMS
    case JString(s) => Utf8Length(s) <= MAX_STRING_BYTES
    case _ => true
  }

  ghost predicate EveryNodeAllowed(j: Json, depth: nat, allowed: string -> bool) {
    forall path :: NodeAt(j, path).Some? ==> depth + |path| <= MAX_DEPTH && NodeAllowed(NodeAt(j, path).value, allowed)
  }

  lemma FieldAllowed(fields: map<string, Json>, key: string, depth: nat, allowed: string -> bool)
    requires EveryNodeAllowed(JObject(fields), depth, allowed) && key in fields
    ensures EveryNodeAllowed(fields[key], depth + 1, allowed)
  {
    forall path: seq<Hop> | NodeAt(fields[key], path).Some?
      ensures depth + 1 + |path| <= MAX_DEPTH && NodeAllowed(NodeAt(fields[key], path).value, allowed)
    {
      assert ([Key(key)] + path)[1..] == path;
      assert NodeAt(JObject(fields), [Key(key)] + path).Some?;
    }
  }

  lemma ItemAllowed(items: seq<Json>, i: nat, depth: nat, allowed: string -> bool)
    requires EveryNodeAllowed(JArray(items), depth, allowed) && i < |items|
    ensures EveryNodeAllowed(items[i], depth + 1, allowed)
  {
    forall path: seq<Hop> | NodeAt(items[i], path).Some?
      ensures depth + 1 + |path| <= MAX_DEPTH && NodeAllowed(NodeAt(items[i], path).value, allowed)
    {
      assert ([Index(i)] + path)[1..] == path;
      assert NodeAt(JArray(items), [Index(i)] + path).Some?;
    }
  }

  lemma {:induction false} VisitComplete(j: Json, depth: nat, allowed: string -> bool)
    requires EveryNodeAllowed(j, depth, allowed)
    ensures Visit(j, depth, allowed)
    decreases j
  {
    assert NodeAt(j, []) == Some(j);
    match j
    case JObject(fields) =>
      forall key | key in fields ensures Visit(fields[key], depth + 1, allowed) {
        FieldAllowed(fields, key, depth, allowed);
        VisitComplete(fields[key], depth + 1, allowed);
      }
    case JArray(items) =>
      forall i | 0 <= i < |items| ensures Visit(items[i], depth + 1, allowed) {
        ItemAllowed(items, i, depth, allowed);
        VisitComplete(items[i], depth + 1, allowed);
      }
    case _ =>
  }

  lemma {:induction false} VisitSound(j: Json, depth: nat, allowed: string -> bool)
    requires Visit(j, depth, allowed)
    ensures EveryNodeAllowed(j, depth, allowed)
    decreases j
  {
    forall path: seq<Hop> | NodeAt(j, path).Some?
      ensures depth + |path| <= MAX_DEPTH && NodeAllowed(NodeAt(j, path).value, allowed)
    {
      if |path| > 0 {
        var child := if j.JObject? then j.fields[path[0].key] else j.items[path[0].i];
        VisitSound(child, depth + 1, allowed);
        assert NodeAt(child, path[1..]).Some?;
      }
    }
  }

  lemma VisitByNodes(value: Json, allowed: string -> bool)
    ensures Visit(value, 0, allowed) <==> EveryNodeAllowed(value, 0, allowed)
  {
    if Visit(value, 0, allowed) {
      VisitSound(value, 0, allowed);
    } else if EveryNodeAllowed(value, 0, allowed) {
      VisitComplete(value, 0, allowed);
    }
  }

  /** A container of at most 128 entries with short keys of no raw payload, a short text, or another scalar. */
  ghost predicate Modest(node: Json, casefold: string -> string) {
    match node
    case JObject(fields) =>
      |fields| <= 128
      && forall key :: key in fields ==>
           Utf8Length(key) <= 1024 && casefold(key) !in {"body", "bytes", "content", "data", "payload", "raw"}
    case JArray(items) => |items| <= 128
    case JString(s) => Utf8Length(s) <= 1024
    case _ => true
  }

  lemma ModestIff(node: Json, casefold: string -> string)
    ensures NodeAllowed(node, key => KeyAllowed(key, casefold)) <==> Modest(node, casefold)
  {
  }

  /** Metadata is accepted exactly if every path in it has at most 5 hops and ends at a modest node. */
  lemma VisitIff(value: Json, casefold: string -> string)
    ensures Accepts(value, casefold) <==>
            forall path :: NodeAt(value, path).Some? ==> |path| <= 5 && Modest(NodeAt(value, path).value, casefold)
  {
    var allowed := key => KeyAllowed(key, casefold);
    VisitByNodes(value, allowed);
    forall node ensures NodeAllowed(node, allowed) <==> Modest(node, casefold) {
      ModestIff(node, casefold);
    }
  }

  /** An object with a key that folds to a raw payload's is refused at every depth, whatever it holds. */
  lemma RawPayloadRefused(fields: map<string, Json>, key: string, depth: nat, casefold: string -> string)
    requires key in fields && casefold(key) in {"body", "bytes", "content", "data", "payload", "raw"}
    ensures !Visit(JObject(fields), depth, k => KeyAllowed(k, casefold))
  {
    assert !KeyAllowed(key, casefold);
  }

  // ---------- the length of a text ----------

  /** The UTF-8 encoding of a code point (section 3 of RFC 3629). */
  ghost function Utf8(c: int): seq<int>
    requires 0 <= c < 0x110000
  {
    if c < 0x80 then [c]
    else if c < 0x800 then [0xC0 + c / 0x40, 0x80 + c % 0x40]
    else if c < 0x10000 then [0xE0 + c / 0x1000, 0x80 + c / 0x40 % 0x40, 0x80 + c % 0x40]
    else [0xF0 + c / 0x40000, 0x80 + c / 0x1000 % 0x40, 0x80 + c / 0x40 % 0x40, 0x80 + c % 0x40]
  }

  ghost function Utf8Text(s: string): seq<int> {
    if |s| == 0 then [] else Utf8(s[0] as int) + Utf8Text(s[1..])
  }

  /** How many bytes a sequence has, by its first byte. */
  ghost function SequenceLength(lead: int): nat {
    if lead < 0x80 then 1 else if lead < 0xE0 then 2 else if lead < 0xF0 then 3 else 4
  }

  ghost function ReadUtf8(b: seq<int>): int
    requires |b| in {1, 2, 3, 4}
  {
    if |b| == 1 then b[0]
    else if |b| == 2 then (b[0] - 0xC0) * 0x40 + (b[1] - 0x80)
    else if |b| == 3 then (b[0] - 0xE0) * 0x1000 + (b[1] - 0x80) * 0x40 + (b[2] - 0x80)
    else (b[0] - 0xF0) * 0x40000 + (b[1] - 0x80) * 0x1000 + (b[2] - 0x80) * 0x40 + (b[3] - 0x80)
  }

  lemma Sextet(c: nat)
    ensures c == c / 0x40 * 0x40 + c % 0x40 && c / 0x40 / 0x40 == c / 0x1000 && c / 0x1000 / 0x40 == c / 0x40000
  {
  }

  lemma Sextets(c: nat)
    ensures c == c / 0x40 * 0x40 + c % 0x40
    ensures c == c / 0x1000 * 0x1000 + c / 0x40 % 0x40 * 0x40 + c % 0x40
    ensures c == c / 0x40000 * 0x40000 + c / 0x1000 % 0x40 * 0x1000 + c / 0x40 % 0x40 * 0x40 + c % 0x40
  {
    Sextet(c);
    Sextet(c / 0x40);
    Sextet(c / 0x1000);
  }

  /** The encoding of a code point can be read back, and its first byte tells its length. */
  lemma Utf8Reads(c: int)
    requires 0 <= c < 0x110000
    ensures |Utf8(c)| == SequenceLength(Utf8(c)[0]) && ReadUtf8(Utf8(c)) == c
  {
    Sextets(c);
  }

  /** The counted length is that of the encoding. */
  lemma {:induction false} Utf8LengthIs(s: string)
    ensures Utf8Length(s) == |Utf8Text(s)|
  {
    if |s| > 0 {
      Utf8LengthIs(s[1..]);
    }
  }

  // ---------- how large an accepted tree can be ----------

  ghost function SomeKey(counts: map<string, nat>): (k: string)
    requires counts.Keys != {}
    ensures k in counts
  {
    var k :| k in counts.Keys; k
  }

  ghost function Sum(counts: map<string, nat>): nat
    decreases |counts.Keys|
  {
    if counts.Keys == {} then 0
    else
      var k := SomeKey(counts);
      assert (counts - {k}).Keys == counts.Keys - {k};
      counts[k] + Sum(counts - {k})
  }

  ghost function SumSeq(counts: seq<nat>): nat {
    if |counts| == 0 then 0 else counts[0] + SumSeq(counts[1..])
  }

  /** The number of values in a tree. */
  ghost function Nodes(j: Json): nat {
    match j
    case JObject(fields) => 1 + Sum(map k | k in fields :: Nodes(fields[k]))
    case JArray(items) => 1 + SumSeq(seq(|items|, i requires 0 <= i < |items| => Nodes(items[i])))
    case _ => 1
  }

  /** The size of the complete tree of the given height with 128 children everywhere. */
  function Complete(height: nat): nat {
    if height == 0 then 1 else Wide(Complete(height - 1))
  }

  /** A root above as many trees as a container can have. */
  function Wide(size: nat): nat {
    1 + MAX_ITEMS * size
  }

  lemma {:induction false} SumBound(counts: map<string, nat>, bound: nat)
    requires forall k :: k in counts ==> counts[k] <= bound
    ensures Sum(counts) <= |counts.Keys| * bound
    decreases |counts.Keys|
  {
    if counts.Keys != {} {
      var k := SomeKey(counts);
      var rest := counts - {k};
      assert rest.Keys == counts.Keys - {k};
      SumBound(rest, bound);
      OneMore(|rest.Keys|, bound);
    }
  }

  lemma OneMore(n: nat, bound: nat)
    ensures (n + 1) * bound == n * bound + bound
  {
  }

  lemma {:induction false} SumSeqBound(counts: seq<nat>, bound: nat)
    requires forall i :: 0 <= i < |counts| ==> counts[i] <= bound
    ensures SumSeq(counts) <= |counts| * bound
  {
    if |counts| > 0 {
      SumSeqBound(counts[1..], bound);
    }
  }

  lemma WidthBound(n: nat, bound: nat)
    requires n <= MAX_ITEMS
    ensures n * bound <= MAX_ITEMS * bound
  {
  }

  lemma FieldsBound(fields: map<string, Json>, bound: nat)
    requires |fields| <= MAX_ITEMS && forall k :: k in fields ==> Nodes(fields[k]) <= bound
    ensures Nodes(JObject(fields)) <= Wide(bound)
  {
    var counts := map k | k in fields :: Nodes(fields[k]);
    assert counts.Keys == fields.Keys && |fields| == |fields.Keys|;
    SumBound(counts, bound);
    WidthBound(|fields|, bound);
  }

  lemma ItemsBound(items: seq<Json>, bound: nat)
    requires |items| <= MAX_ITEMS && forall i :: 0 <= i < |items| ==> Nodes(items[i]) <= bound
    ensures Nodes(JArray(items)) <= Wide(bound)
  {
    SumSeqBound(seq(|items|, i requires 0 <= i < |items| => Nodes(items[i])), bound);
    WidthBound(|items|, bound);
  }

  /** Children are visited one level deeper, where the complete tree is smaller. */
  lemma VisitGoesDown(child: Json, depth: nat, allowed: string -> bool)
    requires Visit(child, depth + 1, allowed)
    ensures depth < MAX_DEPTH
  {
  }

  ghost predicate FieldsVisited(fields: map<string, Json>, depth: nat, allowed: string -> bool) {
    forall k :: k in fields ==> Visit(fields[k], depth, allowed)
  }

  ghost predicate ItemsVisited(items: seq<Json>, depth: nat, allowed: string -> bool) {
    forall i :: 0 <= i < |items| ==> Visit(items[i], depth, allowed)
  }

  lemma {:induction false} FieldsWithin(fields: map<string, Json>, depth: nat, height: nat, allowed: string -> bool)
    requires FieldsVisited(fields, depth, allowed) && depth + height == MAX_DEPTH
    ensures forall k :: k in fields ==> Nodes(fields[k]) <= Complete(height)
    decreases JObject(fields), 0
  {
    var bound := Complete(height);
    forall k | k in fields ensures Nodes(fields[k]) <= bound {
      NodesBound(fields[k], depth, height, allowed);
    }
  }

  lemma {:induction false} ItemsWithin(items: seq<Json>, depth: nat, height: nat, allowed: string -> bool)
    requires ItemsVisited(items, depth, allowed) && depth + height == MAX_DEPTH
    ensures forall i :: 0 <= i < |items| ==> Nodes(items[i]) <= Complete(height)
    decreases JArray(items), 0
  {
    var bound := Complete(height);
    forall i | 0 <= i < |items| ensures Nodes(items[i]) <= bound {
      NodesBound(items[i], depth, height, allowed);
    }
  }

  lemma {:induction false} ObjectBound(fields: map<string, Json>, depth: nat, height: nat, allowed: string -> bool)
    requires |fields| <= MAX_ITEMS && FieldsVisited(fields, depth + 1, allowed) && depth + height == MAX_DEPTH
    ensures Nodes(JObject(fields)) <= Complete(height)
    decreases JObject(fields), 1
  {
    if k0 :| k0 in fields {
      VisitGoesDown(fields[k0], depth, allowed);
      FieldsWithin(fields, depth + 1, height - 1, allowed);
      FieldsBound(fields, Complete(height - 1));
    } else {
      FieldsBound(fields, 0);
    }
  }

  lemma {:induction false} ArrayBound(items: seq<Json>, depth: nat, height: nat, allowed: string -> bool)
    requires |items| <= MAX_ITEMS && ItemsVisited(items, depth + 1, allowed) && depth + height == MAX_DEPTH
    ensures Nodes(JArray(items)) <= Complete(height)
    decreases JArray(items), 1
  {
    if |items| > 0 {
      VisitGoesDown(items[0], depth, allowed);
      ItemsWithin(items, depth + 1, height - 1, allowed);
      ItemsBound(items, Complete(height - 1));
    }
  }

  /** A value that is visited at some depth has at most as many nodes as the complete tree of the remaining height. */
  lemma {:induction false} NodesBound(j: Json, depth: nat, height: nat, allowed: string -> bool)
    requires Visit(j, depth, allowed) && depth + height == MAX_DEPTH
    ensures Nodes(j) <= Complete(height)
    decreases j, 2
  {
    match j
    case JObject(fields) => ObjectBound(fields, depth, height, allowed);
    case JArray(items) => ArrayBound(items, depth, height, allowed);
    case _ =>
  }

  /** Accepted metadata has at most 1 + 128 + 128^2 + 128^3 + 128^4 + 128^5 values. */
  lemma AcceptedSize(value: Json, casefold: string -> string)
    requires Accepts(value, casefold)
    ensures Nodes(value) <= 1 + 128 + 128 * 128 + 128 * 128 * 128 + 128 * 128 * 128 * 128 + 128 * 128 * 128 * 128 * 128
  {
    NodesBound(value, 0, 5, key => KeyAllowed(key, casefold));
    assert Complete(1) == 129;
    assert Complete(2) == 1 + 128 * 129;
    assert Complete(3) == 1 + 128 * Complete(2);
    assert Complete(5) == 1 + 128 * Complete(4);
  }

  /** The list nested to a height, 128 wide everywhere. */
  function Full(height: nat): Json {
    if height == 0 then JNull else JArray(seq(128, _ => Full(height - 1)))
  }

  lemma {:induction false} SumSeqConstant(n: nat, size: nat)
    ensures SumSeq(seq(n, _ => size)) == n * size
  {
    if n > 0 {
      assert seq(n, _ => size)[1..] == seq(n - 1, _ => size);
      SumSeqConstant(n - 1, size);
      OneMore(n - 1, size);
    }
  }

  lemma {:induction false} FullIsAccepted(height: nat, allowed: string -> bool)
    requires height <= 5
    ensures Visit(Full(height), 5 - height, allowed)
    ensures Nodes(Full(height)) == Complete(height)
  {
    if height > 0 {
      FullIsAccepted(height - 1, allowed);
      var items := seq(128, _ => Full(height - 1));
      var counts := seq(128, i requires 0 <= i < 128 => Nodes(items[i]));
      assert counts == seq(128, _ => Nodes(Full(height - 1)));
      SumSeqConstant(128, Nodes(Full(height - 1)));
    }
  }

  /** The bound is reached. */
  lemma LargestAccepted(casefold: string -> string)
    ensures Accepts(Full(5), casefold)
    ensures Nodes(Full(5)) == 1 + 128 + 128 * 128 + 128 * 128 * 128 + 128 * 128 * 128 * 128
            + 128 * 128 * 128 * 128 * 128
  {
    FullIsAccepted(5, key => KeyAllowed(key, casefold));
    assert Complete(1) == 129;
    assert Complete(2) == 1 + 128 * 129;
    assert Complete(3) == 1 + 128 * Complete(2);
    assert Complete(5) == 1 + 128 * Complete(4);
  }
}
