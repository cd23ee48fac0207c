/** Cursor pagination of the operator read models. */
module Paging {
  import opened Wrappers
  import opened Decimal
  import opened Base64Url

  datatype ReadModelError = LimitOutOfRange | InvalidCursor

  datatype Page<T> = Page(items: seq<T>, nextCursor: Option<string>, limit: int)

  predicate IsAscii(s: string) {
    forall i :: 0 <= i < |s| ==> s[i] as int < 128
  }

  function AsciiBytes(s: string): seq<Byte>
    requires IsAscii(s)
  {
    seq(|s|, i requires 0 <= i < |s| => s[i] as int)
  }

  /** The text of ASCII bytes; None if some byte is not ASCII. */
  function AsciiText(bytes: seq<Byte>): Option<string> {
    if forall i :: 0 <= i < |bytes| ==> bytes[i] < 128
    then Some(seq(|bytes|, i requires 0 <= i < |bytes| && bytes[i] < 128 => bytes[i] as char))
    else None
  }

  function EncodeCursor(offset: nat): string {
    PrintedIsNumeral(offset);
    StripPadding(Encode(AsciiBytes(Print(offset))))
  }

  function DecodeCursor(cursor: Option<string>): Result<nat, ReadModelError> {
    if cursor.None? then Success(0)
    else if !IsAscii(cursor.value) then Failure(InvalidCursor)
    else match Decode(Repad(cursor.value))
      case None => Failure(InvalidCursor)
      case Some(bytes) =>
        match AsciiText(bytes)
        case None => Failure(InvalidCursor)
        case Some(text) =>
          match ParseInt(text)
          case None => Failure(InvalidCursor)
          case Some(offset) => if offset < 0 then Failure(InvalidCursor) else Success(offset)
  }

  /** The cursor round trip, through decimal, base64 and the stripped padding. */
  lemma CursorRoundTrip(n: nat)
    ensures DecodeCursor(Some(EncodeCursor(n))) == Success(n)
    ensures '=' !in EncodeCursor(n)
  {
    PrintedIsNumeral(n);
    var text := Print(n);
    var bytes := AsciiBytes(text);
    RepadStripped(bytes);
    DecodeEncoded(bytes);
    assert AsciiText(bytes).value == text;
    ParsePrinted(n);
  }

  function Slice<T>(items: seq<T>, offset: nat, limit: nat): seq<T> {
    if offset >= |items| then []
    else if offset + limit <= |items| then items[offset..offset + limit]
    else items[offset..]
  }

  function GetPage<T>(items: seq<T>, cursor: Option<string>, limit: int): Result<Page<T>, ReadModelError> {
    if !(1 <= limit <= 100) then Failure(LimitOutOfRange)
    else match DecodeCursor(cursor)
      case Failure(e) => Failure(e)
      case Success(offset) =>
        Success(Page(Slice(items, offset, limit),
                     if offset + limit < |items| then Some(EncodeCursor(offset + limit)) else None,
                     limit))
  }

  /** The pages a client gets by following `next_cursor` until there is none. */
  function Walk<T>(items: seq<T>, cursor: Option<string>, limit: int): seq<Page<T>>
    requires 1 <= limit <= 100 && DecodeCursor(cursor).Success?
    decreases |items| - DecodeCursor(cursor).value
  {
    var page := GetPage(items, cursor, limit).value;
    if page.nextCursor.None? then [page]
    else
      CursorRoundTrip(DecodeCursor(cursor).value + limit);
      [page] + Walk(items, page.nextCursor, limit)
  }

  function Concat<T>(pages: seq<Page<T>>): seq<T> {
    if |pages| == 0 then [] else pages[0].items + Concat(pages[1..])
  }

  /** All pages but the last are full and lead on; the last leads nowhere. */
  ghost predicate Chained<T>(pages: seq<Page<T>>, limit: int) {
    && |pages| >= 1
    && (forall i :: 0 <= i < |pages| - 1 ==> |pages[i].items| == limit && pages[i].nextCursor.Some?)
    && pages[|pages| - 1].nextCursor.None?
  }

  function LastPage<T>(pages: seq<Page<T>>): Page<T>
    requires |pages| >= 1
  {
    pages[|pages| - 1]
  }

  lemma ChainExtends<T>(page: Page<T>, rest: seq<Page<T>>, limit: int)
    requires Chained(rest, limit) && |page.items| == limit && page.nextCursor.Some?
    ensures Chained([page] + rest, limit) && Concat([page] + rest) == page.items + Concat(rest)
    ensures LastPage([page] + rest) == LastPage(rest)
  {
    var pages := [page] + rest;
    assert pages[1..] == rest;
    forall i | 0 <= i < |pages| - 1 ensures |pages[i].items| == limit && pages[i].nextCursor.Some? {
      if i > 0 {
        assert pages[i] == rest[i - 1];
      }
    }
  }

  lemma ChainOfOne<T>(page: Page<T>, limit: int)
    requires page.nextCursor.None?
    ensures Chained([page], limit) && Concat([page]) == page.items && LastPage([page]) == page
  {
    assert Concat([page]) == page.items + [];
  }

  ghost function Behind<T>(items: seq<T>, offset: nat): seq<T> {
    if offset <= |items| then items[offset..] else []
  }

  /** The same pages, stepping the offset directly, with any encoding of offsets. */
  function PagesFrom<T>(items: seq<T>, offset: nat, limit: nat, encode: nat -> string): seq<Page<T>>
    requires limit >= 1
    decreases |items| - offset
  {
    var here := Slice(items, offset, limit);
    if offset + limit < |items|
    then [Page(here, Some(encode(offset + limit)), limit)] + PagesFrom(items, offset + limit, limit, encode)
    else [Page(here, None, limit)]
  }

  /** The cursors carry the offset, so following them is stepping it. */
  lemma {:induction false} WalkSteps<T>(items: seq<T>, cursor: Option<string>, limit: int)
    requires 1 <= limit <= 100 && DecodeCursor(cursor).Success?
    ensures Walk(items, cursor, limit) == PagesFrom(items, DecodeCursor(cursor).value, limit, EncodeCursor)
    decreases |items| - DecodeCursor(cursor).value
  {
    var offset := DecodeCursor(cursor).value;
    if offset + limit < |items| {
      CursorRoundTrip(offset + limit);
      WalkSteps(items, Some(EncodeCursor(offset + limit)), limit);
    }
  }

  ghost predicate Covers<T>(pages: seq<Page<T>>, items: seq<T>, offset: nat, limit: nat) {
    && Chained(pages, limit)
    && Concat(pages) == Behind(items, offset)
    && (offset < |items| ==> 1 <= |LastPage(pages).items| <= limit)
  }

  lemma CoversExtends<T>(page: Page<T>, rest: seq<Page<T>>, items: seq<T>, offset: nat, limit: nat)
    requires Covers(rest, items, offset + limit, limit) && offset + limit < |items|
    requires page.items == Slice(items, offset, limit) && page.nextCursor.Some?
    ensures Covers([page] + rest, items, offset, limit)
  {
    ChainExtends(page, rest, limit);
    assert Behind(items, offset) == page.items + Behind(items, offset + limit);
  }

  lemma {:induction false} PagesCover<T>(items: seq<T>, offset: nat, limit: nat, encode: nat -> string)
    requires limit >= 1
    ensures Covers(PagesFrom(items, offset, limit, encode), items, offset, limit)
    decreases |items| - offset
  {
    var here := Slice(items, offset, limit);
    if offset + limit < |items| {
      var page := Page(here, Some(encode(offset + limit)), limit);
      var rest := PagesFrom(items, offset + limit, limit, encode);
      PagesCover(items, offset + limit, limit, encode);
      CoversExtends(page, rest, items, offset, limit);
      assert PagesFrom(items, offset, limit, encode) == [page] + rest;
    } else {
      ChainOfOne(Page(here, None, limit), limit);
    }
  }

  lemma {:induction false} ConcatLength<T>(pages: seq<Page<T>>, limit: nat)
    requires Chained(pages, limit)
    ensures |Concat(pages)| == (|pages| - 1) * limit + |LastPage(pages).items|
  {
    if |pages| == 1 {
      ChainOfOne(pages[0], limit);
      assert pages == [pages[0]];
    } else {
      ConcatLength(pages[1..], limit);
      OneMoreTimes(|pages| - 2, limit);
    }
  }

  lemma OneMoreTimes(n: nat, limit: nat)
    ensures (n + 1) * limit == n * limit + limit
  {
  }

  lemma MultipleAtLeast(d: int, limit: int)
    requires limit >= 0
    ensures d >= 1 ==> d * limit >= limit
    ensures d <= -1 ==> d * limit <= -limit
  {
    if d >= 1 {
      assert d * limit == (d - 1) * limit + limit && (d - 1) * limit >= 0;
    } else if d <= -1 {
      assert d * limit == (d + 1) * limit - limit && (d + 1) * limit <= 0;
    }
  }

  lemma QuotientUnique(quotient: nat, limit: nat, remainder: nat)
    requires remainder < limit
    ensures (quotient * limit + remainder) / limit == quotient
  {
    var x := quotient * limit + remainder;
    var d := x / limit - quotient;
    assert x == x / limit * limit + x % limit;
    assert d * limit == x / limit * limit - quotient * limit;
    MultipleAtLeast(d, limit);
  }

  /**
   Following the cursors from the start visits every item exactly once, in
   order, in max(1, ceil(n / limit)) pages that are all full except the last.
   */
  lemma WalkCoversOnce<T>(items: seq<T>, limit: int)
    requires 1 <= limit <= 100
    ensures
      var pages := Walk(items, None, limit);
      && Concat(pages) == items
      && |pages| == (if |items| == 0 then 1 else (|items| + limit - 1) / limit)
      && Chained(pages, limit)
  {
    WalkSteps(items, None, limit);
    PagesCover(items, 0, limit, EncodeCursor);
    var pages := Walk(items, None, limit);
    ConcatLength(pages, limit);
    if |items| > 0 {
      var last := |LastPage(pages).items|;
      QuotientUnique(|pages|, limit, last - 1);
      OneMoreTimes(|pages| - 1, limit);
    }
  }

  /** From any valid cursor a walk shows exactly what lies behind it. */
  lemma WalkFromCursor<T>(items: seq<T>, cursor: Option<string>, limit: int)
    requires 1 <= limit <= 100 && DecodeCursor(cursor).Success?
    ensures Concat(Walk(items, cursor, limit)) == Behind(items, DecodeCursor(cursor).value)
  {
    WalkSteps(items, cursor, limit);
    PagesCover(items, DecodeCursor(cursor).value, limit, EncodeCursor);
  }

  // ---------- other cursors and limits ----------

  /** No cursor means the start; the cursor of a text is read as that text, and negative numbers are refused. */
  lemma CursorOfText(text: string)
    requires IsAscii(text)
    ensures DecodeCursor(None) == Success(0)
    ensures DecodeCursor(Some(StripPadding(Encode(AsciiBytes(text))))) ==
            match ParseInt(text)
            case None => Failure(InvalidCursor)
            case Some(n) => if n < 0 then Failure(InvalidCursor) else Success(n)
  {
    var bytes := AsciiBytes(text);
    RepadStripped(bytes);
    DecodeEncoded(bytes);
    assert AsciiText(bytes).value == text;
  }

  /** Cursors that no page returned are refused: other characters, or bytes that are no ASCII text. */
  lemma CursorRefused(cursor: string, bytes: seq<Byte>)
    ensures !IsAscii(cursor) ==> DecodeCursor(Some(cursor)) == Failure(InvalidCursor)
    ensures (exists b :: b in bytes && b >= 128) ==>
              DecodeCursor(Some(StripPadding(Encode(bytes)))) == Failure(InvalidCursor)
  {
    RepadStripped(bytes);
    DecodeEncoded(bytes);
  }

  /** So are the cursors of negative numbers. */
  lemma NegativeCursor(n: nat) returns (text: string)
    requires n > 0
    ensures text == "-" + Print(n) && IsAscii(text)
    ensures DecodeCursor(Some(StripPadding(Encode(AsciiBytes(text))))) == Failure(InvalidCursor)
  {
    PrintedIsNumeral(n);
    ParseSigned(n);
    text := "-" + Print(n);
    CursorOfText(text);
  }

  lemma SliceShows<T>(items: seq<T>, offset: nat, limit: nat)
    ensures
      var slice := Slice(items, offset, limit);
      && |slice| == (if offset >= |items| then 0 else if offset + limit < |items| then limit else |items| - offset)
      && forall i :: 0 <= i < |slice| ==> slice[i] == items[offset + i]
  {
  }

  /** A page shows the items from the cursor's offset, at most `limit` of them, and leads on if there are more. */
  lemma PageShows<T>(items: seq<T>, cursor: Option<string>, limit: int)
    requires GetPage(items, cursor, limit).Success?
    ensures DecodeCursor(cursor).Success?
    ensures
      var offset, page := DecodeCursor(cursor).value, GetPage(items, cursor, limit).value;
      && page.limit == limit
      && |page.items| == (if offset >= |items| then 0 else if offset + limit < |items| then limit else |items| - offset)
      && (forall i :: 0 <= i < |page.items| ==> page.items[i] == items[offset + i])
      && (page.nextCursor == None <==> offset + limit >= |items|)
      && (page.nextCursor.Some? ==> DecodeCursor(page.nextCursor) == Success(offset + limit))
  {
    SliceShows(items, DecodeCursor(cursor).value, limit);
    CursorRoundTrip(DecodeCursor(cursor).value + limit);
  }

  /** No page: the limit is checked first, then the cursor. */
  lemma PageRefused<T>(items: seq<T>, cursor: Option<string>, limit: int)
    ensures GetPage(items, cursor, limit) == Failure(LimitOutOfRange) <==> limit < 1 || limit > 100
    ensures GetPage(items, cursor, limit) == Failure(InvalidCursor) <==>
            1 <= limit <= 100 && DecodeCursor(cursor).Failure?
  {
    CursorFailure(cursor);
  }

  lemma CursorFailure(cursor: Option<string>)
    ensures DecodeCursor(cursor).Failure? ==> DecodeCursor(cursor) == Failure(InvalidCursor)
  {
  }
}
