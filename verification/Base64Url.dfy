/**
 The URL-safe base64 of RFC 4648, section 5: the encoder with its padding, and
 CPython's lenient decoder, which skips characters outside the alphabet and
 stops at a complete padding.
 */
module Base64Url {
  import opened Wrappers

  type Byte = b: int | 0 <= b < 256
  type Sextet = v: int | 0 <= v < 64

  function SextetChar(v: Sextet): (c: char)
    ensures c != '=' && c as int < 128
  {
    if v < 26 then ('A' as int + v) as char
    else if v < 52 then ('a' as int + (v - 26)) as char
    else if v < 62 then ('0' as int + (v - 52)) as char
    else if v == 62 then '-' else '_'
  }

  /** Both alphabets decode: the URL-safe characters are translated to the standard ones first. */
  function CharSextet(c: char): Option<Sextet> {
    if 'A' <= c <= 'Z' then Some(c as int - 'A' as int)
    else if 'a' <= c <= 'z' then Some(c as int - 'a' as int + 26)
    else if '0' <= c <= '9' then Some(c as int - '0' as int + 52)
    else if c == '-' || c == '+' then Some(62)
    else if c == '_' || c == '/' then Some(63)
    else None
  }

  function Encode(bytes: seq<Byte>): string {
    if |bytes| == 0 then ""
    else if |bytes| == 1 then
      [SextetChar(bytes[0] / 4), SextetChar(bytes[0] % 4 * 16), '=', '=']
    else if |bytes| == 2 then
      [SextetChar(bytes[0] / 4), SextetChar(bytes[0] % 4 * 16 + bytes[1] / 16), SextetChar(bytes[1] % 16 * 4), '=']
    else
      [SextetChar(bytes[0] / 4), SextetChar(bytes[0] % 4 * 16 + bytes[1] / 16),
       SextetChar(bytes[1] % 16 * 4 + bytes[2] / 64), SextetChar(bytes[2] % 64)] + Encode(bytes[3..])
  }

  /** The text without its trailing padding characters. */
  function StripPadding(s: string): string {
    if |s| > 0 && s[|s| - 1] == '=' then StripPadding(s[..|s| - 1]) else s
  }

  /** The text padded to the next multiple of four characters. */
  function Repad(s: string): string {
    s + seq((4 - |s| % 4) % 4, _ => '=')
  }

  /** What the bits carried over from the previous character can be. */
  predicate Carry(quad: nat, left: int) {
    match quad
    case 0 => left == 0
    case 1 => 0 <= left < 64
    case 2 => 0 <= left < 16
    case 3 => 0 <= left < 4
    case _ => false
  }

  function Prepend(b: Byte, rest: Option<seq<Byte>>): Option<seq<Byte>> {
    match rest case None => None case Some(bytes) => Some([b] + bytes)
  }

  /** The decoder's loop; None is the raised binascii.Error. */
  function DecodeFrom(s: string, quad: nat, left: int, pads: nat): Option<seq<Byte>>
    requires Carry(quad, left)
  {
    if |s| == 0 then (if quad == 0 then Some([]) else None)
    else if s[0] == '=' then
      if quad >= 2 && quad + pads + 1 >= 4 then Some([])
      else DecodeFrom(s[1..], quad, left, if quad >= 2 then pads + 1 else pads)
    else match CharSextet(s[0])
      case None => DecodeFrom(s[1..], quad, left, pads)
      case Some(v) =>
        match quad
        case 0 => DecodeFrom(s[1..], 1, v, 0)
        case 1 => Prepend(left * 4 + v / 16, DecodeFrom(s[1..], 2, v % 16, 0))
        case 2 => Prepend(left * 16 + v / 4, DecodeFrom(s[1..], 3, v % 4, 0))
        case 3 => Prepend(left * 64 + v, DecodeFrom(s[1..], 0, 0, 0))
  }

  function Decode(s: string): Option<seq<Byte>> {
    DecodeFrom(s, 0, 0, 0)
  }

  lemma SextetRoundTrip(v: Sextet)
    ensures CharSextet(SextetChar(v)) == Some(v) && SextetChar(v) != '='
  {
  }

  /** One character of the alphabet steps the decoder by one sextet. */
  lemma DecodeStep(v: Sextet, rest: string, quad: nat, left: int)
    requires Carry(quad, left)
    ensures DecodeFrom([SextetChar(v)] + rest, quad, left, 0) ==
            match quad
            case 0 => DecodeFrom(rest, 1, v, 0)
            case 1 => Prepend(left * 4 + v / 16, DecodeFrom(rest, 2, v % 16, 0))
            case 2 => Prepend(left * 16 + v / 4, DecodeFrom(rest, 3, v % 4, 0))
            case 3 => Prepend(left * 64 + v, DecodeFrom(rest, 0, 0, 0))
  {
    SextetRoundTrip(v);
    assert ([SextetChar(v)] + rest)[1..] == rest;
  }

  lemma DecodeOne(b0: Byte)
    ensures Decode([SextetChar(b0 / 4), SextetChar(b0 % 4 * 16), '=', '=']) == Some([b0])
  {
    var v0, v1 := b0 / 4, b0 % 4 * 16;
    assert [SextetChar(v0), SextetChar(v1), '=', '='] == [SextetChar(v0)] + ([SextetChar(v1)] + ['=', '=']);
    DecodeStep(v0, [SextetChar(v1)] + ['=', '='], 0, 0);
    DecodeStep(v1, ['=', '='], 1, v0);
    assert ['=', '='][1..] == ['='];
    assert DecodeFrom(['='], 2, 0, 1) == Some([]);
    assert DecodeFrom(['=', '='], 2, 0, 0) == Some([]);
    assert [b0] + [] == [b0] && v0 * 4 + v1 / 16 == b0 && v1 % 16 == 0;
  }

  lemma DecodeTwo(b0: Byte, b1: Byte)
    ensures Decode([SextetChar(b0 / 4), SextetChar(b0 % 4 * 16 + b1 / 16), SextetChar(b1 % 16 * 4), '=']) ==
            Some([b0, b1])
  {
    var v0, v1, v2 := b0 / 4, b0 % 4 * 16 + b1 / 16, b1 % 16 * 4;
    assert [SextetChar(v0), SextetChar(v1), SextetChar(v2), '='] ==
           [SextetChar(v0)] + ([SextetChar(v1)] + ([SextetChar(v2)] + ['=']));
    DecodeStep(v0, [SextetChar(v1)] + ([SextetChar(v2)] + ['=']), 0, 0);
    DecodeStep(v1, [SextetChar(v2)] + ['='], 1, v0);
    DecodeStep(v2, ['='], 2, v1 % 16);
    assert DecodeFrom(['='], 3, 0, 0) == Some([]);
    assert [b0] + ([b1] + []) == [b0, b1];
  }

  /** Four characters of the alphabet decode to three bytes. */
  lemma DecodeQuad(v0: Sextet, v1: Sextet, v2: Sextet, v3: Sextet, rest: string)
    ensures Decode([SextetChar(v0), SextetChar(v1), SextetChar(v2), SextetChar(v3)] + rest) ==
            Prepend(v0 * 4 + v1 / 16, Prepend(v1 % 16 * 16 + v2 / 4, Prepend(v2 % 4 * 64 + v3, Decode(rest))))
  {
    var s3 := [SextetChar(v3)] + rest;
    var s2 := [SextetChar(v2)] + s3;
    var s1 := [SextetChar(v1)] + s2;
    assert [SextetChar(v0), SextetChar(v1), SextetChar(v2), SextetChar(v3)] + rest == [SextetChar(v0)] + s1;
    DecodeStep(v0, s1, 0, 0);
    DecodeStep(v1, s2, 1, v0);
    DecodeStep(v2, s3, 2, v1 % 16);
    DecodeStep(v3, rest, 3, v2 % 4);
  }

  lemma Regroup(b0: Byte, b1: Byte, b2: Byte)
    ensures
      var v1, v2 := b0 % 4 * 16 + b1 / 16, b1 % 16 * 4 + b2 / 64;
      && b0 / 4 * 4 + v1 / 16 == b0
      && v1 % 16 * 16 + v2 / 4 == b1
      && v2 % 4 * 64 + b2 % 64 == b2
  {
  }

  /** Decoding undoes encoding, with the padding the encoder wrote. */
  lemma {:induction false} DecodeEncoded(bytes: seq<Byte>)
    ensures Decode(Encode(bytes)) == Some(bytes)
  {
    if |bytes| == 1 {
      DecodeOne(bytes[0]);
      assert bytes == [bytes[0]];
    } else if |bytes| == 2 {
      DecodeTwo(bytes[0], bytes[1]);
      assert bytes == [bytes[0], bytes[1]];
    } else if |bytes| > 2 {
      var b0, b1, b2 := bytes[0], bytes[1], bytes[2];
      DecodeQuad(b0 / 4, b0 % 4 * 16 + b1 / 16, b1 % 16 * 4 + b2 / 64, b2 % 64, Encode(bytes[3..]));
      Regroup(b0, b1, b2);
      DecodeEncoded(bytes[3..]);
      assert bytes == [bytes[0]] + ([bytes[1]] + ([bytes[2]] + bytes[3..]));
    }
  }

  ghost function Padding(k: nat): string {
    seq(k, _ => '=')
  }

  ghost predicate IsData(s: string) {
    forall i :: 0 <= i < |s| ==> s[i] != '=' && s[i] as int < 128
  }

  /** An encoding is data characters followed by at most two padding characters, a multiple of four in all. */
  lemma {:induction false} EncodedShape(bytes: seq<Byte>) returns (data: string, k: nat)
    ensures Encode(bytes) == data + Padding(k) && IsData(data)
    ensures k <= 2 && (|data| + k) % 4 == 0
  {
    if |bytes| == 0 {
      data, k := "", 0;
    } else if |bytes| == 1 {
      data, k := [SextetChar(bytes[0] / 4), SextetChar(bytes[0] % 4 * 16)], 2;
    } else if |bytes| == 2 {
      data := [SextetChar(bytes[0] / 4), SextetChar(bytes[0] % 4 * 16 + bytes[1] / 16), SextetChar(bytes[1] % 16 * 4)];
      k := 1;
    } else {
      var rest;
      rest, k := EncodedShape(bytes[3..]);
      var head := [SextetChar(bytes[0] / 4), SextetChar(bytes[0] % 4 * 16 + bytes[1] / 16),
                   SextetChar(bytes[1] % 16 * 4 + bytes[2] / 64), SextetChar(bytes[2] % 64)];
      data := head + rest;
      LongerShape(head, rest, k);
    }
    assert Encode(bytes) == data + Padding(k);
  }

  lemma LongerShape(head: string, rest: string, k: nat)
    requires |head| == 4 && IsData(head) && IsData(rest) && (|rest| + k) % 4 == 0
    ensures IsData(head + rest) && (|head + rest| + k) % 4 == 0
    ensures head + (rest + Padding(k)) == head + rest + Padding(k)
  {
    assert |head + rest| + k == 4 + (|rest| + k);
  }

  lemma {:induction false} StripRun(data: string, k: nat)
    requires IsData(data)
    ensures StripPadding(data + Padding(k)) == data
  {
    var s := data + Padding(k);
    if k > 0 {
      assert s[|s| - 1] == '=' && s[..|s| - 1] == data + Padding(k - 1);
      StripRun(data, k - 1);
    } else {
      assert s == data;
    }
  }

  /** Stripping the padding loses nothing: the length tells how much to put back. */
  lemma RepadStripped(bytes: seq<Byte>)
    ensures Repad(StripPadding(Encode(bytes))) == Encode(bytes)
    ensures IsData(StripPadding(Encode(bytes)))
  {
    var data, k := EncodedShape(bytes);
    StripRun(data, k);
    MissingPadding(|data|, k);
    assert Repad(data) == data + Padding(k);
  }

  lemma MissingPadding(n: nat, k: nat)
    requires k <= 2 && (n + k) % 4 == 0
    ensures (4 - n % 4) % 4 == k
  {
  }

  // ---------- what else the lenient decoder reads ----------

  /** The alphabet runs through the capitals, the small letters and the digits, and ends in two marks. */
  lemma AlphabetRuns(v: Sextet)
    ensures SextetChar(0) == 'A' && SextetChar(25) == 'Z' && SextetChar(26) == 'a' && SextetChar(51) == 'z'
    ensures SextetChar(52) == '0' && SextetChar(61) == '9' && SextetChar(62) == '-' && SextetChar(63) == '_'
    ensures v !in {25, 51, 61, 62, 63} ==> SextetChar(v + 1) as int == SextetChar(v) as int + 1
    ensures CharSextet('+') == CharSextet('-') && CharSextet('/') == CharSextet('_')
  {
  }

  /** A character outside both alphabets is skipped, wherever it stands. */
  lemma {:induction false} ForeignIsSkipped(a: string, c: char, b: string, quad: nat, left: int, pads: nat)
    requires Carry(quad, left) && CharSextet(c).None? && c != '='
    ensures DecodeFrom(a + [c] + b, quad, left, pads) == DecodeFrom(a + b, quad, left, pads)
  {
    var s, t := a + [c] + b, a + b;
    if |a| == 0 {
      assert s[1..] == b && t == b;
    } else {
      assert s[0] == a[0] == t[0] && s[1..] == a[1..] + [c] + b && t[1..] == a[1..] + b;
      if a[0] == '=' {
        if !(quad >= 2 && quad + pads + 1 >= 4) {
          ForeignIsSkipped(a[1..], c, b, quad, left, if quad >= 2 then pads + 1 else pads);
        }
      } else {
        match CharSextet(a[0])
        case None => ForeignIsSkipped(a[1..], c, b, quad, left, pads);
        case Some(v) =>
          match quad
          case 0 => ForeignIsSkipped(a[1..], c, b, 1, v, 0);
          case 1 => ForeignIsSkipped(a[1..], c, b, 2, v % 16, 0);
          case 2 => ForeignIsSkipped(a[1..], c, b, 3, v % 4, 0);
          case 3 => ForeignIsSkipped(a[1..], c, b, 0, 0, 0);
      }
    }
  }

  /** Data characters that stop in the middle of four are refused: padding is not optional. */
  lemma {:induction false} PartialIsRefused(s: string, quad: nat, left: int, pads: nat)
    requires Carry(quad, left) && (forall i :: 0 <= i < |s| ==> s[i] != '=' && CharSextet(s[i]).Some?)
    requires (quad + |s|) % 4 != 0
    ensures DecodeFrom(s, quad, left, pads) == None
  {
    if |s| > 0 {
      var v := CharSextet(s[0]).value;
      match quad
      case 0 => PartialIsRefused(s[1..], 1, v, 0);
      case 1 => PartialIsRefused(s[1..], 2, v % 16, 0);
      case 2 => PartialIsRefused(s[1..], 3, v % 4, 0);
      case 3 => PartialIsRefused(s[1..], 0, 0, 0);
    }
  }

  /** Whatever follows complete padding is not read. */
  lemma {:induction false} PaddingEnds(s: string, rest: string, quad: nat, left: int)
    requires Carry(quad, left) && (quad == 3 || quad == 2)
    ensures DecodeFrom((if quad == 3 then "=" else "==") + rest, quad, left, 0) == Some([])
  {
    if quad == 2 {
      assert ("==" + rest)[1..] == "=" + rest;
    }
  }
}
