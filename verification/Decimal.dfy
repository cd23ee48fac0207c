/** Python's `str` of a natural number and `int` of an ASCII text. */
module Decimal {
  import opened Wrappers

  function DigitChar(d: nat): char
    requires d < 10
  {
    ('0' as int + d) as char
  }

  predicate IsDigit(c: char) { '0' <= c <= '9' }

  function Print(n: nat): string {
    if n < 10 then [DigitChar(n)] else Print(n / 10) + [DigitChar(n % 10)]
  }

  predicate IsSpace(c: char) {
    c == ' ' || 9 <= c as int <= 13
  }

  function StripLeft(s: string): string {
    if |s| > 0 && IsSpace(s[0]) then StripLeft(s[1..]) else s
  }

  function StripRight(s: string): string {
    if |s| > 0 && IsSpace(s[|s| - 1]) then StripRight(s[..|s| - 1]) else s
  }

  /** Digits, with single underscores allowed between two digits. */
  predicate IsNumeral(s: string) {
    && |s| > 0 && IsDigit(s[0]) && IsDigit(s[|s| - 1])
    && (forall i :: 0 <= i < |s| ==> IsDigit(s[i]) || s[i] == '_')
    && (forall i :: 0 <= i < |s| - 1 ==> IsDigit(s[i]) || IsDigit(s[i + 1]))
  }

  function NumeralValue(s: string): nat
    requires forall i :: 0 <= i < |s| ==> IsDigit(s[i]) || s[i] == '_'
  {
    if |s| == 0 then 0
    else
      var last, init := s[|s| - 1], NumeralValue(s[..|s| - 1]);
      if IsDigit(last) then 10 * init + (last as int - '0' as int) else init
  }

  /** The integer a text denotes in Python, blanks around it aside; None is the ValueError. */
  function ParseInt(s: string): Option<int> {
    var t := StripRight(StripLeft(s));
    var signed := |t| > 0 && (t[0] == '-' || t[0] == '+');
    var digits := if signed then t[1..] else t;
    if !IsNumeral(digits) then None
    else
      var magnitude: int := NumeralValue(digits);
      Some(if signed && t[0] == '-' then -magnitude else magnitude)
  }

  lemma {:induction false} PrintedIsNumeral(n: nat)
    ensures |Print(n)| > 0 && forall i :: 0 <= i < |Print(n)| ==> IsDigit(Print(n)[i])
    ensures NumeralValue(Print(n)) == n
  {
    if n >= 10 {
      PrintedIsNumeral(n / 10);
      assert Print(n)[..|Print(n)| - 1] == Print(n / 10);
    }
  }

  lemma ParsePrinted(n: nat)
    ensures ParseInt(Print(n)) == Some(n)
  {
    PrintedIsNumeral(n);
    assert IsDigit(Print(n)[0]) && IsDigit(Print(n)[|Print(n)| - 1]);
    assert StripRight(StripLeft(Print(n))) == Print(n);
  }

  // ---------- other texts ----------

  /** Leading digits weigh ten times as much, and an underscore weighs nothing. */
  lemma NumeralAppend(s: string, d: nat)
    requires d < 10 && forall i :: 0 <= i < |s| ==> IsDigit(s[i]) || s[i] == '_'
    ensures NumeralValue(s + [DigitChar(d)]) == 10 * NumeralValue(s) + d
    ensures NumeralValue(s + ['_']) == NumeralValue(s)
  {
    assert (s + [DigitChar(d)])[..|s|] == s && (s + ['_'])[..|s|] == s;
  }

  lemma {:induction false} StripBlank(s: string, c: char)
    requires IsSpace(c)
    ensures StripRight(StripLeft(s + [c])) == StripRight(StripLeft(s))
  {
    if |s| == 0 {
      assert s + [c] == [c] && [c][1..] == "";
    } else if IsSpace(s[0]) {
      assert (s + [c])[1..] == s[1..] + [c];
      StripBlank(s[1..], c);
    } else {
      assert (s + [c])[..|s|] == s;
    }
  }

  /** The blanks of ASCII around a number are not seen. */
  lemma ParseBlanks(s: string, c: char)
    requires c as int in {9, 10, 11, 12, 13, 32}
    ensures ParseInt([c] + s) == ParseInt(s) && ParseInt(s + [c]) == ParseInt(s)
  {
    assert ([c] + s)[1..] == s;
    StripBlank(s, c);
  }

  /** A sign may stand before the digits. */
  lemma ParseSigned(n: nat)
    ensures ParseInt("+" + Print(n)) == Some(n)
    ensures ParseInt("-" + Print(n)).Some? && ParseInt("-" + Print(n)).value + n == 0
  {
    PrintedIsNumeral(n);
    var digits := Print(n);
    assert IsDigit(digits[0]) && IsDigit(digits[|digits| - 1]);
    SignedStrips("-", digits);
    SignedStrips("+", digits);
    assert ("-" + digits)[1..] == digits && ("+" + digits)[1..] == digits;
  }

  lemma SignedStrips(sign: string, digits: string)
    requires sign in {"-", "+"} && |digits| > 0 && !IsSpace(digits[|digits| - 1])
    ensures StripRight(StripLeft(sign + digits)) == sign + digits
  {
  }

  lemma {:induction false} StrippedMembers(s: string)
    ensures forall c :: c in s && !IsSpace(c) ==> c in StripRight(StripLeft(s))
  {
    StripLeftMembers(s);
    StripRightMembers(StripLeft(s));
  }

  lemma {:induction false} StripLeftMembers(s: string)
    ensures forall c :: c in s && !IsSpace(c) ==> c in StripLeft(s)
  {
    if |s| > 0 && IsSpace(s[0]) {
      assert s == [s[0]] + s[1..];
      StripLeftMembers(s[1..]);
    }
  }

  lemma {:induction false} StripRightMembers(s: string)
    ensures forall c :: c in s && !IsSpace(c) ==> c in StripRight(s)
  {
    if |s| > 0 && IsSpace(s[|s| - 1]) {
      assert s == s[..|s| - 1] + [s[|s| - 1]];
      StripRightMembers(s[..|s| - 1]);
    }
  }

  /** Nothing but digits, underscores, signs and blanks is ever read as a number. */
  lemma ForeignCharacter(s: string, c: char)
    requires c in s && !IsDigit(c) && c !in {'_', '-', '+'} && c as int !in {9, 10, 11, 12, 13, 32}
    ensures ParseInt(s) == None
  {
    StrippedMembers(s);
    var t := StripRight(StripLeft(s));
    assert c in t;
    var i :| 0 <= i < |t| && t[i] == c;
    assert i > 0 ==> t[1..][i - 1] == c;
  }

  /** An underscore must stand between two digits, and there must be digits. */
  lemma Misplaced(a: string, b: string)
    requires (forall i :: 0 <= i < |a| ==> IsDigit(a[i])) && forall i :: 0 <= i < |b| ==> IsDigit(b[i])
    ensures ParseInt("") == None && ParseInt("-") == None
    ensures ParseInt("_" + b) == None && ParseInt(a + "_") == None && ParseInt(a + "__" + b) == None
  {
    assert StripRight(StripLeft("-")) == "-" && "-"[1..] == "";
    assert ("_" + b)[0] == '_';
    UnspacedStrips("_" + b);
    UnspacedStrips(a + "_");
    assert (a + "_")[|a|] == '_';
    UnspacedStrips(a + "__" + b);
    assert (a + "__" + b)[|a|] == '_' && (a + "__" + b)[|a| + 1] == '_';
  }

  lemma UnspacedStrips(s: string)
    requires forall i :: 0 <= i < |s| ==> !IsSpace(s[i])
    ensures StripRight(StripLeft(s)) == s
  {
  }
}
