/** Decimal rendering and parsing of integers: JavaScript `String(n)` for
    non-negative integers, and the subset of Python `int(text)` the agent's
    CSV readers rely on. */
module Decimal {
  import opened Common

  predicate IsDigit(c: char) {
    '0' <= c <= '9'
  }

  function DigitChar(d: nat): (c: char)
    requires d < 10
    ensures IsDigit(c) && DigitValue(c) == d
  {
    ['0', '1', '2', '3', '4', '5', '6', '7', '8', '9'][d]
  }

  function DigitValue(c: char): nat
    requires IsDigit(c)
  {
    (c as int) - ('0' as int)
  }

  /** `String(n)` for a non-negative integer: decimal digits, no leading zero. */
  function NatToString(n: nat): (s: string)
    ensures |s| > 0
    ensures forall i :: 0 <= i < |s| ==> IsDigit(s[i])
    ensures n > 0 ==> s[0] != '0'
  {
    if n < 10 then [DigitChar(n)] else NatToString(n / 10) + [DigitChar(n % 10)]
  }

  /** The value of a string of decimal digits (the empty string has value 0). */
  function DigitsValue(s: string): nat
    requires forall i :: 0 <= i < |s| ==> IsDigit(s[i])
  {
    if s == [] then 0 else DigitsValue(s[..|s| - 1]) * 10 + DigitValue(s[|s| - 1])
  }

  predicate AllDigits(s: string) {
    forall i :: 0 <= i < |s| ==> IsDigit(s[i])
  }

  /** Parses a non-empty run of decimal digits; anything else is rejected. */
  function ParseNat(s: string): Option<nat> {
    if s != [] && AllDigits(s) then Some(DigitsValue(s)) else None
  }

  lemma {:induction false} DigitsValueOfNatToString(n: nat)
    ensures DigitsValue(NatToString(n)) == n
  {
    if n >= 10 {
      var s := NatToString(n);
      assert s[..|s| - 1] == NatToString(n / 10);
      DigitsValueOfNatToString(n / 10);
    }
  }

  /** Rendering then parsing gives back the number. */
  lemma ParseNatToString(n: nat)
    ensures ParseNat(NatToString(n)) == Some(n)
  {
    DigitsValueOfNatToString(n);
  }

  /** Rendering is injective, so distinct numbers never share a decimal text. */
  lemma NatToStringInjective(a: nat, b: nat)
    requires NatToString(a) == NatToString(b)
    ensures a == b
  {
    ParseNatToString(a);
    ParseNatToString(b);
  }

  predicate IsPySpace(c: char) {
    c == ' ' || c == '\t' || c == '\n' || c == '\r' || c == '\U{000B}' || c == '\U{000C}'
  }

  /** The white space and line terminators JavaScript's `ToNumber` strips from a string:
      the Python set, no-break space, the other space separators, the line and paragraph
      separators and the byte-order mark. */
  predicate IsJsSpace(c: char) {
    || IsPySpace(c)
    || c == '\U{00A0}' || c == '\U{1680}' || ('\U{2000}' <= c <= '\U{200A}')
    || c == '\U{2028}' || c == '\U{2029}' || c == '\U{202F}' || c == '\U{205F}'
    || c == '\U{3000}' || c == '\U{FEFF}'
  }

  function TrimLeft(s: string, space: char -> bool): string {
    if s != [] && space(s[0]) then TrimLeft(s[1..], space) else s
  }

  function TrimRight(s: string, space: char -> bool): string {
    if s != [] && space(s[|s| - 1]) then TrimRight(s[..|s| - 1], space) else s
  }

  /** An optional sign followed by one or more ASCII digits; None for anything else. */
  function SignedInt(t: string): (r: Option<int>)
  {
    if t != [] && (t[0] == '-' || t[0] == '+') then
      match ParseNat(t[1..])
      case Some(n) =>
        var v: int := if t[0] == '-' then -(n as int) else n;
        Some(v)
      case None => None
    else
      match ParseNat(t)
      case Some(n) =>
        var v: int := n;
        Some(v)
      case None => None
  }

  /** Python `int(text)` on a CSV field: surrounding whitespace (the trailing newline
      among it) is ignored, then an optional sign and one or more ASCII digits.
      None stands for the `ValueError` Python raises on anything else. */
  function PyInt(text: string): (r: Option<int>)
  {
    SignedInt(TrimRight(TrimLeft(text, IsPySpace), IsPySpace))
  }

  /** `int(str(n))` is `n` for every non-negative `n`, with or without a trailing newline. */
  lemma PyIntOfNatToString(n: nat, trailer: string)
    requires forall i :: 0 <= i < |trailer| ==> IsPySpace(trailer[i])
    ensures PyInt(NatToString(n) + trailer) == Some(n)
  {
    var s := NatToString(n);
    assert TrimLeft(s + trailer, IsPySpace) == s + trailer;
    TrimRightSpaces(s, trailer, IsPySpace);
    ParseNatToString(n);
  }

  lemma {:induction false} TrimRightSpaces(s: string, trailer: string, space: char -> bool)
    requires s != [] && !space(s[|s| - 1])
    requires forall i :: 0 <= i < |trailer| ==> space(trailer[i])
    ensures TrimRight(s + trailer, space) == s
  {
    if trailer == [] {
      assert s + trailer == s;
    } else {
      var t := trailer[..|trailer| - 1];
      assert (s + trailer)[..|s + trailer| - 1] == s + t;
      TrimRightSpaces(s, t, space);
    }
  }

  lemma {:induction false} TrimLeftSpaces(leader: string, s: string, space: char -> bool)
    requires s != [] && !space(s[0])
    requires forall i :: 0 <= i < |leader| ==> space(leader[i])
    ensures TrimLeft(leader + s, space) == s
  {
    if leader == [] {
      assert leader + s == s;
    } else {
      assert (leader + s)[1..] == leader[1..] + s;
      TrimLeftSpaces(leader[1..], s, space);
    }
  }

  lemma {:induction false} TrimAllSpaces(s: string, space: char -> bool)
    requires forall i :: 0 <= i < |s| ==> space(s[i])
    ensures TrimLeft(s, space) == []
  {
    if s != [] {
      TrimAllSpaces(s[1..], space);
    }
  }

  /** JavaScript `Number(text)` on the strings that denote an integer: surrounding white
      space is ignored, white space alone is 0, and otherwise an optional sign and one or
      more ASCII digits give their value. None covers the other strings, NaN among them. */
  function JsIntText(text: string): (r: Option<int>)
    ensures (forall i :: 0 <= i < |text| ==> IsJsSpace(text[i])) ==> r == Some(0)
  {
    var t := TrimRight(TrimLeft(text, IsJsSpace), IsJsSpace);
    assert (forall i :: 0 <= i < |text| ==> IsJsSpace(text[i])) ==> t == [] by {
      if forall i :: 0 <= i < |text| ==> IsJsSpace(text[i]) {
        TrimAllSpaces(text, IsJsSpace);
      }
    }
    if t == [] then
      Some(0)
    else
      SignedInt(t)
  }

  /** White space around a text that neither starts nor ends with it is stripped. */
  lemma JsIntTextTrim(leader: string, t: string, trailer: string)
    requires t != [] && !IsJsSpace(t[0]) && !IsJsSpace(t[|t| - 1])
    requires forall i :: 0 <= i < |leader| ==> IsJsSpace(leader[i])
    requires forall i :: 0 <= i < |trailer| ==> IsJsSpace(trailer[i])
    ensures JsIntText(leader + t + trailer) == SignedInt(t)
  {
    assert leader + t + trailer == leader + (t + trailer);
    TrimLeftSpaces(leader, t + trailer, IsJsSpace);
    TrimRightSpaces(t, trailer, IsJsSpace);
  }

  /** `"-" + String(n)`: a signed integer text with no white space at either end. */
  lemma NegatedText(n: nat)
    ensures var m := "-" + NatToString(n);
      && m != [] && !IsJsSpace(m[0]) && !IsJsSpace(m[|m| - 1])
      && SignedInt(m) == Some(-(n as int))
  {
    var s := NatToString(n);
    ParseNatToString(n);
    assert ("-" + s)[1..] == s;
    assert ("-" + s)[|s|] == s[|s| - 1];
  }

  /** `Number(String(n))` is `n`. */
  lemma JsIntTextOfDigits(n: nat)
    ensures JsIntText(NatToString(n)) == Some(n)
  {
    var s := NatToString(n);
    ParseNatToString(n);
    assert IsDigit(s[0]) && IsDigit(s[|s| - 1]);
    assert TrimLeft(s, IsJsSpace) == s;
    assert TrimRight(s, IsJsSpace) == s;
  }

  /** `Number` reads back `String(n)`, whatever white space surrounds it. */
  lemma JsIntTextOfNatToString(n: nat, leader: string, trailer: string)
    requires forall i :: 0 <= i < |leader| ==> IsJsSpace(leader[i])
    requires forall i :: 0 <= i < |trailer| ==> IsJsSpace(trailer[i])
    ensures JsIntText(leader + NatToString(n) + trailer) == Some(n)
  {
    ParseNatToString(n);
    JsIntTextTrim(leader, NatToString(n), trailer);
  }

  /** `Number` reads back `"-" + String(n)`, whatever white space surrounds it. */
  lemma JsIntTextOfNegated(n: nat, leader: string, trailer: string)
    requires forall i :: 0 <= i < |leader| ==> IsJsSpace(leader[i])
    requires forall i :: 0 <= i < |trailer| ==> IsJsSpace(trailer[i])
    ensures JsIntText(leader + ("-" + NatToString(n)) + trailer) == Some(-(n as int))
  {
    NegatedText(n);
    JsIntTextTrim(leader, "-" + NatToString(n), trailer);
  }
}
