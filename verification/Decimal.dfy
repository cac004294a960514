/** Number.prototype.toString for naturals, and parseInt in base 10. */
module Decimal {
  import opened WhiteSpace
  import opened Wrappers

  predicate IsDigit(c: char) {
    '0' <= c <= '9'
  }

  function DigitOf(d: nat): char
    requires d < 10
  {
    '0' + d as char
  }

  function ValueOf(c: char): nat
    requires IsDigit(c)
  {
    (c - '0') as nat
  }

  /** The decimal digits of `n`. */
  function Print(n: nat): (s: string)
    ensures s != "" && forall i :: 0 <= i < |s| ==> IsDigit(s[i])
  {
    if n < 10 then [DigitOf(n)] else Print(n / 10) + [DigitOf(n % 10)]
  }

  /** The longest prefix of digits. */
  function DigitPrefix(s: string): (p: string)
    ensures p <= s && forall i :: 0 <= i < |p| ==> IsDigit(p[i])
    ensures |p| < |s| ==> !IsDigit(s[|p|])
  {
    if s == "" || !IsDigit(s[0]) then "" else [s[0]] + DigitPrefix(s[1..])
  }

  function Evaluate(digits: string): nat
    requires forall i :: 0 <= i < |digits| ==> IsDigit(digits[i])
  {
    if digits == "" then 0 else Evaluate(digits[..|digits| - 1]) * 10 + ValueOf(digits[|digits| - 1])
  }

  function SkipSpaces(s: string): string {
    if s != "" && IsSpace(s[0]) then SkipSpaces(s[1..]) else s
  }

  /** parseInt(s, 10); None is NaN. */
  function ParseInt(s: string): Option<int> {
    var t := SkipSpaces(s);
    var negative := t != "" && t[0] == '-';
    var u := if t != "" && (t[0] == '-' || t[0] == '+') then t[1..] else t;
    var digits := DigitPrefix(u);
    var magnitude: int := Evaluate(digits);
    if digits == "" then None else Some(if negative then -magnitude else magnitude)
  }

  lemma {:induction false} EvaluatePrint(n: nat)
    ensures Evaluate(Print(n)) == n
  {
    if n >= 10 {
      EvaluatePrint(n / 10);
      var s := Print(n);
      assert s[..|s| - 1] == Print(n / 10);
    } else {
      assert Print(n)[..0] == "";
    }
  }

  lemma {:induction false} DigitPrefixStopsAt(digits: string, rest: string)
    requires forall i :: 0 <= i < |digits| ==> IsDigit(digits[i])
    requires rest != "" ==> !IsDigit(rest[0])
    ensures DigitPrefix(digits + rest) == digits
  {
    if digits == "" {
      assert digits + rest == rest;
    } else {
      DigitPrefixStopsAt(digits[1..], rest);
      assert (digits + rest)[1..] == digits[1..] + rest;
    }
  }

  /** Parsing undoes printing, whatever follows that is not a digit. */
  lemma ParsePrint(n: nat, rest: string)
    requires rest != "" ==> !IsDigit(rest[0])
    ensures ParseInt(Print(n) + rest) == Some(n)
    ensures rest == "" ==> ParseInt(Print(n)) == Some(n)
  {
    var s := Print(n) + rest;
    assert IsDigit(Print(n)[0]);
    assert SkipSpaces(s) == s;
    DigitPrefixStopsAt(Print(n), rest);
    EvaluatePrint(n);
    if rest == "" {
      assert s == Print(n);
    }
  }

  lemma {:induction false} SpacesAreSkipped(spaces: string, rest: string)
    requires forall i :: 0 <= i < |spaces| ==> IsSpace(spaces[i])
    requires rest == "" || !IsSpace(rest[0])
    ensures SkipSpaces(spaces + rest) == rest
  {
    if spaces == "" {
      assert spaces + rest == rest;
    } else {
      SpacesAreSkipped(spaces[1..], rest);
      assert (spaces + rest)[1..] == spaces[1..] + rest;
    }
  }

  /** Leading white space is skipped, one sign is read, and what follows the digits is
      ignored. */
  lemma ParseSigned(spaces: string, sign: string, n: nat, rest: string)
    requires forall i :: 0 <= i < |spaces| ==> IsSpace(spaces[i])
    requires sign in {"", "+", "-"} && (rest != "" ==> !IsDigit(rest[0]))
    ensures ParseInt(spaces + (sign + (Print(n) + rest))) == Some((if sign == "-" then -1 else 1) * n)
  {
    hide Print, Evaluate, DigitPrefix, SkipSpaces;
    var unsigned := Print(n) + rest;
    var number := sign + unsigned;
    assert IsDigit(unsigned[0]);
    assert number[0] == if sign == "" then unsigned[0] else sign[0];
    SpacesAreSkipped(spaces, number);
    assert sign != "" ==> number[1..] == unsigned;
    assert sign == "" ==> number == unsigned;
    DigitPrefixStopsAt(Print(n), rest);
    EvaluatePrint(n);
  }

  /** With no digit there, it is no number. */
  lemma NotANumber(spaces: string, sign: string, rest: string)
    requires forall i :: 0 <= i < |spaces| ==> IsSpace(spaces[i])
    requires sign in {"", "+", "-"} && (rest != "" ==> !IsDigit(rest[0]))
    requires sign == "" && rest != "" ==> !IsSpace(rest[0]) && rest[0] != '+' && rest[0] != '-'
    ensures ParseInt(spaces + (sign + rest)) == None
  {
    var number := sign + rest;
    SpacesAreSkipped(spaces, number);
    assert sign != "" ==> number[1..] == rest;
    assert sign == "" ==> number == rest;
  }
}
