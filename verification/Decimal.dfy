/** std::to_string on int, and std::stoi. */
module Decimal {
  import opened Workers
  import Calculator

  predicate IsDigit(c: char) {
    '0' <= c <= '9'
  }

  predicate AllDigits(s: string) {
    forall i :: 0 <= i < |s| ==> IsDigit(s[i])
  }

  function DigitChar(d: nat): (c: char)
    requires d < 10
    ensures IsDigit(c) && c as int - '0' as int == d
  {
    ('0' as int + d) as char
  }

  function NatToString(n: nat): (s: string)
    ensures |s| > 0 && AllDigits(s)
    ensures n > 0 ==> s[0] != '0'
    ensures n == 0 ==> s == "0"
  {
    if n < 10 then [DigitChar(n)] else NatToString(n / 10) + [DigitChar(n % 10)]
  }

  function ToString(n: int): (s: string)
    ensures |s| > 0
  {
    if n < 0 then "-" + NatToString(-n) else NatToString(n)
  }

  function Value(s: string): nat
    requires AllDigits(s)
  {
    if s == "" then 0 else 10 * Value(s[..|s| - 1]) + (s[|s| - 1] as int - '0' as int)
  }

  lemma {:induction false} ValueOfNat(n: nat)
    ensures Value(NatToString(n)) == n
  {
    var s := NatToString(n);
    if n >= 10 {
      assert s[..|s| - 1] == NatToString(n / 10);
      ValueOfNat(n / 10);
    } else {
      assert s[..|s| - 1] == "";
    }
  }

  predicate IsSpace(c: char) {
    c == ' ' || '\t' <= c <= '\r'
  }

  lemma SpacesAre(c: char)
    ensures IsSpace(c) <==> c as int in {0x20, 0x09, 0x0a, 0x0b, 0x0c, 0x0d}
  {
  }

  /** Length of the longest prefix of s whose characters are blank. */
  function BlankPrefix(s: string): (n: nat)
    ensures n <= |s| && (forall i :: 0 <= i < n ==> IsSpace(s[i])) && (n < |s| ==> !IsSpace(s[n]))
  {
    if s != "" && IsSpace(s[0]) then 1 + BlankPrefix(s[1..]) else 0
  }

  function DigitPrefix(s: string): (n: nat)
    ensures n <= |s| && AllDigits(s[..n]) && (n < |s| ==> !IsDigit(s[n]))
  {
    if s != "" && IsDigit(s[0]) then
      var n := 1 + DigitPrefix(s[1..]);
      assert s[..n] == [s[0]] + s[1..][..n - 1];
      n
    else 0
  }

  /** Blanks, an optional sign, at least one digit, anything; None where stoi throws (no digits, or outside int). */
  function Stoi(s: string): Option<int>
  {
    Signed(s[BlankPrefix(s)..])
  }

  function Signed(t: string): Option<int>
  {
    var negative := t != "" && t[0] == '-';
    var digits := if t != "" && (t[0] == '-' || t[0] == '+') then t[1..] else t;
    var n := DigitPrefix(digits);
    if n == 0 then None
    else
      var magnitude: int := Value(digits[..n]);
      var v := if negative then -magnitude else magnitude;
      if Calculator.IsInt(v) then Some(v) else None
  }

  /** stoi reads back what to_string printed. */
  lemma StoiToString(n: int)
    requires Calculator.IsInt(n)
    ensures Stoi(ToString(n)) == Some(n)
  {
    var s := ToString(n);
    var digits := NatToString(if n < 0 then -n else n);
    assert BlankPrefix(s) == 0;
    assert s[0..] == s;
    if n < 0 {
      assert s[1..] == digits;
    }
    assert !(IsDigit('-') || IsDigit('+'));
    assert DigitPrefix(digits) == |digits|;
    assert digits[..|digits|] == digits;
    ValueOfNat(if n < 0 then -n else n);
  }

  /** A printed int holds neither a blank nor a control character. */
  lemma ToStringIsPlain(n: int)
    ensures forall i :: 0 <= i < |ToString(n)| ==> ToString(n)[i] == '-' || IsDigit(ToString(n)[i])
  {
  }

  /** A number of more than one digit does not begin with '0', and is the only such numeral for its value. */
  lemma {:induction false} NumeralIsCanonical(s: string)
    requires s != "" && AllDigits(s) && (|s| > 1 ==> s[0] != '0')
    ensures NatToString(Value(s)) == s
  {
    var n := |s| - 1;
    var last := s[n] as int - '0' as int;
    if n > 0 {
      NumeralIsCanonical(s[..n]);
      PositiveNumeral(s[..n]);
      assert Value(s) / 10 == Value(s[..n]) && Value(s) % 10 == last;
      assert s == s[..n] + [DigitChar(last)];
    } else {
      assert s[..0] == "";
      assert s == [DigitChar(last)];
    }
  }

  lemma {:induction false} PositiveNumeral(s: string)
    requires s != "" && AllDigits(s) && s[0] != '0'
    ensures Value(s) > 0
  {
    if |s| > 1 {
      PositiveNumeral(s[..|s| - 1]);
    } else {
      assert s[..0] == "";
    }
  }

  /**
    stoi on any text: blanks, at most one sign, digits, and a rest that does not go on with a digit. Without digits or
    with a value outside int there is no result.
  */
  lemma StoiReads(blanks: string, sign: string, digits: string, rest: string)
    requires (forall i :: 0 <= i < |blanks| ==> IsSpace(blanks[i])) && sign in {"", "+", "-"} && AllDigits(digits)
    requires rest != "" ==> !IsDigit(rest[0])
    requires sign == "" && digits == "" && rest != "" ==> !IsSpace(rest[0]) && rest[0] != '+' && rest[0] != '-'
    ensures var v: int := if sign == "-" then 0 - Value(digits) else Value(digits);
      Stoi(blanks + (sign + (digits + rest))) ==
      if digits != "" && Calculator.INT_MIN <= v <= Calculator.INT_MAX then Some(v) else None
  {
    hide Value, IsDigit, IsSpace, Signed, BlankPrefix;
    var tail := sign + (digits + rest);
    TailBegins(sign, digits, rest);
    BlankPrefixIs(blanks, tail);
    SignedReads(sign, digits, rest);
  }

  lemma TailBegins(sign: string, digits: string, rest: string)
    requires sign in {"", "+", "-"} && AllDigits(digits)
    requires sign == "" && digits == "" && rest != "" ==> !IsSpace(rest[0])
    ensures var tail := sign + (digits + rest); tail != "" ==> !IsSpace(tail[0])
  {
    var tail := sign + (digits + rest);
    if sign == "" && digits != "" {
      assert tail[0] == digits[0];
    } else if sign == "" {
      assert tail == rest;
    }
  }

  lemma SignedReads(sign: string, digits: string, rest: string)
    requires sign in {"", "+", "-"} && AllDigits(digits) && (rest != "" ==> !IsDigit(rest[0]))
    requires sign == "" && digits == "" && rest != "" ==> rest[0] != '+' && rest[0] != '-'
    ensures var v: int := if sign == "-" then 0 - Value(digits) else Value(digits);
      Signed(sign + (digits + rest)) ==
      if digits != "" && Calculator.INT_MIN <= v <= Calculator.INT_MAX then Some(v) else None
  {
    hide Value, DigitPrefix;
    var tail, unsigned := sign + (digits + rest), digits + rest;
    DigitPrefixIs(digits, rest);
    assert unsigned[..|digits|] == digits;
    if sign == "" {
      assert tail == unsigned;
      assert digits != "" ==> tail[0] == digits[0];
      assert digits == "" ==> tail == rest;
    } else {
      assert tail[0] == sign[0] && tail[1..] == unsigned;
    }
  }

  lemma {:induction false} BlankPrefixIs(blanks: string, tail: string)
    requires (forall i :: 0 <= i < |blanks| ==> IsSpace(blanks[i])) && (tail != "" ==> !IsSpace(tail[0]))
    ensures BlankPrefix(blanks + tail) == |blanks| && (blanks + tail)[|blanks|..] == tail
  {
    if blanks == "" {
      assert blanks + tail == tail;
    } else {
      assert (blanks + tail)[1..] == blanks[1..] + tail;
      BlankPrefixIs(blanks[1..], tail);
    }
  }

  lemma {:induction false} DigitPrefixIs(digits: string, rest: string)
    requires AllDigits(digits) && (rest != "" ==> !IsDigit(rest[0]))
    ensures DigitPrefix(digits + rest) == |digits|
  {
    if digits == "" {
      assert digits + rest == rest;
    } else {
      assert (digits + rest)[1..] == digits[1..] + rest;
      DigitPrefixIs(digits[1..], rest);
    }
  }
}
