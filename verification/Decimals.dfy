/** Python's text of an integer, and `int()` of a text, for ASCII. */
module Decimals {
  import opened Characters
  import opened Wrappers

  function Digit(d: nat): char
    requires d < 10
  {
    "0123456789"[d]
  }

  /** `f"{n}"` */
  function Decimal(n: nat): (s: string)
    ensures s != "" && forall i :: 0 <= i < |s| ==> '0' <= s[i] <= '9'
  {
    if n < 10 then [Digit(n)] else Decimal(n / 10) + [Digit(n % 10)]
  }

  function DigitValue(c: char): nat
    requires IsDigit(c)
  {
    c as int - '0' as int
  }

  /** Digits, with single underscores between them. */
  function Digits(s: string): Option<int> {
    if s == "" || !IsDigit(s[|s| - 1]) then None
    else if |s| == 1 then Some(DigitValue(s[0]))
    else
      var before := if s[|s| - 2] == '_' then s[..|s| - 2] else s[..|s| - 1];
      match Digits(before)
      case Some(n) => Some(n * 10 + DigitValue(s[|s| - 1]))
      case None => None
  }

  function Strip(s: string): string {
    if s == "" then s
    else if IsSpace(s[0]) then Strip(s[1..])
    else if IsSpace(s[|s| - 1]) then Strip(s[..|s| - 1])
    else s
  }

  /** `int(s)` on ASCII text */
  function ParseInt(s: string): Option<int> {
    var t := Strip(s);
    if t == "" then None
    else if t[0] == '-' then
      (match Digits(t[1..]) case Some(n) => Some(-n) case None => None)
    else if t[0] == '+' then
      (match Digits(t[1..]) case Some(n) => Some(n) case None => None)
    else
      match Digits(t) case Some(n) => Some(n) case None => None
  }

  lemma {:induction false} DecimalDigits(n: nat)
    ensures Digits(Decimal(n)) == Some(n)
  {
    hide Digit, Digits, DigitValue;
    if n < 10 {
      OneDigit(n);
    } else {
      DecimalDigits(n / 10);
      MoreDigits(Decimal(n / 10), n % 10);
    }
  }

  lemma DigitIs(d: nat)
    requires d < 10
    ensures IsDigit(Digit(d)) && DigitValue(Digit(d)) == d
  {
  }

  lemma OneDigit(d: nat)
    requires d < 10
    ensures Digits([Digit(d)]) == Some(d)
  {
    hide Digit, DigitValue, IsDigit;
    DigitIs(d);
  }

  lemma MoreDigits(s: string, d: nat)
    requires s != "" && d < 10 && Digits(s).Some? && IsDigit(s[|s| - 1])
    ensures Digits(s + [Digit(d)]) == Some(Digits(s).value * 10 + d)
  {
    hide Digit, DigitValue, IsDigit;
    DigitIs(d);
    var t := s + [Digit(d)];
    assert t[..|t| - 1] == s && t[|t| - 2] == s[|s| - 1];
    assert s[|s| - 1] != '_' by { DigitIsNoUnderscore(s[|s| - 1]); }
  }

  lemma DigitIsNoUnderscore(c: char)
    requires IsDigit(c)
    ensures c != '_'
  {
  }

  lemma DecimalParses(n: nat)
    ensures ParseInt(Decimal(n)) == Some(n)
  {
    DecimalDigits(n);
    var s := Decimal(n);
    assert IsDigit(s[0]) && IsDigit(s[|s| - 1]);
    assert Strip(s) == s;
  }

  /** A sign before a decimal text is read as such, and an underscore between its digits does not count. */
  lemma SignParses(n: nat)
    ensures ParseInt("+" + Decimal(n)) == Some(n) && ParseInt("-" + Decimal(n)) == Some(0 - n)
  {
    hide Digits, Decimal;
    DecimalDigits(n);
    SignStays('+', Decimal(n));
    SignStays('-', Decimal(n));
  }

  lemma SignStays(sign: char, s: string)
    requires sign == '+' || sign == '-'
    requires s != "" && IsDigit(s[|s| - 1])
    ensures Strip([sign] + s) == [sign] + s && ([sign] + s)[1..] == s
  {
  }

  lemma UnderscoreParses(s: string, d: nat)
    requires s != "" && d < 10 && IsDigit(s[|s| - 1])
    ensures Digits(s + "_" + [Digit(d)]) == Digits(s + [Digit(d)])
  {
    hide Digit, DigitValue, IsDigit, Digits;
    DigitIs(d);
    DigitIsNoUnderscore(s[|s| - 1]);
    var t, u := s + "_" + [Digit(d)], s + [Digit(d)];
    assert t[..|t| - 2] == s && u[..|u| - 1] == s && u[|u| - 2] == s[|s| - 1];
    LastDigit(t);
    LastDigit(u);
  }

  lemma LastDigit(t: string)
    requires |t| >= 2 && IsDigit(t[|t| - 1])
    ensures var before := Digits(if t[|t| - 2] == '_' then t[..|t| - 2] else t[..|t| - 1]);
            Digits(t) == if before.Some? then Some(before.value * 10 + DigitValue(t[|t| - 1])) else None
  {
    hide IsDigit, DigitValue;
  }
}
