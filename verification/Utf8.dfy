/** UTF-8 as in section 4 of RFC 3629, over plain bytes. */
module Utf8 {

  type Byte = b: int | 0 <= b < 256

  const NEWLINE: Byte := 10

  /** `b & 0xC0 == 0x80` */
  predicate IsContinuation(b: Byte) {
    b / 64 == 2
  }

  /** The length of the well-formed character that `s` starts with, or 0. */
  function CharLength(s: seq<Byte>): (n: nat)
    ensures n <= |s| && n <= 4
  {
    if s == [] then 0
    else if s[0] < 0x80 then 1
    else if 0xC2 <= s[0] <= 0xDF && |s| >= 2 && IsContinuation(s[1]) then 2
    else if |s| >= 3 && SecondOfThree(s[0], s[1]) && IsContinuation(s[2]) then 3
    else if |s| >= 4 && SecondOfFour(s[0], s[1]) && IsContinuation(s[2]) && IsContinuation(s[3]) then 4
    else 0
  }

  /** No overlong forms and no surrogates. */
  predicate SecondOfThree(a: Byte, b: Byte) {
    IsContinuation(b) && (if a == 0xE0 then b >= 0xA0 else if a == 0xED then b <= 0x9F else 0xE1 <= a <= 0xEF)
  }

  /** No overlong forms and nothing above U+10FFFF. */
  predicate SecondOfFour(a: Byte, b: Byte) {
    IsContinuation(b) && (if a == 0xF0 then b >= 0x90 else if a == 0xF4 then b <= 0x8F else 0xF1 <= a <= 0xF3)
  }

  predicate IsValid(s: seq<Byte>) {
    s == [] || (CharLength(s) > 0 && IsValid(s[CharLength(s)..]))
  }

  /** A position between two characters, or an end of the text. */
  ghost predicate IsBoundary(s: seq<Byte>, i: nat)
    requires i <= |s|
  {
    IsValid(s[..i]) && IsValid(s[i..])
  }

  lemma CharShape(s: seq<Byte>, i: nat)
    requires i < CharLength(s)
    ensures IsContinuation(s[i]) == (i > 0)
  {
  }

  lemma CharStable(s: seq<Byte>, t: seq<Byte>)
    requires CharLength(s) > 0
    ensures CharLength(s + t) == CharLength(s)
  {
    var n := CharLength(s);
    assert forall i :: 0 <= i < n ==> (s + t)[i] == s[i];
  }

  lemma CharPrefix(s: seq<Byte>, i: nat)
    requires 0 < CharLength(s) <= i <= |s|
    ensures CharLength(s[..i]) == CharLength(s)
  {
  }

  /** In valid text the boundaries are exactly the positions without a continuation byte. */
  lemma {:induction false} BoundaryIff(s: seq<Byte>, i: nat)
    requires IsValid(s) && i <= |s|
    ensures IsBoundary(s, i) <==> i == |s| || !IsContinuation(s[i])
    decreases |s|
  {
    if i == 0 {
      assert s[..0] == [] && s[0..] == s;
      if s != [] {
        CharShape(s, 0);
      }
    } else {
      var n := CharLength(s);
      if i < n {
        CharShape(s, i);
        NotAStart(s[i..]);
      } else {
        BoundaryIff(s[n..], i - n);
        CharPrefix(s, i);
        assert s[..i][n..] == s[n..][..i - n];
        assert s[n..][i - n..] == s[i..];
      }
    }
  }

  lemma NotAStart(s: seq<Byte>)
    requires s != [] && IsContinuation(s[0])
    ensures !IsValid(s)
  {
  }

  /** In valid text at most three continuation bytes follow one another. */
  lemma {:induction false} ShortRuns(s: seq<Byte>, i: nat)
    requires IsValid(s) && i + 4 <= |s|
    ensures !(IsContinuation(s[i]) && IsContinuation(s[i + 1]) && IsContinuation(s[i + 2]) && IsContinuation(s[i + 3]))
    decreases |s|
  {
    var n := CharLength(s);
    if i < n {
      CharShape(s, 0);
      if n < |s| {
        CharShape(s[n..], 0);
        assert s[n] == s[n..][0];
      }
      assert i == 0 || n <= i + 3;
    } else {
      ShortRuns(s[n..], i - n);
    }
  }

  lemma FirstByte(s: seq<Byte>)
    requires IsValid(s) && s != []
    ensures !IsContinuation(s[0])
  {
    CharShape(s, 0);
  }

  // ---------------------------------------------------------------- code points

  /** The code point of the well-formed character that `s` starts with. */
  function CodePoint(s: seq<Byte>): int
    requires CharLength(s) > 0
  {
    var n := CharLength(s);
    if n == 1 then s[0] as int
    else if n == 2 then (s[0] as int - 0xC0) * 64 + Low(s[1])
    else if n == 3 then (s[0] as int - 0xE0) * 4096 + Low(s[1]) * 64 + Low(s[2])
    else (s[0] as int - 0xF0) * 262144 + Low(s[1]) * 4096 + Low(s[2]) * 64 + Low(s[3])
  }

  function Low(b: Byte): int {
    b as int - 0x80
  }

  /** The characters that UTF-8 can encode. */
  predicate IsScalar(c: int) {
    0 <= c < 0xD800 || 0xDFFF < c < 0x110000
  }

  /** The octets of a character, as in the table of section 3 of RFC 3629. */
  function Encoded(c: int): seq<Byte>
    requires IsScalar(c)
  {
    if c < 0x80 then [c]
    else if c < 0x800 then [0xC0 + c / 64, 0x80 + c % 64]
    else if c < 0x10000 then [0xE0 + c / 4096, 0x80 + c / 64 % 64, 0x80 + c % 64]
    else [0xF0 + c / 262144, 0x80 + c / 4096 % 64, 0x80 + c / 64 % 64, 0x80 + c % 64]
  }

  /** Every character is recognised by its octets, whatever follows them, and read back. */
  lemma EncodedIsRead(c: int, rest: seq<Byte>)
    requires IsScalar(c)
    ensures CharLength(Encoded(c) + rest) == |Encoded(c)| && CodePoint(Encoded(c) + rest) == c
  {
    var s := Encoded(c) + rest;
    assert forall i :: 0 <= i < |Encoded(c)| ==> s[i] == Encoded(c)[i];
    SixBits(c);
  }

  lemma SixBits(c: int)
    requires 0 <= c < 0x110000
    ensures c == c / 64 * 64 + c % 64 && c / 64 == c / 4096 * 64 + c / 64 % 64
    ensures c / 4096 == c / 262144 * 64 + c / 4096 % 64
  {
  }

  /** Digits to the base 64 are determined by the number. */
  lemma Split64(high: int, low: int)
    requires 0 <= low < 64
    ensures (high * 64 + low) / 64 == high && (high * 64 + low) % 64 == low
  {
  }

  lemma OneIsEncoded(a: Byte)
    requires a < 0x80
    ensures Encoded(a) == [a]
  {
  }

  lemma TwoAreEncoded(a: Byte, b: Byte)
    requires 0xC2 <= a <= 0xDF && IsContinuation(b)
    ensures var c := (a as int - 0xC0) * 64 + Low(b); IsScalar(c) && Encoded(c) == [a, b]
  {
    Split64(a as int - 0xC0, Low(b));
  }

  lemma ThreeAreEncoded(a: Byte, b: Byte, d: Byte)
    requires SecondOfThree(a, b) && IsContinuation(d)
    ensures var c := (a as int - 0xE0) * 4096 + Low(b) * 64 + Low(d); IsScalar(c) && Encoded(c) == [a, b, d]
  {
    var high := (a as int - 0xE0) * 64 + Low(b);
    var c := high * 64 + Low(d);
    Split64(high, Low(d));
    Split64(a as int - 0xE0, Low(b));
    assert c / 4096 == high / 64;
  }

  lemma FourAreEncoded(a: Byte, b: Byte, d: Byte, e: Byte)
    requires SecondOfFour(a, b) && IsContinuation(d) && IsContinuation(e)
    ensures var c := (a as int - 0xF0) * 262144 + Low(b) * 4096 + Low(d) * 64 + Low(e);
            IsScalar(c) && Encoded(c) == [a, b, d, e]
  {
    var top := (a as int - 0xF0) * 64 + Low(b);
    var high := top * 64 + Low(d);
    var c := high * 64 + Low(e);
    Split64(high, Low(e));
    Split64(top, Low(d));
    Split64(a as int - 0xF0, Low(b));
    assert c / 4096 == high / 64 && c / 262144 == top / 64;
  }

  /** Whatever is recognised is the encoding of the character that is read. */
  lemma ReadIsEncoded(s: seq<Byte>)
    requires CharLength(s) > 0
    ensures IsScalar(CodePoint(s)) && Encoded(CodePoint(s)) == s[..CharLength(s)]
  {
    hide Encoded, IsScalar, Low;
    var n := CharLength(s);
    match n
    case 1 => OneIsEncoded(s[0]); OneIsScalar(s[0]);
    case 2 => TwoAreEncoded(s[0], s[1]);
    case 3 => ThreeAreEncoded(s[0], s[1], s[2]);
    case _ => FourAreEncoded(s[0], s[1], s[2], s[3]);
  }

  lemma OneIsScalar(a: Byte)
    requires a < 0x80
    ensures IsScalar(a)
  {
  }
}
