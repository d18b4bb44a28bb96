/** Valid text is exactly what the encoding of section 3 of RFC 3629 produces. */
module Utf8Meaning {
  import opened Basics
  import opened Utf8
  import opened PrefixMatch

  /** Unicode scalar values: all code points but the surrogates. */
  predicate Scalar(c: int) {
    0 <= c < 0xD800 || 0xE000 <= c <= 0x10FFFF
  }

  function Encode(c: int): (s: seq<Byte>)
    requires Scalar(c)
    ensures 1 <= |s| <= 4
  {
    if c < 0x80 then [c]
    else if c < 0x800 then [0xC0 + c / 0x40, 0x80 + c % 0x40]
    else if c < 0x10000 then [0xE0 + c / 0x1000, 0x80 + c / 0x40 % 0x40, 0x80 + c % 0x40]
    else [0xF0 + c / 0x40000, 0x80 + c / 0x1000 % 0x40, 0x80 + c / 0x40 % 0x40, 0x80 + c % 0x40]
  }

  lemma EncodeTwo(c: int)
    requires 0x80 <= c < 0x800
    ensures Encodes(c)
  {
  }

  lemma ThreeDigits(c: int)
    requires 0x800 <= c < 0x10000
    ensures c == c / 0x1000 * 0x1000 + c / 0x40 % 0x40 * 0x40 + c % 0x40
  {
    var a := c / 0x40;
    assert c == a * 0x40 + c % 0x40;
    assert a / 0x40 == c / 0x1000 && a == c / 0x1000 * 0x40 + a % 0x40;
  }

  lemma ThreeBounds(c: int)
    requires 0x800 <= c < 0x10000 && Scalar(c)
    ensures 0 <= c / 0x1000 <= 15
    ensures c / 0x1000 == 0 ==> c / 0x40 % 0x40 >= 0x20
    ensures c / 0x1000 == 13 ==> c / 0x40 % 0x40 < 0x20
  {
  }

  lemma EncodeThree(c: int)
    requires 0x800 <= c < 0x10000 && Scalar(c)
    ensures Encodes(c)
  {
    ThreeDigits(c);
    ThreeBounds(c);
    var s := Encode(c);
    assert s[0] == 0xE0 + c / 0x1000 && s[1] == 0x80 + c / 0x40 % 0x40;
    assert SecondFits(s[0], s[1]);
  }

  lemma FourDigits(c: int)
    requires 0x10000 <= c <= 0x10FFFF
    ensures c == c / 0x40000 * 0x40000 + c / 0x1000 % 0x40 * 0x1000 + c / 0x40 % 0x40 * 0x40 + c % 0x40
  {
    var a, b := c / 0x40, c / 0x1000;
    assert c == a * 0x40 + c % 0x40;
    assert a / 0x40 == b && a == b * 0x40 + a % 0x40;
    assert b / 0x40 == c / 0x40000 && b == c / 0x40000 * 0x40 + b % 0x40;
  }

  lemma FourBounds(c: int)
    requires 0x10000 <= c <= 0x10FFFF
    ensures 0 <= c / 0x40000 <= 4
    ensures c / 0x40000 == 0 ==> c / 0x1000 % 0x40 >= 0x10
    ensures c / 0x40000 == 4 ==> c / 0x1000 % 0x40 < 0x10
  {
  }

  lemma EncodeFour(c: int)
    requires 0x10000 <= c <= 0x10FFFF
    ensures Encodes(c)
  {
    FourDigits(c);
    FourBounds(c);
    var s := Encode(c);
    assert s[0] == 0xF0 + c / 0x40000 && s[1] == 0x80 + c / 0x1000 % 0x40;
    assert SecondFits(s[0], s[1]);
  }

  predicate Encodes(c: int) {
    Scalar(c) && CharAt(Encode(c), 0) && CharLen(Encode(c)[0]) == |Encode(c)| && CodePoint(Encode(c), 0) == c
  }

  /** An encoded scalar value is one character, and is read back as itself. */
  lemma EncodeReadsBack(c: int)
    requires Scalar(c)
    ensures CharAt(Encode(c), 0) && CharLen(Encode(c)[0]) == |Encode(c)| && CodePoint(Encode(c), 0) == c
  {
    if 0x80 <= c < 0x800 {
      EncodeTwo(c);
    } else if 0x800 <= c < 0x10000 {
      EncodeThree(c);
    } else if 0x10000 <= c {
      EncodeFour(c);
    }
  }

  lemma ReadTwo(s: seq<Byte>, i: nat)
    requires CharAt(s, i) && CharLen(s[i]) == 2
    ensures Scalar(CodePoint(s, i)) && Encode(CodePoint(s, i)) == s[i..i + 2]
  {
    var c := CodePoint(s, i);
    assert c / 0x40 == s[i] as int - 0xC0 && c % 0x40 == Payload(s, i + 1);
  }

  lemma ThreeParts(a: int, b: int, d: int)
    requires 0 <= b < 0x40 && 0 <= d < 0x40
    ensures var c := a * 0x1000 + b * 0x40 + d; c / 0x1000 == a && c / 0x40 == a * 0x40 + b && c / 0x40 % 0x40 == b && c % 0x40 == d
  {
    var c := a * 0x1000 + b * 0x40 + d;
    assert c == (a * 0x40 + b) * 0x40 + d;
  }

  lemma ReadThree(s: seq<Byte>, i: nat)
    requires CharAt(s, i) && CharLen(s[i]) == 3
    ensures Scalar(CodePoint(s, i)) && Encode(CodePoint(s, i)) == s[i..i + 3]
  {
    ThreeParts(s[i] as int - 0xE0, Payload(s, i + 1), Payload(s, i + 2));
  }

  lemma ReadFour(s: seq<Byte>, i: nat)
    requires CharAt(s, i) && CharLen(s[i]) == 4
    ensures Scalar(CodePoint(s, i)) && Encode(CodePoint(s, i)) == s[i..i + 4]
  {
    var a, b, d, e := s[i] as int - 0xF0, Payload(s, i + 1), Payload(s, i + 2), Payload(s, i + 3);
    ThreeParts(a * 0x40 + b, d, e);
    var c := CodePoint(s, i);
    assert c == (a * 0x40 + b) * 0x1000 + d * 0x40 + e;
    FourParts(a, b, c);
  }

  lemma FourParts(a: int, b: int, c: int)
    requires 0 <= b < 0x40 && c / 0x1000 == a * 0x40 + b
    ensures c / 0x40000 == a && c / 0x1000 % 0x40 == b
  {
  }

  /** A well-formed character is the encoding of a scalar value. */
  lemma ReadEncodesBack(s: seq<Byte>, i: nat)
    requires CharAt(s, i)
    ensures Scalar(CodePoint(s, i)) && Encode(CodePoint(s, i)) == s[i..i + CharLen(s[i])]
  {
    if CharLen(s[i]) == 2 {
      ReadTwo(s, i);
    } else if CharLen(s[i]) == 3 {
      ReadThree(s, i);
    } else if CharLen(s[i]) == 4 {
      ReadFour(s, i);
    }
  }

  ghost predicate AllScalar(cs: seq<int>) {
    forall i :: 0 <= i < |cs| ==> Scalar(cs[i])
  }

  function EncodeAll(cs: seq<int>): (s: seq<Byte>)
    requires AllScalar(cs)
    decreases |cs|
  {
    if cs == [] then [] else Encode(cs[0]) + EncodeAll(cs[1..])
  }

  lemma {:induction false} EncodedIsValid(cs: seq<int>)
    requires AllScalar(cs)
    ensures ValidUtf8(EncodeAll(cs))
    decreases |cs|
  {
    if cs != [] {
      EncodedIsValid(cs[1..]);
      EncodeReadsBack(cs[0]);
      hide Encode;
      var first := Encode(cs[0]);
      assert ValidFrom(first, |first|);
      ConcatValid(first, EncodeAll(cs[1..]));
    }
  }

  lemma NextCharacter(s: seq<Byte>, i: nat)
    requires i < |s| && ValidFrom(s, i)
    ensures CharAt(s, i) && 0 < CharLen(s[i]) <= |s| - i && ValidFrom(s, i + CharLen(s[i]))
  {
  }

  lemma EncodeCons(c: int, rest: seq<int>)
    requires Scalar(c) && AllScalar(rest)
    ensures AllScalar([c] + rest) && EncodeAll([c] + rest) == Encode(c) + EncodeAll(rest)
  {
    hide Encode;
    assert ([c] + rest)[1..] == rest;
  }

  lemma {:induction false} ValidIsEncoded(s: seq<Byte>, i: nat) returns (cs: seq<int>)
    requires i <= |s| && ValidFrom(s, i)
    ensures AllScalar(cs) && EncodeAll(cs) == s[i..]
    decreases |s| - i
  {
    if i == |s| {
      cs := [];
    } else {
      NextCharacter(s, i);
      ReadEncodesBack(s, i);
      hide Encode;
      hide CodePoint;
      hide CharAt;
      hide CharLen;
      hide ValidFrom;
      hide Scalar;
      var n := CharLen(s[i]);
      var rest := ValidIsEncoded(s, i + n);
      EncodeCons(CodePoint(s, i), rest);
      hide EncodeAll;
      cs := [CodePoint(s, i)] + rest;
      assert s[i..] == s[i..i + n] + s[i + n..];
    }
  }

  ghost predicate Encoded(s: seq<Byte>) {
    exists cs: seq<int> :: AllScalar(cs) && EncodeAll(cs) == s
  }

  /** Bytes are valid text if and only if they encode some sequence of scalar values. */
  lemma ValidIff(s: seq<Byte>)
    ensures ValidUtf8(s) <==> Encoded(s)
  {
    if ValidUtf8(s) {
      var cs := ValidIsEncoded(s, 0);
      assert s[0..] == s;
    }
    if Encoded(s) {
      var cs: seq<int> :| AllScalar(cs) && EncodeAll(cs) == s;
      EncodedIsValid(cs);
    }
  }

  // --- the truncation mark ---

  predicate CharacterAt(t: seq<Byte>, i: nat, c: int) {
    CharAt(t, i) && CodePoint(t, i) == c
  }

  /** Three full stops, or the character U+2026, stand here. */
  predicate MarkAt(t: seq<Byte>, i: nat) {
    || (CharacterAt(t, i, '.' as int) && CharacterAt(t, i + 1, '.' as int) && CharacterAt(t, i + 2, '.' as int))
    || CharacterAt(t, i, 0x2026)
  }

  lemma DotAt(t: seq<Byte>, i: nat)
    ensures CharacterAt(t, i, '.' as int) <==> i < |t| && t[i] == 0x2E
  {
    if CharAt(t, i) && CodePoint(t, i) == 0x2E {
      ReadEncodesBack(t, i);
      assert Encode(0x2E) == [0x2E];
    }
  }

  lemma EllipsisAt(t: seq<Byte>, i: nat)
    ensures CharacterAt(t, i, 0x2026) <==> i + 3 <= |t| && t[i..i + 3] == [0xE2, 0x80, 0xA6]
  {
    EncodeReadsBack(0x2026);
    assert Encode(0x2026) == [0xE2, 0x80, 0xA6];
    if CharAt(t, i) && CodePoint(t, i) == 0x2026 {
      ReadEncodesBack(t, i);
    }
    if i + 3 <= |t| && t[i..i + 3] == [0xE2, 0x80, 0xA6] {
      var at := t[i..i + 3];
      assert at[0] == t[i] && at[1] == t[i + 1] && at[2] == t[i + 2];
    }
  }

  lemma MarkMeaning(t: seq<Byte>, c: nat)
    ensures WithEllipsis(t, c) == if MarkAt(t, c) then c + 3 else c
  {
    EllipsisAt(t, c);
    DotAt(t, c);
    DotAt(t, c + 1);
    DotAt(t, c + 2);
    hide CharacterAt;
    if c + 3 <= |t| {
      var at := t[c..c + 3];
      assert at[0] == t[c] && at[1] == t[c + 1] && at[2] == t[c + 2];
    }
  }

  /** Every range found for a value starts where a match of at least eight bytes starts, and ends right after the last
      character of that match that is not whitespace, together with a truncation mark if one follows there. */
  lemma RangeEnds(value: seq<Byte>, t: seq<Byte>, r: Range) returns (b: nat, c: nat)
    requires Justified(value, t, r)
    ensures r.0 + 8 <= b <= |t| && Occurs(value, t, r.0, b - r.0) && ContentEnd(t, b, c) && r.0 < c
    ensures r.1 == if MarkAt(t, c) then c + 3 else c
  {
    b, c :| ComesFrom(value, t, r, b, c);
    MarkMeaning(t, c);
    hide MarkAt;
    hide WithEllipsis;
  }
}
