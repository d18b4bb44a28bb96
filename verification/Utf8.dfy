/** UTF-8 text as bytes: the syntax of section 4 of RFC 3629, character boundaries, whitespace. */
module Utf8 {
  import opened Basics

  predicate IsContinuation(b: Byte) {
    0x80 <= b <= 0xBF
  }

  /** The length of the character this byte leads, 0 when it leads none. */
  function CharLen(b: Byte): (n: nat)
    ensures n <= 4
    ensures n > 0 ==> !IsContinuation(b)
  {
    if b < 0x80 then 1
    else if 0xC2 <= b <= 0xDF then 2
    else if 0xE0 <= b <= 0xEF then 3
    else if 0xF0 <= b <= 0xF4 then 4
    else 0
  }

  /** The second byte's range depends on the first: no overlong forms, surrogates or values past U+10FFFF. */
  predicate SecondFits(lead: Byte, second: Byte) {
    if lead == 0xE0 then 0xA0 <= second <= 0xBF
    else if lead == 0xED then 0x80 <= second <= 0x9F
    else if lead == 0xF0 then 0x90 <= second <= 0xBF
    else if lead == 0xF4 then 0x80 <= second <= 0x8F
    else IsContinuation(second)
  }

  /** A well-formed character starts here. */
  predicate CharAt(s: seq<Byte>, i: nat) {
    && i < |s|
    && var n := CharLen(s[i]);
       && 0 < n <= |s| - i
       && (n >= 2 ==> SecondFits(s[i], s[i + 1]))
       && (n >= 3 ==> IsContinuation(s[i + 2]))
       && (n >= 4 ==> IsContinuation(s[i + 3]))
  }

  predicate ValidFrom(s: seq<Byte>, i: nat)
    decreases |s| - i
  {
    i == |s| || (CharAt(s, i) && ValidFrom(s, i + CharLen(s[i])))
  }

  predicate ValidUtf8(s: seq<Byte>) {
    ValidFrom(s, 0)
  }

  /** The library's test: the ends of the text, and every byte that is not a continuation. */
  predicate Boundary(s: seq<Byte>, i: nat) {
    i == 0 || i == |s| || (i < |s| && !IsContinuation(s[i]))
  }

  /** In valid text the boundaries are the starts of characters, and the end. */
  lemma {:induction false} BoundaryStartsChar(s: seq<Byte>, a: nat, i: nat)
    requires ValidFrom(s, a) && a <= i <= |s| && Boundary(s, i)
    ensures ValidFrom(s, i)
    decreases |s| - a
  {
    if i > a {
      BoundaryStartsChar(s, a + CharLen(s[a]), i);
    }
  }

  lemma StartIsBoundary(s: seq<Byte>, i: nat)
    requires ValidFrom(s, i)
    ensures i <= |s| && Boundary(s, i)
  {
  }

  /** Inside a character there is no boundary. */
  lemma NoneInside(s: seq<Byte>, i: nat, k: nat)
    requires CharAt(s, i) && i < k < i + CharLen(s[i])
    ensures k < |s| && IsContinuation(s[k]) && !Boundary(s, k)
  {
  }

  function CodePoint(s: seq<Byte>, i: nat): (c: int)
    requires CharAt(s, i)
  {
    var n := CharLen(s[i]);
    if n == 1 then s[i]
    else if n == 2 then (s[i] as int - 0xC0) * 0x40 + Payload(s, i + 1)
    else if n == 3 then (s[i] as int - 0xE0) * 0x1000 + Payload(s, i + 1) * 0x40 + Payload(s, i + 2)
    else (s[i] as int - 0xF0) * 0x40000 + Payload(s, i + 1) * 0x1000 + Payload(s, i + 2) * 0x40 + Payload(s, i + 3)
  }

  function Payload(s: seq<Byte>, i: nat): (c: int)
    requires i < |s|
  {
    s[i] as int - 0x80
  }

  /** The Unicode property White_Space. */
  predicate IsWhitespace(c: int) {
    || 0x09 <= c <= 0x0D || c == 0x20 || c == 0x85 || c == 0xA0 || c == 0x1680
    || 0x2000 <= c <= 0x200A || c == 0x2028 || c == 0x2029 || c == 0x202F || c == 0x205F || c == 0x3000
  }

  /** A character that is not whitespace starts here. */
  predicate InkAt(s: seq<Byte>, k: nat) {
    CharAt(s, k) && !IsWhitespace(CodePoint(s, k))
  }

  // --- slices and concatenations stay valid ---

  lemma {:induction false} ConcatFrom(s: seq<Byte>, t: seq<Byte>, i: nat)
    requires ValidFrom(s, i) && ValidUtf8(t)
    ensures ValidFrom(s + t, i)
    decreases |s| - i
  {
    if i < |s| {
      assert CharAt(s + t, i);
      ConcatFrom(s, t, i + CharLen(s[i]));
    } else {
      ShiftFrom(s, t, 0);
    }
  }

  lemma {:induction false} ShiftFrom(s: seq<Byte>, t: seq<Byte>, i: nat)
    requires ValidFrom(t, i)
    ensures ValidFrom(s + t, |s| + i)
    decreases |t| - i
  {
    if i < |t| {
      assert CharAt(s + t, |s| + i);
      ShiftFrom(s, t, i + CharLen(t[i]));
    }
  }

  lemma ConcatValid(s: seq<Byte>, t: seq<Byte>)
    requires ValidUtf8(s) && ValidUtf8(t)
    ensures ValidUtf8(s + t)
  {
    ConcatFrom(s, t, 0);
  }

  lemma {:induction false} SliceFrom(s: seq<Byte>, a: nat, b: nat, i: nat)
    requires a <= i <= b <= |s| && ValidFrom(s, i) && Boundary(s, b)
    ensures ValidFrom(s[a..b], i - a)
    decreases b - i
  {
    if i < b {
      var n := CharLen(s[i]);
      if b < i + n {
        NoneInside(s, i, b);
        assert false;
      }
      assert CharAt(s[a..b], i - a);
      SliceFrom(s, a, b, i + n);
    }
  }

  lemma SliceValid(s: seq<Byte>, a: nat, b: nat)
    requires ValidUtf8(s) && a <= b <= |s| && Boundary(s, a) && Boundary(s, b)
    ensures ValidUtf8(s[a..b])
  {
    BoundaryStartsChar(s, 0, a);
    SliceFrom(s, a, b, a);
  }
}
