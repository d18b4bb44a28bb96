/** What percent escapes stand for, and that a secret written with them is found. */
module PercentEscapes {
  import opened Basics
  import opened Utf8
  import opened PrefixMatch
  import opened Scrub

  const UPPER: string := "0123456789ABCDEF"
  const LOWER: string := "0123456789abcdef"
  const PERCENT: Byte := '%' as int
  const PLUS: Byte := '+' as int

  /** The byte is the hexadecimal digit for this value, in either case. */
  predicate DigitOf(b: Byte, n: int) {
    0 <= n < 16 && (b == UPPER[n] as int || b == LOWER[n] as int)
  }

  lemma DigitMeaning(b: Byte, n: int)
    requires 0 <= n
    ensures HexValue(b) == n <==> DigitOf(b, n)
  {
    assert UPPER == ['0', '1', '2', '3', '4', '5', '6', '7', '8', '9', 'A', 'B', 'C', 'D', 'E', 'F'];
    assert LOWER == ['0', '1', '2', '3', '4', '5', '6', '7', '8', '9', 'a', 'b', 'c', 'd', 'e', 'f'];
  }

  /** Two bytes parse to a value exactly if they are its two hexadecimal digits, each in either case, or a plus sign and
      its one digit. */
  lemma ParseHexMeaning(a: Byte, b: Byte, n: int)
    requires 0 <= n
    ensures ParseHex(a, b) == n <==> (DigitOf(a, n / 16) && DigitOf(b, n % 16)) || (a == PLUS && DigitOf(b, n))
  {
    DigitMeaning(a, n / 16);
    DigitMeaning(b, n % 16);
    DigitMeaning(b, n);
    hide DigitOf;
  }

  /** Byte `b` is written from `from` to `till`: as itself, or escaped by its two digits. A percent sign is escaped. */
  predicate Written(t: seq<Byte>, from: nat, till: nat, b: Byte) {
    || (from < |t| && till == from + 1 && t[from] == b && b != PERCENT)
    || (from + 2 < |t| && till == from + 3 && t[from] == PERCENT && DigitOf(t[from + 1], b / 16) && DigitOf(t[from + 2], b % 16))
  }

  /** Text `t` writes the bytes `s`, byte `d` from `offsets[d]` to `offsets[d + 1]`. */
  ghost predicate Writes(t: seq<Byte>, s: seq<Byte>, offsets: seq<nat>) {
    && |offsets| == |s| + 1 && offsets[0] == 0 && offsets[|s|] == |t|
    && forall d :: 0 <= d < |s| ==> Written(t, offsets[d], offsets[d + 1], s[d])
  }

  lemma WrittenDecodes(t: seq<Byte>, from: nat, till: nat, b: Byte)
    requires Written(t, from, till, b)
    ensures DecodesTo(t, from, till, b)
  {
    if from + 2 < |t| {
      ParseHexMeaning(t[from + 1], t[from + 2], b);
    }
    hide DigitOf;
    hide ParseHex;
  }

  /** Whichever bytes are escaped, in whatever case: the decoder gives back exactly the bytes that were written. */
  lemma WritingDecodes(t: seq<Byte>, s: seq<Byte>, offsets: seq<nat>)
    requires Writes(t, s, offsets)
    ensures Decoded(t, s, offsets)
    ensures forall bytes, o :: Decoded(t, bytes, o) ==> bytes == s && o == offsets
  {
    hide Written;
    hide DecodesTo;
    forall d | 0 <= d < |s|
      ensures DecodesTo(t, offsets[d], offsets[d + 1], s[d])
    {
      WrittenDecodes(t, offsets[d], offsets[d + 1], s[d]);
    }
    forall bytes, o | Decoded(t, bytes, o)
      ensures bytes == s && o == offsets
    {
      DecodedUnique(t, bytes, o, s, offsets);
    }
  }

  /** Every byte escaped. */
  function EscapeAll(s: seq<Byte>, digits: string): (t: seq<Byte>)
    requires digits == UPPER || digits == LOWER
    ensures |t| == 3 * |s|
  {
    if s == [] then []
    else
      var b := s[|s| - 1];
      EscapeAll(s[..|s| - 1], digits) + [PERCENT, digits[b / 16] as int, digits[b % 16] as int]
  }

  lemma {:induction false} EscapedAt(s: seq<Byte>, digits: string, d: nat)
    requires (digits == UPPER || digits == LOWER) && d < |s|
    ensures EscapeAll(s, digits)[3 * d..3 * d + 3] == [PERCENT, digits[s[d] / 16] as int, digits[s[d] % 16] as int]
    decreases |s|
  {
    if d < |s| - 1 {
      var most := s[..|s| - 1];
      EscapedAt(most, digits, d);
      assert EscapeAll(s, digits)[3 * d..3 * d + 3] == EscapeAll(most, digits)[3 * d..3 * d + 3];
    }
  }

  /** A text that escapes every byte of `s` decodes to `s`. */
  lemma EscapeAllDecodes(s: seq<Byte>, digits: string)
    requires digits == UPPER || digits == LOWER
    ensures forall bytes, o :: Decoded(EscapeAll(s, digits), bytes, o) ==> bytes == s
    ensures Decoded(EscapeAll(s, digits), s, seq(|s| + 1, d => 3 * d))
  {
    hide Decoded;
    var t, offsets := EscapeAll(s, digits), seq(|s| + 1, d => 3 * d);
    forall d | 0 <= d < |s|
      ensures Written(t, offsets[d], offsets[d + 1], s[d])
    {
      EscapedAt(s, digits, d);
      var at := t[3 * d..3 * d + 3];
      assert t[3 * d] == at[0] && t[3 * d + 1] == at[1] && t[3 * d + 2] == at[2];
    }
    WritingDecodes(t, s, offsets);
  }

  /** However its bytes are written, a match of a secret does not show in the output: every byte of the text that
      writes a byte of it, up to its last character that is not whitespace, is replaced. */
  lemma WrittenSecretIsHidden(t: seq<Byte>, values: seq<seq<Byte>>, others: seq<Range>, decodedOthers: seq<Range>, out: seq<Byte>,
    s: seq<Byte>, offsets: seq<nat>, v: nat)
    returns (ranges: seq<Range>)
    requires ScrubsTo(t, values, others, decodedOthers, out) && Writes(t, s, offsets) && v < |values|
    ensures out == Redact(t, ranges, 0)
    ensures forall at: nat, n: nat, k: nat, x: nat, y: int ::
              HitByte(values[v], s, at, n, k, x) && Stands(offsets, x, y) ==> Within(ranges, y)
  {
    WritingDecodes(t, s, offsets);
    var bytes, o, plain, decoded :|
      && Decoded(t, bytes, o)
      && Redacted(t, bytes, o, values, others, decodedOthers, plain, decoded)
      && NothingShows(t, bytes, o, values, plain + MapBack(o, decoded))
      && out == Redact(t, plain + MapBack(o, decoded), 0);
    ranges := plain + MapBack(o, decoded);
    assert ShowsNot(t, bytes, o, values[v], ranges);
  }
}
