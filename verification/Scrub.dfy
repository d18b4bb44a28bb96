/** Scrubbing diagnostics: ranges found on the text and on its percent-decoded view, merged and replaced. */
module Scrub {
  import opened Basics
  import opened Utf8
  import opened PrefixMatch

  /** A non-empty stretch of whole characters. */
  predicate WellFormed(t: seq<Byte>, r: Range) {
    r.0 < r.1 <= |t| && Boundary(t, r.0) && Boundary(t, r.1)
  }

  ghost predicate AllWellFormed(t: seq<Byte>, ranges: seq<Range>) {
    forall i :: 0 <= i < |ranges| ==> WellFormed(t, ranges[i])
  }

  /** The union of the ranges, as a set of byte positions. */
  ghost predicate Within(ranges: seq<Range>, x: int) {
    exists i :: 0 <= i < |ranges| && ranges[i].0 <= x < ranges[i].1
  }

  lemma InkEndIsBoundary(t: seq<Byte>, k: nat)
    requires ValidUtf8(t) && CharAt(t, k)
    ensures ValidFrom(t, k + CharLen(t[k]))
  {
    BoundaryStartsChar(t, 0, k);
  }

  lemma EllipsisEndsOnBoundary(t: seq<Byte>, c: nat)
    requires ValidFrom(t, c)
    ensures c <= WithEllipsis(t, c) <= |t| && ValidFrom(t, WithEllipsis(t, c))
  {
    if c + 3 <= |t| {
      var mark := t[c..c + 3];
      assert mark[0] == t[c] && mark[1] == t[c + 1] && mark[2] == t[c + 2];
      if mark == [0x2E, 0x2E, 0x2E] {
        assert ValidFrom(t, c + 1);
        assert ValidFrom(t, c + 2);
      }
    }
  }

  lemma ContentEndIsBoundary(t: seq<Byte>, b: nat, c: nat)
    requires ValidUtf8(t) && ContentEnd(t, b, c) && c > 0
    ensures ValidFrom(t, c)
  {
    var k: nat :| InkAt(t, k) && k + CharLen(t[k]) == c;
    InkEndIsBoundary(t, k);
  }

  lemma JustifiedIsWellFormed(value: seq<Byte>, t: seq<Byte>, r: Range)
    requires ValidUtf8(t) && Justified(value, t, r)
    ensures WellFormed(t, r)
  {
    var b: nat, c: nat :| ComesFrom(value, t, r, b, c);
    ContentEndIsBoundary(t, b, c);
    hide ValidFrom;
    EllipsisEndsOnBoundary(t, c);
    StartIsBoundary(t, r.1);
  }

  // --- whole occurrences ---

  lemma {:induction false} OccurrenceStaysValid(value: seq<Byte>, t: seq<Byte>, at: nat, j: nat)
    requires Occurs(value, t, at, |value|) && ValidFrom(value, j) && ValidFrom(t, at + j)
    ensures ValidFrom(t, at + |value|)
    decreases |value| - j
  {
    if j < |value| {
      assert value[j] == t[at + j];
      OccurrenceStaysValid(value, t, at, j + CharLen(value[j]));
    }
  }

  lemma OccurrenceIsWellFormed(value: seq<Byte>, t: seq<Byte>, at: nat)
    requires ValidUtf8(t) && ValidUtf8(value) && value != [] && Occurs(value, t, at, |value|)
    ensures WellFormed(t, (at, at + |value|))
  {
    MatchStartsOnBoundary(value, t, at, |value|);
    BoundaryStartsChar(t, 0, at);
    OccurrenceStaysValid(value, t, at, 0);
    StartIsBoundary(t, at + |value|);
  }

  ghost predicate Occurrence(value: seq<Byte>, t: seq<Byte>, r: Range) {
    r.1 == r.0 + |value| && Occurs(value, t, r.0, |value|)
  }

  /** Non-overlapping occurrences from left to right: every occurrence starts inside one of them. */
  method MatchIndices(t: seq<Byte>, value: seq<Byte>) returns (ranges: seq<Range>)
    requires value != []
    ensures forall i :: 0 <= i < |ranges| ==> Occurrence(value, t, ranges[i])
    ensures forall i, j :: 0 <= i < j < |ranges| ==> ranges[i].1 <= ranges[j].0
    ensures forall at: nat :: Occurs(value, t, at, |value|) ==> Within(ranges, at)
  {
    hide Within;
    ranges := [];
    var i := 0;
    while i + |value| <= |t|
      invariant 0 <= i <= |t|
      invariant forall k :: 0 <= k < |ranges| ==> Occurrence(value, t, ranges[k]) && ranges[k].1 <= i
      invariant forall j, k :: 0 <= j < k < |ranges| ==> ranges[j].1 <= ranges[k].0
      invariant forall at: nat :: at < i && Occurs(value, t, at, |value|) ==> Within(ranges, at)
      decreases |t| - i
    {
      ghost var before := ranges;
      OccursIsSlice(value, t, i);
      if t[i..i + |value|] == value {
        ranges := ranges + [(i, i + |value|)];
        StartsStay(before, (i, i + |value|));
        i := i + |value|;
      } else {
        i := i + 1;
      }
    }
  }

  lemma OccursIsSlice(value: seq<Byte>, t: seq<Byte>, at: nat)
    requires at + |value| <= |t|
    ensures t[at..at + |value|] == value <==> Occurs(value, t, at, |value|)
  {
    var slice := t[at..at + |value|];
    assert forall j :: 0 <= j < |value| ==> slice[j] == t[at + j];
    if Occurs(value, t, at, |value|) {
      assert slice == value;
    }
  }

  lemma StartsStay(ranges: seq<Range>, r: Range)
    ensures forall at: nat :: Within(ranges, at) || r.0 <= at < r.1 ==> Within(ranges + [r], at)
  {
    forall at: nat | Within(ranges, at) || r.0 <= at < r.1
      ensures Within(ranges + [r], at)
    {
      var both := ranges + [r];
      if r.0 <= at < r.1 {
        assert both[|ranges|] == r;
      } else {
        var i :| 0 <= i < |ranges| && ranges[i].0 <= at < ranges[i].1;
        assert both[i] == ranges[i];
      }
    }
  }

  // --- the percent-decoded view ---

  function HexValue(b: Byte): (n: int)
    ensures -1 <= n <= 15
  {
    if 0x30 <= b <= 0x39 then b as int - 0x30
    else if 0x41 <= b <= 0x46 then b as int - 0x41 + 10
    else if 0x61 <= b <= 0x66 then b as int - 0x61 + 10
    else -1
  }

  /** What the library's radix-16 parser makes of two bytes, -1 for an error: a leading plus is a sign. */
  function ParseHex(a: Byte, b: Byte): (n: int)
    ensures -1 <= n <= 255
  {
    if HexValue(b) < 0 then -1
    else if a == 0x2B then HexValue(b)
    else if HexValue(a) < 0 then -1
    else HexValue(a) * 16 + HexValue(b)
  }

  predicate EscapeAt(s: seq<Byte>, i: nat) {
    i + 2 < |s| && s[i] == 0x25 && ParseHex(s[i + 1], s[i + 2]) >= 0
  }

  /** One decoded byte stands for these input bytes. */
  predicate DecodesTo(s: seq<Byte>, from: nat, till: nat, b: Byte) {
    if EscapeAt(s, from) then till == from + 3 && b == ParseHex(s[from + 1], s[from + 2])
    else from < |s| && till == from + 1 && b == s[from]
  }

  ghost predicate DecodedUpTo(s: seq<Byte>, bytes: seq<Byte>, offsets: seq<nat>) {
    && |offsets| == |bytes| + 1 && offsets[0] == 0
    && forall d :: 0 <= d < |bytes| ==> DecodesTo(s, offsets[d], offsets[d + 1], bytes[d])
  }

  /** Byte `d` of the view decodes the input from `offsets[d]` to `offsets[d + 1]`; all input is used. */
  ghost predicate Decoded(s: seq<Byte>, bytes: seq<Byte>, offsets: seq<nat>) {
    DecodedUpTo(s, bytes, offsets) && offsets[|bytes|] == |s|
  }

  method PercentDecode(s: seq<Byte>) returns (bytes: seq<Byte>, offsets: seq<nat>)
    ensures Decoded(s, bytes, offsets)
  {
    bytes, offsets := [], [];
    var i: nat := 0;
    while i < |s|
      invariant i <= |s| && |offsets| == |bytes|
      invariant DecodedUpTo(s, bytes, offsets + [i])
    {
      ghost var before := offsets + [i];
      offsets := offsets + [i];
      if s[i] == 0x25 && i + 2 < |s| && ParseHex(s[i + 1], s[i + 2]) >= 0 {
        bytes := bytes + [ParseHex(s[i + 1], s[i + 2])];
        i := i + 3;
      } else {
        bytes := bytes + [s[i]];
        i := i + 1;
      }
      assert forall d :: 0 <= d < |before| ==> (offsets + [i])[d] == before[d];
    }
    offsets := offsets + [|s|];
  }

  /** The offset map is strictly increasing and stays in the text. */
  lemma {:induction false} OffsetsIncrease(s: seq<Byte>, bytes: seq<Byte>, offsets: seq<nat>, a: nat, b: nat)
    requires Decoded(s, bytes, offsets) && a < b <= |bytes|
    ensures offsets[a] < offsets[b] <= |s|
    decreases |bytes| - a
  {
    assert DecodesTo(s, offsets[a], offsets[a + 1], bytes[a]);
    if a + 1 < b {
      OffsetsIncrease(s, bytes, offsets, a + 1, b);
    }
    if b < |bytes| {
      OffsetsIncrease(s, bytes, offsets, b, |bytes|);
    }
  }

  /** It sends character boundaries of the view to character boundaries of the text. */
  lemma BoundariesMap(s: seq<Byte>, bytes: seq<Byte>, offsets: seq<nat>, d: nat)
    requires Decoded(s, bytes, offsets) && d <= |bytes| && Boundary(bytes, d)
    ensures offsets[d] <= |s| && Boundary(s, offsets[d])
  {
    if d < |bytes| {
      OffsetsIncrease(s, bytes, offsets, d, |bytes|);
      assert DecodesTo(s, offsets[d], offsets[d + 1], bytes[d]);
    }
  }

  function MapBack(offsets: seq<nat>, ranges: seq<Range>): (r: seq<Range>)
    requires forall i :: 0 <= i < |ranges| ==> ranges[i].0 < |offsets| && ranges[i].1 < |offsets|
    ensures |r| == |ranges|
  {
    seq(|ranges|, i requires 0 <= i < |ranges| => (offsets[ranges[i].0], offsets[ranges[i].1]))
  }

  lemma MapBackWellFormed(s: seq<Byte>, bytes: seq<Byte>, offsets: seq<nat>, ranges: seq<Range>)
    requires Decoded(s, bytes, offsets) && AllWellFormed(bytes, ranges)
    ensures AllWellFormed(s, MapBack(offsets, ranges))
  {
    forall i | 0 <= i < |ranges|
      ensures WellFormed(s, MapBack(offsets, ranges)[i])
    {
      var r := ranges[i];
      assert WellFormed(bytes, r);
      BoundariesMap(s, bytes, offsets, r.0);
      BoundariesMap(s, bytes, offsets, r.1);
      OffsetsIncrease(s, bytes, offsets, r.0, r.1);
    }
  }

  // --- sorting and merging ---

  predicate Precedes(a: Range, b: Range) {
    a.0 < b.0 || (a.0 == b.0 && a.1 <= b.1)
  }

  ghost predicate InOrder(ranges: seq<Range>) {
    forall i, j :: 0 <= i < j < |ranges| ==> Precedes(ranges[i], ranges[j])
  }

  method SortRanges(ranges: seq<Range>) returns (q: seq<Range>)
    ensures InOrder(q) && multiset(q) == multiset(ranges)
  {
    q := [];
    var n := 0;
    while n < |ranges|
      invariant 0 <= n <= |ranges|
      invariant InOrder(q) && multiset(q) == multiset(ranges[..n])
    {
      q := InsertInOrder(q, ranges[n]);
      assert ranges[..n + 1] == ranges[..n] + [ranges[n]];
      n := n + 1;
    }
    assert ranges[..n] == ranges;
  }

  lemma InsertedInOrder(q: seq<Range>, i: nat, r: Range)
    requires InOrder(q) && i <= |q| && (i > 0 ==> Precedes(q[i - 1], r)) && (i < |q| ==> Precedes(r, q[i]))
    ensures InOrder(q[..i] + [r] + q[i..])
  {
    var q' := q[..i] + [r] + q[i..];
    forall a, b | 0 <= a < b < |q'|
      ensures Precedes(q'[a], q'[b])
    {
      assert a < i ==> q'[a] == q[a] && (a == i - 1 || Precedes(q[a], q[i - 1]));
      assert b > i ==> q'[b] == q[b - 1] && (b - 1 == i || Precedes(q[i], q[b - 1]));
      assert a > i ==> q'[a] == q[a - 1] && Precedes(q[a - 1], q[b - 1]);
      assert b < i ==> q'[b] == q[b] && Precedes(q[a], q[b]);
    }
  }

  lemma InsertedElements(q: seq<Range>, i: nat, r: Range)
    requires i <= |q|
    ensures multiset(q[..i] + [r] + q[i..]) == multiset(q) + multiset{r}
  {
    assert q == q[..i] + q[i..];
  }

  method InsertInOrder(q: seq<Range>, r: Range) returns (q': seq<Range>)
    requires InOrder(q)
    ensures InOrder(q') && multiset(q') == multiset(q) + multiset{r}
  {
    var i := |q|;
    while i > 0 && !Precedes(q[i - 1], r)
      invariant 0 <= i <= |q|
      invariant i < |q| ==> Precedes(r, q[i])
    {
      i := i - 1;
    }
    InsertedInOrder(q, i, r);
    InsertedElements(q, i, r);
    q' := q[..i] + [r] + q[i..];
  }

  lemma SameUnion(a: seq<Range>, b: seq<Range>, x: int)
    requires multiset(a) == multiset(b)
    ensures Within(a, x) <==> Within(b, x)
  {
    if Within(a, x) {
      var i :| 0 <= i < |a| && a[i].0 <= x < a[i].1;
      assert a[i] in multiset(b);
    }
    if Within(b, x) {
      var i :| 0 <= i < |b| && b[i].0 <= x < b[i].1;
      assert b[i] in multiset(a);
    }
  }

  /** Neither overlapping nor touching, from left to right. */
  ghost predicate Apart(ranges: seq<Range>) {
    forall i, j :: 0 <= i < j < |ranges| ==> ranges[i].1 < ranges[j].0
  }

  ghost predicate SameWithin(a: seq<Range>, b: seq<Range>) {
    forall x: int :: Within(a, x) <==> Within(b, x)
  }

  lemma WithinPush(ranges: seq<Range>, r: Range, x: int)
    ensures Within(ranges + [r], x) <==> Within(ranges, x) || r.0 <= x < r.1
  {
    var both := ranges + [r];
    assert both[|ranges|] == r;
    if Within(ranges, x) {
      var i :| 0 <= i < |ranges| && ranges[i].0 <= x < ranges[i].1;
      assert both[i] == ranges[i];
    }
  }

  lemma SamePush(a: seq<Range>, b: seq<Range>, r: Range)
    requires SameWithin(a, b)
    ensures SameWithin(a + [r], b + [r])
  {
    forall x: int
      ensures Within(a + [r], x) <==> Within(b + [r], x)
    {
      WithinPush(a, r, x);
      WithinPush(b, r, x);
    }
  }

  /** Joining the next range to the last one. */
  lemma SameJoin(front: seq<Range>, last: Range, r: Range, joined: Range)
    requires last.0 <= r.0 <= last.1 <= joined.1 && r.1 <= joined.1 && joined.0 == last.0
    requires joined.1 == last.1 || joined.1 == r.1
    ensures SameWithin(front + [joined], front + [last] + [r])
  {
    forall x: int
      ensures Within(front + [joined], x) <==> Within(front + [last] + [r], x)
    {
      WithinPush(front, joined, x);
      WithinPush(front, last, x);
      WithinPush(front + [last], r, x);
    }
  }

  lemma SameTrans(a: seq<Range>, b: seq<Range>, c: seq<Range>)
    requires SameWithin(a, b) && SameWithin(b, c)
    ensures SameWithin(a, c)
  {
  }

  /** Merging ranges in order: separate, well formed, and the same positions covered. */
  method Merge(ghost t: seq<Byte>, ranges: seq<Range>) returns (merged: seq<Range>)
    requires InOrder(ranges) && AllWellFormed(t, ranges)
    ensures Apart(merged) && AllWellFormed(t, merged) && SameWithin(merged, ranges)
  {
    hide Within;
    merged := [];
    var n := 0;
    while n < |ranges|
      invariant 0 <= n <= |ranges|
      invariant Apart(merged) && AllWellFormed(t, merged) && SameWithin(merged, ranges[..n])
      invariant n < |ranges| && merged != [] ==> merged[|merged| - 1].0 <= ranges[n].0
    {
      var r := ranges[n];
      assert WellFormed(t, r);
      assert ranges[..n + 1] == ranges[..n] + [r];
      SamePush(merged, ranges[..n], r);
      if merged != [] && r.0 <= merged[|merged| - 1].1 {
        var front, last := merged[..|merged| - 1], merged[|merged| - 1];
        var joined := (last.0, if last.1 < r.1 then r.1 else last.1);
        assert merged == front + [last];
        SameJoin(front, last, r, joined);
        SameTrans(front + [joined], merged + [r], ranges[..n + 1]);
        merged := front + [joined];
      } else {
        merged := merged + [r];
      }
      assert n + 1 < |ranges| ==> Precedes(r, ranges[n + 1]);
      n := n + 1;
    }
    assert ranges[..n] == ranges;
  }

  // --- replacing ---

  const MARK: seq<Byte> := [0x5B, 0x52, 0x45, 0x44, 0x41, 0x43, 0x54, 0x45, 0x44, 0x5D]

  /** The text from `i` on with each maximal covered stretch replaced by one mark. */
  ghost function Redact(t: seq<Byte>, ranges: seq<Range>, i: nat): (r: seq<Byte>)
    decreases |t| - i
  {
    if i >= |t| then []
    else if !Within(ranges, i) then [t[i]] + Redact(t, ranges, i + 1)
    else (if Within(ranges, i - 1) then [] else MARK) + Redact(t, ranges, i + 1)
  }

  /** Only the union of the ranges matters. */
  lemma {:induction false} RedactByUnion(t: seq<Byte>, a: seq<Range>, b: seq<Range>, i: nat)
    requires SameWithin(a, b)
    ensures Redact(t, a, i) == Redact(t, b, i)
    decreases |t| - i
  {
    if i < |t| {
      RedactByUnion(t, a, b, i + 1);
      assert Within(a, i) <==> Within(b, i);
      assert Within(a, i - 1) <==> Within(b, i - 1);
    }
  }

  lemma {:induction false} CopyPlain(t: seq<Byte>, ranges: seq<Range>, a: nat, b: nat)
    requires a <= b <= |t| && forall x: int :: a <= x < b ==> !Within(ranges, x)
    ensures Redact(t, ranges, a) == t[a..b] + Redact(t, ranges, b)
    decreases b - a
  {
    hide Within;
    if a < b {
      CopyPlain(t, ranges, a + 1, b);
      var rest := Redact(t, ranges, b);
      assert t[a..b] == [t[a]] + t[a + 1..b];
      assert [t[a]] + (t[a + 1..b] + rest) == t[a..b] + rest;
    } else {
      assert t[a..b] == [];
    }
  }

  lemma {:induction false} SkipCovered(t: seq<Byte>, ranges: seq<Range>, a: nat, b: nat)
    requires 0 < a <= b <= |t| && forall x: int :: a - 1 <= x < b ==> Within(ranges, x)
    ensures Redact(t, ranges, a) == Redact(t, ranges, b)
    decreases b - a
  {
    if a < b {
      SkipCovered(t, ranges, a + 1, b);
    }
  }

  lemma ReplaceRange(t: seq<Byte>, ranges: seq<Range>, a: nat, b: nat)
    requires a < b <= |t| && !Within(ranges, a - 1) && forall x: int :: a <= x < b ==> Within(ranges, x)
    ensures Redact(t, ranges, a) == MARK + Redact(t, ranges, b)
  {
    SkipCovered(t, ranges, a + 1, b);
  }

  /** Between two separate ranges nothing is covered. */
  lemma GapIsPlain(merged: seq<Range>, n: nat, x: int)
    requires Apart(merged) && n <= |merged|
    requires n > 0 ==> merged[n - 1].0 < merged[n - 1].1 <= x
    requires n < |merged| ==> x < merged[n].0
    requires forall i :: 0 <= i < |merged| ==> merged[i].0 < merged[i].1
    ensures !Within(merged, x)
  {
    forall i | 0 <= i < |merged|
      ensures !(merged[i].0 <= x < merged[i].1)
    {
      if i + 1 < n {
        assert merged[i].1 < merged[n - 1].0;
      } else if i > n {
        assert merged[n].1 < merged[i].0;
      }
    }
  }

  lemma RangeIsCovered(merged: seq<Range>, n: nat, x: int)
    requires n < |merged| && merged[n].0 <= x < merged[n].1
    ensures Within(merged, x)
  {
  }

  /** A part of the text; asking for one that splits a character would abort the program. */
  function Slice(t: seq<Byte>, a: nat, b: nat): (r: seq<Byte>)
    requires a <= b <= |t| && Boundary(t, a) && Boundary(t, b)
  {
    t[a..b]
  }

  /** One copy and one mark of the replacing loop. */
  lemma ReplaceStep(t: seq<Byte>, merged: seq<Range>, n: nat, cursor: nat)
    requires Apart(merged) && AllWellFormed(t, merged) && n < |merged|
    requires cursor == if n == 0 then 0 else merged[n - 1].1
    ensures cursor <= merged[n].0 < merged[n].1 <= |t|
    ensures Redact(t, merged, cursor) == t[cursor..merged[n].0] + MARK + Redact(t, merged, merged[n].1)
  {
    var r := merged[n];
    assert WellFormed(t, r);
    assert n > 0 ==> merged[n - 1].1 < merged[n].0 && WellFormed(t, merged[n - 1]);
    hide Within;
    forall x: int | cursor <= x < r.0
      ensures !Within(merged, x)
    {
      PlainBefore(t, merged, n, x);
    }
    if r.0 == 0 {
      NothingBelow(merged, -1);
    }
    forall x: int | r.0 <= x < r.1
      ensures Within(merged, x)
    {
      RangeIsCovered(merged, n, x);
    }
    CopyPlain(t, merged, cursor, r.0);
    ReplaceRange(t, merged, r.0, r.1);
    assert t[cursor..r.0] + (MARK + Redact(t, merged, r.1)) == t[cursor..r.0] + MARK + Redact(t, merged, r.1);
  }

  lemma NothingBelow(merged: seq<Range>, x: int)
    requires x < 0
    ensures !Within(merged, x)
  {
  }

  lemma PlainBefore(t: seq<Byte>, merged: seq<Range>, n: nat, x: int)
    requires Apart(merged) && AllWellFormed(t, merged) && n <= |merged|
    requires n > 0 ==> merged[n - 1].1 <= x
    requires n < |merged| ==> x < merged[n].0
    ensures !Within(merged, x)
  {
    assert forall i :: 0 <= i < |merged| ==> WellFormed(t, merged[i]);
    GapIsPlain(merged, n, x);
  }

  lemma {:induction false} AsciiValid(s: seq<Byte>, i: nat)
    requires i <= |s| && forall k :: 0 <= k < |s| ==> s[k] < 0x80
    ensures ValidFrom(s, i)
    decreases |s| - i
  {
    if i < |s| {
      AsciiValid(s, i + 1);
    }
  }

  lemma Regroup(a: seq<Byte>, b: seq<Byte>, c: seq<Byte>, d: seq<Byte>)
    ensures a + (b + c + d) == a + b + c + d
  {
  }

  lemma OutputValid(t: seq<Byte>, a: nat, b: nat, output: seq<Byte>)
    requires ValidUtf8(t) && ValidUtf8(output) && a <= b <= |t| && Boundary(t, a) && Boundary(t, b)
    ensures ValidUtf8(output + t[a..b]) && ValidUtf8(output + t[a..b] + MARK)
  {
    hide ValidUtf8;
    SliceValid(t, a, b);
    MarkValid();
    ConcatValid(output, t[a..b]);
    ConcatValid(output + t[a..b], MARK);
  }

  lemma MarkValid()
    ensures ValidUtf8(MARK)
  {
    AsciiValid(MARK, 0);
  }

  lemma OutputStep(t: seq<Byte>, merged: seq<Range>, n: nat, cursor: nat, output: seq<Byte>)
    requires Apart(merged) && AllWellFormed(t, merged) && n < |merged|
    requires cursor == if n == 0 then 0 else merged[n - 1].1
    requires output + Redact(t, merged, cursor) == Redact(t, merged, 0)
    ensures cursor <= merged[n].0 < merged[n].1 <= |t|
    ensures output + t[cursor..merged[n].0] + MARK + Redact(t, merged, merged[n].1) == Redact(t, merged, 0)
  {
    hide Redact;
    hide Apart;
    hide AllWellFormed;
    ReplaceStep(t, merged, n, cursor);
    Regroup(output, t[cursor..merged[n].0], MARK, Redact(t, merged, merged[n].1));
  }

  /** One round of the replacing loop. */
  lemma OutputNext(t: seq<Byte>, merged: seq<Range>, n: nat, cursor: nat, output: seq<Byte>)
    requires ValidUtf8(t) && Apart(merged) && AllWellFormed(t, merged) && n < |merged|
    requires cursor <= |t| && Boundary(t, cursor) && cursor == if n == 0 then 0 else merged[n - 1].1
    requires ValidUtf8(output) && output + Redact(t, merged, cursor) == Redact(t, merged, 0)
    ensures cursor <= merged[n].0 < merged[n].1 <= |t| && Boundary(t, merged[n].0) && Boundary(t, merged[n].1)
    ensures var output' := output + t[cursor..merged[n].0] + MARK;
            ValidUtf8(output') && output' + Redact(t, merged, merged[n].1) == Redact(t, merged, 0)
  {
    assert WellFormed(t, merged[n]);
    hide Redact;
    hide ValidUtf8;
    hide Apart;
    hide AllWellFormed;
    OutputStep(t, merged, n, cursor, output);
    OutputValid(t, cursor, merged[n].0, output);
  }

  lemma OutputLast(t: seq<Byte>, merged: seq<Range>, cursor: nat, output: seq<Byte>)
    requires ValidUtf8(t) && Apart(merged) && AllWellFormed(t, merged)
    requires cursor <= |t| && Boundary(t, cursor) && cursor == if |merged| == 0 then 0 else merged[|merged| - 1].1
    requires ValidUtf8(output) && output + Redact(t, merged, cursor) == Redact(t, merged, 0)
    ensures ValidUtf8(output + t[cursor..|t|]) && output + t[cursor..|t|] == Redact(t, merged, 0)
  {
    hide Redact;
    hide ValidUtf8;
    hide Apart;
    hide AllWellFormed;
    PlainTail(t, merged, cursor);
    OutputValid(t, cursor, |t|, output);
    assert t[cursor..] == t[cursor..|t|];
  }

  /** Copy what lies outside the ranges and put one mark for each of them. */
  method Replace(t: seq<Byte>, merged: seq<Range>) returns (output: seq<Byte>)
    requires ValidUtf8(t) && Apart(merged) && AllWellFormed(t, merged)
    ensures output == Redact(t, merged, 0) && ValidUtf8(output)
  {
    output := [];
    var cursor: nat, n := 0, 0;
    assert ValidUtf8([]);
    hide Redact;
    hide ValidUtf8;
    hide Apart;
    hide AllWellFormed;
    while n < |merged|
      invariant 0 <= n <= |merged| && cursor <= |t| && Boundary(t, cursor)
      invariant cursor == if n == 0 then 0 else merged[n - 1].1
      invariant ValidUtf8(output) && output + Redact(t, merged, cursor) == Redact(t, merged, 0)
    {
      OutputNext(t, merged, n, cursor, output);
      var (start, end) := merged[n];
      output := output + Slice(t, cursor, start) + MARK;
      cursor := end;
      n := n + 1;
    }
    OutputLast(t, merged, cursor, output);
    output := output + Slice(t, cursor, |t|);
  }

  lemma PlainTail(t: seq<Byte>, merged: seq<Range>, cursor: nat)
    requires Apart(merged) && AllWellFormed(t, merged) && cursor <= |t|
    requires cursor == if |merged| == 0 then 0 else merged[|merged| - 1].1
    ensures Redact(t, merged, cursor) == t[cursor..]
  {
    hide Within;
    forall x: int | cursor <= x < |t|
      ensures !Within(merged, x)
    {
      PlainBefore(t, merged, |merged|, x);
    }
    CopyPlain(t, merged, cursor, |t|);
  }

  // --- the whole scrubber ---

  /** No known value shows through: what begins one is inside a range, and each occurrence starts in one. */
  ghost predicate Hides(t: seq<Byte>, value: seq<Byte>, ranges: seq<Range>) {
    && (forall at: nat, n: nat :: Hit(value, t, at, n) ==> CoveredBy(ranges, t, at, n))
    && (forall at: nat :: Occurs(value, t, at, |value|) ==> Within(ranges, at))
  }

  ghost predicate HidesAll(t: seq<Byte>, values: seq<seq<Byte>>, ranges: seq<Range>) {
    forall v :: 0 <= v < |values| ==> Hides(t, values[v], ranges)
  }

  /** The range is a value's match, a value's occurrence, or one of the other ranges. */
  ghost predicate Explained(t: seq<Byte>, values: seq<seq<Byte>>, others: seq<Range>, r: Range) {
    r in others || exists v :: 0 <= v < |values| && (Justified(values[v], t, r) || Occurrence(values[v], t, r))
  }

  ghost predicate AllExplained(t: seq<Byte>, values: seq<seq<Byte>>, others: seq<Range>, ranges: seq<Range>) {
    forall i :: 0 <= i < |ranges| ==> Explained(t, values, others, ranges[i])
  }

  ghost predicate Known(values: seq<seq<Byte>>) {
    forall v :: 0 <= v < |values| ==> values[v] != [] && ValidUtf8(values[v])
  }

  lemma WithinConcat(a: seq<Range>, b: seq<Range>, x: int)
    requires Within(a, x) || Within(b, x)
    ensures Within(a + b, x)
  {
    var both := a + b;
    if Within(a, x) {
      var i :| 0 <= i < |a| && a[i].0 <= x < a[i].1;
      assert both[i] == a[i];
    } else {
      var i :| 0 <= i < |b| && b[i].0 <= x < b[i].1;
      assert both[|a| + i] == b[i];
    }
  }

  lemma HidesMore(t: seq<Byte>, value: seq<Byte>, a: seq<Range>, b: seq<Range>)
    requires Hides(t, value, a) || Hides(t, value, b)
    ensures Hides(t, value, a + b)
  {
    hide Within;
    hide CoveredBy;
    hide Hit;
    hide Occurs;
    forall at: nat, n: nat | Hit(value, t, at, n)
      ensures CoveredBy(a + b, t, at, n)
    {
      MoreCover(a, b, t, at, n);
    }
    forall at: nat | Occurs(value, t, at, |value|)
      ensures Within(a + b, at)
    {
      WithinConcat(a, b, at);
    }
  }

  /** The ranges of one value. */
  method ValueRanges(t: seq<Byte>, value: seq<Byte>) returns (ranges: seq<Range>)
    requires ValidUtf8(t) && ValidUtf8(value) && value != []
    ensures AllWellFormed(t, ranges) && Hides(t, value, ranges)
    ensures forall i :: 0 <= i < |ranges| ==> Justified(value, t, ranges[i]) || Occurrence(value, t, ranges[i])
  {
    hide Within;
    hide CoveredBy;
    hide Hit;
    hide Occurs;
    hide Justified;
    var prefixes := KnownPrefixRanges(t, value);
    var whole := MatchIndices(t, value);
    ranges := prefixes + whole;
    assert Hides(t, value, ranges) by {
      forall at: nat, n: nat | Hit(value, t, at, n)
        ensures CoveredBy(ranges, t, at, n)
      {
        MoreCover(prefixes, whole, t, at, n);
      }
      forall at: nat | Occurs(value, t, at, |value|)
        ensures Within(ranges, at)
      {
        WithinConcat(prefixes, whole, at);
      }
    }
    forall i | 0 <= i < |ranges|
      ensures WellFormed(t, ranges[i])
    {
      if i < |prefixes| {
        JustifiedIsWellFormed(value, t, ranges[i]);
      } else {
        assert ranges[i] == whole[i - |prefixes|];
        OccurrenceIsWellFormed(value, t, ranges[i].0);
      }
    }
  }

  /** The ranges of every value, and those found by other means. */
  method CredentialRanges(t: seq<Byte>, values: seq<seq<Byte>>, others: seq<Range>) returns (ranges: seq<Range>)
    requires ValidUtf8(t) && Known(values) && AllWellFormed(t, others)
    ensures AllWellFormed(t, ranges) && HidesAll(t, values, ranges) && AllExplained(t, values, others, ranges)
    ensures Includes(ranges, others)
  {
    hide Hides;
    hide Justified;
    hide Occurrence;
    ranges := [];
    var n := 0;
    while n < |values|
      invariant 0 <= n <= |values| && AllWellFormed(t, ranges) && AllExplained(t, values, others, ranges)
      invariant forall v :: 0 <= v < n ==> Hides(t, values[v], ranges)
    {
      var found := ValueRanges(t, values[n]);
      forall v | 0 <= v <= n
        ensures Hides(t, values[v], ranges + found)
      {
        HidesMore(t, values[v], ranges, found);
      }
      ranges := ranges + found;
      n := n + 1;
    }
    forall v | 0 <= v < |values|
      ensures Hides(t, values[v], ranges + others)
    {
      HidesMore(t, values[v], ranges, others);
    }
    ghost var before := ranges;
    ranges := ranges + others;
    forall i | 0 <= i < |others|
      ensures others[i] in ranges
    {
      assert ranges[|before| + i] == others[i];
    }
  }

  datatype Scrubbed = Withheld | Output(text: seq<Byte>)

  /** The ranges replaced: those of the text, and those of its decoded view mapped back. Both hold every range
      found by other means. */
  ghost predicate Redacted(t: seq<Byte>, bytes: seq<Byte>, offsets: seq<nat>, values: seq<seq<Byte>>,
    others: seq<Range>, decodedOthers: seq<Range>, plain: seq<Range>, decoded: seq<Range>)
  {
    && AllWellFormed(t, plain) && HidesAll(t, values, plain) && AllExplained(t, values, others, plain)
    && AllWellFormed(bytes, decoded) && HidesAll(bytes, values, decoded) && AllExplained(bytes, values, decodedOthers, decoded)
    && Includes(plain, others) && Includes(decoded, decodedOthers)
    && |offsets| == |bytes| + 1
  }

  ghost predicate Includes(ranges: seq<Range>, others: seq<Range>) {
    forall i :: 0 <= i < |others| ==> others[i] in ranges
  }

  /** A byte of a match, not after the last character of the match that is not whitespace. */
  ghost predicate HitByte(value: seq<Byte>, t: seq<Byte>, at: nat, n: nat, k: nat, x: int) {
    Hit(value, t, at, n) && InkAt(t, k) && at <= k < at + n && at <= x < k + CharLen(t[k])
  }

  /** In neither view does a byte of a match show: every byte of the text that stands for one is covered. */
  ghost predicate NothingShows(t: seq<Byte>, bytes: seq<Byte>, offsets: seq<nat>, values: seq<seq<Byte>>, ranges: seq<Range>) {
    forall v :: 0 <= v < |values| ==> ShowsNot(t, bytes, offsets, values[v], ranges)
  }

  ghost predicate ShowsNot(t: seq<Byte>, bytes: seq<Byte>, offsets: seq<nat>, value: seq<Byte>, ranges: seq<Range>) {
    && (forall at: nat, n: nat, k: nat, x: int :: HitByte(value, t, at, n, k, x) ==> Within(ranges, x))
    && (forall at: nat, n: nat, k: nat, x: nat, y: int ::
          HitByte(value, bytes, at, n, k, x) && Stands(offsets, x, y) ==> Within(ranges, y))
  }

  ghost predicate ScrubsTo(t: seq<Byte>, values: seq<seq<Byte>>, others: seq<Range>, decodedOthers: seq<Range>, out: seq<Byte>) {
    exists bytes, offsets, plain, decoded ::
      && Decoded(t, bytes, offsets)
      && Redacted(t, bytes, offsets, values, others, decodedOthers, plain, decoded)
      && NothingShows(t, bytes, offsets, values, plain + MapBack(offsets, decoded))
      && out == Redact(t, plain + MapBack(offsets, decoded), 0)
  }

  method ScrubText(t: seq<Byte>, values: seq<seq<Byte>>, others: seq<Range>, decodedOthers: seq<Range>) returns (r: Scrubbed)
    requires ValidUtf8(t) && Known(values) && AllWellFormed(t, others)
    requires forall bytes, offsets :: Decoded(t, bytes, offsets) && ValidUtf8(bytes) ==> AllWellFormed(bytes, decodedOthers)
    ensures r.Withheld? <==> forall bytes, offsets :: Decoded(t, bytes, offsets) ==> !ValidUtf8(bytes)
    ensures r.Output? ==> ValidUtf8(r.text) && ScrubsTo(t, values, others, decodedOthers, r.text)
  {
    var plain := CredentialRanges(t, values, others);
    var bytes, offsets := PercentDecode(t);
    if !ValidUtf8(bytes) {
      forall b, o | Decoded(t, b, o)
        ensures b == bytes
      {
        DecodedUnique(t, b, o, bytes, offsets);
      }
      return Withheld;
    }
    var decoded := CredentialRanges(bytes, values, decodedOthers);
    MapBackWellFormed(t, bytes, offsets, decoded);
    NothingShowsInEither(t, bytes, offsets, values, plain, decoded);
    var ranges := plain + MapBack(offsets, decoded);
    var text := ReplaceRanges(t, ranges);
    assert Redacted(t, bytes, offsets, values, others, decodedOthers, plain, decoded);
    assert text == Redact(t, plain + MapBack(offsets, decoded), 0);
    r := Output(text);
  }

  /** Sort, merge and replace. */
  method ReplaceRanges(t: seq<Byte>, ranges: seq<Range>) returns (text: seq<Byte>)
    requires ValidUtf8(t) && AllWellFormed(t, ranges)
    ensures text == Redact(t, ranges, 0) && ValidUtf8(text)
  {
    var sorted := SortRanges(ranges);
    SortedWellFormed(t, ranges, sorted);
    var merged := Merge(t, sorted);
    MergedUnion(ranges, sorted, merged);
    text := Replace(t, merged);
    RedactByUnion(t, merged, ranges, 0);
  }

  lemma SortedWellFormed(t: seq<Byte>, ranges: seq<Range>, sorted: seq<Range>)
    requires AllWellFormed(t, ranges) && multiset(sorted) == multiset(ranges)
    ensures AllWellFormed(t, sorted)
  {
    forall i | 0 <= i < |sorted|
      ensures WellFormed(t, sorted[i])
    {
      assert sorted[i] in multiset(ranges);
    }
  }

  lemma MergedUnion(ranges: seq<Range>, sorted: seq<Range>, merged: seq<Range>)
    requires multiset(sorted) == multiset(ranges) && SameWithin(merged, sorted)
    ensures SameWithin(merged, ranges)
  {
    forall x: int
      ensures Within(merged, x) <==> Within(ranges, x)
    {
      SameUnion(sorted, ranges, x);
    }
  }

  /** There is only one way to decode. */
  lemma {:induction false} DecodedPrefix(t: seq<Byte>, b1: seq<Byte>, o1: seq<nat>, b2: seq<Byte>, o2: seq<nat>, n: nat)
    requires Decoded(t, b1, o1) && Decoded(t, b2, o2) && n <= |b1|
    ensures n <= |b2| && o1[n] == o2[n] && b1[..n] == b2[..n]
    decreases n
  {
    if n > 0 {
      DecodedPrefix(t, b1, o1, b2, o2, n - 1);
      assert DecodesTo(t, o1[n - 1], o1[n], b1[n - 1]);
      assert n - 1 < |b2|;
      assert DecodesTo(t, o2[n - 1], o2[n], b2[n - 1]);
      assert b1[..n] == b1[..n - 1] + [b1[n - 1]];
      assert b2[..n] == b2[..n - 1] + [b2[n - 1]];
    }
  }

  lemma DecodedUnique(t: seq<Byte>, b1: seq<Byte>, o1: seq<nat>, b2: seq<Byte>, o2: seq<nat>)
    requires Decoded(t, b1, o1) && Decoded(t, b2, o2)
    ensures b1 == b2 && o1 == o2
  {
    DecodedPrefix(t, b1, o1, b2, o2, |b1|);
    DecodedPrefix(t, b2, o2, b1, o1, |b2|);
    assert b1[..|b1|] == b1 && b2[..|b2|] == b2;
    assert |o1| == |o2|;
    forall n: nat | n < |o1|
      ensures o1[n] == o2[n]
    {
      DecodedPrefix(t, b1, o1, b2, o2, n);
    }
    assert o1 == o2;
  }

  // --- what that means for the bytes ---

  /** Of a covered match, every byte up to the end of any character that is not whitespace is replaced. */
  lemma HitBytesAreWithin(t: seq<Byte>, ranges: seq<Range>, at: nat, n: nat, k: nat, x: int)
    requires CoveredBy(ranges, t, at, n) && InkAt(t, k) && at <= k < at + n && at <= x < k + CharLen(t[k])
    ensures Within(ranges, x)
  {
    var i :| 0 <= i < |ranges| && Inside(t, at, n, ranges[i]);
    assert ranges[i].0 <= x < ranges[i].1;
  }

  lemma {:induction false} FindOffset(offsets: seq<nat>, a: nat, b: nat, y: int) returns (x: nat)
    requires a < b < |offsets| && offsets[a] <= y < offsets[b]
    ensures a <= x < b && offsets[x] <= y < offsets[x + 1]
    decreases b - a
  {
    if y < offsets[a + 1] {
      x := a;
    } else {
      x := FindOffset(offsets, a + 1, b, y);
    }
  }

  predicate Stands(offsets: seq<nat>, x: nat, y: int) {
    x + 1 < |offsets| && offsets[x] <= y < offsets[x + 1]
  }

  /** A byte of the text is replaced for the view exactly when a covered byte of the view stands for it. */
  lemma MappedUnion(t: seq<Byte>, bytes: seq<Byte>, offsets: seq<nat>, ranges: seq<Range>, y: int)
    requires Decoded(t, bytes, offsets) && AllWellFormed(bytes, ranges)
    ensures Within(MapBack(offsets, ranges), y) <==> exists x: nat :: Stands(offsets, x, y) && Within(ranges, x)
  {
    if Within(MapBack(offsets, ranges), y) {
      MappedFrom(t, bytes, offsets, ranges, y);
    }
    if x: nat :| Stands(offsets, x, y) && Within(ranges, x) {
      MappedInto(t, bytes, offsets, ranges, x, y);
    }
  }

  lemma MappedFrom(t: seq<Byte>, bytes: seq<Byte>, offsets: seq<nat>, ranges: seq<Range>, y: int)
    requires Decoded(t, bytes, offsets) && AllWellFormed(bytes, ranges) && Within(MapBack(offsets, ranges), y)
    ensures exists x: nat :: Stands(offsets, x, y) && Within(ranges, x)
  {
    var back := MapBack(offsets, ranges);
    var i :| 0 <= i < |back| && back[i].0 <= y < back[i].1;
    assert WellFormed(bytes, ranges[i]);
    var x := FindOffset(offsets, ranges[i].0, ranges[i].1, y);
    assert Stands(offsets, x, y) && Within(ranges, x);
  }

  lemma MappedInto(t: seq<Byte>, bytes: seq<Byte>, offsets: seq<nat>, ranges: seq<Range>, x: nat, y: int)
    requires Decoded(t, bytes, offsets) && AllWellFormed(bytes, ranges) && Stands(offsets, x, y) && Within(ranges, x)
    ensures Within(MapBack(offsets, ranges), y)
  {
    var i :| 0 <= i < |ranges| && ranges[i].0 <= x < ranges[i].1;
    assert WellFormed(bytes, ranges[i]);
    if ranges[i].0 < x {
      OffsetsIncrease(t, bytes, offsets, ranges[i].0, x);
    }
    if x + 1 < ranges[i].1 {
      OffsetsIncrease(t, bytes, offsets, x + 1, ranges[i].1);
    }
    var back := MapBack(offsets, ranges);
    assert back[i].0 <= y < back[i].1;
  }

  lemma HitBytesAreCovered(t: seq<Byte>, value: seq<Byte>, ranges: seq<Range>, at: nat, n: nat, k: nat, x: int)
    requires Hides(t, value, ranges) && HitByte(value, t, at, n, k, x)
    ensures Within(ranges, x)
  {
    HitBytesAreWithin(t, ranges, at, n, k, x);
  }

  lemma NothingShowsInEither(t: seq<Byte>, bytes: seq<Byte>, offsets: seq<nat>, values: seq<seq<Byte>>, plain: seq<Range>, decoded: seq<Range>)
    requires Decoded(t, bytes, offsets) && AllWellFormed(bytes, decoded)
    requires HidesAll(t, values, plain) && HidesAll(bytes, values, decoded)
    ensures NothingShows(t, bytes, offsets, values, plain + MapBack(offsets, decoded))
  {
    forall v | 0 <= v < |values|
      ensures ShowsNot(t, bytes, offsets, values[v], plain + MapBack(offsets, decoded))
    {
      ValueShowsNot(t, bytes, offsets, values[v], plain, decoded);
    }
  }

  lemma ValueShowsNot(t: seq<Byte>, bytes: seq<Byte>, offsets: seq<nat>, value: seq<Byte>, plain: seq<Range>, decoded: seq<Range>)
    requires Decoded(t, bytes, offsets) && AllWellFormed(bytes, decoded)
    requires Hides(t, value, plain) && Hides(bytes, value, decoded)
    ensures ShowsNot(t, bytes, offsets, value, plain + MapBack(offsets, decoded))
  {
    hide Within;
    hide Hides;
    hide HitByte;
    hide Stands;
    var back := MapBack(offsets, decoded);
    forall at: nat, n: nat, k: nat, x: int | HitByte(value, t, at, n, k, x)
      ensures Within(plain + back, x)
    {
      HitBytesAreCovered(t, value, plain, at, n, k, x);
      WithinConcat(plain, back, x);
    }
    forall at: nat, n: nat, k: nat, x: nat, y: int | HitByte(value, bytes, at, n, k, x) && Stands(offsets, x, y)
      ensures Within(plain + back, y)
    {
      HitBytesAreCovered(bytes, value, decoded, at, n, k, x);
      MappedInto(t, bytes, offsets, decoded, x, y);
      WithinConcat(plain, back, y);
    }
  }
}
