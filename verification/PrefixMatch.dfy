/** Finding prefixes of a known value in a text, with the failure table of Knuth, Morris and Pratt. */
module PrefixMatch {
  import opened Basics
  import opened Utf8

  type Range = (nat, nat)

  // --- occurrences and borders ---

  /** The first `k` bytes of the needle stand at position `at` of the text. */
  ghost predicate Occurs(needle: seq<Byte>, t: seq<Byte>, at: int, k: nat) {
    0 <= at && k <= |needle| && at + k <= |t| && forall j :: 0 <= j < k ==> needle[j] == t[at + j]
  }

  /** The first `k` bytes of the needle end at position `p` of the text. */
  ghost predicate EndsAt(needle: seq<Byte>, t: seq<Byte>, p: nat, k: nat) {
    Occurs(needle, t, p - k, k)
  }

  /** No longer prefix of the needle ends here. */
  ghost predicate Longest(needle: seq<Byte>, t: seq<Byte>, p: nat, k: nat) {
    EndsAt(needle, t, p, k) && forall other: nat :: EndsAt(needle, t, p, other) ==> other <= k
  }

  /** A prefix of the needle that is shorter than `n` and also a suffix of its first `n` bytes. */
  ghost predicate Border(needle: seq<Byte>, n: nat, k: nat) {
    k < n && EndsAt(needle, needle, n, k)
  }

  ghost predicate LongestBorder(needle: seq<Byte>, n: nat, k: nat) {
    Border(needle, n, k) && forall other: nat :: Border(needle, n, other) ==> other <= k
  }

  /** Entry `i` is the longest border of the first `i + 1` bytes. */
  ghost predicate Failure(needle: seq<Byte>, table: seq<nat>, filled: nat) {
    && filled <= |table| == |needle|
    && forall i :: 0 <= i < filled ==> LongestBorder(needle, i + 1, table[i])
  }

  /** Shorter prefixes that end where a longer one ends are its borders. */
  lemma SuffixOfMatch(needle: seq<Byte>, t: seq<Byte>, p: nat, m: nat, k: nat)
    requires EndsAt(needle, t, p, m) && k < m
    ensures EndsAt(needle, t, p, k) <==> Border(needle, m, k)
  {
    if EndsAt(needle, t, p, k) {
      forall j | 0 <= j < k
        ensures needle[j] == needle[m - k + j]
      {
        assert needle[m - k + j] == t[p - m + (m - k + j)];
        assert needle[j] == t[p - k + j];
      }
    }
    if Border(needle, m, k) {
      forall j | 0 <= j < k
        ensures needle[j] == t[p - k + j]
      {
        assert needle[m - k + j] == t[p - m + (m - k + j)];
        assert needle[j] == needle[m - k + j];
      }
    }
  }

  /** A match one byte longer is a match followed by the right byte. */
  lemma OneMore(needle: seq<Byte>, t: seq<Byte>, p: nat, k: nat)
    requires p < |t|
    ensures EndsAt(needle, t, p + 1, k + 1) <==> EndsAt(needle, t, p, k) && k < |needle| && needle[k] == t[p]
  {
    if EndsAt(needle, t, p + 1, k + 1) {
      forall j | 0 <= j < k
        ensures needle[j] == t[p - k + j]
      {
      }
      assert needle[k] == t[p - k + k];
    }
  }

  lemma NothingEndsHere(needle: seq<Byte>, t: seq<Byte>, p: nat)
    requires p <= |t|
    ensures EndsAt(needle, t, p, 0)
  {
  }

  /** What can still be extended by `byte` is no longer than `bound`. */
  ghost predicate Extendable(needle: seq<Byte>, t: seq<Byte>, p: nat, byte: Byte, bound: nat) {
    forall k: nat :: EndsAt(needle, t, p, k) && k < |needle| && needle[k] == byte ==> k <= bound
  }

  /** One step down the failure table loses no candidate. */
  lemma FallStep(needle: seq<Byte>, table: seq<nat>, filled: nat, t: seq<Byte>, p: nat, byte: Byte, m: nat)
    requires Failure(needle, table, filled) && 0 < m <= filled && EndsAt(needle, t, p, m)
    requires Extendable(needle, t, p, byte, m) && (m == |needle| || needle[m] != byte)
    ensures table[m - 1] < m && EndsAt(needle, t, p, table[m - 1])
    ensures Extendable(needle, t, p, byte, table[m - 1])
  {
    var next := table[m - 1];
    assert LongestBorder(needle, m, next);
    SuffixOfMatch(needle, t, p, m, next);
    forall k: nat | EndsAt(needle, t, p, k) && k < |needle| && needle[k] == byte
      ensures k <= next
    {
      if k < m {
        SuffixOfMatch(needle, t, p, m, k);
      }
    }
  }

  /** After falling as far as needed, the longest match at the next position is known. */
  lemma LongestAfter(needle: seq<Byte>, t: seq<Byte>, p: nat, m: nat)
    requires p < |t| && needle != [] && EndsAt(needle, t, p, m) && Extendable(needle, t, p, t[p], m)
    requires m > 0 ==> m < |needle| && needle[m] == t[p]
    ensures Longest(needle, t, p + 1, if needle[m] == t[p] then m + 1 else 0)
  {
    var r, q := if needle[m] == t[p] then m + 1 else 0, p + 1;
    OneMore(needle, t, p, m);
    forall other: nat | EndsAt(needle, t, q, other)
      ensures other <= r
    {
      if other > 0 {
        OneMore(needle, t, p, other - 1);
      }
    }
  }

  // --- building the table ---

  /** Borders of the first `i` bytes, and what extends them by the next byte. */
  ghost predicate BorderExtendable(needle: seq<Byte>, i: nat, bound: nat)
    requires i < |needle|
  {
    forall k: nat :: Border(needle, i, k) && needle[k] == needle[i] ==> k <= bound
  }

  lemma BorderFall(needle: seq<Byte>, table: seq<nat>, i: nat, m: nat)
    requires Failure(needle, table, i) && 0 < m < i < |needle| && Border(needle, i, m)
    requires BorderExtendable(needle, i, m) && needle[m] != needle[i]
    ensures table[m - 1] < m && Border(needle, i, table[m - 1])
    ensures BorderExtendable(needle, i, table[m - 1])
  {
    var next := table[m - 1];
    assert LongestBorder(needle, m, next);
    SuffixOfMatch(needle, needle, i, m, next);
    forall k: nat | Border(needle, i, k) && needle[k] == needle[i]
      ensures k <= next
    {
      if k < m {
        SuffixOfMatch(needle, needle, i, m, k);
      }
    }
  }

  lemma BorderAfter(needle: seq<Byte>, i: nat, m: nat)
    requires 0 < i < |needle| && Border(needle, i, m) && BorderExtendable(needle, i, m)
    requires m > 0 ==> needle[m] == needle[i]
    ensures LongestBorder(needle, i + 1, if needle[i] == needle[m] then m + 1 else 0)
  {
    hide EndsAt;
    hide Occurs;
    var r, n := if needle[i] == needle[m] then m + 1 else 0, i + 1;
    NothingEndsHere(needle, needle, n);
    OneMore(needle, needle, i, m);
    assert Border(needle, n, r);
    forall other: nat | Border(needle, n, other)
      ensures other <= r
    {
      ShorterBorder(needle, i, m, r, other);
    }
  }

  lemma ShorterBorder(needle: seq<Byte>, i: nat, m: nat, r: nat, other: nat)
    requires 0 < i < |needle| && m < i && BorderExtendable(needle, i, m) && Border(needle, i + 1, other)
    requires r == if needle[i] == needle[m] then m + 1 else 0
    requires m > 0 ==> needle[m] == needle[i]
    ensures other <= r
  {
    if other > 0 {
      OneMore(needle, needle, i, other - 1);
      hide Occurs;
      assert Border(needle, i, other - 1);
    }
  }

  method BuildFailure(needle: seq<Byte>) returns (fallback: array<nat>)
    requires needle != []
    ensures fresh(fallback) && Failure(needle, fallback[..], |needle|)
  {
    hide EndsAt;
    fallback := new nat[|needle|](_ => 0);
    NothingEndsHere(needle, needle, 1);
    assert LongestBorder(needle, 1, 0);
    var i := 1;
    while i < |needle|
      invariant 1 <= i <= |needle| == fallback.Length
      invariant Failure(needle, fallback[..], i)
    {
      var matched: nat := fallback[i - 1];
      assert LongestBorder(needle, i, fallback[..][i - 1]);
      while matched > 0 && needle[i] != needle[matched]
        invariant Failure(needle, fallback[..], i)
        invariant Border(needle, i, matched) && BorderExtendable(needle, i, matched)
        decreases matched
      {
        BorderFall(needle, fallback[..], i, matched);
        matched := fallback[matched - 1];
      }
      BorderAfter(needle, i, matched);
      ghost var before := fallback[..];
      if needle[i] == needle[matched] {
        matched := matched + 1;
      }
      fallback[i] := matched;
      assert fallback[..] == before[i := matched];
      i := i + 1;
    }
  }

  // --- what a match is worth ---

  /** The end of the last character before `b` that is not whitespace, 0 if there is none. */
  ghost predicate ContentEnd(t: seq<Byte>, b: nat, c: nat) {
    && c <= b
    && (forall k: nat :: InkAt(t, k) && k < b ==> k + CharLen(t[k]) <= c)
    && (c == 0 || exists k: nat :: InkAt(t, k) && k + CharLen(t[k]) == c)
  }

  /** Eight or more bytes of complete text that begin the value and are not all whitespace. */
  ghost predicate Hit(value: seq<Byte>, t: seq<Byte>, at: nat, n: nat) {
    n >= 8 && Occurs(value, t, at, n) && Boundary(t, at + n) && exists k: nat :: InkAt(t, k) && at <= k < at + n
  }

  /** The range starts no later, and holds every character of the stretch that is not whitespace. */
  ghost predicate Inside(t: seq<Byte>, at: nat, n: nat, r: Range) {
    r.0 <= at && forall k: nat :: InkAt(t, k) && at <= k < at + n ==> k + CharLen(t[k]) <= r.1
  }

  ghost predicate CoveredBy(ranges: seq<Range>, t: seq<Byte>, at: nat, n: nat) {
    exists i :: 0 <= i < |ranges| && Inside(t, at, n, ranges[i])
  }

  /** A truncation mark right after the match is redacted with it. */
  function WithEllipsis(t: seq<Byte>, c: nat): (r: nat) {
    if c + 3 <= |t| && (t[c..c + 3] == [0x2E, 0x2E, 0x2E] || t[c..c + 3] == [0xE2, 0x80, 0xA6]) then c + 3 else c
  }

  /** The range comes from a match that starts where it starts and ends, on a boundary, at `b`. */
  ghost predicate ComesFrom(value: seq<Byte>, t: seq<Byte>, r: Range, b: nat, c: nat) {
    && r.0 + 8 <= b <= |t| && Occurs(value, t, r.0, b - r.0) && Boundary(t, r.0) && Boundary(t, b)
    && ContentEnd(t, b, c) && r.0 < c && r.1 == WithEllipsis(t, c)
  }

  ghost predicate Justified(value: seq<Byte>, t: seq<Byte>, r: Range) {
    exists b: nat, c: nat :: ComesFrom(value, t, r, b, c)
  }

  ghost predicate AllJustified(value: seq<Byte>, t: seq<Byte>, ranges: seq<Range>) {
    forall i :: 0 <= i < |ranges| ==> Justified(value, t, ranges[i])
  }

  /** A match starts on a boundary, because the value's first byte is no continuation. */
  lemma MatchStartsOnBoundary(value: seq<Byte>, t: seq<Byte>, at: nat, n: nat)
    requires Occurs(value, t, at, n) && n > 0 && !IsContinuation(value[0])
    ensures Boundary(t, at)
  {
    assert t[at + 0] == value[0];
  }

  // --- recording a match ---

  /** The position lies in the character that starts at `start`, or at the end of the text. */
  predicate InChar(t: seq<Byte>, start: nat, p: nat) {
    start <= p <= |t| && if start == |t| then p == |t| else CharAt(t, start) && p < start + CharLen(t[start])
  }

  /** Backing off to a boundary from within a character reaches its start. */
  lemma BackedOff(t: seq<Byte>, charStart: nat, end: nat, e: nat)
    requires InChar(t, charStart, end) && charStart <= e <= end && Boundary(t, e)
    ensures e == charStart
  {
    if charStart < e {
      NoneInside(t, charStart, e);
    }
  }

  lemma CharIsShort(t: seq<Byte>, charStart: nat, end: nat)
    requires InChar(t, charStart, end)
    ensures end <= charStart + 3 && Boundary(t, charStart)
  {
  }

  /** Record the match of `matched` bytes that ends at `end`, if it is worth recording. */
  method Record(needle: seq<Byte>, t: seq<Byte>, end: nat, matched: nat, contentEnd: nat, ghost charStart: nat) returns (r: seq<Range>)
    requires needle != [] && !IsContinuation(needle[0])
    requires EndsAt(needle, t, end, matched) && InChar(t, charStart, end) && ContentEnd(t, charStart, contentEnd)
    ensures AllJustified(needle, t, r)
    ensures forall at: nat, n: nat :: Hit(needle, t, at, n) && end - matched <= at && at + n <= end ==> CoveredBy(r, t, at, n)
  {
    var start := end - matched;
    var e := end;
    while e > start && !Boundary(t, e)
      invariant start <= e <= end
      invariant forall x: nat :: e < x <= end ==> !Boundary(t, x)
    {
      e := e - 1;
    }
    CharIsShort(t, charStart, end);
    if e - start >= 8 && contentEnd > start {
      MatchStartsOnBoundary(needle, t, start, matched);
      BackedOff(t, charStart, end, e);
      r := [(start, WithEllipsis(t, contentEnd))];
      assert ComesFrom(needle, t, r[0], e, contentEnd);
      forall at: nat, n: nat | Hit(needle, t, at, n) && start <= at && at + n <= end
        ensures CoveredBy(r, t, at, n)
      {
        assert at + n <= e;
        assert Inside(t, at, n, r[0]);
      }
    } else {
      r := [];
      forall at: nat, n: nat | Hit(needle, t, at, n) && start <= at
        ensures at + n > end
      {
        HitIsRecorded(needle, t, charStart, start, end, e, contentEnd, at, n);
      }
    }
  }

  lemma HitIsRecorded(needle: seq<Byte>, t: seq<Byte>, charStart: nat, start: nat, end: nat, e: nat, contentEnd: nat, at: nat, n: nat)
    requires InChar(t, charStart, end) && ContentEnd(t, charStart, contentEnd) && start <= e <= end
    requires e == start || Boundary(t, e)
    requires forall x: nat :: e < x <= end ==> !Boundary(t, x)
    requires Hit(needle, t, at, n) && start <= at
    ensures at + n <= end ==> e - start >= 8 && contentEnd > start
  {
    var b := at + n;
    assert Boundary(t, b);
    if b <= end {
      assert b <= e;
      CharIsShort(t, charStart, end);
      BackedOff(t, charStart, end, e);
      var k: nat :| InkAt(t, k) && at <= k < b;
      assert k + CharLen(t[k]) <= contentEnd;
    }
  }

  // --- the scan ---

  /** Matches that started before the current one are covered. */
  ghost predicate Done(needle: seq<Byte>, t: seq<Byte>, ranges: seq<Range>, p: nat, m: nat) {
    forall at: nat, n: nat :: Hit(needle, t, at, n) && at + n <= p && at < p - m ==> CoveredBy(ranges, t, at, n)
  }

  /** Matches within the current one are covered. */
  ghost predicate WithinCovered(needle: seq<Byte>, t: seq<Byte>, ranges: seq<Range>, from: int, till: nat) {
    forall at: nat, n: nat :: Hit(needle, t, at, n) && from <= at && at + n <= till ==> CoveredBy(ranges, t, at, n)
  }

  lemma MoreCover(ranges: seq<Range>, more: seq<Range>, t: seq<Byte>, at: nat, n: nat)
    requires CoveredBy(ranges, t, at, n) || CoveredBy(more, t, at, n)
    ensures CoveredBy(ranges + more, t, at, n)
  {
    var both := ranges + more;
    if CoveredBy(ranges, t, at, n) {
      var i :| 0 <= i < |ranges| && Inside(t, at, n, ranges[i]);
      assert both[i] == ranges[i];
    } else {
      var i :| 0 <= i < |more| && Inside(t, at, n, more[i]);
      assert both[|ranges| + i] == more[i];
    }
  }

  lemma HitEnds(needle: seq<Byte>, t: seq<Byte>, p: nat, m: nat, at: nat, n: nat)
    requires Longest(needle, t, p, m) && Hit(needle, t, at, n) && at + n == p
    ensures p - m <= at
  {
    assert EndsAt(needle, t, p, n);
  }

  /** Reading one byte: nothing that the current match gives up is lost. */
  lemma DoneStep(needle: seq<Byte>, t: seq<Byte>, ranges: seq<Range>, more: seq<Range>, p: nat, m: nat, m': nat)
    requires Done(needle, t, ranges, p, m) && Longest(needle, t, p + 1, m')
    requires m' == m + 1 || WithinCovered(needle, t, more, p - m, p)
    ensures Done(needle, t, ranges + more, p + 1, m')
  {
    hide Occurs;
    hide CoveredBy;
    forall at: nat, n: nat | Hit(needle, t, at, n) && at + n <= p + 1 && at < p + 1 - m'
      ensures CoveredBy(ranges + more, t, at, n)
    {
      if at + n == p + 1 {
        HitEnds(needle, t, p + 1, m', at, n);
      }
      MoreCover(ranges, more, t, at, n);
    }
  }

  /** Reading one character moves the end of the content past it unless it is whitespace. */
  lemma ContentStep(t: seq<Byte>, i: nat, c: nat)
    requires CharAt(t, i) && ContentEnd(t, i, c)
    ensures ContentEnd(t, i + CharLen(t[i]), if InkAt(t, i) then i + CharLen(t[i]) else c)
  {
    var next := i + CharLen(t[i]);
    var c' := if InkAt(t, i) then next else c;
    forall k: nat | InkAt(t, k) && k < next
      ensures k + CharLen(t[k]) <= c'
    {
      if i < k {
        NoneInside(t, i, k);
      }
    }
  }

  /** Follow the table down until the byte fits or nothing is matched. */
  method Fall(needle: seq<Byte>, fallback: array<nat>, t: seq<Byte>, p: nat, matched: nat) returns (m: nat)
    requires needle != [] && Failure(needle, fallback[..], |needle|) && p < |t| && Longest(needle, t, p, matched)
    ensures m <= matched && EndsAt(needle, t, p, m) && Extendable(needle, t, p, t[p], m)
    ensures m > 0 ==> m < |needle| && needle[m] == t[p]
  {
    hide Occurs;
    m := matched;
    MatchFits(needle, t, p, m);
    while m > 0 && (m == |needle| || t[p] != needle[m])
      invariant m <= matched && m <= |needle| && EndsAt(needle, t, p, m) && Extendable(needle, t, p, t[p], m)
      decreases m
    {
      FallStep(needle, fallback[..], |needle|, t, p, t[p], m);
      m := fallback[m - 1];
    }
  }

  lemma MatchFits(needle: seq<Byte>, t: seq<Byte>, p: nat, m: nat)
    requires EndsAt(needle, t, p, m)
    ensures m <= |needle| && m <= p <= |t|
  {
  }

  /** The state of the scan after reading `p` bytes, the last of them in the character at `charStart`. */
  ghost predicate ScanOk(needle: seq<Byte>, t: seq<Byte>, ranges: seq<Range>, p: nat, matched: nat) {
    Longest(needle, t, p, matched) && Done(needle, t, ranges, p, matched) && AllJustified(needle, t, ranges)
  }

  /** Read one byte. */
  method ReadByte(needle: seq<Byte>, fallback: array<nat>, t: seq<Byte>, ranges: seq<Range>, p: nat, matched: nat, contentEnd: nat, ghost charStart: nat)
    returns (ranges': seq<Range>, matched': nat)
    requires needle != [] && !IsContinuation(needle[0]) && Failure(needle, fallback[..], |needle|)
    requires p < |t| && InChar(t, charStart, p) && ContentEnd(t, charStart, contentEnd)
    requires ScanOk(needle, t, ranges, p, matched)
    ensures ScanOk(needle, t, ranges', p + 1, matched')
  {
    hide Occurs;
    hide Hit;
    hide CoveredBy;
    hide ContentEnd;
    MatchFits(needle, t, p, matched);
    var byte := t[p];
    var more := [];
    var m := matched;
    if matched > 0 && (matched == |needle| || byte != needle[matched]) {
      more := Record(needle, t, p, matched, contentEnd, charStart);
      m := Fall(needle, fallback, t, p, matched);
    } else {
      NoHitFits(needle, t, p);
    }
    LongestAfter(needle, t, p, m);
    matched' := if byte == needle[m] then m + 1 else 0;
    DoneStep(needle, t, ranges, more, p, matched, matched');
    ranges' := ranges + more;
  }

  lemma NoHitFits(needle: seq<Byte>, t: seq<Byte>, p: nat)
    ensures WithinCovered(needle, t, [], p, p)
  {
  }

  lemma ScanStarts(needle: seq<Byte>, t: seq<Byte>)
    ensures ScanOk(needle, t, [], 0, 0) && ContentEnd(t, 0, 0)
  {
    NothingEndsHere(needle, t, 0);
  }

  lemma LongestEnds(needle: seq<Byte>, t: seq<Byte>, p: nat, m: nat)
    requires Longest(needle, t, p, m)
    ensures EndsAt(needle, t, p, m)
  {
  }

  method ScanText(needle: seq<Byte>, t: seq<Byte>) returns (ranges: seq<Range>)
    requires needle != [] && !IsContinuation(needle[0]) && ValidUtf8(t)
    ensures AllJustified(needle, t, ranges)
    ensures forall at: nat, n: nat :: Hit(needle, t, at, n) ==> CoveredBy(ranges, t, at, n)
  {
    hide Longest;
    hide Done;
    hide LongestBorder;
    hide Occurs;
    hide CoveredBy;
    hide ContentEnd;
    hide Hit;
    var fallback := BuildFailure(needle);
    ranges := [];
    ScanStarts(needle, t);
    var matched: nat, contentEnd: nat, charStart: nat := 0, 0, 0;
    while charStart < |t|
      invariant charStart <= |t| && ValidFrom(t, charStart) && ContentEnd(t, charStart, contentEnd)
      invariant ScanOk(needle, t, ranges, charStart, matched)
      invariant Failure(needle, fallback[..], |needle|)
    {
      var charEnd := charStart + CharLen(t[charStart]);
      var p := charStart;
      while p < charEnd
        invariant charStart <= p <= charEnd <= |t|
        invariant ScanOk(needle, t, ranges, p, matched)
        invariant Failure(needle, fallback[..], |needle|)
      {
        ranges, matched := ReadByte(needle, fallback, t, ranges, p, matched, contentEnd, charStart);
        p := p + 1;
      }
      ContentStep(t, charStart, contentEnd);
      if !IsWhitespace(CodePoint(t, charStart)) {
        contentEnd := charEnd;
      }
      charStart := charEnd;
    }
    LongestEnds(needle, t, |t|, matched);
    var last := Record(needle, t, |t|, matched, contentEnd, |t|);
    FinishScan(needle, t, ranges, last, matched);
    ranges := ranges + last;
  }

  lemma FinishScan(needle: seq<Byte>, t: seq<Byte>, ranges: seq<Range>, last: seq<Range>, matched: nat)
    requires ScanOk(needle, t, ranges, |t|, matched)
    requires WithinCovered(needle, t, last, |t| - matched, |t|)
    ensures forall at: nat, n: nat :: Hit(needle, t, at, n) ==> CoveredBy(ranges + last, t, at, n)
  {
    forall at: nat, n: nat | Hit(needle, t, at, n)
      ensures CoveredBy(ranges + last, t, at, n)
    {
      MoreCover(ranges, last, t, at, n);
    }
  }

  // --- in terms of the value ---

  lemma NeedleIsEnough(value: seq<Byte>, needle: seq<Byte>, t: seq<Byte>, at: nat, n: nat)
    requires needle == value[..if |value| < |t| then |value| else |t|]
    ensures Hit(value, t, at, n) <==> Hit(needle, t, at, n)
  {
    assert Occurs(value, t, at, n) <==> Occurs(needle, t, at, n);
  }

  lemma NeedleJustifies(value: seq<Byte>, needle: seq<Byte>, t: seq<Byte>, r: Range)
    requires needle <= value && Justified(needle, t, r)
    ensures Justified(value, t, r)
  {
    var b: nat, c: nat :| ComesFrom(needle, t, r, b, c);
    assert ComesFrom(value, t, r, b, c);
  }

  /** Every complete match of eight or more bytes is inside a range up to its last character that is not
      whitespace, and every range starts at such a match. */
  method KnownPrefixRanges(t: seq<Byte>, value: seq<Byte>) returns (ranges: seq<Range>)
    requires ValidUtf8(t) && ValidUtf8(value)
    ensures forall at: nat, n: nat :: Hit(value, t, at, n) ==> CoveredBy(ranges, t, at, n)
    ensures AllJustified(value, t, ranges)
  {
    var needle := value[..if |value| < |t| then |value| else |t|];
    if |needle| < 8 {
      return [];
    }
    ranges := ScanText(needle, t);
    forall at: nat, n: nat | Hit(value, t, at, n)
      ensures CoveredBy(ranges, t, at, n)
    {
      NeedleIsEnough(value, needle, t, at, n);
    }
    forall i | 0 <= i < |ranges|
      ensures Justified(value, t, ranges[i])
    {
      NeedleJustifies(value, needle, t, ranges[i]);
    }
  }
}
