/** Replaying the journal: selection after cursors, ordering, paging. */
module Replay {
  import opened Events
  import opened RecentWindow
  import opened Journal

  type Cursors = map<InvocationId, nat>

  function Cursor(after: Cursors, id: InvocationId): (n: nat) {
    if id in after then after[id] else 0
  }

  // ---------------------------------------------------------------------------------------
  // Order: by observation time, then invocation, then sequence.

  predicate Before(a: Envelope, b: Envelope) {
    || a.observedAt < b.observedAt
    || (a.observedAt == b.observedAt && a.invocation < b.invocation)
    || (a.observedAt == b.observedAt && a.invocation == b.invocation && a.sequence < b.sequence)
  }

  ghost predicate Sorted(q: seq<Envelope>) {
    forall i, j :: 0 <= i < j < |q| ==> Before(q[i], q[j])
  }

  /** No two events share an invocation and a sequence number. */
  ghost predicate Distinct(s: set<Envelope>) {
    forall a, b :: a in s && b in s && a.invocation == b.invocation && a.sequence == b.sequence ==> a == b
  }

  function InsertSorted(q: seq<Envelope>, e: Envelope): (r: seq<Envelope>)
    decreases |q|
  {
    if q == [] then [e]
    else if Before(e, q[0]) then [e] + q
    else [q[0]] + InsertSorted(q[1..], e)
  }

  /** `e` can be told apart from every event of `q`. */
  ghost predicate Comparable(q: seq<Envelope>, e: Envelope) {
    forall i :: 0 <= i < |q| ==> Before(e, q[i]) || Before(q[i], e)
  }

  lemma {:induction false} InsertSortedElements(q: seq<Envelope>, e: Envelope)
    ensures Elements(InsertSorted(q, e)) == Elements(q) + {e}
    ensures |InsertSorted(q, e)| == |q| + 1
    decreases |q|
  {
    if q == [] {
    } else if Before(e, q[0]) {
    } else {
      InsertSortedElements(q[1..], e);
      var rest := InsertSorted(q[1..], e);
      assert Elements([q[0]] + rest) == {q[0]} + Elements(rest);
      assert Elements(q) == {q[0]} + Elements(q[1..]);
    }
  }

  lemma {:induction false} InsertSortedKeeps(q: seq<Envelope>, e: Envelope)
    requires Sorted(q) && Comparable(q, e)
    ensures Sorted(InsertSorted(q, e))
    decreases |q|
  {
    if q != [] && !Before(e, q[0]) {
      InsertSortedKeeps(q[1..], e);
      InsertSortedElements(q[1..], e);
      var rest := InsertSorted(q[1..], e);
      forall j | 0 <= j < |rest|
        ensures Before(q[0], rest[j])
      {
        assert rest[j] in Elements(q[1..]) + {e};
      }
    }
  }

  lemma TellApart(s: set<Envelope>, a: Envelope, b: Envelope)
    requires Distinct(s) && a in s && b in s && a != b
    ensures Before(a, b) || Before(b, a)
  {
  }

  /** A sorted sequence is determined by its elements. */
  lemma {:induction false} SortedUnique(p: seq<Envelope>, q: seq<Envelope>)
    requires Sorted(p) && Sorted(q) && Elements(p) == Elements(q)
    ensures p == q
    decreases |p|
  {
    SortedNoDup(p);
    SortedNoDup(q);
    ElementsSize(p);
    ElementsSize(q);
    if p != [] {
      assert p[0] in Elements(p) && q[0] in Elements(q);
      SameLeast(p, q);
      SortedTail(p);
      SortedTail(q);
      SortedUnique(p[1..], q[1..]);
    }
  }

  lemma SameLeast(p: seq<Envelope>, q: seq<Envelope>)
    requires Sorted(p) && Sorted(q) && p != [] && q != []
    requires p[0] in q && q[0] in p
    ensures p[0] == q[0]
  {
    var i :| 0 <= i < |q| && q[i] == p[0];
    var j :| 0 <= j < |p| && p[j] == q[0];
    if i > 0 {
      assert Before(q[0], q[i]);
      assert j == 0 || Before(p[0], p[j]);
    }
  }

  lemma SortedTail(p: seq<Envelope>)
    requires Sorted(p) && p != []
    ensures Sorted(p[1..]) && Elements(p[1..]) == Elements(p) - {p[0]}
  {
    SortedNoDup(p);
    ElementsOfTail(p);
  }

  lemma SortedNoDup(p: seq<Envelope>)
    requires Sorted(p)
    ensures NoDup(p)
  {
    forall i, j | 0 <= i < j < |p|
      ensures p[i] != p[j]
    {
      assert Before(p[i], p[j]);
    }
  }

  lemma {:induction false} FindArrangement(s: set<Envelope>) returns (q: seq<Envelope>)
    requires Distinct(s)
    ensures Sorted(q) && Elements(q) == s
    decreases |s|
  {
    if s == {} {
      q := [];
    } else {
      var e :| e in s;
      var rest := FindArrangement(s - {e});
      forall i | 0 <= i < |rest|
        ensures Before(e, rest[i]) || Before(rest[i], e)
      {
        assert rest[i] in Elements(rest);
        TellApart(s, e, rest[i]);
      }
      q := InsertSorted(rest, e);
      InsertSortedKeeps(rest, e);
      InsertSortedElements(rest, e);
    }
  }

  ghost predicate Arranges(q: seq<Envelope>, s: set<Envelope>) {
    Sorted(q) && Elements(q) == s
  }

  lemma ArrangementExists(s: set<Envelope>)
    requires Distinct(s)
    ensures exists q :: Arranges(q, s)
  {
    var q := FindArrangement(s);
    assert Arranges(q, s);
  }

  /** The one sorted sequence with these elements. */
  ghost function Arrange(s: set<Envelope>): (q: seq<Envelope>)
    requires Distinct(s)
    ensures Sorted(q) && Elements(q) == s
  {
    ArrangementExists(s);
    var q :| Arranges(q, s);
    q
  }

  lemma ArrangeIs(s: set<Envelope>, q: seq<Envelope>)
    requires Distinct(s) && Sorted(q) && Elements(q) == s
    ensures Arrange(s) == q
  {
    SortedUnique(Arrange(s), q);
  }

  method SortEvents(events: seq<Envelope>) returns (q: seq<Envelope>)
    requires NoDup(events) && Distinct(Elements(events))
    ensures q == Arrange(Elements(events))
  {
    q := [];
    var i := 0;
    while i < |events|
      invariant 0 <= i <= |events|
      invariant Sorted(q) && Elements(q) == Elements(events[..i])
    {
      var e := events[i];
      forall k | 0 <= k < |q|
        ensures Before(e, q[k]) || Before(q[k], e)
      {
        assert q[k] in Elements(q);
        TellApart(Elements(events), e, q[k]);
      }
      InsertSortedKeeps(q, e);
      InsertSortedElements(q, e);
      assert events[..i + 1] == events[..i] + [e];
      ElementsOfPush(events[..i], e);
      q := InsertSorted(q, e);
      i := i + 1;
    }
    assert events[..i] == events;
    ArrangeIs(Elements(events), q);
  }

  // ---------------------------------------------------------------------------------------
  // Pages over a fixed pool of retained, selected events.

  /** The events of the pool that lie past the cursors. */
  function Pending(pool: set<Envelope>, after: Cursors): (r: set<Envelope>) {
    set e | e in pool && e.sequence > Cursor(after, e.invocation)
  }

  /** The cursors after handing out these events, one after the other. */
  function Advance(after: Cursors, events: seq<Envelope>): (r: Cursors) {
    if events == [] then after
    else
      var last := events[|events| - 1];
      Advance(after, events[..|events| - 1])[last.invocation := last.sequence]
  }

  /** Observation times never go backwards within an invocation. */
  ghost predicate TimesAdvance(s: set<Envelope>) {
    forall a, b :: a in s && b in s && a.invocation == b.invocation && a.sequence < b.sequence ==>
      a.observedAt <= b.observedAt
  }

  /** The cursor of an invocation is the sequence of its last handed-out event, if there is one. */
  lemma {:induction false} AdvanceMeaning(after: Cursors, events: seq<Envelope>, id: InvocationId) returns (found: bool, i: nat)
    ensures found ==>
      && i < |events| && events[i].invocation == id
      && (forall j :: i < j < |events| ==> events[j].invocation != id)
      && Cursor(Advance(after, events), id) == events[i].sequence
    ensures !found ==>
      && (forall j :: 0 <= j < |events| ==> events[j].invocation != id)
      && Cursor(Advance(after, events), id) == Cursor(after, id)
  {
    if events == [] {
      found, i := false, 0;
    } else if events[|events| - 1].invocation == id {
      found, i := true, |events| - 1;
    } else {
      found, i := AdvanceMeaning(after, events[..|events| - 1], id);
    }
  }

  /** In a sorted sequence with advancing times, an invocation's events come in sequence order. */
  lemma InOrder(s: set<Envelope>, q: seq<Envelope>, i: nat, j: nat)
    requires Distinct(s) && TimesAdvance(s) && Sorted(q) && Elements(q) <= s
    requires i < j < |q| && q[i].invocation == q[j].invocation
    ensures q[i].sequence < q[j].sequence
  {
    assert q[i] in Elements(q) && q[j] in Elements(q);
    assert Before(q[i], q[j]);
  }

  /** Whether an event is still pending after a page depends on which side of the cut it is. */
  lemma CutMeaning(s: set<Envelope>, after: Cursors, q: seq<Envelope>, k: nat, n: nat)
    requires Distinct(s) && TimesAdvance(s) && Sorted(q) && Elements(q) == s
    requires k < |q| && n <= |q| && q[k].sequence > Cursor(after, q[k].invocation)
    ensures q[k].sequence > Cursor(Advance(after, q[..n]), q[k].invocation) <==> k >= n
  {
    var page := q[..n];
    assert k < n ==> page[k] == q[k];
    var found, i := AdvanceMeaning(after, page, q[k].invocation);
    if found {
      assert page[i] == q[i];
      if k < i {
        InOrder(s, q, k, i);
      } else if i < k {
        InOrder(s, q, i, k);
      }
    }
  }

  /** Cursors never move back past what was pending. */
  lemma StillPending(pool: set<Envelope>, after: Cursors, events: seq<Envelope>, e: Envelope)
    requires forall i :: 0 <= i < |events| ==> events[i].sequence > Cursor(after, events[i].invocation)
    requires e in Pending(pool, Advance(after, events))
    ensures e in Pending(pool, after)
  {
    var found, i := AdvanceMeaning(after, events, e.invocation);
  }

  lemma ArrangedArePending(pool: set<Envelope>, after: Cursors, q: seq<Envelope>, n: nat)
    requires Elements(q) == Pending(pool, after) && n <= |q|
    ensures forall i :: 0 <= i < n ==> q[..n][i].sequence > Cursor(after, q[..n][i].invocation)
  {
    forall i | 0 <= i < n
      ensures q[..n][i].sequence > Cursor(after, q[..n][i].invocation)
    {
      assert q[i] in Elements(q);
    }
  }

  /** What is pending after a page is exactly what came after the cut. */
  lemma PageSplit(pool: set<Envelope>, after: Cursors, q: seq<Envelope>, n: nat)
    requires Distinct(pool) && TimesAdvance(Pending(pool, after))
    requires Sorted(q) && Elements(q) == Pending(pool, after) && n <= |q|
    ensures Pending(pool, Advance(after, q[..n])) == Elements(q[n..])
  {
    var s := Pending(pool, after);
    var next := Advance(after, q[..n]);
    ArrangedArePending(pool, after, q, n);
    forall e | e in Pending(pool, next)
      ensures e in Elements(q[n..])
    {
      StillPending(pool, after, q[..n], e);
      assert e in Elements(q);
      var k :| 0 <= k < |q| && q[k] == e;
      CutMeaning(s, after, q, k, n);
      assert q[n..][k - n] == e;
    }
    forall e | e in Elements(q[n..])
      ensures e in Pending(pool, next)
    {
      var k :| 0 <= k < |q[n..]| && q[n..][k] == e;
      assert q[n + k] == e && e in Elements(q);
      CutMeaning(s, after, q, n + k, n);
    }
  }

  // --- paging until nothing is truncated ---

  /** Handing out at least one event strictly shrinks what is pending, whatever the times. */
  lemma PageShrinks(pool: set<Envelope>, after: Cursors, q: seq<Envelope>, n: nat)
    requires Elements(q) == Pending(pool, after) && 0 < n <= |q|
    ensures Pending(pool, Advance(after, q[..n])) < Pending(pool, after)
  {
    var next := Advance(after, q[..n]);
    ArrangedArePending(pool, after, q, n);
    forall e | e in Pending(pool, next)
      ensures e in Pending(pool, after)
    {
      StillPending(pool, after, q[..n], e);
    }
    var last := q[n - 1];
    assert last in Elements(q);
    assert q[..n][n - 1] == last;
    assert Cursor(next, last.invocation) == last.sequence;
    assert last !in Pending(pool, next);
  }

  lemma SubsetDistinct(a: set<Envelope>, b: set<Envelope>)
    requires a <= b && Distinct(b)
    ensures Distinct(a)
  {
  }

  /** The pages a reader gets by feeding the cursors back until a page is not truncated. */
  ghost function Pages(pool: set<Envelope>, after: Cursors, limit: nat): (r: seq<seq<Envelope>>)
    requires Distinct(pool) && limit > 0
    decreases Pending(pool, after)
  {
    SubsetDistinct(Pending(pool, after), pool);
    var q := Arrange(Pending(pool, after));
    if |q| <= limit then [q]
    else
      PageShrinks(pool, after, q, limit);
      [q[..limit]] + Pages(pool, Advance(after, q[..limit]), limit)
  }

  function Flatten(pages: seq<seq<Envelope>>): (r: seq<Envelope>)
    decreases |pages|
  {
    if pages == [] then [] else pages[0] + Flatten(pages[1..])
  }

  /** How many pages of `limit` events it takes to hand out `n`: one when there are none. */
  function PagesNeeded(n: nat, limit: nat): (r: nat)
    requires limit > 0
    ensures r >= 1
  {
    if n <= limit then 1 else 1 + PagesNeeded(n - limit, limit)
  }

  /** That is the ceiling of `n / limit`. */
  lemma {:induction false} PagesNeededIsCeiling(n: nat, limit: nat)
    requires limit > 0 && n > 0
    ensures (PagesNeeded(n, limit) - 1) * limit < n <= PagesNeeded(n, limit) * limit
  {
    if n > limit {
      PagesNeededIsCeiling(n - limit, limit);
      var p := PagesNeeded(n - limit, limit);
      assert (p + 1) * limit == p * limit + limit;
      assert p * limit == (p - 1) * limit + limit;
    }
  }

  lemma SubsetTimes(a: set<Envelope>, b: set<Envelope>)
    requires a <= b && TimesAdvance(b)
    ensures TimesAdvance(a)
  {
  }

  lemma PagesUnfold(pool: set<Envelope>, after: Cursors, limit: nat)
    requires Distinct(pool) && limit > 0
    ensures Distinct(Pending(pool, after))
    ensures var q := Arrange(Pending(pool, after));
            Pages(pool, after, limit) ==
              if |q| <= limit then [q] else [q[..limit]] + Pages(pool, Advance(after, q[..limit]), limit)
  {
    SubsetDistinct(Pending(pool, after), pool);
  }

  lemma FlattenCons(page: seq<Envelope>, rest: seq<seq<Envelope>>)
    ensures Flatten([page] + rest) == page + Flatten(rest)
    ensures rest == [] ==> Flatten([page]) == page
  {
    assert ([page] + rest)[1..] == rest;
    assert [page] + [] == [page];
  }

  /** With advancing times, paging returns every pending event exactly once, in order. */
  lemma {:induction false} PagingIsComplete(pool: set<Envelope>, after: Cursors, limit: nat)
    requires Distinct(pool) && limit > 0 && TimesAdvance(Pending(pool, after))
    ensures Distinct(Pending(pool, after))
    ensures Flatten(Pages(pool, after, limit)) == Arrange(Pending(pool, after))
    decreases Pending(pool, after)
  {
    hide Distinct;
    hide TimesAdvance;
    hide Sorted;
    hide Elements;
    hide Pending;
    hide Pages;
    hide Flatten;
    PagesUnfold(pool, after, limit);
    var q := Arrange(Pending(pool, after));
    if |q| <= limit {
      FlattenCons(q, []);
    } else {
      var next := Advance(after, q[..limit]);
      NextPage(pool, after, limit);
      PagingIsComplete(pool, next, limit);
      FlattenCons(q[..limit], Pages(pool, next, limit));
      assert q[..limit] + q[limit..] == q;
    }
  }

  /** With advancing times, paging takes the least number of pages of this size. */
  lemma {:induction false} PagingIsShort(pool: set<Envelope>, after: Cursors, limit: nat)
    requires Distinct(pool) && limit > 0 && TimesAdvance(Pending(pool, after))
    ensures |Pages(pool, after, limit)| == PagesNeeded(|Pending(pool, after)|, limit)
    decreases Pending(pool, after)
  {
    PagesUnfold(pool, after, limit);
    var q := Arrange(Pending(pool, after));
    SortedNoDup(q);
    ElementsSize(q);
    hide Distinct;
    hide TimesAdvance;
    hide Sorted;
    hide Elements;
    hide Pending;
    hide Pages;
    if |q| > limit {
      NextPage(pool, after, limit);
      PagingIsShort(pool, Advance(after, q[..limit]), limit);
    }
  }

  /** After a truncated page, exactly the rest is pending, in the same order. */
  lemma NextPage(pool: set<Envelope>, after: Cursors, limit: nat)
    requires Distinct(pool) && limit > 0 && Distinct(Pending(pool, after)) && TimesAdvance(Pending(pool, after))
    requires |Arrange(Pending(pool, after))| > limit
    ensures var q := Arrange(Pending(pool, after));
            var next := Advance(after, q[..limit]);
            && Pending(pool, next) < Pending(pool, after)
            && Distinct(Pending(pool, next)) && TimesAdvance(Pending(pool, next))
            && Arrange(Pending(pool, next)) == q[limit..]
            && |Pending(pool, next)| == |q| - limit
  {
    var q := Arrange(Pending(pool, after));
    var next := Advance(after, q[..limit]);
    PageShrinks(pool, after, q, limit);
    PageSplit(pool, after, q, limit);
    SubsetDistinct(Pending(pool, next), pool);
    SubsetTimes(Pending(pool, next), Pending(pool, after));
    RestIsArranged(q, limit);
  }

  lemma RestIsArranged(q: seq<Envelope>, n: nat)
    requires Sorted(q) && n < |q| && Distinct(Elements(q[n..]))
    ensures Arrange(Elements(q[n..])) == q[n..]
    ensures |Elements(q[n..])| == |q| - n
  {
    assert Sorted(q[n..]);
    ArrangeIs(Elements(q[n..]), q[n..]);
    SortedNoDup(q[n..]);
    ElementsSize(q[n..]);
  }

  // --- and when times go backwards ---

  /** Pages only hand out what is pending. */
  lemma {:induction false} PagesArePending(pool: set<Envelope>, after: Cursors, limit: nat)
    requires Distinct(pool) && limit > 0
    ensures forall e :: e in Flatten(Pages(pool, after, limit)) ==> e in Pending(pool, after)
    decreases Pending(pool, after)
  {
    SubsetDistinct(Pending(pool, after), pool);
    var q := Arrange(Pending(pool, after));
    if |q| <= limit {
      assert Flatten([q]) == q + Flatten([]) == q;
      assert forall e :: e in q ==> e in Elements(q);
    } else {
      var next := Advance(after, q[..limit]);
      PageShrinks(pool, after, q, limit);
      PagesArePending(pool, next, limit);
      var rest := Pages(pool, next, limit);
      assert ([q[..limit]] + rest)[1..] == rest;
      forall e | e in q[..limit] + Flatten(rest)
        ensures e in Pending(pool, after)
      {
        if e in q[..limit] {
          assert e in q && e in Elements(q);
        }
      }
    }
  }

  /** One event per page: an event observed later than a successor of its invocation is skipped. */
  lemma {:induction false} OneByOneSkips(pool: set<Envelope>, after: Cursors, a: Envelope, b: Envelope)
    requires Distinct(pool) && a in Pending(pool, after) && b in Pending(pool, after)
    requires a.invocation == b.invocation && a.sequence < b.sequence && a.observedAt > b.observedAt
    ensures a !in Flatten(Pages(pool, after, 1))
    decreases Pending(pool, after)
  {
    SubsetDistinct(Pending(pool, after), pool);
    var q := Arrange(Pending(pool, after));
    assert a in Elements(q) && b in Elements(q);
    FirstIsNot(q, a, b);
    var next := Advance(after, q[..1]);
    PageShrinks(pool, after, q, 1);
    var rest := Pages(pool, next, 1);
    assert ([q[..1]] + rest)[1..] == rest;
    assert Flatten(Pages(pool, after, 1)) == q[..1] + Flatten(rest);
    var found, i := AdvanceMeaning(after, q[..1], a.invocation);
    if a in Pending(pool, next) {
      OneByOneSkips(pool, next, a, b);
    } else {
      PagesArePending(pool, next, 1);
    }
  }

  lemma FirstIsNot(q: seq<Envelope>, a: Envelope, b: Envelope)
    requires Sorted(q) && a in q && b in q && Before(b, a)
    ensures |q| > 1 && q[0] != a
  {
    var i :| 0 <= i < |q| && q[i] == a;
    var j :| 0 <= j < |q| && q[j] == b;
    assert i < j ==> Before(q[i], q[j]);
  }

  /** Paging is complete for every page size exactly when observation times never go backwards
      within an invocation. */
  lemma PagingCompleteIffTimesAdvance(pool: set<Envelope>, after: Cursors)
    requires Distinct(pool)
    ensures (forall limit: nat :: limit > 0 ==> Elements(Flatten(Pages(pool, after, limit))) == Pending(pool, after))
              <==> TimesAdvance(Pending(pool, after))
  {
    if TimesAdvance(Pending(pool, after)) {
      forall limit: nat | limit > 0
        ensures Elements(Flatten(Pages(pool, after, limit))) == Pending(pool, after)
      {
        PagingIsComplete(pool, after, limit);
      }
    } else {
      var a, b :| a in Pending(pool, after) && b in Pending(pool, after) &&
        a.invocation == b.invocation && a.sequence < b.sequence && a.observedAt > b.observedAt;
      OneByOneSkips(pool, after, a, b);
      assert a !in Elements(Flatten(Pages(pool, after, 1)));
    }
  }
}
