/** The journal object: append, replay and removal behind one lock. */
module JournalStore {
  import opened Basics
  import opened Events
  import opened RecentWindow
  import opened Journal
  import opened JournalHistory
  import opened Replay

  datatype Request = Request(runtime: RuntimeId, after: Cursors, only: Option<set<InvocationId>>, limit: nat)

  datatype ReplayResult =
    | InvalidReplayLimit(maximum: nat, actual: nat)
    | ReplayWindowExpired(invocation: InvocationId, earliestAvailable: nat)
    | Batch(events: seq<Envelope>, next: Cursors, truncated: bool)

  predicate Picked(only: Option<set<InvocationId>>, id: InvocationId) {
    only.None? || id in only.value
  }

  /** The retained events of the selected invocations. */
  function Pool(invocations: map<InvocationId, Window>, only: Option<set<InvocationId>>): (r: set<Envelope>) {
    set id, e | id in invocations && e in invocations[id].events && Picked(only, id) :: e
  }

  /** A window holds events of its own invocation in increasing sequence order. */
  ghost predicate TidyWindow(w: Window, id: InvocationId) {
    && (forall i :: 0 <= i < |w.events| ==> w.events[i].invocation == id)
    && (forall i, j :: 0 <= i < j < |w.events| ==> w.events[i].sequence < w.events[j].sequence)
  }

  ghost predicate Tidy(invocations: map<InvocationId, Window>) {
    forall id :: id in invocations ==> TidyWindow(invocations[id], id)
  }

  lemma RepresentsTidy(w: Window, log: seq<Envelope>, maxEvents: nat, id: InvocationId)
    requires Represents(w, log, maxEvents) && Numbered(log, id)
    ensures TidyWindow(w, id)
  {
    var d := |log| - |w.events|;
    assert forall i :: 0 <= i < |w.events| ==> w.events[i] == log[d + i];
  }

  /** A journal that refines a history is tidy. */
  lemma RefinesTidy(rt: RuntimeJournal, h: History, maximum: nat, maxEvents: nat)
    requires Refines(rt, h, maximum, maxEvents)
    ensures Tidy(rt.invocations)
  {
    forall id | id in rt.invocations
      ensures TidyWindow(rt.invocations[id], id)
    {
      assert WindowOk(rt.invocations[id], id, h.logs, maxEvents);
      RepresentsTidy(rt.invocations[id], h.logs[id], maxEvents, id);
    }
  }

  lemma PoolDistinct(invocations: map<InvocationId, Window>, only: Option<set<InvocationId>>)
    requires Tidy(invocations)
    ensures Distinct(Pool(invocations, only))
  {
    forall a, b | a in Pool(invocations, only) && b in Pool(invocations, only) && a.invocation == b.invocation && a.sequence == b.sequence
      ensures a == b
    {
      var i :| i in invocations && a in invocations[i].events;
      var j :| j in invocations && b in invocations[j].events;
      assert TidyWindow(invocations[i], i) && TidyWindow(invocations[j], j);
      SameWindow(invocations[i], i, a, b);
    }
  }

  lemma SameWindow(w: Window, id: InvocationId, a: Envelope, b: Envelope)
    requires TidyWindow(w, id) && a in w.events && b in w.events && a.sequence == b.sequence
    ensures a == b
  {
  }

  // --- expired cursors ---

  /** The cursor points before what is retained, or at an evicted invocation. */
  predicate CursorExpired(rt: RuntimeJournal, after: Cursors, id: InvocationId) {
    id in after && (id in rt.evicted || (id in rt.invocations && after[id] < rt.invocations[id].evictedThrough))
  }

  function Earliest(rt: RuntimeJournal, after: Cursors, id: InvocationId): (n: nat)
    requires CursorExpired(rt, after, id)
  {
    if id in rt.evicted then SaturatingSucc(after[id]) else SaturatingSucc(rt.invocations[id].evictedThrough)
  }

  ghost predicate LeastExpired(rt: RuntimeJournal, after: Cursors, id: InvocationId) {
    CursorExpired(rt, after, id) && forall j: InvocationId :: j < id ==> !CursorExpired(rt, after, j)
  }

  ghost predicate NoneExpired(rt: RuntimeJournal, after: Cursors) {
    forall id :: !CursorExpired(rt, after, id)
  }

  function Take(q: seq<Envelope>, n: nat): (r: seq<Envelope>) {
    if |q| <= n then q else q[..n]
  }

  /** The batch for these cursors over a pool. */
  ghost function BatchOf(pool: set<Envelope>, after: Cursors, limit: nat): (r: ReplayResult)
    requires Distinct(pool)
  {
    SubsetDistinct(Pending(pool, after), pool);
    var q := Arrange(Pending(pool, after));
    Batch(Take(q, limit), Advance(after, Take(q, limit)), |q| > limit)
  }

  /** What a replay of one runtime answers. */
  ghost predicate Answers(rt: RuntimeJournal, after: Cursors, only: Option<set<InvocationId>>, limit: nat, r: ReplayResult)
    requires Distinct(Pool(rt.invocations, only))
  {
    if NoneExpired(rt, after) then r == BatchOf(Pool(rt.invocations, only), after, limit)
    else r.ReplayWindowExpired? && LeastExpired(rt, after, r.invocation) && r.earliestAvailable == Earliest(rt, after, r.invocation)
  }

  /** Retained events come after the evicted ones, and nothing is both retained and evicted. */
  ghost predicate Ordered(rt: RuntimeJournal) {
    forall id :: id in rt.invocations ==> id !in rt.evicted && EventsPast(rt.invocations[id])
  }

  ghost predicate EventsPast(w: Window) {
    forall e :: e in w.events ==> e.sequence > w.evictedThrough
  }

  lemma RefinesOrdered(rt: RuntimeJournal, h: History, maximum: nat, maxEvents: nat)
    requires Refines(rt, h, maximum, maxEvents)
    ensures Ordered(rt)
  {
    forall id | id in rt.invocations
      ensures id !in rt.evicted && EventsPast(rt.invocations[id])
    {
      assert id in Elements(rt.order);
      assert WindowOk(rt.invocations[id], id, h.logs, maxEvents);
      NotEvicted(rt, id);
    }
  }

  lemma NotEvicted(rt: RuntimeJournal, id: InvocationId)
    requires Agree(rt) && id in rt.order
    ensures id !in rt.evicted
  {
    var j :| 0 <= j < |rt.order| && rt.order[j] == id;
    forall i | 0 <= i < |rt.evictedOrder|
      ensures rt.evictedOrder[i] != id
    {
      var both := rt.evictedOrder + rt.order;
      assert both[i] != both[|rt.evictedOrder| + j];
    }
  }

  /** Feeding a truncated batch's cursors back yields the remaining pages, and no cursor expires. */
  lemma BatchesArePages(rt: RuntimeJournal, h: History, maximum: nat, maxEvents: nat, only: Option<set<InvocationId>>, after: Cursors, limit: nat)
    requires Refines(rt, h, maximum, maxEvents) && limit > 0 && NoneExpired(rt, after)
    ensures var pool := Pool(rt.invocations, only);
            && Distinct(pool)
            && var b := BatchOf(pool, after, limit);
               && Pages(pool, after, limit) == [b.events] + (if b.truncated then Pages(pool, b.next, limit) else [])
               && NoneExpired(rt, b.next)
  {
    RefinesTidy(rt, h, maximum, maxEvents);
    RefinesOrdered(rt, h, maximum, maxEvents);
    hide Refines;
    PoolDistinct(rt.invocations, only);
    var pool := Pool(rt.invocations, only);
    SubsetDistinct(Pending(pool, after), pool);
    var q := Arrange(Pending(pool, after));
    var n := if |q| <= limit then |q| else limit;
    assert q[..n] == Take(q, limit);
    forall id
      ensures !CursorExpired(rt, Advance(after, q[..n]), id)
    {
      assert !CursorExpired(rt, after, id);
      AdvanceKeepsUnexpired(rt, only, after, q, n, id);
    }
  }

  lemma {:induction false} AdvanceKeepsUnexpired(rt: RuntimeJournal, only: Option<set<InvocationId>>, after: Cursors, q: seq<Envelope>, n: nat, id: InvocationId)
    requires Elements(q) == Pending(Pool(rt.invocations, only), after) && n <= |q|
    requires Tidy(rt.invocations) && Ordered(rt) && !CursorExpired(rt, after, id)
    ensures !CursorExpired(rt, Advance(after, q[..n]), id)
    decreases n
  {
    if n > 0 {
      AdvanceKeepsUnexpired(rt, only, after, q, n - 1, id);
      assert q[..n][..n - 1] == q[..n - 1];
      var e := q[n - 1];
      assert e in Elements(q);
      var at :| at in rt.invocations && e in rt.invocations[at].events;
      assert TidyWindow(rt.invocations[at], at) && EventsPast(rt.invocations[at]);
    } else {
      assert q[..n] == [];
    }
  }

  // --- the loops of replay ---

  lemma {:induction false} LeastExists(s: set<nat>) returns (m: nat)
    requires s != {}
    ensures m in s && forall x :: x in s ==> m <= x
    decreases |s|
  {
    var first :| first in s;
    m := first;
    if s - {first} != {} {
      var rest := LeastExists(s - {first});
      m := if rest < first then rest else first;
      forall x | x in s
        ensures m <= x
      {
        assert x == first || x in s - {first};
      }
    } else {
      assert forall x :: x in s ==> x == first || x in s - {first};
    }
  }

  /** The first expired cursor, in key order. */
  method FindExpired(rt: RuntimeJournal, after: Cursors) returns (r: Option<InvocationId>)
    ensures r.None? <==> NoneExpired(rt, after)
    ensures r.Some? ==> LeastExpired(rt, after, r.value)
  {
    var keys := after.Keys;
    while keys != {}
      invariant keys <= after.Keys
      invariant forall id :: id in after && id !in keys ==> !CursorExpired(rt, after, id)
      invariant forall id, k :: id in after && id !in keys && k in keys ==> id < k
      decreases |keys|
    {
      ghost var least := LeastExists(keys);
      var id :| id in keys && forall x :: x in keys ==> id <= x;
      if CursorExpired(rt, after, id) {
        return Some(id);
      }
      keys := keys - {id};
    }
    r := None;
  }

  function PastCursor(events: seq<Envelope>, cursor: nat): (r: seq<Envelope>)
    decreases |events|
  {
    if events == [] then []
    else (if events[0].sequence > cursor then [events[0]] else []) + PastCursor(events[1..], cursor)
  }

  lemma {:induction false} PastCursorMeaning(events: seq<Envelope>, cursor: nat)
    ensures Elements(PastCursor(events, cursor)) == set e | e in events && e.sequence > cursor
    ensures NoDup(events) ==> NoDup(PastCursor(events, cursor))
    decreases |events|
  {
    if events != [] {
      PastCursorMeaning(events[1..], cursor);
      var rest := PastCursor(events[1..], cursor);
      assert PastCursor(events, cursor) == if events[0].sequence > cursor then [events[0]] + rest else rest;
      assert Elements([events[0]] + rest) == {events[0]} + Elements(rest);
      assert forall e :: e in events <==> e == events[0] || e in events[1..];
      if NoDup(events) {
        ElementsOfTail(events);
        assert events[0] !in Elements(rest);
        HeadNoDup(events[0], rest);
      }
    }
  }

  lemma HeadNoDup(e: Envelope, rest: seq<Envelope>)
    requires NoDup(rest) && e !in Elements(rest)
    ensures NoDup([e] + rest)
  {
    assert forall i :: 0 <= i < |rest| ==> rest[i] in Elements(rest);
  }

  lemma TidyNoDup(w: Window, id: InvocationId)
    requires TidyWindow(w, id)
    ensures NoDup(w.events)
  {
    forall i, j | 0 <= i < j < |w.events|
      ensures w.events[i] != w.events[j]
    {
      assert w.events[i].sequence < w.events[j].sequence;
    }
  }

  lemma JoinNoDup(a: seq<Envelope>, b: seq<Envelope>)
    requires NoDup(a) && NoDup(b) && Elements(a) !! Elements(b)
    ensures NoDup(a + b) && Elements(a + b) == Elements(a) + Elements(b)
  {
    forall i, j | 0 <= i < j < |a + b|
      ensures (a + b)[i] != (a + b)[j]
    {
      if i < |a| <= j {
        assert a[i] in Elements(a) && b[j - |a|] in Elements(b);
      }
    }
  }

  /** Collects the events past the cursors, invocation by invocation, in no particular order. */
  method Collect(invocations: map<InvocationId, Window>, after: Cursors, only: Option<set<InvocationId>>) returns (events: seq<Envelope>)
    requires Tidy(invocations)
    ensures NoDup(events) && Elements(events) == Pending(Pool(invocations, only), after)
  {
    events := [];
    var ids := set id | id in invocations && Picked(only, id);
    ghost var done: map<InvocationId, Window> := map[];
    while ids != {}
      invariant ids <= invocations.Keys && forall id :: id in ids ==> Picked(only, id) && id !in done
      invariant forall id :: id in done ==> id in invocations && done[id] == invocations[id]
      invariant forall id :: id in invocations && Picked(only, id) ==> id in ids || id in done
      invariant NoDup(events) && Elements(events) == Pending(Pool(done, only), after)
      decreases |ids|
    {
      var id :| id in ids;
      var past := PastCursor(invocations[id].events, Cursor(after, id));
      CollectOne(done, after, only, id, invocations[id], events, past, invocations);
      events := events + past;
      done := done[id := invocations[id]];
      ids := ids - {id};
    }
    SamePending(done, invocations, after, only);
  }

  lemma SamePending(done: map<InvocationId, Window>, invocations: map<InvocationId, Window>, after: Cursors, only: Option<set<InvocationId>>)
    requires forall id :: id in done ==> id in invocations && done[id] == invocations[id]
    requires forall id :: id in invocations && Picked(only, id) ==> id in done
    ensures Pool(done, only) == Pool(invocations, only)
  {
    forall e | e in Pool(invocations, only)
      ensures e in Pool(done, only)
    {
      var id :| id in invocations && e in invocations[id].events && Picked(only, id);
      assert id in done;
    }
  }

  lemma CollectOne(done: map<InvocationId, Window>, after: Cursors, only: Option<set<InvocationId>>, id: InvocationId, w: Window,
                   events: seq<Envelope>, past: seq<Envelope>, invocations: map<InvocationId, Window>)
    requires Tidy(invocations) && id in invocations && w == invocations[id] && id !in done && Picked(only, id)
    requires forall i :: i in done ==> i in invocations && done[i] == invocations[i]
    requires NoDup(events) && Elements(events) == Pending(Pool(done, only), after)
    requires past == PastCursor(w.events, Cursor(after, id))
    ensures NoDup(events + past) && Elements(events + past) == Pending(Pool(done[id := w], only), after)
  {
    assert TidyWindow(w, id);
    TidyNoDup(w, id);
    PastCursorMeaning(w.events, Cursor(after, id));
    forall e | e in Elements(events)
      ensures e.invocation != id
    {
      var i :| i in done && e in done[i].events && Picked(only, i);
      assert TidyWindow(invocations[i], i);
    }
    JoinNoDup(events, past);
    PoolAdd(done, after, only, id, w);
  }

  lemma PoolAdd(done: map<InvocationId, Window>, after: Cursors, only: Option<set<InvocationId>>, id: InvocationId, w: Window)
    requires id !in done && Picked(only, id) && TidyWindow(w, id)
    ensures Pending(Pool(done[id := w], only), after)
              == Pending(Pool(done, only), after) + (set e | e in w.events && e.sequence > Cursor(after, id))
  {
    var now := done[id := w];
    assert Pool(now, only) == Pool(done, only) + Elements(w.events) by {
      forall e | e in Pool(done, only)
        ensures e in Pool(now, only)
      {
        var i :| i in done && e in done[i].events && Picked(only, i);
        assert i in now && now[i] == done[i];
      }
      forall e | e in Elements(w.events)
        ensures e in Pool(now, only)
      {
        assert now[id] == w;
      }
    }
  }

  method AdvanceCursors(after: Cursors, events: seq<Envelope>) returns (next: Cursors)
    ensures next == Advance(after, events)
  {
    next := after;
    var i := 0;
    while i < |events|
      invariant 0 <= i <= |events|
      invariant next == Advance(after, events[..i])
    {
      next := next[events[i].invocation := events[i].sequence];
      assert events[..i + 1][..i] == events[..i];
      i := i + 1;
    }
    assert events[..i] == events;
  }

  method ReplayRuntime(rt: RuntimeJournal, after: Cursors, only: Option<set<InvocationId>>, limit: nat) returns (r: ReplayResult)
    requires Tidy(rt.invocations)
    ensures Distinct(Pool(rt.invocations, only))
    ensures Answers(rt, after, only, limit, r)
  {
    PoolDistinct(rt.invocations, only);
    var expired := FindExpired(rt, after);
    if expired.Some? {
      return ReplayWindowExpired(expired.value, Earliest(rt, after, expired.value));
    }
    SubsetDistinct(Pending(Pool(rt.invocations, only), after), Pool(rt.invocations, only));
    var events := Collect(rt.invocations, after, only);
    events := SortEvents(events);
    var truncated := |events| > limit;
    events := Take(events, limit);
    var next := AdvanceCursors(after, events);
    return Batch(events, next, truncated);
  }

  // ---------------------------------------------------------------------------------------
  // The object.

  lemma Regroup<T>(a: seq<T>, b: seq<T>, c: seq<T>)
    ensures a + (b + c) == a + b + c
  {
  }

  /** The order without one runtime. */
  method Retain(order: seq<RuntimeId>, id: RuntimeId) returns (kept: seq<RuntimeId>)
    ensures kept == Without(order, id)
  {
    kept := [];
    var i := 0;
    while i < |order|
      invariant 0 <= i <= |order|
      invariant kept + Without(order[i..], id) == Without(order, id)
    {
      var rest := order[i..];
      assert rest[1..] == order[i + 1..];
      if order[i] != id {
        Regroup(kept, [order[i]], Without(rest[1..], id));
        kept := kept + [order[i]];
      } else {
        assert Without(rest, id) == Without(rest[1..], id);
      }
      i := i + 1;
    }
  }

  class InMemoryEventJournal {
    var runtimes: map<RuntimeId, RuntimeJournal>
    var runtimeOrder: seq<RuntimeId>
    const limits: Limits

    ghost function View(): (s: State)
      reads this
    {
      State(runtimes, runtimeOrder)
    }

    constructor (limits: Limits)
      ensures View() == State(map[], []) && this.limits == limits
    {
      runtimes, runtimeOrder := map[], [];
      this.limits := limits;
    }

    method Append(e: Envelope) returns (r: AppendOutcome)
      modifies this
      ensures r == Outcome(old(View()), e, limits)
      ensures View() == After(old(View()), e, limits)
    {
      if e.schemaVersion != 1 {
        return UnsupportedSchema(e.schemaVersion);
      }
      if e.runtime !in runtimes {
        runtimes := runtimes[e.runtime := EMPTY_RUNTIME];
        runtimeOrder := runtimeOrder + [e.runtime];
        while |runtimeOrder| > limits.maxRuntimes
          invariant DropExcessRuntimes(View(), limits.maxRuntimes) == Registered(old(View()), e.runtime, limits.maxRuntimes)
          decreases |runtimeOrder|
        {
          var expired := runtimeOrder[0];
          runtimeOrder := runtimeOrder[1..];
          runtimes := runtimes - {expired};
        }
      }
      if e.runtime !in runtimes {
        return StateInvariant;
      }
      var journal;
      journal, r := AppendToRuntime(runtimes[e.runtime], e, limits.maxInvocations, limits.maxEvents);
      runtimes := runtimes[e.runtime := journal];
    }

    method Replay(q: Request) returns (r: ReplayResult)
      requires q.runtime in runtimes ==> Tidy(runtimes[q.runtime].invocations)
      ensures q.limit == 0 || q.limit > limits.maxReplay ==> r == InvalidReplayLimit(limits.maxReplay, q.limit)
      ensures 0 < q.limit <= limits.maxReplay && q.runtime !in runtimes ==> r == Batch([], q.after, false)
      ensures 0 < q.limit <= limits.maxReplay && q.runtime in runtimes ==>
        && Distinct(Pool(runtimes[q.runtime].invocations, q.only))
        && Answers(runtimes[q.runtime], q.after, q.only, q.limit, r)
    {
      if q.limit == 0 || q.limit > limits.maxReplay {
        return InvalidReplayLimit(limits.maxReplay, q.limit);
      }
      if q.runtime !in runtimes {
        return Batch([], q.after, false);
      }
      r := ReplayRuntime(runtimes[q.runtime], q.after, q.only, q.limit);
    }

    method RemoveRuntime(id: RuntimeId)
      modifies this
      ensures View() == AfterRemove(old(View()), id)
    {
      runtimes := runtimes - {id};
      runtimeOrder := Retain(runtimeOrder, id);
    }
  }

  datatype Creation = Created(journal: InMemoryEventJournal) | InvalidLimit(field: string)

  /** The first limit that is zero, in the order in which they are checked. */
  function ZeroLimit(limits: Limits): (r: Option<string>)
    ensures r.None? <==> LimitsOk(limits)
  {
    if limits.maxRuntimes == 0 then Some("max_runtimes")
    else if limits.maxInvocations == 0 then Some("max_invocations_per_runtime")
    else if limits.maxEvents == 0 then Some("max_events_per_invocation")
    else if limits.maxReplay == 0 then Some("max_replay_events")
    else None
  }

  /** A journal is made only with limits that can hold something; otherwise the first zero limit is named. */
  method NewJournal(limits: Limits) returns (r: Creation)
    ensures r.InvalidLimit? <==> !LimitsOk(limits)
    ensures r.InvalidLimit? ==> ZeroLimit(limits) == Some(r.field)
    ensures r.Created? ==> fresh(r.journal) && r.journal.limits == limits && r.journal.View() == State(map[], [])
  {
    var fields := [("max_runtimes", limits.maxRuntimes), ("max_invocations_per_runtime", limits.maxInvocations),
                   ("max_events_per_invocation", limits.maxEvents), ("max_replay_events", limits.maxReplay)];
    var i := 0;
    while i < |fields|
      invariant 0 <= i <= |fields|
      invariant forall j :: 0 <= j < i ==> fields[j].1 > 0
    {
      if fields[i].1 == 0 {
        return InvalidLimit(fields[i].0);
      }
      i := i + 1;
    }
    assert fields[0].1 > 0 && fields[1].1 > 0 && fields[2].1 > 0 && fields[3].1 > 0;
    var journal := new InMemoryEventJournal(limits);
    r := Created(journal);
  }

  // ---------------------------------------------------------------------------------------
  // What an untruncated replay holds for one invocation.

  function Project(q: seq<Envelope>, id: InvocationId): (r: seq<Envelope>)
    decreases |q|
  {
    if q == [] then [] else (if q[0].invocation == id then [q[0]] else []) + Project(q[1..], id)
  }

  lemma {:induction false} ProjectElements(q: seq<Envelope>, id: InvocationId)
    ensures Elements(Project(q, id)) == set e | e in q && e.invocation == id
    decreases |q|
  {
    if q != [] {
      ProjectElements(q[1..], id);
      var rest := Project(q[1..], id);
      assert Project(q, id) == if q[0].invocation == id then [q[0]] + rest else rest;
      assert Elements([q[0]] + rest) == {q[0]} + Elements(rest);
      assert forall e :: e in q <==> e == q[0] || e in q[1..];
    }
  }

  lemma {:induction false} ProjectSorted(q: seq<Envelope>, id: InvocationId)
    requires Sorted(q)
    ensures Sorted(Project(q, id))
    decreases |q|
  {
    if q != [] {
      ProjectSorted(q[1..], id);
      ProjectElements(q[1..], id);
      var rest := Project(q[1..], id);
      forall j | 0 <= j < |rest|
        ensures Before(q[0], rest[j])
      {
        assert rest[j] in Elements(rest);
        var k :| 0 <= k < |q[1..]| && q[1..][k] == rest[j];
        assert Before(q[0], q[k + 1]);
      }
    }
  }

  /** The log after a cursor. */
  function LogPast(log: seq<Envelope>, cursor: nat): (r: seq<Envelope>) {
    if cursor <= |log| then log[cursor..] else []
  }

  ghost predicate TimesInOrder(log: seq<Envelope>) {
    forall i, j :: 0 <= i < j < |log| ==> log[i].observedAt <= log[j].observedAt
  }

  /** Numbered events of one invocation are in replay order exactly when their times never decrease. */
  lemma SortedIffTimesInOrder(log: seq<Envelope>, cursor: nat, id: InvocationId)
    requires Numbered(log, id)
    ensures Sorted(LogPast(log, cursor)) <==> TimesInOrder(LogPast(log, cursor))
  {
    var past := LogPast(log, cursor);
    forall i, j | 0 <= i < j < |past|
      ensures Before(past[i], past[j]) <==> past[i].observedAt <= past[j].observedAt
    {
    }
  }

  /** The retained events of an invocation past an unexpired cursor are those of its whole log. */
  lemma RetainedPast(w: Window, log: seq<Envelope>, maxEvents: nat, id: InvocationId, cursor: nat)
    requires Represents(w, log, maxEvents) && Numbered(log, id) && cursor >= w.evictedThrough
    ensures (set e | e in w.events && e.sequence > cursor) == Elements(LogPast(log, cursor))
  {
    var d := |log| - |w.events|;
    var past := LogPast(log, cursor);
    forall e | e in w.events && e.sequence > cursor
      ensures e in past
    {
      var i :| 0 <= i < |w.events| && w.events[i] == e;
      assert w.events[i] == log[d + i];
      assert past[d + i - cursor] == e;
    }
    forall e | e in past
      ensures e in w.events && e.sequence > cursor
    {
      var i :| 0 <= i < |past| && past[i] == e;
      assert w.events[cursor + i - d] == log[cursor + i];
    }
  }

  lemma ProjectPending(invocations: map<InvocationId, Window>, after: Cursors, only: Option<set<InvocationId>>, id: InvocationId, q: seq<Envelope>)
    requires Tidy(invocations) && id in invocations && Picked(only, id)
    requires Elements(q) == Pending(Pool(invocations, only), after)
    ensures Elements(Project(q, id)) == set e | e in invocations[id].events && e.sequence > Cursor(after, id)
  {
    ProjectElements(q, id);
    forall e | e in q && e.invocation == id
      ensures e in invocations[id].events && e.sequence > Cursor(after, id)
    {
      assert e in Elements(q);
      var i :| i in invocations && e in invocations[i].events && Picked(only, i);
      assert TidyWindow(invocations[i], i);
    }
    forall e | e in invocations[id].events && e.sequence > Cursor(after, id)
      ensures e in q && e.invocation == id
    {
      assert TidyWindow(invocations[id], id);
      assert e in Pool(invocations, only);
      assert e in Elements(q);
    }
  }

  /** An untruncated replay holds, for each retained invocation with an unexpired cursor, exactly the
      unbounded log past that cursor; and in log order exactly when times never decrease there. */
  lemma ReplayMatchesLog(rt: RuntimeJournal, h: History, limits: Limits, after: Cursors, only: Option<set<InvocationId>>, limit: nat, id: InvocationId)
    requires Refines(rt, h, limits.maxInvocations, limits.maxEvents)
    requires Distinct(Pool(rt.invocations, only)) && NoneExpired(rt, after)
    requires id in rt.invocations && id in after && Picked(only, id)
    requires !BatchOf(Pool(rt.invocations, only), after, limit).truncated
    ensures id in h.logs
    ensures var events := BatchOf(Pool(rt.invocations, only), after, limit).events;
            var past := LogPast(h.logs[id], after[id]);
            && Elements(Project(events, id)) == Elements(past)
            && (Project(events, id) == past <==> TimesInOrder(past))
  {
    RefinesTidy(rt, h, limits.maxInvocations, limits.maxEvents);
    var w := rt.invocations[id];
    assert WindowOk(w, id, h.logs, limits.maxEvents);
    assert !CursorExpired(rt, after, id);
    SubsetDistinct(Pending(Pool(rt.invocations, only), after), Pool(rt.invocations, only));
    var q := Arrange(Pending(Pool(rt.invocations, only), after));
    ProjectPending(rt.invocations, after, only, id, q);
    RetainedPast(w, h.logs[id], limits.maxEvents, id, after[id]);
    SameAsLog(q, h.logs[id], id, after[id]);
  }

  lemma SameAsLog(q: seq<Envelope>, log: seq<Envelope>, id: InvocationId, cursor: nat)
    requires Sorted(q) && Numbered(log, id) && Elements(Project(q, id)) == Elements(LogPast(log, cursor))
    ensures Project(q, id) == LogPast(log, cursor) <==> TimesInOrder(LogPast(log, cursor))
  {
    ProjectSorted(q, id);
    SortedIffTimesInOrder(log, cursor, id);
    if TimesInOrder(LogPast(log, cursor)) {
      SortedUnique(Project(q, id), LogPast(log, cursor));
    }
  }
}
