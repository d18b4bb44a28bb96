/** What a replay answers, said of the complete history that the bounded journal stands for. */
module ReplayMeaning {
  import opened Basics
  import opened Events
  import opened RecentWindow
  import opened Journal
  import opened JournalHistory
  import opened Replay
  import opened JournalStore

  /** An accepted event that the journal no longer retains. */
  predicate Lost(rt: RuntimeJournal, h: History, e: Envelope) {
    && e.invocation in h.logs && e in h.logs[e.invocation]
    && !(e.invocation in rt.invocations && e in rt.invocations[e.invocation].events)
  }

  ghost predicate LosesPast(rt: RuntimeJournal, h: History, id: InvocationId, cursor: nat) {
    exists e :: Lost(rt, h, e) && e.invocation == id && e.sequence > cursor
  }

  lemma WindowLoses(w: Window, log: seq<Envelope>, maxEvents: nat, id: InvocationId, e: Envelope)
    requires Represents(w, log, maxEvents) && Numbered(log, id) && e in log
    ensures e in w.events <==> e.sequence > w.evictedThrough
  {
    var k :| 0 <= k < |log| && log[k] == e;
    var d := |log| - |w.events|;
    if e.sequence > w.evictedThrough {
      assert w.events[k - d] == log[k];
    }
    if e in w.events {
      var i :| 0 <= i < |w.events| && w.events[i] == e;
      assert w.events[i] == log[d + i];
    }
  }

  lemma WindowLosesIff(rt: RuntimeJournal, h: History, maximum: nat, maxEvents: nat, id: InvocationId, cursor: nat)
    requires Refines(rt, h, maximum, maxEvents) && id in rt.invocations
    ensures cursor < rt.invocations[id].evictedThrough <==> LosesPast(rt, h, id, cursor)
  {
    var w := rt.invocations[id];
    assert WindowOk(w, id, h.logs, maxEvents);
    var log := h.logs[id];
    if cursor < w.evictedThrough {
      var e := log[cursor];
      WindowLoses(w, log, maxEvents, id, e);
      assert Lost(rt, h, e);
    }
    if e :| Lost(rt, h, e) && e.invocation == id && e.sequence > cursor {
      WindowLoses(w, log, maxEvents, id, e);
    }
  }

  /** A cursor has expired exactly if its invocation is remembered as evicted, or is live and an accepted event past the
      cursor is no longer there to be replayed. */
  lemma ExpiredIff(rt: RuntimeJournal, h: History, maximum: nat, maxEvents: nat, after: Cursors, id: InvocationId)
    requires Refines(rt, h, maximum, maxEvents)
    ensures CursorExpired(rt, after, id) <==>
              && id in after
              && (id in Gone(h, maximum) || (id in Live(h, maximum) && LosesPast(rt, h, id, after[id])))
  {
    MembershipMeaning(rt, h, maximum, maxEvents, id);
    if id in after && id in rt.invocations {
      WindowLosesIff(rt, h, maximum, maxEvents, id, after[id]);
    }
    hide Refines;
  }

  /** The earliest available sequence of a live invocation follows the least cursor from which nothing was lost; for an
      evicted invocation it is the one the cursor asks for. */
  lemma EarliestMeaning(rt: RuntimeJournal, h: History, maximum: nat, maxEvents: nat, after: Cursors, id: InvocationId, cursor: nat)
    requires Refines(rt, h, maximum, maxEvents) && CursorExpired(rt, after, id)
    ensures id in Gone(h, maximum) ==> Earliest(rt, after, id) == if after[id] < U64_MAX then after[id] + 1 else U64_MAX
    ensures id !in Gone(h, maximum) ==> id in rt.invocations
    ensures id !in Gone(h, maximum) && rt.invocations[id].evictedThrough < U64_MAX ==>
              (LosesPast(rt, h, id, cursor) <==> cursor + 1 < Earliest(rt, after, id))
  {
    MembershipMeaning(rt, h, maximum, maxEvents, id);
    if id !in rt.evicted {
      WindowLosesIff(rt, h, maximum, maxEvents, id, cursor);
    }
    hide Refines;
  }

  /** The events a replay is asked for: accepted from a live, selected invocation, past its cursor, and for an invocation
      without a cursor among the last `maxEvents`. */
  predicate Wanted(h: History, maximum: nat, maxEvents: nat, after: Cursors, only: Option<set<InvocationId>>, e: Envelope) {
    var id := e.invocation;
    && id in Live(h, maximum) && (only.Some? ==> id in only.value)
    && id in h.logs && e in h.logs[id]
    && if id in after then e.sequence > after[id] else e.sequence + maxEvents > |h.logs[id]|
  }

  lemma WantedIsPending(rt: RuntimeJournal, h: History, maximum: nat, maxEvents: nat, after: Cursors, only: Option<set<InvocationId>>, e: Envelope)
    requires Refines(rt, h, maximum, maxEvents) && NoneExpired(rt, after) && maxEvents > 0
    ensures e in Pending(Pool(rt.invocations, only), after) <==> Wanted(h, maximum, maxEvents, after, only, e)
  {
    var id := e.invocation;
    MembershipMeaning(rt, h, maximum, maxEvents, id);
    RefinesTidy(rt, h, maximum, maxEvents);
    PoolMeaning(rt.invocations, only, e);
    hide Pool;
    if id in rt.invocations && e in rt.invocations[id].events {
      RetainedIsLogged(rt, h, maximum, maxEvents, e);
    }
    if id in rt.invocations && id in h.logs && e in h.logs[id] {
      var w := rt.invocations[id];
      assert WindowOk(w, id, h.logs, maxEvents);
      WindowLoses(w, h.logs[id], maxEvents, id, e);
      assert !CursorExpired(rt, after, id);
      var k :| 0 <= k < |h.logs[id]| && h.logs[id][k] == e;
    }
  }

  lemma RetainedIsLogged(rt: RuntimeJournal, h: History, maximum: nat, maxEvents: nat, e: Envelope)
    requires Refines(rt, h, maximum, maxEvents) && e.invocation in rt.invocations && e in rt.invocations[e.invocation].events
    ensures e.invocation in h.logs && e in h.logs[e.invocation]
  {
    var w, id := rt.invocations[e.invocation], e.invocation;
    assert WindowOk(w, id, h.logs, maxEvents);
    hide Refines;
    var i :| 0 <= i < |w.events| && w.events[i] == e;
    assert w.events[i] == h.logs[id][|h.logs[id]| - |w.events| + i];
  }

  lemma PoolMeaning(invocations: map<InvocationId, Window>, only: Option<set<InvocationId>>, e: Envelope)
    requires Tidy(invocations)
    ensures e in Pool(invocations, only) <==>
              && e.invocation in invocations && (only.Some? ==> e.invocation in only.value)
              && e in invocations[e.invocation].events
  {
    if e in Pool(invocations, only) {
      var id :| id in invocations && e in invocations[id].events && Picked(only, id);
      assert TidyWindow(invocations[id], id);
    }
  }

  /** A batch holds only wanted events, and all of them unless it is truncated. */
  lemma BatchMeaning(rt: RuntimeJournal, h: History, maximum: nat, maxEvents: nat, after: Cursors, only: Option<set<InvocationId>>,
    limit: nat, e: Envelope)
    requires Refines(rt, h, maximum, maxEvents) && maxEvents > 0 && NoneExpired(rt, after)
    ensures Distinct(Pool(rt.invocations, only))
    ensures var b := BatchOf(Pool(rt.invocations, only), after, limit);
            && (e in b.events ==> Wanted(h, maximum, maxEvents, after, only, e))
            && (!b.truncated && Wanted(h, maximum, maxEvents, after, only, e) ==> e in b.events)
            && (b.truncated ==> |b.events| == limit)
  {
    RefinesTidy(rt, h, maximum, maxEvents);
    PoolDistinct(rt.invocations, only);
    WantedIsPending(rt, h, maximum, maxEvents, after, only, e);
    hide Refines;
    hide NoneExpired;
    hide Wanted;
    var pool := Pool(rt.invocations, only);
    hide Pool;
    SubsetDistinct(Pending(pool, after), pool);
    var q := Arrange(Pending(pool, after));
    assert e in q <==> e in Elements(q);
  }

  /** Within a batch, earlier times come first; at one time, lower identifiers; and within an invocation, lower numbers. */
  lemma BatchOrder(pool: set<Envelope>, after: Cursors, limit: nat, i: nat, j: nat)
    requires Distinct(pool) && i < j < |BatchOf(pool, after, limit).events|
    ensures var q := BatchOf(pool, after, limit).events;
            && q[i].observedAt <= q[j].observedAt
            && (q[i].observedAt == q[j].observedAt ==> q[i].invocation <= q[j].invocation)
            && (q[i].observedAt == q[j].observedAt && q[i].invocation == q[j].invocation ==> q[i].sequence < q[j].sequence)
  {
    SubsetDistinct(Pending(pool, after), pool);
    var all := Arrange(Pending(pool, after));
    assert Before(all[i], all[j]);
  }
}
