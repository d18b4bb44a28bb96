/** The client's attach: asking for pages of replay until one is not truncated.

    The host is quiescent meanwhile: its journal does not change, no live event is interleaved, and the
    invocations' channels have room. */
module AttachLoop {
  import opened Basics
  import opened Events
  import opened RecentWindow
  import opened Journal
  import opened JournalHistory
  import opened Replay
  import opened JournalStore
  import opened RemoteClient
  import opened Pipeline
  import opened LiveDelivery

  const MAX_REPLAY_PAGES: nat := 1024
  const DEFAULT_PROTOCOL_REPLAY_EVENTS: nat := 2048

  datatype AttachOutcome = Attached | NoProgress | TooManyPages | Refused(reason: ReplayResult)

  /** A host whose clock never stepped back, and a client of it. */
  ghost predicate Ready(s: System, c: Client) {
    Safe(s) && AllSteady(s.logs) && ClientOk(c) && RemotesOk(s.logs, c.remotes)
  }

  ghost function Selected(s: System, after: Cursors): (pool: set<Envelope>) {
    Pool(s.journal.invocations, Some(after.Keys))
  }

  /** The events an attach with these cursors still has to deliver, in replay order. */
  ghost predicate Outstanding(s: System, after: Cursors, q: seq<Envelope>) {
    Sorted(q) && Elements(q) == Pending(Selected(s, after), after)
  }

  lemma {:induction false} SteadyPair(log: seq<Envelope>, i: nat, j: nat)
    requires Steady(log) && i <= j < |log|
    ensures log[i].observedAt <= log[j].observedAt
    decreases j
  {
    if i < j {
      SteadyPair(log, i, j - 1);
      assert log[j - 1].observedAt <= log[j].observedAt;
    }
  }

  lemma OutstandingFacts(s: System, after: Cursors)
    requires Safe(s) && AllSteady(s.logs)
    ensures Distinct(Selected(s, after)) && Distinct(Pending(Selected(s, after), after))
    ensures TimesAdvance(Pending(Selected(s, after), after))
  {
    RefinesTidy(s.journal, s.history, s.limits.maxInvocations, s.limits.maxEvents);
    PoolDistinct(s.journal.invocations, Some(after.Keys));
    SubsetDistinct(Pending(Selected(s, after), after), Selected(s, after));
    PendingTimes(s, after);
  }

  lemma PendingTimes(s: System, after: Cursors)
    requires Safe(s) && AllSteady(s.logs)
    ensures TimesAdvance(Pending(Selected(s, after), after))
  {
    hide Safe;
    var pending := Pending(Selected(s, after), after);
    forall a, b | a in pending && b in pending && a.invocation == b.invocation && a.sequence < b.sequence
      ensures a.observedAt <= b.observedAt
    {
      PendingMeaning(s, after, a);
      PendingMeaning(s, after, b);
      assert Steady(s.logs[a.invocation]);
      SteadyPair(s.logs[a.invocation], a.sequence - 1, b.sequence - 1);
    }
  }

  /** Everything replayed of an invocation before the event at `k` has a lower number. */
  lemma LastBefore(s: System, after: Cursors, q: seq<Envelope>, k: nat)
    requires Safe(s) && AllSteady(s.logs) && Outstanding(s, after, q) && k < |q| && q[k].invocation in after
    ensures after[q[k].invocation] < q[k].sequence
    ensures Cursor(Advance(after, q[..k]), q[k].invocation) < q[k].sequence
    ensures forall j :: 0 <= j < k && q[j].invocation == q[k].invocation ==>
              q[j].sequence <= Cursor(Advance(after, q[..k]), q[k].invocation)
    ensures after[q[k].invocation] <= Cursor(Advance(after, q[..k]), q[k].invocation)
  {
    hide Safe;
    OutstandingFacts(s, after);
    var id := q[k].invocation;
    var pending := Pending(Selected(s, after), after);
    assert q[k] in Elements(q);
    var found, i := AdvanceMeaning(after, q[..k], id);
    if found {
      assert q[..k][i] == q[i] && q[i] in Elements(q);
      InOrder(pending, q, i, k);
    }
    forall j | 0 <= j < k && q[j].invocation == id
      ensures q[j].sequence <= Cursor(Advance(after, q[..k]), id)
    {
      assert q[..k][j] == q[j];
      if j < i {
        InOrder(pending, q, j, i);
      }
    }
  }

  /** Each replayed event is the successor of what was replayed of its invocation before it. */
  lemma NextInSequence(s: System, after: Cursors, q: seq<Envelope>, k: nat)
    requires Safe(s) && AllSteady(s.logs) && NoneExpired(s.journal, after) && Outstanding(s, after, q) && k < |q|
    ensures q[k].invocation in after
    ensures q[k].sequence == Cursor(Advance(after, q[..k]), q[k].invocation) + 1
  {
    hide Safe;
    assert q[k] in Elements(q);
    PendingMeaning(s, after, q[k]);
    LastBefore(s, after, q, k);
    hide Advance;
    if q[k].sequence > after[q[k].invocation] + 1 {
      PredecessorFirst(s, after, q, k);
    }
  }

  // --- routing a page ---

  /** No event of the invocation is left from here on. */
  ghost predicate NoneLeft(q: seq<Envelope>, k: nat, id: InvocationId) {
    forall j :: k <= j < |q| ==> q[j].invocation != id
  }

  /** The client has taken the first `k` events: an invocation is at its cursor, or gone with nothing left. */
  ghost predicate InStepOne(c: Client, after: Cursors, q: seq<Envelope>, k: nat, id: InvocationId)
    requires k <= |q|
  {
    if Known(c, id) then c.remotes[c.invocations[id]].lastSequence == Cursor(Advance(after, q[..k]), id)
    else NoneLeft(q, k, id)
  }

  ghost predicate InStep(c: Client, after: Cursors, q: seq<Envelope>, k: nat) {
    && k <= |q| && c.invocations.Keys <= after.Keys
    && forall id :: id in after ==> InStepOne(c, after, q, k, id)
  }

  lemma StartInStep(c: Client, q: seq<Envelope>)
    requires ClientOk(c)
    ensures InStep(c, ReplayCursors(c), q, 0)
  {
    assert q[..0] == [];
    forall id | id in c.invocations
      ensures id in ReplayCursors(c)
    {
      assert RegisteredOk(c, id);
    }
  }

  /** A terminal event leaves nothing of its invocation to replay. */
  lemma NothingAfterTerminal(s: System, after: Cursors, q: seq<Envelope>, k: nat)
    requires Safe(s) && AllSteady(s.logs) && Outstanding(s, after, q) && k < |q| && IsTerminal(q[k].event)
    ensures NoneLeft(q, k + 1, q[k].invocation)
  {
    OutstandingFacts(s, after);
    var id := q[k].invocation;
    forall j | k + 1 <= j < |q|
      ensures q[j].invocation != id
    {
      assert q[k] in Elements(q) && q[j] in Elements(q);
      PendingMeaning(s, after, q[k]);
      PendingMeaning(s, after, q[j]);
      assert LogOk(s.logs[id], id);
      if q[j].invocation == id {
        InOrder(Pending(Selected(s, after), after), q, k, j);
      }
    }
  }

  lemma AdvancePush(after: Cursors, q: seq<Envelope>, k: nat)
    requires k < |q|
    ensures Advance(after, q[..k + 1]) == Advance(after, q[..k])[q[k].invocation := q[k].sequence]
  {
    assert q[..k + 1][..k] == q[..k];
  }

  lemma ReplayedIsNext(s: System, c: Client, after: Cursors, q: seq<Envelope>, k: nat)
    requires Ready(s, c) && NoneExpired(s.journal, after) && Outstanding(s, after, q) && InStep(c, after, q, k) && k < |q|
    ensures q[k].invocation in after && Emitted(s.logs, q[k]) && Classify(c, q[k]) == Next
    ensures q[k].sequence == Cursor(Advance(after, q[..k]), q[k].invocation) + 1
  {
    NextInSequence(s, after, q, k);
    assert q[k] in Elements(q);
    PendingMeaning(s, after, q[k]);
    hide Safe;
    hide RemotesOk;
    assert InStepOne(c, after, q, k, q[k].invocation);
  }

  lemma RouteKeepsReady(s: System, c: Client, e: Envelope)
    requires Ready(s, c) && Emitted(s.logs, e)
    ensures Ready(s, Route(c, e, Sent))
  {
    hide JournalOk;
    RouteKeepsOk(c, e, Sent);
    RouteKeepsRemotes(s.logs, c, e, Sent);
  }

  lemma RouteKeepsStep(c: Client, after: Cursors, q: seq<Envelope>, k: nat)
    requires ClientOk(c) && InStep(c, after, q, k) && k < |q| && Classify(c, q[k]) == Next
    requires IsTerminal(q[k].event) ==> NoneLeft(q, k + 1, q[k].invocation)
    ensures InStep(Route(c, q[k], Sent), after, q, k + 1)
  {
    AdvancePush(after, q, k);
    var id := q[k].invocation;
    var c' := Route(c, q[k], Sent);
    forall other | other in after
      ensures InStepOne(c', after, q, k + 1, other)
    {
      assert InStepOne(c, after, q, k, other);
      if Known(c, other) {
        assert RegisteredOk(c, other) && RegisteredOk(c, id);
      }
    }
  }

  lemma RouteOne(s: System, c: Client, after: Cursors, q: seq<Envelope>, k: nat)
    requires Ready(s, c) && NoneExpired(s.journal, after) && Outstanding(s, after, q) && InStep(c, after, q, k) && k < |q|
    ensures Ready(s, Route(c, q[k], Sent)) && InStep(Route(c, q[k], Sent), after, q, k + 1)
  {
    hide Safe;
    hide RemotesOk;
    hide InStep;
    ReplayedIsNext(s, c, after, q, k);
    if IsTerminal(q[k].event) {
      NothingAfterTerminal(s, after, q, k);
    }
    RouteKeepsReady(s, c, q[k]);
    RouteKeepsStep(c, after, q, k);
  }

  /** Route a page of events, one after the other. */
  method RoutePage(ghost s: System, ghost c0: Client, c: Client, ghost after: Cursors, ghost q: seq<Envelope>, events: seq<Envelope>)
    returns (c': Client)
    requires Ready(s, c) && NoneExpired(s.journal, after) && Outstanding(s, after, q) && InStep(c, after, q, 0)
    requires |events| <= |q| && events == q[..|events|]
    requires ClientOk(c0) && SameHandles(c0, c) && Kept(s, c0, c)
    ensures Ready(s, c') && InStep(c', after, q, |events|)
    ensures SameHandles(c0, c') && Kept(s, c0, c')
  {
    hide Ready;
    hide Outstanding;
    hide InStep;
    hide Kept;
    hide SameHandles;
    c' := c;
    var k: nat := 0;
    while k < |events|
      invariant k <= |events| && Ready(s, c') && InStep(c', after, q, k)
      invariant SameHandles(c0, c') && Kept(s, c0, c')
    {
      ReplayedIsNext(s, c', after, q, k);
      RouteOne(s, c', after, q, k);
      RouteKeeps(s, c0, c', events[k]);
      RouteHandles(c0, c', events[k]);
      c' := Route(c', events[k], Sent);
      k := k + 1;
    }
  }

  /** Routing keeps the list of invocations and registers none anew. */
  ghost predicate SameHandles(c: Client, c': Client) {
    && |c'.remotes| == |c.remotes|
    && (forall h :: 0 <= h < |c.remotes| ==> c'.remotes[h].id == c.remotes[h].id)
    && (forall id :: id in c'.invocations ==> id in c.invocations && c'.invocations[id] == c.invocations[id])
  }

  lemma RouteHandles(c: Client, c1: Client, e: Envelope)
    requires SameHandles(c, c1)
    ensures SameHandles(c, Route(c1, e, Sent))
  {
  }

  // --- the next page ---

  lemma CursorsInStep(c: Client, after: Cursors, q: seq<Envelope>, k: nat, id: InvocationId)
    requires ClientOk(c) && InStep(c, after, q, k)
    ensures id in ReplayCursors(c) <==> Known(c, id)
    ensures Known(c, id) ==> id in after && ReplayCursors(c)[id] == Cursor(Advance(after, q[..k]), id)
    ensures id in after && !Known(c, id) ==> NoneLeft(q, k, id)
  {
    if id in after {
      assert InStepOne(c, after, q, k, id);
    }
  }

  /** What is outstanding after a page is what came after it. */
  lemma RestIsOutstanding(s: System, c: Client, after: Cursors, q: seq<Envelope>, k: nat)
    requires Ready(s, c) && Outstanding(s, after, q) && InStep(c, after, q, k)
    ensures Outstanding(s, ReplayCursors(c), q[k..])
  {
    var next := ReplayCursors(c);
    var pool, pool' := Selected(s, after), Selected(s, next);
    OutstandingFacts(s, after);
    PageSplit(pool, after, q, k);
    hide Safe;
    hide RemotesOk;
    var advanced := Advance(after, q[..k]);
    forall e | e in Pending(pool', next)
      ensures e in Pending(pool, advanced)
    {
      PendingMeaning(s, next, e);
      CursorsInStep(c, after, q, k, e.invocation);
      PoolWithin(s, after, next, e);
    }
    forall e | e in Pending(pool, advanced)
      ensures e in Pending(pool', next)
    {
      StaysPending(s, c, after, q, k, e);
    }
    assert Pending(pool', next) == Elements(q[k..]);
    SortedDrop(q, k);
  }

  lemma SortedDrop(q: seq<Envelope>, k: nat)
    requires Sorted(q) && k <= |q|
    ensures Sorted(q[k..])
  {
  }

  lemma PoolWithin(s: System, after: Cursors, next: Cursors, e: Envelope)
    requires Safe(s) && e in Selected(s, next) && e.invocation in after
    ensures e in Selected(s, after)
  {
    RetainedMeaning(s, Some(next.Keys), e);
    var id :| id in s.journal.invocations && e in s.journal.invocations[id].events && Picked(Some(next.Keys), id);
    assert WindowOk(s.journal.invocations[id], id, s.history.logs, s.limits.maxEvents);
    assert AppendedOk(s.history, s.logs, s.pumped, id);
    WindowHoldsAppended(s.journal.invocations[id], id, s.history, s.logs, s.pumped, s.limits.maxEvents, e);
    assert Picked(Some(after.Keys), id);
  }

  lemma StaysPending(s: System, c: Client, after: Cursors, q: seq<Envelope>, k: nat, e: Envelope)
    requires Ready(s, c) && Outstanding(s, after, q) && InStep(c, after, q, k)
    requires Pending(Selected(s, after), Advance(after, q[..k])) == Elements(q[k..])
    requires e in Pending(Selected(s, after), Advance(after, q[..k]))
    ensures e in Pending(Selected(s, ReplayCursors(c)), ReplayCursors(c))
  {
    var j :| 0 <= j < |q[k..]| && q[k..][j] == e;
    assert q[k + j] == e;
    RetainedMeaning(s, Some(after.Keys), e);
    CursorsInStep(c, after, q, k, e.invocation);
    PoolWithin(s, ReplayCursors(c), after, e);
  }

  lemma {:induction false} StillUnexpired(s: System, c: Client, after: Cursors, q: seq<Envelope>, k: nat)
    requires Ready(s, c) && NoneExpired(s.journal, after) && Outstanding(s, after, q) && InStep(c, after, q, k)
    ensures NoneExpired(s.journal, ReplayCursors(c))
  {
    RefinesTidy(s.journal, s.history, s.limits.maxInvocations, s.limits.maxEvents);
    RefinesOrdered(s.journal, s.history, s.limits.maxInvocations, s.limits.maxEvents);
    hide Safe;
    hide RemotesOk;
    hide Tidy;
    hide Ordered;
    forall id
      ensures !CursorExpired(s.journal, ReplayCursors(c), id)
    {
      assert !CursorExpired(s.journal, after, id);
      AdvanceKeepsUnexpired(s.journal, Some(after.Keys), after, q, k, id);
      CursorsInStep(c, after, q, k, id);
      if id in after {
        InAdvance(after, q, k, id);
      }
    }
  }

  lemma {:induction false} InAdvance(after: Cursors, q: seq<Envelope>, k: nat, id: InvocationId)
    requires id in after && k <= |q|
    ensures id in Advance(after, q[..k])
    decreases k
  {
    if k > 0 {
      InAdvance(after, q, k - 1, id);
      AdvancePush(after, q, k - 1);
    } else {
      assert q[..k] == [];
    }
  }

  /** A page with events moves a cursor or ends an invocation. */
  lemma PageAdvances(s: System, c: Client, after: Cursors, q: seq<Envelope>, k: nat)
    requires Ready(s, c) && NoneExpired(s.journal, after) && Outstanding(s, after, q) && InStep(c, after, q, k) && k > 0
    ensures ReplayCursors(c) != after
  {
    var e := q[k - 1];
    NextInSequence(s, after, q, k - 1);
    assert e in Elements(q);
    PendingMeaning(s, after, e);
    hide Safe;
    hide RemotesOk;
    AdvancePush(after, q, k - 1);
    CursorsInStep(c, after, q, k, e.invocation);
  }

  // --- what has been received ---

  /** Whether the host answers a page request for these cursors. */
  ghost predicate Answerable(s: System, after: Cursors) {
    DEFAULT_PROTOCOL_REPLAY_EVENTS <= s.limits.maxReplay && NoneExpired(s.journal, after)
  }

  /** The channel of this invocation holds everything its pump has appended. */
  ghost predicate Received(s: System, c: Client, id: InvocationId, h: nat) {
    && h < |c.remotes| && id in s.logs && id in s.pumped && s.pumped[id] <= |s.logs[id]|
    && s.logs[id][..s.pumped[id]] <= c.remotes[h].delivered
  }

  /** A retained invocation that was registered still is, or has received everything. */
  ghost predicate KeptOne(s: System, c: Client, c': Client, id: InvocationId)
    requires Known(c, id)
  {
    (id in c'.invocations && c'.invocations[id] == c.invocations[id]) || Received(s, c', id, c.invocations[id])
  }

  ghost predicate Kept(s: System, c: Client, c': Client) {
    forall id :: Known(c, id) && id in s.journal.invocations ==> KeptOne(s, c, c', id)
  }

  lemma TerminalIsReceived(s: System, c: Client, e: Envelope)
    requires Ready(s, c) && Emitted(s.logs, e) && Classify(c, e) == Next && IsTerminal(e.event)
    ensures Received(s, Route(c, e, Sent), e.invocation, c.invocations[e.invocation])
  {
    hide JournalOk;
    var id := e.invocation;
    RouteKeepsRemotes(s.logs, c, e, Sent);
    var r := Route(c, e, Sent).remotes[c.invocations[id]];
    assert RegisteredOk(c, id);
    assert RemoteOk(s.logs, r) && LogOk(s.logs[id], id) && PumpOk(s.logs, s.pumped, s.sent, id);
    assert r.lastSequence == e.sequence == |s.logs[id]|;
  }

  lemma RouteKeeps(s: System, c: Client, c1: Client, e: Envelope)
    requires ClientOk(c) && Ready(s, c1) && SameHandles(c, c1) && Kept(s, c, c1)
    requires Emitted(s.logs, e) && Classify(c1, e) == Next
    ensures Kept(s, c, Route(c1, e, Sent))
  {
    if IsTerminal(e.event) {
      TerminalIsReceived(s, c1, e);
    }
    hide Safe;
    hide RemotesOk;
    var c2 := Route(c1, e, Sent);
    assert RegisteredOk(c1, e.invocation);
    forall id | Known(c, id) && id in s.journal.invocations
      ensures KeptOne(s, c, c2, id)
    {
      assert RegisteredOk(c, id) && KeptOne(s, c, c1, id);
    }
  }

  /** When nothing is outstanding, what is still registered has received everything. */
  lemma NothingOutstanding(s: System, c: Client, id: InvocationId)
    requires Ready(s, c) && Answerable(s, ReplayCursors(c)) && Outstanding(s, ReplayCursors(c), [])
    requires id in c.invocations && id in s.journal.invocations
    ensures Received(s, c, id, c.invocations[id])
  {
    var after := ReplayCursors(c);
    assert RegisteredOk(c, id);
    var r := c.remotes[c.invocations[id]];
    assert after[id] == r.lastSequence;
    assert AppendedOk(s.history, s.logs, s.pumped, id);
    assert RemoteOk(s.logs, r);
    assert !CursorExpired(s.journal, after, id);
    assert Elements<Envelope>([]) == {};
    if r.lastSequence < s.pumped[id] {
      RetainedPastCursor(s, after, id, s.pumped[id]);
    }
  }

  lemma AllAreReceived(s: System, c: Client, c': Client)
    requires Ready(s, c') && Answerable(s, ReplayCursors(c')) && Outstanding(s, ReplayCursors(c'), [])
    requires Kept(s, c, c')
    ensures forall id :: Known(c, id) && id in s.journal.invocations ==> Received(s, c', id, c.invocations[id])
  {
    hide Ready;
    hide Answerable;
    hide Outstanding;
    forall id | Known(c, id) && id in s.journal.invocations
      ensures Received(s, c', id, c.invocations[id])
    {
      assert KeptOne(s, c, c', id);
      if id in c'.invocations && c'.invocations[id] == c.invocations[id] {
        NothingOutstanding(s, c', id);
      }
    }
  }

  // --- all pages ---

  /** How many events an attach of this client has to deliver. */
  ghost function Count(s: System, c: Client): (n: nat) {
    |Pending(Selected(s, ReplayCursors(c)), ReplayCursors(c))|
  }

  datatype PageReply = Page(truncated: bool) | Refusal(reason: ReplayResult)

  /** One page: its events are the first that are outstanding, and routing them leaves the rest. */
  method AttachPage(s: System, ghost c0: Client, c: Client, ghost q: seq<Envelope>) returns (c': Client, reply: PageReply)
    requires Ready(s, c) && Outstanding(s, ReplayCursors(c), q)
    requires ClientOk(c0) && SameHandles(c0, c) && Kept(s, c0, c)
    ensures reply.Page? <==> Answerable(s, ReplayCursors(c))
    ensures reply.Refusal? ==> c' == c && !reply.reason.Batch?
    ensures reply.Page? ==> (reply.truncated <==> |q| > DEFAULT_PROTOCOL_REPLAY_EVENTS)
    ensures reply.Page? ==>
              var n := if reply.truncated then DEFAULT_PROTOCOL_REPLAY_EVENTS else |q|;
              && Ready(s, c') && Answerable(s, ReplayCursors(c')) && Outstanding(s, ReplayCursors(c'), q[n..])
              && (n > 0 ==> ReplayCursors(c') != ReplayCursors(c))
              && SameHandles(c0, c') && Kept(s, c0, c')
  {
    var after := ReplayCursors(c);
    if DEFAULT_PROTOCOL_REPLAY_EVENTS > s.limits.maxReplay {
      return c, Refusal(InvalidReplayLimit(s.limits.maxReplay, DEFAULT_PROTOCOL_REPLAY_EVENTS));
    }
    HostIsTidy(s);
    var answer := ReplayRuntime(s.journal, after, Some(after.Keys), DEFAULT_PROTOCOL_REPLAY_EVENTS);
    if !answer.Batch? {
      return c, Refusal(answer);
    }
    PageIs(s, after, q, answer);
    StartInStep(c, q);
    hide Ready;
    hide NoneExpired;
    hide Outstanding;
    hide InStep;
    hide Kept;
    hide SameHandles;
    c' := RoutePage(s, c0, c, after, q, answer.events);
    RestIsOutstanding(s, c', after, q, |answer.events|);
    StillUnexpired(s, c', after, q, |answer.events|);
    if |answer.events| > 0 {
      PageAdvances(s, c', after, q, |answer.events|);
    }
    reply := Page(answer.truncated);
  }

  lemma HostIsTidy(s: System)
    requires Safe(s)
    ensures Tidy(s.journal.invocations)
  {
    RefinesTidy(s.journal, s.history, s.limits.maxInvocations, s.limits.maxEvents);
  }

  lemma PageIs(s: System, after: Cursors, q: seq<Envelope>, answer: ReplayResult)
    requires Safe(s) && AllSteady(s.logs) && NoneExpired(s.journal, after) && Outstanding(s, after, q)
    requires Distinct(Selected(s, after)) && Answers(s.journal, after, Some(after.Keys), DEFAULT_PROTOCOL_REPLAY_EVENTS, answer)
    ensures answer.Batch? && |answer.events| <= |q| && answer.events == q[..|answer.events|]
    ensures answer.truncated <==> |q| > DEFAULT_PROTOCOL_REPLAY_EVENTS
    ensures |answer.events| == if answer.truncated then DEFAULT_PROTOCOL_REPLAY_EVENTS else |q|
  {
    OutstandingFacts(s, after);
    hide Safe;
    SortedUnique(q, Arrange(Pending(Selected(s, after), after)));
    assert q[..|q|] == q;
  }

  lemma PagesNeededStep(n: nat)
    ensures PagesNeeded(n, DEFAULT_PROTOCOL_REPLAY_EVENTS) ==
              if n <= DEFAULT_PROTOCOL_REPLAY_EVENTS then 1
              else 1 + PagesNeeded(n - DEFAULT_PROTOCOL_REPLAY_EVENTS, DEFAULT_PROTOCOL_REPLAY_EVENTS)
  {
  }

  function Needed(n: nat): (r: nat)
    ensures r >= 1
  {
    PagesNeeded(n, DEFAULT_PROTOCOL_REPLAY_EVENTS)
  }

  /** Where an attach stands after `page` pages: what is outstanding, and what was received of the rest. */
  ghost predicate Progress(s: System, c: Client, c': Client, q: seq<Envelope>, page: nat) {
    && Ready(s, c') && Outstanding(s, ReplayCursors(c'), q) && ClientOk(c) && SameHandles(c, c') && Kept(s, c, c')
    && (if page == 0 then c' == c else Answerable(s, ReplayCursors(c)) && Answerable(s, ReplayCursors(c')))
    && Needed(Count(s, c)) == page + Needed(|q|)
  }

  ghost predicate AllReceived(s: System, c: Client, c': Client) {
    forall id :: Known(c, id) && id in s.journal.invocations ==> Received(s, c', id, c.invocations[id])
  }

  /** One more page: refused only at the first request, the last one when everything is received. */
  method AnotherPage(s: System, ghost c0: Client, c: Client, ghost q: seq<Envelope>, ghost page: nat) returns (c': Client, reply: PageReply)
    requires Progress(s, c0, c, q, page)
    ensures reply.Refusal? ==> page == 0 && c' == c0 && !Answerable(s, ReplayCursors(c0)) && !reply.reason.Batch?
    ensures reply.Page? ==> Answerable(s, ReplayCursors(c0))
    ensures reply.Page? && !reply.truncated ==> Needed(Count(s, c0)) == page + 1 && AllReceived(s, c0, c')
    ensures reply.Page? && reply.truncated ==>
              && |q| > DEFAULT_PROTOCOL_REPLAY_EVENTS && ReplayCursors(c') != ReplayCursors(c)
              && Progress(s, c0, c', q[DEFAULT_PROTOCOL_REPLAY_EVENTS..], page + 1)
  {
    hide Ready;
    hide Answerable;
    hide Outstanding;
    hide Kept;
    hide SameHandles;
    hide Count;
    hide PagesNeeded;
    hide ReplayCursors;
    PagesNeededStep(|q|);
    c', reply := AttachPage(s, c0, c, q);
    if reply.Page? && !reply.truncated {
      assert q[|q|..] == [];
      AllAreReceived(s, c0, c');
    }
  }

  /** An attach succeeds exactly when the host answers and the outstanding events fit the page bound, and
      then every retained invocation has received everything its pump appended. It never stalls. */
  method AttachRuntime(s: System, c: Client) returns (c': Client, outcome: AttachOutcome)
    requires Ready(s, c)
    ensures outcome.Refused? <==> !Answerable(s, ReplayCursors(c))
    ensures outcome.Refused? ==> c' == c && !outcome.reason.Batch?
    ensures outcome.Attached? <==>
              && Answerable(s, ReplayCursors(c))
              && PagesNeeded(Count(s, c), DEFAULT_PROTOCOL_REPLAY_EVENTS) <= MAX_REPLAY_PAGES
    ensures !outcome.NoProgress?
    ensures outcome.Attached? ==>
              forall id :: Known(c, id) && id in s.journal.invocations ==> Received(s, c', id, c.invocations[id])
  {
    hide Progress;
    hide Ready;
    hide Answerable;
    hide Count;
    hide Received;
    hide ReplayCursors;
    hide PagesNeeded;
    ghost var q := FirstProgress(s, c);
    c' := c;
    var page := 0;
    while page < MAX_REPLAY_PAGES
      invariant 0 <= page <= MAX_REPLAY_PAGES
      invariant Progress(s, c, c', q, page)
      invariant page > 0 ==> Answerable(s, ReplayCursors(c))
    {
      var after := ReplayCursors(c');
      var reply;
      c', reply := AnotherPage(s, c, c', q, page);
      if reply.Refusal? {
        return c', Refused(reply.reason);
      }
      if !reply.truncated {
        return c', Attached;
      }
      q := q[DEFAULT_PROTOCOL_REPLAY_EVENTS..];
      if ReplayCursors(c') == after {
        return c', NoProgress;
      }
      page := page + 1;
    }
    StillNeeded(s, c, c', q, page);
    outcome := TooManyPages;
  }

  lemma FirstProgress(s: System, c: Client) returns (q: seq<Envelope>)
    requires Ready(s, c)
    ensures Progress(s, c, c, q, 0)
  {
    q := FirstOutstanding(s, c);
    StartKept(s, c);
    hide Outstanding;
    hide Kept;
    hide SameHandles;
    hide Count;
    hide PagesNeeded;
  }

  lemma StillNeeded(s: System, c: Client, c': Client, q: seq<Envelope>, page: nat)
    requires Progress(s, c, c', q, page)
    ensures PagesNeeded(Count(s, c), DEFAULT_PROTOCOL_REPLAY_EVENTS) > page
  {
  }

  lemma FirstOutstanding(s: System, c: Client) returns (q: seq<Envelope>)
    requires Ready(s, c)
    ensures Outstanding(s, ReplayCursors(c), q) && |q| == Count(s, c)
  {
    var after := ReplayCursors(c);
    OutstandingFacts(s, after);
    hide Safe;
    q := Arrange(Pending(Selected(s, after), after));
    SortedNoDup(q);
    ElementsSize(q);
  }

  lemma StartKept(s: System, c: Client)
    requires ClientOk(c)
    ensures SameHandles(c, c) && Kept(s, c, c)
  {
  }
}
