/** What a live connection carries after an attach: no gap, and everything the pump has sent.

    The claims are about frames sent on a connection since it became the live one. They need a clock
    that does not step back between two events of one invocation, because a replay is ordered by
    observation time. */
module LiveDelivery {
  import opened Basics
  import opened Events
  import opened RecentWindow
  import opened Journal
  import opened JournalHistory
  import opened Replay
  import opened JournalStore
  import opened RemoteClient
  import opened Pipeline

  // --- runs of frames ---

  /** The highest sequence of `id` among frames `from..till`, or the cursor if that is higher. */
  function High(v: seq<Envelope>, from: nat, till: nat, id: InvocationId, cursor: nat): (n: nat)
    requires from <= till <= |v|
    ensures n >= cursor
    decreases till
  {
    if till == from then cursor
    else
      var before := High(v, from, till - 1, id, cursor);
      if v[till - 1].invocation == id && v[till - 1].sequence > before then v[till - 1].sequence else before
  }

  predicate Follows(v: seq<Envelope>, from: nat, k: nat, id: InvocationId, cursor: nat)
    requires from <= k < |v|
  {
    v[k].invocation == id ==> v[k].sequence <= High(v, from, k, id, cursor) + 1
  }

  /** A receiver that starts at the cursor and takes every frame meets no gap. */
  ghost predicate NoGap(v: seq<Envelope>, from: nat, id: InvocationId, cursor: nat)
    requires from <= |v|
  {
    forall k :: from <= k < |v| ==> Follows(v, from, k, id, cursor)
  }

  lemma {:induction false} HighOfPrefix(v: seq<Envelope>, u: seq<Envelope>, from: nat, till: nat, id: InvocationId, cursor: nat)
    requires from <= till <= |v| && v <= u
    ensures High(u, from, till, id, cursor) == High(v, from, till, id, cursor)
    decreases till
  {
    if till > from {
      HighOfPrefix(v, u, from, till - 1, id, cursor);
    }
  }

  lemma {:induction false} HighBounds(v: seq<Envelope>, from: nat, till: nat, id: InvocationId, cursor: nat, k: nat)
    requires from <= k < till <= |v| && v[k].invocation == id
    ensures v[k].sequence <= High(v, from, till, id, cursor)
    decreases till
  {
    if k < till - 1 {
      HighBounds(v, from, till - 1, id, cursor, k);
    }
  }

  lemma {:induction false} HighOfOthers(v: seq<Envelope>, from: nat, till: nat, id: InvocationId, cursor: nat)
    requires from <= till <= |v| && forall k :: from <= k < till ==> v[k].invocation != id
    ensures High(v, from, till, id, cursor) == cursor
    decreases till
  {
    if till > from {
      HighOfOthers(v, from, till - 1, id, cursor);
    }
  }

  // --- one followed invocation ---

  function Position(from: nat, pos: nat): (n: nat) {
    if pos < from then from else pos
  }

  /** The client's invocation, while it is registered, has everything read so far. */
  predicate HandleOk(c: Client, v: seq<Envelope>, from: nat, pos: nat, id: InvocationId, t: Tracked)
    requires from <= |v| && pos <= |v|
  {
    t.handle.Some? ==>
      && t.handle.value < |c.remotes|
      && (id in c.invocations && c.invocations[id] == t.handle.value ==>
            c.remotes[t.handle.value].lastSequence >= High(v, from, Position(from, pos), id, t.cursor))
  }

  ghost predicate FlowOne(c: Client, v: seq<Envelope>, from: nat, pos: nat, id: InvocationId, t: Tracked, sent: nat, whole: bool)
    requires from <= |v| && pos <= |v|
  {
    && NoGap(v, from, id, t.cursor)
    && (whole ==> High(v, from, |v|, id, t.cursor) >= sent)
    && HandleOk(c, v, from, pos, id, t)
  }

  ghost predicate FlowOk(c: Client, v: seq<Envelope>, from: nat, pos: nat, tracked: map<InvocationId, Tracked>, sent: map<InvocationId, nat>, whole: bool) {
    && from <= |v| && pos <= |v|
    && forall id :: id in tracked ==> id in sent && FlowOne(c, v, from, pos, id, tracked[id], sent[id], whole)
  }

  /** Sending the pump's next event, or any event of another invocation, keeps the flow. */
  lemma PushKeepsOne(c: Client, v: seq<Envelope>, from: nat, pos: nat, id: InvocationId, t: Tracked, sent: nat, whole: bool, e: Envelope, sent': nat)
    requires from <= |v| && pos <= |v| && FlowOne(c, v, from, pos, id, t, sent, whole)
    requires if e.invocation == id then whole && e.sequence == sent + 1 == sent' else sent' == sent
    ensures FlowOne(c, v + [e], from, pos, id, t, sent', whole)
  {
    var u := v + [e];
    HighOfPrefix(v, u, from, |v|, id, t.cursor);
    HighOfPrefix(v, u, from, Position(from, pos), id, t.cursor);
    forall k | from <= k < |u|
      ensures Follows(u, from, k, id, t.cursor)
    {
      if k < |v| {
        assert Follows(v, from, k, id, t.cursor);
        HighOfPrefix(v, u, from, k, id, t.cursor);
      }
    }
  }

  /** Routing a frame keeps the flow, and a followed frame is never a gap. */
  lemma RouteKeepsOne(c: Client, v: seq<Envelope>, from: nat, pos: nat, pos': nat, id: InvocationId, t: Tracked, e: Envelope, send: SendOutcome)
    requires ClientOk(c) && from <= |v| && pos <= |v| && NoGap(v, from, id, t.cursor) && HandleOk(c, v, from, pos, id, t)
    requires pos' == pos || (pos' == pos + 1 <= |v| && v[pos] == e)
    ensures HandleOk(Route(c, e, send), v, from, pos', id, t)
  {
    if t.handle.Some? && id in c.invocations && c.invocations[id] == t.handle.value {
      assert RegisteredOk(c, id);
      if e.invocation in c.invocations {
        assert RegisteredOk(c, e.invocation);
      }
      if pos' == pos + 1 && pos >= from {
        assert Follows(v, from, pos, id, t.cursor);
      }
    }
  }

  lemma RegisterKeepsOne(c: Client, v: seq<Envelope>, from: nat, pos: nat, id: InvocationId, t: Tracked, started: InvocationId)
    requires from <= |v| && pos <= |v| && HandleOk(c, v, from, pos, id, t)
    ensures HandleOk(Register(c, started), v, from, pos, id, t)
  {
  }

  lemma GiveUpKeepsOne(c: Client, v: seq<Envelope>, from: nat, pos: nat, id: InvocationId, t: Tracked, gone: InvocationId, failure: Option<Failure>)
    requires from <= |v| && pos <= |v| && HandleOk(c, v, from, pos, id, t)
    ensures HandleOk(GiveUp(c, gone, failure), v, from, pos, id, t)
  {
  }

  // --- all followed invocations ---

  predicate PushFits(id: InvocationId, sent: map<InvocationId, nat>, sent': map<InvocationId, nat>, whole: bool, e: Envelope) {
    && id in sent && id in sent'
    && if e.invocation == id then whole && e.sequence == sent[id] + 1 == sent'[id] else sent'[id] == sent[id]
  }

  lemma PushKeepsFlow(c: Client, v: seq<Envelope>, from: nat, pos: nat, tracked: map<InvocationId, Tracked>, sent: map<InvocationId, nat>, whole: bool, e: Envelope, sent': map<InvocationId, nat>)
    requires FlowOk(c, v, from, pos, tracked, sent, whole)
    requires forall id :: id in tracked ==> PushFits(id, sent, sent', whole, e)
    ensures FlowOk(c, v + [e], from, pos, tracked, sent', whole)
  {
    forall id | id in tracked
      ensures id in sent' && FlowOne(c, v + [e], from, pos, id, tracked[id], sent'[id], whole)
    {
      assert PushFits(id, sent, sent', whole, e);
      PushKeepsOne(c, v, from, pos, id, tracked[id], sent[id], whole, e, sent'[id]);
    }
  }

  lemma RouteKeepsFlow(c: Client, v: seq<Envelope>, from: nat, pos: nat, pos': nat, tracked: map<InvocationId, Tracked>, sent: map<InvocationId, nat>, whole: bool, e: Envelope, send: SendOutcome)
    requires ClientOk(c) && FlowOk(c, v, from, pos, tracked, sent, whole)
    requires pos' == pos || (pos' == pos + 1 <= |v| && v[pos] == e)
    ensures FlowOk(Route(c, e, send), v, from, pos', tracked, sent, whole)
  {
    forall id | id in tracked
      ensures id in sent && FlowOne(Route(c, e, send), v, from, pos', id, tracked[id], sent[id], whole)
    {
      assert FlowOne(c, v, from, pos, id, tracked[id], sent[id], whole);
      RouteKeepsOne(c, v, from, pos, pos', id, tracked[id], e, send);
    }
  }

  lemma ClientKeepsFlow(c: Client, v: seq<Envelope>, from: nat, pos: nat, tracked: map<InvocationId, Tracked>, sent: map<InvocationId, nat>, whole: bool, gone: InvocationId, failure: Option<Failure>)
    requires FlowOk(c, v, from, pos, tracked, sent, whole)
    ensures FlowOk(Register(c, gone), v, from, pos, tracked, sent, whole)
    ensures FlowOk(GiveUp(c, gone, failure), v, from, pos, tracked, sent, whole)
  {
    forall id | id in tracked
      ensures id in sent && FlowOne(Register(c, gone), v, from, pos, id, tracked[id], sent[id], whole)
      ensures FlowOne(GiveUp(c, gone, failure), v, from, pos, id, tracked[id], sent[id], whole)
    {
      assert FlowOne(c, v, from, pos, id, tracked[id], sent[id], whole);
      RegisterKeepsOne(c, v, from, pos, id, tracked[id], gone);
      GiveUpKeepsOne(c, v, from, pos, id, tracked[id], gone, failure);
    }
  }

  // --- the invariant ---

  /** Observation times do not step back within an invocation. */
  ghost predicate Steady(log: seq<Envelope>) {
    forall k :: 0 < k < |log| ==> log[k - 1].observedAt <= log[k].observedAt
  }

  ghost predicate AllSteady(logs: map<InvocationId, seq<Envelope>>) {
    forall id :: id in logs ==> Steady(logs[id])
  }

  ghost predicate LiveOk(c: Client, wires: seq<seq<Envelope>>, read: seq<nat>, sink: Option<nat>, from: nat, tracked: map<InvocationId, Tracked>, sent: map<InvocationId, nat>) {
    if sink.Some? then
      && sink.value < |wires| && sink.value < |read|
      && FlowOk(c, wires[sink.value], from, read[sink.value], tracked, sent, true)
    else tracked == map[]
  }

  /** While a replay is being sent, its remaining queue is counted as already on the wire. */
  ghost predicate ReplayFlowOk(c: Client, wires: seq<seq<Envelope>>, read: seq<nat>, replay: Option<Replaying>, sent: map<InvocationId, nat>) {
    replay.Some? ==>
      && replay.value.conn < |wires| && replay.value.conn < |read|
      && FlowOk(c, wires[replay.value.conn] + replay.value.queue, replay.value.base, read[replay.value.conn],
                replay.value.tracked, sent, replay.value.whole)
  }

  /** What is followed on the live connection already is not in the replay. */
  ghost predicate QueueAvoids(replay: Option<Replaying>, tracked: map<InvocationId, Tracked>) {
    replay.Some? ==> forall i :: 0 <= i < |replay.value.queue| ==> replay.value.queue[i].invocation !in tracked
  }

  ghost predicate Flowing(s: System) {
    && AllSteady(s.logs)
    && LiveOk(s.client, s.wires, s.read, s.sink, s.base, s.tracked, s.sent)
    && ReplayFlowOk(s.client, s.wires, s.read, s.replay, s.sent)
    && QueueAvoids(s.replay, s.tracked)
  }

  /** An event is not stamped before the previous one of its invocation. */
  predicate InTime(s: System, a: Action) {
    a.Emit? && a.id in s.logs && s.logs[a.id] != [] ==> s.logs[a.id][|s.logs[a.id]| - 1].observedAt <= a.now
  }

  // --- starting a turn ---

  lemma FreshFlow(logs: map<InvocationId, seq<Envelope>>, c: Client, v: seq<Envelope>, from: nat, pos: nat, id: InvocationId)
    requires AllEmitted(logs, v) && id !in logs && from <= |v| && pos <= |v|
    ensures FlowOne(c, v, from, pos, id, Tracked(0, HandleAt(c, id, 0)), 0, true)
  {
    forall k | 0 <= k < |v|
      ensures v[k].invocation != id
    {
      assert Emitted(logs, v[k]);
    }
    forall k | from <= k < |v|
      ensures Follows(v, from, k, id, 0)
    {
      assert v[k].invocation != id;
    }
    HighOfOthers(v, from, Position(from, pos), id, 0);
  }

  lemma StartKeepsLive(logs: map<InvocationId, seq<Envelope>>, c: Client, v: seq<Envelope>, from: nat, pos: nat,
    tracked: map<InvocationId, Tracked>, sent: map<InvocationId, nat>, id: InvocationId)
    requires AllEmitted(logs, v) && id !in logs && FlowOk(c, v, from, pos, tracked, sent, true)
    ensures FlowOk(c, v, from, pos, tracked[id := Tracked(0, HandleAt(c, id, 0))], sent[id := 0], true)
  {
    var tracked' := tracked[id := Tracked(0, HandleAt(c, id, 0))];
    FreshFlow(logs, c, v, from, pos, id);
    forall other | other in tracked'
      ensures other in sent[id := 0] && FlowOne(c, v, from, pos, other, tracked'[other], sent[id := 0][other], true)
    {
      assert other != id ==> other in tracked && other in sent;
    }
  }

  lemma StartKeepsReplay(c: Client, v: seq<Envelope>, from: nat, pos: nat,
    tracked: map<InvocationId, Tracked>, sent: map<InvocationId, nat>, whole: bool, id: InvocationId)
    requires id !in sent && FlowOk(c, v, from, pos, tracked, sent, whole)
    ensures FlowOk(c, v, from, pos, tracked, sent[id := 0], whole)
  {
    forall other | other in tracked
      ensures other in sent[id := 0] && FlowOne(c, v, from, pos, other, tracked[other], sent[id := 0][other], whole)
    {
      assert other in sent;
    }
  }

  lemma QueueAvoidsFresh(logs: map<InvocationId, seq<Envelope>>, queue: seq<Envelope>, id: InvocationId)
    requires AllEmitted(logs, queue) && id !in logs
    ensures forall i :: 0 <= i < |queue| ==> queue[i].invocation != id
  {
    forall i | 0 <= i < |queue|
      ensures queue[i].invocation != id
    {
      assert Emitted(logs, queue[i]);
    }
  }

  lemma StartKeepsFlowing(s: System, conn: nat, id: InvocationId)
    requires Safe(s) && Flowing(s) && Enabled(s, StartTurn(conn, id))
    ensures Flowing(AfterStartTurn(s, conn, id))
  {
    hide JournalOk;
    hide RemotesOk;
    hide FlowOne;
    var s' := AfterStartTurn(s, conn, id);
    assert AllEmitted(s.logs, s.wires[conn]);
    var kept := if s.sink == Some(conn) then s.tracked else map[];
    assert s'.tracked == kept[id := Tracked(0, HandleAt(s.client, id, 0))];
    StartKeepsLive(s.logs, s.client, s.wires[conn], s'.base, s.read[conn], kept, s.sent, id);
    if s.replay.Some? {
      var r := s.replay.value;
      StartKeepsReplay(s.client, s.wires[r.conn] + r.queue, r.base, s.read[r.conn], r.tracked, s.sent, r.whole, id);
      QueueAvoidsFresh(s.logs, r.queue, id);
    }
  }

  // --- the pump's send ---

  lemma SendKeepsFlowing(s: System, id: InvocationId, ok: bool, arrived: bool)
    requires Safe(s) && Flowing(s) && Enabled(s, PumpSend(id, ok, arrived))
    ensures Flowing(AfterPumpSend(s, id, ok, arrived))
  {
    hide JournalOk;
    hide RemotesOk;
    var s' := AfterPumpSend(s, id, ok, arrived);
    if s.sink.Some? && ok {
      var e := s.logs[id][s.sent[id]];
      assert LogOk(s.logs[id], id);
      forall other | other in s.tracked
        ensures PushFits(other, s.sent, s'.sent, true, e)
      {
        assert other in s.sent;
      }
      PushKeepsFlow(s.client, s.wires[s.sink.value], s.base, s.read[s.sink.value], s.tracked, s.sent, true, e, s'.sent);
    }
  }

  // --- reading ---

  lemma ReceiveKeepsFlowing(s: System, conn: nat, send: SendOutcome)
    requires Safe(s) && Flowing(s) && Enabled(s, Receive(conn, send))
    ensures Flowing(Step(s, Receive(conn, send)))
  {
    hide JournalOk;
    hide RemotesOk;
    hide FlowOk;
    var s' := Step(s, Receive(conn, send));
    var e := s.wires[conn][s.read[conn]];
    if s.sink.Some? {
      var c := s.sink.value;
      RouteKeepsFlow(s.client, s.wires[c], s.base, s.read[c], s'.read[c], s.tracked, s.sent, true, e, send);
    }
    if s.replay.Some? {
      var r := s.replay.value;
      assert (s.wires[r.conn] + r.queue)[..|s.wires[r.conn]|] == s.wires[r.conn];
      RouteKeepsFlow(s.client, s.wires[r.conn] + r.queue, r.base, s.read[r.conn], s'.read[r.conn], r.tracked, s.sent, r.whole, e, send);
    }
  }

  lemma ClientKeepsFlowing(s: System, a: Action)
    requires Flowing(s) && (a.ClientStart? || a.ClientGiveUp?) && Enabled(s, a)
    ensures Flowing(Step(s, a))
  {
    hide FlowOk;
    var failure := if a.ClientGiveUp? then a.failure else None;
    if s.sink.Some? {
      var c := s.sink.value;
      ClientKeepsFlow(s.client, s.wires[c], s.base, s.read[c], s.tracked, s.sent, true, a.id, failure);
    }
    if s.replay.Some? {
      var r := s.replay.value;
      ClientKeepsFlow(s.client, s.wires[r.conn] + r.queue, r.base, s.read[r.conn], r.tracked, s.sent, r.whole, a.id, failure);
    }
  }

  // --- sending the replay ---

  lemma AttachSendKeepsFlowing(s: System)
    requires Safe(s) && Flowing(s) && Enabled(s, AttachSend)
    ensures Flowing(Step(s, AttachSend))
  {
    hide JournalOk;
    hide RemotesOk;
    hide FlowOk;
    var r := s.replay.value;
    var e := r.queue[0];
    assert s.wires[r.conn] + [e] + r.queue[1..] == s.wires[r.conn] + r.queue;
    if s.sink == Some(r.conn) {
      LivePush(s, e);
    }
  }

  lemma LivePush(s: System, e: Envelope)
    requires s.sink.Some? && s.sink.value < |s.wires| && s.sink.value < |s.read| && e.invocation !in s.tracked
    requires FlowOk(s.client, s.wires[s.sink.value], s.base, s.read[s.sink.value], s.tracked, s.sent, true)
    ensures FlowOk(s.client, s.wires[s.sink.value] + [e], s.base, s.read[s.sink.value], s.tracked, s.sent, true)
  {
    forall id | id in s.tracked
      ensures PushFits(id, s.sent, s.sent, true, e)
    {
    }
    PushKeepsFlow(s.client, s.wires[s.sink.value], s.base, s.read[s.sink.value], s.tracked, s.sent, true, e, s.sent);
  }

  lemma AttachEndKeepsFlowing(s: System)
    requires Flowing(s) && Enabled(s, AttachEnd)
    ensures Flowing(AfterAttachEnd(s))
  {
    var r := s.replay.value;
    var s' := AfterAttachEnd(s);
    assert s.wires[r.conn] + [] == s.wires[r.conn];
    if s.sink == Some(r.conn) && s.base == r.base && r.whole {
      forall id | id in s'.tracked
        ensures id in s.sent && FlowOne(s.client, s.wires[r.conn], s.base, s.read[r.conn], id, s'.tracked[id], s.sent[id], true)
      {
        if id in s.tracked {
        } else {
          assert id in r.tracked;
        }
      }
    }
  }

  lemma AttachAbortKeepsFlowing(s: System, arrived: bool)
    requires Flowing(s) && Enabled(s, AttachAbort(arrived))
    ensures Flowing(AfterAttachAbort(s, arrived))
  {
    var s' := AfterAttachAbort(s, arrived);
    assert s.sink == Some(s.replay.value.conn) ==> s'.tracked == map[];
  }

  // --- beginning an attach ---

  /** With an unexpired cursor, every appended event past it is there to be replayed. */
  lemma RetainedPastCursor(s: System, after: Cursors, id: InvocationId, n: nat)
    requires Safe(s) && id in after && id in s.journal.invocations && !CursorExpired(s.journal, after, id)
    requires id in s.logs && id in s.pumped && after[id] < n <= s.pumped[id] && s.pumped[id] <= |s.logs[id]|
    ensures s.logs[id][n - 1] in Pending(Pool(s.journal.invocations, Some(after.Keys)), after)
  {
    var w := s.journal.invocations[id];
    assert WindowOk(w, id, s.history.logs, s.limits.maxEvents);
    assert AppendedOk(s.history, s.logs, s.pumped, id);
    assert LogOk(s.logs[id], id);
    var e := s.logs[id][n - 1];
    assert w.events[n - 1 - w.evictedThrough] == s.history.logs[id][n - 1] == e;
    assert e in w.events && Picked(Some(after.Keys), id);
    assert e in Pool(s.journal.invocations, Some(after.Keys));
  }

  /** A replayed event is an appended event of a retained, cursored invocation. */
  lemma PendingMeaning(s: System, after: Cursors, e: Envelope)
    requires Safe(s) && e in Pending(Pool(s.journal.invocations, Some(after.Keys)), after)
    ensures e.invocation in after && e.invocation in s.journal.invocations && Emitted(s.logs, e)
    ensures e.invocation in s.pumped && after[e.invocation] < e.sequence <= s.pumped[e.invocation] <= |s.logs[e.invocation]|
  {
    hide Safe;
    RetainedMeaning(s, Some(after.Keys), e);
  }

  lemma EarlierIfBefore(q: seq<Envelope>, j: nat, k: nat)
    requires Sorted(q) && j < |q| && k < |q| && Before(q[j], q[k])
    ensures j < k
  {
  }

  /** In a replay, an event comes after its predecessor. */
  lemma PredecessorFirst(s: System, after: Cursors, q: seq<Envelope>, k: nat)
    requires Safe(s) && AllSteady(s.logs) && NoneExpired(s.journal, after)
    requires Sorted(q) && Elements(q) == Pending(Pool(s.journal.invocations, Some(after.Keys)), after) && k < |q|
    requires q[k].invocation in after && q[k].sequence > after[q[k].invocation] + 1
    ensures exists j :: 0 <= j < k && q[j].invocation == q[k].invocation && q[j].sequence == q[k].sequence - 1
  {
    var e := q[k];
    var id := e.invocation;
    assert e in Elements(q);
    PendingMeaning(s, after, e);
    assert LogOk(s.logs[id], id) && Steady(s.logs[id]);
    var p := s.logs[id][e.sequence - 2];
    RetainedPastCursor(s, after, id, e.sequence - 1);
    assert p in Elements(q);
    var j :| 0 <= j < |q| && q[j] == p;
    assert Before(q[j], q[k]);
    EarlierIfBefore(q, j, k);
  }

  lemma BatchFollows(s: System, after: Cursors, q: seq<Envelope>, w: seq<Envelope>, n: nat, id: InvocationId)
    requires Safe(s) && AllSteady(s.logs) && NoneExpired(s.journal, after)
    requires Sorted(q) && Elements(q) == Pending(Pool(s.journal.invocations, Some(after.Keys)), after)
    requires n <= |q| && id in after
    ensures NoGap(w + q[..n], |w|, id, after[id])
  {
    hide Safe;
    var v := w + q[..n];
    forall k | |w| <= k < |v|
      ensures Follows(v, |w|, k, id, after[id])
    {
      var i := k - |w|;
      assert v[k] == q[i];
      if q[i].invocation == id && q[i].sequence > after[id] + 1 {
        PredecessorFirst(s, after, q, i);
        var j :| 0 <= j < i && q[j].invocation == id && q[j].sequence == q[i].sequence - 1;
        assert v[|w| + j] == q[j];
        HighBounds(v, |w|, k, id, after[id], |w| + j);
      }
    }
  }

  lemma BatchReachesSent(s: System, after: Cursors, q: seq<Envelope>, w: seq<Envelope>, id: InvocationId)
    requires Safe(s) && NoneExpired(s.journal, after)
    requires Elements(q) == Pending(Pool(s.journal.invocations, Some(after.Keys)), after)
    requires id in after && Followable(s, id, after[id])
    ensures High(w + q, |w|, |w + q|, id, after[id]) >= s.sent[id]
  {
    var v := w + q;
    assert PumpOk(s.logs, s.pumped, s.sent, id);
    if s.sent[id] > after[id] {
      assert !CursorExpired(s.journal, after, id);
      RetainedPastCursor(s, after, id, s.sent[id]);
      var e := s.logs[id][s.sent[id] - 1];
      assert LogOk(s.logs[id], id);
      assert e in Elements(q);
      var j :| 0 <= j < |q| && q[j] == e;
      assert v[|w| + j] == e;
      HighBounds(v, |w|, |v|, id, after[id], |w| + j);
    }
  }

  lemma AttachBeginsFlow(s: System, conn: nat, after: Cursors, limit: nat, answer: ReplayResult)
    requires Safe(s) && Flowing(s) && Enabled(s, AttachBegin(conn, after, limit, answer)) && answer.Batch?
    ensures FlowOk(s.client, s.wires[conn] + answer.events, |s.wires[conn]|, s.read[conn], Follow(s, after), s.sent, !answer.truncated)
  {
    var pool := Pool(s.journal.invocations, Some(after.Keys));
    SubsetDistinct(Pending(pool, after), pool);
    var q := Arrange(Pending(pool, after));
    var n := |answer.events|;
    assert NoneExpired(s.journal, after);
    assert answer.events == q[..n] && (!answer.truncated ==> n == |q|);
    var w := s.wires[conn];
    var tracked := Follow(s, after);
    forall id | id in tracked
      ensures id in s.sent && FlowOne(s.client, w + answer.events, |w|, s.read[conn], id, tracked[id], s.sent[id], !answer.truncated)
    {
      BeginsOne(s, conn, after, q, n, id);
    }
  }

  lemma BeginsOne(s: System, conn: nat, after: Cursors, q: seq<Envelope>, n: nat, id: InvocationId)
    requires Safe(s) && AllSteady(s.logs) && NoneExpired(s.journal, after) && conn < |s.wires|
    requires Sorted(q) && Elements(q) == Pending(Pool(s.journal.invocations, Some(after.Keys)), after)
    requires n <= |q| && id in after && Followable(s, id, after[id])
    ensures conn < |s.read| && s.read[conn] <= |s.wires[conn]| && id in s.sent
    ensures FlowOne(s.client, s.wires[conn] + q[..n], |s.wires[conn]|, s.read[conn], id,
                    Tracked(after[id], HandleAt(s.client, id, after[id])), s.sent[id], n == |q|)
  {
    assert PumpOk(s.logs, s.pumped, s.sent, id);
    var w := s.wires[conn];
    BatchFollows(s, after, q, w, n, id);
    if n == |q| {
      BatchReachesSent(s, after, q, w, id);
      assert q[..n] == q;
    }
  }

  // --- every run with a steady clock ---

  lemma AttachBeginKeepsFlowing(s: System, conn: nat, after: Cursors, limit: nat, answer: ReplayResult)
    requires Safe(s) && Flowing(s) && Enabled(s, AttachBegin(conn, after, limit, answer))
    ensures Flowing(AfterAttachBegin(s, conn, after, answer))
  {
    if answer.Batch? {
      AttachBeginsFlow(s, conn, after, limit, answer);
    }
  }

  lemma StepKeepsFlowing(s: System, a: Action)
    requires Safe(s) && Flowing(s) && Enabled(s, a) && InTime(s, a)
    ensures Flowing(Step(s, a))
  {
    match a {
      case StartTurn(conn, id) => StartKeepsFlowing(s, conn, id);
      case PumpSend(id, ok, arrived) => SendKeepsFlowing(s, id, ok, arrived);
      case Receive(conn, send) => ReceiveKeepsFlowing(s, conn, send);
      case ClientStart(_) => ClientKeepsFlowing(s, a);
      case ClientGiveUp(_, _) => ClientKeepsFlowing(s, a);
      case AttachBegin(conn, after, limit, answer) => AttachBeginKeepsFlowing(s, conn, after, limit, answer);
      case AttachSend => AttachSendKeepsFlowing(s);
      case AttachEnd => AttachEndKeepsFlowing(s);
      case AttachAbort(arrived) => AttachAbortKeepsFlowing(s, arrived);
      case Emit(_, _, _, _) => EmitKeepsFlowing(s, a);
      case PumpAppend(_) =>
      case JournalLost =>
      case Connect =>
    }
  }

  lemma EmitKeepsFlowing(s: System, a: Action)
    requires Flowing(s) && a.Emit? && Enabled(s, a) && InTime(s, a)
    ensures Flowing(Step(s, a))
  {
    var logs' := Step(s, a).logs;
    forall id | id in logs'
      ensures Steady(logs'[id])
    {
      assert Steady(s.logs[id]);
    }
  }

  /** Every event of the run is stamped no earlier than the one before it in its invocation. */
  ghost predicate SteadyRun(limits: Limits, actions: seq<Action>) {
    actions != [] ==>
      var before := Run(limits, actions[..|actions| - 1]);
      && SteadyRun(limits, actions[..|actions| - 1])
      && (before.Some? ==> InTime(before.value, actions[|actions| - 1]))
  }

  lemma {:induction false} RunKeepsFlowing(limits: Limits, actions: seq<Action>, s: System)
    requires Reaches(limits, actions, s) && SteadyRun(limits, actions)
    ensures Flowing(s)
    decreases |actions|
  {
    if actions != [] {
      var before := Run(limits, actions[..|actions| - 1]).value;
      RunKeepsFlowing(limits, actions[..|actions| - 1], before);
      RunKeepsSafe(limits, actions[..|actions| - 1], before);
      StepKeepsFlowing(before, actions[|actions| - 1]);
    }
  }

  // --- results ---

  /** The frame the client is about to read belongs to a followed invocation still registered as it was. */
  predicate ReadsFollowed(s: System, id: InvocationId) {
    && s.sink.Some? && s.sink.value < |s.wires| && s.sink.value < |s.read|
    && s.base <= s.read[s.sink.value] < |s.wires[s.sink.value]|
    && s.wires[s.sink.value][s.read[s.sink.value]].invocation == id
    && StillFollowed(s, id)
  }

  predicate StillFollowed(s: System, id: InvocationId) {
    && id in s.tracked && s.tracked[id].handle.Some?
    && id in s.client.invocations && s.client.invocations[id] == s.tracked[id].handle.value
    && Known(s.client, id)
  }

  /** On the live connection a followed invocation never meets a gap, so it never asks for recovery. */
  lemma NoGapOnLiveConnection(limits: Limits, actions: seq<Action>, s: System, id: InvocationId, send: SendOutcome)
    requires Reaches(limits, actions, s) && SteadyRun(limits, actions) && ReadsFollowed(s, id)
    ensures var e := s.wires[s.sink.value][s.read[s.sink.value]];
            && Classify(s.client, e) != Gap
            && Route(s.client, e, send).recoveries == s.client.recoveries
  {
    RunKeepsFlowing(limits, actions, s);
    var c := s.sink.value;
    var v := s.wires[c];
    assert FlowOne(s.client, v, s.base, s.read[c], id, s.tracked[id], s.sent[id], true);
    assert Follows(v, s.base, s.read[c], id, s.tracked[id].cursor);
  }

  /** Once everything sent on the live connection has been read, a followed invocation has received
      every event its pump has sent. */
  lemma CaughtUp(limits: Limits, actions: seq<Action>, s: System, id: InvocationId)
    requires Reaches(limits, actions, s) && SteadyRun(limits, actions) && StillFollowed(s, id)
    requires s.sink.Some? && s.sink.value < |s.wires| && s.sink.value < |s.read|
    requires s.read[s.sink.value] == |s.wires[s.sink.value]|
    ensures id in s.logs && id in s.sent && s.sent[id] <= |s.logs[id]|
    ensures s.logs[id][..s.sent[id]] <= s.client.remotes[s.client.invocations[id]].delivered
  {
    RunKeepsFlowing(limits, actions, s);
    RunKeepsSafe(limits, actions, s);
    var c := s.sink.value;
    var h := s.client.invocations[id];
    assert FlowOne(s.client, s.wires[c], s.base, s.read[c], id, s.tracked[id], s.sent[id], true);
    assert PumpOk(s.logs, s.pumped, s.sent, id);
    assert RegisteredOk(s.client, id) && RemoteOk(s.logs, s.client.remotes[h]);
    assert s.client.remotes[h].lastSequence >= s.sent[id];
  }

  /** A complete replay reaches what the pump has sent exactly when the journal still retains the invocation
      or the cursor is not behind the pump: an invocation the journal has forgotten is replayed as nothing at
      all, without an error. `Forgotten` says what follows then. */
  lemma ReplayCoversIff(s: System, conn: nat, after: Cursors, limit: nat, answer: ReplayResult, id: InvocationId)
    requires Safe(s) && Enabled(s, AttachBegin(conn, after, limit, answer)) && answer.Batch? && !answer.truncated
    requires id in after && id in s.logs
    ensures id in s.sent
    ensures var v := s.wires[conn] + answer.events;
            High(v, |s.wires[conn]|, |v|, id, after[id]) >= s.sent[id] <==> Followable(s, id, after[id])
  {
    assert PumpOk(s.logs, s.pumped, s.sent, id);
    var pool := Pool(s.journal.invocations, Some(after.Keys));
    SubsetDistinct(Pending(pool, after), pool);
    var q := Arrange(Pending(pool, after));
    assert NoneExpired(s.journal, after) && answer.events == q;
    if Followable(s, id, after[id]) {
      BatchReachesSent(s, after, q, s.wires[conn], id);
    } else {
      NothingReplayed(s, after, q, s.wires[conn], id);
    }
  }

  lemma NothingReplayed(s: System, after: Cursors, q: seq<Envelope>, w: seq<Envelope>, id: InvocationId)
    requires Safe(s) && Elements(q) == Pending(Pool(s.journal.invocations, Some(after.Keys)), after)
    requires id in after && id !in s.journal.invocations
    ensures High(w + q, |w|, |w + q|, id, after[id]) == after[id]
  {
    hide Safe;
    var v := w + q;
    forall k | |w| <= k < |v|
      ensures v[k].invocation != id
    {
      assert v[k] == q[k - |w|] && q[k - |w|] in Elements(q);
      PendingMeaning(s, after, v[k]);
    }
    HighOfOthers(v, |w|, |v|, id, after[id]);
  }
}
